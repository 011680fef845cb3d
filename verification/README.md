# Verified models of the UTF barrier, reduction and message protocols

This project models four protocols of the UTF library and proves what they are for, over all inputs, all
runs and all reachable states.

* **The butterfly network builder.** Every process works out alone which peers it sends to and receives
  from along its axes. `Lines` covers how it finds the nodes of each axis, `Axis` the per-axis tables,
  `AxisRounds` what running the tables does, `Network` the steps of all axes together, `Placement` the
  same when every line has an order of its own, `Survey` that sorting gives such orders, `Optimizer` the
  compaction of the step array, `Wiring` the exchange of gate words, `GateWords` and `GateIds` the packed
  64-bit words and gate ids, `GateNetwork` the connections as set and the asynchronous firing of the gates
  over them, `GateRuns` complete runs, `GateCount` the number of gates, and `Builder` the whole construction
  in place. A gate fires when all its inputs have arrived; the
  last gate of an ear has no local input, so what it receives replaces its value.
* **The shared-memory barrier and reduction of a node.** `SoftTree` is the binomial tree, `SoftBarrier`
  the interleaved steps of all processes of a node over shared cells with wrapping sequence numbers,
  `SoftSystem` many such nodes joined by the inter-node operation of their leaders, `SoftPoll` the
  resumable poll function in place on words, `SoftOps` the word operations. `Sums`, `MaxMin`, `FloatMaxMin`
  and `Logical` cover the encoders that turn sum, maximum, minimum, MAXLOC and logical operations into word
  operations, and `Collective` whole calls from encoder to decoder.
* **The eager and rendezvous message protocol.** `Messages` holds the send engine and the receive engine,
  `Connection` one sender and one receiver joined by an in-order put channel with completions and resets,
  `ConnectionWork` exactly when it comes to rest, `ConnectionLoss` exactly when messages are lost,
  `ConnectionLimits` runs that lose a message or never end, `Rendezvous` the chunked remote gets of any
  number of messages at a time, `Endpoints` the control blocks in place, `Delivery` connection and fetching
  as one machine with the end-to-end statement, and `DeliveryRuns` a rendezvous message from post to buffer.
* **The file barrier of the simulator.** `FileBarrier`: two alternating files and markers that repeat
  every four barriers.

Code that updates state step by step is modelled by classes and methods whose contracts tie the new state
to a function of the old one; concurrency is modelled by state machines whose steps are single accesses to
shared memory, single network events, or single bytes of a file. `Powers` holds the bit arithmetic that
the builder and the encoders share.

## Results in short

* Every contribution is counted exactly once at every position, for every axis length (`ExactlyOnce`), for
  every grid and whatever order the sorting gives each line (`GridExact`, `SortedExact`, `CountedOnce`), also
  when the gates fire in any order (`EndDelivers`).
* The gate network is a barrier without deadlock (`NoneEndsEarly`, `SomeGateCanFire`, `EveryGateFires`). Its
  gates fire by the sources that the set-up code writes (`LocalConnected`, `RemoteConnected`,
  `ConnectProcess`), both ends of every connection name each other (`LocalMutual`, `RemoteReciprocal`,
  `IdsReciprocal`), and so do the tables and arrays they come from (`Reciprocal`, `LinesAgree`).
* The optimiser preserves the order of all receives and sends (`TracePreserved`), and the gate formula is
  exact (`GateFormula`).
* The shared-memory barrier is safe for any number of nodes, processes and episodes, makes progress, ends,
  reuses no cell too early, and returns the reduction of its own episode (`NoneReturnsEarly`,
  `SomePollAdvances`, `BoundedPolls`, `ReusedAfterReading`, `ReturnsReduction`).
* Whole calls return what MPI asks for: the wrapped sum, the extreme, the bitwise and the logical result over
  all processes of all nodes (`SumResult`, `IntegerResult`, `FloatResult`, `BitwiseResult`, `LogicalResult`).
* The message protocol never overwrites an unread slot and gives up exactly when it is told that there is no
  receive buffer (`WindowSafe`, `NeverAborts`). At rest it has delivered every message in order and byte for
  byte if and only if no message began while the receiver had no free request, in which case the code drops
  the packet, and every length fits the 35 bits of the size field (`RestMeansDelivered`, `LosingRun`,
  `LossSpreads`). It
  comes to rest if and only if no eager message was posted whose length modulo 2^35 is less than one packet
  carries (`RestsExactly`, `BoundedExactly`, `LongNeverRests`). Connection and fetching together bring every
  message into the user's buffer (`FetchesItsMessage`, `EndToEnd`, `WholeFetch`).
* MAXLOC and MINLOC always return an extreme value. They follow the tie rule of section 5.9.4 of MPI 3.1 if
  and only if some process with the right pair has the best left-over bytes in its value word (`LocExact`);
  this is always so when the value fills its word, and fails otherwise (`FullWordLoc`, `TieLost`).

## Model

| member | source | states |
|---|---|---|
| `Lines.KindMeans` | src/vbg/utf_bg_alloc.c:105-136 | the nested comparison of logical addresses classifies a node as on an axis exactly if it differs in that coordinate alone |
| `Lines.Bounds` | src/vbg/utf_bg_alloc.c:137-149 | the running maximum and minimum are the tight bounds of all nodes along an axis |
| `Lines.CompareOrders` | src/vbg/utf_bg_alloc.c:167-196 | the sort comparison is a total order that separates different physical addresses |
| `Lines.CompareLexicographic` | src/vbg/utf_bg_alloc.c:167-196 | the order is lexicographic in z, y, x, b, c, a |
| `Lines.SortedUnique` | src/vbg/utf_bg_alloc.c:788-797 | sorted lists of the same distinct nodes are the same list |
| `Lines.FullBox` | src/vbg/utf_bg_alloc.c:702-708 | if the bounding box has as many places as there are nodes, every place of it has a node |
| `Lines.LineLength` | src/vbg/utf_bg_alloc.c:702-737 | every line holds exactly as many nodes as its axis is long, in a full box and when all nodes are put on one axis |
| `Lines.FillLine` | src/vbg/utf_bg_alloc.c:756-787 | the fill loop stays inside the array and fills it to the end with the nodes of the line, whether or not the box is full |
| `Lines.AxisArray` | src/vbg/utf_bg_alloc.c:739-787 | an axis array allocated for the axis length receives exactly the nodes of the line, whether or not the box is full |
| `Lines.LinesAgree` | src/vbg/utf_bg_alloc.c:756-814 | after sorting, all processes on one line hold the same array of axis length, and each is in it, in a full box and on the single axis |
| `Survey.SortedExact` | src/vbg/utf_bg_alloc.c:756-814 | the arrays that all processes sort on their own place everybody consistently, and the steps over them leave every process with the reduction over all processes |
| `Axis.SetUpAxis` | src/vbg/utf_bg_alloc.c:1442-1470 | the set-up loop finds the largest power of two, the number of rounds and the borders of the inner range |
| `Axis.Geometry` | src/vbg/utf_bg_alloc.c:1042-1057 | the inner range covers more than half of the axis, so ears fold into disjoint cheeks |
| `Axis.MateTwice` | src/vbg/utf_bg_alloc.c:1318-1371 | an ear and its cheek name each other |
| `Axis.PartnerTwice` | src/vbg/utf_bg_alloc.c:864-867 | butterfly partners are mutual, inside the inner range and differ in one bit |
| `Axis.Reciprocal` | src/vbg/utf_bg_alloc.c:1301-1372 | independently computed tables agree: p sends to q in a round exactly when q receives from p in it |
| `Axis.PeersDistinct` | src/vbg/utf_bg_alloc.c:1301-1372 | a position meets each peer at most once as destination and at most once as source |
| `Axis.SetPairPowerOfTwo` | src/vbg/utf_bg_alloc.c:871-881 | the butterfly part of both tables, and nothing else, is written |
| `Axis.SetNoopForEar` | src/vbg/utf_bg_alloc.c:885-891 | the idle rounds of an ear are written and its one send is kept |
| `Axis.MakeSequence` | src/vbg/utf_bg_alloc.c:1301-1408 | the tables filled in place are the specified peers of every round; a position outside the axis is an internal error |
| `AxisRounds.ExactlyOnce` | src/vbg/utf_bg_alloc.c:1301-1372 | for every axis length and associative commutative operation, all rounds leave every position, ears included, with the reduction of all inputs |
| `AxisRounds.ButterflyClasses` | src/vbg/utf_bg_alloc.c:864-881 | after i butterfly rounds an inner position holds exactly its residue class |
| `AxisRounds.LastRound` | src/vbg/utf_bg_alloc.c:2211-2224 | the last round hands the result to the ears, replacing their value, and leaves the others as they are |
| `Network.NodeAt` | src/vbg/utf_bg_alloc.c:1243-1291 | step t of axis a of the concatenated array is the step of that axis's tables |
| `Network.PeersInGrid` | src/vbg/utf_bg_alloc.c:1243-1291 | every peer named in a step array is a process of the grid |
| `Network.LineIsAfter` | src/vbg/utf_bg_alloc.c:1675-1717 | along one axis of the grid the steps act as the rounds of that axis |
| `Network.GridExact` | src/vbg/utf_bg_alloc.c:1675-1717 | running all axes in order gives every process of a grid of any dimensions the reduction over the whole grid, with positions equal to coordinates |
| `Placement.ReducePermuted` | src/vbg/utf_bg_alloc.c:788-797 | a reduction does not depend on the order in which a line lists its nodes |
| `Placement.LineIsAfter` | src/vbg/utf_bg_alloc.c:1675-1717 | along a line with an order of its own the steps act as the rounds of its axis by position |
| `Placement.GridExact` | src/vbg/utf_bg_alloc.c:1675-1717 | the reduction over the whole grid reaches every process whatever order each line has, also if parallel lines are ordered differently |
| `Optimizer.OptimizedCovers` | src/vbg/utf_bg_alloc.c:1065-1197 | the gates of the optimised list stand, in order, for all non-empty steps |
| `Optimizer.TracePreserved` | src/vbg/utf_bg_alloc.c:1065-1197 | the receives and sends along the final list are those of the original array in the same order |
| `Optimizer.ListEnds` | src/vbg/utf_bg_alloc.c:1065-1197 | the first gate never receives, the last never sends, and they are different |
| `Optimizer.LinkSteps` | src/vbg/utf_bg_alloc.c:1065-1153 | the first pass links exactly the kept steps in order, in place |
| `Optimizer.MergeSteps` | src/vbg/utf_bg_alloc.c:1180-1194 | the second pass turns the list in place into the merged list and leaves every entry, on and off the list, as specified |
| `Optimizer.OptimizedSequence` | src/vbg/utf_bg_alloc.c:1065-1197 | both passes leave a linked list that is the optimised list of the original array, and every array entry, also off the list, is the original one with the merged sends entered |
| `Wiring.ArrayBuildable` | src/vbg/utf_bg_alloc.c:1243-1291 | every array built from axes meets what the optimiser relies on |
| `Wiring.PeersUnique` | src/vbg/utf_bg_alloc.c:2359-2413 | each peer is met by at most one sending and at most one receiving gate |
| `Wiring.Answered` | src/vbg/utf_bg_alloc.c:2359-2413 | the gate that sends to a peer has a counterpart that receives from it |
| `Wiring.Asked` | src/vbg/utf_bg_alloc.c:2359-2413 | the gate that receives from a peer has a counterpart that sends to it |
| `Wiring.Met` | src/vbg/utf_bg_alloc.c:2359-2413 | a gate that sends to a peer is met by a gate of that peer that receives from this process |
| `Wiring.MakeBgInfo` | src/vbg/utf_bg_alloc.c:2342-2505 | the words made for the exchange are exactly those that name the gates meeting each peer, and the search fails only if no gate answers |
| `Wiring.ExchangeOf` | src/vbg/utf_bg_alloc.c:2342-2505 | on a built list the search never fails and every peer gets exactly its word |
| `GateIds.SetRemotes` | src/vbg/utf_bg_init.c:348-373 | the loop over the received packed words sets the remote ends of every gate to the ids of the gates that the peers named |
| `Wiring.RemoteReciprocal` | src/vbg/utf_bg_init.c:348-373 | p's gate names q's gate as remote destination exactly when q's gate names p's gate as remote source |
| `GateIds.IdsReciprocal` | src/vbg/utf_bg_init.c:348-373 | the same for the 64-bit ids as written, when different gates have different ids |
| `Wiring.ExchangeHappens` | src/vbg/utf_bg_alloc.c:2473-2482 | what a process receives, defined as the words its peers make for it, is right and covers every peer |
| `Wiring.SourceNamed` | src/vbg/utf_bg_init.c:348-373 | the remote source set for a gate is the gate of the peer that sends to it |
| `GateWords.WordRoundTrip` | src/vbg/utf_bg_init.h:33-39 | both gate ids survive packing into one word and masking, and the disable bit stays clear |
| `GateWords.WordFields` | src/vbg/utf_bg_alloc.c:2308-2329 | interface, all six coordinates, source gate (bits 8 to 15) and destination gate (bits 0 to 7) can be read back from a packed word |
| `GateWords.IdFields` | src/vbg/utf_bg_alloc.h:43-54 | interface, coordinates and gate can be read back from a gate id by its masks |
| `GateIds.PackedNames` | src/vbg/utf_bg_alloc.c:2366-2478 | the ids read from a packed word are those of the gates that its sender named |
| `GateNetwork.LocalAgree` | src/vbg/utf_bg_alloc.c:2195-2224 | both ends of a local connection agree on it, and it is left out exactly where a receive replaces the value |
| `GateNetwork.LocalMutual` | src/vbg/utf_bg_alloc.c:2195-2224 | gate j names gate n as its local destination exactly when gate n names gate j as its local source |
| `GateNetwork.SetLocalVbg` | src/vbg/utf_bg_alloc.c:2231-2275 | the loop over the list sets the local source and destination of every gate |
| `GateNetwork.LocalConnected` | src/vbg/utf_bg_alloc.c:2195-2275 | the local source set for a gate is the gate before it, exactly where its step has a local input |
| `GateNetwork.RemoteConnected` | src/vbg/utf_bg_init.c:348-373 | the remote source set for a gate is exactly the gate that feeds it, and is set exactly if it receives |
| `Builder.ConnectProcess` | src/vbg/utf_bg_init.c:348-373 | the whole set-up of a process writes exactly the local and remote sources by which its gates fire, local destinations that are their other ends, and the packed words of the exchange |
| `GateNetwork.RunValues` | src/vbg/utf_bg_alloc.c:2195-2275 | whatever the order in which connected gates fire, every gate passes on what its process holds after the step of the gate |
| `GateNetwork.EndDelivers` | src/vbg/utf_bg_alloc.c:2195-2275 | in every run the end gate of every process delivers the reduction over the whole grid |
| `GateNetwork.CountedOnce` | src/vbg/utf_bg_alloc.c:1675-1717 | that reduction counts every process of the grid exactly once |
| `GateNetwork.NoneEndsEarly` | src/vbg/utf_bg_alloc.c:2195-2275 | when any end gate has fired, every process has entered the barrier |
| `GateNetwork.SomeGateCanFire` | src/vbg/utf_bg_alloc.c:2195-2275 | while some gate has not fired, some gate can |
| `GateRuns.EveryGateFires` | src/vbg/utf_bg_alloc.c:2195-2275 | every run can be continued until every gate of the grid has fired once |
| `GateRuns.BarrierCompletes` | src/vbg/utf_bg_alloc.c:2195-2275 | there is one run in which the end gate of every process fires, with the reduction over the whole grid |
| `GateCount.ListLength` | src/vbg/utf_bg_alloc.c:1065-1197 | the length of the optimised list, from the trace alone |
| `GateCount.GateFormula` | src/vbg/utf_bg_alloc.c:1585-1640 | the half-gate total is even and one plus half of it is the number of gates of the list |
| `GateCount.RelayTable` | src/vbg/utf_bg_alloc.c:1554-1576 | the first loop fills the counts per axis and zone |
| `GateCount.CountHalves` | src/vbg/utf_bg_alloc.c:1585-1640 | both loops compute the half-gate total |
| `Builder.InitializeSequence` | src/vbg/utf_bg_alloc.c:1243-1291 | the tables of one axis are entered into the step array, and nothing else is changed |
| `Builder.BuildSteps` | src/vbg/utf_bg_alloc.c:1675-1717 | the array built axis by axis is the specified step array |
| `Builder.MakeButterflyNetwork` | src/vbg/utf_bg_alloc.c:1421-1745 | the builder yields the optimised list, the array with every entry as rewritten, and the number of gates it needs |
| `SoftTree.CollectedIsPlain` | src/vbg/utf_bg_barrier_sm.c:373-418 | for an associative operation the tree is the plain reduction in process order |
| `SoftTree.LeaderCollectsAll` | src/vbg/utf_bg_barrier_sm.c:373-418 | the leader's tree holds every process of the node once |
| `SoftBarrier.StepInv` | src/vbg/utf_bg_barrier_sm.c:353-500 | every step of every process keeps the invariant, for any process count, interleaving and number of episodes |
| `SoftBarrier.GatherDone` | src/vbg/utf_bg_barrier_sm.c:91-118 | the leader leaves the gather loop only when every process of the node has stored |
| `SoftBarrier.PartnerData` | src/vbg/utf_bg_barrier_sm.c:389-408 | the word a process combines is the contribution its partner stored for this episode |
| `SoftBarrier.AllWait` | src/vbg/utf_bg_barrier_sm.c:451-471 | when the leader stores the result, every worker is waiting in this episode |
| `SoftBarrier.ResultData` | src/vbg/utf_bg_barrier_sm.c:476-494 | while a worker copies, the leader's cell holds the result of the worker's own episode |
| `SoftBarrier.ReusedAfterReading` | src/vbg/utf_bg_barrier_sm.c:376-494 | a step changes only the cell of its own process, and only when no process has still to read it |
| `SoftSystem.TakeInv` | src/vbg/utf_bg_barrier_sm.c:121-156 | every poll on any node keeps all invariants, and nothing completes before all leaders have started it |
| `SoftSystem.NoneReturnsEarly` | src/vbg/utf_bg_barrier_sm.c:85-156 | nobody has returned from an episode that some process anywhere has not entered or some leader not started |
| `SoftSystem.OneEpisodeApart` | src/vbg/utf_bg_barrier.h:68-80 | processes are never more than one episode apart |
| `SoftSystem.LeaderGives` | src/vbg/utf_bg_barrier_sm.c:373-418 | whatever polls came back not completed, the leader passes on one fixed tree of this episode's data |
| `SoftSystem.ReturnsReduction` | src/vbg/utf_bg_barrier_sm.c:476-494 | a process that has returned holds the reduction over all processes of all nodes of that same episode |
| `SoftSystem.SomePollAdvances` | src/vbg/utf_bg_barrier_sm.c:85-156 | when all have entered an episode that somebody has not returned from, some poll advances |
| `SoftSystem.BoundedPolls` | src/vbg/utf_bg_barrier_sm.c:85-156 | only a bounded number of polls can advance before somebody starts a new call |
| `SoftPoll.LoopTest` | src/vbg/utf_bg_barrier_sm.c:91-118 | the test on the halved rank and the doubled counter is the rule of the binomial tree |
| `SoftPoll.Poller.Enter` | src/vbg/utf_bg_barrier.h:68-80 | starting a call is the entering step of the process |
| `SoftPoll.Poller.CombineWords` | src/vbg/utf_bg_barrier_sm.c:389-408 | one in-place reduction over the words of the partner is the run of combining steps of the model |
| `SoftPoll.Poller.StoreWords` | src/vbg/utf_bg_barrier_sm.c:374-380 | the storing loop and the sequence number after it are a run of steps, and leave all other cells shown |
| `SoftPoll.Poller.GatherLoop` | src/vbg/utf_bg_barrier_sm.c:373-418 | the resumable loop ends past the gather or at a missing partner, with its place saved |
| `SoftPoll.Poller.Publish` | src/vbg/utf_bg_barrier_sm.c:451-471 | storing the result and releasing the workers is a run of steps |
| `SoftPoll.Poller.CopyResult` | src/vbg/utf_bg_barrier_sm.c:476-494 | copying the result is a run of steps |
| `SoftPoll.Poller.Poll` | src/vbg/utf_bg_barrier_sm.c:353-500 | an uninterrupted poll is a run of steps that ends with success or where the process cannot go on |
| `SoftOps.WordOpIsAC` | src/vbg/utf_bg_barrier_sm.c:19-47 | wrapping sum, bitwise and, or, exclusive or, and unsigned maximum are associative and commutative |
| `SoftOps.LocIsAC` | src/vbg/utf_bg_barrier_sm.c:48-59 | the value and location operation is associative and commutative |
| `SoftOps.SumIsTotal` | src/vbg/utf_bg_barrier_sm.c:21-25 | the reduction by SUM is the arithmetic total of the words modulo 2^64 |
| `SoftOps.LargestLocOf` | src/vbg/utf_bg_barrier_sm.c:48-59 | its reduction is the largest value with the smallest location among those that have it |
| `SoftOps.ReduceWords` | src/vbg/utf_bg_barrier_sm.c:19-66 | every word becomes the sum modulo 2^64, the bitwise result bit by bit, or the larger word, every pair of MAXLOC the pair with the larger value or the smaller location; an unknown operation is refused |
| `SoftOps.ReducedEntries` | src/vbg/utf_bg_barrier_sm.c:19-59 | words combined so are exactly entries combined by the operation of the model |
| `Sums.IntegerSum` | src/vbg/utf_bg_barrier.c:430-474 | clearing, copying, unsigned addition and decoding give the true sum, wrapped around to its type, for every width, signed or not |
| `Sums.EncodeSums` | src/vbg/utf_bg_barrier.c:430-474 | the encoding loop in place |
| `Sums.DecodeSums` | src/vbg/utf_bg_barrier.h:148-158 | the decoding loop in place |
| `MaxMin.IntegerExtreme` | src/vbg/utf_bg_barrier.c:586-598 | encode, unsigned maximum, decode give the true maximum or minimum for every width, signed or not, any process count and any left-over bytes |
| `MaxMin.EncodeInts` | src/vbg/utf_bg_barrier.c:586-598 | the encoding loop in place |
| `MaxMin.DecodeInts` | src/vbg/utf_bg_barrier.h:222-237 | the decoding loop in place |
| `MaxMin.LocExact` | src/vbg/utf_bg_barrier.c:834-885 | MAXLOC and MINLOC give one of the input pairs with the extreme value, and the smallest location exactly if some process with the best pair has the best left-over bytes |
| `MaxMin.FullWordLoc` | src/vbg/utf_bg_barrier.c:834-885 | where the value fills its word the tie rule always holds |
| `MaxMin.TieLost` | src/vbg/utf_bg_barrier.c:834-885 | for every type whose value does not fill its word there are inputs with equal values for which the larger location is returned |
| `FloatMaxMin.FloatExtreme` | src/vbg/utf_bg_barrier.c:642-670 | for every binary format the result is the bits of the extreme number, and a NaN only if all inputs are NaN |
| `FloatMaxMin.KeysOrderNumbers` | src/vbg/utf_bg_barrier.c:642-670 | the turned words order like the numbers the bits stand for |
| `FloatMaxMin.NaNBelow` | src/vbg/utf_bg_barrier.c:657-669 | adding the mask puts every NaN below every number |
| `FloatMaxMin.DecodeFloatKey` | src/vbg/utf_bg_barrier.h:161-187 | decoding gives back the bits that were encoded |
| `FloatMaxMin.Masks` | src/vbg/utf_bg_barrier.h:63-65 | the mask constants are the fraction masks of binary64, binary32 and binary16 |
| `FloatMaxMin.EncodeFloats` | src/vbg/utf_bg_barrier.c:642-670 | the encoding loop in place |
| `FloatMaxMin.DecodeFloats` | src/vbg/utf_bg_barrier.h:161-187 | the decoding loop in place |
| `Logical.Pack` | src/vbg/utf_bg_barrier.c:711-741 | the packing loop leaves the truth values of every chunk in the low bits of its word, whatever the word held |
| `Logical.Unpack` | src/vbg/utf_bg_barrier.h:240-284 | the unpacking loops give one or zero for every element in the original order |
| `Logical.UnpackedPacked` | src/vbg/utf_bg_barrier.h:240-284 | unpacking undoes packing |
| `Logical.LogicalExact` | src/vbg/utf_bg_barrier.c:711-741 | packing, bitwise reduction over any number of processes and unpacking give the element-wise logical reduction |
| `Logical.ConnectiveMeaning` | src/vbg/utf_bg_barrier.c:714-719 | LAND is all, LOR is some, LXOR is an odd number |
| `Collective.WordResult` | src/vbg/utf_bg_barrier_sm.c:373-494 | in every run, for sum, and, or, exclusive or and maximum, a process that has returned has in each word the reduction of that word over all processes of all nodes |
| `Collective.WordSumResult` | src/vbg/utf_bg_barrier_sm.c:373-494 | a whole SUM call on words returns the arithmetic total over all processes modulo 2^64 |
| `Collective.SumResult` | src/vbg/utf_bg_barrier.h:148-158 | a whole SUM call on integers returns the sum over all processes of all nodes, wrapped around to its type |
| `Collective.BitwiseResult` | src/vbg/utf_bg_barrier_sm.c:373-494 | each bit of a whole BAND, BOR or BXOR call is all, some or an odd number of the bits of all processes |
| `Collective.EntryResult` | src/vbg/utf_bg_barrier_sm.c:373-494 | the same for any associative operation on any entries, so also for the pairs of MAXLOC |
| `Collective.LocResult` | src/vbg/utf_bg_barrier.c:834-885 | a whole MAXLOC or MINLOC call returns an extreme pair over all processes of all nodes, with the exact condition for the tie rule |
| `Collective.IntegerResult` | src/vbg/utf_bg_barrier.h:222-237 | a whole MAX or MIN call on integers returns the true extreme over all processes of all nodes |
| `Collective.FloatResult` | src/vbg/utf_bg_barrier.h:161-187 | a whole MAX or MIN call on floating-point numbers returns the extreme number, NaN only if all are NaN |
| `Collective.LogicalResult` | src/vbg/utf_bg_barrier.h:240-284 | a whole logical call returns the element-wise logical reduction over all processes of all nodes |
| `Connection.StepInv` | src/base/utf_engine.c:171-395 | every event is handled and keeps the invariants of ring, events, window and contents, for messages of any length; the engine gives up exactly at a negative answer to the room request |
| `Connection.NeverAborts` | src/base/utf_engine.c:363-439 | in every run the engine gives up exactly when it is told that there is no receive buffer, and reaches no other branch that does |
| `Connection.RingExact` | src/base/utf_engine.c:363-386 | at most one completion is under way, none when idle or waiting, and the ring holds the pending messages in order |
| `Connection.PostWaits` | src/base/utf_msg.c:163-169 | posting has to wait exactly while four messages are pending |
| `Connection.WindowSafe` | src/base/utf_progress.c:28-68 | every put goes to its own empty slot, and the polled slot holds the next packet or nothing |
| `Connection.ResetExact` | src/base/utf_engine.c:800-808 | when a reset is handled the sender's index is exactly the window size and all slots are empty |
| `Connection.DeliveredInOrder` | src/base/utf_msg.c:98-127 | without refusals and with all lengths below 2^35 the receiver has exactly a prefix of what was posted: a message of more than 236 bytes posted in rendezvous mode by its size and source, every other byte for byte |
| `Connection.RunPosts` | src/base/utf_msg.c:98-127 | in every run the i-th message is that of the i-th post, carried by the protocol that its mode and length ask for |
| `ConnectionLoss.RestMeansDelivered` | src/base/utf_engine.c:556-564 | at rest everything is sent and consumed, and all that was posted has arrived if and only if no message began without a free request and all lengths fit the size field |
| `ConnectionLimits.LosingRun` | src/base/utf_engine.c:556-564 | for every message of two packets there is a run in which the first is refused, the second is taken for a new message, and all is at rest without the message |
| `ConnectionLimits.LossSpreads` | src/include/utf_msgmacros.h:366-411 | after such a loss the next rendezvous request is appended to the half message, 80 bytes of it, and nothing is offered |
| `ConnectionLimits.LongNeverRests` | src/base/utf_engine.c:281-324 | an eager message whose length modulo 2^35 is less than one packet carries is sent for ever |
| `ConnectionWork.BoundedEvents` | src/base/utf_engine.c:171-395 | as long as the sending of every posted message ends, only a bounded number of events can follow without a new message |
| `ConnectionWork.LeftAlone` | src/base/utf_engine.c:171-395 | from every such state the connection can come to rest |
| `ConnectionWork.RestsExactly` | src/base/utf_engine.c:281-324 | a connection can come to rest if and only if no eager message was posted whose size field says less than its first packet carries |
| `ConnectionWork.BoundedExactly` | src/base/utf_engine.c:281-324 | the number of events that can follow without a new message is bounded under exactly that condition |
| `Endpoints.SendControl.CalcSlot` | src/base/utf_engine.c:114-132 | the next slot, or the state saved and the engine set to wait |
| `Endpoints.SendControl.SendFirstPacket` | src/base/utf_engine.c:201-280 | the first packet of a message of each kind |
| `Endpoints.SendControl.SendNextPiece` | src/base/utf_engine.c:281-324 | the next piece of an eager message |
| `Endpoints.SendControl.FreeEntry` | src/base/utf_engine.c:363-386 | the entry is freed and the next one started, or the ring reset |
| `Endpoints.SendControl.HandleEvent` | src/base/utf_engine.c:171-395 | one event at the send engine, in place |
| `Endpoints.SendControl.HandleReset` | src/base/utf_engine.c:800-808 | the reset of the window, in place |
| `Endpoints.SendControl.Send` | src/base/utf_msg.c:163-182 | a message is posted into the next entry and an idle engine started |
| `Endpoints.RecvControl.HandlePacket` | src/base/utf_engine.c:507-632 | the receive engine in place, with the refusal for lack of a request |
| `Endpoints.RecvControl.EagerCopy` | src/include/utf_msgmacros.h:366-411 | a piece is appended and the message is complete when its size is reached |
| `Endpoints.RecvControl.Progress` | src/base/utf_progress.c:33-68 | one pass takes everything up to an empty slot or the end of the window, and sends the reset there |
| `Endpoints.DrainIsRun` | src/base/utf_progress.c:33-68 | a pass is a run of single polls |
| `Rendezvous.StepInv` | src/base/utf_engine.c:472-504 | every event keeps the invariant of requests, queue, gets and notes, and a note finds its message open |
| `Rendezvous.GetsFindTheirRequest` | src/base/utf_engine.c:52-73 | the request found for a completed get is the one that issued it, and no get exceeds 8 MiB |
| `Rendezvous.FetchedExactly` | src/include/utf_msgmacros.h:414-455 | a finished request holds as much of the message as fits, the rest of the buffer is untouched, and overrun is set exactly if the message is longer than the buffer or the flag was set before |
| `Rendezvous.RestMeansFetched` | src/base/utf_engine.c:480-503 | with nothing under way every matched request is finished and the sender told |
| `Rendezvous.FetchingEnds` | src/include/utf_msgmacros.h:491-497 | every completed get or note brings the fetching nearer to its end |
| `Delivery.FetchRequest.Begin` | src/include/utf_msgmacros.h:414-474 | the first remote get, in place |
| `Delivery.FetchRequest.Advance` | src/base/utf_engine.c:472-504 | the next chunk, or the note to the sender, in place |
| `Delivery.JointStepInv` | src/base/utf_engine.c:530-585 | every event of connection and fetching together keeps the tie between an offered message and the request that fetches it |
| `Delivery.FetchesItsMessage` | src/base/utf_engine.c:472-504 | in every joint run a finished request holds the message it was made for, as far as the buffer takes it |
| `Delivery.EndToEnd` | src/base/utf_engine.c:507-632 | when connection and fetching are at rest, nothing was refused and all lengths fit, every message posted in the run is there as a whole or, if posted in rendezvous mode and longer than 236 bytes, is the message of exactly one request, which waits for its buffer or holds it |
| `DeliveryRuns.WholeFetch` | src/base/utf_engine.c:472-585 | every message of more than 236 bytes posted in rendezvous mode can be offered, matched and fetched whole, and all comes to rest |
| `Delivery.ConnectionPart` | src/base/utf_engine.c:171-395 | the connection's part of a joint run is a run of the connection, so its exact conditions carry over |
| `Delivery.JointEnds` | src/base/utf_engine.c:472-504 | connection and fetching together come to rest after a bounded number of events |
| `FileBarrier.CountMarker` | tool/new-sim-utofu/src/pmix-tsim/dfile2.c:72-82 | the counting loop returns the length of the leading run of markers |
| `FileBarrier.LeadingMarkersAll` | tool/new-sim-utofu/src/pmix-tsim/dfile2.c:72-82 | the count is full exactly if every byte is the marker |
| `FileBarrier.Peek` | tool/new-sim-utofu/src/pmix-tsim/dfile2.c:84-107 | reading the file and counting, in place |
| `FileBarrier.Update` | tool/new-sim-utofu/src/pmix-tsim/dfile2.c:109-141 | reading, marking the own byte in file and buffer, and counting |
| `FileBarrier.MarkOf` | tool/new-sim-utofu/src/pmix-tsim/dfile2.c:147-187 | within two barriers, a byte shows the marker of a barrier exactly if its rank has written it |
| `FileBarrier.StepInv` | tool/new-sim-utofu/src/pmix-tsim/dfile2.c:109-187 | every step of every rank keeps the invariant |
| `FileBarrier.Safety` | tool/new-sim-utofu/src/pmix-tsim/dfile2.c:147-187 | no rank leaves its k-th barrier before all have entered theirs, and ranks are never more than one barrier apart |
| `FileBarrier.Progress` | tool/new-sim-utofu/src/pmix-tsim/dfile2.c:147-187 | every run can be continued until all ranks have left any given barrier |
| `FileBarrier.UpdateIsRun` | tool/new-sim-utofu/src/pmix-tsim/dfile2.c:109-141 | an undisturbed update is a run of the rank's steps |

## Left out

- Calls into utofu, jtofu and PMIx, memory registration and mapping, environment variables, timers and debug output: puts, gets, atomic operations and the hardware reduction are steps of the models. The retry on a busy library call (src/include/utf_errmacros.h:50-62) is not modelled; each call is taken as accepted.
- Network.GridExact: stated for parallel lines that are ordered alike. Placement.GridExact and Survey.SortedExact hold without that.
- Lines.LinesAgree: the array of the in-node axis is not sorted but in rank-set order, the same for all processes of a node; Survey takes it as given. One process per node and in-node position takes part in the other axes (src/vbg/utf_bg_alloc.c:483-486), which is what a coordinate along axis 0 stands for.
- An axis that the source sets to length zero when the nodes do not fill their box is left out of the grid; it has no steps.
- Wiring.MakeBgInfo: the sanity checks of the source on address, node and interface, which also end in an internal error, are not modelled; that every gate id lies on the interface and node of its process is what GateIds.SetRemotes takes from the hardware library.
- GateNetwork.EndDelivers: one use of the gate network; the hardware's rearming of gates between two uses is not modelled. Gate lists and settings are stated for positions that are coordinates of a product grid; lines with orders of their own are covered for the steps (Placement.GridExact).
- SoftBarrier.StepInv: storing, combining or copying the pair of words of MAXLOC is one step; memory is sequentially consistent word by word; the barriers utf_bg_rmb and utf_bg_wmb are taken to give this. Sequence cells start at zero; reuse of the cells of a freed group is not modelled.
- SoftSystem.ReturnsReduction: the inter-node operation is taken to give every leader the reduction of what the leaders passed in.
- SoftPoll.Poller.Poll: every call uses an operation that is known, as all callers in src/vbg/utf_bg_barrier.c do; an unknown one is refused by SoftOps.ReduceWords. The poll is shown to be a run of steps when it is not interrupted; interrupted polls are covered by the steps themselves. Error returns of the utofu calls are not modelled, and utf_poll_reduce_double_sm only through the tree shape, which holds for any operation.
- Broadcast and floating-point sums. The encoders of bitwise operations only copy.
- Messages of the libfabric path, wildcard matching, several-entry rendezvous (src/include/utf_msgmacros.h:456-470), and the receive of a partly received unexpected message (src/base/utf_msg.c:220-224).
- Connection.DeliveredInOrder: the user's buffer of an expected eager message is taken to be large enough, since src/include/utf_msgmacros.h:377-379 does not check it.
- ConnectionLimits.LongNeverRests: the count of bytes sent is unbounded here and 64 bits wide in the source, and what follows the message in the sender's memory is taken as zero.
- One connection whose control block has index zero: the packet header does not carry the index (src/base/utf_msg.c:93-96).
- Rendezvous.StepInv: gets from one sender complete in the order of issue, and positions of the sender's list are named by the message.
- FileBarrier.Peek: the error return of the read is not modelled.
- FileBarrier.Update: the error returns of the read and the write are not modelled.
- Group bookkeeping of src/mpi_vbg, gate allocation against the hardware limits, and freeing of groups.
