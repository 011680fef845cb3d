/** Building the network of one process in place: tables, step array, optimised list, gate count. */
module Builder {
  import opened Powers
  import opened Axis
  import opened Network
  import opened Optimizer
  import opened Wiring
  import opened GateNetwork
  import opened GateIds

  /** Entering the tables of one axis into the step array from `at` on. */
  method InitializeSequence(nodes: array<Node>, at: nat, axis: nat, info: AxisInfo, p: nat,
                            send: array<Option<nat>>, recv: array<Option<nat>>) returns (end: nat)
    requires info.size >= 2 && info == Info(info.size) && p < info.size
    requires send.Length == recv.Length == info.gates && at + info.gates < nodes.Length
    requires forall t: nat :: t < info.gates ==>
      send[t] == SendAt(info.size, p, t) && recv[t] == RecvAt(info.size, p, t)
    modifies nodes
    ensures end == at + info.gates + 1
    ensures forall k: nat :: at <= k < end ==> nodes[k] == AxisNode(axis, info.size, p, k - at)
    ensures forall k: nat :: k < nodes.Length && !(at <= k < end) ==> nodes[k] == old(nodes[k])
  {
    var zone := GetMyZone(info, p);
    nodes[at] := nodes[at].(recv := NoOp);
    var i := 0;
    while i < info.gates
      invariant 0 <= i <= info.gates
      invariant forall k: nat :: at <= k < at + i ==> nodes[k] == AxisNode(axis, info.size, p, k - at)
      invariant nodes[at + i].recv == AxisNode(axis, info.size, p, i).recv
      invariant forall k: nat :: k < nodes.Length && !(at <= k <= at + i) ==> nodes[k] == old(nodes[k])
    {
      var sent, received := LinkOf(axis, zone, send[i]), LinkOf(axis, zone, recv[i]);
      StepLinks(axis, info, p, i, sent, received);
      nodes[at + i] := nodes[at + i].(send := sent);
      nodes[at + i + 1] := nodes[at + i + 1].(recv := received);
      i := i + 1;
    }
    nodes[at + i] := nodes[at + i].(send := NoOp);
    end := at + i + 1;
  }

  lemma StepLinks(axis: nat, info: AxisInfo, p: nat, i: nat, sent: Link, received: Link)
    requires info.size >= 2 && info == Info(info.size) && p < info.size && i < info.gates
    requires sent == LinkOf(axis, GetMyZone(info, p), SendAt(info.size, p, i))
    requires received == LinkOf(axis, GetMyZone(info, p), RecvAt(info.size, p, i))
    ensures AxisNode(axis, info.size, p, i).send == sent && AxisNode(axis, info.size, p, i + 1).recv == received
  {}

  /** Tables and steps of one axis, appended at `at`. */
  method AddAxis(nodes: array<Node>, at: nat, axis: nat, n: nat, p: nat) returns (end: nat)
    requires n >= 2 && p < n && at + Rounds(n) < nodes.Length
    modifies nodes
    ensures end == at + Rounds(n) + 1
    ensures nodes[..end] == old(nodes[..at]) + AxisNodes(axis, n, p)
  {
    var info := SetUpAxis(n);
    var sender := new Option<nat>[info.gates](_ => None);
    var receiver := new Option<nat>[info.gates](_ => None);
    var rc := MakeSequence(info, p, sender, receiver);
    end := InitializeSequence(nodes, at, axis, info, p, sender, receiver);
    forall k: nat | k < end ensures nodes[k] == (old(nodes[..at]) + AxisNodes(axis, n, p))[k] {
      if k >= at {
        assert AxisNodes(axis, n, p)[k - at] == AxisNode(axis, n, p, k - at);
      }
    }
  }

  /** The room the steps of all axes need. */
  method StepsNeeded(dims: seq<nat>) returns (max: nat)
    ensures max == Length(dims)
  {
    max := 0;
    var i := 0;
    while i < |dims|
      invariant 0 <= i <= |dims| && max == Offset(dims, i)
    {
      if dims[i] >= 2 {
        var info := SetUpAxis(dims[i]);
        max := max + (info.gates + 1);
      }
      i := i + 1;
    }
  }

  /** The step array of all axes. */
  method BuildSteps(dims: seq<nat>, c: Proc) returns (nodes: array<Node>)
    requires InGrid(dims, c)
    ensures fresh(nodes) && nodes[..] == StepArray(dims, c)
  {
    var max := StepsNeeded(dims);
    nodes := new Node[max](_ => Node(NoOp, NoOp));
    var at, i := 0, 0;
    while i < |dims|
      invariant 0 <= i <= |dims| && at == Offset(dims, i) <= nodes.Length == Length(dims)
      invariant nodes[..at] == Steps(dims, c, i)
    {
      OffsetMono(dims, i + 1, |dims|);
      if dims[i] >= 2 {
        at := AddAxis(nodes, at, i, dims[i], c[i]);
      }
      i := i + 1;
    }
    assert nodes[..at] == nodes[..];
  }

  /** The whole builder: the optimised list and the number of gates it needs. */
  method MakeButterflyNetwork(dims: seq<nat>, c: Proc)
    returns (nodes: array<Node>, next: array<Option<nat>>, head: nat, numberVbgs: nat)
    requires InGrid(dims, c) && HasNetwork(dims) && Buildable(StepArray(dims, c))
    ensures IsList(nodes[..], next[..], head, GateList(dims, c))
    ensures nodes[..] == Rewritten(StepArray(dims, c), GateList(dims, c))
    ensures numberVbgs == |GateList(dims, c)| - 1
  {
    nodes := BuildSteps(dims, c);
    next := new Option<nat>[nodes.Length](_ => None);
    head := OptimizedSequence(nodes, next);
    ghost var gs := GateList(dims, c);
    var curr := head;
    numberVbgs := 0;
    while next[curr].Some?
      invariant numberVbgs < |gs| && curr == gs[numberVbgs].at && curr < next.Length
      decreases |gs| - numberVbgs
    {
      assert Ats(gs)[numberVbgs] == curr && next[..][curr] == Successor(Ats(gs), numberVbgs);
      curr := next[curr].value;
      numberVbgs := numberVbgs + 1;
    }
    assert Ats(gs)[numberVbgs] == curr && next[..][curr] == Successor(Ats(gs), numberVbgs);
  }

  function GateOrNone(c: Proc, n: Option<nat>): Option<GateRef> { if n.None? then None else Some(GateRef(c, n.value)) }

  function IdOrNone(hw: Hardware, g: Option<GateRef>): Option<bv64> {
    if g.None? then None else Some(hw.id(g.value.proc, g.value.entry))
  }

  /** The settings written for entry `j` of the list of `c` are its sources. */
  ghost predicate Written(dims: seq<nat>, hw: Hardware, c: Proc, local: seq<Option<nat>>, remote: seq<Ends>, j: nat) {
    var g := GateRef(c, j);
    Connectable(dims, g) &&
    var n := Number(GateList(dims, c), j);
    n < |local| == |remote| && LocalSource(dims, g) == GateOrNone(c, local[n]) &&
    remote[n].src == IdOrNone(hw, RemoteSource(dims, g))
  }

  /** Each local output is connected to the gate whose local input is connected to it. */
  ghost predicate Mutual(local: seq<Option<nat>>, localDst: seq<Option<nat>>) {
    |local| == |localDst| &&
    (forall i :: 0 <= i < |local| && localDst[i].Some? ==> localDst[i].value < |local|) &&
    forall i, n :: 0 <= i < |local| && 0 <= n < |local| ==> (localDst[i] == Some(n) <==> local[n] == Some(i))
  }

  /** From the step array to the connected gates of one process: list, local settings, words made for the
      peers, and remote settings from the words received. The settings written are the sources by which the
      gates fire, and the local destinations are the other ends of the local sources. */
  method ConnectProcess(dims: seq<nat>, hw: Hardware, c: Proc, packed: map<Proc, bv64>)
    returns (words: map<Proc, bv64>, local: array<Option<nat>>, localDst: array<Option<nat>>, remote: seq<Ends>)
    requires InGrid(dims, c) && HasNetwork(dims) && Buildable(StepArray(dims, c))
    requires ValidHardware(hw) && PackedBy(hw, ReceivedBy(dims, c), packed)
    ensures forall q ::
      (if q in words then Some(words[q]) else None) == PackedOrNone(hw, c, WordFor(c, GateList(dims, c), q))
    ensures local.Length == localDst.Length == |remote| == |GateList(dims, c)| - 1
    ensures forall j :: 0 < j < |GateList(dims, c)| ==> Written(dims, hw, c, local[..], remote, j)
    ensures Mutual(local[..], localDst[..])
    ensures forall i: nat :: i < |remote| ==>
      remote[i].dst == IdOf(hw, SettingOf(c, GateList(dims, c), ReceivedBy(dims, c), i).dst)
  {
    var nodes, next, head, count := MakeButterflyNetwork(dims, c);
    var gs := GateList(dims, c);
    ListEnds(StepArray(dims, c));
    AllConnectable(dims, GateRef(c, 0));
    local, localDst := SetLocalVbg(nodes[..], gs);
    var x := ExchangeOf(dims, c);
    words := PackWords(hw, c, x.words);
    remote := SetRemotes(c, gs, packed, hw, ReceivedBy(dims, c));
    LocalsMutual(dims, c, nodes[..], gs, local[..], localDst[..]);
    forall j | 0 < j < |gs| ensures Written(dims, hw, c, local[..], remote, j) {
      SettingsWritten(dims, hw, c, nodes[..], local[..], remote, j);
    }
  }

  method PackWords(hw: Hardware, c: Proc, words: map<Proc, Word>) returns (packed: map<Proc, bv64>)
    ensures packed.Keys == words.Keys && forall q :: q in words ==> packed[q] == Packed(hw, c, words[q])
  {
    packed := map q | q in words :: Packed(hw, c, words[q]);
  }

  lemma SettingsWritten(dims: seq<nat>, hw: Hardware, c: Proc, now: seq<Node>, local: seq<Option<nat>>,
                        remote: seq<Ends>, j: nat)
    requires InGrid(dims, c) && HasNetwork(dims) && Buildable(StepArray(dims, c))
    requires now == Rewritten(StepArray(dims, c), GateList(dims, c)) && 0 < j < |GateList(dims, c)|
    requires |local| == |remote| == |GateList(dims, c)| - 1 && Laid(now, GateList(dims, c))
    requires forall i: nat :: i < |local| ==>
      local[i] == SrcLocal(now, GateList(dims, c), ReceivingEntry(GateList(dims, c), i))
    requires forall i: nat :: i < |remote| ==>
      remote[i] == EndsOf(hw, SettingOf(c, GateList(dims, c), ReceivedBy(dims, c), i))
    ensures Written(dims, hw, c, local, remote, j)
  {
    var gs := GateList(dims, c);
    AllConnectable(dims, GateRef(c, j));
    assert ReceivingEntry(gs, Number(gs, j)) == j;
  }

  function PackedOrNone(hw: Hardware, c: Proc, w: Option<Word>): Option<bv64> {
    if w.None? then None else Some(Packed(hw, c, w.value))
  }

  lemma LocalsMutual(dims: seq<nat>, c: Proc, now: seq<Node>, gs: seq<Gate>, src: seq<Option<nat>>,
                     dst: seq<Option<nat>>)
    requires InGrid(dims, c) && HasNetwork(dims) && Buildable(StepArray(dims, c))
    requires gs == GateList(dims, c) && |gs| >= 2 && now == Rewritten(StepArray(dims, c), gs) && Laid(now, gs)
    requires |src| == |dst| == |gs| - 1
    requires forall i: nat :: i < |gs| - 1 ==> src[i] == SrcLocal(now, gs, ReceivingEntry(gs, i))
    requires forall i: nat :: i < |gs| - 1 ==> dst[i] == DstLocal(now, gs, i)
    ensures Mutual(src, dst)
  {
    forall i: nat, n: nat | i < |gs| - 1 && n < |gs| - 1
      ensures (dst[i] == Some(n) <==> src[n] == Some(i)) && (dst[i].Some? ==> dst[i].value < |gs| - 1)
    {
      LocalMutual(dims, c, now, gs, i, n);
    }
  }
}
