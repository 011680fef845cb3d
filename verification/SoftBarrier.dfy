/** The shared-memory barrier and reduction of one node, as interleaved steps over shared cells.

    Each process polls on its own. A step is one access to shared memory: reading or writing one
    sequence cell, or one word of a data cell. A barrier is a reduction of zero words. The inter-node
    operation of the leader is an oracle: it completes when the caller of a step says so, and then
    gives the result the configuration names.
 */
module SoftBarrier {
  import opened Powers
  import opened SoftTree

  /** Sequence numbers are 64 bits wide. */
  function Wrap(e: nat): nat { e % WORDS }

  lemma WrapNeighbours(a: nat, b: nat)
    requires a == b || a + 1 == b || b + 1 == a
    ensures Wrap(a) == Wrap(b) <==> a == b
  {}

  /** The collective calls of a node, by episode from 1 on: how many words, which operation, what each
      process contributes, and what the inter-node operation returns. */
  datatype Calls<!T> = Calls(
    procs: nat,
    room: nat,
    width: nat -> nat,
    op: nat -> ((T, T) -> T),
    input: nat -> seq<seq<T>>,
    result: nat -> seq<T>)

  ghost predicate WellFormed<T>(c: Calls<T>) {
    c.procs >= 1 &&
    forall e: nat ::
      c.width(e) <= c.room && |c.input(e)| == c.procs && Even(c.input(e), c.width(e)) && |c.result(e)| == c.width(e)
  }

  /** Where a process is inside its poll function. */
  datatype Pc<T> =
    | Idle(out: seq<T>) // returned, with this result
    | Check(k: nat, acc: seq<T>) // at the head of the gather loop, level k
    | Combine(k: nat, n: nat, acc: seq<T>) // the partner has stored; n words combined
    | Store(k: nat, n: nat, acc: seq<T>) // n words stored
    | Started(acc: seq<T>) // leader: inter-node operation under way
    | Publish(n: nat, res: seq<T>) // leader: n result words stored
    | Wait // worker: waiting for the leader
    | Copy(n: nat, out: seq<T>) // worker: n result words copied

  datatype Proc<T> = Proc(ep: nat, pc: Pc<T>)

  datatype Node<T> = Node(procs: seq<Proc<T>>, seqs: seq<nat>, data: seq<seq<T>>)

  ghost predicate Shape<T>(c: Calls<T>, s: Node<T>) {
    |s.procs| == |s.seqs| == |s.data| == c.procs && forall r :: 0 <= r < c.procs ==> |s.data[r]| == c.room
  }

  /** Fresh cells: all sequence cells are zero, the data cells hold anything. */
  ghost predicate Init<T>(c: Calls<T>, s: Node<T>) {
    Shape(c, s) && forall r :: 0 <= r < c.procs ==> s.procs[r] == Proc(0, Idle([])) && s.seqs[r] == 0
  }

  function SetPc<T>(s: Node<T>, r: nat, pc: Pc<T>): Node<T>
    requires r < |s.procs|
  {
    s.(procs := s.procs[r := s.procs[r].(pc := pc)])
  }

  // After the gather: the leader starts the inter-node operation, a worker waits for it.
  function AfterGather<T>(r: nat, acc: seq<T>): Pc<T> {
    if r == 0 then Started(acc) else Wait
  }

  /** What a process can do only if its position is within its buffers, which the invariant gives. */
  predicate Fits<T>(c: Calls<T>, s: Node<T>, r: nat) {
    |s.procs| == |s.seqs| == |s.data| == c.procs && r < c.procs && c.procs >= 1 &&
    var p := s.procs[r];
    var w := c.width(p.ep);
    match p.pc
    case Idle(_) => |c.input(p.ep + 1)| == c.procs
    case Combine(k, n, acc) => n < w ==> n < |acc| && r + Pow2(k) < c.procs && n < |s.data[r + Pow2(k)]|
    case Store(_, n, acc) => n < w ==> n < |acc| && n < |s.data[r]|
    case Publish(n, res) => n < w ==> n < |res| && n < |s.data[0]|
    case Copy(n, _) => n < w ==> n < |s.data[0]|
    case _ => true
  }

  /** One step of process `r`. `done` tells whether the inter-node operation has completed. A process
      that finds what it waits for missing stays where it is and is polled again. */
  function Step<T>(c: Calls<T>, s: Node<T>, r: nat, done: bool): Node<T>
    requires Fits(c, s, r)
  {
    var p := s.procs[r];
    var e := p.ep;
    var w := c.width(e);
    match p.pc
    case Idle(_) => s.(procs := s.procs[r := Proc(e + 1, Check(0, c.input(e + 1)[r]))])
    case Check(k, acc) =>
      if Pow2(k) >= c.procs then SetPc(s, r, AfterGather(r, acc))
      else if Stores(c.procs, r, k) then SetPc(s, r, Store(k, 0, acc))
      else if s.seqs[r + Pow2(k)] == Wrap(e) then SetPc(s, r, Combine(k, 0, acc))
      else s
    case Combine(k, n, acc) =>
      if n < w then SetPc(s, r, Combine(k, n + 1, acc[n := c.op(e)(acc[n], s.data[r + Pow2(k)][n])]))
      else SetPc(s, r, Check(k + 1, acc))
    case Store(k, n, acc) =>
      if n < w then SetPc(s, r, Store(k, n + 1, acc)).(data := s.data[r := s.data[r][n := acc[n]]])
      else SetPc(s, r, AfterGather(r, acc)).(seqs := s.seqs[r := Wrap(e)])
    case Started(acc) => if done then SetPc(s, r, Publish(0, c.result(e))) else s
    case Publish(n, res) =>
      if n < w then SetPc(s, r, Publish(n + 1, res)).(data := s.data[0 := s.data[0][n := res[n]]])
      else SetPc(s, r, Idle(res)).(seqs := s.seqs[0 := Wrap(e)])
    case Wait => if s.seqs[0] == Wrap(e) then SetPc(s, r, Copy(0, [])) else s
    case Copy(n, out) =>
      if n < w then SetPc(s, r, Copy(n + 1, out + [s.data[0][n]])) else SetPc(s, r, Idle(out))
  }

  // ---------------------------------------------------------------- the invariant

  /** The last episode for which a worker has stored its sequence number. */
  function Stored<T>(p: Proc<T>): int {
    match p.pc
    case Check(_, _) => p.ep - 1
    case Combine(_, _, _) => p.ep - 1
    case Store(_, _, _) => p.ep - 1
    case _ => p.ep
  }

  /** The last episode the leader has released. */
  function Released<T>(s: Node<T>): int
    requires |s.procs| >= 1
  {
    if s.procs[0].pc.Idle? then s.procs[0].ep else s.procs[0].ep - 1
  }

  /** What process `r` has collected in episode `e` when it has passed level `k`. */
  ghost function Value<T>(c: Calls<T>, e: nat, r: nat, k: nat): (v: seq<T>)
    requires WellFormed(c) && r < c.procs
    ensures |v| == c.width(e)
  {
    Collected(c.op(e), c.input(e), c.width(e), r, k)
  }

  /** All processes above `r` within its first 2^k have stored for episode `e`. */
  ghost predicate BlockStored<T>(s: Node<T>, r: nat, k: nat, e: int) {
    forall q: nat :: r < q < r + Pow2(k) && q < |s.procs| ==> Stored(s.procs[q]) >= e
  }

  /** How far apart processes can be. */
  ghost predicate InStep<T>(s: Node<T>, r: nat)
    requires 0 < |s.procs| && r < |s.procs|
  {
    var p := s.procs[r];
    Released(s) <= p.ep <= Released(s) + 1 &&
    (p.pc.Idle? ==> p.ep == Released(s)) &&
    (r > 0 && p.ep == Released(s) ==> p.pc.Idle? || p.pc.Wait? || p.pc.Copy?) &&
    (p.pc.Copy? ==> p.ep == Released(s))
  }

  ghost predicate CellsHold<T>(s: Node<T>, r: nat)
    requires 0 < |s.procs| == |s.seqs| && r < |s.procs|
  {
    if r == 0 then Released(s) >= 0 && s.seqs[0] == Wrap(Released(s))
    else Stored(s.procs[r]) >= 0 && s.seqs[r] == Wrap(Stored(s.procs[r]))
  }

  /** Words below `n` come from `a`, the others from `b`. */
  ghost predicate Mixed<T>(v: seq<T>, n: nat, a: seq<T>, b: seq<T>) {
    |v| == |a| == |b| && n <= |v| && forall i :: 0 <= i < |v| ==> v[i] == if i < n then a[i] else b[i]
  }

  ghost predicate Agrees<T>(cell: seq<T>, n: nat, v: seq<T>) {
    n <= |v| && n <= |cell| && forall i :: 0 <= i < n ==> cell[i] == v[i]
  }

  /** What a process knows at its program position. */
  ghost predicate PcHolds<T>(c: Calls<T>, s: Node<T>, r: nat)
    requires WellFormed(c) && Shape(c, s) && r < c.procs
  {
    var e := s.procs[r].ep;
    var w := c.width(e);
    match s.procs[r].pc
    case Idle(out) => e > 0 ==> out == c.result(e)
    case Check(k, acc) =>
      e > 0 && Low(r, k) == 0 && (k > 0 ==> Pow2(k - 1) < c.procs) &&
      acc == Value(c, e, r, k) && BlockStored(s, r, k, e)
    case Combine(k, n, acc) =>
      e > 0 && Low(r, k) == 0 && !Stores(c.procs, r, k) && BlockStored(s, r, k, e) &&
      Stored(s.procs[r + Pow2(k)]) >= e && Mixed(acc, n, Value(c, e, r, k + 1), Value(c, e, r, k))
    case Store(k, n, acc) =>
      e > 0 && r > 0 && Low(r, k) == 0 && Stores(c.procs, r, k) && BlockStored(s, r, k, e) &&
      acc == Value(c, e, r, k) && Agrees(s.data[r], n, acc)
    case Started(acc) =>
      e > 0 && r == 0 && (forall q: nat :: 0 < q < c.procs ==> Stored(s.procs[q]) >= e) &&
      exists k: nat :: Pow2(k) >= c.procs && acc == Value(c, e, 0, k)
    case Publish(n, res) =>
      e > 0 && r == 0 && (forall q: nat :: 0 < q < c.procs ==> Stored(s.procs[q]) >= e) &&
      res == c.result(e) && Agrees(s.data[0], n, res)
    case Wait => e > 0 && r > 0
    case Copy(n, out) => e > 0 && r > 0 && n == |out| && n <= w && out == c.result(e)[..n]
  }

  /** What the data cell of a worker holds for its parent: unless the worker is overwriting it, its
      contribution for the last episode it has stored. */
  ghost predicate DataHolds<T>(c: Calls<T>, s: Node<T>, r: nat)
    requires WellFormed(c) && Shape(c, s) && r < c.procs
  {
    if r == 0 then
      Released(s) > 0 && !s.procs[0].pc.Publish? ==> Agrees(s.data[0], c.width(Released(s)), c.result(Released(s)))
    else
      forall k: nat :: LowestBit(r, k) && Stored(s.procs[r]) > 0 && !s.procs[r].pc.Store? ==>
        Agrees(s.data[r], c.width(Stored(s.procs[r])), Value(c, Stored(s.procs[r]), r, k))
  }

  /** Whoever has stored, all below it in the tree have stored. */
  ghost predicate SubtreeStored<T>(s: Node<T>, r: nat)
    requires r < |s.procs|
  {
    forall k: nat :: r > 0 && LowestBit(r, k) ==> BlockStored(s, r, k, Stored(s.procs[r]))
  }

  ghost predicate Holds<T>(c: Calls<T>, s: Node<T>, r: nat)
    requires WellFormed(c) && Shape(c, s) && r < c.procs
  {
    InStep(s, r) && CellsHold(s, r) && PcHolds(c, s, r) && DataHolds(c, s, r) && SubtreeStored(s, r)
  }

  ghost predicate Inv<T>(c: Calls<T>, s: Node<T>) {
    WellFormed(c) && Shape(c, s) && forall r: nat :: r < c.procs ==> Holds(c, s, r)
  }

  lemma InitInv<T>(c: Calls<T>, s: Node<T>)
    requires WellFormed(c) && Init(c, s)
    ensures Inv(c, s)
  {
    forall r: nat | r < c.procs ensures Holds(c, s, r) {}
  }

  lemma InvFits<T>(c: Calls<T>, s: Node<T>, r: nat)
    requires Inv(c, s) && r < c.procs
    ensures Fits(c, s, r)
  {
    assert Holds(c, s, r);
    assert c.width(s.procs[r].ep) <= c.room && |c.input(s.procs[r].ep + 1)| == c.procs;
  }

  // ---------------------------------------------------------------- every step keeps it

  /** Between `s` and `t` only process `r` and its own cells changed, and nobody's stored episode
      went back. */
  ghost predicate Moved<T>(c: Calls<T>, s: Node<T>, t: Node<T>, r: nat) {
    Shape(c, s) && Shape(c, t) && r < c.procs &&
    (forall q: nat :: q < c.procs && q != r ==>
      t.procs[q] == s.procs[q] && t.seqs[q] == s.seqs[q] && t.data[q] == s.data[q]) &&
    Stored(s.procs[r]) <= Stored(t.procs[r])
  }

  lemma StoredGrows<T>(c: Calls<T>, s: Node<T>, t: Node<T>, r: nat, q: nat)
    requires Moved(c, s, t, r) && q < c.procs
    ensures Stored(s.procs[q]) <= Stored(t.procs[q])
  {}

  lemma BlockGrows<T>(c: Calls<T>, s: Node<T>, t: Node<T>, r: nat, q: nat, k: nat, e: int)
    requires Moved(c, s, t, r) && BlockStored(s, q, k, e)
    ensures BlockStored(t, q, k, e)
  {
    forall m: nat | q < m < q + Pow2(k) && m < |t.procs| ensures Stored(t.procs[m]) >= e {
      StoredGrows(c, s, t, r, m);
    }
  }

  lemma PcFrame<T>(c: Calls<T>, s: Node<T>, t: Node<T>, r: nat, q: nat)
    requires WellFormed(c) && Moved(c, s, t, r) && q < c.procs && q != r && PcHolds(c, s, q)
    ensures PcHolds(c, t, q)
  {
    var e := s.procs[q].ep;
    match s.procs[q].pc
    case Check(k, acc) => BlockGrows(c, s, t, r, q, k, e);
    case Combine(k, n, acc) =>
      BlockGrows(c, s, t, r, q, k, e);
      StoredGrows(c, s, t, r, q + Pow2(k));
    case Store(k, n, acc) => BlockGrows(c, s, t, r, q, k, e);
    case Started(acc) =>
      forall m: nat | 0 < m < c.procs ensures Stored(t.procs[m]) >= e { StoredGrows(c, s, t, r, m); }
    case Publish(n, res) =>
      forall m: nat | 0 < m < c.procs ensures Stored(t.procs[m]) >= e { StoredGrows(c, s, t, r, m); }
    case _ =>
  }

  /** The other processes are not disturbed as long as nothing is released. */
  lemma Frame<T>(c: Calls<T>, s: Node<T>, t: Node<T>, r: nat, q: nat)
    requires Inv(c, s) && Moved(c, s, t, r) && q < c.procs && q != r && Released(t) == Released(s)
    ensures Holds(c, t, q)
  {
    assert Holds(c, s, q);
    PcFrame(c, s, t, r, q);
    forall k: nat | q > 0 && LowestBit(q, k) ensures BlockStored(t, q, k, Stored(t.procs[q])) {
      BlockGrows(c, s, t, r, q, k, Stored(s.procs[q]));
    }
  }

  /** A process that is gathering is in the episode after the released one. */
  lemma GatherEpisode<T>(c: Calls<T>, s: Node<T>, r: nat)
    requires Inv(c, s) && r < c.procs
    requires var pc := s.procs[r].pc; pc.Check? || pc.Combine? || pc.Store? || pc.Started? || pc.Publish?
    ensures s.procs[r].ep == Released(s) + 1
  {
    assert Holds(c, s, r) && Holds(c, s, 0);
  }

  lemma StepIdle<T>(c: Calls<T>, s: Node<T>, r: nat, done: bool)
    requires Inv(c, s) && r < c.procs && Fits(c, s, r) && s.procs[r].pc.Idle?
    ensures StepHolds(c, s, Step(c, s, r, done), r)
  {
    var t := Step(c, s, r, done);
    assert Holds(c, s, r) && Holds(c, s, 0);
    forall k: nat | r > 0 && LowestBit(r, k) ensures BlockStored(t, r, k, Stored(t.procs[r])) {
      BlockGrows(c, s, t, r, r, k, Stored(s.procs[r]));
    }
  }

  predicate Gathers<T>(pc: Pc<T>) { pc.Check? || pc.Combine? || pc.Store? }

  /** What carries over for a process that moves on inside the gather loop without touching a cell. */
  lemma OwnFrame<T>(c: Calls<T>, s: Node<T>, t: Node<T>, r: nat)
    requires Inv(c, s) && Moved(c, s, t, r) && t.procs[r].ep == s.procs[r].ep
    requires Gathers(s.procs[r].pc) && Gathers(t.procs[r].pc) && t.seqs[r] == s.seqs[r]
    requires (t.data[r] == s.data[r] && !s.procs[r].pc.Store?) || (t.procs[r].pc.Store? && r > 0)
    ensures Released(t) == Released(s) && InStep(t, r) && CellsHold(t, r) && DataHolds(c, t, r) && SubtreeStored(t, r)
  {
    assert Holds(c, s, r) && Holds(c, s, 0);
    forall k: nat | r > 0 && LowestBit(r, k) ensures BlockStored(t, r, k, Stored(t.procs[r])) {
      BlockGrows(c, s, t, r, r, k, Stored(s.procs[r]));
    }
  }

  /** A partner whose cell shows this episode has stored for it. */
  lemma PartnerStored<T>(c: Calls<T>, s: Node<T>, r: nat, q: nat)
    requires Inv(c, s) && r < c.procs && 0 < q < c.procs && s.procs[r].ep == Released(s) + 1
    requires s.seqs[q] == Wrap(s.procs[r].ep)
    ensures Stored(s.procs[q]) == s.procs[r].ep
  {
    assert Holds(c, s, q);
    WrapNeighbours(Stored(s.procs[q]), s.procs[r].ep);
  }

  /** What a step must show about the process that takes it. */
  ghost predicate StepHolds<T>(c: Calls<T>, s: Node<T>, t: Node<T>, r: nat) {
    WellFormed(c) && Moved(c, s, t, r) && Released(t) == Released(s) && Holds(c, t, r)
  }

  lemma CheckDone<T>(c: Calls<T>, s: Node<T>, r: nat, done: bool)
    requires Inv(c, s) && r < c.procs && Fits(c, s, r) && s.procs[r].pc.Check? && Pow2(s.procs[r].pc.k) >= c.procs
    ensures StepHolds(c, s, Step(c, s, r, done), r)
  {
    var k := s.procs[r].pc.k;
    assert Holds(c, s, r);
    LowZeroLarge(r, k);
    GatherDone(c, s, k);
  }

  lemma CheckStores<T>(c: Calls<T>, s: Node<T>, r: nat, done: bool)
    requires Inv(c, s) && r < c.procs && Fits(c, s, r) && s.procs[r].pc.Check? && Pow2(s.procs[r].pc.k) < c.procs
    requires Stores(c.procs, r, s.procs[r].pc.k)
    ensures StepHolds(c, s, Step(c, s, r, done), r)
  {
    var t := Step(c, s, r, done);
    var k := s.procs[r].pc.k;
    assert PcHolds(c, s, r) by { assert Holds(c, s, r); }
    NoBits(k);
    OwnFrame(c, s, t, r);
    BlockGrows(c, s, t, r, r, k, s.procs[r].ep);
  }

  lemma CheckSees<T>(c: Calls<T>, s: Node<T>, r: nat, done: bool)
    requires Inv(c, s) && r < c.procs && Fits(c, s, r) && s.procs[r].pc.Check? && Pow2(s.procs[r].pc.k) < c.procs
    requires !Stores(c.procs, r, s.procs[r].pc.k) && s.seqs[r + Pow2(s.procs[r].pc.k)] == Wrap(s.procs[r].ep)
    ensures StepHolds(c, s, Step(c, s, r, done), r)
  {
    var t := Step(c, s, r, done);
    var k := s.procs[r].pc.k;
    assert PcHolds(c, s, r) by { assert Holds(c, s, r); }
    GatherEpisode(c, s, r);
    PartnerStored(c, s, r, r + Pow2(k));
    OwnFrame(c, s, t, r);
    BlockGrows(c, s, t, r, r, k, s.procs[r].ep);
  }

  lemma StepCheck<T>(c: Calls<T>, s: Node<T>, r: nat, done: bool)
    requires Inv(c, s) && r < c.procs && Fits(c, s, r) && s.procs[r].pc.Check?
    ensures StepHolds(c, s, Step(c, s, r, done), r)
  {
    var k := s.procs[r].pc.k;
    if Pow2(k) >= c.procs {
      CheckDone(c, s, r, done);
    } else if Stores(c.procs, r, k) {
      CheckStores(c, s, r, done);
    } else if s.seqs[r + Pow2(k)] == Wrap(s.procs[r].ep) {
      CheckSees(c, s, r, done);
    } else {
      assert Holds(c, s, r);
    }
  }

  /** The leader leaves the gather loop only when every process of the node has stored. */
  lemma GatherDone<T>(c: Calls<T>, s: Node<T>, k: nat)
    requires Inv(c, s) && s.procs[0].pc.Check? && s.procs[0].pc.k == k && Pow2(k) >= c.procs
    ensures forall q: nat :: 0 < q < c.procs ==> Stored(s.procs[q]) >= s.procs[0].ep
    ensures s.procs[0].pc.acc == Value(c, s.procs[0].ep, 0, k)
  {
    assert Holds(c, s, 0);
  }

  lemma CombineBlock<T>(c: Calls<T>, s: Node<T>, r: nat, k: nat, e: int)
    requires Inv(c, s) && r < c.procs && Low(r, k) == 0 && !Stores(c.procs, r, k)
    requires BlockStored(s, r, k, e) && Stored(s.procs[r + Pow2(k)]) >= e
    ensures Low(r, k + 1) == 0 && BlockStored(s, r, k + 1, e)
  {
    var q := r + Pow2(k);
    LowZeroAdd(r, k);
    assert Holds(c, s, q);
    assert BlockStored(s, q, k, Stored(s.procs[q]));
  }

  /** The word a process combines is the contribution its partner stored for this episode. */
  lemma PartnerData<T>(c: Calls<T>, s: Node<T>, r: nat, k: nat, n: nat)
    requires Inv(c, s) && r < c.procs && s.procs[r].pc.Combine? && s.procs[r].pc.k == k && n < c.width(s.procs[r].ep)
    ensures r + Pow2(k) < c.procs && n < |s.data[r + Pow2(k)]|
    ensures s.data[r + Pow2(k)][n] == Value(c, s.procs[r].ep, r + Pow2(k), k)[n]
  {
    var q := r + Pow2(k);
    GatherEpisode(c, s, r);
    assert PcHolds(c, s, r) by { assert Holds(c, s, r); }
    LowZeroAdd(r, k);
    assert Stored(s.procs[q]) == s.procs[r].ep && !s.procs[q].pc.Store? by { assert Holds(c, s, q); }
    StoredData(c, s, q, k);
  }

  /** The cell of a worker that is not overwriting it holds its last contribution. */
  lemma StoredData<T>(c: Calls<T>, s: Node<T>, q: nat, k: nat)
    requires Inv(c, s) && 0 < q < c.procs && LowestBit(q, k) && Stored(s.procs[q]) > 0 && !s.procs[q].pc.Store?
    ensures Agrees(s.data[q], c.width(Stored(s.procs[q])), Value(c, Stored(s.procs[q]), q, k))
  {
    assert DataHolds(c, s, q) by { assert Holds(c, s, q); }
  }

  lemma CombineMoves<T>(c: Calls<T>, s: Node<T>, r: nat, done: bool)
    requires Inv(c, s) && r < c.procs && Fits(c, s, r) && s.procs[r].pc.Combine?
    ensures var t := Step(c, s, r, done);
      Moved(c, s, t, r) && Released(t) == Released(s) && InStep(t, r) && CellsHold(t, r) && DataHolds(c, t, r) &&
      SubtreeStored(t, r)
  {
    OwnFrame(c, s, Step(c, s, r, done), r);
  }

  lemma CombineHolds<T>(c: Calls<T>, t: Node<T>, r: nat, e: nat, k: nat, n: nat, acc: seq<T>)
    requires WellFormed(c) && Shape(c, t) && r < c.procs && t.procs[r] == Proc(e, Combine(k, n, acc)) && e > 0
    requires Low(r, k) == 0 && !Stores(c.procs, r, k) && BlockStored(t, r, k, e)
    requires Stored(t.procs[r + Pow2(k)]) >= e && Mixed(acc, n, Value(c, e, r, k + 1), Value(c, e, r, k))
    ensures PcHolds(c, t, r)
  {}

  lemma CombineWord<T>(c: Calls<T>, s: Node<T>, t: Node<T>, r: nat)
    requires Inv(c, s) && Moved(c, s, t, r) && s.procs[r].pc.Combine? && Fits(c, s, r)
    requires s.procs[r].pc.n < c.width(s.procs[r].ep) && t.procs == Step(c, s, r, true).procs
    ensures PcHolds(c, t, r)
  {
    var e, k, n := s.procs[r].ep, s.procs[r].pc.k, s.procs[r].pc.n;
    assert PcHolds(c, s, r) by { assert Holds(c, s, r); }
    PartnerData(c, s, r, k, n);
    var acc, word := s.procs[r].pc.acc, s.data[r + Pow2(k)][n];
    assert BlockStored(t, r, k, e) by { BlockGrows(c, s, t, r, r, k, e); }
    assert Stored(t.procs[r + Pow2(k)]) >= e by { StoredGrows(c, s, t, r, r + Pow2(k)); }
    MixedStep(c, e, r, k, n, acc, word);
    CombineHolds(c, t, r, e, k, n + 1, acc[n := c.op(e)(acc[n], word)]);
  }

  lemma MixedStep<T>(c: Calls<T>, e: nat, r: nat, k: nat, n: nat, acc: seq<T>, word: T)
    requires WellFormed(c) && r + Pow2(k) < c.procs && n < c.width(e)
    requires Mixed(acc, n, Value(c, e, r, k + 1), Value(c, e, r, k)) && word == Value(c, e, r + Pow2(k), k)[n]
    ensures Mixed(acc[n := c.op(e)(acc[n], word)], n + 1, Value(c, e, r, k + 1), Value(c, e, r, k))
  {}

  lemma CombineEnd<T>(c: Calls<T>, s: Node<T>, t: Node<T>, r: nat)
    requires Inv(c, s) && Moved(c, s, t, r) && s.procs[r].pc.Combine? && Fits(c, s, r)
    requires s.procs[r].pc.n >= c.width(s.procs[r].ep) && t.procs == Step(c, s, r, true).procs
    ensures PcHolds(c, t, r)
  {
    var e, k := s.procs[r].ep, s.procs[r].pc.k;
    assert PcHolds(c, s, r) by { assert Holds(c, s, r); }
    CombineBlock(c, s, r, k, e);
    BlockGrows(c, s, t, r, r, k + 1, e);
    assert s.procs[r].pc.acc == Value(c, e, r, k + 1);
  }

  lemma StepCombine<T>(c: Calls<T>, s: Node<T>, r: nat, done: bool)
    requires Inv(c, s) && r < c.procs && Fits(c, s, r) && s.procs[r].pc.Combine?
    ensures StepHolds(c, s, Step(c, s, r, done), r)
  {
    CombineMoves(c, s, r, done);
    if s.procs[r].pc.n < c.width(s.procs[r].ep) {
      CombineWord(c, s, Step(c, s, r, done), r);
    } else {
      CombineEnd(c, s, Step(c, s, r, done), r);
    }
  }

  /** What a process stores is what its parent expects, and everything below it has been stored. */
  lemma StoreIsFinal<T>(c: Calls<T>, s: Node<T>, r: nat, k: nat, j: nat, e: nat)
    requires WellFormed(c) && Shape(c, s) && 0 < r < c.procs && Low(r, k) == 0 && Stores(c.procs, r, k) &&
      LowestBit(r, j)
    requires BlockStored(s, r, k, e)
    ensures Value(c, e, r, k) == Value(c, e, r, j) && BlockStored(s, r, j, e)
  {
    if j < k {
      LowZeroBelow(r, j, k);
      assert false;
    }
    if Bit(r, k) {
      LowestBitUnique(r, j, k);
    } else {
      CollectedEnd(c.op(e), c.input(e), c.width(e), r, k, j);
    }
  }

  lemma StepStore<T>(c: Calls<T>, s: Node<T>, r: nat, done: bool)
    requires Inv(c, s) && r < c.procs && Fits(c, s, r) && s.procs[r].pc.Store?
    ensures StepHolds(c, s, Step(c, s, r, done), r)
  {
    var t := Step(c, s, r, done);
    var e, k, n := s.procs[r].ep, s.procs[r].pc.k, s.procs[r].pc.n;
    assert Holds(c, s, r) && Holds(c, s, 0);
    GatherEpisode(c, s, r);
    if n < c.width(e) {
      OwnFrame(c, s, t, r);
      BlockGrows(c, s, t, r, r, k, e);
    } else {
      forall j: nat | LowestBit(r, j)
        ensures BlockStored(t, r, j, e) && Agrees(t.data[r], c.width(e), Value(c, e, r, j))
      {
        StoreIsFinal(c, s, r, k, j, e);
        BlockGrows(c, s, t, r, r, j, e);
      }
    }
  }

  lemma StepStarted<T>(c: Calls<T>, s: Node<T>, r: nat, done: bool)
    requires Inv(c, s) && r < c.procs && Fits(c, s, r) && s.procs[r].pc.Started?
    ensures StepHolds(c, s, Step(c, s, r, done), r)
  {
    assert Holds(c, s, r);
  }

  lemma PublishWord<T>(c: Calls<T>, s: Node<T>, r: nat, done: bool)
    requires Inv(c, s) && r < c.procs && Fits(c, s, r) && s.procs[r].pc.Publish? &&
      s.procs[r].pc.n < c.width(s.procs[r].ep)
    ensures StepHolds(c, s, Step(c, s, r, done), r)
  {
    assert Holds(c, s, r);
  }

  /** When the leader writes the sequence cell that releases an episode, every worker is waiting in it. */
  lemma AllWait<T>(c: Calls<T>, s: Node<T>, q: nat)
    requires Inv(c, s) && s.procs[0].pc.Publish? && 0 < q < c.procs
    ensures s.procs[q].ep == s.procs[0].ep && s.procs[q].pc.Wait?
  {
    assert Holds(c, s, 0) && Holds(c, s, q);
  }

  lemma Release<T>(c: Calls<T>, s: Node<T>, done: bool, q: nat)
    requires Inv(c, s) && Fits(c, s, 0) && s.procs[0].pc.Publish? && s.procs[0].pc.n >= c.width(s.procs[0].ep) &&
      q < c.procs
    ensures Shape(c, Step(c, s, 0, done)) && Holds(c, Step(c, s, 0, done), q)
  {
    var t := Step(c, s, 0, done);
    assert Holds(c, s, 0) && Holds(c, s, q);
    if q > 0 {
      AllWait(c, s, q);
      forall k: nat | LowestBit(q, k) ensures BlockStored(t, q, k, Stored(t.procs[q])) {
        BlockGrows(c, s, t, 0, q, k, Stored(s.procs[q]));
      }
    }
  }

  lemma StepWait<T>(c: Calls<T>, s: Node<T>, r: nat, done: bool)
    requires Inv(c, s) && r < c.procs && Fits(c, s, r) && s.procs[r].pc.Wait?
    ensures StepHolds(c, s, Step(c, s, r, done), r)
  {
    var t := Step(c, s, r, done);
    assert Holds(c, s, r) && Holds(c, s, 0);
    WrapNeighbours(Released(s), s.procs[r].ep);
    forall k: nat | LowestBit(r, k) ensures BlockStored(t, r, k, Stored(t.procs[r])) {
      BlockGrows(c, s, t, r, r, k, Stored(s.procs[r]));
    }
  }

  /** While a worker copies the result of an episode, the leader's cell holds that result. */
  lemma ResultData<T>(c: Calls<T>, s: Node<T>, r: nat)
    requires Inv(c, s) && r < c.procs && s.procs[r].pc.Copy?
    ensures Agrees(s.data[0], c.width(s.procs[r].ep), c.result(s.procs[r].ep))
  {
    assert Holds(c, s, r) && Holds(c, s, 0);
    if s.procs[0].pc.Publish? {
      AllWait(c, s, r);
    }
  }

  lemma StepCopy<T>(c: Calls<T>, s: Node<T>, r: nat, done: bool)
    requires Inv(c, s) && r < c.procs && Fits(c, s, r) && s.procs[r].pc.Copy?
    ensures StepHolds(c, s, Step(c, s, r, done), r)
  {
    var t := Step(c, s, r, done);
    assert Holds(c, s, r);
    ResultData(c, s, r);
    forall k: nat | LowestBit(r, k) ensures BlockStored(t, r, k, Stored(t.procs[r])) {
      BlockGrows(c, s, t, r, r, k, Stored(s.procs[r]));
    }
  }

  lemma StepOwn<T>(c: Calls<T>, s: Node<T>, r: nat, done: bool)
    requires Inv(c, s) && r < c.procs && Fits(c, s, r)
    requires !(s.procs[r].pc.Publish? && s.procs[r].pc.n >= c.width(s.procs[r].ep))
    ensures StepHolds(c, s, Step(c, s, r, done), r)
  {
    match s.procs[r].pc
    case Idle(_) => StepIdle(c, s, r, done);
    case Check(_, _) => StepCheck(c, s, r, done);
    case Combine(_, _, _) => StepCombine(c, s, r, done);
    case Store(_, _, _) => StepStore(c, s, r, done);
    case Started(_) => StepStarted(c, s, r, done);
    case Publish(_, _) => PublishWord(c, s, r, done);
    case Wait => StepWait(c, s, r, done);
    case Copy(_, _) => StepCopy(c, s, r, done);
  }

  /** Every step of every process keeps the invariant. */
  lemma StepInv<T>(c: Calls<T>, s: Node<T>, r: nat, done: bool)
    requires Inv(c, s) && r < c.procs
    ensures Fits(c, s, r) && Inv(c, Step(c, s, r, done))
  {
    InvFits(c, s, r);
    var t := Step(c, s, r, done);
    if s.procs[r].pc.Publish? && s.procs[r].pc.n >= c.width(s.procs[r].ep) {
      assert r == 0 by { assert Holds(c, s, r); }
      forall q: nat | q < c.procs ensures Holds(c, t, q) { Release(c, s, done, q); }
    } else {
      StepOwn(c, s, r, done);
      forall q: nat | q < c.procs ensures Holds(c, t, q) {
        if q != r {
          Frame(c, s, t, r, q);
        }
      }
    }
  }

  // ---------------------------------------------------------------- reuse of cells

  // Still gathering, and not past level `k`.
  predicate Below<T>(pc: Pc<T>, k: nat) { (pc.Check? && pc.k <= k) || (pc.Combine? && pc.k <= k) }

  /** Process `q` has still to read what cell `x` holds now: the result of the released episode in the
      leader's cell, or, in the cell of one of its tree children, the contribution to an episode in which
      `q` has not yet combined it. */
  ghost predicate StillReads<T>(s: Node<T>, q: nat, x: nat)
    requires q < |s.procs| && x < |s.procs|
  {
    var p := s.procs[q];
    if x == 0 then q != 0 && p.ep <= Released(s) && !(p.ep == Released(s) && p.pc.Idle?)
    else
      exists k: nat ::
        LowestBit(x, k) && q + Pow2(k) == x &&
        (p.ep < Stored(s.procs[x]) || (p.ep == Stored(s.procs[x]) && Below(p.pc, k)))
  }

  /** No cell is overwritten while somebody has still to read it: a step changes at most the cell of the
      process that takes it, and only when all its readers are done with the previous value. */
  lemma ReusedAfterReading<T>(c: Calls<T>, s: Node<T>, r: nat, done: bool, x: nat, q: nat)
    requires Inv(c, s) && r < c.procs && x < c.procs && q < c.procs && Fits(c, s, r)
    requires Shape(c, Step(c, s, r, done))
    requires Step(c, s, r, done).data[x] != s.data[x] || Step(c, s, r, done).seqs[x] != s.seqs[x]
    ensures x == r && !StillReads(s, q, x)
  {
    assert Holds(c, s, r) && Holds(c, s, 0) && Holds(c, s, q);
    if x == 0 && q > 0 && s.procs[0].pc.Publish? {
      AllWait(c, s, q);
    }
  }
}
