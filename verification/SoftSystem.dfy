/** Many nodes, each running the shared-memory barrier, joined by the inter-node operation of their
    leaders. The inter-node operation of an episode can complete only after every leader has started
    it; when it does complete is left open. */
module SoftSystem {
  import opened Powers
  import opened AxisRounds
  import opened SoftTree
  import opened SoftBarrier

  /** One poll: process `proc` of node `node` takes one step; `done` says whether a poll of the
      inter-node operation finds it complete. */
  datatype Poll = Poll(node: nat, proc: nat, done: bool)

  /** The last episode whose inter-node operation this node's leader has started. */
  function Begun<T>(s: Node<T>): int
    requires |s.procs| >= 1
  {
    if Gathers(s.procs[0].pc) then s.procs[0].ep - 1 else s.procs[0].ep
  }

  /** The last episode whose inter-node operation has completed at this node. */
  function Passed<T>(s: Node<T>): int
    requires |s.procs| >= 1
  {
    if s.procs[0].pc.Publish? || s.procs[0].pc.Idle? then s.procs[0].ep else s.procs[0].ep - 1
  }

  /** The last episode from which a process has returned success. */
  function Completed<T>(p: Proc<T>): int {
    if p.pc.Idle? then p.ep else p.ep - 1
  }

  ghost predicate AllBegun<T>(s: seq<Node<T>>, e: int) {
    forall m :: 0 <= m < |s| ==> |s[m].procs| >= 1 && Begun(s[m]) >= e
  }

  ghost predicate Allowed<T>(c: seq<Calls<T>>, s: seq<Node<T>>, a: Poll) {
    |s| == |c| && a.node < |s| && a.proc < c[a.node].procs && Fits(c[a.node], s[a.node], a.proc) &&
    (a.done ==> AllBegun(s, s[a.node].procs[0].ep))
  }

  ghost function Take<T>(c: seq<Calls<T>>, s: seq<Node<T>>, a: Poll): (t: seq<Node<T>>)
    requires Allowed(c, s, a)
    ensures |t| == |s|
  {
    s[a.node := Step(c[a.node], s[a.node], a.proc, a.done)]
  }

  /** `polls`, taken one after the other from `s`, end in `t`. */
  ghost predicate Reaches<T>(c: seq<Calls<T>>, s: seq<Node<T>>, polls: seq<Poll>, t: seq<Node<T>>)
    decreases |polls|
  {
    if polls == [] then s == t
    else Allowed(c, s, polls[0]) && Reaches(c, Take(c, s, polls[0]), polls[1..], t)
  }

  ghost predicate Start<T>(c: seq<Calls<T>>, s: seq<Node<T>>) {
    |s| == |c| && forall m :: 0 <= m < |c| ==> WellFormed(c[m]) && Init(c[m], s[m])
  }

  /** Every node keeps its invariant, and nothing completes before every leader has started it. */
  ghost predicate SystemInv<T>(c: seq<Calls<T>>, s: seq<Node<T>>) {
    |s| == |c| && (forall m :: 0 <= m < |s| ==> Inv(c[m], s[m])) &&
    forall m, n :: 0 <= m < |s| && 0 <= n < |s| ==> Passed(s[m]) <= Begun(s[n])
  }

  // ---------------------------------------------------------------- safety over every run

  lemma LeaderMoves<T>(c: Calls<T>, s: Node<T>, r: nat, done: bool)
    requires Inv(c, s) && r < c.procs && Fits(c, s, r)
    ensures var t := Step(c, s, r, done);
      |t.procs| == c.procs && Begun(s) <= Begun(t) &&
      (Passed(t) == Passed(s) || (done && Passed(t) == s.procs[0].ep <= Begun(t)))
  {
    assert Holds(c, s, 0);
    if r == 0 && s.procs[0].pc.Check? {
      NoBits(s.procs[0].pc.k);
    }
  }

  lemma TakeInv<T>(c: seq<Calls<T>>, s: seq<Node<T>>, a: Poll)
    requires SystemInv(c, s) && Allowed(c, s, a)
    ensures SystemInv(c, Take(c, s, a))
  {
    var t := Take(c, s, a);
    StepInv(c[a.node], s[a.node], a.proc, a.done);
    LeaderMoves(c[a.node], s[a.node], a.proc, a.done);
    forall m, n | 0 <= m < |t| && 0 <= n < |t| ensures Passed(t[m]) <= Begun(t[n]) {
      assert Passed(s[m]) <= Begun(s[n]) <= Begun(t[n]);
    }
  }

  lemma {:induction false} RunInv<T>(c: seq<Calls<T>>, s: seq<Node<T>>, polls: seq<Poll>, t: seq<Node<T>>)
    requires SystemInv(c, s) && Reaches(c, s, polls, t)
    ensures SystemInv(c, t)
    decreases |polls|
  {
    if polls != [] {
      TakeInv(c, s, polls[0]);
      RunInv(c, Take(c, s, polls[0]), polls[1..], t);
    }
  }

  lemma StartInv<T>(c: seq<Calls<T>>, s: seq<Node<T>>)
    requires Start(c, s)
    ensures SystemInv(c, s)
  {
    forall m | 0 <= m < |c| ensures Inv(c[m], s[m]) { InitInv(c[m], s[m]); }
    forall m, n | 0 <= m < |s| && 0 <= n < |s| ensures Passed(s[m]) <= Begun(s[n]) {}
  }

  /** A process has entered every episode its leader has started. */
  lemma BegunEntered<T>(c: Calls<T>, s: Node<T>, r: nat)
    requires Inv(c, s) && r < c.procs
    ensures Begun(s) <= s.procs[r].ep
  {
    assert Holds(c, s, 0) && Holds(c, s, r);
  }

  lemma CompletedPassed<T>(c: Calls<T>, s: Node<T>, r: nat)
    requires Inv(c, s) && r < c.procs
    ensures Completed(s.procs[r]) <= Passed(s)
  {
    assert Holds(c, s, 0) && Holds(c, s, r);
  }

  /** Safety: in every run, over any number of nodes, processes and episodes, nobody has returned from
      an episode that some process anywhere has not entered, or that some leader has not started. */
  lemma NoneReturnsEarly<T>(c: seq<Calls<T>>, s: seq<Node<T>>, polls: seq<Poll>, t: seq<Node<T>>, m: nat, r: nat,
                            n: nat, q: nat)
    requires Start(c, s) && Reaches(c, s, polls, t)
    requires m < |c| && n < |c| && r < c[m].procs && q < c[n].procs
    ensures |t| == |c| && |t[m].procs| == c[m].procs && |t[n].procs| == c[n].procs
    ensures Completed(t[m].procs[r]) <= Passed(t[m]) <= Begun(t[n]) <= t[n].procs[q].ep
  {
    StartInv(c, s);
    RunInv(c, s, polls, t);
    assert Inv(c[m], t[m]) && Inv(c[n], t[n]);
    CompletedPassed(c[m], t[m], r);
    BegunEntered(c[n], t[n], q);
  }

  /** Processes are never more than one episode apart, although sequence numbers wrap. */
  lemma OneEpisodeApart<T>(c: seq<Calls<T>>, s: seq<Node<T>>, polls: seq<Poll>, t: seq<Node<T>>, m: nat, r: nat,
                           n: nat, q: nat)
    requires Start(c, s) && Reaches(c, s, polls, t)
    requires m < |c| && n < |c| && r < c[m].procs && q < c[n].procs
    ensures |t| == |c| && |t[m].procs| == c[m].procs && |t[n].procs| == c[n].procs
    ensures t[m].procs[r].ep <= t[n].procs[q].ep + 1
  {
    NoneReturnsEarly(c, s, polls, t, m, r, n, q);
  }

  // ---------------------------------------------------------------- what is returned

  /** The value the leader of a node passes to the inter-node operation. */
  ghost function Given<T>(c: Calls<T>, e: nat): (v: seq<T>)
    requires WellFormed(c)
    ensures |v| == c.width(e)
  {
    Value(c, e, 0, c.procs)
  }

  lemma {:induction false} Pow2Exceeds(n: nat)
    ensures Pow2(n) > n
  {
    if n > 0 {
      Pow2Exceeds(n - 1);
    }
  }

  lemma GivenAt<T>(c: Calls<T>, e: nat, k: nat)
    requires WellFormed(c) && Pow2(k) >= c.procs
    ensures Value(c, e, 0, k) == Given(c, e)
  {
    Pow2Exceeds(c.procs);
    if k <= c.procs {
      CollectedEnd(c.op(e), c.input(e), c.width(e), 0, k, c.procs);
    } else {
      CollectedEnd(c.op(e), c.input(e), c.width(e), 0, c.procs, k);
    }
  }

  /** Whatever polls came back empty-handed before: the leader passes on one fixed tree of the node's
      data of this episode. */
  lemma LeaderGives<T>(c: seq<Calls<T>>, s: seq<Node<T>>, polls: seq<Poll>, t: seq<Node<T>>, m: nat)
    requires Start(c, s) && Reaches(c, s, polls, t) && m < |c| && c[m].procs >= 1
    ensures |t| == |c| && |t[m].procs| == c[m].procs
    ensures t[m].procs[0].pc.Started? ==> t[m].procs[0].pc.acc == Given(c[m], t[m].procs[0].ep)
  {
    StartInv(c, s);
    RunInv(c, s, polls, t);
    assert Inv(c[m], t[m]);
    assert Holds(c[m], t[m], 0);
    if t[m].procs[0].pc.Started? {
      var e, acc := t[m].procs[0].ep, t[m].procs[0].pc.acc;
      var k: nat :| Pow2(k) >= c[m].procs && acc == Value(c[m], e, 0, k);
      GivenAt(c[m], e, k);
    }
  }

  /** All nodes make the same calls, and the inter-node operation gives every leader the reduction of
      what the leaders passed in. */
  ghost predicate SameCalls<T>(c: seq<Calls<T>>, e: nat, op: (T, T) -> T, width: nat) {
    forall m :: 0 <= m < |c| ==> WellFormed(c[m]) && c[m].op(e) == op && c[m].width(e) == width
  }

  ghost function Leaders<T>(c: seq<Calls<T>>, e: nat, op: (T, T) -> T, width: nat): (x: seq<seq<T>>)
    requires SameCalls(c, e, op, width)
    ensures |x| == |c| && Even(x, width)
  {
    seq(|c|, m requires 0 <= m < |c| => Given(c[m], e))
  }

  ghost predicate GlobalResult<T>(c: seq<Calls<T>>, e: nat, op: (T, T) -> T, width: nat)
    requires SameCalls(c, e, op, width)
  {
    forall m, i :: 0 <= m < |c| && 0 <= i < width ==>
      c[m].result(e)[i] == Plain(op, Leaders(c, e, op, width), width, i, 0, |c|)
  }

  /** The inputs of all processes of all nodes, in node order. */
  ghost function AllInputs<T>(c: seq<Calls<T>>, e: nat, op: (T, T) -> T, width: nat): (x: seq<seq<T>>)
    requires SameCalls(c, e, op, width)
    ensures Even(x, width) && |x| >= |c|
  {
    if c == [] then [] else
      assert c[..|c| - 1] + [c[|c| - 1]] == c;
      var rest := AllInputs(c[..|c| - 1], e, op, width);
      var last := c[|c| - 1].input(e);
      assert |last| == c[|c| - 1].procs && Even(last, c[|c| - 1].width(e));
      rest + last
  }

  ghost predicate SameAt<T>(x: seq<T>, y: seq<T>, shift: nat, r: nat) {
    r < |x| && shift + r < |y| && x[r] == y[shift + r]
  }

  lemma {:induction false} PlainSame<T>(op: (T, T) -> T, x: seq<seq<T>>, y: seq<seq<T>>, width: nat, i: nat,
                                        shift: nat, hi: nat, end: nat)
    requires Even(x, width) && Even(y, width) && i < width && 0 < hi <= |x| && end == shift + hi <= |y|
    requires forall r: nat :: r < hi ==> SameAt(x, y, shift, r)
    ensures Plain(op, x, width, i, 0, hi) == Plain(op, y, width, i, shift, end)
    decreases hi
  {
    assert SameAt(x, y, shift, hi - 1);
    if hi > 1 {
      PlainSame(op, x, y, width, i, shift, hi - 1, end - 1);
    }
  }

  lemma GivenIsPlain<T(!new)>(c: Calls<T>, e: nat, i: nat)
    requires WellFormed(c) && Associative(c.op(e)) && i < c.width(e)
    ensures Given(c, e)[i] == Plain(c.op(e), c.input(e), c.width(e), i, 0, c.procs)
  {
    Pow2Exceeds(c.procs);
    LeaderCollectsAll(c.op(e), c.input(e), c.width(e), c.procs, i);
  }

  lemma EvenConcat<T>(x: seq<seq<T>>, y: seq<seq<T>>, width: nat)
    requires Even(x, width) && Even(y, width)
    ensures Even(x + y, width)
  {}

  lemma SameInConcat<T>(x: seq<T>, y: seq<T>, r: nat)
    ensures r < |x| ==> SameAt(x, x + y, 0, r)
    ensures r < |y| ==> SameAt(y, x + y, |x|, r)
  {}

  lemma PlainLeft<T>(op: (T, T) -> T, x: seq<seq<T>>, z: seq<seq<T>>, width: nat, i: nat)
    requires Even(x, width) && Even(z, width) && i < width && x != [] && |x| <= |z|
    requires forall r: nat :: r < |x| ==> SameAt(x, z, 0, r)
    ensures Plain(op, z, width, i, 0, |x|) == Plain(op, x, width, i, 0, |x|)
  {
    PlainSame(op, x, z, width, i, 0, |x|, |x|);
  }

  lemma PlainRight<T>(op: (T, T) -> T, y: seq<seq<T>>, z: seq<seq<T>>, width: nat, i: nat, shift: nat)
    requires Even(y, width) && Even(z, width) && i < width && y != [] && |z| == shift + |y|
    requires forall r: nat :: r < |y| ==> SameAt(y, z, shift, r)
    ensures Plain(op, z, width, i, shift, |z|) == Plain(op, y, width, i, 0, |y|)
  {
    PlainSame(op, y, z, width, i, shift, |y|, |z|);
  }

  lemma PlainConcat<T(!new)>(op: (T, T) -> T, x: seq<seq<T>>, y: seq<seq<T>>, width: nat, i: nat)
    requires Associative(op) && Even(x, width) && Even(y, width) && i < width && x != [] && y != []
    ensures Even(x + y, width)
    ensures Plain(op, x + y, width, i, 0, |x + y|) == op(Plain(op, x, width, i, 0, |x|), Plain(op, y, width, i, 0, |y|))
  {
    EvenConcat(x, y, width);
    forall r: nat | r < |x| ensures SameAt(x, x + y, 0, r) { SameInConcat(x, y, r); }
    forall r: nat | r < |y| ensures SameAt(y, x + y, |x|, r) { SameInConcat(x, y, r); }
    PlainLeft(op, x, x + y, width, i);
    PlainRight(op, y, x + y, width, i, |x|);
    PlainSplit(op, x + y, width, i, 0, |x|, |x + y|);
  }

  lemma LeadersSplit<T>(c: seq<Calls<T>>, e: nat, op: (T, T) -> T, width: nat)
    requires SameCalls(c, e, op, width) && c != []
    ensures SameCalls(c[..|c| - 1], e, op, width)
    ensures Leaders(c, e, op, width) == Leaders(c[..|c| - 1], e, op, width) + [Given(c[|c| - 1], e)]
    ensures AllInputs(c, e, op, width) == AllInputs(c[..|c| - 1], e, op, width) + c[|c| - 1].input(e)
    ensures |c[|c| - 1].input(e)| >= 1 && Even(c[|c| - 1].input(e), width)
  {
    var last := c[|c| - 1];
    assert |last.input(e)| == last.procs && Even(last.input(e), last.width(e));
  }

  /** Reducing the leaders' values is reducing everybody's. */
  lemma {:induction false} LeadersReduceAll<T(!new)>(c: seq<Calls<T>>, e: nat, op: (T, T) -> T, width: nat, i: nat)
    requires SameCalls(c, e, op, width) && Associative(op) && i < width && c != []
    ensures Plain(op, Leaders(c, e, op, width), width, i, 0, |c|)
      == Plain(op, AllInputs(c, e, op, width), width, i, 0, |AllInputs(c, e, op, width)|)
    decreases |c|
  {
    var last, front := c[|c| - 1], c[..|c| - 1];
    LeadersSplit(c, e, op, width);
    GivenIsPlain(last, e, i);
    if |c| == 1 {
      assert AllInputs(c, e, op, width) == last.input(e);
    } else {
      LeadersReduceAll(front, e, op, width, i);
      PlainConcat(op, Leaders(front, e, op, width), [Given(last, e)], width, i);
      PlainConcat(op, AllInputs(front, e, op, width), last.input(e), width, i);
    }
  }

  /** A process that has returned from episode `e` holds the reduction over all processes of all nodes,
      of the data of that same episode, each used once. */
  lemma ReturnsReduction<T(!new)>(c: seq<Calls<T>>, s: seq<Node<T>>, polls: seq<Poll>, t: seq<Node<T>>, m: nat,
                                  r: nat, op: (T, T) -> T, width: nat, i: nat)
    requires Start(c, s) && Reaches(c, s, polls, t) && m < |c| && r < c[m].procs
    requires |t| == |c| && |t[m].procs| == c[m].procs
    requires t[m].procs[r].pc.Idle? && t[m].procs[r].ep > 0
    requires SameCalls(c, t[m].procs[r].ep, op, width) && GlobalResult(c, t[m].procs[r].ep, op, width)
    requires Associative(op) && i < width
    ensures |t[m].procs[r].pc.out| == width
    ensures var all := AllInputs(c, t[m].procs[r].ep, op, width);
      t[m].procs[r].pc.out[i] == Plain(op, all, width, i, 0, |all|)
  {
    StartInv(c, s);
    RunInv(c, s, polls, t);
    assert Inv(c[m], t[m]);
    assert Holds(c[m], t[m], r);
    LeadersReduceAll(c, t[m].procs[r].ep, op, width, i);
  }

  // ---------------------------------------------------------------- progress

  /** Polling process `r` changes something although it starts no new call. */
  ghost predicate Advances<T>(c: Calls<T>, s: Node<T>, r: nat, done: bool) {
    r < c.procs && Fits(c, s, r) && !s.procs[r].pc.Idle? && Step(c, s, r, done) != s
  }

  lemma Changes<T>(c: Calls<T>, s: Node<T>, r: nat, done: bool)
    requires r < c.procs && Fits(c, s, r) && Step(c, s, r, done).procs[r] != s.procs[r]
    ensures Step(c, s, r, done) != s
  {}

  /** Somebody below a gathering process can advance once all processes have entered the episode. */
  lemma {:induction false} GatherAdvances<T>(c: Calls<T>, s: Node<T>, r: nat) returns (q: nat)
    requires Inv(c, s) && r < c.procs && Gathers(s.procs[r].pc)
    requires forall p :: 0 <= p < c.procs ==> s.procs[p].ep >= s.procs[r].ep
    ensures Advances(c, s, q, false)
    decreases c.procs - r
  {
    InvFits(c, s, r);
    assert Holds(c, s, r);
    GatherEpisode(c, s, r);
    q := r;
    var e := s.procs[r].ep;
    if s.procs[r].pc.Check? {
      var k := s.procs[r].pc.k;
      if Pow2(k) < c.procs && !Stores(c.procs, r, k) && s.seqs[r + Pow2(k)] != Wrap(e) {
        var p := r + Pow2(k);
        assert Holds(c, s, p);
        q := GatherAdvances(c, s, p);
      } else {
        Changes(c, s, r, false);
      }
    } else {
      Changes(c, s, r, false);
    }
  }

  lemma WaitAdvances<T>(c: Calls<T>, s: Node<T>, r: nat)
    requires Inv(c, s) && r < c.procs && !s.procs[r].pc.Idle? && s.procs[r].ep == Released(s)
    ensures Advances(c, s, r, false)
  {
    InvFits(c, s, r);
    assert Holds(c, s, r) && Holds(c, s, 0);
    Changes(c, s, r, false);
  }

  lemma LeaderAdvances<T>(c: Calls<T>, s: Node<T>)
    requires Inv(c, s) && !s.procs[0].pc.Idle? && !Gathers(s.procs[0].pc)
    ensures Advances(c, s, 0, true)
  {
    InvFits(c, s, 0);
    assert Holds(c, s, 0);
    Changes(c, s, 0, true);
  }

  /** Progress: when every process has entered an episode that somebody has not returned from, some
      poll of a process inside its call advances. */
  lemma SomePollAdvances<T>(c: seq<Calls<T>>, s: seq<Node<T>>, m: nat, r: nat) returns (a: Poll)
    requires SystemInv(c, s) && m < |c| && r < c[m].procs && !s[m].procs[r].pc.Idle?
    requires forall n, q :: 0 <= n < |c| && 0 <= q < c[n].procs ==> s[n].procs[q].ep >= s[m].procs[r].ep
    ensures Allowed(c, s, a) && Advances(c[a.node], s[a.node], a.proc, a.done)
  {
    var e := s[m].procs[r].ep;
    assert Inv(c[m], s[m]);
    assert Holds(c[m], s[m], r) && Holds(c[m], s[m], 0);
    if e == Released(s[m]) {
      WaitAdvances(c[m], s[m], r);
      return Poll(m, r, false);
    }
    if n :| 0 <= n < |s| && Begun(s[n]) < e {
      assert Inv(c[n], s[n]);
      assert Holds(c[n], s[n], 0);
      assert s[n].procs[0].ep == e by { assert s[n].procs[0].ep >= e; }
      forall p | 0 <= p < c[n].procs ensures s[n].procs[p].ep >= s[n].procs[0].ep {}
      var q := GatherAdvances(c[n], s[n], 0);
      return Poll(n, q, false);
    }
    assert s[m].procs[0].ep == e by { assert s[m].procs[0].ep >= e; }
    assert Begun(s[m]) >= e;
    LeaderAdvances(c[m], s[m]);
    a := Poll(m, 0, true);
    forall n | 0 <= n < |s| ensures |s[n].procs| >= 1 && Begun(s[n]) >= e {
      assert Inv(c[n], s[n]);
    }
    assert AllBegun(s, e);
  }

  // ---------------------------------------------------------------- calls end

  /** The steps of the levels from `k` on, if each finds its partner. */
  function LevelsLeft(procs: nat, width: nat, k: nat): nat
    decreases procs - k
  {
    if k >= procs then 0 else LevelsLeft(procs, width, k + 1) + width + 2
  }

  /** A bound on the steps that a process can still take before it returns. */
  function Left<T>(procs: nat, width: nat, pc: Pc<T>): int {
    match pc
    case Idle(_) => 0
    case Check(k, _) => LevelsLeft(procs, width, k) + 2 * width + 4
    case Combine(k, n, _) => LevelsLeft(procs, width, k + 1) + 3 * width + 5 - n
    case Store(_, n, _) => 2 * width + 3 - n
    case Started(_) => width + 2
    case Publish(n, _) => width + 1 - n
    case Wait => width + 2
    case Copy(n, _) => width + 1 - n
  }

  lemma LeftNonNegative<T>(c: Calls<T>, s: Node<T>, r: nat)
    requires Inv(c, s) && r < c.procs
    ensures Left(c.procs, c.width(s.procs[r].ep), s.procs[r].pc) >= 0
  {
    assert PcHolds(c, s, r) by { assert Holds(c, s, r); }
  }

  /** What a poll leaves of the steps of a process. */
  function LeftOf<T>(c: Calls<T>, p: Proc<T>): int { Left(c.procs, c.width(p.ep), p.pc) }

  lemma GatherCosts<T>(c: Calls<T>, s: Node<T>, r: nat, done: bool)
    requires Inv(c, s) && Advances(c, s, r, done) && (s.procs[r].pc.Check? || s.procs[r].pc.Combine?)
    ensures var p := Step(c, s, r, done).procs[r]; p.ep == s.procs[r].ep && LeftOf(c, p) < LeftOf(c, s.procs[r])
  {
    assert PcHolds(c, s, r) by { assert Holds(c, s, r); }
    Pow2Exceeds(s.procs[r].pc.k);
  }

  /** A poll that advances brings its process nearer to returning. */
  lemma AdvanceCosts<T>(c: Calls<T>, s: Node<T>, r: nat, done: bool)
    requires Inv(c, s) && Advances(c, s, r, done)
    ensures var p := Step(c, s, r, done).procs[r]; p.ep == s.procs[r].ep && LeftOf(c, p) < LeftOf(c, s.procs[r])
  {
    if s.procs[r].pc.Check? || s.procs[r].pc.Combine? {
      GatherCosts(c, s, r, done);
    } else {
      assert PcHolds(c, s, r) by { assert Holds(c, s, r); }
    }
  }

  ghost function NodeLeft<T>(c: Calls<T>, s: Node<T>, n: nat): int
    requires n <= c.procs == |s.procs|
  {
    if n == 0 then 0 else NodeLeft(c, s, n - 1) + LeftOf(c, s.procs[n - 1])
  }

  ghost function SystemLeft<T>(c: seq<Calls<T>>, s: seq<Node<T>>, n: nat): int
    requires n <= |c| == |s| && forall m :: 0 <= m < n ==> c[m].procs == |s[m].procs|
  {
    if n == 0 then 0 else SystemLeft(c, s, n - 1) + NodeLeft(c[n - 1], s[n - 1], c[n - 1].procs)
  }

  lemma {:induction false} NodeLeftNonNegative<T>(c: Calls<T>, s: Node<T>, n: nat)
    requires Inv(c, s) && n <= c.procs
    ensures NodeLeft(c, s, n) >= 0
  {
    if n > 0 {
      NodeLeftNonNegative(c, s, n - 1);
      LeftNonNegative(c, s, n - 1);
    }
  }

  lemma {:induction false} SystemLeftNonNegative<T>(c: seq<Calls<T>>, s: seq<Node<T>>, n: nat)
    requires SystemInv(c, s) && n <= |c|
    ensures SystemLeft(c, s, n) >= 0
  {
    if n > 0 {
      SystemLeftNonNegative(c, s, n - 1);
      assert Inv(c[n - 1], s[n - 1]);
      NodeLeftNonNegative(c[n - 1], s[n - 1], c[n - 1].procs);
    }
  }

  lemma {:induction false} NodeLeftDrops<T>(c: Calls<T>, s: Node<T>, t: Node<T>, r: nat, n: nat)
    requires |s.procs| == |t.procs| == c.procs && r < c.procs && n <= c.procs
    requires forall q :: 0 <= q < c.procs && q != r ==> t.procs[q] == s.procs[q]
    requires LeftOf(c, t.procs[r]) < LeftOf(c, s.procs[r])
    ensures if r < n then NodeLeft(c, t, n) < NodeLeft(c, s, n) else NodeLeft(c, t, n) == NodeLeft(c, s, n)
  {
    if n > 0 {
      NodeLeftDrops(c, s, t, r, n - 1);
    }
  }

  lemma {:induction false} SystemLeftDrops<T>(c: seq<Calls<T>>, s: seq<Node<T>>, t: seq<Node<T>>, m: nat, n: nat)
    requires n <= |c| == |s| == |t| && m < |c| && forall x :: 0 <= x < |c| ==>
      c[x].procs == |s[x].procs| == |t[x].procs|
    requires forall x :: 0 <= x < |c| && x != m ==> t[x] == s[x]
    requires NodeLeft(c[m], t[m], c[m].procs) < NodeLeft(c[m], s[m], c[m].procs)
    ensures if m < n then SystemLeft(c, t, n) < SystemLeft(c, s, n) else SystemLeft(c, t, n) == SystemLeft(c, s, n)
  {
    if n > 0 {
      SystemLeftDrops(c, s, t, m, n - 1);
    }
  }

  lemma OnlyOneMoves<T>(c: Calls<T>, s: Node<T>, r: nat, done: bool, q: nat)
    requires Inv(c, s) && r < c.procs && Fits(c, s, r) && q < c.procs && q != r
    ensures |Step(c, s, r, done).procs| == c.procs && Step(c, s, r, done).procs[q] == s.procs[q]
  {}

  /** Every poll in `polls` advances a call that was already under way. */
  ghost predicate AllAdvance<T>(c: seq<Calls<T>>, s: seq<Node<T>>, polls: seq<Poll>)
    decreases |polls|
  {
    polls != [] ==>
      Allowed(c, s, polls[0]) && Advances(c[polls[0].node], s[polls[0].node], polls[0].proc, polls[0].done) &&
      AllAdvance(c, Take(c, s, polls[0]), polls[1..])
  }

  /** Calls end: from any reachable state only a bounded number of polls can advance without somebody
      starting a new call. With the progress lemma, an episode that all have entered is completed. */
  lemma {:induction false} BoundedPolls<T>(c: seq<Calls<T>>, s: seq<Node<T>>, polls: seq<Poll>)
    requires SystemInv(c, s) && AllAdvance(c, s, polls)
    ensures |polls| <= SystemLeft(c, s, |c|)
    decreases |polls|
  {
    if polls == [] {
      SystemLeftNonNegative(c, s, |c|);
    } else {
      var a := polls[0];
      var t := Take(c, s, a);
      assert Inv(c[a.node], s[a.node]);
      TakeInv(c, s, a);
      forall q | 0 <= q < c[a.node].procs && q != a.proc ensures t[a.node].procs[q] == s[a.node].procs[q] {
        OnlyOneMoves(c[a.node], s[a.node], a.proc, a.done, q);
      }
      AdvanceCosts(c[a.node], s[a.node], a.proc, a.done);
      NodeLeftDrops(c[a.node], s[a.node], t[a.node], a.proc, c[a.node].procs);
      SystemLeftDrops(c, s, t, a.node, |c|);
      BoundedPolls(c, t, polls[1..]);
    }
  }
}
