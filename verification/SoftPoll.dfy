/** The poll function of one process, on words and resumable: it keeps its place in the gather loop in its own
    fields and returns when what it waits for is missing. A barrier is a poll with zero words. An entry of the
    shared-memory protocol is one word, or the two words of a pair for MAXLOC. */
module SoftPoll {
  import opened Powers
  import opened SoftTree
  import opened SoftBarrier
  import opened SoftOps

  ghost predicate Times<T>(c: Calls<T>, s: Node<T>, r: nat, done: bool, n: nat, t: Node<T>)
    decreases n
  {
    if n == 0 then s == t else Fits(c, s, r) && Times(c, Step(c, s, r, done), r, done, n - 1, t)
  }

  /** `t` is reached from `s` by steps of process `r` alone. */
  ghost predicate Iterates<T>(c: Calls<T>, s: Node<T>, r: nat, done: bool, t: Node<T>) {
    exists n: nat :: Times(c, s, r, done, n, t)
  }

  lemma IteratesNone<T>(c: Calls<T>, s: Node<T>, r: nat, done: bool)
    ensures Iterates(c, s, r, done, s)
  {
    assert Times(c, s, r, done, 0, s);
  }

  lemma {:induction false} TimesMore<T>(c: Calls<T>, s: Node<T>, r: nat, done: bool, n: nat, t: Node<T>)
    requires Times(c, s, r, done, n, t) && Fits(c, t, r)
    ensures Times(c, s, r, done, n + 1, Step(c, t, r, done))
    decreases n
  {
    if n > 0 {
      TimesMore(c, Step(c, s, r, done), r, done, n - 1, t);
    } else {
      assert Times(c, Step(c, s, r, done), r, done, 0, Step(c, t, r, done));
    }
  }

  lemma IteratesMore<T>(c: Calls<T>, s: Node<T>, r: nat, done: bool, t: Node<T>)
    requires Iterates(c, s, r, done, t) && Fits(c, t, r)
    ensures Iterates(c, s, r, done, Step(c, t, r, done))
  {
    var n: nat :| Times(c, s, r, done, n, t);
    TimesMore(c, s, r, done, n, t);
  }

  lemma {:induction false} TimesTrans<T>(c: Calls<T>, s: Node<T>, r: nat, done: bool, n: nat, u: Node<T>, k: nat,
                                         t: Node<T>)
    requires Times(c, s, r, done, n, u) && Times(c, u, r, done, k, t)
    ensures Times(c, s, r, done, n + k, t)
    decreases n
  {
    if n > 0 {
      TimesTrans(c, Step(c, s, r, done), r, done, n - 1, u, k, t);
    }
  }

  lemma IteratesTrans<T>(c: Calls<T>, s: Node<T>, r: nat, done: bool, u: Node<T>, t: Node<T>)
    requires Iterates(c, s, r, done, u) && Iterates(c, u, r, done, t)
    ensures Iterates(c, s, r, done, t)
  {
    var n: nat :| Times(c, s, r, done, n, u);
    var k: nat :| Times(c, u, r, done, k, t);
    TimesTrans(c, s, r, done, n, u, k, t);
  }

  lemma IteratesFirst<T>(c: Calls<T>, s: Node<T>, r: nat, done: bool, t: Node<T>)
    requires Fits(c, s, r) && Iterates(c, Step(c, s, r, done), r, done, t)
    ensures Iterates(c, s, r, done, t)
  {
    var n: nat :| Times(c, Step(c, s, r, done), r, done, n, t);
    assert Times(c, s, r, done, n + 1, t);
  }

  lemma {:induction false} TimesInv<T>(c: Calls<T>, s: Node<T>, r: nat, done: bool, n: nat, t: Node<T>)
    requires Inv(c, s) && r < c.procs && Times(c, s, r, done, n, t)
    ensures Inv(c, t)
    decreases n
  {
    if n > 0 {
      StepInv(c, s, r, done);
      TimesInv(c, Step(c, s, r, done), r, done, n - 1, t);
    }
  }

  lemma IteratesInv<T>(c: Calls<T>, s: Node<T>, r: nat, done: bool, t: Node<T>)
    requires Inv(c, s) && r < c.procs && Iterates(c, s, r, done, t)
    ensures Inv(c, t)
  {
    var n: nat :| Times(c, s, r, done, n, t);
    TimesInv(c, s, r, done, n, t);
  }

  /** The rank that a process has at level `k`, halved once per level, is odd where bit `k` of its own
      rank is set. */
  lemma {:induction false} RankBit(rank: nat, k: nat, r: nat)
    requires rank * Pow2(k) == r
    ensures Bit(r, k) <==> rank % 2 == 1
    decreases k
  {
    if k > 0 {
      var half := rank * Pow2(k - 1);
      Doubled(rank, Pow2(k - 1));
      RankBit(rank, k - 1, half);
      EvenBit(r, half, k);
    }
  }

  lemma EvenBit(r: nat, half: nat, k: nat)
    requires r == 2 * half && k > 0
    ensures Bit(r, k) <==> Bit(half, k - 1)
  {}

  lemma RankHalved(rank: nat, i: nat, r: nat)
    requires rank * i == r && rank % 2 == 0
    ensures (rank / 2) * (2 * i) == r
  {
    var h := rank / 2;
    assert rank == 2 * h;
  }

  lemma WrapNext(e: nat)
    ensures (Wrap(e) + 1) % WORDS == Wrap(e + 1)
  {}

  /** The test of the loop is the rule of the tree. */
  lemma LoopTest(rank: nat, i: nat, k: nat, r: nat, procs: nat)
    requires i == Pow2(k) && rank * i == r
    ensures Stores(procs, r, k) <==> rank % 2 == 1 || (rank + 1) * i >= procs
    ensures (rank + 1) * i == r + Pow2(k)
    ensures rank % 2 == 0 ==> (rank / 2) * (2 * i) == r
  {
    RankBit(rank, k, r);
    if rank % 2 == 0 {
      RankHalved(rank, i, r);
    }
  }

  // ---------------------------------------------------------------- uninterrupted runs of one process

  /** From position `n` on, `a` combined with `b`. */
  function Zip<T>(op: (T, T) -> T, a: seq<T>, b: seq<T>, n: nat): (r: seq<T>)
    requires |a| <= |b|
    ensures |r| == |a| && forall i :: 0 <= i < |a| ==> r[i] == if i < n then a[i] else op(a[i], b[i])
  {
    seq(|a|, i requires 0 <= i < |a| => if i < n then a[i] else op(a[i], b[i]))
  }

  /** Combining all words of the partner. */
  lemma {:induction false} CombineRun<T>(c: Calls<T>, s: Node<T>, r: nat, done: bool, e: nat, k: nat, n: nat,
                                         acc: seq<T>)
    returns (t: Node<T>)
    requires Shape(c, s) && c.procs >= 1 && r + Pow2(k) < c.procs && s.procs[r] == Proc(e, Combine(k, n, acc))
    requires n <= c.width(e) == |acc| <= c.room
    ensures Iterates(c, s, r, done, t)
    ensures t == SetPc(s, r, Check(k + 1, Zip(c.op(e), acc, s.data[r + Pow2(k)], n)))
    decreases c.width(e) - n
  {
    var cell := s.data[r + Pow2(k)];
    var u := Step(c, s, r, done);
    if n < c.width(e) {
      var more := acc[n := c.op(e)(acc[n], cell[n])];
      t := CombineRun(c, u, r, done, e, k, n + 1, more);
      assert Zip(c.op(e), more, cell, n + 1) == Zip(c.op(e), acc, cell, n);
    } else {
      t := u;
      IteratesNone(c, t, r, done);
      assert Zip(c.op(e), acc, cell, n) == acc;
    }
    IteratesFirst(c, s, r, done, t);
  }

  /** `a`, from position `n` on overwritten by `b`. */
  function Over<T>(a: seq<T>, b: seq<T>, n: nat): (r: seq<T>)
    requires n <= |b| <= |a|
    ensures |r| == |a| && forall i :: 0 <= i < |a| ==> r[i] == if n <= i < |b| then b[i] else a[i]
  {
    a[..n] + b[n..] + a[|b|..]
  }

  /** Storing all words and then the sequence number. */
  lemma {:induction false} StoreRun<T>(c: Calls<T>, s: Node<T>, r: nat, done: bool, e: nat, k: nat, n: nat, acc: seq<T>)
    returns (t: Node<T>)
    requires Shape(c, s) && r < c.procs && s.procs[r] == Proc(e, Store(k, n, acc)) && n <= c.width(e) == |acc| <= c.room
    ensures Iterates(c, s, r, done, t)
    ensures t == SetPc(s, r, AfterGather(r, acc)).(seqs := s.seqs[r := Wrap(e)],
                                                   data := s.data[r := Over(s.data[r], acc, n)])
    decreases c.width(e) - n
  {
    var u := Step(c, s, r, done);
    if n < c.width(e) {
      t := StoreRun(c, u, r, done, e, k, n + 1, acc);
      assert Over(u.data[r], acc, n + 1) == Over(s.data[r], acc, n);
    } else {
      t := u;
      IteratesNone(c, t, r, done);
      assert Over(s.data[r], acc, n) == s.data[r];
    }
    IteratesFirst(c, s, r, done, t);
  }

  /** Storing the result and then the sequence number. */
  lemma {:induction false} PublishRun<T>(c: Calls<T>, s: Node<T>, e: nat, n: nat, res: seq<T>) returns (t: Node<T>)
    requires Shape(c, s) && c.procs >= 1 && s.procs[0] == Proc(e, Publish(n, res)) && n <= c.width(e) == |res| <= c.room
    ensures Iterates(c, s, 0, true, t)
    ensures t == SetPc(s, 0, Idle(res)).(seqs := s.seqs[0 := Wrap(e)], data := s.data[0 := Over(s.data[0], res, n)])
    decreases c.width(e) - n
  {
    var u := Step(c, s, 0, true);
    if n < c.width(e) {
      t := PublishRun(c, u, e, n + 1, res);
      assert Over(u.data[0], res, n + 1) == Over(s.data[0], res, n);
    } else {
      t := u;
      IteratesNone(c, t, 0, true);
      assert Over(s.data[0], res, n) == s.data[0];
    }
    IteratesFirst(c, s, 0, true, t);
  }

  /** Copying all words of the result. */
  lemma {:induction false} CopyRun<T>(c: Calls<T>, s: Node<T>, r: nat, done: bool, e: nat, n: nat) returns (t: Node<T>)
    requires Shape(c, s) && r < c.procs && n <= c.width(e) <= c.room
    requires s.procs[r] == Proc(e, Copy(n, s.data[0][..n]))
    ensures Iterates(c, s, r, done, t) && t == SetPc(s, r, Idle(s.data[0][..c.width(e)]))
    decreases c.width(e) - n
  {
    var u := Step(c, s, r, done);
    if n < c.width(e) {
      assert s.data[0][..n] + [s.data[0][n]] == s.data[0][..n + 1];
      t := CopyRun(c, u, r, done, e, n + 1);
    } else {
      t := u;
      IteratesNone(c, t, r, done);
    }
    IteratesFirst(c, s, r, done, t);
  }

  // ---------------------------------------------------------------- entries in words

  /** The calls of a node and the operation code of each. */
  datatype Plan = Plan(calls: Calls<Entry>, code: nat -> WordOp)

  /** The calls use the operations that the codes name, and their words fit into the cells. */
  ghost predicate Coded(p: Plan, room: nat) {
    forall e: nat :: e > 0 ==> CodedAt(p, room, e)
  }

  ghost predicate CodedAt(p: Plan, room: nat, e: nat) {
    !p.code(e).OtherOp? && p.calls.op(e) == EntryOp(p.code(e)) && Stride(p.code(e)) * p.calls.width(e) <= room
  }

  /** The episode of which a data cell holds entries. */
  function FilledBy(s: Node<Entry>, x: nat): int
    requires x < |s.procs|
  {
    if x == 0 then (if s.procs[0].pc.Publish? then s.procs[0].ep else Released(s))
    else if s.procs[x].pc.Store? then s.procs[x].ep
    else Stored(s.procs[x])
  }

  /** How many entries of that episode it holds. */
  function FilledTo(c: Calls<Entry>, s: Node<Entry>, x: nat): nat
    requires x < |s.procs|
  {
    if x == 0 && s.procs[0].pc.Publish? then s.procs[0].pc.n
    else if x > 0 && s.procs[x].pc.Store? then s.procs[x].pc.n
    else if FilledBy(s, x) <= 0 then 0
    else c.width(FilledBy(s, x))
  }

  /** The words of a row are the entries of a cell, as far as it has been filled. */
  ghost predicate Shown(p: Plan, s: Node<Entry>, x: nat, row: seq<nat>) {
    x < |s.procs| == |s.data| && FilledBy(s, x) >= 0 &&
    forall i: nat :: i < FilledTo(p.calls, s, x) ==> ShownAt(p.code(FilledBy(s, x)), s.data[x], row, i)
  }

  ghost predicate ShownAt(op: WordOp, cell: seq<Entry>, row: seq<nat>, i: nat) {
    i < |cell| && Stride(op) * i + Stride(op) <= |row| && cell[i] == EntryAt(op, row, i)
  }

  /** A cell that nothing has happened to is still shown. */
  lemma ShownSame(p: Plan, s: Node<Entry>, t: Node<Entry>, x: nat, row: seq<nat>)
    requires Shown(p, s, x, row) && x < |t.procs| == |t.data| && s.procs[x] == t.procs[x] && s.data[x] == t.data[x]
    ensures Shown(p, t, x, row)
  {}

  /** The entries of the first words of a row. */
  lemma ShownPrefix(op: WordOp, row: seq<nat>, count: nat, i: nat)
    requires count <= |row| && Whole(op, count) && i < Entries(op, count)
    ensures Stride(op) * i + Stride(op) <= count && EntryAt(op, row[..count], i) == EntryAt(op, row, i)
  {}

  lemma CountIs(op: WordOp, count: nat, width: nat)
    requires count == Stride(op) * width
    ensures Whole(op, count) && Entries(op, count) == width
  {}

  /** A partner whose cell shows this episode has all its words there. */
  lemma PartnerFilled(p: Plan, s: Node<Entry>, r: nat, k: nat)
    requires Inv(p.calls, s) && r < p.calls.procs && s.procs[r].pc.Combine? && s.procs[r].pc.k == k
    ensures var q, e := r + Pow2(k), s.procs[r].ep;
      q < p.calls.procs && e > 0 && FilledBy(s, q) == e && FilledTo(p.calls, s, q) == p.calls.width(e)
  {
    var q := r + Pow2(k);
    GatherEpisode(p.calls, s, r);
    assert PcHolds(p.calls, s, r) by { assert Holds(p.calls, s, r); }
    assert Stored(s.procs[q]) == s.procs[r].ep && !s.procs[q].pc.Store? by { assert Holds(p.calls, s, q); }
  }

  /** While a worker copies, the leader's cell has the result of its episode. */
  lemma ResultFilled(p: Plan, s: Node<Entry>, r: nat)
    requires Inv(p.calls, s) && r < p.calls.procs && s.procs[r].pc.Copy?
    ensures var e := s.procs[r].ep; e > 0 && FilledBy(s, 0) == e && FilledTo(p.calls, s, 0) == p.calls.width(e)
  {
    assert Holds(p.calls, s, r) && Holds(p.calls, s, 0);
    if s.procs[0].pc.Publish? {
      AllWait(p.calls, s, r);
    }
  }

  /** What combining the words of a row does to the own entries. */
  lemma WordsCombined(p: Plan, e: nat, own: seq<nat>, row: seq<nat>, now: seq<nat>, cell: seq<Entry>)
    requires CodedAt(p, |row|, e) && |own| == Stride(p.code(e)) * p.calls.width(e) <= |row|
    requires Reduced(p.code(e), own, row[..|own|], now) && p.calls.width(e) <= |cell|
    requires forall i: nat :: i < p.calls.width(e) ==> ShownAt(p.code(e), cell, row, i)
    ensures Whole(p.code(e), |own|) && |now| == |own|
    ensures |EntriesOf(p.code(e), own)| == p.calls.width(e)
    ensures EntriesOf(p.code(e), now) == Zip(p.calls.op(e), EntriesOf(p.code(e), own), cell, 0)
  {
    var op := p.code(e);
    CountIs(op, |own|, p.calls.width(e));
    var z := Zip(p.calls.op(e), EntriesOf(op, own), cell, 0);
    forall i: nat | i < p.calls.width(e) ensures EntriesOf(op, now)[i] == z[i] {
      ReducedEntries(op, own, row[..|own|], now, i);
      ShownPrefix(op, row, |own|, i);
      assert ShownAt(op, cell, row, i);
    }
  }

  /** Words stored in a row are entries in the cell. */
  lemma WordsStored(p: Plan, t: Node<Entry>, x: nat, e: nat, ws: seq<nat>, row: seq<nat>, before: seq<Entry>)
    requires x < |t.procs| == |t.data| && e > 0 && FilledBy(t, x) == e && FilledTo(p.calls, t, x) == p.calls.width(e)
    requires |ws| == Stride(p.code(e)) * p.calls.width(e) <= |row| && row[..|ws|] == ws && Whole(p.code(e), |ws|)
    requires p.calls.width(e) <= |before| && |EntriesOf(p.code(e), ws)| == p.calls.width(e)
    requires t.data[x] == Over(before, EntriesOf(p.code(e), ws), 0)
    ensures Shown(p, t, x, row)
  {
    var op := p.code(e);
    forall i: nat | i < p.calls.width(e) ensures ShownAt(op, t.data[x], row, i) {
      ShownPrefix(op, row, |ws|, i);
    }
  }

  /** The words as combined are what the run of combining steps gives. */
  lemma CombineEnds(p: Plan, u: Node<Entry>, r: nat, done: bool, e: nat, k: nat, own: seq<nat>, row: seq<nat>,
                    now: seq<nat>, cell: seq<Entry>)
    returns (t: Node<Entry>)
    requires Inv(p.calls, u) && r + Pow2(k) < p.calls.procs && cell == u.data[r + Pow2(k)]
    requires CodedAt(p, |row|, e) && |own| == Stride(p.code(e)) * p.calls.width(e) <= |row| && Whole(p.code(e), |own|)
    requires u.procs[r] == Proc(e, Combine(k, 0, EntriesOf(p.code(e), own))) && p.calls.width(e) <= p.calls.room
    requires Reduced(p.code(e), own, row[..|own|], now)
    requires forall i: nat :: i < p.calls.width(e) ==> ShownAt(p.code(e), cell, row, i)
    ensures Iterates(p.calls, u, r, done, t) && Inv(p.calls, t) && |now| == |own|
    ensures t == SetPc(u, r, Check(k + 1, EntriesOf(p.code(e), now)))
  {
    WordsCombined(p, e, own, row, now, cell);
    t := CombineRun(p.calls, u, r, done, e, k, 0, EntriesOf(p.code(e), own));
    IteratesInv(p.calls, u, r, done, t);
  }

  /** Words read from a row are the entries of the cell. */
  lemma WordsRead(p: Plan, e: nat, row: seq<nat>, count: nat, cell: seq<Entry>)
    requires count == Stride(p.code(e)) * p.calls.width(e) <= |row| && Whole(p.code(e), count)
    requires p.calls.width(e) <= |cell|
    requires forall i: nat :: i < p.calls.width(e) ==> ShownAt(p.code(e), cell, row, i)
    ensures EntriesOf(p.code(e), row[..count]) == cell[..p.calls.width(e)]
  {
    var op := p.code(e);
    CountIs(op, count, p.calls.width(e));
    forall i: nat | i < p.calls.width(e) ensures EntriesOf(op, row[..count])[i] == cell[i] {
      ShownPrefix(op, row, count, i);
      assert ShownAt(op, cell, row, i);
    }
  }

  class Poller {
    const me: nat
    const seqs: array<nat>
    const data: array2<nat>
    var seqVal: nat
    var loopCounter: nat
    var loopRank: nat
    var commStart: bool
    var count: nat
    var op: WordOp
    var idata: array<nat>
    var odata: array<nat>

    ghost predicate Apart()
      reads this
    {
      seqs != idata && seqs != odata && idata != odata && count <= idata.Length && count <= odata.Length &&
      Whole(op, count)
    }

    /** The shared cells are those of `s`. */
    ghost predicate Represents(p: Plan, s: Node<Entry>)
      reads this, seqs, data
    {
      Inv(p.calls, s) && Coded(p, data.Length1) && me < p.calls.procs && s.seqs == seqs[..] && AllShown(p, s)
    }

    ghost predicate AllShown(p: Plan, s: Node<Entry>)
      reads this, data
    {
      data.Length0 == |s.procs| && forall x: nat :: x < data.Length0 ==> Shown(p, s, x, Row(data, x, data.Length1))
    }

    /** The fields are those of a call in episode `e`. */
    ghost predicate InCall(p: Plan, e: nat)
      reads this
    {
      Apart() && e > 0 && seqVal == Wrap(e) && op == p.code(e) && count == Stride(op) * p.calls.width(e)
    }

    /** The fields say that the process is at `pr`. */
    ghost predicate Matches(p: Plan, pr: Proc<Entry>)
      reads this, idata, odata
    {
      InCall(p, pr.ep) &&
      match pr.pc
      case Idle(out) => out == EntriesOf(op, odata[..count])
      case Check(k, acc) =>
        !commStart && acc == EntriesOf(op, idata[..count]) && loopCounter == Pow2(k) && loopRank * Pow2(k) == me
      case Started(acc) => commStart && me == 0 && acc == EntriesOf(op, idata[..count])
      case Wait => commStart && me > 0
      case _ => false
    }

    constructor (me: nat, seqs: array<nat>, data: array2<nat>, idata: array<nat>, odata: array<nat>)
      ensures this.me == me && this.seqs == seqs && this.data == data && seqVal == Wrap(0)
    {
      this.me, this.seqs, this.data := me, seqs, data;
      seqVal, loopCounter, loopRank, commStart, count := 0, 1, me, false, 0;
      op, this.idata, this.odata := SumOp, idata, odata;
    }

    /** The fields of a new call: the next sequence number, and the gather loop at its beginning. */
    method SetUp(op: WordOp, count: nat, idata: array<nat>, odata: array<nat>)
      modifies this
      ensures seqVal == (old(seqVal) + 1) % WORDS && loopCounter == 1 && loopRank == me && !commStart
      ensures this.op == op && this.count == count && this.idata == idata && this.odata == odata
    {
      seqVal := (seqVal + 1) % WORDS;
      this.op, this.count, this.idata, this.odata := op, count, idata, odata;
      commStart := false;
      loopCounter := 1;
      loopRank := me;
    }

    /** Start of a call. */
    method Enter(ghost p: Plan, ghost s: Node<Entry>, op: WordOp, count: nat, idata: array<nat>, odata: array<nat>)
      requires Represents(p, s) && s.procs[me].pc.Idle? && seqVal == Wrap(s.procs[me].ep)
      requires var e := s.procs[me].ep + 1;
        op == p.code(e) && count == Stride(op) * p.calls.width(e) <= idata.Length && count <= odata.Length &&
        Whole(op, count) && EntriesOf(op, idata[..count]) == p.calls.input(e)[me]
      requires seqs != idata && seqs != odata && idata != odata
      modifies this
      ensures Fits(p.calls, s, me) && Represents(p, Step(p.calls, s, me, false))
      ensures Matches(p, Step(p.calls, s, me, false).procs[me])
    {
      ghost var e := s.procs[me].ep;
      StepInv(p.calls, s, me, false);
      ghost var t := Step(p.calls, s, me, false);
      assert t.procs[me] == Proc(e + 1, Check(0, p.calls.input(e + 1)[me])) && t.data == s.data && t.seqs == s.seqs;
      WrapNext(e);
      SetUp(op, count, idata, odata);
      assert loopRank * Pow2(0) == me;
      Quiet(p, s, t);
    }

    /** What leaves the cells, and how far the own one is filled, as they were leaves them shown. */
    lemma Quiet(p: Plan, s: Node<Entry>, t: Node<Entry>)
      requires AllShown(p, s) && |t.procs| == |s.procs| == |s.data| && me < |s.procs| && t.data == s.data
      requires forall x: nat :: x < |s.procs| && x != me ==> t.procs[x] == s.procs[x]
      requires FilledBy(t, me) == FilledBy(s, me) && FilledTo(p.calls, t, me) == FilledTo(p.calls, s, me)
      ensures AllShown(p, t)
    {
      forall x: nat | x < data.Length0 ensures Shown(p, t, x, Row(data, x, data.Length1)) {
        assert Shown(p, s, x, Row(data, x, data.Length1));
        if x != me {
          ShownSame(p, s, t, x, Row(data, x, data.Length1));
        }
      }
    }

    /** The process is at level `k` of the gather loop. */
    ghost predicate AtLevel(p: Plan, t: Node<Entry>, e: nat, k: nat)
      reads this, seqs, data, idata
    {
      Represents(p, t) && InCall(p, e) && !commStart && t.procs[me] == Proc(e, Check(k, EntriesOf(op, idata[..count])))
    }

    /** The partner has stored: its words are there for this episode. */
    lemma CombineBegins(p: Plan, at: Node<Entry>, done: bool, e: nat, k: nat, pair: nat) returns (u: Node<Entry>)
      requires AtLevel(p, at, e, k)
      requires Pow2(k) < p.calls.procs && !Stores(p.calls.procs, me, k) && pair == me + Pow2(k) && seqs[pair] == seqVal
      ensures Fits(p.calls, at, me) && u == Step(p.calls, at, me, done) && Inv(p.calls, u) && AllShown(p, u)
      ensures u == SetPc(at, me, Combine(k, 0, EntriesOf(op, idata[..count])))
      ensures pair < p.calls.procs && p.calls.width(e) <= p.calls.room == |u.data[pair]|
      ensures CodedAt(p, data.Length1, e)
      ensures forall i: nat :: i < p.calls.width(e) ==> ShownAt(op, u.data[pair], Row(data, pair, data.Length1), i)
    {
      StepInv(p.calls, at, me, done);
      u := Step(p.calls, at, me, done);
      PartnerFilled(p, u, me, k);
      Quiet(p, at, u);
      assert Shown(p, u, pair, Row(data, pair, data.Length1));
    }

    /** Folds the stored words of process `pair` into the own ones. */
    method CombineWords(ghost p: Plan, ghost s: Node<Entry>, ghost done: bool, ghost at: Node<Entry>, ghost e: nat,
                        ghost k: nat, pair: nat)
      returns (ghost t: Node<Entry>)
      requires Iterates(p.calls, s, me, done, at) && AtLevel(p, at, e, k)
      requires Pow2(k) < p.calls.procs && !Stores(p.calls.procs, me, k) && pair == me + Pow2(k) && seqs[pair] == seqVal
      modifies idata
      ensures Iterates(p.calls, s, me, done, t) && AtLevel(p, t, e, k + 1)
    {
      ghost var own, row := idata[..count], Row(data, pair, data.Length1);
      ghost var u := CombineBegins(p, at, done, e, k, pair);
      IteratesMore(p.calls, s, me, done, at);
      var ok := ReduceWords(op, count, idata, data, pair);
      assert row[..count] == Row(data, pair, count);
      t := CombineEnds(p, u, me, done, e, k, own, row, idata[..count], u.data[pair]);
      IteratesTrans(p.calls, s, me, done, u, t);
      Quiet(p, u, t);
    }

    /** Stores the own words into the own row. */
    method CopyOut(from: array<nat>, row: nat)
      requires count <= from.Length && row < data.Length0 && count <= data.Length1
      modifies data
      ensures Row(data, row, data.Length1)[..count] == from[..count]
      ensures forall x: nat :: x < data.Length0 && x != row ==>
        Row(data, x, data.Length1) == old(Row(data, x, data.Length1))
    {
      var n := 0;
      while n < count
        invariant n <= count && forall i :: 0 <= i < n ==> data[row, i] == from[i]
        invariant forall x, i :: 0 <= x < data.Length0 && x != row && 0 <= i < data.Length1 ==>
          data[x, i] == old(data[x, i])
      {
        data[row, n] := from[n];
        n := n + 1;
      }
    }

    /** Cells of others are still shown, and the own row shows what has been stored in it. */
    lemma Refilled(p: Plan, s: Node<Entry>, t: Node<Entry>, e: nat, ws: seq<nat>)
      requires |t.procs| == |s.procs| == |s.data| == |t.data| == data.Length0 && me < |s.procs|
      requires forall x: nat :: x < |s.procs| && x != me ==> t.procs[x] == s.procs[x] && t.data[x] == s.data[x]
      requires forall x: nat :: x < |s.procs| && x != me ==> Shown(p, s, x, Row(data, x, data.Length1))
      requires e > 0 && FilledBy(t, me) == e && FilledTo(p.calls, t, me) == p.calls.width(e)
      requires |ws| == Stride(p.code(e)) * p.calls.width(e) <= data.Length1
      requires Row(data, me, data.Length1)[..|ws|] == ws && Whole(p.code(e), |ws|)
      requires p.calls.width(e) == |EntriesOf(p.code(e), ws)| <= |s.data[me]|
      requires t.data[me] == Over(s.data[me], EntriesOf(p.code(e), ws), 0)
      ensures AllShown(p, t)
    {
      forall x: nat | x < data.Length0 ensures Shown(p, t, x, Row(data, x, data.Length1)) {
        if x == me {
          WordsStored(p, t, x, e, ws, Row(data, x, data.Length1), s.data[me]);
        } else {
          ShownSame(p, s, t, x, Row(data, x, data.Length1));
        }
      }
    }

    lemma StoreBegins(p: Plan, at: Node<Entry>, done: bool, e: nat, k: nat) returns (u: Node<Entry>, t: Node<Entry>)
      requires AtLevel(p, at, e, k) && Pow2(k) < p.calls.procs && Stores(p.calls.procs, me, k)
      ensures Fits(p.calls, at, me) && u == Step(p.calls, at, me, done) && Iterates(p.calls, u, me, done, t)
      ensures Inv(p.calls, t) && me > 0 && |EntriesOf(op, idata[..count])| == p.calls.width(e) <= |at.data[me]|
      ensures t == SetPc(at, me, Wait).(seqs := at.seqs[me := Wrap(e)],
                                        data := at.data[me := Over(at.data[me], EntriesOf(op, idata[..count]), 0)])
    {
      var acc := EntriesOf(op, idata[..count]);
      NoBits(k);
      CountIs(op, count, p.calls.width(e));
      StepInv(p.calls, at, me, done);
      u := Step(p.calls, at, me, done);
      assert u == SetPc(at, me, Store(k, 0, acc));
      t := StoreRun(p.calls, u, me, done, e, k, 0, acc);
      IteratesInv(p.calls, u, me, done, t);
    }

    /** Stores the own words, then the sequence number. */
    method StoreWords(ghost p: Plan, ghost s: Node<Entry>, ghost done: bool, ghost at: Node<Entry>, ghost e: nat,
                      ghost k: nat)
      returns (ghost t: Node<Entry>)
      requires Iterates(p.calls, s, me, done, at) && AtLevel(p, at, e, k)
      requires Pow2(k) < p.calls.procs && Stores(p.calls.procs, me, k)
      modifies seqs, data
      ensures Represents(p, t) && Iterates(p.calls, s, me, done, t) && InCall(p, e)
      ensures idata[..count] == old(idata[..count]) && t.procs[me] == Proc(e, Wait) && me > 0
    {
      ghost var u;
      u, t := StoreBegins(p, at, done, e, k);
      IteratesMore(p.calls, s, me, done, at);
      IteratesTrans(p.calls, s, me, done, u, t);
      assert CodedAt(p, data.Length1, e);
      ghost var ws := idata[..count];
      forall x: nat | x < data.Length0 ensures Shown(p, at, x, Row(data, x, data.Length1)) {}
      CopyOut(idata, me);
      seqs[me] := seqVal;
      Refilled(p, at, t, e, ws);
    }

    lemma Missing(p: Plan, t: Node<Entry>, done: bool, e: nat, k: nat)
      requires AtLevel(p, t, e, k) && Pow2(k) < p.calls.procs && !Stores(p.calls.procs, me, k)
      requires me + Pow2(k) < seqs.Length && seqs[me + Pow2(k)] != seqVal
      ensures Fits(p.calls, t, me) && Step(p.calls, t, me, done) == t
    {}

    lemma Complete(p: Plan, at: Node<Entry>, done: bool, e: nat, k: nat) returns (t: Node<Entry>)
      requires AtLevel(p, at, e, k) && Pow2(k) >= p.calls.procs
      ensures Fits(p.calls, at, me) && t == Step(p.calls, at, me, done) && Represents(p, t)
      ensures me == 0 && t.procs[me] == Proc(e, Started(EntriesOf(op, idata[..count])))
    {
      StepInv(p.calls, at, me, done);
      t := Step(p.calls, at, me, done);
      assert me == 0 by {
        assert Holds(p.calls, at, me);
        LowZeroLarge(me, k);
      }
      Quiet(p, at, t);
    }

    /** The gather is over: the leader has collected everything, a worker has stored. */
    ghost predicate Gathered(p: Plan, t: Node<Entry>, e: nat)
      reads this, seqs, data, idata
    {
      Represents(p, t) && InCall(p, e) && t.procs[me] == Proc(e, AfterGather(me, EntriesOf(op, idata[..count])))
    }

    lemma Completes(p: Plan, s: Node<Entry>, at: Node<Entry>, done: bool, e: nat, k: nat) returns (t: Node<Entry>)
      requires Iterates(p.calls, s, me, done, at) && AtLevel(p, at, e, k) && Pow2(k) >= p.calls.procs
      ensures Iterates(p.calls, s, me, done, t) && Gathered(p, t, e)
    {
      t := Complete(p, at, done, e, k);
      IteratesMore(p.calls, s, me, done, at);
    }

    /** The gather loop: from where it stopped last time to its end, or to the next missing partner. */
    method GatherLoop(ghost p: Plan, ghost s: Node<Entry>, ghost done: bool, ghost e: nat, ghost from: nat)
      returns (ok: bool, ghost t: Node<Entry>, ghost k: nat)
      requires AtLevel(p, s, e, from) && loopCounter == Pow2(from) && loopRank * loopCounter == me
      modifies this`loopCounter, this`loopRank, seqs, data, idata
      ensures Iterates(p.calls, s, me, done, t)
      ensures ok ==> Gathered(p, t, e)
      ensures !ok ==> AtLevel(p, t, e, k) && loopCounter == Pow2(k) && loopRank * loopCounter == me
      ensures !ok ==> Fits(p.calls, t, me) && Step(p.calls, t, me, done) == t
    {
      t := s;
      IteratesNone(p.calls, s, me, done);
      var numproc := seqs.Length;
      var i := loopCounter;
      var rank := loopRank;
      k := from;
      while i < numproc
        invariant AtLevel(p, t, e, k) && Iterates(p.calls, s, me, done, t)
        invariant i == Pow2(k) && rank * i == me
        decreases numproc - i
      {
        LoopTest(rank, i, k, me, numproc);
        var pair := (rank + 1) * i;
        if rank % 2 == 1 || pair >= numproc {
          t := StoreWords(p, s, done, t, e, k);
          return true, t, k;
        }
        if seqs[pair] != seqVal {
          Missing(p, t, done, e, k);
          loopCounter := i;
          loopRank := rank;
          return false, t, k;
        }
        t := CombineWords(p, s, done, t, e, k, pair);
        rank := rank / 2;
        i := 2 * i;
        k := k + 1;
      }
      t := Completes(p, s, t, done, e, k);
      ok := true;
    }

    method Gather(ghost p: Plan, ghost s: Node<Entry>, ghost done: bool) returns (ok: bool, ghost t: Node<Entry>)
      requires Represents(p, s) && Matches(p, s.procs[me]) && s.procs[me].pc.Check?
      modifies this`loopCounter, this`loopRank, this`commStart, seqs, data, idata
      ensures Represents(p, t) && Matches(p, t.procs[me]) && Iterates(p.calls, s, me, done, t) &&
        t.procs[me].ep == s.procs[me].ep
      ensures ok ==> t.procs[me].pc.Started? || t.procs[me].pc.Wait?
      ensures !ok ==> Fits(p.calls, t, me) && t.procs[me].pc.Check? && Step(p.calls, t, me, done) == t
    {
      ghost var k;
      ok, t, k := GatherLoop(p, s, done, s.procs[me].ep, s.procs[me].pc.k);
      if ok {
        commStart := true;
      }
    }

    method SetResult(res: seq<nat>)
      requires count == |res| <= odata.Length
      modifies odata
      ensures odata[..count] == res
    {
      forall n | 0 <= n < count { odata[n] := res[n]; }
    }

    /** The steps with which the leader stores the result. */
    lemma PublishSteps(p: Plan, at: Node<Entry>, e: nat, res: seq<nat>) returns (u: Node<Entry>, t: Node<Entry>)
      requires Represents(p, at) && InCall(p, e) && me == 0 && at.procs[0].ep == e && at.procs[0].pc.Started?
      requires |res| == count && EntriesOf(op, res) == p.calls.result(e)
      ensures Fits(p.calls, at, 0) && u == Step(p.calls, at, 0, true) && Iterates(p.calls, u, 0, true, t)
      ensures Inv(p.calls, t) && |EntriesOf(op, res)| == p.calls.width(e) <= |at.data[0]|
      ensures t == SetPc(at, 0, Idle(EntriesOf(op, res))).(
        seqs := at.seqs[0 := Wrap(e)], data := at.data[0 := Over(at.data[0], EntriesOf(op, res), 0)])
    {
      CountIs(op, count, p.calls.width(e));
      StepInv(p.calls, at, 0, true);
      u := Step(p.calls, at, 0, true);
      t := PublishRun(p.calls, u, e, 0, EntriesOf(op, res));
      IteratesInv(p.calls, u, 0, true, t);
    }

    /** The leader takes the result of the inter-node operation, stores it, and then releases the workers. */
    method Publish(ghost p: Plan, ghost s: Node<Entry>, ghost at: Node<Entry>, ghost e: nat, res: seq<nat>)
      returns (ghost t: Node<Entry>)
      requires Represents(p, at) && InCall(p, e) && Iterates(p.calls, s, me, true, at) && me == 0
      requires at.procs[0].ep == e && at.procs[0].pc.Started?
      requires |res| == count && EntriesOf(op, res) == p.calls.result(e)
      modifies seqs, data, odata
      ensures Represents(p, t) && Iterates(p.calls, s, me, true, t) && InCall(p, e)
      ensures t.procs[me] == Proc(e, Idle(EntriesOf(op, odata[..count])))
    {
      ghost var u;
      u, t := PublishSteps(p, at, e, res);
      IteratesMore(p.calls, s, me, true, at);
      IteratesTrans(p.calls, s, me, true, u, t);
      assert CodedAt(p, data.Length1, e);
      SetResult(res);
      forall x: nat | x < data.Length0 ensures Shown(p, at, x, Row(data, x, data.Length1)) {}
      CopyOut(odata, 0);
      seqs[0] := seqVal;
      Refilled(p, at, t, e, res);
    }

    /** The steps with which a worker copies the result. */
    lemma CopySteps(p: Plan, at: Node<Entry>, done: bool, e: nat) returns (u: Node<Entry>, t: Node<Entry>)
      requires Represents(p, at) && InCall(p, e) && at.procs[me] == Proc(e, Wait) && seqs[0] == seqVal
      ensures Fits(p.calls, at, me) && u == Step(p.calls, at, me, done) && Iterates(p.calls, u, me, done, t)
      ensures Represents(p, t) && p.calls.width(e) <= |at.data[0]| && CodedAt(p, data.Length1, e)
      ensures t.procs[me] == Proc(e, Idle(at.data[0][..p.calls.width(e)]))
      ensures forall i: nat :: i < p.calls.width(e) ==> ShownAt(op, at.data[0], Row(data, 0, data.Length1), i)
    {
      StepInv(p.calls, at, me, done);
      u := Step(p.calls, at, me, done);
      assert u == SetPc(at, me, Copy(0, []));
      assert me > 0 by { assert Holds(p.calls, at, me); }
      ResultFilled(p, u, me);
      assert Shown(p, at, 0, Row(data, 0, data.Length1));
      t := CopyRun(p.calls, u, me, done, e, 0);
      IteratesInv(p.calls, u, me, done, t);
      Quiet(p, at, t);
    }

    method CopyIn()
      requires count <= odata.Length && 0 < data.Length0 && count <= data.Length1
      modifies odata
      ensures odata[..count] == Row(data, 0, count)
    {
      var n := 0;
      while n < count
        invariant n <= count && forall i :: 0 <= i < n ==> odata[i] == data[0, i]
      {
        odata[n] := data[0, n];
        n := n + 1;
      }
    }

    /** A worker copies the released result. */
    method CopyResult(ghost p: Plan, ghost s: Node<Entry>, ghost done: bool, ghost at: Node<Entry>, ghost e: nat)
      returns (ghost t: Node<Entry>)
      requires Represents(p, at) && InCall(p, e) && Iterates(p.calls, s, me, done, at)
      requires at.procs[me] == Proc(e, Wait) && seqs[0] == seqVal
      modifies odata
      ensures Represents(p, t) && Iterates(p.calls, s, me, done, t) && InCall(p, e)
      ensures t.procs[me] == Proc(e, Idle(EntriesOf(op, odata[..count])))
    {
      ghost var u, row := at, Row(data, 0, data.Length1);
      u, t := CopySteps(p, at, done, e);
      IteratesMore(p.calls, s, me, done, at);
      IteratesTrans(p.calls, s, me, done, u, t);
      CopyIn();
      assert odata[..count] == row[..count];
      WordsRead(p, e, row, count, at.data[0]);
    }

    /** After the gather: the leader polls the inter-node operation, a worker the leader's cell. */
    method Finish(ghost p: Plan, ghost s: Node<Entry>, ghost at: Node<Entry>, done: bool, res: seq<nat>)
      returns (ok: bool, ghost t: Node<Entry>)
      requires Represents(p, at) && Matches(p, at.procs[me]) && Iterates(p.calls, s, me, done, at)
      requires at.procs[me].pc.Started? || at.procs[me].pc.Wait?
      requires done ==> |res| == count && EntriesOf(op, res) == p.calls.result(at.procs[me].ep)
      modifies seqs, data, odata
      ensures Represents(p, t) && Matches(p, t.procs[me]) && Iterates(p.calls, s, me, done, t) &&
        t.procs[me].ep == at.procs[me].ep
      ensures ok <==> t.procs[me].pc.Idle?
      ensures !ok ==> Fits(p.calls, t, me) && Step(p.calls, t, me, done) == t
    {
      if me == 0 {
        if !done {
          return false, at;
        }
        t := Publish(p, s, at, at.procs[me].ep, res);
      } else {
        if seqs[0] != seqVal {
          return false, at;
        }
        t := CopyResult(p, s, done, at, at.procs[me].ep);
      }
      return true, t;
    }

    /** One call of the poll function, not interrupted by others: a run of steps of this process that ends
        where the process has returned its result or cannot go on. `res` are the words that the inter-node
        operation returns when it is done. */
    method Poll(ghost p: Plan, ghost s: Node<Entry>, done: bool, res: seq<nat>)
      returns (ok: bool, ghost t: Node<Entry>)
      requires Represents(p, s) && Matches(p, s.procs[me]) && !s.procs[me].pc.Idle?
      requires done ==> |res| == count && EntriesOf(op, res) == p.calls.result(s.procs[me].ep)
      modifies this`loopCounter, this`loopRank, this`commStart, seqs, data, idata, odata
      ensures Represents(p, t) && Matches(p, t.procs[me]) && Iterates(p.calls, s, me, done, t) &&
        t.procs[me].ep == s.procs[me].ep
      ensures ok <==> t.procs[me].pc.Idle?
      ensures !ok ==> Fits(p.calls, t, me) && Step(p.calls, t, me, done) == t
    {
      t := s;
      IteratesNone(p.calls, s, me, done);
      if !commStart {
        ok, t := Gather(p, s, done);
        if !ok {
          return;
        }
      }
      ok, t := Finish(p, s, t, done, res);
    }
  }
}
