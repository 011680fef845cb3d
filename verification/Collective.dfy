/** Whole collective calls: what a process reads out of the shared-memory reduction after decoding, over
    all processes of all nodes and in every run. */
module Collective {
  import opened Powers
  import opened AxisRounds
  import opened SoftTree
  import opened SoftBarrier
  import opened SoftSystem
  import opened SoftOps
  import opened MaxMin
  import opened FloatMaxMin
  import opened Sums
  import Logical

  /** Entry `i` of every process. */
  function Column<T>(x: seq<seq<T>>, width: nat, i: nat, n: nat): (r: seq<T>)
    requires Even(x, width) && i < width && n <= |x|
    ensures |r| == n
  {
    seq(n, p requires 0 <= p < n => x[p][i])
  }

  lemma {:induction false} PlainIsReduce<T>(op: (T, T) -> T, x: seq<seq<T>>, width: nat, i: nat, n: nat)
    requires Even(x, width) && i < width && 0 < n <= |x|
    ensures Plain(op, x, width, i, 0, n) == Reduce(op, Column(x, width, i, n))
    decreases n
  {
    if n > 1 {
      PlainIsReduce(op, x, width, i, n - 1);
      assert Column(x, width, i, n)[..n - 1] == Column(x, width, i, n - 1);
    }
  }

  /** A process that has returned, in a run in which all nodes made the same call and the inter-node
      operation gave the reduction of what it was given. */
  ghost predicate Returned<T>(c: seq<Calls<T>>, s: seq<Node<T>>, polls: seq<Poll>, t: seq<Node<T>>, m: nat, r: nat,
                              op: (T, T) -> T, width: nat)
  {
    Start(c, s) && Reaches(c, s, polls, t) && m < |c| && r < c[m].procs &&
    |t| == |c| && |t[m].procs| == c[m].procs && t[m].procs[r].pc.Idle? && t[m].procs[r].ep > 0 &&
    SameCalls(c, t[m].procs[r].ep, op, width) && GlobalResult(c, t[m].procs[r].ep, op, width)
  }

  /** What a process that has returned has at entry `i` is the reduction of that entry over all processes of
      all nodes. */
  lemma EntryResult<T(!new)>(c: seq<Calls<T>>, s: seq<Node<T>>, polls: seq<Poll>, t: seq<Node<T>>, m: nat, r: nat,
                             op: (T, T) -> T, width: nat, i: nat, ws: seq<T>)
    requires Returned(c, s, polls, t, m, r, op, width) && Associative(op) && i < width
    requires var all := AllInputs(c, t[m].procs[r].ep, op, width); ws == Column(all, width, i, |all|)
    ensures ws != [] && i < |t[m].procs[r].pc.out| && t[m].procs[r].pc.out[i] == Reduce(op, ws)
  {
    var all := AllInputs(c, t[m].procs[r].ep, op, width);
    ReturnsReduction(c, s, polls, t, m, r, op, width, i);
    PlainIsReduce(op, all, width, i, |all|);
  }

  /** The same for every operation on words: each entry is one word. */
  lemma WordResult(c: seq<Calls<Entry>>, s: seq<Node<Entry>>, polls: seq<Poll>, t: seq<Node<Entry>>, m: nat, r: nat,
                   op: WordOp, width: nat, i: nat, ws: seq<nat>)
    requires !op.MaxLocOp? && !op.OtherOp? && Returned(c, s, polls, t, m, r, EntryOp(op), width) && i < width
    requires var all := AllInputs(c, t[m].procs[r].ep, EntryOp(op), width); Column(all, width, i, |all|) == Singles(ws)
    ensures ws != [] && i < |t[m].procs[r].pc.out| && t[m].procs[r].pc.out[i] == (Reduce(Operation(op), ws), 0)
  {
    EntryOpIsAC(op);
    EntryResult(c, s, polls, t, m, r, EntryOp(op), width, i, Singles(ws));
    ReduceSingles(op, ws);
  }

  /** SUM of words: what a process has is the arithmetic total of what all processes contributed, modulo 2^64. */
  lemma WordSumResult(c: seq<Calls<Entry>>, s: seq<Node<Entry>>, polls: seq<Poll>, t: seq<Node<Entry>>, m: nat, r: nat,
                      width: nat, i: nat, ws: seq<nat>)
    requires Returned(c, s, polls, t, m, r, EntryOp(SumOp), width) && i < width
    requires forall p :: 0 <= p < |ws| ==> ws[p] < 0x1_0000_0000_0000_0000
    requires var all := AllInputs(c, t[m].procs[r].ep, EntryOp(SumOp), width);
      Column(all, width, i, |all|) == Singles(ws)
    ensures i < |t[m].procs[r].pc.out| && t[m].procs[r].pc.out[i].0 == Total(ws) % 0x1_0000_0000_0000_0000
  {
    WordResult(c, s, polls, t, m, r, SumOp, width, i, ws);
    SumIsTotal(ws);
  }

  /** Bitwise operations: bit `k` of what a process has is the logical reduction of bit `k` over all processes. */
  lemma BitwiseResult(c: seq<Calls<Entry>>, s: seq<Node<Entry>>, polls: seq<Poll>, t: seq<Node<Entry>>, m: nat, r: nat,
                      op: nat, width: nat, i: nat, ws: seq<nat>, k: nat)
    requires Logical.LAND <= op <= Logical.LXOR && i < width
    requires Returned(c, s, polls, t, m, r, EntryOp(Logical.WordOpOf(op)), width)
    requires var all := AllInputs(c, t[m].procs[r].ep, EntryOp(Logical.WordOpOf(op)), width);
      Column(all, width, i, |all|) == Singles(ws)
    ensures ws != [] && i < |t[m].procs[r].pc.out|
    ensures Bit(t[m].procs[r].pc.out[i].0, k) == Reduce(Logical.Connective(op), Logical.BitsAt(ws, k))
  {
    WordResult(c, s, polls, t, m, r, Logical.WordOpOf(op), width, i, ws);
    Logical.BitOfReduced(op, ws, k);
  }

  /** MAXLOC and MINLOC: what a process decodes is the pair of one of the processes and has the extreme value,
      and it has the smallest location exactly if some process with the best pair has the best left-over
      bytes. */
  lemma LocResult(c: seq<Calls<Entry>>, s: seq<Node<Entry>>, polls: seq<Poll>, t: seq<Node<Entry>>, m: nat, r: nat,
                  width: nat, i: nat,
                  ty: IntType, loc: IntType, isMin: bool, xs: seq<(int, int)>, stale: seq<(nat, nat)>)
    requires Returned(c, s, polls, t, m, r, EntryOp(MaxLocOp), width) && i < width && ty.width >= 1 && loc.width >= 1
    requires |xs| == |stale| && forall p :: 0 <= p < |xs| ==> InRange(ty, xs[p].0) && InRange(loc, xs[p].1)
    requires var all := AllInputs(c, t[m].procs[r].ep, EntryOp(MaxLocOp), width);
      Column(all, width, i, |all|) == EncodedLocs(ty, loc, isMin, xs, stale)
    ensures i < |t[m].procs[r].pc.out|
    ensures var x := DecodeLoc(ty, loc, isMin, t[m].procs[r].pc.out[i]);
      x in xs && (forall p :: 0 <= p < |xs| ==> if isMin then x.0 <= xs[p].0 else xs[p].0 <= x.0) &&
      (Best(isMin, xs, x) <==>
       exists k :: 0 <= k < |xs| && Best(isMin, xs, xs[k]) && BestLeftover(ty, isMin, xs, stale, k))
  {
    EntryOpIsAC(MaxLocOp);
    EntryResult(c, s, polls, t, m, r, EntryOp(MaxLocOp), width, i, EncodedLocs(ty, loc, isMin, xs, stale));
    LocExact(ty, loc, isMin, xs, stale);
  }

  /** SUM of integers: what a process decodes is the sum of all contributions, wrapped around to their type. */
  lemma SumResult(c: seq<Calls<Entry>>, s: seq<Node<Entry>>, polls: seq<Poll>, t: seq<Node<Entry>>, m: nat, r: nat,
                  width: nat, i: nat, ty: IntType, xs: seq<int>)
    requires Returned(c, s, polls, t, m, r, EntryOp(SumOp), width) && i < width
    requires ty.width >= 1 && ty.width + ty.low == 64 && forall p :: 0 <= p < |xs| ==> InRange(ty, xs[p])
    requires var all := AllInputs(c, t[m].procs[r].ep, EntryOp(SumOp), width);
      Column(all, width, i, |all|) == Singles(EncodedSums(ty, xs))
    ensures i < |t[m].procs[r].pc.out|
    ensures var x := DecodeSum(ty, t[m].procs[r].pc.out[i].0);
      InRange(ty, x) && Congruent(x, SumOf(xs), Pow2(ty.width))
  {
    WordResult(c, s, polls, t, m, r, SumOp, width, i, EncodedSums(ty, xs));
    IntegerSum(ty, xs);
  }

  lemma {:induction false} ReduceLarger(ws: seq<nat>)
    requires ws != []
    ensures Reduce(Operation(MaxOp), ws) == Reduce(Larger, ws)
    decreases |ws|
  {
    if |ws| > 1 {
      ReduceLarger(ws[..|ws| - 1]);
    }
  }

  /** MAX and MIN of integers: what a process decodes is one of the contributions and none is beyond it. */
  lemma IntegerResult(c: seq<Calls<Entry>>, s: seq<Node<Entry>>, polls: seq<Poll>, t: seq<Node<Entry>>, m: nat, r: nat,
                      width: nat, i: nat,
                      ty: IntType, isMin: bool, xs: seq<int>, stale: seq<nat>)
    requires Returned(c, s, polls, t, m, r, EntryOp(MaxOp), width) && i < width
    requires ty.width >= 1 && |xs| == |stale| && forall p :: 0 <= p < |xs| ==> InRange(ty, xs[p])
    requires var all := AllInputs(c, t[m].procs[r].ep, EntryOp(MaxOp), width);
      Column(all, width, i, |all|) == Singles(EncodedInts(ty, isMin, xs, stale))
    ensures i < |t[m].procs[r].pc.out|
    ensures var x := DecodeInt(ty, isMin, t[m].procs[r].pc.out[i].0);
      x in xs && forall p :: 0 <= p < |xs| ==> if isMin then x <= xs[p] else xs[p] <= x
  {
    var ws := EncodedInts(ty, isMin, xs, stale);
    WordResult(c, s, polls, t, m, r, MaxOp, width, i, ws);
    ReduceLarger(ws);
    IntegerExtreme(ty, isMin, xs, stale);
  }

  /** MAX and MIN of floating-point numbers, NaN only if all are. */
  lemma FloatResult(c: seq<Calls<Entry>>, s: seq<Node<Entry>>, polls: seq<Poll>, t: seq<Node<Entry>>, m: nat, r: nat,
                    width: nat, i: nat,
                    f: Format, isMin: bool, us: seq<nat>, stale: seq<nat>)
    requires Returned(c, s, polls, t, m, r, EntryOp(MaxOp), width) && i < width
    requires f.exp >= 1 && |us| == |stale| && forall p :: 0 <= p < |us| ==> IsPattern(f, us[p])
    requires var all := AllInputs(c, t[m].procs[r].ep, EntryOp(MaxOp), width);
      Column(all, width, i, |all|) == Singles(EncodedFloats(f, isMin, us, stale))
    ensures i < |t[m].procs[r].pc.out|
    ensures var u := DecodeFloat(f, isMin, t[m].procs[r].pc.out[i].0);
      u in us && IsPattern(f, u) &&
      forall p :: 0 <= p < |us| && !IsNaN(f, us[p]) ==>
        !IsNaN(f, u) && if isMin then Number(f, u) <= Number(f, us[p]) else Number(f, us[p]) <= Number(f, u)
  {
    var ws := EncodedFloats(f, isMin, us, stale);
    WordResult(c, s, polls, t, m, r, MaxOp, width, i, ws);
    ReduceLarger(ws);
    FloatExtreme(f, isMin, us, stale);
  }

  /** The first words of entries. */
  function Firsts(es: seq<Entry>): (ws: seq<nat>)
    ensures |ws| == |es| && forall i :: 0 <= i < |es| ==> ws[i] == es[i].0
  {
    seq(|es|, i requires 0 <= i < |es| => es[i].0)
  }

  /** Every process contributes single words. */
  ghost predicate FromWords(all: seq<seq<Entry>>, data: seq<seq<nat>>) {
    |all| == |data| && forall p :: 0 <= p < |all| ==> all[p] == Singles(data[p])
  }

  /** Logical operations: element `e` as unpacked from the result is the logical reduction of element `e`
      over all processes. */
  lemma LogicalResult(c: seq<Calls<Entry>>, s: seq<Node<Entry>>, polls: seq<Poll>, t: seq<Node<Entry>>, m: nat, r: nat,
                      width: nat,
                      op: nat, data: seq<seq<nat>>, ts: seq<seq<bool>>, count: nat, e: nat)
    requires Logical.LAND <= op <= Logical.LXOR && e < count && width == Logical.Chunks(count)
    requires Returned(c, s, polls, t, m, r, EntryOp(Logical.WordOpOf(op)), width)
    requires FromWords(AllInputs(c, t[m].procs[r].ep, EntryOp(Logical.WordOpOf(op)), width), data)
    requires |ts| == |data| && forall p :: 0 <= p < |ts| ==> |ts[p]| == count && Logical.PackedAll(data[p], ts[p])
    ensures |t[m].procs[r].pc.out| == width && ts != []
    ensures Logical.Unpacked(Firsts(t[m].procs[r].pc.out), count, e)
         == Reduce(Logical.Connective(op), Logical.EntriesAt(ts, e))
  {
    var w := Logical.WordOpOf(op);
    var all := AllInputs(c, t[m].procs[r].ep, EntryOp(w), width);
    var out := t[m].procs[r].pc.out;
    ResultWidth(c, s, polls, t, m, r, w, width);
    forall p | 0 <= p < |data| ensures |data[p]| == width { assert |all[p]| == width; }
    forall k: nat | k < width ensures Firsts(out)[k] == Reduce(Operation(w), Logical.EntriesAt(data, k)) {
      assert Column(all, width, k, |all|) == Singles(Logical.EntriesAt(data, k));
      WordResult(c, s, polls, t, m, r, w, width, k, Logical.EntriesAt(data, k));
    }
    Logical.LogicalExact(op, data, ts, count, Firsts(out), e);
  }

  lemma ResultWidth(c: seq<Calls<Entry>>, s: seq<Node<Entry>>, polls: seq<Poll>, t: seq<Node<Entry>>, m: nat, r: nat,
                    op: WordOp, width: nat)
    requires !op.OtherOp? && Returned(c, s, polls, t, m, r, EntryOp(op), width) && width > 0
    ensures |t[m].procs[r].pc.out| == width && AllInputs(c, t[m].procs[r].ep, EntryOp(op), width) != []
  {
    EntryOpIsAC(op);
    ReturnsReduction(c, s, polls, t, m, r, EntryOp(op), width, 0);
  }
}
