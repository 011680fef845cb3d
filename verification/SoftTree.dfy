/** The binomial tree inside a node: who waits for whom, and what one process has collected. */
module SoftTree {
  import opened Powers
  import opened AxisRounds

  /** Process `r` stores its value at level `k` instead of waiting for a partner. */
  predicate Stores(procs: nat, r: nat, k: nat) {
    Bit(r, k) || r + Pow2(k) >= procs
  }

  /** `r` is a process whose lowest set bit is bit `k`; its parent is `r` without that bit. */
  predicate LowestBit(r: nat, k: nat) {
    Low(r, k) == 0 && Bit(r, k)
  }

  lemma {:induction false} LowZeroAdd(p: nat, k: nat)
    requires Low(p, k) == 0 && !Bit(p, k)
    ensures LowestBit(p + Pow2(k), k) && Low(p, k + 1) == 0
  {
    if k > 0 {
      LowZeroAdd(p / 2, k - 1);
      assert p % 2 == 0;
      assert (p + Pow2(k)) / 2 == p / 2 + Pow2(k - 1) && (p + Pow2(k)) % 2 == 0;
    }
  }

  lemma {:induction false} LowestBitUnique(r: nat, j: nat, k: nat)
    requires LowestBit(r, j) && LowestBit(r, k)
    ensures j == k
    decreases j + k
  {
    if j > 0 && k > 0 {
      LowestBitUnique(r / 2, j - 1, k - 1);
    }
  }

  /** A number whose low `k` bits are clear is zero or at least the k-th power of two. */
  lemma {:induction false} LowZeroLarge(r: nat, k: nat)
    requires Low(r, k) == 0
    ensures r == 0 || r >= Pow2(k)
  {
    if k > 0 {
      LowZeroLarge(r / 2, k - 1);
    }
  }

  lemma {:induction false} FindLowestBit(r: nat) returns (k: nat)
    requires r > 0
    ensures LowestBit(r, k)
  {
    if r % 2 == 1 {
      k := 0;
    } else {
      k := FindLowestBit(r / 2);
      k := k + 1;
    }
  }

  lemma {:induction false} LowZeroBelow(r: nat, j: nat, k: nat)
    requires j <= k && Low(r, k) == 0
    ensures Low(r, j) == 0 && (j < k ==> !Bit(r, j))
    decreases j
  {
    if j > 0 {
      LowZeroBelow(r / 2, j - 1, k - 1);
    } else if k > 0 {
      assert r % 2 == 0;
    }
  }

  // ---------------------------------------------------------------- values

  function Zip<T>(op: (T, T) -> T, a: seq<T>, b: seq<T>): (c: seq<T>)
    requires |a| == |b|
    ensures |c| == |a| && forall i :: 0 <= i < |a| ==> c[i] == op(a[i], b[i])
  {
    seq(|a|, i requires 0 <= i < |a| => op(a[i], b[i]))
  }

  /** All processes of a node contribute vectors of the same length. */
  predicate Even<T>(x: seq<seq<T>>, width: nat) {
    forall r :: 0 <= r < |x| ==> |x[r]| == width
  }

  /** What process `r` has collected when it has passed level `k`: the tree over [r, r + 2^k). */
  function Collected<T>(op: (T, T) -> T, x: seq<seq<T>>, width: nat, r: nat, k: nat): (v: seq<T>)
    requires Even(x, width) && r < |x|
    ensures |v| == width
    decreases k
  {
    if k == 0 then x[r]
    else if r + Pow2(k - 1) < |x| then
      Zip(op, Collected(op, x, width, r, k - 1), Collected(op, x, width, r + Pow2(k - 1), k - 1))
    else Collected(op, x, width, r, k - 1)
  }

  /** What a process stores at a level without partner is what its parent expects from it. */
  lemma {:induction false} CollectedEnd<T>(op: (T, T) -> T, x: seq<seq<T>>, width: nat, r: nat, j: nat, k: nat)
    requires Even(x, width) && r < |x| && j <= k && (j < k ==> r + Pow2(j) >= |x|)
    ensures Collected(op, x, width, r, j) == Collected(op, x, width, r, k)
    decreases k
  {
    if j < k {
      Pow2Mono(j, k - 1);
      CollectedEnd(op, x, width, r, j, k - 1);
    }
  }

  /** The plain reduction of entry `i` over the processes [lo, hi), in order, each used once. */
  function Plain<T>(op: (T, T) -> T, x: seq<seq<T>>, width: nat, i: nat, lo: nat, hi: nat): T
    requires Even(x, width) && i < width && lo < hi <= |x|
    decreases hi
  {
    if hi == lo + 1 then x[lo][i] else op(Plain(op, x, width, i, lo, hi - 1), x[hi - 1][i])
  }

  lemma {:induction false} PlainSplit<T(!new)>(op: (T, T) -> T, x: seq<seq<T>>, width: nat, i: nat, lo: nat, mid: nat,
                                               hi: nat)
    requires Associative(op) && Even(x, width) && i < width && lo < mid < hi <= |x|
    ensures Plain(op, x, width, i, lo, hi) == op(Plain(op, x, width, i, lo, mid), Plain(op, x, width, i, mid, hi))
    decreases hi
  {
    if mid + 1 < hi {
      PlainSplit(op, x, width, i, lo, mid, hi - 1);
      assert AssociatesAt(op, Plain(op, x, width, i, lo, mid), Plain(op, x, width, i, mid, hi - 1), x[hi - 1][i]);
    }
  }

  function Min(a: nat, b: nat): nat { if a < b then a else b }

  /** One entry of what a process has collected. */
  function TreeAt<T>(op: (T, T) -> T, x: seq<seq<T>>, width: nat, i: nat, r: nat, k: nat): T
    requires Even(x, width) && r < |x| && i < width
    decreases k
  {
    if k == 0 then x[r][i]
    else if r + Pow2(k - 1) < |x| then
      op(TreeAt(op, x, width, i, r, k - 1), TreeAt(op, x, width, i, r + Pow2(k - 1), k - 1))
    else TreeAt(op, x, width, i, r, k - 1)
  }

  lemma {:induction false} CollectedAt<T>(op: (T, T) -> T, x: seq<seq<T>>, width: nat, i: nat, r: nat, k: nat)
    requires Even(x, width) && r < |x| && i < width
    ensures Collected(op, x, width, r, k)[i] == TreeAt(op, x, width, i, r, k)
    decreases k
  {
    if k > 0 {
      CollectedAt(op, x, width, i, r, k - 1);
      if r + Pow2(k - 1) < |x| {
        CollectedAt(op, x, width, i, r + Pow2(k - 1), k - 1);
      }
    }
  }

  lemma {:induction false} TreeIsPlain<T(!new)>(op: (T, T) -> T, x: seq<seq<T>>, width: nat, i: nat, r: nat, k: nat,
                                                end: nat)
    requires Associative(op) && Even(x, width) && r < |x| && i < width && end == Min(r + Pow2(k), |x|)
    ensures TreeAt(op, x, width, i, r, k) == Plain(op, x, width, i, r, end)
    decreases k
  {
    if k > 0 {
      var m := r + Pow2(k - 1);
      if m < |x| {
        TreeIsPlain(op, x, width, i, r, k - 1, m);
        TreeIsPlain(op, x, width, i, m, k - 1, end);
        PlainSplit(op, x, width, i, r, m, end);
      } else {
        TreeIsPlain(op, x, width, i, r, k - 1, end);
      }
    }
  }

  /** For an associative operation the tree is the plain reduction in process order: the operands stay
      in order and each is used once. */
  lemma CollectedIsPlain<T(!new)>(op: (T, T) -> T, x: seq<seq<T>>, width: nat, r: nat, k: nat, i: nat)
    requires Associative(op) && Even(x, width) && r < |x| && i < width
    ensures Collected(op, x, width, r, k)[i] == Plain(op, x, width, i, r, Min(r + Pow2(k), |x|))
  {
    CollectedAt(op, x, width, i, r, k);
    TreeIsPlain(op, x, width, i, r, k, Min(r + Pow2(k), |x|));
  }

  /** The leader's tree holds every process of the node. */
  lemma LeaderCollectsAll<T(!new)>(op: (T, T) -> T, x: seq<seq<T>>, width: nat, k: nat, i: nat)
    requires Associative(op) && x != [] && Even(x, width) && Pow2(k) >= |x| && i < width
    ensures Collected(op, x, width, 0, k)[i] == Plain(op, x, width, i, 0, |x|)
  {
    CollectedIsPlain(op, x, width, 0, k, i);
  }
}
