/** Running the tables of one axis, round by round, at all of its positions.

    A gate combines what it receives with the value it already holds, except that the last gate of
    an ear has no local input, so what it receives replaces its value.
 */
module AxisRounds {
  import opened Powers
  import opened Axis

  ghost predicate AssociatesAt<T>(op: (T, T) -> T, a: T, b: T, c: T) {
    op(op(a, b), c) == op(a, op(b, c))
  }

  ghost predicate CommutesAt<T>(op: (T, T) -> T, a: T, b: T) {
    op(a, b) == op(b, a)
  }

  ghost predicate Associative<T(!new)>(op: (T, T) -> T) {
    forall a, b, c :: AssociatesAt(op, a, b, c)
  }

  ghost predicate Commutative<T(!new)>(op: (T, T) -> T) {
    forall a, b :: CommutesAt(op, a, b)
  }

  ghost predicate AC<T(!new)>(op: (T, T) -> T) {
    Associative(op) && Commutative(op)
  }

  /** The reduction of a non-empty list, from the left, each element used once. */
  function Reduce<T>(op: (T, T) -> T, x: seq<T>): T
    requires x != []
  {
    if |x| == 1 then x[0] else op(Reduce(op, x[..|x| - 1]), x[|x| - 1])
  }

  /** What one round leaves at position `p`. */
  function RoundAt<T>(n: nat, op: (T, T) -> T, vals: seq<T>, t: nat, p: nat): T
    requires n >= 2 && |vals| == n && t < Rounds(n) && p < n
  {
    match RecvAt(n, p, t)
    case None => vals[p]
    case Some(q) =>
      RecvHasSend(n, p, t);
      if GetMyZone(Info(n), p) == Ear then vals[q] else op(vals[p], vals[q])
  }

  /** What one round leaves at the first `c` positions. */
  function Round<T>(n: nat, op: (T, T) -> T, vals: seq<T>, t: nat, c: nat): (r: seq<T>)
    requires n >= 2 && |vals| == n && t < Rounds(n) && c <= n
    ensures |r| == c
  {
    if c == 0 then [] else Round(n, op, vals, t, c - 1) + [RoundAt(n, op, vals, t, c - 1)]
  }

  /** All positions after the first `t` rounds. */
  function After<T>(n: nat, op: (T, T) -> T, x: seq<T>, t: nat): (r: seq<T>)
    requires n >= 2 && |x| == n && t <= Rounds(n)
    ensures |r| == n
  {
    if t == 0 then x else Round(n, op, After(n, op, x, t - 1), t - 1, n)
  }

  lemma {:induction false} RoundEntry<T>(n: nat, op: (T, T) -> T, vals: seq<T>, t: nat, c: nat, p: nat)
    requires n >= 2 && |vals| == n && t < Rounds(n) && p < c <= n
    ensures Round(n, op, vals, t, c)[p] == RoundAt(n, op, vals, t, p)
    decreases c
  {
    if p < c - 1 {
      RoundEntry(n, op, vals, t, c - 1, p);
    }
  }

  // ---------------------------------------------------------------- reductions that may be empty

  function Comb<T>(op: (T, T) -> T, a: Option<T>, b: Option<T>): Option<T> {
    if a.None? then b else if b.None? then a else Some(op(a.value, b.value))
  }

  function At<T>(x: seq<T>, i: nat): Option<T> {
    if i < |x| then Some(x[i]) else None
  }

  /** The combination of `c` consecutive elements from `lo` on. */
  function Sum<T>(op: (T, T) -> T, x: seq<T>, lo: nat, c: nat): Option<T> {
    if c == 0 then None else Comb(op, Sum(op, x, lo, c - 1), At(x, lo + c - 1))
  }

  lemma CombAssoc<T(!new)>(op: (T, T) -> T, a: Option<T>, b: Option<T>, c: Option<T>)
    requires AC(op)
    ensures Comb(op, Comb(op, a, b), c) == Comb(op, a, Comb(op, b, c))
    ensures Comb(op, a, b) == Comb(op, b, a)
  {
    if a.Some? && b.Some? {
      assert CommutesAt(op, a.value, b.value);
      if c.Some? {
        assert AssociatesAt(op, a.value, b.value, c.value);
      }
    }
  }

  /** The rearrangement everything below rests on. */
  lemma Medial<T(!new)>(op: (T, T) -> T, a: Option<T>, b: Option<T>, c: Option<T>, d: Option<T>)
    requires AC(op)
    ensures Comb(op, Comb(op, a, b), Comb(op, c, d)) == Comb(op, Comb(op, a, c), Comb(op, b, d))
  {
    CombAssoc(op, Comb(op, a, b), c, d);
    CombAssoc(op, a, b, c);
    CombAssoc(op, a, c, b);
    CombAssoc(op, b, c, d);
    CombAssoc(op, Comb(op, a, c), b, d);
  }

  lemma {:induction false} SumSplit<T(!new)>(op: (T, T) -> T, x: seq<T>, lo: nat, c: nat, d: nat)
    requires AC(op)
    ensures Sum(op, x, lo, c + d) == Comb(op, Sum(op, x, lo, c), Sum(op, x, lo + c, d))
  {
    if d > 0 {
      SumSplit(op, x, lo, c, d - 1);
      CombAssoc(op, Sum(op, x, lo, c), Sum(op, x, lo + c, d - 1), At(x, lo + c + d - 1));
    }
  }

  lemma {:induction false} SumIsReduce<T>(op: (T, T) -> T, x: seq<T>, c: nat)
    requires 0 < c <= |x|
    ensures Sum(op, x, 0, c) == Some(Reduce(op, x[..c]))
  {
    if c > 1 {
      SumIsReduce(op, x, c - 1);
      assert x[..c][..c - 1] == x[..c - 1];
    }
  }

  // ---------------------------------------------------------------- the inner butterfly

  /** The combination of the elements whose index has `r` in its lowest `k` bits. */
  function ClassSum<T>(op: (T, T) -> T, v: seq<T>, g: nat, k: nat, r: nat): Option<T>
    requires k <= g
    decreases g - k
  {
    if k == g then At(v, r)
    else Comb(op, ClassSum(op, v, g, k + 1, r), ClassSum(op, v, g, k + 1, r + Pow2(k)))
  }

  function Evens<T>(v: seq<T>): (e: seq<T>)
    ensures |e| == (|v| + 1) / 2
    ensures forall i :: 0 <= i < |e| ==> e[i] == v[2 * i]
  {
    seq((|v| + 1) / 2, i requires 0 <= i < (|v| + 1) / 2 => v[2 * i])
  }

  function Odds<T>(v: seq<T>): (e: seq<T>)
    ensures |e| == |v| / 2
    ensures forall i :: 0 <= i < |e| ==> e[i] == v[2 * i + 1]
  {
    seq(|v| / 2, i requires 0 <= i < |v| / 2 => v[2 * i + 1])
  }

  lemma {:induction false} ClassSumHalves<T>(op: (T, T) -> T, v: seq<T>, g: nat, k: nat, r: nat)
    requires k <= g
    ensures ClassSum(op, v, g + 1, k + 1, 2 * r) == ClassSum(op, Evens(v), g, k, r)
    ensures ClassSum(op, v, g + 1, k + 1, 2 * r + 1) == ClassSum(op, Odds(v), g, k, r)
    decreases g - k
  {
    if k < g {
      ClassSumHalves(op, v, g, k + 1, r);
      ClassSumHalves(op, v, g, k + 1, r + Pow2(k));
      assert 2 * (r + Pow2(k)) == 2 * r + Pow2(k + 1);
    }
  }

  lemma {:induction false} SumInterleaves<T(!new)>(op: (T, T) -> T, v: seq<T>, c: nat)
    requires AC(op)
    ensures Sum(op, v, 0, 2 * c) == Comb(op, Sum(op, Evens(v), 0, c), Sum(op, Odds(v), 0, c))
  {
    if c > 0 {
      SumInterleaves(op, v, c - 1);
      var a, b := Sum(op, Evens(v), 0, c - 1), Sum(op, Odds(v), 0, c - 1);
      var e, o := At(v, 2 * c - 2), At(v, 2 * c - 1);
      assert At(Evens(v), c - 1) == e && At(Odds(v), c - 1) == o;
      assert Sum(op, v, 0, 2 * c) == Comb(op, Comb(op, Sum(op, v, 0, 2 * c - 2), e), o);
      CombAssoc(op, Comb(op, a, b), e, o);
      Medial(op, a, b, e, o);
    }
  }

  /** All classes together are the plain sum. */
  lemma {:induction false} ClassSumAll<T(!new)>(op: (T, T) -> T, v: seq<T>, g: nat)
    requires AC(op)
    ensures ClassSum(op, v, g, 0, 0) == Sum(op, v, 0, Pow2(g))
    decreases g
  {
    if g > 0 {
      ClassSumHalves(op, v, g - 1, 0, 0);
      ClassSumAll(op, Evens(v), g - 1);
      ClassSumAll(op, Odds(v), g - 1);
      SumInterleaves(op, v, Pow2(g - 1));
    } else {
      assert Sum(op, v, 0, 1) == Comb(op, Sum(op, v, 0, 0), At(v, 0));
    }
  }

  /** First round of the inner butterfly within all rounds. */
  function FirstInner(n: nat): nat { if IsPow2(n) then 0 else 1 }

  /** The values inside the butterfly range. */
  function Inner<T>(n: nat, vals: seq<T>): (v: seq<T>)
    requires n >= 2 && |vals| == n
    ensures |v| == Width(n)
  {
    Geometry(n);
    vals[On(n)..Off(n)]
  }

  lemma InnerRecv(n: nat, y: nat, i: nat)
    requires n >= 2 && i < Log2(n) && y < Width(n)
    ensures FirstInner(n) + i < Rounds(n) && On(n) + y < n && FlipBit(y, Log2(n) - i - 1) < Width(n)
    ensures RecvAt(n, On(n) + y, FirstInner(n) + i) == Some(On(n) + FlipBit(y, Log2(n) - i - 1))
    ensures GetMyZone(Info(n), On(n) + y) != Ear
  {
    Geometry(n);
    InnerZone(n, On(n) + y);
    PartnerTwice(n, On(n) + y, i);
  }

  lemma AfterNext<T>(n: nat, op: (T, T) -> T, x: seq<T>, t: nat, p: nat)
    requires n >= 2 && |x| == n && t < Rounds(n) && p < n
    ensures After(n, op, x, t + 1)[p] == RoundAt(n, op, After(n, op, x, t), t, p)
  {
    RoundEntry(n, op, After(n, op, x, t), t, n, p);
  }

  lemma RoundCombines<T>(n: nat, op: (T, T) -> T, vals: seq<T>, t: nat, p: nat, q: nat)
    requires n >= 2 && |vals| == n && t < Rounds(n) && p < n && RecvAt(n, p, t) == Some(q)
    requires GetMyZone(Info(n), p) != Ear && q < n
    ensures RoundAt(n, op, vals, t, p) == op(vals[p], vals[q])
  {}

  lemma InnerAt<T>(n: nat, vals: seq<T>, y: nat)
    requires n >= 2 && |vals| == n && y < Width(n)
    ensures On(n) + y < n && Inner(n, vals)[y] == vals[On(n) + y]
  {
    Geometry(n);
  }

  lemma ButterflyAt<T>(n: nat, op: (T, T) -> T, u: seq<T>, i: nat, y: nat, z: nat)
    requires n >= 2 && |u| == n && i < Log2(n) && y < Width(n) && z == FlipBit(y, Log2(n) - i - 1)
    ensures FirstInner(n) + i < Rounds(n) && On(n) + y < n && On(n) + z < n && z < Width(n)
    ensures RoundAt(n, op, u, FirstInner(n) + i, On(n) + y) == op(u[On(n) + y], u[On(n) + z])
  {
    InnerRecv(n, y, i);
    InnerAt(n, u, z);
    RoundCombines(n, op, u, FirstInner(n) + i, On(n) + y, On(n) + z);
  }

  lemma InnerRound<T>(n: nat, op: (T, T) -> T, x: seq<T>, t: nat, y: nat)
    requires n >= 2 && |x| == n && t < Rounds(n) && y < Width(n)
    ensures On(n) + y < n
    ensures Inner(n, After(n, op, x, t + 1))[y] == RoundAt(n, op, After(n, op, x, t), t, On(n) + y)
  {
    InnerAt(n, After(n, op, x, t + 1), y);
    AfterNext(n, op, x, t, On(n) + y);
  }

  /** One butterfly round combines an inner position with the one that differs in one bit. */
  lemma ButterflyStep<T>(n: nat, op: (T, T) -> T, x: seq<T>, i: nat, y: nat)
    requires n >= 2 && |x| == n && i < Log2(n) && y < Width(n)
    ensures FirstInner(n) + i < Rounds(n) && FlipBit(y, Log2(n) - i - 1) < Width(n)
    ensures var u := Inner(n, After(n, op, x, FirstInner(n) + i));
            Inner(n, After(n, op, x, FirstInner(n) + i + 1))[y] == op(u[y], u[FlipBit(y, Log2(n) - i - 1)])
  {
    var t, z := FirstInner(n) + i, FlipBit(y, Log2(n) - i - 1);
    assert t < Rounds(n);
    var u := After(n, op, x, t);
    ButterflyAt(n, op, u, i, y, z);
    InnerRound(n, op, x, t, y);
    InnerAt(n, u, y);
    InnerAt(n, u, z);
  }

  /** The classes of a position and of its partner make up the next larger class. */
  lemma ClassPair<T(!new)>(op: (T, T) -> T, v: seq<T>, g: nat, k: nat, y: nat)
    requires k < g && AC(op)
    ensures Comb(op, ClassSum(op, v, g, k + 1, Low(y, k + 1)), ClassSum(op, v, g, k + 1, Low(FlipBit(y, k), k + 1)))
         == ClassSum(op, v, g, k, Low(y, k))
  {
    LowFlip(y, k);
    LowStep(y, k);
    LowStep(FlipBit(y, k), k);
    FlipBits(y, k, k);
    CombAssoc(op, ClassSum(op, v, g, k + 1, Low(y, k)), ClassSum(op, v, g, k + 1, Low(y, k) + Pow2(k)), None);
  }

  /** After `i` butterfly rounds, inner position `y` holds its residue class. */
  lemma {:induction false} ButterflyClasses<T(!new)>(n: nat, op: (T, T) -> T, x: seq<T>, i: nat, y: nat)
    requires n >= 2 && |x| == n && AC(op) && i <= Log2(n) && y < Width(n)
    ensures FirstInner(n) + i <= Rounds(n)
    ensures var v0 := Inner(n, After(n, op, x, FirstInner(n)));
            var vi := Inner(n, After(n, op, x, FirstInner(n) + i));
            Some(vi[y]) == ClassSum(op, v0, Log2(n), Log2(n) - i, Low(y, Log2(n) - i))
    decreases i
  {
    if i == 0 {
      LowAll(y, Log2(n));
    } else {
      var k := Log2(n) - i;
      ButterflyStep(n, op, x, i - 1, y);
      ButterflyClasses(n, op, x, i - 1, y);
      ButterflyClasses(n, op, x, i - 1, FlipBit(y, k));
      ClassPair(op, Inner(n, After(n, op, x, FirstInner(n))), Log2(n), k, y);
    }
  }

  lemma WholeClass<T(!new)>(op: (T, T) -> T, v: seq<T>, g: nat, y: nat, value: T)
    requires AC(op) && Some(value) == ClassSum(op, v, g, 0, Low(y, 0))
    ensures Some(value) == Sum(op, v, 0, Pow2(g))
  {
    ClassSumAll(op, v, g);
  }

  /** After all butterfly rounds, every inner position holds the whole inner range. */
  lemma ButterflyInner<T(!new)>(n: nat, op: (T, T) -> T, x: seq<T>, y: nat)
    requires n >= 2 && |x| == n && AC(op) && y < Width(n)
    ensures FirstInner(n) + Log2(n) <= Rounds(n)
    ensures Some(Inner(n, After(n, op, x, FirstInner(n) + Log2(n)))[y])
         == Sum(op, Inner(n, After(n, op, x, FirstInner(n))), 0, Width(n))
  {
    var g := Log2(n);
    ButterflyClasses(n, op, x, g, y);
    WholeClass(op, Inner(n, After(n, op, x, FirstInner(n))), g, y, Inner(n, After(n, op, x, FirstInner(n) + g))[y]);
  }

  // ---------------------------------------------------------------- folding the ears in

  /** The first round: what the first `c` inner positions hold is what they held together with
      what their ears held. */
  lemma {:induction false} FoldedLeft<T(!new)>(n: nat, op: (T, T) -> T, x: seq<T>, c: nat)
    requires n >= 2 && |x| == n && AC(op) && !IsPow2(n) && c <= On(n)
    ensures Sum(op, Inner(n, After(n, op, x, 1)), 0, c)
         == Comb(op, Sum(op, x, On(n), c), Sum(op, x, 0, c))
  {
    Geometry(n);
    if c > 0 {
      FoldedLeft(n, op, x, c - 1);
      FoldStep(n, op, x, c - 1);
      Medial(op, Sum(op, x, On(n), c - 1), Sum(op, x, 0, c - 1), At(x, On(n) + c - 1), At(x, c - 1));
    }
  }

  /** What the first round leaves at inner position `y`. */
  lemma FoldStep<T(!new)>(n: nat, op: (T, T) -> T, x: seq<T>, y: nat)
    requires n >= 2 && |x| == n && AC(op) && !IsPow2(n) && y < Width(n)
    ensures At(Inner(n, After(n, op, x, 1)), y) == Comb(op, At(x, On(n) + y),
      if y < On(n) then At(x, y)
      else if y < Width(n) - (n - Off(n)) then None
      else At(x, On(n) + y + (n - Off(n))))
  {
    Geometry(n);
    InnerZone(n, On(n) + y);
    AfterNext(n, op, x, 0, On(n) + y);
  }

  lemma {:induction false} FoldedMiddle<T(!new)>(n: nat, op: (T, T) -> T, x: seq<T>, c: nat)
    requires n >= 2 && |x| == n && AC(op) && !IsPow2(n) && On(n) <= c <= Width(n) - (n - Off(n))
    ensures Sum(op, Inner(n, After(n, op, x, 1)), 0, c)
         == Comb(op, Sum(op, x, On(n), c), Sum(op, x, 0, On(n)))
  {
    Geometry(n);
    if c == On(n) {
      FoldedLeft(n, op, x, c);
    } else {
      FoldedMiddle(n, op, x, c - 1);
      FoldStep(n, op, x, c - 1);
      Medial(op, Sum(op, x, On(n), c - 1), Sum(op, x, 0, On(n)), At(x, On(n) + c - 1), None);
    }
  }

  ghost predicate PairAt<T(!new)>(op: (T, T) -> T, v: seq<T>, x: seq<T>, on: nat, off: nat, c: nat, e: nat) {
    At(v, c + e) == Comb(op, At(x, on + c + e), At(x, off + e))
  }

  /** Appending `d` pairs to a sum that already holds `l` as its second part. */
  lemma {:induction false} PairedSums<T(!new)>(op: (T, T) -> T, v: seq<T>, x: seq<T>,
                                               on: nat, off: nat, c: nat, l: Option<T>, d: nat)
    requires AC(op)
    requires Sum(op, v, 0, c) == Comb(op, Sum(op, x, on, c), l)
    requires forall e: nat :: e < d ==> PairAt(op, v, x, on, off, c, e)
    ensures Sum(op, v, 0, c + d) == Comb(op, Sum(op, x, on, c + d), Comb(op, l, Sum(op, x, off, d)))
  {
    if d > 0 {
      PairedSums(op, v, x, on, off, c, l, d - 1);
      assert PairAt(op, v, x, on, off, c, d - 1);
      RightStep(op, Sum(op, x, on, c + d - 1), l, Sum(op, x, off, d - 1), At(x, on + c + d - 1), At(x, off + d - 1));
    }
  }

  lemma FoldedRight<T(!new)>(n: nat, op: (T, T) -> T, x: seq<T>)
    requires n >= 2 && |x| == n && AC(op) && !IsPow2(n)
    ensures 1 <= Rounds(n) && Off(n) <= n
    ensures Sum(op, Inner(n, After(n, op, x, 1)), 0, Width(n))
         == Comb(op, Sum(op, x, On(n), Width(n)), Comb(op, Sum(op, x, 0, On(n)), Sum(op, x, Off(n), n - Off(n))))
  {
    Geometry(n);
    var c, d := Width(n) - (n - Off(n)), n - Off(n);
    FoldedMiddle(n, op, x, c);
    forall e: nat | e < d
      ensures PairAt(op, Inner(n, After(n, op, x, 1)), x, On(n), Off(n), c, e)
    {
      FoldStepRight(n, op, x, c + e, e);
    }
    PairedSums(op, Inner(n, After(n, op, x, 1)), x, On(n), Off(n), c, Sum(op, x, 0, On(n)), d);
  }

  lemma FoldStepRight<T(!new)>(n: nat, op: (T, T) -> T, x: seq<T>, y: nat, d: nat)
    requires n >= 2 && |x| == n && AC(op) && !IsPow2(n) && d < n - Off(n) && y + (n - Off(n)) == Width(n) + d
    requires On(n) <= Width(n) - (n - Off(n))
    ensures At(Inner(n, After(n, op, x, 1)), y) == Comb(op, At(x, On(n) + y), At(x, Off(n) + d))
  {
    FoldStep(n, op, x, y);
  }

  lemma RightStep<T(!new)>(op: (T, T) -> T, m: Option<T>, l: Option<T>, r: Option<T>, a: Option<T>, b: Option<T>)
    requires AC(op)
    ensures Comb(op, Comb(op, m, Comb(op, l, r)), Comb(op, a, b))
         == Comb(op, Comb(op, m, a), Comb(op, l, Comb(op, r, b)))
  {
    Medial(op, m, Comb(op, l, r), a, b);
    CombAssoc(op, l, r, b);
  }

  /** Middle, left and right part together are the whole. */
  lemma ThreeParts<T(!new)>(op: (T, T) -> T, x: seq<T>, on: nat, w: nat, rest: nat)
    requires AC(op)
    ensures Comb(op, Sum(op, x, on, w), Comb(op, Sum(op, x, 0, on), Sum(op, x, on + w, rest)))
         == Sum(op, x, 0, on + w + rest)
  {
    var l, m, r := Sum(op, x, 0, on), Sum(op, x, on, w), Sum(op, x, on + w, rest);
    SumSplit(op, x, 0, on, w);
    SumSplit(op, x, 0, on + w, rest);
    CombAssoc(op, m, l, r);
  }

  lemma InnerOfPow2<T>(n: nat, x: seq<T>)
    requires n >= 2 && |x| == n && IsPow2(n)
    ensures Inner(n, x) == x
  {
    Geometry(n);
  }

  lemma FoldedHoldsAll<T(!new)>(n: nat, op: (T, T) -> T, x: seq<T>)
    requires n >= 2 && |x| == n && AC(op) && !IsPow2(n)
    ensures 1 <= Rounds(n)
    ensures Sum(op, Inner(n, After(n, op, x, 1)), 0, Width(n)) == Sum(op, x, 0, n)
  {
    FoldedRight(n, op, x);
    ThreeParts(op, x, On(n), Width(n), n - Off(n));
  }

  /** Once the ears are folded in, the inner range holds the whole axis. */
  lemma InnerHoldsAll<T(!new)>(n: nat, op: (T, T) -> T, x: seq<T>)
    requires n >= 2 && |x| == n && AC(op)
    ensures FirstInner(n) <= Rounds(n)
    ensures Sum(op, Inner(n, After(n, op, x, FirstInner(n))), 0, Width(n)) == Sum(op, x, 0, n)
  {
    if IsPow2(n) {
      InnerOfPow2(n, x);
    } else {
      FoldedHoldsAll(n, op, x);
    }
  }

  /** After the butterfly rounds, every inner position holds the reduction of the whole axis. */
  lemma InnerReduces<T(!new)>(n: nat, op: (T, T) -> T, x: seq<T>, y: nat)
    requires n >= 2 && |x| == n && AC(op) && y < Width(n)
    ensures FirstInner(n) + Log2(n) <= Rounds(n)
    ensures Inner(n, After(n, op, x, FirstInner(n) + Log2(n)))[y] == Reduce(op, x)
  {
    ButterflyInner(n, op, x, y);
    InnerHoldsAll(n, op, x);
    SumIsReduce(op, x, n);
    assert x[..n] == x;
  }

  lemma InnerExact<T(!new)>(n: nat, op: (T, T) -> T, x: seq<T>, p: nat)
    requires n >= 2 && |x| == n && AC(op) && On(n) <= p < Off(n)
    ensures FirstInner(n) + Log2(n) <= Rounds(n) && Off(n) <= n
    ensures After(n, op, x, FirstInner(n) + Log2(n))[p] == Reduce(op, x)
  {
    Geometry(n);
    InnerReduces(n, op, x, p - On(n));
    InnerAt(n, After(n, op, x, FirstInner(n) + Log2(n)), p - On(n));
  }

  lemma RoundHandsOver<T>(n: nat, op: (T, T) -> T, vals: seq<T>, p: nat)
    requires n >= 2 && |vals| == n && p < n && !IsPow2(n) && Log2(n) + 1 < Rounds(n)
    ensures RoundAt(n, op, vals, Log2(n) + 1, p) ==
      if GetMyZone(Info(n), p) == Ear then (MateTwice(n, p); vals[Mate(n, p)]) else vals[p]
  {
    if GetMyZone(Info(n), p) == Ear {
      MateTwice(n, p);
    }
  }

  /** The last round hands the result to the ears and leaves the others as they are. */
  lemma LastRound<T>(n: nat, op: (T, T) -> T, x: seq<T>, p: nat)
    requires n >= 2 && |x| == n && p < n && !IsPow2(n)
    ensures Log2(n) + 1 <= Rounds(n)
    ensures var v := After(n, op, x, Log2(n) + 1);
            After(n, op, x, Rounds(n))[p] ==
            if GetMyZone(Info(n), p) == Ear then (MateTwice(n, p); v[Mate(n, p)]) else v[p]
  {
    var t := Log2(n) + 1;
    assert Rounds(n) == t + 1;
    AfterNext(n, op, x, t, p);
    RoundHandsOver(n, op, After(n, op, x, t), p);
  }

  /** Exactly once: for every axis length and every associative and commutative operation, after
      all rounds every position, ears included, holds the reduction of all inputs. */
  lemma ExactlyOnce<T(!new)>(n: nat, op: (T, T) -> T, x: seq<T>, p: nat)
    requires n >= 2 && |x| == n && AC(op) && p < n
    ensures After(n, op, x, Rounds(n))[p] == Reduce(op, x)
  {
    InnerZone(n, p);
    if IsPow2(n) {
      InnerExact(n, op, x, p);
    } else {
      LastRound(n, op, x, p);
      if On(n) <= p < Off(n) {
        InnerExact(n, op, x, p);
      } else {
        MateTwice(n, p);
        InnerZone(n, Mate(n, p));
        InnerExact(n, op, x, Mate(n, p));
      }
    }
  }
}
