/** Sums of integers: a value is put into the high-order bits of its word, so that the word wraps around where
    its type does. */
module Sums {
  import opened Powers
  import opened AxisRounds
  import opened SoftOps
  import opened MaxMin

  /** The word is cleared before the value is copied over its high-order bytes. */
  function EncodeSum(t: IntType, x: int): nat
    requires InRange(t, x)
  {
    Word(Pattern(t, x), t.low, 0)
  }

  function DecodeSum(t: IntType, w: nat): int
    requires t.width >= 1
  {
    Meaning(t, High(w, t.low))
  }

  function EncodedSums(t: IntType, xs: seq<int>): (ws: seq<nat>)
    requires forall p :: 0 <= p < |xs| ==> InRange(t, xs[p])
    ensures |ws| == |xs| && forall p :: 0 <= p < |xs| ==> ws[p] == EncodeSum(t, xs[p])
  {
    seq(|xs|, p requires 0 <= p < |xs| => EncodeSum(t, xs[p]))
  }

  /** The sum of the values. */
  function SumOf(xs: seq<int>): int { if xs == [] then 0 else xs[0] + SumOf(xs[1..]) }

  function Times(k: int, m: nat): int { k * m }

  /** `a` and `b` differ by a multiple of `m`. */
  ghost predicate Congruent(a: int, b: int, m: nat) { exists k: int :: a == b + Times(k, m) }

  lemma CongruentPlus(a: int, b: int, c: int, d: int, m: nat)
    requires Congruent(a, b, m) && Congruent(c, d, m)
    ensures Congruent(a + c, b + d, m)
  {
    var i: int :| a == b + Times(i, m);
    var j: int :| c == d + Times(j, m);
    assert Times(i + j, m) == Times(i, m) + Times(j, m) by { assert (i + j) * m == i * m + j * m; }
  }

  lemma PatternCongruent(t: IntType, x: int)
    requires InRange(t, x)
    ensures Congruent(x, Pattern(t, x), Pow2(t.width))
  {
    assert x == Pattern(t, x) + Times(if x < 0 then -1 else 0, Pow2(t.width));
  }

  lemma MeaningCongruent(t: IntType, u: nat)
    requires t.width >= 1 && u < Pow2(t.width)
    ensures InRange(t, Meaning(t, u)) && Congruent(Meaning(t, u), u, Pow2(t.width))
  {
    assert Meaning(t, u) == u + Times(if t.signed && u >= Pow2(t.width - 1) then -1 else 0, Pow2(t.width));
  }

  /** The patterns of all values together, and how the words add up to them. */
  lemma {:induction false} PatternsAdd(t: IntType, xs: seq<int>) returns (a: nat)
    requires t.width >= 1 && forall p :: 0 <= p < |xs| ==> InRange(t, xs[p])
    ensures Total(EncodedSums(t, xs)) == Word(a, t.low, 0) && Congruent(SumOf(xs), a, Pow2(t.width))
    decreases |xs|
  {
    if xs == [] {
      a := 0;
      WordZero(t.low);
      assert SumOf(xs) == 0 + Times(0, Pow2(t.width));
    } else {
      var b := PatternsAdd(t, xs[1..]);
      a := Pattern(t, xs[0]) + b;
      assert EncodedSums(t, xs)[1..] == EncodedSums(t, xs[1..]);
      WordSum(Pattern(t, xs[0]), b, t.low, 0);
      PatternCongruent(t, xs[0]);
      CongruentPlus(xs[0], Pattern(t, xs[0]), SumOf(xs[1..]), b, Pow2(t.width));
    }
  }

  lemma {:induction false} WordZero(low: nat)
    ensures Word(0, low, 0) == 0
    decreases low
  {
    if low > 0 {
      WordZero(low - 1);
    }
  }

  /** The high part of a word wraps where the word does. */
  lemma {:induction false} WordWraps(q: nat, width: nat, low: nat)
    ensures Word(q * Pow2(width), low, 0) == q * Pow2(width + low)
    decreases q
  {
    if q == 0 {
      WordZero(low);
    } else {
      WordWraps(q - 1, width, low);
      assert q * Pow2(width) == (q - 1) * Pow2(width) + Pow2(width);
      WordSum((q - 1) * Pow2(width), Pow2(width), low, 0);
      Pow2Word(width, low);
      assert q * Pow2(width + low) == (q - 1) * Pow2(width + low) + Pow2(width + low);
    }
  }

  lemma WordSize()
    ensures Pow2(64) == 0x1_0000_0000_0000_0000
  {
    Pow2Values();
    Pow2Product(16, 16);
    Pow2Product(16, 32);
    Pow2Product(16, 48);
  }

  lemma Remainder(a: nat, m: nat) returns (q: nat, r: nat)
    requires m > 0
    ensures a == q * m + r && r < m && Congruent(r, a, m)
  {
    q, r := a / m, a % m;
    var back: int := 0 - q;
    assert r == a + Times(back, m) by { assert back * m == -(q * m); }
  }

  /** The sum as it is left in the word: the high part modulo its own size. */
  lemma HighModulo(t: IntType, a: nat) returns (r: nat)
    requires t.width >= 1 && t.width + t.low == 64
    ensures r < Pow2(t.width) && Word(a, t.low, 0) % 0x1_0000_0000_0000_0000 == Word(r, t.low, 0)
    ensures Congruent(r, a, Pow2(t.width))
  {
    var q;
    q, r := Remainder(a, Pow2(t.width));
    WordSum(q * Pow2(t.width), r, t.low, 0);
    WordWraps(q, t.width, t.low);
    WordSize();
    WordBelow(r, t.low, 0, t.width);
    WordModulo(q, Word(r, t.low, 0));
  }

  lemma WordModulo(q: nat, r: nat)
    requires r < 0x1_0000_0000_0000_0000
    ensures (q * 0x1_0000_0000_0000_0000 + r) % 0x1_0000_0000_0000_0000 == r
  {}

  lemma CongruentTrans(a: int, b: int, c: int, m: nat)
    requires Congruent(a, b, m) && Congruent(b, c, m)
    ensures Congruent(a, c, m)
  {
    var i: int :| a == b + Times(i, m);
    var j: int :| b == c + Times(j, m);
    assert Times(i + j, m) == Times(i, m) + Times(j, m) by { assert (i + j) * m == i * m + j * m; }
  }

  lemma CongruentSwap(a: int, b: int, m: nat)
    requires Congruent(a, b, m)
    ensures Congruent(b, a, m)
  {
    var i: int :| a == b + Times(i, m);
    assert Times(-i, m) == -Times(i, m) by { assert (-i) * m == -(i * m); }
    assert b == a + Times(-i, m);
  }

  /** Clearing, copying, unsigned addition and decoding give the true sum of the values, wrapped around to their
      type: for every width, signed or not, and any number of processes. */
  lemma IntegerSum(t: IntType, xs: seq<int>)
    requires xs != [] && t.width >= 1 && t.width + t.low == 64 && forall p :: 0 <= p < |xs| ==> InRange(t, xs[p])
    ensures var r := DecodeSum(t, Reduce(Operation(SumOp), EncodedSums(t, xs)));
      InRange(t, r) && Congruent(r, SumOf(xs), Pow2(t.width))
  {
    var ws, m := EncodedSums(t, xs), Pow2(t.width);
    forall p | 0 <= p < |ws| ensures ws[p] < 0x1_0000_0000_0000_0000 {
      WordBelow(Pattern(t, xs[p]), t.low, 0, t.width);
      WordSize();
    }
    SumIsTotal(ws);
    var a := PatternsAdd(t, xs);
    var u := HighModulo(t, a);
    WordHigh(u, t.low, 0);
    MeaningCongruent(t, u);
    CongruentSwap(SumOf(xs), a, m);
    CongruentTrans(Meaning(t, u), u, a, m);
    CongruentTrans(Meaning(t, u), a, SumOf(xs), m);
  }

  /** Encodes the user's elements into the buffer, in place. */
  method EncodeSums(t: IntType, buf: seq<int>, idata: array<nat>)
    requires |buf| <= idata.Length && forall i :: 0 <= i < |buf| ==> InRange(t, buf[i])
    modifies idata
    ensures idata[..|buf|] == EncodedSums(t, buf)
    ensures idata[|buf|..] == old(idata[|buf|..])
  {
    for i := 0 to |buf|
      invariant forall j :: 0 <= j < i ==> idata[j] == EncodeSum(t, buf[j])
      invariant forall j :: i <= j < idata.Length ==> idata[j] == old(idata[j])
    {
      idata[i] := 0;
      idata[i] := Copied(Pattern(t, buf[i]), t.low, idata[i]);
      LowZero(t.low);
    }
  }

  lemma {:induction false} LowZero(k: nat)
    ensures Low(0, k) == 0
  {
    if k > 0 {
      LowZero(k - 1);
    }
  }

  /** Decodes the reduced words into the user's buffer. */
  method DecodeSums(t: IntType, odata: seq<nat>, result: array<int>)
    requires t.width >= 1 && result.Length <= |odata|
    modifies result
    ensures forall i :: 0 <= i < result.Length ==> result[i] == DecodeSum(t, odata[i])
  {
    for i := 0 to result.Length
      invariant forall j :: 0 <= j < i ==> result[j] == DecodeSum(t, odata[j])
    {
      result[i] := Meaning(t, High(odata[i], t.low));
    }
  }
}
