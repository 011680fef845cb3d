/** Maximum and minimum of integers and of binary floating-point numbers by an unsigned maximum of
    words. A value fills the high-order bytes of a word; the low-order bytes keep whatever an earlier
    call left there. */
module MaxMin {
  import opened Powers
  import opened AxisRounds
  import opened SoftOps

  // ---------------------------------------------------------------- words

  lemma XorOdd(w: nat, m: nat)
    requires w / 2 <= m && Xor(w / 2, m) == m - w / 2
    ensures Xor(w, 2 * m + 1) == 2 * m + 1 - w
  {
    assert (2 * m + 1) / 2 == m && (2 * m + 1) % 2 == 1;
  }

  lemma {:induction false} XorOnes(w: nat, n: nat)
    requires w < Pow2(n)
    ensures Xor(w, Pow2(n) - 1) == Pow2(n) - 1 - w
  {
    if n > 0 {
      XorOnes(w / 2, n - 1);
      XorOdd(w, Pow2(n - 1) - 1);
    }
  }

  lemma {:induction false} XorHigh(w: nat, n: nat)
    requires w < Pow2(n)
    ensures Xor(w, Pow2(n)) == w + Pow2(n) && Xor(w + Pow2(n), Pow2(n)) == w
  {
    if n == 0 {
      XorZero(0);
    } else {
      XorHigh(w / 2, n - 1);
      assert Pow2(n) / 2 == Pow2(n - 1) && Pow2(n) % 2 == 0;
      assert (w + Pow2(n)) / 2 == w / 2 + Pow2(n - 1) && (w + Pow2(n)) % 2 == w % 2;
    }
  }

  /** `a` shifted up by `low` bits, with `s` in those bits. */
  function Word(a: nat, low: nat, s: nat): nat {
    if low == 0 then a else 2 * Word(a, low - 1, s / 2) + s % 2
  }

  lemma {:induction false} WordValue(a: nat, low: nat, s: nat)
    requires s < Pow2(low)
    ensures Word(a, low, s) == a * Pow2(low) + s
    decreases low
  {
    if low > 0 {
      var k, h := Pow2(low - 1), s / 2;
      assert h < k;
      WordValue(a, low - 1, h);
      Doubled(a, k);
    }
  }

  lemma {:induction false} WordOrder(a: nat, s: nat, b: nat, t: nat, low: nat)
    requires Word(a, low, s) <= Word(b, low, t)
    ensures a <= b
    decreases low
  {
    if low > 0 {
      WordOrder(a, s / 2, b, t / 2, low - 1);
    }
  }

  lemma {:induction false} WordHigh(a: nat, low: nat, s: nat)
    ensures High(Word(a, low, s), low) == a
    decreases low
  {
    if low > 0 {
      WordHigh(a, low - 1, s / 2);
      assert Word(a, low, s) / 2 == Word(a, low - 1, s / 2);
    }
  }

  lemma {:induction false} WordBelow(a: nat, low: nat, s: nat, high: nat)
    requires a < Pow2(high)
    ensures Word(a, low, s) < Pow2(high + low)
    decreases low
  {
    if low > 0 {
      WordBelow(a, low - 1, s / 2, high);
      assert Pow2(high + low) == 2 * Pow2(high + low - 1);
    }
  }

  lemma {:induction false} Pow2Word(high: nat, low: nat)
    ensures Word(Pow2(high), low, 0) == Pow2(high + low)
    decreases low
  {
    if low > 0 {
      Pow2Word(high, low - 1);
    }
  }

  lemma Pow2Product(a: nat, b: nat)
    ensures Pow2(a + b) == Pow2(a) * Pow2(b)
  {
    Pow2Word(a, b);
    WordValue(Pow2(a), b, 0);
  }

  lemma Pow2Values()
    ensures Pow2(4) == 16 && Pow2(7) == 128 && Pow2(10) == 1024 && Pow2(16) == 0x1_0000
  {}

  lemma {:induction false} WordSum(a: nat, b: nat, low: nat, s: nat)
    ensures Word(a, low, s) + Word(b, low, 0) == Word(a + b, low, s)
    decreases low
  {
    if low > 0 {
      WordSum(a, b, low - 1, s / 2);
    }
  }

  lemma {:induction false} WordComplement(a: nat, low: nat, s: nat, high: nat)
    requires s < Pow2(low) && a < Pow2(high)
    ensures Word(a, low, s) + Word(Pow2(high) - 1 - a, low, Pow2(low) - 1 - s) == Pow2(high + low) - 1
    decreases low
  {
    if low > 0 {
      var k, h, d := Pow2(low - 1), s / 2, s % 2;
      assert s == 2 * h + d && h < k && Pow2(low) == 2 * k;
      WordComplement(a, low - 1, h, high);
      assert (2 * k - 1 - s) / 2 == k - 1 - h && (2 * k - 1 - s) % 2 == 1 - d;
    }
  }

  /** Inverting all bits of a word inverts both its parts. */
  lemma WordInverted(a: nat, low: nat, s: nat, high: nat)
    requires s < Pow2(low) && a < Pow2(high)
    ensures Word(a, low, s) < Pow2(high + low)
    ensures Xor(Word(a, low, s), Pow2(high + low) - 1) == Word(Pow2(high) - 1 - a, low, Pow2(low) - 1 - s)
  {
    WordBelow(a, low, s, high);
    XorOnes(Word(a, low, s), high + low);
    WordComplement(a, low, s, high);
  }

  /** The sum of two words of a machine whose words are below `size`. */
  function Plus(a: nat, b: nat, size: nat): nat { if a + b < size then a + b else a + b - size }

  /** Adding to the high part wraps around where the high part does. */
  lemma WordPlus(a: nat, low: nat, s: nat, b: nat, high: nat)
    requires a < Pow2(high) && b < Pow2(high)
    ensures Plus(Word(a, low, s), Word(b, low, 0), Pow2(high + low)) == Word(Plus(a, b, Pow2(high)), low, s)
  {
    var c := Plus(a, b, Pow2(high));
    WordSum(a, b, low, s);
    WordBelow(c, low, s, high);
    if a + b >= Pow2(high) {
      WordSum(c, Pow2(high), low, s);
      Pow2Word(high, low);
    }
  }

  // ---------------------------------------------------------------- integers

  /** An integer type of `width` bits that leaves `low` bits of the word unused. */
  datatype IntType = IntType(width: nat, low: nat, signed: bool)

  predicate InRange(t: IntType, x: int) {
    t.width >= 1 &&
    if t.signed then 0 <= x + Pow2(t.width - 1) && x < Pow2(t.width - 1) else 0 <= x < Pow2(t.width)
  }

  /** Two's complement. */
  function Pattern(t: IntType, x: int): nat
    requires InRange(t, x)
  {
    if x < 0 then x + Pow2(t.width) else x
  }

  function Meaning(t: IntType, u: nat): int
    requires t.width >= 1
  {
    if t.signed && u >= Pow2(t.width - 1) then u - Pow2(t.width) else u
  }

  /** What an earlier word leaves in the low-order bytes. */
  function Stale(stale: nat, low: nat): (s: nat)
    ensures s < Pow2(low)
  {
    LowBound(stale, low);
    Low(stale, low)
  }

  /** The word after the value is copied over its high-order bytes. */
  function Copied(u: nat, low: nat, stale: nat): nat { Word(u, low, Stale(stale, low)) }

  /** Adds the high bit to a signed value. Subtracting it is the same, modulo the word size. */
  function Biased(t: IntType, w: nat): nat
    requires t.width >= 1
  {
    if t.signed then Plus(w, Pow2(t.width + t.low - 1), Pow2(t.width + t.low)) else w
  }

  function EncodeInt(t: IntType, isMin: bool, w: nat): nat
    requires t.width >= 1
  {
    if isMin then Xor(Biased(t, w), Pow2(t.width + t.low) - 1) else Biased(t, w)
  }

  function DecodeInt(t: IntType, isMin: bool, w: nat): int
    requires t.width >= 1
  {
    var a := if isMin then Xor(w, Pow2(t.width + t.low) - 1) else w;
    Meaning(t, High(Biased(t, a), t.low))
  }

  /** The position of a value in the order of its type. */
  function Rank(t: IntType, x: int): (k: nat)
    requires InRange(t, x)
    ensures k < Pow2(t.width)
  {
    if t.signed then x + Pow2(t.width - 1) else x
  }

  /** The position of a value in the order that the unsigned maximum sees. */
  function Key(t: IntType, isMin: bool, x: int): (k: nat)
    requires InRange(t, x)
    ensures k < Pow2(t.width)
  {
    if isMin then Pow2(t.width) - 1 - Rank(t, x) else Rank(t, x)
  }

  function KeyLow(isMin: bool, low: nat, s: nat): nat
    requires s < Pow2(low)
  {
    if isMin then Pow2(low) - 1 - s else s
  }

  lemma SignMoved(t: IntType, u: nat, s: nat)
    requires t.width >= 1 && u < Pow2(t.width)
    ensures Plus(Word(u, t.low, s), Pow2(t.width + t.low - 1), Pow2(t.width + t.low))
         == Word(if u < Pow2(t.width - 1) then u + Pow2(t.width - 1) else u - Pow2(t.width - 1), t.low, s)
  {
    Pow2Word(t.width - 1, t.low);
    WordPlus(u, t.low, s, Pow2(t.width - 1), t.width);
  }

  lemma BiasedRank(t: IntType, x: int, s: nat)
    requires InRange(t, x)
    ensures Biased(t, Word(Pattern(t, x), t.low, s)) == Word(Rank(t, x), t.low, s)
    ensures Biased(t, Word(Rank(t, x), t.low, s)) == Word(Pattern(t, x), t.low, s)
  {
    if t.signed {
      SignMoved(t, Pattern(t, x), s);
      SignMoved(t, Rank(t, x), s);
    }
  }

  lemma EncodeIntKey(t: IntType, isMin: bool, x: int, stale: nat)
    requires InRange(t, x)
    ensures EncodeInt(t, isMin, Copied(Pattern(t, x), t.low, stale))
         == Word(Key(t, isMin, x), t.low, KeyLow(isMin, t.low, Stale(stale, t.low)))
  {
    BiasedRank(t, x, Stale(stale, t.low));
    if isMin {
      WordInverted(Rank(t, x), t.low, Stale(stale, t.low), t.width);
    }
  }

  lemma DecodeRank(t: IntType, x: int, s: nat)
    requires InRange(t, x) && s < Pow2(t.low) && t.width >= 1
    ensures Meaning(t, High(Biased(t, Word(Rank(t, x), t.low, s)), t.low)) == x
  {
    BiasedRank(t, x, s);
    WordHigh(Pattern(t, x), t.low, s);
  }

  lemma DecodeIntKey(t: IntType, isMin: bool, x: int, s: nat)
    requires InRange(t, x) && s < Pow2(t.low)
    ensures DecodeInt(t, isMin, Word(Key(t, isMin, x), t.low, s)) == x
  {
    if isMin {
      WordInverted(Key(t, true, x), t.low, s, t.width);
    }
    DecodeRank(t, x, KeyLow(isMin, t.low, s));
  }

  /** The words the processes contribute. */
  function EncodedInts(t: IntType, isMin: bool, xs: seq<int>, stale: seq<nat>): (ws: seq<nat>)
    requires |xs| == |stale| && forall p :: 0 <= p < |xs| ==> InRange(t, xs[p])
    ensures |ws| == |xs|
  {
    seq(|xs|, p requires 0 <= p < |xs| => EncodeInt(t, isMin, Copied(Pattern(t, xs[p]), t.low, stale[p])))
  }

  /** Encoding, unsigned maximum and decoding give the true maximum or minimum, for every width, signed
      or not, any number of processes and any left-over low-order bytes. */
  lemma IntegerExtreme(t: IntType, isMin: bool, xs: seq<int>, stale: seq<nat>)
    requires |xs| == |stale| > 0 && t.width >= 1 && forall p :: 0 <= p < |xs| ==> InRange(t, xs[p])
    ensures var r := DecodeInt(t, isMin, Reduce(Larger, EncodedInts(t, isMin, xs, stale)));
      r in xs && forall p :: 0 <= p < |xs| ==> if isMin then r <= xs[p] else xs[p] <= r
  {
    var ws := EncodedInts(t, isMin, xs, stale);
    LargestOf(ws);
    var w := Reduce(Larger, ws);
    var m :| 0 <= m < |ws| && ws[m] == w;
    EncodeIntKey(t, isMin, xs[m], stale[m]);
    var s := KeyLow(isMin, t.low, Stale(stale[m], t.low));
    DecodeIntKey(t, isMin, xs[m], s);
    forall p | 0 <= p < |xs| ensures if isMin then xs[m] <= xs[p] else xs[p] <= xs[m] {
      EncodeIntKey(t, isMin, xs[p], stale[p]);
      assert ws[p] <= w;
      WordOrder(Key(t, isMin, xs[p]), KeyLow(isMin, t.low, Stale(stale[p], t.low)), Key(t, isMin, xs[m]), s, t.low);
    }
  }

  /** Encodes the user's elements into the buffer, in place. */
  method EncodeInts(t: IntType, isMin: bool, buf: seq<int>, idata: array<nat>)
    requires t.width >= 1 && |buf| <= idata.Length && forall i :: 0 <= i < |buf| ==> InRange(t, buf[i])
    modifies idata
    ensures forall i :: 0 <= i < |buf| ==>
      idata[i] == EncodeInt(t, isMin, Copied(Pattern(t, buf[i]), t.low, old(idata[i])))
    ensures forall i :: |buf| <= i < idata.Length ==> idata[i] == old(idata[i])
  {
    var n := t.width + t.low;
    for i := 0 to |buf|
      invariant forall j :: 0 <= j < i ==>
        idata[j] == EncodeInt(t, isMin, Copied(Pattern(t, buf[j]), t.low, old(idata[j])))
      invariant forall j :: i <= j < idata.Length ==> idata[j] == old(idata[j])
    {
      idata[i] := Copied(Pattern(t, buf[i]), t.low, idata[i]);
      if t.signed {
        idata[i] := Plus(idata[i], Pow2(n - 1), Pow2(n));
      }
      if isMin {
        idata[i] := Xor(idata[i], Pow2(n) - 1);
      }
    }
  }

  /** Decodes the reduced words into the user's buffer. */
  method DecodeInts(t: IntType, isMin: bool, odata: array<nat>, result: array<int>)
    requires t.width >= 1 && result.Length <= odata.Length && odata as object != result
    modifies odata, result
    ensures forall i :: 0 <= i < result.Length ==> result[i] == DecodeInt(t, isMin, old(odata[i]))
  {
    var n := t.width + t.low;
    for i := 0 to result.Length
      invariant forall j :: 0 <= j < i ==> result[j] == DecodeInt(t, isMin, old(odata[j]))
      invariant forall j :: i <= j < odata.Length ==> odata[j] == old(odata[j])
    {
      if isMin {
        odata[i] := Xor(odata[i], Pow2(n) - 1);
      }
      if t.signed {
        odata[i] := Plus(odata[i], Pow2(n - 1), Pow2(n));
      }
      result[i] := Meaning(t, High(odata[i], t.low));
    }
  }

  // ---------------------------------------------------------------- value and location

  /** A process's pair: the value is turned for a minimum, the location never is. */
  function EncodeLoc(t: IntType, l: IntType, isMin: bool, x: (int, int), stale: (nat, nat)): (nat, nat)
    requires InRange(t, x.0) && InRange(l, x.1)
  {
    (EncodeInt(t, isMin, Copied(Pattern(t, x.0), t.low, stale.0)),
     EncodeInt(l, false, Copied(Pattern(l, x.1), l.low, stale.1)))
  }

  function DecodeLoc(t: IntType, l: IntType, isMin: bool, w: (nat, nat)): (int, int)
    requires t.width >= 1 && l.width >= 1
  {
    (DecodeInt(t, isMin, w.0), DecodeInt(l, false, w.1))
  }

  function EncodedLocs(t: IntType, l: IntType, isMin: bool, xs: seq<(int, int)>,
                       stale: seq<(nat, nat)>): (ws: seq<(nat, nat)>)
    requires |xs| == |stale| && forall p :: 0 <= p < |xs| ==> InRange(t, xs[p].0) && InRange(l, xs[p].1)
    ensures |ws| == |xs|
  {
    seq(|xs|, p requires 0 <= p < |xs| => EncodeLoc(t, l, isMin, xs[p], stale[p]))
  }

  /** `x` loses to `r`: its value is worse, or it is the same and its location is not smaller. */
  predicate Beats(isMin: bool, r: (int, int), x: (int, int)) {
    (if isMin then r.0 < x.0 else x.0 < r.0) || (r.0 == x.0 && r.1 <= x.1)
  }

  lemma WordLowOrder(a: nat, low: nat, s: nat, t: nat)
    requires s < Pow2(low) && t < Pow2(low)
    ensures Word(a, low, s) <= Word(a, low, t) <==> s <= t
  {
    WordValue(a, low, s);
    WordValue(a, low, t);
  }

  /** What the left-over bytes of a value word count for in the comparison. */
  function Leftover(t: IntType, isMin: bool, stale: nat): nat { KeyLow(isMin, t.low, Stale(stale, t.low)) }

  /** The comparison of two pairs as the reduction makes it: value, then left-over bytes, then location. */
  lemma LocOrder(t: IntType, l: IntType, isMin: bool, r: (int, int), sr: (nat, nat), x: (int, int), sx: (nat, nat))
    requires InRange(t, r.0) && InRange(l, r.1) && InRange(t, x.0) && InRange(l, x.1)
    requires var w, v := EncodeLoc(t, l, isMin, r, sr), EncodeLoc(t, l, isMin, x, sx);
      v.0 < w.0 || (v.0 == w.0 && w.1 <= v.1)
    ensures if isMin then r.0 <= x.0 else x.0 <= r.0
    ensures r.0 == x.0 ==> Leftover(t, isMin, sx.0) <= Leftover(t, isMin, sr.0)
    ensures r.0 == x.0 && Leftover(t, isMin, sx.0) == Leftover(t, isMin, sr.0) ==> r.1 <= x.1
  {
    var a, b := Leftover(t, isMin, sr.0), Leftover(t, isMin, sx.0);
    EncodeIntKey(t, isMin, r.0, sr.0);
    EncodeIntKey(t, isMin, x.0, sx.0);
    WordOrder(Key(t, isMin, x.0), b, Key(t, isMin, r.0), a, t.low);
    if r.0 == x.0 {
      WordLowOrder(Key(t, isMin, r.0), t.low, b, a);
      if a == b {
        EncodeIntKey(l, false, r.1, sr.1);
        EncodeIntKey(l, false, x.1, sx.1);
        WordOrder(Key(l, false, r.1), Stale(sr.1, l.low), Key(l, false, x.1), Stale(sx.1, l.low), l.low);
      }
    }
  }

  lemma LocDecoded(t: IntType, l: IntType, isMin: bool, x: (int, int), stale: (nat, nat))
    requires InRange(t, x.0) && InRange(l, x.1)
    ensures DecodeLoc(t, l, isMin, EncodeLoc(t, l, isMin, x, stale)) == x
  {
    EncodeIntKey(t, isMin, x.0, stale.0);
    EncodeIntKey(l, false, x.1, stale.1);
    DecodeIntKey(t, isMin, x.0, KeyLow(isMin, t.low, Stale(stale.0, t.low)));
    DecodeIntKey(l, false, x.1, Stale(stale.1, l.low));
  }

  /** `m` is a pair with the extreme value and the smallest location among those that have it. */
  ghost predicate Best(isMin: bool, xs: seq<(int, int)>, r: (int, int)) {
    forall p :: 0 <= p < |xs| ==> Beats(isMin, r, xs[p])
  }

  /** No process with the same value has better left-over bytes than process `m`. */
  ghost predicate BestLeftover(t: IntType, isMin: bool, xs: seq<(int, int)>, stale: seq<(nat, nat)>, m: nat)
    requires m < |xs| == |stale|
  {
    forall p :: 0 <= p < |xs| && xs[p].0 == xs[m].0 ==> Leftover(t, isMin, stale[p].0) <= Leftover(t, isMin, stale[m].0)
  }

  /** Processes `m` and `p` have the same value and left-over bytes that count the same. */
  predicate SameBytes(t: IntType, isMin: bool, xs: seq<(int, int)>, stale: seq<(nat, nat)>, m: nat, p: nat)
    requires m < |xs| == |stale| && p < |xs|
  {
    xs[p].0 == xs[m].0 && Leftover(t, isMin, stale[p].0) == Leftover(t, isMin, stale[m].0)
  }

  /** The process whose pair wins, and how it compares with the others. */
  lemma LocWinner(t: IntType, l: IntType, isMin: bool, xs: seq<(int, int)>, stale: seq<(nat, nat)>) returns (m: nat)
    requires t.width >= 1 && l.width >= 1 && |xs| == |stale| > 0
    requires forall p :: 0 <= p < |xs| ==> InRange(t, xs[p].0) && InRange(l, xs[p].1)
    ensures m < |xs| && DecodeLoc(t, l, isMin, Reduce(LargerLoc, EncodedLocs(t, l, isMin, xs, stale))) == xs[m]
    ensures forall p :: 0 <= p < |xs| ==> if isMin then xs[m].0 <= xs[p].0 else xs[p].0 <= xs[m].0
    ensures BestLeftover(t, isMin, xs, stale, m)
    ensures forall p :: 0 <= p < |xs| && SameBytes(t, isMin, xs, stale, m, p) ==> xs[m].1 <= xs[p].1
  {
    var ws := EncodedLocs(t, l, isMin, xs, stale);
    LargestLocOf(ws);
    var w: (nat, nat) := Reduce<(nat, nat)>(LargerLoc, ws);
    m :| 0 <= m < |ws| && ws[m] == w;
    LocDecoded(t, l, isMin, xs[m], stale[m]);
    forall p | 0 <= p < |xs|
      ensures if isMin then xs[m].0 <= xs[p].0 else xs[p].0 <= xs[m].0
      ensures xs[m].0 == xs[p].0 ==> Leftover(t, isMin, stale[p].0) <= Leftover(t, isMin, stale[m].0)
      ensures SameBytes(t, isMin, xs, stale, m, p) ==> xs[m].1 <= xs[p].1
    {
      assert ws[p].0 < w.0 || (ws[p].0 == w.0 && w.1 <= ws[p].1);
      LocOrder(t, l, isMin, xs[m], stale[m], xs[p], stale[p]);
    }
  }

  /** MAXLOC and MINLOC, for values of any width: the result is one of the inputs and has the extreme value.
      It also has the smallest location exactly if some process with the best pair has the best left-over
      bytes among those with that value. */
  lemma LocExact(t: IntType, l: IntType, isMin: bool, xs: seq<(int, int)>, stale: seq<(nat, nat)>)
    requires t.width >= 1 && l.width >= 1 && |xs| == |stale| > 0
    requires forall p :: 0 <= p < |xs| ==> InRange(t, xs[p].0) && InRange(l, xs[p].1)
    ensures var r := DecodeLoc(t, l, isMin, Reduce(LargerLoc, EncodedLocs(t, l, isMin, xs, stale)));
      r in xs && (forall p :: 0 <= p < |xs| ==> if isMin then r.0 <= xs[p].0 else xs[p].0 <= r.0) &&
      (Best(isMin, xs, r) <==>
       exists m :: 0 <= m < |xs| && Best(isMin, xs, xs[m]) && BestLeftover(t, isMin, xs, stale, m))
  {
    var w := LocWinner(t, l, isMin, xs, stale);
    if m :| 0 <= m < |xs| && Best(isMin, xs, xs[m]) && BestLeftover(t, isMin, xs, stale, m) {
      assert Beats(isMin, xs[m], xs[w]);
      assert xs[m] == xs[w];
    }
  }

  /** In particular the tie rule is kept whenever the value fills its whole word. */
  lemma FullWordLoc(t: IntType, l: IntType, isMin: bool, xs: seq<(int, int)>, stale: seq<(nat, nat)>)
    requires t.low == 0 && t.width >= 1 && l.width >= 1 && |xs| == |stale| > 0
    requires forall p :: 0 <= p < |xs| ==> InRange(t, xs[p].0) && InRange(l, xs[p].1)
    ensures Best(isMin, xs, DecodeLoc(t, l, isMin, Reduce(LargerLoc, EncodedLocs(t, l, isMin, xs, stale))))
  {
    var w := LocWinner(t, l, isMin, xs, stale);
    forall p | 0 <= p < |xs| ensures Beats(isMin, xs[w], xs[p]) {
      assert Leftover(t, isMin, stale[p].0) == Leftover(t, isMin, stale[w].0) == 0;
    }
  }

  /** Of two zeros, the left-over bytes decide which word is larger. */
  lemma LeftoverWins(t: IntType, isMin: bool, a: nat, b: nat)
    requires t.low > 0 && t.width >= 1 && InRange(t, 0) && a == (if isMin then 0 else 1) && b == 1 - a
    ensures EncodeInt(t, isMin, Copied(Pattern(t, 0), t.low, a)) > EncodeInt(t, isMin, Copied(Pattern(t, 0), t.low, b))
  {
    EncodeIntKey(t, isMin, 0, a);
    EncodeIntKey(t, isMin, 0, b);
    assert Pow2(t.low) >= 2;
    LowAll(0, t.low);
    LowAll(1, t.low);
    LowDecides(Key(t, isMin, 0), t.low, KeyLow(isMin, t.low, a), KeyLow(isMin, t.low, b));
  }

  lemma LowDecides(a: nat, low: nat, s: nat, u: nat)
    requires u < s < Pow2(low)
    ensures Word(a, low, u) < Word(a, low, s)
  {
    WordValue(a, low, u);
    WordValue(a, low, s);
  }

  /** Where it does not, left-over bytes of the value word can decide between equal values, and the
      result then has the larger location: for every such type there are inputs that lose the tie rule. */
  lemma TieLost(t: IntType, l: IntType, isMin: bool) returns (xs: seq<(int, int)>, stale: seq<(nat, nat)>)
    requires t.low > 0 && t.width >= 1 && l.width >= 2
    ensures |xs| == |stale| == 2 && forall p :: 0 <= p < |xs| ==> InRange(t, xs[p].0) && InRange(l, xs[p].1)
    ensures var r := DecodeLoc(t, l, isMin, Reduce(LargerLoc, EncodedLocs(t, l, isMin, xs, stale)));
      r == xs[0] && xs[0].0 == xs[1].0 && xs[1].1 < xs[0].1
  {
    assert Pow2(l.width - 1) >= 2;
    var a := if isMin then 0 else 1;
    xs, stale := [(0, 1), (0, 0)], [(a, 0), (1 - a, 0)];
    var ws := EncodedLocs(t, l, isMin, xs, stale);
    LeftoverWins(t, isMin, a, 1 - a);
    assert ws[..1] == [ws[0]];
    assert Reduce(LargerLoc, ws) == LargerLoc(Reduce(LargerLoc, ws[..1]), ws[1]);
    LocDecoded(t, l, isMin, xs[0], stale[0]);
  }
}
