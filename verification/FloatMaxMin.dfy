/** Maximum and minimum of binary floating-point numbers by an unsigned maximum of words: the bits are
    turned so that they order like the numbers, then shifted so that every NaN lies below every number. */
module FloatMaxMin {
  import opened Powers
  import opened AxisRounds
  import opened SoftOps
  import opened MaxMin

  /** A binary interchange format: one sign bit, `exp` exponent bits, `frac` fraction bits, and `low`
      unused bits of the word below them. */
  datatype Format = Format(exp: nat, frac: nat, low: nat)

  const BINARY64 := Format(11, 52, 0)
  const BINARY32 := Format(8, 23, 32)
  const BINARY16 := Format(5, 10, 48)

  /** One more than the largest magnitude pattern; also the sign bit. */
  function Half(f: Format): nat { Pow2(f.exp + f.frac) }

  /** Bits of a word of this format. */
  function Bits(f: Format): nat { 1 + f.exp + f.frac + f.low }

  predicate IsPattern(f: Format, u: nat) { u < 2 * Half(f) }

  predicate Negative(f: Format, u: nat) { u >= Half(f) }

  function Magnitude(f: Format, u: nat): (m: nat)
    requires IsPattern(f, u)
    ensures m < Half(f)
  {
    if Negative(f, u) then u - Half(f) else u
  }

  lemma HalfLarge(f: Format)
    requires f.exp >= 1
    ensures 2 * Pow2(f.frac) <= Half(f)
  {
    Pow2Mono(1 + f.frac, f.exp + f.frac);
  }

  /** All exponent bits set and a fraction that is not zero. */
  predicate IsNaN(f: Format, u: nat)
    requires IsPattern(f, u)
  {
    Magnitude(f, u) > Half(f) - Pow2(f.frac)
  }

  // ---------------------------------------------------------------- the numbers behind the patterns

  /** The magnitude in units of the smallest subnormal number; infinity comes after the largest finite. */
  function Scaled(f: Format, m: nat): int {
    ScaledParts(Pow2(f.frac), High(m, f.frac), Low(m, f.frac))
  }

  function Number(f: Format, u: nat): int
    requires IsPattern(f, u)
  {
    if Negative(f, u) then -Scaled(f, Magnitude(f, u)) else Scaled(f, Magnitude(f, u))
  }

  function ScaledParts(k: nat, e: nat, d: nat): int {
    if e == 0 then d else Word(k + d, e - 1, 0)
  }

  lemma {:induction false} ShiftOnce(a: nat, n: nat)
    ensures Word(a, n + 1, 0) == Word(2 * a, n, 0)
    decreases n
  {
    if n > 0 {
      ShiftOnce(a, n - 1);
    }
  }

  lemma {:induction false} ShiftGrows(a: nat, n: nat)
    ensures Word(a, n, 0) < Word(a + 1, n, 0)
    decreases n
  {
    if n > 0 {
      ShiftGrows(a, n - 1);
    }
  }

  lemma ScaledNext(k: nat, e: nat, d: nat)
    requires d < k
    ensures ScaledParts(k, e, d) < if d + 1 < k then ScaledParts(k, e, d + 1) else ScaledParts(k, e + 1, 0)
  {
    if e > 0 {
      ShiftGrows(k + d, e - 1);
      ShiftOnce(k, e - 1);
    }
  }

  /** Counting up by one carries from the low bits into the high ones. */
  lemma {:induction false} DigitsNext(m: nat, k: nat)
    ensures var d := Low(m, k);
      d < Pow2(k) &&
      if d + 1 < Pow2(k) then High(m + 1, k) == High(m, k) && Low(m + 1, k) == d + 1
      else High(m + 1, k) == High(m, k) + 1 && Low(m + 1, k) == 0
    decreases k
  {
    if k > 0 {
      DigitsNext(m / 2, k - 1);
    }
  }

  lemma {:induction false} ScaledGrows(f: Format, m: nat, n: nat)
    requires m <= n
    ensures Scaled(f, m) <= Scaled(f, n) && (m < n ==> Scaled(f, m) < Scaled(f, n))
    decreases n - m
  {
    if m < n {
      DigitsNext(m, f.frac);
      ScaledNext(Pow2(f.frac), High(m, f.frac), Low(m, f.frac));
      ScaledGrows(f, m + 1, n);
    }
  }

  lemma ScaledZero(f: Format)
    ensures Scaled(f, 0) == 0
  {
    ZeroParts(f.frac);
  }

  lemma {:induction false} ZeroParts(k: nat)
    ensures High(0, k) == 0 && Low(0, k) == 0
  {
    if k > 0 {
      ZeroParts(k - 1);
    }
  }

  // ---------------------------------------------------------------- the code

  /** All fraction bits set. */
  function Mask(f: Format): (m: nat)
    ensures m <= Pow2(Bits(f))
  {
    Pow2Mono(f.frac, 1 + f.exp + f.frac);
    WordBelow(Pow2(f.frac) - 1, f.low, 0, 1 + f.exp + f.frac);
    Word(Pow2(f.frac) - 1, f.low, 0)
  }

  function Turned(f: Format, isMin: bool, w: nat): nat {
    var n := Bits(f);
    if isMin then (if w < Pow2(n - 1) then Xor(w, Pow2(n - 1) - 1) else w)
    else if w >= Pow2(n - 1) then Xor(w, Pow2(n) - 1) else Xor(w, Pow2(n - 1))
  }

  function EncodeFloat(f: Format, isMin: bool, w: nat): nat {
    Plus(Turned(f, isMin, w), Mask(f), Pow2(Bits(f)))
  }

  // The mask is taken off modulo the word size.
  function Unmasked(f: Format, w: nat): nat {
    if w >= Mask(f) then w - Mask(f) else w + Pow2(Bits(f)) - Mask(f)
  }

  function TurnedBack(f: Format, isMin: bool, w: nat): nat {
    var n := Bits(f);
    if isMin then (if w < Pow2(n - 1) then Xor(w, Pow2(n - 1) - 1) else w)
    else if w >= Pow2(n - 1) then Xor(w, Pow2(n - 1)) else Xor(w, Pow2(n) - 1)
  }

  function DecodeFloat(f: Format, isMin: bool, w: nat): nat {
    High(TurnedBack(f, isMin, Unmasked(f, w)), f.low)
  }

  // ---------------------------------------------------------------- what the code does to the high part

  /** Whether larger magnitudes get larger keys. */
  predicate Upward(f: Format, isMin: bool, u: nat) { Negative(f, u) == isMin }

  function TurnedKey(f: Format, isMin: bool, u: nat): (k: nat)
    requires IsPattern(f, u)
    ensures k < 2 * Half(f)
  {
    if Upward(f, isMin, u) then Half(f) + Magnitude(f, u) else Half(f) - 1 - Magnitude(f, u)
  }

  function FloatKey(f: Format, isMin: bool, u: nat): (k: nat)
    requires IsPattern(f, u) && f.exp >= 1
    ensures k < 2 * Half(f)
  {
    HalfLarge(f);
    var k := TurnedKey(f, isMin, u) + Pow2(f.frac) - 1;
    if k < 2 * Half(f) then k else k - 2 * Half(f)
  }

  function FloatLow(f: Format, isMin: bool, u: nat, s: nat): (r: nat)
    requires s < Pow2(f.low)
    ensures r < Pow2(f.low)
  {
    if Upward(f, isMin, u) then s else Pow2(f.low) - 1 - s
  }

  lemma SignBit(f: Format, u: nat, s: nat)
    requires IsPattern(f, u)
    ensures Word(u, f.low, s) < Pow2(Bits(f))
    ensures Word(u, f.low, s) >= Pow2(Bits(f) - 1) <==> Negative(f, u)
    ensures Negative(f, u) ==> Word(u, f.low, s) == Word(Magnitude(f, u), f.low, s) + Pow2(Bits(f) - 1)
  {
    var h, m := f.exp + f.frac, Magnitude(f, u);
    WordBelow(u, f.low, s, 1 + h);
    WordBelow(m, f.low, s, h);
    if Negative(f, u) {
      WordSum(m, Half(f), f.low, s);
      Pow2Word(h, f.low);
    }
  }

  /** For a minimum, words without sign bit are turned over, and the others stay. */
  lemma MirrorMin(f: Format, a: nat, s: nat)
    requires a < Half(f) && s < Pow2(f.low)
    ensures Turned(f, true, Word(a, f.low, s)) == Word(Half(f) - 1 - a, f.low, Pow2(f.low) - 1 - s)
    ensures TurnedBack(f, true, Word(a, f.low, s)) == Word(Half(f) - 1 - a, f.low, Pow2(f.low) - 1 - s)
  {
    WordInverted(a, f.low, s, f.exp + f.frac);
    assert Bits(f) - 1 == f.exp + f.frac + f.low;
  }

  lemma StayMin(f: Format, u: nat, s: nat)
    requires IsPattern(f, u) && Negative(f, u)
    ensures Turned(f, true, Word(u, f.low, s)) == Word(u, f.low, s) == TurnedBack(f, true, Word(u, f.low, s))
  {
    SignBit(f, u, s);
  }

  lemma TurnedPositive(f: Format, u: nat, s: nat)
    requires u < Half(f)
    ensures Turned(f, false, Word(u, f.low, s)) == Word(Half(f) + u, f.low, s)
    ensures TurnedBack(f, false, Word(Half(f) + u, f.low, s)) == Word(u, f.low, s)
  {
    var w, v := Word(u, f.low, s), Word(Half(f) + u, f.low, s);
    SignBit(f, u, s);
    SignBit(f, Half(f) + u, s);
    XorHigh(w, Bits(f) - 1);
  }

  /** Turning a word over both ways, for words on the inverted side. */
  lemma TurnedNegative(f: Format, a: nat, s: nat)
    requires IsPattern(f, a) && s < Pow2(f.low)
    ensures Negative(f, a) ==>
      Turned(f, false, Word(a, f.low, s)) == Word(2 * Half(f) - 1 - a, f.low, Pow2(f.low) - 1 - s)
    ensures !Negative(f, a) ==>
      TurnedBack(f, false, Word(a, f.low, s)) == Word(2 * Half(f) - 1 - a, f.low, Pow2(f.low) - 1 - s)
  {
    SignBit(f, a, s);
    WordInverted(a, f.low, s, 1 + f.exp + f.frac);
  }

  lemma TurnedIsKey(f: Format, isMin: bool, u: nat, s: nat)
    requires IsPattern(f, u) && s < Pow2(f.low)
    ensures Turned(f, isMin, Word(u, f.low, s)) == Word(TurnedKey(f, isMin, u), f.low, FloatLow(f, isMin, u, s))
  {
    if isMin && Negative(f, u) {
      StayMin(f, u, s);
    } else if isMin {
      MirrorMin(f, u, s);
    } else if Negative(f, u) {
      TurnedNegative(f, u, s);
    } else {
      TurnedPositive(f, u, s);
    }
  }

  lemma TurnedBackIsPattern(f: Format, isMin: bool, u: nat, s: nat)
    requires IsPattern(f, u) && s < Pow2(f.low)
    ensures TurnedBack(f, isMin, Word(TurnedKey(f, isMin, u), f.low, s)) == Word(u, f.low, FloatLow(f, isMin, u, s))
  {
    if isMin && Negative(f, u) {
      StayMin(f, u, s);
    } else if isMin {
      MirrorMin(f, Half(f) - 1 - u, s);
    } else if Negative(f, u) {
      TurnedNegative(f, Half(f) - 1 - Magnitude(f, u), s);
    } else {
      TurnedPositive(f, u, s);
    }
  }

  lemma EncodeFloatKey(f: Format, isMin: bool, u: nat, stale: nat)
    requires IsPattern(f, u) && f.exp >= 1
    ensures EncodeFloat(f, isMin, Copied(u, f.low, stale))
         == Word(FloatKey(f, isMin, u), f.low, FloatLow(f, isMin, u, Stale(stale, f.low)))
  {
    var s := Stale(stale, f.low);
    HalfLarge(f);
    TurnedIsKey(f, isMin, u, s);
    var k, low := TurnedKey(f, isMin, u), FloatLow(f, isMin, u, s);
    KeyIsPlus(f, isMin, u);
    WordPlus(k, f.low, low, Pow2(f.frac) - 1, 1 + f.exp + f.frac);
  }

  lemma KeyIsPlus(f: Format, isMin: bool, u: nat)
    requires IsPattern(f, u) && f.exp >= 1
    ensures TurnedKey(f, isMin, u) < Pow2(1 + f.exp + f.frac) && Pow2(f.frac) - 1 < Pow2(1 + f.exp + f.frac)
    ensures FloatKey(f, isMin, u) == Plus(TurnedKey(f, isMin, u), Pow2(f.frac) - 1, Pow2(1 + f.exp + f.frac))
  {
    HalfLarge(f);
  }

  lemma UnmaskedIsKey(f: Format, isMin: bool, u: nat, s: nat)
    requires IsPattern(f, u) && f.exp >= 1
    ensures Unmasked(f, Word(FloatKey(f, isMin, u), f.low, s)) == Word(TurnedKey(f, isMin, u), f.low, s)
  {
    var c, j, i, h := Pow2(f.frac) - 1, FloatKey(f, isMin, u), TurnedKey(f, isMin, u), 1 + f.exp + f.frac;
    HalfLarge(f);
    WordSum(i, c, f.low, s);
    if j != i + c {
      WordSum(j, Pow2(h), f.low, s);
      Pow2Word(h, f.low);
      WordBelow(i, f.low, s, h);
    }
  }

  lemma DecodeFloatKey(f: Format, isMin: bool, u: nat, s: nat)
    requires IsPattern(f, u) && f.exp >= 1 && s < Pow2(f.low)
    ensures DecodeFloat(f, isMin, Word(FloatKey(f, isMin, u), f.low, s)) == u
  {
    UnmaskedIsKey(f, isMin, u, s);
    TurnedBackIsPattern(f, isMin, u, s);
    WordHigh(u, f.low, FloatLow(f, isMin, u, s));
  }

  // ---------------------------------------------------------------- what the order means

  lemma NaNBelow(f: Format, isMin: bool, u: nat, v: nat)
    requires IsPattern(f, u) && IsPattern(f, v) && f.exp >= 1 && IsNaN(f, u) && !IsNaN(f, v)
    ensures FloatKey(f, isMin, u) < FloatKey(f, isMin, v)
  {
    HalfLarge(f);
  }

  lemma KeysOrderNumbers(f: Format, isMin: bool, u: nat, v: nat)
    requires IsPattern(f, u) && IsPattern(f, v) && f.exp >= 1 && !IsNaN(f, u) && !IsNaN(f, v)
    requires FloatKey(f, isMin, u) <= FloatKey(f, isMin, v)
    ensures if isMin then Number(f, v) <= Number(f, u) else Number(f, u) <= Number(f, v)
  {
    var m, n := Magnitude(f, u), Magnitude(f, v);
    HalfLarge(f);
    ScaledZero(f);
    ScaledGrows(f, 0, m);
    ScaledGrows(f, 0, n);
    if m <= n {
      ScaledGrows(f, m, n);
    } else {
      ScaledGrows(f, n, m);
    }
  }

  function EncodedFloats(f: Format, isMin: bool, us: seq<nat>, stale: seq<nat>): (ws: seq<nat>)
    requires |us| == |stale|
    ensures |ws| == |us|
  {
    seq(|us|, p requires 0 <= p < |us| => EncodeFloat(f, isMin, Copied(us[p], f.low, stale[p])))
  }

  /** Encoding, unsigned maximum and decoding give the bits of one of the inputs: the largest (smallest)
      number among those that are numbers, and a NaN only if every input is one. */
  lemma FloatExtreme(f: Format, isMin: bool, us: seq<nat>, stale: seq<nat>)
    requires f.exp >= 1 && |us| == |stale| > 0 && forall p :: 0 <= p < |us| ==> IsPattern(f, us[p])
    ensures var r := DecodeFloat(f, isMin, Reduce(Larger, EncodedFloats(f, isMin, us, stale)));
      r in us && IsPattern(f, r) &&
      forall p :: 0 <= p < |us| && !IsNaN(f, us[p]) ==>
        !IsNaN(f, r) && if isMin then Number(f, r) <= Number(f, us[p]) else Number(f, us[p]) <= Number(f, r)
  {
    var ws := EncodedFloats(f, isMin, us, stale);
    LargestOf(ws);
    var w := Reduce(Larger, ws);
    var m :| 0 <= m < |ws| && ws[m] == w;
    EncodeFloatKey(f, isMin, us[m], stale[m]);
    var s := FloatLow(f, isMin, us[m], Stale(stale[m], f.low));
    DecodeFloatKey(f, isMin, us[m], s);
    forall p | 0 <= p < |us| && !IsNaN(f, us[p])
      ensures !IsNaN(f, us[m])
      ensures if isMin then Number(f, us[m]) <= Number(f, us[p]) else Number(f, us[p]) <= Number(f, us[m])
    {
      EncodeFloatKey(f, isMin, us[p], stale[p]);
      assert ws[p] <= w;
      WordOrder(FloatKey(f, isMin, us[p]), FloatLow(f, isMin, us[p], Stale(stale[p], f.low)),
                FloatKey(f, isMin, us[m]), s, f.low);
      if IsNaN(f, us[m]) {
        NaNBelow(f, isMin, us[m], us[p]);
      }
      KeysOrderNumbers(f, isMin, us[p], us[m]);
    }
  }

  /** The masks the code spells out. */
  lemma Masks()
    ensures Bits(BINARY64) == Bits(BINARY32) == Bits(BINARY16) == 64
    ensures Mask(BINARY64) == 0x000F_FFFF_FFFF_FFFF && Mask(BINARY32) == 0x007F_FFFF_0000_0000
    ensures Mask(BINARY16) == 0x03FF_0000_0000_0000
  {
    Pow2Values();
    Pow2Product(16, 16);
    Pow2Product(16, 32);
    Pow2Product(4, 48);
    Pow2Product(7, 16);
    WordValue(Pow2(52) - 1, 0, 0);
    WordValue(Pow2(23) - 1, 32, 0);
    WordValue(Pow2(10) - 1, 48, 0);
  }

  /** Encodes the user's elements into the buffer, in place. */
  method EncodeFloats(f: Format, isMin: bool, buf: seq<nat>, idata: array<nat>)
    requires |buf| <= idata.Length
    modifies idata
    ensures forall i :: 0 <= i < |buf| ==> idata[i] == EncodeFloat(f, isMin, Copied(buf[i], f.low, old(idata[i])))
    ensures forall i :: |buf| <= i < idata.Length ==> idata[i] == old(idata[i])
  {
    var n := Bits(f);
    for i := 0 to |buf|
      invariant forall j :: 0 <= j < i ==> idata[j] == EncodeFloat(f, isMin, Copied(buf[j], f.low, old(idata[j])))
      invariant forall j :: i <= j < idata.Length ==> idata[j] == old(idata[j])
    {
      idata[i] := Copied(buf[i], f.low, idata[i]);
      if !isMin {
        idata[i] := Xor(idata[i], if idata[i] >= Pow2(n - 1) then Pow2(n) - 1 else Pow2(n - 1));
      } else if idata[i] < Pow2(n - 1) {
        idata[i] := Xor(idata[i], Pow2(n - 1) - 1);
      }
      idata[i] := Plus(idata[i], Mask(f), Pow2(n));
    }
  }

  /** Decodes the reduced words into the user's buffer. */
  method DecodeFloats(f: Format, isMin: bool, odata: array<nat>, result: array<nat>)
    requires result.Length <= odata.Length && odata != result
    modifies odata, result
    ensures forall i :: 0 <= i < result.Length ==> result[i] == DecodeFloat(f, isMin, old(odata[i]))
  {
    var n := Bits(f);
    for i := 0 to result.Length
      invariant forall j :: 0 <= j < i ==> result[j] == DecodeFloat(f, isMin, old(odata[j]))
      invariant forall j :: i <= j < odata.Length ==> odata[j] == old(odata[j])
    {
      odata[i] := Unmasked(f, odata[i]);
      if !isMin {
        odata[i] := Xor(odata[i], if odata[i] >= Pow2(n - 1) then Pow2(n - 1) else Pow2(n) - 1);
      } else if odata[i] < Pow2(n - 1) {
        odata[i] := Xor(odata[i], Pow2(n - 1) - 1);
      }
      result[i] := High(odata[i], f.low);
    }
  }
}
