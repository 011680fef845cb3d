/** The operations that the shared-memory reduction applies to 64-bit words. All of them are
    associative and commutative, so the tree order does not show in the result. */
module SoftOps {
  import opened Powers
  import opened AxisRounds

  datatype WordOp = SumOp | AndOp | OrOp | XorOp | MaxOp | MaxLocOp | OtherOp

  /** Bitwise or of two unsigned numbers. */
  function Or(a: nat, b: nat): nat
    decreases a + b
  {
    if a == 0 && b == 0 then 0
    else (if a % 2 == 1 || b % 2 == 1 then 1 else 0) + 2 * Or(a / 2, b / 2)
  }

  function Add(a: nat, b: nat): nat { (a + b) % WORDS }

  function Larger(a: nat, b: nat): nat { if a < b then b else a }

  /** Value and location: the larger value wins, and among equal values the smaller location. */
  function LargerLoc(a: (nat, nat), b: (nat, nat)): (nat, nat) {
    if a.0 < b.0 then b else if a.0 == b.0 && a.1 > b.1 then (a.0, b.1) else a
  }

  function Apply(op: WordOp, a: nat, b: nat): nat
    requires !op.MaxLocOp? && !op.OtherOp?
  {
    match op
    case SumOp => Add(a, b)
    case AndOp => And(a, b)
    case OrOp => Or(a, b)
    case XorOp => Xor(a, b)
    case MaxOp => Larger(a, b)
  }

  // ---------------------------------------------------------------- bitwise operations, bit by bit

  lemma {:induction false} BitOfAnd(a: nat, b: nat, k: nat)
    ensures Bit(And(a, b), k) <==> Bit(a, k) && Bit(b, k)
    decreases k
  {
    if a == 0 || b == 0 {
      NoBits(k);
    } else if k > 0 {
      BitOfAnd(a / 2, b / 2, k - 1);
    }
  }

  lemma {:induction false} BitOfOr(a: nat, b: nat, k: nat)
    ensures Bit(Or(a, b), k) <==> Bit(a, k) || Bit(b, k)
    decreases k
  {
    if a == 0 && b == 0 {
      NoBits(k);
    } else if k > 0 {
      BitOfOr(a / 2, b / 2, k - 1);
    }
  }

  lemma {:induction false} BitOfXor(a: nat, b: nat, k: nat)
    ensures Bit(Xor(a, b), k) <==> Bit(a, k) != Bit(b, k)
    decreases k
  {
    if a == 0 && b == 0 {
      NoBits(k);
    } else if k > 0 {
      BitOfXor(a / 2, b / 2, k - 1);
    }
  }

  /** Numbers with the same bits are the same. */
  lemma {:induction false} SameBits(a: nat, b: nat)
    requires forall k: nat :: Bit(a, k) <==> Bit(b, k)
    ensures a == b
    decreases a + b
  {
    assert Bit(a, 0) <==> Bit(b, 0);
    if a + b > 1 {
      forall k: nat ensures Bit(a / 2, k) <==> Bit(b / 2, k) {
        assert Bit(a, k + 1) <==> Bit(b, k + 1);
      }
      SameBits(a / 2, b / 2);
    }
  }

  lemma AndAssociates(a: nat, b: nat, c: nat)
    ensures And(And(a, b), c) == And(a, And(b, c)) && And(a, b) == And(b, a)
  {
    forall k: nat ensures Bit(And(And(a, b), c), k) <==> Bit(And(a, And(b, c)), k) {
      BitOfAnd(And(a, b), c, k); BitOfAnd(a, b, k); BitOfAnd(a, And(b, c), k); BitOfAnd(b, c, k);
    }
    SameBits(And(And(a, b), c), And(a, And(b, c)));
    forall k: nat ensures Bit(And(a, b), k) <==> Bit(And(b, a), k) {
      BitOfAnd(a, b, k); BitOfAnd(b, a, k);
    }
    SameBits(And(a, b), And(b, a));
  }

  lemma OrAssociates(a: nat, b: nat, c: nat)
    ensures Or(Or(a, b), c) == Or(a, Or(b, c)) && Or(a, b) == Or(b, a)
  {
    forall k: nat ensures Bit(Or(Or(a, b), c), k) <==> Bit(Or(a, Or(b, c)), k) {
      BitOfOr(Or(a, b), c, k); BitOfOr(a, b, k); BitOfOr(a, Or(b, c), k); BitOfOr(b, c, k);
    }
    SameBits(Or(Or(a, b), c), Or(a, Or(b, c)));
    forall k: nat ensures Bit(Or(a, b), k) <==> Bit(Or(b, a), k) {
      BitOfOr(a, b, k); BitOfOr(b, a, k);
    }
    SameBits(Or(a, b), Or(b, a));
  }

  lemma XorAssociates(a: nat, b: nat, c: nat)
    ensures Xor(Xor(a, b), c) == Xor(a, Xor(b, c)) && Xor(a, b) == Xor(b, a)
  {
    forall k: nat ensures Bit(Xor(Xor(a, b), c), k) <==> Bit(Xor(a, Xor(b, c)), k) {
      BitOfXor(Xor(a, b), c, k); BitOfXor(a, b, k); BitOfXor(a, Xor(b, c), k); BitOfXor(b, c, k);
    }
    SameBits(Xor(Xor(a, b), c), Xor(a, Xor(b, c)));
    forall k: nat ensures Bit(Xor(a, b), k) <==> Bit(Xor(b, a), k) {
      BitOfXor(a, b, k); BitOfXor(b, a, k);
    }
    SameBits(Xor(a, b), Xor(b, a));
  }

  lemma AddAssociates(a: nat, b: nat, c: nat)
    ensures Add(Add(a, b), c) == Add(a, Add(b, c)) && Add(a, b) == Add(b, a)
  {}

  lemma ApplyAssociates(op: WordOp, a: nat, b: nat, c: nat)
    requires !op.MaxLocOp? && !op.OtherOp?
    ensures Apply(op, Apply(op, a, b), c) == Apply(op, a, Apply(op, b, c)) && Apply(op, a, b) == Apply(op, b, a)
  {
    match op
    case SumOp => AddAssociates(a, b, c);
    case AndOp => AndAssociates(a, b, c);
    case OrOp => OrAssociates(a, b, c);
    case XorOp => XorAssociates(a, b, c);
    case MaxOp =>
  }

  function Operation(op: WordOp): (nat, nat) -> nat
    requires !op.MaxLocOp? && !op.OtherOp?
  {
    (a, b) => Apply(op, a, b)
  }

  /** Every word operation meets what the tree and the network ask of an operation. */
  lemma WordOpIsAC(op: WordOp)
    requires !op.MaxLocOp? && !op.OtherOp?
    ensures AC(Operation(op))
  {
    var f := Operation(op);
    forall a: nat, b: nat, c: nat ensures AssociatesAt(f, a, b, c) { ApplyAssociates(op, a, b, c); }
    forall a: nat, b: nat ensures CommutesAt(f, a, b) { ApplyAssociates(op, a, b, 0); }
  }

  lemma LocIsAC()
    ensures AC(LargerLoc)
  {
    forall a: (nat, nat), b: (nat, nat), c: (nat, nat)
      ensures AssociatesAt(LargerLoc, a, b, c) && CommutesAt(LargerLoc, a, b)
    {
    }
  }

  /** The largest of a list: one of them, and no other is larger. */
  lemma {:induction false} LargestOf(x: seq<nat>)
    requires x != []
    ensures Reduce(Larger, x) in x && forall i :: 0 <= i < |x| ==> x[i] <= Reduce(Larger, x)
  {
    if |x| > 1 {
      LargestOf(x[..|x| - 1]);
    }
  }

  /** The pair that MAXLOC selects: one of the inputs, with the largest value, and the smallest location
      among the inputs with that value. */
  lemma {:induction false} LargestLocOf(x: seq<(nat, nat)>)
    requires x != []
    ensures var r := Reduce(LargerLoc, x);
      r in x && forall i :: 0 <= i < |x| ==> x[i].0 < r.0 || (x[i].0 == r.0 && r.1 <= x[i].1)
  {
    if |x| > 1 {
      LargestLocOf(x[..|x| - 1]);
    }
  }

  // ---------------------------------------------------------------- sums

  /** The arithmetic total. */
  function Total(ws: seq<nat>): nat { if ws == [] then 0 else ws[0] + Total(ws[1..]) }

  lemma {:induction false} TotalLast(ws: seq<nat>)
    requires ws != []
    ensures Total(ws) == Total(ws[..|ws| - 1]) + ws[|ws| - 1]
    decreases |ws|
  {
    if |ws| > 1 {
      TotalLast(ws[1..]);
      assert ws[1..][..|ws| - 2] == ws[..|ws| - 1][1..];
    }
  }

  /** SUM gives the arithmetic total, modulo the word size. */
  lemma {:induction false} SumIsTotal(ws: seq<nat>)
    requires ws != [] && forall i :: 0 <= i < |ws| ==> ws[i] < 0x1_0000_0000_0000_0000
    ensures Reduce(Operation(SumOp), ws) == Total(ws) % 0x1_0000_0000_0000_0000
    decreases |ws|
  {
    var front, last := ws[..|ws| - 1], ws[|ws| - 1];
    TotalLast(ws);
    if |ws| > 1 {
      SumIsTotal(front);
      AddModulo(Total(front), last);
    }
  }

  lemma AddModulo(t: nat, a: nat)
    ensures Apply(SumOp, t % 0x1_0000_0000_0000_0000, a) == (t + a) % 0x1_0000_0000_0000_0000
  {}

  // ---------------------------------------------------------------- entries

  /** One entry of a reduction: the pair of words of MAXLOC, or one word of any other operation. */
  type Entry = (nat, nat)

  /** How many words an entry takes. */
  function Stride(op: WordOp): nat { if op.MaxLocOp? then 2 else 1 }

  function EntryAt(op: WordOp, ws: seq<nat>, i: nat): Entry
    requires Stride(op) * i + Stride(op) <= |ws|
  {
    if op.MaxLocOp? then (ws[2 * i], ws[2 * i + 1]) else (ws[i], 0)
  }

  /** Words that make up whole entries. */
  predicate Whole(op: WordOp, count: nat) { op.MaxLocOp? ==> count % 2 == 0 }

  function Entries(op: WordOp, count: nat): nat { if op.MaxLocOp? then count / 2 else count }

  function EntriesOf(op: WordOp, ws: seq<nat>): (es: seq<Entry>)
    requires Whole(op, |ws|)
    ensures |es| == Entries(op, |ws|)
    ensures forall i: nat :: i < |es| ==> es[i] == EntryAt(op, ws, i)
  {
    seq(Entries(op, |ws|), i requires 0 <= i < Entries(op, |ws|) => EntryAt(op, ws, i))
  }

  /** How an operation combines entries. */
  function EntryOp(op: WordOp): (Entry, Entry) -> Entry
    requires !op.OtherOp?
  {
    if op.MaxLocOp? then LargerLoc else (a: Entry, b: Entry) => (Apply(op, a.0, b.0), 0)
  }

  /** Every operation meets what the tree and the network ask of it. */
  lemma EntryOpIsAC(op: WordOp)
    requires !op.OtherOp?
    ensures AC(EntryOp(op))
  {
    if op.MaxLocOp? {
      LocIsAC();
    } else {
      var f := EntryOp(op);
      forall a: Entry, b: Entry, c: Entry ensures AssociatesAt(f, a, b, c) { ApplyAssociates(op, a.0, b.0, c.0); }
      forall a: Entry, b: Entry ensures CommutesAt(f, a, b) { ApplyAssociates(op, a.0, b.0, 0); }
    }
  }

  /** Words as entries of one word. */
  function Singles(ws: seq<nat>): (es: seq<Entry>)
    ensures |es| == |ws| && forall i :: 0 <= i < |ws| ==> es[i] == (ws[i], 0)
  {
    seq(|ws|, i requires 0 <= i < |ws| => (ws[i], 0))
  }

  lemma {:induction false} ReduceSingles(op: WordOp, ws: seq<nat>)
    requires !op.MaxLocOp? && !op.OtherOp? && ws != []
    ensures Reduce(EntryOp(op), Singles(ws)) == (Reduce(Operation(op), ws), 0)
    decreases |ws|
  {
    if |ws| > 1 {
      assert Singles(ws)[..|ws| - 1] == Singles(ws[..|ws| - 1]);
      ReduceSingles(op, ws[..|ws| - 1]);
    }
  }

  // ---------------------------------------------------------------- in place

  /** What one word becomes: the sum modulo 2^64, the bitwise result, or the larger word. */
  ghost predicate Combines(op: WordOp, a: nat, b: nat, r: nat) {
    match op
    case SumOp => r == (a + b) % 0x1_0000_0000_0000_0000
    case AndOp => forall k: nat :: Bit(r, k) <==> Bit(a, k) && Bit(b, k)
    case OrOp => forall k: nat :: Bit(r, k) <==> Bit(a, k) || Bit(b, k)
    case XorOp => forall k: nat :: Bit(r, k) <==> (Bit(a, k) != Bit(b, k))
    case MaxOp => (r == a || r == b) && a <= r && b <= r
    case _ => false
  }

  /** What a pair becomes: one of the two pairs, with the larger value, or the same value and the smaller
      location. */
  ghost predicate Selects(a: Entry, b: Entry, r: Entry) {
    (r == a || r == b) && a.0 <= r.0 && b.0 <= r.0 &&
    (a.0 == r.0 ==> r.1 <= a.1) && (b.0 == r.0 ==> r.1 <= b.1)
  }

  /** The words `a`, combined with the words `b`, are `r`: for MAXLOC the words go in pairs. */
  ghost predicate Reduced(op: WordOp, a: seq<nat>, b: seq<nat>, r: seq<nat>) {
    |a| == |b| == |r| &&
    if op.MaxLocOp? then
      |r| % 2 == 0 &&
      forall n :: 0 <= n < |r| - 1 && n % 2 == 0 ==> Selects((a[n], a[n + 1]), (b[n], b[n + 1]), (r[n], r[n + 1]))
    else forall n :: 0 <= n < |r| ==> Combines(op, a[n], b[n], r[n])
  }

  lemma ApplyCombines(op: WordOp, a: nat, b: nat)
    requires !op.MaxLocOp? && !op.OtherOp?
    ensures Combines(op, a, b, Apply(op, a, b))
  {
    match op
    case AndOp => forall k: nat { BitOfAnd(a, b, k); }
    case OrOp => forall k: nat { BitOfOr(a, b, k); }
    case XorOp => forall k: nat { BitOfXor(a, b, k); }
    case _ =>
  }

  lemma CombinesOnce(op: WordOp, a: nat, b: nat, r: nat)
    requires Combines(op, a, b, r)
    ensures !op.MaxLocOp? && !op.OtherOp? && r == Apply(op, a, b)
  {
    ApplyCombines(op, a, b);
    if op.AndOp? || op.OrOp? || op.XorOp? {
      SameBits(r, Apply(op, a, b));
    }
  }

  /** Words combined so are entries combined by the operation. */
  lemma ReducedEntries(op: WordOp, a: seq<nat>, b: seq<nat>, r: seq<nat>, i: nat)
    requires !op.OtherOp? && Reduced(op, a, b, r) && Whole(op, |r|) && i < Entries(op, |r|)
    ensures EntriesOf(op, r)[i] == EntryOp(op)(EntriesOf(op, a)[i], EntriesOf(op, b)[i])
  {
    if op.MaxLocOp? {
      var n := 2 * i;
      assert Selects((a[n], a[n + 1]), (b[n], b[n + 1]), (r[n], r[n + 1]));
    } else {
      CombinesOnce(op, a[i], b[i], r[i]);
    }
  }

  /** The words of one row of shared memory. */
  function Row(data: array2<nat>, row: nat, count: nat): (ws: seq<nat>)
    requires row < data.Length0 && count <= data.Length1
    reads data
    ensures |ws| == count && forall n :: 0 <= n < count ==> ws[n] == data[row, n]
  {
    seq(count, n requires 0 <= n < count reads data => data[row, n])
  }

  /** Combines the first words of `data1` with those of a row of `data2` and leaves the result in `data1`. An
      unknown operation is refused and changes nothing. */
  method ReduceWords(op: WordOp, count: nat, data1: array<nat>, data2: array2<nat>, row: nat) returns (ok: bool)
    requires count <= data1.Length && row < data2.Length0 && count <= data2.Length1 && Whole(op, count)
    modifies data1
    ensures ok <==> !op.OtherOp?
    ensures !ok ==> data1[..] == old(data1[..])
    ensures ok ==> Reduced(op, old(data1[..count]), Row(data2, row, count), data1[..count])
    ensures data1[count..] == old(data1[count..])
  {
    if op.OtherOp? {
      return false;
    }
    if op.MaxLocOp? {
      ReducePairs(count, data1, data2, row);
      return true;
    }
    ghost var was := data1[..];
    var n := 0;
    while n < count
      invariant n <= count
      invariant forall i :: 0 <= i < n ==> Combines(op, was[i], data2[row, i], data1[i])
      invariant forall i :: n <= i < data1.Length ==> data1[i] == was[i]
    {
      ApplyCombines(op, data1[n], data2[row, n]);
      data1[n] := Apply(op, data1[n], data2[row, n]);
      n := n + 1;
    }
    ghost var a, b, now := was[..count], Row(data2, row, count), data1[..count];
    forall i | 0 <= i < count ensures Combines(op, a[i], b[i], now[i]) {}
    return true;
  }

  method ReducePairs(count: nat, data1: array<nat>, data2: array2<nat>, row: nat)
    requires count <= data1.Length && row < data2.Length0 && count <= data2.Length1 && count % 2 == 0
    modifies data1
    ensures Reduced(MaxLocOp, old(data1[..count]), Row(data2, row, count), data1[..count])
    ensures data1[count..] == old(data1[count..])
  {
    ghost var was := data1[..];
    var n := 0;
    while n < count
      invariant n <= count && n % 2 == 0
      invariant forall i :: 0 <= i < n && i % 2 == 0 ==>
        Selects((was[i], was[i + 1]), (data2[row, i], data2[row, i + 1]), (data1[i], data1[i + 1]))
      invariant forall i :: n <= i < data1.Length ==> data1[i] == was[i]
    {
      if data1[n] < data2[row, n] {
        data1[n] := data2[row, n];
        data1[n + 1] := data2[row, n + 1];
      } else if data1[n] == data2[row, n] && data1[n + 1] > data2[row, n + 1] {
        data1[n + 1] := data2[row, n + 1];
      }
      n := n + 2;
    }
    ghost var a, b, now := was[..count], Row(data2, row, count), data1[..count];
    forall i | 0 <= i < count - 1 && i % 2 == 0
      ensures Selects((a[i], a[i + 1]), (b[i], b[i + 1]), (now[i], now[i + 1]))
    {
      assert a[i] == was[i] && a[i + 1] == was[i + 1] && now[i] == data1[i] && now[i + 1] == data1[i + 1];
      assert b[i] == data2[row, i] && b[i + 1] == data2[row, i + 1];
    }
  }
}
