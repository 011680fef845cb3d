/** Logical reductions: truth values are packed into words, the words are combined bitwise, and the
    bits are unpacked again. Earlier contents of the words are shifted up, not cleared. */
module Logical {
  import opened Powers
  import opened AxisRounds
  import opened SoftOps

  const BITS: nat := 64

  /** How many elements word `c` takes when `count` are packed. */
  function ChunkSize(count: nat, c: nat): nat {
    if count <= BITS * c then 0 else if count - BITS * c < BITS then count - BITS * c else BITS
  }

  function Chunks(count: nat): nat { (count + (BITS - 1)) / BITS }

  function Chunk(t: seq<bool>, c: nat): (r: seq<bool>)
    requires c < Chunks(|t|)
    ensures |r| == ChunkSize(|t|, c)
  {
    t[BITS * c..BITS * c + ChunkSize(|t|, c)]
  }

  /** The lowest bits of `w` are `t`, the first element highest. */
  ghost predicate Packed(w: nat, t: seq<bool>) {
    forall e :: 0 <= e < |t| ==> Bit(w, |t| - 1 - e) == t[e]
  }

  ghost predicate PackedAll(words: seq<nat>, t: seq<bool>) {
    Chunks(|t|) <= |words| && forall c :: 0 <= c < Chunks(|t|) ==> Packed(words[c], Chunk(t, c))
  }

  function SetLowest(w: nat, v: bool): nat { if v then 2 * (w / 2) + 1 else 2 * (w / 2) }

  /** A left shift by one in a 64-bit word. */
  function Shifted(w: nat): nat { Low(2 * w, BITS) }

  lemma {:induction false} BitOfLow(x: nat, g: nat, k: nat)
    requires k < g
    ensures Bit(Low(x, g), k) == Bit(x, k)
    decreases g
  {
    if k > 0 {
      BitOfLow(x / 2, g - 1, k - 1);
    }
  }

  lemma ShiftedBit(w: nat, k: nat)
    requires k + 1 < BITS
    ensures Bit(Shifted(w) / 2, k) == Bit(w, k)
  {
    BitOfLow(2 * w, BITS, k + 1);
    assert Bit(2 * w, k + 1) == Bit(w, k);
    assert Bit(Shifted(w), k + 1) == Bit(Shifted(w) / 2, k);
  }

  lemma ShiftKeeps(w: nat, t: seq<bool>)
    requires Packed(w, t) && |t| < BITS
    ensures Packed(Shifted(w) / 2, t)
  {
    forall e | 0 <= e < |t| ensures Bit(Shifted(w) / 2, |t| - 1 - e) == t[e] {
      ShiftedBit(w, |t| - 1 - e);
    }
  }

  lemma SetAppends(w: nat, t: seq<bool>, v: bool)
    requires Packed(w / 2, t)
    ensures Packed(SetLowest(w, v), t + [v])
  {
    var u, r := SetLowest(w, v), t + [v];
    assert u / 2 == w / 2;
    forall e | 0 <= e < |r| ensures Bit(u, |r| - 1 - e) == r[e] {
      if e < |t| {
        assert Bit(u / 2, |t| - 1 - e) == t[e];
      }
    }
  }

  // ---------------------------------------------------------------- packing and unpacking

  function Truth(buf: seq<int>): (t: seq<bool>)
    ensures |t| == |buf| && forall i :: 0 <= i < |buf| ==> t[i] == (buf[i] != 0)
  {
    seq(|buf|, i requires 0 <= i < |buf| => buf[i] != 0)
  }

  /** Words below `j` are complete, and word `j` has the elements from its first up to `i`. */
  ghost predicate Progress(words: seq<nat>, t: seq<bool>, i: nat, j: nat) {
    BITS * j <= i <= |t| && j <= Chunks(|t|) <= |words| && i <= BITS * j + BITS &&
    (forall c :: 0 <= c < j ==> Packed(words[c], Chunk(t, c))) &&
    (j < |words| ==> Packed(words[j], t[BITS * j..i]))
  }

  lemma ProgressSet(words: seq<nat>, t: seq<bool>, i: nat, j: nat, w: nat)
    requires i < |t| && i == BITS * j + i % BITS && j < Chunks(|t|) <= |words| && Packed(w / 2, t[BITS * j..i])
    requires forall c :: 0 <= c < j ==> Packed(words[c], Chunk(t, c))
    ensures Progress(words[j := SetLowest(w, t[i])], t, i + 1, j)
  {
    SetAppends(w, t[BITS * j..i], t[i]);
    assert t[BITS * j..i] + [t[i]] == t[BITS * j..i + 1];
  }

  lemma ProgressNext(words: seq<nat>, t: seq<bool>, i: nat, j: nat)
    requires Progress(words, t, i, j) && i == BITS * j + BITS && j < |words|
    ensures Progress(words, t, i, j + 1)
  {
    assert t[BITS * j..i] == Chunk(t, j);
    assert t[BITS * (j + 1)..i] == [];
  }

  lemma ProgressDone(words: seq<nat>, t: seq<bool>, j: nat)
    requires Progress(words, t, |t|, j)
    ensures PackedAll(words, t)
  {
    if j < Chunks(|t|) {
      assert j + 1 == Chunks(|t|);
      assert t[BITS * j..|t|] == Chunk(t, j);
    }
  }

  /** Element `i` is about to be set in word `j`, which has been shifted for it. */
  ghost predicate Packing(words: seq<nat>, t: seq<bool>, i: nat, j: nat) {
    i < |t| && j == i / BITS && Chunks(|t|) <= |words| && j < |words| &&
    (forall c :: 0 <= c < j ==> Packed(words[c], Chunk(t, c))) && Packed(words[j] / 2, t[BITS * j..i])
  }

  lemma PackSet(words: seq<nat>, t: seq<bool>, i: nat, j: nat)
    requires Packing(words, t, i, j)
    ensures Progress(words[j := SetLowest(words[j], t[i])], t, i + 1, j)
  {
    ProgressSet(words, t, i, j, words[j]);
  }

  /** The word that takes the next element. */
  lemma PackNext(words: seq<nat>, t: seq<bool>, i: nat, j: nat)
    requires Progress(words, t, i + 1, j) && j == i / BITS && i < |t|
    ensures Progress(words, t, i + 1, (i + 1) / BITS)
  {
    if (i + 1) % BITS == 0 {
      ProgressNext(words, t, i + 1, j);
    }
  }

  lemma PackShift(words: seq<nat>, t: seq<bool>, i: nat, j: nat)
    requires Progress(words, t, i, j) && i < |t| && j == i / BITS
    ensures j < |words| && Packing(words[j := Shifted(words[j])], t, i, j)
  {
    ShiftKeeps(words[j], t[BITS * j..i]);
  }

  /** One word is replaced. */
  method SetWord(idata: array<nat>, j: nat, w: nat)
    requires j < idata.Length
    modifies idata
    ensures idata[..] == old(idata[..])[j := w]
  {
    idata[j] := w;
  }

  /** The packing loop, over whatever an earlier call left in the words. */
  method Pack(buf: seq<int>, idata: array<nat>)
    requires |buf| >= 1 && Chunks(|buf|) <= idata.Length
    modifies idata
    ensures PackedAll(idata[..], Truth(buf))
  {
    ghost var t := Truth(buf);
    var i, j := 0, 0;
    while true
      invariant Packing(idata[..], t, i, j)
      decreases |buf| - i
    {
      PackSet(idata[..], t, i, j);
      SetWord(idata, j, SetLowest(idata[j], buf[i] != 0));
      PackNext(idata[..], t, i, j);
      if (i + 1) % BITS == 0 && i != 0 {
        j := j + 1;
      }
      if i == |buf| - 1 {
        ProgressDone(idata[..], t, j);
        break;
      }
      i := i + 1;
      PackShift(idata[..], t, i, j);
      SetWord(idata, j, Shifted(idata[j]));
    }
  }

  /** Element `i` as the unpacking finds it. */
  function Unpacked(words: seq<nat>, count: nat, i: nat): bool
    requires i < count && Chunks(count) <= |words|
  {
    Bit(words[i / BITS], ChunkSize(count, i / BITS) - 1 - i % BITS)
  }

  /** The unpacking loops: one or zero for every element, in the original order. */
  method Unpack(odata: seq<nat>, count: nat, result: array<int>)
    requires Chunks(count) <= |odata| && count <= result.Length
    modifies result
    ensures forall e :: 0 <= e < count ==> result[e] == if Unpacked(odata, count, e) then 1 else 0
  {
    var j, left := 0, count;
    for i := 0 to Chunks(count)
      invariant j + left == count && j == if BITS * i <= count then BITS * i else count
      invariant forall e :: 0 <= e < j ==> result[e] == if Unpacked(odata, count, e) then 1 else 0
    {
      var bits := if BITS >= left then left else BITS;
      left := left - bits;
      ghost var first := j;
      while bits != 0
        invariant first == BITS * i && j + bits == first + ChunkSize(count, i) && 0 <= bits <= BITS
        invariant j + bits + left == count
        invariant forall e :: 0 <= e < j ==> result[e] == if Unpacked(odata, count, e) then 1 else 0
        decreases bits
      {
        assert j / BITS == i && j % BITS == j - first;
        result[j] := if Bit(odata[i], bits - 1) then 1 else 0;
        bits := bits - 1;
        j := j + 1;
      }
    }
  }

  /** Unpacking undoes packing. */
  lemma UnpackedPacked(words: seq<nat>, t: seq<bool>, i: nat)
    requires PackedAll(words, t) && i < |t|
    ensures Unpacked(words, |t|, i) == t[i]
  {
    var c := i / BITS;
    assert Packed(words[c], Chunk(t, c));
    assert Chunk(t, c)[i % BITS] == t[i];
  }

  // ---------------------------------------------------------------- the reduction

  /** The numbers of the logical operations and the word operation each is turned into. */
  const LAND: nat := 256
  const LOR: nat := 257
  const LXOR: nat := 258

  function WordOpOf(op: nat): (r: WordOp)
    requires LAND <= op <= LXOR
    ensures r.AndOp? || r.OrOp? || r.XorOp?
  {
    [AndOp, OrOp, XorOp][op % (LAND - 2) - 2]
  }

  function Connective(op: nat): (bool, bool) -> bool {
    (a, b) => if op == LAND then a && b else if op == LOR then a || b else a != b
  }

  function BitsAt(ws: seq<nat>, k: nat): (r: seq<bool>)
    ensures |r| == |ws|
  {
    seq(|ws|, p requires 0 <= p < |ws| => Bit(ws[p], k))
  }

  lemma {:induction false} BitOfReduced(op: nat, ws: seq<nat>, k: nat)
    requires LAND <= op <= LXOR && ws != []
    ensures Bit(Reduce(Operation(WordOpOf(op)), ws), k) == Reduce(Connective(op), BitsAt(ws, k))
    decreases |ws|
  {
    if |ws| > 1 {
      var front, last := ws[..|ws| - 1], ws[|ws| - 1];
      BitOfReduced(op, front, k);
      assert BitsAt(ws, k)[..|ws| - 1] == BitsAt(front, k);
      var a := Reduce(Operation(WordOpOf(op)), front);
      BitOfAnd(a, last, k);
      BitOfOr(a, last, k);
      BitOfXor(a, last, k);
    }
  }

  /** Entry `k` of every process. */
  function EntriesAt<T>(data: seq<seq<T>>, k: nat): (r: seq<T>)
    requires forall p :: 0 <= p < |data| ==> k < |data[p]|
    ensures |r| == |data|
  {
    seq(|data|, p requires 0 <= p < |data| => data[p][k])
  }

  /** Packing at every process, combining word by word and unpacking gives the element-wise logical
      reduction, whatever the unused bits hold. */
  lemma LogicalExact(op: nat, data: seq<seq<nat>>, ts: seq<seq<bool>>, count: nat, out: seq<nat>, i: nat)
    requires LAND <= op <= LXOR && |data| == |ts| > 0 && i < count
    requires forall p :: 0 <= p < |ts| ==> |ts[p]| == count && PackedAll(data[p], ts[p])
    requires forall p :: 0 <= p < |data| ==> Chunks(count) <= |data[p]|
    requires |out| >= Chunks(count)
    requires forall c :: 0 <= c < Chunks(count) ==> out[c] == Reduce(Operation(WordOpOf(op)), EntriesAt(data, c))
    ensures Unpacked(out, count, i) == Reduce(Connective(op), EntriesAt(ts, i))
  {
    var c := i / BITS;
    var k := ChunkSize(count, c) - 1 - i % BITS;
    BitOfReduced(op, EntriesAt(data, c), k);
    forall p | 0 <= p < |ts| ensures BitsAt(EntriesAt(data, c), k)[p] == EntriesAt(ts, i)[p] {
      UnpackedPacked(data[p], ts[p], i);
    }
    assert BitsAt(EntriesAt(data, c), k) == EntriesAt(ts, i);
  }

  function Trues(t: seq<bool>): nat { if t == [] then 0 else Trues(t[..|t| - 1]) + if t[|t| - 1] then 1 else 0 }

  /** What the three connectives mean over many processes. */
  lemma {:induction false} ConnectiveMeaning(t: seq<bool>)
    requires t != []
    ensures Reduce(Connective(LAND), t) <==> forall p :: 0 <= p < |t| ==> t[p]
    ensures Reduce(Connective(LOR), t) <==> exists p :: 0 <= p < |t| && t[p]
    ensures Reduce(Connective(LXOR), t) <==> Trues(t) % 2 == 1
    decreases |t|
  {
    var front := t[..|t| - 1];
    if |t| > 1 {
      ConnectiveMeaning(front);
    } else {
      assert Trues(front) == 0;
    }
  }
}
