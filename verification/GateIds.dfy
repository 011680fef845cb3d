/** Gate ids and packed words of the processes: the remote ends that a process sets are the ids of the gates
    that its peers name. */
module GateIds {
  import opened Powers
  import opened Network
  import opened Optimizer
  import opened Wiring
  import GateWords

  /** Where the gates of a process are: its interface and the physical coordinates of its node. */
  datatype Home = Home(tni: bv64, x: bv64, y: bv64, z: bv64, a: bv64, b: bv64, c: bv64)

  predicate ValidHome(h: Home) { GateWords.Ranges(h.tni, h.x, h.y, h.z, h.a, h.b, h.c) }

  function VbgId(h: Home, bg: bv64): bv64 { GateWords.VbgId(h.tni, h.x, h.y, h.z, h.a, h.b, h.c, bg) }

  function PackWord(h: Home, srcBg: bv64, dstBg: bv64): bv64 {
    GateWords.PackWord(h.tni, h.x, h.y, h.z, h.a, h.b, h.c, srcBg, dstBg)
  }

  // ---------------------------------------------------------------- the gates that have been allocated

  /** Where each process has its gates, and the id of the hardware gate that each of its gate numbers stands
      for. */
  datatype Hardware = Hardware(home: Proc -> Home, id: (Proc, nat) -> bv64)

  /** The id is that of a gate on the interface and node of its process. */
  predicate AtHome(hw: Hardware, q: Proc, n: nat) {
    ValidHome(hw.home(q)) && hw.id(q, n) == VbgId(hw.home(q), GateWords.BgOf(hw.id(q, n)))
  }

  ghost predicate ValidHardware(hw: Hardware) { forall q, n: nat :: AtHome(hw, q, n) }

  /** The packed word that `q` makes of the gates it names. */
  function Packed(hw: Hardware, q: Proc, w: Word): bv64 {
    PackWord(hw.home(q), GateWords.BgOf(hw.id(q, w.srcId)), GateWords.BgOf(hw.id(q, w.dstId)))
  }

  /** The ids a receiver reads from a packed word are those of the gates that were named. */
  lemma PackedNames(hw: Hardware, q: Proc, w: Word)
    requires ValidHardware(hw)
    ensures GateWords.SrcVbg(Packed(hw, q, w)) == hw.id(q, w.srcId)
    ensures GateWords.DstVbg(Packed(hw, q, w)) == hw.id(q, w.dstId)
  {
    var h, s, d := hw.home(q), GateWords.BgOf(hw.id(q, w.srcId)), GateWords.BgOf(hw.id(q, w.dstId));
    assert AtHome(hw, q, w.srcId) && AtHome(hw, q, w.dstId);
    GateWords.WordRoundTrip(h.tni, h.x, h.y, h.z, h.a, h.b, h.c, s, d);
  }

  // ---------------------------------------------------------------- remote ends

  /** The remote ends of a gate, by id. */
  datatype Ends = Ends(src: Option<bv64>, dst: Option<bv64>)

  function IdOf(hw: Hardware, r: Remote): Option<bv64> {
    match r
    case Null => None
    case Of(q, n) => Some(hw.id(q, n))
  }

  function EndsOf(hw: Hardware, s: Setting): Ends { Ends(IdOf(hw, s.src), IdOf(hw, s.dst)) }

  /** `packed` holds the received words as their senders packed them. */
  ghost predicate PackedBy(hw: Hardware, received: map<Proc, Word>, packed: map<Proc, bv64>) {
    packed.Keys == received.Keys && forall q :: q in received ==> packed[q] == Packed(hw, q, received[q])
  }

  method ReadSrc(packed: map<Proc, bv64>, q: Proc, ghost hw: Hardware, ghost received: map<Proc, Word>)
    returns (id: Option<bv64>)
    requires ValidHardware(hw) && PackedBy(hw, received, packed) && q in packed
    ensures id == Some(hw.id(q, received[q].srcId))
  {
    PackedNames(hw, q, received[q]);
    id := Some(GateWords.SrcVbg(packed[q]));
  }

  method ReadDst(packed: map<Proc, bv64>, q: Proc, ghost hw: Hardware, ghost received: map<Proc, Word>)
    returns (id: Option<bv64>)
    requires ValidHardware(hw) && PackedBy(hw, received, packed) && q in packed
    ensures id == Some(hw.id(q, received[q].dstId))
  {
    PackedNames(hw, q, received[q]);
    id := Some(GateWords.DstVbg(packed[q]));
  }

  /** The loop that turns received words into remote gate ids: they are the ids of the gates that the words
      of the peers name. */
  method SetRemotes(c: Proc, gs: seq<Gate>, packed: map<Proc, bv64>, ghost hw: Hardware,
                    ghost received: map<Proc, Word>)
    returns (settings: seq<Ends>)
    requires |gs| >= 2 && ValidHardware(hw) && PackedBy(hw, received, packed)
    ensures |settings| == |gs| - 1
    ensures forall i: nat :: i < |settings| ==> settings[i] == EndsOf(hw, SettingOf(c, gs, received, i))
  {
    settings := [];
    var i := 0;
    while i < |gs| - 1
      invariant 0 <= i <= |gs| - 1 && |settings| == i
      invariant forall j: nat :: j < i ==> settings[j] == EndsOf(hw, SettingOf(c, gs, received, j))
    {
      var srcLink := gs[ReceivingEntry(gs, i)].recv;
      var dstLink := gs[i].send;
      var src, dst := None, None;
      if srcLink.Peer? && srcLink.axis < |c| && Other(c, srcLink) in packed {
        src := ReadSrc(packed, Other(c, srcLink), hw, received);
      }
      if dstLink.Peer? && dstLink.axis < |c| && Other(c, dstLink) in packed {
        dst := ReadDst(packed, Other(c, dstLink), hw, received);
      }
      settings := settings + [Ends(src, dst)];
      i := i + 1;
    }
  }

  /** Different gates of the grid have different ids. */
  ghost predicate Allocated(dims: seq<nat>, hw: Hardware) {
    forall p, q, i: nat, k: nat :: NamesGate(dims, Of(p, i)) && NamesGate(dims, Of(q, k)) ==> OneId(hw, p, i, q, k)
  }

  ghost predicate OneId(hw: Hardware, p: Proc, i: nat, q: Proc, k: nat) {
    hw.id(p, i) == hw.id(q, k) ==> p == q && i == k
  }

  /** Whatever a word names is a gate of the process that made it. */
  lemma NamedInGrid(dims: seq<nat>, c: Proc, received: map<Proc, Word>, number: nat)
    requires InGrid(dims, c) && HasNetwork(dims) && Buildable(StepArray(dims, c)) && Exchanged(dims, c, received)
    requires |GateList(dims, c)| >= 2 && number < |GateList(dims, c)| - 1
    ensures var s := SettingOf(c, GateList(dims, c), received, number);
      NamesGate(dims, s.src) && NamesGate(dims, s.dst)
  {}

  ghost predicate NamesGate(dims: seq<nat>, r: Remote) {
    r.Of? ==> InGrid(dims, r.proc) && Buildable(StepArray(dims, r.proc)) && r.number < |GateList(dims, r.proc)|
  }

  lemma IdNames(dims: seq<nat>, hw: Hardware, r: Remote, q: Proc, k: nat)
    requires Allocated(dims, hw) && NamesGate(dims, r) && NamesGate(dims, Of(q, k))
    ensures IdOf(hw, r) == Some(hw.id(q, k)) <==> r == Of(q, k)
  {
    if r.Of? {
      assert OneId(hw, r.proc, r.number, q, k);
    }
  }

  /** Reciprocity of the ids as written: the destination id of `p`'s gate `i` is that of `q`'s gate `k` exactly
      when the source id of `q`'s gate `k` is that of `p`'s gate `i`. */
  lemma IdsReciprocal(dims: seq<nat>, hw: Hardware, p: Proc, q: Proc, fromP: map<Proc, Word>, fromQ: map<Proc, Word>,
                      i: nat, k: nat)
    requires InGrid(dims, p) && InGrid(dims, q) && HasNetwork(dims) && Allocated(dims, hw)
    requires Buildable(StepArray(dims, p)) && Buildable(StepArray(dims, q))
    requires Exchanged(dims, p, fromQ) && Complete(p, GateList(dims, p), fromQ)
    requires Exchanged(dims, q, fromP) && Complete(q, GateList(dims, q), fromP)
    requires |GateList(dims, p)| >= 2 && i < |GateList(dims, p)| - 1
    requires |GateList(dims, q)| >= 2 && k < |GateList(dims, q)| - 1
    ensures EndsOf(hw, SettingOf(p, GateList(dims, p), fromQ, i)).dst == Some(hw.id(q, k)) <==>
            EndsOf(hw, SettingOf(q, GateList(dims, q), fromP, k)).src == Some(hw.id(p, i))
  {
    NamedInGrid(dims, p, fromQ, i);
    NamedInGrid(dims, q, fromP, k);
    IdNames(dims, hw, SettingOf(p, GateList(dims, p), fromQ, i).dst, q, k);
    IdNames(dims, hw, SettingOf(q, GateList(dims, q), fromP, k).src, p, i);
    RemoteReciprocal(dims, p, q, fromP, fromQ, i, k);
  }
}
