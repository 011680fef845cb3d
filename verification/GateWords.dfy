/** The packed words that carry gate ids between processes, and the ids as the hardware library numbers them:
    interface (3 bits), disable bit, node coordinates (28 bits), and the gates in the low half. */
module GateWords {

  /** The interface and the physical coordinates of the node of a process. */
  predicate Ranges(tni: bv64, x: bv64, y: bv64, z: bv64, a: bv64, b: bv64, c: bv64) {
    tni < 8 && x < 256 && y < 256 && z < 256 && a < 2 && b < 4 && c < 2
  }

  /** The coordinates as one number. */
  function Coords(x: bv64, y: bv64, z: bv64, a: bv64, b: bv64, c: bv64): bv64 {
    (c << 27) | (b << 25) | (a << 24) | (z << 16) | (y << 8) | x
  }

  /** A gate id: interface, node coordinates, gate. */
  function VbgId(tni: bv64, x: bv64, y: bv64, z: bv64, a: bv64, b: bv64, c: bv64, bg: bv64): bv64 {
    (tni << 61) | (Coords(x, y, z, a, b, c) << 32) | bg
  }

  /** The word with source and destination gate that is exchanged. */
  function PackWord(tni: bv64, x: bv64, y: bv64, z: bv64, a: bv64, b: bv64, c: bv64,
                    srcBg: bv64, dstBg: bv64): bv64 {
    (tni << 61) | (c << 59) | (b << 57) | (a << 56) | (z << 48) | (y << 40) | (x << 32) | (srcBg << 8) | dstBg
  }

  function SrcVbg(w: bv64): bv64 { (w & 0xEFFF_FFFF_0000_0000) | ((w & 0xFF00) >> 8) }

  function DstVbg(w: bv64): bv64 { (w & 0xEFFF_FFFF_0000_0000) | (w & 0xFF) }

  function BgOf(id: bv64): bv64 { id & 0x3F }

  /** A word or an id has these fields in its upper half, and is not marked as disabled. */
  predicate OnHome(w: bv64, tni: bv64, x: bv64, y: bv64, z: bv64, a: bv64, b: bv64, c: bv64) {
    w >> 61 == tni && (w >> 60) & 1 == 0 && (w >> 59) & 1 == c && (w >> 57) & 3 == b && (w >> 56) & 1 == a &&
    (w >> 48) & 0xFF == z && (w >> 40) & 0xFF == y && (w >> 32) & 0xFF == x
  }

  lemma IdIsWord(tni: bv64, x: bv64, y: bv64, z: bv64, a: bv64, b: bv64, c: bv64, bg: bv64)
    ensures VbgId(tni, x, y, z, a, b, c, bg) == PackWord(tni, x, y, z, a, b, c, 0, bg)
  {}

  lemma CoordsRead(w: bv64, tni: bv64, x: bv64, y: bv64, z: bv64, a: bv64, b: bv64, c: bv64)
    requires OnHome(w, tni, x, y, z, a, b, c)
    ensures (w >> 32) & 0xFFF_FFFF == Coords(x, y, z, a, b, c)
  {}

  lemma LowRead(tni: bv64, x: bv64, y: bv64, z: bv64, a: bv64, b: bv64, c: bv64, bg: bv64)
    requires bg < 64
    ensures PackWord(tni, x, y, z, a, b, c, 0, bg) & 0xFFFF_FFFF == bg
  {}

  /** Every field can be read back from a gate id, and nothing else is in it. */
  lemma IdFields(tni: bv64, x: bv64, y: bv64, z: bv64, a: bv64, b: bv64, c: bv64, bg: bv64, id: bv64)
    requires Ranges(tni, x, y, z, a, b, c) && bg < 64 && id == VbgId(tni, x, y, z, a, b, c, bg)
    ensures OnHome(id, tni, x, y, z, a, b, c) && id & 0xFFFF_FFFF == bg && BgOf(id) == bg
    ensures (id >> 32) & 0xFFF_FFFF == Coords(x, y, z, a, b, c)
  {
    IdIsWord(tni, x, y, z, a, b, c, bg);
    WordFields(tni, x, y, z, a, b, c, 0, bg);
    LowRead(tni, x, y, z, a, b, c, bg);
    CoordsRead(id, tni, x, y, z, a, b, c);
  }

  /** Every field can be read back from a word: bits 8 to 15 are the source gate, bits 0 to 7 the destination
      gate, and bits 16 to 31 are clear. */
  lemma WordFields(tni: bv64, x: bv64, y: bv64, z: bv64, a: bv64, b: bv64, c: bv64,
                   srcBg: bv64, dstBg: bv64)
    requires Ranges(tni, x, y, z, a, b, c) && srcBg < 64 && dstBg < 64
    ensures var w := PackWord(tni, x, y, z, a, b, c, srcBg, dstBg);
      OnHome(w, tni, x, y, z, a, b, c) && (w >> 8) & 0xFF == srcBg && w & 0xFF == dstBg && (w >> 16) & 0xFFFF == 0
  {}

  /** Both gate ids survive the exchange, and an enabled word never carries the disable bit. */
  lemma WordRoundTrip(tni: bv64, x: bv64, y: bv64, z: bv64, a: bv64, b: bv64, c: bv64,
                      srcBg: bv64, dstBg: bv64)
    requires Ranges(tni, x, y, z, a, b, c) && srcBg < 64 && dstBg < 64
    ensures var w := PackWord(tni, x, y, z, a, b, c, srcBg, dstBg);
      SrcVbg(w) == VbgId(tni, x, y, z, a, b, c, srcBg) && DstVbg(w) == VbgId(tni, x, y, z, a, b, c, dstBg) &&
      w & 0x1000_0000_0000_0000 == 0
  {}
}
