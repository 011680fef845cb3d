/** One axis of the butterfly network: its zones and the step tables each position builds alone. */
module Axis {
  import opened Powers

  datatype Zone = Ear | Cheek | Face

  /** What the builder records about an axis before it makes the tables. */
  datatype AxisInfo = AxisInfo(
    size: nat,
    gatesOfPow2: nat, // rounds of the inner butterfly
    gates: nat, // rounds including those to and from the ears
    isPow2: bool,
    on: nat, // first position of the inner butterfly
    off: nat) // first position after it

  function Width(n: nat): nat { Pow2(Log2(n)) }

  function On(n: nat): nat
    requires n >= 1
  {
    Log2Bounds(n);
    (n - Width(n)) / 2
  }

  function Off(n: nat): nat
    requires n >= 1
  {
    On(n) + Width(n)
  }

  predicate IsPow2(n: nat) { n == Width(n) }

  /** The number of rounds all positions of an axis take. */
  function Rounds(n: nat): nat { if IsPow2(n) then Log2(n) else Log2(n) + 2 }

  function Info(n: nat): AxisInfo
    requires n >= 2
  {
    AxisInfo(n, Log2(n), Rounds(n), IsPow2(n), On(n), Off(n))
  }

  /** The inner butterfly covers more than half of the axis, so the ears on either side fold into
      disjoint cheeks. */
  lemma Geometry(n: nat)
    requires n >= 2
    ensures Off(n) <= n && On(n) <= n - Off(n) <= On(n) + 1
    ensures 2 * On(n) <= 2 * Off(n) - n <= Off(n)
    ensures IsPow2(n) <==> On(n) == 0 && Off(n) == n
    ensures Log2(n) >= 1 && Rounds(n) >= 1
  {
    Log2Bounds(n);
  }

  /** The set-up loop for one axis that holds more than one node. */
  method SetUpAxis(size: nat) returns (info: AxisInfo)
    requires size >= 2
    ensures info == Info(size)
  {
    var gates, s := 0, size;
    while 1 < s
      invariant s >= 1 && gates + Log2(s) == Log2(size)
      decreases s
    {
      s := s / 2;
      gates := gates + 1;
    }
    var gatesOfPow2 := gates;
    AndPredecessor(size);
    Log2Bounds(size);
    if And(size, size - 1) != 0 {
      var w := Pow2(gatesOfPow2);
      var on := (size - w) / 2;
      info := AxisInfo(size, gatesOfPow2, gates + 2, false, on, on + w);
    } else {
      info := AxisInfo(size, gatesOfPow2, gates, true, 0, size);
    }
  }

  function GetMyZone(info: AxisInfo, p: nat): Zone {
    if p < info.on || info.off <= p then Ear
    else if info.on * 2 <= p < info.size - (info.size - info.off) * 2 then Face
    else Cheek
  }

  /** The position an ear folds into, or the ear a cheek serves. */
  function Mate(n: nat, p: nat): nat
    requires n >= 2 && p < n && GetMyZone(Info(n), p) != Face
  {
    Geometry(n);
    if p < On(n) then p + On(n)
    else if p < 2 * On(n) then p - On(n)
    else if p < Off(n) then p + (n - Off(n))
    else p - (n - Off(n))
  }

  /** The butterfly partner of an inner position in inner round `i`. */
  function Partner(on: nat, gates: nat, p: nat, i: nat): nat
    requires i < gates && on <= p
  {
    Xor(p - on, Pow2(gates - i - 1)) + on
  }

  /** Where position `p` sends in round `t`. */
  function SendAt(n: nat, p: nat, t: nat): Option<nat>
    requires n >= 2 && p < n && t < Rounds(n)
  {
    Geometry(n);
    var zone := GetMyZone(Info(n), p);
    if IsPow2(n) then Some(Partner(0, Log2(n), p, t))
    else if t == 0 then (if zone == Ear then Some(Mate(n, p)) else None)
    else if t == Log2(n) + 1 then (if zone == Cheek then Some(Mate(n, p)) else None)
    else if zone == Ear then None
    else Some(Partner(On(n), Log2(n), p, t - 1))
  }

  /** From where position `p` receives in round `t`. */
  function RecvAt(n: nat, p: nat, t: nat): Option<nat>
    requires n >= 2 && p < n && t < Rounds(n)
  {
    Geometry(n);
    var zone := GetMyZone(Info(n), p);
    if IsPow2(n) then Some(Partner(0, Log2(n), p, t))
    else if t == 0 then (if zone == Cheek then Some(Mate(n, p)) else None)
    else if t == Log2(n) + 1 then (if zone == Ear then Some(Mate(n, p)) else None)
    else if zone == Ear then None
    else Some(Partner(On(n), Log2(n), p, t - 1))
  }

  /** Folding is mutual: an ear and its cheek name each other. */
  lemma MateTwice(n: nat, p: nat)
    requires n >= 2 && p < n && GetMyZone(Info(n), p) != Face
    ensures var q := Mate(n, p);
            q < n && q != p && GetMyZone(Info(n), q) != Face &&
            (GetMyZone(Info(n), q) == Ear <==> GetMyZone(Info(n), p) == Cheek) && Mate(n, q) == p
  {
    Geometry(n);
  }

  lemma PartnerTwice(n: nat, p: nat, i: nat)
    requires n >= 2 && On(n) <= p < Off(n) && i < Log2(n)
    ensures var q := Partner(On(n), Log2(n), p, i);
            On(n) <= q < Off(n) && q != p && Partner(On(n), Log2(n), q, i) == p &&
            q == FlipBit(p - On(n), Log2(n) - i - 1) + On(n)
  {
    var g, x, k := Log2(n), p - On(n), Log2(n) - i - 1;
    XorIsFlip(x, k);
    FlipStays(x, k, g);
    FlipTwice(x, k);
    XorIsFlip(FlipBit(x, k), k);
    FlipBits(x, k, k);
  }

  lemma InnerZone(n: nat, p: nat)
    requires n >= 2 && p < n
    ensures GetMyZone(Info(n), p) == Ear <==> !(On(n) <= p < Off(n))
    ensures IsPow2(n) ==> GetMyZone(Info(n), p) == Face
  {
    Geometry(n);
  }

  /** Independently computed end points agree: in every round, `p` sends to `q` exactly when
      `q` receives from `p`. */
  lemma Reciprocal(n: nat, p: nat, q: nat, t: nat)
    requires n >= 2 && p < n && q < n && t < Rounds(n)
    ensures SendAt(n, p, t) == Some(q) <==> RecvAt(n, q, t) == Some(p)
  {
    SendHasRecv(n, p, t);
    RecvHasSend(n, q, t);
  }

  lemma SendHasRecv(n: nat, p: nat, t: nat)
    requires n >= 2 && p < n && t < Rounds(n)
    ensures SendAt(n, p, t).Some? ==>
      var q := SendAt(n, p, t).value; q < n && q != p && RecvAt(n, q, t) == Some(p)
  {
    Geometry(n);
    InnerZone(n, p);
    if SendAt(n, p, t).Some? {
      if !IsPow2(n) && (t == 0 || t == Log2(n) + 1) {
        MateTwice(n, p);
      } else {
        PartnerTwice(n, p, if IsPow2(n) then t else t - 1);
        InnerZone(n, SendAt(n, p, t).value);
      }
    }
  }

  lemma RecvHasSend(n: nat, q: nat, t: nat)
    requires n >= 2 && q < n && t < Rounds(n)
    ensures RecvAt(n, q, t).Some? ==>
      var p := RecvAt(n, q, t).value; p < n && p != q && SendAt(n, p, t) == Some(q)
  {
    Geometry(n);
    InnerZone(n, q);
    if RecvAt(n, q, t).Some? {
      if !IsPow2(n) && (t == 0 || t == Log2(n) + 1) {
        MateTwice(n, q);
      } else {
        PartnerTwice(n, q, if IsPow2(n) then t else t - 1);
        InnerZone(n, RecvAt(n, q, t).value);
      }
    }
  }

  lemma PartnersDiffer(n: nat, p: nat, i: nat, j: nat)
    requires n >= 2 && On(n) <= p < Off(n) && i < j < Log2(n)
    ensures Partner(On(n), Log2(n), p, i) != Partner(On(n), Log2(n), p, j)
  {
    PartnerTwice(n, p, i);
    PartnerTwice(n, p, j);
    FlipBits(p - On(n), Log2(n) - i - 1, Log2(n) - i - 1);
    FlipBits(p - On(n), Log2(n) - j - 1, Log2(n) - i - 1);
  }

  /** The ear of a cheek is no butterfly partner. */
  lemma MateNoPartner(n: nat, p: nat, i: nat)
    requires n >= 2 && On(n) <= p < Off(n) && i < Log2(n) && GetMyZone(Info(n), p) == Cheek
    ensures Partner(On(n), Log2(n), p, i) != Mate(n, p)
  {
    PartnerTwice(n, p, i);
    MateTwice(n, p);
    InnerZone(n, Mate(n, p));
  }

  /** A position meets each peer at most once as a destination and at most once as a source. */
  lemma PeersDistinct(n: nat, p: nat, t: nat, u: nat)
    requires n >= 2 && p < n && t < u < Rounds(n)
    ensures SendAt(n, p, t).Some? ==> SendAt(n, p, t) != SendAt(n, p, u)
    ensures RecvAt(n, p, t).Some? ==> RecvAt(n, p, t) != RecvAt(n, p, u)
  {
    Geometry(n);
    InnerZone(n, p);
    var i, j := if IsPow2(n) then t else t - 1, if IsPow2(n) then u else u - 1;
    if On(n) <= p < Off(n) {
      if 0 <= i && j < Log2(n) {
        PartnersDiffer(n, p, i, j);
      } else if GetMyZone(Info(n), p) == Cheek {
        if 0 <= i {
          MateNoPartner(n, p, i);
        } else if j < Log2(n) {
          MateNoPartner(n, p, j);
        }
      }
    }
  }

  datatype Outcome = Success | ErrInternal

  /** The butterfly part of both tables, written at the moving positions. */
  method SetPairPowerOfTwo(info: AxisInfo, p: nat, on: nat,
                           send: array<Option<nat>>, recv: array<Option<nat>>, at: nat)
    requires send != recv && on <= p
    requires at + info.gatesOfPow2 <= send.Length && at + info.gatesOfPow2 <= recv.Length
    modifies send, recv
    ensures forall k :: at <= k < at + info.gatesOfPow2 ==>
      send[k] == recv[k] == Some(Partner(on, info.gatesOfPow2, p, k - at))
    ensures forall k :: 0 <= k < send.Length && !(at <= k < at + info.gatesOfPow2) ==> send[k] == old(send[k])
    ensures forall k :: 0 <= k < recv.Length && !(at <= k < at + info.gatesOfPow2) ==> recv[k] == old(recv[k])
  {
    var i := 0;
    while i < info.gatesOfPow2
      invariant 0 <= i <= info.gatesOfPow2
      invariant forall k :: at <= k < at + i ==>
        send[k] == recv[k] == Some(Partner(on, info.gatesOfPow2, p, k - at))
      invariant forall k :: 0 <= k < send.Length && !(at <= k < at + i) ==> send[k] == old(send[k])
      invariant forall k :: 0 <= k < recv.Length && !(at <= k < at + i) ==> recv[k] == old(recv[k])
    {
      send[at + i] := Some(Partner(on, info.gatesOfPow2, p, i));
      recv[at + i] := send[at + i];
      i := i + 1;
    }
  }

  /** An ear's tables between its one send and its one receive. */
  method SetNoopForEar(info: AxisInfo, send: array<Option<nat>>, recv: array<Option<nat>>)
    requires send != recv && send.Length == recv.Length == info.gatesOfPow2 + 2
    modifies send, recv
    ensures send[0] == old(send[0])
    ensures forall k :: 1 <= k < send.Length ==> send[k] == None
    ensures forall k :: 0 <= k < recv.Length - 1 ==> recv[k] == None
  {
    var i := 0;
    while i < info.gatesOfPow2 + 1
      invariant 0 <= i <= info.gatesOfPow2 + 1
      invariant send[0] == old(send[0])
      invariant forall k :: 1 <= k < 1 + i ==> send[k] == None
      invariant forall k :: 0 <= k < i ==> recv[k] == None
    {
      send[1 + i] := None;
      recv[i] := None;
      i := i + 1;
    }
  }

  /** The tables a process fills for its own position on one axis. */
  method MakeSequence(info: AxisInfo, p: nat, send: array<Option<nat>>, recv: array<Option<nat>>)
    returns (rc: Outcome)
    requires info.size >= 2 && info == Info(info.size)
    requires send != recv && send.Length == recv.Length == info.gates
    modifies send, recv
    ensures p < info.size ==> rc == Success
    ensures p < info.size ==> forall t: nat :: t < info.gates ==>
      send[t] == SendAt(info.size, p, t) && recv[t] == RecvAt(info.size, p, t)
    ensures info.size <= p && !info.isPow2 ==> rc == ErrInternal
  {
    Geometry(info.size);
    var last := info.gates - 1;
    if !info.isPow2 {
      if p < info.on {
        send[0] := Some(p + info.on);
        SetNoopForEar(info, send, recv);
        recv[last] := Some(p + info.on);
      } else if p < info.on * 2 {
        send[0] := None;
        recv[0] := Some(p - info.on);
        SetPairPowerOfTwo(info, p, info.on, send, recv, 1);
        send[last] := Some(p - info.on);
        recv[last] := None;
      } else if p < info.off * 2 - info.size {
        send[0] := None;
        recv[0] := None;
        SetPairPowerOfTwo(info, p, info.on, send, recv, 1);
        send[last] := None;
        recv[last] := None;
      } else if p < info.off {
        send[0] := None;
        recv[0] := Some(p + (info.size - info.off));
        SetPairPowerOfTwo(info, p, info.on, send, recv, 1);
        send[last] := Some(p + (info.size - info.off));
        recv[last] := None;
      } else if p < info.size {
        send[0] := Some(p - (info.size - info.off));
        SetNoopForEar(info, send, recv);
        recv[last] := Some(p - (info.size - info.off));
      } else {
        return ErrInternal;
      }
    } else {
      SetPairPowerOfTwo(info, p, 0, send, recv, 0);
    }
    rc := Success;
  }
}
