/** The number of gates a process allocates, counted in halves axis by axis, against the length of the
    optimised list. */
module GateCount {
  import opened Powers
  import opened Axis
  import opened AxisRounds
  import opened Network
  import opened Optimizer
  import opened Wiring

  // ---------------------------------------------------------------- counting gates in a trace

  /** Reading receives and sends in order: a receive opens a gate, and so does a send that does not
      directly follow a receive. `open` says whether the last event was a receive. */
  datatype Scan = Scan(count: nat, open: bool)

  function ReadNode(s: Scan, nd: Node): Scan {
    var s1 := if nd.recv.Peer? then Scan(s.count + 1, true) else s;
    if nd.send.Peer? then Scan(s1.count + (if s1.open then 0 else 1), false) else s1
  }

  function ScanTo(nodes: seq<Node>, lo: nat, hi: nat, s: Scan): Scan
    requires lo <= hi <= |nodes|
    decreases hi
  {
    if lo == hi then s else ReadNode(ScanTo(nodes, lo, hi - 1, s), nodes[hi - 1])
  }

  function ScanAll(nodes: seq<Node>, ks: seq<nat>, s: Scan): Scan
    requires forall i :: 0 <= i < |ks| ==> ks[i] < |nodes|
  {
    if ks == [] then s else ScanAll(nodes, ks[1..], ReadNode(s, nodes[ks[0]]))
  }

  lemma {:induction false} ScanSnoc(nodes: seq<Node>, ks: seq<nat>, k: nat, s: Scan)
    requires k < |nodes| && forall i :: 0 <= i < |ks| ==> ks[i] < |nodes|
    ensures ScanAll(nodes, ks + [k], s) == ReadNode(ScanAll(nodes, ks, s), nodes[k])
    decreases |ks|
  {
    if ks == [] {
      assert ks + [k] == [k] && [k][1..] == [];
    } else {
      assert (ks + [k])[1..] == ks[1..] + [k];
      ScanSnoc(nodes, ks[1..], k, ReadNode(s, nodes[ks[0]]));
    }
  }

  /** Empty steps do not matter. */
  lemma {:induction false} ScanNonEmpty(nodes: seq<Node>, lo: nat, hi: nat, s: Scan)
    requires lo <= hi <= |nodes|
    ensures ScanAll(nodes, NonEmpty(nodes, lo, hi), s) == ScanTo(nodes, lo, hi, s)
    decreases hi
  {
    if lo < hi {
      var ks := NonEmpty(nodes, lo, hi - 1);
      ScanNonEmpty(nodes, lo, hi - 1, s);
      if Empty(nodes[hi - 1]) {
        assert NonEmpty(nodes, lo, hi) == ks;
        ReadEmpty(ScanAll(nodes, ks, s), nodes[hi - 1]);
      } else {
        assert NonEmpty(nodes, lo, hi) == ks + [hi - 1];
        ScanSnoc(nodes, ks, hi - 1, s);
      }
    }
  }

  lemma ReadEmpty(s: Scan, nd: Node)
    requires Empty(nd)
    ensures ReadNode(s, nd) == s
  {}

  lemma {:induction false} ScanToSplit(nodes: seq<Node>, lo: nat, hi: nat, s: Scan)
    requires lo < hi <= |nodes|
    ensures ScanTo(nodes, lo, hi, s) == ScanTo(nodes, lo + 1, hi, ReadNode(s, nodes[lo]))
    decreases hi
  {
    if lo + 1 < hi {
      ScanToSplit(nodes, lo, hi - 1, s);
    }
  }

  /** All entries but perhaps the last do something. */
  ghost predicate Dense(nodes: seq<Node>, ks: seq<nat>) {
    (forall i :: 0 <= i < |ks| ==> ks[i] < |nodes|) &&
    forall i :: 0 <= i < |ks| - 1 ==> !Empty(nodes[ks[i]])
  }

  ghost function Idle(nodes: seq<Node>, ks: seq<nat>): nat
    requires Dense(nodes, ks)
  {
    if ks != [] && Empty(nodes[ks[|ks| - 1]]) then 1 else 0
  }

  lemma DenseTail(nodes: seq<Node>, ks: seq<nat>, i: nat)
    requires Dense(nodes, ks) && i < |ks|
    ensures Dense(nodes, ks[i..]) && Idle(nodes, ks[i..]) == Idle(nodes, ks)
    ensures GatesOf(nodes, ks)[i..] == GatesOf(nodes, ks[i..])
  {}

  /** Merging leaves as many gates as the trace opens, and an idle last one. */
  lemma {:induction false} MergeCount(nodes: seq<Node>, ks: seq<nat>, s: Scan)
    requires ks != [] && Dense(nodes, ks) && !s.open
    ensures s.count + |Merge(GatesOf(nodes, ks))| == ScanAll(nodes, ks, s).count + Idle(nodes, ks)
    decreases |ks|
  {
    var gs := GatesOf(nodes, ks);
    var s1 := ReadNode(s, nodes[ks[0]]);
    if |ks| == 1 {
      assert ks[1..] == [];
    } else if Mergeable(gs[0], gs[1]) {
      assert ks[1..][1..] == ks[2..] && ks[1..][0] == ks[1];
      var s2 := ReadNode(s1, nodes[ks[1]]);
      assert ScanAll(nodes, ks, s) == ScanAll(nodes, ks[1..], s1) == ScanAll(nodes, ks[2..], s2);
      if |ks| == 2 {
        assert gs[2..] == [] && ks[2..] == [];
      } else {
        DenseTail(nodes, ks, 2);
        MergeCount(nodes, ks[2..], s2);
      }
    } else {
      DenseTail(nodes, ks, 1);
      var closed := Scan(s1.count, false);
      MergeCount(nodes, ks[1..], closed);
      if s1.open {
        OpenIrrelevant(nodes, ks[1..], s1.count);
      }
    }
  }

  /** Whether a receive came last matters only to a send-only entry. */
  lemma OpenIrrelevant(nodes: seq<Node>, ks: seq<nat>, n: nat)
    requires ks != [] && Dense(nodes, ks)
    requires nodes[ks[0]].recv.Peer? || !nodes[ks[0]].send.Peer?
    ensures ScanAll(nodes, ks, Scan(n, true)).count == ScanAll(nodes, ks, Scan(n, false)).count
  {
    if Empty(nodes[ks[0]]) {
      assert |ks| == 1 && ks[1..] == [];
    }
  }

  // ---------------------------------------------------------------- the trace of an axis

  /** Gates an axis opens by receiving. */
  function Receives(zone: Zone, g: nat): nat {
    match zone
    case Ear => 1
    case Face => g
    case Cheek => g + 1
  }

  /** The scan after the first `t + 1` steps of an axis that began with `s`. */
  function AxisScan(n: nat, zone: Zone, t: nat, s: Scan): Scan {
    var g, f := Log2(n), FirstInner(n);
    var first := s.count + (if s.open then 0 else 1);
    match zone
    case Face =>
      if t < f then s
      else if t < f + g then Scan(first + (t - f), false)
      else Scan(first + g, true)
    case Cheek => if t == 0 then s else if t <= g + 1 then Scan(s.count + t, false) else Scan(s.count + g + 1, false)
    case Ear => if t <= g + 1 then Scan(first, false) else Scan(first + 1, true)
  }

  lemma AxisScanStep(axis: nat, n: nat, p: nat, t: nat, s: Scan)
    requires n >= 2 && p < n && t <= Rounds(n)
    ensures var zone := GetMyZone(Info(n), p);
            ReadNode(if t == 0 then s else AxisScan(n, zone, t - 1, s), AxisNode(axis, n, p, t))
            == AxisScan(n, zone, t, s)
  {
    Geometry(n);
    InnerZone(n, p);
  }

  lemma {:induction false} ScanAxis(dims: seq<nat>, c: Proc, a: nat, t: nat)
    requires InGrid(dims, c) && a < |dims| && dims[a] >= 2 && t <= Rounds(dims[a])
    ensures Offset(dims, a) + t + 1 <= |StepArray(dims, c)|
    ensures ScanTo(StepArray(dims, c), 0, Offset(dims, a) + t + 1, Scan(0, false))
         == AxisScan(dims[a], GetMyZone(Info(dims[a]), c[a]), t,
                     ScanTo(StepArray(dims, c), 0, Offset(dims, a), Scan(0, false)))
    decreases t
  {
    NodeAt(dims, c, a, t);
    if t > 0 {
      ScanAxis(dims, c, a, t - 1);
    }
    AxisScanStep(a, dims[a], c[a], t, ScanTo(StepArray(dims, c), 0, Offset(dims, a), Scan(0, false)));
  }

  // ---------------------------------------------------------------- the builder's count in halves

  function Relay(zone: Zone, g: nat): nat { 2 * Receives(zone, g) }

  function ZoneAt(dims: seq<nat>, c: Proc, a: nat): Zone
    requires InGrid(dims, c) && a < |dims| && dims[a] >= 2
  {
    GetMyZone(Info(dims[a]), c[a])
  }

  /** The zone of the last counted axis among the first `a`. */
  function PrevZone(dims: seq<nat>, c: Proc, a: nat): Option<Zone>
    requires InGrid(dims, c) && a <= |dims|
  {
    if a == 0 then None else if dims[a - 1] >= 2 then Some(ZoneAt(dims, c, a - 1)) else PrevZone(dims, c, a - 1)
  }

  predicate Split(z: Zone) { z != Cheek }

  /** An extra half gate where an axis that ends open meets one that needs its own start, or the reverse. */
  function Joint(prev: Option<Zone>, curr: Zone): nat {
    if prev.Some? && Split(prev.value) != Split(curr) then 1 else 0
  }

  /** The sum over the first `a` axes, the first of them shortened by the start gate. */
  function HalvesTo(dims: seq<nat>, c: Proc, a: nat): nat
    requires InGrid(dims, c) && a <= |dims|
  {
    if a == 0 then 0
    else if dims[a - 1] < 2 then HalvesTo(dims, c, a - 1)
    else
      var z, prev := ZoneAt(dims, c, a - 1), PrevZone(dims, c, a - 1);
      Log2Bounds(dims[a - 1]);
      HalvesTo(dims, c, a - 1) + Joint(prev, z) +
      (Relay(z, Log2(dims[a - 1])) - (if prev.None? && Split(z) then 1 else 0))
  }

  ghost function ScanAt(dims: seq<nat>, c: Proc, a: nat): Scan
    requires InGrid(dims, c) && a <= |dims|
  {
    OffsetMono(dims, a, |dims|);
    ScanTo(StepArray(dims, c), 0, Offset(dims, a), Scan(0, false))
  }

  /** What the gates opened so far and the halves counted so far have to do with each other. */
  ghost predicate Balanced(dims: seq<nat>, c: Proc, a: nat, startsIdle: bool)
    requires InGrid(dims, c) && a <= |dims|
  {
    var s := ScanAt(dims, c, a);
    match PrevZone(dims, c, a)
    case None => s == Scan(0, false) && HalvesTo(dims, c, a) == 0
    case Some(z) =>
      s.open == Split(z) &&
      2 * (s.count + (if startsIdle then 1 else 0)) == HalvesTo(dims, c, a) + 2 + (if Split(z) then 1 else 0)
  }

  lemma AxisScanEnd(n: nat, p: nat, s: Scan)
    requires n >= 2 && p < n
    ensures var zone := GetMyZone(Info(n), p);
            AxisScan(n, zone, Rounds(n), s) ==
            Scan(s.count + Receives(zone, Log2(n)) + (if Split(zone) && !s.open then 1 else 0), Split(zone))
  {
    Geometry(n);
    InnerZone(n, p);
  }

  lemma {:induction false} ScansBalance(dims: seq<nat>, c: Proc, a: nat, startsIdle: bool)
    requires InGrid(dims, c) && a <= |dims|
    requires forall b :: 0 <= b < |dims| && dims[b] >= 2 && Offset(dims, b) == 0 ==>
      startsIdle == (ZoneAt(dims, c, b) == Cheek)
    ensures Balanced(dims, c, a, startsIdle)
    decreases a
  {
    if a > 0 {
      ScansBalance(dims, c, a - 1, startsIdle);
      if dims[a - 1] >= 2 {
        ScanAxis(dims, c, a - 1, Rounds(dims[a - 1]));
        AxisScanEnd(dims[a - 1], c[a - 1], ScanAt(dims, c, a - 1));
        Geometry(dims[a - 1]);
        if PrevZone(dims, c, a - 1).None? {
          NoSteps(dims, c, a - 1);
        }
      }
    }
  }

  lemma {:induction false} NoSteps(dims: seq<nat>, c: Proc, a: nat)
    requires InGrid(dims, c) && a <= |dims|
    ensures PrevZone(dims, c, a).None? <==> Offset(dims, a) == 0
  {
    if a > 0 {
      NoSteps(dims, c, a - 1);
    }
  }

  // ---------------------------------------------------------------- the two counts agree

  const ZERO := Scan(0, false)

  /** The last step before `hi` that is kept. */
  function LastBusy(nodes: seq<Node>, h: nat, hi: nat): (k: nat)
    requires h < hi <= |nodes|
    ensures h <= k < hi
    decreases hi
  {
    if h + 1 == hi then h else if Empty(nodes[hi - 1]) then LastBusy(nodes, h, hi - 1) else hi - 1
  }

  lemma {:induction false} LastBusyKept(nodes: seq<Node>, h: nat, hi: nat)
    requires h < hi <= |nodes|
    ensures var ks := NonEmpty(nodes, h + 1, hi);
            LastBusy(nodes, h, hi) == if ks == [] then h else ks[|ks| - 1]
    decreases hi
  {
    if h + 1 < hi {
      LastBusyKept(nodes, h, hi - 1);
      var ks, was := NonEmpty(nodes, h + 1, hi), NonEmpty(nodes, h + 1, hi - 1);
      if Empty(nodes[hi - 1]) {
        assert ks == was;
      } else {
        assert ks == was + [hi - 1];
      }
    }
  }

  /** The scan is open exactly when the last kept step so far only receives. */
  lemma {:induction false} OpenMeansReceived(nodes: seq<Node>, h: nat, hi: nat)
    requires h < hi <= |nodes|
    ensures var nd := nodes[LastBusy(nodes, h, hi)];
            ScanTo(nodes, h, hi, ZERO).open <==> nd.recv.Peer? && !nd.send.Peer?
    decreases hi
  {
    assert ScanTo(nodes, h, hi, ZERO) == ReadNode(ScanTo(nodes, h, hi - 1, ZERO), nodes[hi - 1]);
    if h + 1 < hi {
      OpenMeansReceived(nodes, h, hi - 1);
    }
  }

  /** A dropped first step does not show in the scan. */
  lemma ScanFromStart(nodes: seq<Node>, hi: nat)
    requires Buildable(nodes) && Start(nodes) < hi <= |nodes|
    ensures ScanTo(nodes, 0, hi, ZERO) == ScanTo(nodes, Start(nodes), hi, ZERO)
  {
    ScanToSplit(nodes, 0, hi, ZERO);
  }

  lemma ScanKept(nodes: seq<Node>)
    requires Buildable(nodes)
    ensures ScanAll(nodes, Kept(nodes), ZERO) == ScanTo(nodes, 0, |nodes|, ZERO)
  {
    var h, last := Start(nodes), |nodes| - 1;
    var mid := NonEmpty(nodes, h + 1, last);
    ScanFromStart(nodes, last);
    ScanFromStart(nodes, |nodes|);
    ScanToSplit(nodes, h, last, ZERO);
    ScanNonEmpty(nodes, h + 1, last, ReadNode(ZERO, nodes[h]));
    assert ([h] + mid)[1..] == mid;
    assert ScanAll(nodes, KeptFront(nodes), ZERO) == ScanTo(nodes, 0, last, ZERO);
    if KeepsLast(nodes) {
      ScanSnoc(nodes, KeptFront(nodes), last, ZERO);
    } else {
      assert Kept(nodes) == KeptFront(nodes);
    }
  }

  lemma {:induction false} NonEmptyDense(nodes: seq<Node>, lo: nat, hi: nat, i: nat)
    requires lo <= hi <= |nodes| && i < |NonEmpty(nodes, lo, hi)|
    ensures !Empty(nodes[NonEmpty(nodes, lo, hi)[i]])
    decreases hi
  {
    if i < |NonEmpty(nodes, lo, hi - 1)| {
      NonEmptyDense(nodes, lo, hi - 1, i);
    }
  }

  lemma KeptDense(nodes: seq<Node>)
    requires Buildable(nodes)
    ensures |Kept(nodes)| >= 2 && Dense(nodes, Kept(nodes)[1..])
    ensures !Empty(nodes[Start(nodes)]) ==> Dense(nodes, Kept(nodes))
    ensures forall i :: 1 <= i < |KeptFront(nodes)| ==> !Empty(nodes[KeptFront(nodes)[i]])
  {
    TwoKept(nodes);
    var ks, mid := Kept(nodes), NonEmpty(nodes, Start(nodes) + 1, |nodes| - 1);
    forall i | 1 <= i < |KeptFront(nodes)| ensures !Empty(nodes[KeptFront(nodes)[i]]) {
      NonEmptyDense(nodes, Start(nodes) + 1, |nodes| - 1, i - 1);
      assert KeptFront(nodes)[i] == mid[i - 1];
    }
  }

  /** The list is as long as the gates the trace opens, plus an idle start and an idle end. */
  lemma ListLength(nodes: seq<Node>)
    requires Buildable(nodes)
    ensures |Kept(nodes)| >= 2 && Dense(nodes, Kept(nodes)[1..])
    ensures |Optimized(nodes)| == ScanTo(nodes, 0, |nodes|, ZERO).count +
      (if Empty(nodes[Start(nodes)]) then 1 else 0) + Idle(nodes, Kept(nodes)[1..])
  {
    var ks := Kept(nodes);
    var gs := GatesOf(nodes, ks);
    KeptDense(nodes);
    ScanKept(nodes);
    if Empty(nodes[Start(nodes)]) {
      assert gs[1..] == GatesOf(nodes, ks[1..]);
      MergeCount(nodes, ks[1..], ZERO);
    } else {
      MergeCount(nodes, ks, ZERO);
    }
  }

  /** The end is idle exactly when the last event is a send. */
  lemma IdleEnd(nodes: seq<Node>)
    requires Buildable(nodes)
    ensures |Kept(nodes)| >= 2 && Dense(nodes, Kept(nodes)[1..])
    ensures Idle(nodes, Kept(nodes)[1..]) == if ScanTo(nodes, 0, |nodes|, ZERO).open then 0 else 1
  {
    var h, last, front := Start(nodes), |nodes| - 1, KeptFront(nodes);
    KeptDense(nodes);
    TwoKept(nodes);
    ScanFromStart(nodes, last);
    OpenMeansReceived(nodes, h, last);
    LastBusyKept(nodes, h, last);
    assert Last(front) == front[|front| - 1];
  }

  lemma StartIdle(dims: seq<nat>, c: Proc, b: nat)
    requires InGrid(dims, c) && HasNetwork(dims) && b < |dims| && dims[b] >= 2 && Offset(dims, b) == 0
    ensures Buildable(StepArray(dims, c))
    ensures Empty(StepArray(dims, c)[Start(StepArray(dims, c))]) <==> ZoneAt(dims, c, b) == Cheek
  {
    ArrayBuildable(dims, c);
    Geometry(dims[b]);
    InnerZone(dims[b], c[b]);
    NodeAt(dims, c, b, 0);
    NodeAt(dims, c, b, 1);
  }

  /** The builder's half-gate total: the last axis is shortened by the end gate. */
  function Halves(dims: seq<nat>, c: Proc): int
    requires InGrid(dims, c)
  {
    var z := PrevZone(dims, c, |dims|);
    HalvesTo(dims, c, |dims|) - (if z.Some? && Split(z.value) then 1 else 0)
  }

  /** The half-gate total is even, and the gates to allocate, counted along the optimised list, are one
      more than half of it. */
  lemma GateFormula(dims: seq<nat>, c: Proc)
    requires InGrid(dims, c) && HasNetwork(dims)
    ensures Buildable(StepArray(dims, c))
    ensures Halves(dims, c) >= 0 && Halves(dims, c) % 2 == 0
    ensures |GateList(dims, c)| - 1 == 1 + Halves(dims, c) / 2
  {
    ArrayBuildable(dims, c);
    var nodes := StepArray(dims, c);
    var idle := Empty(nodes[Start(nodes)]);
    forall b | 0 <= b < |dims| && dims[b] >= 2 && Offset(dims, b) == 0 ensures idle == (ZoneAt(dims, c, b) == Cheek) {
      StartIdle(dims, c, b);
    }
    ScansBalance(dims, c, |dims|, idle);
    NoSteps(dims, c, |dims|);
    ListLength(nodes);
    IdleEnd(nodes);
  }

  // ---------------------------------------------------------------- the counting loops

  datatype RelayCounts = RelayCounts(ear: nat, cheek: nat, face: nat)

  function CountFor(r: RelayCounts, z: Zone): nat {
    match z
    case Ear => r.ear
    case Cheek => r.cheek
    case Face => r.face
  }

  /** The counts of an axis: the first axis is shortened by the start gate, the last by the end gate. */
  function Row(dims: seq<nat>, a: nat, last: bool): RelayCounts
    requires a < |dims| && dims[a] >= 2
  {
    Log2Bounds(dims[a]);
    var off := (if Offset(dims, a) == 0 then 1 else 0) + (if last then 1 else 0);
    RelayCounts(2 - off, 2 * (Log2(dims[a]) + 1), 2 * Log2(dims[a]) - off)
  }

  /** First loop: the counts per axis and zone, with the start gate taken off the first axis. */
  method RelayTable(dims: seq<nat>) returns (table: array<RelayCounts>, tail: nat)
    ensures fresh(table) && table.Length == |dims|
    ensures HasNetwork(dims) ==> tail < |dims| && dims[tail] >= 2
    ensures forall a :: tail < a < |dims| ==> dims[a] < 2
    ensures forall a: nat :: a < |dims| && dims[a] >= 2 ==> table[a] == Row(dims, a, false)
  {
    table := new RelayCounts[|dims|](_ => RelayCounts(0, 0, 0));
    tail := 0;
    var gatesMax := 0;
    var i := 0;
    while i < |dims|
      invariant 0 <= i <= |dims| && gatesMax == Offset(dims, i)
      invariant tail <= i && forall a :: tail < a < i ==> dims[a] < 2
      invariant gatesMax > 0 ==> tail < i && dims[tail] >= 2
      invariant gatesMax == 0 ==> tail == 0 && forall a :: 0 <= a < i ==> dims[a] < 2
      invariant forall a: nat :: a < i && dims[a] >= 2 ==> table[a] == Row(dims, a, false)
    {
      if dims[i] >= 2 {
        var info := SetUpAxis(dims[i]);
        Geometry(dims[i]);
        var g := info.gatesOfPow2;
        table[i] := RelayCounts(2, (g + 1) * 2, g * 2);
        if gatesMax == 0 {
          table[i] := table[i].(ear := table[i].ear - 1, face := table[i].face - 1);
        }
        gatesMax := gatesMax + (info.gates + 1);
        tail := i;
      }
      i := i + 1;
    }
  }

  /** One turn of the second loop. */
  lemma HalvesStep(dims: seq<nat>, c: Proc, a: nat, last: bool)
    requires InGrid(dims, c) && a < |dims| && dims[a] >= 2
    ensures PrevZone(dims, c, a + 1) == Some(ZoneAt(dims, c, a))
    ensures HalvesTo(dims, c, a) + Joint(PrevZone(dims, c, a), ZoneAt(dims, c, a))
          + CountFor(Row(dims, a, last), ZoneAt(dims, c, a))
         == HalvesTo(dims, c, a + 1) - (if last && Split(ZoneAt(dims, c, a)) then 1 else 0)
  {
    NoSteps(dims, c, a);
    Geometry(dims[a]);
  }

  /** Both loops: the half-gate total of a process. */
  method CountHalves(dims: seq<nat>, c: Proc) returns (total: nat)
    requires InGrid(dims, c) && HasNetwork(dims)
    ensures total == Halves(dims, c)
  {
    var table, tail := RelayTable(dims);
    Geometry(dims[tail]);
    table[tail] := table[tail].(ear := table[tail].ear - 1, face := table[tail].face - 1);
    total := 0;
    var prev: Option<Zone> := None;
    var i := 0;
    while i < |dims|
      invariant 0 <= i <= |dims| && prev == PrevZone(dims, c, i)
      invariant forall a: nat :: a < |dims| && dims[a] >= 2 ==> table[a] == Row(dims, a, a == tail)
      invariant total == HalvesTo(dims, c, i) - (if tail < i && Split(ZoneAt(dims, c, tail)) then 1 else 0)
      invariant tail < i ==> prev == Some(ZoneAt(dims, c, tail))
    {
      if dims[i] >= 2 {
        var curr := GetMyZone(Info(dims[i]), c[i]);
        HalvesStep(dims, c, i, i == tail);
        if prev == Some(Ear) || prev == Some(Face) {
          if curr == Cheek { total := total + 1; }
        } else if prev == Some(Cheek) {
          if curr == Ear || curr == Face { total := total + 1; }
        }
        total := total + CountFor(table[i], curr);
        prev := Some(curr);
      }
      i := i + 1;
    }
  }
}
