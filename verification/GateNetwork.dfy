/** The connected gates as a barrier: gates fire in any order their inputs allow.

    A gate fires once all of its inputs have arrived, as its local and remote settings connect them: the
    previous gate of its own list, unless the local connection is left out, and the gate of the peer that
    sends to it.
 */
module GateNetwork {
  import opened Powers
  import opened Axis
  import opened AxisRounds
  import opened Network
  import opened Optimizer
  import opened Wiring

  // ---------------------------------------------------------------- local connections

  /** The local output of a gate is left unconnected. */
  predicate DstLocalNull(now: seq<Node>, at: nat, nextAt: nat)
    requires at < |now| && 0 < nextAt <= |now|
  {
    now[at].send != NoOp && now[nextAt - 1].send == Unnecessary
  }

  /** The local input of a gate is left unconnected. */
  predicate SrcLocalNull(now: seq<Node>, at: nat)
    requires 0 < at < |now|
  {
    now[at].recv != NoOp && now[at - 1].recv == Unnecessary
  }

  lemma {:induction false} SendNowEither(nodes: seq<Node>, gs: seq<Gate>, lo: nat, k: nat)
    requires Covers(nodes, gs, lo) && k < |nodes|
    ensures SendNow(nodes, gs, k) == nodes[k].send ||
      (SendNow(nodes, gs, k).Peer? && nodes[k].recv.Peer? && !nodes[k].send.Peer?)
    decreases |gs|
  {
    if gs != [] && gs[0].at != k {
      SendNowEither(nodes, gs[1..], gs[0].sendAt + 1, k);
    }
  }

  lemma {:induction false} SendNowGate(nodes: seq<Node>, gs: seq<Gate>, lo: nat, j: nat)
    requires Covers(nodes, gs, lo) && j < |gs|
    ensures gs[j].at < |nodes| && SendNow(nodes, gs, gs[j].at) == gs[j].send
    decreases |gs|
  {
    GateFacts(nodes, gs, lo, j);
    if j > 0 {
      GatesAscend(nodes, gs, lo, 0, j);
      SendNowGate(nodes, gs[1..], gs[0].sendAt + 1, j - 1);
    }
  }

  /** Between two neighbouring gates nothing is received. */
  lemma {:induction false} QuietBetween(nodes: seq<Node>, gs: seq<Gate>, lo: nat, j: nat, k: nat)
    requires Covers(nodes, gs, lo) && j < |gs| && gs[j].at < k < |nodes|
    requires j + 1 < |gs| ==> k < gs[j + 1].at
    ensures !nodes[k].recv.Peer?
    ensures k != gs[j].sendAt ==> !nodes[k].send.Peer?
    decreases |gs|
  {
    if j > 0 {
      QuietBetween(nodes, gs[1..], gs[0].sendAt + 1, j - 1, k);
    } else {
      var rest := gs[1..];
      assert Covers(nodes, rest, gs[0].sendAt + 1);
      if k > gs[0].sendAt {
        if rest == [] {
          assert EmptyRange(nodes, gs[0].sendAt + 1, |nodes|);
        } else {
          assert rest[0] == gs[1];
          assert EmptyRange(nodes, gs[0].sendAt + 1, gs[1].at);
        }
      }
    }
  }

  lemma QuietBefore(nodes: seq<Node>, gs: seq<Gate>, k: nat)
    requires Covers(nodes, gs, 0) && gs != [] && k < gs[0].at
    ensures !nodes[k].recv.Peer?
  {
    assert EmptyRange(nodes, 0, gs[0].at);
  }

  /** Where the marks of an ear lie in the array: between its one send and its one receive. */
  lemma EarMarks(dims: seq<nat>, c: Proc, k: nat) returns (lo: nat, hi: nat)
    requires InGrid(dims, c) && k < Length(dims)
    requires StepArray(dims, c)[k].recv == Unnecessary || StepArray(dims, c)[k].send == Unnecessary
    ensures lo < k < hi < Length(dims)
    ensures var s := StepArray(dims, c);
            s[k].recv == s[k].send == Unnecessary && s[lo].send.Peer? && s[hi].recv.Peer? && EmptyRange(s, lo + 1, hi)
    ensures StepArray(dims, c)[hi - 1].recv == Unnecessary == StepArray(dims, c)[hi - 1].send
  {
    var a, t := AxisOf(dims, |dims|, k);
    NodeAt(dims, c, a, t);
    var n := dims[a];
    Geometry(n);
    InnerZone(n, c[a]);
    lo, hi := Offset(dims, a), Offset(dims, a) + Rounds(n);
    NodeAt(dims, c, a, 0);
    NodeAt(dims, c, a, Rounds(n));
    NodeAt(dims, c, a, Rounds(n) - 1);
    forall m | lo < m < hi ensures Empty(StepArray(dims, c)[m]) {
      NodeAt(dims, c, a, m - lo);
    }
  }

  // A gate after the first is empty only as the end gate.
  predicate Busy(nodes: seq<Node>, at: nat) {
    at < |nodes| && (at == |nodes| - 1 || !Empty(nodes[at]))
  }

  lemma {:induction false} NonEmptyBusy(nodes: seq<Node>, lo: nat, hi: nat, i: nat)
    requires lo <= hi <= |nodes| && i < |NonEmpty(nodes, lo, hi)|
    ensures Busy(nodes, NonEmpty(nodes, lo, hi)[i])
    decreases hi
  {
    if i < |NonEmpty(nodes, lo, hi - 1)| {
      NonEmptyBusy(nodes, lo, hi - 1, i);
    }
  }

  lemma {:induction false} MergeBusy(nodes: seq<Node>, gs: seq<Gate>, j: nat)
    requires forall i :: 1 <= i < |gs| ==> Busy(nodes, gs[i].at)
    requires 1 <= j < |Merge(gs)|
    ensures Busy(nodes, Merge(gs)[j].at)
    decreases |gs|
  {
    var rest := if Mergeable(gs[0], gs[1]) then gs[2..] else gs[1..];
    assert Merge(gs)[j] == Merge(rest)[j - 1];
    if j == 1 {
      MergeFirst(rest);
    } else {
      MergeBusy(nodes, rest, j - 1);
    }
  }

  lemma MergeFirst(gs: seq<Gate>)
    requires gs != []
    ensures Merge(gs) != [] && Merge(gs)[0].at == gs[0].at
  {}

  lemma GateBusy(nodes: seq<Node>, j: nat)
    requires Buildable(nodes) && 1 <= j < |Optimized(nodes)|
    ensures Busy(nodes, Optimized(nodes)[j].at)
  {
    var ks := Kept(nodes);
    var gs := GatesOf(nodes, ks);
    forall i | 1 <= i < |gs| ensures Busy(nodes, gs[i].at) {
      if i - 1 < |NonEmpty(nodes, Start(nodes) + 1, |nodes| - 1)| {
        NonEmptyBusy(nodes, Start(nodes) + 1, |nodes| - 1, i - 1);
        assert ks[i] == NonEmpty(nodes, Start(nodes) + 1, |nodes| - 1)[i - 1];
      }
    }
    MergeBusy(nodes, gs, j);
  }

  /** If the step before a gate carries a mark of an ear, the gate is the ear's receive. */
  lemma MarkBeforeGate(dims: seq<nat>, c: Proc, j: nat) returns (lo: nat)
    requires InGrid(dims, c) && HasNetwork(dims) && Buildable(StepArray(dims, c))
    requires 1 <= j < |GateList(dims, c)| && 0 < GateList(dims, c)[j].at < Length(dims)
    requires var m := StepArray(dims, c)[GateList(dims, c)[j].at - 1]; m.recv == Unnecessary || m.send == Unnecessary
    ensures var s, k := StepArray(dims, c), GateList(dims, c)[j].at;
            s[k].recv.Peer? && s[k - 1].recv == s[k - 1].send == Unnecessary &&
            lo < k && s[lo].send.Peer? && EmptyRange(s, lo + 1, k)
  {
    var k := GateList(dims, c)[j].at;
    var l, hi := EarMarks(dims, c, k - 1);
    lo := l;
    GateBusy(StepArray(dims, c), j);
  }

  /** The gate before an ear's receive is the one that did the ear's send. */
  lemma EarSends(dims: seq<nat>, c: Proc, j: nat, lo: nat)
    requires InGrid(dims, c) && HasNetwork(dims) && Buildable(StepArray(dims, c))
    requires 1 <= j < |GateList(dims, c)| && lo < GateList(dims, c)[j].at < Length(dims)
    requires StepArray(dims, c)[lo].send.Peer? && EmptyRange(StepArray(dims, c), lo + 1, GateList(dims, c)[j].at)
    ensures GateList(dims, c)[j - 1].send.Peer?
  {
    var s, gs := StepArray(dims, c), GateList(dims, c);
    GateInGrid(dims, c, j);
    GateInGrid(dims, c, j - 1);
    var i := SendingGate(s, gs, 0, lo);
    GateFacts(s, gs, 0, i);
    GatesAscend(s, gs, 0, j - 1, j);
    if i > j {
      GatesAscend(s, gs, 0, j, i);
      assert false;
    } else if i < j - 1 {
      GatesAscend(s, gs, 0, i, j - 1);
      GateBusy(s, j - 1);
      assert false;
    }
  }

  /** Both ends of a local connection agree on whether it exists, and it is left out exactly where
      what is received replaces the value. */
  lemma LocalAgree(dims: seq<nat>, c: Proc, j: nat)
    requires InGrid(dims, c) && HasNetwork(dims) && Buildable(StepArray(dims, c))
    requires 1 <= j < |GateList(dims, c)|
    ensures GateList(dims, c)[j - 1].at < GateList(dims, c)[j].at < |StepArray(dims, c)| == Length(dims)
    ensures var s, gs := StepArray(dims, c), GateList(dims, c);
            var now := Rewritten(s, gs);
            SrcLocalNull(now, gs[j].at) == DstLocalNull(now, gs[j - 1].at, gs[j].at) == NoLocalInput(s, gs[j].at)
  {
    var s, gs := StepArray(dims, c), GateList(dims, c);
    GateInGrid(dims, c, j);
    GateInGrid(dims, c, j - 1);
    GatesAscend(s, gs, 0, j - 1, j);
    var k := gs[j].at;
    SendNowGate(s, gs, 0, j - 1);
    SendNowEither(s, gs, 0, k - 1);
    if s[k - 1].recv == Unnecessary || s[k - 1].send == Unnecessary {
      var lo := MarkBeforeGate(dims, c, j);
      EarSends(dims, c, j, lo);
    }
  }

  /** The entries lie at ascending steps of the array. */
  ghost predicate Laid(now: seq<Node>, gs: seq<Gate>) {
    (forall j :: 0 <= j < |gs| ==> gs[j].at < |now|) && forall j, k :: 0 <= j < k < |gs| ==> gs[j].at < gs[k].at
  }

  /** What the local input of entry `j` is connected to. */
  function SrcLocal(now: seq<Node>, gs: seq<Gate>, j: nat): Option<nat>
    requires 1 <= j < |gs| && Laid(now, gs)
  {
    assert gs[0].at < gs[j].at;
    if SrcLocalNull(now, gs[j].at) then None else Some(Number(gs, j - 1))
  }

  /** What the local output of entry `j` is connected to. */
  function DstLocal(now: seq<Node>, gs: seq<Gate>, j: nat): Option<nat>
    requires j + 1 < |gs| && Laid(now, gs)
  {
    assert gs[j].at < gs[j + 1].at;
    if DstLocalNull(now, gs[j].at, gs[j + 1].at) then None else Some(Number(gs, j + 1))
  }

  /** Both ends of every local connection name each other: the output of gate `j` is connected to gate `n`
      exactly if the input of gate `n` is connected to gate `j`. */
  lemma LocalMutual(dims: seq<nat>, c: Proc, now: seq<Node>, gs: seq<Gate>, j: nat, n: nat)
    requires InGrid(dims, c) && HasNetwork(dims) && Buildable(StepArray(dims, c))
    requires gs == GateList(dims, c) && now == Rewritten(StepArray(dims, c), gs) && Laid(now, gs)
    requires j + 1 < |gs| && n + 1 < |gs|
    ensures DstLocal(now, gs, j) == Some(n) <==> SrcLocal(now, gs, ReceivingEntry(gs, n)) == Some(j)
    ensures DstLocal(now, gs, j).Some? ==> DstLocal(now, gs, j).value < |gs| - 1
  {
    LocalAgree(dims, c, j + 1);
    LocalAgree(dims, c, ReceivingEntry(gs, n));
  }

  /** Connecting the gates of one process. The first and the last entry share number 0, which sends as
      the first and receives as the last. */
  method SetLocalVbg(now: seq<Node>, gs: seq<Gate>) returns (src: array<Option<nat>>, dst: array<Option<nat>>)
    requires |gs| >= 2 && Laid(now, gs)
    ensures src.Length == dst.Length == |gs| - 1
    ensures forall i: nat :: i < |gs| - 1 ==> src[i] == SrcLocal(now, gs, ReceivingEntry(gs, i))
    ensures forall i: nat :: i < |gs| - 1 ==> dst[i] == DstLocal(now, gs, i)
  {
    src := new Option<nat>[|gs| - 1](_ => None);
    dst := new Option<nat>[|gs| - 1](_ => None);
    var i := 0;
    while i < |gs|
      invariant 0 <= i <= |gs|
      invariant forall k: nat :: k < |gs| - 1 && ReceivingEntry(gs, k) < i ==>
        src[k] == SrcLocal(now, gs, ReceivingEntry(gs, k))
      invariant forall k: nat :: k < |gs| - 1 && k < i ==> dst[k] == DstLocal(now, gs, k)
    {
      if i == 0 {
        dst[0] := DstLocal(now, gs, 0);
      } else if i + 1 == |gs| {
        src[0] := SrcLocal(now, gs, i);
      } else {
        dst[i] := DstLocal(now, gs, i);
        src[i] := SrcLocal(now, gs, i);
      }
      i := i + 1;
    }
  }

  // ---------------------------------------------------------------- gates

  datatype GateRef = GateRef(proc: Proc, entry: nat)

  /** What has fired, with the value each gate passed on. */
  type Fired<T> = map<GateRef, T>

  ghost predicate IsGate(dims: seq<nat>, g: GateRef) {
    InGrid(dims, g.proc) && Buildable(StepArray(dims, g.proc)) && g.entry < |GateList(dims, g.proc)|
  }

  ghost function GateAt(dims: seq<nat>, g: GateRef): Gate
    requires IsGate(dims, g)
  {
    GateList(dims, g.proc)[g.entry]
  }

  ghost predicate HasLocal(dims: seq<nat>, g: GateRef)
    requires IsGate(dims, g)
  {
    g.entry > 0 && GateAt(dims, g).at < |StepArray(dims, g.proc)| &&
    !NoLocalInput(StepArray(dims, g.proc), GateAt(dims, g).at)
  }

  /** The gate `s` is the remote source of gate `g`. */
  ghost predicate Feeds(dims: seq<nat>, s: GateRef, g: GateRef) {
    IsGate(dims, s) && IsGate(dims, g) &&
    SendsTo(s.proc, GateAt(dims, s), g.proc) && ReceivesFrom(g.proc, GateAt(dims, g), s.proc)
  }

  lemma SourceExists(dims: seq<nat>, g: GateRef) returns (s: GateRef)
    requires HasNetwork(dims) && IsGate(dims, g) && GateAt(dims, g).recv.Peer?
    ensures Feeds(dims, s, g) && GateAt(dims, s).sendAt + 1 == GateAt(dims, g).at
  {
    GateInGrid(dims, g.proc, g.entry);
    var q := Other(g.proc, GateAt(dims, g).recv);
    var e := Served(dims, g.proc, g.entry, q);
    s := GateRef(q, e);
  }

  lemma SourceUnique(dims: seq<nat>, s: GateRef, t: GateRef, g: GateRef)
    requires HasNetwork(dims) && Feeds(dims, s, g) && Feeds(dims, t, g)
    ensures s == t
  {
    PeersUnique(dims, s.proc);
  }

  // ---------------------------------------------------------------- the inputs as they are connected

  /** The gate to which the local input of `g` is connected, as the local settings say. The start gate has no
      local input. */
  ghost function LocalSource(dims: seq<nat>, g: GateRef): Option<GateRef>
    requires IsGate(dims, g) && Laid(Rewritten(StepArray(dims, g.proc), GateList(dims, g.proc)), GateList(dims, g.proc))
  {
    var gs := GateList(dims, g.proc);
    if g.entry == 0 then None
    else
      match SrcLocal(Rewritten(StepArray(dims, g.proc), gs), gs, g.entry)
      case None => None
      case Some(n) => Some(GateRef(g.proc, n))
  }

  /** The gate to which the remote input of `g` is connected, as the words of the exchange say. The start gate
      has no remote input; its number receives as the end gate. */
  ghost function RemoteSource(dims: seq<nat>, g: GateRef): Option<GateRef>
    requires IsGate(dims, g) && |GateList(dims, g.proc)| >= 2
  {
    var gs := GateList(dims, g.proc);
    if g.entry == 0 then None
    else
      match SettingOf(g.proc, gs, ReceivedBy(dims, g.proc), Number(gs, g.entry)).src
      case Null => None
      case Of(q, n) => Some(GateRef(q, n))
  }

  /** The list of a process in the grid can be connected. */
  ghost predicate Connectable(dims: seq<nat>, g: GateRef) {
    IsGate(dims, g) && |GateList(dims, g.proc)| >= 2 &&
    Laid(Rewritten(StepArray(dims, g.proc), GateList(dims, g.proc)), GateList(dims, g.proc))
  }

  lemma AllConnectable(dims: seq<nat>, g: GateRef)
    requires HasNetwork(dims) && IsGate(dims, g)
    ensures Connectable(dims, g)
  {
    var s, gs := StepArray(dims, g.proc), GateList(dims, g.proc);
    ListEnds(s);
    forall j | 0 <= j < |gs| ensures gs[j].at < |s| { GateInGrid(dims, g.proc, j); }
    GateInGrid(dims, g.proc, 0);
    forall j, k | 0 <= j < k < |gs| ensures gs[j].at < gs[k].at {
      GateInGrid(dims, g.proc, j);
      GatesAscend(s, gs, 0, j, k);
    }
  }

  /** The local settings connect a gate to the one before it exactly where there is a local input. */
  lemma LocalConnected(dims: seq<nat>, g: GateRef)
    requires HasNetwork(dims) && Connectable(dims, g)
    ensures LocalSource(dims, g) == if HasLocal(dims, g) then Some(GateRef(g.proc, g.entry - 1)) else None
  {
    if g.entry > 0 {
      LocalAgree(dims, g.proc, g.entry);
    }
  }

  /** The remote settings connect a gate exactly to the gate that feeds it. */
  lemma RemoteConnected(dims: seq<nat>, g: GateRef, s: GateRef)
    requires HasNetwork(dims) && Connectable(dims, g)
    ensures RemoteSource(dims, g).Some? <==> GateAt(dims, g).recv.Peer?
    ensures RemoteSource(dims, g) == Some(s) <==> Feeds(dims, s, g)
  {
    var gs := GateList(dims, g.proc);
    if GateAt(dims, g).recv.Peer? {
      NotFirst(dims, g);
      ExchangeHappens(dims, g.proc);
      SourceNamed(dims, g.proc, ReceivedBy(dims, g.proc), g.entry);
      var t := RemoteSource(dims, g).value;
      assert Feeds(dims, t, g);
      if Feeds(dims, s, g) {
        SourceUnique(dims, s, t, g);
      }
    } else if g.entry > 0 {
      assert ReceivingEntry(gs, Number(gs, g.entry)) == g.entry;
    }
  }

  // ---------------------------------------------------------------- firing

  /** All connected inputs of `g` have arrived. The first gate of a list fires when its process
      enters the barrier. */
  ghost predicate CanFire<T>(dims: seq<nat>, st: Fired<T>, g: GateRef) {
    Connectable(dims, g) && g !in st &&
    (LocalSource(dims, g).Some? ==> LocalSource(dims, g).value in st) &&
    (RemoteSource(dims, g).Some? ==> RemoteSource(dims, g).value in st)
  }

  /** What a gate makes of its inputs: without any it contributes the value of its process. */
  function Combined<T>(op: (T, T) -> T, own: T, local: Option<T>, remote: Option<T>): T {
    match (local, remote)
    case (None, None) => own
    case (Some(a), None) => a
    case (None, Some(b)) => b
    case (Some(a), Some(b)) => op(a, b)
  }

  ghost function Input<T>(st: Fired<T>, source: Option<GateRef>): Option<T>
    requires source.Some? ==> source.value in st
  {
    if source.None? then None else Some(st[source.value])
  }

  /** What `g` passes on when it fires. */
  ghost predicate FiresWith<T>(dims: seq<nat>, op: (T, T) -> T, f: Proc -> T, st: Fired<T>, g: GateRef, v: T)
    requires CanFire(dims, st, g)
  {
    v == Combined(op, f(g.proc), Input(st, LocalSource(dims, g)), Input(st, RemoteSource(dims, g)))
  }

  /** A run: gates firing one after the other from the state where none has fired. */
  ghost predicate IsRun<T>(dims: seq<nat>, op: (T, T) -> T, f: Proc -> T, run: seq<(GateRef, T)>, st: Fired<T>)
    decreases |run|
  {
    if run == [] then st == map[]
    else
      var (g, v) := run[|run| - 1];
      g in st && CanFire(dims, st - {g}, g) && FiresWith(dims, op, f, st - {g}, g, v) && st[g] == v &&
      IsRun(dims, op, f, run[..|run| - 1], st - {g})
  }

  /** Nothing received between two moments, nothing changed. */
  lemma {:induction false} HeldStable<T>(dims: seq<nat>, op: (T, T) -> T, f: Proc -> T, c: Proc, k: nat, m: nat)
    requires InGrid(dims, c) && k <= m <= Length(dims)
    requires forall i :: k <= i < m ==> !StepArray(dims, c)[i].recv.Peer?
    ensures Held(dims, op, f, c, k) == Held(dims, op, f, c, m)
    decreases m
  {
    if k < m {
      HeldStable(dims, op, f, c, k, m - 1);
    }
  }

  /** What a process holds when a gate fires is what its previous gate passed on. */
  lemma HeldBefore<T>(dims: seq<nat>, op: (T, T) -> T, f: Proc -> T, g: GateRef)
    requires HasNetwork(dims) && IsGate(dims, g)
    ensures GateAt(dims, g).at < Length(dims)
    ensures g.entry > 0 ==> GateList(dims, g.proc)[g.entry - 1].at < GateAt(dims, g).at
    ensures Held(dims, op, f, g.proc, GateAt(dims, g).at) ==
      if g.entry == 0 then f(g.proc)
      else Held(dims, op, f, g.proc, GateList(dims, g.proc)[g.entry - 1].at + 1)
  {
    var s, gs := StepArray(dims, g.proc), GateList(dims, g.proc);
    GateInGrid(dims, g.proc, g.entry);
    if g.entry == 0 {
      forall k | 0 <= k < gs[0].at ensures !s[k].recv.Peer? {
        QuietBefore(s, gs, k);
      }
      HeldStable(dims, op, f, g.proc, 0, gs[0].at);
    } else {
      var j := g.entry - 1;
      GateInGrid(dims, g.proc, j);
      GatesAscend(s, gs, 0, j, g.entry);
      forall k | gs[j].at + 1 <= k < gs[g.entry].at ensures !s[k].recv.Peer? {
        QuietBetween(s, gs, 0, j, k);
      }
      HeldStable(dims, op, f, g.proc, gs[j].at + 1, gs[g.entry].at);
    }
  }

  /** What a process sends is what its gate passed on. */
  lemma HeldAtSend<T>(dims: seq<nat>, op: (T, T) -> T, f: Proc -> T, g: GateRef)
    requires HasNetwork(dims) && IsGate(dims, g)
    ensures GateAt(dims, g).at <= GateAt(dims, g).sendAt < Length(dims)
    ensures Held(dims, op, f, g.proc, GateAt(dims, g).sendAt + 1) == Held(dims, op, f, g.proc, GateAt(dims, g).at + 1)
  {
    var s, gs, j := StepArray(dims, g.proc), GateList(dims, g.proc), g.entry;
    GateInGrid(dims, g.proc, j);
    if j + 1 < |gs| {
      GatesAscend(s, gs, 0, j, j + 1);
    }
    forall k | gs[j].at + 1 <= k < gs[j].sendAt + 1 ensures !s[k].recv.Peer? {
      QuietBetween(s, gs, 0, j, k);
    }
    HeldStable(dims, op, f, g.proc, gs[j].at + 1, gs[j].sendAt + 1);
  }

  /** The source of a gate passes on what the step of the gate receives. */
  lemma SourceValue<T>(dims: seq<nat>, op: (T, T) -> T, f: Proc -> T, s: GateRef, g: GateRef)
    requires HasNetwork(dims) && Feeds(dims, s, g)
    ensures GateAt(dims, s).at < GateAt(dims, g).at < Length(dims)
    ensures StepArray(dims, g.proc)[GateAt(dims, g).at].recv == GateAt(dims, g).recv
    ensures s.proc == Other(g.proc, GateAt(dims, g).recv)
    ensures Held(dims, op, f, s.proc, GateAt(dims, g).at) == Held(dims, op, f, s.proc, GateAt(dims, s).at + 1)
  {
    var t := SourceExists(dims, g);
    SourceUnique(dims, s, t, g);
    GateInGrid(dims, g.proc, g.entry);
    HeldAtSend(dims, op, f, s);
  }

  lemma QuietGate<T>(dims: seq<nat>, op: (T, T) -> T, f: Proc -> T, g: GateRef)
    requires HasNetwork(dims) && IsGate(dims, g) && !GateAt(dims, g).recv.Peer?
    ensures GateAt(dims, g).at < Length(dims) && (HasLocal(dims, g) <==> g.entry > 0)
    ensures Held(dims, op, f, g.proc, GateAt(dims, g).at + 1) == Held(dims, op, f, g.proc, GateAt(dims, g).at)
  {
    GateInGrid(dims, g.proc, g.entry);
  }

  lemma NotFirst(dims: seq<nat>, g: GateRef)
    requires HasNetwork(dims) && IsGate(dims, g) && GateAt(dims, g).recv.Peer?
    ensures g.entry > 0
  {
    GateInGrid(dims, g.proc, g.entry);
    if g.entry == 0 {
      ListEnds(StepArray(dims, g.proc));
    }
  }

  lemma BusyGate<T>(dims: seq<nat>, op: (T, T) -> T, f: Proc -> T, g: GateRef, q: Proc)
    requires HasNetwork(dims) && IsGate(dims, g) && ReceivesFrom(g.proc, GateAt(dims, g), q) && g.entry > 0
    ensures GateAt(dims, g).at < Length(dims) && InGrid(dims, q)
    ensures Held(dims, op, f, g.proc, GateAt(dims, g).at + 1) ==
      if HasLocal(dims, g) then
        op(Held(dims, op, f, g.proc, GateAt(dims, g).at), Held(dims, op, f, q, GateAt(dims, g).at))
      else Held(dims, op, f, q, GateAt(dims, g).at)
  {
    GateInGrid(dims, g.proc, g.entry);
    PeersInGrid(dims, g.proc, GateAt(dims, g).at);
  }

  /** What gate `g` passes on: what its process holds after the step of the gate. */
  ghost function PassedOn<T>(dims: seq<nat>, op: (T, T) -> T, f: Proc -> T, g: GateRef): T {
    if IsGate(dims, g) && GateAt(dims, g).at < Length(dims) then Held(dims, op, f, g.proc, GateAt(dims, g).at + 1)
    else f(g.proc)
  }

  lemma PassedQuiet<T>(dims: seq<nat>, op: (T, T) -> T, f: Proc -> T, g: GateRef)
    requires HasNetwork(dims) && IsGate(dims, g) && !GateAt(dims, g).recv.Peer?
    ensures HasLocal(dims, g) <==> g.entry > 0
    ensures PassedOn(dims, op, f, g)
         == if g.entry == 0 then f(g.proc) else PassedOn(dims, op, f, GateRef(g.proc, g.entry - 1))
  {
    QuietGate(dims, op, f, g);
    HeldBefore(dims, op, f, g);
  }

  lemma PassedBusy<T>(dims: seq<nat>, op: (T, T) -> T, f: Proc -> T, g: GateRef, s: GateRef)
    requires HasNetwork(dims) && Feeds(dims, s, g)
    ensures g.entry > 0 && PassedOn(dims, op, f, g) ==
      if HasLocal(dims, g) then op(PassedOn(dims, op, f, GateRef(g.proc, g.entry - 1)), PassedOn(dims, op, f, s))
      else PassedOn(dims, op, f, s)
  {
    NotFirst(dims, g);
    SourceValue(dims, op, f, s, g);
    BusyGate(dims, op, f, g, s.proc);
    HeldBefore(dims, op, f, g);
  }

  ghost function Valued<T>(p: GateRef -> T, source: Option<GateRef>): Option<T> {
    if source.None? then None else Some(p(source.value))
  }

  /** The values `p` obey the equation of gate `g`, and only a start gate is without inputs. */
  ghost predicate Obeys<T>(dims: seq<nat>, op: (T, T) -> T, f: Proc -> T, p: GateRef -> T, g: GateRef) {
    Connectable(dims, g) ==>
      var local, remote := LocalSource(dims, g), RemoteSource(dims, g);
      p(g) == Combined(op, f(g.proc), Valued(p, local), Valued(p, remote)) &&
      (local.None? && remote.None? ==> g.entry == 0)
  }

  ghost predicate AllObey<T>(dims: seq<nat>, op: (T, T) -> T, f: Proc -> T, p: GateRef -> T) {
    forall g :: Obeys(dims, op, f, p, g)
  }

  lemma SolvesQuiet<T>(dims: seq<nat>, op: (T, T) -> T, f: Proc -> T, p: GateRef -> T, g: GateRef)
    requires HasNetwork(dims) && Connectable(dims, g) && !GateAt(dims, g).recv.Peer?
    requires forall h :: p(h) == PassedOn(dims, op, f, h)
    ensures Obeys(dims, op, f, p, g)
  {
    LocalConnected(dims, g);
    RemoteConnected(dims, g, g);
    PassedQuiet(dims, op, f, g);
  }

  lemma SolvesBusy<T>(dims: seq<nat>, op: (T, T) -> T, f: Proc -> T, p: GateRef -> T, g: GateRef)
    requires HasNetwork(dims) && Connectable(dims, g) && GateAt(dims, g).recv.Peer?
    requires forall h :: p(h) == PassedOn(dims, op, f, h)
    ensures Obeys(dims, op, f, p, g)
  {
    LocalConnected(dims, g);
    RemoteConnected(dims, g, g);
    var s := RemoteSource(dims, g).value;
    RemoteConnected(dims, g, s);
    PassedBusy(dims, op, f, g, s);
  }

  /** What the processes hold step by step solves the equations of all gates as they are connected. */
  lemma Solution<T>(dims: seq<nat>, op: (T, T) -> T, f: Proc -> T) returns (p: GateRef -> T)
    requires HasNetwork(dims)
    ensures AllObey(dims, op, f, p) && forall g :: p(g) == PassedOn(dims, op, f, g)
  {
    p := g => PassedOn(dims, op, f, g);
    forall g ensures Obeys(dims, op, f, p, g) {
      if Connectable(dims, g) {
        if GateAt(dims, g).recv.Peer? {
          SolvesBusy(dims, op, f, p, g);
        } else {
          SolvesQuiet(dims, op, f, p, g);
        }
      }
    }
  }

  /** Every gate that has fired passed on its value. */
  ghost predicate ValuesRight<T>(dims: seq<nat>, p: GateRef -> T, st: Fired<T>) {
    forall g :: g in st ==> IsGate(dims, g) && st[g] == p(g)
  }

  lemma FireKeepsValues<T>(dims: seq<nat>, op: (T, T) -> T, f: Proc -> T, p: GateRef -> T, st: Fired<T>, g: GateRef,
                           v: T)
    requires AllObey(dims, op, f, p) && ValuesRight(dims, p, st) && CanFire(dims, st, g) &&
      FiresWith(dims, op, f, st, g, v)
    ensures v == p(g)
  {
    assert Obeys(dims, op, f, p, g);
  }

  lemma {:induction false} RunRight<T>(dims: seq<nat>, op: (T, T) -> T, f: Proc -> T, p: GateRef -> T,
                                       run: seq<(GateRef, T)>, st: Fired<T>)
    requires AllObey(dims, op, f, p) && IsRun(dims, op, f, run, st)
    ensures ValuesRight(dims, p, st)
    decreases |run|
  {
    if run != [] {
      var (g, v) := run[|run| - 1];
      RunRight(dims, op, f, p, run[..|run| - 1], st - {g});
      FireKeepsValues(dims, op, f, p, st - {g}, g, v);
      forall h | h in st ensures IsGate(dims, h) && st[h] == p(h) {
        if h != g {
          assert h in st - {g};
        }
      }
    }
  }

  /** In every run, whatever the order of firing, every gate passes on what its process holds after the
      step of the gate. */
  lemma RunValues<T>(dims: seq<nat>, op: (T, T) -> T, f: Proc -> T, run: seq<(GateRef, T)>, st: Fired<T>, g: GateRef)
    requires HasNetwork(dims) && IsRun(dims, op, f, run, st) && g in st
    ensures IsGate(dims, g) && GateAt(dims, g).at < Length(dims)
    ensures st[g] == Held(dims, op, f, g.proc, GateAt(dims, g).at + 1)
  {
    var p := Solution(dims, op, f);
    RunRight(dims, op, f, p, run, st);
    assert p(g) == PassedOn(dims, op, f, g);
    GateInGrid(dims, g.proc, g.entry);
  }

  // ---------------------------------------------------------------- the barrier

  ghost function EndGate(dims: seq<nat>, c: Proc): GateRef
    requires InGrid(dims, c) && Buildable(StepArray(dims, c)) && |GateList(dims, c)| >= 1
  {
    GateRef(c, |GateList(dims, c)| - 1)
  }

  /** After its last gate a process receives nothing more. */
  lemma HeldAtEnd<T>(dims: seq<nat>, op: (T, T) -> T, f: Proc -> T, c: Proc)
    requires InGrid(dims, c) && HasNetwork(dims) && Buildable(StepArray(dims, c)) && |GateList(dims, c)| >= 1
    ensures GateAt(dims, EndGate(dims, c)).at < Length(dims)
    ensures Held(dims, op, f, c, GateAt(dims, EndGate(dims, c)).at + 1) == Held(dims, op, f, c, Length(dims))
  {
    var s, gs := StepArray(dims, c), GateList(dims, c);
    var j := |gs| - 1;
    GateInGrid(dims, c, j);
    forall k | gs[j].at + 1 <= k < Length(dims) ensures !s[k].recv.Peer? {
      QuietBetween(s, gs, 0, j, k);
    }
    HeldStable(dims, op, f, c, gs[j].at + 1, Length(dims));
  }

  /** In every run, whatever the order of firing, the end gate of every process delivers the reduction
      over the whole grid, each contribution used once. */
  lemma EndDelivers<T(!new)>(dims: seq<nat>, op: (T, T) -> T, f: Proc -> T, run: seq<(GateRef, T)>, st: Fired<T>,
                             c: Proc)
    requires HasNetwork(dims) && AC(op) && IsRun(dims, op, f, run, st)
    requires InGrid(dims, c) && Buildable(StepArray(dims, c)) && |GateList(dims, c)| >= 1 && EndGate(dims, c) in st
    ensures st[EndGate(dims, c)] == GridReduce(dims, op, f, c, |dims|)
  {
    RunValues(dims, op, f, run, st, EndGate(dims, c));
    HeldAtEnd(dims, op, f, c);
    GridExact(dims, op, f, c);
  }

  /** Contributions as multisets of processes. */
  function Plus(a: multiset<Proc>, b: multiset<Proc>): multiset<Proc> { a + b }

  function Single(c: Proc): multiset<Proc> { multiset{c} }

  lemma PlusAC()
    ensures AC(Plus)
  {
    forall a, b, c ensures AssociatesAt(Plus, a, b, c) {
      assert (a + b) + c == a + (b + c);
    }
    forall a, b ensures CommutesAt(Plus, a, b) {
      assert a + b == b + a;
    }
  }

  ghost function CountIn(x: seq<multiset<Proc>>, p: Proc): nat {
    if x == [] then 0 else CountIn(x[..|x| - 1], p) + x[|x| - 1][p]
  }

  lemma {:induction false} CountReduce(x: seq<multiset<Proc>>, p: Proc)
    requires x != []
    ensures Reduce(Plus, x)[p] == CountIn(x, p)
    decreases |x|
  {
    if |x| > 1 {
      CountReduce(x[..|x| - 1], p);
    } else {
      assert x[..0] == [];
    }
  }

  lemma {:induction false} CountOne(x: seq<multiset<Proc>>, p: Proc, y: int)
    requires forall i :: 0 <= i < |x| ==> x[i][p] == if i == y then 1 else 0
    ensures CountIn(x, p) == if 0 <= y < |x| then 1 else 0
    decreases |x|
  {
    if x != [] {
      CountOne(x[..|x| - 1], p, y);
    }
  }

  ghost predicate AgreesFrom(dims: seq<nat>, p: Proc, c: Proc, a: nat) {
    InGrid(dims, p) && InGrid(dims, c) && forall b :: a <= b < |dims| ==> p[b] == c[b]
  }

  /** The reduction over the first `a` coordinates counts exactly the processes that agree on the
      others, each once. */
  lemma {:induction false} CountedOnce(dims: seq<nat>, c: Proc, a: nat, p: Proc)
    requires InGrid(dims, c) && a <= |dims|
    ensures GridReduce(dims, Plus, Single, c, a)[p] == if AgreesFrom(dims, p, c, a) then 1 else 0
    decreases a
  {
    if a == 0 {
      assert AgreesFrom(dims, p, c, 0) ==> p == c;
    } else {
      var line := LineOf(dims, Plus, Single, c, a - 1);
      var y := if InGrid(dims, p) && AgreesFrom(dims, p, c, a) then p[a - 1] else -1;
      forall i | 0 <= i < |line| ensures line[i][p] == if i == y then 1 else 0 {
        CountedOnce(dims, c[a - 1 := i], a - 1, p);
        assert AgreesFrom(dims, p, c[a - 1 := i], a - 1) <==> AgreesFrom(dims, p, c, a) && p[a - 1] == i;
      }
      CountReduce(line, p);
      CountOne(line, p, y);
    }
  }

  /** Whoever contributed to a gate that has fired has entered the barrier. */
  ghost predicate Accounted<T>(contributors: GateRef -> multiset<Proc>, st: Fired<T>) {
    forall g, p :: g in st && p in contributors(g) ==> GateRef(p, 0) in st
  }

  lemma FireAccounted<T>(dims: seq<nat>, contributors: GateRef -> multiset<Proc>, st: Fired<T>, g: GateRef, p: Proc)
    requires AllObey(dims, Plus, Single, contributors) && Accounted(contributors, st) && CanFire(dims, st, g)
    requires p in contributors(g)
    ensures GateRef(p, 0) in st || GateRef(p, 0) == g
  {
    assert Obeys(dims, Plus, Single, contributors, g);
  }

  lemma {:induction false} RunAccounted<T>(dims: seq<nat>, op: (T, T) -> T, f: Proc -> T,
                                           contributors: GateRef -> multiset<Proc>,
                                           run: seq<(GateRef, T)>, st: Fired<T>)
    requires AllObey(dims, Plus, Single, contributors) && IsRun(dims, op, f, run, st)
    ensures Accounted(contributors, st)
    decreases |run|
  {
    if run != [] {
      var (g, v) := run[|run| - 1];
      var was := st - {g};
      RunAccounted(dims, op, f, contributors, run[..|run| - 1], was);
      forall h, p | h in st && p in contributors(h) ensures GateRef(p, 0) in st {
        if h == g {
          FireAccounted(dims, contributors, was, g, p);
        } else {
          assert h in was;
        }
      }
    }
  }

  lemma EndHoldsAll(dims: seq<nat>, c: Proc, p: Proc)
    requires HasNetwork(dims) && InGrid(dims, p) && InGrid(dims, c) && Buildable(StepArray(dims, c)) &&
      |GateList(dims, c)| >= 1
    ensures p in PassedOn(dims, Plus, Single, EndGate(dims, c))
  {
    HeldAtEnd(dims, Plus, Single, c);
    PlusAC();
    GridExact(dims, Plus, Single, c);
    CountedOnce(dims, c, |dims|, p);
  }

  /** Barrier: in every run, when the end gate of any process has fired, every process of the grid has
      entered the barrier. */
  lemma NoneEndsEarly<T>(dims: seq<nat>, op: (T, T) -> T, f: Proc -> T, run: seq<(GateRef, T)>, st: Fired<T>, c: Proc,
                         p: Proc)
    requires HasNetwork(dims) && IsRun(dims, op, f, run, st) && InGrid(dims, p)
    requires InGrid(dims, c) && Buildable(StepArray(dims, c)) && |GateList(dims, c)| >= 1 && EndGate(dims, c) in st
    ensures GateRef(p, 0) in st
  {
    var contributors := Solution(dims, Plus, Single);
    RunAccounted(dims, op, f, contributors, run, st);
    assert contributors(EndGate(dims, c)) == PassedOn(dims, Plus, Single, EndGate(dims, c));
    EndHoldsAll(dims, c, p);
  }

  /** No deadlock: while some gate has not fired, some gate can. The step index falls along every
      connection, so the connections form no cycle. */
  lemma {:induction false} SomeGateCanFire<T>(dims: seq<nat>, st: Fired<T>, g: GateRef) returns (h: GateRef)
    requires HasNetwork(dims) && IsGate(dims, g) && g !in st
    ensures CanFire(dims, st, h)
    decreases GateAt(dims, g).at
  {
    AllConnectable(dims, g);
    var local, remote := LocalSource(dims, g), RemoteSource(dims, g);
    if local.Some? && local.value !in st {
      LocalBefore(dims, g);
      h := SomeGateCanFire(dims, st, local.value);
    } else if remote.Some? && remote.value !in st {
      RemoteBefore(dims, g);
      h := SomeGateCanFire(dims, st, remote.value);
    } else {
      h := g;
    }
  }

  lemma LocalBefore(dims: seq<nat>, g: GateRef)
    requires HasNetwork(dims) && Connectable(dims, g) && LocalSource(dims, g).Some?
    ensures var s := LocalSource(dims, g).value; IsGate(dims, s) && GateAt(dims, s).at < GateAt(dims, g).at
  {
    LocalConnected(dims, g);
    HeldBefore(dims, Plus, Single, g);
  }

  lemma RemoteBefore(dims: seq<nat>, g: GateRef)
    requires HasNetwork(dims) && Connectable(dims, g) && RemoteSource(dims, g).Some?
    ensures var s := RemoteSource(dims, g).value; IsGate(dims, s) && GateAt(dims, s).at < GateAt(dims, g).at
  {
    RemoteConnected(dims, g, RemoteSource(dims, g).value);
    SourceValue(dims, Plus, Single, RemoteSource(dims, g).value, g);
  }
}
