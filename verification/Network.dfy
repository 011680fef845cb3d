/** The step array of a process: the tables of its axes one after the other, and what the steps
    compute when all processes of a full grid take them. */
module Network {
  import opened Powers
  import opened Axis
  import opened AxisRounds

  /** One end of a step: a peer, given by axis and position on that axis, or no peer. The absence is
      recorded differently for ears, which later tells where local gates are not connected. */
  datatype Link = Peer(axis: nat, pos: nat) | NoOp | Unnecessary

  datatype Node = Node(recv: Link, send: Link)

  /** A process is its coordinates; the axes are in-node, X, Y and Z in that order. */
  type Proc = seq<nat>

  predicate InGrid(dims: seq<nat>, c: Proc) {
    |c| == |dims| && forall a :: 0 <= a < |dims| ==> c[a] < dims[a]
  }

  /** All processes of the grid. */
  ghost function AllProcs(dims: seq<nat>): set<Proc> {
    if dims == [] then {[]}
    else set c, v | c in AllProcs(dims[..|dims| - 1]) && 0 <= v < dims[|dims| - 1] :: c + [v]
  }

  lemma {:induction false} AllInGrid(dims: seq<nat>, c: Proc)
    requires InGrid(dims, c)
    ensures c in AllProcs(dims)
    decreases |dims|
  {
    if dims == [] {
      assert c == [];
    } else {
      var n := |dims| - 1;
      AllInGrid(dims[..n], c[..n]);
      assert c == c[..n] + [c[n]];
    }
  }

  function LinkOf(axis: nat, zone: Zone, o: Option<nat>): Link {
    match o
    case Some(q) => Peer(axis, q)
    case None => if zone == Ear then Unnecessary else NoOp
  }

  /** Step `t` of an axis sends what table entry `t` says and has received what entry `t - 1` says. */
  function AxisNode(axis: nat, n: nat, p: nat, t: nat): Node
    requires n >= 2 && p < n && t <= Rounds(n)
  {
    var zone := GetMyZone(Info(n), p);
    Node(if t == 0 then NoOp else LinkOf(axis, zone, RecvAt(n, p, t - 1)),
         if t == Rounds(n) then NoOp else LinkOf(axis, zone, SendAt(n, p, t)))
  }

  function AxisNodes(axis: nat, n: nat, p: nat): (s: seq<Node>)
    requires n >= 2 && p < n
    ensures |s| == Rounds(n) + 1
    ensures forall t: nat :: t <= Rounds(n) ==> s[t] == AxisNode(axis, n, p, t)
  {
    seq(Rounds(n) + 1, t requires 0 <= t <= Rounds(n) => AxisNode(axis, n, p, t))
  }

  /** Where the steps of axis `a` begin; the same for all processes. */
  function Offset(dims: seq<nat>, a: nat): nat
    requires a <= |dims|
  {
    if a == 0 then 0
    else Offset(dims, a - 1) + (if dims[a - 1] >= 2 then Rounds(dims[a - 1]) + 1 else 0)
  }

  /** The steps of the first `a` axes; an axis with one node has none. */
  function Steps(dims: seq<nat>, c: Proc, a: nat): (s: seq<Node>)
    requires InGrid(dims, c) && a <= |dims|
    ensures |s| == Offset(dims, a)
  {
    if a == 0 then []
    else Steps(dims, c, a - 1) + (if dims[a - 1] >= 2 then AxisNodes(a - 1, dims[a - 1], c[a - 1]) else [])
  }

  function StepArray(dims: seq<nat>, c: Proc): seq<Node>
    requires InGrid(dims, c)
  {
    Steps(dims, c, |dims|)
  }

  function Length(dims: seq<nat>): nat { Offset(dims, |dims|) }

  lemma {:induction false} OffsetMono(dims: seq<nat>, a: nat, b: nat)
    requires a <= b <= |dims|
    ensures Offset(dims, a) <= Offset(dims, b)
    decreases b
  {
    if a < b {
      OffsetMono(dims, a, b - 1);
    }
  }

  lemma {:induction false} StepsPrefix(dims: seq<nat>, c: Proc, a: nat, b: nat)
    requires InGrid(dims, c) && a <= b <= |dims|
    ensures Offset(dims, a) <= Offset(dims, b)
    ensures Steps(dims, c, a) == Steps(dims, c, b)[..Offset(dims, a)]
    decreases b
  {
    if a < b {
      StepsPrefix(dims, c, a, b - 1);
    }
  }

  lemma NodeAt(dims: seq<nat>, c: Proc, a: nat, t: nat)
    requires InGrid(dims, c) && a < |dims| && dims[a] >= 2 && t <= Rounds(dims[a])
    ensures Offset(dims, a) + t < Length(dims)
    ensures StepArray(dims, c)[Offset(dims, a) + t] == AxisNode(a, dims[a], c[a], t)
  {
    StepsPrefix(dims, c, a + 1, |dims|);
    assert Steps(dims, c, a + 1) == Steps(dims, c, a) + AxisNodes(a, dims[a], c[a]);
    assert Steps(dims, c, a + 1)[Offset(dims, a) + t] == AxisNodes(a, dims[a], c[a])[t];
  }

  /** Every step belongs to one axis. */
  lemma {:induction false} AxisOf(dims: seq<nat>, b: nat, k: nat) returns (a: nat, t: nat)
    requires b <= |dims| && k < Offset(dims, b)
    ensures a < b && dims[a] >= 2 && t <= Rounds(dims[a]) && k == Offset(dims, a) + t
    decreases b
  {
    if k < Offset(dims, b - 1) {
      a, t := AxisOf(dims, b - 1, k);
    } else {
      a, t := b - 1, k - Offset(dims, b - 1);
    }
  }

  predicate PeerInGrid(dims: seq<nat>, c: Proc, l: Link) {
    l.Peer? ==> l.axis < |dims| && l.pos < dims[l.axis] && InGrid(dims, c) && l.pos != c[l.axis]
  }

  lemma PeersInGrid(dims: seq<nat>, c: Proc, k: nat)
    requires InGrid(dims, c) && k < Length(dims)
    ensures PeerInGrid(dims, c, StepArray(dims, c)[k].recv) && PeerInGrid(dims, c, StepArray(dims, c)[k].send)
  {
    var a, t := AxisOf(dims, |dims|, k);
    NodeAt(dims, c, a, t);
    if t > 0 { RecvHasSend(dims[a], c[a], t - 1); }
    if t < Rounds(dims[a]) { SendHasRecv(dims[a], c[a], t); }
  }

  function Other(c: Proc, l: Link): Proc
    requires l.Peer? && l.axis < |c|
  {
    c[l.axis := l.pos]
  }

  /** The gate of step `k` has no local input: the step before it is marked as unnecessary. */
  predicate NoLocalInput(nodes: seq<Node>, k: nat)
    requires k < |nodes|
  {
    k > 0 && nodes[k].recv.Peer? && nodes[k - 1].recv == Unnecessary
  }

  /** What process `c` holds after its first `m` steps, when every process takes its steps in order. */
  function Held<T>(dims: seq<nat>, op: (T, T) -> T, f: Proc -> T, c: Proc, m: nat): T
    requires InGrid(dims, c) && m <= Length(dims)
    decreases m
  {
    if m == 0 then f(c)
    else
      var nodes := StepArray(dims, c);
      var own := Held(dims, op, f, c, m - 1);
      if !nodes[m - 1].recv.Peer? then own
      else
        PeersInGrid(dims, c, m - 1);
        var got := Held(dims, op, f, Other(c, nodes[m - 1].recv), m - 1);
        if NoLocalInput(nodes, m - 1) then got else op(own, got)
  }

  /** The reduction over the first `a` coordinates, nested axis by axis. */
  ghost function GridReduce<T>(dims: seq<nat>, op: (T, T) -> T, f: Proc -> T, c: Proc, a: nat): T
    requires InGrid(dims, c) && a <= |dims|
    decreases a, 0
  {
    if a == 0 then f(c) else Reduce(op, LineOf(dims, op, f, c, a - 1))
  }

  ghost function LineOf<T>(dims: seq<nat>, op: (T, T) -> T, f: Proc -> T, c: Proc, a: nat): (s: seq<T>)
    requires InGrid(dims, c) && a < |dims|
    ensures |s| == dims[a] && s != []
    decreases a, 1
  {
    seq(dims[a], y requires 0 <= y < dims[a] => GridReduce(dims, op, f, c[a := y], a))
  }

  /** An ear's only receive is its last, and it is the only one without local input. */
  lemma LocalInput(dims: seq<nat>, c: Proc, a: nat, t: nat)
    requires InGrid(dims, c) && a < |dims| && dims[a] >= 2 && t < Rounds(dims[a])
    ensures Offset(dims, a) + t + 1 < Length(dims)
    ensures RecvAt(dims[a], c[a], t).Some? ==>
      (NoLocalInput(StepArray(dims, c), Offset(dims, a) + t + 1) <==> GetMyZone(Info(dims[a]), c[a]) == Ear)
  {
    NodeAt(dims, c, a, t + 1);
    NodeAt(dims, c, a, t);
    Geometry(dims[a]);
    InnerZone(dims[a], c[a]);
  }

  /** What step `t` of axis `a` does to the value of a process. */
  lemma HeldStep<T>(dims: seq<nat>, op: (T, T) -> T, f: Proc -> T, c: Proc, a: nat, t: nat)
    requires InGrid(dims, c) && a < |dims| && dims[a] >= 2 && t < Rounds(dims[a])
    ensures Offset(dims, a) + t + 2 <= Length(dims)
    ensures RecvAt(dims[a], c[a], t).None? ==>
      Held(dims, op, f, c, Offset(dims, a) + t + 2) == Held(dims, op, f, c, Offset(dims, a) + t + 1)
    ensures RecvAt(dims[a], c[a], t).Some? ==>
      var q := RecvAt(dims[a], c[a], t).value;
      var k := Offset(dims, a) + t + 1;
      q < dims[a] &&
      Held(dims, op, f, c, k + 1) ==
        if GetMyZone(Info(dims[a]), c[a]) == Ear then Held(dims, op, f, c[a := q], k)
        else op(Held(dims, op, f, c, k), Held(dims, op, f, c[a := q], k))
  {
    NodeAt(dims, c, a, t + 1);
    LocalInput(dims, c, a, t);
    RecvHasSend(dims[a], c[a], t);
  }

  /** What the processes along axis `a` through `c` hold after `m` steps. */
  ghost function HeldLine<T>(dims: seq<nat>, op: (T, T) -> T, f: Proc -> T, c: Proc, a: nat, m: nat): (s: seq<T>)
    requires InGrid(dims, c) && a < |dims| && m <= Length(dims)
    ensures |s| == dims[a]
    ensures forall y: nat :: y < dims[a] ==> s[y] == Held(dims, op, f, c[a := y], m)
  {
    seq(dims[a], y requires 0 <= y < dims[a] => Held(dims, op, f, c[a := y], m))
  }

  /** A step of the axis acts on the line as a round does. */
  lemma StepIsRound<T>(dims: seq<nat>, op: (T, T) -> T, f: Proc -> T, c: Proc, a: nat, t: nat, y: nat)
    requires InGrid(dims, c) && a < |dims| && dims[a] >= 2 && t < Rounds(dims[a]) && y < dims[a]
    ensures Offset(dims, a) + t + 2 <= Length(dims)
    ensures Held(dims, op, f, c[a := y], Offset(dims, a) + t + 2)
         == RoundAt(dims[a], op, HeldLine(dims, op, f, c, a, Offset(dims, a) + t + 1), t, y)
  {
    var e := c[a := y];
    HeldStep(dims, op, f, e, a, t);
    if RecvAt(dims[a], y, t).Some? {
      var q := RecvAt(dims[a], y, t).value;
      assert e[a := q] == c[a := q];
    }
  }

  lemma FirstStepIdle<T>(dims: seq<nat>, op: (T, T) -> T, f: Proc -> T, c: Proc, a: nat)
    requires InGrid(dims, c) && a < |dims| && dims[a] >= 2
    ensures Offset(dims, a) + 1 <= Length(dims)
    ensures HeldLine(dims, op, f, c, a, Offset(dims, a) + 1) == HeldLine(dims, op, f, c, a, Offset(dims, a))
  {
    NodeAt(dims, c, a, 0);
    var u, v := HeldLine(dims, op, f, c, a, Offset(dims, a) + 1), HeldLine(dims, op, f, c, a, Offset(dims, a));
    forall y: nat | y < dims[a] ensures u[y] == v[y] {
      NodeAt(dims, c[a := y], a, 0);
    }
  }

  lemma LineRound<T>(dims: seq<nat>, op: (T, T) -> T, f: Proc -> T, c: Proc, a: nat, t: nat)
    requires InGrid(dims, c) && a < |dims| && dims[a] >= 2 && t < Rounds(dims[a])
    ensures Offset(dims, a) + t + 2 <= Length(dims)
    ensures HeldLine(dims, op, f, c, a, Offset(dims, a) + t + 2)
         == Round(dims[a], op, HeldLine(dims, op, f, c, a, Offset(dims, a) + t + 1), t, dims[a])
  {
    NodeAt(dims, c, a, t + 1);
    var k := Offset(dims, a) + t + 1;
    var line := HeldLine(dims, op, f, c, a, k);
    var u, v := HeldLine(dims, op, f, c, a, k + 1), Round(dims[a], op, line, t, dims[a]);
    forall y: nat | y < dims[a] ensures u[y] == v[y] {
      StepIsRound(dims, op, f, c, a, t, y);
      RoundEntry(dims[a], op, line, t, dims[a], y);
    }
  }

  /** Along one axis the steps are the rounds of that axis. */
  lemma {:induction false} LineIsAfter<T>(dims: seq<nat>, op: (T, T) -> T, f: Proc -> T, c: Proc, a: nat, t: nat)
    requires InGrid(dims, c) && a < |dims| && dims[a] >= 2 && t <= Rounds(dims[a])
    ensures Offset(dims, a) + t + 1 <= Length(dims)
    ensures HeldLine(dims, op, f, c, a, Offset(dims, a) + t + 1)
         == After(dims[a], op, HeldLine(dims, op, f, c, a, Offset(dims, a)), t)
    decreases t
  {
    if t == 0 {
      FirstStepIdle(dims, op, f, c, a);
    } else {
      LineIsAfter(dims, op, f, c, a, t - 1);
      LineRound(dims, op, f, c, a, t - 1);
    }
  }

  /** After all rounds of an axis each process on the line holds the reduction of the line. */
  lemma LongAxisReduces<T(!new)>(dims: seq<nat>, op: (T, T) -> T, f: Proc -> T, c: Proc, a: nat)
    requires InGrid(dims, c) && a < |dims| && AC(op) && dims[a] >= 2
    ensures Offset(dims, a) + Rounds(dims[a]) + 1 <= Length(dims)
    ensures Held(dims, op, f, c, Offset(dims, a) + Rounds(dims[a]) + 1)
         == Reduce(op, HeldLine(dims, op, f, c, a, Offset(dims, a)))
  {
    LineIsAfter(dims, op, f, c, a, Rounds(dims[a]));
    ExactlyOnce(dims[a], op, HeldLine(dims, op, f, c, a, Offset(dims, a)), c[a]);
    OwnPlace(dims, op, f, c, a, Offset(dims, a) + Rounds(dims[a]) + 1);
  }

  lemma OwnPlace<T>(dims: seq<nat>, op: (T, T) -> T, f: Proc -> T, c: Proc, a: nat, m: nat)
    requires InGrid(dims, c) && a < |dims| && m <= Length(dims)
    ensures HeldLine(dims, op, f, c, a, m)[c[a]] == Held(dims, op, f, c, m)
  {
    assert c[a := c[a]] == c;
  }

  lemma AxisReduces<T(!new)>(dims: seq<nat>, op: (T, T) -> T, f: Proc -> T, c: Proc, a: nat)
    requires InGrid(dims, c) && a < |dims| && AC(op)
    ensures Offset(dims, a) <= Offset(dims, a + 1) <= Length(dims)
    ensures Held(dims, op, f, c, Offset(dims, a + 1)) == Reduce(op, HeldLine(dims, op, f, c, a, Offset(dims, a)))
  {
    OffsetMono(dims, a, a + 1);
    OffsetMono(dims, a + 1, |dims|);
    if dims[a] >= 2 {
      LongAxisReduces(dims, op, f, c, a);
    } else {
      OwnPlace(dims, op, f, c, a, Offset(dims, a));
    }
  }

  /** Composition: after the steps of the first `a` axes every process holds the reduction over
      those coordinates, each contribution used once. */
  lemma {:induction false} AxesCompose<T(!new)>(dims: seq<nat>, op: (T, T) -> T, f: Proc -> T, c: Proc, a: nat)
    requires InGrid(dims, c) && a <= |dims| && AC(op)
    ensures Offset(dims, a) <= Length(dims)
    ensures Held(dims, op, f, c, Offset(dims, a)) == GridReduce(dims, op, f, c, a)
    decreases a
  {
    if a > 0 {
      AxisReduces(dims, op, f, c, a - 1);
      var line, held := LineOf(dims, op, f, c, a - 1), HeldLine(dims, op, f, c, a - 1, Offset(dims, a - 1));
      forall y: nat | y < dims[a - 1] ensures line[y] == held[y] {
        AxesCompose(dims, op, f, c[a - 1 := y], a - 1);
      }
      assert line == held;
    }
  }

  /** Every process of a full grid of any dimensions ends with the reduction over the whole grid. */
  lemma GridExact<T(!new)>(dims: seq<nat>, op: (T, T) -> T, f: Proc -> T, c: Proc)
    requires InGrid(dims, c) && AC(op)
    ensures Held(dims, op, f, c, Length(dims)) == GridReduce(dims, op, f, c, |dims|)
  {
    AxesCompose(dims, op, f, c, |dims|);
  }
}
