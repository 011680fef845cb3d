/** The grid with the positions that sorting gives: every line has its own order, and parallel lines may be
    ordered differently. The steps of a process follow its positions, its peers are found in the arrays of
    its lines, and the result is still the reduction over the whole grid. */
module Placement {
  import opened Axis
  import opened AxisRounds
  import opened Network

  // ---------------------------------------------------------------- reductions do not depend on order

  function Without<T>(x: seq<T>, j: nat): (r: seq<T>)
    requires j < |x|
    ensures |r| == |x| - 1
  {
    x[..j] + x[j + 1..]
  }

  /** Any element can be taken out and combined last. */
  lemma {:induction false} ReduceExtract<T(!new)>(op: (T, T) -> T, x: seq<T>, j: nat)
    requires AC(op) && |x| >= 2 && j < |x|
    ensures Reduce(op, x) == op(Reduce(op, Without(x, j)), x[j])
    decreases |x|
  {
    var n := |x| - 1;
    var front, last := x[..n], x[n];
    if j == n {
      assert Without(x, j) == front;
    } else if |x| == 2 {
      assert Without(x, j) == [last];
      assert CommutesAt(op, x[0], last);
    } else {
      ReduceExtract(op, front, j);
      var rest := Without(front, j);
      assert Without(x, j)[..n - 1] == rest && Without(x, j)[n - 1] == last;
      SwapLast(op, Reduce(op, rest), x[j], last);
    }
  }

  lemma SwapLast<T(!new)>(op: (T, T) -> T, a: T, b: T, c: T)
    requires AC(op)
    ensures op(op(a, b), c) == op(op(a, c), b)
  {
    assert AssociatesAt(op, a, b, c) && CommutesAt(op, b, c) && AssociatesAt(op, a, c, b);
  }

  /** `s` lists the numbers below `n`, each once. */
  ghost predicate Orders(n: nat, s: seq<nat>) {
    |s| == n && (forall y :: 0 <= y < n ==> s[y] < n) && (forall v :: 0 <= v < n ==> v in s) &&
    forall y, z :: 0 <= y < z < n ==> s[y] != s[z]
  }

  lemma OrdersWithout(n: nat, s: seq<nat>, j: nat)
    requires n > 0 && Orders(n, s) && j < n && s[j] == n - 1
    ensures Orders(n - 1, Without(s, j))
  {
    var r := Without(s, j);
    forall v | 0 <= v < n - 1 ensures v in r {
      assert v in s;
      var y :| 0 <= y < n && s[y] == v;
      assert r[if y < j then y else y - 1] == v;
    }
  }

  lemma {:induction false} ReducePermuted<T(!new)>(op: (T, T) -> T, x: seq<T>, y: seq<T>, s: seq<nat>)
    requires AC(op) && x != [] && |y| == |x| && Orders(|x|, s) && forall i :: 0 <= i < |y| ==> y[i] == x[s[i]]
    ensures Reduce(op, y) == Reduce(op, x)
    decreases |x|
  {
    var n := |x| - 1;
    assert n in s;
    var j :| 0 <= j <= n && s[j] == n;
    if n > 0 {
      var y', s' := Without(y, j), Without(s, j);
      OrdersWithout(|x|, s, j);
      forall i | 0 <= i < n ensures y'[i] == x[..n][s'[i]] {
        assert y'[i] == y[if i < j then i else i + 1] && s'[i] == s[if i < j then i else i + 1];
      }
      ReducePermuted(op, x[..n], y', s');
      ReduceExtract(op, y, j);
    }
  }

  // ---------------------------------------------------------------- layouts

  /** The arrays of all lines: `who(c, a, y)` is the coordinate at position `y` of the line through `c` along
      axis `a`, and `pos(c, a)` is the position at which `c` finds itself in it. */
  datatype Layout = Layout(who: (Proc, nat, nat) -> nat, pos: (Proc, nat) -> nat)

  function MovedTo(c: Proc, a: nat, v: nat): Proc
    requires a < |c|
  {
    c[a := v]
  }

  /** A process finds itself in the array of its line. */
  ghost predicate FindsItself(dims: seq<nat>, l: Layout, c: Proc, a: nat)
    requires InGrid(dims, c) && a < |dims|
  {
    l.pos(c, a) < dims[a] && l.who(c, a, l.pos(c, a)) == c[a]
  }

  /** Whoever is at a position of the array finds itself there. */
  ghost predicate FoundAt(dims: seq<nat>, l: Layout, c: Proc, a: nat, y: nat)
    requires InGrid(dims, c) && a < |dims|
  {
    l.who(c, a, y) < dims[a] && l.pos(MovedTo(c, a, l.who(c, a, y)), a) == y
  }

  /** Processes of one line have the same array. */
  ghost predicate SameArray(dims: seq<nat>, l: Layout, c: Proc, a: nat, v: nat, y: nat)
    requires InGrid(dims, c) && a < |dims|
  {
    l.who(MovedTo(c, a, v), a, y) == l.who(c, a, y)
  }

  ghost predicate ValidLayout(dims: seq<nat>, l: Layout) {
    (forall c, a: nat :: InGrid(dims, c) && a < |dims| ==> FindsItself(dims, l, c, a)) &&
    (forall c, a: nat, y: nat :: InGrid(dims, c) && a < |dims| && y < dims[a] ==> FoundAt(dims, l, c, a, y)) &&
    (forall c, a: nat, v: nat, y: nat ::
      InGrid(dims, c) && a < |dims| && v < dims[a] && y < dims[a] ==> SameArray(dims, l, c, a, v, y))
  }

  ghost function PositionOn(dims: seq<nat>, l: Layout, c: Proc, a: nat): (p: nat)
    requires InGrid(dims, c) && ValidLayout(dims, l) && a < |dims|
    ensures p == l.pos(c, a) < dims[a]
  {
    assert FindsItself(dims, l, c, a);
    l.pos(c, a)
  }

  /** The positions of `c` on all its lines. */
  ghost function Positions(dims: seq<nat>, l: Layout, c: Proc): (p: Proc)
    requires InGrid(dims, c) && ValidLayout(dims, l)
    ensures InGrid(dims, p) && forall a: nat :: a < |dims| ==> p[a] == l.pos(c, a)
  {
    seq(|dims|, a requires 0 <= a < |dims| => PositionOn(dims, l, c, a))
  }

  /** The process at position `y` of the line through `c` along `a`. */
  ghost function ProcAt(dims: seq<nat>, l: Layout, c: Proc, a: nat, y: nat): (q: Proc)
    requires InGrid(dims, c) && ValidLayout(dims, l) && a < |dims| && y < dims[a]
    ensures InGrid(dims, q)
  {
    assert FoundAt(dims, l, c, a, y);
    MovedTo(c, a, l.who(c, a, y))
  }

  lemma ProcAtPosition(dims: seq<nat>, l: Layout, c: Proc, a: nat, y: nat)
    requires InGrid(dims, c) && ValidLayout(dims, l) && a < |dims| && y < dims[a]
    ensures l.pos(ProcAt(dims, l, c, a, y), a) == y
  {
    assert FoundAt(dims, l, c, a, y);
  }

  lemma ProcAtTwice(dims: seq<nat>, l: Layout, c: Proc, a: nat, y: nat, z: nat)
    requires InGrid(dims, c) && ValidLayout(dims, l) && a < |dims| && y < dims[a] && z < dims[a]
    ensures ProcAt(dims, l, ProcAt(dims, l, c, a, y), a, z) == ProcAt(dims, l, c, a, z)
  {
    assert FoundAt(dims, l, c, a, y);
    var v := l.who(c, a, y);
    assert SameArray(dims, l, c, a, v, z);
    assert MovedTo(MovedTo(c, a, v), a, l.who(c, a, z)) == MovedTo(c, a, l.who(c, a, z));
  }

  lemma ProcAtOwn(dims: seq<nat>, l: Layout, c: Proc, a: nat)
    requires InGrid(dims, c) && ValidLayout(dims, l) && a < |dims|
    ensures l.pos(c, a) < dims[a] && ProcAt(dims, l, c, a, l.pos(c, a)) == c
  {
    assert FindsItself(dims, l, c, a);
    assert c[a := c[a]] == c;
  }

  /** The array of a line lists every coordinate of the axis once. */
  lemma ArrayOrders(dims: seq<nat>, l: Layout, c: Proc, a: nat) returns (s: seq<nat>)
    requires InGrid(dims, c) && ValidLayout(dims, l) && a < |dims|
    ensures Orders(dims[a], s) && forall y: nat :: y < dims[a] ==> s[y] == l.who(c, a, y)
  {
    s := seq(dims[a], y requires 0 <= y < dims[a] => l.who(c, a, y));
    forall y: nat | y < dims[a] ensures s[y] < dims[a] { assert FoundAt(dims, l, c, a, y); }
    forall y: nat, z: nat | y < z < dims[a] ensures s[y] != s[z] {
      assert FoundAt(dims, l, c, a, y) && FoundAt(dims, l, c, a, z);
    }
    forall v: nat | v < dims[a] ensures v in s {
      var q := MovedTo(c, a, v);
      assert FindsItself(dims, l, q, a);
      assert SameArray(dims, l, c, a, v, l.pos(q, a));
      assert s[l.pos(q, a)] == v;
    }
  }

  // ---------------------------------------------------------------- the steps

  /** What process `c` holds after its first `m` steps. */
  ghost function Held<T>(dims: seq<nat>, l: Layout, op: (T, T) -> T, f: Proc -> T, c: Proc, m: nat): T
    requires InGrid(dims, c) && ValidLayout(dims, l) && m <= Length(dims)
    decreases m
  {
    if m == 0 then f(c)
    else
      var p := Positions(dims, l, c);
      var nodes := StepArray(dims, p);
      var own := Held(dims, l, op, f, c, m - 1);
      if !nodes[m - 1].recv.Peer? then own
      else
        PeersInGrid(dims, p, m - 1);
        var peer := nodes[m - 1].recv;
        var got := Held(dims, l, op, f, ProcAt(dims, l, c, peer.axis, peer.pos), m - 1);
        if NoLocalInput(nodes, m - 1) then got else op(own, got)
  }

  // ---------------------------------------------------------------- any run of the steps

  /** Values `h(m, c)` of process `c` after `m` steps that follow the step of `c` with index `m`. */
  ghost predicate StepFollows<T>(dims: seq<nat>, l: Layout, op: (T, T) -> T, h: (nat, Proc) -> T, c: Proc, m: nat)
    requires InGrid(dims, c) && ValidLayout(dims, l) && m < Length(dims)
  {
    var nodes := StepArray(dims, Positions(dims, l, c));
    var peer := nodes[m].recv;
    PeersInGrid(dims, Positions(dims, l, c), m);
    h(m + 1, c) ==
      if !peer.Peer? then h(m, c)
      else if NoLocalInput(nodes, m) then h(m, ProcAt(dims, l, c, peer.axis, peer.pos))
      else op(h(m, c), h(m, ProcAt(dims, l, c, peer.axis, peer.pos)))
  }

  ghost predicate Follows<T>(dims: seq<nat>, l: Layout, op: (T, T) -> T, h: (nat, Proc) -> T) {
    ValidLayout(dims, l) &&
    forall c, m: nat :: InGrid(dims, c) && m < Length(dims) ==> StepFollows(dims, l, op, h, c, m)
  }

  /** The values along a line, by position. */
  ghost function Line<T>(dims: seq<nat>, l: Layout, h: (nat, Proc) -> T, c: Proc, a: nat, m: nat): (s: seq<T>)
    requires InGrid(dims, c) && ValidLayout(dims, l) && a < |dims|
    ensures |s| == dims[a] && forall y: nat :: y < dims[a] ==> s[y] == h(m, ProcAt(dims, l, c, a, y))
  {
    seq(dims[a], y requires 0 <= y < dims[a] => h(m, ProcAt(dims, l, c, a, y)))
  }

  /** A step as its process sees it: without a peer the value stays, with one it is replaced or combined. */
  lemma FollowsStep<T>(dims: seq<nat>, l: Layout, op: (T, T) -> T, h: (nat, Proc) -> T, c: Proc, k: nat)
    requires Follows(dims, l, op, h) && InGrid(dims, c) && k < Length(dims)
    ensures var nodes := StepArray(dims, Positions(dims, l, c));
      PeerInGrid(dims, Positions(dims, l, c), nodes[k].recv) &&
      h(k + 1, c) ==
        if !nodes[k].recv.Peer? then h(k, c)
        else if NoLocalInput(nodes, k) then h(k, ProcAt(dims, l, c, nodes[k].recv.axis, nodes[k].recv.pos))
        else op(h(k, c), h(k, ProcAt(dims, l, c, nodes[k].recv.axis, nodes[k].recv.pos)))
  {
    assert StepFollows(dims, l, op, h, c, k);
    PeersInGrid(dims, Positions(dims, l, c), k);
  }

  lemma AxisStep<T>(dims: seq<nat>, l: Layout, op: (T, T) -> T, h: (nat, Proc) -> T, c: Proc, a: nat, t: nat, k: nat,
                    p: nat)
    requires Follows(dims, l, op, h) && InGrid(dims, c) && a < |dims| && dims[a] >= 2 && t < Rounds(dims[a])
    requires k == Offset(dims, a) + t + 1 < Length(dims) && p == l.pos(c, a) < dims[a]
    ensures RecvAt(dims[a], p, t).None? ==> h(k + 1, c) == h(k, c)
    ensures RecvAt(dims[a], p, t).Some? ==>
      var q := RecvAt(dims[a], p, t).value;
      q < dims[a] &&
      h(k + 1, c) ==
        if GetMyZone(Info(dims[a]), p) == Ear then h(k, ProcAt(dims, l, c, a, q))
        else op(h(k, c), h(k, ProcAt(dims, l, c, a, q)))
  {
    FollowsStep(dims, l, op, h, c, k);
    ReceiveStep(dims, Positions(dims, l, c), a, t);
  }

  /** What step `t + 1` of axis `a` receives at the positions `ps`. */
  lemma ReceiveStep(dims: seq<nat>, ps: Proc, a: nat, t: nat)
    requires InGrid(dims, ps) && a < |dims| && dims[a] >= 2 && t < Rounds(dims[a])
    ensures Offset(dims, a) + t + 1 < Length(dims)
    ensures var nodes, k := StepArray(dims, ps), Offset(dims, a) + t + 1;
      var q := RecvAt(dims[a], ps[a], t);
      if q.None? then !nodes[k].recv.Peer?
      else
        q.value < dims[a] && nodes[k].recv == Peer(a, q.value) &&
        (NoLocalInput(nodes, k) <==> GetMyZone(Info(dims[a]), ps[a]) == Ear)
  {
    NodeAt(dims, ps, a, t + 1);
    LocalInput(dims, ps, a, t);
    RecvHasSend(dims[a], ps[a], t);
  }

  lemma StepIsRound<T>(dims: seq<nat>, l: Layout, op: (T, T) -> T, h: (nat, Proc) -> T, c: Proc, a: nat, t: nat,
                       k: nat, y: nat)
    requires Follows(dims, l, op, h) && InGrid(dims, c) && a < |dims| && dims[a] >= 2
    requires t < Rounds(dims[a]) && y < dims[a] && k == Offset(dims, a) + t + 1 < Length(dims)
    ensures h(k + 1, ProcAt(dims, l, c, a, y)) == RoundAt(dims[a], op, Line(dims, l, h, c, a, k), t, y)
  {
    ProcAtPosition(dims, l, c, a, y);
    AxisStep(dims, l, op, h, ProcAt(dims, l, c, a, y), a, t, k, y);
    if RecvAt(dims[a], y, t).Some? {
      ProcAtTwice(dims, l, c, a, y, RecvAt(dims[a], y, t).value);
    }
  }

  /** The first step of an axis receives nothing. */
  lemma FirstStepEmpty(dims: seq<nat>, ps: Proc, a: nat, k: nat)
    requires InGrid(dims, ps) && a < |dims| && dims[a] >= 2 && k == Offset(dims, a)
    ensures k < Length(dims) && !StepArray(dims, ps)[k].recv.Peer?
  {
    NodeAt(dims, ps, a, 0);
  }

  lemma IdleAt<T>(dims: seq<nat>, l: Layout, op: (T, T) -> T, h: (nat, Proc) -> T, q: Proc, a: nat, k: nat)
    requires Follows(dims, l, op, h) && InGrid(dims, q) && a < |dims| && dims[a] >= 2 && k == Offset(dims, a)
    ensures h(k + 1, q) == h(k, q)
  {
    FirstStepEmpty(dims, Positions(dims, l, q), a, k);
    FollowsStep(dims, l, op, h, q, k);
  }

  lemma SameLine<T>(dims: seq<nat>, l: Layout, h: (nat, Proc) -> T, c: Proc, a: nat, m: nat, k: nat)
    requires InGrid(dims, c) && ValidLayout(dims, l) && a < |dims|
    requires forall q :: InGrid(dims, q) ==> h(m, q) == h(k, q)
    ensures Line(dims, l, h, c, a, m) == Line(dims, l, h, c, a, k)
  {
  }

  lemma FirstStepIdle<T>(dims: seq<nat>, l: Layout, op: (T, T) -> T, h: (nat, Proc) -> T, c: Proc, a: nat, k: nat)
    requires Follows(dims, l, op, h) && InGrid(dims, c) && a < |dims| && dims[a] >= 2 && k == Offset(dims, a)
    ensures Line(dims, l, h, c, a, k + 1) == Line(dims, l, h, c, a, k)
  {
    forall q | InGrid(dims, q) ensures h(k + 1, q) == h(k, q) {
      IdleAt(dims, l, op, h, q, a, k);
    }
    SameLine(dims, l, h, c, a, k + 1, k);
  }

  lemma LineRound<T>(dims: seq<nat>, l: Layout, op: (T, T) -> T, h: (nat, Proc) -> T, c: Proc, a: nat, t: nat)
    requires Follows(dims, l, op, h) && InGrid(dims, c) && a < |dims| && dims[a] >= 2 && t < Rounds(dims[a])
    ensures Line(dims, l, h, c, a, Offset(dims, a) + t + 2)
         == Round(dims[a], op, Line(dims, l, h, c, a, Offset(dims, a) + t + 1), t, dims[a])
  {
    var k := Offset(dims, a) + t + 1;
    assert k < Length(dims) by { NodeAt(dims, c, a, t + 1); }
    var line := Line(dims, l, h, c, a, k);
    var u, v := Line(dims, l, h, c, a, k + 1), Round(dims[a], op, line, t, dims[a]);
    forall y: nat | y < dims[a] ensures u[y] == v[y] {
      StepIsRound(dims, l, op, h, c, a, t, k, y);
      RoundEntry(dims[a], op, line, t, dims[a], y);
    }
  }

  lemma {:induction false} LineIsAfter<T>(dims: seq<nat>, l: Layout, op: (T, T) -> T, h: (nat, Proc) -> T, c: Proc,
                                          a: nat, t: nat)
    requires Follows(dims, l, op, h) && InGrid(dims, c) && a < |dims| && dims[a] >= 2 && t <= Rounds(dims[a])
    ensures Line(dims, l, h, c, a, Offset(dims, a) + t + 1)
         == After(dims[a], op, Line(dims, l, h, c, a, Offset(dims, a)), t)
    decreases t
  {
    if t == 0 {
      FirstStepIdle(dims, l, op, h, c, a, Offset(dims, a));
    } else {
      LineIsAfter(dims, l, op, h, c, a, t - 1);
      LineRound(dims, l, op, h, c, a, t - 1);
    }
  }

  /** After its steps, every process of a line has the reduction of the line, taken by position. */
  lemma LineReduces<T(!new)>(dims: seq<nat>, l: Layout, op: (T, T) -> T, h: (nat, Proc) -> T, c: Proc, a: nat)
    requires Follows(dims, l, op, h) && InGrid(dims, c) && a < |dims| && AC(op)
    ensures h(Offset(dims, a + 1), c) == Reduce(op, Line(dims, l, h, c, a, Offset(dims, a)))
  {
    var y := l.pos(c, a);
    ProcAtOwn(dims, l, c, a);
    if dims[a] >= 2 {
      LineIsAfter(dims, l, op, h, c, a, Rounds(dims[a]));
      ExactlyOnce(dims[a], op, Line(dims, l, h, c, a, Offset(dims, a)), y);
    }
  }

  /** Composition: after the steps of the first `a` axes every process has the reduction over those
      coordinates, whatever the orders of the lines. */
  lemma {:induction false} AxesCompose<T(!new)>(dims: seq<nat>, l: Layout, op: (T, T) -> T, f: Proc -> T,
                                                h: (nat, Proc) -> T, c: Proc, a: nat)
    requires Follows(dims, l, op, h) && InGrid(dims, c) && a <= |dims| && AC(op)
    requires forall q :: InGrid(dims, q) ==> h(0, q) == f(q)
    ensures h(Offset(dims, a), c) == GridReduce(dims, op, f, c, a)
    decreases a
  {
    if a > 0 {
      var b := a - 1;
      LineReduces(dims, l, op, h, c, b);
      var s := ArrayOrders(dims, l, c, b);
      var plain, placed := LineOf(dims, op, f, c, b), Line(dims, l, h, c, b, Offset(dims, b));
      forall y: nat | y < dims[b] ensures placed[y] == plain[s[y]] {
        AxesCompose(dims, l, op, f, h, ProcAt(dims, l, c, b, y), b);
      }
      ReducePermuted(op, plain, placed, s);
    }
  }

  lemma HeldFollows<T>(dims: seq<nat>, l: Layout, op: (T, T) -> T, f: Proc -> T) returns (h: (nat, Proc) -> T)
    requires ValidLayout(dims, l)
    ensures Follows(dims, l, op, h)
    ensures forall m: nat, c :: InGrid(dims, c) && m <= Length(dims) ==> h(m, c) == Held(dims, l, op, f, c, m)
  {
    h := (m: nat, c: Proc) => if InGrid(dims, c) && m <= Length(dims) then Held(dims, l, op, f, c, m) else f(c);
    forall c, m: nat | InGrid(dims, c) && m < Length(dims) ensures StepFollows(dims, l, op, h, c, m) {
      FollowsAt(dims, l, op, f, h, c, m);
    }
  }

  lemma FollowsAt<T>(dims: seq<nat>, l: Layout, op: (T, T) -> T, f: Proc -> T, h: (nat, Proc) -> T, c: Proc, m: nat)
    requires InGrid(dims, c) && ValidLayout(dims, l) && m < Length(dims)
    requires h(m + 1, c) == Held(dims, l, op, f, c, m + 1)
    requires forall q :: InGrid(dims, q) ==> h(m, q) == Held(dims, l, op, f, q, m)
    ensures StepFollows(dims, l, op, h, c, m)
  {
    PeersInGrid(dims, Positions(dims, l, c), m);
  }

  /** Every process of a full grid of any dimensions ends with the reduction over the whole grid, whatever
      order the sorting of each line has given. */
  lemma GridExact<T(!new)>(dims: seq<nat>, l: Layout, op: (T, T) -> T, f: Proc -> T, c: Proc)
    requires InGrid(dims, c) && ValidLayout(dims, l) && AC(op)
    ensures Held(dims, l, op, f, c, Length(dims)) == GridReduce(dims, op, f, c, |dims|)
  {
    var h := HeldFollows(dims, l, op, f);
    forall q | InGrid(dims, q) ensures h(0, q) == f(q) {
      assert h(0, q) == Held(dims, l, op, f, q, 0);
    }
    AxesCompose(dims, l, op, f, h, c, |dims|);
  }
}
