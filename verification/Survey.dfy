/** The arrays that the processes sort, each on its own, give a layout: so the network built from them
    reduces over the whole grid, whether the nodes fill their box or are all put on one axis. */
module Survey {
  import opened AxisRounds
  import opened Network
  import opened Placement
  import Lines

  /** What the processes have found: `node(c)` is the node of process `c`, and `line(c, a)` the sorted array
      of `c` for axis `a`. Axis 0 is the node itself, whose processes are numbered alike by all of them. */
  datatype Found = Found(node: Proc -> Lines.Place, line: (Proc, nat) -> seq<Lines.Place>)

  /** Processes along `a` with different coordinates are on different nodes. */
  ghost predicate Separate(dims: seq<nat>, f: Found, c: Proc, a: nat, v: nat, w: nat)
    requires InGrid(dims, c) && a < |dims|
  {
    f.node(MovedTo(c, a, v)) == f.node(MovedTo(c, a, w)) ==> v == w
  }

  /** Each process of the line has the same array and is in it. */
  ghost predicate Agrees(dims: seq<nat>, f: Found, c: Proc, a: nat, v: nat)
    requires InGrid(dims, c) && a < |dims|
  {
    f.line(MovedTo(c, a, v), a) == f.line(c, a) && f.node(MovedTo(c, a, v)) in f.line(c, a)
  }

  /** The coordinate along `a` of the node at position `y` of the array. */
  ghost predicate Names(dims: seq<nat>, f: Found, c: Proc, a: nat, y: nat, v: nat)
    requires InGrid(dims, c) && a < |dims|
  {
    v < dims[a] && y < |f.line(c, a)| && f.line(c, a)[y] == f.node(MovedTo(c, a, v))
  }

  ghost predicate IsNamed(dims: seq<nat>, f: Found, c: Proc, a: nat, y: nat)
    requires InGrid(dims, c) && a < |dims|
  {
    exists v: nat :: Names(dims, f, c, a, y, v)
  }

  ghost predicate GoodLine(dims: seq<nat>, f: Found, c: Proc, a: nat)
    requires InGrid(dims, c) && a < |dims|
  {
    |f.line(c, a)| == dims[a] && Lines.Distinct(f.line(c, a)) &&
    (forall v: nat, w: nat :: v < dims[a] && w < dims[a] ==> Separate(dims, f, c, a, v, w)) &&
    (forall v: nat :: v < dims[a] ==> Agrees(dims, f, c, a, v)) &&
    (forall y: nat :: y < dims[a] ==> IsNamed(dims, f, c, a, y))
  }

  ghost predicate GoodLines(dims: seq<nat>, f: Found) {
    forall c, a: nat :: InGrid(dims, c) && 0 < a < |dims| ==> GoodLine(dims, f, c, a)
  }

  // ---------------------------------------------------------------- the layout

  ghost function WhoAt(dims: seq<nat>, f: Found, c: Proc, a: nat, y: nat): nat {
    if a == 0 then y
    else if InGrid(dims, c) && a < |dims| && IsNamed(dims, f, c, a, y) then
      var v: nat :| Names(dims, f, c, a, y, v); v
    else 0
  }

  /** The position at which a process finds its own node. */
  ghost function OwnAt(dims: seq<nat>, f: Found, c: Proc, a: nat): nat {
    if !(InGrid(dims, c) && a < |dims|) then 0
    else if a == 0 then c[0]
    else if exists y: nat :: Names(dims, f, c, a, y, c[a]) then
      var y: nat :| Names(dims, f, c, a, y, c[a]); y
    else 0
  }

  ghost function LayoutOf(dims: seq<nat>, f: Found): Layout {
    Layout((c, a, y) => WhoAt(dims, f, c, a, y), (c, a) => OwnAt(dims, f, c, a))
  }

  lemma OwnFound(dims: seq<nat>, f: Found, c: Proc, a: nat)
    requires GoodLines(dims, f) && InGrid(dims, c) && 0 < a < |dims|
    ensures Names(dims, f, c, a, OwnAt(dims, f, c, a), c[a])
  {
    assert GoodLine(dims, f, c, a);
    assert Agrees(dims, f, c, a, c[a]);
    var y: nat :| y < |f.line(c, a)| && f.line(c, a)[y] == f.node(MovedTo(c, a, c[a]));
    assert Names(dims, f, c, a, y, c[a]);
  }

  lemma WhoFound(dims: seq<nat>, f: Found, c: Proc, a: nat, y: nat)
    requires GoodLines(dims, f) && InGrid(dims, c) && 0 < a < |dims| && y < dims[a]
    ensures Names(dims, f, c, a, y, WhoAt(dims, f, c, a, y))
  {
    assert GoodLine(dims, f, c, a);
  }

  lemma OneName(dims: seq<nat>, f: Found, c: Proc, a: nat, y: nat, v: nat, w: nat)
    requires InGrid(dims, c) && a < |dims| && GoodLine(dims, f, c, a)
    requires Names(dims, f, c, a, y, v) && Names(dims, f, c, a, y, w)
    ensures v == w
  {
    assert Separate(dims, f, c, a, v, w);
  }

  lemma OnePosition(dims: seq<nat>, f: Found, c: Proc, a: nat, y: nat, z: nat, v: nat)
    requires InGrid(dims, c) && a < |dims| && GoodLine(dims, f, c, a)
    requires Names(dims, f, c, a, y, v) && Names(dims, f, c, a, z, v)
    ensures y == z
  {
  }

  /** Names are the same for all processes of the line. */
  lemma SameNames(dims: seq<nat>, f: Found, c: Proc, a: nat, v: nat, y: nat, w: nat)
    requires GoodLines(dims, f) && InGrid(dims, c) && 0 < a < |dims| && v < dims[a]
    ensures InGrid(dims, MovedTo(c, a, v))
    ensures Names(dims, f, MovedTo(c, a, v), a, y, w) <==> Names(dims, f, c, a, y, w)
  {
    assert GoodLine(dims, f, c, a);
    assert Agrees(dims, f, c, a, v);
    assert MovedTo(MovedTo(c, a, v), a, w) == MovedTo(c, a, w);
  }

  lemma LayoutFinds(dims: seq<nat>, f: Found, c: Proc, a: nat)
    requires GoodLines(dims, f) && InGrid(dims, c) && a < |dims|
    ensures FindsItself(dims, LayoutOf(dims, f), c, a)
  {
    if a > 0 {
      OwnFound(dims, f, c, a);
      var y := OwnAt(dims, f, c, a);
      assert GoodLine(dims, f, c, a);
      WhoFound(dims, f, c, a, y);
      OneName(dims, f, c, a, y, c[a], WhoAt(dims, f, c, a, y));
    }
  }

  lemma LayoutFound(dims: seq<nat>, f: Found, c: Proc, a: nat, y: nat)
    requires GoodLines(dims, f) && InGrid(dims, c) && a < |dims| && y < dims[a]
    ensures FoundAt(dims, LayoutOf(dims, f), c, a, y)
  {
    if a > 0 {
      WhoFound(dims, f, c, a, y);
      var v := WhoAt(dims, f, c, a, y);
      var q := MovedTo(c, a, v);
      SameNames(dims, f, c, a, v, y, v);
      OwnFound(dims, f, q, a);
      assert GoodLine(dims, f, q, a);
      OnePosition(dims, f, q, a, y, OwnAt(dims, f, q, a), v);
    }
  }

  lemma LayoutSame(dims: seq<nat>, f: Found, c: Proc, a: nat, v: nat, y: nat)
    requires GoodLines(dims, f) && InGrid(dims, c) && a < |dims| && v < dims[a] && y < dims[a]
    ensures SameArray(dims, LayoutOf(dims, f), c, a, v, y)
  {
    if a > 0 {
      var q := MovedTo(c, a, v);
      assert GoodLine(dims, f, c, a);
      WhoFound(dims, f, c, a, y);
      SameNames(dims, f, c, a, v, y, WhoAt(dims, f, q, a, y));
      WhoFound(dims, f, q, a, y);
      OneName(dims, f, c, a, y, WhoAt(dims, f, c, a, y), WhoAt(dims, f, q, a, y));
    }
  }

  lemma LayoutValid(dims: seq<nat>, f: Found)
    requires GoodLines(dims, f)
    ensures ValidLayout(dims, LayoutOf(dims, f))
  {
    var l := LayoutOf(dims, f);
    forall c, a: nat | InGrid(dims, c) && a < |dims| ensures FindsItself(dims, l, c, a) {
      LayoutFinds(dims, f, c, a);
    }
    forall c, a: nat, y: nat | InGrid(dims, c) && a < |dims| && y < dims[a] ensures FoundAt(dims, l, c, a, y) {
      LayoutFound(dims, f, c, a, y);
    }
    forall c, a: nat, v: nat, y: nat | InGrid(dims, c) && a < |dims| && v < dims[a] && y < dims[a]
      ensures SameArray(dims, l, c, a, v, y)
    {
      LayoutSame(dims, f, c, a, v, y);
    }
  }

  // ---------------------------------------------------------------- the arrays of the code

  /** The lengths of the axes: in-node, X, Y and Z, or in-node and one axis with all nodes. */
  function DimsOf(nodes: seq<Lines.Place>, b: Lines.Box, procs: nat): (dims: seq<nat>)
    ensures |dims| == if Lines.Hexa(nodes, b) then 4 else 2
    ensures forall a: nat :: 0 < a < |dims| ==> dims[a] == Lines.AxisSize(nodes, b, AxisOf(a))
  {
    if Lines.Hexa(nodes, b) then [procs, b.k, b.m, b.n] else [procs, |nodes|]
  }

  function AxisOf(a: nat): Lines.Axis {
    if a == 1 then Lines.X else if a == 2 then Lines.Y else Lines.Z
  }

  /** Where a process is: the place in the box, or the number of its node. */
  ghost predicate Located(nodes: seq<Lines.Place>, b: Lines.Box, procs: nat, c: Proc, p: Lines.Place)
    requires InGrid(DimsOf(nodes, b, procs), c)
  {
    p in nodes &&
    if Lines.Hexa(nodes, b) then p.log == Lines.Coord(b.lo.x + c[1], b.lo.y + c[2], b.lo.z + c[3])
    else p == nodes[c[1]]
  }

  /** A process has met all nodes in some order and sorted those of each line. */
  ghost predicate Surveyed(nodes: seq<Lines.Place>, b: Lines.Box, f: Found, c: Proc, a: nat) {
    Lines.Sorted(f.line(c, a)) &&
    exists seen: seq<Lines.Place> ::
      multiset(seen) == multiset(nodes) &&
      multiset(f.line(c, a)) == multiset(Lines.LineOf(Lines.Hexa(nodes, b), seen, f.node(c).log, AxisOf(a)))
  }

  ghost predicate AllSurveyed(nodes: seq<Lines.Place>, b: Lines.Box, procs: nat, f: Found) {
    var dims := DimsOf(nodes, b, procs);
    (forall c :: InGrid(dims, c) ==> Located(nodes, b, procs, c, f.node(c))) &&
    (forall c, a: nat :: InGrid(dims, c) && 0 < a < |dims| ==> Surveyed(nodes, b, f, c, a))
  }

  /** The array holds exactly the nodes of the line. */
  lemma LineHolds(nodes: seq<Lines.Place>, b: Lines.Box, procs: nat, f: Found, c: Proc, a: nat)
    requires Lines.Distinct(nodes) && Lines.BoxOf(nodes, b) && AllSurveyed(nodes, b, procs, f)
    requires InGrid(DimsOf(nodes, b, procs), c) && 0 < a < |DimsOf(nodes, b, procs)|
    ensures var line := Lines.LineOf(Lines.Hexa(nodes, b), nodes, f.node(c).log, AxisOf(a));
      multiset(f.line(c, a)) == multiset(line) && Lines.Sorted(f.line(c, a))
  {
    assert Surveyed(nodes, b, f, c, a);
    var hexa, my := Lines.Hexa(nodes, b), f.node(c).log;
    var seen :| multiset(seen) == multiset(nodes) &&
      multiset(f.line(c, a)) == multiset(Lines.LineOf(hexa, seen, my, AxisOf(a)));
    Lines.LineOfMultiset(hexa, seen, nodes, my, AxisOf(a));
  }

  lemma HoldsMember(nodes: seq<Lines.Place>, b: Lines.Box, procs: nat, f: Found, c: Proc, a: nat, p: Lines.Place)
    requires Lines.Distinct(nodes) && Lines.BoxOf(nodes, b) && AllSurveyed(nodes, b, procs, f)
    requires InGrid(DimsOf(nodes, b, procs), c) && 0 < a < |DimsOf(nodes, b, procs)|
    ensures p in f.line(c, a) <==>
      p in nodes && Lines.OnLine(Lines.Hexa(nodes, b), f.node(c).log, AxisOf(a), p)
  {
    var hexa, my := Lines.Hexa(nodes, b), f.node(c).log;
    var line := Lines.LineOf(hexa, nodes, my, AxisOf(a));
    LineHolds(nodes, b, procs, f, c, a);
    assert p in f.line(c, a) <==> p in multiset(f.line(c, a));
    assert p in line <==> p in multiset(line);
    Lines.LineMember(hexa, nodes, my, AxisOf(a), p);
  }

  // ---------------------------------------------------------------- distinct lists stay distinct

  lemma {:induction false} AtMostOnce(s: seq<Lines.Place>, p: Lines.Place)
    requires Lines.Distinct(s)
    ensures multiset(s)[p] <= 1
  {
    if s != [] {
      var front, last := s[..|s| - 1], s[|s| - 1];
      assert s == front + [last];
      AtMostOnce(front, p);
      if p == last {
        assert p !in front;
        assert multiset(front)[p] == 0;
      }
    }
  }

  lemma TwiceCounted<T>(s: seq<T>, i: nat, j: nat)
    requires i < j < |s| && s[i] == s[j]
    ensures multiset(s)[s[i]] >= 2
  {
    assert s == s[..j] + s[j..];
    assert s[i] == s[..j][i] && s[i] in s[..j];
    assert s[j] == s[j..][0] && s[j] in s[j..];
  }

  lemma StaysDistinct(s: seq<Lines.Place>, t: seq<Lines.Place>)
    requires Lines.Distinct(s) && multiset(s) == multiset(t)
    ensures Lines.Distinct(t)
  {
    forall i, j | 0 <= i < j < |t| ensures t[i].log != t[j].log && t[i].phys != t[j].phys {
      AtMostOnce(s, t[i]);
      if t[i] == t[j] {
        TwiceCounted(t, i, j);
        assert false;
      }
      assert t[i] in multiset(s) && t[j] in multiset(s);
      var k :| 0 <= k < |s| && s[k] == t[i];
      var m :| 0 <= m < |s| && s[m] == t[j];
    }
  }

  // ---------------------------------------------------------------- every line is good

  lemma SameNode(nodes: seq<Lines.Place>, p: Lines.Place, q: Lines.Place)
    requires Lines.Distinct(nodes) && p in nodes && q in nodes && p.log == q.log
    ensures p == q
  {
    var i :| 0 <= i < |nodes| && nodes[i] == p;
    var j :| 0 <= j < |nodes| && nodes[j] == q;
  }

  /** Moving a process along an axis moves its node. */
  lemma MovedNode(nodes: seq<Lines.Place>, b: Lines.Box, procs: nat, f: Found, c: Proc, a: nat, v: nat)
    requires Lines.Distinct(nodes) && AllSurveyed(nodes, b, procs, f)
    requires InGrid(DimsOf(nodes, b, procs), c) && 0 < a < |DimsOf(nodes, b, procs)| && v < DimsOf(nodes, b, procs)[a]
    ensures InGrid(DimsOf(nodes, b, procs), MovedTo(c, a, v)) && f.node(MovedTo(c, a, v)) in nodes && f.node(c) in nodes
    ensures Lines.Hexa(nodes, b) ==>
      Lines.Along(f.node(c).log, AxisOf(a)) == Lines.Along(b.lo, AxisOf(a)) + c[a] &&
      f.node(MovedTo(c, a, v)).log == Lines.Moved(f.node(c).log, AxisOf(a), Lines.Along(b.lo, AxisOf(a)) + v)
    ensures !Lines.Hexa(nodes, b) ==>
      f.node(MovedTo(c, a, v)) == nodes[v]
  {
    assert Located(nodes, b, procs, c, f.node(c));
    assert Located(nodes, b, procs, MovedTo(c, a, v), f.node(MovedTo(c, a, v)));
  }

  lemma LineSeparate(nodes: seq<Lines.Place>, b: Lines.Box, procs: nat, f: Found, c: Proc, a: nat, v: nat, w: nat)
    requires Lines.Distinct(nodes) && AllSurveyed(nodes, b, procs, f)
    requires InGrid(DimsOf(nodes, b, procs), c) && 0 < a < |DimsOf(nodes, b, procs)|
    requires v < DimsOf(nodes, b, procs)[a] && w < DimsOf(nodes, b, procs)[a]
    ensures Separate(DimsOf(nodes, b, procs), f, c, a, v, w)
  {
    MovedNode(nodes, b, procs, f, c, a, v);
    MovedNode(nodes, b, procs, f, c, a, w);
  }

  lemma LineAgrees(nodes: seq<Lines.Place>, b: Lines.Box, procs: nat, f: Found, c: Proc, a: nat, v: nat)
    requires Lines.Distinct(nodes) && Lines.BoxOf(nodes, b) && AllSurveyed(nodes, b, procs, f)
    requires InGrid(DimsOf(nodes, b, procs), c) && 0 < a < |DimsOf(nodes, b, procs)| && v < DimsOf(nodes, b, procs)[a]
    ensures Agrees(DimsOf(nodes, b, procs), f, c, a, v) && |f.line(c, a)| == DimsOf(nodes, b, procs)[a]
  {
    var q := MovedTo(c, a, v);
    MovedNode(nodes, b, procs, f, c, a, v);
    LineHolds(nodes, b, procs, f, c, a);
    LineHolds(nodes, b, procs, f, q, a);
    var i :| 0 <= i < |nodes| && nodes[i] == f.node(c);
    var j :| 0 <= j < |nodes| && nodes[j] == f.node(q);
    if nodes[j].log == nodes[i].log {
      SameNode(nodes, nodes[i], nodes[j]);
      OwnLine(nodes, b, i, AxisOf(a), f.line(c, a), f.line(q, a));
    } else {
      Lines.KindMeans(nodes[i].log, nodes[j].log, AxisOf(a));
      Lines.LinesAgree(nodes, nodes, b, i, j, AxisOf(a), f.line(c, a), f.line(q, a));
    }
  }

  /** Processes of one node have the same arrays. */
  lemma OwnLine(nodes: seq<Lines.Place>, b: Lines.Box, i: nat, a: Lines.Axis, s: seq<Lines.Place>, t: seq<Lines.Place>)
    requires Lines.Distinct(nodes) && Lines.BoxOf(nodes, b) && i < |nodes|
    requires Lines.Hexa(nodes, b) || a.X?
    requires Lines.Sorted(s) && multiset(s) == multiset(Lines.LineOf(Lines.Hexa(nodes, b), nodes, nodes[i].log, a))
    requires Lines.Sorted(t) && multiset(t) == multiset(s)
    ensures s == t && |s| == Lines.AxisSize(nodes, b, a) && nodes[i] in s
  {
    var hexa, my := Lines.Hexa(nodes, b), nodes[i].log;
    var line := Lines.LineOf(hexa, nodes, my, a);
    forall r | r in line ensures r in nodes { Lines.LineMember(hexa, nodes, my, a, r); }
    Lines.LineOneEach(nodes, line, s);
    Lines.SortedUnique(s, t);
    assert |s| == |multiset(s)| == |multiset(line)| == |line|;
    Lines.LineLength(nodes, b, i, a);
    Lines.InSorted(hexa, nodes, my, a, s, i);
  }

  /** Whoever is in the array is a node along the axis. */
  lemma LineNamed(nodes: seq<Lines.Place>, b: Lines.Box, procs: nat, f: Found, c: Proc, a: nat, y: nat)
    requires Lines.Distinct(nodes) && Lines.BoxOf(nodes, b) && AllSurveyed(nodes, b, procs, f)
    requires InGrid(DimsOf(nodes, b, procs), c) && 0 < a < |DimsOf(nodes, b, procs)| && y < |f.line(c, a)|
    ensures IsNamed(DimsOf(nodes, b, procs), f, c, a, y)
  {
    var dims, p := DimsOf(nodes, b, procs), f.line(c, a)[y];
    HoldsMember(nodes, b, procs, f, c, a, p);
    var i :| 0 <= i < |nodes| && nodes[i] == p;
    if Lines.Hexa(nodes, b) {
      var v := CoordinateOf(nodes, b, AxisOf(a), i);
      MovedNode(nodes, b, procs, f, c, a, v);
      Lines.KindMeans(f.node(c).log, p.log, AxisOf(a));
      SameNode(nodes, p, f.node(MovedTo(c, a, v)));
      assert Names(dims, f, c, a, y, v);
    } else {
      MovedNode(nodes, b, procs, f, c, a, i);
      assert Names(dims, f, c, a, y, i);
    }
  }

  lemma CoordinateOf(nodes: seq<Lines.Place>, b: Lines.Box, a: Lines.Axis, i: nat) returns (v: nat)
    requires Lines.BoxOf(nodes, b) && i < |nodes|
    ensures v < Lines.Extent(b, a) && Lines.Along(nodes[i].log, a) == Lines.Along(b.lo, a) + v
  {
    assert Lines.Within(nodes, a, Lines.Along(b.lo, a), Lines.Along(b.lo, a) + Lines.Extent(b, a) - 1);
    v := Lines.Along(nodes[i].log, a) - Lines.Along(b.lo, a);
  }

  lemma LineIsGood(nodes: seq<Lines.Place>, b: Lines.Box, procs: nat, f: Found, c: Proc, a: nat)
    requires Lines.Distinct(nodes) && Lines.BoxOf(nodes, b) && AllSurveyed(nodes, b, procs, f)
    requires InGrid(DimsOf(nodes, b, procs), c) && 0 < a < |DimsOf(nodes, b, procs)|
    ensures GoodLine(DimsOf(nodes, b, procs), f, c, a)
  {
    var dims, my := DimsOf(nodes, b, procs), f.node(c).log;
    LineHolds(nodes, b, procs, f, c, a);
    Lines.LineDistinct(Lines.Hexa(nodes, b), nodes, my, AxisOf(a));
    StaysDistinct(Lines.LineOf(Lines.Hexa(nodes, b), nodes, my, AxisOf(a)), f.line(c, a));
    LineAgrees(nodes, b, procs, f, c, a, c[a]);
    forall v: nat, w: nat | v < dims[a] && w < dims[a] ensures Separate(dims, f, c, a, v, w) {
      LineSeparate(nodes, b, procs, f, c, a, v, w);
    }
    forall v: nat | v < dims[a] ensures Agrees(dims, f, c, a, v) {
      LineAgrees(nodes, b, procs, f, c, a, v);
    }
    forall y: nat | y < dims[a] ensures IsNamed(dims, f, c, a, y) {
      LineNamed(nodes, b, procs, f, c, a, y);
    }
  }

  /** Whatever order the physical addresses give the nodes of each line, the network over the sorted arrays
      leaves every process with the reduction over all of them. */
  lemma SortedExact<T(!new)>(nodes: seq<Lines.Place>, b: Lines.Box, procs: nat, found: Found,
                             op: (T, T) -> T, f: Proc -> T, c: Proc)
    requires Lines.Distinct(nodes) && Lines.BoxOf(nodes, b) && AllSurveyed(nodes, b, procs, found)
    requires InGrid(DimsOf(nodes, b, procs), c) && AC(op)
    ensures var dims := DimsOf(nodes, b, procs);
      ValidLayout(dims, LayoutOf(dims, found)) &&
      Placement.Held(dims, LayoutOf(dims, found), op, f, c, Length(dims)) == GridReduce(dims, op, f, c, |dims|)
  {
    var dims := DimsOf(nodes, b, procs);
    forall q, a: nat | InGrid(dims, q) && 0 < a < |dims| ensures GoodLine(dims, found, q, a) {
      LineIsGood(nodes, b, procs, found, q, a);
    }
    LayoutValid(dims, found);
    Placement.GridExact(dims, LayoutOf(dims, found), op, f, c);
  }
}
