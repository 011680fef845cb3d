/** How a process finds the nodes along each axis: bounding box, classification of the other nodes,
    filling of the axis arrays, and sorting by physical address. Every process does this alone. */
module Lines {

  datatype Coord = Coord(x: nat, y: nat, z: nat)

  datatype Phys = Phys(x: nat, y: nat, z: nat, a: nat, b: nat, c: nat)

  /** A node: its logical place and its physical address. */
  datatype Place = Place(log: Coord, phys: Phys)

  datatype Axis = X | Y | Z

  datatype AxisKind = InNode | OnX | OnY | OnZ | OffAxes

  function Along(c: Coord, a: Axis): nat {
    match a case X => c.x case Y => c.y case Z => c.z
  }

  function Moved(c: Coord, a: Axis, v: nat): Coord {
    match a case X => c.(x := v) case Y => c.(y := v) case Z => c.(z := v)
  }

  function On(a: Axis): AxisKind {
    match a case X => OnX case Y => OnY case Z => OnZ
  }

  /** Where another node lies as seen from `my`. */
  function KindOf(my: Coord, temp: Coord): AxisKind {
    if my.z == temp.z then
      if my.y == temp.y then (if my.x == temp.x then InNode else OnX)
      else if my.x == temp.x then OnY
      else OffAxes
    else if my.y == temp.y && my.x == temp.x then OnZ
    else OffAxes
  }

  /** A node is on axis `a` exactly if it differs in that coordinate and in no other. */
  lemma KindMeans(my: Coord, temp: Coord, a: Axis)
    ensures KindOf(my, temp) == On(a) <==> temp == Moved(my, a, Along(temp, a)) && temp != my
    ensures KindOf(my, temp) == InNode <==> temp == my
  {}

  // ---------------------------------------------------------------- physical order

  /** The comparison used for sorting: z, y, x, b, c, a, the first difference decides. */
  function Compare(p: Phys, q: Phys): int {
    if p.z != q.z then p.z - q.z
    else if p.y != q.y then p.y - q.y
    else if p.x != q.x then p.x - q.x
    else if p.b != q.b then p.b - q.b
    else if p.c != q.c then p.c - q.c
    else if p.a != q.a then p.a - q.a
    else 0
  }

  lemma CompareOrders(p: Phys, q: Phys, r: Phys)
    ensures Compare(p, q) == 0 <==> p == q
    ensures Compare(p, q) < 0 <==> Compare(q, p) > 0
    ensures Compare(p, q) <= 0 && Compare(q, r) <= 0 ==> Compare(p, r) <= 0
  {}

  /** The keys of the comparison, the most important one first. */
  function Keys(p: Phys): seq<nat> { [p.z, p.y, p.x, p.b, p.c, p.a] }

  /** The first difference is at `i`, and there the first list has less. */
  ghost predicate FirstLess(a: seq<nat>, b: seq<nat>, i: nat) {
    i < |a| && i < |b| && a[..i] == b[..i] && a[i] < b[i]
  }

  lemma SameBefore(p: Phys, q: Phys, i: nat)
    requires i < 6 && (forall k :: 0 <= k < i ==> Keys(p)[k] == Keys(q)[k]) && Keys(p)[i] < Keys(q)[i]
    ensures Compare(p, q) < 0
  {
    assert i > 0 ==> Keys(p)[0] == Keys(q)[0];
    assert i > 1 ==> Keys(p)[1] == Keys(q)[1];
    assert i > 2 ==> Keys(p)[2] == Keys(q)[2];
    assert i > 3 ==> Keys(p)[3] == Keys(q)[3];
    assert i > 4 ==> Keys(p)[4] == Keys(q)[4];
  }

  /** The order is lexicographic: the sign is that of the first key in which the addresses differ. */
  lemma CompareLexicographic(p: Phys, q: Phys)
    ensures Compare(p, q) < 0 <==> exists i: nat :: FirstLess(Keys(p), Keys(q), i)
  {
    var a, b := Keys(p), Keys(q);
    if Compare(p, q) < 0 {
      var i: nat := if a[0] != b[0] then 0 else if a[1] != b[1] then 1 else if a[2] != b[2] then 2
                    else if a[3] != b[3] then 3 else if a[4] != b[4] then 4 else 5;
      assert FirstLess(Keys(p), Keys(q), i);
    } else if i: nat :| FirstLess(a, b, i) {
      forall k | 0 <= k < i ensures a[k] == b[k] { assert a[..i][k] == b[..i][k]; }
      SameBefore(p, q, i);
      assert false;
    }
  }

  ghost predicate Sorted(s: seq<Place>) {
    forall i, j :: 0 <= i < j < |s| ==> Compare(s[i].phys, s[j].phys) <= 0
  }

  /** No two nodes share a place or an address. */
  ghost predicate Distinct(s: seq<Place>) {
    forall i, j :: 0 <= i < j < |s| ==> s[i].log != s[j].log && s[i].phys != s[j].phys
  }

  /** Nodes of the list with the same address are the same. */
  ghost predicate OneEach(s: seq<Place>) {
    forall p, q :: p in s && q in s && p.phys == q.phys ==> p == q
  }

  lemma Rest(s: seq<Place>)
    requires s != []
    ensures multiset(s[1..]) == multiset(s) - multiset{s[0]}
    ensures Sorted(s) ==> Sorted(s[1..])
    ensures OneEach(s) ==> OneEach(s[1..])
  {
    assert s == [s[0]] + s[1..];
  }

  /** Sorting leaves no choice: lists of the same distinct nodes become the same list. */
  lemma {:induction false} SortedUnique(s: seq<Place>, t: seq<Place>)
    requires Sorted(s) && Sorted(t) && multiset(s) == multiset(t) && OneEach(s)
    ensures s == t
    decreases |s|
  {
    assert |s| == |multiset(s)| == |multiset(t)| == |t|;
    if s != [] {
      assert s[0] in multiset(t) && t[0] in multiset(s);
      SameFirst(s, t);
      Rest(s);
      Rest(t);
      SortedUnique(s[1..], t[1..]);
      assert s == [s[0]] + s[1..] && t == [t[0]] + t[1..];
    }
  }

  lemma SameFirst(s: seq<Place>, t: seq<Place>)
    requires Sorted(s) && Sorted(t) && s != [] && t != [] && s[0] in t && t[0] in s && OneEach(s)
    ensures s[0] == t[0]
  {
    var j :| 0 <= j < |t| && t[j] == s[0];
    var i :| 0 <= i < |s| && s[i] == t[0];
    CompareOrders(t[0].phys, s[0].phys, s[0].phys);
    if i > 0 && j > 0 {
      assert Compare(s[0].phys, s[i].phys) <= 0 && Compare(t[0].phys, t[j].phys) <= 0;
    }
  }

  // ---------------------------------------------------------------- the bounding box

  /** All nodes lie between `lo` and `hi` along `a`. */
  ghost predicate Within(nodes: seq<Place>, a: Axis, lo: nat, hi: nat) {
    lo <= hi && forall i :: 0 <= i < |nodes| ==> lo <= Along(nodes[i].log, a) <= hi
  }

  ghost predicate Tight(nodes: seq<Place>, a: Axis, lo: nat, hi: nat) {
    Within(nodes, a, lo, hi) &&
    (exists i :: 0 <= i < |nodes| && Along(nodes[i].log, a) == lo) &&
    (exists i :: 0 <= i < |nodes| && Along(nodes[i].log, a) == hi)
  }

  /** Smallest and biggest coordinate along one axis, starting from the own one. */
  method Bounds(nodes: seq<Place>, me: nat, a: Axis) returns (lo: nat, hi: nat)
    requires me < |nodes|
    ensures Tight(nodes, a, lo, hi)
  {
    lo, hi := Along(nodes[me].log, a), Along(nodes[me].log, a);
    ghost var l, h := me, me;
    for s := 0 to |nodes|
      invariant lo <= hi && l < |nodes| && h < |nodes|
      invariant Along(nodes[l].log, a) == lo && Along(nodes[h].log, a) == hi
      invariant forall i :: 0 <= i < s ==> lo <= Along(nodes[i].log, a) <= hi
    {
      if hi < Along(nodes[s].log, a) {
        hi, h := Along(nodes[s].log, a), s;
      } else if Along(nodes[s].log, a) < lo {
        lo, l := Along(nodes[s].log, a), s;
      }
    }
  }

  /** The box of `k` by `m` by `n` places from `lo` on. */
  datatype Box = Box(lo: Coord, k: nat, m: nat, n: nat)

  ghost function Row(x: nat, y: nat, z: nat, n: nat): set<Coord> { set v | z <= v < z + n :: Coord(x, y, v) }

  ghost function Plane(x: nat, y: nat, m: nat, z: nat, n: nat): set<Coord> {
    set u, v | y <= u < y + m && z <= v < z + n :: Coord(x, u, v)
  }

  ghost function Places(b: Box): set<Coord> {
    set t, u, v | b.lo.x <= t < b.lo.x + b.k && b.lo.y <= u < b.lo.y + b.m &&
    b.lo.z <= v < b.lo.z + b.n :: Coord(t, u, v)
  }

  lemma {:induction false} RowSize(x: nat, y: nat, z: nat, n: nat)
    ensures |Row(x, y, z, n)| == n
  {
    if n > 0 {
      var front, last := Row(x, y, z, n - 1), Coord(x, y, z + n - 1);
      RowSize(x, y, z, n - 1);
      assert last !in front;
      assert Row(x, y, z, n) == front + {last};
    } else {
      assert Row(x, y, z, 0) == {};
    }
  }

  lemma {:induction false} PlaneSize(x: nat, y: nat, m: nat, z: nat, n: nat)
    ensures |Plane(x, y, m, z, n)| == m * n
    decreases m
  {
    if m > 0 {
      PlaneSize(x, y, m - 1, z, n);
      RowSize(x, y + m - 1, z, n);
      var front, row := Plane(x, y, m - 1, z, n), Row(x, y + m - 1, z, n);
      assert Plane(x, y, m, z, n) == front + row && front !! row;
      assert m * n == (m - 1) * n + n;
    } else {
      assert Plane(x, y, 0, z, n) == {};
    }
  }

  lemma {:induction false} BoxSize(b: Box)
    ensures |Places(b)| == b.k * (b.m * b.n)
    decreases b.k
  {
    if b.k > 0 {
      var front, plane := Places(b.(k := b.k - 1)), Plane(b.lo.x + b.k - 1, b.lo.y, b.m, b.lo.z, b.n);
      BoxSize(b.(k := b.k - 1));
      PlaneSize(b.lo.x + b.k - 1, b.lo.y, b.m, b.lo.z, b.n);
      assert Places(b) == front + plane && front !! plane;
      LastLayer(b.k, b.m * b.n);
    } else {
      assert Places(b) == {};
    }
  }

  lemma LastLayer(k: nat, p: nat)
    requires k > 0
    ensures k * p == (k - 1) * p + p
  {}

  // ---------------------------------------------------------------- a full box

  ghost function LogSet(nodes: seq<Place>): set<Coord> { set i | 0 <= i < |nodes| :: nodes[i].log }

  lemma {:induction false} LogCount(nodes: seq<Place>)
    requires Distinct(nodes)
    ensures |LogSet(nodes)| == |nodes|
  {
    if nodes != [] {
      var front, last := nodes[..|nodes| - 1], nodes[|nodes| - 1];
      LogCount(front);
      assert LogSet(nodes) == LogSet(front) + {last.log};
      assert last.log !in LogSet(front);
    }
  }

  lemma SubsetFull<T>(s: set<T>, t: set<T>)
    requires s <= t && |s| == |t|
    ensures s == t
  {
    assert t == s + (t - s) && |t - s| == |t| - |s|;
  }

  /** The bounding box of the nodes. */
  ghost predicate BoxOf(nodes: seq<Place>, b: Box) {
    b.k > 0 && b.m > 0 && b.n > 0 &&
    Tight(nodes, X, b.lo.x, b.lo.x + b.k - 1) && Tight(nodes, Y, b.lo.y, b.lo.y + b.m - 1) &&
    Tight(nodes, Z, b.lo.z, b.lo.z + b.n - 1)
  }

  function Extent(b: Box, a: Axis): nat {
    match a case X => b.k case Y => b.m case Z => b.n
  }

  /** The test of the code: as many nodes as the bounding box has places. */
  predicate Hexa(nodes: seq<Place>, b: Box) { |nodes| == b.k * (b.m * b.n) }

  /** Then every place of the box has a node. */
  lemma FullBox(nodes: seq<Place>, b: Box)
    requires Distinct(nodes) && BoxOf(nodes, b) && Hexa(nodes, b)
    ensures LogSet(nodes) == Places(b)
  {
    forall c | c in LogSet(nodes) ensures c in Places(b) {
      var i :| 0 <= i < |nodes| && nodes[i].log == c;
      assert b.lo.x <= Along(nodes[i].log, X) && b.lo.y <= Along(nodes[i].log, Y) && b.lo.z <= Along(nodes[i].log, Z);
    }
    LogCount(nodes);
    BoxSize(b);
    SubsetFull(LogSet(nodes), Places(b));
  }

  // ---------------------------------------------------------------- lines

  /** Node `p` belongs into the array of axis `a` of a process at `my`. If the nodes do not fill their box
      they are all put on one axis. */
  predicate OnLine(hexa: bool, my: Coord, a: Axis, p: Place) {
    if hexa then KindOf(my, p.log) == On(a) || p.log == my else a.X?
  }

  /** The length of an axis: with a full box its extent, otherwise there is one axis with all nodes. */
  function AxisSize(nodes: seq<Place>, b: Box, a: Axis): nat {
    if Hexa(nodes, b) then Extent(b, a) else if a.X? then |nodes| else 0
  }

  /** The nodes of `nodes` on the line, in the order of the list. */
  function LineOf(hexa: bool, nodes: seq<Place>, my: Coord, a: Axis): seq<Place> {
    if nodes == [] then []
    else
      var last := nodes[|nodes| - 1];
      LineOf(hexa, nodes[..|nodes| - 1], my, a) + if OnLine(hexa, my, a, last) then [last] else []
  }

  lemma {:induction false} LineMember(hexa: bool, nodes: seq<Place>, my: Coord, a: Axis, p: Place)
    ensures p in LineOf(hexa, nodes, my, a) <==> p in nodes && OnLine(hexa, my, a, p)
    decreases |nodes|
  {
    if nodes != [] {
      var front, last := nodes[..|nodes| - 1], nodes[|nodes| - 1];
      assert nodes == front + [last];
      LineMember(hexa, front, my, a, p);
    }
  }

  lemma {:induction false} LineDistinct(hexa: bool, nodes: seq<Place>, my: Coord, a: Axis)
    requires Distinct(nodes)
    ensures Distinct(LineOf(hexa, nodes, my, a))
    decreases |nodes|
  {
    if nodes != [] {
      var front, last := nodes[..|nodes| - 1], nodes[|nodes| - 1];
      LineDistinct(hexa, front, my, a);
      var line := LineOf(hexa, front, my, a);
      forall i | 0 <= i < |line| ensures line[i].log != last.log && line[i].phys != last.phys {
        LineMember(hexa, front, my, a, line[i]);
        var j :| 0 <= j < |front| && front[j] == line[i];
        assert nodes[j] == line[i];
      }
    }
  }

  ghost function Span(my: Coord, a: Axis, lo: nat, n: nat): set<Coord> { set v | lo <= v < lo + n :: Moved(my, a, v) }

  lemma {:induction false} SpanSize(my: Coord, a: Axis, lo: nat, n: nat)
    ensures |Span(my, a, lo, n)| == n
  {
    if n > 0 {
      SpanSize(my, a, lo, n - 1);
      assert Span(my, a, lo, n) == Span(my, a, lo, n - 1) + {Moved(my, a, lo + n - 1)};
      assert Moved(my, a, lo + n - 1) !in Span(my, a, lo, n - 1) by {
        assert Along(Moved(my, a, lo + n - 1), a) == lo + n - 1;
      }
    } else {
      assert Span(my, a, lo, 0) == {};
    }
  }

  lemma LineSpans(nodes: seq<Place>, b: Box, my: Coord, a: Axis)
    requires LogSet(nodes) == Places(b) && my in Places(b)
    ensures LogSet(LineOf(true, nodes, my, a)) == Span(my, a, Along(b.lo, a), Extent(b, a))
  {
    var line, span := LineOf(true, nodes, my, a), Span(my, a, Along(b.lo, a), Extent(b, a));
    forall c | c in LogSet(line) ensures c in span {
      var i :| 0 <= i < |line| && line[i].log == c;
      LineMember(true, nodes, my, a, line[i]);
      KindMeans(my, c, a);
      assert c in LogSet(nodes);
      assert c == Moved(my, a, Along(c, a));
    }
    forall c | c in span ensures c in LogSet(line) {
      KindMeans(my, c, a);
      assert c in LogSet(nodes);
      var i :| 0 <= i < |nodes| && nodes[i].log == c;
      LineMember(true, nodes, my, a, nodes[i]);
      var j :| 0 <= j < |line| && line[j] == nodes[i];
    }
  }

  /** Every line through a node of a full box holds exactly as many nodes as the axis is long. */
  lemma FullLine(nodes: seq<Place>, b: Box, me: nat, a: Axis)
    requires Distinct(nodes) && BoxOf(nodes, b) && Hexa(nodes, b) && me < |nodes|
    ensures |LineOf(true, nodes, nodes[me].log, a)| == Extent(b, a)
  {
    var my := nodes[me].log;
    FullBox(nodes, b);
    assert my in LogSet(nodes);
    LineSpans(nodes, b, my, a);
    LineDistinct(true, nodes, my, a);
    LogCount(LineOf(true, nodes, my, a));
    SpanSize(my, a, Along(b.lo, a), Extent(b, a));
  }

  lemma {:induction false} OneAxis(nodes: seq<Place>, my: Coord, a: Axis)
    ensures LineOf(false, nodes, my, a) == if a.X? then nodes else []
    decreases |nodes|
  {
    if nodes != [] {
      OneAxis(nodes[..|nodes| - 1], my, a);
      assert nodes == nodes[..|nodes| - 1] + [nodes[|nodes| - 1]];
    }
  }

  /** With or without a full box, a line holds as many nodes as its axis is long. */
  lemma LineLength(nodes: seq<Place>, b: Box, me: nat, a: Axis)
    requires Distinct(nodes) && BoxOf(nodes, b) && me < |nodes|
    ensures |LineOf(Hexa(nodes, b), nodes, nodes[me].log, a)| == AxisSize(nodes, b, a)
  {
    if Hexa(nodes, b) {
      FullLine(nodes, b, me, a);
    } else {
      OneAxis(nodes, nodes[me].log, a);
    }
  }

  lemma LineStep(hexa: bool, nodes: seq<Place>, my: Coord, a: Axis, i: nat)
    requires i < |nodes|
    ensures LineOf(hexa, nodes[..i + 1], my, a)
         == LineOf(hexa, nodes[..i], my, a) + if OnLine(hexa, my, a, nodes[i]) then [nodes[i]] else []
    ensures |LineOf(hexa, nodes[..i + 1], my, a)| <= |LineOf(hexa, nodes, my, a)|
  {
    assert nodes[..i + 1][..i] == nodes[..i];
    LineFits(hexa, nodes, my, a, i + 1);
  }

  /** The array of an axis, allocated for the length of the axis and filled exactly, whether or not the nodes
      fill their box. */
  method AxisArray(nodes: seq<Place>, me: nat, a: Axis, b: Box) returns (line: seq<Place>)
    requires Distinct(nodes) && BoxOf(nodes, b) && me < |nodes|
    ensures |line| == AxisSize(nodes, b, a) && line == LineOf(Hexa(nodes, b), nodes, nodes[me].log, a)
  {
    LineLength(nodes, b, me, a);
    var hexa := |nodes| == b.k * (b.m * b.n);
    var size := if hexa then Extent(b, a) else if a.X? then |nodes| else 0;
    line := FillLine(hexa, nodes, nodes[me].log, a, size);
  }

  /** The fill loop: it never leaves the array, and fills it to the end. */
  method FillLine(hexa: bool, nodes: seq<Place>, my: Coord, a: Axis, size: nat) returns (line: seq<Place>)
    requires size == |LineOf(hexa, nodes, my, a)| && nodes != []
    ensures line == LineOf(hexa, nodes, my, a)
  {
    var entries := new Place[size](_ => nodes[0]);
    var fill := 0;
    for i := 0 to |nodes|
      invariant fill <= size && entries[..fill] == LineOf(hexa, nodes[..i], my, a)
    {
      LineStep(hexa, nodes, my, a, i);
      var kind := KindOf(my, nodes[i].log);
      if !hexa && kind != InNode {
        kind := OnX;
      }
      if kind == On(a) || (kind == InNode && (hexa || a.X?)) {
        entries[fill] := nodes[i];
        fill := fill + 1;
      }
    }
    assert nodes[..|nodes|] == nodes;
    line := entries[..];
  }

  lemma {:induction false} LineFits(hexa: bool, nodes: seq<Place>, my: Coord, a: Axis, i: nat)
    requires i <= |nodes|
    ensures |LineOf(hexa, nodes[..i], my, a)| <= |LineOf(hexa, nodes, my, a)|
    decreases |nodes|
  {
    if i < |nodes| {
      var front := nodes[..|nodes| - 1];
      assert front[..i] == nodes[..i];
      LineFits(hexa, front, my, a, i);
    } else {
      assert nodes[..i] == nodes;
    }
  }

  /** Nodes on one line see the same line. */
  lemma SameLine(p: Coord, q: Coord, a: Axis, r: Place)
    requires KindOf(p, q) == On(a)
    ensures OnLine(true, p, a, r) <==> OnLine(true, q, a, r)
  {
    KindMeans(p, q, a);
    KindMeans(p, r.log, a);
    KindMeans(q, r.log, a);
  }

  lemma {:induction false} SameLineOf(hexa: bool, nodes: seq<Place>, p: Coord, q: Coord, a: Axis)
    requires hexa ==> KindOf(p, q) == On(a)
    ensures LineOf(hexa, nodes, p, a) == LineOf(hexa, nodes, q, a)
    decreases |nodes|
  {
    if nodes != [] {
      var front, last := nodes[..|nodes| - 1], nodes[|nodes| - 1];
      SameLineOf(hexa, front, p, q, a);
      if hexa {
        SameLine(p, q, a, last);
      }
    }
  }

  lemma LineOneEach(nodes: seq<Place>, line: seq<Place>, s: seq<Place>)
    requires Distinct(nodes) && multiset(s) == multiset(line) && forall p :: p in line ==> p in nodes
    ensures OneEach(s)
  {
    forall u, v | u in s && v in s && u.phys == v.phys ensures u == v {
      assert u in multiset(line) && v in multiset(line);
      assert u in line && v in line;
      var i :| 0 <= i < |nodes| && nodes[i] == u;
      var j :| 0 <= j < |nodes| && nodes[j] == v;
    }
  }

  lemma InSorted(hexa: bool, nodes: seq<Place>, my: Coord, a: Axis, s: seq<Place>, p: nat)
    requires multiset(s) == multiset(LineOf(hexa, nodes, my, a)) && p < |nodes| && OnLine(hexa, my, a, nodes[p])
    ensures nodes[p] in s
  {
    LineMember(hexa, nodes, my, a, nodes[p]);
    assert nodes[p] in multiset(s);
  }

  /** Two nodes share a line of axis `a`: they are on it together, or all nodes are on one axis. */
  predicate ShareLine(nodes: seq<Place>, b: Box, p: nat, q: nat, a: Axis)
    requires p < |nodes| && q < |nodes|
  {
    if Hexa(nodes, b) then KindOf(nodes[p].log, nodes[q].log) == On(a) else a.X?
  }

  /** Line agreement: after sorting, all processes on one line hold the same array, as long as the axis,
      and each of them is in it. The order in which each of them met the nodes does not matter. */
  lemma LinesAgree(nodes: seq<Place>, seen: seq<Place>, b: Box, p: nat, q: nat, a: Axis, s: seq<Place>, t: seq<Place>)
    requires Distinct(nodes) && BoxOf(nodes, b) && p < |nodes| && q < |nodes| && ShareLine(nodes, b, p, q, a)
    requires multiset(seen) == multiset(nodes)
    requires Sorted(s) && multiset(s) == multiset(LineOf(Hexa(nodes, b), nodes, nodes[p].log, a))
    requires Sorted(t) && multiset(t) == multiset(LineOf(Hexa(nodes, b), seen, nodes[q].log, a))
    ensures s == t && |s| == AxisSize(nodes, b, a) && nodes[p] in s && nodes[q] in s
  {
    var hexa, my := Hexa(nodes, b), nodes[p].log;
    var line := LineOf(hexa, nodes, my, a);
    SameLineOf(hexa, nodes, my, nodes[q].log, a);
    LineOfMultiset(hexa, seen, nodes, nodes[q].log, a);
    forall r | r in line ensures r in nodes { LineMember(hexa, nodes, my, a, r); }
    LineOneEach(nodes, line, s);
    SortedUnique(s, t);
    assert |s| == |multiset(s)| == |multiset(line)| == |line|;
    LineLength(nodes, b, p, a);
    InSorted(hexa, nodes, my, a, s, p);
    InSorted(hexa, nodes, my, a, s, q);
  }

  /** The line depends only on which nodes there are. */
  lemma {:induction false} LineCount(hexa: bool, nodes: seq<Place>, my: Coord, a: Axis, p: Place)
    ensures multiset(LineOf(hexa, nodes, my, a))[p] == if OnLine(hexa, my, a, p) then multiset(nodes)[p] else 0
    decreases |nodes|
  {
    if nodes != [] {
      var front, last := nodes[..|nodes| - 1], nodes[|nodes| - 1];
      assert nodes == front + [last];
      LineCount(hexa, front, my, a, p);
    }
  }

  lemma LineOfMultiset(hexa: bool, nodes: seq<Place>, others: seq<Place>, my: Coord, a: Axis)
    requires multiset(nodes) == multiset(others)
    ensures multiset(LineOf(hexa, nodes, my, a)) == multiset(LineOf(hexa, others, my, a))
  {
    forall p ensures multiset(LineOf(hexa, nodes, my, a))[p] == multiset(LineOf(hexa, others, my, a))[p] {
      LineCount(hexa, nodes, my, a, p);
      LineCount(hexa, others, my, a, p);
    }
  }
}
