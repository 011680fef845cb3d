/** Compacting the step array: empty steps are skipped and a receive-only step takes over the send
    of the send-only step that follows it. */
module Optimizer {
  import opened Powers
  import opened Network

  predicate Empty(nd: Node) { !nd.recv.Peer? && !nd.send.Peer? }

  /** An entry of the final list: the step it stands for, and the step its send came from. */
  datatype Gate = Gate(at: nat, recv: Link, sendAt: nat, send: Link)

  function GateOf(nodes: seq<Node>, k: nat): Gate
    requires k < |nodes|
  {
    Gate(k, nodes[k].recv, k, nodes[k].send)
  }

  /** What the builder guarantees of a step array: the first step receives nothing, the last sends
      nothing, and one of the first two steps does something. */
  predicate Buildable(nodes: seq<Node>) {
    |nodes| >= 2 && !nodes[0].recv.Peer? && !nodes[|nodes| - 1].send.Peer? &&
    !(Empty(nodes[0]) && Empty(nodes[1])) &&
    (Start(nodes) == 1 ==> |nodes| >= 3)
  }

  /** The first step is dropped when neither it nor the next one's receive needs a start gate. */
  function Start(nodes: seq<Node>): nat
    requires |nodes| >= 2
  {
    if Empty(nodes[0]) && !nodes[1].recv.Peer? then 1 else 0
  }

  /** The non-empty steps with index in [lo, hi). */
  function NonEmpty(nodes: seq<Node>, lo: nat, hi: nat): (r: seq<nat>)
    requires lo <= hi <= |nodes|
    ensures forall i :: 0 <= i < |r| ==> lo <= r[i] < hi
    decreases hi
  {
    if lo == hi then []
    else NonEmpty(nodes, lo, hi - 1) + (if Empty(nodes[hi - 1]) then [] else [hi - 1])
  }

  /** The steps kept before the last one. */
  function KeptFront(nodes: seq<Node>): (r: seq<nat>)
    requires Buildable(nodes)
    ensures r != [] && r[0] == Start(nodes)
    ensures forall i :: 0 <= i < |r| ==> r[i] < |nodes| - 1
  {
    [Start(nodes)] + NonEmpty(nodes, Start(nodes) + 1, |nodes| - 1)
  }

  /** An empty last step is kept only as the end gate of a process whose last action is a send. */
  predicate KeepsLast(nodes: seq<Node>)
    requires Buildable(nodes)
  {
    var front := KeptFront(nodes);
    !(Empty(nodes[|nodes| - 1]) && !nodes[front[|front| - 1]].send.Peer?)
  }

  /** The list after the first pass, as step indices. */
  function Kept(nodes: seq<Node>): (r: seq<nat>)
    requires Buildable(nodes)
    ensures forall i :: 0 <= i < |r| ==> r[i] < |nodes|
  {
    KeptFront(nodes) + (if KeepsLast(nodes) then [|nodes| - 1] else [])
  }

  predicate AreSteps(nodes: seq<Node>, ks: seq<nat>) { forall i :: 0 <= i < |ks| ==> ks[i] < |nodes| }

  function GatesOf(nodes: seq<Node>, ks: seq<nat>): (r: seq<Gate>)
    requires AreSteps(nodes, ks)
    ensures |r| == |ks| && forall i :: 0 <= i < |ks| ==> r[i] == GateOf(nodes, ks[i])
  {
    seq(|ks|, i requires 0 <= i < |ks| => GateOf(nodes, ks[i]))
  }

  predicate Mergeable(g: Gate, h: Gate) {
    g.recv.Peer? && !g.send.Peer? && !h.recv.Peer? && h.send.Peer?
  }

  /** The second pass. */
  function Merge(gs: seq<Gate>): seq<Gate>
    decreases |gs|
  {
    if |gs| < 2 then gs
    else if Mergeable(gs[0], gs[1]) then
      [Gate(gs[0].at, gs[0].recv, gs[1].sendAt, gs[1].send)] + Merge(gs[2..])
    else [gs[0]] + Merge(gs[1..])
  }

  /** The optimised list. */
  function Optimized(nodes: seq<Node>): seq<Gate>
    requires Buildable(nodes)
  {
    Merge(GatesOf(nodes, Kept(nodes)))
  }

  // ---------------------------------------------------------------- what the list preserves

  ghost predicate EmptyRange(nodes: seq<Node>, lo: nat, hi: nat) {
    hi <= |nodes| && forall k :: lo <= k < hi ==> Empty(nodes[k])
  }

  /** Gate `g` stands for one step, or for a receiving step and the sending step after it, and
      nothing non-empty lies between `lo` and the end of it. */
  ghost predicate StandsFor(nodes: seq<Node>, g: Gate, lo: nat) {
    lo <= g.at <= g.sendAt < |nodes| && EmptyRange(nodes, lo, g.at) &&
    g.recv == nodes[g.at].recv && g.send == nodes[g.sendAt].send &&
    (g.at < g.sendAt ==>
      g.recv.Peer? && g.send.Peer? && !nodes[g.at].send.Peer? && !nodes[g.sendAt].recv.Peer? &&
      EmptyRange(nodes, g.at + 1, g.sendAt))
  }

  /** The gates stand, in order, for all non-empty steps from `lo` on. */
  ghost predicate Covers(nodes: seq<Node>, gs: seq<Gate>, lo: nat)
    decreases |gs|
  {
    if gs == [] then EmptyRange(nodes, lo, |nodes|)
    else StandsFor(nodes, gs[0], lo) && Covers(nodes, gs[1..], gs[0].sendAt + 1)
  }

  lemma ConsCovers(nodes: seq<Node>, g: Gate, gs: seq<Gate>, lo: nat)
    requires StandsFor(nodes, g, lo) && Covers(nodes, gs, g.sendAt + 1)
    ensures Covers(nodes, [g] + gs, lo)
  {
    assert ([g] + gs)[1..] == gs;
  }

  lemma SkipCovers(nodes: seq<Node>, gs: seq<Gate>, lo: nat)
    requires lo < |nodes| && Empty(nodes[lo]) && Covers(nodes, gs, lo + 1)
    ensures Covers(nodes, gs, lo)
  {}

  lemma GatesOfConcat(nodes: seq<Node>, ks: seq<nat>, ls: seq<nat>)
    requires AreSteps(nodes, ks) && AreSteps(nodes, ls)
    ensures AreSteps(nodes, ks + ls) && GatesOf(nodes, ks + ls) == GatesOf(nodes, ks) + GatesOf(nodes, ls)
  {}

  lemma GatesOfOne(nodes: seq<Node>, k: nat)
    requires k < |nodes|
    ensures AreSteps(nodes, [k]) && GatesOf(nodes, [k]) == [GateOf(nodes, k)]
  {}

  lemma Regroup(gs: seq<Gate>, g: Gate, tail: seq<Gate>)
    ensures gs + [g] + tail == gs + ([g] + tail)
  {}

  lemma NonEmptyAdds(nodes: seq<Node>, lo: nat, hi: nat, tail: seq<Gate>)
    requires lo < hi <= |nodes| && !Empty(nodes[hi - 1])
    ensures GatesOf(nodes, NonEmpty(nodes, lo, hi)) + tail
         == GatesOf(nodes, NonEmpty(nodes, lo, hi - 1)) + ([GateOf(nodes, hi - 1)] + tail)
  {
    var ks := NonEmpty(nodes, lo, hi - 1);
    assert NonEmpty(nodes, lo, hi) == ks + [hi - 1];
    GatesOfOne(nodes, hi - 1);
    GatesOfConcat(nodes, ks, [hi - 1]);
    Regroup(GatesOf(nodes, ks), GateOf(nodes, hi - 1), tail);
  }

  lemma NonEmptySkips(nodes: seq<Node>, lo: nat, hi: nat)
    requires lo < hi <= |nodes| && Empty(nodes[hi - 1])
    ensures NonEmpty(nodes, lo, hi) == NonEmpty(nodes, lo, hi - 1)
  {}

  lemma NoGates(nodes: seq<Node>, lo: nat, tail: seq<Gate>)
    requires lo <= |nodes|
    ensures GatesOf(nodes, NonEmpty(nodes, lo, lo)) + tail == tail
  {
    assert GatesOf(nodes, NonEmpty(nodes, lo, lo)) == [];
  }

  lemma {:induction false} NonEmptyCovers(nodes: seq<Node>, lo: nat, hi: nat, tail: seq<Gate>)
    requires lo <= hi <= |nodes| && Covers(nodes, tail, hi)
    ensures Covers(nodes, GatesOf(nodes, NonEmpty(nodes, lo, hi)) + tail, lo)
    decreases hi
  {
    if lo == hi {
      NoGates(nodes, lo, tail);
    } else if Empty(nodes[hi - 1]) {
      SkipCovers(nodes, tail, hi - 1);
      NonEmptyCovers(nodes, lo, hi - 1, tail);
      NonEmptySkips(nodes, lo, hi);
    } else {
      ConsCovers(nodes, GateOf(nodes, hi - 1), tail, hi - 1);
      NonEmptyCovers(nodes, lo, hi - 1, [GateOf(nodes, hi - 1)] + tail);
      NonEmptyAdds(nodes, lo, hi, tail);
    }
  }

  lemma TailCovers(nodes: seq<Node>, keep: bool)
    requires |nodes| >= 1 && (keep || Empty(nodes[|nodes| - 1]))
    ensures AreSteps(nodes, if keep then [|nodes| - 1] else [])
    ensures Covers(nodes, GatesOf(nodes, if keep then [|nodes| - 1] else []), |nodes| - 1)
  {
    var none: seq<Gate> := [];
    assert Covers(nodes, none, |nodes|);
    if keep {
      GatesOfOne(nodes, |nodes| - 1);
      ConsCovers(nodes, GateOf(nodes, |nodes| - 1), none, |nodes| - 1);
      assert [GateOf(nodes, |nodes| - 1)] + none == [GateOf(nodes, |nodes| - 1)];
    } else {
      SkipCovers(nodes, none, |nodes| - 1);
      assert GatesOf(nodes, []) == none;
    }
  }

  lemma ListCovers(nodes: seq<Node>, h: nat, ks: seq<nat>, tail: seq<nat>)
    requires h < |nodes| && StandsFor(nodes, GateOf(nodes, h), 0) && AreSteps(nodes, ks) && AreSteps(nodes, tail)
    requires Covers(nodes, GatesOf(nodes, ks) + GatesOf(nodes, tail), h + 1)
    ensures AreSteps(nodes, [h] + ks + tail) && Covers(nodes, GatesOf(nodes, [h] + ks + tail), 0)
  {
    var g, rest := GateOf(nodes, h), GatesOf(nodes, ks) + GatesOf(nodes, tail);
    ConsCovers(nodes, g, rest, 0);
    SplitGates(nodes, h, ks, tail);
  }

  lemma KeptIs(nodes: seq<Node>) returns (h: nat, tail: seq<nat>)
    requires Buildable(nodes)
    ensures h == Start(nodes) && h + 1 < |nodes| && tail == if KeepsLast(nodes) then [|nodes| - 1] else []
    ensures Kept(nodes) == [h] + NonEmpty(nodes, h + 1, |nodes| - 1) + tail && AreSteps(nodes, Kept(nodes))
    ensures KeepsLast(nodes) || Empty(nodes[|nodes| - 1])
  {
    h, tail := Start(nodes), if KeepsLast(nodes) then [|nodes| - 1] else [];
  }

  lemma KeptCovers(nodes: seq<Node>)
    requires Buildable(nodes)
    ensures Covers(nodes, GatesOf(nodes, Kept(nodes)), 0)
  {
    var h, tail := KeptIs(nodes);
    StartStands(nodes);
    TailCovers(nodes, KeepsLast(nodes));
    var ks := NonEmpty(nodes, h + 1, |nodes| - 1);
    NonEmptyCovers(nodes, h + 1, |nodes| - 1, GatesOf(nodes, tail));
    ListCovers(nodes, h, ks, tail);
  }

  lemma SplitGates(nodes: seq<Node>, h: nat, ks: seq<nat>, tail: seq<nat>)
    requires h < |nodes| && AreSteps(nodes, ks) && AreSteps(nodes, tail)
    ensures AreSteps(nodes, [h] + ks + tail)
    ensures GatesOf(nodes, [h] + ks + tail) == [GateOf(nodes, h)] + (GatesOf(nodes, ks) + GatesOf(nodes, tail))
  {
    GatesOfOne(nodes, h);
    GatesOfConcat(nodes, [h], ks);
    GatesOfConcat(nodes, [h] + ks, tail);
    assert [GateOf(nodes, h)] + GatesOf(nodes, ks) + GatesOf(nodes, tail)
        == [GateOf(nodes, h)] + (GatesOf(nodes, ks) + GatesOf(nodes, tail));
  }

  lemma StartStands(nodes: seq<Node>)
    requires Buildable(nodes)
    ensures StandsFor(nodes, GateOf(nodes, Start(nodes)), 0)
  {}

  lemma {:induction false} MergeCovers(nodes: seq<Node>, gs: seq<Gate>, lo: nat)
    requires Covers(nodes, gs, lo)
    requires forall i :: 0 <= i < |gs| ==> gs[i].at == gs[i].sendAt
    ensures Covers(nodes, Merge(gs), lo)
    decreases |gs|
  {
    if |gs| >= 2 {
      assert Covers(nodes, gs[1..], gs[0].at + 1);
      if Mergeable(gs[0], gs[1]) {
        assert gs[1..][1..] == gs[2..];
        MergeCovers(nodes, gs[2..], gs[1].at + 1);
        ConsCovers(nodes, Gate(gs[0].at, gs[0].recv, gs[1].sendAt, gs[1].send), Merge(gs[2..]), lo);
      } else {
        MergeCovers(nodes, gs[1..], gs[0].at + 1);
        ConsCovers(nodes, gs[0], Merge(gs[1..]), lo);
      }
    }
  }

  lemma OptimizedCovers(nodes: seq<Node>)
    requires Buildable(nodes)
    ensures Covers(nodes, Optimized(nodes), 0)
  {
    KeptCovers(nodes);
    MergeCovers(nodes, GatesOf(nodes, Kept(nodes)), 0);
  }

  /** What happens on the wire, with the step it belongs to. */
  datatype Event = Receive(step: nat, source: Link) | SendTo(step: nat, dest: Link)

  /** A receive, if there is one, and then a send, if there is one. */
  function Both(at: nat, recv: Link, sendAt: nat, send: Link): seq<Event> {
    if recv.Peer? then (if send.Peer? then [Receive(at, recv), SendTo(sendAt, send)] else [Receive(at, recv)])
    else if send.Peer? then [SendTo(sendAt, send)] else []
  }

  /** Receives and sends of the steps from `lo` up to `hi`, in order. */
  function StepTrace(nodes: seq<Node>, lo: nat, hi: nat): seq<Event>
    requires lo <= hi <= |nodes|
    decreases hi - lo
  {
    if lo == hi then [] else Both(lo, nodes[lo].recv, lo, nodes[lo].send) + StepTrace(nodes, lo + 1, hi)
  }

  /** Receives and sends along the list, in order. */
  function GateTrace(gs: seq<Gate>): seq<Event> {
    if gs == [] then [] else Both(gs[0].at, gs[0].recv, gs[0].sendAt, gs[0].send) + GateTrace(gs[1..])
  }

  lemma EmptyStep(nodes: seq<Node>, k: nat)
    requires k < |nodes| && Empty(nodes[k])
    ensures StepTrace(nodes, k, |nodes|) == StepTrace(nodes, k + 1, |nodes|)
  {
    assert Both(k, nodes[k].recv, k, nodes[k].send) == [];
  }

  lemma {:induction false} SkipEmpty(nodes: seq<Node>, lo: nat, mid: nat)
    requires lo <= mid && EmptyRange(nodes, lo, mid)
    ensures StepTrace(nodes, lo, |nodes|) == StepTrace(nodes, mid, |nodes|)
    decreases mid - lo
  {
    if lo < mid {
      SkipEmpty(nodes, lo + 1, mid);
      assert Empty(nodes[lo]);
      EmptyStep(nodes, lo);
    }
  }

  lemma BothSplit(at: nat, recv: Link, sendAt: nat, send: Link, none: Link, t: seq<Event>)
    requires !none.Peer?
    ensures Both(at, recv, sendAt, send) + t == Both(at, recv, at, none) + (Both(sendAt, none, sendAt, send) + t)
  {}

  lemma BothNone(at: nat, recv: Link, send: Link, other: Link)
    requires !other.Peer?
    ensures !send.Peer? ==> Both(at, recv, at, send) == Both(at, recv, at, other)
    ensures !recv.Peer? ==> Both(at, recv, at, send) == Both(at, other, at, send)
  {}

  lemma TraceNext(nodes: seq<Node>, k: nat, recv: Link, send: Link)
    requires k < |nodes| && nodes[k] == Node(recv, send)
    ensures StepTrace(nodes, k, |nodes|) == Both(k, recv, k, send) + StepTrace(nodes, k + 1, |nodes|)
  {}

  lemma MergedPair(nodes: seq<Node>, at: nat, recv: Link, none: Link, sendAt: nat, none': Link, send: Link)
    requires at < sendAt < |nodes| && nodes[at] == Node(recv, none) && nodes[sendAt] == Node(none', send)
    requires !none.Peer? && !none'.Peer? && EmptyRange(nodes, at + 1, sendAt)
    ensures StepTrace(nodes, at, |nodes|) == Both(at, recv, sendAt, send) + StepTrace(nodes, sendAt + 1, |nodes|)
  {
    TraceNext(nodes, at, recv, none);
    SkipEmpty(nodes, at + 1, sendAt);
    TraceNext(nodes, sendAt, none', send);
    BothNone(sendAt, none', send, none);
    BothSplit(at, recv, sendAt, send, none, StepTrace(nodes, sendAt + 1, |nodes|));
  }

  lemma GateStep(nodes: seq<Node>, g: Gate, lo: nat)
    requires StandsFor(nodes, g, lo)
    ensures StepTrace(nodes, lo, |nodes|)
         == Both(g.at, g.recv, g.sendAt, g.send) + StepTrace(nodes, g.sendAt + 1, |nodes|)
  {
    SkipEmpty(nodes, lo, g.at);
    GateTraceAt(nodes, g.at, nodes[g.at].recv, nodes[g.at].send, g.sendAt, nodes[g.sendAt].recv, nodes[g.sendAt].send);
  }

  lemma GateTraceAt(nodes: seq<Node>, at: nat, recv: Link, none: Link, sendAt: nat, none': Link, send: Link)
    requires at <= sendAt < |nodes| && nodes[at] == Node(recv, none) && nodes[sendAt] == Node(none', send)
    requires at < sendAt ==> !none.Peer? && !none'.Peer? && EmptyRange(nodes, at + 1, sendAt)
    ensures StepTrace(nodes, at, |nodes|) == Both(at, recv, sendAt, send) + StepTrace(nodes, sendAt + 1, |nodes|)
  {
    if at < sendAt {
      MergedPair(nodes, at, recv, none, sendAt, none', send);
    } else {
      TraceNext(nodes, at, recv, send);
    }
  }

  lemma {:induction false} CoversTrace(nodes: seq<Node>, gs: seq<Gate>, lo: nat)
    requires lo <= |nodes| && Covers(nodes, gs, lo)
    ensures GateTrace(gs) == StepTrace(nodes, lo, |nodes|)
    decreases |gs|
  {
    if gs == [] {
      SkipEmpty(nodes, lo, |nodes|);
    } else {
      var g, rest := gs[0], gs[1..];
      GateStep(nodes, g, lo);
      CoversTrace(nodes, rest, g.sendAt + 1);
    }
  }

  /** The optimiser preserves meaning: the receives and sends along the final list are those of the
      original array, in the same order. */
  lemma TracePreserved(nodes: seq<Node>)
    requires Buildable(nodes)
    ensures GateTrace(Optimized(nodes)) == StepTrace(nodes, 0, |nodes|)
  {
    OptimizedCovers(nodes);
    CoversTrace(nodes, Optimized(nodes), 0);
  }

  lemma {:induction false} MergeEnds(gs: seq<Gate>)
    requires gs != [] && !gs[|gs| - 1].send.Peer?
    ensures Merge(gs) != [] && Merge(gs)[0].recv == gs[0].recv && Merge(gs)[0].at == gs[0].at
    ensures !Merge(gs)[|Merge(gs)| - 1].send.Peer?
    ensures |gs| >= 2 && !gs[0].recv.Peer? ==> |Merge(gs)| >= 2
    decreases |gs|
  {
    if |gs| >= 2 {
      if Mergeable(gs[0], gs[1]) {
        MergeEnds(gs[2..]);
      } else {
        MergeEnds(gs[1..]);
      }
    }
  }

  lemma {:induction false} NonEmptyNone(nodes: seq<Node>, lo: nat, hi: nat)
    requires lo <= hi <= |nodes| && NonEmpty(nodes, lo, hi) == []
    ensures EmptyRange(nodes, lo, hi)
    decreases hi
  {
    if lo < hi {
      NonEmptyNone(nodes, lo, hi - 1);
    }
  }

  lemma TwoKept(nodes: seq<Node>)
    requires Buildable(nodes)
    ensures |Kept(nodes)| >= 2 && !nodes[Start(nodes)].recv.Peer?
    ensures !nodes[Kept(nodes)[|Kept(nodes)| - 1]].send.Peer?
  {
    if NonEmpty(nodes, Start(nodes) + 1, |nodes| - 1) == [] {
      NonEmptyNone(nodes, Start(nodes) + 1, |nodes| - 1);
    }
  }

  /** The first gate never receives, the last never sends, and they are two gates. */
  lemma ListEnds(nodes: seq<Node>)
    requires Buildable(nodes)
    ensures var gs := Optimized(nodes);
            |gs| >= 2 && !gs[0].recv.Peer? && !gs[|gs| - 1].send.Peer?
  {
    TwoKept(nodes);
    MergeEnds(GatesOf(nodes, Kept(nodes)));
  }

  // ---------------------------------------------------------------- the array that is left

  /** The optimised array differs from the original only in sends that were taken over. Steps that are not
      in the list stay as they are. */
  function Rewritten(nodes: seq<Node>, gs: seq<Gate>): (r: seq<Node>)
    ensures |r| == |nodes|
  {
    seq(|nodes|, k requires 0 <= k < |nodes| => Node(nodes[k].recv, SendNow(nodes, gs, k)))
  }

  function SendNow(nodes: seq<Node>, gs: seq<Gate>, k: nat): Link
    requires k < |nodes|
  {
    if gs == [] then nodes[k].send
    else if gs[0].at == k then gs[0].send
    else SendNow(nodes, gs[1..], k)
  }

  lemma {:induction false} SendNowAppend(nodes: seq<Node>, gs: seq<Gate>, g: Gate, k: nat)
    requires k < |nodes| && forall j :: 0 <= j < |gs| ==> gs[j].at != g.at
    ensures SendNow(nodes, gs + [g], k) == if k == g.at then g.send else SendNow(nodes, gs, k)
    decreases |gs|
  {
    if gs == [] {
      assert gs + [g] == [g] && [g][1..] == [];
    } else {
      assert (gs + [g])[1..] == gs[1..] + [g];
      SendNowAppend(nodes, gs[1..], g, k);
    }
  }

  lemma RewrittenAppend(nodes: seq<Node>, gs: seq<Gate>, g: Gate)
    requires g.at < |nodes| && forall j :: 0 <= j < |gs| ==> gs[j].at != g.at
    ensures Rewritten(nodes, gs + [g]) == Rewritten(nodes, gs)[g.at := Node(nodes[g.at].recv, g.send)]
  {
    var r := Rewritten(nodes, gs)[g.at := Node(nodes[g.at].recv, g.send)];
    forall k | 0 <= k < |nodes| ensures Rewritten(nodes, gs + [g])[k] == r[k] {
      SendNowAppend(nodes, gs, g, k);
    }
  }

  lemma RewrittenNone(nodes: seq<Node>)
    ensures Rewritten(nodes, []) == nodes
  {}

  // ---------------------------------------------------------------- the two passes in place

  ghost predicate Ascending(path: seq<nat>) {
    forall i, j :: 0 <= i < j < |path| ==> path[i] < path[j]
  }

  /** The entry after `j`, if any. */
  function Successor(path: seq<nat>, j: nat): Option<nat> {
    if j + 1 < |path| then Some(path[j + 1]) else None
  }

  /** Following the links from `path[lo]` visits the rest of `path` and stops. */
  ghost predicate Linked(next: seq<Option<nat>>, path: seq<nat>, lo: nat) {
    forall j: nat :: lo <= j < |path| ==> path[j] < |next| && next[path[j]] == Successor(path, j)
  }

  /** The list that starts at `head` is `gs`: same peers, linked in this order. */
  ghost predicate IsList(nodes: seq<Node>, next: seq<Option<nat>>, head: nat, gs: seq<Gate>) {
    |next| == |nodes| && gs != [] && gs[0].at == head && Shown(nodes, gs) && Linked(next, Ats(gs), 0)
  }

  ghost predicate Shown(nodes: seq<Node>, gs: seq<Gate>) {
    forall j :: 0 <= j < |gs| ==> gs[j].at < |nodes| && nodes[gs[j].at] == Node(gs[j].recv, gs[j].send)
  }

  ghost function Ats(gs: seq<Gate>): (r: seq<nat>)
    ensures |r| == |gs| && forall j :: 0 <= j < |gs| ==> r[j] == gs[j].at
  {
    seq(|gs|, j requires 0 <= j < |gs| => gs[j].at)
  }

  function Last(path: seq<nat>): nat
    requires path != []
  {
    path[|path| - 1]
  }

  /** An ascending path whose steps are linked, the last one not yet. */
  ghost predicate Chain(next: seq<Option<nat>>, path: seq<nat>) {
    path != [] && Ascending(path) && Last(path) < |next| &&
    forall j: nat :: j < |path| - 1 ==> path[j] < |next| && next[path[j]] == Successor(path, j)
  }

  lemma ChainAdd(next: seq<Option<nat>>, path: seq<nat>, nx: nat)
    requires Chain(next, path) && Last(path) < nx < |next|
    ensures Chain(next[Last(path) := Some(nx)], path + [nx])
  {
    var next', path' := next[Last(path) := Some(nx)], path + [nx];
    forall j: nat | j < |path'| - 1
      ensures path'[j] < |next'| && next'[path'[j]] == Successor(path', j)
    {
      assert path'[j] == path[j];
    }
  }

  lemma ChainExtend(next: seq<Option<nat>>, path: seq<nat>, nx: nat)
    requires Chain(next, path) && Last(path) < nx < |next| && next[Last(path)] == Some(nx)
    ensures Chain(next, path + [nx])
  {
    ChainAdd(next, path, nx);
    assert next[Last(path) := Some(nx)] == next;
  }

  lemma ChainRedirect(next: seq<Option<nat>>, path: seq<nat>, v: Option<nat>)
    requires Chain(next, path)
    ensures Chain(next[Last(path) := v], path)
  {}

  lemma ChainClose(next: seq<Option<nat>>, path: seq<nat>)
    requires Chain(next, path)
    ensures Linked(next[Last(path) := None], path, 0)
  {}

  /** The first pass stands before step `nx` with the kept steps so far linked up. */
  ghost predicate Linking(a: seq<Node>, next: seq<Option<nat>>, head: nat, nx: nat, path: seq<nat>) {
    |next| == |a| && head < nx <= |a| && Chain(next, path) && Last(path) < nx &&
    path == [head] + NonEmpty(a, head + 1, nx)
  }

  lemma LinkingSkips(a: seq<Node>, next: seq<Option<nat>>, head: nat, nx: nat, path: seq<nat>)
    requires Linking(a, next, head, nx, path) && nx < |a| && Empty(a[nx])
    ensures Linking(a, next, head, nx + 1, path)
  {
    assert NonEmpty(a, head + 1, nx + 1) == NonEmpty(a, head + 1, nx);
  }

  lemma LinkingAdds(a: seq<Node>, next: seq<Option<nat>>, head: nat, nx: nat, path: seq<nat>)
    requires Linking(a, next, head, nx, path) && nx < |a| && !Empty(a[nx])
    ensures Linking(a, next[Last(path) := Some(nx)], head, nx + 1, path + [nx])
  {
    ChainAdd(next, path, nx);
    assert NonEmpty(a, head + 1, nx + 1) == NonEmpty(a, head + 1, nx) + [nx];
    assert path + [nx] == [head] + NonEmpty(a, head + 1, nx + 1);
  }

  lemma LinkingEnds(a: seq<Node>, next: seq<Option<nat>>, head: nat, path: seq<nat>)
    requires Buildable(a) && head == Start(a) && Linking(a, next, head, |a| - 1, path)
    ensures path == KeptFront(a) && Ascending(Kept(a))
    ensures KeepsLast(a) ==> Linked(next[Last(path) := Some(|a| - 1)][|a| - 1 := None], Kept(a), 0)
    ensures !KeepsLast(a) ==> Linked(next[Last(path) := None], Kept(a), 0)
  {
    if KeepsLast(a) {
      ChainAdd(next, path, |a| - 1);
      ChainClose(next[Last(path) := Some(|a| - 1)], path + [|a| - 1]);
      assert Kept(a) == path + [|a| - 1];
    } else {
      ChainClose(next, path);
      assert Kept(a) == path;
    }
  }

  lemma LinkingStarts(a: seq<Node>, next: seq<Option<nat>>, head: nat)
    requires |next| == |a| && head + 1 <= |a|
    ensures Linking(a, next, head, head + 1, [head])
  {
    assert NonEmpty(a, head + 1, head + 1) == [];
  }

  /** One link of the list is set. */
  method SetNext(next: array<Option<nat>>, k: nat, v: Option<nat>)
    requires k < next.Length
    modifies next
    ensures next[..] == old(next[..])[k := v]
  {
    next[k] := v;
  }

  /** The loop of the first pass over the steps between the first and the last. */
  method LinkMiddle(nodes: array<Node>, next: array<Option<nat>>, head: nat) returns (curr: nat, ghost path: seq<nat>)
    requires next.Length == nodes.Length && head + 1 < nodes.Length
    modifies next
    ensures nodes[..] == old(nodes[..]) && Linking(nodes[..], next[..], head, nodes.Length - 1, path) &&
      curr == Last(path)
  {
    ghost var a := nodes[..];
    curr, path := head, [head];
    LinkingStarts(a, next[..], head);
    var nx := head + 1;
    while nx < nodes.Length - 1
      invariant nx <= nodes.Length - 1
      invariant nodes[..] == a && Linking(a, next[..], head, nx, path) && curr == Last(path)
    {
      if !nodes[nx].send.Peer? && !nodes[nx].recv.Peer? {
        LinkingSkips(a, next[..], head, nx, path);
      } else {
        LinkingAdds(a, next[..], head, nx, path);
        SetNext(next, curr, Some(nx));
        path := path + [nx];
        curr := nx;
      }
      nx := nx + 1;
    }
  }

  /** First pass: link the steps that are kept. */
  method LinkSteps(nodes: array<Node>, next: array<Option<nat>>) returns (head: nat)
    requires Buildable(nodes[..]) && next.Length == nodes.Length
    modifies next
    ensures head == Start(nodes[..]) && nodes[..] == old(nodes[..])
    ensures Ascending(Kept(nodes[..])) && Linked(next[..], Kept(nodes[..]), 0)
  {
    ghost var a := nodes[..];
    head := if !nodes[0].send.Peer? && !nodes[0].recv.Peer? && !nodes[1].recv.Peer? then 1 else 0;
    assert head == Start(a);
    var curr, path := LinkMiddle(nodes, next, head);
    var nx := nodes.Length - 1;
    LinkingEnds(a, next[..], head, path);
    assert KeepsLast(a) <==> !(Empty(a[nx]) && !a[curr].send.Peer?);
    if !nodes[nx].send.Peer? && !nodes[nx].recv.Peer? && !nodes[curr].send.Peer? {
      SetNext(next, curr, None);
    } else {
      SetNext(next, curr, Some(nx));
      SetNext(next, nx, None);
    }
  }

  lemma {:induction false} MergeFront(gs: seq<Gate>, i: nat)
    requires i < |gs|
    ensures i + 1 < |gs| && Mergeable(gs[i], gs[i + 1]) ==>
      Merge(gs[i..]) == [Gate(gs[i].at, gs[i].recv, gs[i + 1].sendAt, gs[i + 1].send)] + Merge(gs[i + 2..])
    ensures !(i + 1 < |gs| && Mergeable(gs[i], gs[i + 1])) ==> Merge(gs[i..]) == [gs[i]] + Merge(gs[i + 1..])
  {
    if i + 1 < |gs| {
      assert gs[i..][0] == gs[i] && gs[i..][1] == gs[i + 1];
      assert gs[i..][1..] == gs[i + 1..] && gs[i..][2..] == gs[i + 2..];
    } else {
      assert gs[i..] == [gs[i]] && gs[i + 1..] == [];
    }
  }

  /** The part of the second pass that is settled is linked up, and its last entry leads to `curr`, or
      past it when the step there has just been merged away. */
  ghost predicate Settled(nodes: seq<Node>, next: seq<Option<nat>>, out: seq<Gate>, head: nat, curr: nat,
                          merged: bool) {
    curr < |next| == |nodes| &&
    if out == [] then curr == head && !merged
    else Shown(nodes, out) && Chain(next, Ats(out)) && out[0].at == head && Last(Ats(out)) < curr &&
         next[Last(Ats(out))] == if merged then next[curr] else Some(curr)
  }

  /** The steps from entry `i` on are as they were. */
  ghost predicate Ahead(a: seq<Node>, nodes: seq<Node>, next: seq<Option<nat>>, path: seq<nat>, i: nat) {
    |a| == |nodes| == |next| && i < |path| && Ascending(path) && Linked(next, path, i) &&
    forall j: nat :: i <= j < |path| ==> nodes[path[j]] == a[path[j]]
  }

  /** The second pass stands at entry `i` of `path`. */
  ghost predicate Merging(a: seq<Node>, nodes: seq<Node>, next: seq<Option<nat>>, path: seq<nat>,
                          out: seq<Gate>, i: nat, merged: bool) {
    Ahead(a, nodes, next, path, i) && Settled(nodes, next, out, path[0], path[i], merged) &&
    (merged ==> !a[path[i]].recv.Peer?)
  }

  lemma SettledAdds(nodes: seq<Node>, next: seq<Option<nat>>, out: seq<Gate>, head: nat, curr: nat, g: Gate)
    requires Settled(nodes, next, out, head, curr, false) && g.at == curr && nodes[curr] == Node(g.recv, g.send)
    ensures Shown(nodes, out + [g]) && Chain(next, Ats(out + [g])) && Last(Ats(out + [g])) == curr
    ensures (out + [g])[0].at == head
  {
    if out != [] {
      ChainExtend(next, Ats(out), curr);
    }
    assert Ats(out + [g]) == Ats(out) + [curr];
  }

  lemma SettledFrame(nodes: seq<Node>, next: seq<Option<nat>>, out: seq<Gate>, head: nat, curr: nat, nd: Node)
    requires Settled(nodes, next, out, head, curr, false)
    ensures Settled(nodes[curr := nd], next, out, head, curr, false)
  {
    forall j | 0 <= j < |out| ensures out[j].at < curr {
      assert Ats(out)[j] <= Last(Ats(out));
    }
  }

  lemma AheadMoves(a: seq<Node>, nodes: seq<Node>, next: seq<Option<nat>>, path: seq<nat>, i: nat, nd: Node,
                   v: Option<nat>)
    requires Ahead(a, nodes, next, path, i) && i + 1 < |path|
    ensures path[i] < |nodes| && Ahead(a, nodes[path[i] := nd], next[path[i] := v], path, i + 1)
    ensures Ahead(a, nodes, next, path, i + 1)
  {}

  lemma MergingTakes(a: seq<Node>, nodes: seq<Node>, next: seq<Option<nat>>, path: seq<nat>, out: seq<Gate>, i: nat)
    requires Merging(a, nodes, next, path, out, i, false) && i + 1 < |path|
    requires Mergeable(GateOf(a, path[i]), GateOf(a, path[i + 1]))
    ensures var c, d := path[i], path[i + 1];
            Merging(a, nodes[c := nodes[c].(send := nodes[d].send)], next[c := next[d]], path,
                    out + [Gate(c, a[c].recv, d, a[d].send)], i + 1, true)
  {
    var c, d := path[i], path[i + 1];
    var nd, g := nodes[c].(send := nodes[d].send), Gate(c, a[c].recv, d, a[d].send);
    AheadMoves(a, nodes, next, path, i, nd, next[d]);
    SettledFrame(nodes, next, out, path[0], c, nd);
    SettledAdds(nodes[c := nd], next, out, path[0], c, g);
    ChainRedirect(next, Ats(out + [g]), next[d]);
  }

  lemma MergingKeeps(a: seq<Node>, nodes: seq<Node>, next: seq<Option<nat>>, path: seq<nat>, out: seq<Gate>, i: nat,
                     merged: bool)
    requires Merging(a, nodes, next, path, out, i, merged) && i + 1 < |path|
    ensures Merging(a, nodes, next, path, if merged then out else out + [GateOf(a, path[i])], i + 1, false)
  {
    AheadMoves(a, nodes, next, path, i, nodes[path[i]], None);
    Stands(a, nodes, next, path, out, i, merged);
    if !merged {
      SettledAdds(nodes, next, out, path[0], path[i], GateOf(a, path[i]));
    }
  }

  lemma MergingEnds(a: seq<Node>, nodes: seq<Node>, next: seq<Option<nat>>, path: seq<nat>, out: seq<Gate>, i: nat,
                    merged: bool)
    requires Merging(a, nodes, next, path, out, i, merged) && i + 1 == |path|
    ensures IsList(nodes, next, path[0], if merged then out else out + [GateOf(a, path[i])])
  {
    Stands(a, nodes, next, path, out, i, merged);
    if !merged {
      SettledAdds(nodes, next, out, path[0], path[i], GateOf(a, path[i]));
    }
    var out' := if merged then out else out + [GateOf(a, path[i])];
    assert next[Last(Ats(out')) := None] == next;
    ChainClose(next, Ats(out'));
  }

  /** `out` is what the second pass makes of the first `k` entries. */
  ghost predicate MergedSoFar(gs: seq<Gate>, out: seq<Gate>, k: nat) {
    k <= |gs| && out + Merge(gs[k..]) == Merge(gs)
  }

  lemma MergedTakes(gs: seq<Gate>, out: seq<Gate>, i: nat)
    requires MergedSoFar(gs, out, i) && i + 1 < |gs| && Mergeable(gs[i], gs[i + 1])
    ensures MergedSoFar(gs, out + [Gate(gs[i].at, gs[i].recv, gs[i + 1].sendAt, gs[i + 1].send)], i + 2)
  {
    MergeFront(gs, i);
  }

  lemma MergedKeeps(gs: seq<Gate>, out: seq<Gate>, i: nat)
    requires MergedSoFar(gs, out, i) && i < |gs| && !(i + 1 < |gs| && Mergeable(gs[i], gs[i + 1]))
    ensures MergedSoFar(gs, out + [gs[i]], i + 1)
  {
    MergeFront(gs, i);
  }

  lemma MergedAll(gs: seq<Gate>, out: seq<Gate>)
    requires MergedSoFar(gs, out, |gs|)
    ensures out == Merge(gs)
  {
    assert gs[|gs|..] == [];
  }

  /** The second pass at entry `i`, and what it has made so far. */
  ghost predicate Pass(a: seq<Node>, nodes: seq<Node>, next: seq<Option<nat>>, path: seq<nat>, out: seq<Gate>, i: nat,
                       merged: bool) {
    AreSteps(a, path) && Merging(a, nodes, next, path, out, i, merged) &&
    MergedSoFar(GatesOf(a, path), out, if merged then i + 1 else i) && nodes == Rewritten(a, out)
  }

  /** The step that the second pass has reached is not yet in its result. */
  lemma NotYet(nodes: seq<Node>, next: seq<Option<nat>>, out: seq<Gate>, head: nat, curr: nat, merged: bool)
    requires Settled(nodes, next, out, head, curr, merged)
    ensures forall j :: 0 <= j < |out| ==> out[j].at != curr
  {
    forall j | 0 <= j < |out| ensures out[j].at != curr {
      assert Ats(out)[j] <= Last(Ats(out));
    }
  }

  lemma RewrittenTakes(a: seq<Node>, nodes: seq<Node>, out: seq<Gate>, c: nat, d: nat)
    requires nodes == Rewritten(a, out) && c < |a| && d < |a| && nodes[c] == a[c] && nodes[d] == a[d]
    requires forall j :: 0 <= j < |out| ==> out[j].at != c
    ensures nodes[c := nodes[c].(send := nodes[d].send)] == Rewritten(a, out + [Gate(c, a[c].recv, d, a[d].send)])
  {
    RewrittenAppend(a, out, Gate(c, a[c].recv, d, a[d].send));
  }

  lemma RewrittenKeeps(a: seq<Node>, nodes: seq<Node>, out: seq<Gate>, c: nat)
    requires nodes == Rewritten(a, out) && c < |a| && nodes[c] == a[c] && forall j :: 0 <= j < |out| ==> out[j].at != c
    ensures nodes == Rewritten(a, out + [GateOf(a, c)])
  {
    RewrittenAppend(a, out, GateOf(a, c));
    assert nodes[c := Node(a[c].recv, a[c].send)] == nodes;
  }

  lemma PassStarts(a: seq<Node>, next: seq<Option<nat>>, path: seq<nat>)
    requires |next| == |a| && path != [] && Ascending(path) && Linked(next, path, 0)
    ensures Pass(a, a, next, path, [], 0, false)
  {
    var gs := GatesOf(a, path);
    assert gs[0..] == gs && [] + Merge(gs) == Merge(gs);
    RewrittenNone(a);
  }

  lemma PassTakes(a: seq<Node>, nodes: seq<Node>, next: seq<Option<nat>>, path: seq<nat>, out: seq<Gate>, i: nat)
    requires Pass(a, nodes, next, path, out, i, false) && i + 1 < |path|
    requires Mergeable(GateOf(a, path[i]), GateOf(a, path[i + 1]))
    ensures var c, d := path[i], path[i + 1];
            Pass(a, nodes[c := nodes[c].(send := nodes[d].send)], next[c := next[d]], path,
                 out + [Gate(c, a[c].recv, d, a[d].send)], i + 1, true)
  {
    MergingTakes(a, nodes, next, path, out, i);
    MergedTakes(GatesOf(a, path), out, i);
    Stands(a, nodes, next, path, out, i, false);
    NotYet(nodes, next, out, path[0], path[i], false);
    RewrittenTakes(a, nodes, out, path[i], path[i + 1]);
  }

  lemma PassKeeps(a: seq<Node>, nodes: seq<Node>, next: seq<Option<nat>>, path: seq<nat>, out: seq<Gate>, i: nat,
                  merged: bool)
    requires Pass(a, nodes, next, path, out, i, merged) && i + 1 < |path|
    requires merged || !Mergeable(GateOf(a, path[i]), GateOf(a, path[i + 1]))
    ensures Pass(a, nodes, next, path, if merged then out else out + [GateOf(a, path[i])], i + 1, false)
  {
    MergingKeeps(a, nodes, next, path, out, i, merged);
    if !merged {
      MergedKeeps(GatesOf(a, path), out, i);
      KeptRewritten(a, nodes, next, path, out, i);
    }
  }

  lemma KeptRewritten(a: seq<Node>, nodes: seq<Node>, next: seq<Option<nat>>, path: seq<nat>, out: seq<Gate>, i: nat)
    requires Merging(a, nodes, next, path, out, i, false) && AreSteps(a, path) && nodes == Rewritten(a, out)
    ensures nodes == Rewritten(a, out + [GateOf(a, path[i])])
  {
    Stands(a, nodes, next, path, out, i, false);
    NotYet(nodes, next, out, path[0], path[i], false);
    RewrittenKeeps(a, nodes, out, path[i]);
  }

  lemma PassEnds(a: seq<Node>, nodes: seq<Node>, next: seq<Option<nat>>, path: seq<nat>, out: seq<Gate>, i: nat,
                 merged: bool)
    requires Pass(a, nodes, next, path, out, i, merged) && i + 1 == |path|
    ensures IsList(nodes, next, path[0], Merge(GatesOf(a, path))) && nodes == Rewritten(a, Merge(GatesOf(a, path)))
  {
    MergingEnds(a, nodes, next, path, out, i, merged);
    if !merged {
      MergedKeeps(GatesOf(a, path), out, i);
      KeptRewritten(a, nodes, next, path, out, i);
    }
    MergedAll(GatesOf(a, path), if merged then out else out + [GateOf(a, path[i])]);
  }

  /** The send of step `nx` moves to step `curr`, and `nx` is taken out of the list. */
  method TakeOver(nodes: array<Node>, next: array<Option<nat>>, curr: nat, nx: nat)
    requires curr < nodes.Length == next.Length && nx < nodes.Length
    modifies nodes, next
    ensures nodes[..] == old(nodes[..][curr := nodes[curr].(send := nodes[nx].send)])
    ensures next[..] == old(next[..][curr := next[nx]])
  {
    nodes[curr] := nodes[curr].(send := nodes[nx].send);
    next[curr] := next[nx];
  }

  /** One turn of the second pass. */
  method MergeAt(nodes: array<Node>, next: array<Option<nat>>, curr: nat, ghost a: seq<Node>, ghost path: seq<nat>,
                 ghost out: seq<Gate>, ghost i: nat, ghost merged: bool)
    returns (nx: nat, ghost more: seq<Gate>, ghost took: bool)
    requires next.Length == nodes.Length && Pass(a, nodes[..], next[..], path, out, i, merged)
    requires curr == path[i] < nodes.Length && next[curr].Some?
    modifies nodes, next
    ensures i + 1 < |path| && nx == path[i + 1] < nodes.Length
    ensures Pass(a, nodes[..], next[..], path, more, i + 1, took)
  {
    Stands(a, nodes[..], next[..], path, out, i, merged);
    nx := next[curr].value;
    if nodes[curr].recv.Peer? && !nodes[curr].send.Peer? && !nodes[nx].recv.Peer? && nodes[nx].send.Peer? {
      PassTakes(a, nodes[..], next[..], path, out, i);
      TakeOver(nodes, next, curr, nx);
      more, took := out + [Gate(curr, a[curr].recv, nx, a[nx].send)], true;
    } else {
      PassKeeps(a, nodes[..], next[..], path, out, i, merged);
      more, took := if merged then out else out + [GateOf(a, curr)], false;
    }
  }

  lemma PassAtEnd(a: seq<Node>, nodes: seq<Node>, next: seq<Option<nat>>, path: seq<nat>, out: seq<Gate>, i: nat,
                  merged: bool)
    requires Pass(a, nodes, next, path, out, i, merged)
    ensures path[i] < |next|
    ensures next[path[i]].None? ==> IsList(nodes, next, path[0], Merge(GatesOf(a, path)))
    ensures next[path[i]].None? ==> nodes == Rewritten(a, Merge(GatesOf(a, path)))
  {
    Stands(a, nodes, next, path, out, i, merged);
    if next[path[i]].None? {
      PassEnds(a, nodes, next, path, out, i, merged);
    }
  }

  /** Second pass: a receive-only step takes over the send of the send-only step after it. */
  method MergeSteps(nodes: array<Node>, next: array<Option<nat>>, head: nat, ghost path: seq<nat>)
    requires next.Length == nodes.Length
    requires path != [] && path[0] == head && Ascending(path) && Linked(next[..], path, 0)
    modifies nodes, next
    ensures AreSteps(old(nodes[..]), path)
    ensures IsList(nodes[..], next[..], head, Merge(GatesOf(old(nodes[..]), path)))
    ensures nodes[..] == Rewritten(old(nodes[..]), Merge(GatesOf(old(nodes[..]), path)))
  {
    ghost var a := nodes[..];
    ghost var out: seq<Gate>, i, merged := [], 0, false;
    var curr := head;
    PassStarts(a, next[..], path);
    PassAtEnd(a, nodes[..], next[..], path, out, i, merged);
    while next[curr].Some?
      invariant Pass(a, nodes[..], next[..], path, out, i, merged) && curr == path[i] && curr < nodes.Length
      decreases |path| - i
    {
      curr, out, merged := MergeAt(nodes, next, curr, a, path, out, i, merged);
      i := i + 1;
    }
    PassAtEnd(a, nodes[..], next[..], path, out, i, merged);
  }

  /** Where the links lead from the place of the second pass, and what the steps there hold. */
  lemma Stands(a: seq<Node>, nodes: seq<Node>, next: seq<Option<nat>>, path: seq<nat>, out: seq<Gate>, i: nat,
               merged: bool)
    requires Merging(a, nodes, next, path, out, i, merged)
    ensures path[i] < |nodes| && nodes[path[i]] == a[path[i]]
    ensures i + 1 == |path| <==> next[path[i]] == None
    ensures i + 1 < |path| ==> next[path[i]] == Some(path[i + 1])
    ensures i + 1 < |path| ==> path[i + 1] < |nodes| && nodes[path[i + 1]] == a[path[i + 1]]
    ensures merged ==> !a[path[i]].recv.Peer?
  {}

  method OptimizedSequence(nodes: array<Node>, next: array<Option<nat>>) returns (head: nat)
    requires Buildable(nodes[..]) && next.Length == nodes.Length
    modifies nodes, next
    ensures IsList(nodes[..], next[..], head, Optimized(old(nodes[..])))
    ensures nodes[..] == Rewritten(old(nodes[..]), Optimized(old(nodes[..])))
  {
    head := LinkSteps(nodes, next);
    MergeSteps(nodes, next, head, Kept(nodes[..]));
  }
}
