/** From step lists to connected gates: numbering, the exchanged words, and the remote ends every
    process derives from them. */
module Wiring {
  import opened Powers
  import opened Axis
  import opened Network
  import opened Optimizer

  /** Some axis holds more than one node, so there is a network to build. */
  ghost predicate HasNetwork(dims: seq<nat>) {
    exists a :: 0 <= a < |dims| && dims[a] >= 2
  }

  // ---------------------------------------------------------------- the built arrays qualify

  lemma {:induction false} FirstAxis(dims: seq<nat>, a: nat) returns (b: nat)
    requires a < |dims| && dims[a] >= 2
    ensures b < |dims| && dims[b] >= 2 && Offset(dims, b) == 0
  {
    if Offset(dims, a) == 0 {
      b := a;
    } else {
      var d, t := AxisOf(dims, a, 0);
      b := d;
    }
  }

  lemma {:induction false} LastAxis(dims: seq<nat>, m: nat) returns (b: nat)
    requires m <= |dims| && Offset(dims, m) > 0
    ensures b < m && dims[b] >= 2 && Offset(dims, b) + Rounds(dims[b]) + 1 == Offset(dims, m)
  {
    if dims[m - 1] >= 2 {
      b := m - 1;
    } else {
      b := LastAxis(dims, m - 1);
    }
  }

  /** The first two steps of an axis: the start of a process is one of them. */
  lemma AxisHead(axis: nat, n: nat, p: nat)
    requires n >= 2 && p < n
    ensures Rounds(n) >= 1
    ensures !(Empty(AxisNode(axis, n, p, 0)) && Empty(AxisNode(axis, n, p, 1)))
    ensures Empty(AxisNode(axis, n, p, 0)) ==> Rounds(n) >= 3
  {
    Geometry(n);
    InnerZone(n, p);
  }

  lemma ArrayBuildable(dims: seq<nat>, c: Proc)
    requires InGrid(dims, c) && HasNetwork(dims)
    ensures |StepArray(dims, c)| == Length(dims) && Buildable(StepArray(dims, c))
  {
    var a0 :| 0 <= a0 < |dims| && dims[a0] >= 2;
    var a := FirstAxis(dims, a0);
    NodeAt(dims, c, a, 0);
    Geometry(dims[a]);
    NodeAt(dims, c, a, 1);
    AxisHead(a, dims[a], c[a]);
    NodeAt(dims, c, a, Rounds(dims[a]));
    var b := LastAxis(dims, |dims|);
    NodeAt(dims, c, b, Rounds(dims[b]));
  }

  /** The gates of a process. */
  function GateList(dims: seq<nat>, c: Proc): seq<Gate>
    requires InGrid(dims, c) && Buildable(StepArray(dims, c))
  {
    Optimized(StepArray(dims, c))
  }

  // ---------------------------------------------------------------- what a covering list looks like

  lemma {:induction false} GateFacts(nodes: seq<Node>, gs: seq<Gate>, lo: nat, j: nat)
    requires Covers(nodes, gs, lo) && j < |gs|
    ensures lo <= gs[j].at <= gs[j].sendAt < |nodes|
    ensures gs[j].recv == nodes[gs[j].at].recv && gs[j].send == nodes[gs[j].sendAt].send
    ensures j + 1 < |gs| ==> gs[j].sendAt < gs[j + 1].at
    decreases |gs|
  {
    if j > 0 {
      GateFacts(nodes, gs[1..], gs[0].sendAt + 1, j - 1);
    } else if 1 < |gs| {
      assert gs[1] == gs[1..][0];
    }
  }

  lemma {:induction false} GatesAscend(nodes: seq<Node>, gs: seq<Gate>, lo: nat, i: nat, j: nat)
    requires Covers(nodes, gs, lo) && i < j < |gs|
    ensures gs[i].sendAt < gs[j].at
    decreases j
  {
    GateFacts(nodes, gs, lo, j - 1);
    if i < j - 1 {
      GatesAscend(nodes, gs, lo, i, j - 1);
      GateFacts(nodes, gs, lo, j - 1);
    }
  }

  /** Every sending step has its gate. */
  lemma {:induction false} SendingGate(nodes: seq<Node>, gs: seq<Gate>, lo: nat, k: nat) returns (j: nat)
    requires Covers(nodes, gs, lo) && lo <= k < |nodes| && nodes[k].send.Peer?
    ensures j < |gs| && gs[j].sendAt == k && gs[j].send == nodes[k].send
    decreases |gs|
  {
    j := 0;
    if gs == [] {
      assert false;
    } else if k > gs[0].sendAt {
      j := SendingGate(nodes, gs[1..], gs[0].sendAt + 1, k);
      j := j + 1;
    }
  }

  /** Every receiving step has its gate. */
  lemma {:induction false} ReceivingGate(nodes: seq<Node>, gs: seq<Gate>, lo: nat, k: nat) returns (j: nat)
    requires Covers(nodes, gs, lo) && lo <= k < |nodes| && nodes[k].recv.Peer?
    ensures j < |gs| && gs[j].at == k && gs[j].recv == nodes[k].recv
    decreases |gs|
  {
    j := 0;
    if gs == [] {
      assert false;
    } else if k > gs[0].sendAt {
      j := ReceivingGate(nodes, gs[1..], gs[0].sendAt + 1, k);
      j := j + 1;
    }
  }

  // ---------------------------------------------------------------- peers of a process

  /** Different links lead to different processes. */
  lemma LinksDistinct(dims: seq<nat>, c: Proc, l: Link, m: Link)
    requires InGrid(dims, c) && l.Peer? && m.Peer? && PeerInGrid(dims, c, l) && PeerInGrid(dims, c, m)
    requires Other(c, l) == Other(c, m)
    ensures l == m
  {
    assert Other(c, l)[l.axis] == l.pos;
    assert Other(c, m)[m.axis] == m.pos;
  }

  /** A step of one process that sends is matched by the next step of its peer, which receives. */
  lemma SendReciprocal(dims: seq<nat>, c: Proc, k: nat)
    requires InGrid(dims, c) && k < Length(dims) && StepArray(dims, c)[k].send.Peer?
    ensures var l := StepArray(dims, c)[k].send;
      PeerInGrid(dims, c, l) && k + 1 < Length(dims) && InGrid(dims, Other(c, l)) &&
      StepArray(dims, Other(c, l))[k + 1].recv == Peer(l.axis, c[l.axis])
  {
    var a, t := AxisOf(dims, |dims|, k);
    NodeAt(dims, c, a, t);
    PeersInGrid(dims, c, k);
    SendHasRecv(dims[a], c[a], t);
    NodeAt(dims, c[a := SendAt(dims[a], c[a], t).value], a, t + 1);
  }

  lemma RecvReciprocal(dims: seq<nat>, c: Proc, k: nat)
    requires InGrid(dims, c) && k < Length(dims) && StepArray(dims, c)[k].recv.Peer?
    ensures var l := StepArray(dims, c)[k].recv;
      k > 0 && PeerInGrid(dims, c, l) && InGrid(dims, Other(c, l)) &&
      StepArray(dims, Other(c, l))[k - 1].send == Peer(l.axis, c[l.axis])
  {
    var a, t := AxisOf(dims, |dims|, k);
    NodeAt(dims, c, a, t);
    PeersInGrid(dims, c, k);
    RecvHasSend(dims[a], c[a], t - 1);
    NodeAt(dims, c[a := RecvAt(dims[a], c[a], t - 1).value], a, t - 1);
  }

  lemma StepReciprocal(dims: seq<nat>, c: Proc, k: nat)
    requires InGrid(dims, c) && k < Length(dims)
    ensures StepArray(dims, c)[k].send.Peer? ==>
      PeerInGrid(dims, c, StepArray(dims, c)[k].send) && k + 1 < Length(dims)
    ensures StepArray(dims, c)[k].send.Peer? ==>
      var l := StepArray(dims, c)[k].send;
      InGrid(dims, Other(c, l)) && StepArray(dims, Other(c, l))[k + 1].recv == Peer(l.axis, c[l.axis])
    ensures StepArray(dims, c)[k].recv.Peer? ==> k > 0 && PeerInGrid(dims, c, StepArray(dims, c)[k].recv)
    ensures StepArray(dims, c)[k].recv.Peer? ==>
      var l := StepArray(dims, c)[k].recv;
      InGrid(dims, Other(c, l)) && StepArray(dims, Other(c, l))[k - 1].send == Peer(l.axis, c[l.axis])
  {
    if StepArray(dims, c)[k].send.Peer? {
      SendReciprocal(dims, c, k);
    }
    if StepArray(dims, c)[k].recv.Peer? {
      RecvReciprocal(dims, c, k);
    }
  }

  /** A process sends to each peer in at most one step and receives from it in at most one. */
  lemma StepsDistinct(dims: seq<nat>, c: Proc, k: nat, m: nat)
    requires InGrid(dims, c) && k < m < Length(dims)
    ensures var s := StepArray(dims, c);
            (s[k].send.Peer? ==> s[k].send != s[m].send) && (s[k].recv.Peer? ==> s[k].recv != s[m].recv)
  {
    var a, t := AxisOf(dims, |dims|, k);
    var b, u := AxisOf(dims, |dims|, m);
    NodeAt(dims, c, a, t);
    NodeAt(dims, c, b, u);
    if a == b {
      AxisStepsDistinct(dims[a], c[a], t, u);
    }
  }

  lemma AxisStepsDistinct(n: nat, p: nat, t: nat, u: nat)
    requires n >= 2 && p < n && t < u <= Rounds(n)
    ensures u < Rounds(n) && SendAt(n, p, t).Some? ==> SendAt(n, p, t) != SendAt(n, p, u)
    ensures t > 0 && RecvAt(n, p, t - 1).Some? ==> RecvAt(n, p, t - 1) != RecvAt(n, p, u - 1)
  {
    if u < Rounds(n) {
      PeersDistinct(n, p, t, u);
    }
    if t > 0 {
      PeersDistinct(n, p, t - 1, u - 1);
    }
  }

  // ---------------------------------------------------------------- gates towards a peer

  predicate SendsTo(c: Proc, g: Gate, q: Proc) {
    g.send.Peer? && g.send.axis < |c| && Other(c, g.send) == q
  }

  predicate ReceivesFrom(c: Proc, g: Gate, q: Proc) {
    g.recv.Peer? && g.recv.axis < |c| && Other(c, g.recv) == q
  }

  /** Each peer is met by at most one sending and at most one receiving gate. */
  ghost predicate OneGateEach(c: Proc, gs: seq<Gate>) {
    (forall i, j, q :: 0 <= i < |gs| && 0 <= j < |gs| && SendsTo(c, gs[i], q) && SendsTo(c, gs[j], q) ==> i == j) &&
    (forall i, j, q :: 0 <= i < |gs| && 0 <= j < |gs| && ReceivesFrom(c, gs[i], q) && ReceivesFrom(c, gs[j], q) ==>
      i == j)
  }

  /** A gate of a process in the grid, seen through its step array. */
  lemma GateInGrid(dims: seq<nat>, c: Proc, j: nat)
    requires InGrid(dims, c) && HasNetwork(dims)
    ensures Buildable(StepArray(dims, c)) && |StepArray(dims, c)| == Length(dims)
    ensures Covers(StepArray(dims, c), GateList(dims, c), 0)
    ensures j < |GateList(dims, c)| ==>
      var g := GateList(dims, c)[j];
      g.at <= g.sendAt < Length(dims) && g.recv == StepArray(dims, c)[g.at].recv &&
      g.send == StepArray(dims, c)[g.sendAt].send &&
      PeerInGrid(dims, c, g.recv) && PeerInGrid(dims, c, g.send)
  {
    ArrayBuildable(dims, c);
    OptimizedCovers(StepArray(dims, c));
    if j < |GateList(dims, c)| {
      GateFacts(StepArray(dims, c), GateList(dims, c), 0, j);
      PeersInGrid(dims, c, GateList(dims, c)[j].at);
      PeersInGrid(dims, c, GateList(dims, c)[j].sendAt);
    }
  }

  lemma SendersUnique(dims: seq<nat>, c: Proc, i: nat, j: nat, q: Proc)
    requires InGrid(dims, c) && HasNetwork(dims) && Buildable(StepArray(dims, c))
    requires i < j < |GateList(dims, c)|
    ensures !(SendsTo(c, GateList(dims, c)[i], q) && SendsTo(c, GateList(dims, c)[j], q))
    ensures !(ReceivesFrom(c, GateList(dims, c)[i], q) && ReceivesFrom(c, GateList(dims, c)[j], q))
  {
    var gs := GateList(dims, c);
    GateInGrid(dims, c, i);
    GateInGrid(dims, c, j);
    GatesAscend(StepArray(dims, c), gs, 0, i, j);
    StepsDistinct(dims, c, gs[i].at, gs[j].at);
    StepsDistinct(dims, c, gs[i].sendAt, gs[j].sendAt);
    if SendsTo(c, gs[i], q) && SendsTo(c, gs[j], q) {
      LinksDistinct(dims, c, gs[i].send, gs[j].send);
    }
    if ReceivesFrom(c, gs[i], q) && ReceivesFrom(c, gs[j], q) {
      LinksDistinct(dims, c, gs[i].recv, gs[j].recv);
    }
  }

  lemma PeersUnique(dims: seq<nat>, c: Proc)
    requires InGrid(dims, c) && HasNetwork(dims)
    ensures Buildable(StepArray(dims, c)) && OneGateEach(c, GateList(dims, c))
  {
    ArrayBuildable(dims, c);
    var gs := GateList(dims, c);
    forall i, j, q | 0 <= i < |gs| && 0 <= j < |gs| && SendsTo(c, gs[i], q) && SendsTo(c, gs[j], q) ensures i == j {
      if i < j { SendersUnique(dims, c, i, j, q); } else if j < i { SendersUnique(dims, c, j, i, q); }
    }
    forall i, j, q | 0 <= i < |gs| && 0 <= j < |gs| && ReceivesFrom(c, gs[i], q) && ReceivesFrom(c, gs[j], q)
      ensures i == j
    {
      if i < j { SendersUnique(dims, c, i, j, q); } else if j < i { SendersUnique(dims, c, j, i, q); }
    }
  }

  /** Whoever is sent to on an axis is also received from. */
  lemma AnsweredOnAxis(n: nat, p: nat, t: nat) returns (u: nat)
    requires n >= 2 && p < n && t < Rounds(n) && SendAt(n, p, t).Some?
    ensures u < Rounds(n) && RecvAt(n, p, u) == SendAt(n, p, t)
  {
    Geometry(n);
    u := if IsPow2(n) || 0 < t < Log2(n) + 1 then t else if t == 0 then Log2(n) + 1 else 0;
  }

  /** The gate that sends to `q` has a counterpart that receives from `q`. */
  lemma Answered(dims: seq<nat>, c: Proc, i: nat, q: Proc) returns (r: nat)
    requires InGrid(dims, c) && HasNetwork(dims) && Buildable(StepArray(dims, c))
    requires i < |GateList(dims, c)| && SendsTo(c, GateList(dims, c)[i], q)
    ensures r < |GateList(dims, c)| && ReceivesFrom(c, GateList(dims, c)[r], q)
  {
    var gs := GateList(dims, c);
    GateInGrid(dims, c, i);
    var k := AnsweredStep(dims, c, gs[i].sendAt);
    r := ReceivingGate(StepArray(dims, c), gs, 0, k);
  }

  lemma AnsweredStep(dims: seq<nat>, c: Proc, k: nat) returns (m: nat)
    requires InGrid(dims, c) && k < Length(dims) && StepArray(dims, c)[k].send.Peer?
    ensures m < Length(dims) && StepArray(dims, c)[m].recv == StepArray(dims, c)[k].send
  {
    var a, t := AxisOf(dims, |dims|, k);
    NodeAt(dims, c, a, t);
    var u := AnsweredOnAxis(dims[a], c[a], t);
    NodeAt(dims, c, a, u + 1);
    m := Offset(dims, a) + u + 1;
  }

  lemma AskedOnAxis(n: nat, p: nat, u: nat) returns (t: nat)
    requires n >= 2 && p < n && u < Rounds(n) && RecvAt(n, p, u).Some?
    ensures t < Rounds(n) && SendAt(n, p, t) == RecvAt(n, p, u)
  {
    Geometry(n);
    t := if IsPow2(n) || 0 < u < Log2(n) + 1 then u else if u == 0 then Log2(n) + 1 else 0;
  }

  /** The gate that receives from `q` has a counterpart that sends to `q`. */
  lemma Asked(dims: seq<nat>, c: Proc, j: nat, q: Proc) returns (s: nat)
    requires InGrid(dims, c) && HasNetwork(dims) && Buildable(StepArray(dims, c))
    requires j < |GateList(dims, c)| && ReceivesFrom(c, GateList(dims, c)[j], q)
    ensures s < |GateList(dims, c)| && SendsTo(c, GateList(dims, c)[s], q)
  {
    var gs := GateList(dims, c);
    GateInGrid(dims, c, j);
    var k := AskedStep(dims, c, gs[j].at);
    s := SendingGate(StepArray(dims, c), gs, 0, k);
  }

  lemma AskedStep(dims: seq<nat>, c: Proc, k: nat) returns (m: nat)
    requires InGrid(dims, c) && k < Length(dims) && StepArray(dims, c)[k].recv.Peer?
    ensures m < Length(dims) && StepArray(dims, c)[m].send == StepArray(dims, c)[k].recv
  {
    var a, u := AxisOf(dims, |dims|, k);
    NodeAt(dims, c, a, u);
    var t := AskedOnAxis(dims[a], c[a], u - 1);
    NodeAt(dims, c, a, t);
    m := Offset(dims, a) + t;
  }

  /** A gate of `c` that sends to `q` is met by a gate of `q` that receives from `c`, one step later
      than the send was planned. */
  lemma Met(dims: seq<nat>, c: Proc, i: nat, q: Proc) returns (r: nat)
    requires InGrid(dims, c) && HasNetwork(dims) && Buildable(StepArray(dims, c))
    requires i < |GateList(dims, c)| && SendsTo(c, GateList(dims, c)[i], q)
    ensures InGrid(dims, q) && Buildable(StepArray(dims, q))
    ensures r < |GateList(dims, q)| && ReceivesFrom(q, GateList(dims, q)[r], c)
    ensures GateList(dims, q)[r].at == GateList(dims, c)[i].sendAt + 1
  {
    var g := GateList(dims, c)[i];
    GateInGrid(dims, c, i);
    StepReciprocal(dims, c, g.sendAt);
    GateInGrid(dims, q, 0);
    r := ReceivingGate(StepArray(dims, q), GateList(dims, q), 0, g.sendAt + 1);
    assert q[g.send.axis := c[g.send.axis]] == c;
  }

  /** A gate of `c` that receives from `q` is served by a gate of `q` that sends to `c`. */
  lemma Served(dims: seq<nat>, c: Proc, j: nat, q: Proc) returns (s: nat)
    requires InGrid(dims, c) && HasNetwork(dims) && Buildable(StepArray(dims, c))
    requires j < |GateList(dims, c)| && ReceivesFrom(c, GateList(dims, c)[j], q)
    ensures InGrid(dims, q) && Buildable(StepArray(dims, q))
    ensures s < |GateList(dims, q)| && SendsTo(q, GateList(dims, q)[s], c)
    ensures GateList(dims, c)[j].at == GateList(dims, q)[s].sendAt + 1
  {
    var g := GateList(dims, c)[j];
    GateInGrid(dims, c, j);
    StepReciprocal(dims, c, g.at);
    GateInGrid(dims, q, 0);
    s := SendingGate(StepArray(dims, q), GateList(dims, q), 0, g.at - 1);
    assert q[g.recv.axis := c[g.recv.axis]] == c;
  }

  // ---------------------------------------------------------------- the exchanged words

  /** The word a process makes for a peer: the gate that sends to the peer and the gate that receives
      from it, by allocated number. */
  datatype Word = Word(srcId: nat, dstId: nat)

  /** The first and the last entry of a list share the start/end gate, number 0. */
  function Number(gs: seq<Gate>, j: nat): nat {
    if j + 1 == |gs| then 0 else j
  }

  datatype Exchange = Words(words: map<Proc, Word>) | InternalError

  /** The first entry from `i` on that sends to `q`. */
  function FirstSending(c: Proc, gs: seq<Gate>, q: Proc, i: nat): (r: nat)
    ensures r < |gs| ==> SendsTo(c, gs[r], q)
    ensures r >= |gs| ==> forall k :: i <= k < |gs| ==> !SendsTo(c, gs[k], q)
    decreases |gs| - i
  {
    if i >= |gs| || SendsTo(c, gs[i], q) then i else FirstSending(c, gs, q, i + 1)
  }

  /** The first entry from `i` on that receives from `q`. */
  function FirstReceiving(c: Proc, gs: seq<Gate>, q: Proc, i: nat): (r: nat)
    ensures r < |gs| ==> ReceivesFrom(c, gs[r], q)
    ensures r >= |gs| ==> forall k :: i <= k < |gs| ==> !ReceivesFrom(c, gs[k], q)
    decreases |gs| - i
  {
    if i >= |gs| || ReceivesFrom(c, gs[i], q) then i else FirstReceiving(c, gs, q, i + 1)
  }

  /** The word that `c` makes for `q`: the gate that sends to `q` and the gate that receives from it. */
  function WordFor(c: Proc, gs: seq<Gate>, q: Proc): Option<Word> {
    var i, r := FirstSending(c, gs, q, 0), FirstReceiving(c, gs, q, 0);
    if i < |gs| && r < |gs| then Some(Word(Number(gs, i), Number(gs, r))) else None
  }

  /** The destinations of the first `s` entries, and no others, have their words. */
  ghost predicate WordsUpTo(c: Proc, gs: seq<Gate>, s: nat, words: map<Proc, Word>) {
    (forall q :: q in words ==> WordFor(c, gs, q) == Some(words[q])) &&
    (forall i, q :: 0 <= i < s <= |gs| && SendsTo(c, gs[i], q) ==> q in words)
  }

  lemma WordAt(c: Proc, gs: seq<Gate>, q: Proc, i: nat, r: nat)
    requires OneGateEach(c, gs) && i < |gs| && r < |gs| && SendsTo(c, gs[i], q) && ReceivesFrom(c, gs[r], q)
    ensures WordFor(c, gs, q) == Some(Word(Number(gs, i), Number(gs, r)))
  {}

  /** Filling the words to be exchanged, with the search along the list for the answering gate. The words
      made are those for the peers the process sends to, and no others. */
  method MakeBgInfo(c: Proc, gs: seq<Gate>) returns (x: Exchange)
    requires OneGateEach(c, gs)
    requires forall j :: 0 <= j < |gs| ==>
      (gs[j].send.Peer? ==> gs[j].send.axis < |c|) && (gs[j].recv.Peer? ==> gs[j].recv.axis < |c|)
    ensures x.Words? ==> WordsUpTo(c, gs, |gs|, x.words)
    ensures x.InternalError? ==>
      exists i, q :: 0 <= i < |gs| && SendsTo(c, gs[i], q) && forall r :: 0 <= r < |gs| ==> !ReceivesFrom(c, gs[r], q)
  {
    var words: map<Proc, Word> := map[];
    var s := 0;
    while s < |gs|
      invariant 0 <= s <= |gs|
      invariant WordsUpTo(c, gs, s, words)
    {
      if gs[s].send.Peer? {
        var q := Other(c, gs[s].send);
        var r := 0;
        while r < |gs| && !ReceivesFrom(c, gs[r], q)
          invariant 0 <= r <= |gs|
          invariant forall i :: 0 <= i < r ==> !ReceivesFrom(c, gs[i], q)
        {
          r := r + 1;
        }
        assert SendsTo(c, gs[s], q);
        if r == |gs| {
          return InternalError;
        }
        WordAt(c, gs, q, s, r);
        words := words[q := Word(Number(gs, s), Number(gs, r))];
      }
      s := s + 1;
    }
    x := Words(words);
  }

  /** What process `p` sends to process `q`. */
  ghost predicate IsWord(p: Proc, gs: seq<Gate>, q: Proc, w: Word) {
    exists i, r :: 0 <= i < |gs| && 0 <= r < |gs| && SendsTo(p, gs[i], q) && ReceivesFrom(p, gs[r], q) &&
      w == Word(Number(gs, i), Number(gs, r))
  }

  lemma WordForIs(p: Proc, gs: seq<Gate>, q: Proc, w: Word)
    requires OneGateEach(p, gs)
    ensures WordFor(p, gs, q) == Some(w) <==> IsWord(p, gs, q, w)
  {
    if IsWord(p, gs, q, w) {
      var i, r :| 0 <= i < |gs| && 0 <= r < |gs| && SendsTo(p, gs[i], q) && ReceivesFrom(p, gs[r], q) &&
        w == Word(Number(gs, i), Number(gs, r));
      WordAt(p, gs, q, i, r);
    }
  }

  /** The search never fails on a built list, and the words made are exactly those of the specification. */
  method ExchangeOf(dims: seq<nat>, c: Proc) returns (x: Exchange)
    requires InGrid(dims, c) && HasNetwork(dims) && Buildable(StepArray(dims, c))
    ensures x.Words? &&
      forall q :: (if q in x.words then Some(x.words[q]) else None) == WordFor(c, GateList(dims, c), q)
  {
    ghost var gs := GateList(dims, c);
    PeersUnique(dims, c);
    forall j | 0 <= j < |gs|
      ensures (gs[j].send.Peer? ==> gs[j].send.axis < |c|) && (gs[j].recv.Peer? ==> gs[j].recv.axis < |c|)
    {
      GateInGrid(dims, c, j);
    }
    x := MakeBgInfo(c, GateList(dims, c));
    forall i, q | 0 <= i < |gs| && SendsTo(c, gs[i], q)
      ensures exists r :: 0 <= r < |gs| && ReceivesFrom(c, gs[r], q)
    {
      var r := Answered(dims, c, i, q);
    }
  }

  /** The word that process `q` makes for process `c`. */
  ghost function WordOf(dims: seq<nat>, q: Proc, c: Proc): Option<Word> {
    if InGrid(dims, q) && Buildable(StepArray(dims, q)) then WordFor(q, GateList(dims, q), c) else None
  }

  /** What the all-to-all exchange gives process `c`: from every process the word it made for `c`. */
  ghost function ReceivedBy(dims: seq<nat>, c: Proc): map<Proc, Word> {
    map q | q in AllProcs(dims) && WordOf(dims, q, c).Some? :: WordOf(dims, q, c).value
  }

  // ---------------------------------------------------------------- remote ends

  datatype Remote = Null | Of(proc: Proc, number: nat)

  /** The list entry whose receive the gate with this number does: number 0 receives as the end gate. */
  function ReceivingEntry(gs: seq<Gate>, number: nat): nat
    requires |gs| >= 2 && number < |gs| - 1
  {
    if number == 0 then |gs| - 1 else number
  }

  /** The word of a peer names one of its gates as the other end. */
  function RemoteOf(c: Proc, l: Link, received: map<Proc, Word>, id: Word -> nat): Remote {
    if l.Peer? && l.axis < |c| && Other(c, l) in received
    then Of(Other(c, l), id(received[Other(c, l)])) else Null
  }

  datatype Setting = Setting(src: Remote, dst: Remote)

  /** The remote ends of the gate with this number. */
  function SettingOf(c: Proc, gs: seq<Gate>, received: map<Proc, Word>, number: nat): Setting
    requires |gs| >= 2 && number < |gs| - 1
  {
    Setting(RemoteOf(c, gs[ReceivingEntry(gs, number)].recv, received, (w: Word) => w.srcId),
            RemoteOf(c, gs[number].send, received, (w: Word) => w.dstId))
  }

  /** `received` holds the words the peers of `c` made for it. */
  ghost predicate Exchanged(dims: seq<nat>, c: Proc, received: map<Proc, Word>)
    requires HasNetwork(dims)
  {
    forall q :: q in received ==>
      InGrid(dims, q) && Buildable(StepArray(dims, q)) && IsWord(q, GateList(dims, q), c, received[q])
  }

  /** Every peer of `c` is among the received words. */
  ghost predicate Complete(c: Proc, gs: seq<Gate>, received: map<Proc, Word>) {
    forall i, q :: 0 <= i < |gs| && (SendsTo(c, gs[i], q) || ReceivesFrom(c, gs[i], q)) ==> q in received
  }

  lemma WordUnique(p: Proc, gs: seq<Gate>, q: Proc, i: nat, r: nat, w: Word)
    requires OneGateEach(p, gs) && IsWord(p, gs, q, w)
    requires i < |gs| && r < |gs|
    ensures SendsTo(p, gs[i], q) ==> w.srcId == Number(gs, i)
    ensures ReceivesFrom(p, gs[r], q) ==> w.dstId == Number(gs, r)
  {}

  /** The number a process gives the gate a peer reaches it by leads back to the entry that receives. */
  lemma NumbersLeadBack(dims: seq<nat>, c: Proc, j: nat)
    requires InGrid(dims, c) && HasNetwork(dims) && Buildable(StepArray(dims, c)) && j < |GateList(dims, c)|
    ensures var gs := GateList(dims, c);
            |gs| >= 2 && Number(gs, j) < |gs| - 1 &&
            (gs[j].recv.Peer? ==> ReceivingEntry(gs, Number(gs, j)) == j) &&
            (gs[j].send.Peer? ==> Number(gs, j) == j)
  {
    ListEnds(StepArray(dims, c));
  }

  /** If a gate of `p` names gate `k` of `q` as remote destination, that gate names it as source. */
  lemma DstImpliesSrc(dims: seq<nat>, p: Proc, q: Proc, fromP: map<Proc, Word>, fromQ: map<Proc, Word>, i: nat, k: nat)
    requires InGrid(dims, p) && InGrid(dims, q) && HasNetwork(dims)
    requires Buildable(StepArray(dims, p)) && Buildable(StepArray(dims, q))
    requires Exchanged(dims, p, fromQ) && Exchanged(dims, q, fromP) && Complete(q, GateList(dims, q), fromP)
    requires |GateList(dims, p)| >= 2 && i < |GateList(dims, p)| - 1
    requires SettingOf(p, GateList(dims, p), fromQ, i).dst == Of(q, k)
    ensures |GateList(dims, q)| >= 2 && k < |GateList(dims, q)| - 1
    ensures SettingOf(q, GateList(dims, q), fromP, k).src == Of(p, i)
  {
    var ps, qs := GateList(dims, p), GateList(dims, q);
    assert SendsTo(p, ps[i], q);
    var r := Met(dims, p, i, q);
    PeersUnique(dims, q);
    PeersUnique(dims, p);
    WordUnique(q, qs, p, r, r, fromQ[q]);
    NumbersLeadBack(dims, q, r);
    NumbersLeadBack(dims, p, i);
    WordUnique(p, ps, q, i, i, fromP[p]);
  }

  lemma SrcImpliesDst(dims: seq<nat>, p: Proc, q: Proc, fromP: map<Proc, Word>, fromQ: map<Proc, Word>, i: nat, k: nat)
    requires InGrid(dims, p) && InGrid(dims, q) && HasNetwork(dims)
    requires Buildable(StepArray(dims, p)) && Buildable(StepArray(dims, q))
    requires Exchanged(dims, p, fromQ) && Exchanged(dims, q, fromP) && Complete(p, GateList(dims, p), fromQ)
    requires |GateList(dims, q)| >= 2 && k < |GateList(dims, q)| - 1
    requires SettingOf(q, GateList(dims, q), fromP, k).src == Of(p, i)
    ensures |GateList(dims, p)| >= 2 && i < |GateList(dims, p)| - 1
    ensures SettingOf(p, GateList(dims, p), fromQ, i).dst == Of(q, k)
  {
    var ps, qs := GateList(dims, p), GateList(dims, q);
    var r := ReceivingEntry(qs, k);
    assert ReceivesFrom(q, qs[r], p);
    var s := Served(dims, q, r, p);
    PeersUnique(dims, q);
    PeersUnique(dims, p);
    WordUnique(p, ps, q, s, s, fromP[p]);
    NumbersLeadBack(dims, p, s);
    NumbersLeadBack(dims, q, r);
    WordUnique(q, qs, p, r, r, fromQ[q]);
  }

  /** Reciprocity: after the exchange, `p`'s gate `i` names `q`'s gate `k` as its remote destination
      exactly when `q`'s gate `k` names `p`'s gate `i` as its remote source. */
  lemma RemoteReciprocal(dims: seq<nat>, p: Proc, q: Proc, fromP: map<Proc, Word>, fromQ: map<Proc, Word>, i: nat,
                         k: nat)
    requires InGrid(dims, p) && InGrid(dims, q) && HasNetwork(dims)
    requires Buildable(StepArray(dims, p)) && Buildable(StepArray(dims, q))
    requires Exchanged(dims, p, fromQ) && Complete(p, GateList(dims, p), fromQ)
    requires Exchanged(dims, q, fromP) && Complete(q, GateList(dims, q), fromP)
    requires |GateList(dims, p)| >= 2 && i < |GateList(dims, p)| - 1
    requires |GateList(dims, q)| >= 2 && k < |GateList(dims, q)| - 1
    ensures SettingOf(p, GateList(dims, p), fromQ, i).dst == Of(q, k) <==>
            SettingOf(q, GateList(dims, q), fromP, k).src == Of(p, i)
  {
    if SettingOf(p, GateList(dims, p), fromQ, i).dst == Of(q, k) {
      DstImpliesSrc(dims, p, q, fromP, fromQ, i, k);
    }
    if SettingOf(q, GateList(dims, q), fromP, k).src == Of(p, i) {
      SrcImpliesDst(dims, p, q, fromP, fromQ, i, k);
    }
  }

  /** A peer of `c` makes a word for `c`. */
  lemma PeerMakesWord(dims: seq<nat>, c: Proc, i: nat, q: Proc) returns (w: Word)
    requires InGrid(dims, c) && HasNetwork(dims) && Buildable(StepArray(dims, c)) && i < |GateList(dims, c)|
    requires SendsTo(c, GateList(dims, c)[i], q) || ReceivesFrom(c, GateList(dims, c)[i], q)
    ensures InGrid(dims, q) && Buildable(StepArray(dims, q)) && IsWord(q, GateList(dims, q), c, w)
  {
    var j := i;
    if SendsTo(c, GateList(dims, c)[i], q) {
      j := Answered(dims, c, i, q);
    }
    var s := Served(dims, c, j, q);
    var r := Answered(dims, q, s, c);
    w := Word(Number(GateList(dims, q), s), Number(GateList(dims, q), r));
  }

  /** The all-to-all exchange gives every process exactly the words its peers made for it. */
  lemma ExchangeHappens(dims: seq<nat>, c: Proc)
    requires InGrid(dims, c) && HasNetwork(dims) && Buildable(StepArray(dims, c))
    ensures Exchanged(dims, c, ReceivedBy(dims, c)) && Complete(c, GateList(dims, c), ReceivedBy(dims, c))
  {
    var gs, received := GateList(dims, c), ReceivedBy(dims, c);
    forall q | q in received
      ensures InGrid(dims, q) && Buildable(StepArray(dims, q)) && IsWord(q, GateList(dims, q), c, received[q])
    {
      PeersUnique(dims, q);
      WordForIs(q, GateList(dims, q), c, received[q]);
    }
    forall i, q | 0 <= i < |gs| && (SendsTo(c, gs[i], q) || ReceivesFrom(c, gs[i], q)) ensures q in received {
      var w := PeerMakesWord(dims, c, i, q);
      PeersUnique(dims, q);
      WordForIs(q, GateList(dims, q), c, w);
      AllInGrid(dims, q);
    }
  }

  /** The remote source a gate is given is the gate of the peer that sends to it. */
  lemma SourceNamed(dims: seq<nat>, c: Proc, received: map<Proc, Word>, j: nat)
    requires InGrid(dims, c) && HasNetwork(dims) && Buildable(StepArray(dims, c))
    requires Exchanged(dims, c, received) && Complete(c, GateList(dims, c), received)
    requires j < |GateList(dims, c)| && GateList(dims, c)[j].recv.Peer?
    ensures var gs := GateList(dims, c);
            |gs| >= 2 && Number(gs, j) < |gs| - 1 && SettingOf(c, gs, received, Number(gs, j)).src.Of?
    ensures var src := SettingOf(c, GateList(dims, c), received, Number(GateList(dims, c), j)).src;
            InGrid(dims, src.proc) && Buildable(StepArray(dims, src.proc)) && src.number < |GateList(dims, src.proc)| &&
            ReceivesFrom(c, GateList(dims, c)[j], src.proc) &&
            SendsTo(src.proc, GateList(dims, src.proc)[src.number], c)
  {
    var gs := GateList(dims, c);
    GateInGrid(dims, c, j);
    NumbersLeadBack(dims, c, j);
    var q := Other(c, gs[j].recv);
    assert ReceivesFrom(c, gs[j], q);
    var s := Served(dims, c, j, q);
    PeersUnique(dims, q);
    WordUnique(q, GateList(dims, q), c, s, s, received[q]);
    NumbersLeadBack(dims, q, s);
  }
}
