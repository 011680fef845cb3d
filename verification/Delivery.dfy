/** A receive request as the program updates it, and what a whole connection delivers. */
module Delivery {
  import opened Powers
  import opened Messages
  import Connection
  import ConnectionWork
  import Rendezvous

  type Link = Connection.Link

  type Fetch = Rendezvous.Fetch

  class FetchRequest {
    var state: Rendezvous.ReqState
    var expected: nat
    var rsize: nat
    var inflight: nat
    var overrun: bool
    var buf: Bytes
    ghost var marked: bool
    ghost var first: Bytes

    ghost function View(): Rendezvous.Req
      reads this
    {
      Rendezvous.Req(state, expected, rsize, inflight, overrun, marked, buf, first)
    }

    /** The first remote get of a message of `size` bytes into the user's buffer. */
    method Begin(size: nat, user: Bytes) returns (len: nat)
      modifies this
      ensures Rendezvous.Start(size, user, old(overrun)) == Rendezvous.Ask(View(), 0, len)
    {
      marked := overrun;
      if |user| < size {
        expected := |user|;
        overrun := true;
      } else {
        expected := size;
      }
      buf, first := user, user;
      rsize := if expected > Rendezvous.CHUNK then Rendezvous.CHUNK else expected;
      inflight := 1;
      state := Rendezvous.Fetching;
      return rsize;
    }

    /** A get has completed: ask for the next chunk, or tell the sender that all has been fetched. */
    method Advance() returns (ask: Option<(nat, nat)>, note: bool)
      requires rsize <= expected
      modifies this
      ensures match Rendezvous.Progress(old(View()))
        case Ask(r, off, len) => ask == Some((off, len)) && !note && View() == r
        case Notify(r) => ask == None && note && View() == r
        case Hold(r) => ask == None && !note && View() == r
    {
      if rsize != expected {
        var rest := expected - rsize;
        var len := if rest > Rendezvous.CHUNK then Rendezvous.CHUNK else rest;
        ask, note := Some((rsize, len)), false;
        rsize := rsize + len;
        return;
      }
      if inflight > 1 {
        inflight := inflight - 1;
        return None, false;
      }
      inflight := 0;
      state := Rendezvous.Fetched;
      return None, true;
    }
  }

  // ---------------------------------------------------------------- requests name posted messages

  /** A request, if it is one, offers the posted message that it names, with the size its header can say. */
  predicate NamesPosted(posted: seq<Msg>, p: Packet) {
    p.Request? ==> p.source < |posted| && posted[p.source].kind.Rendezvous? && p.size == SizeField(posted[p.source])
  }

  predicate OffersPosted(posted: seq<Msg>, a: Arrival) {
    a.Offered? ==> a.source < |posted| && posted[a.source].kind.Rendezvous? && a.size == SizeField(posted[a.source])
  }

  ghost predicate NamesHold(l: Link) {
    (forall k :: 0 <= k < |l.sent| ==> NamesPosted(l.posted, l.sent[k])) &&
    (forall i :: 0 <= i < |l.inbox.got| ==> OffersPosted(l.posted, l.inbox.got[i]))
  }

  lemma FirstNames(posted: seq<Msg>, m: Msg)
    requires m.id < |posted| && posted[m.id] == m
    ensures NamesPosted(posted, FirstPacket(m))
  {}

  lemma SendFirstNames(posted: seq<Msg>, s: Sender)
    requires |s.ring| == RING && s.micur < RING && s.ring[s.micur].Busy?
    requires s.ring[s.micur].msg.id < |posted| && posted[s.ring[s.micur].msg.id] == s.ring[s.micur].msg
    requires SendFirst(s).Next? && SendFirst(s).put.Some?
    ensures NamesPosted(posted, SendFirst(s).put.value.pkt)
  {
    FirstNames(posted, s.ring[s.micur].msg);
  }

  lemma PostNames(l: Link, e: Connection.Event)
    requires Connection.Enabled(l, e) && e.PostMsg? && Connection.Call(l, e).Next? && Connection.Call(l, e).put.Some?
    ensures NamesPosted(l.posted + [Connection.PostedBy(l, e)], Connection.Call(l, e).put.value.pkt)
  {
    FirstNames(l.posted + [Connection.PostedBy(l, e)], Connection.PostedBy(l, e));
  }

  lemma NextNames(l: Link)
    requires Connection.Inv(l) && Fit(l.s) && NextEntry(l.s).Next? && NextEntry(l.s).put.Some?
    ensures NamesPosted(l.posted, NextEntry(l.s).put.value.pkt)
  {
    var j := (l.s.micur + 1) % RING;
    Connection.RingPosted(l, j);
    FirstNames(l.posted, l.s.ring[j].msg);
  }

  lemma CurrentNames(l: Link, s: Sender)
    requires Connection.Inv(l) && Fit(l.s) && s.ring == l.s.ring && s.micur == l.s.micur && l.s.ring[l.s.micur].Busy?
    requires SendFirst(s).put.Some?
    ensures NamesPosted(l.posted, SendFirst(s).put.value.pkt)
  {
    Connection.RingPosted(l, l.s.micur);
    SendFirstNames(l.posted, s);
  }

  lemma ResetNames(l: Link, e: Connection.Event)
    requires Connection.Inv(l) && Connection.Enabled(l, e) && e.ResetArrives?
    requires Connection.Call(l, e).Next? && Connection.Call(l, e).put.Some?
    ensures NamesPosted(l.posted, Connection.Call(l, e).put.value.pkt)
  {
    Connection.InvFit(l);
    if l.s.ostate.HasRoom? {
      CurrentNames(l, l.s.(recvidx := 0, state := HasRoom));
    }
  }

  lemma PutNames(l: Link, e: Connection.Event)
    requires Connection.Inv(l) && Connection.Enabled(l, e) && Connection.Call(l, e).Next? &&
      Connection.Call(l, e).put.Some?
    ensures NamesPosted(Connection.Step(l, e).posted, Connection.Call(l, e).put.value.pkt)
  {
    match e
    case PostMsg(_, _, _) => PostNames(l, e);
    case RoomGiven(_) =>
      Connection.InvFit(l);
      CurrentNames(l, l.s.(sndok := true, state := HasRoom, recvidx := 0));
    case Completed =>
      if !l.s.state.DoEager? {
        NextNames(l);
      }
    case ResetArrives => ResetNames(l, e);
    case _ =>
  }

  lemma NamesGrow(posted: seq<Msg>, more: seq<Msg>, p: Packet, a: Arrival)
    requires posted <= more
    ensures NamesPosted(posted, p) ==> NamesPosted(more, p)
    ensures OffersPosted(posted, a) ==> OffersPosted(more, a)
  {}

  lemma StepGrows(l: Link, e: Connection.Event)
    requires Connection.Enabled(l, e) && Connection.Call(l, e).Next?
    ensures l.posted <= Connection.Step(l, e).posted
    ensures !e.PostMsg? ==> Connection.Step(l, e).posted == l.posted
    ensures Connection.Step(l, e).sent == l.sent +
      match Connection.Call(l, e).put { case None => [] case Some(put) => [put.pkt] }
    ensures Connection.Step(l, e).inbox ==
      if e.Polled? then Receive(l.inbox, l.slots[l.recvidx].value, e.free) else l.inbox
  {}

  lemma ReceiveNames(posted: seq<Msg>, b: Inbox, p: Packet, free: bool, i: nat)
    requires NamesPosted(posted, p) && forall k :: 0 <= k < |b.got| ==> OffersPosted(posted, b.got[k])
    requires i < |Receive(b, p, free).got|
    ensures OffersPosted(posted, Receive(b, p, free).got[i])
  {}

  lemma StepNames(l: Link, e: Connection.Event)
    requires Connection.Inv(l) && NamesHold(l) && Connection.Enabled(l, e) && Connection.Call(l, e).Next?
    ensures NamesHold(Connection.Step(l, e))
  {
    var t := Connection.Step(l, e);
    StepGrows(l, e);
    forall k | 0 <= k < |t.sent| ensures NamesPosted(t.posted, t.sent[k]) {
      if k < |l.sent| {
        NamesGrow(l.posted, t.posted, l.sent[k], Whole([]));
      } else {
        PutNames(l, e);
      }
    }
    forall i | 0 <= i < |t.inbox.got| ensures OffersPosted(t.posted, t.inbox.got[i]) {
      if e.Polled? {
        Connection.PolledWindow(l, e);
        ReceiveNames(l.posted, l.inbox, l.slots[l.recvidx].value, e.free, i);
      } else {
        NamesGrow(l.posted, t.posted, Eager(0, []), l.inbox.got[i]);
      }
    }
  }

  // ---------------------------------------------------------------- both machines together

  /** A connection, the fetching of what it offers, and for each fetch request the message it is for. */
  datatype Joint = Joint(link: Link, fetch: Fetch, of: seq<nat>)

  /** Something happens on the connection, or to the fetching. Offers come only from the connection. */
  datatype JointEvent = Net(e: Connection.Event) | Fetching(f: Rendezvous.Event)

  ghost predicate JointInit(j: Joint) { Connection.Init(j.link) && Rendezvous.Init(j.fetch) && j.of == [] }

  predicate JointEnabled(j: Joint, e: JointEvent) {
    |j.fetch.data| == |j.fetch.reqs| &&
    match e
    case Net(n) => Connection.Enabled(j.link, n) && Connection.Call(j.link, n).Next?
    case Fetching(f) => !f.Offer? && Rendezvous.Enabled(j.fetch, f)
  }

  /** What a remote get finds at the place a request names: the registered memory of that message, as far
      as the request says. */
  function Memory(posted: seq<Msg>, size: nat, source: nat): Bytes {
    if source < |posted| && size <= |posted[source].data| then posted[source].data[..size] else []
  }

  /** The receive engine has just been offered a message. */
  function NewOffer(before: Inbox, after: Inbox): Option<Arrival> {
    if |after.got| > |before.got| && after.got[|after.got| - 1].Offered? then Some(after.got[|after.got| - 1]) else None
  }

  function JointStep(j: Joint, e: JointEvent): Joint
    requires JointEnabled(j, e)
  {
    match e
    case Fetching(f) => j.(fetch := Rendezvous.Step(j.fetch, f))
    case Net(n) =>
      var link := Connection.Step(j.link, n);
      match NewOffer(j.link.inbox, link.inbox)
      case None => j.(link := link)
      case Some(a) =>
        Joint(link, Rendezvous.Step(j.fetch, Rendezvous.Offer(Memory(link.posted, a.size, a.source))),
              j.of + [a.source])
  }

  /** The messages that are offered, in order. */
  function Sources(got: seq<Arrival>): seq<nat> {
    if got == [] then []
    else Sources(got[..|got| - 1]) + if got[|got| - 1].Offered? then [got[|got| - 1].source] else []
  }

  /** Request `k` fetches from the memory of the message it is for. */
  predicate Tied(posted: seq<Msg>, of: seq<nat>, data: seq<Bytes>, k: nat)
    requires k < |of| == |data|
  {
    of[k] < |posted| && data[k] == posted[of[k]].data[..SizeField(posted[of[k]])]
  }

  ghost predicate JointInv(j: Joint) {
    Connection.Inv(j.link) && NamesHold(j.link) && Rendezvous.Inv(j.fetch) &&
    j.of == Sources(j.link.inbox.got) && |j.of| == |j.fetch.data| &&
    forall k :: 0 <= k < |j.of| ==> Tied(j.link.posted, j.of, j.fetch.data, k)
  }

  lemma ReceiveSources(b: Inbox, p: Packet, free: bool)
    ensures var t := Receive(b, p, free);
      Sources(t.got) == Sources(b.got) + match NewOffer(b, t) { case None => [] case Some(a) => [a.source] }
  {
    var t := Receive(b, p, free);
    if t.got != b.got {
      assert t.got[..|b.got|] == b.got;
    }
  }

  lemma NetSources(l: Link, e: Connection.Event)
    requires Connection.Enabled(l, e) && Connection.Call(l, e).Next?
    ensures var t := Connection.Step(l, e);
      Sources(t.inbox.got) == Sources(l.inbox.got) +
        match NewOffer(l.inbox, t.inbox) { case None => [] case Some(a) => [a.source] }
  {
    StepGrows(l, e);
    if e.Polled? {
      ReceiveSources(l.inbox, l.slots[l.recvidx].value, e.free);
    }
  }

  lemma TiedGrows(posted: seq<Msg>, more: seq<Msg>, of: seq<nat>, data: seq<Bytes>, k: nat)
    requires posted <= more && k < |of| == |data| && Tied(posted, of, data, k)
    ensures Tied(more, of, data, k)
  {}

  lemma FetchingKeepsData(f: Fetch, e: Rendezvous.Event)
    requires Rendezvous.Enabled(f, e) && !e.Offer?
    ensures Rendezvous.Step(f, e).data == f.data
  {}

  lemma NewIsTied(l: Link, a: Arrival)
    requires NamesHold(l) && l.inbox.got != [] && a == l.inbox.got[|l.inbox.got| - 1] && a.Offered?
    ensures a.source < |l.posted|
    ensures Memory(l.posted, a.size, a.source) == l.posted[a.source].data[..SizeField(l.posted[a.source])]
  {
    assert OffersPosted(l.posted, a);
  }

  lemma AppendTied(l: Link, of: seq<nat>, data: seq<Bytes>, a: Arrival, k: nat)
    requires |of| == |data| && k <= |of| && NamesHold(l) && (k < |of| ==> Tied(l.posted, of, data, k))
    requires l.inbox.got != [] && a == l.inbox.got[|l.inbox.got| - 1] && a.Offered?
    ensures Tied(l.posted, of + [a.source], data + [Memory(l.posted, a.size, a.source)], k)
  {
    NewIsTied(l, a);
  }

  lemma NetTied(j: Joint, e: Connection.Event, k: nat)
    requires JointInv(j) && JointEnabled(j, Net(e)) && NamesHold(Connection.Step(j.link, e))
    ensures var t := JointStep(j, Net(e));
      |t.of| == |t.fetch.data| && (k < |t.of| ==> Tied(t.link.posted, t.of, t.fetch.data, k))
  {
    var l := Connection.Step(j.link, e);
    StepGrows(j.link, e);
    if k < |j.of| {
      TiedGrows(j.link.posted, l.posted, j.of, j.fetch.data, k);
    }
    var o := NewOffer(j.link.inbox, l.inbox);
    if o.Some? && k <= |j.of| {
      AppendTied(l, j.of, j.fetch.data, o.value, k);
    }
  }

  lemma NetKeeps(j: Joint, e: Connection.Event)
    requires JointInv(j) && JointEnabled(j, Net(e))
    ensures JointInv(JointStep(j, Net(e)))
  {
    var t := JointStep(j, Net(e));
    Connection.StepInv(j.link, e);
    StepNames(j.link, e);
    NetSources(j.link, e);
    var o := NewOffer(j.link.inbox, t.link.inbox);
    if o.Some? {
      Rendezvous.StepInv(j.fetch, Rendezvous.Offer(Memory(t.link.posted, o.value.size, o.value.source)));
    }
    NetTied(j, e, 0);
    forall k | 0 <= k < |t.of| ensures Tied(t.link.posted, t.of, t.fetch.data, k) { NetTied(j, e, k); }
  }

  lemma JointStepInv(j: Joint, e: JointEvent)
    requires JointInv(j) && JointEnabled(j, e)
    ensures JointInv(JointStep(j, e))
  {
    match e
    case Net(n) => NetKeeps(j, n);
    case Fetching(f) =>
      Rendezvous.StepInv(j.fetch, f);
      FetchingKeepsData(j.fetch, f);
  }

  ghost predicate JointReaches(j: Joint, events: seq<JointEvent>, t: Joint)
    decreases |events|
  {
    if events == [] then j == t else JointEnabled(j, events[0]) && JointReaches(JointStep(j, events[0]), events[1..], t)
  }

  lemma {:induction false} JointRun(j: Joint, events: seq<JointEvent>, t: Joint)
    requires JointInv(j) && JointReaches(j, events, t)
    ensures JointInv(t)
    decreases |events|
  {
    if events != [] {
      JointStepInv(j, events[0]);
      JointRun(JointStep(j, events[0]), events[1..], t);
    }
  }

  lemma JointStart(j: Joint)
    requires JointInit(j)
    ensures JointInv(j)
  {
    Connection.InitInv(j.link);
    Rendezvous.InitInv(j.fetch);
  }

  /** Request `k` has fetched the message `data`: as much of it as the user's buffer takes, and nothing else. */
  ghost predicate Holds(f: Fetch, k: nat, data: Bytes) {
    k < |f.reqs| &&
    var r := f.reqs[k];
    r.state.Fetched? && r.expected == Rendezvous.Least(|r.first|, |data| % SIZES) && |r.buf| == |r.first| &&
    r.expected <= |data| &&
    r.buf[..r.expected] == data[..r.expected] && r.buf[r.expected..] == r.first[r.expected..] &&
    Rendezvous.Flagged(r, |data| % SIZES)
  }

  lemma FetchedHolds(j: Joint, k: nat)
    requires JointInv(j) && k < |j.fetch.reqs| && j.fetch.reqs[k].state.Fetched?
    ensures k < |j.of| && j.of[k] < |j.link.posted| && Holds(j.fetch, k, j.link.posted[j.of[k]].data)
  {
    assert Rendezvous.ReqHolds(j.fetch, k);
    assert Tied(j.link.posted, j.of, j.fetch.data, k);
    var m, n := j.link.posted[j.of[k]], j.fetch.reqs[k].expected;
    assert m.data[..SizeField(m)][..n] == m.data[..n];
  }

  /** In every joint run, whatever is refused and however long the messages are, a finished request holds the
      message it is for. */
  lemma FetchesItsMessage(j: Joint, events: seq<JointEvent>, t: Joint, k: nat)
    requires JointInit(j) && JointReaches(j, events, t) && k < |t.fetch.reqs| && t.fetch.reqs[k].state.Fetched?
    ensures k < |t.of| && t.of[k] < |t.link.posted| && Holds(t.fetch, k, t.link.posted[t.of[k]].data)
  {
    JointStart(j);
    JointRun(j, events, t);
    FetchedHolds(t, k);
  }

  // ---------------------------------------------------------------- end to end

  lemma {:induction false} SourcesExact(posted: seq<Msg>, got: seq<Arrival>, n: nat)
    requires n == |got| <= |posted| && forall i :: 0 <= i < n ==>
      posted[i].id == i && Connection.Arrives(posted[i], got[i])
    ensures Rendezvous.Once(Sources(got)) && forall k :: 0 <= k < |Sources(got)| ==> Sources(got)[k] < n
    ensures forall i :: 0 <= i < n ==> (i in Sources(got) <==> got[i].Offered?)
    decreases n
  {
    if n > 0 {
      var front := got[..n - 1];
      SourcesExact(posted, front, n - 1);
      assert forall i :: 0 <= i < n - 1 ==> front[i] == got[i];
    }
  }

  /** The i-th posted message, posted by `e`, has been received: it is there as a whole, or, if it went by a
      request, it is the message of exactly one request, which waits for the user's buffer or holds the
      message. The sender's memory is in use exactly as long as the request waits. */
  ghost predicate Received(t: Joint, e: Connection.Event, i: nat)
    requires e.PostMsg?
  {
    if Connection.ByRequest(e) then exists k :: 0 <= k < |t.of| && t.of[k] == i && OnlyRequest(t, e.data, i, k)
    else i !in t.of && i < |t.link.inbox.got| && t.link.inbox.got[i] == Whole(e.data)
  }

  ghost predicate OnlyRequest(t: Joint, data: Bytes, i: nat, k: nat)
    requires k < |t.of|
  {
    k < |t.fetch.reqs| && (forall n :: 0 <= n < |t.of| && t.of[n] == i ==> n == k) &&
    if t.fetch.reqs[k].state.Waiting? then k in t.fetch.open else Holds(t.fetch, k, data) && k !in t.fetch.open
  }

  lemma RequestAtRest(t: Joint, i: nat, k: nat)
    requires JointInv(t) && t.fetch.gets == [] && t.fetch.notes == [] && k < |t.of| && t.of[k] == i < |t.link.posted|
    requires Rendezvous.Once(t.of)
    ensures OnlyRequest(t, t.link.posted[i].data, i, k)
  {
    assert Rendezvous.ReqHolds(t.fetch, k);
    if t.fetch.reqs[k].state.Fetched? {
      FetchedHolds(t, k);
    }
    forall n | 0 <= n < |t.of| && t.of[n] == i ensures n == k {
      assert t.of[n] == t.of[k];
    }
  }

  lemma ReceivedAtRest(t: Joint, e: Connection.Event, i: nat)
    requires JointInv(t) && t.fetch.gets == [] && t.fetch.notes == [] && i < |t.link.posted|
    requires Connection.AllArrive(t.link.posted, |t.link.posted|, t.link.inbox.got)
    requires e.PostMsg? && Connection.IsPosted(e, i, t.link.posted[i])
    ensures Received(t, e, i)
  {
    var posted, got := t.link.posted, t.link.inbox.got;
    forall n | 0 <= n < |posted| ensures posted[n].id == n && Connection.Arrives(posted[n], got[n]) {}
    SourcesExact(posted, got, |posted|);
    if Connection.ByRequest(e) {
      var k :| 0 <= k < |t.of| && t.of[k] == i;
      RequestAtRest(t, i, k);
    }
  }

  /** Nothing can happen by itself: no event of the connection but a new message, no get and no note. */
  ghost predicate JointQuiet(t: Joint) { Connection.Quiet(t.link) && t.fetch.gets == [] && t.fetch.notes == [] }

  /** The connection's events of a joint run. */
  function NetOf(events: seq<JointEvent>): seq<Connection.Event> {
    if events == [] then [] else (if events[0].Net? then [events[0].e] else []) + NetOf(events[1..])
  }

  /** The connection's part of a joint run is a run of the connection, so everything that holds of those
      holds here, in particular that nothing arrives completely if a packet was refused or a length does
      not fit. */
  lemma {:induction false} ConnectionPart(j: Joint, events: seq<JointEvent>, t: Joint)
    requires JointReaches(j, events, t)
    ensures Connection.Reaches(j.link, NetOf(events), t.link)
    decreases |events|
  {
    if events != [] {
      ConnectionPart(JointStep(j, events[0]), events[1..], t);
      if events[0].Net? {
        Connection.ReachesFirst(j.link, events[0].e, NetOf(events[1..]), t.link);
      } else {
        assert NetOf(events) == NetOf(events[1..]);
      }
    }
  }

  /** End to end: whatever the modes and interleavings, when connection and fetching are at rest and no
      packet was refused and every length fits the size field, every message posted in the run has been
      received. */
  lemma EndToEnd(j: Joint, events: seq<JointEvent>, t: Joint, i: nat)
    requires JointInit(j) && JointReaches(j, events, t) && JointQuiet(t)
    requires t.link.refused == 0 && Connection.AllShort(t.link.posted) && i < |Connection.Posts(NetOf(events))|
    ensures |t.link.inbox.got| == |Connection.Posts(NetOf(events))|
    ensures Received(t, Connection.Posts(NetOf(events))[i], i)
  {
    JointStart(j);
    JointRun(j, events, t);
    ConnectionPart(j, events, t);
    Connection.RunPosts(j.link, NetOf(events), t.link);
    Connection.RestArrives(t.link);
    ReceivedAtRest(t, Connection.Posts(NetOf(events))[i], i);
  }

  // ---------------------------------------------------------------- the whole comes to rest

  /** Events that follow by themselves: all but new messages and new buffers of the user. */
  predicate ByItself(e: JointEvent) { if e.Net? then !e.e.PostMsg? else !e.f.Match? }

  function JointWork(j: Joint): int {
    ConnectionWork.Work(j.link) + Rendezvous.AllLeft(j.fetch.reqs) + |j.fetch.notes|
  }

  lemma OfferIsFree(f: Fetch, data: Bytes)
    requires |f.data| == |f.reqs|
    ensures var t := Rendezvous.Step(f, Rendezvous.Offer(data));
      Rendezvous.AllLeft(t.reqs) == Rendezvous.AllLeft(f.reqs) && t.notes == f.notes
  {
    var t := Rendezvous.Step(f, Rendezvous.Offer(data));
    assert t.reqs[..|t.reqs| - 1] == f.reqs;
  }

  lemma JointCosts(j: Joint, e: JointEvent)
    requires JointInv(j) && ConnectionWork.CanEnd(j.link) && JointEnabled(j, e) && ByItself(e)
    ensures JointWork(JointStep(j, e)) < JointWork(j) && ConnectionWork.CanEnd(JointStep(j, e).link)
  {
    match e
    case Net(n) =>
      var t := ConnectionWork.Advance(j.link, n);
      StepGrows(j.link, n);
      var o := NewOffer(j.link.inbox, t.inbox);
      if o.Some? {
        OfferIsFree(j.fetch, Memory(t.posted, o.value.size, o.value.source));
      }
    case Fetching(f) => Rendezvous.FetchingEnds(j.fetch, f);
  }

  /** Left to itself, as long as the sending of every message ends, the whole comes to rest: only so many
      events can follow. */
  lemma {:induction false} JointEnds(j: Joint, events: seq<JointEvent>, t: Joint)
    requires JointInv(j) && ConnectionWork.CanEnd(j.link) && JointReaches(j, events, t)
    requires forall i :: 0 <= i < |events| ==> ByItself(events[i])
    ensures |events| <= JointWork(j)
    decreases |events|
  {
    if events == [] {
      ConnectionWork.WorkNonNegative(j.link);
    } else {
      JointCosts(j, events[0]);
      JointStepInv(j, events[0]);
      JointEnds(JointStep(j, events[0]), events[1..], t);
    }
  }
}
