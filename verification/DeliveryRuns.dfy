/** A message posted in rendezvous mode, from the post to the user's buffer. */
module DeliveryRuns {
  import opened Powers
  import opened Messages
  import opened Connection
  import ConnectionLimits
  import opened Delivery

  lemma JointFirst(j: Joint, e: JointEvent, n: Joint, events: seq<JointEvent>, t: Joint)
    requires JointEnabled(j, e) && n == JointStep(j, e) && JointReaches(n, events, t)
    ensures JointReaches(j, [e] + events, t)
  {
    assert ([e] + events)[1..] == events;
  }

  lemma {:induction false} JointJoin(j: Joint, first: seq<JointEvent>, m: Joint, second: seq<JointEvent>, t: Joint)
    requires JointReaches(j, first, m) && JointReaches(m, second, t)
    ensures JointReaches(j, first + second, t)
    decreases |first|
  {
    if first == [] {
      assert first + second == second;
    } else {
      var n := JointRest(j, first, m);
      var e, rest := first[0], first[1..];
      JointJoin(n, rest, m, second, t);
      JointFirst(j, e, n, rest + second, t);
      Regroup(e, rest, second);
      assert [e] + rest == first;
    }
  }

  lemma Regroup<T>(e: T, a: seq<T>, b: seq<T>)
    ensures [e] + (a + b) == [e] + a + b
  {}

  lemma JointRest(j: Joint, events: seq<JointEvent>, t: Joint) returns (n: Joint)
    requires JointReaches(j, events, t) && events != []
    ensures JointEnabled(j, events[0]) && n == JointStep(j, events[0]) && JointReaches(n, events[1..], t)
  {
    n := JointStep(j, events[0]);
  }

  // ---------------------------------------------------------------- the request goes out

  /** A message that goes by a request. */
  predicate Long(data: Bytes, record: Bytes) { 236 < |data| < SIZES && |record| == RECORD }

  function RequestOf(data: Bytes, record: Bytes): Packet { Request(|data|, 0, record) }

  /** The request of the one posted message has been put and is on its way. */
  ghost predicate OnItsWay(l: Link, data: Bytes, record: Bytes) {
    Inv(l) && l.posted == [Msg(0, data, KindOf(|data|, true), record)] && l.done == 0 && l.s.state.ReqRendezvous? &&
    l.s.micur == 0 && l.s.mient == 1 && l.completions == 1 && l.resets == 0 && l.refused == 0 &&
    l.sent == [RequestOf(data, record)] && l.inbox == Inbox(RNone, []) && l.s.recvidx == 1
  }

  /** The message is posted, and room is asked for. */
  ghost predicate Asked(k: Link, data: Bytes, record: Bytes) {
    Inv(k) && k.posted == [Msg(0, data, KindOf(|data|, true), record)] && k.s.ring[0] == Busy(k.posted[0]) &&
    k.s.state.ReqRoom? && k.s.micur == 0 && k.s.mient == 1 && k.room && k.done == 0 && k.inbox == Inbox(RNone, []) &&
    k.refused == 0 && k.resets == 0 && k.consumed == 0 && k.flight == [] && k.sent == [] && k.completions == 0 &&
    k.s.recvidx == 0 && |k.s.ring| == RING
  }

  lemma PostRequest(l: Link, data: Bytes, record: Bytes) returns (k: Link)
    requires Init(l) && Long(data, record)
    ensures Enabled(l, PostMsg(data, true, record)) && Call(l, PostMsg(data, true, record)).Next?
    ensures k == Step(l, PostMsg(data, true, record)) && k.inbox == l.inbox && Asked(k, data, record)
  {
    InitInv(l);
    StepInv(l, PostMsg(data, true, record));
    k := Step(l, PostMsg(data, true, record));
  }

  lemma FirstRequest(s: Sender, data: Bytes, record: Bytes)
    requires |s.ring| == RING && s.micur == 0 && s.recvidx == 0 && Long(data, record)
    requires s.ring[0] == Busy(Msg(0, data, KindOf(|data|, true), record))
    ensures SendFirst(s) == Next(s.(recvidx := 1, state := ReqRendezvous), Some(Put(0, RequestOf(data, record))))
  {
    assert SizeField(s.ring[0].msg) == |data|;
  }

  /** The link when the request has been put. */
  function WithRequest(k: Link, data: Bytes, record: Bytes): Link {
    k.(s := k.s.(sndok := true, recvidx := 1, state := ReqRendezvous), room := false, completions := 1,
       flight := [Put(0, RequestOf(data, record))], sent := [RequestOf(data, record)])
  }

  lemma RoomPuts(k: Link, data: Bytes, record: Bytes)
    requires Long(data, record) && Enabled(k, RoomGiven(0)) && |k.s.ring| == RING && k.s.micur == 0
    requires k.s.ring[0] == Busy(Msg(0, data, KindOf(|data|, true), record)) && k.s.state.ReqRoom?
    requires k.flight == [] && k.sent == [] && k.completions == 0
    ensures Call(k, RoomGiven(0)).Next? && Step(k, RoomGiven(0)) == WithRequest(k, data, record)
  {
    FirstRequest(k.s.(sndok := true, state := HasRoom, recvidx := 0), data, record);
  }

  lemma PutRequest(k: Link, data: Bytes, record: Bytes) returns (n: Link)
    requires Asked(k, data, record) && Long(data, record)
    ensures Enabled(k, RoomGiven(0)) && Call(k, RoomGiven(0)).Next? && n == Step(k, RoomGiven(0)) && n.inbox == k.inbox
    ensures OnItsWay(n, data, record) && n.flight == [Put(0, RequestOf(data, record))] && n.consumed == 0
  {
    InvFit(k);
    RoomPuts(k, data, record);
    StepInv(k, RoomGiven(0));
    n := WithRequest(k, data, record);
  }

  lemma RequestLands(l: Link, data: Bytes, record: Bytes) returns (n: Link)
    requires OnItsWay(l, data, record) && l.flight == [Put(0, RequestOf(data, record))] && l.consumed == 0
    ensures Enabled(l, Delivered) && Call(l, Delivered).Next? && n == Step(l, Delivered)
    ensures OnItsWay(n, data, record) && n.flight == [] && n.consumed == 0 && n.recvidx == 0
    ensures n.slots[0] == Some(RequestOf(data, record)) && n.inbox == l.inbox
  {
    InvFit(l);
    StepInv(l, Delivered);
    n := Step(l, Delivered);
  }

  lemma RequestTaken(l: Link, data: Bytes, record: Bytes) returns (n: Link)
    requires OnItsWay(l, data, record) && l.flight == [] && l.consumed == 0 && l.recvidx == 0
    requires |l.slots| == WINDOW && l.slots[0] == Some(RequestOf(data, record))
    ensures Enabled(l, Polled(true)) && Call(l, Polled(true)).Next? && n == Step(l, Polled(true))
    ensures Inv(n) && n == l.(slots := n.slots, recvidx := 1, consumed := 1, inbox := n.inbox)
    ensures n.inbox == Inbox(RNone, [Offered(|data|, 0)])
  {
    InvFit(l);
    StepInv(l, Polled(true));
    n := Step(l, Polled(true));
  }

  lemma RequestDone(l: Link) returns (n: Link)
    requires Inv(l) && |l.posted| == 1 && l.done == 0 && l.s.state.ReqRendezvous? && l.s.micur == 0 && l.s.mient == 1
    requires l.completions == 1 && l.resets == 0 && l.flight == [] && l.consumed == |l.sent|
    ensures Enabled(l, Completed) && Call(l, Completed).Next? && n == Step(l, Completed)
    ensures Inv(n) && Quiet(n) && n.posted == l.posted && n.inbox == l.inbox && n.refused == l.refused
  {
    InvFit(l);
    StepInv(l, Completed);
    n := Step(l, Completed);
    ConnectionLimits.AtRest(n);
  }

  lemma NetStep(j: Joint, e: Event, l: Link) returns (n: Joint)
    requires JointInv(j) && Enabled(j.link, e) && Call(j.link, e).Next? && l == Step(j.link, e)
    requires l.inbox == j.link.inbox
    ensures JointEnabled(j, Net(e)) && n == JointStep(j, Net(e)) && n == j.(link := l) && JointInv(n)
  {
    n := JointStep(j, Net(e));
    JointStepInv(j, Net(e));
  }

  /** The request is offered to the fetching. */
  lemma OfferStep(j: Joint, l: Link, data: Bytes) returns (n: Joint)
    requires JointInv(j) && Rendezvous.Init(j.fetch) && j.of == [] && Enabled(j.link, Polled(true))
    requires Call(j.link, Polled(true)).Next? && l == Step(j.link, Polled(true)) && j.link.inbox.got == []
    requires l.inbox.got == [Offered(|data|, 0)] && |l.posted| == 1 && l.posted[0].data == data
    ensures JointEnabled(j, Net(Polled(true))) && n == JointStep(j, Net(Polled(true))) && JointInv(n)
    ensures n.link == l && n.of == [0] && n.fetch.reqs == [Rendezvous.FRESH_REQ] && n.fetch.data == [data]
    ensures n.fetch.gets == [] && n.fetch.notes == []
  {
    n := JointStep(j, Net(Polled(true)));
    JointStepInv(j, Net(Polled(true)));
    assert data[..|data|] == data;
  }

  /** From the post to the request in its slot. */
  lemma PostedRun(j: Joint, data: Bytes, record: Bytes) returns (events: seq<JointEvent>, t: Joint)
    requires JointInit(j) && Long(data, record)
    ensures JointReaches(j, events, t) && JointInv(t) && t == j.(link := t.link)
    ensures NetOf(events) == [PostMsg(data, true, record), RoomGiven(0), Delivered]
    ensures OnItsWay(t.link, data, record) && t.link.flight == [] && t.link.consumed == 0 && t.link.recvidx == 0
    ensures |t.link.slots| == WINDOW && t.link.slots[0] == Some(RequestOf(data, record))
  {
    JointStart(j);
    var a := PostRequest(j.link, data, record);
    var ja := NetStep(j, PostMsg(data, true, record), a);
    events, t := RoomRun(ja, data, record);
    events := NetBefore(j, PostMsg(data, true, record), ja, events, t);
  }

  lemma RoomRun(j: Joint, data: Bytes, record: Bytes) returns (events: seq<JointEvent>, t: Joint)
    requires JointInv(j) && Asked(j.link, data, record) && Long(data, record)
    ensures JointReaches(j, events, t) && JointInv(t) && t == j.(link := t.link)
    ensures NetOf(events) == [RoomGiven(0), Delivered]
    ensures OnItsWay(t.link, data, record) && t.link.flight == [] && t.link.consumed == 0 && t.link.recvidx == 0
    ensures |t.link.slots| == WINDOW && t.link.slots[0] == Some(RequestOf(data, record))
  {
    var b := PutRequest(j.link, data, record);
    var jb := NetStep(j, RoomGiven(0), b);
    var c := RequestLands(b, data, record);
    t := NetStep(jb, Delivered, c);
    events := NetBefore(jb, Delivered, t, [], t);
    events := NetBefore(j, RoomGiven(0), jb, events, t);
  }

  /** From there to the offer, and to the sender at rest. */
  lemma TakenRun(j: Joint, data: Bytes, record: Bytes) returns (events: seq<JointEvent>, t: Joint)
    requires JointInv(j) && Rendezvous.Init(j.fetch) && j.of == [] && Long(data, record)
    requires OnItsWay(j.link, data, record) && j.link.flight == [] && j.link.consumed == 0 && j.link.recvidx == 0
    requires |j.link.slots| == WINDOW && j.link.slots[0] == Some(RequestOf(data, record))
    ensures JointReaches(j, events, t) && JointInv(t) && Quiet(t.link)
    ensures NetOf(events) == [Polled(true), Completed]
    ensures t.link.inbox.got == [Offered(|data|, 0)] && |t.link.posted| == 1 && t.link.posted[0].data == data
    ensures t.of == [0] && t.fetch.reqs == [Rendezvous.FRESH_REQ] && t.fetch.gets == [] && t.fetch.notes == []
  {
    var d := RequestTaken(j.link, data, record);
    var jd := OfferStep(j, d, data);
    var e := RequestDone(d);
    t := NetStep(jd, Completed, e);
    events := NetBefore(jd, Completed, t, [], t);
    events := NetBefore(j, Polled(true), jd, events, t);
  }

  /** One more event of the connection before a run. */
  lemma NetBefore(j: Joint, e: Event, n: Joint, rest: seq<JointEvent>, t: Joint) returns (events: seq<JointEvent>)
    requires JointEnabled(j, Net(e)) && n == JointStep(j, Net(e)) && JointReaches(n, rest, t)
    ensures JointReaches(j, events, t) && NetOf(events) == [e] + NetOf(rest)
  {
    events := [Net(e)] + rest;
    JointFirst(j, Net(e), n, rest, t);
    assert events[1..] == rest;
  }

  lemma {:induction false} NetOfJoin(first: seq<JointEvent>, second: seq<JointEvent>)
    ensures NetOf(first + second) == NetOf(first) + NetOf(second)
    decreases |first|
  {
    if first != [] {
      NetOfJoin(first[1..], second);
      assert (first + second)[1..] == first[1..] + second;
    } else {
      assert first + second == second;
    }
  }

  lemma {:induction false} NoNet(events: seq<JointEvent>)
    requires forall i :: 0 <= i < |events| ==> events[i].Fetching?
    ensures NetOf(events) == []
    decreases |events|
  {
    if events != [] {
      NoNet(events[1..]);
    }
  }

  // ---------------------------------------------------------------- the fetching goes on to its end

  /** Requests keep the buffer they were matched with, and what has been matched stays so. */
  ghost predicate Continues(f: Fetch, t: Fetch) {
    |t.reqs| == |f.reqs| && t.data == f.data &&
    forall k :: 0 <= k < |f.reqs| && !f.reqs[k].state.Waiting? ==>
      !t.reqs[k].state.Waiting? && t.reqs[k].first == f.reqs[k].first
  }

  lemma StepContinues(f: Fetch, e: Rendezvous.Event)
    requires Rendezvous.Inv(f) && Rendezvous.Enabled(f, e) && (e.GetDone? || e.NoteArrives?)
    ensures Continues(f, Rendezvous.Step(f, e))
  {
    if e.GetDone? {
      assert Rendezvous.GetHolds(f, 0);
    }
  }

  lemma FetchStep(j: Joint, e: Rendezvous.Event) returns (n: Joint)
    requires JointInv(j) && Rendezvous.Enabled(j.fetch, e) && (e.GetDone? || e.NoteArrives?)
    ensures JointEnabled(j, Fetching(e)) && n == JointStep(j, Fetching(e)) && JointInv(n)
    ensures n == j.(fetch := n.fetch) && Continues(j.fetch, n.fetch)
    ensures Rendezvous.AllLeft(n.fetch.reqs) + |n.fetch.notes| < Rendezvous.AllLeft(j.fetch.reqs) + |j.fetch.notes|
  {
    n := JointStep(j, Fetching(e));
    JointStepInv(j, Fetching(e));
    StepContinues(j.fetch, e);
    Rendezvous.FetchingEnds(j.fetch, e);
  }

  lemma SomeFetching(f: Fetch) returns (e: Rendezvous.Event)
    requires Rendezvous.Inv(f) && !(f.gets == [] && f.notes == [])
    ensures Rendezvous.Enabled(f, e) && (e.GetDone? || e.NoteArrives?)
  {
    e := if f.gets != [] then Rendezvous.GetDone else Rendezvous.NoteArrives;
    if f.gets != [] {
      assert Rendezvous.GetHolds(f, 0);
    }
  }

  /** All gets and notes under way can come to their end. */
  lemma {:induction false} FinishFetch(j: Joint) returns (events: seq<JointEvent>, t: Joint)
    requires JointInv(j)
    ensures JointReaches(j, events, t) && JointInv(t) && t == j.(fetch := t.fetch) && Continues(j.fetch, t.fetch)
    ensures t.fetch.gets == [] && t.fetch.notes == [] && forall i :: 0 <= i < |events| ==> events[i].Fetching?
    decreases Rendezvous.AllLeft(j.fetch.reqs) + |j.fetch.notes|
  {
    if j.fetch.gets == [] && j.fetch.notes == [] {
      return [], j;
    }
    var e := SomeFetching(j.fetch);
    var n := FetchStep(j, e);
    events, t := FinishFetch(n);
    JointFirst(j, Fetching(e), n, events, t);
    events := [Fetching(e)] + events;
  }

  lemma MatchStep(j: Joint, buf: Bytes, marked: bool) returns (n: Joint)
    requires JointInv(j) && j.fetch.reqs == [Rendezvous.FRESH_REQ]
    ensures JointEnabled(j, Fetching(Rendezvous.Match(0, buf, marked)))
    ensures n == JointStep(j, Fetching(Rendezvous.Match(0, buf, marked))) && JointInv(n)
    ensures n == j.(fetch := n.fetch) && |n.fetch.reqs| == 1
    ensures n.fetch.reqs[0].first == buf && n.fetch.reqs[0].state.Fetching?
  {
    n := JointStep(j, Fetching(Rendezvous.Match(0, buf, marked)));
    JointStepInv(j, Fetching(Rendezvous.Match(0, buf, marked)));
  }

  /** Every message posted in rendezvous mode that no packet holds can be offered, matched and fetched as a
      whole: all is at rest, and the user's buffer begins with the message. */
  lemma WholeFetch(j: Joint, data: Bytes, record: Bytes, buf: Bytes) returns (events: seq<JointEvent>, t: Joint)
    requires JointInit(j) && Long(data, record) && |buf| >= |data|
    ensures JointReaches(j, events, t) && JointQuiet(t)
    ensures NetOf(events) == [PostMsg(data, true, record), RoomGiven(0), Delivered, Polled(true), Completed]
    ensures t.link.inbox.got == [Offered(|data|, 0)] && t.of == [0] && |t.fetch.reqs| == 1
    ensures t.fetch.reqs[0].state.Fetched? && t.fetch.reqs[0].buf == data + buf[|data|..] && t.fetch.open == {}
  {
    var first, a := OfferedRun(j, data, record);
    var rest;
    rest, t := MatchedRun(a, data, buf);
    events := Join(j, first, a, rest, t);
  }

  lemma Join(j: Joint, first: seq<JointEvent>, a: Joint, second: seq<JointEvent>, t: Joint)
    returns (events: seq<JointEvent>)
    requires JointReaches(j, first, a) && JointReaches(a, second, t)
    ensures JointReaches(j, events, t) && NetOf(events) == NetOf(first) + NetOf(second)
  {
    JointJoin(j, first, a, second, t);
    NetOfJoin(first, second);
    events := first + second;
  }

  /** From the post to the offer. */
  lemma OfferedRun(j: Joint, data: Bytes, record: Bytes) returns (events: seq<JointEvent>, t: Joint)
    requires JointInit(j) && Long(data, record)
    ensures JointReaches(j, events, t) && JointInv(t) && Quiet(t.link)
    ensures NetOf(events) == [PostMsg(data, true, record), RoomGiven(0), Delivered, Polled(true), Completed]
    ensures t.link.inbox.got == [Offered(|data|, 0)] && |t.link.posted| == 1 && t.link.posted[0].data == data
    ensures t.of == [0] && t.fetch.reqs == [Rendezvous.FRESH_REQ]
  {
    var first, k := PostedRun(j, data, record);
    var second;
    second, t := TakenRun(k, data, record);
    events := Join(j, first, k, second, t);
  }

  lemma MatchedRun(a: Joint, data: Bytes, buf: Bytes) returns (events: seq<JointEvent>, t: Joint)
    requires JointInv(a) && a.fetch.reqs == [Rendezvous.FRESH_REQ] && a.of == [0] && |buf| >= |data| && |data| < SIZES
    requires |a.link.posted| == 1 && a.link.posted[0].data == data
    ensures JointReaches(a, events, t) && t.link == a.link && t.of == a.of && NetOf(events) == []
    ensures t.fetch.gets == [] && t.fetch.notes == [] && |t.fetch.reqs| == 1
    ensures t.fetch.reqs[0].state.Fetched? && t.fetch.reqs[0].buf == data + buf[|data|..] && t.fetch.open == {}
  {
    var b := MatchStep(a, buf, false);
    var rest;
    rest, t := FinishFetch(b);
    JointFirst(a, Fetching(Rendezvous.Match(0, buf, false)), b, rest, t);
    events := [Fetching(Rendezvous.Match(0, buf, false))] + rest;
    NoNet(events);
    FetchedWhole(t, data, buf);
  }

  lemma FetchedWhole(t: Joint, data: Bytes, buf: Bytes)
    requires JointInv(t) && t.fetch.gets == [] && t.fetch.notes == [] && |t.fetch.reqs| == 1 && t.of == [0]
    requires !t.fetch.reqs[0].state.Waiting? && t.fetch.reqs[0].first == buf && |data| <= |buf| && |data| < SIZES
    requires |t.link.posted| == 1 && t.link.posted[0].data == data
    ensures t.fetch.reqs[0].state.Fetched? && t.fetch.reqs[0].buf == data + buf[|data|..] && t.fetch.open == {}
  {
    var r := t.fetch.reqs[0];
    assert r.state.Fetched?;
    FetchedHolds(t, 0);
    assert r.expected == |data|;
    assert r.buf == r.buf[..|data|] + r.buf[|data|..];
    assert data[..|data|] == data;
  }
}
