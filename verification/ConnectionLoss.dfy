/** Which messages are lost: exactly those that begin while the receiver is out of requests. The proof
    weighs what was sent against what was received. */
module ConnectionLoss {
  import opened Messages
  import opened Connection

  /** The weight of a message is its number of bytes, or one if it has none or is only offered. */
  function Weight(a: Arrival): nat { if a.Whole? && a.data != [] then |a.data| else 1 }

  function GotWeight(got: seq<Arrival>): nat {
    if got == [] then 0 else GotWeight(got[..|got| - 1]) + Weight(got[|got| - 1])
  }

  function InboxWeight(b: Inbox): nat { GotWeight(b.got) + if b.state.RBody? then |b.state.data| else 0 }

  function PacketWeight(p: Packet): nat { if p.Eager? && p.payload != [] then |p.payload| else 1 }

  function SentWeight(ps: seq<Packet>): nat {
    if ps == [] then 0 else SentWeight(ps[..|ps| - 1]) + PacketWeight(ps[|ps| - 1])
  }

  /** A packet that adds its whole weight to the inbox. */
  predicate Counts(b: Inbox, p: Packet) {
    match b.state
    case RNone => p.Request? || p.payload != [] || p.size == 0
    case RBody(_, _) => p.Eager? && p.payload != []
  }

  lemma GotOne(got: seq<Arrival>, a: Arrival)
    ensures GotWeight(got + [a]) == GotWeight(got) + Weight(a)
  {
    assert (got + [a])[..|got|] == got;
  }

  lemma SentOne(ps: seq<Packet>, p: Packet)
    ensures SentWeight(ps + [p]) == SentWeight(ps) + PacketWeight(p)
  {
    assert (ps + [p])[..|ps|] == ps;
  }

  lemma ReceiveWeight(b: Inbox, p: Packet)
    ensures b.state.RNone? || p.Eager? ==> InboxWeight(RecvEngine(b, p)) <= InboxWeight(b) + PacketWeight(p)
    ensures Counts(b, p) ==> InboxWeight(RecvEngine(b, p)) == InboxWeight(b) + PacketWeight(p)
  {
    var t := RecvEngine(b, p);
    if t.got != b.got {
      GotOne(b.got, t.got[|b.got|]);
    }
  }

  function OffersIn(got: seq<Arrival>): nat {
    if got == [] then 0 else OffersIn(got[..|got| - 1]) + if got[|got| - 1].Offered? then 1 else 0
  }

  function RequestsIn(ps: seq<Packet>): nat {
    if ps == [] then 0 else RequestsIn(ps[..|ps| - 1]) + if ps[|ps| - 1].Request? then 1 else 0
  }

  /** A request becomes an offer only between messages; inside a body its record is taken for data. */
  lemma ReceiveOffers(b: Inbox, p: Packet)
    ensures OffersIn(RecvEngine(b, p).got) == OffersIn(b.got) + if b.state.RNone? && p.Request? then 1 else 0
  {
    var t := RecvEngine(b, p);
    if t.got != b.got {
      assert t.got[..|b.got|] == b.got;
    }
  }

  lemma RequestsOne(ps: seq<Packet>, p: Packet)
    ensures RequestsIn(ps + [p]) == RequestsIn(ps) + if p.Request? then 1 else 0
  {
    assert (ps + [p])[..|ps|] == ps;
  }

  /** At a receiver that refuses none, all packets put so far have their full weight and every request is
      an offer. The receiver itself has no more offers than it consumed requests, and if it has as many, it
      has less weight than it consumed by at least one for each packet that it refused. */
  ghost predicate Balanced(l: Link) {
    l.consumed <= |l.sent| && SentWeight(l.sent) == InboxWeight(RecvAll(l.sent)) &&
    RequestsIn(l.sent) == OffersIn(RecvAll(l.sent).got) &&
    Owed(l.inbox, l.refused, l.sent[..l.consumed])
  }

  lemma FirstCounts(b: Inbox, m: Msg)
    requires b.state.RNone? && Proper(m)
    ensures Counts(b, FirstPacket(m))
  {}

  lemma FirstPut(s: Sender)
    requires |s.ring| == RING && s.micur < RING && s.ring[s.micur].Busy? && SendFirst(s).Next? && SendFirst(s).put.Some?
    ensures SendFirst(s).put.value.pkt == FirstPacket(s.ring[s.micur].msg)
  {}

  lemma PostCounts(l: Link, e: Event)
    requires Inv(l) && AllShort(l.posted) && Enabled(l, e) && e.PostMsg? && Call(l, e).Next? && Call(l, e).put.Some?
    ensures Counts(RecvAll(l.sent), Call(l, e).put.value.pkt)
  {
    FirstCounts(RecvAll(l.sent), PostedBy(l, e));
  }

  lemma NextCounts(l: Link)
    requires Inv(l) && AllShort(l.posted) && Fit(l.s) && (l.s.state.DoneEager? || l.s.state.ReqRendezvous?)
    requires NextEntry(l.s).Next? && NextEntry(l.s).put.Some?
    ensures Counts(RecvAll(l.sent), NextEntry(l.s).put.value.pkt)
  {
    var j := (l.s.micur + 1) % RING;
    RingPosted(l, j);
    FirstCounts(RecvAll(l.sent), l.s.ring[j].msg);
  }

  lemma CurrentCounts(l: Link, s: Sender)
    requires Inv(l) && AllShort(l.posted) && Fit(l.s) && l.done < |l.posted| && s.ring == l.s.ring &&
      s.micur == l.s.micur
    requires RecvAll(l.sent).state.RNone? && l.s.ring[l.s.micur].Busy? && SendFirst(s).put.Some?
    ensures Counts(RecvAll(l.sent), SendFirst(s).put.value.pkt)
  {
    RingPosted(l, l.s.micur);
    FirstPut(s);
    FirstCounts(RecvAll(l.sent), l.s.ring[l.s.micur].msg);
  }

  lemma MoreCounts(l: Link, s: Sender)
    requires Inv(l) && AllShort(l.posted) && Active(l.s).DoEager? &&
      s == l.s.(recvidx := s.recvidx, state := DoEager) && s.recvidx < WINDOW
    ensures |s.ring| == RING && s.micur < RING && s.ring[s.micur].Busy? && SendMore(s).put.Some?
    ensures Counts(RecvAll(l.sent), SendMore(s).put.value.pkt)
  {
    InvFit(l);
    var size := SendMoreIs(s, l.posted[l.done]);
  }

  lemma CompletedCounts(l: Link, e: Event)
    requires Inv(l) && AllShort(l.posted) && Enabled(l, e) && e.Completed? && Call(l, e).Next? && Call(l, e).put.Some?
    ensures Counts(RecvAll(l.sent), Call(l, e).put.value.pkt)
  {
    if l.s.state.DoEager? {
      MoreCounts(l, l.s);
    } else {
      NextCounts(l);
    }
  }

  lemma ResetCounts(l: Link, e: Event)
    requires Inv(l) && AllShort(l.posted) && Enabled(l, e) && e.ResetArrives? && Call(l, e).Next? &&
      Call(l, e).put.Some?
    ensures Counts(RecvAll(l.sent), Call(l, e).put.value.pkt)
  {
    InvFit(l);
    if l.s.ostate.DoEager? {
      MoreCounts(l, l.s.(recvidx := 0, state := DoEager));
    } else {
      CurrentCounts(l, l.s.(recvidx := 0, state := HasRoom));
    }
  }

  lemma PutCounts(l: Link, e: Event)
    requires Inv(l) && AllShort(l.posted) && Enabled(l, e) && Call(l, e).Next? && Call(l, e).put.Some?
    ensures Counts(RecvAll(l.sent), Call(l, e).put.value.pkt)
  {
    match e
    case PostMsg(_, _, _) => PostCounts(l, e);
    case RoomGiven(_) =>
      InvFit(l);
      CurrentCounts(l, l.s.(sndok := true, state := HasRoom, recvidx := 0));
    case Completed => CompletedCounts(l, e);
    case ResetArrives => ResetCounts(l, e);
    case _ =>
  }

  lemma PutBalanced(l: Link, p: Packet)
    requires Balanced(l) && Counts(RecvAll(l.sent), p)
    ensures Balanced(l.(sent := l.sent + [p]))
  {
    assert (l.sent + [p])[..l.consumed] == l.sent[..l.consumed];
    RecvOne(l.sent, p);
    SentOne(l.sent, p);
    RequestsOne(l.sent, p);
    ReceiveWeight(RecvAll(l.sent), p);
    ReceiveOffers(RecvAll(l.sent), p);
  }

  /** The part of the balance that a poll moves. */
  ghost predicate Owed(b: Inbox, refused: nat, consumed: seq<Packet>) {
    OffersIn(b.got) <= RequestsIn(consumed) &&
    (OffersIn(b.got) == RequestsIn(consumed) ==> InboxWeight(b) + refused <= SentWeight(consumed))
  }

  lemma PolledOwed(b: Inbox, refused: nat, consumed: seq<Packet>, p: Packet, free: bool)
    requires Owed(b, refused, consumed)
    ensures Owed(Receive(b, p, free), if b.state.RNone? && !free then refused + 1 else refused, consumed + [p])
  {
    SentOne(consumed, p);
    RequestsOne(consumed, p);
    ReceiveWeight(b, p);
    ReceiveOffers(b, p);
  }

  lemma PolledBalanced(l: Link, e: Event)
    requires Inv(l) && Balanced(l) && Enabled(l, e) && e.Polled?
    ensures Balanced(Around(l, e))
  {
    PolledWindow(l, e);
    var n, p := l.consumed, l.slots[l.recvidx].value;
    assert l.sent[..n + 1] == l.sent[..n] + [p];
    PolledOwed(l.inbox, l.refused, l.sent[..n], p, e.free);
  }

  ghost predicate SameContent(l: Link, t: Link) {
    l.sent == t.sent && l.consumed == t.consumed && l.inbox == t.inbox && l.refused == t.refused
  }

  lemma StepContent(l: Link, e: Event)
    requires Enabled(l, e) && Call(l, e).Next?
    ensures !e.Polled? ==> SameContent(Around(l, e), l)
    ensures Call(l, e).put.None? ==> SameContent(Step(l, e), Around(l, e))
    ensures Call(l, e).put.Some? ==>
      SameContent(Step(l, e), Around(l, e).(sent := Around(l, e).sent + [Call(l, e).put.value.pkt]))
    ensures e.Polled? ==> Call(l, e).put.None?
  {}

  lemma StepBalanced(l: Link, e: Event)
    requires Inv(l) && AllShort(l.posted) && Balanced(l) && Enabled(l, e) && Call(l, e).Next?
    ensures Balanced(Step(l, e))
  {
    StepContent(l, e);
    if e.Polled? {
      PolledBalanced(l, e);
    } else if Call(l, e).put.Some? {
      PutCounts(l, e);
      PutBalanced(Around(l, e), Call(l, e).put.value.pkt);
    }
  }

  lemma StepPosted(l: Link, e: Event)
    requires Enabled(l, e) && Call(l, e).Next?
    ensures l.posted <= Step(l, e).posted
    ensures AllShort(Step(l, e).posted) ==> AllShort(l.posted)
  {
    forall i | 0 <= i < |l.posted| ensures l.posted[i] == Step(l, e).posted[i] {}
  }

  lemma {:induction false} RunBalanced(l: Link, events: seq<Event>, t: Link)
    requires Inv(l) && (AllShort(l.posted) ==> Balanced(l)) && Reaches(l, events, t)
    ensures Inv(t) && (AllShort(t.posted) ==> Balanced(t))
    decreases |events|
  {
    if events != [] {
      var e := events[0];
      StepInv(l, e);
      StepPosted(l, e);
      if AllShort(Step(l, e).posted) {
        StepBalanced(l, e);
      }
      RunBalanced(Step(l, e), events[1..], t);
    }
  }

  // ---------------------------------------------------------------- lengths

  predicate ShortArrival(a: Arrival) { if a.Whole? then |a.data| < SIZES else a.size < SIZES }

  /** Whatever the receiver has or expects is no longer than the size field can say. */
  ghost predicate ShortInbox(b: Inbox) {
    (b.state.RBody? ==> b.state.size < SIZES) && forall i :: 0 <= i < |b.got| ==> ShortArrival(b.got[i])
  }

  ghost predicate SizesHold(l: Link) {
    ShortInbox(l.inbox) && forall k :: 0 <= k < |l.sent| ==> l.sent[k].size < SIZES
  }

  lemma ReceiveShort(b: Inbox, p: Packet, free: bool)
    requires ShortInbox(b) && p.size < SIZES
    ensures ShortInbox(Receive(b, p, free))
  {}

  lemma PutShort(l: Link, e: Event)
    requires Enabled(l, e) && Call(l, e).Next? && Call(l, e).put.Some?
    ensures Call(l, e).put.value.pkt.size < SIZES
  {}

  lemma StepSizes(l: Link, e: Event)
    requires Inv(l) && SizesHold(l) && Enabled(l, e) && Call(l, e).Next?
    ensures SizesHold(Step(l, e))
  {
    StepContent(l, e);
    if e.Polled? {
      WindowTake(l.sent, Base(l), l.consumed, Landed(l), l.slots, l.flight, l.recvidx);
      ReceiveShort(l.inbox, l.slots[l.recvidx].value, e.free);
    } else if Call(l, e).put.Some? {
      PutShort(l, e);
    }
  }

  lemma {:induction false} RunSizes(l: Link, events: seq<Event>, t: Link)
    requires Inv(l) && SizesHold(l) && Reaches(l, events, t)
    ensures SizesHold(t)
    decreases |events|
  {
    if events != [] {
      StepInv(l, events[0]);
      StepSizes(l, events[0]);
      RunSizes(Step(l, events[0]), events[1..], t);
    }
  }

  /** A message that does not fit the size field never arrives. */
  lemma ArrivedIsShort(posted: seq<Msg>, b: Inbox)
    requires ShortInbox(b) && AllArrive(posted, |posted|, b.got)
    ensures AllShort(posted)
  {
    forall i | 0 <= i < |posted| ensures Short(posted[i]) {
      assert Arrives(posted[i], b.got[i]) && ShortArrival(b.got[i]);
    }
  }

  lemma ArrivalsUnique(posted: seq<Msg>, got: seq<Arrival>, other: seq<Arrival>)
    requires AllArrive(posted, |posted|, got) && AllArrive(posted, |posted|, other)
    ensures got == other
  {
    forall i | 0 <= i < |posted| ensures got[i] == other[i] {
      assert Arrives(posted[i], got[i]) && Arrives(posted[i], other[i]);
    }
  }

  lemma RestUnrefused(t: Link)
    requires Inv(t) && Balanced(t) && AllShort(t.posted) && t.s.state.SNone? && t.consumed == |t.sent|
    ensures AllArrive(t.posted, |t.posted|, t.inbox.got) <==> t.refused == 0
  {
    assert t.sent[..t.consumed] == t.sent;
    if AllArrive(t.posted, |t.posted|, t.inbox.got) {
      ArrivalsUnique(t.posted, t.inbox.got, RecvAll(t.sent).got);
    }
  }

  /** No deadlock, and loss exactly where the code drops or truncates: a connection comes to rest only when
      everything posted has been sent and consumed, and then all messages have arrived if and only if no
      message began while the receiver was out of requests and all of them fit the size field. */
  lemma RestMeansDelivered(l: Link, events: seq<Event>, t: Link)
    requires Init(l) && Reaches(l, events, t) && Quiet(t)
    ensures t.s.state.SNone? && t.consumed == |t.sent|
    ensures AllArrive(t.posted, |t.posted|, t.inbox.got) <==> t.refused == 0 && AllShort(t.posted)
    ensures |t.inbox.got| == |Posts(events)| && DeliveredAs(events, t.inbox.got) <==>
            t.refused == 0 && AllShort(t.posted)
  {
    DeliveredByPosts(l, events, t, t.inbox.got);
    InitInv(l);
    RunBalanced(l, events, t);
    RunSizes(l, events, t);
    RestState(t);
    if AllShort(t.posted) {
      RestUnrefused(t);
    } else if AllArrive(t.posted, |t.posted|, t.inbox.got) {
      ArrivedIsShort(t.posted, t.inbox);
    }
  }
}
