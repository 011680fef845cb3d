/** A connection comes to rest: without new messages only a bounded number of events can happen. */
module ConnectionWork {
  import opened Messages
  import opened Connection

  /** The sending of a message ends if its size field does not say less than its first packet carries. */
  predicate Ends(m: Msg) { m.kind.InPlace? ==> PAYLOAD <= SizeField(m) }

  ghost predicate AllEnd(posted: seq<Msg>) { forall i :: 0 <= i < |posted| ==> Ends(posted[i]) }

  /** How far the current message has been sent: the end is ahead exactly if there is one. */
  predicate CurrentSized(st: SendState, usize: nat, m: Msg) {
    match st
    case DoEager => m.kind.InPlace? && PAYLOAD <= usize && (Ends(m) <==> usize <= SizeField(m))
    case DoneEager => Ends(m)
    case ReqRendezvous => Ends(m)
    case _ => true
  }

  /** Only messages that end have been done with. */
  ghost predicate Sized(l: Link) {
    l.done <= |l.posted| && (forall i :: 0 <= i < l.done ==> Ends(l.posted[i])) &&
    (l.done < |l.posted| ==> CurrentSized(Active(l.s), l.s.usize, l.posted[l.done]))
  }

  ghost predicate CanEnd(l: Link) { AllEnd(l.posted) && Sized(l) }

  lemma FirstSized(s: Sender, m: Msg)
    requires |s.ring| == RING && s.micur < RING && s.ring[s.micur] == Busy(m) && s.state.HasRoom?
    ensures SendFirst(s).Next? && CurrentSized(Active(SendFirst(s).s), SendFirst(s).s.usize, m)
  {}

  lemma MoreSized(s: Sender, m: Msg)
    requires |s.ring| == RING && s.micur < RING && s.ring[s.micur] == Busy(m) && s.state.DoEager?
    requires CurrentSized(DoEager, s.usize, m)
    ensures SendMore(s).Next? && CurrentSized(Active(SendMore(s).s), SendMore(s).s.usize, m)
  {}

  lemma PostSized(l: Link, e: Event)
    requires Inv(l) && Sized(l) && Enabled(l, e) && e.PostMsg? && Call(l, e).Next?
    ensures Sized(Step(l, e))
  {
    if l.s.state.SNone? && l.s.sndok {
      PostCall(l, e);
      FirstSized(Queued(l, PostedBy(l, e)).s.(state := HasRoom), PostedBy(l, e));
    }
  }

  lemma NextSized(l: Link, e: Event)
    requires Inv(l) && Sized(l) && Enabled(l, e) && e.Completed? && !l.s.state.DoEager?
    requires Call(l, e).Next?
    ensures Sized(Step(l, e))
  {
    var f := Freed(l);
    NextMessage(l, f);
    if f.done < |f.posted| {
      NextFirstSized(l, e, f);
    } else {
      assert Step(l, e) == f.(s := f.s.(micur := 0, mient := 0, state := SNone));
    }
  }

  /** Once an entry has been freed, the next one holds the next message. */
  lemma NextMessage(l: Link, f: Link)
    requires Inv(l) && Fit(l.s) && (l.s.state.DoneEager? || l.s.state.ReqRendezvous?) && f == Freed(l)
    ensures f.done <= |f.posted| && f.s.micur < RING && |f.s.ring| == RING
    ensures f.s.micur == f.s.mient <==> f.done == |f.posted|
    ensures f.done < |f.posted| ==> f.s.ring[f.s.micur] == Busy(f.posted[f.done])
  {
    FreedHolds(l);
    if f.done < |f.posted| {
      InvFit(f);
    }
  }

  lemma NextFirstSized(l: Link, e: Event, f: Link)
    requires Enabled(l, e) && e.Completed? && (l.s.state.DoneEager? || l.s.state.ReqRendezvous?) && l.completions == 1
    requires Sized(l) && f == Freed(l) && f.done < |f.posted| && f.s.micur != f.s.mient
    requires |f.s.ring| == RING && f.s.ring[f.s.micur] == Busy(f.posted[f.done])
    ensures Call(l, e).Next? && Sized(Step(l, e))
  {
    NextCall(l, e);
    FirstSized(f.s, f.posted[f.done]);
    AbsorbSame(Around(l, e), f, SendFirst(f.s));
  }

  lemma ResetSized(l: Link, e: Event)
    requires Inv(l) && Sized(l) && Enabled(l, e) && e.ResetArrives? && Call(l, e).Next?
    ensures Sized(Step(l, e))
  {
    InvFit(l);
    if l.s.state.WaitBufReady? {
      var s := l.s.(recvidx := 0, state := l.s.ostate);
      if l.s.ostate.HasRoom? {
        FirstSized(s, l.posted[l.done]);
      } else {
        MoreSized(s, l.posted[l.done]);
      }
    }
  }

  lemma StepSized(l: Link, e: Event)
    requires Inv(l) && Sized(l) && Enabled(l, e) && Call(l, e).Next?
    ensures Sized(Step(l, e))
  {
    InvFit(l);
    match e
    case PostMsg(_, _, _) => PostSized(l, e);
    case RoomGiven(_) => FirstSized(l.s.(sndok := true, state := HasRoom, recvidx := 0), l.posted[l.done]);
    case Completed =>
      if l.s.state.DoEager? {
        MoreSized(l.s, l.posted[l.done]);
      } else {
        NextSized(l, e);
      }
    case ResetArrives => ResetSized(l, e);
    case _ =>
  }

  lemma StaySized(l: Link, e: Event) returns (n: Link)
    requires Inv(l) && Sized(l) && Enabled(l, e) && Call(l, e).Next?
    ensures n == Step(l, e) && Inv(n) && Sized(n) && l.posted <= n.posted
  {
    StepInv(l, e);
    StepSized(l, e);
    n := Step(l, e);
  }

  lemma {:induction false} RunSized(l: Link, events: seq<Event>, t: Link)
    requires Inv(l) && Sized(l) && Reaches(l, events, t)
    ensures Inv(t) && Sized(t) && l.posted <= t.posted
    decreases |events|
  {
    if events != [] {
      var n := StaySized(l, events[0]);
      RunSized(n, events[1..], t);
    }
  }

  // ---------------------------------------------------------------- a measure

  /** Packets needed for `n` bytes sent in pieces. */
  function Pieces(n: nat): nat { if n <= PAYLOAD then 1 else 1 + Pieces(n - PAYLOAD) }

  function Packets(m: Msg): nat {
    if m.kind.InPlace? && PAYLOAD <= SizeField(m) then 1 + Pieces(SizeField(m) - PAYLOAD) else 1
  }

  function PacketsFrom(posted: seq<Msg>, i: nat): nat
    decreases |posted| - i
  {
    if i >= |posted| then 0 else Packets(posted[i]) + PacketsFrom(posted, i + 1)
  }

  /** Packets of the current message that are still to be put. */
  function Remaining(st: SendState, usize: nat, m: Msg): nat {
    match st
    case DoEager => if usize <= SizeField(m) then Pieces(SizeField(m) - usize) else 0
    case DoneEager => 0
    case ReqRendezvous => 0
    case _ => Packets(m)
  }

  function ToSend(l: Link): nat {
    if l.done >= |l.posted| then 0
    else Remaining(Active(l.s), l.s.usize, l.posted[l.done]) + PacketsFrom(l.posted, l.done + 1)
  }

  /** Work left: each packet still to be put costs more than the events its put brings about. */
  function Work(l: Link): int {
    8 * ToSend(l) + 3 * |l.flight| + 2 * (Landed(l) - l.consumed) + l.completions + l.resets + (if l.room then 1 else 0)
  }

  lemma FirstToSend(l: Link)
    requires Ready(l) && CanEnd(l) && Fit(l.s) && l.s.recvidx < WINDOW
    requires l.done < |l.posted| && l.s.ring[l.s.micur] == Busy(l.posted[l.done])
    ensures SendFirst(l.s).Next? && SendFirst(l.s).put.Some? && ToSend(Absorb(l, SendFirst(l.s))) < ToSend(l)
  {
    assert Proper(l.posted[l.done]);
  }

  lemma FirstCosts(l: Link)
    requires Ready(l) && CanEnd(l)
    ensures Fit(l.s) && SendFirst(l.s).Next? && Work(Absorb(l, SendFirst(l.s))) <= Work(l)
  {
    InvFit(l);
    if l.s.recvidx < WINDOW {
      FirstToSend(l);
      PutWork(l, SendFirst(l.s));
    }
  }

  /** A put takes one packet off what is to be sent, and brings less work than that. */
  lemma PutWork(l: Link, o: Outcome)
    requires o.Next? && o.put.Some? && ToSend(Absorb(l, o)) < ToSend(l)
    ensures Work(Absorb(l, o)) <= Work(l)
  {}

  lemma MoreToSend(l: Link)
    requires ReadyMore(l) && CanEnd(l) && Fit(l.s) && l.s.recvidx < WINDOW
    requires l.s.ring[l.s.micur] == Busy(l.posted[l.done])
    ensures SendMore(l.s).Next? && SendMore(l.s).put.Some? && ToSend(Absorb(l, SendMore(l.s))) < ToSend(l)
  {
    assert CurrentSized(DoEager, l.s.usize, l.posted[l.done]) && Ends(l.posted[l.done]);
  }

  lemma MoreCosts(l: Link)
    requires ReadyMore(l) && CanEnd(l)
    ensures Fit(l.s) && SendMore(l.s).Next? && Work(Absorb(l, SendMore(l.s))) <= Work(l)
  {
    InvFit(l);
    if l.s.recvidx < WINDOW {
      MoreToSend(l);
      PutWork(l, SendMore(l.s));
    }
  }

  ghost predicate Costs(l: Link, e: Event) {
    Enabled(l, e) && Call(l, e).Next? && Work(Step(l, e)) < Work(l)
  }

  /** The connection when room has been given. */
  function Roomed(l: Link): Link { l.(room := false, s := l.s.(sndok := true, state := HasRoom, recvidx := 0)) }

  lemma RoomReady(l: Link)
    requires Inv(l) && CanEnd(l) && l.room
    ensures Ready(Roomed(l)) && Work(Roomed(l)) < Work(l)
  {}

  lemma RoomCosts(l: Link, e: Event)
    requires Inv(l) && CanEnd(l) && e.RoomGiven? && !NoRoom(e) && Enabled(l, e)
    ensures Costs(l, e)
  {
    var r := Roomed(l);
    RoomReady(l);
    FirstCosts(r);
    AbsorbSame(Around(l, e), r, SendFirst(r.s));
  }

  lemma FreedWork(l: Link)
    requires Inv(l) && CanEnd(l) && Fit(l.s) && (l.s.state.DoneEager? || l.s.state.ReqRendezvous?)
    ensures Work(Freed(l)) == Work(l) - 1
  {}

  lemma NextNoneCosts(l: Link, e: Event)
    requires Inv(l) && CanEnd(l) && e.Completed? && Enabled(l, e) &&
      (l.s.state.DoneEager? || l.s.state.ReqRendezvous?)
    requires Freed(l).s.micur == Freed(l).s.mient && l.done + 1 == |l.posted|
    ensures Costs(l, e)
  {
    var f := Freed(l);
    FreedWork(l);
    assert Step(l, e) == f.(s := f.s.(micur := 0, mient := 0, state := SNone));
  }

  lemma NextSendsCosts(l: Link, e: Event)
    requires Inv(l) && CanEnd(l) && e.Completed? && Enabled(l, e) &&
      (l.s.state.DoneEager? || l.s.state.ReqRendezvous?)
    requires Freed(l).s.micur != Freed(l).s.mient && Ready(Freed(l))
    ensures Costs(l, e)
  {
    var f := Freed(l);
    FreedWork(l);
    InvFit(f);
    FirstCosts(f);
    NextCall(l, e);
    AbsorbSame(Around(l, e), f, SendFirst(f.s));
  }

  lemma NextCosts(l: Link, e: Event)
    requires Inv(l) && CanEnd(l) && e.Completed? && Enabled(l, e) &&
      (l.s.state.DoneEager? || l.s.state.ReqRendezvous?)
    ensures Costs(l, e)
  {
    FreedHolds(l);
    if l.done + 1 == |l.posted| {
      NextNoneCosts(l, e);
    } else {
      NextSendsCosts(l, e);
    }
  }

  lemma DoEagerCosts(l: Link, e: Event)
    requires Inv(l) && CanEnd(l) && e.Completed? && Enabled(l, e) && l.s.state.DoEager?
    ensures Costs(l, e)
  {
    var r := TakenIn(l);
    MoreCosts(r);
    AbsorbSame(Around(l, e), r, SendMore(r.s));
    assert Step(l, e) == Absorb(r, SendMore(r.s));
  }

  lemma TakenIn(l: Link) returns (r: Link)
    requires Inv(l) && CanEnd(l) && l.s.state.DoEager?
    ensures r == l.(completions := 0) && ReadyMore(r) && CanEnd(r) && Work(r) < Work(l)
  {
    r := l.(completions := 0);
  }

  lemma CompletedCosts(l: Link, e: Event)
    requires Inv(l) && CanEnd(l) && e.Completed? && Enabled(l, e)
    ensures Costs(l, e)
  {
    if l.s.state.DoEager? {
      DoEagerCosts(l, e);
    } else {
      NextCosts(l, e);
    }
  }

  /** The connection when a reset has been taken in. */
  function Restarted(l: Link): Link { l.(resets := 0, s := l.s.(recvidx := 0, state := Active(l.s))) }

  lemma RestartedHolds(l: Link)
    requires Inv(l) && CanEnd(l) && l.resets > 0
    ensures Work(Restarted(l)) < Work(l)
    ensures l.s.state.WaitBufReady? ==> if l.s.ostate.HasRoom? then Ready(Restarted(l)) else ReadyMore(Restarted(l))
  {
    ResetExact(l);
    ResetWindow(l, Restarted(l));
  }

  lemma ResumeCosts(l: Link, e: Event)
    requires Inv(l) && CanEnd(l) && e.ResetArrives? && Enabled(l, e) && l.s.state.WaitBufReady? &&
      l.resets == 1
    ensures Costs(l, e)
  {
    var r := Restarted(l);
    RestartedHolds(l);
    InvFit(l);
    if l.s.ostate.HasRoom? {
      FirstCosts(r);
      AbsorbSame(Around(l, e), r, SendFirst(r.s));
    } else {
      MoreCosts(r);
      AbsorbSame(Around(l, e), r, SendMore(r.s));
    }
  }

  lemma ResetCosts(l: Link, e: Event)
    requires Inv(l) && CanEnd(l) && e.ResetArrives? && Enabled(l, e)
    ensures Costs(l, e)
  {
    ResetExact(l);
    if l.s.state.WaitBufReady? {
      ResumeCosts(l, e);
    } else {
      RestartedHolds(l);
      assert Step(l, e) == Restarted(l);
    }
  }

  lemma EventCosts(l: Link, e: Event)
    requires Inv(l) && CanEnd(l) && Enabled(l, e) && !e.PostMsg? && !NoRoom(e)
    ensures Costs(l, e)
  {
    match e
    case RoomGiven(_) => RoomCosts(l, e);
    case Completed => CompletedCosts(l, e);
    case Delivered =>
    case Polled(_) =>
      WindowTake(l.sent, Base(l), l.consumed, Landed(l), l.slots, l.flight, l.recvidx);
    case ResetArrives => ResetCosts(l, e);
  }

  lemma Advance(l: Link, e: Event) returns (n: Link)
    requires Inv(l) && CanEnd(l) && Enabled(l, e) && !e.PostMsg? && Call(l, e).Next?
    ensures n == Step(l, e) && Inv(n) && CanEnd(n) && Work(n) < Work(l)
  {
    StepInv(l, e);
    StepSized(l, e);
    EventCosts(l, e);
    n := Step(l, e);
  }

  lemma WorkNonNegative(l: Link)
    requires Inv(l) && CanEnd(l)
    ensures Work(l) >= 0
  {}

  /** As long as the sending of every message ends, only so many events can follow without a new message. A
      connection that is left alone therefore comes to rest. */
  lemma {:induction false} BoundedEvents(l: Link, events: seq<Event>, t: Link)
    requires Inv(l) && CanEnd(l) && Reaches(l, events, t)
    requires forall i :: 0 <= i < |events| ==> !events[i].PostMsg?
    ensures |events| + Work(t) <= Work(l) && Work(t) >= 0
    decreases |events|
  {
    if events == [] {
      WorkNonNegative(l);
    } else {
      var n := Advance(l, events[0]);
      BoundedEvents(n, events[1..], t);
    }
  }

  /** Where anything can happen, something can that does not end the program. */
  lemma SomeEvent(l: Link) returns (e: Event)
    requires Inv(l) && !Quiet(l)
    ensures Enabled(l, e) && !e.PostMsg? && Call(l, e).Next?
  {
    e :| Enabled(l, e) && !e.PostMsg?;
    if e.RoomGiven? {
      e := RoomGiven(0);
    }
    StepInv(l, e);
  }

  /** Left alone, `t` becomes `u`. */
  ghost predicate Follows(t: Link, events: seq<Event>, u: Link) {
    Reaches(t, events, u) && forall i :: 0 <= i < |events| ==> !events[i].PostMsg?
  }

  ghost predicate ComesToRest(t: Link, events: seq<Event>, u: Link) { Follows(t, events, u) && Quiet(u) }

  /** No more than `n` events can follow without a new message. */
  ghost predicate AtMost(t: Link, n: nat) { forall events, u :: Follows(t, events, u) ==> |events| <= n }

  lemma FollowsFirst(l: Link, e: Event, n: Link, events: seq<Event>, t: Link)
    requires Enabled(l, e) && !e.PostMsg? && Call(l, e).Next? && n == Step(l, e) && Follows(n, events, t)
    ensures Follows(l, [e] + events, t)
  {
    ReachesFirst(l, e, events, t);
  }

  /** Letting what is under way happen then leads to rest. */
  lemma {:induction false} LeftAlone(l: Link) returns (events: seq<Event>, t: Link)
    requires Inv(l) && CanEnd(l)
    ensures ComesToRest(l, events, t)
    decreases Work(l)
  {
    if Quiet(l) {
      return [], l;
    }
    var e, n := SomeAdvance(l);
    events, t := LeftAlone(n);
    FollowsFirst(l, e, n, events, t);
    events := [e] + events;
  }

  lemma SomeAdvance(l: Link) returns (e: Event, n: Link)
    requires Inv(l) && CanEnd(l) && !Quiet(l)
    ensures Enabled(l, e) && !e.PostMsg? && Call(l, e).Next? && n == Step(l, e) && Inv(n) && CanEnd(n)
    ensures 0 <= Work(n) < Work(l)
  {
    e := SomeEvent(l);
    n := Advance(l, e);
    WorkNonNegative(n);
  }

  /** At rest everything posted has been sent, so every message was one whose sending ends. */
  lemma RestEnds(t: Link)
    requires Inv(t) && Sized(t) && Quiet(t)
    ensures AllEnd(t.posted)
  {
    RestState(t);
  }

  lemma RestedEnds(t: Link, more: seq<Event>, u: Link)
    requires Inv(t) && Sized(t) && ComesToRest(t, more, u)
    ensures AllEnd(t.posted)
  {
    RunSized(t, more, u);
    RestEnds(u);
    forall i | 0 <= i < |t.posted| ensures Ends(t.posted[i]) { assert t.posted[i] == u.posted[i]; }
  }

  lemma ShortEnds(m: Msg)
    requires Proper(m) && Short(m)
    ensures Ends(m)
  {}

  /** A connection can come to rest exactly if no eager message has been posted whose length, cut to the size
      field, is less than what its first packet carries. */
  lemma RestsExactly(l: Link, events: seq<Event>, t: Link)
    requires Init(l) && Reaches(l, events, t)
    ensures AllEnd(t.posted) <==> exists more, u :: ComesToRest(t, more, u)
    ensures AllShort(t.posted) ==> AllEnd(t.posted)
  {
    InitInv(l);
    RunSized(l, events, t);
    forall i | 0 <= i < |t.posted| && Short(t.posted[i]) ensures Ends(t.posted[i]) { ShortEnds(t.posted[i]); }
    if AllEnd(t.posted) {
      var more, u := LeftAlone(t);
    } else if more, u :| ComesToRest(t, more, u) {
      RestedEnds(t, more, u);
      assert false;
    }
  }

  /** Otherwise there is no end: some run goes on for any number of events. */
  lemma {:induction false} GoesOn(t: Link, n: nat) returns (events: seq<Event>, u: Link)
    requires Inv(t) && Sized(t) && !AllEnd(t.posted)
    ensures Follows(t, events, u) && |events| == n
    decreases n
  {
    if n == 0 {
      return [], t;
    }
    if Quiet(t) {
      RestEnds(t);
      assert false;
    }
    var e := SomeEvent(t);
    var next := StaySized(t, e);
    events, u := GoesOn(next, n - 1);
    FollowsFirst(t, e, next, events, u);
    events := [e] + events;
  }

  /** So the number of events that can follow a run without a new message is bounded exactly if all sending
      ends. */
  lemma BoundedExactly(l: Link, events: seq<Event>, t: Link)
    requires Init(l) && Reaches(l, events, t)
    ensures AllEnd(t.posted) <==> exists n: nat :: AtMost(t, n)
  {
    InitInv(l);
    RunSized(l, events, t);
    if AllEnd(t.posted) {
      WorkNonNegative(t);
      forall more, u | Follows(t, more, u) ensures |more| <= Work(t) { BoundedEvents(t, more, u); }
      assert AtMost(t, Work(t));
    } else if n: nat :| AtMost(t, n) {
      var more, u := GoesOn(t, n + 1);
      assert false;
    }
  }
}
