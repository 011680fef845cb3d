/** Runs at the limits of the protocol: a message whose first packet is refused, and a message whose length
    does not fit the size field. */
module ConnectionLimits {
  import opened Powers
  import opened Messages
  import opened Connection
  import opened ConnectionWork

  lemma TwoSteps(l: Link, a: Event, m: Link, b: Event, n: Link)
    requires Enabled(l, a) && Call(l, a).Next? && Step(l, a) == m
    requires Enabled(m, b) && Call(m, b).Next? && Step(m, b) == n
    ensures Reaches(l, [a, b], n)
  {
    assert Reaches(n, [], n);
    ReachesFirst(m, b, [], n);
    ReachesFirst(l, a, [b], n);
    assert [b] + [] == [b] && [a] + [b] == [a, b];
  }

  lemma {:induction false} ReachesJoin(l: Link, first: seq<Event>, m: Link, second: seq<Event>, n: Link)
    requires Reaches(l, first, m) && Reaches(m, second, n)
    ensures Reaches(l, first + second, n)
    decreases |first|
  {
    if first == [] {
      assert first + second == second;
    } else {
      var e, rest := first[0], first[1..];
      ReachesJoin(Step(l, e), rest, m, second, n);
      ReachesFirst(l, e, rest + second, n);
      assert [e] + (rest + second) == first + second;
    }
  }

  // ---------------------------------------------------------------- the first packet is refused

  /** A message of two pieces. */
  predicate TwoPieces(data: Bytes) { PAYLOAD < |data| <= 2 * PAYLOAD }

  /** The connection after the first piece has been put. */
  ghost predicate OnePut(l: Link, m: Msg) {
    Inv(l) && TwoPieces(m.data) && m.kind.InPlace? && l.s.state.DoEager? && l.s.usize == PAYLOAD && l.s.recvidx == 1 &&
    l.s.micur == 0 && l.s.mient == 1 && l.posted == [m] && l.done == 0 && l.completions == 1 && l.resets == 0 &&
    l.sent == [FirstPacket(m)] && l.refused == 0 && l.inbox == Inbox(RNone, [])
  }

  lemma StartMessage(l: Link, data: Bytes, record: Bytes) returns (n: Link, m: Msg)
    requires Init(l) && |data| > PAYLOAD && |record| == RECORD
    ensures m == Msg(0, data, InPlace, record) && Reaches(l, [PostMsg(data, false, record), RoomGiven(0)], n)
    ensures Inv(n) && n.s.state.DoEager? && n.s.usize == PAYLOAD && n.s.recvidx == 1 && n.s.micur == 0 && n.s.mient == 1
    ensures n.posted == [m] && n.done == 0 && n.completions == 1 && n.resets == 0 && n.consumed == 0
    ensures n.sent == [FirstPacket(m)] && n.flight == [Put(0, FirstPacket(m))]
    ensures n.refused == 0 && n.inbox == Inbox(RNone, [])
  {
    var post, room := PostMsg(data, false, record), RoomGiven(0);
    m := PostedBy(l, post);
    InitInv(l);
    StepInv(l, post);
    var k := Step(l, post);
    assert k.posted == [m] && k.s.ring[0] == Busy(m) && k.s.state.ReqRoom? && k.room;
    InvFit(k);
    StepInv(k, room);
    n := Step(k, room);
    TwoSteps(l, post, k, room, n);
  }

  lemma RefuseFirst(l: Link, m: Msg) returns (n: Link)
    requires OnePut(l, m) && l.flight == [Put(0, FirstPacket(m))] && l.consumed == 0
    ensures Reaches(l, [Delivered, Polled(false)], n)
    ensures n == l.(flight := [], slots := n.slots, recvidx := 1, consumed := 1, refused := 1) && Inv(n)
  {
    InvFit(l);
    assert l.recvidx == 0;
    StepInv(l, Delivered);
    var k := Step(l, Delivered);
    StepInv(k, Polled(false));
    n := Step(k, Polled(false));
    TwoSteps(l, Delivered, k, Polled(false), n);
  }

  /** What the engine does with the rest of the message. */
  lemma LastPiece(s: Sender, m: Msg)
    requires |s.ring| == RING && s.micur < RING && s.ring[s.micur] == Busy(m) && TwoPieces(m.data)
    requires s.usize == PAYLOAD && s.recvidx == 1
    ensures SendMore(s) == Next(s.(recvidx := 2, usize := |m.data|, state := DoneEager),
      Some(Put(1, Eager(|m.data|, m.data[PAYLOAD..]))))
  {
    assert SizeField(m) == |m.data| && PieceLength(|m.data|, PAYLOAD) == |m.data| - PAYLOAD;
    assert Piece(m.data, PAYLOAD, |m.data| - PAYLOAD) == m.data[PAYLOAD..];
  }

  lemma SecondPut(l: Link, m: Msg) returns (n: Link)
    requires Inv(l) && l.flight == [] && l.consumed == 1 && l.refused == 1 && l.recvidx == 1 && l.resets == 0
    requires TwoPieces(m.data) && m.kind.InPlace? && l.s.state.DoEager? && l.s.usize == PAYLOAD && l.s.recvidx == 1
    requires l.s.micur == 0 && l.s.mient == 1 && l.posted == [m] && l.done == 0 && l.completions == 1
    requires l.sent == [FirstPacket(m)] && l.inbox == Inbox(RNone, [])
    ensures Reaches(l, [Completed, Delivered], n) && Inv(n)
    ensures n == l.(s := n.s, slots := n.slots, sent := n.sent)
    ensures n.s.state.DoneEager? && n.s.micur == 0 && n.s.mient == 1 && n.s.recvidx == 2
    ensures |n.sent| == 2 && n.sent[1] == Eager(|m.data|, m.data[PAYLOAD..]) && n.slots[1] == Some(n.sent[1])
  {
    InvFit(l);
    LastPiece(l.s, m);
    StepInv(l, Completed);
    var k := Step(l, Completed);
    var p := Eager(|m.data|, m.data[PAYLOAD..]);
    assert k == l.(s := k.s, completions := 1, flight := [Put(1, p)], sent := [FirstPacket(m), p]);
    n := Landing(k, p);
    TwoSteps(l, Completed, k, Delivered, n);
  }

  lemma Landing(k: Link, p: Packet) returns (n: Link)
    requires Inv(k) && k.flight == [Put(1, p)]
    ensures Enabled(k, Delivered) && Call(k, Delivered).Next? && n == Step(k, Delivered) && Inv(n)
    ensures n == k.(flight := [], slots := k.slots[1 := Some(p)])
  {
    InvFit(k);
    StepInv(k, Delivered);
    n := Step(k, Delivered);
  }

  lemma TakenForNew(l: Link, m: Msg) returns (n: Link)
    requires Inv(l) && l.consumed == 1 && l.refused == 1 && l.recvidx == 1 && l.resets == 0 && l.flight == []
    requires TwoPieces(m.data) && l.s.state.DoneEager? && l.s.micur == 0 && l.s.mient == 1 && l.completions == 1
    requires l.posted == [m] && l.done == 0 && |l.sent| == 2 && l.sent[1] == Eager(|m.data|, m.data[PAYLOAD..])
    requires l.slots[1] == Some(l.sent[1]) && l.inbox == Inbox(RNone, [])
    ensures Reaches(l, [Polled(true), Completed], n) && Inv(n) && n.s.state.SNone?
    ensures n.consumed == |n.sent| && n.refused == 1 && n.flight == [] && n.resets == 0 && n.posted == [m]
    ensures n.inbox == Inbox(RBody(|m.data|, m.data[PAYLOAD..]), []) && n.s.recvidx == l.s.recvidx && |n.sent| == 2
  {
    InvFit(l);
    StepInv(l, Polled(true));
    var k := Step(l, Polled(true));
    InvFit(k);
    StepInv(k, Completed);
    n := Step(k, Completed);
    TwoSteps(l, Polled(true), k, Completed, n);
  }

  lemma AtRest(l: Link)
    requires Inv(l) && l.s.state.SNone? && l.flight == [] && l.resets == 0 && l.consumed == |l.sent|
    ensures Quiet(l)
  {
    assert l.slots[l.recvidx] == None;
  }

  /** What a losing run leaves: the second piece, taken for the beginning of a message. */
  ghost predicate Lost(t: Link, data: Bytes) {
    TwoPieces(data) && Inv(t) && Quiet(t) && t.s.state.SNone? && t.flight == [] && t.resets == 0 &&
    t.consumed == |t.sent| == 2 && t.s.recvidx == 2 && t.refused == 1 && |t.posted| == 1 && t.posted[0].data == data &&
    t.inbox == Inbox(RBody(|data|, data[PAYLOAD..]), [])
  }

  /** A losing run, for every message of two pieces: its first packet is refused, so that the second is
      taken for the beginning of a message that never becomes complete. The connection is at rest, and the
      message has not arrived. */
  lemma LosingRun(l: Link, data: Bytes, record: Bytes) returns (events: seq<Event>, t: Link)
    requires Init(l) && TwoPieces(data) && |record| == RECORD
    ensures Reaches(l, events, t) && Lost(t, data) && !AllArrive(t.posted, |t.posted|, t.inbox.got)
    ensures Posts(events) == [PostMsg(data, false, record)]
  {
    var a, b, c;
    a, b, c, t := LosingSteps(l, data, record);
    events := [PostMsg(data, false, record), RoomGiven(0)];
    assert events[1..] == [RoomGiven(0)] && Posts(events[1..]) == Posts([]);
    events := Then(l, events, a, Delivered, Polled(false), b);
    events := Then(l, events, b, Completed, Delivered, c);
    events := Then(l, events, c, Polled(true), Completed, t);
  }

  lemma LosingSteps(l: Link, data: Bytes, record: Bytes) returns (a: Link, b: Link, c: Link, t: Link)
    requires Init(l) && TwoPieces(data) && |record| == RECORD
    ensures Reaches(l, [PostMsg(data, false, record), RoomGiven(0)], a) && Reaches(a, [Delivered, Polled(false)], b)
    ensures Reaches(b, [Completed, Delivered], c) && Reaches(c, [Polled(true), Completed], t)
    ensures Lost(t, data) && !AllArrive(t.posted, |t.posted|, t.inbox.got)
  {
    var m;
    a, m := StartMessage(l, data, record);
    b := RefuseFirst(a, m);
    c := SecondPut(b, m);
    t := TakenForNew(c, m);
    AtRest(t);
  }

  /** Two more events, neither of which posts a message. */
  lemma Then(l: Link, first: seq<Event>, m: Link, a: Event, b: Event, t: Link) returns (events: seq<Event>)
    requires Reaches(l, first, m) && Reaches(m, [a, b], t) && !a.PostMsg? && !b.PostMsg?
    ensures Reaches(l, events, t) && Posts(events) == Posts(first)
  {
    ReachesJoin(l, first, m, [a, b], t);
    PostsJoin(first, [a, b]);
    TwoQuiet(a, b);
    events := first + [a, b];
  }

  lemma TwoQuiet(a: Event, b: Event)
    requires !a.PostMsg? && !b.PostMsg?
    ensures Posts([a, b]) == []
  {
    assert [a, b][1..] == [b] && [b][1..] == [];
    assert Posts([b]) == Posts([]);
  }

  // ---------------------------------------------------------------- the loss takes a further message with it

  /** A request posted to an idle connection is put at once. */
  lemma PutAtOnce(l: Link, data: Bytes, record: Bytes) returns (n: Link, p: Packet)
    requires Inv(l) && l.s.state.SNone? && l.flight == [] && l.sent != [] && l.s.recvidx < WINDOW
    requires 236 < |data| < SIZES && |record| == RECORD
    ensures p == Request(|data|, |l.posted|, record)
    ensures Enabled(l, PostMsg(data, true, record)) && Call(l, PostMsg(data, true, record)).Next?
    ensures n == Step(l, PostMsg(data, true, record)) && Inv(n)
    ensures n.flight == [Put(l.s.recvidx, p)] && n.sent == l.sent + [p] && n.inbox == l.inbox
    ensures n.slots == l.slots && n.recvidx == l.recvidx && n.consumed == l.consumed && n.resets == l.resets
  {
    var post := PostMsg(data, true, record);
    var m := PostedBy(l, post);
    assert SizeField(m) == |data|;
    p := Request(|data|, |l.posted|, record);
    InvFit(l);
    StepInv(l, post);
    PostCall(l, post);
    n := Step(l, post);
  }

  /** Inside the body of a message a request is taken for a piece of it. */
  lemma Swallow(l: Link, p: Packet, size: nat, have: Bytes) returns (k: Link, n: Link)
    requires Inv(l) && p.Request? && l.flight == [Put(l.recvidx, p)] && l.resets == 0 && |l.slots| == WINDOW
    requires l.recvidx < WINDOW && l.inbox == Inbox(RBody(size, have), []) && size != |have + p.record|
    ensures Enabled(l, Delivered) && Call(l, Delivered).Next? && k == Step(l, Delivered)
    ensures Enabled(k, Polled(true)) && Call(k, Polled(true)).Next? && n == Step(k, Polled(true))
    ensures n.inbox == Inbox(RBody(size, have + p.record), [])
  {
    InvFit(l);
    StepInv(l, Delivered);
    k := Step(l, Delivered);
    n := Step(k, Polled(true));
  }

  /** After such a loss a message posted in rendezvous mode is lost as well: its request is appended to the piece
      that is there, 80 bytes of it, and nothing is offered. */
  lemma LossSpreads(l: Link, data: Bytes, record: Bytes, more: Bytes, place: Bytes)
    returns (events: seq<Event>, t: Link)
    requires Init(l) && TwoPieces(data) && |record| == 80 == |place| && 236 < |more| < SIZES
    ensures Reaches(l, events, t) && Posts(events) == [PostMsg(data, false, record), PostMsg(more, true, place)]
    ensures t.inbox == Inbox(RBody(|data|, data[236..] + place), [])
  {
    var first, a := LosingRun(l, data, record);
    var second;
    second, t := Spread(a, data, more, place);
    ReachesJoin(l, first, a, second, t);
    PostsJoin(first, second);
    events := first + second;
  }

  lemma Spread(a: Link, data: Bytes, more: Bytes, place: Bytes) returns (events: seq<Event>, t: Link)
    requires Lost(a, data) && |place| == 80 && 236 < |more| < SIZES
    ensures Reaches(a, events, t) && Posts(events) == [PostMsg(more, true, place)]
    ensures t.inbox == Inbox(RBody(|data|, data[236..] + place), [])
  {
    var b, p := PutAtOnce(a, more, place);
    assert a.recvidx == a.s.recvidx;
    var c;
    c, t := Swallow(b, p, |data|, data[PAYLOAD..]);
    TwoSteps(b, Delivered, c, Polled(true), t);
    ReachesFirst(a, PostMsg(more, true, place), [Delivered, Polled(true)], t);
    events := [PostMsg(more, true, place)] + [Delivered, Polled(true)];
    assert events[1..] == [Delivered, Polled(true)];
    TwoQuiet(Delivered, Polled(true));
  }

  lemma {:induction false} PostsJoin(first: seq<Event>, second: seq<Event>)
    ensures Posts(first + second) == Posts(first) + Posts(second)
    decreases |first|
  {
    if first != [] {
      PostsJoin(first[1..], second);
      assert (first + second)[1..] == first[1..] + second;
    } else {
      assert first + second == second;
    }
  }

  // ---------------------------------------------------------------- a length that does not fit

  /** An eager message whose length, cut to the size field, is less than one piece is sent for ever: after
      its first packet no run comes to rest. The shortest such length is that of an empty size field. */
  lemma LongNeverRests(l: Link, data: Bytes, record: Bytes) returns (n: Link)
    requires Init(l) && |data| >= SIZES && |data| % SIZES < PAYLOAD && |record| == RECORD
    ensures Reaches(l, [PostMsg(data, false, record), RoomGiven(0)], n)
    ensures forall events, t :: Reaches(n, events, t) ==> !Quiet(t)
  {
    var m;
    n, m := StartMessage(l, data, record);
    var first := [PostMsg(data, false, record), RoomGiven(0)];
    InitInv(l);
    RunSized(l, first, n);
    assert !Ends(n.posted[0]);
    forall events, t | Reaches(n, events, t) ensures !Quiet(t) {
      RunSized(n, events, t);
      assert t.posted[0] == n.posted[0];
      if Quiet(t) {
        RestEnds(t);
        assert false;
      }
    }
  }
}
