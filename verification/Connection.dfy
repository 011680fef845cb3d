/** One sender and one receiver joined by an in-order channel of puts, with local completions, a room
    request and resets as separate events. */
module Connection {
  import opened Powers
  import opened Messages

  /** `posted` and `sent` are the history of posted messages and of packets put; `consumed` counts the
      packets the receiver has taken and `refused` those it dropped for lack of a request; `done` counts
      the messages whose entries have been freed. */
  datatype Link = Link(
    s: Sender, room: bool, completions: nat, flight: seq<Put>, resets: nat,
    slots: seq<Option<Packet>>, recvidx: nat, inbox: Inbox,
    posted: seq<Msg>, done: nat, sent: seq<Packet>, consumed: nat, refused: nat)

  /** A message is posted with the mode of the moment and the record a rendezvous request would carry;
      the answer to a request for a receive buffer is negative when there is none; a poll finds a free
      request for a message that begins, or none. */
  datatype Event =
    | PostMsg(data: Bytes, rendezvous: bool, record: Bytes)
    | RoomGiven(index: int)
    | Completed
    | Delivered
    | Polled(free: bool)
    | ResetArrives

  ghost predicate Init(l: Link) {
    l == Link(FRESH_SENDER, false, 0, [], 0, seq(WINDOW, i => None), 0, Inbox(RNone, []), [], 0, [], 0, 0)
  }

  predicate Enabled(l: Link, e: Event) {
    Fit(l.s) && |l.slots| == WINDOW &&
    match e
    case PostMsg(_, _, record) => |record| == RECORD && CanPost(l.s) && (l.s.state.SNone? ==> l.s.micur == l.s.mient)
    case RoomGiven(_) => l.room
    case Completed => l.completions > 0
    case Delivered => l.flight != [] && l.flight[0].slot < WINDOW
    case Polled(_) => l.recvidx < WINDOW && l.slots[l.recvidx].Some?
    case ResetArrives => l.resets > 0
  }

  function PostedBy(l: Link, e: Event): Msg
    requires e.PostMsg?
  {
    Msg(|l.posted|, e.data, KindOf(|e.data|, e.rendezvous), e.record)
  }

  /** What the network takes over from an engine call. A put brings one local completion. */
  function Absorb(l: Link, o: Outcome): Link
    requires o.Next?
  {
    var n := l.(s := o.s);
    match o.put
    case None => n
    case Some(put) => n.(flight := l.flight + [put], completions := l.completions + 1, sent := l.sent + [put.pkt])
  }

  /** The engine call an event makes at the sender, if any. */
  function Call(l: Link, e: Event): Outcome
    requires Enabled(l, e)
  {
    match e
    case PostMsg(_, _, _) => Post(l.s, PostedBy(l, e))
    case RoomGiven(index) => Engine(l.s, index)
    case Completed => Engine(l.s, 0)
    case ResetArrives => OnReset(l.s)
    case _ => Next(l.s, None)
  }

  /** The part of an event outside the sender's engine. */
  function Around(l: Link, e: Event): Link
    requires Enabled(l, e)
  {
    match e
    case PostMsg(_, _, _) =>
      l.(posted := l.posted + [PostedBy(l, e)],
         room := l.room || (l.s.state.SNone? && !l.s.sndok && !l.s.examed))
    case RoomGiven(_) => l.(room := false)
    case Completed =>
      l.(completions := l.completions - 1,
         done := if l.s.state.DoneEager? || l.s.state.ReqRendezvous? then l.done + 1 else l.done)
    case Delivered =>
      l.(flight := l.flight[1..], slots := l.slots[l.flight[0].slot := Some(l.flight[0].pkt)])
    case Polled(free) =>
      var last := l.recvidx + 1 == WINDOW;
      l.(slots := l.slots[l.recvidx := None], inbox := Receive(l.inbox, l.slots[l.recvidx].value, free),
         refused := if l.inbox.state.RNone? && !free then l.refused + 1 else l.refused,
         recvidx := if last then 0 else l.recvidx + 1, resets := if last then l.resets + 1 else l.resets,
         consumed := l.consumed + 1)
    case ResetArrives => l.(resets := l.resets - 1)
  }

  function Step(l: Link, e: Event): Link
    requires Enabled(l, e) && Call(l, e).Next?
  {
    Absorb(Around(l, e), Call(l, e))
  }

  // ---------------------------------------------------------------- invariant: ring

  /** How many messages are posted and not yet freed. */
  function Pending(l: Link): int { |l.posted| - l.done }

  function At(micur: nat, k: nat): nat { (micur + k) % RING }

  /** The ring holds exactly the pending messages, from `micur` up to `mient`, in posting order. */
  ghost predicate RingHolds(ring: seq<Entry>, micur: nat, mient: nat, pending: seq<Msg>) {
    |ring| == RING && micur < RING && |pending| <= RING && mient == At(micur, |pending|) &&
    (forall k :: 0 <= k < |pending| ==> ring[At(micur, k)] == Busy(pending[k])) &&
    (forall k :: |pending| <= k < RING ==> ring[At(micur, k)] == Free)
  }

  /** The state the engine is in, whether or not it is waiting for a reset. */
  function Active(s: Sender): SendState { if s.state.WaitBufReady? then s.ostate else s.state }

  ghost predicate RingInv(l: Link) {
    l.done <= |l.posted| && RingHolds(l.s.ring, l.s.micur, l.s.mient, l.posted[l.done..]) &&
    (l.s.state.SNone? <==> l.done == |l.posted|) &&
    (l.s.state.SNone? ==> l.s.micur == l.s.mient == 0) &&
    (forall i :: 0 <= i < |l.posted| ==> l.posted[i].id == i && Proper(l.posted[i]))
  }

  predicate Proper(m: Msg) { m.kind == KindOf(|m.data|, m.kind.Rendezvous?) }

  // ---------------------------------------------------------------- invariant: events under way

  ghost predicate EventsInv(l: Link) {
    (l.room <==> l.s.state.ReqRoom?) &&
    (match l.s.state
     case SNone => l.completions == 0
     case ReqRoom => l.completions == 0
     case HasRoom => false
     case WaitBufReady => l.completions == 0 && (l.s.ostate.HasRoom? || l.s.ostate.DoEager?) && l.s.recvidx == WINDOW
     case _ => l.completions == 1) &&
    (l.s.state.ReqRoom? ==> l.s.recvidx == 0) &&
    (l.s.examed <==> l.s.sndok || l.s.state.ReqRoom?) && (l.s.state.ReqRoom? ==> !l.s.sndok) &&
    (!l.s.sndok ==> l.sent == [] && l.s.recvidx == 0 && (l.s.state.SNone? || l.s.state.ReqRoom?))
  }

  // ---------------------------------------------------------------- invariant: window

  /** Packets sent before the sender last began at slot zero. */
  function Base(l: Link): int { |l.sent| - l.s.recvidx }

  /** Packets that have reached a slot. */
  function Landed(l: Link): int { |l.sent| - |l.flight| }

  /** Slots hold what has landed and is not consumed, each packet in the slot of its number. */
  ghost predicate WindowHolds(sent: seq<Packet>, base: int, consumed: int, landed: int, slots: seq<Option<Packet>>,
                              flight: seq<Put>) {
    0 <= base <= consumed <= landed <= |sent| <= base + WINDOW && |slots| == WINDOW && |flight| == |sent| - landed &&
    (forall i :: 0 <= i < WINDOW ==>
      slots[i] == if consumed <= base + i < landed then Some(sent[base + i]) else None) &&
    (forall j :: 0 <= j < |flight| ==> flight[j] == Put(landed + j - base, sent[landed + j]))
  }

  ghost predicate WindowInv(l: Link) {
    l.s.recvidx <= WINDOW && WindowHolds(l.sent, Base(l), l.consumed, Landed(l), l.slots, l.flight) &&
    (l.resets == 0 ==> l.recvidx == l.consumed - Base(l) < WINDOW) &&
    (l.resets > 0 ==> l.resets == 1 && l.recvidx == 0 && l.consumed == Base(l) + WINDOW)
  }

  // ---------------------------------------------------------------- invariant: contents

  /** The receiver has, or will have, message `m` as `a`. */
  predicate Arrives(m: Msg, a: Arrival) {
    match a
    case Whole(data) => !m.kind.Rendezvous? && data == m.data
    case Offered(size, source) => m.kind.Rendezvous? && size == |m.data| && source == m.id
  }

  ghost predicate AllArrive(posted: seq<Msg>, n: nat, got: seq<Arrival>) {
    n == |got| <= |posted| && forall i :: 0 <= i < n ==> Arrives(posted[i], got[i])
  }

  /** What all packets put so far amount to at the receiver, by the state of the sender. */
  ghost predicate ContentAt(st: SendState, usize: nat, posted: seq<Msg>, done: nat, b: Inbox) {
    match st
    case DoEager =>
      done < |posted| && AllArrive(posted, done, b.got) && PAYLOAD <= usize < |posted[done].data| &&
      !posted[done].kind.Rendezvous? && b.state == RBody(|posted[done].data|, posted[done].data[..usize])
    case DoneEager => b.state.RNone? && AllArrive(posted, done + 1, b.got)
    case ReqRendezvous => b.state.RNone? && AllArrive(posted, done + 1, b.got)
    case _ => b.state.RNone? && AllArrive(posted, done, b.got)
  }

  /** All posted messages fit the size field. */
  ghost predicate AllShort(posted: seq<Msg>) { forall i :: 0 <= i < |posted| ==> Short(posted[i]) }

  /** The inbox is what the consumed packets amount to, and as long as all messages fit the size field,
      all packets together amount to the messages. */
  ghost predicate ContentInv(l: Link) {
    l.consumed <= |l.sent| && (l.refused == 0 ==> l.inbox == RecvAll(l.sent[..l.consumed])) &&
    (AllShort(l.posted) ==> ContentAt(Active(l.s), l.s.usize, l.posted, l.done, RecvAll(l.sent)))
  }

  ghost predicate Inv(l: Link) { RingInv(l) && EventsInv(l) && WindowInv(l) && ContentInv(l) }

  lemma InitInv(l: Link)
    requires Init(l)
    ensures Inv(l)
  {}

  // ---------------------------------------------------------------- the ring

  lemma RingPush(ring: seq<Entry>, micur: nat, mient: nat, pending: seq<Msg>, m: Msg)
    requires RingHolds(ring, micur, mient, pending) && ring[mient].Free?
    ensures |pending| < RING && RingHolds(ring[mient := Busy(m)], micur, At(mient, 1), pending + [m])
  {
    AtNext(micur, 0);
    if |pending| > 0 {
      RingPop(ring, micur, mient, pending);
    }
    var r := ring[mient := Busy(m)];
    forall k | 0 <= k < |pending| + 1 ensures r[At(micur, k)] == Busy((pending + [m])[k]) {}
    forall k | |pending| + 1 <= k < RING ensures r[At(micur, k)] == Free {}
  }

  lemma AtNext(micur: nat, k: nat)
    requires micur < RING
    ensures At(At(micur, 1), k) == At(micur, k + 1) && At(micur, RING) == micur == At(micur, 0)
  {}

  lemma RingPop(ring: seq<Entry>, micur: nat, mient: nat, pending: seq<Msg>)
    requires RingHolds(ring, micur, mient, pending) && |pending| > 0
    ensures ring[micur] == Busy(pending[0])
    ensures RingHolds(ring[micur := Free], At(micur, 1), mient, pending[1..])
    ensures At(micur, 1) == mient <==> |pending| == 1
  {
    AtNext(micur, 0);
    var r, next, rest := ring[micur := Free], At(micur, 1), pending[1..];
    AtNext(micur, |rest|);
    forall k | 0 <= k < |rest| ensures r[At(next, k)] == Busy(rest[k]) {
      AtNext(micur, k);
      assert ring[At(micur, k + 1)] == Busy(pending[k + 1]);
    }
    forall k | |rest| <= k < RING ensures r[At(next, k)] == Free {
      AtNext(micur, k);
      if k + 1 < RING {
        assert ring[At(micur, k + 1)] == Free;
      }
    }
  }

  /** An empty ring can start again at entry zero. */
  lemma RingEmpty(ring: seq<Entry>, micur: nat, mient: nat)
    requires RingHolds(ring, micur, mient, [])
    ensures RingHolds(ring, 0, 0, [])
  {
    forall k | 0 <= k < RING ensures ring[At(0, k)] == Free {
      var j := (k + RING - micur) % RING;
      assert At(micur, j) == k;
    }
  }

  lemma InvFit(l: Link)
    requires RingInv(l) && (l.s.state.WaitBufReady? ==> !l.s.state.SNone?)
    ensures |l.s.ring| == RING && l.s.micur < RING && l.s.mient < RING && Fit(l.s)
    ensures l.done < |l.posted| ==> l.s.ring[l.s.micur] == Busy(l.posted[l.done])
  {
    if l.done < |l.posted| {
      RingPop(l.s.ring, l.s.micur, l.s.mient, l.posted[l.done..]);
    }
  }

  /** The messages in the ring are as they were posted. */
  lemma RingPosted(l: Link, j: nat)
    requires RingInv(l) && j < RING && l.s.ring[j].Busy?
    ensures var m := l.s.ring[j].msg; m.id < |l.posted| && l.posted[m.id] == m && Proper(m)
  {
    var pending := l.posted[l.done..];
    var k := (j + RING - l.s.micur) % RING;
    assert At(l.s.micur, k) == j;
    if k < |pending| {
      assert l.s.ring[At(l.s.micur, k)] == Busy(pending[k]);
      assert pending[k] == l.posted[l.done + k];
    }
  }

  // ---------------------------------------------------------------- the window

  lemma WindowPut(sent: seq<Packet>, base: int, consumed: int, landed: int, slots: seq<Option<Packet>>,
                  flight: seq<Put>, pkt: Packet)
    requires WindowHolds(sent, base, consumed, landed, slots, flight) && |sent| < base + WINDOW
    ensures WindowHolds(sent + [pkt], base, consumed, landed, slots, flight + [Put(|sent| - base, pkt)])
  {}

  lemma WindowLand(sent: seq<Packet>, base: int, consumed: int, landed: int, slots: seq<Option<Packet>>,
                   flight: seq<Put>)
    requires WindowHolds(sent, base, consumed, landed, slots, flight) && flight != []
    ensures flight[0].slot < WINDOW && slots[flight[0].slot] == None
    ensures WindowHolds(sent, base, consumed, landed + 1, slots[flight[0].slot := Some(flight[0].pkt)], flight[1..])
  {}

  lemma WindowTake(sent: seq<Packet>, base: int, consumed: int, landed: int, slots: seq<Option<Packet>>,
                   flight: seq<Put>, i: nat)
    requires WindowHolds(sent, base, consumed, landed, slots, flight) && i == consumed - base < WINDOW && slots[i].Some?
    ensures consumed < landed && slots[i].value == sent[consumed]
    ensures WindowHolds(sent, base, consumed + 1, landed, slots[i := None], flight)
  {}

  /** All slots are free once the receiver has consumed a whole window: the sender may begin again. */
  lemma WindowReset(sent: seq<Packet>, base: int, consumed: int, landed: int, slots: seq<Option<Packet>>,
                    flight: seq<Put>)
    requires WindowHolds(sent, base, consumed, landed, slots, flight) && consumed == base + WINDOW
    ensures |sent| == base + WINDOW && WindowHolds(sent, base + WINDOW, consumed, landed, slots, flight)
  {}

  // ---------------------------------------------------------------- one put

  /** A connection in the middle of an engine call, about to send the first packet of a message. */
  ghost predicate Ready(l: Link) {
    RingInv(l) && WindowInv(l) && ContentInv(l) && l.s.state.HasRoom? && l.completions == 0 && !l.room && l.s.sndok &&
    l.s.examed
  }

  /** As before, about to send a further piece. */
  ghost predicate ReadyMore(l: Link) {
    RingInv(l) && WindowInv(l) && ContentInv(l) && l.s.state.DoEager? && l.completions == 0 && !l.room && l.s.sndok &&
    l.s.examed
  }

  lemma RecvOne(ps: seq<Packet>, p: Packet)
    ensures RecvAll(ps + [p]) == RecvEngine(RecvAll(ps), p)
  {
    assert (ps + [p])[..|ps|] == ps;
  }

  lemma PutWindow(l: Link, o: Outcome)
    requires WindowInv(l) && o.Next? && o.put.Some? && l.s.recvidx < WINDOW && o.put.value.slot == l.s.recvidx
    requires o.s.recvidx == l.s.recvidx + 1
    ensures WindowInv(Absorb(l, o)) && Absorb(l, o).sent == l.sent + [o.put.value.pkt]
  {
    WindowPut(l.sent, Base(l), l.consumed, Landed(l), l.slots, l.flight, o.put.value.pkt);
  }

  lemma PutContent(l: Link, o: Outcome)
    requires ContentInv(l) && o.Next? && o.put.Some?
    requires AllShort(l.posted) ==>
      ContentAt(Active(o.s), o.s.usize, l.posted, l.done, RecvEngine(RecvAll(l.sent), o.put.value.pkt))
    ensures ContentInv(Absorb(l, o))
  {
    var p := o.put.value.pkt;
    assert (l.sent + [p])[..l.consumed] == l.sent[..l.consumed];
    RecvOne(l.sent, p);
  }

  /** The state after the first packet of a message. */
  function AfterFirst(k: Kind): SendState {
    match k
    case Rendezvous => ReqRendezvous
    case InPlace => DoEager
    case _ => DoneEager
  }

  lemma FirstArrives(usize: nat, posted: seq<Msg>, done: nat, b: Inbox)
    requires done < |posted| && posted[done].id == done && Proper(posted[done]) && Short(posted[done])
    requires ContentAt(HasRoom, usize, posted, done, b)
    ensures var m := posted[done];
      ContentAt(AfterFirst(m.kind), if m.kind.InPlace? then PAYLOAD else usize, posted, done,
                RecvEngine(b, FirstPacket(m)))
  {}

  lemma FirstContent(l: Link)
    requires Ready(l) && l.s.recvidx < WINDOW && Fit(l.s) && l.done < |l.posted| &&
      l.s.ring[l.s.micur] == Busy(l.posted[l.done])
    ensures SendFirst(l.s).Next? && ContentInv(Absorb(l, SendFirst(l.s)))
  {
    if AllShort(l.posted) {
      FirstArrives(l.s.usize, l.posted, l.done, RecvAll(l.sent));
    }
    PutContent(l, SendFirst(l.s));
  }

  lemma FirstPuts(l: Link)
    requires Ready(l) && l.s.recvidx < WINDOW && Fit(l.s) && l.done < |l.posted| &&
      l.s.ring[l.s.micur] == Busy(l.posted[l.done])
    ensures SendFirst(l.s).Next? && Inv(Absorb(l, SendFirst(l.s)))
  {
    FirstContent(l);
    PutWindow(l, SendFirst(l.s));
  }

  lemma FirstKeeps(l: Link)
    requires Ready(l)
    ensures Fit(l.s) && SendFirst(l.s).Next? && Inv(Absorb(l, SendFirst(l.s)))
  {
    InvFit(l);
    if l.s.recvidx < WINDOW {
      FirstPuts(l);
    }
  }

  lemma MoreArrives(usize: nat, posted: seq<Msg>, done: nat, b: Inbox, size: nat)
    requires ContentAt(DoEager, usize, posted, done, b) && usize + size <= |posted[done].data| && size > 0
    ensures var m := posted[done];
      ContentAt(if usize + size == |m.data| then DoneEager else DoEager, usize + size, posted, done,
        RecvEngine(b, Eager(|m.data|, m.data[usize..usize + size])))
  {
    var m := posted[done];
    assert m.data[..usize] + m.data[usize..usize + size] == m.data[..usize + size];
    assert m.data[..|m.data|] == m.data;
  }

  lemma SendMoreIs(s: Sender, m: Msg) returns (size: nat)
    requires |s.ring| == RING && s.micur < RING && s.ring[s.micur] == Busy(m) && s.recvidx < WINDOW
    requires s.state.DoEager? && s.usize < |m.data| && Short(m)
    ensures 0 < size && s.usize + size <= |m.data| && SendMore(s).Next?
    ensures SendMore(s).put == Some(Put(s.recvidx, Eager(|m.data|, m.data[s.usize..s.usize + size])))
    ensures var t := SendMore(s).s;
      t.usize == s.usize + size && t.state == if s.usize + size == |m.data| then DoneEager else DoEager
  {
    assert SizeField(m) == |m.data|;
    size := PieceLength(|m.data|, s.usize);
  }

  lemma MoreContent(l: Link)
    requires ReadyMore(l) && l.s.recvidx < WINDOW && Fit(l.s) && l.done < |l.posted| &&
      l.s.ring[l.s.micur] == Busy(l.posted[l.done])
    ensures SendMore(l.s).Next? && ContentInv(Absorb(l, SendMore(l.s)))
  {
    if AllShort(l.posted) {
      var size := SendMoreIs(l.s, l.posted[l.done]);
      MoreArrives(l.s.usize, l.posted, l.done, RecvAll(l.sent), size);
    }
    PutContent(l, SendMore(l.s));
  }

  lemma MoreKeeps(l: Link)
    requires ReadyMore(l)
    ensures Fit(l.s) && SendMore(l.s).Next? && Inv(Absorb(l, SendMore(l.s)))
  {
    InvFit(l);
    if l.s.recvidx < WINDOW {
      MorePuts(l);
    }
  }

  lemma MorePuts(l: Link)
    requires ReadyMore(l) && l.s.recvidx < WINDOW && Fit(l.s) && l.done < |l.posted| &&
      l.s.ring[l.s.micur] == Busy(l.posted[l.done])
    ensures SendMore(l.s).Next? && Inv(Absorb(l, SendMore(l.s)))
  {
    MoreContent(l);
    PutWindow(l, SendMore(l.s));
  }

  // ---------------------------------------------------------------- every event keeps the invariant

  /** The one event at which the program gives up: there is no receive buffer to be had. */
  predicate NoRoom(e: Event) { e.RoomGiven? && e.index < 0 }

  /** The event can be handled without the program giving up, and the invariant holds afterwards. */
  ghost predicate Keeps(l: Link, e: Event) {
    Enabled(l, e) && Call(l, e).Next? && Inv(Step(l, e))
  }

  lemma ContentGrows(st: SendState, usize: nat, posted: seq<Msg>, done: nat, b: Inbox, m: Msg)
    requires ContentAt(st, usize, posted, done, b)
    ensures ContentAt(st, usize, posted + [m], done, b)
  {}

  /** The connection just after a message has been put into the ring. */
  function Queued(l: Link, m: Msg): Link
    requires Fit(l.s)
  {
    l.(posted := l.posted + [m], s := l.s.(ring := l.s.ring[l.s.mient := Busy(m)], mient := At(l.s.mient, 1)))
  }

  lemma QueuedHolds(l: Link, m: Msg)
    requires Inv(l) && Fit(l.s) && CanPost(l.s) && m.id == |l.posted| && Proper(m)
    ensures var q := Queued(l, m);
      q.done < |q.posted| && RingHolds(q.s.ring, q.s.micur, q.s.mient, q.posted[q.done..]) && ContentInv(q) &&
      WindowInv(q) &&
      forall i :: 0 <= i < |q.posted| ==> q.posted[i].id == i && Proper(q.posted[i])
  {
    var q := Queued(l, m);
    RingPush(l.s.ring, l.s.micur, l.s.mient, l.posted[l.done..], m);
    assert q.posted[l.done..] == l.posted[l.done..] + [m];
    if AllShort(q.posted) {
      forall i | 0 <= i < |l.posted| ensures Short(l.posted[i]) { assert l.posted[i] == q.posted[i]; }
      ContentGrows(Active(l.s), l.s.usize, l.posted, l.done, RecvAll(l.sent), m);
    }
  }

  lemma PostCall(l: Link, e: Event)
    requires Enabled(l, e) && e.PostMsg? && l.s.state.SNone? && l.s.sndok
    ensures |Queued(l, PostedBy(l, e)).s.ring| == RING && Queued(l, PostedBy(l, e)).s.ring[l.s.micur].Busy?
    ensures Call(l, e) == SendFirst(Queued(l, PostedBy(l, e)).s.(state := HasRoom))
    ensures Around(l, e) == Queued(l, PostedBy(l, e)).(s := l.s)
  {}

  lemma AbsorbSame(l: Link, r: Link, o: Outcome)
    requires o.Next? && r == l.(s := r.s)
    ensures Absorb(l, o) == Absorb(r, o)
  {}

  lemma PostFirst(l: Link, e: Event)
    requires Inv(l) && e.PostMsg? && Enabled(l, e) && l.s.state.SNone? && l.s.sndok
    ensures Keeps(l, e)
  {
    var q := Queued(l, PostedBy(l, e));
    var r := q.(s := q.s.(state := HasRoom));
    assert Ready(r) by { QueuedHolds(l, PostedBy(l, e)); }
    FirstKeeps(r);
    PostCall(l, e);
    AbsorbSame(Around(l, e), r, SendFirst(r.s));
  }

  lemma PostAsks(l: Link, e: Event)
    requires Inv(l) && e.PostMsg? && Enabled(l, e) && l.s.state.SNone? && !l.s.sndok
    ensures Keeps(l, e)
  {
    var m := PostedBy(l, e);
    QueuedHolds(l, m);
    var q := Queued(l, m);
    assert Step(l, e) == q.(room := true, s := q.s.(state := ReqRoom, examed := true));
  }

  lemma PostKeeps(l: Link, e: Event)
    requires Inv(l) && e.PostMsg? && Enabled(l, e)
    ensures Keeps(l, e)
  {
    if !l.s.state.SNone? {
      var m := PostedBy(l, e);
      QueuedHolds(l, m);
      assert Step(l, e) == Queued(l, m);
    } else if l.s.sndok {
      PostFirst(l, e);
    } else {
      PostAsks(l, e);
    }
  }

  lemma RoomKeeps(l: Link, e: Event)
    requires Inv(l) && e.RoomGiven? && !NoRoom(e) && Enabled(l, e)
    ensures Keeps(l, e)
  {
    InvFit(l);
    var r := l.(room := false, s := l.s.(sndok := true, state := HasRoom, recvidx := 0));
    FirstKeeps(r);
    assert Step(l, e) == Absorb(r, SendFirst(r.s));
  }

  /** The connection just after the current entry has been freed, still without a state. */
  function Freed(l: Link): Link
    requires Fit(l.s)
  {
    l.(done := l.done + 1, completions := 0,
       s := l.s.(ring := l.s.ring[l.s.micur := Free], micur := At(l.s.micur, 1), state := HasRoom))
  }

  lemma FreedHolds(l: Link)
    requires Inv(l) && Fit(l.s) && (l.s.state.DoneEager? || l.s.state.ReqRendezvous?)
    ensures var f := Freed(l);
      f.done <= |f.posted| && RingHolds(f.s.ring, f.s.micur, f.s.mient, f.posted[f.done..]) && WindowInv(f) &&
      ContentInv(f) &&
      (f.s.micur == f.s.mient <==> f.done == |f.posted|)
  {
    var f := Freed(l);
    RingPop(l.s.ring, l.s.micur, l.s.mient, l.posted[l.done..]);
    assert l.posted[l.done..][1..] == f.posted[f.done..];
    if f.done < |f.posted| {
      assert f.s.micur != f.s.mient;
    }
  }

  lemma NextNone(l: Link, e: Event)
    requires Inv(l) && e.Completed? && Enabled(l, e) && (l.s.state.DoneEager? || l.s.state.ReqRendezvous?)
    requires Freed(l).s.micur == Freed(l).s.mient && l.done + 1 == |l.posted|
    requires RingHolds(Freed(l).s.ring, 0, 0, []) && WindowInv(Freed(l)) && ContentInv(Freed(l))
    ensures Keeps(l, e)
  {
    var f := Freed(l);
    assert f.posted[f.done..] == [];
    assert Step(l, e) == f.(s := f.s.(micur := 0, mient := 0, state := SNone));
  }

  lemma NextCall(l: Link, e: Event)
    requires Enabled(l, e) && e.Completed? && (l.s.state.DoneEager? || l.s.state.ReqRendezvous?) && l.completions == 1
    requires var f := Freed(l); f.s.micur != f.s.mient && f.s.ring[f.s.micur].Busy?
    ensures Call(l, e) == SendFirst(Freed(l).s) && Around(l, e) == Freed(l).(s := l.s)
  {}

  lemma NextSends(l: Link, e: Event)
    requires Inv(l) && e.Completed? && Enabled(l, e) && (l.s.state.DoneEager? || l.s.state.ReqRendezvous?)
    requires Freed(l).s.micur != Freed(l).s.mient && Ready(Freed(l))
    ensures Keeps(l, e)
  {
    var f := Freed(l);
    FirstKeeps(f);
    NextCall(l, e);
    AbsorbSame(Around(l, e), f, SendFirst(f.s));
  }

  lemma NextKeeps(l: Link, e: Event)
    requires Inv(l) && e.Completed? && Enabled(l, e) && (l.s.state.DoneEager? || l.s.state.ReqRendezvous?)
    ensures Keeps(l, e)
  {
    FreedHolds(l);
    var f := Freed(l);
    if f.done == |f.posted| {
      assert f.posted[f.done..] == [];
      RingEmpty(f.s.ring, f.s.micur, f.s.mient);
      NextNone(l, e);
    } else {
      NextSends(l, e);
    }
  }

  lemma PieceKeeps(l: Link, e: Event)
    requires Inv(l) && e.Completed? && Enabled(l, e) && l.s.state.DoEager?
    ensures Keeps(l, e)
  {
    var r := l.(completions := 0);
    assert ReadyMore(r);
    MoreKeeps(r);
    AbsorbSame(Around(l, e), r, SendMore(r.s));
  }

  lemma CompletedKeeps(l: Link, e: Event)
    requires Inv(l) && e.Completed? && Enabled(l, e)
    ensures Keeps(l, e)
  {
    if l.s.state.DoEager? {
      PieceKeeps(l, e);
    } else {
      NextKeeps(l, e);
    }
  }

  /** When a reset is handled, the sender has used exactly its whole window. */
  lemma ResetExact(l: Link)
    requires Inv(l) && l.resets > 0
    ensures l.resets == 1 && l.s.recvidx == 1024 == |l.slots| && l.flight == [] && l.consumed == |l.sent|
    ensures forall i :: 0 <= i < 1024 ==> l.slots[i] == None
  {}

  lemma ResetWindow(l: Link, r: Link)
    requires Inv(l) && l.resets > 0 && r == l.(resets := 0, s := l.s.(recvidx := 0, state := r.s.state))
    ensures WindowInv(r)
  {
    ResetExact(l);
    WindowReset(l.sent, Base(l), l.consumed, Landed(l), l.slots, l.flight);
  }

  lemma ResetResumes(l: Link, e: Event)
    requires Inv(l) && e.ResetArrives? && Enabled(l, e) && l.s.state.WaitBufReady?
    ensures Keeps(l, e)
  {
    var r := l.(resets := 0, s := l.s.(recvidx := 0, state := l.s.ostate));
    ResetExact(l);
    ResetWindow(l, r);
    InvFit(l);
    if l.s.ostate.HasRoom? {
      FirstKeeps(r);
      AbsorbSame(Around(l, e), r, SendFirst(r.s));
    } else {
      MoreKeeps(r);
      AbsorbSame(Around(l, e), r, SendMore(r.s));
    }
  }

  lemma ResetKeeps(l: Link, e: Event)
    requires Inv(l) && e.ResetArrives? && Enabled(l, e)
    ensures Keeps(l, e)
  {
    if l.s.state.WaitBufReady? {
      ResetResumes(l, e);
    } else {
      var r := l.(resets := 0, s := l.s.(recvidx := 0));
      ResetExact(l);
      ResetWindow(l, r);
      assert Step(l, e) == r;
    }
  }

  lemma DeliveredKeeps(l: Link, e: Event)
    requires Inv(l) && e.Delivered? && Enabled(l, e)
    ensures Keeps(l, e)
  {
    WindowLand(l.sent, Base(l), l.consumed, Landed(l), l.slots, l.flight);
  }

  lemma PolledContent(l: Link, free: bool)
    requires ContentInv(l) && l.consumed < |l.sent|
    ensures var lost := l.inbox.state.RNone? && !free;
      ContentInv(l.(inbox := Receive(l.inbox, l.sent[l.consumed], free), consumed := l.consumed + 1,
        refused := if lost then l.refused + 1 else l.refused))
  {
    var n := l.consumed;
    assert l.sent[..n + 1] == l.sent[..n] + [l.sent[n]];
    RecvOne(l.sent[..n], l.sent[n]);
  }

  lemma PolledWindow(l: Link, e: Event)
    requires WindowInv(l) && e.Polled? && Enabled(l, e)
    ensures WindowInv(Around(l, e)) && l.consumed < |l.sent| && l.slots[l.recvidx].value == l.sent[l.consumed]
  {
    WindowTake(l.sent, Base(l), l.consumed, Landed(l), l.slots, l.flight, l.recvidx);
  }

  lemma PolledKeeps(l: Link, e: Event)
    requires Inv(l) && e.Polled? && Enabled(l, e)
    ensures Keeps(l, e)
  {
    PolledWindow(l, e);
    PolledContent(l, e.free);
    assert Step(l, e) == Around(l, e);
  }

  /** Every event that can happen is handled, and keeps the invariant. The only branch of the engine that
      gives up and is ever taken is the one for lack of a receive buffer. */
  lemma StepInv(l: Link, e: Event)
    requires Inv(l) && Enabled(l, e)
    ensures Call(l, e).Abort? <==> NoRoom(e)
    ensures Call(l, e).Next? ==> Inv(Step(l, e))
  {
    match e
    case PostMsg(_, _, _) => PostKeeps(l, e);
    case RoomGiven(_) =>
      if !NoRoom(e) {
        RoomKeeps(l, e);
      }
    case Completed => CompletedKeeps(l, e);
    case Delivered => DeliveredKeeps(l, e);
    case Polled(_) => PolledKeeps(l, e);
    case ResetArrives => ResetKeeps(l, e);
  }

  // ---------------------------------------------------------------- every run

  ghost predicate Reaches(l: Link, events: seq<Event>, t: Link)
    decreases |events|
  {
    if events == [] then l == t
    else Enabled(l, events[0]) && Call(l, events[0]).Next? && Reaches(Step(l, events[0]), events[1..], t)
  }

  lemma ReachesFirst(l: Link, e: Event, events: seq<Event>, t: Link)
    requires Enabled(l, e) && Call(l, e).Next? && Reaches(Step(l, e), events, t)
    ensures Reaches(l, [e] + events, t)
  {
    assert ([e] + events)[1..] == events;
  }

  lemma {:induction false} RunInv(l: Link, events: seq<Event>, t: Link)
    requires Inv(l) && Reaches(l, events, t)
    ensures Inv(t)
    decreases |events|
  {
    if events != [] {
      StepInv(l, events[0]);
      RunInv(Step(l, events[0]), events[1..], t);
    }
  }

  /** Whatever happens next in whatever run, for messages of any length: the engine gives up exactly when
      it is told that there is no receive buffer, and reaches no other branch that does. */
  lemma NeverAborts(l: Link, events: seq<Event>, t: Link, e: Event)
    requires Init(l) && Reaches(l, events, t) && Enabled(t, e)
    ensures Call(t, e).Abort? <==> NoRoom(e)
  {
    InitInv(l);
    RunInv(l, events, t);
    StepInv(t, e);
  }

  /** At most one local completion is under way, and none while the sender is idle or waits for a
      reset; the pending messages are the ring entries from `micur` on, in posting order. */
  lemma RingExact(l: Link, events: seq<Event>, t: Link)
    requires Init(l) && Reaches(l, events, t)
    ensures t.completions <= 1 && (t.s.state.SNone? || t.s.state.WaitBufReady? ==> t.completions == 0)
    ensures t.done <= |t.posted| && RingHolds(t.s.ring, t.s.micur, t.s.mient, t.posted[t.done..])
    ensures t.s.state.SNone? <==> t.done == |t.posted|
  {
    InitInv(l);
    RunInv(l, events, t);
  }

  /** Posting has to wait exactly while four messages are pending. */
  lemma PostWaits(l: Link, events: seq<Event>, t: Link)
    requires Init(l) && Reaches(l, events, t)
    ensures Fit(t.s) && (CanPost(t.s) <==> Pending(t) < 4)
  {
    InitInv(l);
    RunInv(l, events, t);
    InvFit(t);
    var pending := t.posted[t.done..];
    if CanPost(t.s) {
      RingPush(t.s.ring, t.s.micur, t.s.mient, pending, Msg(0, [], Piggyback, []));
    }
  }

  /** Window safety: every put under way goes to its own slot, which is empty, and the slot the receiver
      polls holds the next packet in the order of sending, or nothing. */
  lemma WindowSafe(l: Link, events: seq<Event>, t: Link)
    requires Init(l) && Reaches(l, events, t)
    ensures |t.slots| == WINDOW && t.recvidx < WINDOW && |t.sent| - t.consumed <= WINDOW
    ensures forall j :: 0 <= j < |t.flight| ==> t.flight[j].slot < WINDOW && t.slots[t.flight[j].slot] == None
    ensures forall i, j :: 0 <= i < j < |t.flight| ==> t.flight[i].slot != t.flight[j].slot
    ensures t.slots[t.recvidx].Some? ==> t.consumed < |t.sent| && t.slots[t.recvidx].value == t.sent[t.consumed]
    ensures t.resets > 0 ==> t.resets == 1 && t.s.recvidx == WINDOW
  {
    InitInv(l);
    RunInv(l, events, t);
  }

  lemma {:induction false} RecvPrefix(ps: seq<Packet>, n: nat)
    requires n <= |ps|
    ensures RecvAll(ps[..n]).got <= RecvAll(ps).got
    decreases |ps|
  {
    if n < |ps| {
      var front := ps[..|ps| - 1];
      assert front[..n] == ps[..n];
      RecvPrefix(front, n);
    } else {
      assert ps[..n] == ps;
    }
  }

  /** The messages that are posted, in order. */
  function Posts(events: seq<Event>): (ps: seq<Event>)
    ensures forall i :: 0 <= i < |ps| ==> ps[i].PostMsg?
  {
    if events == [] then [] else (if events[0].PostMsg? then [events[0]] else []) + Posts(events[1..])
  }

  /** A message goes by a rendezvous request if it is posted in that mode and one packet does not hold it. */
  predicate ByRequest(e: Event)
    requires e.PostMsg?
  {
    e.rendezvous && |e.data| > 236
  }

  /** The message of a post arrives as `a`: by its size and source, or byte for byte. */
  predicate ArrivesAs(e: Event, i: nat, a: Arrival)
    requires e.PostMsg?
  {
    if ByRequest(e) then a == Offered(|e.data|, i) else a == Whole(e.data)
  }

  /** `m` is the i-th message of a run, posted by `e`. */
  ghost predicate IsPosted(e: Event, i: nat, m: Msg)
    requires e.PostMsg?
  {
    m.id == i && m.data == e.data && m.record == e.record && (m.kind.Rendezvous? <==> ByRequest(e)) &&
    (m.kind.Piggyback? <==> |e.data| <= 12) && (m.kind.InPlace? <==> !e.rendezvous && |e.data| > 236)
  }

  lemma PostsOne(l: Link, e: Event)
    requires Enabled(l, e) && Call(l, e).Next?
    ensures Step(l, e).posted == l.posted + if e.PostMsg? then [PostedBy(l, e)] else []
    ensures e.PostMsg? ==> IsPosted(e, |l.posted|, PostedBy(l, e))
  {}

  /** The messages of a state are those that have been posted, each sent in the mode of its post. */
  lemma {:induction false} RunPosts(l: Link, events: seq<Event>, t: Link)
    requires Reaches(l, events, t)
    ensures |t.posted| == |l.posted| + |Posts(events)| && l.posted <= t.posted
    ensures forall i :: 0 <= i < |Posts(events)| ==>
      IsPosted(Posts(events)[i], |l.posted| + i, t.posted[|l.posted| + i])
    decreases |events|
  {
    if events != [] {
      var e, n := events[0], Step(l, events[0]);
      PostsOne(l, e);
      RunPosts(n, events[1..], t);
      var ps := Posts(events);
      forall i | 0 <= i < |ps| ensures IsPosted(ps[i], |l.posted| + i, t.posted[|l.posted| + i]) {
        if e.PostMsg? && i > 0 {
          assert ps[i] == Posts(events[1..])[i - 1];
        }
      }
    }
  }

  /** The receiver has, in posting order, the first of the messages posted in the run. */
  ghost predicate DeliveredAs(events: seq<Event>, got: seq<Arrival>) {
    |got| <= |Posts(events)| && forall i :: 0 <= i < |got| ==> ArrivesAs(Posts(events)[i], i, got[i])
  }

  lemma DeliveredByPosts(l: Link, events: seq<Event>, t: Link, got: seq<Arrival>)
    requires Init(l) && Reaches(l, events, t)
    ensures |t.posted| == |Posts(events)|
    ensures DeliveredAs(events, got) <==> AllArrive(t.posted, |got|, got)
  {
    RunPosts(l, events, t);
    forall i | 0 <= i < |got| && i < |t.posted|
      ensures ArrivesAs(Posts(events)[i], i, got[i]) <==> Arrives(t.posted[i], got[i])
    {
      assert IsPosted(Posts(events)[i], |l.posted| + i, t.posted[i]);
    }
  }

  /** Delivery: in every run in which no packet is refused and every message fits the size field, the
      receiver has, in posting order, exactly the messages posted so far up to some point: what was posted in
      rendezvous mode and is longer than a packet by its size and source, everything else byte for byte. */
  lemma DeliveredInOrder(l: Link, events: seq<Event>, t: Link)
    requires Init(l) && Reaches(l, events, t) && t.refused == 0 && AllShort(t.posted)
    ensures AllArrive(t.posted, |t.inbox.got|, t.inbox.got) && DeliveredAs(events, t.inbox.got)
  {
    InitInv(l);
    RunInv(l, events, t);
    GotArrives(t);
    DeliveredByPosts(l, events, t, t.inbox.got);
  }

  /** Nothing but a new message could happen. */
  ghost predicate Quiet(l: Link) {
    forall e: Event :: Enabled(l, e) ==> e.PostMsg?
  }

  lemma QuietSender(l: Link)
    requires Inv(l) && !l.room && l.completions == 0 && l.flight == [] && l.resets == 0
    requires l.recvidx < WINDOW && l.slots[l.recvidx] == None
    ensures l.s.state.SNone? && l.consumed == |l.sent|
  {
    assert l.slots[l.consumed - Base(l)] == None;
  }

  lemma RestState(l: Link)
    requires Inv(l) && Quiet(l)
    ensures l.s.state.SNone? && l.consumed == |l.sent|
  {
    InvFit(l);
    assert !Enabled(l, RoomGiven(0)) && !Enabled(l, Completed) && !Enabled(l, Delivered);
    assert !Enabled(l, Polled(true)) && !Enabled(l, ResetArrives);
    QuietSender(l);
  }

  /** What the receiver has, from the invariant alone. */
  lemma GotArrives(l: Link)
    requires Inv(l) && l.refused == 0 && AllShort(l.posted)
    ensures AllArrive(l.posted, |l.inbox.got|, l.inbox.got)
  {
    RecvPrefix(l.sent, l.consumed);
  }

  lemma RestArrives(l: Link)
    requires Inv(l) && Quiet(l) && l.refused == 0 && AllShort(l.posted)
    ensures AllArrive(l.posted, |l.posted|, l.inbox.got)
  {
    RestState(l);
    assert l.sent[..l.consumed] == l.sent;
  }
}
