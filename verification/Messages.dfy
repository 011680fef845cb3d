/** The two ends of a message connection: the sender's state machine over its ring of four posted
    messages, and the receiver's reassembly of packets. */
module Messages {
  import opened Powers

  const WINDOW: nat := 1024 // packet slots of a receive buffer
  const RING: nat := 4 // messages a sender can have posted
  const PAYLOAD: nat := 236 // bytes of data in one packet
  const PIGGY: nat := 12 // bytes of data that fit into a one-cache-line packet
  const SIZES: nat := 0x8_0000_0000 // the size field of a header has 35 bits
  const RECORD: nat := 80 // bytes that describe where a rendezvous message lies

  type Bytes = seq<bv8>

  datatype Kind = Piggyback | Buffered | InPlace | Rendezvous

  /** How a message is sent depends on its size and on the mode at the time it is posted. */
  function KindOf(size: nat, rendezvous: bool): Kind {
    if size <= PIGGY then Piggyback
    else if size <= PAYLOAD then Buffered
    else if rendezvous then Rendezvous
    else InPlace
  }

  /** A posted message; `id` names its registered memory, and `record` is how a rendezvous request
      describes it. */
  datatype Msg = Msg(id: nat, data: Bytes, kind: Kind, record: Bytes)

  /** What the size field of both headers holds of the length of a message. */
  function SizeField(m: Msg): nat { |m.data| % SIZES }

  /** A message whose length fits the size field. */
  predicate Short(m: Msg) { |m.data| < SIZES }

  /** A packet carries the size of the whole message and a piece of it, or the place from which the
      message can be fetched. */
  datatype Packet = Eager(size: nat, payload: Bytes) | Request(size: nat, source: nat, record: Bytes)

  datatype Put = Put(slot: nat, pkt: Packet)

  // ---------------------------------------------------------------- sender

  datatype Entry = Free | Busy(msg: Msg)

  datatype SendState = SNone | ReqRoom | HasRoom | DoEager | DoneEager | ReqRendezvous | WaitBufReady

  datatype Sender = Sender(
    ring: seq<Entry>, micur: nat, mient: nat, state: SendState, ostate: SendState,
    recvidx: nat, usize: nat, examed: bool, sndok: bool)

  const FRESH_SENDER := Sender([Free, Free, Free, Free], 0, 0, SNone, SNone, 0, 0, false, false)

  /** What an engine call leaves: the new state and the packet it put, or the end of the program. */
  datatype Outcome = Next(s: Sender, put: Option<Put>) | Abort

  predicate Fit(s: Sender) {
    |s.ring| == RING && s.micur < RING && s.mient < RING &&
    (Sends(s.state) || (s.state.WaitBufReady? && Sends(s.ostate)) ==> s.ring[s.micur].Busy?)
  }

  predicate Sends(st: SendState) { st.HasRoom? || st.DoEager? || st.DoneEager? || st.ReqRendezvous? || st.ReqRoom? }

  // No slot left: remember the state and wait for the receiver's reset.
  function WaitForReset(s: Sender): Outcome { Next(s.(ostate := s.state, state := WaitBufReady), None) }

  /** `len` bytes from `off` on. Where they are not all within the message, what follows it in memory is
      taken as zero. */
  function Piece(data: Bytes, off: nat, len: nat): (r: Bytes)
    ensures |r| == len
  {
    if off + len <= |data| then data[off..off + len]
    else seq(len, k requires 0 <= k < len => if off + k < |data| then data[off + k] else 0)
  }

  function FirstPacket(m: Msg): Packet {
    match m.kind
    case Piggyback => Eager(SizeField(m), m.data)
    case Buffered => Eager(SizeField(m), m.data)
    case InPlace => Eager(SizeField(m), Piece(m.data, 0, PAYLOAD))
    case Rendezvous => Request(SizeField(m), m.id, m.record)
  }

  /** Sends the first packet of the current message. */
  function SendFirst(s: Sender): Outcome
    requires |s.ring| == RING && s.micur < RING && s.ring[s.micur].Busy?
  {
    if s.recvidx == WINDOW then WaitForReset(s)
    else
      var m := s.ring[s.micur].msg;
      var t := s.(recvidx := s.recvidx + 1);
      var put := Some(Put(s.recvidx, FirstPacket(m)));
      match m.kind
      case Piggyback => Next(t.(usize := |m.data|, state := DoneEager), put)
      case Buffered => Next(t.(usize := |m.data|, state := DoneEager), put)
      case InPlace => Next(t.(usize := PAYLOAD, state := DoEager), put)
      case Rendezvous => Next(t.(state := ReqRendezvous), put)
  }

  /** The length of the next piece. Once more has been sent than the size field says, the unsigned
      difference is large. */
  function PieceLength(size: nat, usize: nat): nat {
    if usize <= size && size - usize <= PAYLOAD then size - usize else PAYLOAD
  }

  /** Sends the next piece of the current message. */
  function SendMore(s: Sender): Outcome
    requires |s.ring| == RING && s.micur < RING && s.ring[s.micur].Busy?
  {
    if s.recvidx == WINDOW then WaitForReset(s)
    else
      var m := s.ring[s.micur].msg;
      var size := SizeField(m);
      var len := PieceLength(size, s.usize);
      var t := s.(recvidx := s.recvidx + 1, usize := s.usize + len);
      var pkt := Eager(size, Piece(m.data, s.usize, len));
      Next(if size == t.usize then t.(state := DoneEager) else t, Some(Put(s.recvidx, pkt)))
  }

  /** Frees the current entry and goes on with the next one, if there is one. */
  function NextEntry(s: Sender): Outcome
    requires |s.ring| == RING && s.micur < RING
  {
    var idx := (s.micur + 1) % RING;
    var t := s.(ring := s.ring[s.micur := Free]);
    if idx == s.mient then Next(t.(micur := 0, mient := 0, state := SNone), None)
    else if t.ring[idx].Busy? then SendFirst(t.(micur := idx, state := HasRoom))
    else Abort
  }

  /** The send engine on an event; `room` is the answer to a request for a receive buffer. */
  function Engine(s: Sender, room: int): Outcome
    requires Fit(s)
  {
    match s.state
    case SNone => Next(s, None)
    case ReqRoom => if room >= 0 then SendFirst(s.(sndok := true, state := HasRoom, recvidx := 0)) else Abort
    case HasRoom => SendFirst(s)
    case DoEager => SendMore(s)
    case DoneEager => NextEntry(s)
    case ReqRendezvous => NextEntry(s)
    case WaitBufReady => Abort
  }

  /** The reset of the receiver arrives. */
  function OnReset(s: Sender): Outcome
    requires Fit(s)
  {
    var t := s.(recvidx := 0);
    if s.state.WaitBufReady? then
      if Sends(s.ostate) then Engine(t.(state := s.ostate), 0) else Abort
    else Next(t, None)
  }

  /** Starts a connection that has nothing under way; it may have to ask for a receive buffer first. */
  function SendStart(s: Sender): Outcome
    requires |s.ring| == RING && s.micur < RING && s.ring[s.micur].Busy?
  {
    if s.sndok then SendFirst(s.(state := HasRoom))
    else if !s.examed then Next(s.(state := ReqRoom, examed := true), None)
    else Abort
  }

  predicate CanPost(s: Sender)
    requires Fit(s)
  {
    s.ring[s.mient].Free?
  }

  function Post(s: Sender, m: Msg): Outcome
    requires Fit(s) && CanPost(s) && (s.state.SNone? ==> s.micur == s.mient)
  {
    var t := s.(ring := s.ring[s.mient := Busy(m)], mient := (s.mient + 1) % RING);
    if s.state.SNone? then SendStart(t) else Next(t, None)
  }

  // ---------------------------------------------------------------- receiver

  /** What the receiver has of a message: all of it, or the place to fetch it from. */
  datatype Arrival = Whole(data: Bytes) | Offered(size: nat, source: nat)

  datatype RecvState = RNone | RBody(size: nat, data: Bytes)

  /** The receive engine's memory: the message being received and those already there. */
  datatype Inbox = Inbox(state: RecvState, got: seq<Arrival>)

  function Copied(size: nat, data: Bytes, got: seq<Arrival>): Inbox {
    if size == |data| then Inbox(RNone, got + [Whole(data)]) else Inbox(RBody(size, data), got)
  }

  /** The bytes behind the header, whatever they mean. */
  function PayloadOf(p: Packet): Bytes { if p.Eager? then p.payload else p.record }

  /** Inside the body of a message every packet is taken for a piece of it. */
  function RecvEngine(b: Inbox, p: Packet): Inbox {
    match b.state
    case RNone =>
      (match p
       case Request(size, source, _) => Inbox(RNone, b.got + [Offered(size, source)])
       case Eager(size, payload) => Copied(size, payload, b.got))
    case RBody(size, data) => Copied(size, data + PayloadOf(p), b.got)
  }

  /** A packet in the polled slot. A message that begins unexpectedly needs a free request; without one
      the engine leaves everything as it is, and its caller clears the slot all the same. */
  function Receive(b: Inbox, p: Packet, free: bool): Inbox {
    if b.state.RNone? && !free then b else RecvEngine(b, p)
  }

  /** The inbox after all of `ps`, in order. */
  function RecvAll(ps: seq<Packet>): Inbox {
    if ps == [] then Inbox(RNone, []) else RecvEngine(RecvAll(ps[..|ps| - 1]), ps[|ps| - 1])
  }
}
