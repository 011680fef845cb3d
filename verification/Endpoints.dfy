/** The two ends as the program runs them: control blocks whose fields are updated in place. */
module Endpoints {
  import opened Powers
  import opened Messages
  import opened Connection

  class SendControl {
    const msginfo: array<Entry>
    var micur: nat
    var mient: nat
    var state: SendState
    var ostate: SendState
    var recvidx: nat
    var usize: nat
    var examed: bool
    var sndok: bool

    function View(): Sender
      reads this, msginfo
    {
      Sender(msginfo[..], micur, mient, state, ostate, recvidx, usize, examed, sndok)
    }

    constructor ()
      ensures View() == FRESH_SENDER && fresh(msginfo)
    {
      msginfo := new Entry[RING](i => Free);
      micur, mient, state, ostate, recvidx, usize, examed, sndok := 0, 0, SNone, SNone, 0, 0, false, false;
      new;
      assert msginfo[..] == [Free, Free, Free, Free];
    }

    /** The slot for the next packet; with none left the engine is put to wait. */
    method CalcSlot() returns (slot: Option<nat>)
      modifies this`state, this`ostate
      ensures slot.None? <==> recvidx == WINDOW
      ensures if slot.None? then ostate == old(state) && state == WaitBufReady else
        slot.value == recvidx && ostate == old(ostate) && state == old(state)
    {
      if recvidx == WINDOW {
        ostate := state;
        state := WaitBufReady;
        return None;
      }
      return Some(recvidx);
    }

    method SendFirstPacket() returns (put: Option<Put>)
      requires Fit(View()) && msginfo[micur].Busy?
      modifies this`state, this`ostate, this`recvidx, this`usize
      ensures Next(View(), put) == SendFirst(old(View()))
    {
      var slot := CalcSlot();
      if slot.None? {
        return None;
      }
      var m := msginfo[micur].msg;
      match m.kind {
        case Piggyback =>
          usize := |m.data|;
          state := DoneEager;
        case Buffered =>
          usize := |m.data|;
          state := DoneEager;
        case InPlace =>
          usize := PAYLOAD;
          state := DoEager;
        case Rendezvous =>
          state := ReqRendezvous;
      }
      recvidx := recvidx + 1;
      return Some(Put(slot.value, FirstPacket(m)));
    }

    method SendNextPiece() returns (put: Option<Put>)
      requires Fit(View()) && msginfo[micur].Busy?
      modifies this`state, this`ostate, this`recvidx, this`usize
      ensures Next(View(), put) == SendMore(old(View()))
    {
      var slot := CalcSlot();
      if slot.None? {
        return None;
      }
      var m := msginfo[micur].msg;
      var size := SizeField(m);
      var len := PieceLength(size, usize);
      var payload := Piece(m.data, usize, len);
      usize := usize + len;
      recvidx := recvidx + 1;
      if size == usize {
        state := DoneEager;
      }
      return Some(Put(slot.value, Eager(size, payload)));
    }

    method FreeEntry() returns (ok: bool, put: Option<Put>)
      requires Fit(View())
      modifies this, msginfo
      ensures if ok then NextEntry(old(View())) == Next(View(), put) else NextEntry(old(View())) == Abort
    {
      ghost var was := View();
      msginfo[micur] := Free;
      assert msginfo[..] == was.ring[micur := Free];
      var idx := (micur + 1) % RING;
      if idx == mient {
        micur := 0;
        mient := 0;
        state := SNone;
        return true, None;
      }
      micur := idx;
      if msginfo[idx].Free? {
        return false, None;
      }
      state := HasRoom;
      put := SendFirstPacket();
      ok := true;
    }

    /** One event at the send engine. */
    method HandleEvent(room: int) returns (ok: bool, put: Option<Put>)
      requires Fit(View())
      modifies this, msginfo
      ensures if ok then Engine(old(View()), room) == Next(View(), put) else Engine(old(View()), room) == Abort
    {
      match state {
        case SNone =>
          return true, None;
        case ReqRoom =>
          if room < 0 {
            return false, None;
          }
          sndok := true;
          state := HasRoom;
          recvidx := 0;
          put := SendFirstPacket();
          ok := true;
        case HasRoom =>
          put := SendFirstPacket();
          ok := true;
        case DoEager =>
          put := SendNextPiece();
          ok := true;
        case DoneEager =>
          ok, put := FreeEntry();
        case ReqRendezvous =>
          ok, put := FreeEntry();
        case WaitBufReady =>
          return false, None;
      }
    }

    /** The receiver's reset arrives: the window is free, and a waiting engine goes on. */
    method HandleReset() returns (ok: bool, put: Option<Put>)
      requires Fit(View())
      modifies this, msginfo
      ensures if ok then OnReset(old(View())) == Next(View(), put) else OnReset(old(View())) == Abort
    {
      recvidx := 0;
      if state.WaitBufReady? {
        if !Sends(ostate) {
          return false, None;
        }
        state := ostate;
        ok, put := HandleEvent(0);
      } else {
        return true, None;
      }
    }

    /** Posts a message into the next free entry and starts the engine if it is idle. */
    method Send(m: Msg) returns (ok: bool, put: Option<Put>)
      requires Fit(View()) && CanPost(View()) && (state.SNone? ==> micur == mient)
      modifies this, msginfo
      ensures if ok then Post(old(View()), m) == Next(View(), put) else Post(old(View()), m) == Abort
    {
      ghost var was := View();
      msginfo[mient] := Busy(m);
      assert msginfo[..] == was.ring[mient := Busy(m)];
      mient := (mient + 1) % RING;
      if !state.SNone? {
        return true, None;
      }
      if sndok {
        state := HasRoom;
        put := SendFirstPacket();
        ok := true;
      } else if !examed {
        state := ReqRoom;
        examed := true;
        return true, None;
      } else {
        return false, None;
      }
    }
  }

  // ---------------------------------------------------------------- receiver

  /** `refused` counts the packets dropped for lack of a request. */
  datatype Receiver = Receiver(slots: seq<Option<Packet>>, recvidx: nat, inbox: Inbox, resets: nat, refused: nat)

  /** Takes the packet in the current slot; after the last slot a reset is sent. */
  function TakeOne(r: Receiver, free: bool): Receiver
    requires r.recvidx < |r.slots| && r.slots[r.recvidx].Some?
  {
    var last := r.recvidx + 1 == WINDOW;
    Receiver(r.slots[r.recvidx := None], if last then 0 else r.recvidx + 1,
      Receive(r.inbox, r.slots[r.recvidx].value, free), if last then r.resets + 1 else r.resets,
      if r.inbox.state.RNone? && !free then r.refused + 1 else r.refused)
  }

  /** What one pass takes: everything up to an empty slot or the end of the window. */
  function Drain(r: Receiver, free: bool): Receiver
    requires |r.slots| == WINDOW && r.recvidx < WINDOW
    decreases WINDOW - r.recvidx
  {
    if r.slots[r.recvidx].None? then r
    else if r.recvidx + 1 == WINDOW then TakeOne(r, free)
    else Drain(TakeOne(r, free), free)
  }

  function ReceiverOf(l: Link): Receiver { Receiver(l.slots, l.recvidx, l.inbox, l.resets, l.refused) }

  lemma PollStep(l: Link, free: bool) returns (n: Link)
    requires Inv(l) && |l.slots| == WINDOW && l.recvidx < WINDOW && l.slots[l.recvidx].Some?
    ensures Enabled(l, Polled(free)) && Call(l, Polled(free)).Next? && n == Step(l, Polled(free))
    ensures Inv(n) && ReceiverOf(n) == TakeOne(ReceiverOf(l), free) && n.s == l.s && n.flight == l.flight
  {
    InvFit(l);
    StepInv(l, Polled(free));
    n := Step(l, Polled(free));
  }

  function Polls(n: nat, free: bool): seq<Event> {
    if n == 0 then [] else [Polled(free)] + Polls(n - 1, free)
  }

  /** `n` polls lead from `l` to `t`, and change nothing but the receiver. */
  ghost predicate PollsTo(l: Link, n: nat, t: Link, free: bool) {
    Reaches(l, Polls(n, free), t) && t.s == l.s && t.flight == l.flight
  }

  lemma PollsMore(l: Link, next: Link, n: nat, t: Link, free: bool)
    requires Enabled(l, Polled(free)) && Call(l, Polled(free)).Next? && next == Step(l, Polled(free))
    requires PollsTo(next, n, t, free) && next.s == l.s && next.flight == l.flight
    ensures PollsTo(l, n + 1, t, free)
  {
    ReachesFirst(l, Polled(free), Polls(n, free), t);
  }

  lemma SlotBounds(l: Link)
    requires Inv(l)
    ensures |l.slots| == WINDOW && l.recvidx < WINDOW
  {}

  /** A pass of the polling loop is a run of single polls. */
  lemma {:induction false} DrainIsRun(l: Link, free: bool) returns (n: nat, t: Link)
    requires Inv(l)
    ensures |l.slots| == WINDOW && l.recvidx < WINDOW
    ensures PollsTo(l, n, t, free) && ReceiverOf(t) == Drain(ReceiverOf(l), free)
    decreases WINDOW - l.recvidx
  {
    SlotBounds(l);
    if l.slots[l.recvidx].None? {
      return 0, l;
    }
    var next := PollStep(l, free);
    if l.recvidx + 1 == WINDOW {
      n, t := 0, next;
    } else {
      n, t := DrainIsRun(next, free);
    }
    PollsMore(l, next, n, t, free);
    n := n + 1;
  }

  class RecvControl {
    const slots: array<Option<Packet>>
    var recvidx: nat
    var state: RecvState
    var got: seq<Arrival>
    var resets: nat
    ghost var refused: nat

    ghost function View(): Receiver
      reads this, slots
    {
      Receiver(slots[..], recvidx, Inbox(state, got), resets, refused)
    }

    constructor ()
      ensures View() == Receiver(seq(WINDOW, i => None), 0, Inbox(RNone, []), 0, 0) && fresh(slots)
    {
      slots := new Option<Packet>[WINDOW](i => None);
      recvidx, state, got, resets, refused := 0, RNone, [], 0, 0;
      new;
      assert slots[..] == seq(WINDOW, i => None);
    }

    method EagerCopy(size: nat, data: Bytes)
      modifies this`state, this`got
      ensures Inbox(state, got) == Messages.Copied(size, data, old(got))
    {
      if size == |data| {
        got := got + [Whole(data)];
        state := RNone;
      } else {
        state := RBody(size, data);
      }
    }

    /** Handles the packet in the polled slot; `free` says whether a request can be had for a message that
        begins. */
    method HandlePacket(p: Packet, free: bool)
      modifies this`state, this`got, this`refused
      ensures Inbox(state, got) == Receive(old(Inbox(state, got)), p, free)
      ensures refused == if old(state).RNone? && !free then old(refused) + 1 else old(refused)
    {
      match state {
        case RNone =>
          if !free {
            refused := refused + 1;
            return;
          }
          match p {
            case Request(size, source, _) => got := got + [Offered(size, source)];
            case Eager(size, payload) => EagerCopy(size, payload);
          }
        case RBody(size, data) =>
          EagerCopy(size, data + PayloadOf(p));
      }
    }

    /** One pass of the polling loop over this connection. */
    method Progress(free: bool) returns (arrived: bool)
      requires slots.Length == WINDOW && recvidx < WINDOW
      modifies this, slots
      ensures View() == Drain(old(View()), free)
      ensures arrived <==> old(slots[recvidx]).Some?
    {
      arrived := false;
      ghost var goal := Drain(View(), free);
      while slots[recvidx].Some?
        invariant recvidx < WINDOW && Drain(View(), free) == goal
        invariant !arrived ==> View() == old(View())
        invariant arrived ==> old(slots[recvidx]).Some?
        decreases WINDOW - recvidx
      {
        arrived := true;
        ghost var was := View();
        HandlePacket(slots[recvidx].value, free);
        slots[recvidx] := None;
        recvidx := recvidx + 1;
        if recvidx == WINDOW {
          recvidx := 0;
          resets := resets + 1;
          assert View() == TakeOne(was, free);
          break;
        }
        assert View() == TakeOne(was, free);
      }
    }
  }
}
