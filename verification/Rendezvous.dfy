/** Rendezvous messages: the receiver fetches the data in chunks by remote gets, several messages at a
    time, and tells the sender when it has all it wants of a message. */
module Rendezvous {
  import opened Messages

  const CHUNK: nat := 8 * 1024 * 1024 // bytes of one remote get

  datatype ReqState = Waiting | Fetching | Fetched

  /** A receive request: how much to fetch, how much has been asked for, and the user's buffer, now and as
      it was handed in. `marked` is what the request object brought from an earlier use as its overrun flag,
      which nothing clears. */
  datatype Req = Req(state: ReqState, expected: nat, rsize: nat, inflight: nat, overrun: bool, marked: bool,
                     buf: Bytes, first: Bytes)

  const FRESH_REQ := Req(Waiting, 0, 0, 0, false, false, [], [])

  datatype Get = Get(req: nat, off: nat, len: nat)

  function Least(a: nat, b: nat): nat { if a > b then b else a }

  /** What handling one request asks for: a further get, or a note to the sender, or nothing. */
  datatype Action = Ask(req: Req, off: nat, len: nat) | Notify(req: Req) | Hold(req: Req)

  /** The user's buffer is known: fetch what fits, and ask for the first chunk. */
  function Start(size: nat, buf: Bytes, marked: bool): Action {
    var expected := if |buf| < size then |buf| else size;
    var len := Least(expected, CHUNK);
    Ask(Req(Fetching, expected, len, 1, marked || |buf| < size, marked, buf, buf), 0, len)
  }

  /** A get of this request has completed. */
  function Progress(r: Req): Action {
    if r.rsize != r.expected then
      var rest := if r.expected >= r.rsize then r.expected - r.rsize else 0;
      var len := Least(rest, CHUNK);
      Ask(r.(rsize := r.rsize + len), r.rsize, len)
    else if r.inflight > 1 then Hold(r.(inflight := r.inflight - 1))
    else Notify(r.(inflight := 0, state := Fetched))
  }

  /** The bytes a get brings into the buffer. */
  function Landed(buf: Bytes, data: Bytes, g: Get): Bytes
    requires g.off + g.len <= |buf| && g.off + g.len <= |data|
  {
    buf[..g.off] + data[g.off..g.off + g.len] + buf[g.off + g.len..]
  }

  // ---------------------------------------------------------------- all requests from one sender

  /** `data` is what the senders' memory holds for each request. `list` is the queue in which the request
      of a completed get is looked up, `gets` the gets under way, which complete in order. `open` are the
      messages the sender has not been told about, `notes` the notes under way. */
  datatype Fetch = Fetch(reqs: seq<Req>, data: seq<Bytes>, list: seq<nat>, gets: seq<Get>, notes: seq<nat>,
                         open: set<nat>)

  datatype Event = Offer(data: Bytes) | Match(req: nat, buf: Bytes, marked: bool) | GetDone | NoteArrives

  ghost predicate Init(f: Fetch) { f == Fetch([], [], [], [], [], {}) }

  predicate Fits(f: Fetch, g: Get) {
    |f.data| == |f.reqs| && g.req < |f.reqs| && g.off + g.len <= |f.reqs[g.req].buf| && g.off + g.len <= |f.data[g.req]|
  }

  predicate Enabled(f: Fetch, e: Event) {
    |f.data| == |f.reqs| &&
    match e
    case Offer(_) => true
    case Match(i, _, _) => i < |f.reqs| && f.reqs[i].state.Waiting?
    case GetDone => f.gets != [] && Fits(f, f.gets[0]) && f.list != [] && f.list[0] < |f.reqs|
    case NoteArrives => f.notes != []
  }

  function Act(f: Fetch, i: nat, a: Action): Fetch
    requires i < |f.reqs|
  {
    var g := f.(reqs := f.reqs[i := a.req]);
    match a
    case Ask(_, off, len) => g.(gets := f.gets + [Get(i, off, len)], list := f.list + [i])
    case Notify(_) => g.(notes := f.notes + [i])
    case Hold(_) => g.(list := f.list + [i])
  }

  /** The oldest get has completed: its bytes are in the buffer of its request. */
  function Arrived(f: Fetch): Fetch
    requires Enabled(f, GetDone)
  {
    var g := f.gets[0];
    var r := f.reqs[g.req];
    f.(reqs := f.reqs[g.req := r.(buf := Landed(r.buf, f.data[g.req], g))], gets := f.gets[1..], list := f.list[1..])
  }

  function Step(f: Fetch, e: Event): Fetch
    requires Enabled(f, e)
  {
    match e
    case Offer(data) => f.(reqs := f.reqs + [FRESH_REQ], data := f.data + [data], open := f.open + {|f.reqs|})
    case Match(i, buf, marked) => Act(f, i, Start(|f.data[i]|, buf, marked))
    case GetDone => Act(Arrived(f), f.list[0], Progress(Arrived(f).reqs[f.list[0]]))
    case NoteArrives => f.(notes := f.notes[1..], open := f.open - {f.notes[0]})
  }

  // ---------------------------------------------------------------- invariant

  /** The first `n` bytes have been fetched, the others are as the user left them. */
  ghost predicate FetchedTo(r: Req, data: Bytes, n: nat) {
    |r.buf| == |r.first| && n <= r.expected <= |r.buf| && r.expected <= |data| &&
    r.buf[..n] == data[..n] && r.buf[n..] == r.first[n..]
  }

  /** The overrun flag is set if the message is longer than the user's buffer, and if it was set before. */
  predicate Flagged(r: Req, size: nat) { r.overrun <==> r.marked || size > |r.first| }

  ghost predicate ReqHolds(f: Fetch, i: nat)
    requires |f.data| == |f.reqs| && i < |f.reqs|
  {
    var r := f.reqs[i];
    match r.state
    case Waiting => i in f.open
    case Fetching => i in f.open && r.inflight == 1
    case Fetched => 
      FetchedTo(r, f.data[i], r.expected) && r.expected == Least(|r.first|, |f.data[i]|) && Flagged(r, |f.data[i]|)
  }

  /** Every get under way belongs to the request at its place in the queue and continues where the buffer
      ends. */
  ghost predicate GetHolds(f: Fetch, j: nat)
    requires |f.data| == |f.reqs| && j < |f.gets| == |f.list|
  {
    var g := f.gets[j];
    g.req == f.list[j] < |f.reqs| &&
    var r := f.reqs[g.req];
    r.state.Fetching? && g.off + g.len == r.rsize <= r.expected && FetchedTo(r, f.data[g.req], g.off) &&
    (g.len > 0 || r.expected == 0) && g.len <= CHUNK && r.expected == Least(|r.first|, |f.data[g.req]|) &&
    Flagged(r, |f.data[g.req]|)
  }

  ghost predicate Once(s: seq<nat>) { forall j, k :: 0 <= j < k < |s| ==> s[j] != s[k] }

  ghost predicate Inv(f: Fetch) {
    |f.data| == |f.reqs| && |f.gets| == |f.list| && Once(f.list) && Once(f.notes) &&
    (forall i :: 0 <= i < |f.reqs| ==> ReqHolds(f, i)) &&
    (forall j :: 0 <= j < |f.gets| ==> GetHolds(f, j)) &&
    (forall i :: 0 <= i < |f.reqs| && f.reqs[i].state.Fetching? ==> i in f.list) &&
    (forall j :: 0 <= j < |f.notes| ==>
      f.notes[j] < |f.reqs| && f.notes[j] in f.open && f.reqs[f.notes[j]].state.Fetched?) &&
    (forall i :: i in f.open ==> i < |f.reqs| && (f.reqs[i].state.Fetched? ==> i in f.notes))
  }

  lemma InitInv(f: Fetch)
    requires Init(f)
    ensures Inv(f)
  {}

  lemma OfferKeeps(f: Fetch, e: Event)
    requires Inv(f) && Enabled(f, e) && e.Offer?
    ensures Inv(Step(f, e))
  {
    var t := Step(f, e);
    forall j | 0 <= j < |t.gets| ensures GetHolds(t, j) { assert GetHolds(f, j); }
    forall i | 0 <= i < |t.reqs| ensures ReqHolds(t, i) {
      if i < |f.reqs| {
        assert ReqHolds(f, i);
      }
    }
  }

  lemma NoteKeeps(f: Fetch, e: Event)
    requires Inv(f) && Enabled(f, e) && e.NoteArrives?
    ensures Inv(Step(f, e)) && f.notes[0] in f.open
  {
    var t := Step(f, e);
    forall j | 0 <= j < |t.gets| ensures GetHolds(t, j) { assert GetHolds(f, j); }
    forall i | 0 <= i < |t.reqs| ensures ReqHolds(t, i) { assert ReqHolds(f, i); }
    forall i | i in t.open && t.reqs[i].state.Fetched? ensures i in t.notes {
      assert i in f.notes && i != f.notes[0];
    }
  }

  /** The invariant while request `i` is being handled: it has no get and no note under way. */
  ghost predicate InvBut(f: Fetch, i: nat) {
    |f.data| == |f.reqs| && |f.gets| == |f.list| && Once(f.list) && Once(f.notes) &&
    i < |f.reqs| && i in f.open && i !in f.list && i !in f.notes &&
    (forall k :: 0 <= k < |f.reqs| && k != i ==> ReqHolds(f, k)) &&
    (forall j :: 0 <= j < |f.gets| ==> GetHolds(f, j)) &&
    (forall k :: 0 <= k < |f.reqs| && k != i && f.reqs[k].state.Fetching? ==> k in f.list) &&
    (forall j :: 0 <= j < |f.notes| ==>
      f.notes[j] < |f.reqs| && f.notes[j] in f.open && f.reqs[f.notes[j]].state.Fetched?) &&
    (forall k :: k in f.open ==> k < |f.reqs| && (k != i && f.reqs[k].state.Fetched? ==> k in f.notes))
  }

  lemma AskKeeps(f: Fetch, i: nat, a: Action)
    requires InvBut(f, i) && a.Ask?
    requires var r := a.req;
      r.state.Fetching? && r.inflight == 1 && a.off + a.len == r.rsize <= r.expected &&
      FetchedTo(r, f.data[i], a.off) &&
      (a.len > 0 || r.expected == 0) && a.len <= CHUNK && r.expected == Least(|r.first|, |f.data[i]|) &&
      Flagged(r, |f.data[i]|)
    ensures Inv(Act(f, i, a))
  {
    var t := Act(f, i, a);
    forall j | 0 <= j < |t.gets| ensures GetHolds(t, j) {
      if j < |f.gets| {
        assert GetHolds(f, j) && f.list[j] in f.list;
      }
    }
    forall k | 0 <= k < |t.reqs| ensures ReqHolds(t, k) {
      if k != i {
        assert ReqHolds(f, k);
      }
    }
    forall k | 0 <= k < |t.reqs| && t.reqs[k].state.Fetching? ensures k in t.list {
      assert t.list[|f.list|] == i;
    }
  }

  lemma NotifyKeeps(f: Fetch, i: nat, a: Action)
    requires InvBut(f, i) && a.Notify? && a.req.state.Fetched?
    requires FetchedTo(a.req, f.data[i], a.req.expected) && a.req.expected == Least(|a.req.first|, |f.data[i]|)
    requires Flagged(a.req, |f.data[i]|)
    ensures Inv(Act(f, i, a))
  {
    var t := Act(f, i, a);
    forall j | 0 <= j < |t.gets| ensures GetHolds(t, j) {
      assert GetHolds(f, j) && f.list[j] in f.list;
    }
    forall k | 0 <= k < |t.reqs| ensures ReqHolds(t, k) {
      if k != i {
        assert ReqHolds(f, k);
      }
    }
    forall k | k in t.open && t.reqs[k].state.Fetched? ensures k in t.notes {
      assert t.notes[|f.notes|] == i;
    }
  }

  lemma MatchKeeps(f: Fetch, e: Event)
    requires Inv(f) && Enabled(f, e) && e.Match?
    ensures Inv(Step(f, e))
  {
    var i := e.req;
    assert ReqHolds(f, i);
    forall j | 0 <= j < |f.list| ensures f.list[j] != i { assert GetHolds(f, j); }
    assert InvBut(f, i);
    AskKeeps(f, i, Start(|f.data[i]|, e.buf, e.marked));
  }

  lemma LandedTo(r: Req, data: Bytes, g: Get)
    requires FetchedTo(r, data, g.off) && g.off + g.len <= r.expected
    ensures FetchedTo(r.(buf := Landed(r.buf, data, g)), data, g.off + g.len)
  {
    var b := Landed(r.buf, data, g);
    var n := g.off + g.len;
    assert b[..n] == r.buf[..g.off] + data[g.off..n] == data[..n];
    assert b[n..] == r.buf[n..] == r.buf[g.off..][g.len..] == r.first[n..];
  }

  lemma ArrivedHolds(f: Fetch)
    requires Inv(f) && Enabled(f, GetDone)
    ensures f.list[0] == f.gets[0].req && InvBut(Arrived(f), f.list[0])
    ensures var i, t := f.list[0], Arrived(f);
      t.reqs[i] == f.reqs[i].(buf := t.reqs[i].buf) && t.reqs[i].rsize <= t.reqs[i].expected &&
      FetchedTo(t.reqs[i], t.data[i], t.reqs[i].rsize)
  {
    var i, t := f.list[0], Arrived(f);
    assert GetHolds(f, 0) && ReqHolds(f, i);
    LandedTo(f.reqs[i], f.data[i], f.gets[0]);
    forall j | 0 <= j < |t.gets| ensures GetHolds(t, j) { assert GetHolds(f, j + 1); }
    forall k | 0 <= k < |t.reqs| && k != i ensures ReqHolds(t, k) { assert ReqHolds(f, k); }
    forall k | 0 <= k < |t.reqs| && k != i && t.reqs[k].state.Fetching? ensures k in t.list {
      assert k in f.list;
    }
  }

  lemma GetKeeps(f: Fetch, e: Event)
    requires Inv(f) && Enabled(f, e) && e.GetDone?
    ensures Inv(Step(f, e))
  {
    var i, t := f.list[0], Arrived(f);
    ArrivedHolds(f);
    assert GetHolds(f, 0) && ReqHolds(f, i);
    var r := t.reqs[i];
    if r.rsize != r.expected {
      AskKeeps(t, i, Progress(r));
    } else {
      NotifyKeeps(t, i, Progress(r));
    }
  }

  /** Every event keeps the invariant, and a note finds its message open at the sender. */
  lemma StepInv(f: Fetch, e: Event)
    requires Inv(f) && Enabled(f, e)
    ensures Inv(Step(f, e)) && (e.NoteArrives? ==> f.notes[0] in f.open)
  {
    match e
    case Offer(_) => OfferKeeps(f, e);
    case Match(_, _, _) => MatchKeeps(f, e);
    case GetDone => GetKeeps(f, e);
    case NoteArrives => NoteKeeps(f, e);
  }

  // ---------------------------------------------------------------- every run

  ghost predicate Reaches(f: Fetch, events: seq<Event>, t: Fetch)
    decreases |events|
  {
    if events == [] then f == t else Enabled(f, events[0]) && Reaches(Step(f, events[0]), events[1..], t)
  }

  lemma {:induction false} RunInv(f: Fetch, events: seq<Event>, t: Fetch)
    requires Inv(f) && Reaches(f, events, t)
    ensures Inv(t)
    decreases |events|
  {
    if events != [] {
      StepInv(f, events[0]);
      RunInv(Step(f, events[0]), events[1..], t);
    }
  }

  /** A get that completes always finds its own request, and never leaves its buffers. It
      brings no more than the hardware takes in one. */
  lemma GetsFindTheirRequest(f: Fetch, events: seq<Event>, t: Fetch)
    requires Init(f) && Reaches(f, events, t) && t.gets != []
    ensures Enabled(t, GetDone) && t.list[0] == t.gets[0].req && t.gets[0].len <= 8 * 1024 * 1024
  {
    InitInv(f);
    RunInv(f, events, t);
    assert GetHolds(t, 0);
  }

  /** Once a request is done its buffer holds the message, as much of it as fits, and is otherwise as the
      user left it. Its overrun flag is set exactly if the message is longer than the buffer, or if the request
      object came with the flag set. */
  lemma FetchedExactly(f: Fetch, events: seq<Event>, t: Fetch, i: nat)
    requires Init(f) && Reaches(f, events, t) && i < |t.reqs| && t.reqs[i].state.Fetched?
    ensures |t.data| == |t.reqs| && t.reqs[i].expected == Least(|t.reqs[i].first|, |t.data[i]|)
    ensures var r, n := t.reqs[i], t.reqs[i].expected;
      |r.buf| == |r.first| && r.buf[..n] == t.data[i][..n] && r.buf[n..] == r.first[n..]
    ensures t.reqs[i].overrun <==> t.reqs[i].marked || |t.data[i]| > |t.reqs[i].first|
  {
    InitInv(f);
    RunInv(f, events, t);
    assert ReqHolds(t, i);
  }

  /** With no get and no note under way, every matched request is done and the sender has been told. */
  lemma RestMeansFetched(f: Fetch, events: seq<Event>, t: Fetch, i: nat)
    requires Init(f) && Reaches(f, events, t) && t.gets == [] && t.notes == [] && i < |t.reqs|
    ensures !t.reqs[i].state.Fetching? && (t.reqs[i].state.Waiting? <==> i in t.open)
  {
    InitInv(f);
    RunInv(f, events, t);
    assert ReqHolds(t, i);
  }

  // ---------------------------------------------------------------- fetching ends

  function ReqLeft(r: Req): nat {
    if r.state.Fetching? then 2 + (if r.expected > r.rsize then r.expected - r.rsize else 0) else 0
  }

  function AllLeft(reqs: seq<Req>): nat {
    if reqs == [] then 0 else AllLeft(reqs[..|reqs| - 1]) + ReqLeft(reqs[|reqs| - 1])
  }

  lemma {:induction false} AllLeftUpdate(reqs: seq<Req>, i: nat, r: Req)
    requires i < |reqs|
    ensures AllLeft(reqs[i := r]) == AllLeft(reqs) - ReqLeft(reqs[i]) + ReqLeft(r)
    decreases |reqs|
  {
    var n := |reqs| - 1;
    if i < n {
      assert reqs[i := r][..n] == reqs[..n][i := r];
      AllLeftUpdate(reqs[..n], i, r);
    } else {
      assert reqs[i := r][..n] == reqs[..n];
    }
  }

  /** Every completed get or delivered note brings the fetching nearer to its end. */
  lemma FetchingEnds(f: Fetch, e: Event)
    requires Inv(f) && Enabled(f, e) && (e.GetDone? || e.NoteArrives?)
    ensures AllLeft(Step(f, e).reqs) + |Step(f, e).notes| < AllLeft(f.reqs) + |f.notes|
  {
    if e.GetDone? {
      var i, t := f.list[0], Arrived(f);
      ArrivedHolds(f);
      assert GetHolds(f, 0) && ReqHolds(f, i);
      AllLeftUpdate(f.reqs, i, t.reqs[i]);
      AllLeftUpdate(t.reqs, i, Progress(t.reqs[i]).req);
    }
  }
}
