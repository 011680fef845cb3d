/** The file barrier of the network simulator: two alternating files, one byte per rank,
    markers that repeat every four barriers.

    No lock is held while a rank reads, so a read of the file is modelled byte by byte,
    with the bytes of other ranks changing in between.
 */
module FileBarrier {

  type Byte = b: int | 0 <= b < 256

  const ZERO: Byte := 48 // the character '0'

  /** The byte a rank stores for its k-th barrier. */
  function Marker(k: nat): Byte {
    ZERO + k % 4
  }

  /** A byte past the end of the file is read as the zero the buffer was cleared with. */
  function ByteAt(file: seq<Byte>, j: nat): Byte {
    if j < |file| then file[j] else 0
  }

  /** Seek and write of one byte; a gap before it is filled with zeros. */
  function WriteAt(file: seq<Byte>, off: nat, b: Byte): (r: seq<Byte>)
    ensures forall j: nat :: ByteAt(r, j) == if j == off then b else ByteAt(file, j)
  {
    if off < |file| then file[off := b] else file + seq(off - |file|, _ => 0) + [b]
  }

  /** Length of the leading run of marker bytes. */
  function LeadingMarkers(buf: seq<Byte>, marker: Byte): nat {
    if buf == [] || buf[0] == 0 || buf[0] != marker then 0 else 1 + LeadingMarkers(buf[1..], marker)
  }

  lemma {:induction false} LeadingMarkersAll(buf: seq<Byte>, marker: Byte)
    requires marker != 0
    ensures LeadingMarkers(buf, marker) <= |buf|
    ensures LeadingMarkers(buf, marker) == |buf| <==> forall j :: 0 <= j < |buf| ==> buf[j] == marker
  {
    if buf != [] {
      LeadingMarkersAll(buf[1..], marker);
      if forall j :: 0 <= j < |buf| ==> buf[j] == marker {
        assert forall j :: 0 <= j < |buf[1..]| ==> buf[1..][j] == buf[j + 1];
      }
      if LeadingMarkers(buf, marker) == |buf| {
        assert forall j :: 0 < j < |buf| ==> buf[j] == buf[1..][j - 1];
      }
    }
  }

  lemma {:induction false} LeadingMarkersSplit(buf: seq<Byte>, marker: Byte, i: nat)
    requires i <= |buf| && forall j :: 0 <= j < i ==> buf[j] == marker && buf[j] != 0
    ensures LeadingMarkers(buf, marker) == i + LeadingMarkers(buf[i..], marker)
  {
    if i > 0 {
      assert buf[1..][i - 1..] == buf[i..];
      LeadingMarkersSplit(buf[1..], marker, i - 1);
    } else {
      assert buf[0..] == buf;
    }
  }

  /** The counting loop over the working buffer. */
  method CountMarker(buf: array<Byte>, size: nat, marker: Byte) returns (count: nat)
    requires size == buf.Length
    ensures count == LeadingMarkers(buf[..], marker)
  {
    count := 0;
    var i := 0;
    while i < size
      invariant count == i <= size
      invariant forall j :: 0 <= j < i ==> buf[j] == marker && buf[j] != 0
    {
      if buf[i] == 0 || buf[i] != marker {
        break;
      }
      count := count + 1;
      i := i + 1;
    }
    LeadingMarkersSplit(buf[..], marker, i);
  }

  // ---------------------------------------------------------------- one rank, one call

  /** Where a rank is inside fbarrier. `Reading` holds the bytes read so far. */
  datatype Phase = Outside | Reading(update: bool, buf: seq<Byte>) | Counted(rst: nat)

  datatype Rank = Rank(ntimes: nat, phase: Phase) {
    /** Barriers this rank has put its marker down for. */
    function Wrote(): nat {
      if phase.Outside? || (phase.Reading? && phase.update) then ntimes else ntimes + 1
    }

    /** Barriers this rank has entered. */
    function Entered(): nat {
      if phase.Outside? then ntimes else ntimes + 1
    }
  }

  /** `files[0]` serves the even barriers and `files[1]` the odd ones. */
  datatype State = State(files: seq<seq<Byte>>, ranks: seq<Rank>)

  function Init(n: nat): State {
    State([[], []], seq(n, _ => Rank(0, Outside)))
  }

  /** The steps of fbarrier, each naming the rank that takes it. */
  datatype Action =
    | Enter(r: nat)
    | ReadByte(r: nat)
    | WriteMark(r: nat)
    | Count(r: nat)
    | Retry(r: nat)
    | Leave(r: nat)

  predicate Shape(s: State) {
    |s.files| == 2
  }

  predicate Enabled(s: State, a: Action) {
    Shape(s) && a.r < |s.ranks| &&
    var p := s.ranks[a.r].phase;
    var n := |s.ranks|;
    match a
    case Enter(_) => p.Outside?
    case ReadByte(_) => p.Reading? && |p.buf| < n
    case WriteMark(_) => p.Reading? && |p.buf| == n && p.update
    case Count(_) => p.Reading? && |p.buf| == n && !p.update
    case Retry(_) => p.Counted? && p.rst != n
    case Leave(_) => p.Counted? && p.rst == n
  }

  function Do(s: State, a: Action): State
    requires Enabled(s, a)
  {
    var rk := s.ranks[a.r];
    var f := rk.ntimes % 2;
    var m := Marker(rk.ntimes);
    match a
    case Enter(r) => s.(ranks := s.ranks[r := rk.(phase := Reading(true, []))])
    case ReadByte(r) =>
      var b := ByteAt(s.files[f], |rk.phase.buf|);
      s.(ranks := s.ranks[r := rk.(phase := rk.phase.(buf := rk.phase.buf + [b]))])
    case WriteMark(r) =>
      State(s.files[f := WriteAt(s.files[f], r, m)],
            s.ranks[r := rk.(phase := Counted(LeadingMarkers(rk.phase.buf[r := m], m)))])
    case Count(r) =>
      s.(ranks := s.ranks[r := rk.(phase := Counted(LeadingMarkers(rk.phase.buf, m)))])
    case Retry(r) => s.(ranks := s.ranks[r := rk.(phase := Reading(false, []))])
    case Leave(r) => s.(ranks := s.ranks[r := Rank(rk.ntimes + 1, Outside)])
  }

  ghost predicate ValidRun(s: State, acts: seq<Action>)
    decreases |acts|
  {
    acts == [] || (Enabled(s, acts[0]) && ValidRun(Do(s, acts[0]), acts[1..]))
  }

  ghost function Run(s: State, acts: seq<Action>): State
    requires ValidRun(s, acts)
    decreases |acts|
  {
    if acts == [] then s else Run(Do(s, acts[0]), acts[1..])
  }

  // ---------------------------------------------------------------- the invariant

  /** The byte of a rank that has written `w` markers, in the file of parity `f`. */
  function LastMark(w: nat, f: nat): Byte {
    if w == 0 then 0 else if (w - 1) % 2 == f then Marker(w - 1) else LastMark(w - 1, f)
  }

  lemma Parity(k: nat)
    ensures (k + 1) % 2 != k % 2 && (k + 2) % 2 == k % 2
  {}

  /** The characters of four barriers in turn; those of one file in turn are different. */
  lemma MarkersDiffer(k: nat)
    ensures Marker(k) as char == "0123"[k % 4]
    ensures Marker(k) != Marker(k + 2) && Marker(k) != 0
  {}

  /** In the file of barrier `k`, a rank that has written `k`, `k + 1` or `k + 2` markers shows the marker
      of barrier `k` exactly if it has written it. */
  lemma MarkOf(k: nat, w: nat)
    requires k <= w <= k + 2
    ensures LastMark(w, k % 2) == Marker(k) <==> k < w
  {
    Parity(k);
    MarkersDiffer(k);
    assert LastMark(k + 1, k % 2) == Marker(k);
    if w == k && k >= 2 {
      Parity(k - 1);
      Parity(k - 2);
      MarkersDiffer(k - 2);
      assert LastMark(k, k % 2) == LastMark(k - 1, k % 2) == Marker(k - 2);
    } else if w == k == 1 {
      assert LastMark(1, 1) == LastMark(0, 1);
    }
  }

  ghost predicate FilesInv(s: State) {
    Shape(s) &&
    forall j: nat, f: nat {:trigger ByteAt(s.files[f], j)} :: j < |s.ranks| && f < 2 ==>
      ByteAt(s.files[f], j) == LastMark(s.ranks[j].Wrote(), f)
  }

  /** Nobody has left a barrier that somebody has not marked. */
  ghost predicate NoneAhead(s: State) {
    forall p: nat, q: nat :: p < |s.ranks| && q < |s.ranks| ==> s.ranks[p].ntimes <= s.ranks[q].Wrote()
  }

  /** A marker seen in a buffer, or a full count, is evidence about its rank. */
  ghost predicate EvidenceOf(s: State, r: nat)
    requires r < |s.ranks|
  {
    var rk := s.ranks[r];
    match rk.phase
    case Outside => true
    case Reading(_, buf) =>
      |buf| <= |s.ranks| &&
      forall j :: 0 <= j < |buf| && buf[j] == Marker(rk.ntimes) ==> rk.ntimes < s.ranks[j].Wrote()
    case Counted(rst) =>
      rst == |s.ranks| ==> forall q: nat :: q < |s.ranks| ==> rk.ntimes < s.ranks[q].Wrote()
  }

  ghost predicate Inv(s: State) {
    FilesInv(s) && NoneAhead(s) && forall r: nat :: r < |s.ranks| ==> EvidenceOf(s, r)
  }

  lemma InitInv(n: nat)
    ensures Inv(Init(n))
  {}

  lemma WriteFiles(s: State, r: nat, j: nat, f: nat)
    requires FilesInv(s) && Enabled(s, WriteMark(r)) && j < |s.ranks| && f < 2
    ensures var t := Do(s, WriteMark(r)); ByteAt(t.files[f], j) == LastMark(t.ranks[j].Wrote(), f)
  {
    var k := s.ranks[r].ntimes;
    assert ByteAt(s.files[f], j) == LastMark(s.ranks[j].Wrote(), f);
    if f == k % 2 {
      assert ByteAt(WriteAt(s.files[f], r, Marker(k)), j) == if j == r then Marker(k) else ByteAt(s.files[f], j);
    }
  }

  lemma StepFiles(s: State, a: Action)
    requires Inv(s) && Enabled(s, a)
    ensures FilesInv(Do(s, a))
  {
    var t := Do(s, a);
    forall j: nat, f: nat | j < |t.ranks| && f < 2
      ensures ByteAt(t.files[f], j) == LastMark(t.ranks[j].Wrote(), f)
    {
      if a.WriteMark? {
        WriteFiles(s, a.r, j, f);
      } else {
        assert ByteAt(s.files[f], j) == LastMark(s.ranks[j].Wrote(), f);
        assert t.files == s.files && t.ranks[j].Wrote() == s.ranks[j].Wrote();
      }
    }
  }

  lemma StepNoneAhead(s: State, a: Action)
    requires Inv(s) && Enabled(s, a)
    ensures NoneAhead(Do(s, a))
  {
    var s' := Do(s, a);
    assert EvidenceOf(s, a.r);
    assert forall q: nat :: q < |s.ranks| ==> s.ranks[q].Wrote() <= s'.ranks[q].Wrote();
  }

  /** A marker byte read now was written for this barrier and not for one four earlier or later. */
  lemma FreshMark(s: State, r: nat, j: nat)
    requires Inv(s) && r < |s.ranks| && j < |s.ranks| && s.ranks[r].phase.Reading?
    requires ByteAt(s.files[s.ranks[r].ntimes % 2], j) == Marker(s.ranks[r].ntimes)
    ensures s.ranks[r].ntimes < s.ranks[j].Wrote()
  {
    var k := s.ranks[r].ntimes;
    assert k <= s.ranks[j].Wrote() <= s.ranks[j].ntimes + 1 <= s.ranks[r].Wrote() + 1;
    assert ByteAt(s.files[k % 2], j) == LastMark(s.ranks[j].Wrote(), k % 2);
    MarkOf(k, s.ranks[j].Wrote());
  }

  lemma WroteGrows(s: State, a: Action, q: nat)
    requires Enabled(s, a) && q < |s.ranks|
    ensures |Do(s, a).ranks| == |s.ranks| && s.ranks[q].Wrote() <= Do(s, a).ranks[q].Wrote()
  {}

  lemma ReadEvidence(s: State, r: nat)
    requires Inv(s) && Enabled(s, ReadByte(r))
    ensures EvidenceOf(Do(s, ReadByte(r)), r)
  {
    var rk, t := s.ranks[r], Do(s, ReadByte(r));
    var n := |rk.phase.buf|;
    assert EvidenceOf(s, r);
    forall j | 0 <= j < n + 1 && t.ranks[r].phase.buf[j] == Marker(rk.ntimes) ensures rk.ntimes < t.ranks[j].Wrote() {
      WroteGrows(s, ReadByte(r), j);
      if j == n {
        FreshMark(s, r, n);
      }
    }
  }

  /** A full count means that everybody has marked. */
  lemma CountEvidence(s: State, a: Action, buf: seq<Byte>, q: nat)
    requires Inv(s) && Enabled(s, a) && (a.WriteMark? || a.Count?) && q < |s.ranks|
    requires var rk := s.ranks[a.r]; buf == if a.Count? then rk.phase.buf else rk.phase.buf[a.r := Marker(rk.ntimes)]
    requires LeadingMarkers(buf, Marker(s.ranks[a.r].ntimes)) == |s.ranks|
    ensures s.ranks[a.r].ntimes < Do(s, a).ranks[q].Wrote()
  {
    assert EvidenceOf(s, a.r);
    WroteGrows(s, a, q);
    LeadingMarkersAll(buf, Marker(s.ranks[a.r].ntimes));
    assert buf[q] == Marker(s.ranks[a.r].ntimes);
  }

  lemma StepOwnEvidence(s: State, a: Action)
    requires Inv(s) && Enabled(s, a)
    ensures EvidenceOf(Do(s, a), a.r)
  {
    match a {
      case ReadByte(r) => ReadEvidence(s, r);
      case WriteMark(r) =>
        var buf := s.ranks[r].phase.buf[r := Marker(s.ranks[r].ntimes)];
        if Do(s, a).ranks[r].phase.rst == |s.ranks| {
          forall q: nat | q < |s.ranks| ensures s.ranks[r].ntimes < Do(s, a).ranks[q].Wrote() {
            CountEvidence(s, a, buf, q);
          }
        }
      case Count(r) =>
        var buf := s.ranks[r].phase.buf;
        if Do(s, a).ranks[r].phase.rst == |s.ranks| {
          forall q: nat | q < |s.ranks| ensures s.ranks[r].ntimes < Do(s, a).ranks[q].Wrote() {
            CountEvidence(s, a, buf, q);
          }
        }
      case _ =>
    }
  }

  lemma OtherEvidence(s: State, a: Action, r: nat)
    requires Inv(s) && Enabled(s, a) && r < |s.ranks| && r != a.r
    ensures EvidenceOf(Do(s, a), r)
  {
    assert EvidenceOf(s, r);
    forall q: nat | q < |s.ranks| ensures s.ranks[q].Wrote() <= Do(s, a).ranks[q].Wrote() { WroteGrows(s, a, q); }
  }

  /** Every step keeps the invariant. */
  lemma StepInv(s: State, a: Action)
    requires Inv(s) && Enabled(s, a)
    ensures Inv(Do(s, a))
  {
    StepFiles(s, a);
    StepNoneAhead(s, a);
    forall r: nat | r < |Do(s, a).ranks| ensures EvidenceOf(Do(s, a), r) {
      if r == a.r {
        StepOwnEvidence(s, a);
      } else {
        OtherEvidence(s, a, r);
      }
    }
  }

  lemma {:induction false} RunInv(s: State, acts: seq<Action>)
    requires Inv(s) && ValidRun(s, acts)
    ensures Inv(Run(s, acts)) && |Run(s, acts).ranks| == |s.ranks|
    decreases |acts|
  {
    if acts != [] {
      StepInv(s, acts[0]);
      RunInv(Do(s, acts[0]), acts[1..]);
    }
  }

  /** Safety: after any run from empty files, a rank that has left its k-th barrier finds that
      every rank has entered its k-th barrier, and no two ranks are more than one barrier apart. */
  lemma Safety(n: nat, acts: seq<Action>)
    requires ValidRun(Init(n), acts)
    ensures var s := Run(Init(n), acts);
            |s.ranks| == n &&
            forall p: nat, q: nat :: p < n && q < n ==>
              s.ranks[p].ntimes <= s.ranks[q].Entered() &&
              s.ranks[p].ntimes <= s.ranks[q].ntimes + 1
  {
    InitInv(n);
    RunInv(Init(n), acts);
    var s := Run(Init(n), acts);
    assert NoneAhead(s);
  }

  // ---------------------------------------------------------------- progress

  ghost predicate Reaches(s: State, t: State) {
    exists acts :: ValidRun(s, acts) && Run(s, acts) == t
  }

  lemma {:induction false} RunConcat(s: State, a: seq<Action>, b: seq<Action>)
    requires ValidRun(s, a) && ValidRun(Run(s, a), b)
    ensures ValidRun(s, a + b) && Run(s, a + b) == Run(Run(s, a), b)
    decreases |a|
  {
    if a == [] {
      assert a + b == b;
    } else {
      RunConcat(Do(s, a[0]), a[1..], b);
      assert (a + b)[1..] == a[1..] + b;
    }
  }

  lemma ReachesTrans(s: State, t: State, u: State)
    requires Reaches(s, t) && Reaches(t, u)
    ensures Reaches(s, u)
  {
    var a :| ValidRun(s, a) && Run(s, a) == t;
    var b :| ValidRun(t, b) && Run(t, b) == u;
    RunConcat(s, a, b);
  }

  lemma RunOne(s: State, acts: seq<Action>)
    requires |acts| == 1 && Enabled(s, acts[0])
    ensures ValidRun(s, acts) && Run(s, acts) == Do(s, acts[0])
  {
    assert acts[1..] == [];
  }

  lemma ReachesStep(s: State, t: State, a: Action)
    requires Reaches(s, t) && Enabled(t, a)
    ensures Reaches(s, Do(t, a))
  {
    RunOne(t, [a]);
    ReachesTrans(s, t, Do(t, a));
  }

  lemma ReachesSelf(s: State)
    ensures Reaches(s, s)
  {
    assert ValidRun(s, []) && Run(s, []) == s;
  }

  /** Only rank `r` moved between `s` and `t`. */
  ghost predicate OnlyMoved(s: State, t: State, r: nat) {
    |t.ranks| == |s.ranks| && forall q: nat :: q < |s.ranks| && q != r ==> t.ranks[q] == s.ranks[q]
  }

  /** The buffer after the remaining bytes are read while nobody else moves. */
  ghost function Filled(file: seq<Byte>, buf: seq<Byte>, n: nat): (r: seq<Byte>)
    requires |buf| <= n
    ensures |r| == n && buf <= r
    ensures forall j :: |buf| <= j < n ==> r[j] == ByteAt(file, j)
    decreases n - |buf|
  {
    if |buf| == n then buf else Filled(file, buf + [ByteAt(file, |buf|)], n)
  }

  ghost function ReadOn(s: State, r: nat): State
    requires Shape(s) && r < |s.ranks| && s.ranks[r].phase.Reading? && |s.ranks[r].phase.buf| <= |s.ranks|
  {
    var rk := s.ranks[r];
    s.(ranks := s.ranks[r := rk.(phase := rk.phase.(buf :=
      Filled(s.files[rk.ntimes % 2], rk.phase.buf, |s.ranks|)))])
  }

  /** A rank in the middle of a read can finish it alone. */
  lemma {:induction false} FinishRead(s: State, r: nat)
    requires Inv(s) && r < |s.ranks| && s.ranks[r].phase.Reading?
    ensures |s.ranks[r].phase.buf| <= |s.ranks|
    ensures Reaches(s, ReadOn(s, r)) && Inv(ReadOn(s, r))
    decreases |s.ranks| - |s.ranks[r].phase.buf|
  {
    ReachesSelf(s);
    assert EvidenceOf(s, r);
    if |s.ranks[r].phase.buf| == |s.ranks| {
      assert ReadOn(s, r) == s;
    } else {
      var u := OneRead(s, r);
      FinishRead(u, r);
      assert ReadOn(u, r) == ReadOn(s, r);
      ReachesTrans(s, u, ReadOn(s, r));
    }
  }

  lemma OneRead(s: State, r: nat) returns (u: State)
    requires Inv(s) && Enabled(s, ReadByte(r))
    ensures Reaches(s, u) && Inv(u)
    ensures var buf := s.ranks[r].phase.buf;
            u == s.(ranks := s.ranks[r := s.ranks[r].(phase := s.ranks[r].phase.(buf :=
              buf + [ByteAt(s.files[s.ranks[r].ntimes % 2], |buf|)]))])
  {
    u := Do(s, ReadByte(r));
    StepInv(s, ReadByte(r));
    ReachesSelf(s);
    ReachesStep(s, s, ReadByte(r));
  }

  lemma MarkAfterRead(s: State, r: nat) returns (t: State)
    requires Inv(s) && r < |s.ranks| && s.ranks[r].phase.Reading? && s.ranks[r].phase.update
    ensures Reaches(s, t) && Inv(t) && OnlyMoved(s, t, r)
    ensures t.ranks[r].ntimes == s.ranks[r].ntimes && t.ranks[r].Wrote() == s.ranks[r].ntimes + 1
  {
    FinishRead(s, r);
    var v := ReadOn(s, r);
    t := Do(v, WriteMark(r));
    StepInv(v, WriteMark(r));
    ReachesStep(s, v, WriteMark(r));
  }

  /** A rank can always enter its next barrier and put its marker down without help. */
  lemma CanMark(s: State, r: nat) returns (t: State)
    requires Inv(s) && r < |s.ranks| && s.ranks[r].Wrote() == s.ranks[r].ntimes
    ensures Reaches(s, t) && Inv(t) && OnlyMoved(s, t, r)
    ensures t.ranks[r].ntimes == s.ranks[r].ntimes && t.ranks[r].Wrote() == s.ranks[r].ntimes + 1
  {
    if s.ranks[r].phase.Outside? {
      ReachesSelf(s);
      var u := Do(s, Enter(r));
      StepInv(s, Enter(r));
      ReachesStep(s, s, Enter(r));
      t := MarkAfterRead(u, r);
      ReachesTrans(s, u, t);
    } else {
      t := MarkAfterRead(s, r);
    }
  }

  /** Every rank has put its marker down for the barrier rank `r` is in. */
  ghost predicate AllMarked(s: State, r: nat)
    requires r < |s.ranks|
  {
    forall q: nat :: q < |s.ranks| ==> s.ranks[r].ntimes < s.ranks[q].Wrote()
  }

  /** The two-barrier window makes every marker of this barrier visible in its file. */
  lemma MarksVisible(s: State, r: nat, j: nat)
    requires Inv(s) && r < |s.ranks| && j < |s.ranks| && AllMarked(s, r)
    ensures ByteAt(s.files[s.ranks[r].ntimes % 2], j) == Marker(s.ranks[r].ntimes)
  {
    var k := s.ranks[r].ntimes;
    assert k < s.ranks[j].Wrote() <= s.ranks[j].ntimes + 1 <= s.ranks[r].Wrote() + 1;
    assert ByteAt(s.files[k % 2], j) == LastMark(s.ranks[j].Wrote(), k % 2);
    MarkOf(k, s.ranks[j].Wrote());
  }

  /** A rank whose count is full leaves. */
  lemma CountedLeaves(s: State, r: nat) returns (t: State)
    requires Inv(s) && r < |s.ranks| && s.ranks[r].phase == Counted(|s.ranks|)
    ensures Reaches(s, t) && Inv(t) && OnlyMoved(s, t, r)
    ensures t.ranks[r] == Rank(s.ranks[r].ntimes + 1, Outside)
  {
    t := Do(s, Leave(r));
    StepInv(s, Leave(r));
    ReachesSelf(s);
    ReachesStep(s, s, Leave(r));
  }

  /** A fresh read sees all markers. */
  lemma ReadSeesAll(s: State, r: nat) returns (v: State)
    requires Inv(s) && r < |s.ranks| && AllMarked(s, r)
    requires s.ranks[r].phase == Reading(false, [])
    ensures Reaches(s, v) && Inv(v) && OnlyMoved(s, v, r)
    ensures v.ranks[r] == Rank(s.ranks[r].ntimes, Counted(|s.ranks|))
  {
    FinishRead(s, r);
    var u := ReadOn(s, r);
    var buf, m := u.ranks[r].phase.buf, Marker(s.ranks[r].ntimes);
    forall j | 0 <= j < |buf| ensures buf[j] == m {
      MarksVisible(s, r, j);
    }
    LeadingMarkersAll(buf, m);
    ReachesStep(s, u, Count(r));
    StepInv(u, Count(r));
    v := Do(u, Count(r));
  }

  /** From a failed count, one fresh read sees all markers and lets the rank out. */
  lemma RetryLeaves(s: State, r: nat) returns (t: State)
    requires Inv(s) && r < |s.ranks| && AllMarked(s, r)
    requires s.ranks[r].phase.Counted?
    ensures Reaches(s, t) && Inv(t) && OnlyMoved(s, t, r)
    ensures t.ranks[r] == Rank(s.ranks[r].ntimes + 1, Outside)
  {
    if s.ranks[r].phase.rst == |s.ranks| {
      t := CountedLeaves(s, r);
    } else {
      var u := Retried(s, r);
      var v := ReadSeesAll(u, r);
      t := CountedLeaves(v, r);
      ReachesTrans(s, u, v);
      ReachesTrans(s, v, t);
    }
  }

  lemma Retried(s: State, r: nat) returns (u: State)
    requires Inv(s) && r < |s.ranks| && AllMarked(s, r) && Enabled(s, Retry(r))
    ensures Reaches(s, u) && Inv(u) && OnlyMoved(s, u, r) && AllMarked(u, r)
    ensures u.ranks[r] == Rank(s.ranks[r].ntimes, Reading(false, []))
  {
    u := Do(s, Retry(r));
    StepInv(s, Retry(r));
    ReachesSelf(s);
    ReachesStep(s, s, Retry(r));
    forall q: nat | q < |u.ranks| ensures u.ranks[r].ntimes < u.ranks[q].Wrote() { WroteGrows(s, Retry(r), q); }
  }

  /** Once everybody has marked a barrier, a rank inside it can leave without help. */
  lemma CanLeave(s: State, r: nat) returns (t: State)
    requires Inv(s) && r < |s.ranks| && AllMarked(s, r)
    ensures Reaches(s, t) && Inv(t) && OnlyMoved(s, t, r)
    ensures t.ranks[r] == Rank(s.ranks[r].ntimes + 1, Outside)
  {
    ReachesSelf(s);
    assert s.ranks[r].ntimes < s.ranks[r].Wrote();
    if s.ranks[r].phase.Counted? {
      t := RetryLeaves(s, r);
    } else {
      FinishRead(s, r);
      var u := ReadOn(s, r);
      var v := Do(u, Count(r));
      StepInv(u, Count(r));
      ReachesStep(s, u, Count(r));
      t := RetryLeaves(v, r);
      ReachesTrans(s, v, t);
    }
  }

  /** Every rank that is still in barrier `k` marks it, whatever the others do. */
  lemma MarkFrom(s: State, k: nat, r: nat) returns (t: State)
    requires Inv(s) && r <= |s.ranks|
    requires forall q: nat :: q < |s.ranks| ==> s.ranks[q].ntimes >= k
    requires forall q: nat :: q < r ==> s.ranks[q].Wrote() > k
    ensures Reaches(s, t) && Inv(t) && |t.ranks| == |s.ranks|
    ensures forall q: nat :: q < |s.ranks| ==> t.ranks[q].Wrote() > k && t.ranks[q].ntimes == s.ranks[q].ntimes
    decreases |s.ranks| - r
  {
    ReachesSelf(s);
    if r == |s.ranks| {
      t := s;
    } else if s.ranks[r].Wrote() > k {
      t := MarkFrom(s, k, r + 1);
    } else {
      var u := CanMark(s, r);
      t := MarkFrom(u, k, r + 1);
      ReachesTrans(s, u, t);
    }
  }

  lemma LeaveFrom(s: State, k: nat, r: nat) returns (t: State)
    requires Inv(s) && r <= |s.ranks|
    requires forall q: nat :: q < |s.ranks| ==> s.ranks[q].ntimes >= k && s.ranks[q].Wrote() > k
    requires forall q: nat :: q < r ==> s.ranks[q].ntimes > k
    ensures Reaches(s, t) && Inv(t) && |t.ranks| == |s.ranks|
    ensures forall q: nat :: q < |s.ranks| ==> t.ranks[q].ntimes > k
    decreases |s.ranks| - r
  {
    ReachesSelf(s);
    if r == |s.ranks| {
      t := s;
    } else if s.ranks[r].ntimes > k {
      t := LeaveFrom(s, k, r + 1);
    } else {
      var u := CanLeave(s, r);
      t := LeaveFrom(u, k, r + 1);
      ReachesTrans(s, u, t);
    }
  }

  /** Progress: from the state after any run, and for any barrier number `k`, the run can be
      continued so that every rank has left its barriers up to and including the k-th. */
  lemma {:induction false} Progress(n: nat, acts: seq<Action>, k: nat) returns (t: State)
    requires ValidRun(Init(n), acts)
    ensures Reaches(Run(Init(n), acts), t) && |t.ranks| == n
    ensures forall r: nat :: r < n ==> t.ranks[r].ntimes > k
  {
    InitInv(n);
    RunInv(Init(n), acts);
    t := ProgressFrom(Run(Init(n), acts), k);
  }

  lemma ProgressFrom(s: State, k: nat) returns (t: State)
    requires Inv(s)
    ensures Reaches(s, t) && Inv(t) && |t.ranks| == |s.ranks|
    ensures forall r: nat :: r < |s.ranks| ==> t.ranks[r].ntimes > k
  {
    ReachesSelf(s);
    var u := s;
    if k > 0 {
      u := ProgressFrom(s, k - 1);
    }
    var v := MarkFrom(u, k, 0);
    t := LeaveFrom(v, k, 0);
    ReachesTrans(s, u, v);
    ReachesTrans(s, v, t);
  }

  // ---------------------------------------------------------------- update and peek as calls

  class SharedFile {
    var bytes: seq<Byte>

    constructor ()
      ensures bytes == []
    {
      bytes := [];
    }
  }

  /** Clear the buffer, then read the file into it. */
  method ReadInto(file: SharedFile, buf: array<Byte>)
    modifies buf
    ensures buf[..] == Filled(file.bytes, [], buf.Length)
  {
    var i := 0;
    while i < buf.Length
      invariant 0 <= i <= buf.Length
      invariant forall j :: 0 <= j < i ==> buf[j] == ByteAt(file.bytes, j)
    {
      buf[i] := if i < |file.bytes| then file.bytes[i] else 0;
      i := i + 1;
    }
  }

  method Peek(file: SharedFile, buf: array<Byte>, marker: Byte) returns (rst: nat)
    modifies buf
    ensures buf[..] == Filled(file.bytes, [], buf.Length)
    ensures rst == LeadingMarkers(Filled(file.bytes, [], buf.Length), marker)
  {
    ReadInto(file, buf);
    rst := CountMarker(buf, buf.Length, marker);
  }

  method Update(file: SharedFile, buf: array<Byte>, off: nat, marker: Byte) returns (rst: nat)
    requires off < buf.Length
    modifies file, buf
    ensures file.bytes == WriteAt(old(file.bytes), off, marker)
    ensures rst == LeadingMarkers(Filled(old(file.bytes), [], buf.Length)[off := marker], marker)
  {
    ReadInto(file, buf);
    buf[off] := marker;
    file.bytes := WriteAt(file.bytes, off, buf[off]);
    rst := CountMarker(buf, buf.Length, marker);
  }

  /** The state after rank `r` has marked its next barrier in one undisturbed call. */
  ghost function Updated(s: State, r: nat): State
    requires Shape(s) && r < |s.ranks|
  {
    var k := s.ranks[r].ntimes;
    var f := s.files[k % 2];
    State(s.files[k % 2 := WriteAt(f, r, Marker(k))],
          s.ranks[r := Rank(k, Counted(LeadingMarkers(Filled(f, [], |s.ranks|)[r := Marker(k)], Marker(k))))])
  }

  lemma UpdatedByMark(s: State, r: nat)
    requires Shape(s) && r < |s.ranks| && s.ranks[r].phase.Outside?
    ensures Enabled(s, Enter(r)) && |s.ranks[r := s.ranks[r].(phase := Reading(true, []))]| == |s.ranks|
    ensures var v := ReadOn(Do(s, Enter(r)), r); Enabled(v, WriteMark(r)) && Do(v, WriteMark(r)) == Updated(s, r)
  {
    var v := ReadOn(Do(s, Enter(r)), r);
    assert v.ranks[r].phase.buf == Filled(s.files[s.ranks[r].ntimes % 2], [], |s.ranks|);
  }

  /** What `Update` does in one undisturbed call is a run of the rank's steps. */
  lemma UpdateIsRun(s: State, r: nat)
    requires Inv(s) && r < |s.ranks| && s.ranks[r].phase.Outside?
    ensures Reaches(s, Updated(s, r))
  {
    ReachesSelf(s);
    StepInv(s, Enter(r));
    ReachesStep(s, s, Enter(r));
    var u := Do(s, Enter(r));
    FinishRead(u, r);
    ReachesTrans(s, u, ReadOn(u, r));
    UpdatedByMark(s, r);
    ReachesStep(s, ReadOn(u, r), WriteMark(r));
  }
}
