/** Complete runs of the gate network: every run can be continued until every gate of the grid has fired. */
module GateRuns {
  import opened AxisRounds
  import opened Network
  import opened Optimizer
  import opened Wiring
  import opened GateNetwork

  ghost function GatesOfProc(dims: seq<nat>, c: Proc): nat {
    if InGrid(dims, c) && Buildable(StepArray(dims, c)) then |GateList(dims, c)| else 0
  }

  ghost function AllGates(dims: seq<nat>): set<GateRef> {
    set c, j | c in AllProcs(dims) && 0 <= j < GatesOfProc(dims, c) :: GateRef(c, j)
  }

  lemma GateInAll(dims: seq<nat>, g: GateRef)
    requires IsGate(dims, g)
    ensures g in AllGates(dims)
  {
    AllInGrid(dims, g.proc);
  }

  lemma RunGoesOn<T>(dims: seq<nat>, op: (T, T) -> T, f: Proc -> T, run: seq<(GateRef, T)>, st: Fired<T>, g: GateRef,
                     v: T)
    requires IsRun(dims, op, f, run, st) && CanFire(dims, st, g) && FiresWith(dims, op, f, st, g, v)
    ensures IsRun(dims, op, f, run + [(g, v)], st[g := v])
  {
    var more, now := run + [(g, v)], st[g := v];
    assert now - {g} == st;
    assert more[..|more| - 1] == run && more[|more| - 1] == (g, v);
  }

  lemma FewerLeft<T>(dims: seq<nat>, st: Fired<T>, g: GateRef, v: T)
    requires IsGate(dims, g) && g !in st
    ensures |AllGates(dims) - st[g := v].Keys| < |AllGates(dims) - st.Keys|
  {
    GateInAll(dims, g);
    var before, after := AllGates(dims) - st.Keys, AllGates(dims) - st[g := v].Keys;
    assert g in before && before == after + {g} && g !in after;
  }

  lemma OneMore<T>(dims: seq<nat>, op: (T, T) -> T, f: Proc -> T, run: seq<(GateRef, T)>, st: Fired<T>, g: GateRef)
    returns (more: seq<(GateRef, T)>, now: Fired<T>)
    requires HasNetwork(dims) && IsRun(dims, op, f, run, st) && IsGate(dims, g) && g !in st
    ensures IsRun(dims, op, f, more, now) && run <= more
    ensures |AllGates(dims) - now.Keys| < |AllGates(dims) - st.Keys|
  {
    var h := SomeGateCanFire(dims, st, g);
    var v := Combined(op, f(h.proc), Input(st, LocalSource(dims, h)), Input(st, RemoteSource(dims, h)));
    RunGoesOn(dims, op, f, run, st, h, v);
    FewerLeft(dims, st, h, v);
    more, now := run + [(h, v)], st[h := v];
  }

  /** Every run can be continued until every gate has fired; no gate fires twice, since a gate that has
      fired cannot fire again. */
  lemma {:induction false} EveryGateFires<T>(dims: seq<nat>, op: (T, T) -> T, f: Proc -> T, run: seq<(GateRef, T)>,
                                             st: Fired<T>)
    returns (all: seq<(GateRef, T)>, end: Fired<T>)
    requires HasNetwork(dims) && IsRun(dims, op, f, run, st)
    ensures IsRun(dims, op, f, all, end) && run <= all && forall g :: IsGate(dims, g) ==> g in end
    decreases |AllGates(dims) - st.Keys|
  {
    if g :| IsGate(dims, g) && g !in st {
      var more, now := OneMore(dims, op, f, run, st, g);
      all, end := EveryGateFires(dims, op, f, more, now);
    } else {
      all, end := run, st;
    }
  }

  /** So the barrier completes: from the start there is a run in which the end gate of every process fires
      with the reduction over the whole grid. */
  lemma BarrierCompletes<T(!new)>(dims: seq<nat>, op: (T, T) -> T, f: Proc -> T)
    returns (run: seq<(GateRef, T)>, end: Fired<T>)
    requires HasNetwork(dims) && AC(op)
    ensures IsRun(dims, op, f, run, end)
    ensures forall c :: InGrid(dims, c) ==> Completes(dims, op, f, end, c)
  {
    run, end := EveryGateFires(dims, op, f, [], map[]);
    forall c | InGrid(dims, c) ensures Completes(dims, op, f, end, c) {
      ArrayBuildable(dims, c);
      ListEnds(StepArray(dims, c));
      assert IsGate(dims, EndGate(dims, c));
      EndDelivers(dims, op, f, run, end, c);
    }
  }

  /** The end gate of process `c` has fired with the reduction over the whole grid. */
  ghost predicate Completes<T>(dims: seq<nat>, op: (T, T) -> T, f: Proc -> T, end: Fired<T>, c: Proc)
    requires InGrid(dims, c)
  {
    Buildable(StepArray(dims, c)) && |GateList(dims, c)| >= 1 && EndGate(dims, c) in end &&
    end[EndGate(dims, c)] == GridReduce(dims, op, f, c, |dims|)
  }
}
