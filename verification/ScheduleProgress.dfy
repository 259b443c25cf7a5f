/** Progress of one mapped model: phase states only move forward, the weight-skip branch is dead
    when each layer is loaded by one phase, and every model finishes within a bounded number of
    rounds of the simulation loop. */
module ScheduleProgress {
  import opened Numbers
  import opened Phases
  import opened PhaseSchedule
  import opened ScheduleInvariant
  import opened ScheduleRuns

  // ---------------------------------------------------------------- the measure

  /** State changes still ahead of one instance. */
  ghost function Left(s: Sched, i: nat, p: nat): nat {
    if Has(s, i, p) then 2 - At(s, i, p).state.Rank() else 0
  }

  /** State changes still ahead of the whole model. */
  ghost function StatesLeft(c: Config, s: Sched): nat {
    GridSum(LeftOf(s), c.numInputs, |c.phases|)
  }

  ghost function LeftOf(s: Sched): (nat, nat) -> nat {
    (i: nat, p: nat) => Left(s, i, p)
  }

  ghost predicate Advanced(s: Sched, s': Sched, i: nat, p: nat) {
    Has(s, i, p) && Has(s', i, p) && At(s, i, p).state != At(s', i, p).state
  }

  ghost predicate Quiet(s: Sched, s': Sched) {
    forall i: nat, p: nat | Has(s, i, p) :: !Advanced(s, s', i, p)
  }

  /** The state changes still ahead never increase, and drop exactly when some state changes. */
  lemma StatesLeftDrops(c: Config, s: Sched, s': Sched)
    requires Grows(c, s, s')
    ensures StatesLeft(c, s') <= StatesLeft(c, s)
    ensures StatesLeft(c, s') == StatesLeft(c, s) <==> Quiet(s, s')
  {
    var f, g := LeftOf(s), LeftOf(s');
    forall i: nat, p: nat
      ensures g(i, p) <= f(i, p)
      ensures Below(g, f, i, p) <==> Advanced(s, s', i, p)
    {
      SameInstances(c, s, s', i, p);
      if Has(s, i, p) { assert InstanceGrows(At(s, i, p), At(s', i, p)); }
    }
    GridSumOrder(g, f, c.numInputs, |c.phases|);
    forall i: nat, p: nat | Advanced(s, s', i, p) ensures i < c.numInputs && p < |c.phases| {
      assert Exists(c, i, p);
    }
  }

  // ---------------------------------------------------------------- weights are loaded once

  /** Each layer is loaded by one phase, and each weight phase loads something. */
  ghost predicate Exclusive(c: Config) {
    forall w: nat | w < |c.phases| && c.phases[w].WeightLoading? ::
      && c.phases[w].layers != []
      && forall v: nat, l | v < |c.phases| && c.phases[v].WeightLoading? && l in c.phases[w].layers && l in c.phases[v].layers :: v == w
  }

  ghost predicate LoadedBy(c: Config, s: Sched, l: nat, i: nat, w: nat) {
    IsComplete(s, i, w) && w < |c.phases| && c.phases[w].WeightLoading? && l in c.phases[w].layers
  }

  /** Whatever is loaded was loaded by a finished weight phase. */
  ghost predicate Accounted(c: Config, s: Sched) {
    forall l | l in s.loaded :: exists i: nat, w: nat :: LoadedBy(c, s, l, i, w)
  }

  /** Every recorded start time is the latest of what the phase waits for: none was stamped by
      the skip branch. */
  ghost predicate OnTime(c: Config, s: Sched)
    requires Shaped(c, s)
  {
    forall i: nat, p: nat | Has(s, i, p) && At(s, i, p).start != UNSET :: At(s, i, p).start == StartTime(c, s, i, p)
  }

  lemma ResidentLoader(c: Config, s: Sched, l: nat, w: nat)
    requires Shaped(c, s) && Exclusive(c) && Accounted(c, s) && c.stationary
    requires w < |c.phases| && c.phases[w].WeightLoading? && l in c.phases[w].layers && l in s.loaded
    ensures IsComplete(s, 0, w)
  {
    var j: nat, v: nat :| LoadedBy(c, s, l, j, v);
    assert v == w && Exists(c, j, v);
  }

  /** With resident weights, an unfinished weight phase still has something to load. */
  lemma NothingToSkip(c: Config, s: Sched, i: nat, w: nat)
    requires Shaped(c, s) && Exclusive(c) && Accounted(c, s) && c.stationary
    requires Has(s, i, w) && w < |c.phases| && c.phases[w].WeightLoading? && !IsComplete(s, i, w)
    ensures !AllLoaded(s, c.phases[w].layers)
  {
    var l := c.phases[w].layers[0];
    assert Exists(c, i, w) && i == 0;
    if l in s.loaded { ResidentLoader(c, s, l, w); }
  }

  lemma AccountedFrame(c: Config, s: Sched, s': Sched)
    requires Grows(c, s, s') && Accounted(c, s)
    requires forall l | l in s'.loaded && l !in s.loaded :: exists i: nat, w: nat :: LoadedBy(c, s', l, i, w)
    ensures Accounted(c, s')
  {
    forall l | l in s'.loaded ensures exists i: nat, w: nat :: LoadedBy(c, s', l, i, w) {
      if l in s.loaded {
        var i: nat, w: nat :| LoadedBy(c, s, l, i, w);
        CompleteStays(c, s, s', i, w);
        assert LoadedBy(c, s', l, i, w);
      }
    }
  }

  lemma OnTimeFrame(c: Config, s: Sched, s': Sched, now: real)
    requires Grows(c, s, s') && OnTime(c, s) && Invariant(c, s, now)
    requires forall i: nat, p: nat | Has(s, i, p) && At(s', i, p).start != At(s, i, p).start ::
               At(s', i, p).start == StartTime(c, s', i, p)
    ensures OnTime(c, s')
  {
    forall i: nat, p: nat | Has(s', i, p) && At(s', i, p).start != UNSET
      ensures At(s', i, p).start == StartTime(c, s', i, p)
    {
      SameInstances(c, s, s', i, p);
      if At(s', i, p).start == At(s, i, p).start {
        assert Exists(c, i, p) && InstanceOk(c, s, i, p, now);
        ClearedFrame(c, s, s', i, p);
      }
    }
  }

  /** A visit outside the skip branch starts a phase at its computed time, and loads weights only
      by finishing. */
  lemma VisitIsHonest(c: Config, s: Sched, i: nat, p: nat, now: real)
    requires i < |s.start| && p < |c.phases| && Has(s, i, p) && At(s, i, p).state != Complete
    requires c.phases[p].WeightLoading? && c.stationary ==> !AllLoaded(s, c.phases[p].layers)
    ensures var v := VisitPhase(c, s, i, p, now);
            && (v.inst.start == At(s, i, p).start || v.inst.start == StartTime(c, s, i, p))
            && (v.loads ==> v.inst.state == Complete)
  {
    hide StartTime, ScaleTraffic, HasTraffic;
  }

  lemma ScanInputHonest(c: Config, s: Sched, i: nat, now: real)
    requires WellFormed(c) && Exclusive(c) && Invariant(c, s, now) && i < c.numInputs
    requires Accounted(c, s) && OnTime(c, s)
    ensures Accounted(c, ScanInput(c, s, i, now)) && OnTime(c, ScanInput(c, s, i, now))
  {
    var s' := ScanInput(c, s, i, now);
    var cur := FindCurrent(c, s, i, 0);
    if Started(s, i, now) && cur.Found? {
      var p := cur.phase;
      var v := VisitPhase(c, s, i, p, now);
      ReadyIsCleared(c, s, i, p);
      VisitOk(c, s, i, p, now);
      if c.phases[p].WeightLoading? && c.stationary { NothingToSkip(c, s, i, p); }
      VisitIsHonest(c, s, i, p, now);
      assert s' == ApplyVisit(c, s, i, p, v);
      hide VisitPhase, ScanInput, FindCurrent;
      ReplacesHonest(c, s, s', i, p, v, now);
    }
  }

  lemma ReplacesHonest(c: Config, s: Sched, s': Sched, i: nat, p: nat, v: Visit, now: real)
    requires Invariant(c, s, now) && Accounted(c, s) && OnTime(c, s)
    requires Replaces(c, s, s', i, p, v.inst) && p < |c.phases| && s' == ApplyVisit(c, s, i, p, v)
    requires Cleared(c, s, i, p)
    requires v.inst.start == At(s, i, p).start || v.inst.start == StartTime(c, s, i, p)
    requires v.loads ==> v.inst.state == Complete
    ensures Accounted(c, s') && OnTime(c, s')
  {
    ReplacesGrows(c, s, s', i, p, v.inst);
    ClearedFrame(c, s, s', i, p);
    forall l | l in s'.loaded && l !in s.loaded ensures exists j: nat, w: nat :: LoadedBy(c, s', l, j, w) {
      assert LoadedBy(c, s', l, i, p);
    }
    AccountedFrame(c, s, s');
    OnTimeFrame(c, s, s', now);
  }

  lemma TimeRowOnTime(c: Config, s: Sched, i: nat, now: real)
    requires WellFormed(c) && Invariant(c, s, now) && i < c.numInputs && s.start[i] != UNSET && OnTime(c, s)
    ensures OnTime(c, TimeRow(c, s, i))
  {
    var s' := TimeRow(c, s, i);
    TimeRowShape(c, s, i);
    forall j: nat, p: nat | Has(s, j, p) && At(s', j, p).start != At(s, j, p).start
      ensures At(s', j, p).start == StartTime(c, s', j, p)
    {
      ReadyIsCleared(c, s, i, p);
      ClearedFrame(c, s, s', i, p);
    }
    OnTimeFrame(c, s, s', now);
  }

  lemma TimeInputHonest(c: Config, s: Sched, i: nat, now: real)
    requires WellFormed(c) && Invariant(c, s, now) && i < c.numInputs
    requires Accounted(c, s) && OnTime(c, s)
    ensures Accounted(c, TimeInput(c, s, i)) && OnTime(c, TimeInput(c, s, i))
  {
    TimeInputKeepsInvariant(c, s, i, now);
    var s1 := s.(start := s.start[i := InputStart(c, s, i)]);
    InputStartKeepsInvariant(c, s, i, now);
    OnTimeFrame(c, s, s1, now);
    AccountedFrame(c, s, s1);
    if s1.start[i] != UNSET {
      var s2 := TimeRow(c, s1, i);
      TimeRowKeepsInvariant(c, s1, i, now);
      TimeRowOnTime(c, s1, i, now);
      AccountedFrame(c, s1, s2);
      if AllComplete(s2, i) && s2.done[i] == UNSET {
        SetDoneKeepsInvariant(c, s2, i, now);
        OnTimeFrame(c, s2, TimeInput(c, s, i), now);
        AccountedFrame(c, s2, TimeInput(c, s, i));
      }
    }
  }

  // ---------------------------------------------------------------- how one instance moves

  /** Outside a network answer, a running phase keeps its start and latency, and a phase that
      begins keeps its latency and does not begin in the future; a known latency stays known. */
  ghost predicate InstanceMoves(x: Instance, y: Instance, now: real) {
    && (x.state == Running && y.state == Running ==> y.start == x.start && y.latency == x.latency)
    && (x.state == NotStarted && y.state == Running ==> y.start <= now && y.latency == x.latency)
    && (y.state == NotStarted ==> y.latency == x.latency)
    && (x.latency != 0.0 ==> y.latency != 0.0)
  }

  ghost predicate Moves(c: Config, s: Sched, s': Sched, now: real) {
    forall i: nat, p: nat | Has(s, i, p) ::
      && Has(s', i, p) && InstanceMoves(At(s, i, p), At(s', i, p), now)
      && (p < |c.phases| && c.phases[p].Compute? ==> At(s', i, p).latency == At(s, i, p).latency)
  }

  lemma MovesTransitive(c: Config, a: Sched, b: Sched, d: Sched, now: real)
    requires Grows(c, a, b) && Grows(c, b, d) && Moves(c, a, b, now) && Moves(c, b, d, now)
    ensures Moves(c, a, d, now)
  {
    forall i: nat, p: nat | Has(a, i, p)
      ensures Has(d, i, p) && InstanceMoves(At(a, i, p), At(d, i, p), now)
      ensures p < |c.phases| && c.phases[p].Compute? ==> At(d, i, p).latency == At(a, i, p).latency
    {
      assert Has(b, i, p) && InstanceMoves(At(a, i, p), At(b, i, p), now) && InstanceMoves(At(b, i, p), At(d, i, p), now);
      assert InstanceGrows(At(a, i, p), At(b, i, p)) && InstanceGrows(At(b, i, p), At(d, i, p));
    }
  }

  lemma VisitMoves(c: Config, s: Sched, i: nat, p: nat, now: real)
    requires i < |s.start| && p < |c.phases| && Has(s, i, p) && At(s, i, p).state != Complete
    requires StartTime(c, s, i, p) <= now
    requires c.phases[p].IsComm() && At(s, i, p).state == NotStarted ==> At(s, i, p).latency == 0.0
    ensures var v := VisitPhase(c, s, i, p, now);
            && InstanceMoves(At(s, i, p), v.inst, now)
            && (c.phases[p].Compute? ==> v.inst.latency == At(s, i, p).latency)
  {
    hide StartTime, ScaleTraffic, HasTraffic, AllLoaded;
  }

  lemma ScanInputMoves(c: Config, s: Sched, i: nat, now: real)
    requires WellFormed(c) && Invariant(c, s, now) && i < c.numInputs
    ensures Moves(c, s, ScanInput(c, s, i, now), now)
  {
    var s' := ScanInput(c, s, i, now);
    var cur := FindCurrent(c, s, i, 0);
    if Started(s, i, now) && cur.Found? {
      var p := cur.phase;
      var v := VisitPhase(c, s, i, p, now);
      ReadyIsCleared(c, s, i, p);
      VisitOk(c, s, i, p, now);
      StartTimeBounded(c, s, i, p, now);
      assert InstanceOk(c, s, i, p, now);
      VisitMoves(c, s, i, p, now);
      assert s' == ApplyVisit(c, s, i, p, v);
      hide VisitPhase, ScanInput, FindCurrent;
      ReplacesGrows(c, s, s', i, p, v.inst);
    }
  }

  lemma TimeInputMoves(c: Config, s: Sched, i: nat, now: real)
    requires WellFormed(c) && Invariant(c, s, now) && i < c.numInputs
    ensures Moves(c, s, TimeInput(c, s, i), now)
    ensures forall j: nat, p: nat | Has(s, j, p) :: !Advanced(s, TimeInput(c, s, i), j, p)
  {
    var s1 := s.(start := s.start[i := InputStart(c, s, i)]);
    assert forall j: nat, p: nat :: Has(s1, j, p) == Has(s, j, p);
    if s1.start[i] != UNSET {
      InputStartKeepsInvariant(c, s, i, now);
      TimeRowShape(c, s1, i);
      var s2 := TimeRow(c, s1, i);
      var s' := TimeInput(c, s, i);
      assert s'.inst == s2.inst;
      hide TimeInput, TimeRow;
      forall j: nat, p: nat | Has(s, j, p)
        ensures Has(s', j, p) && InstanceMoves(At(s, j, p), At(s', j, p), now)
        ensures At(s', j, p).latency == At(s, j, p).latency && !Advanced(s, s', j, p)
      {
        assert Has(s1, j, p) && Has(s2, j, p);
        assert InstanceOk(c, s1, j, p, now);
      }
    }
  }

  /** What a whole scan or timing pass adds to the invariant. */
  ghost predicate Honest(c: Config, s: Sched, s': Sched, now: real) {
    Shaped(c, s') && Accounted(c, s') && OnTime(c, s') && Moves(c, s, s', now)
  }

  lemma ScanOneMoreHonest(c: Config, s: Sched, m: Sched, i: nat, now: real)
    requires WellFormed(c) && Exclusive(c) && Invariant(c, m, now) && Grows(c, s, m) && i < c.numInputs
    requires Honest(c, s, m, now)
    ensures Honest(c, s, ScanInput(c, m, i, now), now)
  {
    hide ScanInput;
    ScanInputKeepsInvariant(c, m, i, now);
    ScanInputHonest(c, m, i, now);
    ScanInputMoves(c, m, i, now);
    MovesTransitive(c, s, m, ScanInput(c, m, i, now), now);
  }

  lemma {:induction false} ScanHonest(c: Config, s: Sched, n: nat, now: real)
    requires WellFormed(c) && Exclusive(c) && Invariant(c, s, now) && n <= c.numInputs
    requires Accounted(c, s) && OnTime(c, s)
    ensures Honest(c, s, ScanInputs(c, s, n, now), now)
    decreases n
  {
    hide ScanInput, Shaped, OrderInRange, Invariant, WellFormed, Exclusive, Accounted, OnTime, Honest, Grows;
    InvariantForm(c, s, now);
    if n == 0 {
      HonestAtFirst(c, s, now);
    } else {
      ScanHonest(c, s, n - 1, now);
      ScanKeepsInvariant(c, s, n - 1, now);
      ScanOneMoreHonest(c, s, ScanInputs(c, s, n - 1, now), n - 1, now);
    }
  }

  lemma HonestAtFirst(c: Config, s: Sched, now: real)
    requires Invariant(c, s, now) && Accounted(c, s) && OnTime(c, s)
    ensures Honest(c, s, s, now)
  {
  }

  lemma TimeOneMoreHonest(c: Config, s: Sched, m: Sched, i: nat, now: real)
    requires WellFormed(c) && Invariant(c, m, now) && Grows(c, s, m) && i < c.numInputs
    requires Honest(c, s, m, now)
    ensures Honest(c, s, TimeInput(c, m, i), now)
  {
    hide TimeInput;
    TimeInputKeepsInvariant(c, m, i, now);
    TimeInputHonest(c, m, i, now);
    TimeInputMoves(c, m, i, now);
    MovesTransitive(c, s, m, TimeInput(c, m, i), now);
  }

  lemma {:induction false} TimeInputsHonest(c: Config, s: Sched, n: nat, now: real)
    requires WellFormed(c) && Invariant(c, s, now) && n <= c.numInputs
    requires Accounted(c, s) && OnTime(c, s)
    ensures Honest(c, s, TimeInputs(c, s, n), now)
    decreases n
  {
    hide TimeInput, Shaped, OrderInRange, Invariant, WellFormed, Accounted, OnTime, Honest, Grows;
    InvariantForm(c, s, now);
    if n == 0 {
      HonestAtFirst(c, s, now);
    } else {
      TimeInputsHonest(c, s, n - 1, now);
      TimeInputsKeepInvariant(c, s, n - 1, now);
      TimeOneMoreHonest(c, s, TimeInputs(c, s, n - 1), n - 1, now);
    }
  }

  lemma TimeModelHonest(c: Config, s: Sched, now: real)
    requires WellFormed(c) && Invariant(c, s, now) && Accounted(c, s) && OnTime(c, s)
    ensures Honest(c, s, TimeModel(c, s), now)
  {
    TimeInputsHonest(c, s, c.numInputs, now);
    TimeInputsKeepInvariant(c, s, c.numInputs, now);
    var m := TimeInputs(c, s, c.numInputs);
    CloseModelKeepsInvariant(c, m, now);
    hide TimeInputs;
    AccountedFrame(c, m, CloseModel(m));
    OnTimeFrame(c, m, CloseModel(m), now);
    assert forall j: nat, p: nat :: Has(CloseModel(m), j, p) == Has(m, j, p);
  }

  lemma AnswerAllHonest(c: Config, s: Sched, answers: map<(nat, nat), real>, now: real)
    requires Invariant(c, s, now) && AnswersRunning(c, s, answers) && Accounted(c, s) && OnTime(c, s)
    ensures var s' := AnswerAll(s, answers, now); Shaped(c, s') && Accounted(c, s') && OnTime(c, s')
  {
    var s' := AnswerAll(s, answers, now);
    AnswerAllShape(c, s, answers, now);
    AccountedFrame(c, s, s');
    OnTimeFrame(c, s, s', now);
  }

  // ---------------------------------------------------------------- runs without a skip

  lemma NextHonest(c: Config, a: Snapshot, e: Event)
    requires WellFormed(c) && Exclusive(c) && Invariant(c, a.s, a.now) && Enabled(c, a, e)
    requires Accounted(c, a.s) && OnTime(c, a.s)
    ensures var b := Next(c, a, e); Shaped(c, b.s) && Accounted(c, b.s) && OnTime(c, b.s)
  {
    hide ScanInputs, TimeModel, AnswerAll;
    match e
    case Tick(time) =>
    case Scan => ScanHonest(c, a.s, c.numInputs, a.now);
    case Answers(latencies) => AnswerAllHonest(c, a.s, latencies, a.now);
    case Derive => TimeModelHonest(c, a.s, a.now);
  }

  lemma {:induction false} RunHonest(c: Config, a: Snapshot, events: seq<Event>)
    requires WellFormed(c) && Exclusive(c) && Invariant(c, a.s, a.now) && Legal(c, a, events)
    requires Accounted(c, a.s) && OnTime(c, a.s)
    ensures var b := After(c, a, events); Shaped(c, b.s) && Accounted(c, b.s) && OnTime(c, b.s)
    decreases |events|
  {
    hide Next;
    if events != [] {
      NextKeepsInvariant(c, a, events[0]);
      NextHonest(c, a, events[0]);
      RunHonest(c, Next(c, a, events[0]), events[1..]);
    }
  }

  /** When each layer is loaded by exactly one weight phase, the skip branch is never taken: every
      recorded start, of any phase in any reachable state, is the latest time the phase waits for. */
  lemma StartsAreExact(c: Config, begin: Snapshot, events: seq<Event>, b: Snapshot, i: nat, p: nat)
    requires Reached(c, begin, events, b) && Exclusive(c)
    requires Has(b.s, i, p) && At(b.s, i, p).start != UNSET
    ensures i < |b.s.start| && p < |c.phases| && IsLatest(c, b.s, i, p, At(b.s, i, p).start)
    ensures !Skipped(c, p, At(b.s, i, p)) || At(b.s, i, p).start == StartTime(c, b.s, i, p)
  {
    ReachedInvariant(c, begin, events, b);
    InitialInvariant(c, begin.s, begin.now);
    RunHonest(c, begin, events);
    assert Exists(c, i, p);
    StartTimeIsLatest(c, b.s, i, p);
  }
}
