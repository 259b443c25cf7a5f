/** Completion times recorded before a phase is over: when the timing pass writes them, what they say,
    when they lie ahead of the clock, and when they are out of date. */
module SchedulePredictions {
  import opened Phases
  import opened PhaseSchedule
  import opened ScheduleInvariant
  import opened ScheduleRuns
  import opened ScheduleBuild

  // ---------------------------------------------------------------- one timing pass

  /** The start a timing pass over `s` leaves an input with: the one on record or, if there is none,
      the one the input before it calls for. */
  function PassStart(c: Config, s: Sched, i: nat): real
    requires Shaped(c, s) && i < c.numInputs
    decreases i, 0
  {
    if i == 0 || s.start[i] != UNSET then s.start[i]
    else if c.pipelined then
      match FirstLayerDone(c, s, i - 1, 0)
      case Some(v) => v
      case None => UNSET
    else if AllComplete(s, i - 1) then PassDone(c, s, i - 1)
    else UNSET
  }

  /** And the completion: the one on record or, once all its phases are over, that of the last. */
  function PassDone(c: Config, s: Sched, i: nat): real
    requires Shaped(c, s) && i < c.numInputs
    decreases i, 1
  {
    if s.done[i] == UNSET && AllComplete(s, i) && PassStart(c, s, i) != UNSET
    then LatestOf(s, i, c.order, |c.order|, UNSET) else s.done[i]
  }

  /** The state before the pass, with the input's start filled in. */
  function Begun(c: Config, s: Sched, i: nat): Sched
    requires Shaped(c, s) && i < c.numInputs
  {
    s.(start := s.start[i := PassStart(c, s, i)])
  }

  /** When the phase starts, as far as that is known. */
  function PassBegin(c: Config, s: Sched, i: nat, p: nat): real
    requires Shaped(c, s) && Has(s, i, p) && i < c.numInputs && p < |c.phases|
  {
    if At(s, i, p).start >= 0.0 then At(s, i, p).start else StartTime(c, Begun(c, s, i), i, p)
  }

  /** A timing pass over `s` writes a prediction for the phase: its input has a start, it may run, its
      latency is known and none was written before. */
  predicate Predicts(c: Config, s: Sched, i: nat, p: nat)
    requires Shaped(c, s) && Has(s, i, p) && i < c.numInputs && p < |c.phases|
  {
    var x := At(s, i, p);
    && x.state != Complete && PassStart(c, s, i) != UNSET && CheckDependencies(c, s, i, p) == Ready
    && x.latency > 0.0 && x.completion < 0.0
  }

  /** What a timing pass over `s` makes of an instance. */
  function PassInstance(c: Config, s: Sched, i: nat, p: nat): Instance
    requires Shaped(c, s) && Has(s, i, p) && i < c.numInputs && p < |c.phases|
  {
    if PassStart(c, s, i) == UNSET then At(s, i, p)
    else
      assert Has(Begun(c, s, i), i, p);
      TimePhase(c, Begun(c, s, i), i, p)
  }

  lemma SameReadiness(c: Config, s: Sched, s': Sched, i: nat, p: nat)
    requires Shaped(c, s) && Shaped(c, s') && p < |c.phases| && s'.loaded == s.loaded
    requires forall j: nat, q: nat | Has(s, j, q) :: Has(s', j, q) && At(s', j, q).state == At(s, j, q).state
    ensures CheckDependencies(c, s', i, p) == CheckDependencies(c, s, i, p)
  {
    forall j: nat, q: nat ensures Has(s, j, q) == Has(s', j, q) && IsComplete(s, j, q) == IsComplete(s', j, q) {
      SameInstances(c, s, s', j, q);
    }
  }

  /** The first `n` inputs have been timed, each as if against the state before the pass. */
  ghost predicate TimedTo(c: Config, s: Sched, t: Sched, n: nat) {
    && Shaped(c, s) && Shaped(c, t) && t.loaded == s.loaded
    && (forall j: nat | j < c.numInputs :: t.start[j] == if j < n then PassStart(c, s, j) else s.start[j])
    && (forall j: nat | j < c.numInputs :: t.done[j] == if j < n then PassDone(c, s, j) else s.done[j])
    && forall j: nat, q: nat | Has(s, j, q) && j < c.numInputs && q < |c.phases| ::
         Has(t, j, q) && At(t, j, q) == if j < n then PassInstance(c, s, j, q) else At(s, j, q)
  }

  /** Timing touches no state and nothing of a finished phase. */
  lemma PassInstanceKeeps(c: Config, s: Sched, i: nat, p: nat)
    requires Shaped(c, s) && Has(s, i, p) && i < c.numInputs && p < |c.phases|
    ensures PassInstance(c, s, i, p).state == At(s, i, p).state
    ensures IsComplete(s, i, p) ==> PassInstance(c, s, i, p) == At(s, i, p)
  {
    hide StartTime, CheckDependencies, PassStart;
  }

  /** So a state in which some inputs have been timed agrees with the one before on which phases are
      finished, and on when. */
  lemma TimedAgrees(c: Config, s: Sched, m: Sched, n: nat, i: nat, p: nat)
    requires TimedTo(c, s, m, n)
    ensures Has(s, i, p) <==> Has(m, i, p)
    ensures Has(s, i, p) ==> At(m, i, p).state == At(s, i, p).state
    ensures IsComplete(s, i, p) <==> IsComplete(m, i, p)
    ensures IsComplete(s, i, p) ==> At(m, i, p) == At(s, i, p)
  {
    SameInstances(c, s, m, i, p);
    if Has(s, i, p) {
      assert Exists(c, i, p);
      PassInstanceKeeps(c, s, i, p);
    }
    hide PassInstance;
  }

  lemma TimedComplete(c: Config, s: Sched, m: Sched, n: nat, i: nat)
    requires TimedTo(c, s, m, n) && i < c.numInputs
    ensures AllComplete(m, i) <==> AllComplete(s, i)
    ensures AllComplete(s, i) ==> forall p: nat | Has(s, i, p) :: Has(m, i, p) && At(m, i, p) == At(s, i, p)
  {
    hide TimedTo;
    TimedShaped(c, s, m, n);
    forall p: nat ensures (p in s.inst[i] <==> p in m.inst[i]) && (p in s.inst[i] ==> m.inst[i][p].state == s.inst[i][p].state) {
      TimedAgrees(c, s, m, n, i, p);
      assert (Has(s, i, p) <==> p in s.inst[i]) && (Has(m, i, p) <==> p in m.inst[i]);
    }
    if AllComplete(s, i) {
      forall p: nat | Has(s, i, p) ensures Has(m, i, p) && At(m, i, p) == At(s, i, p) {
        TimedAgrees(c, s, m, n, i, p);
        assert s.inst[i][p].state == Complete;
      }
    }
  }

  lemma TimedShaped(c: Config, s: Sched, m: Sched, n: nat)
    requires TimedTo(c, s, m, n)
    ensures Shaped(c, s) && Shaped(c, m) && m.loaded == s.loaded
  {
  }

  lemma {:induction false} FirstLayerAgrees(c: Config, s: Sched, m: Sched, n: nat, i: nat, layer: nat)
    requires TimedTo(c, s, m, n)
    ensures FirstLayerDone(c, m, i, layer) == FirstLayerDone(c, s, i, layer)
    decreases c.numLayers - layer
  {
    hide TimedTo;
    if layer < c.numLayers {
      if layer in c.computeOf { TimedAgrees(c, s, m, n, i, c.computeOf[layer]); }
      if layer in c.activationOf { TimedAgrees(c, s, m, n, i, c.activationOf[layer]); }
      FirstLayerAgrees(c, s, m, n, i, layer + 1);
    }
  }

  /** The next input gets the start that the state before the pass calls for. */
  lemma StartAgrees(c: Config, s: Sched, m: Sched, n: nat)
    requires TimedTo(c, s, m, n) && n < c.numInputs
    ensures Shaped(c, m) && InputStart(c, m, n) == PassStart(c, s, n)
  {
    assert m.start[n] == s.start[n];
    if n > 0 {
      assert m.done[n - 1] == PassDone(c, s, n - 1);
      TimedComplete(c, s, m, n, n - 1);
      FirstLayerAgrees(c, s, m, n, n - 1, 0);
    }
    hide TimedTo, PassDone, FirstLayerDone, AllComplete;
  }

  lemma {:induction false} LatestAgrees(s: Sched, m: Sched, i: nat, ids: seq<nat>, n: nat, floor: real)
    requires n <= |ids|
    requires forall p: nat | p in ids :: (Has(s, i, p) <==> Has(m, i, p)) && (Has(s, i, p) ==> At(m, i, p).completion == At(s, i, p).completion)
    ensures LatestOf(m, i, ids, n, floor) == LatestOf(s, i, ids, n, floor)
    decreases n
  {
    if n > 0 { LatestAgrees(s, m, i, ids, n - 1, floor); }
  }

  /** A phase that may run starts at the same time, whichever inputs before its own have been timed. */
  lemma StartTimeAgrees(c: Config, s: Sched, m: Sched, n: nat, p: nat)
    requires TimedTo(c, s, m, n) && n < c.numInputs && p < |c.phases| && PrevDone(c, s, n, p)
    ensures Shaped(c, m) && StartTime(c, m.(start := m.start[n := PassStart(c, s, n)]), n, p) == StartTime(c, Begun(c, s, n), n, p)
  {
    TimedShaped(c, s, m, n);
    var s1, m1 := Begun(c, s, n), m.(start := m.start[n := PassStart(c, s, n)]);
    forall q: nat ensures (Has(s1, n, q) <==> Has(m1, n, q)) && (Has(s1, n, q) ==> At(m1, n, q) == At(s1, n, q)) {
      RowUntouched(c, s, m, n, q);
    }
    if n > 0 { TimedAgrees(c, s, m, n, n - 1, p); }
    hide TimedTo, PassStart;
    LatestAgrees(s1, m1, n, c.phases[p].deps, |c.phases[p].deps|, s1.start[n]);
  }

  lemma RowUntouched(c: Config, s: Sched, m: Sched, n: nat, q: nat)
    requires TimedTo(c, s, m, n) && n < c.numInputs
    ensures (Has(s, n, q) <==> Has(m, n, q)) && (Has(s, n, q) ==> At(m, n, q) == At(s, n, q))
  {
    SameInstances(c, s, m, n, q);
    if Has(s, n, q) { assert Exists(c, n, q); }
  }

  /** The next input's phases are timed as against the state before the pass. */
  lemma PhaseAgrees(c: Config, s: Sched, m: Sched, n: nat, q: nat)
    requires TimedTo(c, s, m, n) && n < c.numInputs && Has(s, n, q) && q < |c.phases| && PassStart(c, s, n) != UNSET
    ensures Shaped(c, m) && Has(m.(start := m.start[n := PassStart(c, s, n)]), n, q)
    ensures TimePhase(c, m.(start := m.start[n := PassStart(c, s, n)]), n, q) == PassInstance(c, s, n, q)
  {
    hide TimedTo, PassStart, StartTime, PrevDone, WeightsUnguarded;
    TimedShaped(c, s, m, n);
    var s1, m1 := Begun(c, s, n), m.(start := m.start[n := PassStart(c, s, n)]);
    RowUntouched(c, s, m, n, q);
    forall j: nat, p: nat ensures (Has(s1, j, p) <==> Has(m1, j, p)) && (Has(s1, j, p) ==> At(m1, j, p).state == At(s1, j, p).state) {
      TimedAgrees(c, s, m, n, j, p);
    }
    BegunShaped(c, s, PassStart(c, s, n), n);
    BegunShaped(c, m, PassStart(c, s, n), n);
    SameReadiness(c, s1, m1, n, q);
    if CheckDependencies(c, s1, n, q) == Ready {
      assert PrevDone(c, s1, n, q);
      PrevSame(c, s, s1, n, q);
      StartTimeAgrees(c, s, m, n, q);
    }
  }

  lemma PrevSame(c: Config, s: Sched, s': Sched, n: nat, p: nat)
    requires s'.inst == s.inst && PrevDone(c, s', n, p)
    ensures PrevDone(c, s, n, p)
  {
  }

  lemma BegunShaped(c: Config, s: Sched, begin: real, i: nat)
    requires Shaped(c, s) && i < c.numInputs
    ensures Shaped(c, s.(start := s.start[i := begin]))
  {
    var s' := s.(start := s.start[i := begin]);
    assert forall j: nat, q: nat :: Has(s', j, q) == Has(s, j, q);
  }

  /** Timing one input: its start, its phases and its completion; nothing else changes. */
  lemma TimeInputIs(c: Config, s: Sched, i: nat)
    requires Shaped(c, s) && i < c.numInputs
    ensures var begin := InputStart(c, s, i); var s1, s' := s.(start := s.start[i := begin]), TimeInput(c, s, i);
            && s'.loaded == s.loaded && s'.start == s1.start && Shaped(c, s1)
            && (forall j: nat, q: nat | Has(s, j, q) && j != i :: Has(s', j, q) && At(s', j, q) == At(s, j, q))
            && (forall q: nat | Has(s, i, q) :: q < |c.phases| && Has(s1, i, q) && Has(s', i, q)
                  && At(s', i, q) == if begin == UNSET then At(s, i, q) else TimePhase(c, s1, i, q))
            && (forall j: nat | j < c.numInputs && j != i :: s'.done[j] == s.done[j])
            && s'.done[i] == if begin != UNSET && s.done[i] == UNSET && AllComplete(s, i)
                             then LatestOf(s, i, c.order, |c.order|, UNSET) else s.done[i]
  {
    hide InputStart, TimePhase;
    var begin := InputStart(c, s, i);
    var s1, s' := s.(start := s.start[i := begin]), TimeInput(c, s, i);
    BegunShaped(c, s, begin, i);
    forall j: nat, q: nat | Has(s, j, q) ensures j < c.numInputs && q < |c.phases| { assert Exists(c, j, q); }
    if begin != UNSET {
      TimeRowShape(c, s1, i);
      RowCompletes(c, s1, i);
      LatestAgrees(s, s1, i, c.order, |c.order|, UNSET);
    }
  }

  /** Timing a row finishes no phase, and leaves a finished row as it is. */
  lemma RowCompletes(c: Config, s: Sched, i: nat)
    requires Shaped(c, s) && i < c.numInputs
    ensures var t := TimeRow(c, s, i);
            && i < |t.inst| && (AllComplete(t, i) <==> AllComplete(s, i))
            && (AllComplete(s, i) ==> LatestOf(t, i, c.order, |c.order|, UNSET) == LatestOf(s, i, c.order, |c.order|, UNSET))
  {
    var t := TimeRow(c, s, i);
    forall p: nat | p in s.inst[i] ensures p in t.inst[i] && t.inst[i][p].state == s.inst[i][p].state && (s.inst[i][p].state == Complete ==> t.inst[i][p] == s.inst[i][p]) {
      assert Has(s, i, p) && Exists(c, i, p);
      TimePhaseStates(c, s, i, p);
    }
    assert t.inst[i].Keys == s.inst[i].Keys;
    hide TimeRow, TimePhase;
    if AllComplete(s, i) { LatestAgrees(s, t, i, c.order, |c.order|, UNSET); }
  }

  lemma TimePhaseStates(c: Config, s: Sched, i: nat, p: nat)
    requires i < |s.start| && p < |c.phases| && Has(s, i, p)
    ensures TimePhase(c, s, i, p).state == At(s, i, p).state
    ensures IsComplete(s, i, p) ==> TimePhase(c, s, i, p) == At(s, i, p)
  {
  }

  lemma TimedOneMore(c: Config, s: Sched, m: Sched, n: nat)
    requires TimedTo(c, s, m, n) && n < c.numInputs
    ensures TimedTo(c, s, TimeInput(c, m, n), n + 1)
  {
    hide TimeInput, PassStart, PassDone, PassInstance, InputStart, TimePhase, LatestOf, AllComplete;
    var t := TimeInput(c, m, n);
    TimeInputIs(c, m, n);
    StartAgrees(c, s, m, n);
    DoneAgrees(c, s, m, n);
    forall j: nat, q: nat | Has(s, j, q) && j < c.numInputs && q < |c.phases|
      ensures Has(t, j, q) && At(t, j, q) == if j < n + 1 then PassInstance(c, s, j, q) else At(s, j, q)
    {
      assert Has(m, j, q);
      if j == n {
        RowUntouched(c, s, m, n, q);
        if PassStart(c, s, n) != UNSET { PhaseAgrees(c, s, m, n, q); } else { NotBegun(c, s, n, q); }
      }
    }
  }

  lemma NotBegun(c: Config, s: Sched, i: nat, p: nat)
    requires Shaped(c, s) && Has(s, i, p) && i < c.numInputs && p < |c.phases| && PassStart(c, s, i) == UNSET
    ensures PassInstance(c, s, i, p) == At(s, i, p)
  {
  }

  lemma DoneAgrees(c: Config, s: Sched, m: Sched, n: nat)
    requires TimedTo(c, s, m, n) && n < c.numInputs
    ensures Shaped(c, m)
    ensures PassDone(c, s, n) == if PassStart(c, s, n) != UNSET && m.done[n] == UNSET && AllComplete(m, n)
                                 then LatestOf(m, n, c.order, |c.order|, UNSET) else m.done[n]
  {
    assert m.done[n] == s.done[n];
    TimedShaped(c, s, m, n);
    TimedComplete(c, s, m, n, n);
    hide TimedTo, PassStart, AllComplete;
    forall q: nat ensures (Has(s, n, q) <==> Has(m, n, q)) && (Has(s, n, q) ==> At(m, n, q) == At(s, n, q)) {
      RowUntouched(c, s, m, n, q);
    }
    LatestAgrees(s, m, n, c.order, |c.order|, UNSET);
  }

  lemma {:induction false} TimeInputsFill(c: Config, s: Sched, n: nat)
    requires Shaped(c, s) && n <= c.numInputs
    ensures TimedTo(c, s, TimeInputs(c, s, n), n)
    decreases n
  {
    hide TimeInput, TimedTo;
    if n > 0 {
      TimeInputsFill(c, s, n - 1);
      TimedOneMore(c, s, TimeInputs(c, s, n - 1), n - 1);
    } else {
      NothingTimed(c, s);
    }
  }

  lemma NothingTimed(c: Config, s: Sched)
    requires Shaped(c, s)
    ensures TimedTo(c, s, s, 0)
  {
  }

  /** A timing pass in place, input after input, amounts to timing every input and every phase against
      the state before the pass: no prediction written in the pass feeds another. */
  lemma PassIsLocal(c: Config, s: Sched, i: nat)
    requires Shaped(c, s) && c.numInputs > 0 && i < c.numInputs
    ensures var t := TimeModel(c, s);
            && Shaped(c, t) && t.start[i] == PassStart(c, s, i) && t.done[i] == PassDone(c, s, i)
            && forall p: nat | Has(s, i, p) :: p < |c.phases| && Has(t, i, p) && At(t, i, p) == PassInstance(c, s, i, p)
  {
    hide PassStart, PassDone, PassInstance;
    TimeInputsFill(c, s, c.numInputs);
    var m, t := TimeInputs(c, s, c.numInputs), TimeModel(c, s);
    assert t.inst == m.inst && t.start == m.start && t.done == m.done;
    hide TimeInputs, TimeModel;
    forall p: nat | Has(s, i, p) ensures p < |c.phases| && Has(t, i, p) && At(t, i, p) == PassInstance(c, s, i, p) {
      assert Exists(c, i, p) && Has(m, i, p);
    }
  }

  /** What that makes of an instance: it writes start plus latency for a phase of an input with a start
      that may run, whose latency is known and whose completion is not yet recorded, whether or not the
      phase has begun; every other recorded completion stays as it is. */
  lemma InstanceTimed(c: Config, s: Sched, i: nat, p: nat)
    requires Shaped(c, s) && Has(s, i, p) && i < c.numInputs && p < |c.phases|
    ensures var x, y := At(s, i, p), PassInstance(c, s, i, p);
            && y.state == x.state && y.latency == x.latency && (x.start >= 0.0 ==> y.start == x.start)
            && (Predicts(c, s, i, p) ==> y.start == PassBegin(c, s, i, p))
            && y.completion == if Predicts(c, s, i, p) then PassBegin(c, s, i, p) + x.latency else x.completion
    ensures At(s, i, p).start < 0.0 ==> PassStart(c, s, i) <= PassBegin(c, s, i, p)
  {
    hide PassStart, StartTime;
    BegunShaped(c, s, PassStart(c, s, i), i);
    SameReadiness(c, s, Begun(c, s, i), i, p);
    hide CheckDependencies;
    StartTimeIsLatest(c, Begun(c, s, i), i, p);
    assert WaitsFor(c, Begun(c, s, i), i, p, PassStart(c, s, i));
  }

  /** What a timing pass does, exactly, in terms of the state before it.  It leaves a completion ahead
      of the clock if and only if one was there, or a phase it predicts ends later. */
  lemma TimingPredicts(c: Config, s: Sched, i: nat, p: nat, now: real)
    requires Shaped(c, s) && c.numInputs > 0 && Has(s, i, p)
    ensures var t := TimeModel(c, s);
            && i < c.numInputs && p < |c.phases| && Has(t, i, p) && i < |t.start| && t.start[i] == PassStart(c, s, i)
            && var x, y := At(s, i, p), At(t, i, p);
               && y.state == x.state && y.latency == x.latency && (x.start >= 0.0 ==> y.start == x.start)
               && (Predicts(c, s, i, p) ==> y.start == PassBegin(c, s, i, p))
               && y.completion == (if Predicts(c, s, i, p) then PassBegin(c, s, i, p) + x.latency else x.completion)
               && (y.completion > now <==>
                     if Predicts(c, s, i, p) then now < PassBegin(c, s, i, p) + x.latency else x.completion > now)
               && (Predicts(c, s, i, p) && x.start < 0.0 ==> y.start >= t.start[i])
  {
    hide PassStart, PassInstance, TimeModel;
    InstanceExists(c, s, i, p);
    PassIsLocal(c, s, i);
    InstanceTimed(c, s, i, p);
  }

  // ---------------------------------------------------------------- from event to event

  /** While the phase is unfinished, a recorded completion and start are never revised, and a compute
      phase's latency never changes. */
  ghost predicate Keeps(compute: bool, x: Instance, y: Instance) {
    && (y.state != Complete ==> (x.completion >= 0.0 ==> y.completion == x.completion) && (x.start >= 0.0 ==> y.start == x.start))
    && (compute ==> y.latency == x.latency)
  }

  /** The event writes a prediction: only a timing pass does, and it writes start plus latency. */
  ghost predicate Records(e: Event, x: Instance, y: Instance) {
    y.state != Complete && x.completion < 0.0 && y.completion >= 0.0 ==>
      e.Derive? && 0.0 <= y.start && y.latency > 0.0 && y.completion == y.start + y.latency
  }

  lemma VisitKeeps(c: Config, s: Sched, i: nat, p: nat, now: real)
    requires Shaped(c, s) && Has(s, i, p) && i < c.numInputs && p < |c.phases| && At(s, i, p).state != Complete
    requires At(s, i, p).start >= 0.0 ==> At(s, i, p).start == StartTime(c, s, i, p)
    ensures var x, y := At(s, i, p), VisitPhase(c, s, i, p, now).inst;
            Keeps(c.phases[p].Compute?, x, y) && (y.state != Complete ==> y.completion == x.completion)
  {
    hide StartTime, ScaleTraffic, HasTraffic, AllLoaded;
  }

  lemma ScanInputKeeps(c: Config, s: Sched, n: nat, now: real, i: nat, p: nat)
    requires WellFormed(c) && Invariant(c, s, now) && n < c.numInputs && Has(s, i, p)
    ensures var s' := ScanInput(c, s, n, now);
            && p < |c.phases| && Has(s', i, p) && Keeps(c.phases[p].Compute?, At(s, i, p), At(s', i, p))
            && (At(s', i, p).state != Complete ==> At(s', i, p).completion == At(s, i, p).completion)
  {
    assert Exists(c, i, p);
    var s' := ScanInput(c, s, n, now);
    var cur := FindCurrent(c, s, n, 0);
    if Started(s, n, now) && cur.Found? {
      var q := cur.phase;
      var v := VisitPhase(c, s, n, q, now);
      assert InstanceOk(c, s, n, q, now);
      VisitReplaces(c, s, n, q, now);
      VisitKeeps(c, s, n, q, now);
      assert s' == ApplyVisit(c, s, n, q, v);
      hide VisitPhase, ScanInput, FindCurrent;
      ReplacesGrows(c, s, s', n, q, v.inst);
    }
  }

  /** What a scan does to an instance. */
  ghost predicate ScannedAs(compute: bool, x: Instance, y: Instance) {
    && Keeps(compute, x, y) && x.state.Rank() <= y.state.Rank()
    && (y.state != Complete ==> y.completion == x.completion)
  }

  lemma ScannedTwice(compute: bool, x: Instance, y: Instance, z: Instance)
    requires ScannedAs(compute, x, y) && ScannedAs(compute, y, z)
    ensures ScannedAs(compute, x, z)
  {
  }

  lemma ScanKeepsOne(c: Config, m: Sched, n: nat, now: real, i: nat, p: nat)
    requires WellFormed(c) && Invariant(c, m, now) && n < c.numInputs && Has(m, i, p)
    ensures var s' := ScanInput(c, m, n, now);
            p < |c.phases| && Has(s', i, p) && ScannedAs(c.phases[p].Compute?, At(m, i, p), At(s', i, p))
  {
    ScanInputKeepsInvariant(c, m, n, now);
    ScanInputKeeps(c, m, n, now, i, p);
    hide ScanInput;
    assert InstanceGrows(At(m, i, p), At(ScanInput(c, m, n, now), i, p));
  }

  lemma {:induction false} ScanKeeps(c: Config, s: Sched, n: nat, now: real, i: nat, p: nat)
    requires WellFormed(c) && Invariant(c, s, now) && n <= c.numInputs && Has(s, i, p)
    ensures var s' := ScanInputs(c, s, n, now);
            p < |c.phases| && Has(s', i, p) && ScannedAs(c.phases[p].Compute?, At(s, i, p), At(s', i, p))
    decreases n
  {
    hide ScanInput, Invariant, WellFormed, Shaped, OrderInRange, ScannedAs, Grows;
    InvariantForm(c, s, now);
    if n == 0 {
      InstanceExists(c, s, i, p);
      ScannedAlready(c.phases[p].Compute?, At(s, i, p));
    } else {
      ScanKeeps(c, s, n - 1, now, i, p);
      ScanKeepsInvariant(c, s, n - 1, now);
      var m := ScanInputs(c, s, n - 1, now);
      ScanKeepsOne(c, m, n - 1, now, i, p);
      ScannedTwice(c.phases[p].Compute?, At(s, i, p), At(m, i, p), At(ScanInput(c, m, n - 1, now), i, p));
    }
  }

  lemma InstanceExists(c: Config, s: Sched, i: nat, p: nat)
    requires Shaped(c, s) && Has(s, i, p)
    ensures i < c.numInputs && p < |c.phases|
  {
    assert Exists(c, i, p);
  }

  lemma ScannedAlready(compute: bool, x: Instance)
    ensures ScannedAs(compute, x, x)
  {
  }

  /** No event revises a prediction, and only a timing pass writes one. */
  lemma EventKeeps(c: Config, a: Snapshot, e: Event, i: nat, p: nat)
    requires WellFormed(c) && Invariant(c, a.s, a.now) && Enabled(c, a, e) && Has(a.s, i, p)
    ensures var b := Next(c, a, e);
            && p < |c.phases| && Has(b.s, i, p)
            && Keeps(c.phases[p].Compute?, At(a.s, i, p), At(b.s, i, p)) && Records(e, At(a.s, i, p), At(b.s, i, p))
            && (At(a.s, i, p).state == Complete ==> At(b.s, i, p) == At(a.s, i, p))
  {
    assert Exists(c, i, p);
    NextKeepsInvariant(c, a, e);
    assert InstanceGrows(At(a.s, i, p), At(Next(c, a, e).s, i, p));
    match e
    case Tick(time) =>
    case Scan => ScanKeeps(c, a.s, c.numInputs, a.now, i, p); hide ScanInputs;
    case Answers(latencies) => AnswerAllShape(c, a.s, latencies, a.now); hide AnswerAll;
    case Derive =>
      TimingPredicts(c, a.s, i, p, a.now);
      assert InputOk(c, TimeModel(c, a.s), i, a.now);
      hide TimeModel, CheckDependencies;
  }

  // ---------------------------------------------------------------- over whole runs

  /** Over any run, a phase that is still unfinished has kept its prediction and its start. */
  lemma {:induction false} RunKeeps(c: Config, a: Snapshot, events: seq<Event>, i: nat, p: nat)
    requires WellFormed(c) && Invariant(c, a.s, a.now) && Legal(c, a, events) && Has(a.s, i, p)
    ensures var b := After(c, a, events);
            && p < |c.phases| && Has(b.s, i, p) && Keeps(c.phases[p].Compute?, At(a.s, i, p), At(b.s, i, p))
            && At(a.s, i, p).state.Rank() <= At(b.s, i, p).state.Rank()
    decreases |events|
  {
    assert Exists(c, i, p);
    RunKeepsInvariant(c, a, events);
    hide Next;
    if events != [] {
      NextKeepsInvariant(c, a, events[0]);
      EventKeeps(c, a, events[0], i, p);
      RunKeeps(c, Next(c, a, events[0]), events[1..], i, p);
    }
  }

  /** Over any run, a transfer that is still running with the same latency carries no more packets from
      any chiplet to any other than it did before. */
  lemma PacketsOnlyFall(c: Config, a: Snapshot, events: seq<Event>, i: nat, p: nat, src: nat, dst: nat)
    requires WellFormed(c) && Invariant(c, a.s, a.now) && Legal(c, a, events) && Has(a.s, i, p)
    requires p < |c.phases| && c.phases[p].IsComm() && At(a.s, i, p).state == Running
    ensures var b := After(c, a, events);
            && i < |a.s.start| && i < |b.s.start| && Has(b.s, i, p)
            && (At(b.s, i, p).state == Running && At(b.s, i, p).latency == At(a.s, i, p).latency ==>
                  var v, w := VisitPhase(c, a.s, i, p, a.now), VisitPhase(c, b.s, i, p, b.now);
                  && (w.reported ==> v.reported)
                  && (w.reported && Packets(w.inst.scaled, src, dst) > 0 ==>
                        Packets(w.inst.scaled, src, dst) <= Packets(v.inst.scaled, src, dst)))
  {
    hide Legal, After, WellFormed, Invariant, StartTime, VisitComm, Packets;
    RunKeepsInvariant(c, a, events);
    RunKeeps(c, a, events, i, p);
    var b := After(c, a, events);
    RunningStarted(c, a.s, i, p, a.now);
    GrownSizes(c, a.s, b.s, i, p);
    if At(b.s, i, p).state == Running && At(b.s, i, p).latency == At(a.s, i, p).latency {
      LaterVisitCarriesLess(At(a.s, i, p), At(b.s, i, p), TrafficOf(c.phases[p]), StartTime(c, a.s, i, p), StartTime(c, b.s, i, p), a.now, b.now, src, dst);
    }
  }

  lemma RunningStarted(c: Config, s: Sched, i: nat, p: nat, now: real)
    requires Invariant(c, s, now) && Has(s, i, p) && At(s, i, p).state == Running
    ensures 0.0 <= At(s, i, p).start && i < |s.start|
  {
    assert Exists(c, i, p) && InstanceOk(c, s, i, p, now);
  }

  lemma GrownSizes(c: Config, s: Sched, s': Sched, i: nat, p: nat)
    requires Grows(c, s, s') && Has(s, i, p)
    ensures i < |s'.start| && s.loaded <= s'.loaded
  {
    assert Exists(c, i, p);
  }

  /** The first `k` events end with the timing pass that wrote the prediction which `y` carries. */
  ghost predicate WrittenAt(c: Config, a: Snapshot, events: seq<Event>, k: nat, i: nat, p: nat, y: Instance) {
    && 0 < k <= |events| && events[k - 1].Derive? && Legal(c, a, events[..k])
    && var x := After(c, a, events[..k]).s;
       Has(x, i, p) && At(x, i, p).latency > 0.0 && At(x, i, p).start == y.start
       && y.completion == At(x, i, p).completion == At(x, i, p).start + At(x, i, p).latency
  }

  /** Where a prediction that stands at the end of a run was written. */
  lemma {:induction false} WrittenOnce(c: Config, a: Snapshot, events: seq<Event>, i: nat, p: nat) returns (k: nat)
    requires WellFormed(c) && Invariant(c, a.s, a.now) && Legal(c, a, events) && Has(a.s, i, p) && At(a.s, i, p).completion < 0.0
    requires var b := After(c, a, events).s; Has(b, i, p) && At(b, i, p).state != Complete && At(b, i, p).completion >= 0.0
    ensures WrittenAt(c, a, events, k, i, p, At(After(c, a, events).s, i, p))
    decreases |events|
  {
    var n := Next(c, a, events[0]);
    NextKeepsInvariant(c, a, events[0]);
    EventKeeps(c, a, events[0], i, p);
    RunKeeps(c, n, events[1..], i, p);
    hide Next;
    if At(n.s, i, p).completion >= 0.0 {
      k := 1;
      assert events[..1] == [events[0]] && Legal(c, n, []) && After(c, n, []) == n;
      assert events[..1][1..] == [];
    } else {
      var j := WrittenOnce(c, n, events[1..], i, p);
      k := j + 1;
      assert events[..k][0] == events[0] && events[..k][1..] == events[1..][..j];
    }
  }

  /** In every reachable state, a completion recorded for an unfinished phase was written by a timing
      pass of the run, as start plus the latency known then, and has not been revised since, whatever
      the network answered later.  So it lies ahead of the clock if and only if that sum does, and it
      agrees with the latency now known if and only if that has not changed. */
  lemma PredictionIsFirst(c: Config, begin: Snapshot, events: seq<Event>, b: Snapshot, i: nat, p: nat) returns (k: nat)
    requires Reached(c, begin, events, b) && Has(b.s, i, p) && At(b.s, i, p).state != Complete && At(b.s, i, p).completion != UNSET
    ensures WrittenAt(c, begin, events, k, i, p, At(b.s, i, p))
    ensures var x := At(After(c, begin, events[..k]).s, i, p);
            && (At(b.s, i, p).completion > b.now <==> b.now < x.start + x.latency)
            && (At(b.s, i, p).completion == At(b.s, i, p).start + At(b.s, i, p).latency <==> At(b.s, i, p).latency == x.latency)
  {
    ReachedInvariant(c, begin, events, b);
    InitialInvariant(c, begin.s, begin.now);
    SameInstances(c, begin.s, b.s, i, p);
    assert InstanceOk(c, b.s, i, p, b.now);
    k := WrittenOnce(c, begin, events, i, p);
  }

  /** In every reachable state, a completion recorded for a compute phase, finished, running or not
      yet begun, is its start plus its latency; it lies ahead of the clock if and only if that moment
      has not come, and never once the phase is over. */
  lemma ComputePredictionExact(c: Config, begin: Snapshot, events: seq<Event>, b: Snapshot, i: nat, p: nat)
    requires Reached(c, begin, events, b) && Has(b.s, i, p) && At(b.s, i, p).completion != UNSET
    ensures p < |c.phases|
    ensures c.phases[p].Compute? ==>
              var y := At(b.s, i, p);
              && y.completion == y.start + y.latency
              && (y.completion > b.now <==> b.now < y.start + y.latency)
              && (y.completion > b.now ==> y.state != Complete)
  {
    ReachedInvariant(c, begin, events, b);
    InitialInvariant(c, begin.s, begin.now);
    SameInstances(c, begin.s, b.s, i, p);
    assert Exists(c, i, p) && InstanceOk(c, b.s, i, p, b.now);
    if At(b.s, i, p).state != Complete && c.phases[p].Compute? {
      var k := PredictionIsFirst(c, begin, events, b, i, p);
      RunKeeps(c, begin, events, i, p);
      RunKeeps(c, begin, events[..k], i, p);
    }
  }

  // ---------------------------------------------------------------- two runs

  lemma {:induction false} RunOn(c: Config, a: Snapshot, first: seq<Event>, more: seq<Event>)
    requires Legal(c, a, first) && Legal(c, After(c, a, first), more)
    ensures Legal(c, a, first + more) && After(c, a, first + more) == After(c, After(c, a, first), more)
    decreases |first|
  {
    if first == [] {
      assert first + more == more;
    } else {
      assert (first + more)[0] == first[0] && (first + more)[1..] == first[1..] + more;
      RunOn(c, Next(c, a, first[0]), first[1..], more);
    }
  }

  lemma OneEvent(c: Config, a: Snapshot, e: Event)
    requires Enabled(c, a, e)
    ensures Legal(c, a, [e]) && After(c, a, [e]) == Next(c, a, e)
  {
    assert [e][1..] == [];
    assert Legal(c, Next(c, a, e), []);
  }

  const FourPackets: Traffic := map[1 := map[2 := 4]]

  /** A model of one layer, as either loading strategy builds it, before traffic is attached. */
  function OneLayerBare(): Config {
    Config([Compute([1], 0), WeightLoading([], [0], map[])], [1, 0], 1, 1, false, true, map[0 := 0], map[], map[0 := 1])
  }

  /** Its weights need four packets from chiplet 1 to chiplet 2. */
  function OneLayer(): Config {
    OneLayerBare().(phases := [Compute([1], 0), WeightLoading([], [0], FourPackets)])
  }

  lemma OneLayerPhases(strategy: Strategy)
    ensures OneLayerBare().phases == BuiltPhases(strategy, 1) && DepGraph(OneLayerBare().phases) == [[1], []]
  {
    var b := OneLayerBare();
    assert Layers(1) == [0];
    assert BuiltPhase(strategy, 1, 0) == Compute([1], 0) by { assert [] + [1] == [1]; }
    assert BuiltPhase(strategy, 1, 1) == WeightLoading([], [0], map[]);
  }

  lemma OneLayerOrdered()
    ensures PhaseOrder.Permutation([[1], []], [1, 0]) && PhaseOrder.Ordered([[1], []], [1, 0])
  {
    assert [1, 0][..1] == [1] && [1, 0][..0] == [];
  }

  lemma OneLayerIsBuilt(strategy: Strategy)
    ensures IsBuilt(OneLayerBare(), strategy) && WellFormed(OneLayer())
    ensures OneLayer() == WithTraffic(OneLayerBare(), [map[], FourPackets])
  {
    var b := OneLayerBare();
    OneLayerPhases(strategy);
    OneLayerOrdered();
    hide PhaseOrder.Permutation, PhaseOrder.Ordered, BuiltPhases, DepGraph, WellFormed;
    BuiltIsWellFormed(b, strategy);
    TrafficKeepsForm(b, [map[], FourPackets]);
    assert OneLayer().phases == WithTraffic(b, [map[], FourPackets]).phases;
  }

  /** Mapped at time 0 with a compute latency of 3. */
  function OneLayerStart(): Snapshot {
    Snapshot(Sched([map[0 := FreshInstance.(latency := 3.0), 1 := FreshInstance]], [0.0], [UNSET], UNSET, {}), 0.0)
  }

  /** The weight transfer is under way since time 0, with the given latency and recorded completion. */
  ghost predicate Loading(a: Snapshot, latency: real, completion: real) {
    var c := OneLayer();
    && Invariant(c, a.s, a.now) && a.s.start[0] == 0.0 && Has(a.s, 0, 1)
    && var x := At(a.s, 0, 1);
       x.state == Running && x.start == 0.0 && x.latency == latency && x.completion == completion
  }

  lemma OneLayerShaped()
    ensures var c := OneLayer(); Shaped(c, OneLayerStart().s) && OrderInRange(c) && Initial(c, OneLayerStart().s, 0.0)
    ensures Has(OneLayerStart().s, 0, 0) && Has(OneLayerStart().s, 0, 1)
  {
    var c, s := OneLayer(), OneLayerStart().s;
    forall i: nat, p: nat ensures (Has(s, i, p) <==> Exists(c, i, p)) && (Has(s, i, p) ==> i == 0 && (p == 0 || p == 1)) {
      PlacesOfOneLayer(i, p);
    }
    assert forall i: nat, p: nat | Has(s, i, p) :: i == 0 && (p == 0 || p == 1);
    hide Has, Exists;
  }

  lemma PlacesOfOneLayer(i: nat, p: nat)
    ensures Has(OneLayerStart().s, i, p) <==> i == 0 && (p == 0 || p == 1)
    ensures Exists(OneLayer(), i, p) <==> i == 0 && (p == 0 || p == 1)
  {
  }

  lemma FirstScan()
    ensures var c, a := OneLayer(), OneLayerStart();
            Enabled(c, a, Scan) && Loading(Next(c, a, Scan), 0.0, UNSET) && Next(c, a, Scan).now == 0.0
  {
    var c, a := OneLayer(), OneLayerStart();
    hide ScanInput, InstanceOk, InputOk, ModelOk, WellFormed, Shaped, OrderInRange, Initial, IsBuilt, WithTraffic, Grows;
    OneLayerIsBuilt(AllAtOnce);
    OneLayerShaped();
    InitialInvariant(c, a.s, 0.0);
    hide Invariant;
    NextKeepsInvariant(c, a, Scan);
    FirstVisit();
    assert ScanInputs(c, a.s, 1, 0.0) == ScanInput(c, ScanInputs(c, a.s, 0, 0.0), 0, 0.0);
  }

  lemma FirstVisit()
    requires Shaped(OneLayer(), OneLayerStart().s) && OrderInRange(OneLayer())
    ensures var c, s := OneLayer(), OneLayerStart().s; var t := ScanInput(c, s, 0, 0.0);
            && ScanInputs(c, s, 0, 0.0) == s && t.start == s.start && Has(t, 0, 1) && At(t, 0, 1) ==
                 FreshInstance.(scaled := FourPackets, state := Running, start := 0.0, active := true)
  {
    var c, s := OneLayer(), OneLayerStart().s;
    assert CheckDependencies(c, s, 0, 1) == Ready;
    assert FindCurrent(c, s, 0, 0) == Found(1);
    assert StartTime(c, s, 0, 1) == 0.0;
    assert FourPackets[1][2] > 0;
    assert HasTraffic(FourPackets);
    assert !AllLoaded(s, [0]) by { assert 0 in [0]; }
    var v := VisitPhase(c, s, 0, 1, 0.0);
    assert v.inst == FreshInstance.(scaled := FourPackets, state := Running, start := 0.0, active := true);
    hide VisitPhase, FindCurrent, CheckDependencies;
    assert ScanInput(c, s, 0, 0.0) == ApplyVisit(c, s, 0, 1, v);
  }

  lemma OnlyLoading(s: Sched, answers: map<(nat, nat), real>)
    requires answers.Keys == {(0, 1)} && Has(s, 0, 1) && At(s, 0, 1).state == Running
    ensures AnswersRunning(OneLayer(), s, answers)
  {
    forall i: nat, p: nat | (i, p) in answers ensures i == 0 && p == 1 {
      assert (i, p) in answers.Keys;
    }
  }

  lemma OneLayerFacts()
    ensures var c := OneLayer(); WellFormed(c) && OrderInRange(c) && c.numInputs == 1 && |c.phases| == 2 && c.phases[1].WeightLoading?
  {
    OneLayerIsBuilt(AllAtOnce);
    hide WellFormed, IsBuilt, WithTraffic;
  }

  lemma LoadingFacts(a: Snapshot, latency: real, completion: real)
    requires Loading(a, latency, completion)
    ensures Invariant(OneLayer(), a.s, a.now) && Shaped(OneLayer(), a.s)
    ensures |a.s.start| == 1 && a.s.start[0] == 0.0 && Has(a.s, 0, 1)
    ensures At(a.s, 0, 1).state == Running && At(a.s, 0, 1).start == 0.0
    ensures At(a.s, 0, 1).latency == latency && At(a.s, 0, 1).completion == completion
  {
  }

  lemma StillLoading(a: Snapshot, latency: real, completion: real)
    requires Invariant(OneLayer(), a.s, a.now) && |a.s.start| == 1 && a.s.start[0] == 0.0 && Has(a.s, 0, 1)
    requires At(a.s, 0, 1).state == Running && At(a.s, 0, 1).start == 0.0
    requires At(a.s, 0, 1).latency == latency && At(a.s, 0, 1).completion == completion
    ensures Loading(a, latency, completion)
  {
  }

  lemma LoadingAnswer(a: Snapshot, answer: real, latency: real, completion: real)
    requires Loading(a, latency, completion) && 0.0 <= latency && 0.0 < answer
    ensures var c, e := OneLayer(), Answers(map[(0, 1) := answer]);
            Enabled(c, a, e) && Next(c, a, e).now == a.now
            && Loading(Next(c, a, e), if latency == 0.0 then answer else a.now + answer, completion)
  {
    hide AnswerAll, AnswersRunning, Invariant, WellFormed, Shaped, OneLayer, Grows, Loading, Has;
    var c, answers := OneLayer(), map[(0, 1) := answer];
    OneLayerFacts();
    LoadingFacts(a, latency, completion);
    OnlyLoading(a.s, answers);
    NextKeepsInvariant(c, a, Answers(answers));
    AnswerAllShape(c, a.s, answers, a.now);
    var b := Next(c, a, Answers(answers));
    AnswersKeepStart(c, a.s, b.s);
    assert (0, 1) in answers;
    StillLoading(b, if latency == 0.0 then answer else a.now + answer, completion);
  }

  lemma AnswersKeepStart(c: Config, s: Sched, s': Sched)
    requires Grows(c, s, s') && c.numInputs > 0 && s.start[0] != UNSET
    ensures |s'.start| == c.numInputs && s'.start[0] == s.start[0]
  {
  }

  lemma LoadingDerive(a: Snapshot, latency: real, completion: real)
    requires Loading(a, latency, completion) && 0.0 < latency
    ensures var c := OneLayer();
            Enabled(c, a, Derive) && Next(c, a, Derive).now == a.now
            && Loading(Next(c, a, Derive), latency, if completion < 0.0 then latency else completion)
  {
    hide TimeModel, Invariant, WellFormed, Shaped, OneLayer, Grows, Loading, Has, CheckDependencies;
    var c := OneLayer();
    OneLayerFacts();
    LoadingFacts(a, latency, completion);
    NothingAwaited(a.s);
    NextKeepsInvariant(c, a, Derive);
    TimingPredicts(c, a.s, 0, 1, a.now);
    var b := Next(c, a, Derive);
    AnswersKeepStart(c, a.s, b.s);
    StillLoading(b, latency, if completion < 0.0 then latency else completion);
  }

  lemma NothingAwaited(s: Sched)
    ensures CheckDependencies(OneLayer(), s, 0, 1) == Ready
  {
  }

  lemma LoadingTick(a: Snapshot, time: real, latency: real, completion: real)
    requires Loading(a, latency, completion) && a.now <= time
    ensures Enabled(OneLayer(), a, Tick(time)) && Next(OneLayer(), a, Tick(time)).now == time
    ensures Loading(Next(OneLayer(), a, Tick(time)), latency, completion)
  {
    TimePasses(OneLayer(), a.s, a.now, time);
  }

  /** A timing pass also records a predicted completion for a phase that is still running, and it may
      lie ahead of the clock: the weights arrive at 5, and at time 0 that is already recorded. */
  lemma PredictionsMayLieAhead() returns (events: seq<Event>, b: Snapshot)
    ensures forall strategy: Strategy :: IsBuilt(OneLayerBare(), strategy)
    ensures Reached(OneLayer(), OneLayerStart(), events, b) && Loading(b, 5.0, 5.0) && b.now == 0.0
  {
    var c, a := OneLayer(), OneLayerStart();
    forall strategy: Strategy ensures IsBuilt(OneLayerBare(), strategy) { OneLayerIsBuilt(strategy); }
    OneLayerIsBuilt(AllAtOnce);
    OneLayerShaped();
    hide Next, Loading, OneLayer, OneLayerBare, OneLayerStart;
    FirstScan();
    OneEvent(c, a, Scan);
    var a1 := Next(c, a, Scan);
    var answer := Answers(map[(0, 1) := 5.0]);
    LoadingAnswer(a1, 5.0, 0.0, UNSET);
    OneEvent(c, a1, answer);
    var a2 := Next(c, a1, answer);
    LoadingDerive(a2, 5.0, UNSET);
    OneEvent(c, a2, Derive);
    RunOn(c, a, [Scan], [answer]);
    RunOn(c, a, [Scan] + [answer], [Derive]);
    events := [Scan] + [answer] + [Derive];
    b := Next(c, a2, Derive);
    StartsAtZero();
  }

  lemma StartsAtZero()
    ensures OneLayerStart().now == 0.0
  {
  }

  /** And it may be out of date: re-timed at time 2 to last until 8, the transfer is still running at
      time 6 with a recorded completion of 5. */
  lemma PredictionsGoStale() returns (events: seq<Event>, b: Snapshot)
    ensures Reached(OneLayer(), OneLayerStart(), events, b) && Loading(b, 8.0, 5.0) && b.now == 6.0
  {
    var c, a := OneLayer(), OneLayerStart();
    var first, b0 := PredictionsMayLieAhead();
    hide Next, Loading, OneLayer, OneLayerBare, OneLayerStart;
    LoadingTick(b0, 2.0, 5.0, 5.0);
    OneEvent(c, b0, Tick(2.0));
    var b1 := Next(c, b0, Tick(2.0));
    var answer := Answers(map[(0, 1) := 6.0]);
    LoadingAnswer(b1, 6.0, 5.0, 5.0);
    OneEvent(c, b1, answer);
    var b2 := Next(c, b1, answer);
    LoadingDerive(b2, 8.0, 5.0);
    OneEvent(c, b2, Derive);
    var b3 := Next(c, b2, Derive);
    LoadingTick(b3, 6.0, 8.0, 5.0);
    OneEvent(c, b3, Tick(6.0));
    RunOn(c, a, first, [Tick(2.0)]);
    RunOn(c, a, first + [Tick(2.0)], [answer]);
    RunOn(c, a, first + [Tick(2.0)] + [answer], [Derive]);
    RunOn(c, a, first + [Tick(2.0)] + [answer] + [Derive], [Tick(6.0)]);
    events := first + [Tick(2.0)] + [answer] + [Derive] + [Tick(6.0)];
    b := Next(c, b3, Tick(6.0));
  }
}
