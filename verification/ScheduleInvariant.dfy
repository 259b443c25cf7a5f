/** What every operation on a mapped model's schedule keeps, and so what holds over whole runs. */
module ScheduleInvariant {
  import opened Numbers
  import opened Phases
  import opened PhaseSchedule

  // ---------------------------------------------------------------- well-formed configurations

  ghost predicate Topological(phases: seq<Phase>, order: seq<nat>) {
    && (forall k | 0 <= k < |order| :: order[k] < |phases|)
    && (forall p: nat | p < |phases| :: p in order)
    && (forall j, k | 0 <= j < k < |order| :: order[j] != order[k])
    && forall k, d | 0 <= k < |order| && d in phases[order[k]].deps :: d in order[..k]
  }

  /** A compute phase waits for the phase that loads its layer's weights. */
  ghost predicate WeightsGuarded(c: Config, p: nat)
    requires p < |c.phases|
  {
    c.phases[p].Compute? && c.phases[p].layer in c.weightOf ==>
      var w := c.weightOf[c.phases[p].layer];
      && w in c.phases[p].deps && w < |c.phases|
      && c.phases[w].WeightLoading? && c.phases[p].layer in c.phases[w].layers
  }

  ghost predicate FeedsCompute(c: Config, w: nat)
  {
    exists p: nat | p < |c.phases| :: c.phases[p].Compute? && w in c.phases[p].deps
  }

  ghost predicate WellFormed(c: Config) {
    && c.numInputs > 0 && c.numLayers > 0
    && Topological(c.phases, c.order)
    && (forall p: nat | p < |c.phases| :: WeightsGuarded(c, p))
    && (forall w: nat | w < |c.phases| && c.phases[w].WeightLoading? :: FeedsCompute(c, w))
    && FirstLayerPresent(c)
  }

  /** Layer 0 has a compute phase and, unless it is the only layer, an activation transfer. */
  ghost predicate FirstLayerPresent(c: Config) {
    && 0 in c.computeOf && c.computeOf[0] < |c.phases| && c.phases[c.computeOf[0]].Compute?
    && (0 in c.activationOf ==> c.activationOf[0] < |c.phases| && c.phases[c.activationOf[0]].ActivationComm?)
  }

  // ---------------------------------------------------------------- the invariant

  /** Everything phase `p` of input `i` waits for is over. */
  ghost predicate Cleared(c: Config, s: Sched, i: nat, p: nat)
    requires i < |s.start| && p < |c.phases|
  {
    s.start[i] != UNSET && DepsDone(s, i, c.phases[p].deps) && PrevDone(c, s, i, p)
  }

  /** The weight phase was found already satisfied and stamped with the current time. */
  ghost predicate Skipped(c: Config, p: nat, x: Instance)
    requires p < |c.phases|
  {
    c.phases[p].WeightLoading? && c.stationary && x.state == Complete && x.latency == 0.0 && x.start == x.completion
  }

  ghost predicate InstanceOk(c: Config, s: Sched, i: nat, p: nat, now: real)
    requires Shaped(c, s) && Has(s, i, p)
  {
    var x := At(s, i, p);
    // a start time is recorded only once the phase is cleared, and never ahead of the clock
    && (x.start == UNSET || (0.0 <= x.start <= now && Cleared(c, s, i, p)))
    && (x.state != NotStarted ==> x.start != UNSET)
    && (x.start != UNSET ==> StartTime(c, s, i, p) <= x.start)
    && (x.start != UNSET ==> x.start == StartTime(c, s, i, p) || Skipped(c, p, x))
    // completion
    && (x.state == Complete ==> x.completion == x.start + Max(x.latency, 0.0) && x.completion <= now)
    && (x.completion < 0.0 ==> x.completion == UNSET)
    // weights
    && (x.state == Complete && c.phases[p].WeightLoading? ==> AllLoaded(s, c.phases[p].layers))
    && (x.state != NotStarted && c.phases[p].Compute? && c.phases[p].layer in c.weightOf ==>
          c.phases[p].layer in s.loaded)
    // latencies
    && (c.phases[p].Compute? ==> 0.0 <= x.latency)
    && (c.phases[p].IsComm() && x.state == NotStarted ==> x.latency == 0.0)
  }

  ghost predicate InputOk(c: Config, s: Sched, i: nat, now: real)
    requires Shaped(c, s) && i < c.numInputs
  {
    && (s.start[i] == UNSET || 0.0 <= s.start[i] <= now)
    && (i == 0 ==> s.start[i] != UNSET)
    && (i > 0 && s.start[i] != UNSET ==> s.start[i - 1] != UNSET && s.start[i - 1] <= s.start[i])
    && (i > 0 && s.start[i] != UNSET && !c.pipelined ==>
          AllComplete(s, i - 1) && s.done[i - 1] != UNSET && s.start[i] == s.done[i - 1])
    && (s.done[i] != UNSET ==> DoneIsLast(s, i) && 0.0 <= s.done[i] <= now)
  }

  /** All phases of the input are over and the recorded time is that of the last one. */
  ghost predicate DoneIsLast(s: Sched, i: nat)
    requires i < |s.inst| && i < |s.done|
  {
    && AllComplete(s, i)
    && (forall p: nat | Has(s, i, p) :: At(s, i, p).completion <= s.done[i])
    && exists p: nat | Has(s, i, p) :: At(s, i, p).completion == s.done[i]
  }

  ghost predicate ModelOk(c: Config, s: Sched, now: real)
    requires Shaped(c, s)
  {
    s.modelDone != UNSET ==>
      && (forall i | 0 <= i < c.numInputs :: s.done[i] != UNSET && s.done[i] <= s.modelDone)
      && (exists i | 0 <= i < c.numInputs :: s.done[i] == s.modelDone)
  }

  ghost predicate Invariant(c: Config, s: Sched, now: real) {
    && Shaped(c, s)
    && (forall i: nat, p: nat | Has(s, i, p) :: InstanceOk(c, s, i, p, now))
    && (forall i: nat | i < c.numInputs :: InputOk(c, s, i, now))
    && ModelOk(c, s, now)
  }

  /** How a schedule may change: finished phases and recorded input times are final, phase states
      only move forward, loaded weights stay loaded. */
  ghost predicate Grows(c: Config, s: Sched, s': Sched) {
    && Shaped(c, s) && Shaped(c, s')
    && (forall i: nat, p: nat | Has(s, i, p) :: InstanceGrows(At(s, i, p), At(s', i, p)))
    && (forall i: nat | i < c.numInputs ::
          && (s.start[i] != UNSET ==> s'.start[i] == s.start[i])
          && (s.done[i] != UNSET ==> s'.done[i] == s.done[i]))
    && (s.modelDone != UNSET ==> s'.modelDone == s.modelDone)
    && s.loaded <= s'.loaded
  }

  ghost predicate InstanceGrows(x: Instance, y: Instance) {
    && x.state.Rank() <= y.state.Rank()
    && (x.state == Complete ==> y == x)
  }

  lemma GrowsReflexive(c: Config, s: Sched)
    requires Shaped(c, s)
    ensures Grows(c, s, s)
  {
  }

  lemma GrowsTransitive(c: Config, a: Sched, b: Sched, d: Sched)
    requires Grows(c, a, b) && Grows(c, b, d)
    ensures Grows(c, a, d)
  {
    forall i: nat, p: nat | Has(a, i, p) ensures InstanceGrows(At(a, i, p), At(d, i, p)) {
      assert Has(b, i, p);
      assert InstanceGrows(At(a, i, p), At(b, i, p)) && InstanceGrows(At(b, i, p), At(d, i, p));
    }
  }

  // ---------------------------------------------------------------- carrying facts across a change

  lemma {:induction false} LatestOfFrame(c: Config, s: Sched, s': Sched, i: nat, deps: seq<nat>, n: nat, floor: real)
    requires Grows(c, s, s') && n <= |deps| && DepsDone(s, i, deps)
    ensures LatestOf(s', i, deps, n, floor) == LatestOf(s, i, deps, n, floor)
    decreases n
  {
    if n > 0 {
      LatestOfFrame(c, s, s', i, deps, n - 1, floor);
      var d := deps[n - 1];
      assert d in deps;
      assert Has(s, i, d) == Has(s', i, d) by { assert Has(s, i, d) <==> Exists(c, i, d); }
      if Has(s, i, d) {
        assert IsComplete(s, i, d);
        assert InstanceGrows(At(s, i, d), At(s', i, d));
      }
    }
  }

  lemma CompleteStays(c: Config, s: Sched, s': Sched, i: nat, p: nat)
    requires Grows(c, s, s') && IsComplete(s, i, p)
    ensures IsComplete(s', i, p) && At(s', i, p) == At(s, i, p)
  {
    assert Has(s', i, p) by { assert Has(s, i, p) <==> Exists(c, i, p); }
    assert InstanceGrows(At(s, i, p), At(s', i, p));
  }

  lemma SameInstances(c: Config, s: Sched, s': Sched, i: nat, p: nat)
    requires Shaped(c, s) && Shaped(c, s')
    ensures Has(s, i, p) <==> Has(s', i, p)
  {
    assert Has(s, i, p) <==> Exists(c, i, p);
    assert Has(s', i, p) <==> Exists(c, i, p);
  }

  /** Once cleared, a phase stays cleared and its start time no longer moves. */
  lemma ClearedFrame(c: Config, s: Sched, s': Sched, i: nat, p: nat)
    requires Grows(c, s, s') && i < c.numInputs && p < |c.phases| && Cleared(c, s, i, p)
    ensures Cleared(c, s', i, p) && StartTime(c, s', i, p) == StartTime(c, s, i, p)
  {
    var deps := c.phases[p].deps;
    forall d | d in deps && Has(s', i, d) ensures IsComplete(s', i, d) {
      SameInstances(c, s, s', i, d);
      CompleteStays(c, s, s', i, d);
    }
    LatestOfFrame(c, s, s', i, deps, |deps|, s.start[i]);
    if c.pipelined && i > 0 {
      SameInstances(c, s, s', i - 1, p);
      if Has(s, i - 1, p) { CompleteStays(c, s, s', i - 1, p); }
    }
  }

  /** An instance that the change did not touch keeps everything the invariant says of it. */
  lemma InstanceFrame(c: Config, s: Sched, s': Sched, i: nat, p: nat, now: real, now': real)
    requires Grows(c, s, s') && now <= now' && Has(s, i, p) && InstanceOk(c, s, i, p, now)
    requires Has(s', i, p) && At(s', i, p) == At(s, i, p)
    ensures InstanceOk(c, s', i, p, now')
  {
    assert Exists(c, i, p);
    if At(s, i, p).start != UNSET { ClearedFrame(c, s, s', i, p); }
  }

  lemma AllCompleteFrame(c: Config, s: Sched, s': Sched, i: nat)
    requires Grows(c, s, s') && i < c.numInputs && AllComplete(s, i)
    ensures AllComplete(s', i) && s'.inst[i] == s.inst[i]
  {
    forall p: nat ensures p in s.inst[i] <==> p in s'.inst[i] {
      SameInstances(c, s, s', i, p);
      assert Has(s, i, p) <==> p in s.inst[i];
      assert Has(s', i, p) <==> p in s'.inst[i];
    }
    forall p: nat | p in s.inst[i] ensures s'.inst[i][p] == s.inst[i][p] {
      assert Has(s, i, p);
      CompleteStays(c, s, s', i, p);
    }
    assert s'.inst[i].Keys == s.inst[i].Keys;
  }

  /** An input whose times did not move keeps everything the invariant says of it. */
  lemma InputFrame(c: Config, s: Sched, s': Sched, i: nat, now: real, now': real)
    requires Grows(c, s, s') && now <= now' && i < c.numInputs && InputOk(c, s, i, now)
    requires s'.start[i] == s.start[i] && s'.done[i] == s.done[i]
    ensures InputOk(c, s', i, now')
  {
    if s.done[i] != UNSET {
      AllCompleteFrame(c, s, s', i);
      var p: nat :| Has(s, i, p) && At(s, i, p).completion == s.done[i];
      CompleteStays(c, s, s', i, p);
      forall q: nat | Has(s', i, q) ensures At(s', i, q).completion <= s'.done[i] {
        assert Has(s, i, q);
      }
    }
    if i > 0 && s.start[i] != UNSET && !c.pipelined {
      AllCompleteFrame(c, s, s', i - 1);
    }
  }

  lemma ModelFrame(c: Config, s: Sched, s': Sched, now: real, now': real)
    requires Grows(c, s, s') && ModelOk(c, s, now)
    requires s'.modelDone == s.modelDone
    ensures ModelOk(c, s', now')
  {
    if s.modelDone != UNSET {
      var i :| 0 <= i < c.numInputs && s.done[i] == s.modelDone;
      assert s'.done[i] == s.modelDone;
    }
  }

  // ---------------------------------------------------------------- a scan for active phases

  /** A cleared phase's start time lies between its input's start and the present. */
  lemma StartTimeBounded(c: Config, s: Sched, i: nat, p: nat, now: real)
    requires Invariant(c, s, now) && i < c.numInputs && p < |c.phases| && Cleared(c, s, i, p)
    ensures 0.0 <= s.start[i] <= StartTime(c, s, i, p) <= now
  {
    StartTimeIsLatest(c, s, i, p);
    assert InputOk(c, s, i, now);
    assert WaitsFor(c, s, i, p, s.start[i]);
    if d :| d in c.phases[p].deps && Has(s, i, d) && StartTime(c, s, i, p) == At(s, i, d).completion {
      assert IsComplete(s, i, d) && InstanceOk(c, s, i, d, now);
    } else if c.pipelined && i > 0 && Has(s, i - 1, p) {
      assert InstanceOk(c, s, i - 1, p, now);
    }
  }

  /** The input whose weight phase `w` serves input `i`: its own, or input 0's if it has none. */
  ghost function Loader(s: Sched, i: nat, w: nat): nat {
    if Has(s, i, w) then i else 0
  }

  /** Input `i`'s weights for the layer are loaded: the weight phase that serves it is over, and over
      by `time`. */
  ghost predicate Served(s: Sched, i: nat, w: nat, time: real) {
    IsComplete(s, Loader(s, i, w), w) && At(s, Loader(s, i, w), w).completion <= time
  }

  /** Whatever clears a compute phase has put its layer's weights in place, before the phase may
      start: its own weight phase where the input has one, otherwise, through the input before it and
      so on, that of input 0. */
  lemma {:induction false} WeightsInPlace(c: Config, s: Sched, i: nat, p: nat, now: real)
    requires WellFormed(c) && Invariant(c, s, now) && i < c.numInputs && p < |c.phases| && Cleared(c, s, i, p)
    requires c.phases[p].Compute? && c.phases[p].layer in c.weightOf
    ensures c.phases[p].layer in s.loaded
    ensures Served(s, i, c.weightOf[c.phases[p].layer], StartTime(c, s, i, p))
    decreases i
  {
    assert WeightsGuarded(c, p);
    var w := c.weightOf[c.phases[p].layer];
    StartTimeIsLatest(c, s, i, p);
    if Has(s, i, w) {
      assert IsComplete(s, i, w) && InstanceOk(c, s, i, w, now);
      assert WaitsFor(c, s, i, p, At(s, i, w).completion);
    } else {
      assert !Exists(c, i, w) && i > 0;
      assert Exists(c, i - 1, p) && Has(s, i - 1, p);
      PreviousIsOver(c, s, i, p, now);
      WeightsInPlace(c, s, i - 1, p, now);
      assert Loader(s, i - 1, w) == 0 == Loader(s, i, w);
    }
  }

  /** What clears a phase has also finished it for the input before, by the time it may start. */
  lemma PreviousIsOver(c: Config, s: Sched, i: nat, p: nat, now: real)
    requires Invariant(c, s, now) && 0 < i < c.numInputs && p < |c.phases| && Cleared(c, s, i, p) && Has(s, i - 1, p)
    ensures IsComplete(s, i - 1, p) && Cleared(c, s, i - 1, p)
    ensures At(s, i - 1, p).completion <= StartTime(c, s, i, p)
    ensures c.phases[p].Compute? ==> StartTime(c, s, i - 1, p) <= StartTime(c, s, i, p)
    ensures c.phases[p].Compute? && c.phases[p].layer in c.weightOf ==> c.phases[p].layer in s.loaded
  {
    assert InputOk(c, s, i, now);
    assert IsComplete(s, i - 1, p);
    assert InstanceOk(c, s, i - 1, p, now);
    StartTimeIsLatest(c, s, i, p);
    assert WaitsFor(c, s, i, p, s.start[i]);
    if c.pipelined {
      assert WaitsFor(c, s, i, p, At(s, i - 1, p).completion);
    } else {
      assert InputOk(c, s, i - 1, now);
    }
  }

  /** Replacing one unfinished instance by a later one, and possibly loading weights. */
  ghost predicate Replaces(c: Config, s: Sched, s': Sched, i: nat, p: nat, y: Instance) {
    && Shaped(c, s) && Shaped(c, s') && Has(s, i, p)
    && At(s, i, p).state != Complete && At(s, i, p).state.Rank() <= y.state.Rank()
    && s'.inst == Put(s, i, p, y).inst
    && s'.start == s.start && s'.done == s.done && s'.modelDone == s.modelDone
    && s.loaded <= s'.loaded
  }

  lemma ReplacesGrows(c: Config, s: Sched, s': Sched, i: nat, p: nat, y: Instance)
    requires Replaces(c, s, s', i, p, y)
    ensures Grows(c, s, s')
    ensures Has(s', i, p) && At(s', i, p) == y
    ensures forall j: nat, q: nat | Has(s, j, q) && !(j == i && q == p) :: Has(s', j, q) && At(s', j, q) == At(s, j, q)
  {
    forall j: nat, q: nat | Has(s, j, q)
      ensures Has(s', j, q) && InstanceGrows(At(s, j, q), At(s', j, q))
      ensures !(j == i && q == p) ==> At(s', j, q) == At(s, j, q)
    {
      SameInstances(c, s, s', j, q);
    }
    SameInstances(c, s, s', i, p);
  }

  lemma ReplacesKeepsInvariant(c: Config, s: Sched, s': Sched, i: nat, p: nat, y: Instance, now: real, now': real)
    requires Invariant(c, s, now) && now <= now'
    requires Replaces(c, s, s', i, p, y)
    requires Has(s', i, p) && InstanceOk(c, s', i, p, now')
    ensures Invariant(c, s', now') && Grows(c, s, s')
  {
    ReplacesGrows(c, s, s', i, p, y);
    forall j: nat, q: nat | Has(s', j, q) ensures InstanceOk(c, s', j, q, now') {
      SameInstances(c, s, s', j, q);
      if !(j == i && q == p) { InstanceFrame(c, s, s', j, q, now, now'); }
    }
    forall j: nat | j < c.numInputs ensures InputOk(c, s', j, now') {
      InputFrame(c, s, s', j, now, now');
    }
    ModelFrame(c, s, s', now, now');
  }

  lemma PutShaped(c: Config, s: Sched, i: nat, p: nat, y: Instance)
    requires Shaped(c, s) && Has(s, i, p)
    ensures Shaped(c, Put(s, i, p, y))
  {
    var s' := Put(s, i, p, y);
    forall j: nat, q: nat ensures Has(s', j, q) <==> Exists(c, j, q) {
      assert Has(s, j, q) <==> Exists(c, j, q);
    }
  }

  lemma VisitReplaces(c: Config, s: Sched, i: nat, p: nat, now: real)
    requires Shaped(c, s) && Has(s, i, p) && p < |c.phases| && At(s, i, p).state != Complete
    ensures var v := VisitPhase(c, s, i, p, now);
            Replaces(c, s, ApplyVisit(c, s, i, p, v), i, p, v.inst)
  {
    var v := VisitPhase(c, s, i, p, now);
    assert At(s, i, p).state.Rank() <= v.inst.state.Rank() by {
      hide StartTime, ScaleTraffic, HasTraffic, AllLoaded;
    }
    PutShaped(c, s, i, p, v.inst);
    hide VisitPhase;
    var s' := ApplyVisit(c, s, i, p, v);
    assert forall j: nat, q: nat :: Has(s', j, q) == Has(Put(s, i, p, v.inst), j, q);
  }

  /** The instance a visit leaves is one the invariant accepts, once the rest of the schedule is known
      to be as before. */
  lemma VisitedOk(c: Config, s: Sched, s': Sched, i: nat, p: nat, now: real)
    requires Shaped(c, s) && Shaped(c, s') && Has(s, i, p) && Has(s', i, p) && p < |c.phases|
    requires InstanceOk(c, s, i, p, now) && At(s, i, p).state != Complete && s' == ApplyVisit(c, s, i, p, VisitPhase(c, s, i, p, now))
    requires At(s', i, p) == VisitPhase(c, s, i, p, now).inst && Cleared(c, s', i, p)
    requires StartTime(c, s', i, p) == StartTime(c, s, i, p) && 0.0 <= StartTime(c, s, i, p) <= now
    requires c.phases[p].Compute? && c.phases[p].layer in c.weightOf ==> c.phases[p].layer in s.loaded
    ensures InstanceOk(c, s', i, p, now)
  {
    hide StartTime, ScaleTraffic, HasTraffic, Cleared, Shaped;
  }

  /** A visit to a phase that may run leaves an instance the invariant accepts. */
  lemma VisitOk(c: Config, s: Sched, i: nat, p: nat, now: real)
    requires WellFormed(c) && Invariant(c, s, now)
    requires Has(s, i, p) && p < |c.phases| && At(s, i, p).state != Complete && Cleared(c, s, i, p)
    ensures var v := VisitPhase(c, s, i, p, now);
            var s' := ApplyVisit(c, s, i, p, v);
            Replaces(c, s, s', i, p, v.inst) && Has(s', i, p) && InstanceOk(c, s', i, p, now)
  {
    var v := VisitPhase(c, s, i, p, now);
    var s' := ApplyVisit(c, s, i, p, v);
    hide VisitPhase, ApplyVisit, InstanceOk, WellFormed, Cleared, StartTime;
    VisitReplaces(c, s, i, p, now);
    assert InstanceOk(c, s, i, p, now);
    ReplacesGrows(c, s, s', i, p, v.inst);
    ClearedFrame(c, s, s', i, p);
    StartTimeBounded(c, s, i, p, now);
    if c.phases[p].Compute? && c.phases[p].layer in c.weightOf {
      WeightsInPlace(c, s, i, p, now);
    }
    hide Invariant, Replaces;
    VisitedOk(c, s, s', i, p, now);
  }

  lemma ReadyIsCleared(c: Config, s: Sched, i: nat, p: nat)
    requires i < |s.start| && s.start[i] != UNSET && p < |c.phases| && CheckDependencies(c, s, i, p) == Ready
    ensures Cleared(c, s, i, p)
  {
  }

  lemma ScanInputKeepsInvariant(c: Config, s: Sched, i: nat, now: real)
    requires WellFormed(c) && Invariant(c, s, now) && i < c.numInputs
    ensures Invariant(c, ScanInput(c, s, i, now), now) && Grows(c, s, ScanInput(c, s, i, now))
  {
    var cur := FindCurrent(c, s, i, 0);
    if Started(s, i, now) && cur.Found? {
      var p := cur.phase;
      var v := VisitPhase(c, s, i, p, now);
      ReadyIsCleared(c, s, i, p);
      VisitOk(c, s, i, p, now);
      ReplacesKeepsInvariant(c, s, ApplyVisit(c, s, i, p, v), i, p, v.inst, now, now);
    }
  }

  lemma ScanOneMore(c: Config, s: Sched, m: Sched, i: nat, now: real)
    requires WellFormed(c) && Invariant(c, m, now) && Grows(c, s, m) && i < c.numInputs
    ensures Invariant(c, ScanInput(c, m, i, now), now) && Grows(c, s, ScanInput(c, m, i, now))
  {
    hide ScanInput;
    ScanInputKeepsInvariant(c, m, i, now);
    GrowsTransitive(c, s, m, ScanInput(c, m, i, now));
  }

  lemma {:induction false} ScanKeepsInvariant(c: Config, s: Sched, n: nat, now: real)
    requires WellFormed(c) && Invariant(c, s, now) && n <= c.numInputs
    ensures Invariant(c, ScanInputs(c, s, n, now), now) && Grows(c, s, ScanInputs(c, s, n, now))
    decreases n
  {
    hide ScanInput;
    if n > 0 {
      ScanKeepsInvariant(c, s, n - 1, now);
      ScanOneMore(c, s, ScanInputs(c, s, n - 1, now), n - 1, now);
    }
  }

  // ---------------------------------------------------------------- re-timing a running transfer

  /** Every answered transfer is under way. */
  ghost predicate AnswersRunning(c: Config, s: Sched, answers: map<(nat, nat), real>) {
    forall i: nat, p: nat | (i, p) in answers ::
      Has(s, i, p) && p < |c.phases| && c.phases[p].IsComm() && At(s, i, p).state == Running
  }

  lemma AnswerAllShape(c: Config, s: Sched, answers: map<(nat, nat), real>, now: real)
    requires Shaped(c, s) && AnswersRunning(c, s, answers)
    ensures var s' := AnswerAll(s, answers, now);
            && Grows(c, s, s')
            && forall i: nat, p: nat | Has(s, i, p) ::
                 Has(s', i, p) && At(s', i, p) == if (i, p) in answers then Retime(At(s, i, p), answers[(i, p)], now) else At(s, i, p)
  {
    var s' := AnswerAll(s, answers, now);
    forall i: nat, p: nat ensures Has(s', i, p) <==> Has(s, i, p) {
      if i < |s.inst| { assert s'.inst[i] == AnswerRow(s.inst[i], i, answers, now); }
    }
    forall i: nat, p: nat | Has(s, i, p)
      ensures At(s', i, p) == if (i, p) in answers then Retime(At(s, i, p), answers[(i, p)], now) else At(s, i, p)
      ensures InstanceGrows(At(s, i, p), At(s', i, p))
    {
      assert s'.inst[i] == AnswerRow(s.inst[i], i, answers, now);
    }
  }

  lemma AnswerAllKeepsInvariant(c: Config, s: Sched, answers: map<(nat, nat), real>, now: real)
    requires WellFormed(c) && Invariant(c, s, now) && AnswersRunning(c, s, answers)
    ensures var s' := AnswerAll(s, answers, now); Invariant(c, s', now) && Grows(c, s, s')
  {
    var s' := AnswerAll(s, answers, now);
    AnswerAllShape(c, s, answers, now);
    hide AnswerAll;
    forall j: nat, q: nat | Has(s', j, q) ensures InstanceOk(c, s', j, q, now) {
      SameInstances(c, s, s', j, q);
      assert InstanceOk(c, s, j, q, now);
      if (j, q) in answers {
        ClearedFrame(c, s, s', j, q);
      } else {
        InstanceFrame(c, s, s', j, q, now, now);
      }
    }
    forall j: nat | j < c.numInputs ensures InputOk(c, s', j, now) {
      InputFrame(c, s, s', j, now, now);
    }
    ModelFrame(c, s, s', now, now);
  }

  /** The clock may move on. */
  lemma TimePasses(c: Config, s: Sched, now: real, later: real)
    requires Invariant(c, s, now) && now <= later
    ensures Invariant(c, s, later)
  {
    forall i: nat, p: nat | Has(s, i, p) ensures InstanceOk(c, s, i, p, later) {
      assert InstanceOk(c, s, i, p, now);
    }
    forall i: nat | i < c.numInputs ensures InputOk(c, s, i, later) {
      assert InputOk(c, s, i, now);
    }
  }

  // ---------------------------------------------------------------- deriving times

  lemma CompletionAfterStart(c: Config, s: Sched, i: nat, p: nat, now: real)
    requires Invariant(c, s, now) && IsComplete(s, i, p)
    ensures i < c.numInputs && s.start[i] != UNSET && 0.0 <= s.start[i] <= At(s, i, p).completion <= now
  {
    assert Exists(c, i, p) && InstanceOk(c, s, i, p, now);
    StartTimeBounded(c, s, i, p, now);
  }

  lemma {:induction false} FirstLayerDoneBounded(c: Config, s: Sched, i: nat, layer: nat, now: real)
    requires Invariant(c, s, now) && i < c.numInputs && FirstLayerDone(c, s, i, layer).Some?
    ensures s.start[i] != UNSET && 0.0 <= s.start[i] <= FirstLayerDone(c, s, i, layer).value <= now
    decreases c.numLayers - layer
  {
    if layer in c.computeOf && IsComplete(s, i, c.computeOf[layer])
       && (layer in c.activationOf ==> IsComplete(s, i, c.activationOf[layer])) {
      CompletionAfterStart(c, s, i, c.computeOf[layer], now);
      if layer in c.activationOf { CompletionAfterStart(c, s, i, c.activationOf[layer], now); }
    } else {
      FirstLayerDoneBounded(c, s, i, layer + 1, now);
    }
  }

  /** The schedule with other times for one input. */
  ghost function Restamped(s: Sched, i: nat, start: real, done: real): Sched
    requires i < |s.start| && i < |s.done|
  {
    s.(start := s.start[i := start], done := s.done[i := done])
  }

  /** Filling in an input's missing times is a change the schedule may go through. */
  lemma RestampGrows(c: Config, s: Sched, i: nat, start: real, done: real)
    requires Shaped(c, s) && i < c.numInputs
    requires (s.start[i] != UNSET ==> start == s.start[i]) && (s.done[i] != UNSET ==> done == s.done[i])
    ensures Grows(c, s, Restamped(s, i, start, done))
    ensures forall j: nat, q: nat | Has(s, j, q) :: Has(Restamped(s, i, start, done), j, q) && At(Restamped(s, i, start, done), j, q) == At(s, j, q)
  {
    var s' := Restamped(s, i, start, done);
    assert forall j: nat, q: nat :: Has(s', j, q) == Has(s, j, q);
  }

  /** It keeps the invariant when the new times are right for that input. */
  lemma RestampKeepsInvariant(c: Config, s: Sched, i: nat, start: real, done: real, now: real)
    requires Invariant(c, s, now) && i < c.numInputs
    requires (s.start[i] != UNSET ==> start == s.start[i]) && (s.done[i] != UNSET ==> done == s.done[i])
    requires Grows(c, s, Restamped(s, i, start, done)) ==> InputOk(c, Restamped(s, i, start, done), i, now)
    ensures Invariant(c, Restamped(s, i, start, done), now) && Grows(c, s, Restamped(s, i, start, done))
  {
    var s' := Restamped(s, i, start, done);
    RestampGrows(c, s, i, start, done);
    hide Grows, InstanceOk, InputOk, ModelOk;
    assert Shaped(c, s') by { GrowsShaped(c, s, s'); }
    forall j: nat, q: nat | Has(s', j, q) ensures InstanceOk(c, s', j, q, now) {
      SameInstances(c, s, s', j, q);
      InstanceFrame(c, s, s', j, q, now, now);
    }
    forall j: nat | j < c.numInputs ensures InputOk(c, s', j, now) {
      if j != i { InputFrame(c, s, s', j, now, now); }
    }
    ModelFrame(c, s, s', now, now);
  }

  lemma GrowsShaped(c: Config, s: Sched, s': Sched)
    requires Grows(c, s, s')
    ensures Shaped(c, s) && Shaped(c, s')
  {
  }

  /** The start time derived for an input is past, and no earlier than that of the input before it. */
  lemma InputStartBounded(c: Config, s: Sched, i: nat, now: real)
    requires Invariant(c, s, now) && 0 < i < c.numInputs && s.start[i] == UNSET && InputStart(c, s, i) != UNSET
    ensures s.start[i - 1] != UNSET && 0.0 <= s.start[i - 1] <= InputStart(c, s, i) <= now
    ensures !c.pipelined ==> AllComplete(s, i - 1) && s.done[i - 1] != UNSET && InputStart(c, s, i) == s.done[i - 1]
  {
    assert InputOk(c, s, i - 1, now);
    if c.pipelined {
      FirstLayerDoneBounded(c, s, i - 1, 0, now);
    } else {
      DoneMeansStarted(c, s, i - 1, now);
    }
  }

  lemma InputStartKeepsInvariant(c: Config, s: Sched, i: nat, now: real)
    requires WellFormed(c) && Invariant(c, s, now) && i < c.numInputs
    ensures var s' := s.(start := s.start[i := InputStart(c, s, i)]);
            Invariant(c, s', now) && Grows(c, s, s')
  {
    var v := InputStart(c, s, i);
    var s' := s.(start := s.start[i := v]);
    assert s' == Restamped(s, i, v, s.done[i]);
    RestampGrows(c, s, i, v, s.done[i]);
    assert InputOk(c, s, i, now);
    if i > 0 && s.start[i] == UNSET && v != UNSET { InputStartBounded(c, s, i, now); }
    SameRowDone(s, s', i);
    if i > 0 && AllComplete(s, i - 1) { AllCompleteFrame(c, s, s', i - 1); }
    hide InputStart, Grows, Invariant, DoneIsLast, AllComplete, WellFormed;
    RestampKeepsInvariant(c, s, i, v, s.done[i], now);
  }

  lemma SameRowDone(s: Sched, s': Sched, i: nat)
    requires i < |s.inst| && i < |s.done| && s'.inst == s.inst && s'.done == s.done
    ensures DoneIsLast(s, i) ==> DoneIsLast(s', i)
  {
    assert forall q: nat :: Has(s', i, q) == Has(s, i, q);
    if DoneIsLast(s, i) {
      var p: nat :| Has(s, i, p) && At(s, i, p).completion == s.done[i];
      assert Has(s', i, p) && At(s', i, p).completion == s'.done[i];
    }
  }

  lemma DoneMeansStarted(c: Config, s: Sched, i: nat, now: real)
    requires Invariant(c, s, now) && i < c.numInputs && s.done[i] != UNSET
    ensures s.start[i] != UNSET && s.start[i] <= s.done[i]
  {
    assert InputOk(c, s, i, now);
    var p: nat :| Has(s, i, p) && At(s, i, p).completion == s.done[i];
    CompletionAfterStart(c, s, i, p, now);
  }

  lemma TimePhaseGrows(c: Config, s: Sched, i: nat, p: nat)
    requires i < |s.start| && p < |c.phases| && Has(s, i, p)
    ensures InstanceGrows(At(s, i, p), TimePhase(c, s, i, p))
  {
  }

  lemma TimeRowShape(c: Config, s: Sched, i: nat)
    requires Shaped(c, s) && i < c.numInputs
    ensures var s' := TimeRow(c, s, i);
            && Grows(c, s, s')
            && (forall p: nat | Has(s, i, p) :: Has(s', i, p) && At(s', i, p) == TimePhase(c, s, i, p))
            && (forall j: nat, q: nat | Has(s, j, q) && j != i :: Has(s', j, q) && At(s', j, q) == At(s, j, q))
  {
    var s' := TimeRow(c, s, i);
    assert forall j: nat, q: nat :: Has(s', j, q) == Has(s, j, q);
    forall j: nat, q: nat | Has(s, j, q) ensures InstanceGrows(At(s, j, q), At(s', j, q)) {
      if j == i { TimePhaseGrows(c, s, i, q); }
    }
  }

  lemma TimeRowKeepsInvariant(c: Config, s: Sched, i: nat, now: real)
    requires WellFormed(c) && Invariant(c, s, now) && i < c.numInputs && s.start[i] != UNSET
    ensures var s' := TimeRow(c, s, i); Invariant(c, s', now) && Grows(c, s, s')
  {
    var s' := TimeRow(c, s, i);
    TimeRowShape(c, s, i);
    forall j: nat, q: nat | Has(s', j, q) ensures InstanceOk(c, s', j, q, now) {
      SameInstances(c, s, s', j, q);
      if j != i || At(s', j, q) == At(s, j, q) {
        InstanceFrame(c, s, s', j, q, now, now);
      } else {
        assert InstanceOk(c, s, i, q, now) && Cleared(c, s, i, q);
        StartTimeBounded(c, s, i, q, now);
        ClearedFrame(c, s, s', i, q);
      }
    }
    forall j: nat | j < c.numInputs ensures InputOk(c, s', j, now) {
      InputFrame(c, s, s', j, now, now);
    }
    ModelFrame(c, s, s', now, now);
  }

  /** The latest completion over the execution order is that of the input's last phase. */
  lemma LastCompletion(c: Config, s: Sched, i: nat, now: real)
    requires WellFormed(c) && Invariant(c, s, now) && i < c.numInputs && AllComplete(s, i)
    ensures var v := LatestOf(s, i, c.order, |c.order|, UNSET);
            && 0.0 <= v <= now
            && (forall p: nat | Has(s, i, p) :: At(s, i, p).completion <= v)
            && exists p: nat | Has(s, i, p) :: At(s, i, p).completion == v
  {
    var v := LatestOf(s, i, c.order, |c.order|, UNSET);
    LatestOfIsMax(s, i, c.order, |c.order|, UNSET);
    forall p: nat | Has(s, i, p) ensures 0.0 <= At(s, i, p).completion <= v && At(s, i, p).completion <= now {
      assert Exists(c, i, p) && p in c.order;
      var k :| 0 <= k < |c.order| && c.order[k] == p;
      assert InstanceOk(c, s, i, p, now);
      assert s.inst[i][p].state == Complete;
    }
    var p := c.computeOf[0];
    assert Exists(c, i, p) && Has(s, i, p);
  }

  lemma SetDoneKeepsInvariant(c: Config, s: Sched, i: nat, now: real)
    requires WellFormed(c) && Invariant(c, s, now) && i < c.numInputs
    requires AllComplete(s, i) && s.done[i] == UNSET
    ensures var s' := s.(done := s.done[i := LatestOf(s, i, c.order, |c.order|, UNSET)]);
            Invariant(c, s', now) && Grows(c, s, s')
  {
    var v := LatestOf(s, i, c.order, |c.order|, UNSET);
    var s' := s.(done := s.done[i := v]);
    assert s' == Restamped(s, i, s.start[i], v);
    SetDoneOk(c, s, i, now);
    hide LatestOf, Grows, Invariant, InputOk, WellFormed;
    RestampKeepsInvariant(c, s, i, s.start[i], v, now);
  }

  lemma SetDoneOk(c: Config, s: Sched, i: nat, now: real)
    requires WellFormed(c) && Invariant(c, s, now) && i < c.numInputs
    requires AllComplete(s, i) && s.done[i] == UNSET
    ensures var s' := s.(done := s.done[i := LatestOf(s, i, c.order, |c.order|, UNSET)]);
            Shaped(c, s') && InputOk(c, s', i, now)
  {
    hide LatestOf, WellFormed, AllComplete, DoneIsLast, Invariant;
    InputIsOk(c, s, i, now);
    var v := LatestOf(s, i, c.order, |c.order|, UNSET);
    var s' := s.(done := s.done[i := v]);
    assert s' == Restamped(s, i, s.start[i], v);
    RestampGrows(c, s, i, s.start[i], v);
    GrowsShaped(c, s, s');
    LastCompletion(c, s, i, now);
    hide Shaped, Grows;
    if i > 0 && AllComplete(s, i - 1) { AllCompleteFrame(c, s, s', i - 1); }
    SetDoneIsLast(s, s', i, v);
  }

  lemma InvariantForm(c: Config, s: Sched, now: real)
    requires WellFormed(c) && Invariant(c, s, now)
    ensures Shaped(c, s) && OrderInRange(c)
  {
  }

  lemma InputIsOk(c: Config, s: Sched, i: nat, now: real)
    requires Invariant(c, s, now) && i < c.numInputs
    ensures Shaped(c, s) && InputOk(c, s, i, now)
  {
  }

  lemma SetDoneIsLast(s: Sched, s': Sched, i: nat, v: real)
    requires i < |s.inst| && i < |s.done| && s'.inst == s.inst && s'.done == s.done[i := v] && AllComplete(s, i)
    requires forall p: nat | Has(s, i, p) :: At(s, i, p).completion <= v
    requires exists p: nat | Has(s, i, p) :: At(s, i, p).completion == v
    ensures DoneIsLast(s', i)
  {
    assert forall q: nat :: Has(s', i, q) == Has(s, i, q);
    var p: nat :| Has(s, i, p) && At(s, i, p).completion == v;
    assert Has(s', i, p) && At(s', i, p).completion == v;
  }

  lemma TimeInputKeepsInvariant(c: Config, s: Sched, i: nat, now: real)
    requires WellFormed(c) && Invariant(c, s, now) && i < c.numInputs
    ensures Invariant(c, TimeInput(c, s, i), now) && Grows(c, s, TimeInput(c, s, i))
  {
    var s1 := s.(start := s.start[i := InputStart(c, s, i)]);
    InputStartKeepsInvariant(c, s, i, now);
    if s1.start[i] != UNSET {
      var s2 := TimeRow(c, s1, i);
      TimeRowKeepsInvariant(c, s1, i, now);
      GrowsTransitive(c, s, s1, s2);
      if AllComplete(s2, i) && s2.done[i] == UNSET {
        SetDoneKeepsInvariant(c, s2, i, now);
        GrowsTransitive(c, s, s2, TimeInput(c, s, i));
      }
    }
  }

  lemma TimeOneMore(c: Config, s: Sched, m: Sched, i: nat, now: real)
    requires WellFormed(c) && Invariant(c, m, now) && Grows(c, s, m) && i < c.numInputs
    ensures Invariant(c, TimeInput(c, m, i), now) && Grows(c, s, TimeInput(c, m, i))
  {
    hide TimeInput;
    TimeInputKeepsInvariant(c, m, i, now);
    GrowsTransitive(c, s, m, TimeInput(c, m, i));
  }

  lemma {:induction false} TimeInputsKeepInvariant(c: Config, s: Sched, n: nat, now: real)
    requires WellFormed(c) && Invariant(c, s, now) && n <= c.numInputs
    ensures Invariant(c, TimeInputs(c, s, n), now) && Grows(c, s, TimeInputs(c, s, n))
    decreases n
  {
    hide TimeInput;
    if n > 0 {
      TimeInputsKeepInvariant(c, s, n - 1, now);
      TimeOneMore(c, s, TimeInputs(c, s, n - 1), n - 1, now);
    }
  }

  lemma {:induction false} MaxOfIsMax(v: seq<real>)
    requires |v| > 0
    ensures forall i | 0 <= i < |v| :: v[i] <= MaxOf(v)
    ensures exists i | 0 <= i < |v| :: v[i] == MaxOf(v)
  {
    if |v| == 1 {
      assert v[0] == MaxOf(v);
    } else {
      var w := v[..|v| - 1];
      MaxOfIsMax(w);
      var i :| 0 <= i < |w| && w[i] == MaxOf(w);
      assert v[i] == MaxOf(w) && v[|v| - 1] <= MaxOf(v);
      assert v[|v| - 1] == MaxOf(v) || v[i] == MaxOf(v);
    }
  }

  lemma CloseModelKeepsInvariant(c: Config, s: Sched, now: real)
    requires WellFormed(c) && Invariant(c, s, now)
    ensures Invariant(c, CloseModel(s), now) && Grows(c, s, CloseModel(s))
  {
    var s' := CloseModel(s);
    MaxOfIsMax(s.done);
    assert forall j: nat, q: nat :: Has(s', j, q) == Has(s, j, q);
    assert Grows(c, s, s');
    forall j: nat, q: nat | Has(s', j, q) ensures InstanceOk(c, s', j, q, now) {
      InstanceFrame(c, s, s', j, q, now, now);
    }
    forall j: nat | j < c.numInputs ensures InputOk(c, s', j, now) {
      InputFrame(c, s, s', j, now, now);
    }
  }

  lemma TimeModelKeepsInvariant(c: Config, s: Sched, now: real)
    requires WellFormed(c) && Invariant(c, s, now)
    ensures Invariant(c, TimeModel(c, s), now) && Grows(c, s, TimeModel(c, s))
  {
    var m := TimeInputs(c, s, c.numInputs);
    TimeInputsKeepInvariant(c, s, c.numInputs, now);
    CloseModelKeepsInvariant(c, m, now);
    GrowsTransitive(c, s, m, CloseModel(m));
  }

  lemma InitialInvariant(c: Config, s: Sched, now: real)
    requires WellFormed(c) && Initial(c, s, now) && 0.0 <= now
    ensures Invariant(c, s, now)
  {
    forall i: nat, p: nat | Has(s, i, p) ensures InstanceOk(c, s, i, p, now) {
      assert Exists(c, i, p);
    }
    forall i: nat | i < c.numInputs ensures InputOk(c, s, i, now) {
      assert s.start[i] == if i == 0 then now else UNSET;
    }
  }
}
