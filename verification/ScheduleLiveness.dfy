/** Every mapped model finishes: a bound on the rounds of the simulation loop it can take. */
module ScheduleLiveness {
  import opened Numbers
  import opened Phases
  import opened PhaseSchedule
  import opened ScheduleInvariant
  import opened ScheduleRuns
  import opened ScheduleProgress

  // ---------------------------------------------------------------- what a scan reports

  /** A visit to input `i` leaves every other input's instances alone. */
  lemma ScanInputOtherRows(c: Config, s: Sched, i: nat, now: real)
    requires Shaped(c, s) && i < c.numInputs && OrderInRange(c)
    ensures forall j: nat | j < c.numInputs && j != i :: ScanInput(c, s, i, now).inst[j] == s.inst[j]
  {
    hide VisitPhase, FindCurrent;
  }

  lemma {:induction false} ScanInputsRow(c: Config, s: Sched, n: nat, m: nat, now: real, i: nat)
    requires Shaped(c, s) && OrderInRange(c) && i < n <= m <= c.numInputs
    ensures ScanInputs(c, s, m, now).inst[i] == ScanInputs(c, s, n, now).inst[i]
    decreases m
  {
    hide ScanInput;
    if n < m {
      ScanInputsRow(c, s, n, m - 1, now, i);
      ScanInputOtherRows(c, ScanInputs(c, s, m - 1, now), m - 1, now);
    }
  }

  lemma ReportInputRunning(c: Config, s: Sched, i: nat, now: real, r: (nat, nat))
    requires Shaped(c, s) && i < c.numInputs && OrderInRange(c) && r in ReportInput(c, s, i, now)
    ensures var s' := ScanInput(c, s, i, now);
            && r.0 == i && r.1 < |c.phases| && Has(s', i, r.1) && Has(s, i, r.1) && At(s', i, r.1).state == Running
            && FindCurrent(c, s, i, 0) == Found(r.1) && Started(s, i, now)
            && At(s', i, r.1) == VisitPhase(c, s, i, r.1, now).inst
  {
    hide FindCurrent, StartTime, ScaleTraffic, HasTraffic, AllLoaded;
  }

  /** Whatever a scan reports is under way when the scan ends. */
  lemma {:induction false} ReportsRunning(c: Config, s: Sched, n: nat, now: real, r: (nat, nat))
    requires Shaped(c, s) && OrderInRange(c) && n <= c.numInputs && r in Reports(c, s, n, now)
    ensures var s' := ScanInputs(c, s, n, now);
            r.0 < n && r.1 < |c.phases| && Has(s', r.0, r.1) && At(s', r.0, r.1).state == Running
    decreases n
  {
    hide ScanInput, ReportInput;
    var m := ScanInputs(c, s, n - 1, now);
    if r in ReportInput(c, m, n - 1, now) {
      ReportInputRunning(c, m, n - 1, now, r);
    } else {
      ReportsRunning(c, s, n - 1, now, r);
      ScanInputsRow(c, s, n - 1, n, now, r.0);
    }
  }

  /** The transfers a scan reports: these are what the network is asked about. */
  function CommReports(c: Config, s: Sched, now: real): set<(nat, nat)>
    requires Shaped(c, s) && OrderInRange(c)
  {
    set r | r in Reports(c, s, c.numInputs, now) && r.1 < |c.phases| && c.phases[r.1].IsComm()
  }

  /** The network is consulted only when a reported transfer has no latency yet. */
  predicate NeedsNetwork(c: Config, s: Sched, now: real)
    requires Shaped(c, s) && OrderInRange(c)
  {
    var s' := ScanInputs(c, s, c.numInputs, now);
    exists r | r in CommReports(c, s, now) :: Has(s', r.0, r.1) && At(s', r.0, r.1).latency == 0.0
  }

  // ---------------------------------------------------------------- rounds

  /** One pass of the simulation loop as one model sees it: whether the network was consulted
      (for this model or because of another) and what it answered for this model's transfers. */
  datatype Round = Round(called: bool, answers: map<(nat, nat), real>)

  /** The network answers with a positive latency for exactly the transfers it was asked about. */
  ghost predicate RoundFits(c: Config, s: Sched, now: real, r: Round) {
    && Shaped(c, s) && OrderInRange(c)
    && (NeedsNetwork(c, s, now) ==> r.called)
    && r.answers.Keys == (if r.called then CommReports(c, s, now) else {})
    && forall k | k in r.answers :: 0.0 < r.answers[k]
  }

  ghost predicate RoundOk(c: Config, s: Sched, now: real, r: Round, most: nat) {
    RoundFits(c, s, now, r) && forall k | k in r.answers :: r.answers[k] <= most as real
  }

  ghost function PlayRound(c: Config, s: Sched, now: real, r: Round): Sched
    requires Shaped(c, s) && OrderInRange(c) && c.numInputs > 0
  {
    var s1 := ScanInputs(c, s, c.numInputs, now);
    var s2 := AnswerAll(s1, r.answers, now);
    if Shaped(c, s2) then TimeTwice(c, s2) else s2
  }

  lemma AnswersAreRunning(c: Config, s: Sched, now: real, r: Round)
    requires RoundFits(c, s, now, r)
    ensures AnswersRunning(c, ScanInputs(c, s, c.numInputs, now), r.answers)
  {
    forall i: nat, p: nat | (i, p) in r.answers
      ensures var s' := ScanInputs(c, s, c.numInputs, now);
              Has(s', i, p) && p < |c.phases| && c.phases[p].IsComm() && At(s', i, p).state == Running
    {
      assert (i, p) in CommReports(c, s, now);
      ReportsRunning(c, s, c.numInputs, now, (i, p));
    }
  }

  // ---------------------------------------------------------------- when running phases end

  /** Compute latencies are at most `most`, and whatever runs ends by `horizon`. */
  ghost predicate Timely(c: Config, s: Sched, most: nat, horizon: real) {
    forall i: nat, p: nat | Has(s, i, p) && p < |c.phases| ::
      && (c.phases[p].Compute? ==> At(s, i, p).latency <= most as real)
      && (At(s, i, p).state == Running ==> 0.0 <= At(s, i, p).latency && At(s, i, p).start + At(s, i, p).latency <= horizon)
  }

  /** A scan or timing pass starts phases that end within `most` of now; a quiet one starts none. */
  lemma TimelyMoves(c: Config, s: Sched, s': Sched, now: real, most: nat, horizon: real)
    requires Invariant(c, s, now) && Grows(c, s, s') && Moves(c, s, s', now) && Timely(c, s, most, horizon)
    ensures Timely(c, s', most, Max(horizon, now + most as real))
    ensures Quiet(s, s') ==> Timely(c, s', most, horizon)
  {
    forall i: nat, p: nat | Has(s', i, p) && p < |c.phases|
      ensures c.phases[p].Compute? ==> At(s', i, p).latency <= most as real
      ensures At(s', i, p).state == Running ==>
                && 0.0 <= At(s', i, p).latency
                && At(s', i, p).start + At(s', i, p).latency <= Max(horizon, now + most as real)
                && (Quiet(s, s') ==> At(s', i, p).start + At(s', i, p).latency <= horizon)
    {
      SameInstances(c, s, s', i, p);
      assert InstanceMoves(At(s, i, p), At(s', i, p), now) && InstanceGrows(At(s, i, p), At(s', i, p));
      assert InstanceOk(c, s, i, p, now);
      assert Quiet(s, s') ==> !Advanced(s, s', i, p);
    }
  }

  lemma TimelyAnswers(c: Config, s: Sched, answers: map<(nat, nat), real>, now: real, most: nat, horizon: real)
    requires Invariant(c, s, now) && AnswersRunning(c, s, answers) && Timely(c, s, most, horizon)
    requires forall k | k in answers :: 0.0 < answers[k] <= most as real
    ensures var s' := AnswerAll(s, answers, now);
            && Timely(c, s', most, Max(horizon, now + most as real))
            && (answers.Keys == {} ==> Timely(c, s', most, horizon))
            && Quiet(s, s')
  {
    var s' := AnswerAll(s, answers, now);
    AnswerAllShape(c, s, answers, now);
    hide AnswerAll;
    forall i: nat, p: nat | Has(s', i, p) && p < |c.phases|
      ensures c.phases[p].Compute? ==> At(s', i, p).latency <= most as real
      ensures At(s', i, p).state == Running ==>
                && 0.0 <= At(s', i, p).latency
                && At(s', i, p).start + At(s', i, p).latency <= Max(horizon, now + most as real)
                && (answers.Keys == {} ==> At(s', i, p).start + At(s', i, p).latency <= horizon)
    {
      SameInstances(c, s, s', i, p);
      assert InstanceOk(c, s, i, p, now);
      assert (i, p) in answers ==> (i, p) in answers.Keys;
    }
  }

  // ---------------------------------------------------------------- something always moves

  lemma {:induction false} NothingLeft(c: Config, s: Sched, i: nat, from: nat)
    requires OrderInRange(c) && i < |s.inst| && AllComplete(s, i) && from <= |c.order|
    ensures FindCurrent(c, s, i, from) == Idle
    decreases |c.order| - from
  {
    if from < |c.order| { NothingLeft(c, s, i, from + 1); }
  }

  lemma FinishedInputUntouched(c: Config, s: Sched, i: nat, now: real)
    requires Shaped(c, s) && OrderInRange(c) && i < c.numInputs && AllComplete(s, i)
    ensures ScanInput(c, s, i, now) == s && ReportInput(c, s, i, now) == []
  {
    NothingLeft(c, s, i, 0);
  }

  lemma {:induction false} ScanCompletePrefix(c: Config, s: Sched, n: nat, now: real)
    requires Shaped(c, s) && OrderInRange(c) && n <= c.numInputs && forall j: nat | j < n :: AllComplete(s, j)
    ensures ScanInputs(c, s, n, now) == s && Reports(c, s, n, now) == []
    decreases n
  {
    hide ScanInput, ReportInput;
    if n > 0 {
      ScanCompletePrefix(c, s, n - 1, now);
      FinishedInputUntouched(c, s, n - 1, now);
    }
  }

  /** At the horizon, the current phase either changes state or is a transfer the network must
      be asked about. */
  lemma VisitAtHorizon(c: Config, s: Sched, i: nat, p: nat, now: real, most: nat, horizon: real)
    requires Invariant(c, s, now) && Timely(c, s, most, horizon) && horizon <= now
    requires Has(s, i, p) && p < |c.phases| && At(s, i, p).state != Complete
    requires c.phases[p].WeightLoading? && c.stationary ==> !AllLoaded(s, c.phases[p].layers)
    ensures i < |s.start|
    ensures var v := VisitPhase(c, s, i, p, now);
            v.inst.state != At(s, i, p).state || (c.phases[p].IsComm() && v.reported && v.inst.latency == 0.0)
  {
    assert InstanceOk(c, s, i, p, now);
    hide StartTime, ScaleTraffic, HasTraffic, AllLoaded;
  }

  ghost predicate LowestUnfinished(c: Config, s: Sched, i: nat)
    requires Shaped(c, s)
  {
    i < c.numInputs && s.start[i] != UNSET && !AllComplete(s, i) && forall j: nat | j < i :: AllComplete(s, j)
  }

  lemma CurrentMoves(c: Config, s: Sched, now: real, most: nat, horizon: real, i: nat) returns (p: nat)
    requires WellFormed(c) && Exclusive(c) && Invariant(c, s, now) && Accounted(c, s)
    requires Timely(c, s, most, horizon) && horizon <= now && LowestUnfinished(c, s, i)
    ensures var s' := ScanInput(c, s, i, now);
            && p < |c.phases| && Has(s, i, p) && Has(s', i, p)
            && (|| At(s', i, p).state != At(s, i, p).state
                || (c.phases[p].IsComm() && At(s', i, p).latency == 0.0 && ReportInput(c, s, i, now) == [(i, p)]))
  {
    InputIsOk(c, s, i, now);
    hide VisitPhase, FindCurrent, Invariant, Timely, Accounted, Exclusive;
    NoDeadlock(c, s, i, now);
    p := FindCurrent(c, s, i, 0).phase;
    hide WellFormed, AllComplete;
    if c.phases[p].WeightLoading? && c.stationary { NothingToSkip(c, s, i, p); }
    VisitAtHorizon(c, s, i, p, now, most, horizon);
  }

  /** A scan comes to the lowest unfinished input with everything as it was. */
  lemma LowestIsScanned(c: Config, s: Sched, i: nat, now: real)
    requires Shaped(c, s) && OrderInRange(c) && LowestUnfinished(c, s, i)
    ensures ScanInputs(c, s, i + 1, now) == ScanInput(c, s, i, now) && Reports(c, s, i + 1, now) == ReportInput(c, s, i, now)
    ensures ScanInputs(c, s, c.numInputs, now).inst[i] == ScanInput(c, s, i, now).inst[i]
  {
    hide ScanInput, ReportInput;
    ScanCompletePrefix(c, s, i, now);
    ScanInputsRow(c, s, i + 1, c.numInputs, now, i);
  }

  lemma IsReported(c: Config, s: Sched, now: real, i: nat, p: nat)
    requires Shaped(c, s) && OrderInRange(c) && i < c.numInputs && p < |c.phases| && c.phases[p].IsComm()
    requires (i, p) in Reports(c, s, i + 1, now)
    ensures (i, p) in CommReports(c, s, now)
  {
    hide Reports;
    ReportsPrefix(c, s, i + 1, c.numInputs, now, (i, p));
  }

  /** If nothing runs past the present, a round either consults the network or changes a state. */
  lemma RoundMoves(c: Config, s: Sched, now: real, most: nat, horizon: real, i: nat)
    requires WellFormed(c) && Exclusive(c) && Invariant(c, s, now) && Accounted(c, s)
    requires Timely(c, s, most, horizon) && horizon <= now && LowestUnfinished(c, s, i)
    ensures NeedsNetwork(c, s, now) || exists p: nat :: Advanced(s, ScanInputs(c, s, c.numInputs, now), i, p)
  {
    hide WellFormed, Exclusive, Invariant, Accounted, Timely, Shaped, OrderInRange, ScanInput, ScanInputs, ReportInput, Reports, CommReports, AllComplete;
    InvariantForm(c, s, now);
    var p := CurrentMoves(c, s, now, most, horizon, i);
    LowestIsScanned(c, s, i, now);
    var s1, s' := ScanInput(c, s, i, now), ScanInputs(c, s, c.numInputs, now);
    SameInstances(c, s, s', i, p);
    assert At(s', i, p) == At(s1, i, p);
    if At(s1, i, p).state != At(s, i, p).state {
      assert Advanced(s, s', i, p);
    } else {
      IsReported(c, s, now, i, p);
    }
  }

  lemma {:induction false} ReportsPrefix(c: Config, s: Sched, n: nat, m: nat, now: real, r: (nat, nat))
    requires Shaped(c, s) && OrderInRange(c) && n <= m <= c.numInputs && r in Reports(c, s, n, now)
    ensures r in Reports(c, s, m, now)
    decreases m
  {
    hide ScanInput, ReportInput;
    if n < m { ReportsPrefix(c, s, n, m - 1, now, r); }
  }

  // ---------------------------------------------------------------- a timing pass leaves nothing pending

  /** Finished inputs among the first `n` have their completion recorded, and the input after a
      finished one has started. */
  ghost predicate SettledUpTo(c: Config, s: Sched, n: nat)
    requires Shaped(c, s) && n <= c.numInputs
  {
    forall i: nat | i < n :: SettledAt(c, s, i)
  }

  ghost predicate SettledAt(c: Config, s: Sched, i: nat)
    requires Shaped(c, s) && i < c.numInputs
  {
    && (AllComplete(s, i) ==> s.done[i] != UNSET)
    && (i > 0 && AllComplete(s, i - 1) ==> s.start[i] != UNSET)
  }

  ghost predicate Settled(c: Config, s: Sched)
    requires Shaped(c, s)
  {
    SettledUpTo(c, s, c.numInputs) && ((forall i: nat | i < c.numInputs :: s.done[i] != UNSET) ==> s.modelDone != UNSET)
  }

  lemma NextInputStarts(c: Config, s: Sched, i: nat, now: real)
    requires WellFormed(c) && Invariant(c, s, now) && 0 < i < c.numInputs && AllComplete(s, i - 1)
    requires s.done[i - 1] != UNSET
    ensures InputStart(c, s, i) != UNSET
  {
    if s.start[i] == UNSET && c.pipelined {
      var q := c.computeOf[0];
      assert Exists(c, i - 1, q) && Has(s, i - 1, q) && s.inst[i - 1][q].state == Complete;
      if 0 in c.activationOf {
        var a := c.activationOf[0];
        assert Exists(c, i - 1, a) && Has(s, i - 1, a) && s.inst[i - 1][a].state == Complete;
      }
      assert FirstLayerDone(c, s, i - 1, 0).Some?;
      FirstLayerDoneBounded(c, s, i - 1, 0, now);
    }
  }

  lemma TimeInputOthers(c: Config, s: Sched, i: nat)
    requires Shaped(c, s) && i < c.numInputs
    ensures var s' := TimeInput(c, s, i);
            && s'.start[i] == InputStart(c, s, i) && s'.modelDone == s.modelDone
            && (forall j: nat | j < c.numInputs && j != i :: s'.inst[j] == s.inst[j] && s'.start[j] == s.start[j] && s'.done[j] == s.done[j])
  {
  }

  lemma TimeInputRecords(c: Config, s: Sched, i: nat, now: real)
    requires WellFormed(c) && Invariant(c, s, now) && i < c.numInputs
    ensures var s' := TimeInput(c, s, i); AllComplete(s', i) ==> s'.done[i] != UNSET
  {
    var s' := TimeInput(c, s, i);
    TimeInputKeepsInvariant(c, s, i, now);
    if AllComplete(s', i) {
      var q := c.computeOf[0];
      assert Exists(c, i, q) && Has(s', i, q);
      CompletionAfterStart(c, s', i, q, now);
      LastCompletion(c, s', i, now);
      var s1 := s.(start := s.start[i := InputStart(c, s, i)]);
      assert Shaped(c, s1) by { assert forall j: nat, p: nat :: Has(s1, j, p) == Has(s, j, p); }
      var s2 := TimeRow(c, s1, i);
      assert s'.inst == s2.inst;
      LatestSame(s', s2, i, c.order, |c.order|);
    }
  }

  lemma {:induction false} LatestSame(s: Sched, s': Sched, i: nat, deps: seq<nat>, n: nat)
    requires s.inst == s'.inst && n <= |deps|
    ensures LatestOf(s, i, deps, n, UNSET) == LatestOf(s', i, deps, n, UNSET)
    decreases n
  {
    if n > 0 { LatestSame(s, s', i, deps, n - 1); }
  }

  lemma TimeInputSettles(c: Config, s: Sched, i: nat, now: real)
    requires WellFormed(c) && Invariant(c, s, now) && i < c.numInputs && SettledUpTo(c, s, i)
    ensures SettledUpTo(c, TimeInput(c, s, i), i + 1)
  {
    TimeInputOthers(c, s, i);
    TimeInputRecords(c, s, i, now);
    if i > 0 && AllComplete(s, i - 1) {
      assert SettledAt(c, s, i - 1);
      NextInputStarts(c, s, i, now);
    }
    var s' := TimeInput(c, s, i);
    hide TimeInput;
    forall j: nat | j < i + 1 ensures SettledAt(c, s', j) {
      assert j < i ==> SettledAt(c, s, j);
      assert j != i ==> AllComplete(s', j) == AllComplete(s, j);
      if j > 0 { assert AllComplete(s', j - 1) == AllComplete(s, j - 1); }
    }
  }

  lemma {:induction false} TimeInputsSettle(c: Config, s: Sched, n: nat, now: real)
    requires WellFormed(c) && Invariant(c, s, now) && n <= c.numInputs
    ensures SettledUpTo(c, TimeInputs(c, s, n), n)
    decreases n
  {
    hide TimeInput;
    if n > 0 {
      TimeInputsSettle(c, s, n - 1, now);
      TimeInputsKeepInvariant(c, s, n - 1, now);
      TimeInputSettles(c, TimeInputs(c, s, n - 1), n - 1, now);
    }
  }

  lemma TimeModelSettles(c: Config, s: Sched, now: real)
    requires WellFormed(c) && Invariant(c, s, now)
    ensures Shaped(c, TimeModel(c, s)) && Settled(c, TimeModel(c, s))
  {
    TimeModelKeepsInvariant(c, s, now);
    TimeInputsSettle(c, s, c.numInputs, now);
    TimeInputsKeepInvariant(c, s, c.numInputs, now);
    var m := TimeInputs(c, s, c.numInputs);
    hide TimeInputs;
    var s' := CloseModel(m);
    assert forall j: nat | j < c.numInputs :: AllComplete(s', j) == AllComplete(m, j);
    forall j: nat | j < c.numInputs ensures SettledAt(c, s', j) {
      assert SettledAt(c, m, j);
    }
    if forall i: nat | i < c.numInputs :: m.done[i] != UNSET {
      MaxOfIsMax(m.done);
      var i :| 0 <= i < |m.done| && m.done[i] == MaxOf(m.done);
      assert InputOk(c, m, i, now);
    }
  }

  /** While the model is not finished, some started input is, with everything before it done. */
  lemma UnfinishedInput(c: Config, s: Sched, now: real) returns (i: nat)
    requires WellFormed(c) && Invariant(c, s, now) && Settled(c, s) && s.modelDone == UNSET
    ensures LowestUnfinished(c, s, i)
  {
    var k: nat :| k < c.numInputs && s.done[k] == UNSET;
    assert SettledAt(c, s, k);
    i := 0;
    while AllComplete(s, i)
      invariant i <= k && forall j: nat | j < i :: AllComplete(s, j)
      decreases k - i
    {
      i := i + 1;
    }
    assert InputOk(c, s, i, now);
    assert SettledAt(c, s, i);
  }

  // ---------------------------------------------------------------- every model finishes

  /** All that is known of a model between two rounds. */
  ghost predicate Sound(c: Config, s: Sched, now: real) {
    && WellFormed(c) && Exclusive(c) && Invariant(c, s, now)
    && Accounted(c, s) && OnTime(c, s) && Settled(c, s)
  }

  lemma TimeTwiceKeepsSound(c: Config, s: Sched, now: real)
    requires WellFormed(c) && Invariant(c, s, now) && Accounted(c, s) && OnTime(c, s)
    ensures var s' := TimeTwice(c, s);
            && Invariant(c, s', now) && Grows(c, s, s') && Honest(c, s, s', now) && Settled(c, s')
  {
    var m := TimeModel(c, s);
    TimeModelKeepsInvariant(c, s, now);
    TimeModelHonest(c, s, now);
    var s' := TimeModel(c, m);
    TimeModelKeepsInvariant(c, m, now);
    TimeModelHonest(c, m, now);
    TimeModelSettles(c, m, now);
    hide TimeModel;
    GrowsTransitive(c, s, m, s');
    MovesTransitive(c, s, m, s', now);
  }

  /** The three states a round passes through after its start, with what links them. */
  lemma RoundStages(c: Config, s: Sched, now: real, r: Round) returns (s1: Sched, s2: Sched, s3: Sched)
    requires Sound(c, s, now) && RoundFits(c, s, now, r)
    ensures s1 == ScanInputs(c, s, c.numInputs, now) && s2 == AnswerAll(s1, r.answers, now) && s3 == PlayRound(c, s, now, r)
    ensures Invariant(c, s1, now) && Invariant(c, s2, now) && AnswersRunning(c, s1, r.answers)
    ensures Grows(c, s, s1) && Grows(c, s1, s2) && Grows(c, s2, s3)
    ensures Moves(c, s, s1, now) && Moves(c, s2, s3, now)
    ensures Sound(c, s3, now)
  {
    s1 := ScanInputs(c, s, c.numInputs, now);
    ScanKeepsInvariant(c, s, c.numInputs, now);
    ScanHonest(c, s, c.numInputs, now);
    AnswersAreRunning(c, s, now, r);
    hide ScanInputs;
    s2 := AnswerAll(s1, r.answers, now);
    AnswerAllKeepsInvariant(c, s1, r.answers, now);
    AnswerAllHonest(c, s1, r.answers, now);
    hide AnswerAll;
    s3 := TimeTwice(c, s2);
    TimeTwiceKeepsSound(c, s2, now);
    hide TimeTwice;
  }

  lemma RoundKeepsSound(c: Config, s: Sched, now: real, r: Round)
    requires Sound(c, s, now) && RoundFits(c, s, now, r)
    ensures var s' := PlayRound(c, s, now, r); Sound(c, s', now + TIME_STEP) && Grows(c, s, s')
  {
    var s1, s2, s3 := RoundStages(c, s, now, r);
    hide PlayRound, ScanInputs, AnswerAll, RoundFits;
    GrowsTransitive(c, s, s1, s2);
    GrowsTransitive(c, s, s2, s3);
    TimePasses(c, s3, now, now + TIME_STEP);
  }

  /** A round's scan, answers and timing, one after the other. */
  ghost predicate Stages(c: Config, s: Sched, s1: Sched, s2: Sched, s3: Sched, now: real, answers: map<(nat, nat), real>) {
    && Invariant(c, s, now) && Invariant(c, s1, now) && Invariant(c, s2, now)
    && AnswersRunning(c, s1, answers) && s2 == AnswerAll(s1, answers, now)
    && Grows(c, s, s1) && Grows(c, s1, s2) && Grows(c, s2, s3)
    && Moves(c, s, s1, now) && Moves(c, s2, s3, now)
  }

  lemma StagesCount(c: Config, s: Sched, s1: Sched, s2: Sched, s3: Sched, now: real, answers: map<(nat, nat), real>)
    requires Stages(c, s, s1, s2, s3, now, answers)
    ensures StatesLeft(c, s3) <= StatesLeft(c, s1) <= StatesLeft(c, s)
    ensures StatesLeft(c, s3) == StatesLeft(c, s) ==> Quiet(s, s1) && Quiet(s2, s3)
  {
    hide StatesLeft, Invariant, AnswersRunning, AnswerAll, Moves, Quiet;
    StatesLeftDrops(c, s, s1);
    StatesLeftDrops(c, s1, s2);
    StatesLeftDrops(c, s2, s3);
  }

  lemma StagesTimely(c: Config, s: Sched, s1: Sched, s2: Sched, s3: Sched, now: real, answers: map<(nat, nat), real>, most: nat, horizon: real)
    requires Stages(c, s, s1, s2, s3, now, answers) && Timely(c, s, most, horizon)
    requires forall k | k in answers :: 0.0 < answers[k] <= most as real
    ensures Timely(c, s3, most, Max(horizon, now + most as real))
    ensures answers.Keys == {} && Quiet(s, s1) && Quiet(s2, s3) ==> Timely(c, s3, most, horizon)
  {
    hide Invariant, AnswersRunning, AnswerAll, Moves, Quiet, Grows, Timely;
    var wide := Max(horizon, now + most as real);
    assert Max(wide, now + most as real) == wide;
    TimelyMoves(c, s, s1, now, most, horizon);
    TimelyAnswers(c, s1, answers, now, most, wide);
    TimelyMoves(c, s2, s3, now, most, wide);
    if answers.Keys == {} && Quiet(s, s1) && Quiet(s2, s3) {
      TimelyAnswers(c, s1, answers, now, most, horizon);
      TimelyMoves(c, s2, s3, now, most, horizon);
    }
  }

  lemma RoundTimely(c: Config, s: Sched, now: real, r: Round, most: nat, horizon: real)
    requires Sound(c, s, now) && RoundOk(c, s, now, r, most) && Timely(c, s, most, horizon)
    ensures var s' := PlayRound(c, s, now, r);
            && Timely(c, s', most, Max(horizon, now + most as real))
            && (!r.called && StatesLeft(c, s') == StatesLeft(c, s) ==> Timely(c, s', most, horizon))
            && StatesLeft(c, s') <= StatesLeft(c, ScanInputs(c, s, c.numInputs, now)) <= StatesLeft(c, s)
  {
    hide PlayRound, ScanInputs, AnswerAll, Invariant, Moves, Grows, AnswersRunning, StatesLeft, Timely, Quiet;
    var s1, s2, s3 := RoundStages(c, s, now, r);
    assert Stages(c, s, s1, s2, s3, now, r.answers);
    hide Stages;
    if !r.called { NotCalledNoAnswers(c, s, now, r); }
    StagesCount(c, s, s1, s2, s3, now, r.answers);
    StagesTimely(c, s, s1, s2, s3, now, r.answers, most, horizon);
  }

  lemma NotCalledNoAnswers(c: Config, s: Sched, now: real, r: Round)
    requires RoundFits(c, s, now, r) && !r.called
    ensures r.answers.Keys == {}
  {
  }

  /** One round of an unfinished model: it uses up a state change or a network call, or else brings
      the horizon one step closer. */
  lemma RoundProgress(c: Config, s: Sched, now: real, r: Round, most: nat, slack: nat) returns (slack': nat)
    requires Sound(c, s, now) && RoundOk(c, s, now, r, most) && s.modelDone == UNSET
    requires Timely(c, s, most, now + slack as real)
    ensures var s' := PlayRound(c, s, now, r);
            && Timely(c, s', most, now + TIME_STEP + slack' as real)
            && StatesLeft(c, s') <= StatesLeft(c, s)
            && (if r.called || StatesLeft(c, s') < StatesLeft(c, s) then slack' <= slack || slack' <= most else slack' + 1 == slack)
  {
    var s' := PlayRound(c, s, now, r);
    RoundTimely(c, s, now, r, most, now + slack as real);
    if r.called || StatesLeft(c, s') < StatesLeft(c, s) {
      slack' := if slack < most then most else slack;
      TimelyWider(c, s', most, Max(now + slack as real, now + most as real), now + TIME_STEP + slack' as real);
    } else {
      assert slack > 0 by {
        if slack == 0 { RoundForced(c, s, now, r, most); }
      }
      slack' := slack - 1;
    }
  }

  lemma TimelyWider(c: Config, s: Sched, most: nat, h: real, h': real)
    requires Timely(c, s, most, h) && h <= h'
    ensures Timely(c, s, most, h')
  {
  }

  /** With nothing running past the present, a round cannot be idle. */
  lemma RoundForced(c: Config, s: Sched, now: real, r: Round, most: nat)
    requires Sound(c, s, now) && RoundOk(c, s, now, r, most) && s.modelDone == UNSET && Timely(c, s, most, now)
    ensures r.called || StatesLeft(c, PlayRound(c, s, now, r)) < StatesLeft(c, s)
  {
    var i := UnfinishedInput(c, s, now);
    RoundMoves(c, s, now, most, now, i);
    ScanKeepsInvariant(c, s, c.numInputs, now);
    var s1 := ScanInputs(c, s, c.numInputs, now);
    RoundTimely(c, s, now, r, most, now);
    hide PlayRound, ScanInputs;
    if p: nat :| Advanced(s, s1, i, p) {
      StatesLeftDrops(c, s, s1);
    }
  }

  ghost predicate RoundsOk(c: Config, s: Sched, now: real, rounds: seq<Round>, most: nat)
    decreases |rounds|
  {
    rounds == [] ||
    (c.numInputs > 0 && RoundOk(c, s, now, rounds[0], most)
     && RoundsOk(c, PlayRound(c, s, now, rounds[0]), now + TIME_STEP, rounds[1..], most))
  }

  ghost function PlayRounds(c: Config, s: Sched, now: real, rounds: seq<Round>, most: nat): Sched
    requires RoundsOk(c, s, now, rounds, most)
    decreases |rounds|
  {
    if rounds == [] then s else PlayRounds(c, PlayRound(c, s, now, rounds[0]), now + TIME_STEP, rounds[1..], most)
  }

  ghost function Calls(rounds: seq<Round>): nat {
    if rounds == [] then 0 else (if rounds[0].called then 1 else 0) + Calls(rounds[1..])
  }

  lemma {:induction false} FinishedStaysFinished(c: Config, s: Sched, now: real, rounds: seq<Round>, most: nat)
    requires Sound(c, s, now) && RoundsOk(c, s, now, rounds, most) && s.modelDone != UNSET
    ensures PlayRounds(c, s, now, rounds, most).modelDone == s.modelDone
    decreases |rounds|
  {
    hide PlayRound, RoundFits;
    if rounds != [] {
      RoundKeepsSound(c, s, now, rounds[0]);
      FinishedStaysFinished(c, PlayRound(c, s, now, rounds[0]), now + TIME_STEP, rounds[1..], most);
    }
  }

  /** The steps `n` changes or calls can take, each up to `most` and one more. */
  ghost function Spans(n: nat, most: nat): nat {
    n * (most + 1)
  }

  lemma {:induction false} FewerSpans(a: nat, b: nat, most: nat)
    requires b < a
    ensures Spans(b, most) + most + 1 <= Spans(a, most)
    decreases a
  {
    assert Spans(a, most) == Spans(a - 1, most) + most + 1;
    if b < a - 1 { FewerSpans(a - 1, b, most); }
  }

  /** More rounds than the state changes and network calls can account for finish the model. */
  lemma {:induction false} EnoughRounds(c: Config, s: Sched, now: real, rounds: seq<Round>, most: nat, slack: nat, budget: nat)
    requires Sound(c, s, now) && RoundsOk(c, s, now, rounds, most) && Timely(c, s, most, now + slack as real)
    requires StatesLeft(c, s) + Calls(rounds) <= budget && |rounds| > Spans(budget, most) + slack
    ensures PlayRounds(c, s, now, rounds, most).modelDone != UNSET
    decreases |rounds|
  {
    hide PlayRound, RoundFits, Timely, Spans, StatesLeft;
    if s.modelDone != UNSET {
      FinishedStaysFinished(c, s, now, rounds, most);
    } else {
      var s' := PlayRound(c, s, now, rounds[0]);
      RoundKeepsSound(c, s, now, rounds[0]);
      var slack' := RoundProgress(c, s, now, rounds[0], most, slack);
      hide Sound;
      var busy := rounds[0].called || StatesLeft(c, s') < StatesLeft(c, s);
      if busy { FewerSpans(budget, budget - 1, most); }
      EnoughRounds(c, s', now + TIME_STEP, rounds[1..], most, slack', if busy then budget - 1 else budget);
    }
  }

  lemma FreshIsSound(c: Config, s: Sched, now: real, most: nat)
    requires WellFormed(c) && Exclusive(c) && Initial(c, s, now) && 0.0 <= now
    requires forall i: nat, p: nat | Has(s, i, p) :: At(s, i, p).latency <= most as real
    ensures Sound(c, s, now) && Timely(c, s, most, now)
  {
    InitialInvariant(c, s, now);
    forall i: nat | i < c.numInputs ensures !AllComplete(s, i) {
      var q := c.computeOf[0];
      assert Exists(c, i, q) && Has(s, i, q);
    }
    forall i: nat | i < c.numInputs ensures SettledAt(c, s, i) {
      assert i > 0 ==> !AllComplete(s, i - 1);
    }
    assert s.done[0] == UNSET;
  }

  lemma StatesLeftAtMost(c: Config, s: Sched)
    ensures StatesLeft(c, s) <= 2 * |c.phases| * c.numInputs
  {
    var f := LeftOf(s);
    forall i: nat | i < c.numInputs ensures RowSum(f, i, |c.phases|) <= 2 * |c.phases| {
      RowSumAtMost(f, i, |c.phases|, 2);
    }
    GridSumAtMost(f, c.numInputs, |c.phases|, 2 * |c.phases|);
  }

  /** Every mapped model finishes.  With latencies of at most `most` time steps, a model of
      `|phases|` phases and `numInputs` inputs is complete after more than
      (2 * phases * inputs + network calls) * (most + 1) rounds, however the network answers and
      whatever other models make it re-time. */
  lemma EveryModelFinishes(c: Config, s: Sched, now: real, rounds: seq<Round>, most: nat)
    requires WellFormed(c) && Exclusive(c) && Initial(c, s, now) && 0.0 <= now
    requires forall i: nat, p: nat | Has(s, i, p) :: At(s, i, p).latency <= most as real
    requires RoundsOk(c, s, now, rounds, most)
    requires |rounds| > (2 * |c.phases| * c.numInputs + Calls(rounds)) * (most + 1)
    ensures PlayRounds(c, s, now, rounds, most).modelDone != UNSET
  {
    hide PlayRound, RoundFits, PlayRounds, RoundsOk, Timely, Sound, WellFormed, Exclusive, StatesLeft;
    FreshIsSound(c, s, now, most);
    StatesLeftAtMost(c, s);
    assert now + 0 as real == now;
    hide Initial;
    EnoughRounds(c, s, now, rounds, most, 0, 2 * |c.phases| * c.numInputs + Calls(rounds));
  }
}
