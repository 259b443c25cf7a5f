/** Whole runs of one mapped model: any interleaving of scans, network answers, timing passes and
    clock advances, from the moment the model is mapped. */
module ScheduleRuns {
  import opened Numbers
  import opened Phases
  import opened PhaseSchedule
  import opened ScheduleInvariant

  datatype Event =
    | Tick(time: real)
    | Scan
    | Answers(latencies: map<(nat, nat), real>)
    | Derive

  datatype Snapshot = Snapshot(s: Sched, now: real)

  /** The clock never runs back; the network answers only for transfers that are under way.  The
      answers themselves may be any numbers. */
  ghost predicate Enabled(c: Config, a: Snapshot, e: Event) {
    match e
    case Tick(time) => a.now <= time
    case Answers(latencies) => Shaped(c, a.s) && AnswersRunning(c, a.s, latencies)
    case Scan => Shaped(c, a.s) && OrderInRange(c)
    case Derive => Shaped(c, a.s) && c.numInputs > 0
  }

  ghost function Next(c: Config, a: Snapshot, e: Event): Snapshot
    requires Enabled(c, a, e)
  {
    match e
    case Tick(time) => a.(now := time)
    case Scan => a.(s := ScanInputs(c, a.s, c.numInputs, a.now))
    case Answers(latencies) => a.(s := AnswerAll(a.s, latencies, a.now))
    case Derive => a.(s := TimeModel(c, a.s))
  }

  ghost predicate Legal(c: Config, a: Snapshot, events: seq<Event>)
    decreases |events|
  {
    events == [] || (Enabled(c, a, events[0]) && Legal(c, Next(c, a, events[0]), events[1..]))
  }

  ghost function After(c: Config, a: Snapshot, events: seq<Event>): Snapshot
    requires Legal(c, a, events)
    decreases |events|
  {
    if events == [] then a else After(c, Next(c, a, events[0]), events[1..])
  }

  lemma NextKeepsInvariant(c: Config, a: Snapshot, e: Event)
    requires WellFormed(c) && Invariant(c, a.s, a.now) && Enabled(c, a, e)
    ensures var b := Next(c, a, e);
            Invariant(c, b.s, b.now) && Grows(c, a.s, b.s) && a.now <= b.now
  {
    hide ScanInputs, TimeModel, AnswerAll;
    match e
    case Tick(time) => TimePasses(c, a.s, a.now, time); GrowsReflexive(c, a.s);
    case Scan => ScanKeepsInvariant(c, a.s, c.numInputs, a.now);
    case Answers(latencies) => AnswerAllKeepsInvariant(c, a.s, latencies, a.now);
    case Derive => TimeModelKeepsInvariant(c, a.s, a.now);
  }

  /** The invariant holds after every legal run, finished work is never revised, and states only
      move forward. */
  lemma {:induction false} RunKeepsInvariant(c: Config, a: Snapshot, events: seq<Event>)
    requires WellFormed(c) && Invariant(c, a.s, a.now) && Legal(c, a, events)
    ensures var b := After(c, a, events);
            Invariant(c, b.s, b.now) && Grows(c, a.s, b.s) && a.now <= b.now
    decreases |events|
  {
    hide Next;
    if events == [] {
      GrowsReflexive(c, a.s);
    } else {
      var n := Next(c, a, events[0]);
      NextKeepsInvariant(c, a, events[0]);
      RunKeepsInvariant(c, n, events[1..]);
      GrowsTransitive(c, a.s, n.s, After(c, a, events).s);
    }
  }

  /** A state some run of a freshly mapped model reaches. */
  ghost predicate Reached(c: Config, begin: Snapshot, events: seq<Event>, b: Snapshot) {
    && WellFormed(c) && Initial(c, begin.s, begin.now) && 0.0 <= begin.now
    && Legal(c, begin, events) && b == After(c, begin, events)
  }

  lemma ReachedInvariant(c: Config, begin: Snapshot, events: seq<Event>, b: Snapshot)
    requires Reached(c, begin, events, b)
    ensures Invariant(c, b.s, b.now) && Grows(c, begin.s, b.s)
  {
    InitialInvariant(c, begin.s, begin.now);
    RunKeepsInvariant(c, begin, events);
  }

  // ---------------------------------------------------------------- causality

  /** `v` is the latest of the times the phase waits for. */
  ghost predicate IsLatest(c: Config, s: Sched, i: nat, p: nat, v: real)
    requires i < |s.start| && p < |c.phases|
  {
    WaitsFor(c, s, i, p, v) && forall w | WaitsFor(c, s, i, p, w) :: w <= v
  }

  /** In every reachable state a finished phase began at the latest of its input's start, its
      dependencies' completions and, when pipelined, the same phase of the input before; it took
      its latency; and it did not finish in the future.  The one exception is a weight phase whose
      weights were already resident: it is stamped with the time it was looked at, which is never
      before that latest time. */
  lemma FinishedPhaseTimes(c: Config, begin: Snapshot, events: seq<Event>, b: Snapshot, i: nat, p: nat)
    requires Reached(c, begin, events, b) && IsComplete(b.s, i, p)
    ensures i < |b.s.start| && p < |c.phases|
    ensures var x := At(b.s, i, p);
            && x.completion == x.start + Max(x.latency, 0.0)
            && begin.now <= x.start <= x.completion <= b.now
            && (forall v | WaitsFor(c, b.s, i, p, v) :: v <= x.start)
            && (IsLatest(c, b.s, i, p, x.start) || (Skipped(c, p, x) && i == 0))
  {
    ReachedInvariant(c, begin, events, b);
    var x := At(b.s, i, p);
    assert Exists(c, i, p) && InstanceOk(c, b.s, i, p, b.now);
    StartTimeIsLatest(c, b.s, i, p);
    StartTimeBounded(c, b.s, i, p, b.now);
    StartsAreLate(c, begin, events, b, i);
    assert WaitsFor(c, b.s, i, p, b.s.start[i]);
  }

  lemma {:induction false} StartsAscend(c: Config, s: Sched, i: nat, now: real)
    requires Invariant(c, s, now) && i < c.numInputs && s.start[i] != UNSET
    ensures s.start[0] <= s.start[i]
    decreases i
  {
    assert InputOk(c, s, i, now);
    if i > 0 { StartsAscend(c, s, i - 1, now); }
  }

  /** No input starts before the model was mapped. */
  lemma StartsAreLate(c: Config, begin: Snapshot, events: seq<Event>, b: Snapshot, i: nat)
    requires Reached(c, begin, events, b) && i < c.numInputs
    ensures i < |b.s.start| && (b.s.start[i] == UNSET || begin.now <= b.s.start[i])
  {
    ReachedInvariant(c, begin, events, b);
    assert begin.s.start[0] == begin.now && b.s.start[0] == begin.now;
    if b.s.start[i] != UNSET { StartsAscend(c, b.s, i, b.now); }
  }

  // ---------------------------------------------------------------- weights before compute

  /** In every reachable state, resident weights or not, pipelined or not, when a compute phase is
      running or finished, the weight phase that serves its input, its own or else input 0's, is over,
      and was over by the time the compute phase started. */
  lemma WeightsBeforeCompute(c: Config, begin: Snapshot, events: seq<Event>, b: Snapshot, i: nat, p: nat)
    requires Reached(c, begin, events, b) && Has(b.s, i, p) && At(b.s, i, p).state != NotStarted
    ensures p < |c.phases|
    ensures c.phases[p].Compute? && c.phases[p].layer in c.weightOf ==>
              c.phases[p].layer in b.s.loaded && Served(b.s, i, c.weightOf[c.phases[p].layer], At(b.s, i, p).start)
  {
    ReachedInvariant(c, begin, events, b);
    assert Exists(c, i, p) && InstanceOk(c, b.s, i, p, b.now);
    if c.phases[p].Compute? && c.phases[p].layer in c.weightOf { WeightsInPlace(c, b.s, i, p, b.now); }
  }

  /** The configuration error is raised for no well-formed schedule, and only ever for a compute
      phase that does not depend on the phase loading its weights. */
  lemma NeverMisconfigured(c: Config, s: Sched, i: nat, p: nat)
    requires p < |c.phases|
    ensures CheckDependencies(c, s, i, p) == Misconfigured ==> !WeightsGuarded(c, p)
    ensures WellFormed(c) ==> CheckDependencies(c, s, i, p) != Misconfigured
  {
  }

  /** In a well-formed schedule a phase may run exactly when every phase it depends on, as far as its
      input has it, is over and, when inputs are pipelined, so is the same phase of the input before. */
  lemma ReadyExactly(c: Config, s: Sched, i: nat, p: nat)
    requires WellFormed(c) && p < |c.phases|
    ensures CheckDependencies(c, s, i, p) == Ready <==>
              && (forall d | d in c.phases[p].deps && Has(s, i, d) :: At(s, i, d).state == Complete)
              && (c.pipelined && i > 0 && Has(s, i - 1, p) ==> At(s, i - 1, p).state == Complete)
  {
    NeverMisconfigured(c, s, i, p);
    hide WellFormed;
    if CheckDependencies(c, s, i, p) == Ready {
      forall d | d in c.phases[p].deps && Has(s, i, d) ensures At(s, i, d).state == Complete { assert IsComplete(s, i, d); }
    }
  }

  // ---------------------------------------------------------------- inputs finish in index order

  /** Every phase of the input is over, none later than `bound`. */
  ghost predicate FinishedBy(s: Sched, i: nat, bound: real) {
    forall p: nat | Has(s, i, p) :: IsComplete(s, i, p) && At(s, i, p).completion <= bound
  }

  /** If an input is finished by `bound`, so is the input before it. */
  lemma PreviousInputFinished(c: Config, s: Sched, j: nat, i: nat, now: real, bound: real)
    requires WellFormed(c) && Invariant(c, s, now) && i == j + 1 < c.numInputs && FinishedBy(s, i, bound)
    ensures FinishedBy(s, j, bound)
  {
    forall p: nat | Has(s, j, p)
      ensures IsComplete(s, j, p) && At(s, j, p).completion <= bound
    {
      assert Exists(c, j, p);
      if Has(s, i, p) {
        PreviousPhaseFinished(c, s, i, p, now);
      } else {
        assert !Exists(c, i, p) && FeedsCompute(c, p);
        var q: nat :| q < |c.phases| && c.phases[q].Compute? && p in c.phases[q].deps;
        assert Exists(c, i, q) && Has(s, i, q) && Exists(c, j, q);
        PreviousPhaseFinished(c, s, i, q, now);
        DependencyFinished(c, s, j, q, p, now);
      }
    }
  }

  /** A finished phase of one input bounds the same phase of the input before. */
  lemma PreviousPhaseFinished(c: Config, s: Sched, i: nat, p: nat, now: real)
    requires WellFormed(c) && Invariant(c, s, now) && 0 < i < c.numInputs
    requires IsComplete(s, i, p) && Has(s, i - 1, p)
    ensures IsComplete(s, i - 1, p) && At(s, i - 1, p).completion <= At(s, i, p).completion
  {
    assert Exists(c, i, p) && InstanceOk(c, s, i, p, now) && InputOk(c, s, i, now);
    StartTimeIsLatest(c, s, i, p);
    assert WaitsFor(c, s, i, p, s.start[i]);
    if c.pipelined {
      assert IsComplete(s, i - 1, p);
      assert WaitsFor(c, s, i, p, At(s, i - 1, p).completion);
    } else {
      assert s.inst[i - 1][p].state == Complete;
      assert InputOk(c, s, i - 1, now);
      assert At(s, i - 1, p).completion <= s.done[i - 1];
    }
  }

  lemma DependencyFinished(c: Config, s: Sched, i: nat, p: nat, d: nat, now: real)
    requires Invariant(c, s, now) && IsComplete(s, i, p) && Has(s, i, d)
    requires p < |c.phases| && d in c.phases[p].deps
    ensures IsComplete(s, i, d) && At(s, i, d).completion <= At(s, i, p).completion
  {
    assert InstanceOk(c, s, i, p, now);
    StartTimeIsLatest(c, s, i, p);
    assert WaitsFor(c, s, i, p, At(s, i, d).completion);
  }

  /** Inputs finish in index order: once an input is finished, every phase of every earlier input
      is finished too, and none of them later than it. */
  lemma {:induction false} InputsFinishInOrder(c: Config, s: Sched, j: nat, i: nat, now: real, bound: real)
    requires WellFormed(c) && Invariant(c, s, now) && j <= i < c.numInputs && FinishedBy(s, i, bound)
    ensures FinishedBy(s, j, bound)
    decreases i
  {
    if j < i {
      PreviousInputFinished(c, s, i - 1, i, now, bound);
      InputsFinishInOrder(c, s, j, i - 1, now, bound);
    }
  }

  lemma CompletionTimesAscend(c: Config, begin: Snapshot, events: seq<Event>, b: Snapshot, j: nat, i: nat)
    requires Reached(c, begin, events, b) && j <= i < c.numInputs
    ensures |b.s.done| == c.numInputs
    ensures b.s.done[i] != UNSET ==> FinishedBy(b.s, j, b.s.done[i])
    ensures b.s.done[i] != UNSET && b.s.done[j] != UNSET ==> b.s.done[j] <= b.s.done[i]
  {
    ReachedInvariant(c, begin, events, b);
    if b.s.done[i] != UNSET {
      assert InputOk(c, b.s, i, b.now) && InputOk(c, b.s, j, b.now);
      assert FinishedBy(b.s, i, b.s.done[i]);
      InputsFinishInOrder(c, b.s, j, i, b.now, b.s.done[i]);
    }
  }

  /** A recorded model completion time is past, is the latest input completion, and is recorded
      only when every phase of every input is over. */
  lemma ModelCompletionIsFinal(c: Config, begin: Snapshot, events: seq<Event>, b: Snapshot)
    requires Reached(c, begin, events, b) && b.s.modelDone != UNSET
    ensures b.s.modelDone <= b.now
    ensures forall i: nat, p: nat | Has(b.s, i, p) :: IsComplete(b.s, i, p) && At(b.s, i, p).completion <= b.s.modelDone
    ensures exists i: nat, p: nat | Has(b.s, i, p) :: At(b.s, i, p).completion == b.s.modelDone
  {
    ReachedInvariant(c, begin, events, b);
    forall i: nat, p: nat | Has(b.s, i, p)
      ensures IsComplete(b.s, i, p) && At(b.s, i, p).completion <= b.s.modelDone
    {
      assert Exists(c, i, p) && InputOk(c, b.s, i, b.now);
      assert b.s.done[i] != UNSET;
      assert b.s.inst[i][p].state == Complete;
    }
    var i :| 0 <= i < c.numInputs && b.s.done[i] == b.s.modelDone;
    assert InputOk(c, b.s, i, b.now);
    var p: nat :| Has(b.s, i, p) && At(b.s, i, p).completion == b.s.done[i];
  }

  // ---------------------------------------------------------------- progress

  /** Passing over phases that are absent or finished does not change what is found. */
  lemma {:induction false} FindSkips(c: Config, s: Sched, i: nat, from: nat, k: nat)
    requires OrderInRange(c) && from <= k < |c.order|
    requires forall j | from <= j < k :: Has(s, i, c.order[j]) ==> IsComplete(s, i, c.order[j])
    ensures FindCurrent(c, s, i, from) == FindCurrent(c, s, i, k)
    decreases k - from
  {
    if from < k { FindSkips(c, s, i, from + 1, k); }
  }

  /** The first unfinished phase in execution order, if any. */
  lemma {:induction false} FirstUnfinished(c: Config, s: Sched, i: nat, from: nat) returns (k: nat)
    requires from <= |c.order|
    requires exists j | from <= j < |c.order| :: Has(s, i, c.order[j]) && !IsComplete(s, i, c.order[j])
    ensures from <= k < |c.order| && Has(s, i, c.order[k]) && !IsComplete(s, i, c.order[k])
    ensures forall j | from <= j < k :: Has(s, i, c.order[j]) ==> IsComplete(s, i, c.order[j])
    decreases |c.order| - from
  {
    if Has(s, i, c.order[from]) && !IsComplete(s, i, c.order[from]) {
      k := from;
    } else {
      k := FirstUnfinished(c, s, i, from + 1);
    }
  }

  /** No deadlock: when all earlier inputs are finished, an input that has started and is not
      finished always has a phase that may run, namely the first unfinished one in order. */
  lemma NoDeadlock(c: Config, s: Sched, i: nat, now: real)
    requires WellFormed(c) && Invariant(c, s, now) && i < c.numInputs && s.start[i] != UNSET
    requires !AllComplete(s, i) && (i > 0 ==> AllComplete(s, i - 1))
    ensures FindCurrent(c, s, i, 0).Found?
  {
    var p: nat :| p in s.inst[i] && s.inst[i][p].state != Complete;
    assert Has(s, i, p) && Exists(c, i, p) && p in c.order;
    var j :| 0 <= j < |c.order| && c.order[j] == p;
    var k := FirstUnfinished(c, s, i, 0);
    var q := c.order[k];
    forall d | d in c.phases[q].deps && Has(s, i, d) ensures IsComplete(s, i, d) {
      assert d in c.order[..k];
      var m :| 0 <= m < k && c.order[m] == d;
    }
    if i > 0 && Has(s, i - 1, q) { assert s.inst[i - 1][q].state == Complete; }
    NeverMisconfigured(c, s, i, q);
    FindSkips(c, s, i, 0, k);
  }
}
