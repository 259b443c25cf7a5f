/** In which order the layers of a model run (mapped_model.py, weight_scheduler.py): within an input,
    each after the one before; when inputs are pipelined, an input starts as soon as the first layer
    of the input before it is over. */
module LayerOrder {
  import opened Phases
  import opened PhaseSchedule
  import opened ScheduleInvariant
  import opened ScheduleRuns
  import opened ScheduleProgress
  import opened SchedulePredictions
  import opened ScheduleBuild

  // ---------------------------------------------------------------- a layer that is over

  /** The layer has been computed and its activations, if it has any to send, have been sent. */
  ghost predicate LayerOver(c: Config, s: Sched, i: nat, l: nat) {
    l in c.computeOf && IsComplete(s, i, c.computeOf[l]) && (l in c.activationOf ==> IsComplete(s, i, c.activationOf[l]))
  }

  /** It was over at time `t` and not before: one of the two ended then, neither later. */
  ghost predicate LayerOverAt(c: Config, s: Sched, i: nat, l: nat, t: real) {
    && LayerOver(c, s, i, l)
    && At(s, i, c.computeOf[l]).completion <= t
    && (l in c.activationOf ==> At(s, i, c.activationOf[l]).completion <= t)
    && (t == At(s, i, c.computeOf[l]).completion || (l in c.activationOf && t == At(s, i, c.activationOf[l]).completion))
  }

  /** From `layer` on, layer `l` is the first that is over, and was so at time `t`. */
  ghost predicate FirstOverAt(c: Config, s: Sched, i: nat, layer: nat, l: nat, t: real) {
    layer <= l < c.numLayers && LayerOverAt(c, s, i, l, t) && forall m: nat | layer <= m < l :: !LayerOver(c, s, i, m)
  }

  ghost predicate NoneOver(c: Config, s: Sched, i: nat, layer: nat) {
    forall m: nat | layer <= m < c.numLayers :: !LayerOver(c, s, i, m)
  }

  ghost predicate SomeOverAt(c: Config, s: Sched, i: nat, layer: nat, t: real) {
    exists l: nat :: FirstOverAt(c, s, i, layer, l, t)
  }

  /** The layer that counts is the first one that is over; none counts exactly when none is over. */
  lemma {:induction false} FirstLayerExact(c: Config, s: Sched, i: nat, layer: nat)
    ensures var done := FirstLayerDone(c, s, i, layer);
            if done.Some? then SomeOverAt(c, s, i, layer, done.value) else NoneOver(c, s, i, layer)
    decreases c.numLayers - layer
  {
    if layer < c.numLayers {
      var done := FirstLayerDone(c, s, i, layer);
      if LayerOver(c, s, i, layer) {
        assert FirstOverAt(c, s, i, layer, layer, done.value);
      } else {
        FirstLayerExact(c, s, i, layer + 1);
        assert done == FirstLayerDone(c, s, i, layer + 1);
        if done.Some? {
          var l: nat :| FirstOverAt(c, s, i, layer + 1, l, done.value);
          assert FirstOverAt(c, s, i, layer, l, done.value);
        }
      }
    }
  }

  lemma LayerStaysOver(c: Config, s: Sched, s': Sched, i: nat, l: nat, t: real)
    requires Grows(c, s, s') && LayerOverAt(c, s, i, l, t)
    ensures LayerOverAt(c, s', i, l, t)
  {
    CompleteStays(c, s, s', i, c.computeOf[l]);
    if l in c.activationOf { CompleteStays(c, s, s', i, c.activationOf[l]); }
  }

  // ---------------------------------------------------------------- layers in a chain

  /** Phases 2l and 2l + 1 compute layer `l` and send its activations, each waiting for the one before. */
  ghost predicate Layered(c: Config) {
    && 0 < c.numLayers && 2 * c.numLayers - 1 <= |c.phases|
    && (forall l: nat :: (l in c.computeOf <==> l < c.numLayers) && (l in c.computeOf ==> c.computeOf[l] == 2 * l))
    && (forall l: nat :: (l in c.activationOf <==> l < c.numLayers - 1) && (l in c.activationOf ==> c.activationOf[l] == 2 * l + 1))
    && (forall k: nat | k < 2 * c.numLayers - 1 :: ChainedAt(c, k))
  }

  ghost predicate ChainedAt(c: Config, k: nat)
    requires k < |c.phases|
  {
    && !c.phases[k].WeightLoading? && (c.phases[k].Compute? <==> k % 2 == 0) && c.phases[k].layer == k / 2
    && (k > 0 ==> k - 1 in c.phases[k].deps)
  }

  /** Both loading strategies build such chains, whatever traffic is attached. */
  lemma BuiltIsLayered(c: Config, strategy: Strategy, traffic: seq<Traffic>)
    requires IsBuilt(c, strategy) && |traffic| == |c.phases|
    ensures Layered(WithTraffic(c, traffic))
  {
    var d := WithTraffic(c, traffic);
    forall k: nat | k < 2 * c.numLayers - 1 ensures ChainedAt(d, k) {
      assert c.phases[k] == BuiltPhase(strategy, c.numLayers, k);
    }
  }

  lemma ChainExists(c: Config, s: Sched, i: nat, k: nat)
    requires Shaped(c, s) && Layered(c) && i < c.numInputs && k < 2 * c.numLayers - 1
    ensures Has(s, i, k) && k < |c.phases|
  {
    assert ChainedAt(c, k);
    assert Exists(c, i, k);
  }

  /** A phase that has begun waited for everything it depends on. */
  lemma BegunAfter(c: Config, s: Sched, i: nat, p: nat, d: nat, now: real)
    requires WellFormed(c) && Invariant(c, s, now) && Has(s, i, p) && Has(s, i, d) && At(s, i, p).start != UNSET
    requires p < |c.phases| && d in c.phases[p].deps
    ensures IsComplete(s, i, d) && At(s, i, d).completion <= At(s, i, p).start
  {
    assert InstanceOk(c, s, i, p, now);
    StartTimeIsLatest(c, s, i, p);
    assert WaitsFor(c, s, i, p, At(s, i, d).completion);
  }

  lemma ChainLink(c: Config, s: Sched, i: nat, k: nat, now: real)
    requires WellFormed(c) && Invariant(c, s, now) && Layered(c) && i < c.numInputs && 0 < k < 2 * c.numLayers - 1
    ensures Has(s, i, k) && Has(s, i, k - 1)
    ensures At(s, i, k).start != UNSET ==> IsComplete(s, i, k - 1) && At(s, i, k - 1).completion <= At(s, i, k).start
    ensures IsComplete(s, i, k) ==> At(s, i, k).start != UNSET && At(s, i, k - 1).completion <= At(s, i, k).completion
  {
    InvariantForm(c, s, now);
    ChainExists(c, s, i, k);
    ChainExists(c, s, i, k - 1);
    assert ChainedAt(c, k);
    assert InstanceOk(c, s, i, k, now);
    hide InstanceOk, Layered;
    if At(s, i, k).start != UNSET { BegunAfter(c, s, i, k, k - 1, now); }
  }

  /** Within an input the layers run one after another: in every reachable state a layer's computation
      that has begun did so no earlier than the layer before had sent its activations, and these were
      sent no earlier than they had been computed. */
  lemma LayersRunInOrder(c: Config, begin: Snapshot, events: seq<Event>, b: Snapshot, i: nat, k: nat)
    requires Reached(c, begin, events, b) && Layered(c) && i < c.numInputs && 0 < k < 2 * c.numLayers - 1
    ensures Has(b.s, i, k) && Has(b.s, i, k - 1)
    ensures At(b.s, i, k).start != UNSET ==> IsComplete(b.s, i, k - 1) && At(b.s, i, k - 1).completion <= At(b.s, i, k).start
  {
    ReachedInvariant(c, begin, events, b);
    ChainLink(c, b.s, i, k, b.now);
  }

  /** What a weight phase of a built schedule waits for. */
  lemma WeightWaits(bare: Config, strategy: Strategy, traffic: seq<Traffic>, l: nat)
    requires IsBuilt(bare, strategy) && |traffic| == |bare.phases| && l < bare.numLayers
    ensures var c, w := WithTraffic(bare, traffic), WeightId(strategy, bare.numLayers, l);
            && w < |c.phases| && c.phases[w].WeightLoading? && l in c.phases[w].layers
            && c.phases[w].deps == if strategy == JustInTime && l > 0 then [2 * l - 1] else []
  {
    var w := WeightId(strategy, bare.numLayers, l);
    assert bare.phases[w] == BuiltPhase(strategy, bare.numLayers, w);
    LayersContains(bare.numLayers, l);
  }

  lemma NoWaitStartsWithInput(c: Config, s: Sched, p: nat)
    requires |s.start| > 0 && p < |c.phases| && c.phases[p].deps == []
    ensures StartTime(c, s, 0, p) == s.start[0]
  {
  }

  /** Loading just in time, a layer's weights are not loaded before the layer before it has sent its
      activations; loading all at once, or the first layer's, begins with the model's first input. */
  lemma WeightsLoadInOrder(bare: Config, strategy: Strategy, traffic: seq<Traffic>, begin: Snapshot, events: seq<Event>, b: Snapshot, l: nat)
    requires IsBuilt(bare, strategy) && |traffic| == |bare.phases| && l < bare.numLayers
    requires Reached(WithTraffic(bare, traffic), begin, events, b)
    ensures var w := WeightId(strategy, bare.numLayers, l);
            && Has(b.s, 0, w) && |b.s.start| > 0
            && (At(b.s, 0, w).start != UNSET ==>
                  if strategy == JustInTime && l > 0 then
                    Has(b.s, 0, 2 * l - 1) && IsComplete(b.s, 0, 2 * l - 1) && At(b.s, 0, 2 * l - 1).completion <= At(b.s, 0, w).start
                  else At(b.s, 0, w).start == b.s.start[0])
  {
    hide Invariant, IsBuilt, WithTraffic, Legal, After, Layered, Exclusive, StartTime, Grows, WellFormed;
    var c, w := WithTraffic(bare, traffic), WeightId(strategy, bare.numLayers, l);
    ReachedInvariant(c, begin, events, b);
    InvariantForm(c, b.s, b.now);
    SameSizes(bare, traffic);
    BuiltIsLayered(bare, strategy, traffic);
    BuiltIsWellFormed(bare, strategy);
    TrafficKeepsForm(bare, traffic);
    WeightWaits(bare, strategy, traffic, l);
    SomeInput(c);
    assert Exists(c, 0, w) && Has(b.s, 0, w);
    if strategy == JustInTime && l > 0 {
      ChainExists(c, b.s, 0, 2 * l - 1);
      if At(b.s, 0, w).start != UNSET { BegunAfter(c, b.s, 0, w, 2 * l - 1, b.now); }
    } else if At(b.s, 0, w).start != UNSET {
      NoWaitStartsWithInput(c, b.s, w);
      BuiltStartsExactly(c, begin, events, b, 0, w);
    }
  }

  lemma SomeInput(c: Config)
    requires WellFormed(c)
    ensures c.numInputs > 0
  {
  }

  lemma SameSizes(bare: Config, traffic: seq<Traffic>)
    requires |traffic| == |bare.phases|
    ensures var c := WithTraffic(bare, traffic); c.numLayers == bare.numLayers && |c.phases| == |bare.phases|
  {
  }

  lemma BuiltStartsExactly(c: Config, begin: Snapshot, events: seq<Event>, b: Snapshot, i: nat, p: nat)
    requires Reached(c, begin, events, b) && Exclusive(c) && Has(b.s, i, p) && At(b.s, i, p).start != UNSET
    ensures i < |b.s.start| && p < |c.phases| && At(b.s, i, p).start == StartTime(c, b.s, i, p)
  {
    hide StartTime, Invariant, WellFormed, Exclusive;
    ReachedInvariant(c, begin, events, b);
    StartsAreExact(c, begin, events, b, i, p);
    InstanceIs(c, b.s, i, p, b.now);
  }

  lemma InstanceIs(c: Config, s: Sched, i: nat, p: nat, now: real)
    requires Invariant(c, s, now) && Has(s, i, p)
    ensures Shaped(c, s) && i < |s.start| && p < |c.phases|
    ensures At(s, i, p).start != UNSET ==> At(s, i, p).start == StartTime(c, s, i, p) || Skipped(c, p, At(s, i, p))
  {
    assert Exists(c, i, p) && InstanceOk(c, s, i, p, now);
  }

  // ---------------------------------------------------------------- pipelined inputs

  /** Every input but the first that has started did so when a layer of the input before was over;
      `first` asks that it be the first layer. */
  ghost predicate StartsExplained(c: Config, s: Sched, first: bool)
    requires Shaped(c, s)
  {
    forall i: nat | 0 < i < c.numInputs && s.start[i] != UNSET :: ExplainedBy(c, s, i - 1, s.start[i], first)
  }

  /** At time `t` a layer of input `i` was over. */
  ghost predicate ExplainedBy(c: Config, s: Sched, i: nat, t: real, first: bool) {
    exists l: nat :: l < c.numLayers && (first ==> l == 0) && LayerOverAt(c, s, i, l, t)
  }

  lemma StaysExplained(c: Config, s: Sched, s': Sched, i: nat, t: real, first: bool)
    requires Grows(c, s, s') && ExplainedBy(c, s, i, t, first)
    ensures ExplainedBy(c, s', i, t, first)
  {
    var l: nat :| l < c.numLayers && (first ==> l == 0) && LayerOverAt(c, s, i, l, t);
    LayerStaysOver(c, s, s', i, l, t);
  }

  /** In a chain, a layer is over only after all layers before it. */
  lemma {:induction false} FirstIsOver(c: Config, s: Sched, i: nat, l: nat, now: real)
    requires WellFormed(c) && Invariant(c, s, now) && Layered(c) && i < c.numInputs && l < c.numLayers && LayerOver(c, s, i, l)
    ensures LayerOver(c, s, i, 0)
    decreases l
  {
    hide WellFormed, Invariant;
    if l > 0 {
      ChainLink(c, s, i, 2 * l, now);
      ChainLink(c, s, i, 2 * l - 1, now);
      FirstIsOver(c, s, i, l - 1, now);
    }
  }

  /** A start that a timing pass fills in is explained by the state before the pass. */
  lemma FilledIsExplained(c: Config, s: Sched, i: nat, first: bool, now: real)
    requires WellFormed(c) && Invariant(c, s, now) && Shaped(c, s) && c.pipelined && 0 < i < c.numInputs && (first ==> Layered(c))
    requires s.start[i] == UNSET && PassStart(c, s, i) != UNSET
    ensures ExplainedBy(c, s, i - 1, PassStart(c, s, i), first)
  {
    hide Invariant, WellFormed, Layered, LayerOver, LayerOverAt;
    FirstLayerExact(c, s, i - 1, 0);
    var t, j: nat := PassStart(c, s, i), i - 1;
    var l: nat :| FirstOverAt(c, s, j, 0, l, t);
    if first {
      OverAtIsOver(c, s, j, l, t);
      FirstIsOver(c, s, j, l, now);
    }
  }

  lemma OverAtIsOver(c: Config, s: Sched, i: nat, l: nat, t: real)
    requires LayerOverAt(c, s, i, l, t)
    ensures LayerOver(c, s, i, l)
  {
  }

  lemma ScanInputKeepsStarts(c: Config, s: Sched, i: nat, now: real)
    requires Shaped(c, s) && i < c.numInputs && OrderInRange(c)
    ensures ScanInput(c, s, i, now).start == s.start
  {
    hide FindCurrent, VisitPhase;
  }

  lemma {:induction false} ScanKeepsStarts(c: Config, s: Sched, n: nat, now: real)
    requires Shaped(c, s) && n <= c.numInputs && OrderInRange(c)
    ensures ScanInputs(c, s, n, now).start == s.start
    decreases n
  {
    hide ScanInput;
    if n > 0 {
      ScanKeepsStarts(c, s, n - 1, now);
      ScanInputKeepsStarts(c, ScanInputs(c, s, n - 1, now), n - 1, now);
    }
  }

  /** Only a timing pass gives an input a start. */
  lemma EventStarts(c: Config, a: Snapshot, e: Event, i: nat)
    requires WellFormed(c) && Invariant(c, a.s, a.now) && Enabled(c, a, e) && i < c.numInputs
    ensures Shaped(c, a.s) && Shaped(c, Next(c, a, e).s)
    ensures Next(c, a, e).s.start[i] == if e.Derive? then PassStart(c, a.s, i) else a.s.start[i]
  {
    hide ScanInputs, TimeModel, AnswerAll, Invariant, WellFormed, PassStart;
    InvariantForm(c, a.s, a.now);
    NextKeepsInvariant(c, a, e);
    InvariantForm(c, Next(c, a, e).s, Next(c, a, e).now);
    match e
    case Tick(time) =>
    case Scan => ScanKeepsStarts(c, a.s, c.numInputs, a.now);
    case Answers(latencies) => AnswersKeepStarts(a.s, latencies, a.now);
    case Derive => PassIsLocal(c, a.s, i);
  }

  lemma AnswersKeepStarts(s: Sched, answers: map<(nat, nat), real>, now: real)
    ensures AnswerAll(s, answers, now).start == s.start
  {
  }

  lemma NextExplained(c: Config, a: Snapshot, e: Event, first: bool)
    requires WellFormed(c) && Invariant(c, a.s, a.now) && Shaped(c, a.s) && Enabled(c, a, e) && c.pipelined && (first ==> Layered(c))
    requires StartsExplained(c, a.s, first)
    ensures var b := Next(c, a, e); Shaped(c, b.s) && StartsExplained(c, b.s, first)
  {
    hide Next, Invariant, WellFormed, Layered, PassStart, ExplainedBy, Grows, Enabled;
    var b := Next(c, a, e);
    NextKeepsInvariant(c, a, e);
    InvariantForm(c, b.s, b.now);
    forall i: nat | 0 < i < c.numInputs && b.s.start[i] != UNSET ensures ExplainedBy(c, b.s, i - 1, b.s.start[i], first) {
      EventStarts(c, a, e, i);
      if a.s.start[i] == UNSET { FilledIsExplained(c, a.s, i, first, a.now); } else { StartStays(c, a.s, i); }
      StaysExplained(c, a.s, b.s, i - 1, b.s.start[i], first);
    }
  }

  lemma StartStays(c: Config, s: Sched, i: nat)
    requires Shaped(c, s) && i < c.numInputs && s.start[i] != UNSET
    ensures PassStart(c, s, i) == s.start[i]
  {
  }

  lemma {:induction false} RunExplained(c: Config, a: Snapshot, events: seq<Event>, first: bool)
    requires WellFormed(c) && Invariant(c, a.s, a.now) && Shaped(c, a.s) && Legal(c, a, events) && c.pipelined && (first ==> Layered(c))
    requires StartsExplained(c, a.s, first)
    ensures var b := After(c, a, events); Shaped(c, b.s) && StartsExplained(c, b.s, first)
    decreases |events|
  {
    hide Next, Invariant, WellFormed, Layered, StartsExplained, Enabled, Grows;
    if events != [] {
      NextKeepsInvariant(c, a, events[0]);
      NextExplained(c, a, events[0], first);
      RunExplained(c, Next(c, a, events[0]), events[1..], first);
    }
  }

  lemma NoneStarted(c: Config, s: Sched, now: real, first: bool)
    requires Initial(c, s, now)
    ensures StartsExplained(c, s, first)
  {
  }

  /** When inputs are pipelined, in every reachable state an input that has started did so when some
      layer of the input `i` before was over. */
  lemma PipelinedStart(c: Config, begin: Snapshot, events: seq<Event>, b: Snapshot, i: nat)
    requires Reached(c, begin, events, b) && c.pipelined && i + 1 < c.numInputs
    ensures i + 1 < |b.s.start|
    ensures b.s.start[i + 1] != UNSET ==> ExplainedBy(c, b.s, i, b.s.start[i + 1], false)
  {
    hide LayerOverAt, Legal, After, Invariant, WellFormed;
    PipelineExplained(c, begin, events, b, false);
    if b.s.start[i + 1] != UNSET { assert ExplainedBy(c, b.s, (i + 1) - 1, b.s.start[i + 1], false); }
  }

  lemma PipelineExplained(c: Config, begin: Snapshot, events: seq<Event>, b: Snapshot, first: bool)
    requires Reached(c, begin, events, b) && c.pipelined && (first ==> Layered(c))
    ensures WellFormed(c) && Invariant(c, b.s, b.now) && Shaped(c, b.s) && StartsExplained(c, b.s, first)
  {
    hide Invariant, WellFormed, Layered, StartsExplained, Legal, After;
    ReachedInvariant(c, begin, events, b);
    InitialInvariant(c, begin.s, begin.now);
    InvariantForm(c, begin.s, begin.now);
    NoneStarted(c, begin.s, begin.now, first);
    RunExplained(c, begin, events, first);
  }

  /** In a chain that is the first layer: the input starts when the input before it has sent the first
      layer's activations, or has computed its only layer. */
  lemma PipelinedStartIsFirst(c: Config, begin: Snapshot, events: seq<Event>, b: Snapshot, i: nat)
    requires Reached(c, begin, events, b) && c.pipelined && Layered(c) && i + 1 < c.numInputs
    ensures i + 1 < |b.s.start|
    ensures b.s.start[i + 1] != UNSET ==>
              var p := if c.numLayers > 1 then 1 else 0; IsComplete(b.s, i, p) && b.s.start[i + 1] == At(b.s, i, p).completion
  {
    hide Legal, After, Invariant, WellFormed, Layered, LayerOverAt;
    PipelineExplained(c, begin, events, b, true);
    if b.s.start[i + 1] != UNSET {
      assert ExplainedBy(c, b.s, (i + 1) - 1, b.s.start[i + 1], true);
      FirstLayerEnds(c, b.s, i, b.s.start[i + 1], b.now);
    }
  }

  lemma FirstLayerEnds(c: Config, s: Sched, i: nat, t: real, now: real)
    requires WellFormed(c) && Invariant(c, s, now) && Layered(c) && i < c.numInputs && LayerOverAt(c, s, i, 0, t)
    ensures var p := if c.numLayers > 1 then 1 else 0; IsComplete(s, i, p) && t == At(s, i, p).completion
  {
    hide WellFormed, Invariant, ChainedAt;
    if c.numLayers > 1 { ChainLink(c, s, i, 1, now); }
  }

  /** And it starts as soon as that: a timing pass gives it no start exactly when no layer of the input
      before it was over. */
  lemma PipelinedStartIsPrompt(c: Config, s: Sched, i: nat)
    requires Shaped(c, s) && c.pipelined && i + 1 < c.numInputs && s.start[i + 1] == UNSET
    ensures Shaped(c, TimeModel(c, s))
    ensures if NoneOver(c, s, i, 0) then TimeModel(c, s).start[i + 1] == UNSET
            else SomeOverAt(c, s, i, 0, TimeModel(c, s).start[i + 1])
  {
    hide LayerOverAt, LayerOver, TimeModel;
    PassIsLocal(c, s, i + 1);
    FirstLayerExact(c, s, i, 0);
    var done := FirstLayerDone(c, s, i, 0);
    if done.Some? {
      var l: nat :| FirstOverAt(c, s, i, 0, l, done.value);
      OverAtIsOver(c, s, i, l, done.value);
    }
  }
}
