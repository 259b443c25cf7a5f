/** How a model's phases come about: the default compute/transfer chain (mapped_model.py) and the
    weight phases the two loading strategies add and wire in (weight_scheduler.py). */
module ScheduleBuild {
  import opened Phases
  import opened PhaseSchedule
  import opened ScheduleInvariant
  import opened ScheduleProgress
  import PhaseOrder

  datatype Strategy = AllAtOnce | JustInTime

  // ---------------------------------------------------------------- closed forms

  /** Phase `k` of the default schedule of `n` layers: computes at even positions, the transfer of
      each layer's activations, except the last layer's, right after it. */
  function DefaultPhase(k: nat): Phase {
    if k % 2 == 0 then Compute(if k == 0 then [] else [k - 1], k / 2)
    else ActivationComm([k - 1], k / 2, map[])
  }

  function DefaultPhases(n: nat): seq<Phase>
    requires n > 0
  {
    seq(2 * n - 1, k requires 0 <= k => DefaultPhase(k))
  }

  function Layers(n: nat): seq<nat> {
    seq(n, l requires 0 <= l => l)
  }

  /** Where the phase that loads layer `l` ends up. */
  function WeightId(strategy: Strategy, n: nat, l: nat): nat
    requires n > 0
  {
    2 * n - 1 + if strategy == AllAtOnce then 0 else l
  }

  /** Phase `k` once weights are wired in: each compute also waits for its weights; just-in-time
      loading of a layer waits for the layer before to have sent its activations. */
  function BuiltPhase(strategy: Strategy, n: nat, k: nat): Phase
    requires n > 0
  {
    if k >= 2 * n - 1 then
      if strategy == AllAtOnce then WeightLoading([], Layers(n), map[])
      else
        var l := k - (2 * n - 1);
        WeightLoading(if l == 0 then [] else [2 * l - 1], [l], map[])
    else if k % 2 == 0 then Compute((if k == 0 then [] else [k - 1]) + [WeightId(strategy, n, k / 2)], k / 2)
    else DefaultPhase(k)
  }

  function WeightCount(strategy: Strategy, n: nat): nat {
    if strategy == AllAtOnce then 1 else n
  }

  function BuiltPhases(strategy: Strategy, n: nat): seq<Phase>
    requires n > 0
  {
    seq(2 * n - 1 + WeightCount(strategy, n), k requires 0 <= k => BuiltPhase(strategy, n, k))
  }

  function AddDependency(p: Phase, d: nat): Phase {
    match p
    case Compute(deps, layer) => Compute(deps + [d], layer)
    case ActivationComm(deps, layer, traffic) => ActivationComm(deps + [d], layer, traffic)
    case WeightLoading(deps, layers, traffic) => WeightLoading(deps + [d], layers, traffic)
  }

  // ---------------------------------------------------------------- building

  /** Builds the default schedule: first the phases in layer order, then each compute's wait for
      the transfer before it. */
  method BuildDefaultSchedule(n: nat) returns (phases: seq<Phase>, computeOf: map<nat, nat>, activationOf: map<nat, nat>)
    requires n > 0
    ensures phases == DefaultPhases(n)
    ensures forall l: nat :: (l in computeOf <==> l < n) && (l in computeOf ==> computeOf[l] == 2 * l)
    ensures forall l: nat :: (l in activationOf <==> l < n - 1) && (l in activationOf ==> activationOf[l] == 2 * l + 1)
  {
    phases, computeOf, activationOf := [], map[], map[];
    for layer := 0 to n
      invariant |phases| == if layer < n then 2 * layer else 2 * n - 1
      invariant forall k: nat | k < |phases| :: phases[k] == (if k % 2 == 0 then Compute([], k / 2) else DefaultPhase(k))
      invariant forall l: nat :: (l in computeOf <==> l < layer) && (l in computeOf ==> computeOf[l] == 2 * l)
      invariant forall l: nat ::
                  (l in activationOf <==> l < layer && l < n - 1) && (l in activationOf ==> activationOf[l] == 2 * l + 1)
    {
      computeOf := computeOf[layer := |phases|];
      phases := phases + [Compute([], layer)];
      if layer < n - 1 {
        activationOf := activationOf[layer := |phases|];
        phases := phases + [ActivationComm([computeOf[layer]], layer, map[])];
      }
    }
    for layer := 1 to n
      invariant |phases| == 2 * n - 1
      invariant forall k: nat | k < |phases| ::
                  phases[k] == (if k % 2 == 0 && k >= 2 * layer then Compute([], k / 2) else DefaultPhase(k))
    {
      var id := computeOf[layer];
      if layer - 1 in activationOf {
        phases := phases[id := AddDependency(phases[id], activationOf[layer - 1])];
      }
    }
  }

  method GenerateSchedule(strategy: Strategy, n: nat) returns (schedule: seq<seq<nat>>)
    ensures |schedule| == WeightCount(strategy, n)
    ensures forall j: nat | j < |schedule| :: schedule[j] == if strategy == AllAtOnce then Layers(n) else [j]
  {
    if strategy == AllAtOnce {
      schedule := [Layers(n)];
    } else {
      schedule := [];
      for l := 0 to n
        invariant |schedule| == l && forall j: nat | j < l :: schedule[j] == [j]
      {
        schedule := schedule + [[l]];
      }
    }
  }

  method MapLayers(weightOf: map<nat, nat>, layers: seq<nat>, id: nat) returns (result: map<nat, nat>)
    ensures result.Keys == weightOf.Keys + (set l | l in layers)
    ensures forall l | l in result :: result[l] == if l in layers then id else weightOf[l]
  {
    result := weightOf;
    for k := 0 to |layers|
      invariant result.Keys == weightOf.Keys + (set l | l in layers[..k])
      invariant forall l | l in result :: result[l] == if l in layers[..k] then id else weightOf[l]
    {
      result := result[layers[k] := id];
      assert layers[..k + 1] == layers[..k] + [layers[k]];
    }
    assert layers[..|layers|] == layers;
  }

  /** Layer `l` is mapped to the last of the first `n` schedule entries that lists it. */
  ghost predicate LastListing(schedule: seq<seq<nat>>, n: nat, base: nat, weightOf: map<nat, nat>, l: nat)
    requires n <= |schedule|
  {
    if l in weightOf then
      && base <= weightOf[l] < base + n && l in schedule[weightOf[l] - base]
      && forall j | weightOf[l] - base < j < n :: l !in schedule[j]
    else forall j | 0 <= j < n :: l !in schedule[j]
  }

  function WeightPhase(layers: seq<nat>): Phase {
    WeightLoading([], layers, map[])
  }

  /** Appends one weight phase per schedule entry; a layer listed more than once is mapped to the
      last phase that lists it. */
  method AddWeightPhases(phases: seq<Phase>, schedule: seq<seq<nat>>) returns (result: seq<Phase>, weightOf: map<nat, nat>)
    ensures |result| == |phases| + |schedule| && result[..|phases|] == phases
    ensures forall k: nat | |phases| <= k < |result| :: result[k] == WeightPhase(schedule[k - |phases|])
    ensures forall l: nat :: LastListing(schedule, |schedule|, |phases|, weightOf, l)
  {
    result, weightOf := phases, map[];
    for e := 0 to |schedule|
      invariant |result| == |phases| + e && result[..|phases|] == phases
      invariant forall k: nat | |phases| <= k < |result| :: result[k] == WeightPhase(schedule[k - |phases|])
      invariant forall l: nat :: LastListing(schedule, e, |phases|, weightOf, l)
    {
      ghost var before := weightOf;
      weightOf := MapLayers(weightOf, schedule[e], |result|);
      result := result + [WeightPhase(schedule[e])];
      ghost var next: nat := e + 1;
      forall l: nat ensures LastListing(schedule, next, |phases|, weightOf, l) {
        assert LastListing(schedule, e, |phases|, before, l);
      }
    }
  }

  // ---------------------------------------------------------------- wiring the weight phases in

  /** Adds a wait unless it is already there. */
  function AddOnce(p: Phase, d: nat): Phase {
    if d in p.deps then p else AddDependency(p, d)
  }

  /** All weights first: every compute phase waits for the one weight phase. */
  method ConfigureAllAtOnce(n: nat, phases: seq<Phase>, computeOf: map<nat, nat>, weightOf: map<nat, nat>)
    returns (result: seq<Phase>)
    requires forall l | l in computeOf :: computeOf[l] < |phases|
    requires forall l, m | l in computeOf && m in computeOf && computeOf[l] == computeOf[m] :: l == m
    ensures |result| == |phases|
    ensures forall k: nat | k < |phases| :: result[k] ==
              if 0 in weightOf && (exists l: nat :: l < n && l in computeOf && computeOf[l] == k)
              then AddOnce(phases[k], weightOf[0]) else phases[k]
  {
    result := phases;
    if 0 !in weightOf { return; }
    for layer := 0 to n
      invariant |result| == |phases|
      invariant forall k: nat | k < |phases| :: result[k] ==
                  if exists l: nat :: l < layer && l in computeOf && computeOf[l] == k
                  then AddOnce(phases[k], weightOf[0]) else phases[k]
    {
      if layer in computeOf {
        var id := computeOf[layer];
        result := result[id := AddOnce(result[id], weightOf[0])];
      }
    }
  }

  /** Phase `k` belongs to one of the first `n` layers under the given map. */
  ghost predicate Listed(n: nat, of: map<nat, nat>, k: nat) {
    exists l: nat :: l < n && l in of && of[l] == k
  }

  /** Phases not listed by the map are as they were. */
  ghost predicate Untouched(n: nat, of: map<nat, nat>, phases: seq<Phase>, result: seq<Phase>) {
    |result| == |phases| && forall k: nat | k < |phases| && !Listed(n, of, k) :: result[k] == phases[k]
  }

  /** Just in time: loading a layer waits for the layer before to have sent its activations (or,
      without a transfer, to have computed). */
  method DelayWeights(n: nat, phases: seq<Phase>, computeOf: map<nat, nat>, activationOf: map<nat, nat>, weightOf: map<nat, nat>)
    returns (result: seq<Phase>)
    requires n > 0
    requires forall l | l in weightOf :: weightOf[l] < |phases|
    requires forall l, m | l in weightOf && m in weightOf && weightOf[l] == weightOf[m] :: l == m
    ensures Untouched(n, weightOf, phases, result)
    ensures forall l: nat | l < n && l in weightOf ::
              result[weightOf[l]] == AfterLayer(phases[weightOf[l]], l, computeOf, activationOf)
  {
    result := phases;
    for layer := 1 to n
      invariant Untouched(layer, weightOf, phases, result)
      invariant forall l: nat | l < layer && l in weightOf ::
                  result[weightOf[l]] == AfterLayer(phases[weightOf[l]], l, computeOf, activationOf)
    {
      if layer in weightOf {
        var id := weightOf[layer];
        if layer - 1 in activationOf {
          result := result[id := AddOnce(result[id], activationOf[layer - 1])];
        } else if layer - 1 in computeOf {
          result := result[id := AddOnce(result[id], computeOf[layer - 1])];
        }
      }
    }
  }

  function AfterLayer(p: Phase, l: nat, computeOf: map<nat, nat>, activationOf: map<nat, nat>): Phase {
    if l == 0 then p
    else if l - 1 in activationOf then AddOnce(p, activationOf[l - 1])
    else if l - 1 in computeOf then AddOnce(p, computeOf[l - 1])
    else p
  }

  /** Just in time: each compute phase waits for its own weights. */
  method GuardComputes(n: nat, phases: seq<Phase>, computeOf: map<nat, nat>, weightOf: map<nat, nat>) returns (result: seq<Phase>)
    requires forall l | l in computeOf :: computeOf[l] < |phases|
    requires forall l, m | l in computeOf && m in computeOf && computeOf[l] == computeOf[m] :: l == m
    ensures Untouched(n, computeOf, phases, result)
    ensures forall l: nat | l < n && l in computeOf ::
              result[computeOf[l]] == if l in weightOf then AddOnce(phases[computeOf[l]], weightOf[l]) else phases[computeOf[l]]
  {
    result := phases;
    for layer := 0 to n
      invariant Untouched(layer, computeOf, phases, result)
      invariant forall l: nat | l < layer && l in computeOf ::
                  result[computeOf[l]] == if l in weightOf then AddOnce(phases[computeOf[l]], weightOf[l]) else phases[computeOf[l]]
    {
      if layer in computeOf && layer in weightOf {
        var id := computeOf[layer];
        result := result[id := AddOnce(result[id], weightOf[layer])];
      }
    }
  }

  // ---------------------------------------------------------------- the whole construction

  function DepGraph(phases: seq<Phase>): PhaseOrder.Graph {
    seq(|phases|, k requires 0 <= k < |phases| => phases[k].deps)
  }

  /** A rank that every dependency of the built schedule lowers. */
  ghost function BuiltRank(strategy: Strategy, n: nat, k: nat): int
    requires n > 0
  {
    if k >= 2 * n - 1 then (if strategy == AllAtOnce then 0 else 3 * (k - (2 * n - 1)))
    else if k % 2 == 0 then 3 * (k / 2) + 1 else 3 * (k / 2) + 2
  }

  lemma BuiltDependencies(strategy: Strategy, n: nat, k: nat, d: nat)
    requires n > 0 && k < 2 * n - 1 + WeightCount(strategy, n) && d in BuiltPhase(strategy, n, k).deps
    ensures d < 2 * n - 1 + WeightCount(strategy, n) && BuiltRank(strategy, n, d) < BuiltRank(strategy, n, k)
  {
  }

  /** The built schedule has no cycle of dependencies, for either strategy and any depth. */
  lemma BuiltIsAcyclic(strategy: Strategy, n: nat)
    requires n > 0
    ensures PhaseOrder.Closed(DepGraph(BuiltPhases(strategy, n))) && PhaseOrder.Acyclic(DepGraph(BuiltPhases(strategy, n)))
  {
    var phases := BuiltPhases(strategy, n);
    var g := DepGraph(phases);
    forall p: nat, k: nat | p < |g| && k < |g[p]| ensures g[p][k] < |g| {
      BuiltDependencies(strategy, n, p, g[p][k]);
    }
    var rank := seq(|g|, k requires 0 <= k => BuiltRank(strategy, n, k));
    forall p: nat, d | p < |g| && d in g[p] ensures d < |g| && rank[d] < rank[p] {
      BuiltDependencies(strategy, n, p, d);
    }
    PhaseOrder.RankedIsAcyclic(g, rank);
  }

  /** Configuration of a model of `n` layers built with the given strategy. */
  ghost predicate IsBuilt(c: Config, strategy: Strategy) {
    && c.numLayers > 0
    && c.phases == BuiltPhases(strategy, c.numLayers)
    && PhaseOrder.Permutation(DepGraph(c.phases), c.order) && PhaseOrder.Ordered(DepGraph(c.phases), c.order)
    && (forall l: nat :: (l in c.computeOf <==> l < c.numLayers) && (l in c.computeOf ==> c.computeOf[l] == 2 * l))
    && (forall l: nat :: (l in c.activationOf <==> l < c.numLayers - 1) && (l in c.activationOf ==> c.activationOf[l] == 2 * l + 1))
    && (forall l: nat :: (l in c.weightOf <==> l < c.numLayers) && (l in c.weightOf ==> c.weightOf[l] == WeightId(strategy, c.numLayers, l)))
  }

  lemma LayersContains(n: nat, l: nat)
    ensures l in Layers(n) <==> l < n
  {
    if l < n { assert Layers(n)[l] == l; }
  }

  lemma BuiltGuarded(c: Config, strategy: Strategy, p: nat)
    requires IsBuilt(c, strategy) && p < |c.phases|
    ensures WeightsGuarded(c, p)
  {
    if c.phases[p].Compute? {
      var l := c.phases[p].layer;
      assert c.phases[p] == BuiltPhase(strategy, c.numLayers, p) && l == p / 2 && l < c.numLayers;
      var w := c.weightOf[l];
      assert c.phases[w] == BuiltPhase(strategy, c.numLayers, w);
      LayersContains(c.numLayers, l);
    }
  }

  /** Layer `l` is loaded by phase `WeightId(l)` and by no other. */
  lemma BuiltLoads(c: Config, strategy: Strategy, w: nat, l: nat)
    requires IsBuilt(c, strategy) && w < |c.phases| && c.phases[w].WeightLoading? && l in c.phases[w].layers
    ensures l < c.numLayers && w == WeightId(strategy, c.numLayers, l)
  {
    assert c.phases[w] == BuiltPhase(strategy, c.numLayers, w);
    LayersContains(c.numLayers, l);
  }

  lemma BuiltFeeds(c: Config, strategy: Strategy, w: nat)
    requires IsBuilt(c, strategy) && w < |c.phases| && c.phases[w].WeightLoading?
    ensures c.phases[w].layers != [] && FeedsCompute(c, w)
  {
    assert c.phases[w] == BuiltPhase(strategy, c.numLayers, w);
    var l := c.phases[w].layers[0];
    BuiltLoads(c, strategy, w, l);
    assert c.phases[2 * l] == BuiltPhase(strategy, c.numLayers, 2 * l);
  }

  /** What is built is well formed: ordered, with every compute phase guarded by its weights, and
      every layer loaded by one phase only. */
  lemma BuiltIsWellFormed(c: Config, strategy: Strategy)
    requires IsBuilt(c, strategy)
    ensures Exclusive(c) && (c.numInputs > 0 ==> WellFormed(c))
  {
    forall p: nat | p < |c.phases| ensures WeightsGuarded(c, p) {
      BuiltGuarded(c, strategy, p);
    }
    forall w: nat | w < |c.phases| && c.phases[w].WeightLoading?
      ensures c.phases[w].layers != [] && FeedsCompute(c, w)
    {
      BuiltFeeds(c, strategy, w);
    }
    forall w: nat, v: nat, l | w < |c.phases| && v < |c.phases| && c.phases[w].WeightLoading? && c.phases[v].WeightLoading?
                               && l in c.phases[w].layers && l in c.phases[v].layers
      ensures v == w
    {
      BuiltLoads(c, strategy, w, l);
      BuiltLoads(c, strategy, v, l);
    }
    forall k, d | 0 <= k < |c.order| && d in c.phases[c.order[k]].deps ensures d in c.order[..k] {
      assert d in DepGraph(c.phases)[c.order[k]];
    }
    assert c.phases[0] == BuiltPhase(strategy, c.numLayers, 0);
    assert 0 in c.activationOf ==> c.phases[1] == BuiltPhase(strategy, c.numLayers, 1);
    hide BuiltPhase, BuiltPhases;
  }

  /** The default schedule with its unwired weight phases. */
  ghost predicate Unwired(strategy: Strategy, n: nat, phases: seq<Phase>, computeOf: map<nat, nat>, activationOf: map<nat, nat>, weightOf: map<nat, nat>) {
    && n > 0 && |phases| == 2 * n - 1 + WeightCount(strategy, n)
    && (forall k: nat | k < 2 * n - 1 :: phases[k] == DefaultPhase(k))
    && (forall k: nat | 2 * n - 1 <= k < |phases| ::
          phases[k] == WeightPhase(if strategy == AllAtOnce then Layers(n) else [k - (2 * n - 1)]))
    && (forall l: nat :: (l in computeOf <==> l < n) && (l in computeOf ==> computeOf[l] == 2 * l))
    && (forall l: nat :: (l in activationOf <==> l < n - 1) && (l in activationOf ==> activationOf[l] == 2 * l + 1))
    && (forall l: nat :: (l in weightOf <==> l < n) && (l in weightOf ==> weightOf[l] == WeightId(strategy, n, l)))
  }

  method BuildUnwired(strategy: Strategy, n: nat)
    returns (phases: seq<Phase>, computeOf: map<nat, nat>, activationOf: map<nat, nat>, weightOf: map<nat, nat>)
    requires n > 0
    ensures Unwired(strategy, n, phases, computeOf, activationOf, weightOf)
  {
    var base;
    base, computeOf, activationOf := BuildDefaultSchedule(n);
    var schedule := GenerateSchedule(strategy, n);
    phases, weightOf := AddWeightPhases(base, schedule);
    forall l: nat ensures (l in weightOf <==> l < n) && (l in weightOf ==> weightOf[l] == WeightId(strategy, n, l)) {
      assert LastListing(schedule, |schedule|, |base|, weightOf, l);
      LayersContains(n, l);
      if l < n { assert l in schedule[if strategy == AllAtOnce then 0 else l]; }
    }
    forall k: nat | k < 2 * n - 1 ensures phases[k] == DefaultPhase(k) {
      assert phases[..|base|][k] == base[k];
    }
  }

  lemma GuardedDefault(strategy: Strategy, n: nat, k: nat)
    requires n > 0 && k < 2 * n - 1
    ensures k % 2 == 0 ==> AddOnce(DefaultPhase(k), WeightId(strategy, n, k / 2)) == BuiltPhase(strategy, n, k)
    ensures k % 2 == 1 ==> DefaultPhase(k) == BuiltPhase(strategy, n, k)
  {
  }

  lemma DelayedWeight(n: nat, k: nat, computeOf: map<nat, nat>, activationOf: map<nat, nat>)
    requires n > 0 && 2 * n - 1 <= k < 3 * n - 1
    requires forall l: nat :: (l in activationOf <==> l < n - 1) && (l in activationOf ==> activationOf[l] == 2 * l + 1)
    ensures var l := k - (2 * n - 1);
            AfterLayer(WeightPhase([l]), l, computeOf, activationOf) == BuiltPhase(JustInTime, n, k)
  {
  }

  method WireAllAtOnce(n: nat, phases: seq<Phase>, computeOf: map<nat, nat>, ghost activationOf: map<nat, nat>, weightOf: map<nat, nat>)
    returns (result: seq<Phase>)
    requires Unwired(AllAtOnce, n, phases, computeOf, activationOf, weightOf)
    ensures result == BuiltPhases(AllAtOnce, n)
  {
    result := ConfigureAllAtOnce(n, phases, computeOf, weightOf);
    hide AddOnce, DefaultPhase, BuiltPhase;
    forall k: nat | k < |result| ensures result[k] == BuiltPhase(AllAtOnce, n, k) {
      if k < 2 * n - 1 {
        GuardedDefault(AllAtOnce, n, k);
        assert k % 2 == 0 ==> k / 2 < n && k / 2 in computeOf && computeOf[k / 2] == k;
      } else {
        assert BuiltPhase(AllAtOnce, n, k) == WeightPhase(Layers(n)) by { AllAtOnceWeights(n, k); }
      }
    }
  }

  lemma AllAtOnceWeights(n: nat, k: nat)
    requires n > 0 && k >= 2 * n - 1
    ensures BuiltPhase(AllAtOnce, n, k) == WeightPhase(Layers(n))
  {
  }

  lemma WiredPhase(n: nat, k: nat, phases: seq<Phase>, delayed: seq<Phase>, result: seq<Phase>,
                   computeOf: map<nat, nat>, activationOf: map<nat, nat>, weightOf: map<nat, nat>)
    requires Unwired(JustInTime, n, phases, computeOf, activationOf, weightOf) && k < |phases|
    requires Untouched(n, weightOf, phases, delayed) && Untouched(n, computeOf, delayed, result)
    requires k >= 2 * n - 1 ==>
               delayed[k] == AfterLayer(phases[k], k - (2 * n - 1), computeOf, activationOf)
    requires k < 2 * n - 1 && k % 2 == 0 ==> result[k] == AddOnce(delayed[k], weightOf[k / 2])
    ensures result[k] == BuiltPhase(JustInTime, n, k)
  {
    hide AddOnce, DefaultPhase, BuiltPhase, AfterLayer, WeightPhase;
    if k < 2 * n - 1 {
      assert !Listed(n, weightOf, k);
      GuardedDefault(JustInTime, n, k);
      if k % 2 == 1 { assert !Listed(n, computeOf, k); }
    } else {
      assert !Listed(n, computeOf, k);
      DelayedWeight(n, k, computeOf, activationOf);
    }
  }

  method WireJustInTime(n: nat, phases: seq<Phase>, computeOf: map<nat, nat>, activationOf: map<nat, nat>, weightOf: map<nat, nat>)
    returns (result: seq<Phase>)
    requires Unwired(JustInTime, n, phases, computeOf, activationOf, weightOf)
    ensures result == BuiltPhases(JustInTime, n)
  {
    var delayed := DelayWeights(n, phases, computeOf, activationOf, weightOf);
    result := GuardComputes(n, delayed, computeOf, weightOf);
    hide AddOnce, DefaultPhase, BuiltPhase, AfterLayer, WeightPhase, Untouched;
    forall k: nat | k < |result| ensures result[k] == BuiltPhase(JustInTime, n, k) {
      if k < 2 * n - 1 && k % 2 == 0 { assert k / 2 in computeOf && computeOf[k / 2] == k; }
      if k >= 2 * n - 1 { assert k - (2 * n - 1) in weightOf && weightOf[k - (2 * n - 1)] == k; }
      WiredPhase(n, k, phases, delayed, result, computeOf, activationOf, weightOf);
    }
  }

  /** Builds a model's phases, wires its weight loading and sorts: for either strategy, any depth,
      pipelined or not, resident weights or not, the result is well formed. */
  method BuildSchedule(strategy: Strategy, n: nat, numInputs: nat, pipelined: bool, stationary: bool) returns (c: Config)
    requires n > 0
    ensures IsBuilt(c, strategy) && Exclusive(c) && (numInputs > 0 ==> WellFormed(c))
    ensures c.numLayers == n && c.numInputs == numInputs && c.pipelined == pipelined && c.stationary == stationary
  {
    var phases, computeOf, activationOf, weightOf := BuildUnwired(strategy, n);
    if strategy == AllAtOnce {
      phases := WireAllAtOnce(n, phases, computeOf, activationOf, weightOf);
    } else {
      phases := WireJustInTime(n, phases, computeOf, activationOf, weightOf);
    }
    BuiltIsAcyclic(strategy, n);
    var order := PhaseOrder.SortPhases(DepGraph(phases));
    c := Config(phases, order, numInputs, n, pipelined, stationary, computeOf, activationOf, weightOf);
    BuiltIsWellFormed(c, strategy);
  }

  // ---------------------------------------------------------------- traffic

  function SetTraffic(p: Phase, traffic: Traffic): Phase {
    match p
    case Compute(deps, layer) => p
    case ActivationComm(deps, layer, _) => ActivationComm(deps, layer, traffic)
    case WeightLoading(deps, layers, _) => WeightLoading(deps, layers, traffic)
  }

  /** The configuration once each transfer's traffic has been computed. */
  function WithTraffic(c: Config, traffic: seq<Traffic>): Config
    requires |traffic| == |c.phases|
  {
    c.(phases := seq(|c.phases|, k requires 0 <= k < |c.phases| => SetTraffic(c.phases[k], traffic[k])))
  }

  lemma TrafficKeepsForm(c: Config, traffic: seq<Traffic>)
    requires |traffic| == |c.phases| && Exclusive(c)
    ensures Exclusive(WithTraffic(c, traffic)) && (WellFormed(c) ==> WellFormed(WithTraffic(c, traffic)))
  {
    var d := WithTraffic(c, traffic);
    forall p: nat | p < |d.phases|
      ensures d.phases[p].deps == c.phases[p].deps
      ensures d.phases[p].Compute? == c.phases[p].Compute? && d.phases[p].WeightLoading? == c.phases[p].WeightLoading?
      ensures c.phases[p].Compute? ==> d.phases[p].layer == c.phases[p].layer
      ensures c.phases[p].WeightLoading? ==> d.phases[p].layers == c.phases[p].layers
    {
    }
    if !WellFormed(c) { return; }
    forall p: nat | p < |d.phases| ensures WeightsGuarded(d, p) {
      assert WeightsGuarded(c, p);
    }
    forall w: nat | w < |d.phases| && d.phases[w].WeightLoading? ensures FeedsCompute(d, w) {
      assert FeedsCompute(c, w);
      var p: nat :| p < |c.phases| && c.phases[p].Compute? && w in c.phases[p].deps;
      assert d.phases[p].Compute? && w in d.phases[p].deps;
    }
    hide WithTraffic;
  }
}
