/** Mapping a whole model, layer by layer, all or nothing (model_mapper.py, generate_mapping). */
module ModelMapping {
  import opened Mapper
  import opened Capacity

  datatype LayerInfo = LayerInfo(layer: Layer, required: nat)

  datatype Reason = NoAvailableChiplets | InsufficientMemory

  /** Raised: a layer that received no chiplet leaves the next one without a place to start from. */
  datatype Outcome = Mapped(placements: seq<Placement>, used: seq<int>) | Refused(reason: Reason) | Raised

  datatype Allowed = Anywhere | Only(ids: set<nat>)

  predicate Eligible(kinds: seq<ChipKind>, cap: seq<int>, allowed: Allowed, i: nat) {
    i < |cap| == |kinds| && cap[i] > 0 && kinds[i] != Io && (allowed.Only? ==> i in allowed.ids)
  }

  /** The chiplets a layer may use, in the order of preference computed for it. */
  function Candidates(prefer: seq<nat>, kinds: seq<ChipKind>, cap: seq<int>, allowed: Allowed): seq<nat> {
    if prefer == [] then []
    else
      var rest := Candidates(prefer[..|prefer| - 1], kinds, cap, allowed);
      var last := prefer[|prefer| - 1];
      if Eligible(kinds, cap, allowed, last) then rest + [last] else rest
  }

  lemma {:induction false} CandidatesEligible(prefer: seq<nat>, kinds: seq<ChipKind>, cap: seq<int>, allowed: Allowed)
    ensures forall i :: i in Candidates(prefer, kinds, cap, allowed) <==> i in prefer && Eligible(kinds, cap, allowed, i)
    ensures Distinct(prefer, |cap|) ==> Distinct(Candidates(prefer, kinds, cap, allowed), |cap|)
    decreases |prefer|
  {
    if prefer != [] {
      var front := prefer[..|prefer| - 1];
      CandidatesEligible(front, kinds, cap, allowed);
      assert prefer == front + [prefer[|prefer| - 1]];
      var rest := Candidates(front, kinds, cap, allowed);
      if Distinct(prefer, |cap|) {
        assert prefer[|prefer| - 1] !in front;
        assert forall k | 0 <= k < |rest| :: rest[k] in rest;
      }
    }
  }

  /** What each chiplet would need for the whole layer; I/O chiplets are never asked. */
  function FullUnits(layer: Layer, specs: seq<ChipSpec>): seq<int> {
    seq(|specs|, i requires 0 <= i < |specs| => if Usable(specs[i]) then LayerRequirement(layer, specs[i]) else 0)
  }

  /** Each usable chiplet is asked for exactly what the layer needs of it. */
  lemma FullUnitsExact(layer: Layer, specs: seq<ChipSpec>)
    ensures |FullUnits(layer, specs)| == |specs|
    ensures forall i | 0 <= i < |specs| ::
              if Usable(specs[i]) then NeedsExactly(layer, specs[i], FullUnits(layer, specs)[i]) else FullUnits(layer, specs)[i] == 0
  {
    hide NeedsExactly, LayerRequirement;
    forall i | 0 <= i < |specs| && Usable(specs[i]) ensures NeedsExactly(layer, specs[i], FullUnits(layer, specs)[i]) {
      RequirementExact(layer, specs[i]);
    }
  }

  /** I/O chiplets offer nothing to the mapper. */
  function WithoutIo(cap: seq<int>, kinds: seq<ChipKind>): seq<int>
    requires |cap| == |kinds|
  {
    seq(|cap|, i requires 0 <= i < |cap| => if kinds[i] == Io then 0 else cap[i])
  }

  /** A model to be mapped: its layers, the chiplets, the order in which each layer would try them,
      and the capacity the mapper may use. */
  datatype Job = Job(layers: seq<LayerInfo>, specs: seq<ChipSpec>, kinds: seq<ChipKind>, prefers: seq<seq<nat>>,
                     allowed: Allowed, cap: seq<int>)

  ghost predicate Fair(j: Job) {
    && |j.prefers| == |j.layers| && |j.specs| == |j.kinds| == |j.cap|
    && (forall i | 0 <= i < |j.cap| :: 0 <= j.cap[i])
    && forall l | 0 <= l < |j.prefers| :: Mapper.Distinct(j.prefers[l], |j.cap|)
  }

  function CapacityBefore(cap0: seq<int>, placements: seq<Placement>, l: nat): seq<int>
    requires l <= |placements|
  {
    if l == 0 then cap0 else placements[l - 1].remaining
  }

  /** The layer was allocated on what the layers before it left. */
  ghost predicate LayerTried(j: Job, before: seq<Placement>, st: Placement)
    requires |before| < |j.layers| == |j.prefers|
  {
    var l := |before|;
    var cap := CapacityBefore(j.cap, before, l);
    Allocated(j.layers[l].required, cap, FullUnits(j.layers[l].layer, j.specs), st, Candidates(j.prefers[l], j.kinds, cap, j.allowed))
  }

  /** Layer `l` was placed on what the layers before it left. */
  ghost predicate LayerPlaced(j: Job, placements: seq<Placement>, l: nat)
    requires l < |j.layers| == |j.prefers| && l < |placements|
  {
    LayerTried(j, placements[..l], placements[l]) && placements[l].left <= 10
  }

  /** No chiplet received a share of the layer. */
  predicate NoShare(st: Placement) {
    forall i | 0 <= i < |st.action| :: st.action[i] <= 0.0
  }

  /** Capacity left never grows from layer to layer, and I/O chiplets never get a share. */
  ghost predicate Shrinks(j: Job, placements: seq<Placement>, l: nat)
    requires l <= |placements| && |j.kinds| == |j.cap|
  {
    var cap := CapacityBefore(j.cap, placements, l);
    && |cap| == |j.cap| && (forall i | 0 <= i < |cap| :: 0 <= cap[i] <= j.cap[i])
    && forall m, i | 0 <= m < l && 0 <= i < |j.cap| && j.kinds[i] == Io :: |placements[m].action| == |j.cap| && placements[m].action[i] == 0.0
  }

  /** Each placed layer is accounted for by the capacity the layers before it left. */
  ghost predicate Explains(j: Job, placements: seq<Placement>) {
    && |placements| <= |j.layers| == |j.prefers|
    && forall m: nat | m < |placements| :: LayerPlaced(j, placements, m)
  }

  /** What one more layer, tried on what is left, does to what the mapping keeps. */
  lemma TriedShrinks(j: Job, before: seq<Placement>, st: Placement)
    requires |before| < |j.layers| == |j.prefers| && |j.kinds| == |j.cap| == |j.specs| && Shrinks(j, before, |before|)
    requires LayerTried(j, before, st)
    ensures Shrinks(j, before + [st], |before| + 1)
  {
    var l := |before|;
    var cap := CapacityBefore(j.cap, before, l);
    var order := Candidates(j.prefers[l], j.kinds, cap, j.allowed);
    CandidatesEligible(j.prefers[l], j.kinds, cap, j.allowed);
    TakesOnly(j.layers[l].required, cap, FullUnits(j.layers[l].layer, j.specs), st, order);
    hide Candidates, Allocated, FullUnits;
  }

  lemma TakesOnly(req: nat, cap: seq<int>, full: seq<int>, st: Placement, order: seq<nat>)
    requires Allocated(req, cap, full, st, order)
    ensures |st.remaining| == |st.action| == |cap| && forall i | 0 <= i < |cap| :: 0 <= st.remaining[i] <= cap[i]
    ensures forall i | 0 <= i < |cap| && i !in order :: st.action[i] == 0.0
  {
  }

  lemma Extends(j: Job, before: seq<Placement>, st: Placement)
    requires |before| < |j.layers| == |j.prefers| && Explains(j, before)
    requires LayerTried(j, before, st) && st.left <= 10
    ensures Explains(j, before + [st])
  {
    hide LayerTried;
    var after := before + [st];
    forall m: nat | m < |after| ensures LayerPlaced(j, after, m) {
      if m < |before| {
        assert LayerPlaced(j, before, m);
        assert after[..m] == before[..m];
      } else {
        assert after[..m] == before;
      }
    }
  }

  // ---------------------------------------------------------------- what will happen, from the job alone

  /** What becomes of layer `l` on the given capacity. */
  function LayerOn(j: Job, l: nat, cap: seq<int>): (st: Placement)
    requires Fair(j) && l < |j.layers| && |cap| == |j.cap|
    ensures |st.remaining| == |cap|
  {
    CandidatesEligible(j.prefers[l], j.kinds, cap, j.allowed);
    var order := Candidates(j.prefers[l], j.kinds, cap, j.allowed);
    Tried(j.layers[l].required, cap, FullUnits(j.layers[l].layer, j.specs), order, |order|)
  }

  /** The placements of the first `n` layers, each on what the ones before it leave. */
  function Planned(j: Job, n: nat): (plan: seq<Placement>)
    requires Fair(j) && n <= |j.layers|
    ensures |plan| == n && forall m | 0 <= m < n :: |plan[m].remaining| == |j.cap|
  {
    if n == 0 then []
    else
      var before := Planned(j, n - 1);
      before + [LayerOn(j, n - 1, CapacityBefore(j.cap, before, n - 1))]
  }

  /** What the layers before layer `l` leave. */
  function CapacityAt(j: Job, l: nat): (cap: seq<int>)
    requires Fair(j) && l <= |j.layers|
    ensures |cap| == |j.cap|
  {
    CapacityBefore(j.cap, Planned(j, l), l)
  }

  /** At most ten units of the layer are left over. */
  predicate Fits(j: Job, l: nat)
    requires Fair(j) && l < |j.layers|
  {
    LayerOn(j, l, CapacityAt(j, l)).left <= 10
  }

  /** The layer needs something, and a chiplet it may use can host some of it. */
  predicate Hosted(j: Job, l: nat)
    requires Fair(j) && l < |j.layers|
  {
    j.layers[l].required > 0 && exists i | i in j.prefers[l] :: HostsSome(j, l, i)
  }

  predicate HostsSome(j: Job, l: nat, i: nat)
    requires Fair(j) && l < |j.layers|
  {
    Eligible(j.kinds, CapacityAt(j, l), j.allowed, i) && FullUnits(j.layers[l].layer, j.specs)[i] > 0
  }

  /** The first layer has somewhere to start. */
  predicate Starts(j: Job)
    requires Fair(j) && |j.layers| > 0
  {
    Candidates(j.prefers[0], j.kinds, j.cap, j.allowed) != []
  }

  /** The mapper gets as far as trying layer `l`: every layer before it fits and has a chiplet. */
  predicate Reaches(j: Job, l: nat)
    requires Fair(j) && l < |j.layers|
  {
    Starts(j) && forall m: nat | m < l :: Fits(j, m) && Hosted(j, m)
  }

  /** The mapper gets to a layer, not the last, that needs at most ten units and finds no chiplet to
      host any of it. */
  predicate Raises(j: Job)
    requires Fair(j)
  {
    exists l: nat | l < |j.layers| - 1 :: Reaches(j, l) && !Hosted(j, l) && j.layers[l].required <= 10
  }

  /** It gets to a layer that leaves more than ten units over. */
  predicate Overflows(j: Job)
    requires Fair(j)
  {
    exists l: nat | l < |j.layers| :: Reaches(j, l) && !Fits(j, l)
  }

  /** It gets to the last layer, which fits. */
  predicate Succeeds(j: Job)
    requires Fair(j)
  {
    |j.layers| == 0 || (Reaches(j, |j.layers| - 1) && Fits(j, |j.layers| - 1))
  }

  /** How the mapping ends, as the job decides it. */
  ghost predicate Decided(j: Job, r: Outcome)
    requires Fair(j)
  {
    && (r.Raised? <==> Raises(j))
    && (r == Refused(NoAvailableChiplets) <==> |j.layers| > 0 && !Starts(j))
    && (r == Refused(InsufficientMemory) <==> Overflows(j))
    && (r.Mapped? <==> Succeeds(j))
    && (r.Mapped? ==> r.placements == Planned(j, |j.layers|))
  }

  lemma AllocatedIsLayerOn(j: Job, before: seq<Placement>, st: Placement)
    requires Fair(j) && |before| < |j.layers| && LayerTried(j, before, st) && before == Planned(j, |before|)
    ensures st == LayerOn(j, |before|, CapacityAt(j, |before|))
    ensures NoShare(st) <==> !Hosted(j, |before|)
    ensures NoShare(st) ==> st.left == j.layers[|before|].required
  {
    hide Planned, Fair, Tried, FullUnits, Candidates, Eligible;
    var l := |before|;
    var cap := CapacityAt(j, l);
    FairLayer(j, l);
    CandidatesEligible(j.prefers[l], j.kinds, cap, j.allowed);
    var order, full := Candidates(j.prefers[l], j.kinds, cap, j.allowed), FullUnits(j.layers[l].layer, j.specs);
    assert Allocated(j.layers[l].required, cap, full, st, order);
    NoShareExactly(j.layers[l].required, cap, full, st, order);
    HostableIsHosted(j, l, order);
    IsTried(j.layers[l].required, cap, full, st, order);
    hide Allocated;
  }

  lemma IsTried(req: nat, cap: seq<int>, full: seq<int>, st: Placement, order: seq<nat>)
    requires Allocated(req, cap, full, st, order)
    ensures |full| == |cap| && Mapper.Distinct(order, |cap|) && st == Tried(req, cap, full, order, |order|)
  {
  }

  lemma FairLayer(j: Job, l: nat)
    requires Fair(j) && l < |j.layers|
    ensures |j.prefers| == |j.layers| && |j.specs| == |j.kinds| == |j.cap| && Mapper.Distinct(j.prefers[l], |j.cap|)
    ensures |FullUnits(j.layers[l].layer, j.specs)| == |j.specs|
  {
  }

  /** Some chiplet of the candidates can host part of the layer exactly when one the layer may use can. */
  lemma HostableIsHosted(j: Job, l: nat, order: seq<nat>)
    requires Fair(j) && l < |j.layers| && order == Candidates(j.prefers[l], j.kinds, CapacityAt(j, l), j.allowed)
    requires Mapper.Distinct(order, |j.cap|)
    ensures Hosted(j, l) <==> j.layers[l].required > 0 && Hostable(CapacityAt(j, l), FullUnits(j.layers[l].layer, j.specs), order)
  {
    hide Candidates, CapacityAt;
    var cap, full := CapacityAt(j, l), FullUnits(j.layers[l].layer, j.specs);
    CandidatesEligible(j.prefers[l], j.kinds, cap, j.allowed);
    if i :| i in j.prefers[l] && HostsSome(j, l, i) {
      assert i in order;
      var k :| 0 <= k < |order| && order[k] == i;
      assert cap[order[k]] > 0 && full[order[k]] > 0;
    }
    if k :| 0 <= k < |order| && cap[order[k]] > 0 && full[order[k]] > 0 {
      assert order[k] in order;
      assert HostsSome(j, l, order[k]);
    }
  }

  lemma ExplainedLayer(j: Job, done: seq<Placement>, m: nat)
    requires Explains(j, done) && m < |done|
    ensures m < |done| <= |j.layers| == |j.prefers| && LayerTried(j, done[..m], done[m]) && done[m].left <= 10
  {
    hide LayerTried;
    assert LayerPlaced(j, done, m);
  }

  /** The layers placed are those planned. */
  lemma {:induction false} ExplainedIsPlanned(j: Job, done: seq<Placement>, n: nat)
    requires Fair(j) && Explains(j, done) && n <= |done|
    ensures |done| <= |j.layers| && done[..n] == Planned(j, n)
    ensures forall m: nat | m < n :: Fits(j, m) && (NoShare(done[m]) <==> !Hosted(j, m)) && (NoShare(done[m]) ==> j.layers[m].required <= 10)
    decreases n
  {
    hide Fair, LayerTried, LayerOn, Hosted, NoShare, Explains;
    ExplainedSize(j, done);
    if n > 0 {
      ExplainedIsPlanned(j, done, n - 1);
      ExplainedLayer(j, done, n - 1);
      AllocatedIsLayerOn(j, done[..n - 1], done[n - 1]);
      assert done[..n] == done[..n - 1] + [done[n - 1]];
    }
  }

  /** Why the mapping stopped where it did: all layers are placed; or the first layer has no
      candidate; or the layer it stopped at leaves more than ten units over; or the layer before it
      received no chiplet. */
  ghost predicate Stopped(j: Job, r: Outcome, done: seq<Placement>, stuck: Placement)
    requires Fair(j)
  {
    && |done| <= |j.layers| && ChipletsBefore(done, |done| - 1)
    && (r != Refused(NoAvailableChiplets) && |j.layers| > 0 ==> Starts(j))
    && match r
       case Mapped(placements, _) => placements == done && |done| == |j.layers|
       case Raised => 0 < |done| < |j.layers| && NoShare(done[|done| - 1])
       case Refused(NoAvailableChiplets) => done == [] && |j.layers| > 0 && !Starts(j)
       case Refused(InsufficientMemory) =>
         && |done| < |j.layers| && (done != [] ==> !NoShare(done[|done| - 1])) && stuck.left > 10
         && LayerTried(j, done, stuck)
  }

  /** A layer at which the mapper ends decides how it ends. */
  lemma EndsOnce(j: Job, l: nat)
    requires Fair(j) && l < |j.layers| && Reaches(j, l) && (l == |j.layers| - 1 || !Fits(j, l) || !Hosted(j, l))
    ensures Starts(j) && (Overflows(j) <==> !Fits(j, l))
    ensures Raises(j) <==> l < |j.layers| - 1 && !Hosted(j, l) && j.layers[l].required <= 10
    ensures Succeeds(j) <==> l == |j.layers| - 1 && Fits(j, l)
  {
    hide Fair, Fits, Hosted, Starts;
  }

  lemma NowhereToStart(j: Job)
    requires Fair(j) && |j.layers| > 0 && !Starts(j)
    ensures !Raises(j) && !Overflows(j) && !Succeeds(j)
  {
    hide Fair, Fits, Hosted, Starts;
  }

  /** The mapper stops where the job says it must. */
  lemma StoppedAsDecided(j: Job, r: Outcome, done: seq<Placement>, stuck: Placement)
    requires Fair(j) && Explains(j, done) && Stopped(j, r, done, stuck)
    ensures Decided(j, r)
  {
    hide Fair, LayerTried, Planned, LayerOn, Fits, Hosted, Starts, NoShare, Explains, Raises, Overflows, Succeeds, CapacityAt;
    var n := |done|;
    ExplainedIsPlanned(j, done, n);
    assert done[..n] == done;
    match r
    case Mapped(_, _) =>
      if n > 0 { assert Reaches(j, n - 1); EndsOnce(j, n - 1); } else { NothingToPlace(j); }
    case Raised =>
      assert Reaches(j, n - 1);
      EndsOnce(j, n - 1);
    case Refused(NoAvailableChiplets) =>
      NowhereToStart(j);
    case Refused(InsufficientMemory) =>
      StuckOverflows(j, done, stuck);
      assert Reaches(j, n);
      EndsOnce(j, n);
  }

  lemma NothingToPlace(j: Job)
    requires Fair(j) && j.layers == []
    ensures Succeeds(j) && !Raises(j) && !Overflows(j)
  {
  }

  lemma StuckOverflows(j: Job, done: seq<Placement>, stuck: Placement)
    requires Fair(j) && |done| < |j.layers| && LayerTried(j, done, stuck) && stuck.left > 10 && done == Planned(j, |done|)
    ensures !Fits(j, |done|)
    ensures !Hosted(j, |done|) ==> j.layers[|done|].required > 10
  {
    hide Fair, LayerTried, Planned, LayerOn, Hosted, NoShare, CapacityAt;
    AllocatedIsLayerOn(j, done, stuck);
  }

  // ---------------------------------------------------------------- the mapping itself

  /** Every placed layer but the last has a chiplet to start the next one from. */
  ghost predicate ChipletsBefore(placements: seq<Placement>, n: int) {
    forall m: nat | m < n && m < |placements| :: !NoShare(placements[m])
  }

  /** Tries the next layer on what the layers before it left; the first layer needs a candidate. */
  method PlaceLayer(j: Job, temp: seq<int>, done: seq<Placement>) returns (nowhere: bool, st: Placement, failed: bool)
    requires Fair(j) && |done| < |j.layers|
    requires Shrinks(j, done, |done|) && temp == CapacityBefore(j.cap, done, |done|)
    ensures nowhere <==> done == [] && !Starts(j)
    ensures !nowhere ==> LayerTried(j, done, st)
    ensures !nowhere ==> (failed <==> st.left > 10)
  {
    hide Allocated, Candidates, FullUnits, Shrinks;
    ShrinksFacts(j, done, |done|);
    var layer, order := j.layers[|done|], Candidates(j.prefers[|done|], j.kinds, temp, j.allowed);
    CandidatesEligible(j.prefers[|done|], j.kinds, temp, j.allowed);
    st, failed := Placement([], [], 0, 0.0, 0, -1), true;
    nowhere := done == [] && order == [];
    if nowhere { return; }
    FullUnitsSize(layer.layer, j.specs);
    st, failed := Allocate(layer.required, order, temp, FullUnits(layer.layer, j.specs));
  }

  /** Places every layer in turn on what the layers before it left, or stops. */
  method PlaceLayers(j: Job) returns (r: Outcome, done: seq<Placement>, ghost stuck: Placement)
    requires Fair(j)
    ensures Explains(j, done) && Shrinks(j, done, |done|) && Stopped(j, r, done, stuck)
    ensures Decided(j, r)
  {
    var temp := j.cap;
    done := [];
    stuck := Placement([], [], 0, 0.0, 0, -1);
    hide LayerTried, Candidates, Shrinks, Explains, NoShare, ChipletsBefore, Mapper.Distinct, Starts, Decided;
    NothingYet(j);
    for l := 0 to |j.layers|
      invariant |done| == l && temp == CapacityBefore(j.cap, done, l)
      invariant Shrinks(j, done, l) && ChipletsBefore(done, l - 1) && (l > 0 ==> Starts(j))
      invariant Explains(j, done)
    {
      if l > 0 && NoShare(done[l - 1]) {
        r := Raised;
        StoppedAsDecided(j, r, done, stuck);
        return;
      }
      var nowhere, st, failed := PlaceLayer(j, temp, done);
      stuck := st;
      if nowhere || failed {
        r := Refused(if nowhere then NoAvailableChiplets else InsufficientMemory);
        StoppedAsDecided(j, r, done, stuck);
        return;
      }
      TriedShrinks(j, done, st);
      Extends(j, done, st);
      StillChiplets(done, st);
      done := done + [st];
      temp := st.remaining;
    }
    r := Mapped(done, []);
    StoppedAsDecided(j, r, done, stuck);
  }

  lemma StillChiplets(done: seq<Placement>, st: Placement)
    requires ChipletsBefore(done, |done| - 1) && (done != [] ==> !NoShare(done[|done| - 1]))
    ensures ChipletsBefore(done + [st], |done|)
  {
    hide NoShare;
  }

  lemma NothingYet(j: Job)
    requires Fair(j)
    ensures Explains(j, []) && Shrinks(j, [], 0) && ChipletsBefore([], -1)
  {
  }

  lemma ShrinksFacts(j: Job, placements: seq<Placement>, l: nat)
    requires l <= |placements| && |j.kinds| == |j.cap| && Shrinks(j, placements, l)
    ensures var cap := CapacityBefore(j.cap, placements, l);
            |cap| == |j.cap| && forall i | 0 <= i < |cap| :: 0 <= cap[i] <= j.cap[i]
  {
  }

  /** What the system offers the mapper. */
  function JobOf(system: System, layers: seq<LayerInfo>, prefers: seq<seq<nat>>, allowed: Allowed, available: seq<int>): Job
    requires |available| == |system.chiplets|
  {
    Job(layers, Specs(system), Kinds(system), prefers, allowed, WithoutIo(available, Kinds(system)))
  }

  /** Maps every layer in turn on a private copy of the capacity and commits only if all fit.
      `prefers[l]` is the order in which layer `l` would try all chiplets.  `done` are the layers
      placed before the mapping stopped, and `stuck` what became of the layer it stopped at. */
  method GenerateMapping(system: System, layers: seq<LayerInfo>, prefers: seq<seq<nat>>, allowed: Allowed)
    returns (r: Outcome, ghost done: seq<Placement>, ghost stuck: Placement)
    requires system.Distinct() && |prefers| == |layers|
    requires forall l | 0 <= l < |prefers| :: Mapper.Distinct(prefers[l], |system.chiplets|)
    requires forall i | 0 <= i < |system.chiplets| :: 0 <= system.chiplets[i].available <= system.chiplets[i].total
    modifies system.chiplets
    ensures !r.Mapped? ==> system.Available() == old(system.Available())
    ensures forall i | 0 <= i < |system.chiplets| :: 0 <= system.chiplets[i].available <= system.chiplets[i].total
    ensures var j := JobOf(system, layers, prefers, allowed, old(system.Available()));
            Fair(j) && Explains(j, done) && Stopped(j, r, done, stuck) && Decided(j, r)
    ensures r.Mapped? ==>
              && |r.used| == |system.chiplets|
              && (forall i | 0 <= i < |system.chiplets| ::
                    0 <= r.used[i] && system.chiplets[i].available + r.used[i] == old(system.chiplets[i].available))
              && (forall i | 0 <= i < |system.chiplets| && system.chiplets[i].spec.kind == Io :: system.chiplets[i].available == 0)
  {
    hide Explains, Stopped, Decided, Shrinks, CapacityBefore;
    var initial := system.GetAvailableCapacity();
    var j := JobOf(system, layers, prefers, allowed, initial);
    var placed;
    r, placed, stuck := PlaceLayers(j);
    done := placed;
    if r.Mapped? {
      ShrinksFacts(j, placed, |placed|);
      var temp := CapacityBefore(j.cap, placed, |placed|);
      var used := seq(|initial|, i requires 0 <= i < |initial| && |temp| == |initial| => initial[i] - temp[i]);
      StillMapped(j, r, used, placed, stuck);
      r := Mapped(r.placements, used);
      var ok := system.UpdateCapacityAvailability(temp);
    }
  }

  lemma StillMapped(j: Job, r: Outcome, used: seq<int>, done: seq<Placement>, stuck: Placement)
    requires Fair(j) && r.Mapped? && Stopped(j, r, done, stuck) && Decided(j, r)
    ensures Stopped(j, Mapped(r.placements, used), done, stuck) && Decided(j, Mapped(r.placements, used))
  {
    hide Raises, Overflows, Succeeds, Starts, ChipletsBefore;
  }

  lemma FullUnitsSize(layer: Layer, specs: seq<ChipSpec>)
    ensures |FullUnits(layer, specs)| == |specs|
  {
  }

  /** A placed layer has no chiplet exactly when it needs nothing or no chiplet it may use can host
      any of it; it then asks for at most ten units.  A layer of a kind without a size rule is always
      so. */
  lemma EmptyLayers(j: Job, placements: seq<Placement>, l: nat)
    requires Fair(j) && Explains(j, placements) && l < |placements|
    ensures NoShare(placements[l]) <==> !Hosted(j, l)
    ensures NoShare(placements[l]) ==> j.layers[l].required <= 10
    ensures j.layers[l].layer.OtherLayer? ==> NoShare(placements[l])
  {
    hide Fair, Explains, Planned, Fits, Hosted, NoShare;
    ExplainedSize(j, placements);
    ExplainedIsPlanned(j, placements, |placements|);
    if j.layers[l].layer.OtherLayer? { NoSizeRule(j, l); }
  }

  lemma ExplainedSize(j: Job, placements: seq<Placement>)
    requires Explains(j, placements)
    ensures |placements| <= |j.layers|
  {
  }

  /** A kind without a size rule needs nothing of any chiplet, so none hosts it. */
  lemma NoSizeRule(j: Job, l: nat)
    requires Fair(j) && l < |j.layers| && j.layers[l].layer.OtherLayer?
    ensures !Hosted(j, l)
  {
    hide CapacityAt;
  }

  /** Two layers of a kind without a size rule, five units each, on one large chiplet. */
  function TwoSmallLayers(): Job {
    Job([LayerInfo(OtherLayer, 5), LayerInfo(OtherLayer, 5)], [ChipSpec(Cmos, 0, 0, 0, 0)], [Cmos], [[0], [0]], Anywhere, [100])
  }

  /** They make the mapper raise: the second has no chiplet of the first to start from. */
  lemma TwoSmallLayersRaise()
    ensures Fair(TwoSmallLayers()) && Raises(TwoSmallLayers())
  {
    hide Hosted, Fits, Candidates;
    var j := TwoSmallLayers();
    FirstStarts();
    NoSizeRule(j, 0);
    assert Reaches(j, 0);
  }

  lemma FirstStarts()
    ensures Fair(TwoSmallLayers()) && Starts(TwoSmallLayers())
  {
    var j := TwoSmallLayers();
    hide Candidates;
    CandidatesEligible([0], j.kinds, j.cap, j.allowed);
    assert 0 in Candidates([0], j.kinds, j.cap, j.allowed);
  }

  function Specs(system: System): seq<ChipSpec> {
    seq(|system.chiplets|, i requires 0 <= i < |system.chiplets| => system.chiplets[i].spec)
  }

  function Kinds(system: System): seq<ChipKind> {
    seq(|system.chiplets|, i requires 0 <= i < |system.chiplets| => system.chiplets[i].spec.kind)
  }
}
