/** A mapped model as the simulator holds it: an object whose phase instances and times are
    updated in place (mapped_model.py).  Every method is proved against the functions of
    PhaseSchedule.dfy, so what is proved there about whole runs holds of this object. */
module MappedModels {
  import opened Options
  import opened Numbers
  import opened Phases
  import opened PhaseSchedule
  import opened ScheduleInvariant
  import opened ScheduleProgress
  import opened ScheduleLiveness
  import opened ScanTraffic
  import opened ScheduleBuild
  import LayerOrder

  class MappedModel {
    const idx: int
    const used: seq<int>
    const cfg: Config
    var inst: seq<map<nat, Instance>>
    var start: seq<real>
    var done: seq<real>
    var modelDone: real
    var loaded: set<nat>

    function State(): Sched
      reads this
    {
      Sched(inst, start, done, modelDone, loaded)
    }

    ghost predicate Shape()
      reads this
    {
      WellFormed(cfg) && Shaped(cfg, State())
    }

    /** The model is in a state some run reaches, with nothing recorded after `now`. */
    ghost predicate Valid(now: real)
      reads this
    {
      Shape() && Exclusive(cfg) && Invariant(cfg, State(), now) && Accounted(cfg, State()) && OnTime(cfg, State())
    }

    /** Maps a model at time `now`: builds and sorts its phases for the loading strategy, attaches
        the traffic of each transfer and the compute latency of each layer, and gives the first
        input, if there is one, its start time. */
    constructor (idx: int, used: seq<int>, strategy: Strategy, numLayers: nat, numInputs: nat, pipelined: bool, stationary: bool,
                 latency: seq<real>, traffic: seq<Traffic>, now: real)
      requires numLayers > 0 && 0.0 <= now
      requires |latency| == numLayers && (forall l | 0 <= l < numLayers :: 0.0 <= latency[l])
      requires |traffic| == 2 * numLayers - 1 + WeightCount(strategy, numLayers)
      ensures numInputs > 0 ==> Valid(now) && Initial(cfg, State(), now) && Settled(cfg, State())
      ensures Shaped(cfg, State()) && (numInputs == 0 ==> State() == Sched([], [], [], UNSET, {}))
      ensures this.idx == idx && this.used == used && cfg.numLayers == numLayers && cfg.numInputs == numInputs
      ensures cfg.pipelined == pipelined && cfg.stationary == stationary && LayerOrder.Layered(cfg)
      ensures |cfg.phases| == 2 * numLayers - 1 + WeightCount(strategy, numLayers)
      ensures forall i: nat, p: nat | Has(State(), i, p) ::
                At(State(), i, p).latency == if cfg.phases[p].Compute? && cfg.phases[p].layer < numLayers then latency[cfg.phases[p].layer] else 0.0
    {
      hide WellFormed, Exclusive, Invariant, Accounted, OnTime, Settled, LayerOrder.Layered;
      var c := BuildSchedule(strategy, numLayers, numInputs, pipelined, stationary);
      TrafficKeepsForm(c, traffic);
      LayerOrder.BuiltIsLayered(c, strategy, traffic);
      c := WithTraffic(c, traffic);
      var rows := FreshRows(c, latency);
      this.idx, this.used := idx, used;
      cfg := c;
      inst := rows;
      start := seq(numInputs, i requires 0 <= i => if i == 0 then now else UNSET);
      done := seq(numInputs, i => UNSET);
      modelDone := UNSET;
      loaded := {};
      new;
      FreshRowsShaped(c, latency, State());
      if numInputs > 0 {
        InitialInvariant(cfg, State(), now);
        FreshIsSettled(cfg, State(), now);
      }
    }

    // -------------------------------------------------------------- queries

    /** Whether everything a phase waits for is over; the third answer is the raised error. */
    method DependenciesMet(i: nat, p: nat) returns (r: Readiness)
      requires Shape() && i < cfg.numInputs && p < |cfg.phases|
      ensures r == CheckDependencies(cfg, State(), i, p)
    {
      var phase := cfg.phases[p];
      for k := 0 to |phase.deps|
        invariant forall d | d in phase.deps[..k] :: Has(State(), i, d) ==> IsComplete(State(), i, d)
      {
        var d := phase.deps[k];
        if d in inst[i] && inst[i][d].state != Complete {
          assert Has(State(), i, d) && d in phase.deps;
          return Waiting;
        }
        assert phase.deps[..k + 1] == phase.deps[..k] + [d];
      }
      assert phase.deps[..|phase.deps|] == phase.deps;
      if cfg.pipelined && i > 0 && p in inst[i - 1] && inst[i - 1][p].state != Complete {
        return Waiting;
      }
      if phase.Compute? && phase.layer in cfg.weightOf && !(cfg.stationary && phase.layer in loaded) {
        var w := cfg.weightOf[phase.layer];
        if (w !in inst[i] || inst[i][w].state != Complete) && w !in phase.deps {
          return Misconfigured;
        }
      }
      return Ready;
    }

    lemma ShapeFacts()
      requires Shape()
      ensures OrderInRange(cfg) && |inst| == cfg.numInputs
    {
    }

    method FindCurrentPhase(i: nat) returns (r: Current)
      requires Shape() && i < cfg.numInputs
      ensures r == FindCurrent(cfg, State(), i, 0)
    {
      hide CheckDependencies, WellFormed, Shaped, FindCurrent;
      ShapeFacts();
      for k := 0 to |cfg.order|
        invariant FindCurrent(cfg, State(), i, 0) == FindCurrent(cfg, State(), i, k)
      {
        var p := cfg.order[k];
        LooksAt(cfg, State(), i, k);
        if p in inst[i] && inst[i][p].state != Complete {
          var ready := DependenciesMet(i, p);
          if ready == Ready { return Found(p); }
          if ready == Misconfigured { return Broken; }
        }
      }
      NothingAfter(cfg, State(), i);
      return Idle;
    }

    method PhaseStartTime(i: nat, p: nat) returns (t: real)
      requires Shape() && i < cfg.numInputs && p < |cfg.phases|
      ensures t == StartTime(cfg, State(), i, p)
    {
      var deps := cfg.phases[p].deps;
      t := start[i];
      for k := 0 to |deps|
        invariant t == LatestOf(State(), i, deps, k, start[i])
      {
        if deps[k] in inst[i] && inst[i][deps[k]].completion > t {
          t := inst[i][deps[k]].completion;
        }
      }
      if cfg.pipelined && i > 0 && p in inst[i - 1] && inst[i - 1][p].completion > t {
        t := inst[i - 1][p].completion;
      }
    }

    // -------------------------------------------------------------- one scan

    method Store(i: nat, p: nat, x: Instance)
      requires i < |inst|
      modifies this`inst
      ensures State() == Put(old(State()), i, p, x)
    {
      var row: map<nat, Instance> := inst[i][p := x];
      inst := inst[i := row];
    }

    method VisitComputePhase(i: nat, p: nat, now: real) returns (reported: bool)
      requires Shape() && Has(State(), i, p) && p < |cfg.phases| && i < cfg.numInputs && cfg.phases[p].Compute?
      modifies this`inst
      ensures var v := VisitPhase(cfg, old(State()), i, p, now);
              State() == Put(old(State()), i, p, v.inst) && reported == v.reported && !v.loads
    {
      var x := inst[i][p];
      reported := false;
      if x.state == NotStarted {
        var begin := PhaseStartTime(i, p);
        x := x.(state := Running, start := begin, active := true);
        reported := true;
      } else if x.state == Running {
        var elapsed := now - x.start;
        if elapsed < x.latency {
          x := x.(percent := if x.latency > 0.0 then elapsed / x.latency else 0.0, active := true);
          reported := true;
        } else {
          x := x.(state := Complete, active := false, completion := x.start + x.latency);
        }
      }
      Store(i, p, x);
    }

    /** A transfer that is not being skipped. */
    method VisitTransfer(i: nat, p: nat, traffic: Traffic, now: real) returns (reported: bool, loads: bool)
      requires Shape() && Has(State(), i, p) && p < |cfg.phases| && i < cfg.numInputs
      modifies this`inst
      ensures var v := VisitComm(At(old(State()), i, p), traffic, StartTime(cfg, old(State()), i, p), now);
              State() == Put(old(State()), i, p, v.inst) && reported == v.reported && loads == v.loads
    {
      var x := inst[i][p];
      hide WellFormed, Shaped, HasTraffic, ScaleTraffic, StartTime;
      reported, loads := false, false;
      if x.latency == 0.0 && x.state == NotStarted {
        var begin := PhaseStartTime(i, p);
        x := x.(scaled := traffic);
        if !HasTraffic(x.scaled) {
          x := x.(state := Complete, start := begin, latency := -1.0, completion := begin, active := false, percent := 1.0);
          loads := true;
        } else {
          x := x.(state := Running, start := begin, active := true, percent := 0.0);
          reported := true;
        }
      } else if x.state == Running {
        x, reported, loads := AdvanceTransfer(x, traffic, now);
      }
      Store(i, p, x);
    }

    /** A transfer under way: what is left of it is scaled, or it is over. */
    method AdvanceTransfer(x: Instance, traffic: Traffic, now: real) returns (y: Instance, reported: bool, loads: bool)
      requires x.state == Running
      ensures forall begin: real :: VisitComm(x, traffic, begin, now) == Visit(y, reported, loads)
    {
      hide HasTraffic, ScaleTraffic;
      y, reported, loads := x, false, false;
      if x.latency > 0.0 {
        var elapsed := now - x.start;
        if elapsed < x.latency {
          y := y.(percent := Min(1.0, elapsed / x.latency));
          y := y.(scaled := ScaleTraffic(traffic, 1.0 - y.percent));
          reported := HasTraffic(y.scaled);
        } else {
          y := y.(state := Complete, active := false, completion := x.start + x.latency);
          loads := true;
        }
      } else {
        y := y.(scaled := traffic);
        if !HasTraffic(y.scaled) {
          y := y.(state := Complete, active := false, completion := x.start, latency := -1.0, percent := 1.0);
          loads := true;
        } else {
          reported := true;
        }
      }
    }

    /** Visits the current phase of an input: starts it, advances it or finishes it. */
    method VisitCurrent(i: nat, p: nat, now: real) returns (reported: bool)
      requires Shape() && Has(State(), i, p) && p < |cfg.phases| && i < cfg.numInputs
      modifies this`inst, this`loaded
      ensures var v := VisitPhase(cfg, old(State()), i, p, now);
              State() == ApplyVisit(cfg, old(State()), i, p, v) && reported == v.reported
    {
      var loads := false;
      match cfg.phases[p]
      case Compute(_, _) =>
        reported := VisitComputePhase(i, p, now);
      case ActivationComm(_, _, traffic) =>
        reported, loads := VisitTransfer(i, p, traffic, now);
      case WeightLoading(_, layers, traffic) =>
        if cfg.stationary && AllLoaded(State(), layers) {
          reported := false;
          var x := inst[i][p];
          if x.state == NotStarted {
            x := x.(state := Complete, latency := 0.0, start := now, completion := now, active := false);
          }
          Store(i, p, x);
        } else {
          reported, loads := VisitTransfer(i, p, traffic, now);
          if loads { loaded := loaded + (set l | l in layers); }
        }
    }

    /** Scans all inputs for active phases. */
    method GetActivePhases(now: real) returns (active: seq<(nat, nat)>)
      requires Valid(now)
      modifies this`inst, this`loaded
      ensures State() == ScanInputs(cfg, old(State()), cfg.numInputs, now)
      ensures active == Reports(cfg, old(State()), cfg.numInputs, now)
      ensures Valid(now) && AllCarryRest(cfg, State(), active, now)
    {
      hide Invariant, Exclusive, Accounted, OnTime, VisitPhase, FindCurrent, ApplyVisit, WellFormed, AllCarryRest;
      active := [];
      ghost var before := State();
      InvariantForm(cfg, before, now);
      for i := 0 to cfg.numInputs
        invariant State() == ScanInputs(cfg, before, i, now) && Shape()
        invariant active == Reports(cfg, before, i, now)
      {
        ghost var here := State();
        assert ScanInputs(cfg, before, i + 1, now) == ScanInput(cfg, here, i, now);
        assert Reports(cfg, before, i + 1, now) == active + ReportInput(cfg, here, i, now);
        if start[i] == UNSET || now < start[i] { continue; }
        var cur := FindCurrentPhase(i);
        if cur.Found? {
          var reported := VisitCurrent(i, cur.phase, now);
          assert State() == ScanInput(cfg, here, i, now);
          if reported { active := active + [(i, cur.phase)]; }
        }
      }
      ScanKeepsInvariant(cfg, before, cfg.numInputs, now);
      ScanHonest(cfg, before, cfg.numInputs, now);
      ScanCarriesRest(cfg, before, now);
    }

    // -------------------------------------------------------------- network answers

    method UpdatePhaseLatency(i: nat, p: nat, latency: real, now: real)
      requires i < |inst|
      modifies this`inst
      ensures State() == if Has(old(State()), i, p) then Put(old(State()), i, p, Retime(At(old(State()), i, p), latency, now)) else old(State())
    {
      if p !in inst[i] { return; }
      var x := inst[i][p];
      var previous := x.latency;
      if previous == 0.0 {
        x := x.(latency := latency);
      } else if previous > 0.0 && x.state == Running {
        var elapsed := now - x.start;
        x := x.(latency := elapsed + latency);
        if x.latency > 0.0 { x := x.(percent := Min(1.0, elapsed / x.latency)); }
      }
      Store(i, p, x);
    }

    /** Takes in the network's answers one transfer at a time; the order does not matter. */
    method ApplyAnswers(asked: seq<(nat, nat)>, answers: map<(nat, nat), real>, now: real)
      requires Valid(now) && AnswersRunning(cfg, State(), answers)
      requires forall j, k | 0 <= j < k < |asked| :: asked[j] != asked[k]
      requires forall r :: r in asked <==> r in answers
      modifies this`inst
      ensures Valid(now) && State() == AnswerAll(old(State()), answers, now)
    {
      ghost var before := State();
      AnswerEach(asked, answers, now);
      AllAnswered(before, State(), answers, asked, now);
      AnswerAllKeepsInvariant(cfg, before, answers, now);
      AnswerAllHonest(cfg, before, answers, now);
      hide AnswerAll, PartlyAnswered;
    }

    method AnswerEach(asked: seq<(nat, nat)>, answers: map<(nat, nat), real>, now: real)
      requires forall j, k | 0 <= j < k < |asked| :: asked[j] != asked[k]
      requires forall r | r in asked :: r in answers && Has(State(), r.0, r.1)
      modifies this`inst
      ensures PartlyAnswered(old(State()), State(), answers, asked, now)
    {
      ghost var before := State();
      NoneAnswered(before, answers, now);
      hide PartlyAnswered;
      for k := 0 to |asked|
        invariant PartlyAnswered(before, State(), answers, asked[..k], now)
      {
        var (i, p) := asked[k];
        ghost var here := State();
        assert asked[k] in asked && asked[..k + 1] == asked[..k] + [asked[k]] && (i, p) !in asked[..k];
        StillThere(before, here, answers, asked[..k], now, i, p);
        UpdatePhaseLatency(i, p, answers[asked[k]], now);
        AnswerOneMore(before, here, State(), answers, asked[..k], i, p, now);
      }
      assert asked[..|asked|] == asked;
    }

    // -------------------------------------------------------------- derived times

    /** The first layer, in layer order, whose phases the given input has finished. */
    method FindFirstLayerDone(i: nat) returns (r: Option<real>)
      requires Shape() && i < cfg.numInputs
      ensures r == FirstLayerDone(cfg, State(), i, 0)
    {
      for layer := 0 to cfg.numLayers
        invariant FirstLayerDone(cfg, State(), i, 0) == FirstLayerDone(cfg, State(), i, layer)
      {
        if layer in cfg.computeOf && cfg.computeOf[layer] in inst[i]
           && (layer !in cfg.activationOf || cfg.activationOf[layer] in inst[i]) {
          var compute := inst[i][cfg.computeOf[layer]];
          if layer in cfg.activationOf {
            var activation := inst[i][cfg.activationOf[layer]];
            if compute.state == Complete && activation.state == Complete {
              return Some(Max(compute.completion, activation.completion));
            }
          } else if compute.state == Complete {
            return Some(compute.completion);
          }
        }
      }
      return None;
    }

    method UpdateInputStart(i: nat)
      requires Shape() && i < cfg.numInputs
      modifies this`start
      ensures State() == old(State()).(start := old(start)[i := InputStart(cfg, old(State()), i)])
    {
      if i > 0 && start[i] == UNSET {
        if cfg.pipelined {
          var first := FindFirstLayerDone(i - 1);
          if first.Some? { start := start[i := first.value]; }
        } else if AllComplete(State(), i - 1) && done[i - 1] != UNSET {
          start := start[i := done[i - 1]];
        }
      }
    }

    /** Fills in one phase's missing start time and prediction, if it may run. */
    method TimeOnePhase(i: nat, p: nat)
      requires Shape() && i < cfg.numInputs && p < |cfg.phases|
      modifies this`inst
      ensures State() ==
                if Has(old(State()), i, p) && At(old(State()), i, p).state != Complete && CheckDependencies(cfg, old(State()), i, p) == Ready
                then Put(old(State()), i, p, TimePhase(cfg, old(State()), i, p)) else old(State())
    {
      if p !in inst[i] || inst[i][p].state == Complete { return; }
      hide CheckDependencies, StartTime, WellFormed;
      var ready := DependenciesMet(i, p);
      if ready == Ready {
        var x := inst[i][p];
        if x.start < 0.0 {
          var begin := PhaseStartTime(i, p);
          x := x.(start := begin);
        }
        if x.latency > 0.0 && x.completion < 0.0 {
          x := x.(completion := x.start + x.latency);
        }
        Store(i, p, x);
      }
    }

    /** Fills in missing start times and predictions, phase by phase in execution order. */
    method TimePhases(i: nat)
      requires Shape() && i < cfg.numInputs && start[i] != UNSET
      modifies this`inst
      ensures State() == TimeRow(cfg, old(State()), i) && Shape()
    {
      ghost var before := State();
      NothingTimed(cfg, before, i);
      hide CheckDependencies, TimePhase, PartlyTimed, Shaped, WellFormed, TimeRow;
      for k := 0 to |cfg.order|
        invariant Shape() && State().start == before.start && PartlyTimed(cfg, before, State(), i, cfg.order[..k])
      {
        var p := cfg.order[k];
        ghost var here := State();
        OrderPrefix(cfg, k);
        TimeOnePhase(i, p);
        TimeOneMorePhase(cfg, before, here, State(), i, cfg.order[..k], p);
      }
      assert cfg.order[..|cfg.order|] == cfg.order;
      FullyTimed(cfg, before, State(), i);
    }

    method RecordCompletion(i: nat)
      requires Shape() && i < cfg.numInputs
      modifies this`done
      ensures State() == if AllComplete(old(State()), i) && old(done)[i] == UNSET
                         then old(State()).(done := old(done)[i := LatestOf(old(State()), i, cfg.order, |cfg.order|, UNSET)])
                         else old(State())
    {
      if AllComplete(State(), i) && done[i] == UNSET {
        var last := UNSET;
        for k := 0 to |cfg.order|
          invariant last == LatestOf(State(), i, cfg.order, k, UNSET)
        {
          if cfg.order[k] in inst[i] { last := Max(last, inst[i][cfg.order[k]].completion); }
        }
        LatestSame(State(), State().(done := done[i := last]), i, cfg.order, |cfg.order|);
        done := done[i := last];
      }
    }

    method TimeOneInput(i: nat)
      requires Shape() && i < cfg.numInputs
      modifies this`inst, this`start, this`done
      ensures Shape() && State() == TimeInput(cfg, old(State()), i)
    {
      ghost var here := State();
      UpdateInputStart(i);
      StartShaped(cfg, here, i);
      if start[i] != UNSET {
        TimePhases(i);
        RecordCompletion(i);
      }
    }

    /** Records the latest input completion once all inputs have one.  Without inputs there is none to
        take, and taking it raises an error. */
    method RecordModelCompletion() returns (raised: bool)
      modifies this`modelDone
      ensures raised <==> |done| == 0
      ensures State() == if raised then old(State()) else CloseModel(old(State()))
    {
      if forall i | 0 <= i < |done| :: done[i] != UNSET {
        if |done| == 0 { return true; }
        var latest := done[0];
        for i := 1 to |done|
          invariant latest == MaxOf(done[..i])
        {
          latest := Max(latest, done[i]);
          assert done[..i + 1][..i] == done[..i];
        }
        assert done[..|done|] == done;
        modelDone := latest;
      }
      return false;
    }

    /** One timing pass over all inputs.  It raises an error exactly for a model without inputs. */
    method TimeAllInputs() returns (raised: bool)
      requires Shaped(cfg, State()) && (cfg.numInputs > 0 ==> Shape())
      modifies this`inst, this`start, this`done, this`modelDone
      ensures raised <==> cfg.numInputs == 0
      ensures State() == if raised then old(State()) else TimeModel(cfg, old(State()))
    {
      ghost var before := State();
      hide TimeInput;
      for i := 0 to cfg.numInputs
        invariant Shaped(cfg, State()) && (cfg.numInputs > 0 ==> Shape()) && State() == TimeInputs(cfg, before, i)
      {
        TimeOneInput(i);
      }
      raised := RecordModelCompletion();
    }

    /** Derives all start and completion times from the current phase states. */
    method CalculatePhaseTiming(now: real)
      requires Valid(now)
      modifies this`inst, this`start, this`done, this`modelDone
      ensures State() == TimeModel(cfg, old(State())) && Valid(now) && Settled(cfg, State())
    {
      ghost var before := State();
      var raised := TimeAllInputs();
      TimeModelKeepsInvariant(cfg, before, now);
      TimeModelHonest(cfg, before, now);
      TimeModelSettles(cfg, before, now);
      hide TimeModel;
    }

    /** Whether the model has finished by `now`, from the recorded completion time. */
    method IsFinished(now: real) returns (finished: bool)
      requires Valid(now)
      ensures finished <==> modelDone != UNSET
      ensures finished ==> forall i: nat, p: nat | Has(State(), i, p) :: IsComplete(State(), i, p) && At(State(), i, p).completion <= now
    {
      finished := modelDone != UNSET && now >= modelDone;
      if modelDone != UNSET { RecordedIsPast(cfg, State(), now); }
    }
  }

  /** What the search for the current phase does at position `k`. */
  lemma LooksAt(c: Config, s: Sched, i: nat, k: nat)
    requires OrderInRange(c) && k < |c.order| && i < |s.inst|
    ensures var p := c.order[k];
            FindCurrent(c, s, i, k) ==
              if p !in s.inst[i] || s.inst[i][p].state == Complete || CheckDependencies(c, s, i, p) == Waiting then FindCurrent(c, s, i, k + 1)
              else if CheckDependencies(c, s, i, p) == Ready then Found(p) else Broken
  {
    hide CheckDependencies;
  }

  lemma NothingAfter(c: Config, s: Sched, i: nat)
    requires OrderInRange(c)
    ensures FindCurrent(c, s, i, |c.order|) == Idle
  {
  }

  lemma RecordedIsPast(c: Config, s: Sched, now: real)
    requires Invariant(c, s, now) && s.modelDone != UNSET
    ensures s.modelDone <= now
    ensures forall i: nat, p: nat | Has(s, i, p) :: IsComplete(s, i, p) && At(s, i, p).completion <= now
  {
    var k :| 0 <= k < c.numInputs && s.done[k] == s.modelDone;
    assert InputOk(c, s, k, now);
    forall i: nat, p: nat | Has(s, i, p) ensures IsComplete(s, i, p) && At(s, i, p).completion <= now {
      assert Exists(c, i, p) && InputOk(c, s, i, now) && InstanceOk(c, s, i, p, now);
      assert s.done[i] != UNSET && s.inst[i][p].state == Complete;
    }
  }

  // ---------------------------------------------------------------- timing one row in place

  /** The phases in `seen` have been timed against the row as it was; the others are untouched. */
  ghost predicate PartlyTimed(c: Config, s: Sched, s': Sched, i: nat, seen: seq<nat>) {
    && Shaped(c, s) && Shaped(c, s') && i < c.numInputs
    && s'.start == s.start && s'.done == s.done && s'.modelDone == s.modelDone && s'.loaded == s.loaded
    && (forall j: nat | j < c.numInputs && j != i :: s'.inst[j] == s.inst[j])
    && forall p: nat | Has(s, i, p) ::
         Has(s', i, p) && At(s', i, p) == if p in seen then TimePhase(c, s, i, p) else At(s, i, p)
  }

  lemma PartlyTimedGrows(c: Config, s: Sched, s': Sched, i: nat, seen: seq<nat>)
    requires PartlyTimed(c, s, s', i, seen)
    ensures Grows(c, s, s')
    ensures forall j: nat, p: nat | Has(s, j, p) :: Has(s', j, p) && At(s', j, p).state == At(s, j, p).state
  {
    forall j: nat, p: nat | Has(s, j, p)
      ensures Has(s', j, p) && InstanceGrows(At(s, j, p), At(s', j, p)) && At(s', j, p).state == At(s, j, p).state
    {
      SameInstances(c, s, s', j, p);
      if j == i && p in seen { TimePhaseGrows(c, s, i, p); }
    }
  }

  /** Timing part of a row does not change what the rest of it is timed against. */
  lemma TimePhaseFrame(c: Config, s: Sched, s': Sched, i: nat, seen: seq<nat>, p: nat)
    requires PartlyTimed(c, s, s', i, seen) && s.start[i] != UNSET && Has(s, i, p) && p !in seen
    ensures Has(s', i, p) && p < |c.phases| && TimePhase(c, s', i, p) == TimePhase(c, s, i, p)
    ensures CheckDependencies(c, s', i, p) == CheckDependencies(c, s, i, p)
  {
    PartlyTimedGrows(c, s, s', i, seen);
    assert Exists(c, i, p);
    forall j: nat, d: nat ensures Has(s, j, d) == Has(s', j, d) && IsComplete(s, j, d) == IsComplete(s', j, d) {
      SameInstances(c, s, s', j, d);
    }
    if CheckDependencies(c, s, i, p) == Ready { ClearedFrame(c, s, s', i, p); }
  }

  lemma NothingTimed(c: Config, s: Sched, i: nat)
    requires Shaped(c, s) && i < c.numInputs
    ensures PartlyTimed(c, s, s, i, c.order[..0])
  {
  }

  lemma OrderPrefix(c: Config, k: nat)
    requires WellFormed(c) && k < |c.order|
    ensures c.order[k] < |c.phases| && c.order[k] !in c.order[..k] && c.order[..k + 1] == c.order[..k] + [c.order[k]]
  {
  }

  lemma TimeOneMorePhase(c: Config, s: Sched, here: Sched, next: Sched, i: nat, seen: seq<nat>, p: nat)
    requires PartlyTimed(c, s, here, i, seen) && s.start[i] != UNSET && p !in seen && p < |c.phases|
    requires Shaped(c, next)
    requires if Has(here, i, p) && At(here, i, p).state != Complete && CheckDependencies(c, here, i, p) == Ready
             then next == Put(here, i, p, TimePhase(c, here, i, p)) else next == here
    ensures PartlyTimed(c, s, next, i, seen + [p])
  {
    SameInstances(c, s, here, i, p);
    if Has(s, i, p) { TimePhaseFrame(c, s, here, i, seen, p); }
    forall q: nat | Has(s, i, q)
      ensures Has(next, i, q) && At(next, i, q) == if q in seen + [p] then TimePhase(c, s, i, q) else At(s, i, q)
    {
      assert Has(here, i, q);
    }
  }

  lemma FullyTimed(c: Config, s: Sched, s': Sched, i: nat)
    requires PartlyTimed(c, s, s', i, c.order) && WellFormed(c)
    ensures s' == TimeRow(c, s, i)
  {
    TimeRowShape(c, s, i);
    var t := TimeRow(c, s, i);
    forall p: nat ensures (p in s'.inst[i] <==> p in t.inst[i]) && (p in t.inst[i] ==> s'.inst[i][p] == t.inst[i][p]) {
      SameInstances(c, s, s', i, p);
      SameInstances(c, s, t, i, p);
      assert Has(s', i, p) <==> p in s'.inst[i];
      assert Has(t, i, p) <==> p in t.inst[i];
      if Has(s, i, p) { assert Exists(c, i, p) && p in c.order; }
    }
    assert s'.inst[i] == t.inst[i];
    assert s'.inst == t.inst;
  }

  lemma StartShaped(c: Config, s: Sched, i: nat)
    requires Shaped(c, s) && i < c.numInputs
    ensures Shaped(c, s.(start := s.start[i := InputStart(c, s, i)]))
  {
    var s' := s.(start := s.start[i := InputStart(c, s, i)]);
    assert forall j: nat, p: nat :: Has(s', j, p) == Has(s, j, p);
  }

  // ---------------------------------------------------------------- taking in answers in place

  /** The transfers in `seen` have been re-timed; everything else is untouched. */
  ghost predicate PartlyAnswered(s: Sched, s': Sched, answers: map<(nat, nat), real>, seen: seq<(nat, nat)>, now: real) {
    && |s'.inst| == |s.inst|
    && s'.start == s.start && s'.done == s.done && s'.modelDone == s.modelDone && s'.loaded == s.loaded
    && (forall r | r in seen :: r in answers)
    && forall i: nat, p: nat ::
         && (Has(s', i, p) <==> Has(s, i, p))
         && (Has(s, i, p) ==> At(s', i, p) == if (i, p) in seen then Retime(At(s, i, p), answers[(i, p)], now) else At(s, i, p))
  }

  lemma NoneAnswered(s: Sched, answers: map<(nat, nat), real>, now: real)
    ensures PartlyAnswered(s, s, answers, [], now)
  {
  }

  lemma StillThere(s: Sched, here: Sched, answers: map<(nat, nat), real>, seen: seq<(nat, nat)>, now: real, i: nat, p: nat)
    requires PartlyAnswered(s, here, answers, seen, now) && Has(s, i, p)
    ensures Has(here, i, p)
  {
  }

  lemma AnswerOneMore(s: Sched, here: Sched, next: Sched, answers: map<(nat, nat), real>, seen: seq<(nat, nat)>, i: nat, p: nat, now: real)
    requires PartlyAnswered(s, here, answers, seen, now) && Has(here, i, p) && (i, p) in answers && (i, p) !in seen
    requires next == Put(here, i, p, Retime(At(here, i, p), answers[(i, p)], now))
    ensures PartlyAnswered(s, next, answers, seen + [(i, p)], now)
  {
    forall j: nat, q: nat
      ensures Has(next, j, q) <==> Has(s, j, q)
      ensures Has(s, j, q) ==> At(next, j, q) == if (j, q) in seen + [(i, p)] then Retime(At(s, j, q), answers[(j, q)], now) else At(s, j, q)
    {
      assert Has(here, j, q) <==> Has(s, j, q);
      assert (j, q) in seen + [(i, p)] <==> (j, q) in seen || (j == i && q == p);
    }
  }

  lemma AllAnswered(s: Sched, s': Sched, answers: map<(nat, nat), real>, asked: seq<(nat, nat)>, now: real)
    requires PartlyAnswered(s, s', answers, asked, now) && forall r :: r in asked <==> r in answers
    ensures s' == AnswerAll(s, answers, now)
  {
    var t := AnswerAll(s, answers, now);
    forall i: nat | i < |s.inst| ensures s'.inst[i] == t.inst[i] {
      assert t.inst[i] == AnswerRow(s.inst[i], i, answers, now);
      forall p: nat ensures (p in s'.inst[i] <==> p in t.inst[i]) && (p in t.inst[i] ==> s'.inst[i][p] == t.inst[i][p]) {
        assert Has(s', i, p) <==> Has(s, i, p);
        assert p in s.inst[i] ==> At(s', i, p) == s'.inst[i][p];
      }
    }
    assert s'.inst == t.inst;
  }

  // ---------------------------------------------------------------- a fresh model

  function FreshRow(c: Config, latency: seq<real>, i: nat): map<nat, Instance> {
    map p: nat | p in PhaseOrder.Ids(|c.phases|) && !(c.phases[p].WeightLoading? && c.stationary && i > 0) ::
      FreshInstance.(latency := if c.phases[p].Compute? && c.phases[p].layer < |latency| then latency[c.phases[p].layer] else 0.0)
  }

  function FreshRows(c: Config, latency: seq<real>): seq<map<nat, Instance>> {
    seq(c.numInputs, i requires 0 <= i => FreshRow(c, latency, i))
  }

  lemma FreshRowsShaped(c: Config, latency: seq<real>, s: Sched)
    requires s.inst == FreshRows(c, latency) && |s.start| == |s.done| == c.numInputs
    ensures Shaped(c, s)
    ensures forall i: nat, p: nat | Has(s, i, p) ::
              At(s, i, p) == FreshInstance.(latency := if c.phases[p].Compute? && c.phases[p].layer < |latency| then latency[c.phases[p].layer] else 0.0)
  {
    forall i: nat, p: nat ensures Has(s, i, p) <==> Exists(c, i, p) {
      if i < c.numInputs { assert s.inst[i] == FreshRow(c, latency, i); }
    }
    forall i: nat, p: nat | Has(s, i, p)
      ensures At(s, i, p) == FreshInstance.(latency := if c.phases[p].Compute? && c.phases[p].layer < |latency| then latency[c.phases[p].layer] else 0.0)
    {
      assert s.inst[i] == FreshRow(c, latency, i);
    }
  }

  lemma FreshIsSettled(c: Config, s: Sched, now: real)
    requires WellFormed(c) && Initial(c, s, now)
    ensures Settled(c, s) && Accounted(c, s) && OnTime(c, s)
  {
    forall i: nat | i < c.numInputs ensures !AllComplete(s, i) {
      var q := c.computeOf[0];
      assert Exists(c, i, q) && Has(s, i, q);
    }
    forall i: nat | i < c.numInputs ensures SettledAt(c, s, i) {
      assert i > 0 ==> !AllComplete(s, i - 1);
    }
    assert s.done[0] == UNSET;
  }
}
