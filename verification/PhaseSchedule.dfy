/** The meaning of one mapped model's phase schedule (mapped_model.py): what a phase waits for, when
    it may start, what one visit does to it, and how start and completion times are derived.
    Everything here is a function of values; the class in MappedModel.dfy updates its fields in
    place and is proved against these functions. */
module PhaseSchedule {
  import opened Options
  import opened Numbers
  import opened Phases

  /** What is fixed once a model has been mapped and its weight phases configured. */
  datatype Config = Config(
    phases: seq<Phase>,
    order: seq<nat>,
    numInputs: nat,
    numLayers: nat,
    pipelined: bool,
    stationary: bool,
    computeOf: map<nat, nat>,
    activationOf: map<nat, nat>,
    weightOf: map<nat, nat>)

  /** The mutable part: one instance map and one start and completion time per input. */
  datatype Sched = Sched(
    inst: seq<map<nat, Instance>>,
    start: seq<real>,
    done: seq<real>,
    modelDone: real,
    loaded: set<nat>)

  predicate OrderInRange(c: Config) {
    forall k | 0 <= k < |c.order| :: c.order[k] < |c.phases|
  }

  predicate Has(s: Sched, i: nat, p: nat) {
    i < |s.inst| && p in s.inst[i]
  }

  function At(s: Sched, i: nat, p: nat): Instance
    requires Has(s, i, p)
  {
    s.inst[i][p]
  }

  function Put(s: Sched, i: nat, p: nat, x: Instance): Sched
    requires i < |s.inst|
  {
    var row: map<nat, Instance> := s.inst[i][p := x];
    s.(inst := s.inst[i := row])
  }

  predicate IsComplete(s: Sched, i: nat, p: nat) {
    Has(s, i, p) && At(s, i, p).state == Complete
  }

  /** Weight phases exist only for input 0 when weights stay resident. */
  predicate Exists(c: Config, i: nat, p: nat) {
    i < c.numInputs && p < |c.phases| && !(c.phases[p].WeightLoading? && c.stationary && i > 0)
  }

  ghost predicate Shaped(c: Config, s: Sched) {
    && |s.inst| == |s.start| == |s.done| == c.numInputs
    && forall i: nat, p: nat :: Has(s, i, p) <==> Exists(c, i, p)
  }

  // ---------------------------------------------------------------- readiness

  /** The answer of the dependency check; the last one is the raised configuration error. */
  datatype Readiness = Ready | Waiting | Misconfigured

  predicate DepsDone(s: Sched, i: nat, deps: seq<nat>) {
    forall d | d in deps :: Has(s, i, d) ==> IsComplete(s, i, d)
  }

  predicate PrevDone(c: Config, s: Sched, i: nat, p: nat) {
    c.pipelined && i > 0 && Has(s, i - 1, p) ==> IsComplete(s, i - 1, p)
  }

  /** A compute phase whose weights are not in place and that does not even wait for them. */
  predicate WeightsUnguarded(c: Config, s: Sched, i: nat, p: nat)
    requires p < |c.phases|
  {
    && c.phases[p].Compute?
    && c.phases[p].layer in c.weightOf
    && !(c.stationary && c.phases[p].layer in s.loaded)
    && !IsComplete(s, i, c.weightOf[c.phases[p].layer])
    && c.weightOf[c.phases[p].layer] !in c.phases[p].deps
  }

  function CheckDependencies(c: Config, s: Sched, i: nat, p: nat): Readiness
    requires p < |c.phases|
  {
    if !DepsDone(s, i, c.phases[p].deps) || !PrevDone(c, s, i, p) then Waiting
    else if WeightsUnguarded(c, s, i, p) then Misconfigured
    else Ready
  }

  datatype Current = Found(phase: nat) | Idle | Broken

  /** The first phase in execution order that exists, is not complete and may run. */
  function FindCurrent(c: Config, s: Sched, i: nat, from: nat): (r: Current)
    requires from <= |c.order| && OrderInRange(c)
    ensures r.Found? ==> && r.phase in c.order[from..]
                         && Has(s, i, r.phase) && At(s, i, r.phase).state != Complete
                         && CheckDependencies(c, s, i, r.phase) == Ready
    decreases |c.order| - from
  {
    if from == |c.order| then Idle
    else
      var p := c.order[from];
      if !Has(s, i, p) || At(s, i, p).state == Complete then FindCurrent(c, s, i, from + 1)
      else match CheckDependencies(c, s, i, p)
        case Ready => Found(p)
        case Waiting => FindCurrent(c, s, i, from + 1)
        case Misconfigured => Broken
  }

  /** Nothing is to be done for the phase yet: it does not exist, is over, or waits. */
  ghost predicate PassedOver(c: Config, s: Sched, i: nat, p: nat)
    requires p < |c.phases|
  {
    !Has(s, i, p) || At(s, i, p).state == Complete || CheckDependencies(c, s, i, p) == Waiting
  }

  /** The phase that is found is the first in order for which something is to be done, and none is found
      exactly when there is none. */
  lemma {:induction false} FoundIsFirst(c: Config, s: Sched, i: nat, from: nat)
    requires from <= |c.order| && OrderInRange(c)
    ensures var r := FindCurrent(c, s, i, from);
            if r.Idle? then forall k | from <= k < |c.order| :: PassedOver(c, s, i, c.order[k])
            else exists k :: from <= k < |c.order| && (forall j | from <= j < k :: PassedOver(c, s, i, c.order[j]))
                          && !PassedOver(c, s, i, c.order[k]) && (r.Found? ==> r.phase == c.order[k])
    decreases |c.order| - from
  {
    hide CheckDependencies;
    if from < |c.order| && PassedOver(c, s, i, c.order[from]) { FoundIsFirst(c, s, i, from + 1); }
  }

  // ---------------------------------------------------------------- start times

  /** Latest of `floor` and the completions of the first `n` dependencies that exist. */
  function LatestOf(s: Sched, i: nat, deps: seq<nat>, n: nat, floor: real): real
    requires n <= |deps|
    decreases n
  {
    if n == 0 then floor
    else
      var m := LatestOf(s, i, deps, n - 1, floor);
      if Has(s, i, deps[n - 1]) then Max(m, At(s, i, deps[n - 1]).completion) else m
  }

  function StartTime(c: Config, s: Sched, i: nat, p: nat): real
    requires i < |s.start| && p < |c.phases|
  {
    var m := LatestOf(s, i, c.phases[p].deps, |c.phases[p].deps|, s.start[i]);
    if c.pipelined && i > 0 && Has(s, i - 1, p) then Max(m, At(s, i - 1, p).completion) else m
  }

  /** `v` is a time the phase must wait for: its input's start, the completion of a dependency,
      or, when pipelined, the completion of the same phase for the input before. */
  ghost predicate WaitsFor(c: Config, s: Sched, i: nat, p: nat, v: real)
    requires i < |s.start| && p < |c.phases|
  {
    || v == s.start[i]
    || (exists d | d in c.phases[p].deps :: Has(s, i, d) && v == At(s, i, d).completion)
    || (c.pipelined && i > 0 && Has(s, i - 1, p) && v == At(s, i - 1, p).completion)
  }

  lemma {:induction false} LatestOfIsMax(s: Sched, i: nat, deps: seq<nat>, n: nat, floor: real)
    requires n <= |deps|
    ensures floor <= LatestOf(s, i, deps, n, floor)
    ensures forall k | 0 <= k < n :: Has(s, i, deps[k]) ==> At(s, i, deps[k]).completion <= LatestOf(s, i, deps, n, floor)
    ensures LatestOf(s, i, deps, n, floor) == floor
         || exists k | 0 <= k < n :: Has(s, i, deps[k]) && At(s, i, deps[k]).completion == LatestOf(s, i, deps, n, floor)
    decreases n
  {
    if n > 0 {
      LatestOfIsMax(s, i, deps, n - 1, floor);
    }
  }

  /** The computed start time is the latest of everything the phase waits for: it is one of those
      times and none of them is later. */
  lemma StartTimeIsLatest(c: Config, s: Sched, i: nat, p: nat)
    requires i < |s.start| && p < |c.phases|
    ensures WaitsFor(c, s, i, p, StartTime(c, s, i, p))
    ensures forall v | WaitsFor(c, s, i, p, v) :: v <= StartTime(c, s, i, p)
  {
    var deps := c.phases[p].deps;
    LatestOfIsMax(s, i, deps, |deps|, s.start[i]);
    forall d | d in deps && Has(s, i, d)
      ensures At(s, i, d).completion <= StartTime(c, s, i, p)
    {
      var k :| 0 <= k < |deps| && deps[k] == d;
    }
  }

  // ---------------------------------------------------------------- one visit to the current phase

  /** What a visit leaves: the new instance, whether it is reported active, and whether it
      marks the phase's layers as loaded. */
  datatype Visit = Visit(inst: Instance, reported: bool, loads: bool)

  predicate AllLoaded(s: Sched, layers: seq<nat>) {
    forall l | l in layers :: l in s.loaded
  }

  function VisitCompute(x: Instance, begin: real, now: real): Visit {
    match x.state
    case NotStarted => Visit(x.(state := Running, start := begin, active := true), true, false)
    case Running =>
      var elapsed := now - x.start;
      if elapsed < x.latency then
        Visit(x.(percent := if x.latency > 0.0 then elapsed / x.latency else 0.0, active := true), true, false)
      else
        Visit(x.(state := Complete, active := false, completion := x.start + x.latency), false, false)
    case Complete => Visit(x, false, false)
  }

  function VisitComm(x: Instance, traffic: Traffic, begin: real, now: real): Visit {
    if x.latency == 0.0 && x.state == NotStarted then
      if !HasTraffic(traffic) then
        Visit(x.(scaled := traffic, state := Complete, start := begin, latency := -1.0,
                 completion := begin, active := false, percent := 1.0), false, true)
      else
        Visit(x.(scaled := traffic, state := Running, start := begin, active := true, percent := 0.0), true, false)
    else if x.state == Running then
      if x.latency > 0.0 then
        var elapsed := now - x.start;
        if elapsed < x.latency then
          var part := Min(1.0, elapsed / x.latency);
          var left := ScaleTraffic(traffic, 1.0 - part);
          Visit(x.(percent := part, scaled := left), HasTraffic(left), false)
        else
          Visit(x.(state := Complete, active := false, completion := x.start + x.latency), false, true)
      else if !HasTraffic(traffic) then
        Visit(x.(scaled := traffic, state := Complete, active := false, completion := x.start,
                 latency := -1.0, percent := 1.0), false, true)
      else
        Visit(x.(scaled := traffic), true, false)
    else
      Visit(x, false, false)
  }

  /** Of two scans of a running transfer with the same start and latency, the later one carries no more
      packets from any chiplet to any other. */
  lemma LaterVisitCarriesLess(x: Instance, y: Instance, traffic: Traffic, begin: real, begin': real, now: real, later: real, src: nat, dst: nat)
    requires x.state == y.state == Running && x.start == y.start && x.latency == y.latency && now <= later
    ensures var v, w := VisitComm(x, traffic, begin, now), VisitComm(y, traffic, begin', later);
            && (w.reported ==> v.reported)
            && (w.reported && Packets(w.inst.scaled, src, dst) > 0 ==>
                  Packets(w.inst.scaled, src, dst) <= Packets(v.inst.scaled, src, dst) <= Packets(traffic, src, dst))
  {
    hide HasTraffic, ScaleTraffic, Packets;
    if x.latency > 0.0 && later - x.start < x.latency {
      var part, part' := Min(1.0, (now - x.start) / x.latency), Min(1.0, (later - x.start) / x.latency);
      PartGrows(now - x.start, later - x.start, x.latency);
      ScaledTrafficBounds(traffic, 1.0 - part, 1.0 - part', src, dst);
      ScaledTrafficBounds(traffic, 1.0 - part', 1.0 - part', src, dst);
      ScaledTrafficNonzero(traffic, 1.0 - part);
      ScaledTrafficNonzero(traffic, 1.0 - part');
    }
  }

  lemma PartGrows(elapsed: real, later: real, latency: real)
    requires elapsed <= later && latency > 0.0
    ensures elapsed / latency <= later / latency
  {
  }

  function VisitPhase(c: Config, s: Sched, i: nat, p: nat, now: real): Visit
    requires i < |s.start| && p < |c.phases| && Has(s, i, p)
  {
    var x := At(s, i, p);
    match c.phases[p]
    case Compute(_, _) => VisitCompute(x, StartTime(c, s, i, p), now)
    case ActivationComm(_, _, tr) => VisitComm(x, tr, StartTime(c, s, i, p), now)
    case WeightLoading(_, layers, tr) =>
      if c.stationary && AllLoaded(s, layers) then
        if x.state == NotStarted then
          Visit(x.(state := Complete, latency := 0.0, start := now, completion := now, active := false), false, false)
        else Visit(x, false, false)
      else VisitComm(x, tr, StartTime(c, s, i, p), now)
  }

  function ApplyVisit(c: Config, s: Sched, i: nat, p: nat, v: Visit): Sched
    requires i < |s.inst| && p < |c.phases|
  {
    var s' := Put(s, i, p, v.inst);
    if v.loads && c.phases[p].WeightLoading?
    then s'.(loaded := s.loaded + (set l | l in c.phases[p].layers)) else s'
  }

  predicate Started(s: Sched, i: nat, now: real) {
    i < |s.start| && s.start[i] != UNSET && s.start[i] <= now
  }

  /** One input's share of a scan for active phases. */
  function ScanInput(c: Config, s: Sched, i: nat, now: real): (r: Sched)
    requires Shaped(c, s) && i < c.numInputs && OrderInRange(c)
    ensures Shaped(c, r)
  {
    if !Started(s, i, now) then s
    else
      var cur := FindCurrent(c, s, i, 0);
      if cur.Found? then ApplyVisit(c, s, i, cur.phase, VisitPhase(c, s, i, cur.phase, now))
      else s
  }

  /** The first `n` inputs' shares, in input order. */
  function ScanInputs(c: Config, s: Sched, n: nat, now: real): (r: Sched)
    requires Shaped(c, s) && n <= c.numInputs && OrderInRange(c)
    ensures Shaped(c, r)
    decreases n
  {
    if n == 0 then s else ScanInput(c, ScanInputs(c, s, n - 1, now), n - 1, now)
  }

  /** The phases a scan of the first `n` inputs reports as active. */
  function Reports(c: Config, s: Sched, n: nat, now: real): seq<(nat, nat)>
    requires Shaped(c, s) && n <= c.numInputs && OrderInRange(c)
    decreases n
  {
    if n == 0 then []
    else Reports(c, s, n - 1, now) + ReportInput(c, ScanInputs(c, s, n - 1, now), n - 1, now)
  }

  function ReportInput(c: Config, s: Sched, i: nat, now: real): seq<(nat, nat)>
    requires Shaped(c, s) && i < c.numInputs && OrderInRange(c)
  {
    if !Started(s, i, now) then []
    else
      var cur := FindCurrent(c, s, i, 0);
      if cur.Found? && VisitPhase(c, s, i, cur.phase, now).reported then [(i, cur.phase)] else []
  }

  // ---------------------------------------------------------------- re-timing and derived times

  /** A network latency for one phase: the first answer is taken as it is, a later one is added
      to the time already spent. */
  function Retime(x: Instance, latency: real, now: real): Instance {
    if x.latency == 0.0 then x.(latency := latency)
    else if x.latency > 0.0 && x.state == Running then
      var elapsed := now - x.start;
      var total := elapsed + latency;
      x.(latency := total, percent := if total > 0.0 then Min(1.0, elapsed / total) else x.percent)
    else x
  }

  /** A transfer that gets its first latency lasts that long from its start; one that gets another ends
      so much later than now. */
  lemma RetimedEnds(x: Instance, latency: real, now: real)
    requires x.state == Running && x.latency >= 0.0
    ensures var y := Retime(x, latency, now);
            && y.start == x.start && y.state == x.state && y.scaled == x.scaled && y.completion == x.completion
            && y.start + y.latency == latency + if x.latency == 0.0 then x.start else now
  {
  }

  /** All answers of one network simulation, applied together. */
  function AnswerAll(s: Sched, answers: map<(nat, nat), real>, now: real): Sched {
    s.(inst := seq(|s.inst|, i requires 0 <= i < |s.inst| => AnswerRow(s.inst[i], i, answers, now)))
  }

  function AnswerRow(row: map<nat, Instance>, i: nat, answers: map<(nat, nat), real>, now: real): map<nat, Instance> {
    map p | p in row :: if (i, p) in answers then Retime(row[p], answers[(i, p)], now) else row[p]
  }

  /** Completion of the first layer, from `layer` on, whose compute and activation phases are done. */
  function FirstLayerDone(c: Config, s: Sched, i: nat, layer: nat): Option<real>
    decreases c.numLayers - layer
  {
    if layer >= c.numLayers then None
    else if layer in c.computeOf && IsComplete(s, i, c.computeOf[layer])
            && (layer in c.activationOf ==> IsComplete(s, i, c.activationOf[layer])) then
      var done := At(s, i, c.computeOf[layer]).completion;
      Some(if layer in c.activationOf then Max(done, At(s, i, c.activationOf[layer]).completion) else done)
    else FirstLayerDone(c, s, i, layer + 1)
  }

  predicate AllComplete(s: Sched, i: nat)
    requires i < |s.inst|
  {
    forall p | p in s.inst[i] :: s.inst[i][p].state == Complete
  }

  /** The start time an input has after it has been looked at. */
  function InputStart(c: Config, s: Sched, i: nat): real
    requires i < |s.start| == |s.inst| == |s.done|
  {
    if i == 0 || s.start[i] != UNSET then s.start[i]
    else if c.pipelined then
      match FirstLayerDone(c, s, i - 1, 0)
      case Some(v) => v
      case None => UNSET
    else if AllComplete(s, i - 1) && s.done[i - 1] != UNSET then s.done[i - 1]
    else UNSET
  }

  /** Fills in a missing start time and, where the latency is known, a predicted completion. */
  function TimePhase(c: Config, s: Sched, i: nat, p: nat): Instance
    requires i < |s.start| && p < |c.phases| && Has(s, i, p)
  {
    var x := At(s, i, p);
    if x.state == Complete || CheckDependencies(c, s, i, p) != Ready then x
    else
      var y := if x.start < 0.0 then x.(start := StartTime(c, s, i, p)) else x;
      if y.latency > 0.0 && y.completion < 0.0 then y.(completion := y.start + y.latency) else y
  }

  function TimeRow(c: Config, s: Sched, i: nat): Sched
    requires Shaped(c, s) && i < c.numInputs
  {
    var row: map<nat, Instance> := map p | p in s.inst[i] :: assert Has(s, i, p); TimePhase(c, s, i, p);
    s.(inst := s.inst[i := row])
  }

  function TimeInput(c: Config, s: Sched, i: nat): (r: Sched)
    requires Shaped(c, s) && i < c.numInputs
    ensures Shaped(c, r)
  {
    var s1 := s.(start := s.start[i := InputStart(c, s, i)]);
    assert forall j: nat, p: nat :: Has(s1, j, p) == Has(s, j, p);
    if s1.start[i] == UNSET then s1
    else
      var s2 := TimeRow(c, s1, i);
      assert forall j: nat, p: nat :: Has(s2, j, p) == Has(s, j, p);
      if AllComplete(s2, i) && s2.done[i] == UNSET then
        var s3 := s2.(done := s2.done[i := LatestOf(s2, i, c.order, |c.order|, UNSET)]);
        assert forall j: nat, p: nat :: Has(s3, j, p) == Has(s, j, p);
        s3
      else s2
  }

  function TimeInputs(c: Config, s: Sched, n: nat): (r: Sched)
    requires Shaped(c, s) && n <= c.numInputs
    ensures Shaped(c, r)
    decreases n
  {
    if n == 0 then s else TimeInput(c, TimeInputs(c, s, n - 1), n - 1)
  }

  function MaxOf(v: seq<real>): real
    requires |v| > 0
  {
    if |v| == 1 then v[0] else Max(MaxOf(v[..|v| - 1]), v[|v| - 1])
  }

  function CloseModel(s: Sched): (r: Sched)
    requires |s.done| > 0
    ensures r.inst == s.inst && r.start == s.start && r.done == s.done
  {
    if forall i | 0 <= i < |s.done| :: s.done[i] != UNSET then s.(modelDone := MaxOf(s.done)) else s
  }

  /** All times of the model, derived afresh from the current phase states. */
  function TimeModel(c: Config, s: Sched): (r: Sched)
    requires Shaped(c, s) && c.numInputs > 0
    ensures Shaped(c, r)
  {
    var m := TimeInputs(c, s, c.numInputs);
    assert forall j: nat, p: nat :: Has(CloseModel(m), j, p) == Has(m, j, p);
    CloseModel(m)
  }

  /** The loop derives times twice a round: once for every active model, and once more when it
      checks which models to retire. */
  function TimeTwice(c: Config, s: Sched): (r: Sched)
    requires Shaped(c, s) && c.numInputs > 0
    ensures Shaped(c, r)
  {
    TimeModel(c, TimeModel(c, s))
  }

  /** A freshly mapped model: only the first input has a start time, nothing has run, and the
      compute latencies are known. */
  ghost predicate Initial(c: Config, s: Sched, now: real) {
    && Shaped(c, s)
    && s.loaded == {} && s.modelDone == UNSET
    && (forall i | 0 <= i < c.numInputs :: s.done[i] == UNSET && s.start[i] == if i == 0 then now else UNSET)
    && forall i: nat, p: nat | Has(s, i, p) ::
         var x := At(s, i, p);
         x == FreshInstance.(latency := x.latency) && 0.0 <= x.latency && (c.phases[p].IsComm() ==> x.latency == 0.0)
  }
}
