/** The control graph of the mapping-optimizer agent (agent.py): seven nodes, four routing decisions
    and three retry budgets that reset one another.  The language model, the validator's findings
    and the simulator's results are arbitrary. */
module AgentGraph {
  import opened Options
  import opened Numbers

  datatype Node = Baseline | Analyzer | Optimizer | Validator | Injector | Runner | Evaluator | Done | Crashed

  datatype Mark = Improved | NotImproved | RunFailed | RunPassed

  /** What the validator finds in a proposal. */
  datatype Finding = Unparsable | NoFunction | Parsed(name: string, otherErrors: nat)

  /** What the outside world answers at one node; each node looks only at its own part. */
  datatype Answer = Answer(baselineFound: bool, baselineLatency: Option<real>, finding: Finding, runPasses: bool, measured: Option<real>)

  datatype Limits = Limits(iterations: int, runtimeRetries: int, validationRetries: int)

  datatype State = State(
    node: Node,
    iteration: nat,
    retries: nat,
    runtimeRetries: nat,
    valid: bool,
    functionName: string,
    runSucceeded: bool,
    baseline: Option<real>,
    best: Option<real>,
    history: seq<Mark>,
    goOn: bool)

  const Start := State(Baseline, 0, 0, 0, false, "", false, None, None, [], false)

  // ---------------------------------------------------------------- the nodes

  function Strip(name: string): string {
    if name != [] && name[0] == '_' then Strip(name[1..]) else name
  }

  function ErrorCount(f: Finding): nat {
    match f
    case Unparsable => 1
    case NoFunction => 1
    case Parsed(name, other) =>
      (if name != [] && name[0] == '_' then 0 else 1) + (if Strip(name) == [] then 1 else 0) + other
  }

  predicate Truthy(x: Option<real>) {
    x.Some? && x.value != 0.0
  }

  /** A measured latency replaces the best one only when both are present and non-zero and it is smaller. */
  predicate Better(measured: Option<real>, best: Option<real>) {
    Truthy(measured) && Truthy(best) && measured.value < best.value
  }

  predicate IsFailure(m: Mark) {
    m == NotImproved || m == RunFailed
  }

  /** How many of the latest history entries are failures in a row. */
  function TrailingFailures(history: seq<Mark>): nat {
    if history == [] || !IsFailure(history[|history| - 1]) then 0
    else 1 + TrailingFailures(history[..|history| - 1])
  }

  method CountTrailingFailures(history: seq<Mark>) returns (n: nat)
    ensures n == TrailingFailures(history)
  {
    n := 0;
    var k := |history|;
    assert history[..k] == history;
    while k > 0
      invariant 0 <= k <= |history| && n == |history| - k
      invariant TrailingFailures(history) == n + TrailingFailures(history[..k])
    {
      assert history[..k][..k - 1] == history[..k - 1];
      if !IsFailure(history[k - 1]) { return; }
      n := n + 1;
      k := k - 1;
    }
  }

  /** One node's work and the routing decision after it. */
  function Step(lim: Limits, s: State, a: Answer): State {
    match s.node
    case Baseline =>
      if a.baselineFound
      then s.(node := Analyzer, runSucceeded := true, baseline := a.baselineLatency, best := a.baselineLatency)
      else s.(node := Done, runSucceeded := false)
    case Analyzer => s.(node := Optimizer, valid := false, retries := 0, runtimeRetries := 0)
    case Optimizer => s.(node := Validator)
    case Validator =>
      if ErrorCount(a.finding) == 0
      then s.(node := Injector, valid := true, functionName := if a.finding.Parsed? then Strip(a.finding.name) else "")
      else
        var t := s.(valid := false, functionName := "", retries := s.retries + 1);
        if t.retries >= lim.validationRetries then t.(node := Done) else t.(node := Optimizer)
    case Injector => if s.functionName == "" then s.(node := Crashed) else s.(node := Runner)
    case Runner =>
      if a.runPasses then s.(node := Evaluator, runSucceeded := true, history := s.history + [RunPassed])
      else
        var t := s.(runSucceeded := false, history := s.history + [RunFailed], runtimeRetries := s.runtimeRetries + 1, retries := 0);
        if t.runtimeRetries >= lim.runtimeRetries then t.(node := Evaluator) else t.(node := Optimizer)
    case Evaluator =>
      var improved := Better(a.measured, s.best);
      var history := s.history + [if improved then Improved else NotImproved];
      var goOn := s.iteration + 1 < lim.iterations && TrailingFailures(history) < 3;
      s.(node := if goOn then Analyzer else Done, iteration := s.iteration + 1, history := history,
         best := if improved then a.measured else s.best, goOn := goOn,
         valid := false, retries := 0, runtimeRetries := 0)
    case Done => s
    case Crashed => s
  }

  function RunOf(lim: Limits, s: State, answers: seq<Answer>): State {
    if answers == [] then s else Step(lim, RunOf(lim, s, answers[..|answers| - 1]), answers[|answers| - 1])
  }

  // ---------------------------------------------------------------- what every state keeps

  /** How often each loop of the graph goes round: at least once, whatever the limits say. */
  function Iterations(lim: Limits): nat { MaxInt(1, lim.iterations) }
  function Attempts(lim: Limits): nat { MaxInt(1, lim.runtimeRetries) }
  function Tries(lim: Limits): nat { MaxInt(1, lim.validationRetries) }

  predicate Working(n: Node) {
    n != Baseline && n != Done && n != Crashed
  }

  ghost predicate Sane(lim: Limits, s: State) {
    && s.node != Crashed
    && (s.node == Baseline ==> s.iteration == 0)
    && (Working(s.node) ==> s.iteration < Iterations(lim))
    && (s.node in {Optimizer, Validator, Injector, Runner} ==> s.runtimeRetries < Attempts(lim))
    && (s.node in {Optimizer, Validator} ==> s.retries < Tries(lim))
    && (s.node == Injector || s.node == Runner ==> s.functionName != "")
    && (s.node == Evaluator ==>
          s.history != [] && s.history[|s.history| - 1] == if s.runSucceeded then RunPassed else RunFailed)
  }

  lemma {:induction false} StripShrinks(name: string)
    ensures |Strip(name)| <= |name| && (Strip(name) != [] ==> Strip(name)[0] != '_')
  {
    if name != [] && name[0] == '_' { StripShrinks(name[1..]); }
  }

  lemma StepKeepsSane(lim: Limits, s: State, a: Answer)
    requires Sane(lim, s)
    ensures Sane(lim, Step(lim, s, a))
  {
    if s.node == Validator && ErrorCount(a.finding) == 0 { StripShrinks(a.finding.name); }
  }

  lemma {:induction false} RunIsSane(lim: Limits, answers: seq<Answer>)
    ensures Sane(lim, RunOf(lim, Start, answers))
    decreases |answers|
  {
    if answers != [] {
      RunIsSane(lim, answers[..|answers| - 1]);
      StepKeepsSane(lim, RunOf(lim, Start, answers[..|answers| - 1]), answers[|answers| - 1]);
    }
  }

  /** Whatever the validator accepts has a function name the injector can use: no run crashes. */
  lemma NeverCrashes(lim: Limits, answers: seq<Answer>)
    ensures var s := RunOf(lim, Start, answers);
            s.node != Crashed && (s.node == Injector ==> s.functionName != "")
  {
    RunIsSane(lim, answers);
  }

  // ---------------------------------------------------------------- every run ends

  function Times(n: nat, k: nat): nat {
    n * k
  }

  lemma TimesStep(n: nat, k: nat)
    requires n > 0
    ensures Times(n, k) == Times(n - 1, k) + k
  {
  }

  /** Steps one runtime attempt and one iteration can take. */
  function AttemptSteps(lim: Limits): nat { 2 * Tries(lim) + 2 }
  function IterationSteps(lim: Limits): nat { Times(Attempts(lim), AttemptSteps(lim)) + 2 }

  function LaterIterations(lim: Limits, s: State): nat {
    if s.iteration < Iterations(lim) then Iterations(lim) - 1 - s.iteration else 0
  }

  function LaterAttempts(lim: Limits, s: State): nat {
    if s.runtimeRetries < Attempts(lim) then Attempts(lim) - 1 - s.runtimeRetries else 0
  }

  function LaterProposals(lim: Limits, s: State): nat {
    if s.retries < Tries(lim) then Tries(lim) - s.retries else 0
  }

  /** An upper bound on the steps still to come. */
  function StepsLeft(lim: Limits, s: State): nat {
    var later := Times(LaterIterations(lim, s), IterationSteps(lim));
    var attempts := Times(LaterAttempts(lim, s), AttemptSteps(lim));
    match s.node
    case Baseline => 1 + Times(Iterations(lim), IterationSteps(lim))
    case Analyzer => later + IterationSteps(lim)
    case Optimizer => later + 1 + attempts + 2 + 2 * LaterProposals(lim, s)
    case Validator => later + 1 + attempts + 1 + 2 * LaterProposals(lim, s)
    case Injector => later + 1 + attempts + 2
    case Runner => later + 1 + attempts + 1
    case Evaluator => later + 1
    case Done => 0
    case Crashed => 0
  }

  /** What a step does to the node and the three counters. */
  ghost predicate Transition(lim: Limits, s: State, t: State) {
    || t.node == Done
    || match s.node
       case Baseline => t.node == Analyzer && t.iteration == s.iteration
       case Analyzer => t.node == Optimizer && t.iteration == s.iteration && t.retries == 0 && t.runtimeRetries == 0
       case Optimizer => t.node == Validator && t.iteration == s.iteration && t.retries == s.retries && t.runtimeRetries == s.runtimeRetries
       case Validator => t.iteration == s.iteration && t.runtimeRetries == s.runtimeRetries
                         && (t.node == Injector || (t.node == Optimizer && t.retries == s.retries + 1 < Tries(lim)))
       case Injector => t.node == Runner && t.iteration == s.iteration && t.runtimeRetries == s.runtimeRetries
       case Runner => t.iteration == s.iteration
                      && (t.node == Evaluator || (t.node == Optimizer && t.retries == 0 && t.runtimeRetries == s.runtimeRetries + 1 < Attempts(lim)))
       case Evaluator => t.node == Analyzer && t.iteration == s.iteration + 1 < Iterations(lim)
       case Done => false
       case Crashed => false
  }

  lemma StepIsTransition(lim: Limits, s: State, a: Answer)
    requires Sane(lim, s)
    ensures Transition(lim, s, Step(lim, s, a))
  {
    hide TrailingFailures, Strip, Better, ErrorCount;
  }

  /** The products that change in one step. */
  lemma Products(lim: Limits, s: State, k: nat, l: nat)
    ensures Times(0, k) == 0 && Times(0, l) == 0
    ensures Times(Iterations(lim), k) == Times(Iterations(lim) - 1, k) + k && Times(Attempts(lim), l) == Times(Attempts(lim) - 1, l) + l
    ensures LaterIterations(lim, s) > 0 ==> Times(LaterIterations(lim, s), k) == Times(LaterIterations(lim, s) - 1, k) + k
    ensures LaterAttempts(lim, s) > 0 ==> Times(LaterAttempts(lim, s), l) == Times(LaterAttempts(lim, s) - 1, l) + l
  {
    TimesStep(Iterations(lim), k);
    TimesStep(Attempts(lim), l);
    if LaterIterations(lim, s) > 0 { TimesStep(LaterIterations(lim, s), k); }
    if LaterAttempts(lim, s) > 0 { TimesStep(LaterAttempts(lim, s), l); }
  }

  /** Every step of a run that has not ended uses up at least one of the steps left. */
  lemma StepsLeftDrops(lim: Limits, s: State, a: Answer)
    requires Sane(lim, s) && s.node != Done
    ensures StepsLeft(lim, Step(lim, s, a)) < StepsLeft(lim, s)
  {
    hide Times, Step, Iterations, Attempts, Tries;
    StepIsTransition(lim, s, a);
    Products(lim, s, IterationSteps(lim), AttemptSteps(lim));
  }

  /** Every run ends: after 1 + I * (R * (2 * V + 2) + 2) steps, the limits being at least one each,
      nothing is left to do, whatever the language model, the validator and the simulator do. */
  lemma {:induction false} RunsEnd(lim: Limits, answers: seq<Answer>)
    ensures var s := RunOf(lim, Start, answers);
            s.node == Done || |answers| + StepsLeft(lim, s) <= StepsLeft(lim, Start)
    ensures |answers| >= 1 + Times(Iterations(lim), Times(Attempts(lim), 2 * Tries(lim) + 2) + 2) ==> RunOf(lim, Start, answers).node == Done
    decreases |answers|
  {
    hide Step, Sane, StepsLeft, Times;
    if answers == [] {
      StartSteps(lim);
    } else {
      var front := answers[..|answers| - 1];
      RunsEnd(lim, front);
      RunIsSane(lim, front);
      StepSpends(lim, RunOf(lim, Start, front), answers[|answers| - 1]);
    }
    RunIsSane(lim, answers);
    StepsRemain(lim, RunOf(lim, Start, answers));
    StartSteps(lim);
  }

  lemma StartSteps(lim: Limits)
    ensures StepsLeft(lim, Start) == 1 + Times(Iterations(lim), Times(Attempts(lim), 2 * Tries(lim) + 2) + 2) && Start.node != Done
  {
    hide Times;
  }

  lemma StepSpends(lim: Limits, s: State, a: Answer)
    requires Sane(lim, s)
    ensures var t := Step(lim, s, a);
            if s.node == Done then t.node == Done else StepsLeft(lim, t) < StepsLeft(lim, s)
  {
    if s.node != Done { StepsLeftDrops(lim, s, a); }
    hide StepsLeft;
  }

  lemma StepsRemain(lim: Limits, s: State)
    requires Sane(lim, s)
    ensures s.node != Done ==> StepsLeft(lim, s) >= 1
  {
    hide Times;
  }

  // ---------------------------------------------------------------- how much is asked for

  /** How often the given node has been visited. */
  function Visits(lim: Limits, answers: seq<Answer>, n: Node): nat {
    if answers == [] then 0
    else
      var front := answers[..|answers| - 1];
      Visits(lim, front, n) + if RunOf(lim, Start, front).node == n then 1 else 0
  }

  /** Proposals still possible. */
  function ProposalsLeft(lim: Limits, s: State): nat {
    var later := Times(LaterIterations(lim, s), Times(Attempts(lim), Tries(lim)));
    var attempts := Times(LaterAttempts(lim, s), Tries(lim));
    match s.node
    case Baseline => Times(Iterations(lim), Times(Attempts(lim), Tries(lim)))
    case Analyzer => later + Times(Attempts(lim), Tries(lim))
    case Optimizer => later + attempts + LaterProposals(lim, s)
    case Validator => later + attempts + if LaterProposals(lim, s) > 0 then LaterProposals(lim, s) - 1 else 0
    case Injector => later + attempts
    case Runner => later + attempts
    case Evaluator => later
    case Done => 0
    case Crashed => 0
  }

  lemma StepProposes(lim: Limits, s: State, a: Answer)
    requires Sane(lim, s)
    ensures ProposalsLeft(lim, Step(lim, s, a)) + (if s.node == Optimizer then 1 else 0) <= ProposalsLeft(lim, s)
  {
    hide Times, Step, Iterations, Attempts, Tries;
    StepIsTransition(lim, s, a);
    Products(lim, s, Times(Attempts(lim), Tries(lim)), Tries(lim));
  }

  /** Simulator runs still possible. */
  function RunsLeft(lim: Limits, s: State): nat {
    var later := Times(LaterIterations(lim, s), Attempts(lim));
    match s.node
    case Baseline => Times(Iterations(lim), Attempts(lim))
    case Analyzer => later + Attempts(lim)
    case Optimizer => later + LaterAttempts(lim, s) + 1
    case Validator => later + LaterAttempts(lim, s) + 1
    case Injector => later + LaterAttempts(lim, s) + 1
    case Runner => later + LaterAttempts(lim, s) + 1
    case Evaluator => later
    case Done => 0
    case Crashed => 0
  }

  lemma StepRuns(lim: Limits, s: State, a: Answer)
    requires Sane(lim, s)
    ensures RunsLeft(lim, Step(lim, s, a)) + (if s.node == Runner then 1 else 0) <= RunsLeft(lim, s)
  {
    hide Times, Step, Iterations, Tries;
    StepIsTransition(lim, s, a);
    Products(lim, s, Attempts(lim), 0);
  }

  lemma {:induction false} VisitsAndLeft(lim: Limits, answers: seq<Answer>)
    ensures Visits(lim, answers, Optimizer) + ProposalsLeft(lim, RunOf(lim, Start, answers)) <= ProposalsLeft(lim, Start)
    ensures Visits(lim, answers, Runner) + RunsLeft(lim, RunOf(lim, Start, answers)) <= RunsLeft(lim, Start)
    decreases |answers|
  {
    if answers != [] {
      var front := answers[..|answers| - 1];
      VisitsAndLeft(lim, front);
      RunIsSane(lim, front);
      var s, a := RunOf(lim, Start, front), answers[|answers| - 1];
      StepProposes(lim, s, a);
      StepRuns(lim, s, a);
      hide Step, ProposalsLeft, RunsLeft;
    }
  }

  /** In any run the language model is asked for at most I * R * V proposals and the simulator is run
      at most I * R times, the limits being at least one each. */
  lemma BoundedRequests(lim: Limits, answers: seq<Answer>)
    ensures Visits(lim, answers, Optimizer) <= MaxInt(1, lim.iterations) * (MaxInt(1, lim.runtimeRetries) * MaxInt(1, lim.validationRetries))
    ensures Visits(lim, answers, Runner) <= MaxInt(1, lim.iterations) * MaxInt(1, lim.runtimeRetries)
  {
    VisitsAndLeft(lim, answers);
    assert ProposalsLeft(lim, Start) == Times(Iterations(lim), Times(Attempts(lim), Tries(lim)));
    assert RunsLeft(lim, Start) == Times(Iterations(lim), Attempts(lim));
  }

  // ---------------------------------------------------------------- the kept best

  /** The latencies evaluated in a run, in order. */
  function Evaluated(lim: Limits, answers: seq<Answer>): seq<Option<real>> {
    if answers == [] then []
    else
      var front := answers[..|answers| - 1];
      if RunOf(lim, Start, front).node == Evaluator
      then Evaluated(lim, front) + [answers[|answers| - 1].measured] else Evaluated(lim, front)
  }

  /** `best` is the smallest of the baseline and the non-zero evaluated latencies. */
  ghost predicate Smallest(best: Option<real>, baseline: Option<real>, evaluated: seq<Option<real>>) {
    && Truthy(best) && Truthy(baseline) && best.value <= baseline.value
    && (best == baseline || best in evaluated)
    && forall m | m in evaluated && Truthy(m) :: best.value <= m.value
  }

  ghost predicate BestKept(s: State, evaluated: seq<Option<real>>) {
    && (if Truthy(s.baseline) then Smallest(s.best, s.baseline, evaluated) else s.best == s.baseline)
    && (s.node == Baseline ==> evaluated == [] && s.baseline == None)
  }

  lemma StepKeepsBest(lim: Limits, s: State, a: Answer, evaluated: seq<Option<real>>)
    requires BestKept(s, evaluated)
    ensures BestKept(Step(lim, s, a), if s.node == Evaluator then evaluated + [a.measured] else evaluated)
  {
    hide TrailingFailures, ErrorCount, Strip;
    if s.node == Evaluator && Truthy(s.baseline) { OneMoreEvaluated(s.best, s.baseline, evaluated, a.measured); }
  }

  /** The kept best latency is the minimum of the baseline and of everything evaluated; without a
      usable baseline nothing ever counts as an improvement. */
  lemma {:induction false} BestIsSmallest(lim: Limits, answers: seq<Answer>)
    ensures var s := RunOf(lim, Start, answers);
            if Truthy(s.baseline) then Smallest(s.best, s.baseline, Evaluated(lim, answers)) else s.best == s.baseline
    ensures BestKept(RunOf(lim, Start, answers), Evaluated(lim, answers))
    decreases |answers|
  {
    if answers != [] {
      var front := answers[..|answers| - 1];
      BestIsSmallest(lim, front);
      StepKeepsBest(lim, RunOf(lim, Start, front), answers[|answers| - 1], Evaluated(lim, front));
      hide Step, Smallest, Truthy;
    }
  }

  lemma OneMoreEvaluated(best: Option<real>, baseline: Option<real>, evaluated: seq<Option<real>>, m: Option<real>)
    requires Smallest(best, baseline, evaluated)
    ensures Smallest(if Better(m, best) then m else best, baseline, evaluated + [m])
  {
  }

  // ---------------------------------------------------------------- stopping early

  /** The early stop for three failures in a row can fire only after a failed run: a simulation
      that succeeds leaves an entry that breaks the row, so any number of iterations without
      improvement passes unnoticed. */
  lemma EarlyStopNeedsFailedRun(lim: Limits, answers: seq<Answer>, a: Answer)
    requires RunOf(lim, Start, answers).node == Evaluator
    ensures var s := RunOf(lim, Start, answers); var s' := Step(lim, s, a);
            && (s'.node == Done && s'.iteration < lim.iterations <==>
                  s.iteration + 1 < lim.iterations && !Better(a.measured, s.best) && !s.runSucceeded && TrailingFailures(s.history) >= 2)
            && (s.runSucceeded && s.iteration + 1 < lim.iterations ==> s'.node == Analyzer)
  {
    RunIsSane(lim, answers);
    var s := RunOf(lim, Start, answers);
    var mark := if Better(a.measured, s.best) then Improved else NotImproved;
    assert (s.history + [mark])[..|s.history|] == s.history;
    assert TrailingFailures(s.history + [mark]) == if mark == NotImproved then 1 + TrailingFailures(s.history) else 0;
  }

  /** Three iterations in a row without improvement, every simulation succeeding, and the agent
      still goes on to a fourth. */
  lemma ThreeFailuresGoUnnoticed() returns (lim: Limits, answers: seq<Answer>)
    ensures Evaluated(lim, answers) == [Some(9.0)] + [Some(9.0)] + [Some(9.0)]
    ensures var s := RunOf(lim, Start, answers);
            && s.node == Analyzer && s.iteration == 3 && s.best == Some(5.0)
            && s.history == [RunPassed, NotImproved] + [RunPassed, NotImproved] + [RunPassed, NotImproved]
  {
    lim := Limits(10, 3, 3);
    var a := Answer(true, Some(5.0), Parsed("_m", 0), true, Some(9.0));
    FirstStep(lim, a);
    hide RunOf, Evaluated, Step;
    var first := OneIteration(lim, [a], a);
    assert [] + [RunPassed, NotImproved] == [RunPassed, NotImproved];
    assert [] + [Some(9.0)] == [Some(9.0)];
    var second := OneIteration(lim, first, a);
    answers := OneIteration(lim, second, a);
  }

  lemma FirstStep(lim: Limits, a: Answer)
    requires a.baselineFound
    ensures RunOf(lim, Start, [a]) == Start.(node := Analyzer, runSucceeded := true, baseline := a.baselineLatency, best := a.baselineLatency)
    ensures Evaluated(lim, [a]) == []
  {
    assert [a][..0] == [];
  }

  /** One iteration of six steps in which the simulation succeeds and brings no improvement. */
  lemma OneIteration(lim: Limits, answers: seq<Answer>, a: Answer) returns (next: seq<Answer>)
    requires RunOf(lim, Start, answers).node == Analyzer && RunOf(lim, Start, answers).best == Some(5.0)
    requires lim == Limits(10, 3, 3) && RunOf(lim, Start, answers).iteration < 9
    requires a == Answer(true, Some(5.0), Parsed("_m", 0), true, Some(9.0))
    ensures var s, s' := RunOf(lim, Start, answers), RunOf(lim, Start, next);
            && s'.node == Analyzer && s'.iteration == s.iteration + 1 && s'.best == s.best
            && s'.history == s.history + [RunPassed, NotImproved]
            && Evaluated(lim, next) == Evaluated(lim, answers) + [Some(9.0)]
  {
    var s := RunOf(lim, Start, answers);
    SixSteps(lim, s, a);
    hide Step;
    OneStep(lim, answers, a);
    OneStep(lim, answers + [a], a);
    OneStep(lim, answers + [a] + [a], a);
    OneStep(lim, answers + [a] + [a] + [a], a);
    OneStep(lim, answers + [a] + [a] + [a] + [a], a);
    OneStep(lim, answers + [a] + [a] + [a] + [a] + [a], a);
    next := answers + [a] + [a] + [a] + [a] + [a] + [a];
  }

  lemma SixSteps(lim: Limits, s: State, a: Answer)
    requires s.node == Analyzer && s.best == Some(5.0) && lim == Limits(10, 3, 3) && s.iteration < 9
    requires a == Answer(true, Some(5.0), Parsed("_m", 0), true, Some(9.0))
    ensures var s1 := Step(lim, s, a); var s2 := Step(lim, s1, a); var s3 := Step(lim, s2, a);
            var s4 := Step(lim, s3, a); var s5 := Step(lim, s4, a); var s6 := Step(lim, s5, a);
            && s1.node == Optimizer && s2.node == Validator && s3.node == Injector && s4.node == Runner && s5.node == Evaluator
            && s6.node == Analyzer && s6.iteration == s.iteration + 1 && s6.best == s.best
            && s6.history == s.history + [RunPassed, NotImproved]
  {
    assert Strip("_m") == "m" by { assert "_m"[1..] == "m"; }
    var h := s.history + [RunPassed];
    assert (h + [NotImproved])[..|h|] == h;
    assert TrailingFailures(h + [NotImproved]) == 1;
    assert h + [NotImproved] == s.history + [RunPassed, NotImproved];
  }

  lemma OneStep(lim: Limits, answers: seq<Answer>, a: Answer)
    ensures RunOf(lim, Start, answers + [a]) == Step(lim, RunOf(lim, Start, answers), a)
    ensures Evaluated(lim, answers + [a]) == Evaluated(lim, answers) + if RunOf(lim, Start, answers).node == Evaluator then [a.measured] else []
  {
    assert (answers + [a])[..|answers|] == answers;
  }
}
