/** What becomes of a run of the mapping-optimizer agent (agent.py), exactly: which node comes next, told
    from the answers so far alone, and runs that use up every retry there is. */
module AgentOutcomes {
  import opened Options
  import opened Numbers
  import opened AgentGraph

  /** The validator accepts a proposal exactly when it parses, its function's name begins with an
      underscore and is more than underscores, and nothing else is wrong. */
  ghost predicate Accepted(f: Finding) {
    f.Parsed? && f.otherErrors == 0 && f.name != [] && f.name[0] == '_' && exists k: nat :: k < |f.name| && f.name[k] != '_'
  }

  lemma {:induction false} StripIsEmpty(name: string)
    ensures Strip(name) == [] <==> forall k: nat | k < |name| :: name[k] == '_'
    decreases |name|
  {
    if name != [] && name[0] == '_' {
      StripIsEmpty(name[1..]);
      assert forall k: nat | 0 < k < |name| :: name[k] == name[1..][k - 1];
      if forall k: nat | k < |name| :: name[k] == '_' {
        forall k: nat | k < |name[1..]| ensures name[1..][k] == '_' { assert name[1..][k] == name[k + 1]; }
      }
    }
  }

  lemma AcceptedExactly(f: Finding)
    ensures ErrorCount(f) == 0 <==> Accepted(f)
  {
    if f.Parsed? { StripIsEmpty(f.name); }
  }

  // ---------------------------------------------------------------- counted from the answers

  /** Proposals rejected since the latest moment that gave new tries: the start of an iteration or a
      simulation that failed. */
  ghost function Rejections(lim: Limits, answers: seq<Answer>): nat {
    if answers == [] then 0
    else
      var front, a := answers[..|answers| - 1], answers[|answers| - 1];
      match RunOf(lim, Start, front).node
      case Analyzer => 0
      case Runner => 0
      case Validator => Rejections(lim, front) + if Accepted(a.finding) then 0 else 1
      case _ => Rejections(lim, front)
  }

  /** Simulations that failed since the start of the iteration. */
  ghost function Failures(lim: Limits, answers: seq<Answer>): nat {
    if answers == [] then 0
    else
      var front, a := answers[..|answers| - 1], answers[|answers| - 1];
      match RunOf(lim, Start, front).node
      case Analyzer => 0
      case Runner => Failures(lim, front) + if a.runPasses then 0 else 1
      case _ => Failures(lim, front)
  }

  /** The counters the agent keeps are these. */
  ghost predicate Counted(lim: Limits, answers: seq<Answer>) {
    var s := RunOf(lim, Start, answers);
    && (Working(s.node) ==> s.iteration == Visits(lim, answers, Evaluator))
    && (s.node == Baseline ==> Visits(lim, answers, Evaluator) == 0)
    && (s.node in {Optimizer, Validator, Injector, Runner} ==> s.runtimeRetries == Failures(lim, answers))
    && (s.node in {Optimizer, Validator} ==> s.retries == Rejections(lim, answers))
  }

  lemma Recount(lim: Limits, front: seq<Answer>, a: Answer)
    ensures var answers := front + [a]; var s := RunOf(lim, Start, front);
            && RunOf(lim, Start, answers) == Step(lim, s, a)
            && (forall n: Node :: Visits(lim, answers, n) == Visits(lim, front, n) + if s.node == n then 1 else 0)
            && Rejections(lim, answers) == (match s.node
                                            case Analyzer => 0
                                            case Runner => 0
                                            case Validator => Rejections(lim, front) + if Accepted(a.finding) then 0 else 1
                                            case _ => Rejections(lim, front))
            && Failures(lim, answers) == (match s.node
                                          case Analyzer => 0
                                          case Runner => Failures(lim, front) + if a.runPasses then 0 else 1
                                          case _ => Failures(lim, front))
  {
    hide Step, Accepted;
    assert (front + [a])[..|front|] == front;
  }

  lemma StepCounted(lim: Limits, front: seq<Answer>, a: Answer)
    requires Counted(lim, front)
    ensures Counted(lim, front + [a])
  {
    hide Visits, Rejections, Failures, RunOf, Accepted, ErrorCount, Strip, Better, TrailingFailures;
    Recount(lim, front, a);
    RunIsSane(lim, front);
    AcceptedExactly(a.finding);
  }

  lemma {:induction false} AllCounted(lim: Limits, answers: seq<Answer>)
    ensures Counted(lim, answers)
    decreases |answers|
  {
    if answers != [] {
      hide Counted;
      var front := answers[..|answers| - 1];
      AllCounted(lim, front);
      StepCounted(lim, front, answers[|answers| - 1]);
      assert front + [answers[|answers| - 1]] == answers;
    }
  }

  /** What the simulations and the evaluations so far have come to. */
  ghost function Marks(lim: Limits, answers: seq<Answer>): seq<Mark> {
    if answers == [] then []
    else
      var front, a := answers[..|answers| - 1], answers[|answers| - 1];
      var s := RunOf(lim, Start, front);
      match s.node
      case Runner => Marks(lim, front) + [if a.runPasses then RunPassed else RunFailed]
      case Evaluator => Marks(lim, front) + [if Better(a.measured, s.best) then Improved else NotImproved]
      case _ => Marks(lim, front)
  }

  lemma {:induction false} HistoryIsMarks(lim: Limits, answers: seq<Answer>)
    ensures RunOf(lim, Start, answers).history == Marks(lim, answers)
    decreases |answers|
  {
    hide ErrorCount, Strip, Better, TrailingFailures;
    if answers != [] { HistoryIsMarks(lim, answers[..|answers| - 1]); }
  }

  /** The last simulation failed, and so did the simulation or the evaluation before. */
  ghost predicate NearStop(lim: Limits, answers: seq<Answer>) {
    var h := Marks(lim, answers);
    |h| >= 2 && h[|h| - 1] == RunFailed && (h[|h| - 2] == RunFailed || h[|h| - 2] == NotImproved)
  }

  /** Which node comes next, from the answers so far and the next one.  A rejected proposal ends the run
      exactly when it is the last of max(1, V) tries since there were new ones, and is retried
      otherwise; a failed simulation ends the iteration exactly when it is the last of max(1, R), and
      leads to a new proposal otherwise; the run ends with the last of max(1, I) iterations, or
      earlier after a failed simulation that makes three failures in a row. */
  lemma NextNode(lim: Limits, answers: seq<Answer>, a: Answer)
    ensures var s, next := RunOf(lim, Start, answers), RunOf(lim, Start, answers + [a]).node;
            next == match s.node
                    case Baseline => if a.baselineFound then Analyzer else Done
                    case Analyzer => Optimizer
                    case Optimizer => Validator
                    case Validator =>
                      if Accepted(a.finding) then Injector
                      else if Rejections(lim, answers) + 1 < MaxInt(1, lim.validationRetries) then Optimizer else Done
                    case Injector => Runner
                    case Runner =>
                      if !a.runPasses && Failures(lim, answers) + 1 < MaxInt(1, lim.runtimeRetries) then Optimizer else Evaluator
                    case Evaluator =>
                      if Visits(lim, answers, Evaluator) + 1 >= MaxInt(1, lim.iterations) then Done
                      else if !Better(a.measured, s.best) && NearStop(lim, answers) then Done
                      else Analyzer
                    case Done => Done
                    case Crashed => Crashed
  {
    hide Visits, Rejections, Failures, RunOf, Accepted, ErrorCount, Strip, Better, TrailingFailures, NearStop;
    Recount(lim, answers, a);
    AllCounted(lim, answers);
    RunIsSane(lim, answers);
    AcceptedExactly(a.finding);
    var s := RunOf(lim, Start, answers);
    if s.node == Evaluator {
      EarlyStopNeedsFailedRun(lim, answers, a);
      StopsNear(lim, answers);
      EvaluatorOnly(lim, s, a);
    }
  }

  lemma TwoFailures(h: seq<Mark>)
    ensures TrailingFailures(h) >= 2 <==> |h| >= 2 && IsFailure(h[|h| - 1]) && IsFailure(h[|h| - 2])
  {
    if |h| >= 2 { assert h[..|h| - 1][|h| - 2] == h[|h| - 2]; }
  }

  lemma StopsNear(lim: Limits, answers: seq<Answer>)
    requires RunOf(lim, Start, answers).node == Evaluator
    ensures var s := RunOf(lim, Start, answers); NearStop(lim, answers) <==> !s.runSucceeded && TrailingFailures(s.history) >= 2
  {
    hide RunOf, Marks, TrailingFailures;
    HistoryIsMarks(lim, answers);
    TwoFailures(Marks(lim, answers));
    RunIsSane(lim, answers);
  }

  lemma EvaluatorOnly(lim: Limits, s: State, a: Answer)
    requires s.node == Evaluator
    ensures var t := Step(lim, s, a); t.iteration == s.iteration + 1 && (t.node == Analyzer || t.node == Done) && (t.node == Analyzer ==> t.iteration < lim.iterations)
  {
  }

  // ---------------------------------------------------------------- runs in which everything goes wrong

  /** A run whose proposals are all rejected makes exactly max(1, V) of them and ends, having simulated
      nothing. */
  lemma {:induction false} AllRejected(lim: Limits, answers: seq<Answer>, k: nat)
    requires forall i | 0 <= i < |answers| :: answers[i].baselineFound && !Accepted(answers[i].finding)
    requires |answers| == 2 + 2 * k && k <= Tries(lim)
    ensures RunOf(lim, Start, answers).node == if k < Tries(lim) then Optimizer else Done
    ensures Visits(lim, answers, Optimizer) == k && Visits(lim, answers, Runner) == 0 && Rejections(lim, answers) == k
    decreases k
  {
    hide Step, Accepted, RunOf, Visits, Rejections, Failures, Better, NearStop;
    var first, second := answers[..|answers| - 2], answers[..|answers| - 1];
    var a, b := answers[|answers| - 2], answers[|answers| - 1];
    assert first + [a] == second && second + [b] == answers;
    if k == 0 {
      assert first == [];
      NothingYet(lim);
    } else {
      AllRejected(lim, first, k - 1);
    }
    NextNode(lim, first, a);
    Recount(lim, first, a);
    NextNode(lim, second, b);
    Recount(lim, second, b);
  }

  lemma NothingYet(lim: Limits)
    ensures RunOf(lim, Start, []).node == Baseline && Visits(lim, [], Optimizer) == 0 && Visits(lim, [], Runner) == 0
    ensures Rejections(lim, []) == 0 && Failures(lim, []) == 0 && Visits(lim, [], Evaluator) == 0
  {
  }

  lemma {:induction false} DoneStays(lim: Limits, answers: seq<Answer>, more: seq<Answer>)
    requires RunOf(lim, Start, answers).node == Done
    ensures RunOf(lim, Start, answers + more) == RunOf(lim, Start, answers)
    ensures forall n: Node | n != Done :: Visits(lim, answers + more, n) == Visits(lim, answers, n)
    decreases |more|
  {
    hide Step, RunOf, Visits, Rejections, Failures, Accepted;
    if more == [] {
      assert answers + more == answers;
    } else {
      var front := more[..|more| - 1];
      DoneStays(lim, answers, front);
      DoneIsLast(lim, RunOf(lim, Start, answers), more[|more| - 1]);
      Recount(lim, answers + front, more[|more| - 1]);
      assert answers + front + [more[|more| - 1]] == answers + more;
    }
  }

  lemma DoneIsLast(lim: Limits, s: State, a: Answer)
    requires s.node == Done
    ensures Step(lim, s, a) == s
  {
  }

  /** So any such run, once it is long enough. */
  lemma RejectedRun(lim: Limits, answers: seq<Answer>)
    requires forall i | 0 <= i < |answers| :: answers[i].baselineFound && !Accepted(answers[i].finding)
    requires |answers| >= 2 + 2 * MaxInt(1, lim.validationRetries)
    ensures RunOf(lim, Start, answers).node == Done
    ensures Visits(lim, answers, Optimizer) == MaxInt(1, lim.validationRetries) && Visits(lim, answers, Runner) == 0
  {
    hide RunOf, Visits, Accepted;
    var n := 2 + 2 * Tries(lim);
    AllRejected(lim, answers[..n], Tries(lim));
    DoneStays(lim, answers[..n], answers[n..]);
    assert answers[..n] + answers[n..] == answers;
  }

  /** An attempt that is accepted and fails, from a moment when a proposal is due. */
  lemma FailedAttempt(lim: Limits, answers: seq<Answer>, more: seq<Answer>)
    requires RunOf(lim, Start, answers).node == Optimizer && |more| == 4
    requires forall i | 0 <= i < |more| :: Accepted(more[i].finding) && !more[i].runPasses
    ensures var after := answers + more;
            && RunOf(lim, Start, after).node == (if Failures(lim, answers) + 1 < Attempts(lim) then Optimizer else Evaluator)
            && Failures(lim, after) == Failures(lim, answers) + 1
            && Visits(lim, after, Runner) == Visits(lim, answers, Runner) + 1 && Visits(lim, after, Optimizer) == Visits(lim, answers, Optimizer) + 1
  {
    hide Step, Accepted, RunOf, Visits, Rejections, Failures, Better, NearStop;
    var a1, a2, a3, a4 := answers + [more[0]], answers + [more[0]] + [more[1]], answers + [more[0]] + [more[1]] + [more[2]],
                          answers + [more[0]] + [more[1]] + [more[2]] + [more[3]];
    assert a4 == answers + more;
    NextNode(lim, answers, more[0]);
    Recount(lim, answers, more[0]);
    NextNode(lim, a1, more[1]);
    Recount(lim, a1, more[1]);
    NextNode(lim, a2, more[2]);
    Recount(lim, a2, more[2]);
    NextNode(lim, a3, more[3]);
    Recount(lim, a3, more[3]);
  }

  lemma {:induction false} FailedAttempts(lim: Limits, answers: seq<Answer>, more: seq<Answer>, k: nat)
    requires RunOf(lim, Start, answers).node == Optimizer && Failures(lim, answers) == 0 && k <= Attempts(lim) && |more| == 4 * k
    requires forall i | 0 <= i < |more| :: Accepted(more[i].finding) && !more[i].runPasses
    ensures var after := answers + more;
            && RunOf(lim, Start, after).node == (if k < Attempts(lim) then Optimizer else Evaluator)
            && Failures(lim, after) == k && Visits(lim, after, Runner) == Visits(lim, answers, Runner) + k
    decreases k
  {
    hide Accepted, RunOf, Visits, Failures;
    if k == 0 {
      assert answers + more == answers;
    } else {
      var front, last := more[..4 * (k - 1)], more[4 * (k - 1)..];
      FailedAttempts(lim, answers, front, k - 1);
      FailedAttempt(lim, answers + front, last);
      assert answers + front + last == answers + more;
    }
  }

  /** An iteration whose simulations all fail runs the simulator exactly max(1, R) times and is then
      evaluated. */
  lemma FailedIteration(lim: Limits, answers: seq<Answer>, more: seq<Answer>)
    requires RunOf(lim, Start, answers).node == Analyzer && |more| == 1 + 4 * MaxInt(1, lim.runtimeRetries)
    requires forall i | 0 <= i < |more| :: Accepted(more[i].finding) && !more[i].runPasses
    ensures RunOf(lim, Start, answers + more).node == Evaluator
    ensures Visits(lim, answers + more, Runner) == Visits(lim, answers, Runner) + MaxInt(1, lim.runtimeRetries)
  {
    hide Accepted, RunOf, Visits, Rejections, Failures, Better, NearStop, Step;
    NextNode(lim, answers, more[0]);
    Recount(lim, answers, more[0]);
    FailedAttempts(lim, answers + [more[0]], more[1..], Attempts(lim));
    assert answers + [more[0]] + more[1..] == answers + more;
  }

  // ---------------------------------------------------------------- the bounds are attained

  const Rejecting := Answer(true, None, NoFunction, false, None)
  const Failing := Answer(true, None, Parsed("_m", 0), false, None)
  const Passing := Answer(true, None, Parsed("_m", 0), true, None)

  lemma SampleFindings()
    ensures !Accepted(Rejecting.finding) && Accepted(Failing.finding) && Accepted(Passing.finding)
  {
    assert "_m"[1] != '_';
  }

  /** Rejected `k` times in a row. */
  lemma {:induction false} RejectTimes(lim: Limits, answers: seq<Answer>, k: nat) returns (next: seq<Answer>)
    requires RunOf(lim, Start, answers).node == Optimizer && Rejections(lim, answers) == 0 && k < Tries(lim)
    ensures RunOf(lim, Start, next).node == Optimizer && Rejections(lim, next) == k && Failures(lim, next) == Failures(lim, answers)
    ensures Visits(lim, next, Optimizer) == Visits(lim, answers, Optimizer) + k
    ensures Visits(lim, next, Runner) == Visits(lim, answers, Runner) && Visits(lim, next, Evaluator) == Visits(lim, answers, Evaluator)
    decreases k
  {
    hide Accepted, RunOf, Visits, Rejections, Failures, Better, NearStop, Step;
    if k == 0 { return answers; }
    var before := RejectTimes(lim, answers, k - 1);
    SampleFindings();
    NextNode(lim, before, Rejecting);
    Recount(lim, before, Rejecting);
    var middle := before + [Rejecting];
    NextNode(lim, middle, Rejecting);
    Recount(lim, middle, Rejecting);
    next := middle + [Rejecting];
  }

  /** A proposal accepted at the last try, and simulated. */
  lemma LastTry(lim: Limits, answers: seq<Answer>, a: Answer) returns (next: seq<Answer>)
    requires RunOf(lim, Start, answers).node == Optimizer && Rejections(lim, answers) == 0 && (a == Failing || a == Passing)
    ensures RunOf(lim, Start, next).node == if !a.runPasses && Failures(lim, answers) + 1 < Attempts(lim) then Optimizer else Evaluator
    ensures RunOf(lim, Start, next).runSucceeded == a.runPasses
    ensures Rejections(lim, next) == 0 && Failures(lim, next) == Failures(lim, answers) + if a.runPasses then 0 else 1
    ensures Visits(lim, next, Optimizer) == Visits(lim, answers, Optimizer) + Tries(lim)
    ensures Visits(lim, next, Runner) == Visits(lim, answers, Runner) + 1 && Visits(lim, next, Evaluator) == Visits(lim, answers, Evaluator)
  {
    hide Accepted, RunOf, Visits, Rejections, Failures, Better, NearStop, Step;
    SampleFindings();
    var a0 := RejectTimes(lim, answers, Tries(lim) - 1);
    NextNode(lim, a0, a);
    Recount(lim, a0, a);
    var a1 := a0 + [a];
    NextNode(lim, a1, a);
    Recount(lim, a1, a);
    var a2 := a1 + [a];
    NextNode(lim, a2, a);
    Recount(lim, a2, a);
    var a3 := a2 + [a];
    NextNode(lim, a3, a);
    Recount(lim, a3, a);
    RunnerNotes(lim, RunOf(lim, Start, a3), a);
    next := a3 + [a];
  }

  lemma RunnerNotes(lim: Limits, s: State, a: Answer)
    requires s.node == Runner
    ensures Step(lim, s, a).runSucceeded == a.runPasses
  {
  }

  lemma {:induction false} FailingTries(lim: Limits, answers: seq<Answer>, k: nat) returns (next: seq<Answer>)
    requires RunOf(lim, Start, answers).node == Optimizer && Rejections(lim, answers) == 0 && Failures(lim, answers) == 0 && k < Attempts(lim)
    ensures RunOf(lim, Start, next).node == Optimizer && Rejections(lim, next) == 0 && Failures(lim, next) == k
    ensures Visits(lim, next, Optimizer) == Visits(lim, answers, Optimizer) + Times(k, Tries(lim))
    ensures Visits(lim, next, Runner) == Visits(lim, answers, Runner) + k && Visits(lim, next, Evaluator) == Visits(lim, answers, Evaluator)
    decreases k
  {
    hide RunOf, Visits, Rejections, Failures, Tries, Attempts;
    if k == 0 { return answers; }
    var before := FailingTries(lim, answers, k - 1);
    next := LastTry(lim, before, Failing);
    TimesStep(k, Tries(lim));
  }

  /** An iteration with all its tries: every proposal but the last of each attempt is rejected, every
      simulation but the last fails. */
  lemma FullIteration(lim: Limits, answers: seq<Answer>) returns (next: seq<Answer>)
    requires RunOf(lim, Start, answers).node == Analyzer
    ensures RunOf(lim, Start, next).node == if Visits(lim, answers, Evaluator) + 1 < Iterations(lim) then Analyzer else Done
    ensures Visits(lim, next, Evaluator) == Visits(lim, answers, Evaluator) + 1
    ensures Visits(lim, next, Optimizer) == Visits(lim, answers, Optimizer) + Times(Attempts(lim), Tries(lim))
    ensures Visits(lim, next, Runner) == Visits(lim, answers, Runner) + Attempts(lim)
  {
    hide RunOf, Visits, Rejections, Failures, Accepted, Better, NearStop, Times, Step;
    NextNode(lim, answers, Passing);
    Recount(lim, answers, Passing);
    var begun := answers + [Passing];
    var tried := FailingTries(lim, begun, Attempts(lim) - 1);
    var passed := LastTry(lim, tried, Passing);
    TimesStep(Attempts(lim), Tries(lim));
    NextNode(lim, passed, Passing);
    Recount(lim, passed, Passing);
    StopsNear(lim, passed);
    next := passed + [Passing];
  }

  lemma {:induction false} FullIterations(lim: Limits, k: nat) returns (answers: seq<Answer>)
    requires k <= Iterations(lim)
    ensures RunOf(lim, Start, answers).node == if k < Iterations(lim) then Analyzer else Done
    ensures Visits(lim, answers, Evaluator) == k && Visits(lim, answers, Runner) == Times(k, Attempts(lim))
    ensures Visits(lim, answers, Optimizer) == Times(k, Times(Attempts(lim), Tries(lim)))
    decreases k
  {
    hide RunOf, Visits, Rejections, Failures, Accepted, Better, NearStop, Times, Step, Attempts, Tries;
    if k == 0 {
      NothingYet(lim);
      NextNode(lim, [], Passing);
      Recount(lim, [], Passing);
      NoTimes(Attempts(lim));
      NoTimes(Times(Attempts(lim), Tries(lim)));
      answers := [] + [Passing];
    } else {
      var before := FullIterations(lim, k - 1);
      answers := FullIteration(lim, before);
      TimesStep(k, Attempts(lim));
      TimesStep(k, Times(Attempts(lim), Tries(lim)));
    }
  }

  lemma NoTimes(k: nat)
    ensures Times(0, k) == 0
  {
  }

  /** The bounds on what a run asks for are attained: some run makes exactly I * R * V proposals and
      I * R simulator runs, the limits being at least one each. */
  lemma BoundsAttained(lim: Limits) returns (answers: seq<Answer>)
    ensures RunOf(lim, Start, answers).node == Done
    ensures Visits(lim, answers, Optimizer) == MaxInt(1, lim.iterations) * (MaxInt(1, lim.runtimeRetries) * MaxInt(1, lim.validationRetries))
    ensures Visits(lim, answers, Runner) == MaxInt(1, lim.iterations) * MaxInt(1, lim.runtimeRetries)
  {
    hide RunOf, Visits;
    answers := FullIterations(lim, Iterations(lim));
  }
}
