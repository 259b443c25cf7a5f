/** When the network simulator is consulted (communication_orchestrator.py): each consultation
    settles at least one transfer for good, so a run makes no more of them than it has transfers. */
module NetworkCalls {
  import opened Numbers
  import opened Phases
  import opened PhaseSchedule
  import opened ScheduleInvariant
  import opened ScheduleProgress
  import opened ScheduleLiveness

  /** The transfer exists and has no latency yet. */
  ghost predicate Open(c: Config, s: Sched, i: nat, p: nat) {
    Has(s, i, p) && p < |c.phases| && c.phases[p].IsComm() && At(s, i, p).latency == 0.0
  }

  ghost function OpenAt(c: Config, s: Sched): (nat, nat) -> nat {
    (i: nat, p: nat) => if Open(c, s, i, p) then 1 else 0
  }

  /** How many transfers still lack a latency. */
  ghost function Unanswered(c: Config, s: Sched): nat {
    GridSum(OpenAt(c, s), c.numInputs, |c.phases|)
  }

  /** How many transfer instances a model has in all. */
  ghost function Transfers(c: Config): nat {
    GridSum(TransferAt(c), c.numInputs, |c.phases|)
  }

  ghost function TransferAt(c: Config): (nat, nat) -> nat {
    (i: nat, p: nat) => if Exists(c, i, p) && c.phases[p].IsComm() then 1 else 0
  }

  lemma UnansweredOrder(c: Config, s: Sched, s': Sched)
    requires Shaped(c, s) && Shaped(c, s')
    requires forall i: nat, p: nat | Open(c, s', i, p) :: Open(c, s, i, p)
    ensures Unanswered(c, s') <= Unanswered(c, s)
    ensures (exists i: nat, p: nat :: Open(c, s, i, p) && !Open(c, s', i, p)) ==> Unanswered(c, s') < Unanswered(c, s)
  {
    var f, g := OpenAt(c, s), OpenAt(c, s');
    GridSumOrder(g, f, c.numInputs, |c.phases|);
    if i: nat, p: nat :| Open(c, s, i, p) && !Open(c, s', i, p) {
      assert Exists(c, i, p) && Below(g, f, i, p);
    }
  }

  lemma MovesKeepAnswers(c: Config, s: Sched, s': Sched, now: real)
    requires Shaped(c, s) && Shaped(c, s') && Moves(c, s, s', now)
    ensures forall i: nat, p: nat | Open(c, s', i, p) :: Open(c, s, i, p)
  {
    forall i: nat, p: nat | Open(c, s', i, p) ensures Open(c, s, i, p) {
      SameInstances(c, s, s', i, p);
      assert InstanceMoves(At(s, i, p), At(s', i, p), now);
    }
  }

  lemma AnswersClose(c: Config, s: Sched, answers: map<(nat, nat), real>, now: real, i: nat, p: nat)
    requires Invariant(c, s, now) && AnswersRunning(c, s, answers)
    requires forall k | k in answers :: 0.0 < answers[k]
    ensures Open(c, AnswerAll(s, answers, now), i, p) <==> Open(c, s, i, p) && (i, p) !in answers
  {
    var s' := AnswerAll(s, answers, now);
    AnswerAllShape(c, s, answers, now);
    hide AnswerAll;
    SameInstances(c, s, s', i, p);
    if Has(s, i, p) { assert InstanceOk(c, s, i, p, now); }
  }

  /** A round never reopens a transfer, and one that needs the network closes at least one. */
  lemma RoundAnswers(c: Config, s: Sched, now: real, r: Round)
    requires Sound(c, s, now) && RoundFits(c, s, now, r)
    ensures Unanswered(c, PlayRound(c, s, now, r)) <= Unanswered(c, s)
    ensures NeedsNetwork(c, s, now) ==> Unanswered(c, PlayRound(c, s, now, r)) < Unanswered(c, s)
  {
    var s1, s2, s3 := RoundStages(c, s, now, r);
    MovesKeepAnswers(c, s, s1, now);
    MovesKeepAnswers(c, s2, s3, now);
    forall i: nat, p: nat ensures Open(c, s2, i, p) <==> Open(c, s1, i, p) && (i, p) !in r.answers {
      AnswersClose(c, s1, r.answers, now, i, p);
    }
    if NeedsNetwork(c, s, now) {
      var k :| k in CommReports(c, s, now) && Has(s1, k.0, k.1) && At(s1, k.0, k.1).latency == 0.0;
      assert k == (k.0, k.1) && k in r.answers.Keys;
      assert Open(c, s1, k.0, k.1) && !Open(c, s3, k.0, k.1) && Open(c, s, k.0, k.1);
    }
    hide PlayRound, RoundFits, ScanInputs, AnswerAll, Sound;
    UnansweredOrder(c, s, s3);
  }

  /** A freshly mapped model still needs every one of its transfers answered. */
  lemma FreshUnanswered(c: Config, s: Sched, now: real)
    requires Initial(c, s, now)
    ensures Unanswered(c, s) == Transfers(c)
  {
    var f, g := OpenAt(c, s), TransferAt(c);
    forall i: nat, p: nat ensures f(i, p) == g(i, p) {
      assert Has(s, i, p) <==> Exists(c, i, p);
    }
    GridSumOrder(f, g, c.numInputs, |c.phases|);
    GridSumOrder(g, f, c.numInputs, |c.phases|);
  }

  // ---------------------------------------------------------------- a model on its own

  /** The network is consulted exactly when this model needs it. */
  ghost predicate Alone(c: Config, s: Sched, now: real, rounds: seq<Round>)
    decreases |rounds|
  {
    rounds == [] ||
    (c.numInputs > 0 && RoundFits(c, s, now, rounds[0]) && (rounds[0].called <==> NeedsNetwork(c, s, now))
     && Alone(c, PlayRound(c, s, now, rounds[0]), now + TIME_STEP, rounds[1..]))
  }

  /** A model on its own causes no more network simulations than it has open transfers. */
  lemma {:induction false} CallsAtMost(c: Config, s: Sched, now: real, rounds: seq<Round>)
    requires Sound(c, s, now) && Alone(c, s, now, rounds)
    ensures Calls(rounds) <= Unanswered(c, s)
    decreases |rounds|
  {
    hide PlayRound, RoundFits, NeedsNetwork, Unanswered;
    if rounds != [] {
      RoundKeepsSound(c, s, now, rounds[0]);
      RoundAnswers(c, s, now, rounds[0]);
      CallsAtMost(c, PlayRound(c, s, now, rounds[0]), now + TIME_STEP, rounds[1..]);
    }
  }

  /** So a model on its own finishes within a number of rounds fixed in advance. */
  lemma LoneModelFinishes(c: Config, s: Sched, now: real, rounds: seq<Round>, most: nat)
    requires WellFormed(c) && Exclusive(c) && Initial(c, s, now) && 0.0 <= now
    requires forall i: nat, p: nat | Has(s, i, p) :: At(s, i, p).latency <= most as real
    requires RoundsOk(c, s, now, rounds, most) && Alone(c, s, now, rounds)
    requires |rounds| > (2 * |c.phases| * c.numInputs + Transfers(c)) * (most + 1)
    ensures PlayRounds(c, s, now, rounds, most).modelDone != UNSET
  {
    hide PlayRound, RoundFits, Transfers, Unanswered, PlayRounds, RoundsOk, Alone, Timely, Sound, WellFormed, Exclusive, StatesLeft;
    FreshIsSound(c, s, now, most);
    CallsAtMost(c, s, now, rounds);
    FreshUnanswered(c, s, now);
    StatesLeftAtMost(c, s);
    assert now + 0 as real == now;
    hide Initial;
    EnoughRounds(c, s, now, rounds, most, 0, 2 * |c.phases| * c.numInputs + Transfers(c));
  }
}
