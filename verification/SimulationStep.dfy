/** What one step of the simulation loop does to the models it holds, as lemmas about lists of models
    and of their states: rounds played, models retired, transfers answered. */
module SimulationStep {
  import opened Phases
  import opened PhaseSchedule
  import opened ScheduleInvariant
  import opened ScheduleProgress
  import opened ScheduleLiveness
  import opened NetworkCalls
  import opened MappedModels
  import opened Orchestrator
  import opened Capacity
  import opened Ledger

  /** The model is finished: every phase of every input is over. */
  ghost predicate Finished(m: MappedModel, now: real)
    reads m
  {
    forall i: nat, p: nat | Has(m.State(), i, p) :: IsComplete(m.State(), i, p) && At(m.State(), i, p).completion <= now
  }

  /** Every unit of every chiplet is either available or used by an active model. */
  ghost predicate Conserved(system: System, active: seq<MappedModel>)
    reads system.chiplets
  {
    && (forall m | m in active :: |m.used| == |system.chiplets| && forall i | 0 <= i < |m.used| :: 0 <= m.used[i])
    && forall i | 0 <= i < |system.chiplets| ::
         && 0 <= system.chiplets[i].available
         && system.chiplets[i].available + UsedOn(active, i) == system.chiplets[i].total
  }

  /** Active models are unfinished, in states some run of theirs reaches and with their times
      derived; retired ones are finished. */
  ghost predicate Held(active: seq<MappedModel>, retired: seq<MappedModel>, now: real)
    reads active, retired
  {
    && Separate(active)
    && (forall m | m in active :: m !in retired && m.Valid(now) && Sound(m.cfg, m.State(), now) && m.modelDone == UNSET)
    && forall m | m in retired :: Finished(m, now)
  }

  ghost predicate AllEnd(models: seq<MappedModel>, states: seq<Sched>, now: real)
    reads models
  {
    |states| == |models| && forall k | 0 <= k < |models| :: EndsIn(models[k], states[k], now)
  }

  ghost predicate AllTimed(models: seq<MappedModel>, before: seq<Sched>, after: seq<Sched>) {
    |before| == |after| == |models| && forall k | 0 <= k < |models| :: TimedFrom(models[k].cfg, before[k], after[k])
  }

  ghost predicate AllPlayed(models: seq<MappedModel>, before: seq<Sched>, after: seq<Sched>, now: real, called: bool, rounds: seq<Round>,
                            network: (int, nat, nat, real) -> real) {
    && |before| == |after| == |rounds| == |models|
    && forall k | 0 <= k < |models| ::
         && rounds[k].called == called && FromNetwork(rounds[k], models[k].idx, now, network)
         && Played(models[k].cfg, before[k], after[k], now, rounds[k])
  }

  method CheckModel(m: MappedModel, ghost s: Sched, now: real) returns (finished: bool, ghost s': Sched)
    requires InState(m, s, now)
    modifies m
    ensures EndsIn(m, s', now) && TimedFrom(m.cfg, s, s')
    ensures finished <==> s'.modelDone != UNSET
  {
    s' := TimeOne(m, s, now);
    finished := m.IsFinished(now);
  }

  /** The model has gone through one round of the loop. */
  ghost predicate Played(c: Config, s: Sched, s': Sched, now: real, r: Round) {
    RoundFits(c, s, now, r) && c.numInputs > 0 && s' == PlayRound(c, s, now, r)
  }

  lemma RoundPlayed(c: Config, s0: Sched, s1: Sched, s2: Sched, s3: Sched, now: real, r: Round)
    requires Consulted(c, s0, s1, now, r) && TimedFrom(c, s1, s2) && TimedFrom(c, s2, s3)
    ensures Played(c, s0, s3, now, r)
  {
    hide ScanInputs, AnswerAll, TimeModel, RoundFits;
  }

  /** The model is in state `s`, which some run reaches, and its times have been derived. */
  ghost predicate EndsIn(m: MappedModel, s: Sched, now: real)
    reads m
  {
    m.Valid(now) && m.State() == s && Sound(m.cfg, s, now)
  }

  lemma RoundsPlayed(models: seq<MappedModel>, s0: seq<Sched>, s1: seq<Sched>, s2: seq<Sched>, s3: seq<Sched>, now: real,
                     called: bool, rounds: seq<Round>, network: (int, nat, nat, real) -> real)
    requires AllConsulted(models, s0, s1, now, called, rounds, network) && AllTimed(models, s1, s2) && AllTimed(models, s2, s3)
    ensures AllPlayed(models, s0, s3, now, called, rounds, network)
  {
    hide Consulted, TimedFrom, Played, FromNetwork;
    forall k | 0 <= k < |models| ensures Played(models[k].cfg, s0[k], s3[k], now, rounds[k]) {
      RoundPlayed(models[k].cfg, s0[k], s1[k], s2[k], s3[k], now, rounds[k]);
    }
  }

  lemma TransfersAfter(models: seq<MappedModel>, was: seq<MappedModel>, final: seq<Sched>)
    requires |final| == |models|
    ensures TransfersIn(Survivors(models, final)) + TransfersIn(was + Retirees(models, final)) == TransfersIn(models) + TransfersIn(was)
  {
    RetirementConserves(models, final);
    TransfersSplit(was, Retirees(models, final));
  }

  lemma SoundStates(models: seq<MappedModel>, retired: seq<MappedModel>, states: seq<Sched>, now: real)
    requires states == StatesOf(models) && Held(models, retired, now)
    ensures Separate(models) && (forall m | m in models :: m !in retired) && (forall m | m in retired :: Finished(m, now))
    ensures AllIn(models, states, now) && forall k | 0 <= k < |models| :: Sound(models[k].cfg, states[k], now)
  {
    hide MappedModel.Valid, Sound;
    assert forall k | 0 <= k < |models| :: models[k] in models;
  }

  lemma EndStates(models: seq<MappedModel>, final: seq<Sched>, now: real)
    requires AllEnd(models, final, now)
    ensures StatesOf(models) == final
  {
    hide MappedModel.Valid, Sound;
    forall k | 0 <= k < |models| ensures StatesOf(models)[k] == final[k] {
      assert EndsIn(models[k], final[k], now);
    }
  }

  /** Those that stay are unfinished and sound; those that leave are finished. */
  lemma ModelsAfter(models: seq<MappedModel>, was: seq<MappedModel>, final: seq<Sched>, now: real)
    requires AllEnd(models, final, now) && Separate(models)
    requires forall m | m in models :: m !in was
    requires forall m | m in was :: Finished(m, now)
    ensures Held(Survivors(models, final), was + Retirees(models, final), now)
  {
    hide MappedModel.Valid, Sound, Finished, Survivors, Retirees;
    SurvivorsSeparate(models, final);
    SurvivorsAre(models, final);
    forall m | m in Survivors(models, final)
      ensures m !in was + Retirees(models, final) && m.Valid(now) && Sound(m.cfg, m.State(), now) && m.modelDone == UNSET
    {
      var j: nat :| SurvivorAt(models, final, m, j);
      assert EndsIn(models[j], final[j], now) && models[j] in models;
    }
    forall m | m in Retirees(models, final) ensures Finished(m, now) {
      var j: nat :| RetireeAt(models, final, m, j);
      assert EndsIn(models[j], final[j], now);
      CompleteIsFinished(m, now);
    }
  }

  lemma CompleteIsFinished(m: MappedModel, now: real)
    requires m.Valid(now) && m.modelDone != UNSET
    ensures Finished(m, now)
  {
    RecordedIsPast(m.cfg, m.State(), now);
  }

  lemma AccountsAfter(models: seq<MappedModel>, was: seq<MappedModel>, final: seq<Sched>, injected: set<int>)
    requires |final| == |models| && Accounts(models, was, injected)
    ensures Accounts(Survivors(models, final), was + Retirees(models, final), injected)
  {
    var s, r := Survivors(models, final), Retirees(models, final);
    RetirementConserves(models, final);
    SurvivorsAre(models, final);
    hide Survivors, Retirees;
    forall x | x in injected ensures HasId(s, x) || HasId(was + r, x) {
      if HasId(models, x) {
        var k :| 0 <= k < |models| && models[k].idx == x;
        assert models[k] in s || models[k] in r;
        if models[k] in s { IdAt(s, models[k]); } else { IdAt(was + r, models[k]); }
      } else {
        var k :| 0 <= k < |was| && was[k].idx == x;
        IdAt(was + r, was[k]);
      }
    }
    assert forall m | m in s :: m in models;
    assert forall m | m in r :: m in models;
  }

  lemma IdAt(models: seq<MappedModel>, m: MappedModel)
    requires m in models
    ensures HasId(models, m.idx)
  {
  }

  /** A network simulation is paid for by a transfer that gets its latency. */
  lemma CallsAfter(models: seq<MappedModel>, s0: seq<Sched>, final: seq<Sched>, now: real, called: bool, rounds: seq<Round>,
                   network: (int, nat, nat, real) -> real)
    requires AllPlayed(models, s0, final, now, called, rounds, network) && AllEnd(models, final, now) && Separate(models)
    requires forall k | 0 <= k < |models| :: Sound(models[k].cfg, s0[k], now)
    requires called ==> exists k: nat :: k < |models| && Asks(models[k].cfg, s0[k], now)
    ensures OpenIn(Survivors(models, final), StatesOf(Survivors(models, final))) + (if called then 1 else 0) <= OpenIn(models, s0)
  {
    hide Survivors, OpenIn, Sound, Unanswered, FromNetwork;
    forall k | 0 <= k < |models|
      ensures Unanswered(models[k].cfg, final[k]) <= Unanswered(models[k].cfg, s0[k])
      ensures Asks(models[k].cfg, s0[k], now) ==> Unanswered(models[k].cfg, final[k]) < Unanswered(models[k].cfg, s0[k])
    {
      PlayedAnswers(models[k].cfg, s0[k], final[k], now, rounds[k]);
    }
    OpenDrops(models, s0, final);
    var s := Survivors(models, final);
    forall j, k | 0 <= j < |models| && 0 <= k < |s| && models[j] == s[k] ensures StatesOf(s)[k] == final[j] {
      assert EndsIn(models[j], final[j], now);
    }
    SurvivorsOpen(models, final, StatesOf(s));
  }

  lemma PlayedAnswers(c: Config, s: Sched, s': Sched, now: real, r: Round)
    requires Sound(c, s, now) && Played(c, s, s', now, r)
    ensures Unanswered(c, s') <= Unanswered(c, s)
    ensures Asks(c, s, now) ==> Unanswered(c, s') < Unanswered(c, s)
  {
    hide Unanswered, PlayRound, Sound;
    RoundAnswers(c, s, now, r);
  }

  lemma Later(active: seq<MappedModel>, retired: seq<MappedModel>, now: real, later: real)
    requires now <= later && Held(active, retired, now)
    ensures Held(active, retired, later)
  {
    forall m | m in active ensures m.Valid(later) && Sound(m.cfg, m.State(), later) {
      TimePasses(m.cfg, m.State(), now, later);
    }
    forall m | m in retired ensures Finished(m, later) {
    }
  }

  /** The first `j` models have been looked at: those unfinished are kept, the others retired. */
  ghost predicate Sifted(models: seq<MappedModel>, was: seq<MappedModel>, j: nat, final: seq<Sched>, kept: seq<MappedModel>, retired: seq<MappedModel>) {
    && j == |final| <= |models|
    && kept == Survivors(models[..j], final) && retired == was + Retirees(models[..j], final)
  }

  lemma HeadAndRest(models: seq<MappedModel>, j: nat)
    requires j < |models|
    ensures models[j..] == [models[j]] + models[j + 1..]
  {
  }

  lemma SiftNone(models: seq<MappedModel>, was: seq<MappedModel>)
    ensures Sifted(models, was, 0, [], [], was) && models == [] + models[0..]
  {
    assert was + [] == was;
  }

  lemma SiftOne(models: seq<MappedModel>, was: seq<MappedModel>, j: nat, final: seq<Sched>, kept: seq<MappedModel>, retired: seq<MappedModel>, s: Sched)
    requires Sifted(models, was, j, final, kept, retired) && j < |models|
    ensures if s.modelDone == UNSET
            then Sifted(models, was, j + 1, final + [s], kept + [models[j]], retired + [])
            else Sifted(models, was, j + 1, final + [s], kept + [], retired + [models[j]])
  {
    assert models[..j + 1][..j] == models[..j] && (final + [s])[..j] == final;
  }

  lemma SiftAll(models: seq<MappedModel>, was: seq<MappedModel>, final: seq<Sched>, kept: seq<MappedModel>, retired: seq<MappedModel>)
    requires Sifted(models, was, |models|, final, kept, retired)
    ensures kept + models[|models|..] == Survivors(models, final) && retired == was + Retirees(models, final)
  {
    assert models[..|models|] == models;
  }

  ghost predicate TimedFrom(c: Config, s: Sched, s': Sched) {
    Shaped(c, s) && c.numInputs > 0 && s' == TimeModel(c, s)
  }

  method TimeOne(m: MappedModel, ghost s: Sched, now: real) returns (ghost s': Sched)
    requires InState(m, s, now)
    modifies m
    ensures InState(m, s', now) && TimedFrom(m.cfg, s, s') && EndsIn(m, s', now)
  {
    m.CalculatePhaseTiming(now);
    s' := m.State();
  }

  lemma OneLess(kept: seq<MappedModel>, rest: seq<MappedModel>, i: nat)
    requires |rest| > 0
    ensures UsedOn(kept + rest, i) == UsedOn(kept + rest[1..], i) + UsedBy(rest[0], i)
  {
    UsedSplits(kept, rest, i);
    UsedSplits(kept, rest[1..], i);
    assert rest == [rest[0]] + rest[1..];
    UsedSplits([rest[0]], rest[1..], i);
    assert [rest[0]][..0] == [];
  }

  ghost predicate Accounts(active: seq<MappedModel>, retired: seq<MappedModel>, injected: set<int>) {
    && (forall m | m in active :: m.idx in injected)
    && (forall m | m in retired :: m.idx in injected)
    && (forall x | x in injected :: HasId(active, x) || HasId(retired, x))
    && |injected| == |active| + |retired|
  }

  ghost predicate HasId(models: seq<MappedModel>, x: int) {
    exists k :: 0 <= k < |models| && models[k].idx == x
  }

  /** A new model adds its id to the injected ones. */
  lemma Joins(before: seq<MappedModel>, m: MappedModel, retired: seq<MappedModel>, injected: set<int>)
    requires Accounts(before, retired, injected) && m.idx !in injected
    ensures Accounts(before + [m], retired, injected + {m.idx})
  {
    forall x | x in injected + {m.idx} ensures HasId(before + [m], x) || HasId(retired, x) {
      if x == m.idx {
        assert (before + [m])[|before|].idx == x;
      } else if HasId(before, x) {
        var k :| 0 <= k < |before| && before[k].idx == x;
        assert (before + [m])[k].idx == x;
      }
    }
  }

  lemma OpenJoins(models: seq<MappedModel>, m: MappedModel)
    ensures OpenIn(models + [m], StatesOf(models + [m])) == OpenIn(models, StatesOf(models)) + Unanswered(m.cfg, m.State())
    ensures TransfersIn(models + [m]) == TransfersIn(models) + Transfers(m.cfg)
  {
    assert (models + [m])[..|models|] == models && StatesOf(models + [m])[..|models|] == StatesOf(models);
  }

  /** A model in a sound state may join. */
  lemma HeldJoins(active: seq<MappedModel>, m: MappedModel, retired: seq<MappedModel>, now: real)
    requires Held(active, retired, now) && m !in active && m !in retired
    requires m.Valid(now) && Sound(m.cfg, m.State(), now) && m.modelDone == UNSET
    ensures Held(active + [m], retired, now)
  {
    hide Sound, MappedModel.Valid, Finished;
  }

  // ---------------------------------------------------------------- how long models run

  /** Every active model's compute latencies are at most `most` steps, and whatever runs ends within
      `most` steps of now. */
  ghost predicate AllTimely(models: seq<MappedModel>, states: seq<Sched>, most: nat, now: real)
    requires |states| == |models|
  {
    forall k | 0 <= k < |models| :: Timely(models[k].cfg, states[k], most, now + most as real)
  }

  /** The network answers with at most `most` steps. */
  ghost predicate Prompt(network: (int, nat, nat, real) -> real, most: nat) {
    forall m: int, i: nat, p: nat, t: real :: network(m, i, p, t) <= most as real
  }

  lemma PlayedOk(c: Config, s: Sched, s': Sched, now: real, r: Round, idx: int, network: (int, nat, nat, real) -> real, most: nat)
    requires Played(c, s, s', now, r) && FromNetwork(r, idx, now, network) && Prompt(network, most)
    ensures RoundOk(c, s, now, r, most)
  {
    forall k | k in r.answers ensures r.answers[k] <= most as real {
      assert r.answers[k] == network(idx, k.0, k.1, now);
    }
    hide RoundFits;
  }

  lemma PlayedTimely(c: Config, s: Sched, s': Sched, now: real, r: Round, idx: int, network: (int, nat, nat, real) -> real, most: nat)
    requires Sound(c, s, now) && Played(c, s, s', now, r) && FromNetwork(r, idx, now, network) && Prompt(network, most)
    requires Timely(c, s, most, now + most as real)
    ensures Timely(c, s', most, now + TIME_STEP + most as real)
  {
    PlayedOk(c, s, s', now, r, idx, network, most);
    RoundTimely(c, s, now, r, most, now + most as real);
    hide PlayRound, RoundOk, Sound;
    TimelyWider(c, s', most, now + most as real, now + TIME_STEP + most as real);
  }

  /** A step leaves the models that go on timely. */
  lemma SurvivorsTimely(models: seq<MappedModel>, s0: seq<Sched>, final: seq<Sched>, now: real, called: bool, rounds: seq<Round>,
                        network: (int, nat, nat, real) -> real, most: nat, states: seq<Sched>)
    requires AllPlayed(models, s0, final, now, called, rounds, network) && Prompt(network, most)
    requires forall k | 0 <= k < |models| :: Sound(models[k].cfg, s0[k], now)
    requires AllTimely(models, s0, most, now)
    requires |states| == |Survivors(models, final)|
    requires forall j, k | 0 <= j < |models| && 0 <= k < |states| && models[j] == Survivors(models, final)[k] :: states[k] == final[j]
    ensures AllTimely(Survivors(models, final), states, most, now + TIME_STEP)
  {
    hide Survivors, Sound, Timely, Played, FromNetwork, Prompt;
    var s := Survivors(models, final);
    SurvivorsAre(models, final);
    forall k | 0 <= k < |s| ensures Timely(s[k].cfg, states[k], most, now + TIME_STEP + most as real) {
      assert s[k] in s;
      var j: nat :| SurvivorAt(models, final, s[k], j);
      PlayedTimely(models[j].cfg, s0[j], final[j], now, rounds[j], models[j].idx, network, most);
    }
  }

  /** What is left of an unfinished model's run, at most: state changes of its own and network calls
      that anyone may still cause, each with the `most` steps it can take, and the steps until what
      runs now is over. */
  ghost function RunLeft(c: Config, s: Sched, callsLeft: nat, most: nat, slack: nat): nat {
    Spans(StatesLeft(c, s) + callsLeft, most) + slack
  }

  /** Each step brings an unfinished model at least one step closer to its end. */
  lemma RunShrinks(c: Config, s: Sched, s': Sched, now: real, r: Round, most: nat, callsLeft: nat, slack: nat) returns (slack': nat)
    requires Sound(c, s, now) && Played(c, s, s', now, r) && RoundOk(c, s, now, r, most)
    requires s.modelDone == UNSET && Timely(c, s, most, now + slack as real) && (r.called ==> callsLeft > 0)
    ensures Timely(c, s', most, now + TIME_STEP + slack' as real)
    ensures RunLeft(c, s', if r.called then callsLeft - 1 else callsLeft, most, slack') < RunLeft(c, s, callsLeft, most, slack)
  {
    hide PlayRound, RoundOk, RoundFits, Sound, StatesLeft, Timely, Spans;
    slack' := RoundProgress(c, s, now, r, most, slack);
    Shrinks(StatesLeft(c, s) + callsLeft, StatesLeft(c, s') + if r.called then callsLeft - 1 else callsLeft, most, slack, slack');
  }

  /** The steps a model can be active, when the workload has `whole` transfers. */
  ghost function Lifetime(c: Config, whole: nat, most: nat): nat {
    Spans(2 * |c.phases| * c.numInputs + whole, most) + most
  }

  lemma RunAtMost(c: Config, s: Sched, callsLeft: nat, whole: nat, most: nat)
    requires callsLeft <= whole
    ensures RunLeft(c, s, callsLeft, most, most) <= Lifetime(c, whole, most)
  {
    hide Spans, StatesLeft;
    StatesLeftAtMost(c, s);
    var a, b := 2 * |c.phases| * c.numInputs + whole, StatesLeft(c, s) + callsLeft;
    if b < a { FewerSpans(a, b, most); }
  }

  lemma Shrinks(a: nat, b: nat, most: nat, slack: nat, slack': nat)
    requires b <= a && (if b < a then slack' <= slack || slack' <= most else slack' + 1 == slack)
    ensures Spans(b, most) + slack' < Spans(a, most) + slack
  {
    hide Spans;
    if b < a { FewerSpans(a, b, most); }
  }
}
