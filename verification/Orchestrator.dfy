/** Coordination of the network simulator (communication_orchestrator.py): which transfers of which
    models are under way, when the simulator must be consulted, and how its answers reach the
    models. */
module Orchestrator {
  import opened Phases
  import opened PhaseSchedule
  import opened ScheduleInvariant
  import opened ScheduleLiveness
  import opened ScanTraffic
  import opened MappedModels

  /** A transfer worth simulating: not a compute phase, with packets left to send. */
  predicate Worth(c: Config, s: Sched, r: (nat, nat)) {
    r.1 < |c.phases| && c.phases[r.1].IsComm() && Has(s, r.0, r.1) && HasTraffic(At(s, r.0, r.1).scaled)
  }

  function CommOnly(c: Config, s: Sched, reports: seq<(nat, nat)>): seq<(nat, nat)> {
    if reports == [] then []
    else
      var front := CommOnly(c, s, reports[..|reports| - 1]);
      var last := reports[|reports| - 1];
      if Worth(c, s, last) then front + [last] else front
  }

  // ---------------------------------------------------------------- what a scan reports

  ghost predicate Rising(reports: seq<(nat, nat)>, n: nat) {
    && (forall k | 0 <= k < |reports| :: reports[k].0 < n)
    && forall j, k | 0 <= j < k < |reports| :: reports[j].0 < reports[k].0
  }

  /** At most one phase per input is reported, in input order. */
  lemma {:induction false} ReportsRise(c: Config, s: Sched, n: nat, now: real)
    requires Shaped(c, s) && OrderInRange(c) && n <= c.numInputs
    ensures Rising(Reports(c, s, n, now), n)
    decreases n
  {
    hide ScanInput, ReportInput, Rising;
    if n == 0 {
      RisingStarts();
    } else {
      ReportsRise(c, s, n - 1, now);
      var m := ScanInputs(c, s, n - 1, now);
      OneReport(c, m, n - 1, now);
      RisingExtends(Reports(c, s, n - 1, now), ReportInput(c, m, n - 1, now), n);
    }
  }

  lemma RisingStarts()
    ensures Rising([], 0)
  {
  }

  lemma OneReport(c: Config, s: Sched, i: nat, now: real)
    requires Shaped(c, s) && OrderInRange(c) && i < c.numInputs
    ensures |ReportInput(c, s, i, now)| <= 1 && forall r | r in ReportInput(c, s, i, now) :: r.0 == i
  {
    hide FindCurrent, VisitPhase;
  }

  lemma RisingExtends(reports: seq<(nat, nat)>, tail: seq<(nat, nat)>, n: nat)
    requires n > 0 && Rising(reports, n - 1) && |tail| <= 1 && forall r | r in tail :: r.0 == n - 1
    ensures Rising(reports + tail, n)
  {
  }

  lemma {:induction false} CommOnlyMembers(c: Config, s: Sched, reports: seq<(nat, nat)>, n: nat)
    requires Rising(reports, n)
    ensures forall r :: r in CommOnly(c, s, reports) <==> r in reports && Worth(c, s, r)
    ensures Rising(CommOnly(c, s, reports), n)
    decreases |reports|
  {
    hide Worth, Rising;
    if reports == [] {
      NothingRises(n);
    } else {
      var front, last := reports[..|reports| - 1], reports[|reports| - 1];
      RisesTo(reports, n);
      CommOnlyMembers(c, s, front, n);
      assert reports == front + [last];
      var kept := CommOnly(c, s, front);
      forall k | 0 <= k < |kept| ensures kept[k].0 < last.0 {
        assert kept[k] in kept;
      }
      RisesOn(kept, last, n);
    }
  }

  lemma NothingRises(n: nat)
    ensures Rising([], n)
  {
  }

  lemma RisesTo(reports: seq<(nat, nat)>, n: nat)
    requires Rising(reports, n) && reports != []
    ensures var front, last := reports[..|reports| - 1], reports[|reports| - 1];
            Rising(front, n) && last.0 < n && forall r | r in front :: r.0 < last.0
  {
  }

  lemma RisesOn(kept: seq<(nat, nat)>, last: (nat, nat), n: nat)
    requires Rising(kept, n) && last.0 < n && forall k | 0 <= k < |kept| :: kept[k].0 < last.0
    ensures Rising(kept + [last], n)
  {
  }

  lemma VisitedHasTraffic(c: Config, s: Sched, i: nat, p: nat, now: real)
    requires i < |s.start| && p < |c.phases| && Has(s, i, p) && c.phases[p].IsComm()
    ensures var v := VisitPhase(c, s, i, p, now); v.reported ==> HasTraffic(v.inst.scaled)
  {
    hide StartTime, ScaleTraffic, HasTraffic;
  }

  /** A reported transfer always has packets left: the check for empty traffic never drops one. */
  lemma {:induction false} ReportedHasTraffic(c: Config, s: Sched, n: nat, now: real, r: (nat, nat))
    requires Shaped(c, s) && OrderInRange(c) && n <= c.numInputs && r in Reports(c, s, n, now)
    requires r.1 < |c.phases| && c.phases[r.1].IsComm()
    ensures Worth(c, ScanInputs(c, s, n, now), r)
    decreases n
  {
    hide ScanInput, ReportInput, HasTraffic, Shaped, OrderInRange, VisitPhase;
    var m := ScanInputs(c, s, n - 1, now);
    if r in ReportInput(c, m, n - 1, now) {
      ReportInputRunning(c, m, n - 1, now, r);
      ReportedIsVisited(c, m, n - 1, now, r);
      VisitedHasTraffic(c, m, n - 1, r.1, now);
    } else {
      ReportedHasTraffic(c, s, n - 1, now, r);
      ReportsRunning(c, s, n - 1, now, r);
      ScanInputsRow(c, s, n - 1, n, now, r.0);
      SameInstances(c, m, ScanInputs(c, s, n, now), r.0, r.1);
    }
  }

  /** The transfers collected for one model are exactly those its scan reports, without repeats. */
  lemma CollectedIsReported(c: Config, s: Sched, now: real)
    requires Shaped(c, s) && OrderInRange(c)
    ensures var asked := CommOnly(c, ScanInputs(c, s, c.numInputs, now), Reports(c, s, c.numInputs, now));
            CollectedFrom(c, s, ScanInputs(c, s, c.numInputs, now), asked, now)
  {
    var s' := ScanInputs(c, s, c.numInputs, now);
    var reports := Reports(c, s, c.numInputs, now);
    ReportsRise(c, s, c.numInputs, now);
    CommOnlyMembers(c, s', reports, c.numInputs);
    var asked := CommOnly(c, s', reports);
    forall r ensures r in asked <==> r in CommReports(c, s, now) {
      if r in reports && r.1 < |c.phases| && c.phases[r.1].IsComm() {
        ReportedHasTraffic(c, s, c.numInputs, now, r);
      }
    }
  }

  // ---------------------------------------------------------------- the orchestrator

  /** What the network did to one model this time, from its state `s` before. */
  ghost predicate Consulted(c: Config, s: Sched, s': Sched, now: real, r: Round) {
    && RoundFits(c, s, now, r)
    && s' == AnswerAll(ScanInputs(c, s, c.numInputs, now), r.answers, now)
  }

  function AnswersFor(idx: int, asked: seq<(nat, nat)>, now: real, network: (int, nat, nat, real) -> real): map<(nat, nat), real> {
    map r | r in asked :: network(idx, r.0, r.1, now)
  }

  function AnswersIf(called: bool, idx: int, asked: seq<(nat, nat)>, now: real, network: (int, nat, nat, real) -> real): map<(nat, nat), real> {
    if called then AnswersFor(idx, asked, now, network) else map[]
  }

  ghost function Objects(models: seq<MappedModel>): set<object> {
    set m | m in models
  }

  ghost function StatesOf(models: seq<MappedModel>): (states: seq<Sched>)
    reads models
    ensures |states| == |models| && forall k | 0 <= k < |models| :: states[k] == models[k].State()
  {
    seq(|models|, k requires 0 <= k < |models| reads models => models[k].State())
  }

  /** The model reports a transfer that has no latency yet. */
  ghost predicate Asks(c: Config, s: Sched, now: real) {
    Shaped(c, s) && OrderInRange(c) && NeedsNetwork(c, s, now)
  }

  /** Objects of the list are pairwise different. */
  ghost predicate Separate(models: seq<MappedModel>) {
    forall j, k | 0 <= j < k < |models| :: models[j] != models[k]
  }

  lemma UnlikeOthers(models: seq<MappedModel>, j: nat)
    requires Separate(models) && j < |models|
    ensures forall k | 0 <= k < |models| && k != j :: models[k] != models[j]
  {
  }

  class CommunicationOrchestrator {
    const network: (int, nat, nat, real) -> real
    var calls: nat

    constructor (network: (int, nat, nat, real) -> real)
      ensures this.network == network && calls == 0
    {
      this.network := network;
      calls := 0;
    }

    method CollectFrom(model: MappedModel, ghost s: Sched, now: real) returns (asked: seq<(nat, nat)>, ghost s': Sched)
      requires InState(model, s, now)
      modifies model
      ensures InState(model, s', now) && CollectedFrom(model.cfg, s, s', asked, now)
    {
      var found := model.GetActivePhases(now);
      s' := model.State();
      asked := CommOnly(model.cfg, model.State(), found);
      CollectedIsReported(model.cfg, s, now);
    }

    /** Scans every model and collects the transfers worth simulating. */
    method CollectActivePhases(models: seq<MappedModel>, ghost before: seq<Sched>, now: real)
      returns (asked: seq<seq<(nat, nat)>>, ghost after: seq<Sched>)
      requires Separate(models) && AllIn(models, before, now)
      modifies models
      ensures AllIn(models, after, now) && AllCollected(models, before, after, asked, now)
    {
      hide InState, CollectedFrom, Separate;
      asked, after := [], [];
      for k := 0 to |models|
        invariant |asked| == |after| == k && forall j | 0 <= j < k :: InState(models[j], after[j], now)
        invariant forall j | 0 <= j < k :: CollectedFrom(models[j].cfg, before[j], after[j], asked[j], now)
        invariant forall j | k <= j < |models| :: InState(models[j], before[j], now)
      {
        var found;
        ghost var s;
        UnlikeOthers(models, k);
        found, s := CollectFrom(models[k], before[k], now);
        asked, after := asked + [found], after + [s];
      }
    }

    /** Whether some collected transfer has no latency yet. */
    method NeedsInitialSimulation(models: seq<MappedModel>, ghost states: seq<Sched>, asked: seq<seq<(nat, nat)>>, now: real) returns (r: bool)
      requires |asked| == |models| && AllIn(models, states, now)
      requires forall k | 0 <= k < |models| :: AllThere(states[k], asked[k])
      ensures r <==> exists k: nat :: k < |models| && Unpriced(states[k], asked[k])
    {
      for k := 0 to |models|
        invariant forall j | 0 <= j < k :: !Unpriced(states[j], asked[j])
      {
        assert InState(models[k], states[k], now);
        for m := 0 to |asked[k]|
          invariant AllThere(states[k], asked[k])
          invariant forall n | 0 <= n < m :: At(states[k], asked[k][n].0, asked[k][n].1).latency != 0.0
        {
          var a := asked[k][m];
          assert a in asked[k];
          if models[k].inst[a.0][a.1].latency == 0.0 {
            assert At(states[k], a.0, a.1).latency == 0.0;
            return true;
          }
        }
      }
      return false;
    }

    method AnswerOne(model: MappedModel, ghost s: Sched, asked: seq<(nat, nat)>, now: real) returns (ghost s': Sched)
      requires InState(model, s, now) && NoRepeats(asked)
      requires AnswersRunning(model.cfg, s, AnswersFor(model.idx, asked, now, network))
      modifies model
      ensures InState(model, s', now) && s' == AnswerAll(s, AnswersFor(model.idx, asked, now, network), now)
    {
      hide AnswerAll;
      model.ApplyAnswers(asked, AnswersFor(model.idx, asked, now, network), now);
      s' := model.State();
    }

    /** Hands every answer to the model it belongs to. */
    method UpdatePhaseLatencies(models: seq<MappedModel>, ghost before: seq<Sched>, asked: seq<seq<(nat, nat)>>, now: real)
      returns (ghost after: seq<Sched>)
      requires Separate(models) && AllIn(models, before, now) && |asked| == |models|
      requires forall k | 0 <= k < |models| ::
                 NoRepeats(asked[k]) && AnswersRunning(models[k].cfg, before[k], AnswersFor(models[k].idx, asked[k], now, network))
      modifies models
      ensures AllIn(models, after, now)
      ensures forall k | 0 <= k < |models| :: after[k] == AnswerAll(before[k], AnswersFor(models[k].idx, asked[k], now, network), now)
    {
      hide InState, AnswerAll, NoRepeats, AnswersRunning, AnswersFor, Separate;
      after := [];
      for k := 0 to |models|
        invariant |after| == k && forall j | 0 <= j < k :: InState(models[j], after[j], now)
        invariant forall j | 0 <= j < k :: after[j] == AnswerAll(before[j], AnswersFor(models[j].idx, asked[j], now, network), now)
        invariant forall j | k <= j < |models| :: InState(models[j], before[j], now)
      {
        UnlikeOthers(models, k);
        ghost var s := AnswerOne(models[k], before[k], asked[k], now);
        after := after + [s];
      }
    }

    /** Consults the simulator if called for; otherwise the models stay as they are. */
    method Deliver(models: seq<MappedModel>, ghost before: seq<Sched>, asked: seq<seq<(nat, nat)>>, called: bool, now: real)
      returns (ghost after: seq<Sched>)
      requires Separate(models) && AllIn(models, before, now) && |asked| == |models|
      requires forall k | 0 <= k < |models| ::
                 NoRepeats(asked[k]) && AnswersRunning(models[k].cfg, before[k], AnswersIf(called, models[k].idx, asked[k], now, network))
      modifies this`calls, models
      ensures calls == old(calls) + if called then 1 else 0
      ensures AllIn(models, after, now)
      ensures forall k | 0 <= k < |models| :: after[k] == AnswerAll(before[k], AnswersIf(called, models[k].idx, asked[k], now, network), now)
    {
      hide InState, AnswerAll, AnswersRunning, NoRepeats, AnswersFor;
      after := before;
      if called {
        calls := calls + 1;
        after := UpdatePhaseLatencies(models, before, asked, now);
      } else {
        forall k | 0 <= k < |models| ensures AnswerAll(before[k], map[], now) == before[k] {
          NoAnswers(before[k], now);
        }
      }
    }

    /** One visit to the network: every model is scanned; if some transfer has no latency yet the
        simulator is consulted, once, about all transfers under way, and every model takes in its
        answers. */
    method SimulateCommunication(models: seq<MappedModel>, ghost before: seq<Sched>, now: real)
      returns (called: bool, ghost rounds: seq<Round>, ghost after: seq<Sched>)
      requires Separate(models) && AllIn(models, before, now)
      requires forall m: int, i: nat, p: nat, t: real :: 0.0 < network(m, i, p, t)
      modifies this`calls, models
      ensures calls == old(calls) + if called then 1 else 0
      ensures AllIn(models, after, now) && AllConsulted(models, before, after, now, called, rounds, network)
      ensures called <==> exists k: nat :: k < |models| && Asks(models[k].cfg, before[k], now)
    {
      hide InState, CollectedFrom, Unpriced, AllThere, NoRepeats, Asks, AnswerAll, AnswersRunning, Consulted, AnswersIf, FromNetwork;
      var asked;
      ghost var scanned;
      asked, scanned := CollectActivePhases(models, before, now);
      CollectedFacts(models, before, scanned, asked, now);
      called := NeedsInitialSimulation(models, scanned, asked, now);
      rounds := RoundsFor(models, asked, called, now, network);
      AllFit(models, before, scanned, asked, called, now, network);
      after := Deliver(models, scanned, asked, called, now);
    }
  }

  /** The model is in state `s`, which some run reaches. */
  ghost predicate InState(m: MappedModel, s: Sched, now: real)
    reads m
  {
    m.Valid(now) && m.State() == s
  }

  ghost predicate AllIn(models: seq<MappedModel>, states: seq<Sched>, now: real)
    reads models
  {
    |states| == |models| && forall k | 0 <= k < |models| :: InState(models[k], states[k], now)
  }

  ghost predicate AllCollected(models: seq<MappedModel>, before: seq<Sched>, after: seq<Sched>, asked: seq<seq<(nat, nat)>>, now: real) {
    && |before| == |after| == |asked| == |models|
    && forall k | 0 <= k < |models| :: CollectedFrom(models[k].cfg, before[k], after[k], asked[k], now)
  }

  /** Every answer of the round is the network's. */
  ghost predicate FromNetwork(r: Round, idx: int, now: real, network: (int, nat, nat, real) -> real) {
    forall k | k in r.answers :: r.answers[k] == network(idx, k.0, k.1, now)
  }

  ghost predicate AllConsulted(models: seq<MappedModel>, before: seq<Sched>, after: seq<Sched>, now: real, called: bool, rounds: seq<Round>,
                               network: (int, nat, nat, real) -> real) {
    && |before| == |after| == |rounds| == |models|
    && forall k | 0 <= k < |models| ::
         && rounds[k].called == called && FromNetwork(rounds[k], models[k].idx, now, network)
         && Consulted(models[k].cfg, before[k], after[k], now, rounds[k])
  }

  ghost function RoundsFor(models: seq<MappedModel>, asked: seq<seq<(nat, nat)>>, called: bool, now: real,
                           network: (int, nat, nat, real) -> real): (rounds: seq<Round>)
    requires |asked| == |models|
    ensures |rounds| == |models| && forall k | 0 <= k < |models| ::
              rounds[k].called == called && rounds[k].answers == AnswersIf(called, models[k].idx, asked[k], now, network)
  {
    seq(|models|, k requires 0 <= k < |models| => Round(called, AnswersIf(called, models[k].idx, asked[k], now, network)))
  }

  lemma CollectedFacts(models: seq<MappedModel>, before: seq<Sched>, scanned: seq<Sched>, asked: seq<seq<(nat, nat)>>, now: real)
    requires AllCollected(models, before, scanned, asked, now)
    ensures forall k | 0 <= k < |models| ::
              && (Asks(models[k].cfg, before[k], now) <==> Unpriced(scanned[k], asked[k]))
              && NoRepeats(asked[k]) && AllThere(scanned[k], asked[k])
  {
    hide CollectedFrom, Unpriced, AllThere, NoRepeats, Asks;
    forall k | 0 <= k < |models|
      ensures Asks(models[k].cfg, before[k], now) <==> Unpriced(scanned[k], asked[k])
      ensures NoRepeats(asked[k]) && AllThere(scanned[k], asked[k])
    {
      NeedsByList(models[k].cfg, before[k], scanned[k], asked[k], now);
    }
  }

  lemma AllFit(models: seq<MappedModel>, before: seq<Sched>, scanned: seq<Sched>, asked: seq<seq<(nat, nat)>>, called: bool, now: real,
               network: (int, nat, nat, real) -> real)
    requires AllCollected(models, before, scanned, asked, now)
    requires forall k | 0 <= k < |models| :: Asks(models[k].cfg, before[k], now) ==> called
    requires forall m: int, i: nat, p: nat, t: real :: 0.0 < network(m, i, p, t)
    ensures var rounds := RoundsFor(models, asked, called, now, network);
            forall k | 0 <= k < |models| ::
              && AnswersRunning(models[k].cfg, scanned[k], rounds[k].answers)
              && Consulted(models[k].cfg, before[k], AnswerAll(scanned[k], rounds[k].answers, now), now, rounds[k])
              && FromNetwork(rounds[k], models[k].idx, now, network)
  {
    hide CollectedFrom, FromNetwork, Consulted, AnswersRunning, AnswerAll, Asks, AnswersIf;
    forall k | 0 <= k < |models|
      ensures AnswersRunning(models[k].cfg, scanned[k], RoundsFor(models, asked, called, now, network)[k].answers)
      ensures var r := RoundsFor(models, asked, called, now, network)[k];
              Consulted(models[k].cfg, before[k], AnswerAll(scanned[k], r.answers, now), now, r) && FromNetwork(r, models[k].idx, now, network)
    {
      AnswersFit(models[k].cfg, before[k], scanned[k], models[k].idx, asked[k], called, now, network);
    }
  }

  ghost predicate Unpriced(s: Sched, asked: seq<(nat, nat)>) {
    exists a :: a in asked && Has(s, a.0, a.1) && At(s, a.0, a.1).latency == 0.0
  }

  /** `asked` lists, without repeats, the transfers a scan from `s` to `s'` reports. */
  ghost predicate CollectedFrom(c: Config, s: Sched, s': Sched, asked: seq<(nat, nat)>, now: real) {
    && Shaped(c, s) && OrderInRange(c) && s' == ScanInputs(c, s, c.numInputs, now)
    && NoRepeats(asked)
    && (forall r :: r in asked <==> r in CommReports(c, s, now))
    && AllThere(s', asked)
  }

  lemma NeedsByList(c: Config, s: Sched, s': Sched, asked: seq<(nat, nat)>, now: real)
    requires CollectedFrom(c, s, s', asked, now)
    ensures Asks(c, s, now) <==> Unpriced(s', asked)
    ensures NoRepeats(asked) && AllThere(s', asked)
  {
    hide CommReports, ScanInputs;
  }

  lemma NoAnswers(s: Sched, now: real)
    ensures AnswerAll(s, map[], now) == s
  {
    forall i | 0 <= i < |s.inst| ensures AnswerRow(s.inst[i], i, map[], now) == s.inst[i] {
    }
    assert AnswerAll(s, map[], now).inst == s.inst;
  }

  lemma AnswersFit(c: Config, s: Sched, s': Sched, idx: int, asked: seq<(nat, nat)>, called: bool, now: real,
                   network: (int, nat, nat, real) -> real)
    requires CollectedFrom(c, s, s', asked, now) && (Asks(c, s, now) ==> called)
    requires forall m: int, i: nat, p: nat, t: real :: 0.0 < network(m, i, p, t)
    ensures var r := Round(called, AnswersIf(called, idx, asked, now, network));
            && AnswersRunning(c, s', r.answers) && Consulted(c, s, AnswerAll(s', r.answers, now), now, r)
            && FromNetwork(r, idx, now, network)
  {
    var r := Round(called, AnswersIf(called, idx, asked, now, network));
    hide CommReports, ScanInputs, NeedsNetwork;
    assert r.answers.Keys == if called then CommReports(c, s, now) else {};
    AnswersAreRunning(c, s, now, r);
  }

  ghost predicate AllThere(s: Sched, asked: seq<(nat, nat)>) {
    forall a | a in asked :: Has(s, a.0, a.1)
  }

  ghost predicate NoRepeats(asked: seq<(nat, nat)>) {
    forall j, k | 0 <= j < k < |asked| :: asked[j] != asked[k]
  }
}
