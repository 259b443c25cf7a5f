/** The simulation loop (global_manager.py): models are injected in ready order, the network is
    simulated, times are derived, finished models retire and free their capacity, and the clock
    advances.  The system, the workload and the mapped models are objects updated in place. */
module GlobalManagers {
  import opened Phases
  import opened PhaseSchedule
  import opened ScheduleLiveness
  import opened ScheduleBuild
  import opened NetworkCalls
  import opened MappedModels
  import opened Orchestrator
  import opened Mapper
  import opened Capacity
  import opened ModelMapping
  import opened Workload
  import opened WorkloadManagers
  import opened InjectionPass
  import opened Ledger
  import opened SimulationStep

  /** The two size checks made before a mapping is attempted. */
  datatype Verdict = TooLarge | NotNow | MayFit

  /** What the rest of the simulator supplies: the model definitions, the size checks, the order in
      which each layer would try the chiplets, and the results of compute simulation and traffic
      calculation for a given placement.  Each is arbitrary. */
  datatype Surroundings = Surroundings(
    known: set<string>,
    verdict: (int, real) -> Verdict,
    layers: int -> seq<LayerInfo>,
    prefers: (int, real) -> seq<seq<nat>>,
    allowed: int -> Allowed,
    latency: (int, seq<Placement>) -> seq<real>,
    traffic: (int, seq<Placement>) -> seq<Traffic>)

  ghost predicate Consistent(env: Surroundings, strategy: Strategy, chiplets: nat) {
    forall idx: int, t: real, pl: seq<Placement> :: ConsistentAt(env, strategy, chiplets, idx, t, pl)
  }

  ghost predicate ConsistentAt(env: Surroundings, strategy: Strategy, chiplets: nat, idx: int, t: real, pl: seq<Placement>) {
    var n := |env.layers(idx)|;
    && n > 0 && GoodOrders(env.prefers(idx, t), n, chiplets) && GoodLatencies(env.latency(idx, pl), n)
    && |env.traffic(idx, pl)| == 2 * n - 1 + WeightCount(strategy, n)
  }

  ghost predicate GoodOrders(prefers: seq<seq<nat>>, layers: nat, chiplets: nat) {
    |prefers| == layers && forall l | 0 <= l < |prefers| :: Mapper.Distinct(prefers[l], chiplets)
  }

  ghost predicate GoodLatencies(latency: seq<real>, layers: nat) {
    |latency| == layers && forall l | 0 <= l < |latency| :: 0.0 <= latency[l]
  }

  datatype Attempt = Injected | Failed | Halted

  /** How many phases a model of `n` layers has. */
  function PhaseCount(strategy: Strategy, n: nat): nat {
    if n == 0 then 0 else 2 * n - 1 + WeightCount(strategy, n)
  }

  /** How many phases the model with a given id has. */
  ghost function PhasesFor(env: Surroundings, strategy: Strategy): int -> nat {
    (idx: int) => PhaseCount(strategy, |env.layers(idx)|)
  }

  /** The model has just been mapped, with the compute latencies of some placement. */
  ghost predicate Brought(m: MappedModel, s: Sched, now: real, env: Surroundings) {
    Initial(m.cfg, s, now) && exists pl: seq<Placement> :: ComputesAs(m.cfg, s, env.latency(m.idx, pl))
  }

  ghost predicate ComputesAs(c: Config, s: Sched, latency: seq<real>) {
    forall i: nat, p: nat | Has(s, i, p) && p < |c.phases| ::
      At(s, i, p).latency == if c.phases[p].Compute? && c.phases[p].layer < |latency| then latency[c.phases[p].layer] else 0.0
  }

  /** Compute latencies and network answers are at most `most` steps. */
  ghost predicate Within(env: Surroundings, network: (int, nat, nat, real) -> real, most: nat) {
    Prompt(network, most) && forall idx: int, pl: seq<Placement> :: AtMost(env.latency(idx, pl), most)
  }

  ghost predicate AtMost(latency: seq<real>, most: nat) {
    forall l | 0 <= l < |latency| :: latency[l] <= most as real
  }

  /** The models that play a step's round, with their states: those active before are as they were,
      the others have just been mapped, and all are in states some run reaches. */
  ghost predicate StartsStep(before: seq<Sched>, played: seq<MappedModel>, s0: seq<Sched>, now: real, env: Surroundings) {
    && |before| <= |s0| == |played|
    && (forall k | 0 <= k < |before| :: s0[k] == before[k])
    && (forall k | |before| <= k < |played| :: Brought(played[k], s0[k], now, env))
    && forall k | 0 <= k < |played| :: Sound(played[k].cfg, s0[k], now)
  }

  /** And they have played it. */
  ghost predicate Stepped(before: seq<Sched>, played: seq<MappedModel>, s0: seq<Sched>, final: seq<Sched>, now: real,
                          called: bool, rounds: seq<Round>, network: (int, nat, nat, real) -> real, env: Surroundings) {
    StartsStep(before, played, s0, now, env) && AllPlayed(played, s0, final, now, called, rounds, network)
  }

  lemma JustPlayed(before: seq<Sched>, played: seq<MappedModel>, s0: seq<Sched>, final: seq<Sched>, now: real,
                   called: bool, rounds: seq<Round>, network: (int, nat, nat, real) -> real, env: Surroundings)
    requires StartsStep(before, played, s0, now, env) && AllPlayed(played, s0, final, now, called, rounds, network)
    ensures Stepped(before, played, s0, final, now, called, rounds, network, env)
  {
  }

  class GlobalManager {
    const system: System
    const workload: WorkloadManager
    const net: CommunicationOrchestrator
    const env: Surroundings
    const strategy: Strategy
    const pipelined: bool
    const stationary: bool
    var clock: real
    var active: seq<MappedModel>
    var retired: seq<MappedModel>

    // -------------------------------------------------------------- what every step keeps

    ghost predicate Setting()
    {
      && system.Distinct() && Consistent(env, strategy, |system.chiplets|)
      && (forall k | 0 <= k < |workload.workload| :: workload.workload[k].inputs > 0)
      && forall m: int, i: nat, p: nat, t: real :: 0.0 < net.network(m, i, p, t)
    }

    ghost predicate CapacityOk()
      reads this, system.chiplets
    {
      Conserved(system, active)
    }

    ghost predicate ModelsOk()
      reads this, active, retired
    {
      Held(active, retired, clock)
    }

    /** Every injected model is either active or retired, only once, and as its entry orders it. */
    ghost predicate NoneLost()
      reads this, workload
    {
      && Accounts(active, retired, workload.injected)
      && Booked(active, retired, workload.injected, workload.workload, PhasesFor(env, strategy))
    }

    ghost predicate QueueInStep()
      reads this, workload
    {
      workload.Valid() && workload.horizon <= clock && 0.0 <= clock
    }

    /** Network simulations so far, plus the transfers that could still cause one, never exceed the
        transfers of all models injected. */
    ghost predicate CallsOk()
      reads this, net, active
    {
      net.calls + OpenIn(active, StatesOf(active)) <= TransfersIn(active) + TransfersIn(retired)
    }

    ghost predicate Valid()
      reads this, system.chiplets, workload, net, active, retired
    {
      Setting() && CapacityOk() && ModelsOk() && NoneLost() && QueueInStep() && CallsOk()
    }

    constructor (system: System, workload: WorkloadManager, net: CommunicationOrchestrator, env: Surroundings,
                 strategy: Strategy, pipelined: bool, stationary: bool)
      requires system.Distinct() && Consistent(env, strategy, |system.chiplets|)
      requires forall i | 0 <= i < |system.chiplets| :: system.chiplets[i].available == system.chiplets[i].total
      requires workload.Valid() && workload.injected == {} && workload.horizon <= 0.0 && net.calls == 0
      requires forall k | 0 <= k < |workload.workload| :: workload.workload[k].inputs > 0
      requires forall m: int, i: nat, p: nat, t: real :: 0.0 < net.network(m, i, p, t)
      ensures Valid() && clock == 0.0 && active == [] && retired == []
      ensures this.system == system && this.workload == workload && this.net == net && this.env == env
    {
      this.system, this.workload, this.net, this.env := system, workload, net, env;
      this.strategy, this.pipelined, this.stationary := strategy, pipelined, stationary;
      clock := 0.0;
      active, retired := [], [];
    }

    // -------------------------------------------------------------- injection

    /** Places the model's layers; the capacity taken is exactly what the placement uses. */
    method MapModel(idx: int) returns (r: Outcome)
      requires Setting() && CapacityOk()
      modifies system.chiplets
      ensures !r.Mapped? ==> system.Available() == old(system.Available()) && CapacityOk()
      ensures r.Mapped? ==> |r.used| == |system.chiplets| && forall i | 0 <= i < |system.chiplets| ::
                && 0 <= r.used[i] && 0 <= system.chiplets[i].available
                && system.chiplets[i].available + r.used[i] == old(system.chiplets[i].available)
    {
      assert ConsistentAt(env, strategy, |system.chiplets|, idx, clock, []);
      forall i | 0 <= i < |system.chiplets| ensures system.chiplets[i].available <= system.chiplets[i].total {
        forall k | 0 <= k < |active| ensures 0 <= UsedBy(active[k], i) { assert active[k] in active; }
        UsedNonNegative(active, i);
      }
      ghost var done, stuck;
      r, done, stuck := GenerateMapping(system, env.layers(idx), env.prefers(idx, clock), env.allowed(idx));
      hide Explains, Stopped;
      if !r.Mapped? {
        forall i | 0 <= i < |system.chiplets| ensures system.chiplets[i].available == old(system.chiplets[i].available) {
          assert system.Available()[i] == old(system.Available()[i]);
        }
      }
    }

    /** Registers a model whose capacity has been taken: it joins the active ones, and leaves the
        waiting list for good. */
    method Admit(idx: int, inputs: int, placements: seq<Placement>, used: seq<int>)
      requires Setting() && ModelsOk() && NoneLost() && QueueInStep() && CallsOk()
      requires Waits(workload.ready, idx) && inputs > 0 && IsEntry(workload.workload, idx, inputs)
      modifies this`active, workload`ready, workload`injected
      ensures ModelsOk() && NoneLost() && QueueInStep() && CallsOk()
      ensures |active| == |old(active)| + 1 && active == old(active) + [active[|old(active)|]]
      ensures workload.ready == Without(old(workload.ready), idx) && workload.injected == old(workload.injected) + {idx}
      ensures var m := active[|old(active)|];
              fresh(m) && m.idx == idx && m.used == used && m.cfg.numInputs == inputs && Brought(m, m.State(), clock, env)
    {
      hide Sound, Brought, Booked, AsOrdered, IsEntry, Waits, PhasesFor;
      hide MappedModel.Valid, Finished, Setting, WorkloadManager.Valid, CallsOk, ModelsOk, Accounts;
      MarkInjected(idx);
      var m := NewModel(idx, inputs, placements, used);
      EnlistBooked(m, old(workload.injected));
    }

    method EnlistBooked(m: MappedModel, ghost injected: set<int>)
      requires ModelsOk() && CallsOk() && QueueInStep() && m !in active && m !in retired
      requires m.Valid(clock) && Sound(m.cfg, m.State(), clock) && m.modelDone == UNSET
      requires Unanswered(m.cfg, m.State()) == Transfers(m.cfg) && m.cfg.numInputs > 0
      requires AsOrdered(m, workload.workload, PhasesFor(env, strategy))
      requires m.idx !in injected && workload.injected == injected + {m.idx}
      requires Accounts(active, retired, injected) && Booked(active, retired, injected, workload.workload, PhasesFor(env, strategy))
      modifies this`active
      ensures ModelsOk() && CallsOk() && QueueInStep() && NoneLost() && active == old(active) + [m]
    {
      hide Sound, MappedModel.Valid, Unanswered, Transfers, WorkloadManager.Valid, CallsOk, ModelsOk;
      hide Accounts, Booked, AsOrdered, UniqueIds, PhasesFor;
      QueueUniqueIds();
      BothJoin(active, m, retired, injected, workload.workload, PhasesFor(env, strategy));
      Enlist(m);
    }

    lemma QueueUniqueIds()
      requires QueueInStep()
      ensures UniqueIds(workload.workload)
    {
    }

    method Enlist(m: MappedModel)
      requires ModelsOk() && CallsOk() && m !in active && m !in retired
      requires m.Valid(clock) && Sound(m.cfg, m.State(), clock) && m.modelDone == UNSET
      requires Unanswered(m.cfg, m.State()) == Transfers(m.cfg)
      modifies this`active
      ensures ModelsOk() && CallsOk() && active == old(active) + [m]
    {
      hide Sound, MappedModel.Valid, Held, Unanswered, Transfers, OpenIn, TransfersIn, StatesOf;
      HeldJoins(active, m, retired, clock);
      OpenJoins(active, m);
      active := active + [m];
    }

    method MarkInjected(idx: int)
      requires QueueInStep() && Waits(workload.ready, idx)
      modifies workload`ready, workload`injected
      ensures QueueInStep()
      ensures workload.ready == Without(old(workload.ready), idx)
      ensures idx !in old(workload.injected) && workload.injected == old(workload.injected) + {idx}
    {
      ghost var k: nat :| k < |workload.ready| && workload.ready[k].entry.idx == idx;
      WaitingIsNew(workload.workload, workload.Contents(), k);
      InjectOneKeepsQueue(workload.workload, workload.Contents(), idx);
      hide QueueOk, Without, Ids;
      workload.MarkModelInjected(idx);
    }

    method NewModel(idx: int, inputs: int, placements: seq<Placement>, used: seq<int>) returns (m: MappedModel)
      requires Setting() && inputs > 0 && 0.0 <= clock && IsEntry(workload.workload, idx, inputs)
      ensures fresh(m) && m.idx == idx && m.used == used && m.cfg.numInputs == inputs
      ensures AsOrdered(m, workload.workload, PhasesFor(env, strategy)) && Brought(m, m.State(), clock, env)
      ensures m.Valid(clock) && Sound(m.cfg, m.State(), clock)
      ensures m.modelDone == UNSET && Unanswered(m.cfg, m.State()) == Transfers(m.cfg)
    {
      var layers := env.layers(idx);
      assert ConsistentAt(env, strategy, |system.chiplets|, idx, clock, placements);
      m := new MappedModel(idx, used, strategy, |layers|, inputs, pipelined, stationary,
        env.latency(idx, placements), env.traffic(idx, placements), clock);
      assert ComputesAs(m.cfg, m.State(), env.latency(idx, placements));
      FreshUnanswered(m.cfg, m.State(), clock);
    }

    /** One model of the batch: the size checks, the mapping and, if it succeeds, the new model. */
    method TryInject(name: string, inputs: int, idx: int) returns (r: Attempt)
      requires Valid() && Waits(workload.ready, idx) && inputs > 0 && IsEntry(workload.workload, idx, inputs)
      modifies this`active, system.chiplets, workload`ready, workload`injected
      ensures Valid()
      ensures r != Injected ==> active == old(active) && system.Available() == old(system.Available())
                                && workload.ready == old(workload.ready) && workload.injected == old(workload.injected)
      ensures r == Injected ==>
                && |active| == |old(active)| + 1 && active == old(active) + [active[|old(active)|]]
                && workload.ready == Without(old(workload.ready), idx) && workload.injected == old(workload.injected) + {idx}
                && var m := active[|old(active)|];
                   && fresh(m) && m.idx == idx && m.cfg.numInputs == inputs && Brought(m, m.State(), clock, env)
                   && forall i | 0 <= i < |system.chiplets| :: system.chiplets[i].available + UsedBy(m, i) == old(system.chiplets[i].available)
    {
      hide ModelsOk, NoneLost, QueueInStep, CallsOk, Setting, Brought, IsEntry;
      if name !in env.known { return Halted; }
      match env.verdict(idx, clock) {
        case TooLarge => return Halted;
        case NotNow => return Failed;
        case MayFit =>
      }
      var outcome := MapModel(idx);
      if outcome.Refused? { return Failed; }
      if outcome.Raised? { return Halted; }
      Admit(idx, inputs, outcome.placements, outcome.used);
      forall i | 0 <= i < |system.chiplets|
        ensures system.chiplets[i].available + UsedOn(active, i) == system.chiplets[i].total
      {
        assert active[..|old(active)|] == old(active);
      }
      return Injected;
    }

    /** A model that could not be mapped is one failure older, and may now block the rest. */
    method RecordFailure(idx: int) returns (blocking: bool)
      requires Valid()
      modifies workload`ready
      ensures Valid() && workload.ready == Aged(old(workload.ready), idx)
      ensures blocking <==> exists k: nat :: k < |workload.ready| && workload.ready[k].entry.idx == idx && workload.ready[k].age >= workload.threshold
    {
      hide Setting, CapacityOk, ModelsOk, CallsOk, Accounts, Booked;
      EntriesAged(workload.ready, idx);
      workload.IncrementFailureAge(idx);
      QueueUnique(workload.workload, workload.Contents());
      hide QueueOk;
      blocking := workload.IsModelBlocking(idx);
    }

    /** The models due now, in order, with the facts the pass over them needs. */
    method FetchBatch() returns (batch: seq<(string, int, int)>)
      requires Valid()
      modifies workload`ready, workload`horizon
      ensures Valid() && workload.horizon == clock
      ensures workload.ready == ReadyAt(workload.workload, old(workload.Contents()), clock)
      ensures |batch| == |workload.ready| && UniqueWaiting(workload.ready)
      ensures forall k | 0 <= k < |batch| ::
                batch[k].2 == workload.ready[k].entry.idx && batch[k].1 > 0 && IsEntry(workload.workload, batch[k].2, batch[k].1)
    {
      hide CapacityOk, ModelsOk, CallsOk, Accounts, Booked, Consistent;
      batch := workload.GetModelsToInject(clock);
      EmptyBatch(workload.workload, workload.Contents());
      QueueUnique(workload.workload, workload.Contents());
      forall k | 0 <= k < |batch| ensures batch[k].1 > 0 && IsEntry(workload.workload, batch[k].2, batch[k].1) {
        WaitingIsNew(workload.workload, workload.Contents(), k);
        var j: nat :| j < |workload.workload| && workload.workload[j] == workload.ready[k].entry;
      }
      hide QueueOk;
    }

    /** The active models from position `n` on have just been mapped. */
    ghost predicate Newcomers(n: nat)
      reads this, active
    {
      forall k | n <= k < |active| :: Brought(active[k], active[k].State(), clock, env)
    }

    /** The next model of the batch `r`, at position `k`. */
    method TryNext(name: string, inputs: int, idx: int, ghost r: seq<Waiting>, ghost before: set<int>, ghost ok: set<int>, ghost k: nat)
      returns (halted: bool, blocking: bool, ghost ok': set<int>)
      requires Valid() && PassAt(r, workload.ready, before, workload.injected, ok, workload.threshold, k)
      requires k < |r| && idx == r[k].entry.idx && inputs > 0 && IsEntry(workload.workload, idx, inputs)
      modifies this`active, system.chiplets, workload`ready, workload`injected
      ensures Valid()
      ensures old(active) <= active && Newcomers(old(|active|)) && forall m | m in active && m !in old(active) :: fresh(m)
      ensures !halted && !blocking ==> PassAt(r, workload.ready, before, workload.injected, ok', workload.threshold, k + 1)
      ensures !halted && blocking ==> PassDone(r, workload.ready, before, workload.injected, ok', workload.threshold)
    {
      hide CapacityOk, ModelsOk, CallsOk, Accounts, Booked, Setting, Brought, IsEntry, Aged, Without, PassAt;
      ghost var ready, injected, limit := workload.ready, workload.injected, workload.threshold;
      QueueUnique(workload.workload, workload.Contents());
      NextInLine(r, ready, before, injected, ok, limit, k);
      ok' := ok;
      var attempt := TryInject(name, inputs, idx);
      if attempt == Halted { return true, false, ok; }
      if attempt == Injected {
        PassInjects(r, ready, before, injected, ok, limit, k);
        return false, false, ok + {idx};
      }
      blocking := RecordFailure(idx);
      QueueUnique(workload.workload, workload.Contents());
      FailureDecides(r, ready, workload.ready, before, injected, ok, limit, k, blocking);
      halted := false;
    }

    /** One pass over the models due now: each is tried in order, and the pass stops at the first
        failure that makes a model block. */
    method InjectModels() returns (halted: bool, ghost ok: set<int>)
      requires Valid()
      modifies this`active, system.chiplets, workload`ready, workload`injected, workload`horizon
      ensures Valid()
      ensures old(active) <= active && Newcomers(old(|active|)) && forall m | m in active && m !in old(active) :: fresh(m)
      ensures !halted ==> workload.Contents() == Advance(workload.workload, workload.threshold, old(workload.Contents()), Step(clock, ok))
    {
      hide Valid, PassAt, AfterPass, InjectedIds, Attempts, ReadyAt, UniqueWaiting;
      ghost var q := workload.Contents();
      var batch := FetchBatch();
      ghost var r := workload.ready;
      ok := {};
      PassBegins(r, q.injected, workload.threshold);
      for k := 0 to |batch|
        invariant Valid() && workload.horizon == clock
        invariant old(active) <= active && Newcomers(old(|active|)) && forall m | m in active && m !in old(active) :: fresh(m)
        invariant PassAt(r, workload.ready, q.injected, workload.injected, ok, workload.threshold, k)
      {
        var (name, inputs, idx) := batch[k];
        var blocking;
        halted, blocking, ok := TryNext(name, inputs, idx, r, q.injected, ok, k);
        if halted || blocking { return; }
      }
      PassCompletes(r, workload.ready, q.injected, workload.injected, ok, workload.threshold);
      halted := false;
    }

    // -------------------------------------------------------------- timing and retirement

    /** Derives the times of every active model from the states `before`. */
    method RecalculateTimes(ghost before: seq<Sched>) returns (ghost after: seq<Sched>)
      requires Separate(active) && AllIn(active, before, clock)
      modifies Objects(active)
      ensures AllIn(active, after, clock) && AllTimed(active, before, after)
    {
      after := [];
      hide InState, TimedFrom, Separate;
      for k := 0 to |active|
        invariant |after| == k && forall j | 0 <= j < k :: InState(active[j], after[j], clock)
        invariant forall j | 0 <= j < k :: TimedFrom(active[j].cfg, before[j], after[j])
        invariant forall j | k <= j < |active| :: InState(active[j], before[j], clock)
      {
        UnlikeOthers(active, k);
        ghost var s := TimeOne(active[k], before[k], clock);
        after := after + [s];
      }
    }

    /** Gives back the units a finished model used; no clamp bites. */
    method FreeCapacity(used: seq<int>)
      requires system.Distinct() && |used| == |system.chiplets|
      requires forall i | 0 <= i < |used| :: 0 <= system.chiplets[i].available + used[i] <= system.chiplets[i].total
      modifies system.chiplets
      ensures forall i | 0 <= i < |used| :: system.chiplets[i].available == old(system.chiplets[i].available) + used[i]
    {
      var before := system.GetAvailableCapacity();
      var after := seq(|before|, i requires 0 <= i < |before| && |used| == |before| => before[i] + used[i]);
      var ok := system.UpdateCapacityAvailability(after);
      forall i | 0 <= i < |used| ensures system.chiplets[i].available == after[i] {
        assert system.Available()[i] == after[i];
      }
    }

    /** Retires the model at the head of `rest` and gives its units back. */
    method Retire(kept: seq<MappedModel>, rest: seq<MappedModel>)
      requires system.Distinct() && CapacityOk() && active == kept + rest && |rest| > 0
      modifies this`active, this`retired, system.chiplets
      ensures CapacityOk() && active == kept + rest[1..] && retired == old(retired) + [rest[0]]
    {
      var m := rest[0];
      assert m in active && rest == [m] + rest[1..];
      ghost var before := active;
      active := kept + rest[1..];
      retired := retired + [m];
      forall i: nat | i < |system.chiplets|
        ensures UsedOn(before, i) == UsedOn(active, i) + UsedBy(m, i) && 0 <= UsedOn(active, i)
      {
        forall k | 0 <= k < |active| ensures 0 <= UsedBy(active[k], i) { assert active[k] in before; }
        UsedNonNegative(active, i);
        OneLess(kept, rest, i);
      }
      FreeCapacity(m.used);
    }

    /** Derives the model's times once more and retires it if complete. */
    method SettleOne(kept: seq<MappedModel>, m: MappedModel, rest: seq<MappedModel>, ghost s: Sched) returns (kept': seq<MappedModel>, ghost s': Sched)
      requires system.Distinct() && CapacityOk() && active == kept + ([m] + rest) && InState(m, s, clock)
      modifies this`active, this`retired, m, system.chiplets
      ensures CapacityOk() && active == kept' + rest && EndsIn(m, s', clock) && TimedFrom(m.cfg, s, s')
      ensures kept' == kept + if s'.modelDone == UNSET then [m] else []
      ensures retired == old(retired) + if s'.modelDone == UNSET then [] else [m]
    {
      hide CapacityOk, InState, TimedFrom, EndsIn;
      var finished;
      finished, s' := CheckModel(m, s, clock);
      if finished {
        Retire(kept, [m] + rest);
        kept' := kept;
        assert ([m] + rest)[1..] == rest;
      } else {
        kept' := kept + [m];
      }
    }

    /** Derives every model's times once more and retires those that are complete. */
    method RetireModels(ghost before: seq<Sched>) returns (ghost final: seq<Sched>)
      requires system.Distinct() && CapacityOk() && Separate(active) && AllIn(active, before, clock)
      modifies this`active, this`retired, Objects(active), system.chiplets
      ensures CapacityOk() && |final| == |old(active)|
      ensures active == Survivors(old(active), final) && retired == old(retired) + Retirees(old(active), final)
      ensures AllEnd(old(active), final, clock) && AllTimed(old(active), before, final)
    {
      hide CapacityOk, InState, EndsIn, TimedFrom, Sifted, Separate, Survivors, Retirees, System.Distinct;
      var models, kept := active, [];
      final := [];
      SiftNone(models, retired);
      for j := 0 to |models|
        invariant |final| == j && CapacityOk() && active == kept + models[j..]
        invariant Sifted(models, old(retired), j, final, kept, retired)
        invariant forall k | 0 <= k < j :: EndsIn(models[k], final[k], clock)
        invariant forall k | 0 <= k < j :: TimedFrom(models[k].cfg, before[k], final[k])
        invariant forall k | j <= k < |models| :: InState(models[k], before[k], clock)
      {
        ghost var s', kept0, retired0 := *, kept, retired;
        HeadAndRest(models, j);
        UnlikeOthers(models, j);
        kept, s' := SettleOne(kept, models[j], models[j + 1..], before[j]);
        SiftOne(models, old(retired), j, final, kept0, retired0, s');
        final := final + [s'];
      }
      SiftAll(models, old(retired), final, kept, retired);
    }

    // -------------------------------------------------------------- one step of the loop

    method Communicate(ghost s0: seq<Sched>) returns (called: bool, ghost rounds: seq<Round>, ghost s1: seq<Sched>)
      requires Setting() && Separate(active) && AllIn(active, s0, clock)
      modifies Objects(active), net`calls
      ensures AllIn(active, s1, clock) && AllConsulted(active, s0, s1, clock, called, rounds, net.network)
      ensures called <==> exists k: nat :: k < |active| && Asks(active[k].cfg, s0[k], clock)
      ensures net.calls == old(net.calls) + if called then 1 else 0
    {
      hide AllIn, AllConsulted, Asks, Consistent;
      called, rounds, s1 := net.SimulateCommunication(active, s0, clock);
    }

    /** The network visit and the two timing passes over all models. */
    method PlayAll(ghost s0: seq<Sched>) returns (called: bool, ghost rounds: seq<Round>, ghost final: seq<Sched>)
      requires Setting() && CapacityOk() && Separate(active) && AllIn(active, s0, clock)
      modifies this`active, this`retired, Objects(active), system.chiplets, net`calls
      ensures CapacityOk() && |final| == |old(active)|
      ensures active == Survivors(old(active), final) && retired == old(retired) + Retirees(old(active), final)
      ensures AllEnd(old(active), final, clock) && AllPlayed(old(active), s0, final, clock, called, rounds, net.network)
      ensures called <==> exists k: nat :: k < |old(active)| && Asks(old(active)[k].cfg, s0[k], clock)
      ensures net.calls == old(net.calls) + if called then 1 else 0
    {
      hide CapacityOk, AllIn, AllConsulted, AllTimed, AllEnd, AllPlayed, Survivors, Retirees, Asks, Separate;
      ghost var models := active;
      ghost var s1;
      called, rounds, s1 := Communicate(s0);
      ghost var s2 := RecalculateTimes(s1);
      final := RetireModels(s2);
      RoundsPlayed(models, s0, s1, s2, final, clock, called, rounds, net.network);
    }

    method PlayModels(ghost s0: seq<Sched>) returns (called: bool, ghost rounds: seq<Round>, ghost final: seq<Sched>)
      requires Setting() && CapacityOk() && ModelsOk() && CallsOk() && s0 == StatesOf(active)
      modifies this`active, this`retired, Objects(active), system.chiplets, net`calls
      ensures CapacityOk() && ModelsOk() && CallsOk() && |final| == |old(active)| && StatesOf(old(active)) == final
      ensures active == Survivors(old(active), final) && retired == old(retired) + Retirees(old(active), final)
      ensures AllPlayed(old(active), s0, final, clock, called, rounds, net.network)
      ensures net.calls == old(net.calls) + if called then 1 else 0
    {
      hide Objects, Conserved, AllEnd, AllPlayed, Asks, Held, StatesOf, Survivors, Retirees, AllIn, Separate, Sound, OpenIn, TransfersIn;
      ghost var models, was := active, retired;
      SoundStates(models, was, s0, clock);
      ObjectsApart(this, models);
      RetiredApart(models, was);
      called, rounds, final := PlayAll(s0);
      EndStates(models, final, clock);
      ModelsAfter(models, was, final, clock);
      CallsAfter(models, s0, final, clock, called, rounds, net.network);
      TransfersAfter(models, was, final);
    }

    /** Network, timing and retirement: every active model plays one round, complete models leave
        and their capacity comes back. */
    method PlayAndRetire(ghost s0: seq<Sched>) returns (called: bool, ghost rounds: seq<Round>, ghost final: seq<Sched>)
      requires Valid() && s0 == StatesOf(active)
      modifies this`active, this`retired, Objects(active), system.chiplets, net`calls
      ensures Valid() && |final| == |old(active)| && StatesOf(old(active)) == final
      ensures active == Survivors(old(active), final) && retired == old(retired) + Retirees(old(active), final)
      ensures AllPlayed(old(active), s0, final, clock, called, rounds, net.network)
      ensures net.calls == old(net.calls) + if called then 1 else 0
    {
      hide Objects, Setting, AllPlayed, Accounts, Booked, WorkloadManager.Valid, StatesOf;
      hide CapacityOk, ModelsOk, CallsOk, Survivors, Retirees;
      ghost var models, was := active, retired;
      ObjectsApart(this, models);
      called, rounds, final := PlayModels(s0);
      AccountsAfter(models, was, final, workload.injected);
      BooksKept(models, was, final, workload.injected, workload.workload, PhasesFor(env, strategy));
    }

    /** Lets one time step pass. */
    method AdvanceClock()
      requires Valid()
      modifies this`clock
      ensures Valid() && clock == old(clock) + TIME_STEP
    {
      hide Setting, Accounts, Booked, Conserved, Held, WorkloadManager.Valid, StatesOf, OpenIn, TransfersIn;
      clock := clock + TIME_STEP;
      Later(active, retired, old(clock), clock);
    }

    /** One iteration of the simulation loop.  Unless a fatal error ends the simulation, the waiting
        list advances by one injection pass, every model then active plays one round, the complete
        ones retire, and the clock moves on. */
    method RunStep() returns (halted: bool, ghost ok: set<int>, ghost played: seq<MappedModel>, ghost s0: seq<Sched>,
                              ghost final: seq<Sched>, ghost called: bool, ghost rounds: seq<Round>)
      requires Valid()
      modifies this`clock, this`active, this`retired, Objects(active), system.chiplets, net`calls, workload`ready, workload`injected, workload`horizon
      ensures Valid() && forall m | m in active && m !in old(active) :: fresh(m)
      ensures !halted ==>
                && clock == old(clock) + TIME_STEP
                && workload.Contents() == Advance(workload.workload, workload.threshold, old(workload.Contents()), Step(old(clock), ok))
                && old(active) <= played && Stepped(old(StatesOf(active)), played, s0, final, old(clock), called, rounds, net.network, env)
                && StatesOf(played) == final
                && active == Survivors(played, final) && retired == old(retired) + Retirees(played, final)
                && net.calls == old(net.calls) + if called then 1 else 0
    {
      hide Valid, AllPlayed, Survivors, Retirees, Advance, Stepped, StartsStep, Newcomers, StatesOf;
      ghost var before, states := active, StatesOf(active);
      halted, ok := InjectModels();
      assert forall k | 0 <= k < |active| :: active[k] in active && (active[k] in old(active) || fresh(active[k]));
      played, s0, final, called, rounds := active, StatesOf(active), [], false, [];
      if halted { return; }
      assert StatesOf(before) == states;
      StepStarts(this, before);
      called, rounds, final := PlayAndRetire(s0);
      assert Stepped(states, played, s0, final, clock, called, rounds, net.network, env) by { JustPlayed(states, played, s0, final, clock, called, rounds, net.network, env); }
      SurvivorsAre(played, final);
      AdvanceClock();
    }

    /** The simulation loop, for any number of iterations.  When it ends by itself, every entry of
        the workload has been injected, run to completion and retired, every unit of every chiplet
        is available again, and the network was simulated no more often than there were transfers. */
    method RunSimulation(limit: nat) returns (finished: bool)
      requires Valid()
      modifies this`clock, this`active, this`retired, Objects(active), system.chiplets, net`calls, workload`ready, workload`injected, workload`horizon
      ensures Valid()
      ensures finished ==>
                && active == [] && net.calls <= TransfersIn(retired)
                && (forall i | 0 <= i < |system.chiplets| :: system.chiplets[i].available == system.chiplets[i].total)
                && (forall m | m in retired :: Finished(m, clock))
                && forall k | 0 <= k < |workload.workload| :: Ran(retired, workload.workload[k])
    {
      hide Valid, Ran, TransfersIn, Finished, Stepped, Advance, Survivors, Retirees;
      var left := Remaining();
      if left == 0 { return false; }
      for step := 0 to limit
        invariant Valid() && forall m | m in active && m !in old(active) :: fresh(m)
      {
        left := Remaining();
        if left == 0 && |active| == 0 {
          AllDone(this);
          return true;
        }
        var halted;
        ghost var ok, played, s0, final, called, rounds;
        halted, ok, played, s0, final, called, rounds := RunStep();
        if halted { return false; }
      }
      return false;
    }

    // -------------------------------------------------------------- every model retires

    /** An upper bound on the network simulations the workload can cause. */
    ghost function Whole(): nat {
      WholeBudget(workload.workload, PhasesFor(env, strategy))
    }

    ghost predicate TimelyAll(most: nat)
      reads this, active
    {
      AllTimely(active, StatesOf(active), most, clock)
    }

    lemma CallsWithinBudget()
      requires Valid()
      ensures net.calls <= Whole()
    {
      WithinBudget(active, retired, workload.injected, workload.workload, PhasesFor(env, strategy));
    }

    lemma ActiveUnfinished(m: MappedModel)
      requires Valid() && m in active
      ensures m.State().modelDone == UNSET
    {
    }

    /** What is left of an active model's run. */
    ghost function Left(m: MappedModel, most: nat, slack: nat): nat
      requires net.calls <= Whole()
      reads net, m
    {
      RunLeft(m.cfg, m.State(), Whole() - net.calls, most, slack)
    }

    /** One step as an active model sees it: it retires, or what is left of its run shrinks. */
    method TrackedStep(ghost m: MappedModel, ghost most: nat, ghost slack: nat) returns (halted: bool, ghost ok: set<int>, ghost slack': nat)
      requires Valid() && Within(env, net.network, most) && TimelyAll(most) && net.calls <= Whole()
      modifies this`clock, this`active, this`retired, Objects(active), system.chiplets, net`calls, workload`ready, workload`injected, workload`horizon
      ensures Valid() && net.calls <= Whole() && forall a | a in active && a !in old(active) :: fresh(a)
      ensures !halted ==>
                && clock == old(clock) + TIME_STEP && TimelyAll(most) && old(retired) <= retired
                && workload.Contents() == Advance(workload.workload, workload.threshold, old(workload.Contents()), Step(old(clock), ok))
      ensures !halted && old(Tracked(m, most, slack)) ==> m in retired || Ongoing(m, most, slack', old(Left(m, most, slack)) - 1)
    {
      hide Valid, Stepped, Survivors, Retirees, Advance, AllTimely, Within, Timely, RunLeft, StatesOf, WholeBudget;
      ghost var before, states, now, calls := active, StatesOf(active), clock, net.calls;
      ghost var played, s0, final, called, rounds;
      ghost var j: nat, tracked := 0, Tracked(m, most, slack);
      if tracked {
        j :| j < |before| && before[j] == m;
        ActiveUnfinished(m);
      }
      halted, ok, played, s0, final, called, rounds := RunStep();
      CallsWithinBudget();
      slack' := 0;
      if !halted {
        StepTimely(before, states, played, s0, final, now, called, rounds, net.network, env, most);
        if tracked {
          slack' := TrackOne(this, before, states, played, s0, final, now, called, rounds, most, j, Whole() - calls, slack);
        }
      }
    }

    /** The loop for `limit` iterations, with compute and network latencies of at most `most` steps.
        A model active at the start has retired by then, unless a fatal error ended the simulation,
        as soon as there are more iterations than its own state changes and the transfers of the whole
        workload can take up.  Over the same iterations no model is passed by models behind it in
        max(1, threshold) of them. */
    method RunSteps(limit: nat, ghost m: MappedModel, ghost most: nat) returns (halted: bool, ghost steps: seq<Step>)
      requires Valid() && Within(env, net.network, most) && TimelyAll(most)
      modifies this`clock, this`active, this`retired, Objects(active), system.chiplets, net`calls, workload`ready, workload`injected, workload`horizon
      ensures Valid()
      ensures !halted ==>
                && |steps| == limit && TimelyAll(most) && Timed(old(workload.horizon), steps)
                && workload.Contents() == AdvanceAll(workload.workload, workload.threshold, old(workload.Contents()), steps)
                && RarelyOvertaken(workload.workload, workload.threshold, old(workload.Contents()), steps)
      ensures !halted && old(m in active) && limit > Lifetime(m.cfg, Whole(), most) ==> m in retired
    {
      hide Valid, AllTimely, Within, Timely, RunLeft, StatesOf, WholeBudget, Advance, AdvanceAll, OvertakingSteps, Timed, EndsBy, Lifetime, RarelyOvertaken, Tracked;
      ghost var q := workload.Contents();
      CallsWithinBudget();
      ghost var slack := most;
      ghost var total := RunStarts(this, m, most);
      QueueStarts(this);
      steps, halted := [], false;
      NoStepsYet(workload.workload, workload.threshold, q, clock);
      for k := 0 to limit
        invariant Valid() && TimelyAll(most) && net.calls <= Whole() && forall a | a in active && a !in old(active) :: fresh(a)
        invariant |steps| == k && EndsBy(q.horizon, steps, clock)
        invariant workload.Contents() == AdvanceAll(workload.workload, workload.threshold, q, steps)
        invariant old(m in active) ==> m in retired || Ongoing(m, most, slack, total - k)
      {
        ghost var ok, now := {}, clock;
        halted, ok, slack := TrackedStep(m, most, slack);
        if halted { return; }
        OneStepOn(workload.workload, workload.threshold, q, steps, Step(now, ok), clock);
        steps := steps + [Step(now, ok)];
      }
      RarelyPassed(workload.workload, workload.threshold, q, steps, clock);
    }

    /** The model is active, and what is left of its run is at most `bound`. */
    ghost predicate Ongoing(m: MappedModel, most: nat, slack: nat, bound: int)
      requires net.calls <= Whole()
      reads this, net, m
    {
      Tracked(m, most, slack) && Left(m, most, slack) <= bound
    }

    /** The model is active, and whatever of it runs is over within `slack` steps. */
    ghost predicate Tracked(m: MappedModel, most: nat, slack: nat)
      reads this, m
    {
      m in active && Timely(m.cfg, m.State(), most, clock + slack as real)
    }

    method Remaining() returns (n: int)
      requires Valid()
      ensures n == 0 <==> forall k | 0 <= k < |workload.workload| :: workload.workload[k].idx in workload.injected
    {
      n := workload.GetRemainingCount();
    }
  }

  lemma StepStarts(g: GlobalManager, before: seq<MappedModel>)
    requires g.Valid() && before <= g.active && g.Newcomers(|before|)
    ensures StartsStep(StatesOf(before), g.active, StatesOf(g.active), g.clock, g.env)
  {
    hide GlobalManager.Setting, GlobalManager.CapacityOk, GlobalManager.NoneLost, GlobalManager.QueueInStep, GlobalManager.CallsOk;
    hide Sound, Brought, MappedModel.Valid, Finished;
    assert forall k | 0 <= k < |g.active| :: g.active[k] in g.active;
  }

  lemma BothJoin(active: seq<MappedModel>, m: MappedModel, retired: seq<MappedModel>, injected: set<int>, w: seq<Entry>, phases: int -> nat)
    requires Accounts(active, retired, injected) && Booked(active, retired, injected, w, phases) && UniqueIds(w)
    requires AsOrdered(m, w, phases) && m.cfg.numInputs > 0 && m.idx !in injected
    ensures Accounts(active + [m], retired, injected + {m.idx}) && Booked(active + [m], retired, injected + {m.idx}, w, phases)
  {
    hide Accounts, Booked, AsOrdered, UniqueIds;
    Joins(active, m, retired, injected);
    BooksGrow(active, m, retired, injected, w, phases);
  }

  lemma BroughtTimely(m: MappedModel, s: Sched, now: real, env: Surroundings, network: (int, nat, nat, real) -> real, most: nat)
    requires Brought(m, s, now, env) && Within(env, network, most)
    ensures Timely(m.cfg, s, most, now + most as real)
  {
    var pl: seq<Placement> :| ComputesAs(m.cfg, s, env.latency(m.idx, pl));
    assert AtMost(env.latency(m.idx, pl), most);
    forall i: nat, p: nat | Has(s, i, p) && p < |m.cfg.phases| ensures At(s, i, p).latency <= most as real && At(s, i, p).state == NotStarted {
    }
  }

  /** A step keeps all active models timely. */
  lemma StepTimely(before: seq<MappedModel>, states: seq<Sched>, played: seq<MappedModel>, s0: seq<Sched>, final: seq<Sched>, now: real,
                   called: bool, rounds: seq<Round>, network: (int, nat, nat, real) -> real, env: Surroundings, most: nat)
    requires Stepped(states, played, s0, final, now, called, rounds, network, env) && before <= played && |states| == |before|
    requires AllTimely(before, states, most, now) && Within(env, network, most) && StatesOf(played) == final && |final| == |played|
    ensures AllTimely(Survivors(played, final), StatesOf(Survivors(played, final)), most, now + TIME_STEP)
  {
    hide Brought, Sound, Timely, Survivors;
    forall k | 0 <= k < |played| ensures Timely(played[k].cfg, s0[k], most, now + most as real) {
      if k < |before| {
        assert Timely(before[k].cfg, states[k], most, now + most as real);
      } else {
        BroughtTimely(played[k], s0[k], now, env, network, most);
      }
    }
    var s := Survivors(played, final);
    forall j, k | 0 <= j < |played| && 0 <= k < |s| && played[j] == s[k] ensures StatesOf(s)[k] == final[j] {
      assert StatesOf(played)[j] == final[j];
    }
    SurvivorsTimely(played, s0, final, now, called, rounds, network, most, StatesOf(s));
  }

  /** What a step does to one of the models active before it. */
  lemma TrackOne(g: GlobalManager, before: seq<MappedModel>, states: seq<Sched>, played: seq<MappedModel>, s0: seq<Sched>, final: seq<Sched>, now: real,
                 called: bool, rounds: seq<Round>, most: nat, j: nat, callsLeft: nat, slack: nat) returns (slack': nat)
    requires Stepped(states, played, s0, final, now, called, rounds, g.net.network, g.env) && before <= played && |states| == |before|
    requires j < |before| && Within(g.env, g.net.network, most) && StatesOf(played) == final && |final| == |played|
    requires states[j].modelDone == UNSET && Timely(before[j].cfg, states[j], most, now + slack as real)
    requires called ==> callsLeft > 0
    ensures before[j] in Survivors(played, final) || before[j] in Retirees(played, final)
    ensures Timely(before[j].cfg, before[j].State(), most, now + TIME_STEP + slack' as real)
    ensures RunLeft(before[j].cfg, before[j].State(), if called then callsLeft - 1 else callsLeft, most, slack')
          < RunLeft(before[j].cfg, states[j], callsLeft, most, slack)
  {
    hide Brought, Sound, Timely, Survivors, Retirees, RunLeft, Played, FromNetwork, Prompt;
    var m := before[j];
    assert played[j] == m && s0[j] == states[j] && StatesOf(played)[j] == final[j];
    RetirementConserves(played, final);
    PlayedOk(m.cfg, s0[j], final[j], now, rounds[j], m.idx, g.net.network, most);
    slack' := RunShrinks(m.cfg, s0[j], final[j], now, rounds[j], most, callsLeft, slack);
  }

  /** How long an active model can run from now on, at most. */
  lemma RunStarts(g: GlobalManager, m: MappedModel, most: nat) returns (total: nat)
    requires g.TimelyAll(most) && g.net.calls <= g.Whole()
    ensures total == Lifetime(m.cfg, g.Whole(), most)
    ensures m in g.active ==> g.Ongoing(m, most, most, total)
  {
    hide Timely, Lifetime, WholeBudget, RunLeft;
    total := Lifetime(m.cfg, g.Whole(), most);
    RunAtMost(m.cfg, m.State(), g.Whole() - g.net.calls, g.Whole(), most);
    if m in g.active {
      var j: nat :| j < |g.active| && g.active[j] == m;
      assert StatesOf(g.active)[j] == m.State();
    }
  }

  lemma QueueStarts(g: GlobalManager)
    requires g.Valid()
    ensures QueueOk(g.workload.workload, g.workload.Contents()) && g.workload.horizon <= g.clock
  {
  }

  lemma EmptyBatch(w: seq<Entry>, q: Queue)
    requires QueueOk(w, q)
    ensures w == [] ==> q.ready == []
  {
    if w == [] { NothingDue(w, q); }
  }

  /** With nothing left to inject and no model active, everything is accounted for. */
  lemma AllDone(g: GlobalManager)
    requires g.Valid() && g.active == []
    requires forall k | 0 <= k < |g.workload.workload| :: g.workload.workload[k].idx in g.workload.injected
    ensures g.net.calls <= TransfersIn(g.retired)
    ensures forall i | 0 <= i < |g.system.chiplets| :: g.system.chiplets[i].available == g.system.chiplets[i].total
    ensures forall m | m in g.retired :: Finished(m, g.clock)
    ensures forall k | 0 <= k < |g.workload.workload| :: Ran(g.retired, g.workload.workload[k])
  {
    var w := g.workload.workload;
    g.QueueUniqueIds();
    forall k | 0 <= k < |w| ensures Ran(g.retired, w[k]) {
      assert !HasId(g.active, w[k].idx);
      var j :| 0 <= j < |g.retired| && g.retired[j].idx == w[k].idx;
      assert AsOrdered(g.retired[j], w, PhasesFor(g.env, g.strategy));
      var i: nat :| i < |w| && w[i].idx == g.retired[j].idx && w[i].inputs == g.retired[j].cfg.numInputs;
      assert i == k;
    }
  }

  /** Some model of the list ran the entry, with the number of inputs it asks for. */
  ghost predicate Ran(models: seq<MappedModel>, e: Entry) {
    exists j :: 0 <= j < |models| && models[j].idx == e.idx && models[j].cfg.numInputs == e.inputs
  }

  lemma RetiredApart(models: seq<MappedModel>, was: seq<MappedModel>)
    requires forall m | m in models :: m !in was
    ensures forall m | m in was :: m !in Objects(models)
  {
  }

  /** The models are objects of their own. */
  lemma ObjectsApart(g: GlobalManager, models: seq<MappedModel>)
    ensures g !in Objects(models) && g.workload !in Objects(models) && g.net !in Objects(models)
  {
  }
}
