/** Sums over the models the simulation holds: the capacity they use, the transfers they bring and
    the transfers still without a latency. */
module Ledger {
  import opened Numbers
  import opened Phases
  import opened PhaseSchedule
  import opened NetworkCalls
  import opened MappedModels
  import opened Orchestrator
  import opened Workload

  ghost function UsedBy(m: MappedModel, i: nat): int {
    if i < |m.used| then m.used[i] else 0
  }

  /** Units of chiplet `i` that the models hold. */
  ghost function UsedOn(models: seq<MappedModel>, i: nat): int {
    if models == [] then 0 else UsedOn(models[..|models| - 1], i) + UsedBy(models[|models| - 1], i)
  }

  /** Transfer instances the models have in all. */
  ghost function TransfersIn(models: seq<MappedModel>): nat {
    if models == [] then 0 else TransfersIn(models[..|models| - 1]) + Transfers(models[|models| - 1].cfg)
  }

  /** Transfers of the models, in the given states, that have no latency yet. */
  ghost function OpenIn(models: seq<MappedModel>, states: seq<Sched>): nat
    requires |states| == |models|
  {
    if models == [] then 0
    else OpenIn(models[..|models| - 1], states[..|models| - 1]) + Unanswered(models[|models| - 1].cfg, states[|models| - 1])
  }

  /** The models that go on, and those that are over. */
  ghost function Survivors(models: seq<MappedModel>, states: seq<Sched>): seq<MappedModel>
    requires |states| == |models|
  {
    if models == [] then []
    else
      var front := Survivors(models[..|models| - 1], states[..|models| - 1]);
      if states[|models| - 1].modelDone == UNSET then front + [models[|models| - 1]] else front
  }

  ghost function Retirees(models: seq<MappedModel>, states: seq<Sched>): seq<MappedModel>
    requires |states| == |models|
  {
    if models == [] then []
    else
      var front := Retirees(models[..|models| - 1], states[..|models| - 1]);
      if states[|models| - 1].modelDone == UNSET then front else front + [models[|models| - 1]]
  }

  lemma {:induction false} UsedSplits(a: seq<MappedModel>, b: seq<MappedModel>, i: nat)
    ensures UsedOn(a + b, i) == UsedOn(a, i) + UsedOn(b, i)
    decreases |b|
  {
    if b == [] {
      assert a + b == a;
    } else {
      assert (a + b)[..|a + b| - 1] == a + b[..|b| - 1];
      UsedSplits(a, b[..|b| - 1], i);
    }
  }

  lemma {:induction false} UsedNonNegative(models: seq<MappedModel>, i: nat)
    requires forall k | 0 <= k < |models| :: 0 <= UsedBy(models[k], i)
    ensures 0 <= UsedOn(models, i)
    decreases |models|
  {
    if models != [] { UsedNonNegative(models[..|models| - 1], i); }
  }

  lemma {:induction false} TransfersSplit(a: seq<MappedModel>, b: seq<MappedModel>)
    ensures TransfersIn(a + b) == TransfersIn(a) + TransfersIn(b)
    decreases |b|
  {
    if b == [] {
      assert a + b == a;
    } else {
      assert (a + b)[..|a + b| - 1] == a + b[..|b| - 1];
      TransfersSplit(a, b[..|b| - 1]);
    }
  }

  /** A round lowers the transfers still open, by at least one if some model asked the network. */
  lemma {:induction false} OpenDrops(models: seq<MappedModel>, before: seq<Sched>, after: seq<Sched>)
    requires |models| == |before| == |after|
    requires forall k | 0 <= k < |models| :: Unanswered(models[k].cfg, after[k]) <= Unanswered(models[k].cfg, before[k])
    ensures OpenIn(models, after) <= OpenIn(models, before)
    ensures (exists k :: 0 <= k < |models| && Unanswered(models[k].cfg, after[k]) < Unanswered(models[k].cfg, before[k])) ==>
              OpenIn(models, after) < OpenIn(models, before)
    decreases |models|
  {
    if models != [] {
      var n := |models| - 1;
      OpenDrops(models[..n], before[..n], after[..n]);
      if k :| 0 <= k < |models| && Unanswered(models[k].cfg, after[k]) < Unanswered(models[k].cfg, before[k]) {
        if k < n {
          assert Unanswered(models[..n][k].cfg, after[..n][k]) < Unanswered(models[..n][k].cfg, before[..n][k]);
        }
      }
    }
  }

  /** Retirement moves models from one list to the other and loses none. */
  lemma {:induction false} RetirementConserves(models: seq<MappedModel>, states: seq<Sched>)
    requires |states| == |models|
    ensures |Survivors(models, states)| + |Retirees(models, states)| == |models|
    ensures forall m | m in models :: m in Survivors(models, states) || m in Retirees(models, states)
    ensures TransfersIn(Survivors(models, states)) + TransfersIn(Retirees(models, states)) == TransfersIn(models)
    decreases |models|
  {
    if models != [] {
      var n := |models| - 1;
      RetirementConserves(models[..n], states[..n]);
      var s, r, last := Survivors(models[..n], states[..n]), Retirees(models[..n], states[..n]), models[n];
      assert models == models[..n] + [last];
      assert (s + [last])[..|s|] == s && (r + [last])[..|r|] == r;
    }
  }

  lemma {:induction false} SurvivorsSeparate(models: seq<MappedModel>, states: seq<Sched>)
    requires |states| == |models| && Separate(models)
    ensures Separate(Survivors(models, states))
    ensures forall m | m in Survivors(models, states) :: m !in Retirees(models, states)
    decreases |models|
  {
    SurvivorsAre(models, states);
    if models != [] {
      var n := |models| - 1;
      SurvivorsSeparate(models[..n], states[..n]);
      SurvivorsAre(models[..n], states[..n]);
      var s := Survivors(models[..n], states[..n]);
      forall k | 0 <= k < |s| ensures s[k] != models[n] {
        assert s[k] in s;
        var j: nat :| SurvivorAt(models[..n], states[..n], s[k], j);
        assert models[j] == s[k];
      }
    }
    forall m | m in Survivors(models, states) ensures m !in Retirees(models, states) {
      var j: nat :| SurvivorAt(models, states, m, j);
    }
  }

  /** A survivor is one of the models, in an unfinished state. */
  lemma {:induction false} SurvivorsOpen(models: seq<MappedModel>, states: seq<Sched>, now: seq<Sched>)
    requires |states| == |models| && |now| == |Survivors(models, states)|
    requires forall j, k | 0 <= j < |models| && 0 <= k < |now| && models[j] == Survivors(models, states)[k] :: now[k] == states[j]
    ensures OpenIn(Survivors(models, states), now) <= OpenIn(models, states)
    decreases |models|
  {
    if models != [] {
      var n := |models| - 1;
      var s := Survivors(models[..n], states[..n]);
      assert |s| <= |now|;
      var t := now[..|s|];
      assert forall k | 0 <= k < |s| :: s[k] == Survivors(models, states)[k];
      SurvivorsOpen(models[..n], states[..n], t);
      if states[n].modelDone == UNSET {
        assert (s + [models[n]])[..|s|] == s && models[n] == Survivors(models, states)[|s|];
      } else {
        assert t == now;
      }
    }
  }

  ghost predicate SurvivorAt(models: seq<MappedModel>, states: seq<Sched>, m: MappedModel, j: nat)
    requires |states| == |models|
  {
    j < |models| && models[j] == m && states[j].modelDone == UNSET
  }

  ghost predicate RetireeAt(models: seq<MappedModel>, states: seq<Sched>, m: MappedModel, j: nat)
    requires |states| == |models|
  {
    j < |models| && models[j] == m && states[j].modelDone != UNSET
  }

  lemma {:induction false} SurvivorsAre(models: seq<MappedModel>, states: seq<Sched>)
    requires |states| == |models|
    ensures forall m | m in Survivors(models, states) :: exists j: nat :: SurvivorAt(models, states, m, j)
    ensures forall m | m in Retirees(models, states) :: exists j: nat :: RetireeAt(models, states, m, j)
    decreases |models|
  {
    if models != [] {
      var n := |models| - 1;
      SurvivorsAre(models[..n], states[..n]);
      forall m | m in Survivors(models, states) ensures exists j: nat :: SurvivorAt(models, states, m, j) {
        if m in Survivors(models[..n], states[..n]) {
          var j: nat :| SurvivorAt(models[..n], states[..n], m, j);
          assert SurvivorAt(models, states, m, j);
        } else {
          assert SurvivorAt(models, states, m, n);
        }
      }
      forall m | m in Retirees(models, states) ensures exists j: nat :: RetireeAt(models, states, m, j) {
        if m in Retirees(models[..n], states[..n]) {
          var j: nat :| RetireeAt(models[..n], states[..n], m, j);
          assert RetireeAt(models, states, m, j);
        } else {
          assert RetireeAt(models, states, m, n);
        }
      }
    }
  }

  // ---------------------------------------------------------------- models and workload entries

  /** The workload has an entry with this id and number of inputs. */
  ghost predicate IsEntry(w: seq<Entry>, idx: int, inputs: int) {
    exists k: nat :: k < |w| && w[k].idx == idx && w[k].inputs == inputs
  }

  /** The model runs the inputs its workload entry asks for, through as many phases as its layers need. */
  ghost predicate AsOrdered(m: MappedModel, w: seq<Entry>, phases: int -> nat) {
    IsEntry(w, m.idx, m.cfg.numInputs) && |m.cfg.phases| == phases(m.idx)
  }

  /** An upper bound on the transfers an entry's model can bring. */
  ghost function Need(e: Entry, phases: int -> nat): nat {
    if e.inputs > 0 then e.inputs * phases(e.idx) else 0
  }

  /** The same for all entries with the given ids. */
  ghost function Budget(w: seq<Entry>, phases: int -> nat, ids: set<int>): nat {
    if w == [] then 0
    else Budget(w[..|w| - 1], phases, ids) + if w[|w| - 1].idx in ids then Need(w[|w| - 1], phases) else 0
  }

  /** The same for the whole workload. */
  ghost function WholeBudget(w: seq<Entry>, phases: int -> nat): nat {
    if w == [] then 0 else WholeBudget(w[..|w| - 1], phases) + Need(w[|w| - 1], phases)
  }

  lemma {:induction false} BudgetSame(w: seq<Entry>, phases: int -> nat, ids: set<int>, more: set<int>)
    requires forall k | 0 <= k < |w| :: w[k].idx in ids <==> w[k].idx in more
    ensures Budget(w, phases, ids) == Budget(w, phases, more)
    decreases |w|
  {
    if w != [] { BudgetSame(w[..|w| - 1], phases, ids, more); }
  }

  lemma {:induction false} BudgetAdds(w: seq<Entry>, phases: int -> nat, ids: set<int>, k: nat)
    requires UniqueIds(w) && k < |w| && w[k].idx !in ids
    ensures Budget(w, phases, ids + {w[k].idx}) == Budget(w, phases, ids) + Need(w[k], phases)
    decreases |w|
  {
    hide Need;
    var n := |w| - 1;
    if k < n {
      BudgetAdds(w[..n], phases, ids, k);
      assert w[n].idx != w[k].idx;
    } else {
      BudgetSame(w[..n], phases, ids, ids + {w[n].idx});
    }
  }

  lemma {:induction false} BudgetWithin(w: seq<Entry>, phases: int -> nat, ids: set<int>)
    ensures Budget(w, phases, ids) <= WholeBudget(w, phases)
    decreases |w|
  {
    hide Need;
    if w != [] { BudgetWithin(w[..|w| - 1], phases, ids); }
  }

  lemma TransfersAtMost(c: Config)
    ensures Transfers(c) <= c.numInputs * |c.phases|
  {
    var f := TransferAt(c);
    forall i: nat | i < c.numInputs ensures RowSum(f, i, |c.phases|) <= |c.phases| {
      RowSumAtMost(f, i, |c.phases|, 1);
    }
    GridSumAtMost(f, c.numInputs, |c.phases|, |c.phases|);
  }

  /** Every model is as its workload entry orders it, and the transfers brought so far are within the
      budget of the ids injected so far. */
  ghost predicate Booked(active: seq<MappedModel>, retired: seq<MappedModel>, injected: set<int>, w: seq<Entry>, phases: int -> nat) {
    && (forall m | m in active :: AsOrdered(m, w, phases))
    && (forall m | m in retired :: AsOrdered(m, w, phases))
    && TransfersIn(active) + TransfersIn(retired) <= Budget(w, phases, injected)
  }

  lemma BooksGrow(active: seq<MappedModel>, m: MappedModel, retired: seq<MappedModel>, injected: set<int>, w: seq<Entry>, phases: int -> nat)
    requires Booked(active, retired, injected, w, phases) && m.idx !in injected && UniqueIds(w)
    requires AsOrdered(m, w, phases) && m.cfg.numInputs > 0
    ensures Booked(active + [m], retired, injected + {m.idx}, w, phases)
  {
    TransfersAtMost(m.cfg);
    var k: nat :| k < |w| && w[k].idx == m.idx && w[k].inputs == m.cfg.numInputs;
    BudgetAdds(w, phases, injected, k);
    assert (active + [m])[..|active|] == active;
    hide Transfers, Budget, AsOrdered;
  }

  lemma BooksKept(models: seq<MappedModel>, was: seq<MappedModel>, states: seq<Sched>, injected: set<int>, w: seq<Entry>, phases: int -> nat)
    requires |states| == |models| && Booked(models, was, injected, w, phases)
    ensures Booked(Survivors(models, states), was + Retirees(models, states), injected, w, phases)
  {
    RetirementConserves(models, states);
    TransfersSplit(was, Retirees(models, states));
    SurvivorsAre(models, states);
    hide Survivors, Retirees, AsOrdered, Budget, TransfersIn;
    forall m | m in Survivors(models, states) ensures m in models {
      var j: nat :| SurvivorAt(models, states, m, j);
    }
    forall m | m in Retirees(models, states) ensures m in models {
      var j: nat :| RetireeAt(models, states, m, j);
    }
  }

  /** All transfers brought so far are within the budget of the whole workload. */
  lemma WithinBudget(active: seq<MappedModel>, retired: seq<MappedModel>, injected: set<int>, w: seq<Entry>, phases: int -> nat)
    requires Booked(active, retired, injected, w, phases)
    ensures TransfersIn(active) + TransfersIn(retired) <= WholeBudget(w, phases)
  {
    BudgetWithin(w, phases, injected);
  }
}
