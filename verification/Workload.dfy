/** The timed workload and the list of models waiting to be injected (workload_manager.py), and the
    injection pass of the simulation loop over that list (global_manager.py). */
module Workload {

  datatype Entry = Entry(time: real, name: string, inputs: int, idx: int)

  /** A model that is due, with the number of times it could not be mapped. */
  datatype Waiting = Waiting(entry: Entry, age: nat)

  ghost predicate ByTime(w: seq<Entry>) {
    forall j, k | 0 <= j < k < |w| :: w[j].time <= w[k].time
  }

  ghost predicate UniqueIds(w: seq<Entry>) {
    forall j, k | 0 <= j < k < |w| :: w[j].idx != w[k].idx
  }

  /** The entries due by `now` that have not been injected, in workload order. */
  function Due(w: seq<Entry>, injected: set<int>, now: real): seq<Entry> {
    if w == [] then []
    else
      var rest := Due(w[..|w| - 1], injected, now);
      var e := w[|w| - 1];
      if e.time <= now && e.idx !in injected then rest + [e] else rest
  }

  function Entries(ready: seq<Waiting>): seq<Entry> {
    seq(|ready|, k requires 0 <= k < |ready| => ready[k].entry)
  }

  // ---------------------------------------------------------------- the due list

  lemma {:induction false} DueMembers(w: seq<Entry>, injected: set<int>, now: real)
    ensures forall e :: e in Due(w, injected, now) <==> e in w && e.time <= now && e.idx !in injected
    decreases |w|
  {
    if w != [] {
      var front := w[..|w| - 1];
      DueMembers(front, injected, now);
      assert w == front + [w[|w| - 1]];
    }
  }

  lemma {:induction false} DueOrder(w: seq<Entry>, injected: set<int>, now: real)
    requires ByTime(w) && UniqueIds(w)
    ensures ByTime(Due(w, injected, now)) && UniqueIds(Due(w, injected, now))
    decreases |w|
  {
    if w == [] { return; }
    OrderOfFront(w);
    hide ByTime, UniqueIds;
    var front, last := w[..|w| - 1], w[|w| - 1];
    DueOrder(front, injected, now);
    DueMembers(front, injected, now);
    var d := Due(front, injected, now);
    forall k | 0 <= k < |d| ensures d[k].time <= last.time && d[k].idx != last.idx {
      assert d[k] in d;
    }
    OrderGrows(d, last);
  }

  lemma OrderOfFront(w: seq<Entry>)
    requires w != [] && ByTime(w) && UniqueIds(w)
    ensures ByTime(w[..|w| - 1]) && UniqueIds(w[..|w| - 1])
    ensures forall e | e in w[..|w| - 1] :: e.time <= w[|w| - 1].time && e.idx != w[|w| - 1].idx
  {
  }

  lemma OrderGrows(d: seq<Entry>, e: Entry)
    requires ByTime(d) && UniqueIds(d) && forall k | 0 <= k < |d| :: d[k].time <= e.time && d[k].idx != e.idx
    ensures ByTime(d + [e]) && UniqueIds(d + [e])
  {
  }

  function WithoutAll(s: seq<Entry>, ids: set<int>): seq<Entry> {
    if s == [] then []
    else
      var rest := WithoutAll(s[..|s| - 1], ids);
      if s[|s| - 1].idx in ids then rest else rest + [s[|s| - 1]]
  }

  /** Injecting models takes them off the list and leaves the order of the others. */
  lemma {:induction false} DueWithout(w: seq<Entry>, injected: set<int>, now: real, ids: set<int>)
    ensures Due(w, injected + ids, now) == WithoutAll(Due(w, injected, now), ids)
    decreases |w|
  {
    if w != [] {
      DueWithout(w[..|w| - 1], injected, now, ids);
      var d := Due(w[..|w| - 1], injected, now);
      assert (d + [w[|w| - 1]])[..|d|] == d;
    }
  }

  lemma {:induction false} WithoutAllSplits(a: seq<Entry>, b: seq<Entry>, ids: set<int>)
    ensures WithoutAll(a + b, ids) == WithoutAll(a, ids) + WithoutAll(b, ids)
    decreases |b|
  {
    if b == [] {
      assert a + b == a;
    } else {
      assert (a + b)[..|a + b| - 1] == a + b[..|b| - 1];
      WithoutAllSplits(a, b[..|b| - 1], ids);
    }
  }

  lemma {:induction false} WithoutNone(s: seq<Entry>, ids: set<int>)
    requires forall k | 0 <= k < |s| :: s[k].idx !in ids
    ensures WithoutAll(s, ids) == s
    decreases |s|
  {
    if s != [] { WithoutNone(s[..|s| - 1], ids); }
  }

  // ---------------------------------------------------------------- refreshing the ready list

  /** Entries that became due after `horizon`, in workload order. */
  function NewlyDue(w: seq<Entry>, injected: set<int>, horizon: real, now: real): seq<Entry> {
    if w == [] then []
    else
      var rest := NewlyDue(w[..|w| - 1], injected, horizon, now);
      var e := w[|w| - 1];
      if horizon < e.time <= now && e.idx !in injected then rest + [e] else rest
  }

  /** The ready list splits into what was due before and what has just become due. */
  lemma {:induction false} DueSplits(w: seq<Entry>, injected: set<int>, horizon: real, now: real)
    requires ByTime(w) && horizon <= now
    ensures Due(w, injected, now) == Due(w, injected, horizon) + NewlyDue(w, injected, horizon, now)
    decreases |w|
  {
    if w != [] {
      var front := w[..|w| - 1];
      DueSplits(front, injected, horizon, now);
      var e := w[|w| - 1];
      if e.time <= horizon { NothingNew(front, injected, horizon, now); }
    }
  }

  lemma {:induction false} NothingNew(w: seq<Entry>, injected: set<int>, horizon: real, now: real)
    requires forall k | 0 <= k < |w| :: w[k].time <= horizon
    ensures NewlyDue(w, injected, horizon, now) == []
    decreases |w|
  {
    if w != [] { NothingNew(w[..|w| - 1], injected, horizon, now); }
  }

  function Fresh(due: seq<Entry>): seq<Waiting> {
    seq(|due|, k requires 0 <= k < |due| => Waiting(due[k], 0))
  }

  /** Waiting models keep their place and age; newly due ones join at the end with age zero. */
  function Refresh(w: seq<Entry>, ready: seq<Waiting>, injected: set<int>, horizon: real, now: real): seq<Waiting> {
    ready + Fresh(NewlyDue(w, injected, horizon, now))
  }

  // ---------------------------------------------------------------- one injection pass

  /** The model cannot be mapped and has now failed often enough to stop the pass. */
  predicate Blocks(x: Waiting, ok: set<int>, threshold: int) {
    x.entry.idx !in ok && x.age + 1 >= threshold
  }

  /** How many of the waiting models are tried before one blocks, from position `from` on. */
  function Attempts(ready: seq<Waiting>, ok: set<int>, threshold: int, from: nat): (n: nat)
    requires from <= |ready|
    ensures from <= n <= |ready|
    ensures forall k | from <= k < n - 1 :: !Blocks(ready[k], ok, threshold)
    ensures n < |ready| ==> n > from && Blocks(ready[n - 1], ok, threshold)
    decreases |ready| - from
  {
    if from == |ready| then from
    else if Blocks(ready[from], ok, threshold) then from + 1
    else Attempts(ready, ok, threshold, from + 1)
  }

  /** Of the first `n` models tried, those that stay, each one failure older. */
  function Kept(ready: seq<Waiting>, ok: set<int>, n: nat): seq<Waiting>
    requires n <= |ready|
  {
    if n == 0 then []
    else
      var x := ready[n - 1];
      if x.entry.idx in ok then Kept(ready, ok, n - 1) else Kept(ready, ok, n - 1) + [x.(age := x.age + 1)]
  }

  function AfterPass(ready: seq<Waiting>, ok: set<int>, threshold: int): seq<Waiting> {
    var n := Attempts(ready, ok, threshold, 0);
    Kept(ready, ok, n) + ready[n..]
  }

  /** The model at position `k` is injected in this pass. */
  predicate InjectedAt(ready: seq<Waiting>, ok: set<int>, threshold: int, k: nat) {
    k < Attempts(ready, ok, threshold, 0) && ready[k].entry.idx in ok
  }

  function InjectedIds(ready: seq<Waiting>, ok: set<int>, n: nat): set<int>
    requires n <= |ready|
  {
    if n == 0 then {}
    else if ready[n - 1].entry.idx in ok then InjectedIds(ready, ok, n - 1) + {ready[n - 1].entry.idx}
    else InjectedIds(ready, ok, n - 1)
  }

  // ---------------------------------------------------------------- bounded overtaking

  ghost predicate UniqueWaiting(ready: seq<Waiting>) {
    forall j, k | 0 <= j < k < |ready| :: ready[j].entry.idx != ready[k].entry.idx
  }

  /** In this pass some model behind `idx` is injected while `idx`, which is due, is not. */
  ghost predicate Overtaken(ready: seq<Waiting>, ok: set<int>, threshold: int, idx: int) {
    exists k: nat, j: nat :: k < j < |ready| && ready[k].entry.idx == idx
      && !InjectedAt(ready, ok, threshold, k) && InjectedAt(ready, ok, threshold, j)
  }

  ghost predicate HasAge(ready: seq<Waiting>, idx: int, age: nat) {
    exists k: nat :: k < |ready| && ready[k].entry.idx == idx && ready[k].age == age
  }

  predicate Waits(ready: seq<Waiting>, idx: int) {
    exists k: nat :: k < |ready| && ready[k].entry.idx == idx
  }

  /** Position `k` of the first `n` survives in `Kept` one failure older. */
  lemma {:induction false} KeptHas(ready: seq<Waiting>, ok: set<int>, n: nat, k: nat)
    requires k < n <= |ready| && ready[k].entry.idx !in ok
    ensures ready[k].(age := ready[k].age + 1) in Kept(ready, ok, n)
    decreases n
  {
    if k < n - 1 { KeptHas(ready, ok, n - 1, k); }
  }

  /** A model that stays ages by at most one, and one that is overtaken ages by exactly one and is
      still below the threshold. */
  lemma PassAges(ready: seq<Waiting>, ok: set<int>, threshold: int, k: nat)
    requires k < |ready| && !InjectedAt(ready, ok, threshold, k)
    ensures var idx, age := ready[k].entry.idx, ready[k].age;
            var after := AfterPass(ready, ok, threshold);
            && (HasAge(after, idx, age) || HasAge(after, idx, age + 1))
            && ((exists j: nat :: k < j < |ready| && InjectedAt(ready, ok, threshold, j)) ==>
                  HasAge(after, idx, age + 1) && age + 1 < threshold)
  {
    var n := Attempts(ready, ok, threshold, 0);
    var kept, after := Kept(ready, ok, n), AfterPass(ready, ok, threshold);
    if k < n {
      KeptHas(ready, ok, n, k);
      var m :| 0 <= m < |kept| && kept[m] == ready[k].(age := ready[k].age + 1);
      assert after[m] == kept[m];
      if j: nat :| k < j < |ready| && InjectedAt(ready, ok, threshold, j) {
        assert !Blocks(ready[k], ok, threshold);
      }
    } else {
      assert after[|kept| + (k - n)] == ready[k];
    }
  }

  // ---------------------------------------------------------------- whole runs

  datatype Queue = Queue(ready: seq<Waiting>, injected: set<int>, horizon: real)

  /** One step of the loop: the time, and the models whose mapping would succeed. */
  datatype Step = Step(now: real, ok: set<int>)

  /** The ready list is exactly the part of the workload that is due and not injected, in order. */
  ghost predicate QueueOk(w: seq<Entry>, q: Queue) {
    ByTime(w) && UniqueIds(w) && Entries(q.ready) == Due(w, q.injected, q.horizon)
  }

  function ReadyAt(w: seq<Entry>, q: Queue, now: real): seq<Waiting> {
    Refresh(w, q.ready, q.injected, q.horizon, now)
  }

  function Advance(w: seq<Entry>, threshold: int, q: Queue, step: Step): Queue {
    var r := ReadyAt(w, q, step.now);
    Queue(AfterPass(r, step.ok, threshold), q.injected + InjectedIds(r, step.ok, Attempts(r, step.ok, threshold, 0)), step.now)
  }

  lemma ReadyIsDue(w: seq<Entry>, q: Queue, now: real)
    requires QueueOk(w, q) && q.horizon <= now
    ensures Entries(ReadyAt(w, q, now)) == Due(w, q.injected, now) && UniqueWaiting(ReadyAt(w, q, now))
  {
    DueSplits(w, q.injected, q.horizon, now);
    DueOrder(w, q.injected, now);
    var r := ReadyAt(w, q, now);
    assert Entries(r) == Entries(q.ready) + NewlyDue(w, q.injected, q.horizon, now);
    forall j, k | 0 <= j < k < |r| ensures r[j].entry.idx != r[k].entry.idx {
      assert Entries(r)[j].idx != Entries(r)[k].idx;
    }
  }

  lemma {:induction false} InjectedMembers(ready: seq<Waiting>, ok: set<int>, n: nat, idx: int)
    requires n <= |ready|
    ensures idx in InjectedIds(ready, ok, n) <==> exists k: nat :: k < n && ready[k].entry.idx == idx && idx in ok
    decreases n
  {
    if n > 0 { InjectedMembers(ready, ok, n - 1, idx); }
  }

  lemma {:induction false} KeptIsRest(ready: seq<Waiting>, ok: set<int>, n: nat, ids: set<int>)
    requires n <= |ready| && forall k | 0 <= k < n :: ready[k].entry.idx in ids <==> ready[k].entry.idx in ok
    ensures Entries(Kept(ready, ok, n)) == WithoutAll(Entries(ready)[..n], ids)
    decreases n
  {
    if n > 0 {
      KeptIsRest(ready, ok, n - 1, ids);
      assert Entries(ready)[..n][..n - 1] == Entries(ready)[..n - 1];
    }
  }

  /** The pass takes out exactly the models it injects and keeps the order of the others. */
  lemma PassTakesInjected(r: seq<Waiting>, ok: set<int>, threshold: int)
    requires UniqueWaiting(r)
    ensures var ids := InjectedIds(r, ok, Attempts(r, ok, threshold, 0));
            Entries(AfterPass(r, ok, threshold)) == WithoutAll(Entries(r), ids)
  {
    hide UniqueWaiting, Kept, InjectedIds, WithoutAll, Entries, Attempts;
    var n := Attempts(r, ok, threshold, 0);
    var ids := InjectedIds(r, ok, n);
    InjectedPositions(r, ok, n);
    KeptIsRest(r, ok, n, ids);
    EntriesCut(r, Kept(r, ok, n), n);
    var es := Entries(r);
    WithoutNone(es[n..], ids);
    WithoutAllSplits(es[..n], es[n..], ids);
  }

  /** The entries of a list whose first `n` models are replaced by others. */
  lemma EntriesCut(r: seq<Waiting>, kept: seq<Waiting>, n: nat)
    requires n <= |r|
    ensures var es := Entries(r);
            && |es| == |r| && es == es[..n] + es[n..] && Entries(kept + r[n..]) == Entries(kept) + es[n..]
            && forall k | 0 <= k < |r| - n :: es[n..][k].idx == r[n + k].entry.idx
  {
  }

  lemma InjectedPositions(r: seq<Waiting>, ok: set<int>, n: nat)
    requires n <= |r| && UniqueWaiting(r)
    ensures forall k | 0 <= k < |r| :: r[k].entry.idx in InjectedIds(r, ok, n) <==> k < n && r[k].entry.idx in ok
  {
    hide InjectedIds;
    forall k | 0 <= k < |r| ensures r[k].entry.idx in InjectedIds(r, ok, n) <==> k < n && r[k].entry.idx in ok {
      InjectedMembers(r, ok, n, r[k].entry.idx);
    }
  }

  /** Every step keeps the ready list equal to the due, uninjected part of the workload. */
  lemma AdvanceKeepsQueue(w: seq<Entry>, threshold: int, q: Queue, step: Step)
    requires QueueOk(w, q) && q.horizon <= step.now
    ensures QueueOk(w, Advance(w, threshold, q, step))
  {
    hide Due, WithoutAll, ReadyAt, AfterPass, InjectedIds, Attempts;
    var r := ReadyAt(w, q, step.now);
    ReadyIsDue(w, q, step.now);
    PassTakesInjected(r, step.ok, threshold);
    DueWithout(w, q.injected, step.now, InjectedIds(r, step.ok, Attempts(r, step.ok, threshold, 0)));
  }

  /** The queue after a run of steps. */
  ghost function AdvanceAll(w: seq<Entry>, threshold: int, q: Queue, steps: seq<Step>): Queue {
    if steps == [] then q else Advance(w, threshold, AdvanceAll(w, threshold, q, steps[..|steps| - 1]), steps[|steps| - 1])
  }

  lemma {:induction false} TimedOn(horizon: real, steps: seq<Step>, step: Step)
    requires Timed(horizon, steps) && (if steps == [] then horizon else steps[|steps| - 1].now) <= step.now
    ensures Timed(horizon, steps + [step])
    decreases |steps|
  {
    if steps != [] {
      assert (steps + [step])[1..] == steps[1..] + [step];
      TimedOn(steps[0].now, steps[1..], step);
    } else {
      assert [step][1..] == [];
    }
  }

  ghost predicate Timed(horizon: real, steps: seq<Step>)
    decreases |steps|
  {
    steps == [] || (horizon <= steps[0].now && Timed(steps[0].now, steps[1..]))
  }

  /** The steps of a run in which some model behind `idx` gets in while `idx` is due and does not. */
  ghost function OvertakingSteps(w: seq<Entry>, threshold: int, q: Queue, steps: seq<Step>, idx: int): nat
    decreases |steps|
  {
    if steps == [] then 0
    else
      (if Overtaken(ReadyAt(w, q, steps[0].now), steps[0].ok, threshold, idx) then 1 else 0)
      + OvertakingSteps(w, threshold, Advance(w, threshold, q, steps[0]), steps[1..], idx)
  }

  /** An injected model never waits again. */
  lemma InjectedNeverWaits(w: seq<Entry>, q: Queue, now: real, idx: int)
    requires QueueOk(w, q) && q.horizon <= now && idx in q.injected
    ensures !Waits(ReadyAt(w, q, now), idx)
  {
    ReadyIsDue(w, q, now);
    DueMembers(w, q.injected, now);
    var r := ReadyAt(w, q, now);
    forall k: nat | k < |r| ensures r[k].entry.idx != idx {
      assert Entries(r)[k] in Due(w, q.injected, now);
    }
  }

  lemma {:induction false} NoMoreOvertaking(w: seq<Entry>, threshold: int, q: Queue, steps: seq<Step>, idx: int)
    requires QueueOk(w, q) && Timed(q.horizon, steps) && idx in q.injected
    ensures OvertakingSteps(w, threshold, q, steps, idx) == 0
    decreases |steps|
  {
    if steps != [] {
      InjectedNeverWaits(w, q, steps[0].now, idx);
      AdvanceKeepsQueue(w, threshold, q, steps[0]);
      NoMoreOvertaking(w, threshold, Advance(w, threshold, q, steps[0]), steps[1..], idx);
    }
  }

  ghost function AgeIn(ready: seq<Waiting>, idx: int): nat {
    if Waits(ready, idx) then
      var k: nat :| k < |ready| && ready[k].entry.idx == idx;
      ready[k].age
    else 0
  }

  lemma AgeAt(ready: seq<Waiting>, idx: int, age: nat)
    requires UniqueWaiting(ready) && HasAge(ready, idx, age)
    ensures AgeIn(ready, idx) == age
  {
  }

  lemma QueueUnique(w: seq<Entry>, q: Queue)
    requires QueueOk(w, q)
    ensures UniqueWaiting(q.ready)
  {
    DueOrder(w, q.injected, q.horizon);
    forall j, k | 0 <= j < k < |q.ready| ensures q.ready[j].entry.idx != q.ready[k].entry.idx {
      assert Entries(q.ready)[j].idx != Entries(q.ready)[k].idx;
    }
  }

  /** Refreshing the list ages nobody. */
  lemma RefreshKeepsAge(w: seq<Entry>, q: Queue, now: real, idx: int)
    requires QueueOk(w, q) && q.horizon <= now
    ensures AgeIn(ReadyAt(w, q, now), idx) == AgeIn(q.ready, idx)
  {
    ReadyIsDue(w, q, now);
    QueueUnique(w, q);
    var r := ReadyAt(w, q, now);
    if Waits(q.ready, idx) {
      var k: nat :| k < |q.ready| && q.ready[k].entry.idx == idx;
      assert r[k] == q.ready[k];
      AgeAt(r, idx, q.ready[k].age);
      AgeAt(q.ready, idx, q.ready[k].age);
    } else if Waits(r, idx) {
      var k: nat :| k < |r| && r[k].entry.idx == idx;
      assert k >= |q.ready| && r[k].age == 0;
      AgeAt(r, idx, 0);
    }
  }

  /** What a step does to one waiting model: it gets in for good, or it stays and each overtaking
      costs it a failure below the threshold. */
  lemma StepAges(w: seq<Entry>, threshold: int, q: Queue, step: Step, idx: int)
    requires QueueOk(w, q) && q.horizon <= step.now
    ensures var q' := Advance(w, threshold, q, step);
            var over := Overtaken(ReadyAt(w, q, step.now), step.ok, threshold, idx);
            || (!over && idx in q'.injected)
            || (!over && AgeIn(q'.ready, idx) >= AgeIn(q.ready, idx))
            || (over && AgeIn(q'.ready, idx) == AgeIn(q.ready, idx) + 1 < threshold)
  {
    var q' := Advance(w, threshold, q, step);
    var r := ReadyAt(w, q, step.now);
    ReadyIsDue(w, q, step.now);
    RefreshKeepsAge(w, q, step.now, idx);
    AdvanceKeepsQueue(w, threshold, q, step);
    QueueUnique(w, q');
    if Waits(r, idx) {
      var k: nat :| k < |r| && r[k].entry.idx == idx;
      AgeAt(r, idx, r[k].age);
      if InjectedAt(r, step.ok, threshold, k) {
        InjectedMembers(r, step.ok, Attempts(r, step.ok, threshold, 0), idx);
        assert idx in q'.injected;
        assert !Overtaken(r, step.ok, threshold, idx);
      } else {
        PassAges(r, step.ok, threshold, k);
        var age := r[k].age;
        if HasAge(q'.ready, idx, age + 1) { AgeAt(q'.ready, idx, age + 1); } else { AgeAt(q'.ready, idx, age); }
      }
    }
  }

  lemma {:induction false} OvertakingBounded(w: seq<Entry>, threshold: int, q: Queue, steps: seq<Step>, idx: int)
    requires QueueOk(w, q) && Timed(q.horizon, steps)
    ensures OvertakingSteps(w, threshold, q, steps, idx) == 0
         || OvertakingSteps(w, threshold, q, steps, idx) <= threshold - 1 - AgeIn(q.ready, idx)
    decreases |steps|
  {
    hide Overtaken, Advance, ReadyAt, AgeIn, QueueOk;
    if steps != [] {
      var q' := Advance(w, threshold, q, steps[0]);
      assert q'.horizon == steps[0].now by { AdvanceHorizon(w, threshold, q, steps[0]); }
      StepAges(w, threshold, q, steps[0], idx);
      AdvanceKeepsQueue(w, threshold, q, steps[0]);
      if idx in q'.injected {
        NoMoreOvertaking(w, threshold, q', steps[1..], idx);
      }
      OvertakingBounded(w, threshold, q', steps[1..], idx);
    }
  }

  lemma AdvanceHorizon(w: seq<Entry>, threshold: int, q: Queue, step: Step)
    ensures Advance(w, threshold, q, step).horizon == step.now
  {
  }

  /** The steps come one after another from `horizon` on, and none is after `now`. */
  ghost predicate EndsBy(horizon: real, steps: seq<Step>, now: real) {
    Timed(horizon, steps) && (if steps == [] then horizon else steps[|steps| - 1].now) <= now
  }

  lemma NoStepsYet(w: seq<Entry>, threshold: int, q: Queue, now: real)
    requires q.horizon <= now
    ensures EndsBy(q.horizon, [], now) && AdvanceAll(w, threshold, q, []) == q
  {
  }

  /** A run of the waiting list goes on by one step. */
  lemma OneStepOn(w: seq<Entry>, threshold: int, q: Queue, steps: seq<Step>, step: Step, later: real)
    requires EndsBy(q.horizon, steps, step.now) && step.now <= later
    ensures EndsBy(q.horizon, steps + [step], later)
    ensures AdvanceAll(w, threshold, q, steps + [step]) == Advance(w, threshold, AdvanceAll(w, threshold, q, steps), step)
  {
    hide Advance, Timed;
    TimedOn(q.horizon, steps, step);
    assert (steps + [step])[..|steps|] == steps;
  }

  /** Bounded overtaking, from any state the queue can be in: whatever can be mapped when, a model is
      passed by models behind it in fewer than max(1, threshold) steps of a run. */
  lemma OvertakenRarely(w: seq<Entry>, threshold: int, q: Queue, steps: seq<Step>, idx: int)
    requires QueueOk(w, q) && Timed(q.horizon, steps)
    ensures OvertakingSteps(w, threshold, q, steps, idx) < (if threshold < 1 then 1 else threshold)
  {
    OvertakingBounded(w, threshold, q, steps, idx);
  }

  /** No model is passed by models behind it in max(1, threshold) of the steps. */
  ghost predicate RarelyOvertaken(w: seq<Entry>, threshold: int, q: Queue, steps: seq<Step>) {
    forall idx: int :: OvertakingSteps(w, threshold, q, steps, idx) < (if threshold < 1 then 1 else threshold)
  }

  lemma RarelyPassed(w: seq<Entry>, threshold: int, q: Queue, steps: seq<Step>, now: real)
    requires QueueOk(w, q) && EndsBy(q.horizon, steps, now)
    ensures Timed(q.horizon, steps)
    ensures RarelyOvertaken(w, threshold, q, steps)
  {
    forall idx: int ensures OvertakingSteps(w, threshold, q, steps, idx) < (if threshold < 1 then 1 else threshold) {
      OvertakenRarely(w, threshold, q, steps, idx);
    }
  }

  /** Bounded overtaking: whatever can be mapped when, a model that is due is passed by models
      behind it in fewer than max(1, threshold) steps of a run. */
  lemma BoundedOvertaking(w: seq<Entry>, threshold: int, steps: seq<Step>, begin: real, idx: int)
    requires ByTime(w) && UniqueIds(w) && Timed(begin, steps) && forall k | 0 <= k < |w| :: begin < w[k].time
    ensures OvertakingSteps(w, threshold, Queue([], {}, begin), steps, idx) < (if threshold < 1 then 1 else threshold)
  {
    NotDueYet(w, begin);
    OvertakingBounded(w, threshold, Queue([], {}, begin), steps, idx);
  }

  lemma {:induction false} NotDueYet(w: seq<Entry>, begin: real)
    requires forall k | 0 <= k < |w| :: begin < w[k].time
    ensures Due(w, {}, begin) == []
    decreases |w|
  {
    if w != [] { NotDueYet(w[..|w| - 1], begin); }
  }
}
