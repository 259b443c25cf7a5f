/** The workload manager as the simulator holds it (workload_manager.py): the waiting list, the
    failure ages and the injected set are updated in place.  Every method is proved against the
    functions of Workload.dfy. */
module WorkloadManagers {
  import opened Sorting
  import opened Workload

  function TimeOf(e: Entry): real { e.time }

  function ReadyTime(x: Waiting): real { x.entry.time }

  /** The first waiting model with the id is at position `k`. */
  ghost predicate FirstWaiting(ready: seq<Waiting>, idx: int, k: nat) {
    k < |ready| && ready[k].entry.idx == idx && forall m | 0 <= m < k :: ready[m].entry.idx != idx
  }

  class WorkloadManager {
    const workload: seq<Entry>
    const threshold: int
    var ready: seq<Waiting>
    var injected: set<int>
    ghost var horizon: real

    ghost function Contents(): Queue
      reads this
    {
      Queue(ready, injected, horizon)
    }

    /** The waiting list is what is due by the last time looked at and not injected. */
    ghost predicate Valid()
      reads this
    {
      QueueOk(workload, Contents()) && injected <= Ids(workload)
    }

    constructor (rows: seq<Entry>, threshold: int)
      ensures UniqueIds(rows) ==> Valid()
      ensures workload == SortBy(rows, TimeOf) && this.threshold == threshold
      ensures ready == [] && injected == {} && horizon <= 0.0 && forall k | 0 <= k < |workload| :: horizon < workload[k].time
    {
      workload := SortBy(rows, TimeOf);
      this.threshold := threshold;
      ready, injected := [], {};
      horizon := if rows == [] || SortBy(rows, TimeOf)[0].time > 0.0 then 0.0 else SortBy(rows, TimeOf)[0].time - 1.0;
      new;
      SortKeepsIds(rows);
      hide SortBy;
      NotDueYet(workload, horizon);
    }

    method IncrementFailureAge(idx: int)
      modifies this`ready
      ensures ready == Aged(old(ready), idx)
    {
      for k := 0 to |ready|
        invariant ready == old(ready) && forall m | 0 <= m < k :: ready[m].entry.idx != idx
      {
        if ready[k].entry.idx == idx {
          AgedAt(ready, idx, k);
          ready := ready[k := ready[k].(age := ready[k].age + 1)];
          return;
        }
      }
      AgedNowhere(ready, idx);
    }

    /** The first waiting model with the id decides, whether or not others share it. */
    method IsModelBlocking(idx: int) returns (r: bool)
      ensures r <==> exists k: nat :: FirstWaiting(ready, idx, k) && ready[k].age >= threshold
      ensures UniqueWaiting(ready) ==> (r <==> exists k: nat :: k < |ready| && ready[k].entry.idx == idx && ready[k].age >= threshold)
    {
      for k := 0 to |ready|
        invariant forall m | 0 <= m < k :: ready[m].entry.idx != idx
      {
        if ready[k].entry.idx == idx {
          assert FirstWaiting(ready, idx, k);
          return ready[k].age >= threshold;
        }
      }
      return false;
    }

    /** Lists every entry that is due, not injected and not listed yet; of entries that share an id
        only the first is listed.  In step with the workload, that is exactly what is newly due. */
    method UpdateReadyModels(now: real)
      modifies this`ready, this`horizon
      ensures Caught(workload, old(ready), ready, injected, now, |workload|)
      ensures old(Valid() && horizon <= now) ==> Valid() && horizon == now && ready == ReadyAt(workload, old(Contents()), now)
    {
      ghost var q, valid := Contents(), Valid() && horizon <= now;
      for k := 0 to |workload|
        invariant horizon == q.horizon && Caught(workload, q.ready, ready, injected, now, k)
        invariant valid ==> ready == q.ready + Fresh(NewlyDue(workload[..k], injected, horizon, now))
      {
        var e := workload[k];
        if valid { OneMoreDue(workload, q, now, k); }
        CatchOne(workload, q.ready, ready, injected, now, k);
        hide NewlyDue, Fresh, Caught, QueueOk, Waits;
        if e.idx in injected || Waits(ready, e.idx) { continue; }
        if e.time <= now { ready := ready + [Waiting(e, 0)]; }
      }
      assert workload[..|workload|] == workload;
      if valid {
        ReadyIsDue(workload, q, now);
        horizon := now;
      }
    }

    /** The models to try now, longest due first. */
    method GetModelsToInject(now: real) returns (r: seq<(string, int, int)>)
      modifies this`ready, this`horizon
      ensures if |workload| == 0 then r == []
              else |r| == |ready| && Ascending(ready, ReadyTime)
                   && forall k | 0 <= k < |r| :: r[k] == (ready[k].entry.name, ready[k].entry.inputs, ready[k].entry.idx)
      ensures old(Valid() && horizon <= now) ==>
                && Valid() && horizon == now && ready == ReadyAt(workload, old(Contents()), now) && |r| == |ready|
    {
      ghost var q, valid := Contents(), Valid() && horizon <= now;
      if |workload| == 0 {
        if valid {
          NothingDue(workload, q);
          horizon := now;
        }
        return [];
      }
      UpdateReadyModels(now);
      if |ready| == 0 { return []; }
      if valid {
        ReadyInOrder(workload, Contents());
        SortedStays(ready, ReadyTime);
      }
      SortAscends(ready, ReadyTime);
      ready := SortBy(ready, ReadyTime);
      r := seq(|ready|, k requires 0 <= k < |ready| reads this => (ready[k].entry.name, ready[k].entry.inputs, ready[k].entry.idx));
    }

    method MarkModelInjected(idx: int)
      modifies this`ready, this`injected
      ensures injected == old(injected) + {idx} && ready == Without(old(ready), idx)
    {
      injected := injected + {idx};
      ready := Without(ready, idx);
    }

    /** The count the simulation loop waits for; with unique ids, how many entries are still to come. */
    method GetRemainingCount() returns (n: int)
      ensures n == |workload| - |injected|
      ensures Valid() ==> n == |Ids(workload) - injected|
      ensures Valid() ==> (n == 0 <==> forall k | 0 <= k < |workload| :: workload[k].idx in injected)
    {
      n := |workload| - |injected|;
      if Valid() { RemainingIsUninjected(workload, injected); }
    }
  }

  lemma RemainingIsUninjected(w: seq<Entry>, injected: set<int>)
    requires UniqueIds(w) && injected <= Ids(w)
    ensures |w| - |injected| == |Ids(w) - injected|
    ensures |w| - |injected| == 0 <==> forall k | 0 <= k < |w| :: w[k].idx in injected
  {
    IdsCount(w);
    assert Ids(w) == injected + (Ids(w) - injected);
    IdsMembers(w);
    if |w| == |injected| { assert Ids(w) - injected == {}; }
    if forall k | 0 <= k < |w| :: w[k].idx in injected {
      forall x | x in Ids(w) ensures x in injected {
        var k :| 0 <= k < |w| && w[k].idx == x;
      }
      assert Ids(w) - injected == {};
    }
  }

  /** After the first `k` entries have been looked at: those due and not injected are listed, and what
      was added are such entries, each under an id not listed before it. */
  ghost predicate Caught(w: seq<Entry>, was: seq<Waiting>, ready: seq<Waiting>, injected: set<int>, now: real, k: nat)
  {
    && k <= |w| && was <= ready
    && (forall j | 0 <= j < k && w[j].time <= now && w[j].idx !in injected :: Waits(ready, w[j].idx))
    && (forall m | |was| <= m < |ready| ::
          && ready[m].age == 0 && ready[m].entry in w && ready[m].entry.time <= now && ready[m].entry.idx !in injected
          && !Waits(ready[..m], ready[m].entry.idx))
  }

  lemma CatchOne(w: seq<Entry>, was: seq<Waiting>, ready: seq<Waiting>, injected: set<int>, now: real, k: nat)
    requires k < |w| && Caught(w, was, ready, injected, now, k)
    ensures var e := w[k];
            Caught(w, was, if e.idx in injected || Waits(ready, e.idx) || e.time > now then ready else ready + [Waiting(e, 0)],
                   injected, now, k + 1)
  {
    var e := w[k];
    if !(e.idx in injected || Waits(ready, e.idx) || e.time > now) {
      var r := ready + [Waiting(e, 0)];
      forall x | Waits(ready, x) ensures Waits(r, x) {
        var m: nat :| m < |ready| && ready[m].entry.idx == x;
        assert r[m].entry.idx == x;
      }
      assert r[|ready|].entry.idx == e.idx;
      forall m | |was| <= m < |r|
        ensures r[m].age == 0 && r[m].entry in w && r[m].entry.time <= now && r[m].entry.idx !in injected
        ensures !Waits(r[..m], r[m].entry.idx)
      {
        if m < |ready| { assert r[..m] == ready[..m]; } else { assert r[..m] == ready; }
      }
    }
  }

  lemma NothingDue(w: seq<Entry>, q: Queue)
    requires QueueOk(w, q) && w == []
    ensures q.ready == []
  {
    assert |Entries(q.ready)| == 0;
  }

  /** The first waiting model with this id, one failure older. */
  function Aged(ready: seq<Waiting>, idx: int): seq<Waiting> {
    if ready == [] then []
    else if ready[0].entry.idx == idx then [ready[0].(age := ready[0].age + 1)] + ready[1..]
    else [ready[0]] + Aged(ready[1..], idx)
  }

  function Without(ready: seq<Waiting>, idx: int): seq<Waiting> {
    if ready == [] then []
    else if ready[0].entry.idx == idx then Without(ready[1..], idx)
    else [ready[0]] + Without(ready[1..], idx)
  }

  /** The scan skips exactly the entries that were due before: those and the injected ones. */
  lemma WaitsIffDue(w: seq<Entry>, q: Queue, now: real, k: nat)
    requires QueueOk(w, q) && q.horizon <= now && k < |w|
    ensures var r := q.ready + Fresh(NewlyDue(w[..k], q.injected, q.horizon, now));
            w[k].idx in q.injected || Waits(r, w[k].idx) <==> w[k].idx in q.injected || w[k].time <= q.horizon
  {
    var added := NewlyDue(w[..k], q.injected, q.horizon, now);
    var r := q.ready + Fresh(added);
    DueMembers(w, q.injected, q.horizon);
    NewMembers(w[..k], q.injected, q.horizon, now);
    forall m | 0 <= m < |added| ensures added[m].idx != w[k].idx {
      assert added[m] in w[..k];
      var j :| 0 <= j < k && w[j] == added[m];
    }
    if Waits(r, w[k].idx) {
      var m: nat :| m < |r| && r[m].entry.idx == w[k].idx;
      assert m < |q.ready|;
      assert Entries(q.ready)[m] in Due(w, q.injected, q.horizon);
      var j :| 0 <= j < |w| && w[j] == q.ready[m].entry;
      assert j == k;
    }
    if w[k].time <= q.horizon && w[k].idx !in q.injected {
      assert w[k] in Due(w, q.injected, q.horizon);
      var m :| 0 <= m < |q.ready| && Entries(q.ready)[m] == w[k];
      assert r[m].entry.idx == w[k].idx;
    }
  }

  /** What looking at one more entry adds to the waiting list. */
  lemma OneMoreDue(w: seq<Entry>, q: Queue, now: real, k: nat)
    requires QueueOk(w, q) && q.horizon <= now && k < |w|
    ensures var r := q.ready + Fresh(NewlyDue(w[..k], q.injected, q.horizon, now));
            q.ready + Fresh(NewlyDue(w[..k + 1], q.injected, q.horizon, now)) ==
              if w[k].idx in q.injected || Waits(r, w[k].idx) || w[k].time > now then r else r + [Waiting(w[k], 0)]
  {
    WaitsIffDue(w, q, now, k);
    assert w[..k + 1][..k] == w[..k];
    hide Waits, QueueOk;
    var before := NewlyDue(w[..k], q.injected, q.horizon, now);
    assert Fresh(before + [w[k]]) == Fresh(before) + [Waiting(w[k], 0)];
  }

  lemma {:induction false} AgedAt(ready: seq<Waiting>, idx: int, k: nat)
    requires k < |ready| && ready[k].entry.idx == idx && forall m | 0 <= m < k :: ready[m].entry.idx != idx
    ensures Aged(ready, idx) == ready[k := ready[k].(age := ready[k].age + 1)]
    decreases k
  {
    if k > 0 { AgedAt(ready[1..], idx, k - 1); }
  }

  lemma {:induction false} AgedNowhere(ready: seq<Waiting>, idx: int)
    requires forall m | 0 <= m < |ready| :: ready[m].entry.idx != idx
    ensures Aged(ready, idx) == ready
    decreases |ready|
  {
    if ready != [] { AgedNowhere(ready[1..], idx); }
  }

  lemma {:induction false} NewMembers(w: seq<Entry>, injected: set<int>, horizon: real, now: real)
    ensures forall e | e in NewlyDue(w, injected, horizon, now) :: e in w
    decreases |w|
  {
    if w != [] { NewMembers(w[..|w| - 1], injected, horizon, now); }
  }

  /** The waiting list is already in the order the sort asks for. */
  lemma ReadyInOrder(w: seq<Entry>, q: Queue)
    requires QueueOk(w, q)
    ensures Ascending(q.ready, ReadyTime)
  {
    DueOrder(w, q.injected, q.horizon);
    forall j, k | 0 <= j < k < |q.ready| ensures ReadyTime(q.ready[j]) <= ReadyTime(q.ready[k]) {
      assert Entries(q.ready)[j].time <= Entries(q.ready)[k].time;
    }
  }

  // ---------------------------------------------------------------- counting what remains

  function Ids(w: seq<Entry>): set<int> {
    if w == [] then {} else Ids(w[..|w| - 1]) + {w[|w| - 1].idx}
  }

  lemma {:induction false} IdsMembers(w: seq<Entry>)
    ensures forall k | 0 <= k < |w| :: w[k].idx in Ids(w)
    ensures forall x | x in Ids(w) :: exists k :: 0 <= k < |w| && w[k].idx == x
    decreases |w|
  {
    if w != [] {
      var front := w[..|w| - 1];
      IdsMembers(front);
      forall k | 0 <= k < |w| ensures w[k].idx in Ids(w) {
        if k < |front| { assert front[k].idx in Ids(front); }
      }
      forall x | x in Ids(w) ensures exists k :: 0 <= k < |w| && w[k].idx == x {
        if x in Ids(front) {
          var k :| 0 <= k < |front| && front[k].idx == x;
          assert w[k].idx == x;
        }
      }
    }
  }

  /** The loop's count of remaining entries can reach zero exactly when ids are unique. */
  lemma {:induction false} IdsCount(w: seq<Entry>)
    ensures |Ids(w)| <= |w|
    ensures |Ids(w)| == |w| <==> UniqueIds(w)
    decreases |w|
  {
    if w != [] {
      hide UniqueIds;
      IdsCount(w[..|w| - 1]);
      UniqueOneMore(w);
    } else {
      assert UniqueIds(w);
    }
  }

  lemma UniqueOneMore(w: seq<Entry>)
    requires w != []
    ensures UniqueIds(w) <==> UniqueIds(w[..|w| - 1]) && w[|w| - 1].idx !in Ids(w[..|w| - 1])
  {
    var front, last := w[..|w| - 1], w[|w| - 1];
    IdsMembers(front);
    hide Ids;
    if last.idx in Ids(front) {
      var k :| 0 <= k < |front| && front[k].idx == last.idx;
      assert w[k].idx == w[|w| - 1].idx;
    } else {
      assert w == front + [last];
    }
  }

  /** With a repeated id the count stays positive however much has been injected, so the loop
      that waits for it never ends. */
  lemma RepeatedIdNeverEnds(w: seq<Entry>, injected: set<int>)
    requires injected <= Ids(w)
    ensures !UniqueIds(w) ==> |w| - |injected| > 0
    ensures UniqueIds(w) ==> (|w| - |injected| == 0 <==> injected == Ids(w))
  {
    IdsCount(w);
    assert Ids(w) == injected + (Ids(w) - injected);
    if |injected| == |Ids(w)| { assert |Ids(w) - injected| == 0; }
  }

  lemma {:induction false} IdsBySet(w: seq<Entry>)
    ensures Ids(w) == set e | e in w :: e.idx
    decreases |w|
  {
    IdsMembers(w);
    forall x ensures x in Ids(w) <==> x in (set e | e in w :: e.idx) {
      if x in Ids(w) {
        var k :| 0 <= k < |w| && w[k].idx == x;
        assert w[k] in w;
      }
      if x in (set e | e in w :: e.idx) {
        var e :| e in w && e.idx == x;
        var k :| 0 <= k < |w| && w[k] == e;
        assert w[k].idx in Ids(w);
      }
    }
  }

  lemma SortKeepsIds(rows: seq<Entry>)
    ensures (UniqueIds(rows) <==> UniqueIds(SortBy(rows, TimeOf))) && ByTime(SortBy(rows, TimeOf))
    ensures Ids(SortBy(rows, TimeOf)) == Ids(rows)
  {
    var w := SortBy(rows, TimeOf);
    SortAscends(rows, TimeOf);
    hide SortBy, Ids, UniqueIds;
    PermutedIds(w, rows);
    IdsCount(w);
    IdsCount(rows);
    forall j, k | 0 <= j < k < |w| ensures w[j].time <= w[k].time {
      assert TimeOf(w[j]) <= TimeOf(w[k]);
    }
  }

  lemma PermutedIds(w: seq<Entry>, rows: seq<Entry>)
    requires multiset(w) == multiset(rows)
    ensures Ids(w) == Ids(rows) && |w| == |rows|
  {
    hide Ids;
    PermutedMembers(w, rows);
    IdsBySet(w);
    IdsBySet(rows);
    assert (set e | e in w :: e.idx) == (set e | e in rows :: e.idx);
  }
}
