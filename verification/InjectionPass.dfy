/** The injection pass carried out model by model (global_manager.py): marking and ageing the
    waiting list one model at a time amounts to the pass described in Workload.dfy. */
module InjectionPass {
  import opened Workload
  import opened WorkloadManagers

  /** The first `k` models of the batch have been tried; those in `ok` got in and none blocked. */
  ghost predicate PassAt(batch: seq<Waiting>, ready: seq<Waiting>, before: set<int>, injected: set<int>,
                         ok: set<int>, threshold: int, k: nat)
  {
    && k <= |batch| && UniqueWaiting(batch)
    && ready == Kept(batch, ok, k) + batch[k..]
    && injected == before + InjectedIds(batch, ok, k)
    && AmongTried(batch, ok, k) && NoneBlocks(batch, ok, threshold, k)
  }

  ghost predicate AmongTried(batch: seq<Waiting>, ok: set<int>, k: nat)
    requires k <= |batch|
  {
    forall x | x in ok :: exists j :: 0 <= j < k && batch[j].entry.idx == x
  }

  ghost predicate NoneBlocks(batch: seq<Waiting>, ok: set<int>, threshold: int, k: nat)
    requires k <= |batch|
  {
    forall j | 0 <= j < k :: !Blocks(batch[j], ok, threshold)
  }

  /** The pass is over: the list and the injected set are as the whole pass leaves them. */
  ghost predicate PassDone(batch: seq<Waiting>, ready: seq<Waiting>, before: set<int>, injected: set<int>, ok: set<int>, threshold: int) {
    && ready == AfterPass(batch, ok, threshold)
    && injected == before + InjectedIds(batch, ok, Attempts(batch, ok, threshold, 0))
  }

  lemma {:induction false} KeptSame(batch: seq<Waiting>, ok: set<int>, ok': set<int>, k: nat)
    requires k <= |batch| && forall j | 0 <= j < k :: batch[j].entry.idx in ok <==> batch[j].entry.idx in ok'
    ensures Kept(batch, ok, k) == Kept(batch, ok', k) && InjectedIds(batch, ok, k) == InjectedIds(batch, ok', k)
    decreases k
  {
    if k > 0 { KeptSame(batch, ok, ok', k - 1); }
  }

  lemma {:induction false} WithoutAt(ready: seq<Waiting>, idx: int, k: nat)
    requires k < |ready| && ready[k].entry.idx == idx && UniqueWaiting(ready)
    ensures Without(ready, idx) == ready[..k] + ready[k + 1..]
    decreases |ready|
  {
    var rest := ready[1..];
    if k == 0 {
      WithoutNowhere(rest, idx);
    } else {
      WithoutAt(rest, idx, k - 1);
      assert ready[..k] == [ready[0]] + rest[..k - 1];
    }
  }

  lemma {:induction false} WithoutNowhere(ready: seq<Waiting>, idx: int)
    requires forall m | 0 <= m < |ready| :: ready[m].entry.idx != idx
    ensures Without(ready, idx) == ready
    decreases |ready|
  {
    if ready != [] { WithoutNowhere(ready[1..], idx); }
  }

  /** The next model of the batch is still where the models before it left it. */
  lemma NextInLine(batch: seq<Waiting>, ready: seq<Waiting>, before: set<int>, injected: set<int>, ok: set<int>, threshold: int, k: nat)
    requires PassAt(batch, ready, before, injected, ok, threshold, k) && k < |batch|
    ensures var n := |Kept(batch, ok, k)|; n < |ready| && ready[n] == batch[k] && ready[..n] == Kept(batch, ok, k) && ready[n + 1..] == batch[k + 1..]
    ensures Waits(ready, batch[k].entry.idx)
  {
    var n := |Kept(batch, ok, k)|;
    assert ready[n] == batch[k];
  }

  lemma IdsDiffer(batch: seq<Waiting>, k: nat)
    requires UniqueWaiting(batch) && k < |batch|
    ensures forall j | 0 <= j < |batch| && j != k :: batch[j].entry.idx != batch[k].entry.idx
  {
  }

  /** A model not yet tried is not among those that got in. */
  lemma NotTried(batch: seq<Waiting>, ok: set<int>, k: nat)
    requires UniqueWaiting(batch) && k < |batch| && AmongTried(batch, ok, k)
    ensures batch[k].entry.idx !in ok
  {
    IdsDiffer(batch, k);
    hide UniqueWaiting;
  }

  /** Letting the next model in changes nothing for those before it. */
  lemma OneMoreIn(batch: seq<Waiting>, ok: set<int>, threshold: int, k: nat)
    requires k < |batch| && UniqueWaiting(batch) && AmongTried(batch, ok, k) && NoneBlocks(batch, ok, threshold, k)
    ensures var idx := batch[k].entry.idx;
            && AmongTried(batch, ok + {idx}, k + 1) && NoneBlocks(batch, ok + {idx}, threshold, k + 1)
            && Kept(batch, ok + {idx}, k + 1) == Kept(batch, ok, k)
            && InjectedIds(batch, ok + {idx}, k + 1) == InjectedIds(batch, ok, k) + {idx}
  {
    var idx := batch[k].entry.idx;
    IdsDiffer(batch, k);
    hide UniqueWaiting;
    KeptSame(batch, ok, ok + {idx}, k);
    forall x | x in ok + {idx} ensures exists j :: 0 <= j < k + 1 && batch[j].entry.idx == x {
      assert x == idx ==> batch[k].entry.idx == x;
    }
  }

  /** The next model gets in. */
  lemma PassInjects(batch: seq<Waiting>, ready: seq<Waiting>, before: set<int>, injected: set<int>, ok: set<int>, threshold: int, k: nat)
    requires PassAt(batch, ready, before, injected, ok, threshold, k) && k < |batch| && UniqueWaiting(ready)
    ensures var idx := batch[k].entry.idx;
            PassAt(batch, Without(ready, idx), before, injected + {idx}, ok + {idx}, threshold, k + 1)
  {
    hide UniqueWaiting, AmongTried, NoneBlocks, Kept, InjectedIds, Without, Waits;
    NextInLine(batch, ready, before, injected, ok, threshold, k);
    WithoutAt(ready, batch[k].entry.idx, |Kept(batch, ok, k)|);
    OneMoreIn(batch, ok, threshold, k);
  }

  /** The model at position `n` fails: it stays there, one failure older. */
  lemma AgedInPlace(ready: seq<Waiting>, n: nat)
    requires n < |ready| && UniqueWaiting(ready)
    ensures Aged(ready, ready[n].entry.idx) == ready[..n] + [ready[n].(age := ready[n].age + 1)] + ready[n + 1..]
  {
    IdsDiffer(ready, n);
    hide UniqueWaiting, Aged;
    AgedAt(ready, ready[n].entry.idx, n);
  }

  /** What a failure of the next model leaves behind. */
  lemma OneMoreStays(batch: seq<Waiting>, ok: set<int>, threshold: int, k: nat)
    requires k < |batch| && UniqueWaiting(batch) && AmongTried(batch, ok, k) && NoneBlocks(batch, ok, threshold, k)
    ensures AmongTried(batch, ok, k + 1) && (!Blocks(batch[k], ok, threshold) ==> NoneBlocks(batch, ok, threshold, k + 1))
    ensures Blocks(batch[k], ok, threshold) <==> batch[k].age + 1 >= threshold
    ensures Kept(batch, ok, k + 1) == Kept(batch, ok, k) + [batch[k].(age := batch[k].age + 1)]
    ensures InjectedIds(batch, ok, k + 1) == InjectedIds(batch, ok, k)
  {
    NotTried(batch, ok, k);
    hide UniqueWaiting;
  }

  /** The next model cannot be mapped: it stays, one failure older. */
  lemma PassFails(batch: seq<Waiting>, ready: seq<Waiting>, before: set<int>, injected: set<int>, ok: set<int>, threshold: int, k: nat)
    requires PassAt(batch, ready, before, injected, ok, threshold, k) && k < |batch| && UniqueWaiting(ready)
    ensures var idx := batch[k].entry.idx; var ready' := Aged(ready, idx);
            && ready' == Kept(batch, ok, k + 1) + batch[k + 1..]
            && injected == before + InjectedIds(batch, ok, k + 1)
            && |Kept(batch, ok, k)| < |ready'|
            && ready'[|Kept(batch, ok, k)|] == batch[k].(age := batch[k].age + 1)
            && (Blocks(batch[k], ok, threshold) <==> batch[k].age + 1 >= threshold)
            && (!Blocks(batch[k], ok, threshold) ==> PassAt(batch, ready', before, injected, ok, threshold, k + 1))
  {
    hide UniqueWaiting, AmongTried, NoneBlocks, Kept, InjectedIds, Aged, Waits, Blocks;
    NextInLine(batch, ready, before, injected, ok, threshold, k);
    AgedInPlace(ready, |Kept(batch, ok, k)|);
    OneMoreStays(batch, ok, threshold, k);
  }

  lemma {:induction false} AttemptsIs(ready: seq<Waiting>, ok: set<int>, threshold: int, from: nat, n: nat)
    requires from <= n <= |ready| && (forall k | from <= k < n - 1 :: !Blocks(ready[k], ok, threshold))
    requires n == |ready| || (n > from && Blocks(ready[n - 1], ok, threshold))
    ensures Attempts(ready, ok, threshold, from) == n
    decreases n - from
  {
    if from + 1 < n { AttemptsIs(ready, ok, threshold, from + 1, n); }
  }

  /** The whole batch was tried. */
  lemma PassCompletes(batch: seq<Waiting>, ready: seq<Waiting>, before: set<int>, injected: set<int>, ok: set<int>, threshold: int)
    requires PassAt(batch, ready, before, injected, ok, threshold, |batch|)
    ensures PassDone(batch, ready, before, injected, ok, threshold)
  {
    AttemptsIs(batch, ok, threshold, 0, |batch|);
  }

  /** The pass stops at a model that blocks. */
  lemma PassStops(batch: seq<Waiting>, ready: seq<Waiting>, before: set<int>, injected: set<int>, ok: set<int>, threshold: int, k: nat)
    requires PassAt(batch, ready, before, injected, ok, threshold, k) && k < |batch| && UniqueWaiting(ready)
    requires Blocks(batch[k], ok, threshold)
    ensures PassDone(batch, Aged(ready, batch[k].entry.idx), before, injected, ok, threshold)
  {
    PassFails(batch, ready, before, injected, ok, threshold, k);
    AttemptsIs(batch, ok, threshold, 0, k + 1);
  }

  lemma PassBegins(batch: seq<Waiting>, before: set<int>, threshold: int)
    requires UniqueWaiting(batch)
    ensures PassAt(batch, batch, before, before, {}, threshold, 0)
  {
    assert batch == [] + batch[0..];
  }

  /** A failure either stops the pass, exactly when the model is now reported as blocking, or the
      pass goes on to the next model. */
  lemma FailureDecides(batch: seq<Waiting>, ready: seq<Waiting>, aged: seq<Waiting>, before: set<int>, injected: set<int>,
                       ok: set<int>, threshold: int, k: nat, blocking: bool)
    requires PassAt(batch, ready, before, injected, ok, threshold, k) && k < |batch| && UniqueWaiting(ready)
    requires aged == Aged(ready, batch[k].entry.idx) && UniqueWaiting(aged)
    requires blocking <==> exists m: nat :: m < |aged| && aged[m].entry.idx == batch[k].entry.idx && aged[m].age >= threshold
    ensures blocking ==> PassDone(batch, aged, before, injected, ok, threshold)
    ensures !blocking ==> PassAt(batch, aged, before, injected, ok, threshold, k + 1)
  {
    PassFails(batch, ready, before, injected, ok, threshold, k);
    hide PassAt;
    var n := |Kept(batch, ok, k)|;
    assert aged[n].entry.idx == batch[k].entry.idx;
    assert blocking <==> batch[k].age + 1 >= threshold;
    if blocking { PassStops(batch, ready, before, injected, ok, threshold, k); }
  }

  // ---------------------------------------------------------------- the list after each change

  lemma {:induction false} EntriesWithout(ready: seq<Waiting>, idx: int)
    ensures Entries(Without(ready, idx)) == WithoutAll(Entries(ready), {idx})
    decreases |ready|
  {
    if ready != [] {
      EntriesWithout(ready[1..], idx);
      var es := Entries(ready);
      assert es == [es[0]] + Entries(ready[1..]);
      WithoutAllSplits([es[0]], Entries(ready[1..]), {idx});
      assert [es[0]][..0] == [];
    }
  }

  /** Taking an injected model off the list keeps it in step with the workload. */
  lemma InjectOneKeepsQueue(w: seq<Entry>, q: Queue, idx: int)
    requires QueueOk(w, q)
    ensures QueueOk(w, Queue(Without(q.ready, idx), q.injected + {idx}, q.horizon))
  {
    hide Due, WithoutAll, Without, Entries;
    EntriesWithout(q.ready, idx);
    DueWithout(w, q.injected, q.horizon, {idx});
  }

  lemma {:induction false} EntriesAged(ready: seq<Waiting>, idx: int)
    ensures Entries(Aged(ready, idx)) == Entries(ready)
    decreases |ready|
  {
    if ready != [] {
      EntriesAged(ready[1..], idx);
      var rest := Entries(ready[1..]);
      assert Entries(ready) == [ready[0].entry] + rest;
      assert ready[0].entry.idx != idx ==> Entries(Aged(ready, idx)) == [ready[0].entry] + rest;
    }
  }

  lemma WaitingIsNew(w: seq<Entry>, q: Queue, k: nat)
    requires QueueOk(w, q) && k < |q.ready|
    ensures q.ready[k].entry.idx !in q.injected && q.ready[k].entry in w && q.ready[k].entry.idx in Ids(w)
  {
    DueMembers(w, q.injected, q.horizon);
    assert Entries(q.ready)[k] in Due(w, q.injected, q.horizon);
    IdsBySet(w);
  }
}
