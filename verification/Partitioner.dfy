/** Splitting a layer's output channels over its chiplets (layer_partitioner.py): shares are rounded
    one by one and the total is repaired in place afterwards. */
module Partitioner {
  import opened Numbers
  import opened Sorting

  function Total(v: seq<int>): int {
    if v == [] then 0 else Total(v[..|v| - 1]) + v[|v| - 1]
  }

  lemma {:induction false} TotalUpdate(v: seq<int>, k: nat, x: int)
    requires k < |v|
    ensures Total(v[k := x]) == Total(v) - v[k] + x
    decreases |v|
  {
    var n := |v| - 1;
    if k < n {
      assert v[k := x][..n] == v[..n][k := x];
      TotalUpdate(v[..n], k, x);
    } else {
      assert v[k := x][..n] == v[..n];
    }
  }

  lemma {:induction false} TotalAtLeast(v: seq<int>)
    requires AllPositive(v)
    ensures Total(v) >= |v|
    ensures Total(v) == |v| <==> forall k | 0 <= k < |v| :: v[k] == 1
    decreases |v|
  {
    if v != [] {
      var n := |v| - 1;
      TotalAtLeast(v[..n]);
      if forall k | 0 <= k < |v| :: v[k] == 1 { assert forall k | 0 <= k < n :: v[..n][k] == 1; }
      if Total(v) == |v| {
        forall k | 0 <= k < |v| ensures v[k] == 1 { assert k < n ==> v[..n][k] == 1; }
      }
    }
  }

  predicate AllPositive(v: seq<int>) {
    forall k | 0 <= k < |v| :: v[k] >= 1
  }

  /** One chiplet's share of the channels, never less than one. */
  function Share(channels: int, percent: real): int {
    MaxInt(1, Round(channels as real * percent / 100.0))
  }

  function Shares(channels: int, percents: seq<real>): seq<int> {
    seq(|percents|, k requires 0 <= k < |percents| => Share(channels, percents[k]))
  }

  /** Each chunk is the whole number nearest to its share of the channels, and at least one. */
  ghost predicate NearShares(channels: int, percents: seq<real>, v: seq<int>) {
    |v| == |percents| && forall k | 0 <= k < |v| :: NearestPositive(v[k], Part(channels, percents[k]))
  }

  /** The percentage of the channels, unrounded. */
  function Part(channels: int, percent: real): real {
    channels as real * percent / 100.0
  }

  lemma SharesAreNear(channels: int, percents: seq<real>)
    ensures NearShares(channels, percents, Shares(channels, percents))
  {
    hide NearestPositive, Share, Part;
    forall k | 0 <= k < |percents| ensures NearestPositive(Shares(channels, percents)[k], Part(channels, percents[k])) {
      ShareIsNear(channels, percents[k]);
    }
  }

  lemma ShareIsNear(channels: int, percent: real)
    ensures NearestPositive(Share(channels, percent), Part(channels, percent))
  {
    hide NearestPositive, Round;
    RoundPositive(channels as real * percent / 100.0);
  }

  /** The first smallest entry. */
  ghost predicate FirstSmallest(v: seq<int>, k: nat) {
    && k < |v| && (forall j | 0 <= j < |v| :: v[k] <= v[j]) && forall j | 0 <= j < k :: v[k] < v[j]
  }

  ghost predicate FirstLargest(v: seq<int>, k: nat) {
    && k < |v| && (forall j | 0 <= j < |v| :: v[j] <= v[k]) && forall j | 0 <= j < k :: v[j] < v[k]
  }

  // ---------------------------------------------------------------- too few channels

  /** The first smallest chunk takes all that is missing. */
  ghost predicate RaisedAt(was: seq<int>, v: seq<int>, channels: int, k: nat) {
    FirstSmallest(was, k) && v == was[k := was[k] + (channels - Total(was))]
  }

  method HandleTooFew(a: array<int>, difference: int) returns (ghost k: nat)
    modifies a
    ensures a.Length > 0 ==> RaisedAt(old(a[..]), a[..], Total(old(a[..])) + difference, k)
    ensures a.Length == 0 ==> a[..] == old(a[..])
  {
    hide Total;
    k := 0;
    if a.Length == 0 { return; }
    var least := 0;
    for i := 1 to a.Length
      invariant least < i && (forall j | 0 <= j < i :: a[least] <= a[j]) && forall j | 0 <= j < least :: a[least] < a[j]
      invariant a[..] == old(a[..])
    {
      if a[i] < a[least] { least := i; }
    }
    k := least;
    assert FirstSmallest(a[..], least);
    a[least] := a[least] + difference;
    assert a[..] == old(a[..])[least := old(a[least]) + difference];
  }

  // ---------------------------------------------------------------- too many channels

  /** The chunks of `order` before position `n` have been cut, largest first: a chunk is cut only
      after all chunks before it are down to one; the rest are as they were, and `left` is still to go. */
  ghost predicate CutDown(was: seq<int>, v: seq<int>, order: seq<nat>, n: nat, left: int) {
    && |v| == |was| && n <= |order| && left >= 0 && AllPositive(v)
    && (forall m | 0 <= m < |order| :: order[m] < |v|)
    && (forall k | 0 <= k < |v| :: v[k] <= was[k])
    && (forall m | 0 <= m < n :: left > 0 ==> v[order[m]] == 1)
    && (forall m | n <= m < |order| :: v[order[m]] == was[order[m]])
    && (forall j, m | 0 <= j < m < |order| :: v[order[m]] != was[order[m]] ==> v[order[j]] == 1)
    && (forall k: nat | k < |v| && k !in order :: v[k] == was[k])
  }

  ghost predicate Listing(order: seq<nat>, n: nat, excluded: nat) {
    && (forall m | 0 <= m < |order| :: order[m] < n && order[m] != excluded)
    && (forall j, m | 0 <= j < m < |order| :: order[j] != order[m])
    && forall k: nat | k < n && k != excluded :: k in order
  }

  function BySize(v: seq<int>): nat -> real {
    (k: nat) => if k < |v| then -(v[k] as real) else 0.0
  }

  function Others(n: nat, excluded: nat): seq<nat> {
    if n == 0 then [] else if n - 1 == excluded then Others(n - 1, excluded) else Others(n - 1, excluded) + [n - 1]
  }

  lemma {:induction false} OthersListed(n: nat, excluded: nat)
    ensures Listing(Others(n, excluded), n, excluded)
    decreases n
  {
    if n > 0 { OthersListed(n - 1, excluded); }
  }

  lemma {:induction false} DistinctCounts(s: seq<nat>)
    requires forall j, m | 0 <= j < m < |s| :: s[j] != s[m]
    ensures forall x :: multiset(s)[x] <= 1
    decreases |s|
  {
    if s != [] {
      var front, last := s[..|s| - 1], s[|s| - 1];
      DistinctCounts(front);
      assert s == front + [last] && last !in front;
      assert last !in multiset(front);
    }
  }

  lemma CountsDistinct(s: seq<nat>)
    requires forall x :: multiset(s)[x] <= 1
    ensures forall j, m | 0 <= j < m < |s| :: s[j] != s[m]
  {
    forall j, m | 0 <= j < m < |s| ensures s[j] != s[m] {
      assert s == s[..m] + s[m..] && s[j] == s[..m][j] && s[m] == s[m..][0];
      assert s[j] in multiset(s[..m]) && s[m] in multiset(s[m..]);
      assert multiset(s) == multiset(s[..m]) + multiset(s[m..]);
      assert multiset(s)[s[j]] >= multiset(s[..m])[s[j]] >= 1;
    }
  }

  /** Sorting the other chunks by size still lists each of them once. */
  lemma SortedListing(order: seq<nat>, n: nat, excluded: nat, key: nat -> real)
    requires Listing(order, n, excluded)
    ensures Listing(SortBy(order, key), n, excluded) && Ascending(SortBy(order, key), key)
  {
    var sorted := SortBy(order, key);
    SortAscends(order, key);
    hide SortBy, Ascending;
    PermutedMembers(sorted, order);
    DistinctCounts(order);
    CountsDistinct(sorted);
    forall m | 0 <= m < |sorted| ensures sorted[m] < n && sorted[m] != excluded {
      assert sorted[m] in order;
    }
  }

  lemma ListedOnce(order: seq<nat>, count: nat, excluded: nat, n: nat)
    requires Listing(order, count, excluded) && n < |order|
    ensures forall m | 0 <= m < |order| && m != n :: order[m] != order[n]
  {
  }

  lemma CutOne(was: seq<int>, v: seq<int>, order: seq<nat>, n: nat, left: int, excluded: nat)
    requires CutDown(was, v, order, n, left) && Listing(order, |v|, excluded) && n < |order|
    ensures var c := order[n]; var cut := MinInt(v[c] - 1, left);
            && CutDown(was, v[c := v[c] - cut], order, n + 1, left - cut)
            && Total(v[c := v[c] - cut]) == Total(v) - cut
  {
    hide Total, Listing, CutDown;
    InRange(was, v, order, n, left);
    var c := order[n];
    TotalUpdate(v, c, v[c] - MinInt(v[c] - 1, left));
    ListedOnce(order, |v|, excluded, n);
    CutHere(was, v, order, n, left);
  }

  lemma CutHere(was: seq<int>, v: seq<int>, order: seq<nat>, n: nat, left: int)
    requires CutDown(was, v, order, n, left) && n < |order| && forall m | 0 <= m < |order| && m != n :: order[m] != order[n]
    ensures var c := order[n]; var cut := MinInt(v[c] - 1, left);
            CutDown(was, v[c := v[c] - cut], order, n + 1, left - cut)
  {
    var c := order[n];
    var v' := v[c := v[c] - MinInt(v[c] - 1, left)];
    assert forall m | 0 <= m < |order| && m != n :: v'[order[m]] == v[order[m]];
    assert left > 0 ==> forall m | 0 <= m < n :: v[order[m]] == 1;
  }

  /** Takes what is still too much from the other chunks, largest first. */
  method DistributeRemaining(a: array<int>, excluded: nat, remaining: int) returns (ghost order: seq<nat>, ghost left: int)
    requires excluded < a.Length && AllPositive(a[..]) && remaining < 0
    modifies a
    ensures Listing(order, a.Length, excluded) && Ascending(order, BySize(old(a[..])))
    ensures exists n: nat :: CutDown(old(a[..]), a[..], order, n, left) && (left == 0 || n == |order|)
    ensures Total(a[..]) == Total(old(a[..])) + remaining + left
  {
    hide CutDown, Listing, Total, Ascending, SortBy;
    ghost var was := a[..];
    var sorted := SortBy(Others(a.Length, excluded), BySize(a[..]));
    OthersListed(a.Length, excluded);
    SortedListing(Others(a.Length, excluded), a.Length, excluded, BySize(a[..]));
    order := sorted;
    CutNothing(was, sorted, excluded, -remaining);
    var rem := remaining;
    var i := 0;
    while i < |sorted| && rem != 0
      invariant i <= |sorted| && CutDown(was, a[..], sorted, i, -rem)
      invariant Total(a[..]) == Total(was) + remaining - rem
    {
      ghost var here := a[..];
      CutOne(was, here, sorted, i, -rem, excluded);
      var c := sorted[i];
      InRange(was, here, sorted, i, -rem);
      var cut := MinInt(a[c] - 1, -rem);
      if cut > 0 {
        a[c] := a[c] - cut;
        rem := rem + cut;
      }
      assert a[..] == here[c := here[c] - cut];
      i := i + 1;
    }
    left := -rem;
  }

  lemma CutNothing(was: seq<int>, order: seq<nat>, excluded: nat, left: int)
    requires AllPositive(was) && Listing(order, |was|, excluded) && left >= 0
    ensures CutDown(was, was, order, 0, left)
  {
  }

  lemma InRange(was: seq<int>, v: seq<int>, order: seq<nat>, n: nat, left: int)
    requires CutDown(was, v, order, n, left) && n < |order|
    ensures order[n] < |v| && v[order[n]] >= 1 && left >= 0
  {
  }

  /** What is cut when there are too many channels: the first largest chunk as far as it will go,
      then the others. */
  ghost predicate CutFrom(was: seq<int>, v: seq<int>, channels: int, k: nat) {
    && |v| == |was| && FirstLargest(was, k) && v[k] == MaxInt(1, was[k] - (Total(was) - channels))
    && (forall j | 0 <= j < |v| :: v[j] <= was[j])
    && (forall j | 0 <= j < |v| && j != k :: v[j] != was[j] ==> v[k] == 1)
    && AllPositive(v)
    && Total(v) == MaxInt(channels, |v|)
  }

  lemma CutSettled(was: seq<int>, mid: seq<int>, v: seq<int>, k: nat, excess: int, order: seq<nat>, n: nat, left: int)
    requires FirstLargest(was, k) && AllPositive(was) && excess > 0 && was[k] - excess < 1 && mid == was[k := 1]
    requires Listing(order, |was|, k) && CutDown(mid, v, order, n, left) && (left == 0 || n == |order|)
    requires Total(v) == Total(mid) - (excess - (was[k] - 1)) + left
    ensures CutFrom(was, v, Total(was) - excess, k)
  {
    hide Total, Listing, CutDown;
    CutFacts(mid, v, k, order, n, left);
    TotalUpdate(was, k, 1);
    TotalAtLeast(v);
  }

  /** A chunk that was left out of the order is as it was; if there is still something to go, all
      chunks of the order are down to one. */
  lemma CutFacts(mid: seq<int>, v: seq<int>, k: nat, order: seq<nat>, n: nat, left: int)
    requires k < |mid| && mid[k] == 1 && Listing(order, |mid|, k) && CutDown(mid, v, order, n, left) && (left == 0 || n == |order|)
    ensures |v| == |mid| && AllPositive(v) && left >= 0 && v[k] == 1 && forall j | 0 <= j < |v| :: v[j] <= mid[j]
    ensures left > 0 ==> forall j | 0 <= j < |v| :: v[j] == 1
  {
    assert k !in order;
    if left > 0 {
      forall j | 0 <= j < |v| ensures v[j] == 1 {
        if j != k {
          assert j in order;
          var m :| 0 <= m < |order| && order[m] == j;
        }
      }
    }
  }

  method LargestChunk(a: array<int>) returns (most: nat)
    requires a.Length > 0
    ensures FirstLargest(a[..], most)
  {
    most := 0;
    for i := 1 to a.Length
      invariant most < i && (forall j | 0 <= j < i :: a[j] <= a[most]) && forall j | 0 <= j < most :: a[j] < a[most]
    {
      if a[i] > a[most] { most := i; }
    }
  }

  method HandleTooMany(a: array<int>, difference: int) returns (ghost k: nat)
    requires AllPositive(a[..]) && difference < 0 && a.Length > 0
    modifies a
    ensures CutFrom(old(a[..]), a[..], Total(old(a[..])) + difference, k)
  {
    hide CutDown, Listing, Total, Ascending, CutFrom;
    var most := LargestChunk(a);
    ghost var was := a[..];
    k := most;
    var value := MaxInt(1, a[most] + difference);
    var remaining := difference - (value - a[most]);
    a[most] := value;
    ghost var mid := a[..];
    assert mid == was[most := value];
    if remaining < 0 {
      ghost var order, left := DistributeRemaining(a, most, remaining);
      ghost var n: nat :| CutDown(mid, a[..], order, n, left) && (left == 0 || n == |order|);
      CutSettled(was, mid, a[..], most, -difference, order, n, left);
    } else {
      CutLargest(was, mid, most, -difference);
    }
  }

  /** The largest chunk alone could give way. */
  lemma CutLargest(was: seq<int>, mid: seq<int>, k: nat, excess: int)
    requires FirstLargest(was, k) && AllPositive(was) && 0 < excess < was[k] && mid == was[k := was[k] - excess]
    ensures CutFrom(was, mid, Total(was) - excess, k)
  {
    hide Total;
    TotalUpdate(was, k, was[k] - excess);
    TotalAtLeast(mid);
  }

  /** What the repair leaves: no chunk is empty, the total is the layer's own unless there are more
      chunks than channels, and chunks change only where and as much as needed. */
  ghost predicate Repaired(channels: int, was: seq<int>, v: seq<int>) {
    && |v| == |was| && AllPositive(v)
    && Total(v) == (if v == [] then 0 else MaxInt(channels, |v|))
    && (Total(was) == channels ==> v == was)
    && (Total(was) < channels && was != [] ==> exists k: nat :: RaisedAt(was, v, channels, k))
    && (Total(was) > channels && was != [] ==> exists k: nat :: CutFrom(was, v, channels, k))
  }

  method AdjustForRounding(a: array<int>, channels: int)
    requires AllPositive(a[..])
    modifies a
    ensures Repaired(channels, old(a[..]), a[..])
  {
    hide CutFrom, RaisedAt, Repaired;
    ghost var was := a[..];
    var sum := TotalOf(a);
    if sum == channels {
      NothingToRepair(channels, was);
    } else {
      var difference := channels - sum;
      if difference > 0 {
        ghost var k := HandleTooFew(a, difference);
        FewRepaired(channels, was, a[..], k);
      } else if a.Length > 0 {
        ghost var k := HandleTooMany(a, difference);
        ManyRepaired(channels, was, a[..], k);
      } else {
        NoChunks(channels, was);
      }
    }
  }

  lemma NothingToRepair(channels: int, was: seq<int>)
    requires AllPositive(was) && Total(was) == channels
    ensures Repaired(channels, was, was)
  {
    TotalAtLeast(was);
  }

  lemma NoChunks(channels: int, was: seq<int>)
    requires was == []
    ensures Repaired(channels, was, was)
  {
  }

  lemma FewRepaired(channels: int, was: seq<int>, v: seq<int>, k: nat)
    requires AllPositive(was) && Total(was) < channels
    requires if was == [] then v == [] else RaisedAt(was, v, channels, k)
    ensures Repaired(channels, was, v)
  {
    TotalAtLeast(was);
    if was != [] {
      TotalUpdate(was, k, was[k] + (channels - Total(was)));
      TotalAtLeast(v);
      hide Total, FirstSmallest;
      assert RaisedAt(was, v, channels, k);
    }
  }

  lemma ManyRepaired(channels: int, was: seq<int>, v: seq<int>, k: nat)
    requires Total(was) > channels && CutFrom(was, v, channels, k)
    ensures Repaired(channels, was, v)
  {
    hide Total, FirstLargest;
  }

  method TotalOf(a: array<int>) returns (sum: int)
    ensures sum == Total(a[..])
  {
    sum := 0;
    for i := 0 to a.Length
      invariant sum == Total(a[..i])
    {
      assert a[..i + 1][..i] == a[..i];
      sum := sum + a[i];
    }
    assert a[..a.Length] == a[..];
  }

  /** Splits a layer.  The closing check that the chunks add up complains exactly when there are
      more chunks than channels (or no chunks for a layer that has channels). */
  method PartitionLayer(channels: int, percents: seq<real>) returns (chunks: array<int>, complains: bool)
    ensures fresh(chunks) && Repaired(channels, Shares(channels, percents), chunks[..])
    ensures NearShares(channels, percents, Shares(channels, percents))
    ensures Total(Shares(channels, percents)) == channels ==> NearShares(channels, percents, chunks[..])
    ensures complains <==> if percents == [] then channels != 0 else channels < |percents|
  {
    SharesAreNear(channels, percents);
    hide NearShares;
    var shares := Shares(channels, percents);
    chunks := new int[|percents|](k requires 0 <= k < |percents| => Share(channels, percents[k]));
    assert chunks[..] == shares;
    AdjustForRounding(chunks, channels);
    var sum := TotalOf(chunks);
    complains := sum != channels;
  }

  /** Channel totals, for any shares and any number of chunks. */
  lemma RepairIsExact(channels: int, percents: seq<real>, v: seq<int>)
    requires Repaired(channels, Shares(channels, percents), v) && 0 < |percents| <= channels
    ensures Total(v) == channels && AllPositive(v)
    ensures forall k | 0 <= k < |v| :: v[k] <= channels - |v| + 1
  {
    forall k | 0 <= k < |v| ensures v[k] <= channels - |v| + 1 {
      var u := v[k := 1];
      TotalUpdate(v, k, 1);
      TotalAtLeast(u);
    }
  }
}
