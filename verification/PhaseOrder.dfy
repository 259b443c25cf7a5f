/** The depth-first ordering of phases by their dependencies (mapped_model.py, _sort_execution_order). */
module PhaseOrder {

  /** `g[p]` lists the phases that phase `p` waits for. */
  type Graph = seq<seq<nat>>

  ghost predicate Closed(g: Graph) {
    forall p: nat, k: nat | p < |g| && k < |g[p]| :: g[p][k] < |g|
  }

  ghost predicate NoDuplicates(s: seq<nat>) {
    forall j, k | 0 <= j < k < |s| :: s[j] != s[k]
  }

  ghost predicate Permutation(g: Graph, order: seq<nat>) {
    && NoDuplicates(order)
    && (forall k | 0 <= k < |order| :: order[k] < |g|)
    && (forall p: nat | p < |g| :: p in order)
  }

  /** Everything an entry waits for comes before it. */
  ghost predicate Ordered(g: Graph, order: seq<nat>)
    requires forall k | 0 <= k < |order| :: order[k] < |g|
  {
    forall k, d | 0 <= k < |order| && d in g[order[k]] :: d in order[..k]
  }

  // ---------------------------------------------------------------- cycles

  ghost predicate IsWalk(g: Graph, w: seq<nat>) {
    |w| >= 2 && forall k | 0 <= k < |w| - 1 :: w[k] < |g| && w[k + 1] in g[w[k]]
  }

  ghost predicate Reaches(g: Graph, a: nat, b: nat) {
    exists w :: IsWalk(g, w) && w[0] == a && w[|w| - 1] == b
  }

  ghost predicate Acyclic(g: Graph) {
    forall p: nat :: !Reaches(g, p, p)
  }

  lemma StepReaches(g: Graph, a: nat, b: nat)
    requires a < |g| && b in g[a]
    ensures Reaches(g, a, b)
  {
    assert IsWalk(g, [a, b]);
  }

  lemma ReachesStep(g: Graph, a: nat, b: nat, d: nat)
    requires Reaches(g, a, b) && b < |g| && d in g[b]
    ensures Reaches(g, a, d)
  {
    var w :| IsWalk(g, w) && w[0] == a && w[|w| - 1] == b;
    var v := w + [d];
    forall k | 0 <= k < |v| - 1 ensures v[k] < |g| && v[k + 1] in g[v[k]] {
      if k < |w| - 1 { assert v[k] == w[k] && v[k + 1] == w[k + 1]; }
    }
    assert IsWalk(g, v);
  }

  /** A number that drops along every dependency rules out cycles. */
  lemma {:induction false} RankDrops(g: Graph, rank: seq<int>, w: seq<nat>, k: nat)
    requires |rank| == |g| && Closed(g) && IsWalk(g, w) && k < |w|
    requires forall p: nat, d | p < |g| && d in g[p] :: d < |g| && rank[d] < rank[p]
    ensures w[k] < |g| && rank[w[k]] <= rank[w[0]] - k
    decreases k
  {
    if k > 0 {
      RankDrops(g, rank, w, k - 1);
      assert w[k - 1 + 1] in g[w[k - 1]];
    }
  }

  lemma RankedIsAcyclic(g: Graph, rank: seq<int>)
    requires |rank| == |g| && Closed(g)
    requires forall p: nat, d | p < |g| && d in g[p] :: d < |g| && rank[d] < rank[p]
    ensures Acyclic(g)
  {
    forall p: nat ensures !Reaches(g, p, p) {
      if w :| IsWalk(g, w) && w[0] == p && w[|w| - 1] == p {
        RankDrops(g, rank, w, |w| - 1);
      }
    }
  }

  /** Along a walk, positions in an ordered permutation go down. */
  lemma {:induction false} WalkGoesBack(g: Graph, order: seq<nat>, w: seq<nat>, k: nat, at: nat)
    requires Permutation(g, order) && Ordered(g, order) && IsWalk(g, w) && 0 < k < |w|
    requires at < |order| && order[at] == w[0]
    ensures w[k] in order[..at]
    decreases k
  {
    if k == 1 {
      assert w[0 + 1] in g[w[0]];
    } else {
      WalkGoesBack(g, order, w, k - 1, at);
      var j :| 0 <= j < at && order[j] == w[k - 1];
      assert w[k - 1 + 1] in g[w[k - 1]];
      assert w[k] in order[..j];
    }
  }

  /** Only an acyclic graph can be ordered. */
  lemma OrderedIsAcyclic(g: Graph, order: seq<nat>)
    requires Permutation(g, order) && Ordered(g, order)
    ensures Acyclic(g)
  {
    forall p: nat ensures !Reaches(g, p, p) {
      if w :| IsWalk(g, w) && w[0] == p && w[|w| - 1] == p {
        assert w[0] < |g| && p in order;
        var at :| 0 <= at < |order| && order[at] == p;
        WalkGoesBack(g, order, w, |w| - 1, at);
      }
    }
  }

  // ---------------------------------------------------------------- the sort

  ghost function Elements(s: seq<nat>): set<nat> {
    set k | 0 <= k < |s| :: s[k]
  }

  function Ids(n: nat): (ids: set<nat>)
    ensures forall p: nat :: p in ids <==> p < n
  {
    if n == 0 then {} else Ids(n - 1) + {n - 1}
  }

  /** Between calls, `visited` is what has been emitted plus the phases still being expanded. */
  ghost predicate Consistent(g: Graph, visited: set<nat>, order: seq<nat>, open: set<nat>) {
    && visited == Elements(order) + open && Elements(order) !! open
    && visited <= Ids(|g|) && NoDuplicates(order)
    && (forall k | 0 <= k < |order| :: order[k] < |g|)
  }

  /** Expands one phase: first everything it waits for, then itself.  The visited mark is set
      before the dependencies are followed, so this ends on every graph. */
  method Visit(g: Graph, visited: set<nat>, order: seq<nat>, p: nat, ghost open: set<nat>)
    returns (visited': set<nat>, order': seq<nat>)
    requires Closed(g) && p < |g| && Consistent(g, visited, order, open)
    ensures Consistent(g, visited', order', open) && visited + {p} <= visited'
    ensures order <= order'
    ensures Acyclic(g) && Ordered(g, order) && (forall q | q in open :: Reaches(g, q, p)) ==> Ordered(g, order') && p in order'
    decreases Ids(|g|) - visited, 0
  {
    visited', order' := visited, order;
    ghost var ok := Acyclic(g) && Ordered(g, order) && forall q | q in open :: Reaches(g, q, p);
    if p in visited {
      if ok && p in open { assert false; }
      return;
    }
    visited' := visited + {p};
    visited', order' := VisitAll(g, visited', order, g[p], p, open + {p}, ok);
    Append(g, visited', order', p, open);
    order' := order' + [p];
  }

  lemma Append(g: Graph, visited: set<nat>, order: seq<nat>, p: nat, open: set<nat>)
    requires p < |g| && p !in open && Consistent(g, visited, order, open + {p})
    ensures Consistent(g, visited, order + [p], open)
    ensures Ordered(g, order) && (forall d | d in g[p] :: d in order) ==> Ordered(g, order + [p])
  {
    var next := order + [p];
    assert Elements(next) == Elements(order) + {p} by {
      forall x ensures x in Elements(next) <==> x in Elements(order) + {p} {
        if x in Elements(order) {
          var k :| 0 <= k < |order| && order[k] == x;
          assert next[k] == x;
        }
        assert next[|order|] == p;
      }
    }
    assert forall k | 0 <= k < |order| :: order[k] in Elements(order);
    if Ordered(g, order) && forall d | d in g[p] :: d in order {
      forall k, d | 0 <= k < |next| && d in g[next[k]] ensures d in next[..k] {
        if k < |order| {
          assert next[..k] == order[..k];
        } else {
          assert next[..k] == order;
        }
      }
    }
  }

  method VisitAll(g: Graph, visited: set<nat>, order: seq<nat>, deps: seq<nat>, ghost p: nat, ghost open: set<nat>, ghost ok: bool)
    returns (visited': set<nat>, order': seq<nat>)
    requires Closed(g) && p < |g| && deps == g[p] && Consistent(g, visited, order, open) && p in open
    requires ok ==> Acyclic(g) && Ordered(g, order) && forall q | q in open && q != p :: Reaches(g, q, p)
    ensures Consistent(g, visited', order', open) && visited <= visited'
    ensures order <= order'
    ensures ok ==> Ordered(g, order') && forall d | d in deps :: d in order'
    decreases Ids(|g|) - visited, 1
  {
    visited', order' := visited, order;
    for k := 0 to |deps|
      invariant Consistent(g, visited', order', open) && visited <= visited' && order <= order'
      invariant ok ==> Ordered(g, order') && forall d | d in deps[..k] :: d in order'
    {
      var d := deps[k];
      if ok {
        forall q | q in open ensures Reaches(g, q, d) {
          if q == p { StepReaches(g, p, d); } else { ReachesStep(g, q, p, d); }
        }
      }
      ghost var before := order';
      visited', order' := Visit(g, visited', order', d, open);
      assert deps[..k + 1] == deps[..k] + [d];
    }
    assert deps[..|deps|] == deps;
  }

  /** The order is always a permutation of the phases, and it respects the dependencies exactly
      when they have no cycle. */
  method SortPhases(g: Graph) returns (order: seq<nat>)
    requires Closed(g)
    ensures Permutation(g, order)
    ensures Ordered(g, order) <==> Acyclic(g)
  {
    var visited: set<nat> := {};
    order := [];
    for p := 0 to |g|
      invariant Consistent(g, visited, order, {}) && (forall q: nat | q < p :: q in visited)
      invariant Acyclic(g) ==> Ordered(g, order)
    {
      visited, order := Visit(g, visited, order, p, {});
    }
    forall p: nat | p < |g| ensures p in order {
      assert p in Elements(order);
    }
    if Ordered(g, order) { OrderedIsAcyclic(g, order); }
  }
}
