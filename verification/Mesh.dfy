/** The mesh of chiplets: its adjacency matrix (helpers_GenerateAdjMatrix.py), the graph built from it
    (system.py), and distances in that graph. */
module Mesh {

  function Row(x: nat, i: nat): nat
    requires x > 0
  {
    i / x
  }

  function Col(x: nat, i: nat): nat
    requires x > 0
  {
    i % x
  }

  function Index(x: nat, r: nat, c: nat): nat {
    r * x + c
  }

  function Gap(a: int, b: int): nat {
    if a < b then b - a else a - b
  }

  /** Rows apart plus columns apart. */
  function Distance(x: nat, i: nat, j: nat): nat
    requires x > 0
  {
    Gap(Row(x, i), Row(x, j)) + Gap(Col(x, i), Col(x, j))
  }

  // ---------------------------------------------------------------- indices and coordinates

  lemma IndexOf(x: nat, r: nat, c: nat)
    requires c < x
    ensures Row(x, Index(x, r, c)) == r && Col(x, Index(x, r, c)) == c
  {
    var i := Index(x, r, c);
    assert i == (i / x) * x + i % x;
    Unique(x, r, c, i / x, i % x);
  }

  lemma Unique(x: nat, r: nat, c: nat, r': nat, c': nat)
    requires c < x && c' < x && r * x + c == r' * x + c'
    ensures r == r' && c == c'
  {
    NextRow(x, r, r');
    NextRow(x, r', r);
  }

  lemma NextRow(x: nat, r: nat, r': nat)
    ensures r < r' ==> r * x + x <= r' * x
  {
    if r < r' { Monotone(x, r + 1, r'); }
  }

  lemma {:induction false} Monotone(x: nat, r: nat, r': nat)
    requires r <= r'
    ensures r * x <= r' * x
    decreases r'
  {
    if r < r' {
      Monotone(x, r, r' - 1);
      assert r' * x == (r' - 1) * x + x;
    }
  }

  lemma Coordinates(x: nat, i: nat)
    requires x > 0
    ensures Col(x, i) < x && i == Index(x, Row(x, i), Col(x, i))
  {
  }

  lemma InMesh(x: nat, y: nat, r: nat, c: nat)
    requires c < x
    ensures Index(x, r, c) < x * y <==> r < y
  {
    NextRow(x, r, y);
    if r >= y { Monotone(x, y, r); }
  }

  lemma SameCell(x: nat, i: nat, j: nat)
    requires x > 0
    ensures i == j <==> Row(x, i) == Row(x, j) && Col(x, i) == Col(x, j)
  {
    Coordinates(x, i);
    Coordinates(x, j);
  }

  /** The neighbours the generator computes are exactly the cells at distance one. */
  ghost predicate Neighbour(x: nat, y: nat, i: nat, j: nat)
    requires x > 0
  {
    var r, c := Row(x, i), Col(x, i);
    || (r > 0 && j == Index(x, r - 1, c))
    || (r < y - 1 && j == Index(x, r + 1, c))
    || (c > 0 && j == Index(x, r, c - 1))
    || (c < x - 1 && j == Index(x, r, c + 1))
  }

  lemma NeighbourIsClose(x: nat, y: nat, i: nat, j: nat)
    requires x > 0 && i < x * y && Neighbour(x, y, i, j)
    ensures j < x * y && Distance(x, i, j) == 1
  {
    var r, c := Row(x, i), Col(x, i);
    Coordinates(x, i);
    InMesh(x, y, r, c);
    hide Index, Row, Col;
    if r > 0 && j == Index(x, r - 1, c) {
      IndexOf(x, r - 1, c); InMesh(x, y, r - 1, c);
    } else if r < y - 1 && j == Index(x, r + 1, c) {
      IndexOf(x, r + 1, c); InMesh(x, y, r + 1, c);
    } else if c > 0 && j == Index(x, r, c - 1) {
      IndexOf(x, r, c - 1); InMesh(x, y, r, c - 1);
    } else {
      IndexOf(x, r, c + 1); InMesh(x, y, r, c + 1);
    }
  }

  lemma CloseIsNeighbour(x: nat, y: nat, i: nat, j: nat)
    requires x > 0 && i < x * y && j < x * y && Distance(x, i, j) == 1
    ensures Neighbour(x, y, i, j)
  {
    Coordinates(x, i);
    Coordinates(x, j);
    InMesh(x, y, Row(x, j), Col(x, j));
    hide Index, Row, Col;
  }

  // ---------------------------------------------------------------- the matrix

  /** Rows and columns before `k` are filled in. */
  ghost predicate FilledTo(m: array2<int>, x: nat, y: nat, k: nat)
    requires x > 0
    reads m
  {
    && m.Length0 == m.Length1 == x * y
    && forall i: nat, j: nat | i < x * y && j < x * y ::
         m[i, j] == if (i < k || j < k) && Distance(x, i, j) == 1 then 1 else 0
  }

  /** The two entries for nodes `k` and `l`. */
  predicate Pair(k: nat, l: nat, i: nat, j: nat) {
    (i == k && j == l) || (i == l && j == k)
  }

  /** Connects two nodes both ways, if asked to. */
  method Connect(m: array2<int>, wanted: bool, k: nat, l: nat)
    requires k < m.Length0 == m.Length1 && (wanted ==> l < m.Length0)
    modifies m
    ensures forall i: nat, j: nat | i < m.Length0 && j < m.Length1 ::
              m[i, j] == if wanted && Pair(k, l, i, j) then 1 else old(m[i, j])
  {
    if wanted {
      m[k, l] := 1;
      m[l, k] := 1;
    }
  }

  /** The two entries for `k` and its neighbour, for all neighbours of `k`. */
  ghost predicate Touched(x: nat, y: nat, k: nat, i: nat, j: nat)
    requires x > 0
  {
    (i == k && Neighbour(x, y, k, j)) || (j == k && Neighbour(x, y, k, i))
  }

  method ConnectNode(m: array2<int>, x: nat, y: nat, k: nat)
    requires x > 0 && m.Length0 == m.Length1 == x * y && k < x * y
    modifies m
    ensures forall i: nat, j: nat | i < x * y && j < x * y ::
              m[i, j] == if Touched(x, y, k, i, j) then 1 else old(m[i, j])
  {
    var row, col := Row(x, k), Col(x, k);
    var top := if row > 0 then Index(x, row - 1, col) else 0;
    var bottom := Index(x, row + 1, col);
    var left := if col > 0 then Index(x, row, col - 1) else 0;
    var right := Index(x, row, col + 1);
    var up, down, before, after := row > 0, row < y - 1, col > 0, col < x - 1;
    FourNeighbours(x, y, k, up, top, down, bottom, before, left, after, right);
    hide Neighbour, OneOf, Row, Col, Index;
    ConnectFour(m, k, up, top, down, bottom, before, left, after, right);
  }

  lemma FourNeighbours(x: nat, y: nat, k: nat, up: bool, top: nat, down: bool, bottom: nat, before: bool, left: nat, after: bool, right: nat)
    requires x > 0 && k < x * y
    requires up == (Row(x, k) > 0) && down == (Row(x, k) < y - 1) && before == (Col(x, k) > 0) && after == (Col(x, k) < x - 1)
    requires (up ==> top == Index(x, Row(x, k) - 1, Col(x, k))) && bottom == Index(x, Row(x, k) + 1, Col(x, k))
    requires (before ==> left == Index(x, Row(x, k), Col(x, k) - 1)) && right == Index(x, Row(x, k), Col(x, k) + 1)
    ensures forall j: nat :: Neighbour(x, y, k, j) <==> OneOf(up, top, down, bottom, before, left, after, right, j)
    ensures forall j: nat | Neighbour(x, y, k, j) :: j < x * y
  {
    forall j: nat | Neighbour(x, y, k, j) ensures j < x * y { NeighbourIsClose(x, y, k, j); }
    hide Row, Col, Index;
  }

  predicate OneOf(up: bool, top: nat, down: bool, bottom: nat, before: bool, left: nat, after: bool, right: nat, j: nat) {
    (up && j == top) || (down && j == bottom) || (before && j == left) || (after && j == right)
  }

  method ConnectFour(m: array2<int>, k: nat, up: bool, top: nat, down: bool, bottom: nat, before: bool, left: nat, after: bool, right: nat)
    requires k < m.Length0 == m.Length1
    requires forall j: nat | OneOf(up, top, down, bottom, before, left, after, right, j) :: j < m.Length0
    modifies m
    ensures forall i: nat, j: nat | i < m.Length0 && j < m.Length1 ::
              m[i, j] == if (i == k && OneOf(up, top, down, bottom, before, left, after, right, j))
                         || (j == k && OneOf(up, top, down, bottom, before, left, after, right, i)) then 1 else old(m[i, j])
  {
    assert (up ==> top < m.Length0) && (down ==> bottom < m.Length0) && (before ==> left < m.Length0) && (after ==> right < m.Length0) by {
      assert up ==> OneOf(up, top, down, bottom, before, left, after, right, top);
      assert down ==> OneOf(up, top, down, bottom, before, left, after, right, bottom);
      assert before ==> OneOf(up, top, down, bottom, before, left, after, right, left);
      assert after ==> OneOf(up, top, down, bottom, before, left, after, right, right);
    }
    Connect(m, up, k, top);
    Connect(m, down, k, bottom);
    Connect(m, before, k, left);
    Connect(m, after, k, right);
  }

  lemma TouchedIsClose(x: nat, y: nat, k: nat, i: nat, j: nat)
    requires x > 0 && k < x * y && i < x * y && j < x * y
    ensures Touched(x, y, k, i, j) <==> (i == k || j == k) && Distance(x, i, j) == 1
  {
    assert Distance(x, i, j) == Distance(x, j, i);
    if i == k && Neighbour(x, y, k, j) { NeighbourIsClose(x, y, k, j); }
    if j == k && Neighbour(x, y, k, i) { NeighbourIsClose(x, y, k, i); }
    if i == k && Distance(x, k, j) == 1 { CloseIsNeighbour(x, y, k, j); }
    if j == k && Distance(x, k, i) == 1 { CloseIsNeighbour(x, y, k, i); }
  }

  /** A one exactly where two cells are a distance of one apart, and a zero everywhere else. */
  ghost predicate IsMesh(m: array2<int>, x: nat, y: nat)
    reads m
  {
    && m.Length0 == m.Length1 == x * y
    && (x > 0 ==> forall i: nat, j: nat | i < x * y && j < x * y :: m[i, j] == if Distance(x, i, j) == 1 then 1 else 0)
  }

  method GenerateMesh(x: nat, y: nat) returns (m: array2<int>)
    ensures fresh(m) && IsMesh(m, x, y)
  {
    var n := x * y;
    m := new int[n, n]((i, j) => 0);
    if x == 0 { return; }
    for k := 0 to n
      invariant FilledTo(m, x, y, k)
    {
      ConnectNode(m, x, y, k);
      forall i: nat, j: nat | i < n && j < n
        ensures Touched(x, y, k, i, j) <==> (i == k || j == k) && Distance(x, i, j) == 1
      {
        TouchedIsClose(x, y, k, i, j);
      }
      hide Touched, Distance;
    }
  }

  lemma MeshIsSymmetric(m: array2<int>, x: nat, y: nat, i: nat, j: nat)
    requires IsMesh(m, x, y) && i < x * y && j < x * y
    ensures m[i, j] == m[j, i] && m[i, i] == 0
  {
    assert x > 0;
    assert Distance(x, i, j) == Distance(x, j, i);
  }

  // ---------------------------------------------------------------- the graph

  /** The undirected edges; chiplets are numbered from one. */
  method BuildNetwork(m: array2<int>) returns (edges: set<(nat, nat)>)
    requires m.Length0 == m.Length1
    ensures forall a: nat, b: nat :: (a, b) in edges <==> 1 <= a < b <= m.Length0 && m[a - 1, b - 1] == 1
  {
    edges := {};
    for i := 0 to m.Length0
      invariant forall a: nat, b: nat :: (a, b) in edges <==> 1 <= a <= i && a < b <= m.Length0 && m[a - 1, b - 1] == 1
    {
      for j := i + 1 to m.Length0
        invariant forall a: nat, b: nat :: (a, b) in edges <==>
                    1 <= a < b <= m.Length0 && (a <= i || (a == i + 1 && b <= j)) && m[a - 1, b - 1] == 1
      {
        if m[i, j] == 1 { edges := edges + {(i + 1, j + 1)}; }
      }
    }
  }

  predicate Joined(edges: set<(nat, nat)>, a: nat, b: nat) {
    (a, b) in edges || (b, a) in edges
  }

  ghost predicate IsGraph(edges: set<(nat, nat)>, x: nat, y: nat) {
    x > 0 && forall a: nat, b: nat ::
      Joined(edges, a, b) <==> 1 <= a <= x * y && 1 <= b <= x * y && Distance(x, a - 1, b - 1) == 1
  }

  method MeshNetwork(x: nat, y: nat) returns (edges: set<(nat, nat)>)
    requires x > 0
    ensures IsGraph(edges, x, y)
  {
    var m := GenerateMesh(x, y);
    edges := BuildNetwork(m);
    forall a: nat, b: nat
      ensures Joined(edges, a, b) <==> 1 <= a <= x * y && 1 <= b <= x * y && Distance(x, a - 1, b - 1) == 1
    {
      if 1 <= a <= x * y && 1 <= b <= x * y { MeshIsSymmetric(m, x, y, a - 1, b - 1); }
    }
  }

  // ---------------------------------------------------------------- walks

  /** A walk visits the listed chiplets, each joined to the next. */
  ghost predicate Walk(edges: set<(nat, nat)>, w: seq<nat>) {
    w != [] && forall k | 0 <= k < |w| - 1 :: Joined(edges, w[k], w[k + 1])
  }

  lemma Triangle(x: nat, i: nat, j: nat, k: nat)
    requires x > 0
    ensures Distance(x, i, k) <= Distance(x, i, j) + Distance(x, j, k)
  {
  }

  /** No walk is shorter than the distance between its ends. */
  lemma {:induction false} WalksAreLong(edges: set<(nat, nat)>, x: nat, y: nat, w: seq<nat>)
    requires IsGraph(edges, x, y) && Walk(edges, w) && w[0] >= 1
    ensures w[|w| - 1] >= 1 && Distance(x, w[0] - 1, w[|w| - 1] - 1) <= |w| - 1
    decreases |w|
  {
    if |w| > 1 {
      var n := |w| - 1;
      var front := w[..n];
      WalksAreLong(edges, x, y, front);
      assert Joined(edges, w[n - 1], w[n - 1 + 1]);
      Triangle(x, w[0] - 1, w[n - 1] - 1, w[n] - 1);
    }
  }

  /** From any cell one can step to a neighbour that is one closer to the goal. */
  lemma Closer(x: nat, y: nat, i: nat, j: nat) returns (k: nat)
    requires x > 0 && i < x * y && j < x * y && i != j
    ensures k < x * y && Distance(x, i, k) == 1 && Distance(x, k, j) == Distance(x, i, j) - 1
  {
    var r, c := Row(x, i), Col(x, i);
    Coordinates(x, i);
    Coordinates(x, j);
    InMesh(x, y, r, c);
    InMesh(x, y, Row(x, j), Col(x, j));
    SameCell(x, i, j);
    var r' := if r < Row(x, j) then r + 1 else if r > Row(x, j) then r - 1 else r;
    var c' := if r != Row(x, j) then c else if c < Col(x, j) then c + 1 else c - 1;
    hide Row, Col, Index;
    IndexOf(x, r', c');
    InMesh(x, y, r', c');
    k := Index(x, r', c');
  }

  /** Some walk is exactly as long as the distance. */
  lemma {:induction false} ShortWalk(edges: set<(nat, nat)>, x: nat, y: nat, a: nat, b: nat) returns (w: seq<nat>)
    requires IsGraph(edges, x, y) && 1 <= a <= x * y && 1 <= b <= x * y
    ensures Walk(edges, w) && w[0] == a && w[|w| - 1] == b && |w| - 1 == Distance(x, a - 1, b - 1)
    decreases Distance(x, a - 1, b - 1)
  {
    if a == b {
      w := [a];
    } else {
      var k := Closer(x, y, a - 1, b - 1);
      var rest := ShortWalk(edges, x, y, k + 1, b);
      assert Joined(edges, a, k + 1);
      w := [a] + rest;
      forall m | 0 <= m < |w| - 1 ensures Joined(edges, w[m], w[m + 1]) {
        if m > 0 { assert w[m] == rest[m - 1] && w[m + 1] == rest[m - 1 + 1]; }
      }
    }
  }

  /** Shortest paths in the generated mesh are Manhattan distances: that length is attained and no
      walk between the two chiplets is shorter. */
  lemma ShortestIsManhattan(edges: set<(nat, nat)>, x: nat, y: nat, a: nat, b: nat)
    requires IsGraph(edges, x, y) && 1 <= a <= x * y && 1 <= b <= x * y
    ensures exists w: seq<nat> :: Walk(edges, w) && w[0] == a && w[|w| - 1] == b && |w| - 1 == Distance(x, a - 1, b - 1)
    ensures forall w: seq<nat> | Walk(edges, w) && w[0] == a && w[|w| - 1] == b :: |w| - 1 >= Distance(x, a - 1, b - 1)
  {
    var short := ShortWalk(edges, x, y, a, b);
    forall w: seq<nat> | Walk(edges, w) && w[0] == a && w[|w| - 1] == b
      ensures |w| - 1 >= Distance(x, a - 1, b - 1)
    {
      WalksAreLong(edges, x, y, w);
    }
  }
}
