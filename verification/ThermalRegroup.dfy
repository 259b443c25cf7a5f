/** Grouping node temperatures by chiplet (layer_class.py) and the order of the chiplets they are
    matched against (power_class.py). */
module ThermalRegroup {
  import opened Mesh
  import opened Sorting

  /** Chiplets along x and y, and nodes along x and y in each chiplet. */
  datatype Shape = Shape(chipsX: nat, chipsY: nat, nodesX: nat, nodesY: nat)

  /** A node by chiplet and place in the chiplet. */
  datatype Spot = Spot(ic: nat, jc: nat, i: nat, j: nat)

  predicate InShape(s: Shape, p: Spot) {
    p.ic < s.chipsX && p.jc < s.chipsY && p.i < s.nodesX && p.j < s.nodesY
  }

  /** Nodes of a whole column of the grid. */
  function Height(s: Shape): nat {
    s.chipsY * s.nodesY
  }

  /** Where the node is in the layer's own order, by grid coordinates. */
  function Flat(s: Shape, p: Spot): nat {
    Index(Height(s), Index(s.nodesX, p.ic, p.i), Index(s.nodesY, p.jc, p.j))
  }

  /** Where the node goes: chiplet by chiplet, and in grid order within each. */
  function Grouped(s: Shape, p: Spot): nat {
    Index(s.nodesY, Index(s.nodesX, Chip(s, p), p.i), p.j)
  }

  /** Position of the node's chiplet in the list of chiplets. */
  function Chip(s: Shape, p: Spot): nat {
    Index(s.chipsY, p.ic, p.jc)
  }

  function Total(s: Shape): nat {
    s.nodesY * (s.nodesX * (s.chipsY * s.chipsX))
  }

  /** The index the regrouping loop reads is the node's own. */
  lemma SourceIndex(s: Shape, p: Spot)
    ensures p.ic * s.chipsY * s.nodesY * s.nodesX + p.jc * s.nodesY + p.i * s.nodesY * s.chipsY + p.j == Flat(s, p)
  {
    var h := Height(s);
    assert p.ic * s.chipsY * s.nodesY * s.nodesX == (p.ic * s.nodesX) * h;
    assert p.i * s.nodesY * s.chipsY == p.i * h;
    assert (p.ic * s.nodesX + p.i) * h == (p.ic * s.nodesX) * h + p.i * h;
  }

  // ---------------------------------------------------------------- ranges and inverses

  lemma GroupedInRange(s: Shape, p: Spot)
    requires InShape(s, p)
    ensures Chip(s, p) < s.chipsY * s.chipsX && Grouped(s, p) < Total(s)
  {
    InMesh(s.chipsY, s.chipsX, p.ic, p.jc);
    var chips := s.chipsY * s.chipsX;
    hide Index;
    InMesh(s.nodesX, chips, Chip(s, p), p.i);
    InMesh(s.nodesY, s.nodesX * chips, Index(s.nodesX, Chip(s, p), p.i), p.j);
  }

  lemma FlatInRange(s: Shape, p: Spot)
    requires InShape(s, p)
    ensures Index(s.nodesY, p.jc, p.j) < Height(s) && Flat(s, p) < Height(s) * (s.nodesX * s.chipsX)
  {
    InMesh(s.nodesY, s.chipsY, p.jc, p.j);
    InMesh(s.nodesX, s.chipsX, p.ic, p.i);
    assert s.nodesY * s.chipsY == Height(s);
    hide Index, Height;
    InMesh(Height(s), s.nodesX * s.chipsX, Index(s.nodesX, p.ic, p.i), Index(s.nodesY, p.jc, p.j));
  }

  lemma SameTotal(s: Shape)
    ensures Height(s) * (s.nodesX * s.chipsX) == Total(s)
  {
    var a, b, c, d := s.chipsX, s.chipsY, s.nodesX, s.nodesY;
    assert (b * d) * (c * a) == d * (b * (c * a));
    assert b * (c * a) == c * (b * a);
  }

  /** The node found at a position of the grouped order. */
  function SpotAt(s: Shape, g: nat): Spot
    requires s.chipsY > 0 && s.nodesX > 0 && s.nodesY > 0
  {
    var q := Row(s.nodesY, g);
    var chip := Row(s.nodesX, q);
    Spot(Row(s.chipsY, chip), Col(s.chipsY, chip), Col(s.nodesX, q), Col(s.nodesY, g))
  }

  /** The node found at a position of the layer's own order, from its grid coordinates. */
  function SpotOf(s: Shape, f: nat): Spot
    requires s.chipsY > 0 && s.nodesX > 0 && s.nodesY > 0 && Height(s) > 0
  {
    var x, y := Row(Height(s), f), Col(Height(s), f);
    Spot(Row(s.nodesX, x), Row(s.nodesY, y), Col(s.nodesX, x), Col(s.nodesY, y))
  }

  ghost predicate Proper(s: Shape) {
    s.chipsX > 0 && s.chipsY > 0 && s.nodesX > 0 && s.nodesY > 0 && Height(s) > 0
  }

  lemma AllPositive(s: Shape)
    requires s.chipsX > 0 && s.chipsY > 0 && s.nodesX > 0 && s.nodesY > 0
    ensures Proper(s)
  {
  }

  /** Grouped positions and nodes correspond one to one. */
  lemma GroupedInverse(s: Shape, p: Spot, g: nat)
    requires Proper(s)
    ensures InShape(s, p) ==> SpotAt(s, Grouped(s, p)) == p
    ensures g < Total(s) ==> InShape(s, SpotAt(s, g)) && Grouped(s, SpotAt(s, g)) == g
  {
    if InShape(s, p) {
      IndexOf(s.nodesY, Index(s.nodesX, Chip(s, p), p.i), p.j);
      IndexOf(s.nodesX, Chip(s, p), p.i);
      IndexOf(s.chipsY, p.ic, p.jc);
    }
    if g < Total(s) {
      var q := Row(s.nodesY, g);
      var chip := Row(s.nodesX, q);
      Coordinates(s.nodesY, g);
      Coordinates(s.nodesX, q);
      Coordinates(s.chipsY, chip);
      var chips := s.chipsY * s.chipsX;
      hide Index, Row, Col, Height;
      InMesh(s.nodesY, s.nodesX * chips, q, Col(s.nodesY, g));
      InMesh(s.nodesX, chips, chip, Col(s.nodesX, q));
      InMesh(s.chipsY, s.chipsX, Row(s.chipsY, chip), Col(s.chipsY, chip));
    }
  }

  /** The layer's own positions and nodes correspond one to one, through grid coordinates. */
  lemma FlatInverse(s: Shape, p: Spot, f: nat)
    requires Proper(s)
    ensures InShape(s, p) ==> SpotOf(s, Flat(s, p)) == p
    ensures f < Total(s) ==> InShape(s, SpotOf(s, f)) && Flat(s, SpotOf(s, f)) == f
  {
    if InShape(s, p) {
      FlatInRange(s, p);
      hide Height;
      IndexOf(Height(s), Index(s.nodesX, p.ic, p.i), Index(s.nodesY, p.jc, p.j));
      IndexOf(s.nodesX, p.ic, p.i);
      IndexOf(s.nodesY, p.jc, p.j);
    }
    if f < Total(s) {
      SameTotal(s);
      assert s.nodesY * s.chipsY == Height(s);
      var x, y := Row(Height(s), f), Col(Height(s), f);
      Coordinates(Height(s), f);
      Coordinates(s.nodesX, x);
      Coordinates(s.nodesY, y);
      hide Index, Row, Col, Height;
      InMesh(Height(s), s.nodesX * s.chipsX, x, y);
      InMesh(s.nodesX, s.chipsX, Row(s.nodesX, x), Col(s.nodesX, x));
      InMesh(s.nodesY, s.chipsY, Row(s.nodesY, y), Col(s.nodesY, y));
    }
  }

  // ---------------------------------------------------------------- the regrouping loop

  ghost predicate Placed<T>(s: Shape, t: seq<T>, sorted: seq<T>) {
    forall g: nat | g < |sorted| && g < Total(s) && Proper(s) :: Flat(s, SpotAt(s, g)) < |t| && sorted[g] == t[Flat(s, SpotAt(s, g))]
  }

  lemma PlaceNext<T>(s: Shape, t: seq<T>, sorted: seq<T>, p: Spot)
    requires Placed(s, t, sorted) && InShape(s, p) && |sorted| == Grouped(s, p) && |t| == Total(s)
    ensures Flat(s, p) < |t| && Placed(s, t, sorted + [t[Flat(s, p)]])
    ensures Grouped(s, p.(j := p.j + 1)) == Grouped(s, p) + 1
  {
    AllPositive(s);
    GroupedInverse(s, p, 0);
    FlatInRange(s, p);
    SameTotal(s);
    hide Flat, SpotAt, Height;
  }

  /** Moving on to the next column, chiplet or column of chiplets does not skip a place. */
  lemma Carry(s: Shape, ic: nat, jc: nat, i: nat)
    ensures Grouped(s, Spot(ic, jc, i, s.nodesY)) == Grouped(s, Spot(ic, jc, i + 1, 0))
    ensures Grouped(s, Spot(ic, jc, s.nodesX, 0)) == Grouped(s, Spot(ic, jc + 1, 0, 0))
    ensures Grouped(s, Spot(ic, s.chipsY, 0, 0)) == Grouped(s, Spot(ic + 1, 0, 0, 0))
  {
    CarryIndex(s.nodesY, Index(s.nodesX, Index(s.chipsY, ic, jc), i));
    CarryIndex(s.nodesX, Index(s.chipsY, ic, jc));
    CarryIndex(s.chipsY, ic);
    assert Index(s.nodesX, Index(s.chipsY, ic, jc), i + 1) == Index(s.nodesX, Index(s.chipsY, ic, jc), i) + 1;
    assert Index(s.chipsY, ic, jc + 1) == Index(s.chipsY, ic, jc) + 1;
    hide Index;
  }

  lemma CarryIndex(n: nat, a: nat)
    ensures Index(n, a, n) == Index(n, a + 1, 0)
  {
  }

  lemma FullCount(s: Shape)
    ensures Grouped(s, Spot(0, 0, 0, 0)) == 0 && Grouped(s, Spot(s.chipsX, 0, 0, 0)) == Total(s)
  {
    var a, b, c, d := s.chipsX, s.chipsY, s.nodesX, s.nodesY;
    assert Index(b, a, 0) == b * a;
    assert Index(c, b * a, 0) == c * (b * a);
    assert Index(d, c * (b * a), 0) == d * (c * (b * a));
  }

  /** Collects the temperatures chiplet by chiplet. */
  method Regroup<T>(s: Shape, t: seq<T>) returns (sorted: seq<T>)
    requires |t| == Total(s)
    ensures |sorted| == Total(s) && Placed(s, t, sorted)
  {
    hide Placed, Grouped, Flat, Total;
    sorted := [];
    FullCount(s);
    NonePlaced(s, t);
    for ic := 0 to s.chipsX
      invariant |sorted| == Grouped(s, Spot(ic, 0, 0, 0)) && Placed(s, t, sorted)
    {
      for jc := 0 to s.chipsY
        invariant |sorted| == Grouped(s, Spot(ic, jc, 0, 0)) && Placed(s, t, sorted)
      {
        for i := 0 to s.nodesX
          invariant |sorted| == Grouped(s, Spot(ic, jc, i, 0)) && Placed(s, t, sorted)
        {
          for j := 0 to s.nodesY
            invariant |sorted| == Grouped(s, Spot(ic, jc, i, j)) && Placed(s, t, sorted)
          {
            var p := Spot(ic, jc, i, j);
            PlaceNext(s, t, sorted, p);
            SourceIndex(s, p);
            sorted := sorted + [t[ic * s.chipsY * s.nodesY * s.nodesX + jc * s.nodesY + i * s.nodesY * s.chipsY + j]];
          }
          Carry(s, ic, jc, i);
        }
        Carry(s, ic, jc, 0);
      }
      Carry(s, ic, 0, 0);
    }
  }

  lemma NonePlaced<T>(s: Shape, t: seq<T>)
    ensures Placed(s, t, [])
  {
  }

  // ---------------------------------------------------------------- what the slices hold

  /** Every node's temperature lands in exactly one place. */
  lemma RegroupIsBijection(s: Shape, f: nat)
    requires Proper(s) && f < Total(s)
    ensures var g := Grouped(s, SpotOf(s, f)); g < Total(s) && Flat(s, SpotAt(s, g)) == f
    ensures forall g: nat | g < Total(s) && Flat(s, SpotAt(s, g)) == f :: g == Grouped(s, SpotOf(s, f))
  {
    var p := SpotOf(s, f);
    FlatInverse(s, p, f);
    GroupedInRange(s, p);
    GroupedInverse(s, p, 0);
    hide SpotOf, SpotAt, Flat, Grouped, Height;
    forall g: nat | g < Total(s) && Flat(s, SpotAt(s, g)) == f ensures g == Grouped(s, p) {
      GroupedInverse(s, p, g);
      FlatInverse(s, SpotAt(s, g), f);
    }
  }

  /** The consecutive slice of chiplet `k` holds exactly the nodes of that chiplet. */
  lemma SliceIsChiplet(s: Shape, k: nat, g: nat)
    requires Proper(s) && g < Total(s)
    ensures k * (s.nodesX * s.nodesY) <= g < (k + 1) * (s.nodesX * s.nodesY) <==> Chip(s, SpotAt(s, g)) == k
  {
    var p := SpotAt(s, g);
    GroupedInverse(s, p, g);
    var n := s.nodesX * s.nodesY;
    var inner := Index(s.nodesY, p.i, p.j);
    InMesh(s.nodesY, s.nodesX, p.i, p.j);
    assert inner < n by { assert s.nodesY * s.nodesX == n; }
    Nested(s.nodesX, s.nodesY, Chip(s, p), p.i, p.j);
    hide Index, SpotAt, Chip, Grouped;
    InSlice(n, Chip(s, p), inner, k);
  }

  lemma Nested(nx: nat, ny: nat, a: nat, b: nat, c: nat)
    ensures Index(ny, Index(nx, a, b), c) == a * (nx * ny) + Index(ny, b, c)
  {
    assert (a * nx + b) * ny == a * (nx * ny) + b * ny;
  }

  lemma InSlice(n: nat, a: nat, b: nat, k: nat)
    requires b < n
    ensures k * n <= a * n + b < (k + 1) * n <==> a == k
  {
    NextRow(n, a, k);
    NextRow(n, k, a);
    assert (k + 1) * n == k * n + n;
  }

  /** So the slice of the chiplet in column `ic` and row `jc` consists of the nodes whose grid
      coordinates lie in that chiplet. */
  lemma SliceByCoordinates(s: Shape, g: nat, ic: nat, jc: nat)
    requires Proper(s) && g < Total(s) && jc < s.chipsY
    ensures var k := Index(s.chipsY, ic, jc); var f := Flat(s, SpotAt(s, g));
            k * (s.nodesX * s.nodesY) <= g < (k + 1) * (s.nodesX * s.nodesY) <==>
              Row(s.nodesX, Row(Height(s), f)) == ic && Row(s.nodesY, Col(Height(s), f)) == jc
  {
    var k := Index(s.chipsY, ic, jc);
    var p := SpotAt(s, g);
    GroupedInverse(s, p, g);
    FlatInverse(s, p, 0);
    assert Row(s.nodesX, Row(Height(s), Flat(s, p))) == p.ic && Row(s.nodesY, Col(Height(s), Flat(s, p))) == p.jc;
    SliceIsChiplet(s, k, g);
    hide Index, Row, Col, SpotAt, Flat, Height, Grouped;
    if Chip(s, p) == k { SameIndex(s.chipsY, p.ic, p.jc, ic, jc); }
  }

  lemma SameIndex(n: nat, a: nat, b: nat, c: nat, d: nat)
    requires b < n && d < n && Index(n, a, b) == Index(n, c, d)
    ensures a == c && b == d
  {
    Unique(n, a, b, c, d);
  }

  // ---------------------------------------------------------------- the order of the chiplets

  datatype Chiplet = Chiplet(name: string, x: real, y: real)

  function ByX(c: Chiplet): real { c.x }
  function ByY(c: Chiplet): real { c.y }

  /** Sorts by y and then, stably, by x. */
  function InOrder(chips: seq<Chiplet>): seq<Chiplet> {
    SortBy(SortBy(chips, ByY), ByX)
  }

  lemma TwoPassSort(chips: seq<Chiplet>)
    ensures Lexicographic(InOrder(chips), ByX, ByY) && multiset(InOrder(chips)) == multiset(chips)
  {
    SortAscends(chips, ByY);
    StableSort(SortBy(chips, ByY), ByX, ByY);
  }

  ghost predicate StrictlyBefore(a: Chiplet, b: Chiplet) {
    a.x < b.x || (a.x == b.x && a.y < b.y)
  }

  ghost predicate Strict(s: seq<Chiplet>) {
    forall j, k | 0 <= j < k < |s| :: StrictlyBefore(s[j], s[k])
  }

  /** There is only one way to put chiplets at different places in order. */
  lemma {:induction false} OneOrder(a: seq<Chiplet>, b: seq<Chiplet>)
    requires multiset(a) == multiset(b) && Strict(a) && Lexicographic(b, ByX, ByY)
    ensures a == b
    decreases |a|
  {
    PermutedMembers(a, b);
    if a != [] {
      SameFirst(a, b);
      Tails(a);
      Tails(b);
      TailsOrdered(a, b);
      hide Strict, Lexicographic;
      OneOrder(a[1..], b[1..]);
      assert a == [a[0]] + a[1..] && b == [b[0]] + b[1..];
    }
  }

  lemma SameFirst(a: seq<Chiplet>, b: seq<Chiplet>)
    requires a != [] && b != [] && a[0] in b && b[0] in a && Strict(a) && Lexicographic(b, ByX, ByY)
    ensures a[0] == b[0]
  {
    var k :| 0 <= k < |b| && b[k] == a[0];
    var j :| 0 <= j < |a| && a[j] == b[0];
    if k > 0 { assert LexAtMost(b[0], b[k], ByX, ByY); }
    if j > 0 { assert StrictlyBefore(a[0], a[j]); }
  }

  lemma Tails(a: seq<Chiplet>)
    requires a != []
    ensures multiset(a[1..]) == multiset(a) - multiset{a[0]}
  {
    assert a == [a[0]] + a[1..];
  }

  lemma TailsOrdered(a: seq<Chiplet>, b: seq<Chiplet>)
    requires a != [] && b != [] && Strict(a) && Lexicographic(b, ByX, ByY)
    ensures Strict(a[1..]) && Lexicographic(b[1..], ByX, ByY)
  {
  }

  /** The chiplets laid out on a grid, column by column. */
  ghost predicate OnGrid(laid: seq<Chiplet>, xs: seq<real>, ys: seq<real>) {
    && |laid| == |ys| * |xs| && (|xs| > 0 ==> |ys| > 0)
    && (forall j, k | 0 <= j < k < |xs| :: xs[j] < xs[k])
    && (forall j, k | 0 <= j < k < |ys| :: ys[j] < ys[k])
    && forall n: nat | n < |laid| && |ys| > 0 ::
         Row(|ys|, n) < |xs| && Col(|ys|, n) < |ys| && laid[n].x == xs[Row(|ys|, n)] && laid[n].y == ys[Col(|ys|, n)]
  }

  lemma GridIsStrict(laid: seq<Chiplet>, xs: seq<real>, ys: seq<real>)
    requires OnGrid(laid, xs, ys)
    ensures Strict(laid)
  {
    if |laid| > 0 {
      assert |ys| > 0;
      forall j, k | 0 <= j < k < |laid| ensures StrictlyBefore(laid[j], laid[k]) {
        Coordinates(|ys|, j);
        Coordinates(|ys|, k);
        NextRow(|ys|, Row(|ys|, k), Row(|ys|, j));
      }
    }
  }

  /** In whatever order the chiplets of a grid are listed, the two sorts put the one in column `ic`
      and row `jc` at the place whose slice of temperatures is its own. */
  lemma SlicesMatchChiplets(chips: seq<Chiplet>, laid: seq<Chiplet>, xs: seq<real>, ys: seq<real>, ic: nat, jc: nat)
    requires OnGrid(laid, xs, ys) && multiset(chips) == multiset(laid) && ic < |xs| && jc < |ys|
    ensures InOrder(chips) == laid
    ensures Index(|ys|, ic, jc) < |laid| && InOrder(chips)[Index(|ys|, ic, jc)].x == xs[ic] && InOrder(chips)[Index(|ys|, ic, jc)].y == ys[jc]
  {
    TwoPassSort(chips);
    GridIsStrict(laid, xs, ys);
    hide InOrder;
    OneOrder(laid, InOrder(chips));
    InMesh(|ys|, |xs|, ic, jc);
    IndexOf(|ys|, ic, jc);
    hide Index, Row, Col;
  }
}
