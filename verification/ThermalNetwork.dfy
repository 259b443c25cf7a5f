/** The thermal network of a package (node_class.py, layer_class.py, package_class.py, common.py): the
    conductance between any two nodes, and the matrix the solver works with. */
module ThermalNetwork {
  import opened Sums
  import opened ThermalGrid

  datatype Conductivity = Conductivity(kx: real, ky: real, kz: real)

  /** Whether a node's layer is at the bottom or the top of the package, with the heat transfer
      coefficient there. */
  datatype Boundary = Inner | Exposed(h: real)

  datatype Node = Node(cell: Cell, gx: real, gy: real, gz: real, film: real)

  // ---------------------------------------------------------------- one node

  function Conductance(k: real, area: real, length: real): real
    requires length != 0.0
  {
    (k * area * 2.0) / (length * 1000.0)
  }

  function InSeries(a: real, b: real): real
    requires a + b != 0.0
  {
    a * b / (a + b)
  }

  lemma PositiveProduct(a: real, b: real)
    requires a > 0.0 && b > 0.0
    ensures a * b > 0.0
  {
  }

  lemma PositiveQuotient(a: real, b: real)
    requires a > 0.0 && b > 0.0
    ensures a / b > 0.0
  {
  }

  lemma ConductancePositive(k: real, area: real, length: real)
    requires k > 0.0 && area > 0.0 && length > 0.0
    ensures Conductance(k, area, length) > 0.0
  {
    PositiveProduct(k, area);
    PositiveQuotient(k * area * 2.0, length * 1000.0);
  }

  lemma SeriesNonNegative(a: real, b: real)
    requires a >= 0.0 && b > 0.0
    ensures 0.0 <= InSeries(a, b) <= a && InSeries(a, b) <= b
  {
    assert a * b >= 0.0 && a * (a + b) >= a * b && b * (a + b) >= a * b;
    QuotientBounds(a * b, a + b, a);
    QuotientBounds(a * b, a + b, b);
  }

  lemma QuotientBounds(p: real, d: real, most: real)
    requires d > 0.0 && 0.0 <= p <= most * d
    ensures 0.0 <= p / d <= most
  {
  }

  /** A node's conductances towards its faces, and through its exposed face to the surroundings. */
  function MakeNode(c: Cell, thickness: real, k: Conductivity, bc: Boundary): (r: Node)
    requires c.x.length > 0.0 && c.y.length > 0.0 && thickness > 0.0
    requires k.kx > 0.0 && k.ky > 0.0 && k.kz > 0.0 && (bc.Exposed? ==> bc.h >= 0.0)
    ensures Good(r)
  {
    PositiveProduct(c.y.length, thickness);
    PositiveProduct(c.x.length, thickness);
    PositiveProduct(c.x.length, c.y.length);
    ConductancePositive(k.kx, c.y.length * thickness, c.x.length);
    ConductancePositive(k.ky, c.x.length * thickness, c.y.length);
    ConductancePositive(k.kz, c.x.length * c.y.length, thickness);
    var gz := Conductance(k.kz, c.x.length * c.y.length, thickness);
    Node(c, Conductance(k.kx, c.y.length * thickness, c.x.length), Conductance(k.ky, c.x.length * thickness, c.y.length), gz,
         Film(bc, c.x.length * c.y.length, gz))
  }

  /** Conductance through an exposed face: the film in series with the half of the node behind it. */
  function Film(bc: Boundary, area: real, gz: real): (film: real)
    requires gz > 0.0 && area > 0.0 && (bc.Exposed? ==> bc.h >= 0.0)
    ensures 0.0 <= film <= gz
  {
    match bc
    case Inner => 0.0
    case Exposed(h) =>
      assert h * area >= 0.0;
      SeriesNonNegative(h * area / 1000000.0, gz);
      InSeries(h * area / 1000000.0, gz)
  }

  predicate Good(n: Node) {
    n.cell.x.length > 0.0 && n.cell.y.length > 0.0 && n.gx > 0.0 && n.gy > 0.0 && n.gz > 0.0 && n.film >= 0.0
  }

  // ---------------------------------------------------------------- two nodes

  /** Conductance across a shared face of size `shared`, from each node's own conductance and size. */
  function Joint(shared: real, g1: real, g2: real, size1: real, size2: real): real
    requires g1 > 0.0 && g2 > 0.0 && size1 > 0.0 && size2 > 0.0
  {
    PositiveProduct(g1, size2);
    PositiveProduct(g2, size1);
    (shared * g1 * g2) / (g1 * size2 + g2 * size1)
  }

  lemma JointFacts(shared: real, g1: real, g2: real, size1: real, size2: real)
    requires g1 > 0.0 && g2 > 0.0 && size1 > 0.0 && size2 > 0.0 && shared >= 0.0
    ensures Joint(shared, g1, g2, size1, size2) == Joint(shared, g2, g1, size2, size1) >= 0.0
    ensures shared > 0.0 ==> Joint(shared, g1, g2, size1, size2) > 0.0
  {
    PositiveProduct(g1, size2);
    PositiveProduct(g2, size1);
    assert shared * g1 * g2 == shared * g2 * g1;
    PositiveProduct(g1, g2);
    assert shared * g1 * g2 == shared * (g1 * g2);
    if shared > 0.0 {
      PositiveProduct(shared, g1 * g2);
      PositiveQuotient(shared * g1 * g2, g1 * size2 + g2 * size1);
    }
  }

  predicate Near(a: real, b: real) {
    -0.0001 < a - b < 0.0001
  }

  /** `b` touches `a` from below or from above along y. */
  predicate TouchesY(a: Cell, b: Cell) {
    Near(b.y.start + b.y.length, a.y.start) || Near(b.y.start - a.y.length, a.y.start)
  }

  predicate TouchesX(a: Cell, b: Cell) {
    Near(b.x.start + b.x.length, a.x.start) || Near(b.x.start - a.x.length, a.x.start)
  }

  /** Conductance between two nodes of one layer: through the face they share, if they touch. */
  function Lateral(a: Node, b: Node): real
    requires Good(a) && Good(b)
  {
    if TouchesY(a.cell, b.cell) then
      Joint(OverlapLength(a.cell.x, b.cell.x), a.gy, b.gy, a.cell.x.length, b.cell.x.length)
    else if TouchesX(a.cell, b.cell) then
      Joint(OverlapLength(a.cell.y, b.cell.y), a.gx, b.gx, a.cell.y.length, b.cell.y.length)
    else 0.0
  }

  /** Looking from either node gives the same answer. */
  lemma LateralSymmetric(a: Node, b: Node)
    requires Good(a) && Good(b)
    ensures Lateral(a, b) == Lateral(b, a) >= 0.0
  {
    JointFacts(OverlapLength(a.cell.x, b.cell.x), a.gy, b.gy, a.cell.x.length, b.cell.x.length);
    JointFacts(OverlapLength(a.cell.y, b.cell.y), a.gx, b.gx, a.cell.y.length, b.cell.y.length);
    assert OverlapLength(a.cell.x, b.cell.x) == OverlapLength(b.cell.x, a.cell.x);
    assert OverlapLength(a.cell.y, b.cell.y) == OverlapLength(b.cell.y, a.cell.y);
    hide Joint, OverlapLength;
  }

  function CommonArea(a: Node, b: Node): real {
    OverlapLength(a.cell.x, b.cell.x) * OverlapLength(a.cell.y, b.cell.y)
  }

  /** Conductance between a node and one of the layer above it. */
  function Vertical(bottom: Node, top: Node): real
    requires Good(bottom) && Good(top)
  {
    PositiveProduct(bottom.cell.x.length, bottom.cell.y.length);
    PositiveProduct(top.cell.x.length, top.cell.y.length);
    if CommonArea(bottom, top) > 0.0 then
      Joint(CommonArea(bottom, top), bottom.gz, top.gz, bottom.cell.Area(), top.cell.Area())
    else 0.0
  }

  lemma VerticalNonNegative(bottom: Node, top: Node)
    requires Good(bottom) && Good(top)
    ensures Vertical(bottom, top) >= 0.0
    ensures Vertical(bottom, top) > 0.0 <==> CommonArea(bottom, top) > 0.0
  {
    PositiveProduct(bottom.cell.x.length, bottom.cell.y.length);
    PositiveProduct(top.cell.x.length, top.cell.y.length);
    hide Joint, CommonArea;
    if CommonArea(bottom, top) > 0.0 {
      JointFacts(CommonArea(bottom, top), bottom.gz, top.gz, bottom.cell.Area(), top.cell.Area());
    }
  }

  // ---------------------------------------------------------------- the whole package

  type Stack = seq<seq<Node>>

  ghost predicate GoodStack(s: Stack) {
    forall l, i | 0 <= l < |s| && 0 <= i < |s[l]| :: Good(s[l][i])
  }

  /** Layer and place in the layer of every node, in matrix order. */
  function Places(s: Stack): seq<(nat, nat)> {
    if s == [] then []
    else
      var l := |s| - 1;
      Places(s[..l]) + seq(|s[l]|, i requires 0 <= i => (l, i))
  }

  function Offset(s: Stack, l: nat): nat
    requires l <= |s|
  {
    |Places(s[..l])|
  }

  lemma {:induction false} PlacesPrefix(s: Stack, l: nat)
    requires l <= |s|
    ensures Places(s[..l]) <= Places(s)
    decreases |s|
  {
    if l == |s| {
      assert s[..l] == s;
    } else {
      var f := s[..|s| - 1];
      PlacesPrefix(f, l);
      assert f[..l] == s[..l];
    }
  }

  /** Node `i` of layer `l` is found at its layer's offset plus `i`. */
  lemma PlaceOf(s: Stack, l: nat, i: nat)
    requires l < |s| && i < |s[l]|
    ensures Offset(s, l) + i < |Places(s)| && Places(s)[Offset(s, l) + i] == (l, i)
    ensures Offset(s, l + 1) == Offset(s, l) + |s[l]| <= |Places(s)|
  {
    OneLayerMore(s, l);
    PlacesPrefix(s, l + 1);
    hide Places;
    assert Places(s)[Offset(s, l) + i] == Places(s[..l + 1])[Offset(s, l) + i];
  }

  lemma OneLayerMore(s: Stack, l: nat)
    requires l < |s|
    ensures Places(s[..l + 1]) == Places(s[..l]) + seq(|s[l]|, i requires 0 <= i => (l, i))
  {
    assert s[..l + 1][..l] == s[..l];
  }

  lemma NextOffset(s: Stack, l: nat)
    requires l < |s|
    ensures Offset(s, l + 1) == Offset(s, l) + |s[l]| <= |Places(s)|
  {
    OneLayerMore(s, l);
    PlacesPrefix(s, l + 1);
    hide Places;
  }

  ghost predicate Real(s: Stack, p: (nat, nat)) {
    p.0 < |s| && p.1 < |s[p.0]|
  }

  lemma {:induction false} PlacesReal(s: Stack, r: nat)
    requires r < |Places(s)|
    ensures Real(s, Places(s)[r]) && r == Offset(s, Places(s)[r].0) + Places(s)[r].1
    decreases |s|
  {
    var l := |s| - 1;
    var f := s[..l];
    if r < |Places(f)| {
      PlacesReal(f, r);
      assert f[..Places(f)[r].0] == s[..Places(f)[r].0];
    }
  }

  /** Conductance between two nodes of the package. */
  function Coupling(s: Stack, p: (nat, nat), q: (nat, nat)): real
    requires GoodStack(s)
  {
    if !(p.0 < |s| && p.1 < |s[p.0]| && q.0 < |s| && q.1 < |s[q.0]|) then 0.0
    else if p.0 == q.0 then (if p.1 == q.1 then 0.0 else Lateral(s[p.0][p.1], s[q.0][q.1]))
    else if q.0 == p.0 + 1 then Vertical(s[p.0][p.1], s[q.0][q.1])
    else if p.0 == q.0 + 1 then Vertical(s[q.0][q.1], s[p.0][p.1])
    else 0.0
  }

  lemma CouplingSymmetric(s: Stack, p: (nat, nat), q: (nat, nat))
    requires GoodStack(s)
    ensures Coupling(s, p, q) == Coupling(s, q, p) >= 0.0
    ensures Coupling(s, p, p) == 0.0
  {
    hide Lateral, Vertical;
    if p.0 < |s| && p.1 < |s[p.0]| && q.0 < |s| && q.1 < |s[q.0]| {
      LateralSymmetric(s[p.0][p.1], s[q.0][q.1]);
      VerticalNonNegative(s[p.0][p.1], s[q.0][q.1]);
      VerticalNonNegative(s[q.0][q.1], s[p.0][p.1]);
    }
  }

  // ---------------------------------------------------------------- the matrix

  ghost function Size(s: Stack): nat {
    |Places(s)|
  }

  /** Conductance between the nodes of two rows. */
  ghost function G(s: Stack): (nat, nat) -> real
    requires GoodStack(s)
  {
    (r: nat, c: nat) => if r < |Places(s)| && c < |Places(s)| then Coupling(s, Places(s)[r], Places(s)[c]) else 0.0
  }

  /** Conductance from a row's node to the surroundings. */
  ghost function FilmAt(s: Stack): nat -> real {
    (r: nat) => if r < |Places(s)| && Real(s, Places(s)[r]) then s[Places(s)[r].0][Places(s)[r].1].film else 0.0
  }

  /** The matrix the solver uses: everything a node can lose on the diagonal, and what it shares with
      each other node, negated, beside it. */
  ghost function Laplacian(s: Stack): (nat, nat) -> real
    requires GoodStack(s)
  {
    (r: nat, c: nat) => (if r == c then SumTo(RowOf(G(s), r), Size(s)) + FilmAt(s)(r) else 0.0) - G(s)(r, c)
  }

  lemma GSymmetric(s: Stack, r: nat, c: nat)
    requires GoodStack(s)
    ensures G(s)(r, c) == G(s)(c, r) >= 0.0 && G(s)(r, r) == 0.0
  {
    hide Coupling;
    if r < Size(s) && c < Size(s) { CouplingSymmetric(s, Places(s)[r], Places(s)[c]); }
    if r < Size(s) { CouplingSymmetric(s, Places(s)[r], Places(s)[r]); }
  }

  /** The matrix is symmetric and nothing off its diagonal is positive. */
  lemma LaplacianSymmetric(s: Stack, r: nat, c: nat)
    requires GoodStack(s)
    ensures Laplacian(s)(r, c) == Laplacian(s)(c, r)
    ensures r != c ==> Laplacian(s)(r, c) <= 0.0
  {
    GSymmetric(s, r, c);
  }

  ghost function Diagonal(s: Stack, r: nat): nat -> real
    requires GoodStack(s)
  {
    (c: nat) => if r == c then SumTo(RowOf(G(s), r), Size(s)) + FilmAt(s)(r) else 0.0
  }

  /** Each row adds up to the node's conductance to the surroundings. */
  lemma RowsSumToFilm(s: Stack, r: nat)
    requires GoodStack(s) && r < Size(s)
    ensures SumTo(RowOf(Laplacian(s), r), Size(s)) == FilmAt(s)(r)
  {
    var n := Size(s);
    SumSingle(Diagonal(s, r), n, r);
    SumAdd(RowOf(Laplacian(s), r), RowOf(G(s), r), Diagonal(s, r), n);
  }

  // ---------------------------------------------------------------- heat flow

  /** The heat flowing out of row `r` towards column `c` at temperatures `t`. */
  ghost function Flow(s: Stack, t: nat -> real): (nat, nat) -> real
    requires GoodStack(s)
  {
    (r: nat, c: nat) => Times(Laplacian(s)(r, c), t(c))
  }

  ghost function Losses(s: Stack, t: nat -> real): nat -> real {
    (r: nat) => Times(FilmAt(s)(r), t(r))
  }

  lemma ColumnFlow(s: Stack, t: nat -> real, c: nat)
    requires GoodStack(s) && c < Size(s)
    ensures ColSums(Flow(s, t), Size(s))(c) == Losses(s, t)(c)
  {
    var n := Size(s);
    hide Times;
    RowsSumToFilm(s, c);
    forall r: nat | r < n ensures ColOf(Flow(s, t), c)(r) == Times(t(c), RowOf(Laplacian(s), c)(r)) {
      LaplacianSymmetric(s, r, c);
      TimesAdds(Laplacian(s)(r, c), t(c), 0.0);
    }
    SumScaled(t(c), RowOf(Laplacian(s), c), ColOf(Flow(s, t), c), n);
    TimesAdds(t(c), FilmAt(s)(c), 0.0);
  }

  /** Internal heat flows cancel: whatever the temperatures, the package as a whole loses exactly
      what its exposed faces pass to the surroundings. */
  lemma HeatBalance(s: Stack, t: nat -> real)
    requires GoodStack(s)
    ensures Sum2(Flow(s, t), Size(s), Size(s)) == SumTo(Losses(s, t), Size(s))
  {
    var n := Size(s);
    SumSwap(Flow(s, t), n, n);
    forall c: nat | c < n ensures ColSums(Flow(s, t), n)(c) == Losses(s, t)(c) { ColumnFlow(s, t, c); }
    SumSame(ColSums(Flow(s, t), n), Losses(s, t), n);
  }

  // ---------------------------------------------------------------- stability

  /** The matrix as a quadratic form, term by term. */
  ghost function Form(s: Stack, t: nat -> real): (nat, nat) -> real
    requires GoodStack(s)
  {
    (r: nat, c: nat) => Times(t(r), Times(Laplacian(s)(r, c), t(c)))
  }

  /** The share of a pair of nodes, seen from the first. */
  ghost function Half(s: Stack, t: nat -> real): (nat, nat) -> real
    requires GoodStack(s)
  {
    (r: nat, c: nat) => Times(G(s)(r, c), Times(t(r), t(r)) - Times(t(r), t(c)))
  }

  ghost function Square(s: Stack, t: nat -> real): (nat, nat) -> real
    requires GoodStack(s)
  {
    (r: nat, c: nat) => Times(G(s)(r, c), Times(t(r) - t(c), t(r) - t(c)))
  }

  ghost function FilmSquare(s: Stack, t: nat -> real): nat -> real {
    (r: nat) => Times(FilmAt(s)(r), Times(t(r), t(r)))
  }

  /** Terms of row `r` on the diagonal. */
  ghost function DiagonalTerm(s: Stack, t: nat -> real, r: nat): nat -> real
    requires GoodStack(s)
  {
    (c: nat) => if r == c then Times(SumTo(RowOf(G(s), r), Size(s)) + FilmAt(s)(r), Times(t(r), t(r))) else 0.0
  }

  ghost function CrossTerm(s: Stack, t: nat -> real, r: nat): nat -> real
    requires GoodStack(s)
  {
    (c: nat) => Times(G(s)(r, c), Times(t(r), t(c)))
  }

  ghost function OwnTerm(s: Stack, t: nat -> real, r: nat): nat -> real
    requires GoodStack(s)
  {
    (c: nat) => Times(Times(t(r), t(r)), G(s)(r, c))
  }

  lemma RowForm(s: Stack, t: nat -> real, r: nat)
    requires GoodStack(s) && r < Size(s)
    ensures RowSums(Form(s, t), Size(s))(r) == RowSums(Half(s, t), Size(s))(r) + FilmSquare(s, t)(r)
  {
    hide Times, G, FilmAt, Places;
    var n := Size(s);
    var total := SumTo(RowOf(G(s), r), n);
    forall c: nat | c < n ensures DiagonalTerm(s, t, r)(c) == RowOf(Form(s, t), r)(c) + CrossTerm(s, t, r)(c) {
      assert Laplacian(s)(r, c) == (if r == c then total + FilmAt(s)(r) else 0.0) - G(s)(r, c);
      FormTerm(total + FilmAt(s)(r), G(s)(r, c), t(r), t(c), r == c);
    }
    SumAdd(RowOf(Form(s, t), r), CrossTerm(s, t, r), DiagonalTerm(s, t, r), n);
    SumSingle(DiagonalTerm(s, t, r), n, r);
    SumScaled(Times(t(r), t(r)), RowOf(G(s), r), OwnTerm(s, t, r), n);
    forall c: nat | c < n ensures OwnTerm(s, t, r)(c) == RowOf(Half(s, t), r)(c) + CrossTerm(s, t, r)(c) {
      HalfTerm(G(s)(r, c), t(r), t(c));
    }
    SumAdd(RowOf(Half(s, t), r), CrossTerm(s, t, r), OwnTerm(s, t, r), n);
    Collect(total, FilmAt(s)(r), Times(t(r), t(r)));
  }

  lemma FormTerm(d: real, g: real, a: real, b: real, same: bool)
    requires same ==> a == b
    ensures (if same then Times(d, Times(a, a)) else 0.0) == Times(a, Times((if same then d else 0.0) - g, b)) + Times(g, Times(a, b))
  {
  }

  lemma HalfTerm(g: real, a: real, b: real)
    ensures Times(Times(a, a), g) == Times(g, Times(a, a) - Times(a, b)) + Times(g, Times(a, b))
  {
  }

  lemma Collect(total: real, film: real, square: real)
    ensures Times(total + film, square) == Times(square, total) + Times(film, square)
  {
  }

  /** Twice the form is the sum of squared temperature differences over all pairs, plus twice the
      film terms: no temperature profile can make the network gain heat by itself. */
  lemma FormIsSquares(s: Stack, t: nat -> real)
    requires GoodStack(s)
    ensures 2.0 * Sum2(Form(s, t), Size(s), Size(s)) == Sum2(Square(s, t), Size(s), Size(s)) + 2.0 * SumTo(FilmSquare(s, t), Size(s))
  {
    hide Times, G, FilmAt, Places;
    var n := Size(s);
    forall r: nat | r < n ensures RowSums(Form(s, t), n)(r) == RowSums(Half(s, t), n)(r) + FilmSquare(s, t)(r) { RowForm(s, t, r); }
    SumAdd(RowSums(Half(s, t), n), FilmSquare(s, t), RowSums(Form(s, t), n), n);
    forall r: nat, c: nat | r < n && c < n ensures Square(s, t)(r, c) == Half(s, t)(r, c) + Flip(Half(s, t))(r, c) {
      GSymmetric(s, r, c);
      SquareTerm(G(s)(r, c), t(r), t(c));
    }
    Sum2Add(Half(s, t), Flip(Half(s, t)), Square(s, t), n, n);
    SumFlip(Half(s, t), n);
  }

  lemma SquareTerm(g: real, a: real, b: real)
    ensures Times(g, Times(a - b, a - b)) == Times(g, Times(a, a) - Times(a, b)) + Times(g, Times(b, b) - Times(b, a))
  {
  }

  lemma NonNegativeTerm(g: real, a: real)
    requires g >= 0.0
    ensures Times(g, Times(a, a)) >= 0.0
  {
    assert a * a >= 0.0;
  }

  /** The matrix is positive semidefinite. */
  lemma Dissipative(s: Stack, t: nat -> real)
    requires GoodStack(s)
    ensures Sum2(Form(s, t), Size(s), Size(s)) >= 0.0
  {
    hide Times, G, FilmAt, Places, Form;
    var n := Size(s);
    FormIsSquares(s, t);
    forall r: nat, c: nat | r < n && c < n ensures 0.0 <= Square(s, t)(r, c) {
      GSymmetric(s, r, c);
      NonNegativeTerm(G(s)(r, c), t(r) - t(c));
    }
    Sum2NonNegative(Square(s, t), n, n);
    forall r: nat | r < n ensures 0.0 <= FilmSquare(s, t)(r) {
      FilmNonNegative(s, r);
      NonNegativeTerm(FilmAt(s)(r), t(r));
    }
    SumNonNegative(FilmSquare(s, t), n);
  }

  lemma FilmNonNegative(s: Stack, r: nat)
    requires GoodStack(s)
    ensures FilmAt(s)(r) >= 0.0
  {
    if r < Size(s) { PlacesReal(s, r); }
  }

  // ---------------------------------------------------------------- isolated nodes

  /** A row has an entry at all exactly when its node touches another or the surroundings. */
  lemma RowHasEntry(s: Stack, r: nat)
    requires GoodStack(s) && r < Size(s)
    ensures (exists c: nat :: c < Size(s) && Laplacian(s)(r, c) != 0.0) <==>
            FilmAt(s)(r) > 0.0 || exists c: nat :: c < Size(s) && G(s)(r, c) > 0.0
  {
    var n := Size(s);
    FilmNonNegative(s, r);
    RowsSumToFilm(s, r);
    forall c: nat ensures G(s)(r, c) >= 0.0 && G(s)(r, r) == 0.0 { GSymmetric(s, r, c); }
    hide G, FilmAt, Places;
    if forall c: nat | c < n :: Laplacian(s)(r, c) == 0.0 {
      SumZero(RowOf(Laplacian(s), r), n);
      forall c: nat | c < n ensures G(s)(r, c) == 0.0 {
        assert c != r ==> Laplacian(s)(r, c) == -G(s)(r, c);
      }
    }
    if FilmAt(s)(r) == 0.0 && forall c: nat | c < n :: G(s)(r, c) == 0.0 {
      SumZero(RowOf(G(s), r), n);
      assert forall c: nat | c < n :: Laplacian(s)(r, c) == 0.0;
    }
  }
}
