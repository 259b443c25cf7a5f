/** The conductances of the package in physical terms (node_class.py, layer_class.py, common.py): heat
    passes through the halves of two nodes one after the other, so their resistances add up. */
module ThermalLaws {
  import opened ThermalGrid
  import opened ThermalNetwork
  import opened Sums

  /** What a node is made of: lengths in millimetres, conductivities in watts per metre and kelvin. */
  datatype Brick = Brick(cell: Cell, thickness: real, k: Conductivity, bc: Boundary)

  predicate Solid(b: Brick) {
    && b.cell.x.length > 0.0 && b.cell.y.length > 0.0 && b.thickness > 0.0
    && b.k.kx > 0.0 && b.k.ky > 0.0 && b.k.kz > 0.0 && (b.bc.Exposed? ==> b.bc.h >= 0.0)
  }

  function NodeOf(b: Brick): Node
    requires Solid(b)
  {
    MakeNode(b.cell, b.thickness, b.k, b.bc)
  }

  /** Resistance of half a node towards a side face, per unit of the face's length. */
  function SideResistance(length: real, k: real, thickness: real): real
    requires k > 0.0 && thickness > 0.0
  {
    PositiveProduct(k, thickness);
    500.0 * length / (k * thickness)
  }

  /** Resistance of half a node towards its upper or lower face, per unit of area. */
  function DepthResistance(thickness: real, k: real): real
    requires k > 0.0
  {
    500.0 * thickness / k
  }

  /** Resistance of the film on an exposed face, per unit of area. */
  function FilmResistance(h: real): real
    requires h > 0.0
  {
    1000000.0 / h
  }

  /** The area of a face. */
  function Face(size: real, depth: real): real {
    size * depth
  }

  lemma FaceOfUnitDepth(area: real)
    ensures Face(area, 1.0) == area
  {
  }

  lemma BrickFacts(b: Brick)
    requires Solid(b)
    ensures var n, x, y := NodeOf(b), b.cell.x.length, b.cell.y.length;
            && Good(n) && n.cell == b.cell && Face(y, b.thickness) > 0.0 && Face(x, b.thickness) > 0.0 && b.cell.Area() > 0.0
            && n.gx == Conductance(b.k.kx, Face(y, b.thickness), x) && n.gy == Conductance(b.k.ky, Face(x, b.thickness), y)
            && n.gz == Conductance(b.k.kz, b.cell.Area(), b.thickness) && n.film == Film(b.bc, b.cell.Area(), n.gz)
  {
    PositiveProduct(b.cell.y.length, b.thickness);
    PositiveProduct(b.cell.x.length, b.thickness);
    PositiveProduct(b.cell.x.length, b.cell.y.length);
    hide Conductance;
  }

  // ---------------------------------------------------------------- arithmetic

  lemma Cancel(a: real, b: real, z: real)
    requires z != 0.0 && a * z == b * z
    ensures a == b
  {
    assert (a - b) * z == 0.0;
  }

  lemma Undo(n: real, d: real)
    requires d != 0.0
    ensures n / d * d == n
  {
  }

  lemma Reassociate(a: real, b: real, c: real)
    ensures a * (b * c) == (a * b) * c
  {
  }

  lemma Reciprocal(a: real, b: real)
    requires a > 0.0 && b > 0.0
    ensures (a / b) * (b / a) == 1.0
  {
    Undo(a, b);
    Undo(b, a);
    var p, q := a / b, b / a;
    Reassociate(p, q, a);
    var qa := q * a;
    assert qa == b && p * qa == a;
    Cancel(p * q, 1.0, a);
  }

  lemma RegroupSum(a: real, b: real, z: real, w: real)
    ensures (a * z) * w + (b * w) * z == (a + b) * (z * w)
  {
    assert (a * z) * w == a * (z * w) && (b * w) * z == b * (z * w);
  }

  lemma RegroupProduct(s: real, a: real, z: real, b: real, w: real)
    ensures s * (a * z) * (b * w) == (s * a * b) * (z * w)
  {
    assert s * (a * z) == (s * a) * z;
    assert ((s * a) * z) * (b * w) == ((s * a) * b) * (z * w) by {
      assert z * (b * w) == b * (z * w);
    }
  }

  /** Two conductances that amount to `u1` and `u2` per unit of face, in series over a face of size
      `shared`. */
  lemma JointPerUnit(shared: real, g1: real, g2: real, u1: real, u2: real, z1: real, z2: real)
    requires g1 > 0.0 && g2 > 0.0 && z1 > 0.0 && z2 > 0.0 && g1 == u1 * z1 && g2 == u2 * z2
    ensures Joint(shared, g1, g2, z1, z2) * (u1 + u2) == shared * u1 * u2
  {
    var den, num := g1 * z2 + g2 * z1, shared * g1 * g2;
    PositiveProduct(g1, z2);
    PositiveProduct(g2, z1);
    Undo(num, den);
    RegroupSum(u1, u2, z1, z2);
    RegroupProduct(shared, u1, z1, u2, z2);
    PositiveProduct(z1, z2);
    var j := Joint(shared, g1, g2, z1, z2);
    Reassociate(j, u1 + u2, z1 * z2);
    Cancel(j * (u1 + u2), shared * u1 * u2, z1 * z2);
  }

  /** Resistances in series add up. */
  lemma SeriesResistance(j: real, shared: real, u1: real, u2: real, r1: real, r2: real)
    requires j * (u1 + u2) == shared * u1 * u2 && u1 * r1 == 1.0 && u2 * r2 == 1.0
    ensures j * (r1 + r2) == shared
  {
    assert (u1 + u2) * (r1 * r2) == r2 + r1 by {
      assert u1 * (r1 * r2) == (u1 * r1) * r2;
      assert u2 * (r1 * r2) == (u2 * r2) * r1;
    }
    Reassociate(j, u1 + u2, r1 * r2);
    assert (shared * u1 * u2) * (r1 * r2) == shared * (u1 * r1) * (u2 * r2) by { RegroupProduct(shared, u1, r1, u2, r2); }
  }

  /** A node's conductance towards a face of `size * depth`, as so much per unit of `size`. */
  lemma PerUnit(k: real, size: real, depth: real, length: real, r: real) returns (u: real)
    requires k > 0.0 && size > 0.0 && depth > 0.0 && length > 0.0 && Face(size, depth) > 0.0 && r == 500.0 * length / (k * depth)
    ensures Conductance(k, Face(size, depth), length) > 0.0
    ensures Conductance(k, Face(size, depth), length) == u * size && u * r == 1.0
  {
    PositiveProduct(k, depth);
    u := k * depth / (500.0 * length);
    Reciprocal(k * depth, 500.0 * length);
    ConductancePositive(k, Face(size, depth), length);
    var c, d := Conductance(k, Face(size, depth), length), length * 1000.0;
    Undo(k * Face(size, depth) * 2.0, d);
    Undo(k * depth, 500.0 * length);
    Balance(u, size, 500.0 * length, k, depth);
    assert d == 2.0 * (500.0 * length);
    Cancel(c, u * size, d);
  }

  lemma Balance(u: real, size: real, b: real, k: real, depth: real)
    requires u * b == k * depth
    ensures (u * size) * (2.0 * b) == k * (size * depth) * 2.0
  {
    assert (u * size) * (2.0 * b) == 2.0 * (size * (u * b));
    assert size * (k * depth) == k * (size * depth);
  }

  /** The conductance across a shared face times the sum of the two halves' resistances is the size of
      the face. */
  lemma SeriesLaw(shared: real, g1: real, g2: real, k1: real, k2: real, z1: real, z2: real, d1: real, d2: real,
                  length1: real, length2: real, r1: real, r2: real)
    requires k1 > 0.0 && z1 > 0.0 && d1 > 0.0 && length1 > 0.0 && Face(z1, d1) > 0.0 && r1 == 500.0 * length1 / (k1 * d1)
    requires k2 > 0.0 && z2 > 0.0 && d2 > 0.0 && length2 > 0.0 && Face(z2, d2) > 0.0 && r2 == 500.0 * length2 / (k2 * d2)
    requires g1 == Conductance(k1, Face(z1, d1), length1) && g2 == Conductance(k2, Face(z2, d2), length2)
    ensures g1 > 0.0 && g2 > 0.0 && Joint(shared, g1, g2, z1, z2) * (r1 + r2) == shared
  {
    hide Conductance, Joint;
    var u1 := PerUnit(k1, z1, d1, length1, r1);
    var u2 := PerUnit(k2, z2, d2, length2, r2);
    JointPerUnit(shared, g1, g2, u1, u2, z1, z2);
    SeriesResistance(Joint(shared, g1, g2, z1, z2), shared, u1, u2, r1, r2);
  }

  lemma LateralIs(a: Node, b: Node)
    requires Good(a) && Good(b)
    ensures TouchesY(a.cell, b.cell) ==>
              Lateral(a, b) == Joint(OverlapLength(a.cell.x, b.cell.x), a.gy, b.gy, a.cell.x.length, b.cell.x.length)
    ensures !TouchesY(a.cell, b.cell) && TouchesX(a.cell, b.cell) ==>
              Lateral(a, b) == Joint(OverlapLength(a.cell.y, b.cell.y), a.gx, b.gx, a.cell.y.length, b.cell.y.length)
    ensures !TouchesY(a.cell, b.cell) && !TouchesX(a.cell, b.cell) ==> Lateral(a, b) == 0.0
  {
    hide Joint, OverlapLength;
  }

  lemma VerticalIs(a: Node, b: Node)
    requires Good(a) && Good(b)
    ensures a.cell.Area() > 0.0 && b.cell.Area() > 0.0
    ensures Vertical(a, b) == if CommonArea(a, b) > 0.0 then Joint(CommonArea(a, b), a.gz, b.gz, a.cell.Area(), b.cell.Area()) else 0.0
  {
    hide Joint, CommonArea;
    PositiveProduct(a.cell.x.length, a.cell.y.length);
    PositiveProduct(b.cell.x.length, b.cell.y.length);
    hide Cell.Area;
  }

  // ---------------------------------------------------------------- the laws

  /** One interval ends where the other begins, to within a ten-thousandth. */
  predicate Meet(a: Span, b: Span) {
    -0.0001 < a.End() - b.start < 0.0001 || -0.0001 < b.End() - a.start < 0.0001
  }

  /** Neighbours along y: the conductance between them times the sum of their halves' resistances is the
      length they share. */
  lemma LateralLawY(a: Brick, b: Brick)
    requires Solid(a) && Solid(b) && Meet(a.cell.y, b.cell.y)
    ensures Lateral(NodeOf(a), NodeOf(b))
          * (SideResistance(a.cell.y.length, a.k.ky, a.thickness) + SideResistance(b.cell.y.length, b.k.ky, b.thickness))
         == OverlapLength(a.cell.x, b.cell.x)
  {
    hide Joint, Conductance, OverlapLength, NodeOf, Film, Lateral, Good, Face;
    BrickFacts(a);
    BrickFacts(b);
    var m, n, shared := NodeOf(a), NodeOf(b), OverlapLength(a.cell.x, b.cell.x);
    var r1, r2 := SideResistance(a.cell.y.length, a.k.ky, a.thickness), SideResistance(b.cell.y.length, b.k.ky, b.thickness);
    SeriesLaw(shared, m.gy, n.gy, a.k.ky, b.k.ky, a.cell.x.length, b.cell.x.length, a.thickness, b.thickness, a.cell.y.length, b.cell.y.length, r1, r2);
    LateralIs(m, n);
    assert TouchesY(a.cell, b.cell);
  }

  /** Neighbours along x that do not meet along y: the same the other way round. */
  lemma LateralLawX(a: Brick, b: Brick)
    requires Solid(a) && Solid(b) && Meet(a.cell.x, b.cell.x) && !Meet(a.cell.y, b.cell.y)
    ensures Lateral(NodeOf(a), NodeOf(b))
          * (SideResistance(a.cell.x.length, a.k.kx, a.thickness) + SideResistance(b.cell.x.length, b.k.kx, b.thickness))
         == OverlapLength(a.cell.y, b.cell.y)
  {
    hide Joint, Conductance, OverlapLength, NodeOf, Film, Lateral, Good, Face;
    BrickFacts(a);
    BrickFacts(b);
    var m, n, shared := NodeOf(a), NodeOf(b), OverlapLength(a.cell.y, b.cell.y);
    var r1, r2 := SideResistance(a.cell.x.length, a.k.kx, a.thickness), SideResistance(b.cell.x.length, b.k.kx, b.thickness);
    SeriesLaw(shared, m.gx, n.gx, a.k.kx, b.k.kx, a.cell.y.length, b.cell.y.length, a.thickness, b.thickness, a.cell.x.length, b.cell.x.length, r1, r2);
    LateralIs(m, n);
    assert TouchesX(a.cell, b.cell) && !TouchesY(a.cell, b.cell);
  }

  /** Nodes that meet along neither axis exchange no heat within their layer. */
  lemma LateralLawApart(a: Brick, b: Brick)
    requires Solid(a) && Solid(b) && !Meet(a.cell.x, b.cell.x) && !Meet(a.cell.y, b.cell.y)
    ensures Lateral(NodeOf(a), NodeOf(b)) == 0.0
  {
    hide Joint, Conductance, NodeOf, Film, OverlapLength, Lateral;
    BrickFacts(a);
    BrickFacts(b);
    LateralIs(NodeOf(a), NodeOf(b));
  }

  /** Stacked nodes: the conductance between them times the sum of their halves' resistances is the area
      they share. */
  lemma VerticalLaw(bottom: Brick, top: Brick)
    requires Solid(bottom) && Solid(top)
    ensures Vertical(NodeOf(bottom), NodeOf(top)) * (DepthResistance(bottom.thickness, bottom.k.kz) + DepthResistance(top.thickness, top.k.kz))
         == SharedArea(bottom.cell, top.cell)
  {
    hide Joint, Conductance, OverlapLength, NodeOf, Film, SharedArea, CommonArea, Vertical, Good, Cell.Area, Face;
    BrickFacts(bottom);
    BrickFacts(top);
    var m, n, shared := NodeOf(bottom), NodeOf(top), SharedArea(bottom.cell, top.cell);
    var r1, r2 := DepthResistance(bottom.thickness, bottom.k.kz), DepthResistance(top.thickness, top.k.kz);
    FaceOfUnitDepth(bottom.cell.Area());
    FaceOfUnitDepth(top.cell.Area());
    SeriesLaw(shared, m.gz, n.gz, bottom.k.kz, top.k.kz, bottom.cell.Area(), top.cell.Area(), 1.0, 1.0, bottom.thickness, top.thickness, r1, r2);
    SharedAreaFacts(m, n);
    VerticalIs(m, n);
    if CommonArea(m, n) == 0.0 { assert 0.0 * (r1 + r2) == 0.0; }
  }

  /** The area two cells have in common, seen from above. */
  function SharedArea(a: Cell, b: Cell): real {
    OverlapLength(a.x, b.x) * OverlapLength(a.y, b.y)
  }

  lemma SharedAreaFacts(a: Node, b: Node)
    ensures SharedArea(a.cell, b.cell) == CommonArea(a, b) >= 0.0
  {
    assert OverlapLength(a.cell.x, b.cell.x) >= 0.0 && OverlapLength(a.cell.y, b.cell.y) >= 0.0;
    hide OverlapLength;
  }

  /** Through an exposed face heat passes the half of the node behind it and then the film; inner nodes
      pass none. */
  lemma FilmLaw(b: Brick)
    requires Solid(b)
    ensures b.bc.Inner? || b.bc.h == 0.0 ==> NodeOf(b).film == 0.0
    ensures b.bc.Exposed? && b.bc.h > 0.0 ==>
              NodeOf(b).film * (FilmResistance(b.bc.h) + DepthResistance(b.thickness, b.k.kz)) == b.cell.Area()
  {
    hide Conductance, NodeOf, Cell.Area, InSeries, FilmResistance, DepthResistance, FilmConductance, Face;
    BrickFacts(b);
    FilmIs(b.bc, b.cell.Area(), NodeOf(b).gz);
    hide Film;
    if b.bc.Exposed? && b.bc.h > 0.0 { FilmPerUnit(b.bc.h, b.cell.Area(), b.k.kz, b.thickness); }
  }

  /** Conductance of the film alone. */
  function FilmConductance(h: real, area: real): real {
    h * area / 1000000.0
  }

  lemma FilmIs(bc: Boundary, area: real, gz: real)
    requires gz > 0.0 && area > 0.0 && (bc.Exposed? ==> bc.h >= 0.0)
    ensures bc.Inner? || bc.h == 0.0 ==> Film(bc, area, gz) == 0.0
    ensures bc.Exposed? && bc.h > 0.0 ==> FilmConductance(bc.h, area) + gz != 0.0 && Film(bc, area, gz) == InSeries(FilmConductance(bc.h, area), gz)
  {
    if bc.Exposed? {
      assert bc.h * area >= 0.0;
      if bc.h == 0.0 { assert bc.h * area / 1000000.0 == 0.0; }
    }
  }

  lemma FilmPerUnit(h: real, area: real, k: real, t: real)
    requires h > 0.0 && area > 0.0 && k > 0.0 && t > 0.0
    ensures Conductance(k, area, t) > 0.0 && FilmConductance(h, area) > 0.0
    ensures InSeries(FilmConductance(h, area), Conductance(k, area, t)) * (FilmResistance(h) + DepthResistance(t, k)) == area
  {
    hide Conductance, InSeries, Face;
    var u1 := h / 1000000.0;
    FaceOfUnitDepth(area);
    var u2 := PerUnit(k, area, 1.0, t, DepthResistance(t, k));
    PositiveProduct(h, area);
    PositiveQuotient(h, 1000000.0);
    assert FilmConductance(h, area) == u1 * area;
    SeriesPerUnit(u1, u2, area, FilmConductance(h, area), Conductance(k, area, t));
    Reciprocal(h, 1000000.0);
    SeriesResistance(InSeries(FilmConductance(h, area), Conductance(k, area, t)), area, u1, u2, FilmResistance(h), DepthResistance(t, k));
  }

  lemma SeriesPerUnit(u1: real, u2: real, area: real, a: real, b: real)
    requires a > 0.0 && b > 0.0 && area > 0.0 && a == u1 * area && b == u2 * area
    ensures InSeries(a, b) * (u1 + u2) == area * u1 * u2
  {
    Undo(a * b, a + b);
    var j := InSeries(a, b);
    assert a + b == (u1 + u2) * area;
    assert a * b == (area * u1 * u2) * area by {
      assert a * b == u1 * (area * (u2 * area));
      assert area * (u2 * area) == (area * u2) * area;
    }
    Reassociate(j, u1 + u2, area);
    Cancel(j * (u1 + u2), area * u1 * u2, area);
  }

  // ---------------------------------------------------------------- the matrix

  /** The stack that the given bricks make. */
  ghost predicate MadeOf(s: Stack, bricks: seq<seq<Brick>>) {
    && |s| == |bricks|
    && forall l: nat | l < |s| :: |s[l]| == |bricks[l]| && forall i: nat | i < |s[l]| :: Solid(bricks[l][i]) && s[l][i] == NodeOf(bricks[l][i])
  }

  lemma MadeIsGood(s: Stack, bricks: seq<seq<Brick>>)
    requires MadeOf(s, bricks)
    ensures GoodStack(s)
  {
    hide NodeOf;
    forall l, i | 0 <= l < |s| && 0 <= i < |s[l]| ensures Good(s[l][i]) {
      BrickFacts(bricks[l][i]);
    }
  }

  /** The conductance between two nodes as the matrix has it. */
  ghost function Between(s: Stack, l: nat, i: nat, m: nat, j: nat): real
    requires GoodStack(s) && l < |s| && i < |s[l]| && m < |s| && j < |s[m]|
  {
    -Laplacian(s)(Offset(s, l) + i, Offset(s, m) + j)
  }

  lemma BetweenIs(s: Stack, l: nat, i: nat, m: nat, j: nat)
    requires GoodStack(s) && l < |s| && i < |s[l]| && m < |s| && j < |s[m]| && (l, i) != (m, j)
    ensures Between(s, l, i, m, j) ==
              if l == m then Lateral(s[l][i], s[m][j])
              else if m == l + 1 then Vertical(s[l][i], s[m][j])
              else if l == m + 1 then Vertical(s[m][j], s[l][i])
              else 0.0
  {
    hide Places, Lateral, Vertical, Offset, SumTo, Coupling;
    PlaceOf(s, l, i);
    PlaceOf(s, m, j);
    var r, c := Offset(s, l) + i, Offset(s, m) + j;
    assert Places(s)[r] == (l, i) && Places(s)[c] == (m, j);
    assert r != c;
    assert G(s)(r, c) == Coupling(s, (l, i), (m, j));
    assert Between(s, l, i, m, j) == G(s)(r, c);
    CouplingIs(s, l, i, m, j);
  }

  lemma CouplingIs(s: Stack, l: nat, i: nat, m: nat, j: nat)
    requires GoodStack(s) && l < |s| && i < |s[l]| && m < |s| && j < |s[m]| && (l, i) != (m, j)
    ensures Coupling(s, (l, i), (m, j)) ==
              if l == m then Lateral(s[l][i], s[m][j])
              else if m == l + 1 then Vertical(s[l][i], s[m][j])
              else if l == m + 1 then Vertical(s[m][j], s[l][i])
              else 0.0
  {
    hide Lateral, Vertical;
  }

  lemma FilmOf(s: Stack, l: nat, i: nat)
    requires GoodStack(s) && l < |s| && i < |s[l]|
    ensures Offset(s, l) + i < Size(s) && FilmAt(s)(Offset(s, l) + i) == s[l][i].film
  {
    PlaceOf(s, l, i);
    hide Places, Offset;
  }

  /** Within a layer, the entry for two nodes is the conductance of their halves in series across the side
      they share: along y where they meet along y, else along x, and nothing where they do not meet. */
  lemma SideEntries(s: Stack, bricks: seq<seq<Brick>>, l: nat, i: nat, j: nat)
    requires MadeOf(s, bricks) && l < |s| && i < |s[l]| && j < |s[l]| && i != j
    ensures GoodStack(s) && Solid(bricks[l][i]) && Solid(bricks[l][j])
    ensures var a, b, g := bricks[l][i], bricks[l][j], Between(s, l, i, l, j);
            if Meet(a.cell.y, b.cell.y) then
              g * (SideResistance(a.cell.y.length, a.k.ky, a.thickness) + SideResistance(b.cell.y.length, b.k.ky, b.thickness)) == OverlapLength(a.cell.x, b.cell.x)
            else if Meet(a.cell.x, b.cell.x) then
              g * (SideResistance(a.cell.x.length, a.k.kx, a.thickness) + SideResistance(b.cell.x.length, b.k.kx, b.thickness)) == OverlapLength(a.cell.y, b.cell.y)
            else g == 0.0
  {
    hide NodeOf, Lateral, SideResistance, OverlapLength, Between, GoodStack, Meet;
    MadeIsGood(s, bricks);
    BetweenIs(s, l, i, l, j);
    var a, b := bricks[l][i], bricks[l][j];
    if Meet(a.cell.y, b.cell.y) {
      LateralLawY(a, b);
    } else if Meet(a.cell.x, b.cell.x) {
      LateralLawX(a, b);
    } else {
      LateralLawApart(a, b);
    }
  }

  /** Between layers, the entry is the conductance of the halves in series across the area they share,
      for layers one on top of the other, and nothing for others. */
  lemma LayerEntries(s: Stack, bricks: seq<seq<Brick>>, l: nat, i: nat, m: nat, j: nat)
    requires MadeOf(s, bricks) && l < m < |s| && i < |s[l]| && j < |s[m]|
    ensures GoodStack(s) && Solid(bricks[l][i]) && Solid(bricks[m][j])
    ensures Between(s, l, i, m, j) == Between(s, m, j, l, i)
    ensures var a, b, g := bricks[l][i], bricks[m][j], Between(s, l, i, m, j);
            if m == l + 1 then g * (DepthResistance(a.thickness, a.k.kz) + DepthResistance(b.thickness, b.k.kz)) == SharedArea(a.cell, b.cell)
            else g == 0.0
  {
    hide NodeOf, Vertical, DepthResistance, SharedArea, Between, GoodStack, Lateral;
    MadeIsGood(s, bricks);
    BetweenIs(s, l, i, m, j);
    BetweenIs(s, m, j, l, i);
    if m == l + 1 { VerticalLaw(bricks[l][i], bricks[m][j]); }
  }

  /** A row as a whole adds up to the conductance of the node's half and the film in series, where the node
      is exposed to a cooled face, and to nothing elsewhere. */
  lemma RowEntries(s: Stack, bricks: seq<seq<Brick>>, l: nat, i: nat)
    requires MadeOf(s, bricks) && l < |s| && i < |s[l]|
    ensures GoodStack(s) && Solid(bricks[l][i])
    ensures var b, sum := bricks[l][i], SumTo(RowOf(Laplacian(s), Offset(s, l) + i), Size(s));
            if b.bc.Exposed? && b.bc.h > 0.0 then sum * (FilmResistance(b.bc.h) + DepthResistance(b.thickness, b.k.kz)) == b.cell.Area()
            else sum == 0.0
  {
    hide NodeOf, GoodStack, Laplacian, FilmAt, Size, Offset, DepthResistance, FilmResistance, Cell.Area, SumTo;
    MadeIsGood(s, bricks);
    FilmOf(s, l, i);
    RowsSumToFilm(s, Offset(s, l) + i);
    FilmLaw(bricks[l][i]);
  }
}
