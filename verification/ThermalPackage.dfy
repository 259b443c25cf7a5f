/** The conductance matrix from the stack of layers to its compressed form (package_class.py). */
module ThermalPackage {
  import opened ThermalGrid
  import opened ThermalNetwork
  import opened ThermalAssembly
  import opened ThermalSparse

  /** The node passes heat to another node or to the surroundings. */
  ghost predicate Touches(s: Stack, r: nat)
    requires GoodStack(s)
  {
    FilmAt(s)(r) > 0.0 || exists c: nat :: c < Size(s) && G(s)(r, c) > 0.0
  }

  /** The array is the stack's matrix. */
  ghost predicate IsMatrix(a: array2<real>, s: Stack)
    requires GoodStack(s)
    reads a
  {
    && a.Length0 == a.Length1 == Size(s)
    && forall r: nat, c: nat | r < a.Length0 && c < a.Length1 :: a[r, c] == Laplacian(s)(r, c)
  }

  lemma StoredIfTouching(a: array2<real>, s: Stack, r: nat)
    requires GoodStack(s) && IsMatrix(a, s) && r < Size(s)
    ensures NonZeros(RowSeq(a, r)) != [] <==> Touches(s, r)
  {
    var row := RowSeq(a, r);
    NonZerosExist(row);
    RowHasEntry(s, r);
    hide Laplacian, NonZeros, G, FilmAt, Places;
    if c: nat :| c < Size(s) && Laplacian(s)(r, c) != 0.0 { assert row[c] != 0.0; }
    if c :| 0 <= c < |row| && row[c] != 0.0 { assert Laplacian(s)(r, c) != 0.0; }
  }

  /** Assembles the matrix of a stack and compresses it.  Compression succeeds if and only if there
      is a node and every node passes heat to another or to the surroundings; then the compressed
      rows are those of the stack's matrix. */
  method ConnectAndCompress(s: Stack) returns (ok: bool, values: array2<real>, index: array2<nat>, w: nat, a: array2<real>)
    requires GoodStack(s) && |s| >= 2
    ensures IsMatrix(a, s)
    ensures ok <==> Size(s) > 0 && forall r: nat | r < Size(s) :: Touches(s, r)
    ensures ok ==> forall r: nat | r < Size(s) :: PaddedRow(a, r, values, index, w)
  {
    hide Touches, NonZeros, PaddedRow, Laplacian, IsMatrix, Places;
    a := AssembleMatrix(s);
    ok, values, index, w := CompressMatrix(a, s);
  }

  method AssembleMatrix(s: Stack) returns (a: array2<real>)
    requires GoodStack(s) && |s| >= 2
    ensures IsMatrix(a, s)
  {
    hide Laplacian, Places;
    a := Assemble(s);
  }

  method CompressMatrix(a: array2<real>, s: Stack) returns (ok: bool, values: array2<real>, index: array2<nat>, w: nat)
    requires GoodStack(s) && IsMatrix(a, s)
    ensures ok <==> Size(s) > 0 && forall r: nat | r < Size(s) :: Touches(s, r)
    ensures ok ==> forall r: nat | r < Size(s) :: PaddedRow(a, r, values, index, w)
  {
    hide Touches, NonZeros, PaddedRow, Laplacian, Places, IsWidth, RowSeq;
    ok, values, index, w := Compress(a);
    AllStored(a, s);
  }

  lemma AllStored(a: array2<real>, s: Stack)
    requires GoodStack(s) && IsMatrix(a, s)
    ensures (forall r: nat | r < a.Length0 :: NonZeros(RowSeq(a, r)) != []) <==> (forall r: nat | r < Size(s) :: Touches(s, r))
  {
    hide Touches, NonZeros, Laplacian, Places, RowSeq;
    forall r: nat | r < Size(s) ensures NonZeros(RowSeq(a, r)) != [] <==> Touches(s, r) { StoredIfTouching(a, s, r); }
  }

  // ---------------------------------------------------------------- a stack that fails

  function UnitCell(at: real): Cell {
    Cell(Span(at, 1.0), Span(at, 1.0))
  }

  function UnitNode(at: real, bc: Boundary): Node
    requires bc.Exposed? ==> bc.h >= 0.0
  {
    MakeNode(UnitCell(at), 1.0, Conductivity(500.0, 500.0, 500.0), bc)
  }

  /** Three layers of one node each, cooled below and above; the middle one lies beside the others. */
  function Offside(): Stack {
    [[UnitNode(0.0, Exposed(10.0))], [UnitNode(5.0, Inner)], [UnitNode(0.0, Exposed(10.0))]]
  }

  lemma ThreeLayers(a: Node, b: Node, c: Node)
    requires Good(a) && Good(b) && Good(c) && CommonArea(a, b) == 0.0 && CommonArea(b, c) == 0.0
    ensures GoodStack([[a], [b], [c]]) && Places([[a], [b], [c]]) == [(0, 0), (1, 0), (2, 0)]
    ensures forall k: nat :: Coupling([[a], [b], [c]], (1, 0), (k, 0)) == 0.0
  {
    var s: Stack := [[a], [b], [c]];
    assert s[..2] == [[a], [b]] && [[a], [b]][..1] == [[a]] && [[a]][..0] == [];
    assert Places([[a]]) == [(0, 0)];
    assert Places([[a], [b]]) == [(0, 0), (1, 0)];
    VerticalNonNegative(a, b);
    VerticalNonNegative(b, c);
    hide Places, Vertical, Lateral, CommonArea, Good;
    forall k: nat ensures Coupling(s, (1, 0), (k, 0)) == 0.0 {
      assert k == 0 || k == 1 || k == 2 || k > 2;
    }
  }

  /** A middle node that is not exposed and shares no area with the others is isolated. */
  lemma MiddleIsolated(a: Node, b: Node, c: Node)
    requires Good(a) && Good(b) && Good(c) && CommonArea(a, b) == 0.0 && CommonArea(b, c) == 0.0 && b.film == 0.0
    ensures var s := [[a], [b], [c]]; GoodStack(s) && 1 < Size(s) && !Touches(s, 1)
  {
    var s := [[a], [b], [c]];
    ThreeLayers(a, b, c);
    hide Coupling, Places, Good, CommonArea;
    assert FilmAt(s)(1) == 0.0;
    forall i: nat | i < Size(s) ensures G(s)(1, i) == 0.0 {
      assert Places(s)[i] == (i, 0) && Places(s)[1] == (1, 0);
      assert G(s)(1, i) == Coupling(s, (1, 0), (i, 0));
    }
  }

  lemma UnitNodeFacts(at: real, bc: Boundary)
    requires bc.Exposed? ==> bc.h >= 0.0
    ensures var n := UnitNode(at, bc); Good(n) && n.cell == UnitCell(at) && (bc.Inner? ==> n.film == 0.0)
  {
    hide Conductance, InSeries;
  }

  lemma NothingShared(a: Node, b: Node, x: real, y: real)
    requires a.cell == UnitCell(x) && b.cell == UnitCell(y) && (x + 1.0 <= y || y + 1.0 <= x)
    ensures CommonArea(a, b) == 0.0
  {
  }

  /** In this stack the middle node is isolated, so its matrix cannot be compressed. */
  lemma OffsideIsolated()
    ensures GoodStack(Offside()) && 1 < Size(Offside()) && !Touches(Offside(), 1)
  {
    hide UnitNode, UnitCell, Touches, CommonArea, Good;
    var a, b, c := UnitNode(0.0, Exposed(10.0)), UnitNode(5.0, Inner), UnitNode(0.0, Exposed(10.0));
    UnitNodeFacts(0.0, Exposed(10.0));
    UnitNodeFacts(5.0, Inner);
    NothingShared(a, b, 0.0, 5.0);
    NothingShared(b, c, 5.0, 0.0);
    MiddleIsolated(a, b, c);
  }
}
