/** Which temperature profiles keep still, and when the matrix of a package is singular
    (package_class.py): exactly when some node has no way for its heat to the surroundings. */
module ThermalKernel {
  import opened Sums
  import opened ThermalNetwork
  import opened ThermalPackage

  /** The heat that leaves row `r` at temperatures `t`: the matrix times the temperatures. */
  ghost function HeatOut(s: Stack, t: nat -> real): nat -> real
    requires GoodStack(s)
  {
    RowSums(Flow(s, t), Size(s))
  }

  /** No heat flows anywhere. */
  ghost predicate Still(s: Stack, t: nat -> real)
    requires GoodStack(s)
  {
    forall r: nat | r < Size(s) :: HeatOut(s, t)(r) == 0.0
  }

  /** Nodes that touch are equally warm, and those that pass heat to the surroundings are as warm as these. */
  ghost predicate Flat(s: Stack, t: nat -> real)
    requires GoodStack(s)
  {
    && (forall r: nat, c: nat | r < Size(s) && c < Size(s) && G(s)(r, c) > 0.0 :: t(r) == t(c))
    && forall r: nat | r < Size(s) && FilmAt(s)(r) > 0.0 :: t(r) == 0.0
  }

  // ---------------------------------------------------------------- the form vanishes

  lemma {:induction false} NoTermLeft(f: nat -> real, n: nat)
    requires (forall i: nat | i < n :: 0.0 <= f(i)) && SumTo(f, n) == 0.0
    ensures forall i: nat | i < n :: f(i) == 0.0
    decreases n
  {
    if n > 0 {
      SumNonNegative(f, n - 1);
      NoTermLeft(f, n - 1);
    }
  }

  lemma NoTermLeft2(f: (nat, nat) -> real, m: nat, n: nat)
    requires (forall i: nat, j: nat | i < m && j < n :: 0.0 <= f(i, j)) && Sum2(f, m, n) == 0.0
    ensures forall i: nat, j: nat | i < m && j < n :: f(i, j) == 0.0
  {
    forall i: nat | i < m ensures 0.0 <= RowSums(f, n)(i) {
      SumNonNegative(RowOf(f, i), n);
    }
    NoTermLeft(RowSums(f, n), m);
    forall i: nat, j: nat | i < m && j < n ensures f(i, j) == 0.0 {
      assert RowSums(f, n)(i) == 0.0;
      NoTermLeft(RowOf(f, i), n);
      assert RowOf(f, i)(j) == f(i, j);
    }
  }

  lemma SquaresNonNegative(s: Stack, t: nat -> real)
    requires GoodStack(s)
    ensures forall r: nat, c: nat :: 0.0 <= Square(s, t)(r, c)
    ensures forall r: nat :: 0.0 <= FilmSquare(s, t)(r)
  {
    hide Times, G, FilmAt, Places;
    forall r: nat, c: nat ensures 0.0 <= Square(s, t)(r, c) {
      GSymmetric(s, r, c);
      NonNegativeTerm(G(s)(r, c), t(r) - t(c));
    }
    forall r: nat ensures 0.0 <= FilmSquare(s, t)(r) {
      FilmNonNegative(s, r);
      NonNegativeTerm(FilmAt(s)(r), t(r));
    }
  }

  lemma PositiveTimes(a: real, b: real)
    requires a > 0.0 && b > 0.0
    ensures Times(a, b) > 0.0
  {
  }

  lemma TermVanishes(g: real, a: real)
    requires g >= 0.0
    ensures Times(g, Times(a, a)) == 0.0 <==> g == 0.0 || a == 0.0
  {
    hide Times;
    TimesAdds(a, 0.0, 0.0);
    TimesAdds(g, 0.0, 0.0);
    TimesAdds(Times(a, a), 0.0, 0.0);
    if a != 0.0 {
      TimesAdds(a, a, 0.0);
      TimesAdds(-a, a, 0.0);
      PositiveTimes(if a > 0.0 then a else -a, if a > 0.0 then a else -a);
      assert Times(-a, -a) == -Times(-a, a) == -Times(a, -a) == Times(a, a);
      if g > 0.0 { PositiveTimes(g, Times(a, a)); }
    }
  }

  /** The terms of the form all vanish exactly for flat profiles. */
  lemma FlatExactly(s: Stack, t: nat -> real)
    requires GoodStack(s)
    ensures Flat(s, t) <==>
              && (forall r: nat, c: nat | r < Size(s) && c < Size(s) :: Square(s, t)(r, c) == 0.0)
              && forall r: nat | r < Size(s) :: FilmSquare(s, t)(r) == 0.0
  {
    hide Times, G, FilmAt, Places;
    forall r: nat, c: nat ensures Square(s, t)(r, c) == 0.0 <==> !(G(s)(r, c) > 0.0) || t(r) == t(c) {
      GSymmetric(s, r, c);
      TermVanishes(G(s)(r, c), t(r) - t(c));
    }
    forall r: nat ensures FilmSquare(s, t)(r) == 0.0 <==> !(FilmAt(s)(r) > 0.0) || t(r) == 0.0 {
      FilmNonNegative(s, r);
      TermVanishes(FilmAt(s)(r), t(r));
    }
  }

  /** The quadratic form of the matrix vanishes exactly for flat profiles. */
  lemma FormVanishes(s: Stack, t: nat -> real)
    requires GoodStack(s)
    ensures Sum2(Form(s, t), Size(s), Size(s)) == 0.0 <==> Flat(s, t)
  {
    hide Form, Square, FilmSquare, Flat, Places, Sum2, SumTo;
    var n := Size(s);
    FormIsSquares(s, t);
    SquaresNonNegative(s, t);
    FlatExactly(s, t);
    Sum2NonNegative(Square(s, t), n, n);
    SumNonNegative(FilmSquare(s, t), n);
    if Sum2(Form(s, t), n, n) == 0.0 {
      NoTermLeft2(Square(s, t), n, n);
      NoTermLeft(FilmSquare(s, t), n);
    }
    if Flat(s, t) {
      Sum2Zero(Square(s, t), n, n);
      SumZero(FilmSquare(s, t), n);
    }
  }

  lemma Sum2Zero(f: (nat, nat) -> real, m: nat, n: nat)
    requires forall i: nat, j: nat | i < m && j < n :: f(i, j) == 0.0
    ensures Sum2(f, m, n) == 0.0
  {
    forall i: nat | i < m ensures RowSums(f, n)(i) == 0.0 {
      SumZero(RowOf(f, i), n);
    }
    SumZero(RowSums(f, n), m);
  }

  // ---------------------------------------------------------------- profiles that keep still

  lemma FormOfStill(s: Stack, t: nat -> real)
    requires GoodStack(s) && Still(s, t)
    ensures Sum2(Form(s, t), Size(s), Size(s)) == 0.0
  {
    hide Times, Laplacian, Places;
    var n := Size(s);
    forall r: nat | r < n ensures RowSums(Form(s, t), n)(r) == 0.0 {
      assert HeatOut(s, t)(r) == 0.0;
      SumScaled(t(r), RowOf(Flow(s, t), r), RowOf(Form(s, t), r), n);
      TimesAdds(t(r), 0.0, 0.0);
    }
    SumZero(RowSums(Form(s, t), n), n);
  }

  /** In a flat profile every node of a row that matters is as warm as the row's own. */
  lemma FlatTerm(s: Stack, t: nat -> real, r: nat, c: nat)
    requires GoodStack(s) && Flat(s, t) && r < Size(s) && c < Size(s)
    ensures RowOf(Flow(s, t), r)(c) == Times(t(r), RowOf(Laplacian(s), r)(c))
  {
    hide Times, G, FilmAt, Places, SumTo;
    GSymmetric(s, r, c);
    TimesAdds(Laplacian(s)(r, c), t(r), 0.0);
    TimesAdds(t(r), 0.0, 0.0);
    TimesAdds(t(c), 0.0, 0.0);
    if r != c && !(G(s)(r, c) > 0.0) { assert Laplacian(s)(r, c) == 0.0; }
  }

  lemma FlatIsStill(s: Stack, t: nat -> real)
    requires GoodStack(s) && Flat(s, t)
    ensures Still(s, t)
  {
    hide Times, G, FilmAt, Places, Laplacian, Flow;
    var n := Size(s);
    forall r: nat | r < n ensures HeatOut(s, t)(r) == 0.0 {
      forall c: nat | c < n ensures RowOf(Flow(s, t), r)(c) == Times(t(r), RowOf(Laplacian(s), r)(c)) { FlatTerm(s, t, r, c); }
      SumScaled(t(r), RowOf(Laplacian(s), r), RowOf(Flow(s, t), r), n);
      RowsSumToFilm(s, r);
      FilmNonNegative(s, r);
      TimesAdds(t(r), 0.0, 0.0);
      TimesAdds(FilmAt(s)(r), 0.0, 0.0);
    }
  }

  /** Without heat sources, exactly the flat profiles keep still. */
  lemma StillExactly(s: Stack, t: nat -> real)
    requires GoodStack(s)
    ensures Still(s, t) <==> Flat(s, t)
  {
    hide Still, Flat;
    if Still(s, t) {
      FormOfStill(s, t);
      FormVanishes(s, t);
    }
    if Flat(s, t) { FlatIsStill(s, t); }
  }

  // ---------------------------------------------------------------- singular matrices

  /** A profile other than zero keeps still: the matrix is singular. */
  ghost predicate Singular(s: Stack)
    requires GoodStack(s)
  {
    exists t: nat -> real :: Still(s, t) && !AllZero(s, t)
  }

  ghost predicate AllZero(s: Stack, t: nat -> real) {
    forall r: nat | r < Size(s) :: t(r) == 0.0
  }

  /** Heat from the node gets to the surroundings over at most `k` other nodes. */
  ghost predicate Cooled(s: Stack, r: nat, k: nat)
    requires GoodStack(s)
    decreases k
  {
    FilmAt(s)(r) > 0.0 || (k > 0 && exists c: nat :: c < Size(s) && G(s)(r, c) > 0.0 && Cooled(s, c, k - 1))
  }

  /** Heat from the node never gets to the surroundings. */
  ghost predicate Stranded(s: Stack, r: nat)
    requires GoodStack(s)
  {
    forall k: nat :: !Cooled(s, r, k)
  }

  lemma {:induction false} FlatIsZeroWhereCooled(s: Stack, t: nat -> real, r: nat, k: nat)
    requires GoodStack(s) && Flat(s, t) && r < Size(s) && Cooled(s, r, k)
    ensures t(r) == 0.0
    decreases k
  {
    hide G, FilmAt, Places;
    if !(FilmAt(s)(r) > 0.0) {
      var c: nat :| c < Size(s) && G(s)(r, c) > 0.0 && Cooled(s, c, k - 1);
      FlatIsZeroWhereCooled(s, t, c, k - 1);
    }
  }

  /** One where heat is stranded, zero elsewhere. */
  ghost function StrandedProfile(s: Stack): nat -> real
    requires GoodStack(s)
  {
    (r: nat) => if Stranded(s, r) then 1.0 else 0.0
  }

  lemma StrandedTogether(s: Stack, r: nat, c: nat)
    requires GoodStack(s) && r < Size(s) && c < Size(s) && G(s)(r, c) > 0.0 && Stranded(s, r)
    ensures Stranded(s, c)
  {
    hide G, FilmAt, Places;
    forall k: nat ensures !Cooled(s, c, k) {
      assert !Cooled(s, r, k + 1);
    }
  }

  lemma StrandedIsFlat(s: Stack)
    requires GoodStack(s)
    ensures Flat(s, StrandedProfile(s))
  {
    hide G, FilmAt, Places, Stranded;
    var t := StrandedProfile(s);
    forall r: nat, c: nat | r < Size(s) && c < Size(s) && G(s)(r, c) > 0.0 ensures t(r) == t(c) {
      GSymmetric(s, r, c);
      if Stranded(s, r) { StrandedTogether(s, r, c); }
      if Stranded(s, c) { StrandedTogether(s, c, r); }
    }
    forall r: nat | r < Size(s) && FilmAt(s)(r) > 0.0 ensures t(r) == 0.0 {
      ExposedNotStranded(s, r);
    }
  }

  lemma ExposedNotStranded(s: Stack, r: nat)
    requires GoodStack(s) && FilmAt(s)(r) > 0.0
    ensures !Stranded(s, r)
  {
    assert Cooled(s, r, 0);
  }

  lemma StrandedIsSingular(s: Stack, r: nat)
    requires GoodStack(s) && r < Size(s) && Stranded(s, r)
    ensures Singular(s)
  {
    hide Still, Flat, Stranded, Places;
    var t := StrandedProfile(s);
    StrandedIsFlat(s);
    StillExactly(s, t);
    assert t(r) == 1.0;
  }

  lemma WarmIsStranded(s: Stack, t: nat -> real, r: nat)
    requires GoodStack(s) && Still(s, t) && r < Size(s) && t(r) != 0.0
    ensures Stranded(s, r)
  {
    hide Still, Flat, Cooled, Places;
    StillExactly(s, t);
    forall k: nat ensures !Cooled(s, r, k) {
      if Cooled(s, r, k) { FlatIsZeroWhereCooled(s, t, r, k); }
    }
  }

  /** The matrix is singular exactly when the heat of some node never gets to the surroundings. */
  lemma SingularExactly(s: Stack)
    requires GoodStack(s)
    ensures Singular(s) <==> exists r: nat :: r < Size(s) && Stranded(s, r)
  {
    hide Still, Stranded, Places;
    if Singular(s) {
      var t: nat -> real :| Still(s, t) && !AllZero(s, t);
      var r: nat :| r < Size(s) && t(r) != 0.0;
      WarmIsStranded(s, t, r);
    }
    hide Singular;
    if r: nat :| r < Size(s) && Stranded(s, r) { StrandedIsSingular(s, r); }
  }

  ghost function Difference(t: nat -> real, u: nat -> real): nat -> real {
    (r: nat) => t(r) - u(r)
  }

  lemma HeatOfDifference(s: Stack, t: nat -> real, u: nat -> real, r: nat)
    requires GoodStack(s)
    ensures HeatOut(s, Difference(t, u))(r) == HeatOut(s, t)(r) - HeatOut(s, u)(r)
  {
    hide Times, Laplacian, Places;
    var d := Difference(t, u);
    forall c: nat | c < Size(s) ensures RowOf(Flow(s, t), r)(c) == RowOf(Flow(s, d), r)(c) + RowOf(Flow(s, u), r)(c) {
      TimesAdds(Laplacian(s)(r, c), d(c), u(c));
      assert d(c) + u(c) == t(c);
    }
    SumAdd(RowOf(Flow(s, d), r), RowOf(Flow(s, u), r), RowOf(Flow(s, t), r), Size(s));
  }

  /** When every node's heat gets out, the heat put in decides the temperatures at rest. */
  lemma SteadyStateUnique(s: Stack, t: nat -> real, u: nat -> real)
    requires GoodStack(s) && forall r: nat | r < Size(s) :: HeatOut(s, t)(r) == HeatOut(s, u)(r)
    requires forall r: nat | r < Size(s) :: !Stranded(s, r)
    ensures forall r: nat | r < Size(s) :: t(r) == u(r)
  {
    hide HeatOut, Stranded, Places;
    var d := Difference(t, u);
    forall r: nat | r < Size(s) ensures HeatOut(s, d)(r) == 0.0 { HeatOfDifference(s, t, u, r); }
    SingularExactly(s);
    assert Still(s, d);
    assert AllZero(s, d);
    forall r: nat | r < Size(s) ensures t(r) == u(r) { assert d(r) == 0.0; }
  }

  /** A stack with an isolated node has a singular matrix. */
  lemma IsolatedIsSingular(s: Stack, r: nat)
    requires GoodStack(s) && r < Size(s) && !Touches(s, r)
    ensures Singular(s)
  {
    hide G, FilmAt, Places, Singular;
    assert Stranded(s, r);
    SingularExactly(s);
  }
}
