/** Finite sums of reals and integers over sequences and index ranges. */
module Sums {

  ghost function Sum(s: seq<real>): real {
    if s == [] then 0.0 else Sum(s[..|s| - 1]) + s[|s| - 1]
  }

  lemma {:induction false} SumUpdate(s: seq<real>, i: nat, v: real)
    requires i < |s|
    ensures Sum(s[i := v]) == Sum(s) - s[i] + v
    decreases |s|
  {
    var t := s[i := v];
    if i == |s| - 1 {
      assert t[..|t| - 1] == s[..|s| - 1];
    } else {
      assert t[..|t| - 1] == s[..|s| - 1][i := v];
      SumUpdate(s[..|s| - 1], i, v);
    }
  }

  lemma {:induction false} SumOfZeros(n: nat)
    ensures Sum(seq(n, i => 0.0)) == 0.0
    decreases n
  {
    if n > 0 {
      var s := seq(n, i => 0.0);
      assert s[..n - 1] == seq(n - 1, i => 0.0);
      SumOfZeros(n - 1);
    }
  }

  lemma {:induction false} SumOfNonNegative(s: seq<real>)
    requires forall i | 0 <= i < |s| :: 0.0 <= s[i]
    ensures 0.0 <= Sum(s)
    ensures Sum(s) == 0.0 <==> forall i | 0 <= i < |s| :: s[i] == 0.0
    decreases |s|
  {
    if s != [] {
      var front := s[..|s| - 1];
      SumOfNonNegative(front);
      assert (forall i | 0 <= i < |s| :: s[i] == 0.0) <==> (forall i | 0 <= i < |front| :: front[i] == 0.0) && s[|s| - 1] == 0.0 by {
        if forall i | 0 <= i < |s| :: s[i] == 0.0 {
          forall i | 0 <= i < |front| ensures front[i] == 0.0 { assert front[i] == s[i]; }
        }
        if (forall i | 0 <= i < |front| :: front[i] == 0.0) && s[|s| - 1] == 0.0 {
          forall i | 0 <= i < |s| ensures s[i] == 0.0 { assert i < |front| ==> front[i] == s[i]; }
        }
      }
    }
  }

  // ---------------------------------------------------------------- sums over an index range

  ghost function SumTo(f: nat -> real, n: nat): real {
    if n == 0 then 0.0 else SumTo(f, n - 1) + f(n - 1)
  }

  ghost predicate Agree(f: nat -> real, g: nat -> real, n: nat) {
    forall i: nat | i < n :: f(i) == g(i)
  }

  lemma {:induction false} SumSame(f: nat -> real, g: nat -> real, n: nat)
    requires Agree(f, g, n)
    ensures SumTo(f, n) == SumTo(g, n)
    decreases n
  {
    if n > 0 { SumSame(f, g, n - 1); }
  }

  lemma {:induction false} SumZero(f: nat -> real, n: nat)
    requires forall i: nat | i < n :: f(i) == 0.0
    ensures SumTo(f, n) == 0.0
    decreases n
  {
    if n > 0 { SumZero(f, n - 1); }
  }

  lemma {:induction false} SumAdd(f: nat -> real, g: nat -> real, h: nat -> real, n: nat)
    requires forall i: nat | i < n :: h(i) == f(i) + g(i)
    ensures SumTo(h, n) == SumTo(f, n) + SumTo(g, n)
    decreases n
  {
    if n > 0 { SumAdd(f, g, h, n - 1); }
  }

  lemma {:induction false} SumNonNegative(f: nat -> real, n: nat)
    requires forall i: nat | i < n :: 0.0 <= f(i)
    ensures 0.0 <= SumTo(f, n)
    decreases n
  {
    if n > 0 { SumNonNegative(f, n - 1); }
  }

  /** A sum whose only non-zero term is the one at `k`. */
  lemma {:induction false} SumSingle(f: nat -> real, n: nat, k: nat)
    requires k < n && forall i: nat | i < n && i != k :: f(i) == 0.0
    ensures SumTo(f, n) == f(k)
    decreases n
  {
    if k == n - 1 { SumZero(f, n - 1); } else { SumSingle(f, n - 1, k); }
  }

  /** Multiplication, named so that products stay opaque to the linear lemmas. */
  function Times(a: real, b: real): real {
    a * b
  }

  lemma TimesAdds(a: real, b: real, c: real)
    ensures Times(a, b + c) == Times(a, b) + Times(a, c)
    ensures Times(b + c, a) == Times(b, a) + Times(c, a)
    ensures Times(a, 0.0) == 0.0 == Times(0.0, a)
    ensures Times(a, b) == Times(b, a) && Times(a, -b) == -Times(a, b)
  {
  }

  lemma {:induction false} SumScaled(k: real, f: nat -> real, g: nat -> real, n: nat)
    requires forall i: nat | i < n :: g(i) == Times(k, f(i))
    ensures SumTo(g, n) == Times(k, SumTo(f, n))
    decreases n
  {
    hide Times;
    TimesAdds(k, 0.0, 0.0);
    if n > 0 {
      SumScaled(k, f, g, n - 1);
      TimesAdds(k, SumTo(f, n - 1), f(n - 1));
    }
  }

  // ---------------------------------------------------------------- double sums

  ghost function RowOf(f: (nat, nat) -> real, i: nat): nat -> real {
    (j: nat) => f(i, j)
  }

  ghost function ColOf(f: (nat, nat) -> real, j: nat): nat -> real {
    (i: nat) => f(i, j)
  }

  ghost function RowSums(f: (nat, nat) -> real, n: nat): nat -> real {
    (i: nat) => SumTo(RowOf(f, i), n)
  }

  ghost function ColSums(f: (nat, nat) -> real, m: nat): nat -> real {
    (j: nat) => SumTo(ColOf(f, j), m)
  }

  /** Sum over the first `m` rows and `n` columns. */
  ghost function Sum2(f: (nat, nat) -> real, m: nat, n: nat): real {
    SumTo(RowSums(f, n), m)
  }

  ghost function Flip(f: (nat, nat) -> real): (nat, nat) -> real {
    (i: nat, j: nat) => f(j, i)
  }

  lemma {:induction false} Sum2LastColumn(f: (nat, nat) -> real, m: nat, n: nat)
    requires n > 0
    ensures Sum2(f, m, n) == Sum2(f, m, n - 1) + SumTo(ColOf(f, n - 1), m)
    decreases m
  {
    if m > 0 {
      Sum2LastColumn(f, m - 1, n);
      assert RowSums(f, n)(m - 1) == RowSums(f, n - 1)(m - 1) + f(m - 1, n - 1);
    }
  }

  /** The order of summation does not matter. */
  lemma {:induction false} SumSwap(f: (nat, nat) -> real, m: nat, n: nat)
    ensures Sum2(f, m, n) == SumTo(ColSums(f, m), n)
    decreases n
  {
    if n == 0 {
      SumZero(RowSums(f, 0), m);
    } else {
      SumSwap(f, m, n - 1);
      Sum2LastColumn(f, m, n);
    }
  }

  /** Transposing a square does not change its sum. */
  lemma SumFlip(f: (nat, nat) -> real, n: nat)
    ensures Sum2(Flip(f), n, n) == Sum2(f, n, n)
  {
    SumSwap(f, n, n);
    forall i: nat | i < n ensures RowSums(Flip(f), n)(i) == ColSums(f, n)(i) {
      SumSame(RowOf(Flip(f), i), ColOf(f, i), n);
    }
    SumSame(RowSums(Flip(f), n), ColSums(f, n), n);
  }

  lemma Sum2Add(f: (nat, nat) -> real, g: (nat, nat) -> real, h: (nat, nat) -> real, m: nat, n: nat)
    requires forall i: nat, j: nat | i < m && j < n :: h(i, j) == f(i, j) + g(i, j)
    ensures Sum2(h, m, n) == Sum2(f, m, n) + Sum2(g, m, n)
  {
    forall i: nat | i < m ensures RowSums(h, n)(i) == RowSums(f, n)(i) + RowSums(g, n)(i) {
      SumAdd(RowOf(f, i), RowOf(g, i), RowOf(h, i), n);
    }
    SumAdd(RowSums(f, n), RowSums(g, n), RowSums(h, n), m);
  }

  lemma Sum2NonNegative(f: (nat, nat) -> real, m: nat, n: nat)
    requires forall i: nat, j: nat | i < m && j < n :: 0.0 <= f(i, j)
    ensures 0.0 <= Sum2(f, m, n)
  {
    forall i: nat | i < m ensures 0.0 <= RowSums(f, n)(i) {
      SumNonNegative(RowOf(f, i), n);
    }
    SumNonNegative(RowSums(f, n), m);
  }
}
