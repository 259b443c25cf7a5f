/** Exact versions of the numeric helpers the simulator takes from Python: `max`,
    `math.ceil` on rationals and the built-in `round`, which breaks ties to the even neighbour. */
module Numbers {

  function Max(a: real, b: real): real {
    if a < b then b else a
  }

  function Min(a: real, b: real): real {
    if a < b then a else b
  }

  function MaxInt(a: int, b: int): int {
    if a < b then b else a
  }

  function MinInt(a: int, b: int): int {
    if a < b then a else b
  }

  /** `math.ceil`: the least integer not below `x`. */
  function Ceil(x: real): (n: int)
    ensures n as real - 1.0 < x <= n as real
  {
    if x == x.Floor as real then x.Floor else x.Floor + 1
  }

  lemma CeilLeast(x: real, n: int)
    requires x <= n as real
    ensures Ceil(x) <= n
  {
  }

  /** Python's `round(x)`: nearest integer, ties to even. */
  function Round(x: real): (n: int)
    ensures n as real - 0.5 <= x <= n as real + 0.5
  {
    var lo := x.Floor;
    var rest := x - lo as real;
    if rest < 0.5 then lo
    else if rest > 0.5 then lo + 1
    else if lo % 2 == 0 then lo else lo + 1
  }

  /** `n` is an integer nearest to `x`, the even one of two. */
  predicate Nearest(n: int, x: real) {
    -0.5 <= n as real - x <= 0.5 && (n as real - x == 0.5 || x - n as real == 0.5 ==> n % 2 == 0)
  }

  /** Rounding gives that integer, and there is only one. */
  lemma RoundIsNearest(x: real, n: int)
    ensures Nearest(n, x) <==> n == Round(x)
  {
    assert x.Floor as real <= x < x.Floor as real + 1.0;
    if Nearest(n, x) { assert n == x.Floor || n == x.Floor + 1; }
  }

  /** The nearest integer, but at least one. */
  predicate NearestPositive(n: int, x: real) {
    n >= 1 && (Nearest(n, x) || (n == 1 && x <= 0.5))
  }

  /** There is only one such number. */
  lemma NearestPositiveUnique(n: int, m: int, x: real)
    requires NearestPositive(n, x) && NearestPositive(m, x)
    ensures n == m
  {
    RoundIsNearest(x, n);
    RoundIsNearest(x, m);
  }

  lemma RoundPositive(x: real)
    ensures NearestPositive(MaxInt(1, Round(x)), x)
  {
    RoundIsNearest(x, Round(x));
  }

  /** Rounding never reverses an order, ties included. */
  lemma RoundMonotone(x: real, y: real)
    requires x <= y
    ensures Round(x) <= Round(y)
  {
    if x.Floor < y.Floor {
      assert x < x.Floor as real + 1.0 <= y.Floor as real <= y;
    }
  }

  lemma RoundOfInteger(n: int)
    ensures Round(n as real) == n
  {
  }

  /** Sum of `f` over a grid of `m` rows and `n` columns. */
  ghost function RowSum(f: (nat, nat) -> nat, i: nat, n: nat): nat {
    if n == 0 then 0 else RowSum(f, i, n - 1) + f(i, n - 1)
  }

  ghost function GridSum(f: (nat, nat) -> nat, m: nat, n: nat): nat
    decreases m
  {
    if m == 0 then 0 else GridSum(f, m - 1, n) + RowSum(f, m - 1, n)
  }

  ghost predicate Below(g: (nat, nat) -> nat, f: (nat, nat) -> nat, i: nat, p: nat) {
    g(i, p) < f(i, p)
  }

  lemma {:induction false} RowSumOrder(g: (nat, nat) -> nat, f: (nat, nat) -> nat, i: nat, n: nat)
    requires forall p: nat | p < n :: g(i, p) <= f(i, p)
    ensures RowSum(g, i, n) <= RowSum(f, i, n)
    ensures (exists p: nat | p < n :: Below(g, f, i, p)) <==> RowSum(g, i, n) < RowSum(f, i, n)
    decreases n
  {
    if n > 0 {
      RowSumOrder(g, f, i, n - 1);
      assert Below(g, f, i, n - 1) <==> g(i, n - 1) < f(i, n - 1);
    }
  }

  /** A grid that is nowhere larger has no larger sum, and a smaller one exactly when it is
      smaller somewhere. */
  lemma {:induction false} GridSumOrder(g: (nat, nat) -> nat, f: (nat, nat) -> nat, m: nat, n: nat)
    requires forall i: nat, p: nat | i < m && p < n :: g(i, p) <= f(i, p)
    ensures GridSum(g, m, n) <= GridSum(f, m, n)
    ensures (exists i: nat, p: nat | i < m && p < n :: Below(g, f, i, p)) <==> GridSum(g, m, n) < GridSum(f, m, n)
    decreases m
  {
    if m > 0 {
      GridSumOrder(g, f, m - 1, n);
      var last: nat := m - 1;
      RowSumOrder(g, f, last, n);
    }
  }

  lemma {:induction false} RowSumAtMost(f: (nat, nat) -> nat, i: nat, n: nat, each: nat)
    requires forall p: nat | p < n :: f(i, p) <= each
    ensures RowSum(f, i, n) <= each * n
    decreases n
  {
    if n > 0 { RowSumAtMost(f, i, n - 1, each); }
  }

  lemma {:induction false} GridSumAtMost(f: (nat, nat) -> nat, m: nat, n: nat, row: nat)
    requires forall i: nat | i < m :: RowSum(f, i, n) <= row
    ensures GridSum(f, m, n) <= row * m
    decreases m
  {
    if m > 0 {
      GridSumAtMost(f, m - 1, n, row);
      assert row * m == row * (m - 1) + row;
    }
  }
}
