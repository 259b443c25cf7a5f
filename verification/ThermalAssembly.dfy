/** Assembling the package's conductance matrix block by block (package_class.py, layer_class.py). */
module ThermalAssembly {
  import opened Sums
  import opened ThermalNetwork

  ghost predicate GoodLayer(layer: seq<Node>) {
    forall i | 0 <= i < |layer| :: Good(layer[i])
  }

  /** Conductances between the nodes of one layer. */
  method ConnectLayer(layer: seq<Node>) returns (m: array2<real>)
    requires GoodLayer(layer)
    ensures fresh(m) && m.Length0 == m.Length1 == |layer|
    ensures forall i: nat, j: nat | i < |layer| && j < |layer| :: m[i, j] == if i == j then 0.0 else Lateral(layer[i], layer[j])
  {
    hide Lateral;
    var n := |layer|;
    m := new real[n, n]((i, j) => 0.0);
    for i := 0 to n
      invariant forall a: nat, b: nat | a < i && b < n :: m[a, b] == if a == b then 0.0 else Lateral(layer[a], layer[b])
    {
      for j := 0 to n
        invariant forall a: nat, b: nat | a < i && b < n :: m[a, b] == if a == b then 0.0 else Lateral(layer[a], layer[b])
        invariant forall b: nat | b < j :: m[i, b] == if i == b then 0.0 else Lateral(layer[i], layer[b])
      {
        m[i, j] := if i == j then 0.0 else Lateral(layer[i], layer[j]);
      }
    }
  }

  /** Conductances between the nodes of a layer and those of the layer above. */
  method ConnectLayers(bottom: seq<Node>, top: seq<Node>) returns (m: array2<real>)
    requires GoodLayer(bottom) && GoodLayer(top)
    ensures fresh(m) && m.Length0 == |bottom| && m.Length1 == |top|
    ensures forall i: nat, j: nat | i < |bottom| && j < |top| :: m[i, j] == Vertical(bottom[i], top[j])
  {
    hide Vertical;
    m := new real[|bottom|, |top|]((i, j) => 0.0);
    for i := 0 to |bottom|
      invariant forall a: nat, b: nat | a < i && b < |top| :: m[a, b] == Vertical(bottom[a], top[b])
    {
      for j := 0 to |top|
        invariant forall a: nat, b: nat | a < i && b < |top| :: m[a, b] == Vertical(bottom[a], top[b])
        invariant forall b: nat | b < j :: m[i, b] == Vertical(bottom[i], top[b])
      {
        m[i, j] := Vertical(bottom[i], top[j]);
      }
    }
  }

  // ---------------------------------------------------------------- blocks of a row

  /** The part of row (l, i) that faces layer `k`. */
  ghost function Block(s: Stack, l: nat, i: nat, k: nat): seq<real>
    requires GoodStack(s) && k < |s|
  {
    seq(|s[k]|, j requires 0 <= j => Coupling(s, (l, i), (k, j)))
  }

  /** Columns of layer `k` and no others lie in its block. */
  lemma BlockColumns(s: Stack, k: nat, c: nat)
    requires k < |s| && c < |Places(s)|
    ensures Offset(s, k) <= c < Offset(s, k) + |s[k]| <==> Places(s)[c].0 == k
    ensures Places(s)[c].0 == k ==> Places(s)[c].1 == c - Offset(s, k)
  {
    PlacesReal(s, c);
    if Offset(s, k) <= c < Offset(s, k) + |s[k]| { PlaceOf(s, k, c - Offset(s, k)); }
  }

  method FillBlock(m: array2<real>, r: nat, base: nat, values: seq<real>)
    requires r < m.Length0 && base + |values| <= m.Length1
    modifies m
    ensures forall a: nat, c: nat | a < m.Length0 && c < m.Length1 ::
              m[a, c] == if a == r && base <= c < base + |values| then values[c - base] else old(m[a, c])
  {
    for j := 0 to |values|
      invariant forall a: nat, c: nat | a < m.Length0 && c < m.Length1 ::
                  m[a, c] == if a == r && base <= c < base + j then values[c - base] else old(m[a, c])
    {
      m[r, base + j] := values[j];
    }
  }

  ghost predicate RowDone(m: array2<real>, s: Stack, r: nat)
    requires GoodStack(s)
    reads m
  {
    && r < m.Length0 == |Places(s)| && m.Length1 == |Places(s)| + 1
    && m[r, |Places(s)|] == FilmAt(s)(r)
    && forall c: nat | c < |Places(s)| :: m[r, c] == G(s)(r, c)
  }

  ghost predicate RowEmpty(m: array2<real>, r: nat)
    reads m
  {
    r < m.Length0 && forall c: nat | c < m.Length1 :: m[r, c] == 0.0
  }

  /** What the three writes leave in column `c` of the row. */
  ghost predicate Written(s: Stack, l: nat, i: nat, c: nat, v: real)
    requires GoodStack(s) && l < |s| && c < |Places(s)|
  {
    var k := Places(s)[c].0;
    v == if k < |s| && (k == l || k == l + 1 || k + 1 == l) && Offset(s, k) <= c < Offset(s, k) + |s[k]|
         then Block(s, l, i, k)[c - Offset(s, k)] else 0.0
  }

  lemma WrittenByBlocks(s: Stack, l: nat, i: nat, c: nat, base: nat, v: real)
    requires GoodStack(s) && l < |s| && c < |Places(s)| && base == Offset(s, l)
    requires l > 0 ==> |s[l - 1]| <= base
    requires v ==
               if l + 1 < |s| && base + |s[l]| <= c < base + |s[l]| + |s[l + 1]| then Block(s, l, i, l + 1)[c - (base + |s[l]|)]
               else if l > 0 && base - |s[l - 1]| <= c < base then Block(s, l, i, l - 1)[c - (base - |s[l - 1]|)]
               else if base <= c < base + |s[l]| then Block(s, l, i, l)[c - base] else 0.0
    ensures Written(s, l, i, c, v)
  {
    hide Places, Offset, Block;
    PlacesReal(s, c);
    BlockColumns(s, l, c);
    NextOffset(s, l);
    if l > 0 { NextOffset(s, l - 1); BlockColumns(s, l - 1, c); }
    if l + 1 < |s| { BlockColumns(s, l + 1, c); }
  }

  /** A row whose three blocks are in place is complete: it faces no other layer. */
  lemma RowComplete(m: array2<real>, s: Stack, l: nat, i: nat, r: nat)
    requires GoodStack(s) && l < |s| && i < |s[l]| && r == Offset(s, l) + i
    requires m.Length0 == |Places(s)| && m.Length1 == |Places(s)| + 1
    requires r < |Places(s)| && m[r, |Places(s)|] == s[l][i].film
    requires forall c: nat | c < |Places(s)| :: Written(s, l, i, c, m[r, c])
    ensures RowDone(m, s, r)
  {
    PlaceOf(s, l, i);
    assert FilmAt(s)(r) == s[l][i].film;
    hide Places, Offset, Written, G, FilmAt;
    forall c: nat | c < |Places(s)| ensures m[r, c] == G(s)(r, c) {
      ColumnComplete(s, l, i, r, c, m[r, c]);
    }
  }

  lemma ColumnComplete(s: Stack, l: nat, i: nat, r: nat, c: nat, v: real)
    requires GoodStack(s) && l < |s| && i < |s[l]| && r == Offset(s, l) + i && c < |Places(s)|
    requires Written(s, l, i, c, v)
    ensures v == G(s)(r, c)
  {
    PlaceOf(s, l, i);
    PlacesReal(s, c);
    BlockColumns(s, Places(s)[c].0, c);
    hide Places, Offset, Lateral, Vertical;
  }

  /** Writes the last column, then up to three blocks of a row. */
  method WriteRow(m: array2<real>, r: nat, film: real, base: nat, own: seq<real>, low: bool, below: seq<real>, high: bool, above: seq<real>)
    requires r < m.Length0 && m.Length1 > 0 && base + |own| < m.Length1
    requires (low ==> |below| <= base) && (high ==> base + |own| + |above| < m.Length1)
    modifies m
    ensures m[r, m.Length1 - 1] == film
    ensures forall c: nat | c < m.Length1 - 1 ::
              m[r, c] == if high && base + |own| <= c < base + |own| + |above| then above[c - (base + |own|)]
                         else if low && base - |below| <= c < base then below[c - (base - |below|)]
                         else if base <= c < base + |own| then own[c - base] else old(m[r, c])
    ensures forall a: nat, c: nat | a < m.Length0 && c < m.Length1 && a != r :: m[a, c] == old(m[a, c])
  {
    m[r, m.Length1 - 1] := film;
    FillBlock(m, r, base, own);
    if low { FillBlock(m, r, base - |below|, below); }
    if high { FillBlock(m, r, base + |own|, above); }
  }

  /** Writes one row: the exposed face, the node's own layer, the layer below and the layer above. */
  method FillRow(m: array2<real>, s: Stack, l: nat, i: nat, base: nat, own: seq<real>, below: seq<real>, above: seq<real>)
    requires GoodStack(s) && l < |s| && i < |s[l]| && base == Offset(s, l)
    requires m.Length0 == |Places(s)| && m.Length1 == |Places(s)| + 1
    requires own == Block(s, l, i, l) && (l > 0 ==> below == Block(s, l, i, l - 1)) && (l + 1 < |s| ==> above == Block(s, l, i, l + 1))
    requires RowEmpty(m, base + i)
    modifies m
    ensures RowDone(m, s, base + i)
    ensures forall a: nat, c: nat | a < m.Length0 && c < m.Length1 && a != base + i :: m[a, c] == old(m[a, c])
  {
    hide Places, Offset, Block, RowDone, GoodStack;
    var r := base + i;
    PlaceOf(s, l, i);
    NextOffset(s, l);
    if l > 0 { NextOffset(s, l - 1); }
    if l + 1 < |s| { NextOffset(s, l + 1); }
    BlockSizes(s, l, i);
    WriteRow(m, r, s[l][i].film, base, own, l > 0, below, l + 1 < |s|, above);
    hide Written;
    forall c: nat | c < |Places(s)| ensures Written(s, l, i, c, m[r, c]) {
      WrittenByBlocks(s, l, i, c, base, m[r, c]);
    }
    RowComplete(m, s, l, i, r);
  }

  lemma BlockSizes(s: Stack, l: nat, i: nat)
    requires GoodStack(s)
    ensures forall k: nat | k < |s| :: |Block(s, l, i, k)| == |s[k]|
  {
  }

  // ---------------------------------------------------------------- the whole matrix

  ghost predicate IsLateral(m: array2<real>, layer: seq<Node>)
    requires GoodLayer(layer)
    reads m
  {
    && m.Length0 == m.Length1 == |layer|
    && forall i: nat, j: nat | i < |layer| && j < |layer| :: m[i, j] == if i == j then 0.0 else Lateral(layer[i], layer[j])
  }

  ghost predicate IsShared(m: array2<real>, bottom: seq<Node>, top: seq<Node>)
    requires GoodLayer(bottom) && GoodLayer(top)
    reads m
  {
    && m.Length0 == |bottom| && m.Length1 == |top|
    && forall i: nat, j: nat | i < |bottom| && j < |top| :: m[i, j] == Vertical(bottom[i], top[j])
  }

  method OwnBlock(s: Stack, l: nat, i: nat, m: array2<real>) returns (values: seq<real>)
    requires GoodStack(s) && l < |s| && i < |s[l]| && GoodLayer(s[l]) && IsLateral(m, s[l])
    ensures values == Block(s, l, i, l)
  {
    values := seq(|s[l]|, j requires 0 <= j < |s[l]| && i < m.Length0 && m.Length1 == |s[l]| reads m => m[i, j]);
  }

  method BelowBlock(s: Stack, l: nat, i: nat, m: array2<real>) returns (values: seq<real>)
    requires GoodStack(s) && 0 < l < |s| && i < |s[l]| && GoodLayer(s[l]) && GoodLayer(s[l - 1]) && IsShared(m, s[l - 1], s[l])
    ensures values == Block(s, l, i, l - 1)
  {
    values := seq(|s[l - 1]|, j requires 0 <= j < m.Length0 && i < m.Length1 reads m => m[j, i]);
  }

  method AboveBlock(s: Stack, l: nat, i: nat, m: array2<real>) returns (values: seq<real>)
    requires GoodStack(s) && l + 1 < |s| && i < |s[l]| && GoodLayer(s[l]) && GoodLayer(s[l + 1]) && IsShared(m, s[l], s[l + 1])
    ensures values == Block(s, l, i, l + 1)
  {
    values := seq(|s[l + 1]|, j requires 0 <= j < m.Length1 && i < m.Length0 reads m => m[i, j]);
  }

  lemma LayersGood(s: Stack)
    requires GoodStack(s)
    ensures forall l | 0 <= l < |s| :: GoodLayer(s[l])
  {
  }

  /** Sums the columns of a finished row: everything the node can lose. */
  method RowTotal(m: array2<real>, s: Stack, r: nat) returns (total: real)
    requires GoodStack(s) && RowDone(m, s, r)
    ensures total == SumTo(RowOf(G(s), r), |Places(s)|) + FilmAt(s)(r)
  {
    total := 0.0;
    var n := |Places(s)|;
    hide Places, G;
    for c := 0 to n
      invariant total == SumTo(RowOf(G(s), r), c)
    {
      total := total + m[r, c];
    }
    total := total + m[r, n];
  }

  ghost predicate Connected(s: Stack, lateral: seq<array2<real>>, shared: seq<array2<real>>)
    requires forall l | 0 <= l < |s| :: GoodLayer(s[l])
    reads lateral, shared
  {
    && |lateral| == |s| && |shared| == |s| - 1
    && (forall l | 0 <= l < |s| :: IsLateral(lateral[l], s[l]))
    && forall l | 0 <= l < |s| - 1 :: IsShared(shared[l], s[l], s[l + 1])
  }

  /** Connects every layer in itself and to the one above it. */
  method ConnectAll(s: Stack) returns (lateral: seq<array2<real>>, shared: seq<array2<real>>)
    requires GoodStack(s) && |s| > 0 && forall l | 0 <= l < |s| :: GoodLayer(s[l])
    ensures Connected(s, lateral, shared)
    ensures (forall m | m in lateral :: fresh(m)) && forall m | m in shared :: fresh(m)
  {
    hide IsLateral, IsShared;
    lateral, shared := [], [];
    for l := 0 to |s|
      invariant |lateral| == l && (forall k | 0 <= k < l :: IsLateral(lateral[k], s[k])) && forall m | m in lateral :: fresh(m)
    {
      var m := ConnectIn(s[l]);
      lateral := lateral + [m];
    }
    for l := 0 to |s| - 1
      invariant |shared| == l && (forall k | 0 <= k < l :: IsShared(shared[k], s[k], s[k + 1])) && forall m | m in shared :: fresh(m)
      invariant forall k | 0 <= k < |s| :: IsLateral(lateral[k], s[k])
    {
      var m := ConnectUp(s[l], s[l + 1]);
      shared := shared + [m];
    }
  }

  method ConnectIn(layer: seq<Node>) returns (m: array2<real>)
    requires GoodLayer(layer)
    ensures fresh(m) && IsLateral(m, layer)
  {
    m := ConnectLayer(layer);
  }

  method ConnectUp(bottom: seq<Node>, top: seq<Node>) returns (m: array2<real>)
    requires GoodLayer(bottom) && GoodLayer(top)
    ensures fresh(m) && IsShared(m, bottom, top)
  {
    m := ConnectLayers(bottom, top);
  }

  /** Rows before `r` are done, the others still empty. */
  ghost predicate DoneTo(m: array2<real>, s: Stack, r: nat)
    requires GoodStack(s)
    reads m
  {
    && m.Length0 == |Places(s)| && m.Length1 == |Places(s)| + 1 && r <= |Places(s)|
    && (forall a: nat | a < r :: RowDone(m, s, a))
    && forall a: nat | r <= a < |Places(s)| :: RowEmpty(m, a)
  }

  /** The three blocks of a node's row, taken from the layers' matrices. */
  method BlocksOf(s: Stack, l: nat, i: nat, lateral: seq<array2<real>>, shared: seq<array2<real>>)
    returns (own: seq<real>, below: seq<real>, above: seq<real>)
    requires GoodStack(s) && l < |s| && i < |s[l]| && forall l | 0 <= l < |s| :: GoodLayer(s[l])
    requires Connected(s, lateral, shared)
    ensures own == Block(s, l, i, l) && (l > 0 ==> below == Block(s, l, i, l - 1)) && (l + 1 < |s| ==> above == Block(s, l, i, l + 1))
  {
    hide IsLateral, IsShared, Block;
    own := OwnBlock(s, l, i, lateral[l]);
    below, above := [], [];
    if l > 0 { below := BelowBlock(s, l, i, shared[l - 1]); }
    if l + 1 < |s| { above := AboveBlock(s, l, i, shared[l]); }
  }

  method FillNode(m: array2<real>, s: Stack, l: nat, i: nat, base: nat, lateral: seq<array2<real>>, shared: seq<array2<real>>)
    requires GoodStack(s) && l < |s| && i < |s[l]| && base == Offset(s, l) && forall l | 0 <= l < |s| :: GoodLayer(s[l])
    requires Connected(s, lateral, shared) && DoneTo(m, s, base + i) && m !in lateral && m !in shared
    modifies m
    ensures DoneTo(m, s, base + i + 1)
  {
    hide Places, Offset, Block, G, FilmAt, GoodStack, Connected, GoodLayer;
    PlaceOf(s, l, i);
    var own, below, above := BlocksOf(s, l, i, lateral, shared);
    FillRow(m, s, l, i, base, own, below, above);
    forall a: nat | a < base + i ensures RowDone(m, s, a) { assert old(RowDone(m, s, a)); }
    forall a: nat | base + i < a < |Places(s)| ensures RowEmpty(m, a) { assert old(RowEmpty(m, a)); }
  }

  method FillAll(s: Stack) returns (m: array2<real>)
    requires GoodStack(s) && |s| >= 2
    ensures DoneTo(m, s, |Places(s)|)
  {
    hide GoodStack, GoodLayer, Places, Offset, Connected, DoneTo;
    LayersGood(s);
    OuterOffsets(s);
    var lateral, shared := ConnectAll(s);
    var n := |Places(s)|;
    m := new real[n, n + 1]((i, j) => 0.0);
    NothingFilled(m, s);
    var base := 0;
    for l := 0 to |s|
      invariant base == Offset(s, l) && DoneTo(m, s, base) && Connected(s, lateral, shared) && m !in lateral && m !in shared
    {
      for i := 0 to |s[l]|
        invariant DoneTo(m, s, base + i) && Connected(s, lateral, shared)
      {
        FillNode(m, s, l, i, base, lateral, shared);
      }
      NextOffset(s, l);
      base := base + |s[l]|;
    }
  }

  lemma OuterOffsets(s: Stack)
    ensures Offset(s, 0) == 0 && Offset(s, |s|) == |Places(s)|
  {
    assert s[..0] == [] && s[..|s|] == s;
  }

  lemma NothingFilled(m: array2<real>, s: Stack)
    requires GoodStack(s) && m.Length0 == |Places(s)| && m.Length1 == |Places(s)| + 1
    requires forall i, j | 0 <= i < m.Length0 && 0 <= j < m.Length1 :: m[i, j] == 0.0
    ensures DoneTo(m, s, 0)
  {
  }

  /** The matrix of the whole package: off the diagonal the conductances between nodes, negated, and
      on it everything each node can lose.  At least two layers are needed. */
  method Assemble(s: Stack) returns (a: array2<real>)
    requires GoodStack(s) && |s| >= 2
    ensures a.Length0 == a.Length1 == |Places(s)|
    ensures forall r: nat, c: nat | r < a.Length0 && c < a.Length1 :: a[r, c] == Laplacian(s)(r, c)
  {
    var full := FillAll(s);
    a := Finish(full, s);
  }

  method Finish(full: array2<real>, s: Stack) returns (a: array2<real>)
    requires GoodStack(s) && DoneTo(full, s, |Places(s)|)
    ensures a.Length0 == a.Length1 == |Places(s)|
    ensures forall r: nat, c: nat | r < a.Length0 && c < a.Length1 :: a[r, c] == Laplacian(s)(r, c)
  {
    var n := |Places(s)|;
    a := new real[n, n]((i, j) => 0.0);
    hide Places, Laplacian, RowDone;
    for r := 0 to n
      invariant forall p: nat, c: nat | p < r && c < n :: a[p, c] == Laplacian(s)(p, c)
    {
      FinishRow(full, s, a, r);
    }
  }

  method FinishRow(full: array2<real>, s: Stack, a: array2<real>, r: nat)
    requires GoodStack(s) && RowDone(full, s, r) && a != full && a.Length0 == a.Length1 == |Places(s)|
    modifies a
    ensures forall c: nat | c < a.Length1 :: a[r, c] == Laplacian(s)(r, c)
    ensures forall p: nat, c: nat | p < a.Length0 && c < a.Length1 && p != r :: a[p, c] == old(a[p, c])
  {
    hide Places, G, FilmAt;
    var total := RowTotal(full, s, r);
    for c := 0 to a.Length1
      invariant forall d: nat | d < c :: a[r, d] == Laplacian(s)(r, d)
      invariant forall p: nat, d: nat | p < a.Length0 && d < a.Length1 && p != r :: a[p, d] == old(a[p, d])
    {
      a[r, c] := (if r == c then total else 0.0) - full[r, c];
      assert a[r, c] == Laplacian(s)(r, c);
    }
  }
}
