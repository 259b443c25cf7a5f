/** The compressed form of the conductance matrix (package_class.py): each row keeps its non-zero
    entries and their columns, padded to a common width by repeating the last column with value
    zero.  Multiplying by it is multiplying by the matrix. */
module ThermalSparse {
  import opened Sums

  /** The columns of a row's non-zero entries, in order. */
  function NonZeros(row: seq<real>): seq<nat> {
    if row == [] then []
    else
      var n := |row| - 1;
      NonZeros(row[..n]) + if row[n] != 0.0 then [n] else []
  }

  lemma {:induction false} NonZerosInRange(row: seq<real>)
    ensures forall k | 0 <= k < |NonZeros(row)| :: NonZeros(row)[k] < |row| && row[NonZeros(row)[k]] != 0.0
    decreases |row|
  {
    if row != [] { NonZerosInRange(row[..|row| - 1]); }
  }

  function ValuesAt(row: seq<real>, idx: seq<nat>): seq<real> {
    seq(|idx|, k requires 0 <= k < |idx| => if idx[k] < |row| then row[idx[k]] else 0.0)
  }

  /** The columns, the last one repeated up to width `w`. */
  function PadIndex(row: seq<real>, w: nat): seq<nat>
    requires NonZeros(row) != []
  {
    var idx := NonZeros(row);
    if |idx| <= w then idx + seq(w - |idx|, k => idx[|idx| - 1]) else idx
  }

  /** The values, zeros up to width `w`. */
  function PadValues(row: seq<real>, w: nat): seq<real> {
    var idx := NonZeros(row);
    var vals := ValuesAt(row, idx);
    if |idx| <= w then vals + seq(w - |idx|, k => 0.0) else vals
  }

  // ---------------------------------------------------------------- products

  /** Row times vector, over all columns. */
  ghost function Dense(row: seq<real>, x: nat -> real): real {
    if row == [] then 0.0 else Dense(row[..|row| - 1], x) + Times(row[|row| - 1], x(|row| - 1))
  }

  /** Row times vector, over the stored entries. */
  ghost function Sparse(vals: seq<real>, idx: seq<nat>, x: nat -> real): real
    requires |vals| == |idx|
  {
    if vals == [] then 0.0
    else Sparse(vals[..|vals| - 1], idx[..|vals| - 1], x) + Times(vals[|vals| - 1], x(idx[|vals| - 1]))
  }

  lemma OneMoreStored(vals: seq<real>, idx: seq<nat>, v: real, i: nat, x: nat -> real)
    requires |vals| == |idx|
    ensures Sparse(vals + [v], idx + [i], x) == Sparse(vals, idx, x) + Times(v, x(i))
  {
    hide Times;
    assert (vals + [v])[..|vals|] == vals && (idx + [i])[..|vals|] == idx;
  }

  lemma ValuesExtend(row: seq<real>, n: nat, idx: seq<nat>)
    requires n == |row| - 1 && forall k | 0 <= k < |idx| :: idx[k] < n
    ensures |ValuesAt(row, idx)| == |idx| && ValuesAt(row, idx) == ValuesAt(row[..n], idx)
    ensures ValuesAt(row, idx + [n]) == ValuesAt(row[..n], idx) + [row[n]]
  {
  }

  lemma {:induction false} StoredProduct(row: seq<real>, x: nat -> real)
    ensures |ValuesAt(row, NonZeros(row))| == |NonZeros(row)|
    ensures Sparse(ValuesAt(row, NonZeros(row)), NonZeros(row), x) == Dense(row, x)
    decreases |row|
  {
    hide Times, Sparse;
    if row == [] {
      NothingStored(row, x);
    } else {
      var n := |row| - 1;
      var f := row[..n];
      var idx := NonZeros(f);
      NonZerosInRange(f);
      StoredProduct(f, x);
      ValuesExtend(row, n, idx);
      OneMoreStored(ValuesAt(f, idx), idx, row[n], n, x);
      TimesAdds(x(n), 0.0, 0.0);
      assert idx + [] == idx;
    }
  }

  lemma NothingStored(row: seq<real>, x: nat -> real)
    requires row == []
    ensures Sparse(ValuesAt(row, NonZeros(row)), NonZeros(row), x) == 0.0
  {
  }

  lemma {:induction false} PaddingAddsNothing(vals: seq<real>, idx: seq<nat>, pad: nat, last: nat, x: nat -> real)
    requires |vals| == |idx|
    ensures Sparse(vals + seq(pad, k => 0.0), idx + seq(pad, k => last), x) == Sparse(vals, idx, x)
    decreases pad
  {
    hide Times;
    if pad == 0 {
      assert vals + seq(0, k => 0.0) == vals && idx + seq(0, k => last) == idx;
    } else {
      PaddingAddsNothing(vals, idx, pad - 1, last, x);
      var v, i := vals + seq(pad, k => 0.0), idx + seq(pad, k => last);
      assert v[..|v| - 1] == vals + seq(pad - 1, k => 0.0) && i[..|v| - 1] == idx + seq(pad - 1, k => last);
      TimesAdds(x(last), 0.0, 0.0);
    }
  }

  /** For every vector, the padded row gives the same product as the full row. */
  lemma PaddedProduct(row: seq<real>, w: nat, x: nat -> real)
    requires NonZeros(row) != []
    ensures |PadValues(row, w)| == |PadIndex(row, w)|
    ensures Sparse(PadValues(row, w), PadIndex(row, w), x) == Dense(row, x)
  {
    hide NonZeros, Sparse, ValuesAt, Dense;
    var idx := NonZeros(row);
    var vals := ValuesAt(row, idx);
    StoredProduct(row, x);
    if |idx| <= w {
      PaddingAddsNothing(vals, idx, w - |idx|, idx[|idx| - 1], x);
      assert PadIndex(row, w) == idx + seq(w - |idx|, k => idx[|idx| - 1]);
    }
  }

  lemma {:induction false} NonZerosExist(row: seq<real>)
    ensures NonZeros(row) != [] <==> exists c :: 0 <= c < |row| && row[c] != 0.0
    decreases |row|
  {
    if row != [] {
      var n := |row| - 1;
      NonZerosExist(row[..n]);
      if c :| 0 <= c < |row| && row[c] != 0.0 {
        if c < n { assert row[..n][c] != 0.0; }
      }
    }
  }

  // ---------------------------------------------------------------- compressing

  ghost function RowSeq(a: array2<real>, r: nat): seq<real>
    requires r < a.Length0
    reads a
  {
    seq(a.Length1, c requires 0 <= c < a.Length1 reads a => a[r, c])
  }

  method NonZeroColumns(a: array2<real>, r: nat) returns (idx: seq<nat>)
    requires r < a.Length0
    ensures idx == NonZeros(RowSeq(a, r))
  {
    idx := [];
    ghost var row := RowSeq(a, r);
    for c := 0 to a.Length1
      invariant idx == NonZeros(row[..c])
    {
      assert row[..c + 1][..c] == row[..c];
      if a[r, c] != 0.0 { idx := idx + [c]; }
    }
    assert row[..a.Length1] == row;
  }

  /** The widest row. */
  ghost predicate IsWidth(a: array2<real>, w: nat)
    reads a
  {
    && (forall r: nat | r < a.Length0 :: |NonZeros(RowSeq(a, r))| <= w)
    && exists r: nat :: r < a.Length0 && |NonZeros(RowSeq(a, r))| == w
  }

  method CollectColumns(a: array2<real>) returns (rows: seq<seq<nat>>, w: nat)
    requires a.Length0 > 0
    ensures Collected(a, rows, w) && IsWidth(a, w)
  {
    rows, w := [], 0;
    ghost var widest: nat := 0;
    hide NonZeros;
    for r := 0 to a.Length0
      invariant |rows| == r && forall k: nat | k < r :: rows[k] == NonZeros(RowSeq(a, k))
      invariant forall k: nat | k < r :: |rows[k]| <= w
      invariant r > 0 ==> widest < r && |rows[widest]| == w
    {
      var idx := NonZeroColumns(a, r);
      rows := rows + [idx];
      if r == 0 || |idx| > w { w, widest := |idx|, r; }
    }
    assert rows[widest] == NonZeros(RowSeq(a, widest));
  }

  ghost predicate PaddedRow(a: array2<real>, r: nat, values: array2<real>, index: array2<nat>, w: nat)
    requires r < a.Length0
    reads a, values, index
  {
    && NonZeros(RowSeq(a, r)) != [] && r < values.Length0 == index.Length0 && values.Length1 == index.Length1 == w
    && |PadIndex(RowSeq(a, r), w)| == |PadValues(RowSeq(a, r), w)| == w
    && forall k: nat | k < w :: index[r, k] == PadIndex(RowSeq(a, r), w)[k] && values[r, k] == PadValues(RowSeq(a, r), w)[k]
  }

  method PadRow(a: array2<real>, r: nat, idx: seq<nat>, values: array2<real>, index: array2<nat>)
    requires r < a.Length0 && idx == NonZeros(RowSeq(a, r)) && 0 < |idx| <= values.Length1
    requires r < values.Length0 == index.Length0 && values.Length1 == index.Length1 && a != values
    modifies values, index
    ensures PaddedRow(a, r, values, index, values.Length1)
    ensures forall p: nat | p < a.Length0 && p != r && old(PaddedRow(a, p, values, index, values.Length1)) ::
              PaddedRow(a, p, values, index, values.Length1)
  {
    var w := values.Length1;
    ghost var row := RowSeq(a, r);
    NonZerosInRange(row);
    for k := 0 to w
      invariant RowSeq(a, r) == row
      invariant forall j: nat | j < k :: index[r, j] == PadIndex(row, w)[j] && values[r, j] == PadValues(row, w)[j]
      invariant forall p: nat, j: nat | p < values.Length0 && j < w && p != r ::
                  values[p, j] == old(values[p, j]) && index[p, j] == old(index[p, j])
    {
      index[r, k] := if k < |idx| then idx[k] else idx[|idx| - 1];
      values[r, k] := if k < |idx| then a[r, idx[k]] else 0.0;
    }
    hide PadIndex, PadValues, NonZeros;
    forall p: nat | p < a.Length0 && p != r && old(PaddedRow(a, p, values, index, w)) ensures PaddedRow(a, p, values, index, w) {
      assert RowSeq(a, p) == old(RowSeq(a, p));
    }
  }

  /** Compresses the matrix; the padding fails on a row without any non-zero entry, and there must
      be a row. */
  method Compress(a: array2<real>) returns (ok: bool, values: array2<real>, index: array2<nat>, w: nat)
    ensures ok <==> a.Length0 > 0 && forall r: nat | r < a.Length0 :: NonZeros(RowSeq(a, r)) != []
    ensures ok ==> IsWidth(a, w) && forall r: nat | r < a.Length0 :: PaddedRow(a, r, values, index, w)
  {
    if a.Length0 == 0 {
      values := new real[0, 0];
      index := new nat[0, 0];
      return false, values, index, 0;
    }
    hide PaddedRow, NonZeros, IsWidth;
    var rows;
    rows, w := CollectColumns(a);
    values := new real[a.Length0, w]((i, j) => 0.0);
    index := new nat[a.Length0, w]((i, j) => 0);
    ok := PadAll(a, rows, values, index);
  }

  ghost predicate Collected(a: array2<real>, rows: seq<seq<nat>>, w: nat)
    reads a
  {
    |rows| == a.Length0 && forall r: nat | r < |rows| :: rows[r] == NonZeros(RowSeq(a, r)) && |rows[r]| <= w
  }

  method PadAll(a: array2<real>, rows: seq<seq<nat>>, values: array2<real>, index: array2<nat>) returns (ok: bool)
    requires Collected(a, rows, values.Length1) && values.Length0 == index.Length0 == a.Length0 && values.Length1 == index.Length1 && a != values
    modifies values, index
    ensures ok <==> forall r: nat | r < a.Length0 :: NonZeros(RowSeq(a, r)) != []
    ensures ok ==> forall r: nat | r < a.Length0 :: PaddedRow(a, r, values, index, values.Length1)
  {
    hide PaddedRow, NonZeros;
    for r := 0 to a.Length0
      invariant forall k: nat | k < r :: PaddedRow(a, k, values, index, values.Length1)
      invariant Collected(a, rows, values.Length1)
    {
      if |rows[r]| == 0 {
        assert NonZeros(RowSeq(a, r)) == [];
        return false;
      }
      PadRow(a, r, rows[r], values, index);
    }
    PaddedRows(a, values, index, values.Length1);
    return true;
  }

  lemma PaddedRows(a: array2<real>, values: array2<real>, index: array2<nat>, w: nat)
    requires forall r: nat | r < a.Length0 :: PaddedRow(a, r, values, index, w)
    ensures forall r: nat | r < a.Length0 :: NonZeros(RowSeq(a, r)) != []
  {
    hide NonZeros, PadIndex, PadValues;
    forall r: nat | r < a.Length0 ensures NonZeros(RowSeq(a, r)) != [] {
      assert PaddedRow(a, r, values, index, w);
    }
  }

  ghost function ValueRow(values: array2<real>, r: nat): seq<real>
    requires r < values.Length0
    reads values
  {
    seq(values.Length1, k requires 0 <= k < values.Length1 reads values => values[r, k])
  }

  ghost function IndexRow(index: array2<nat>, r: nat): seq<nat>
    requires r < index.Length0
    reads index
  {
    seq(index.Length1, k requires 0 <= k < index.Length1 reads index => index[r, k])
  }

  /** Row by row, the compressed arrays multiply every vector as the matrix does. */
  lemma CompressedProduct(a: array2<real>, r: nat, values: array2<real>, index: array2<nat>, w: nat, x: nat -> real)
    requires r < a.Length0 && PaddedRow(a, r, values, index, w)
    ensures Sparse(ValueRow(values, r), IndexRow(index, r), x) == Dense(RowSeq(a, r), x)
  {
    PaddedProduct(RowSeq(a, r), w, x);
    assert ValueRow(values, r) == PadValues(RowSeq(a, r), w);
    assert IndexRow(index, r) == PadIndex(RowSeq(a, r), w);
  }
}
