/** The cells of a thermal layer and the power they receive (layer_class.py, common.py): cells tile
    their span exactly, so the power of every block is spread over them without loss. */
module ThermalGrid {
  import opened Numbers
  import opened Sums

  /** An interval on one axis. */
  datatype Span = Span(start: real, length: real) {
    function End(): real { start + length }
  }

  function OverlapLength(a: Span, b: Span): real {
    Max(0.0, Min(a.End(), b.End()) - Max(a.start, b.start))
  }

  // ---------------------------------------------------------------- cells along one axis

  /** Each cell starts where the one before it ends, from `from` to `to`. */
  ghost predicate Abut(cells: seq<Span>, from: real, to: real) {
    && |cells| > 0 && cells[0].start == from && cells[|cells| - 1].End() == to
    && forall k | 0 < k < |cells| :: StartsAfter(cells, k)
  }

  ghost predicate StartsAfter(cells: seq<Span>, k: nat)
    requires 0 < k < |cells|
  {
    cells[k].start == cells[k - 1].End()
  }

  ghost predicate Positive(cells: seq<Span>) {
    forall k | 0 <= k < |cells| :: cells[k].length > 0.0
  }

  ghost predicate Tiles(cells: seq<Span>, from: real, to: real) {
    Abut(cells, from, to) && Positive(cells)
  }

  function EvenLength(from: real, to: real, n: nat): real
    requires n > 0
  {
    (to - from) / n as real
  }

  function UniformCell(from: real, to: real, n: nat, k: nat): Span
    requires n > 0
  {
    Span(Times(k as real, EvenLength(from, to, n)) + from, EvenLength(from, to, n))
  }

  /** `n` cells of equal length. */
  function UniformCells(from: real, to: real, n: nat): seq<Span> {
    seq(n, k requires 0 <= k < n => UniformCell(from, to, n, k))
  }

  lemma UniformTiles(from: real, to: real, n: nat)
    requires n > 0
    ensures Abut(UniformCells(from, to, n), from, to)
    ensures Positive(UniformCells(from, to, n)) <==> from < to
    ensures forall k | 0 <= k < n :: UniformCells(from, to, n)[k].length == UniformCells(from, to, n)[0].length
  {
    var cells := UniformCells(from, to, n);
    var len := EvenLength(from, to, n);
    Quotient(from, to, n);
    hide Times, EvenLength;
    forall k | 0 < k < n ensures StartsAfter(cells, k) {
      OneMore(k, len);
    }
    OneMore(n, len);
    TimesAdds(len, 0.0, 0.0);
    assert cells[0].length == len;
  }

  lemma OneMore(k: nat, len: real)
    requires k > 0
    ensures Times(k as real, len) == Times((k - 1) as real, len) + len
  {
    assert k as real == (k - 1) as real + 1.0;
  }

  lemma Quotient(from: real, to: real, n: nat)
    requires n > 0
    ensures Times(n as real, EvenLength(from, to, n)) == to - from
    ensures EvenLength(from, to, n) > 0.0 <==> from < to
  {
  }

  /** Cells around given node positions, cut half-way between neighbours. */
  function MidpointCell(nodes: seq<real>, from: real, to: real, k: nat): Span
    requires k < |nodes| && |nodes| >= 2
  {
    if k == 0 then Span(from, nodes[0] + ((nodes[0] + nodes[1]) / 2.0 - nodes[0]))
    else if k == |nodes| - 1 then
      Span((nodes[k] + nodes[k - 1]) / 2.0 + from, (to - (nodes[k] + from)) + (nodes[k] - (nodes[k] + nodes[k - 1]) / 2.0))
    else
      Span((nodes[k] + nodes[k - 1]) / 2.0 + from, (nodes[k] + nodes[k + 1]) / 2.0 - (nodes[k] + nodes[k - 1]) / 2.0)
  }

  function MidpointCells(nodes: seq<real>, from: real, to: real): seq<Span>
    requires |nodes| >= 2
  {
    seq(|nodes|, k requires 0 <= k < |nodes| => MidpointCell(nodes, from, to, k))
  }

  /** Midpoints of neighbouring nodes lie strictly inside the span and strictly increase. */
  ghost predicate MidpointsIncrease(nodes: seq<real>, span: real)
    requires |nodes| >= 2
  {
    && nodes[0] + nodes[1] > 0.0
    && (forall j, k | 0 <= j && k == j + 2 && k < |nodes| :: nodes[j] < nodes[k])
    && (nodes[|nodes| - 1] + nodes[|nodes| - 2]) / 2.0 < span
  }

  lemma MidpointsAbut(nodes: seq<real>, from: real, to: real)
    requires |nodes| >= 2
    ensures Abut(MidpointCells(nodes, from, to), from, to)
  {
    var cells := MidpointCells(nodes, from, to);
    forall k | 0 < k < |cells| ensures StartsAfter(cells, k) {
      var j := k - 1;
      assert cells[j] == MidpointCell(nodes, from, to, j) && cells[k] == MidpointCell(nodes, from, to, k);
    }
  }

  /** Midpoint cells abut for any node positions whatsoever; they all have positive length exactly
      when the midpoints increase from one end of the span to the other. */
  lemma MidpointsTile(nodes: seq<real>, from: real, to: real)
    requires |nodes| >= 2
    ensures Abut(MidpointCells(nodes, from, to), from, to)
    ensures Positive(MidpointCells(nodes, from, to)) <==> MidpointsIncrease(nodes, to - from)
  {
    var cells := MidpointCells(nodes, from, to);
    MidpointsAbut(nodes, from, to);
    hide Abut;
    if Positive(cells) {
      assert cells[0].length > 0.0 && cells[|nodes| - 1].length > 0.0;
      forall j, k | 0 <= j && k == j + 2 && k < |nodes| ensures nodes[j] < nodes[k] {
        assert cells[j + 1].length > 0.0;
      }
    }
    if MidpointsIncrease(nodes, to - from) {
      forall k | 0 <= k < |nodes| ensures cells[k].length > 0.0 {
        if 0 < k < |nodes| - 1 {
          var j := k - 1;
          assert nodes[j] < nodes[j + 2];
        }
      }
    }
  }

  /** Each cell but the first begins half-way between its own node and the one before. */
  lemma CutHalfway(nodes: seq<real>, from: real, to: real, k: nat)
    requires |nodes| >= 2 && 0 < k < |nodes|
    ensures MidpointCells(nodes, from, to)[k].start - from - nodes[k - 1] == nodes[k] - (MidpointCells(nodes, from, to)[k].start - from)
    ensures MidpointCells(nodes, from, to)[k - 1].End() == MidpointCells(nodes, from, to)[k].start
  {
    MidpointsAbut(nodes, from, to);
    assert StartsAfter(MidpointCells(nodes, from, to), k);
  }

  lemma {:induction false} EndsIncrease(cells: seq<Span>, from: real, to: real, j: nat, k: nat)
    requires Tiles(cells, from, to) && j <= k < |cells|
    ensures cells[j].start <= cells[k].start && cells[j].End() <= cells[k].End()
    ensures j < k ==> cells[j].End() <= cells[k].start
    decreases k
  {
    if j < k {
      EndsIncrease(cells, from, to, j, k - 1);
      assert StartsAfter(cells, k);
    }
  }

  predicate Contains(s: Span, p: real) {
    s.start <= p < s.End()
  }

  /** No gap and no overlap: every point of the span lies in exactly one cell, and no cell reaches
      beyond the span. */
  lemma EachPointOnce(cells: seq<Span>, from: real, to: real, p: real)
    requires Tiles(cells, from, to)
    ensures from <= p < to <==> exists k: nat :: k < |cells| && Contains(cells[k], p)
    ensures forall j: nat, k: nat | j < |cells| && k < |cells| && Contains(cells[j], p) && Contains(cells[k], p) :: j == k
  {
    forall j: nat, k: nat | j < |cells| && k < |cells| && Contains(cells[j], p) && Contains(cells[k], p) ensures j == k {
      if j < k { EndsIncrease(cells, from, to, j, k); }
      if k < j { EndsIncrease(cells, from, to, k, j); }
    }
    forall k: nat | k < |cells| && Contains(cells[k], p) ensures from <= p < to {
      EndsIncrease(cells, from, to, 0, k);
      EndsIncrease(cells, from, to, k, |cells| - 1);
    }
    if from <= p < to { var k := Locate(cells, from, to, p, |cells| - 1); }
  }

  lemma {:induction false} Locate(cells: seq<Span>, from: real, to: real, p: real, n: nat) returns (k: nat)
    requires Tiles(cells, from, to) && n < |cells| && from <= p < cells[n].End()
    ensures k < |cells| && Contains(cells[k], p)
    decreases n
  {
    if cells[n].start <= p {
      k := n;
    } else {
      assert n > 0;
      assert StartsAfter(cells, n);
      k := Locate(cells, from, to, p, n - 1);
    }
  }

  // ---------------------------------------------------------------- overlap adds up

  ghost function OverlapSum(cells: seq<Span>, b: Span): real {
    if cells == [] then 0.0 else OverlapSum(cells[..|cells| - 1], b) + OverlapLength(cells[|cells| - 1], b)
  }

  /** A coordinate moved into the block. */
  function Into(b: Span, v: real): real {
    Max(b.start, Min(v, b.End()))
  }

  lemma {:induction false} PrefixOverlap(cells: seq<Span>, from: real, to: real, b: Span, n: nat)
    requires Tiles(cells, from, to) && 0 < n <= |cells| && b.length >= 0.0
    ensures OverlapSum(cells[..n], b) == Into(b, cells[n - 1].End()) - Into(b, from)
    decreases n
  {
    assert cells[..n][..n - 1] == cells[..n - 1];
    if n > 1 {
      PrefixOverlap(cells, from, to, b, n - 1);
      assert StartsAfter(cells, n - 1);
    }
  }

  /** The cells of a span cover just that part of a block that lies in the span. */
  lemma OverlapOfTiles(cells: seq<Span>, from: real, to: real, b: Span)
    requires Tiles(cells, from, to) && b.length >= 0.0
    ensures OverlapSum(cells, b) == Into(b, to) - Into(b, from)
    ensures from <= b.start && b.End() <= to ==> OverlapSum(cells, b) == b.length
    ensures b.End() <= from || to <= b.start ==> OverlapSum(cells, b) == 0.0
  {
    PrefixOverlap(cells, from, to, b, |cells|);
    assert cells[..|cells|] == cells;
    EndsIncrease(cells, from, to, 0, |cells| - 1);
  }

  lemma {:induction false} OverlapSplits(a: seq<Span>, c: seq<Span>, b: Span)
    ensures OverlapSum(a + c, b) == OverlapSum(a, b) + OverlapSum(c, b)
    decreases |c|
  {
    if c == [] {
      assert a + c == a;
    } else {
      assert (a + c)[..|a + c| - 1] == a + c[..|c| - 1];
      OverlapSplits(a, c[..|c| - 1], b);
    }
  }

  // ---------------------------------------------------------------- chiplets along one axis

  /** How a chiplet's edge is divided: evenly, or around given positions. */
  datatype Pattern = Even(n: nat) | Around(nodes: seq<real>)

  predicate Usable(p: Pattern) {
    match p
    case Even(n) => n > 0
    case Around(nodes) => |nodes| >= 2
  }

  function PatternCells(p: Pattern, from: real, to: real): seq<Span>
    requires Usable(p)
  {
    match p
    case Even(n) => UniformCells(from, to, n)
    case Around(nodes) => MidpointCells(nodes, from, to)
  }

  ghost predicate Fits(p: Pattern, length: real)
    requires Usable(p)
  {
    match p
    case Even(n) => length > 0.0
    case Around(nodes) => MidpointsIncrease(nodes, length)
  }

  lemma PatternTiles(p: Pattern, from: real, to: real)
    requires Usable(p)
    ensures Abut(PatternCells(p, from, to), from, to)
    ensures Tiles(PatternCells(p, from, to), from, to) <==> Fits(p, to - from)
  {
    match p
    case Even(n) => UniformTiles(from, to, n);
    case Around(nodes) => MidpointsTile(nodes, from, to);
  }

  function ChipletStart(start: real, pitch: real, k: nat): real {
    start + Times(k as real, pitch)
  }

  lemma NextStart(start: real, pitch: real, k: nat)
    ensures ChipletStart(start, pitch, k + 1) == ChipletStart(start, pitch, k) + pitch
    ensures ChipletStart(start, pitch, 0) == start
  {
    OneMore(k + 1, pitch);
    TimesAdds(pitch, 0.0, 0.0);
  }

  lemma {:induction false} StartsOrdered(start: real, pitch: real, j: nat, k: nat)
    requires j < k && 0.0 <= pitch
    ensures ChipletStart(start, pitch, j) + pitch <= ChipletStart(start, pitch, k)
    decreases k
  {
    NextStart(start, pitch, k - 1);
    if j < k - 1 { StartsOrdered(start, pitch, j, k - 1); }
  }

  /** The cells of `count` chiplets in a row, with a gap between each and the next. */
  function ChipletCells(p: Pattern, start: real, length: real, spacing: real, count: nat): seq<Span>
    requires Usable(p)
  {
    if count == 0 then []
    else
      var from := ChipletStart(start, length + spacing, count - 1);
      ChipletCells(p, start, length, spacing, count - 1) + PatternCells(p, from, from + length)
  }

  /** Lays out the cells chiplet by chiplet, each starting a gap after the one before it ends. */
  method LayOut(p: Pattern, start: real, length: real, spacing: real, count: nat) returns (cells: seq<Span>)
    requires Usable(p)
    ensures cells == ChipletCells(p, start, length, spacing, count)
  {
    hide PatternCells;
    cells := [];
    var from, to := start, start + length;
    for k := 0 to count
      invariant cells == ChipletCells(p, start, length, spacing, k)
      invariant if k == 0 then from == start else from == ChipletStart(start, length + spacing, k - 1)
      invariant to == from + length
    {
      if k > 0 {
        NextStart(start, length + spacing, k - 1);
        from := to + spacing;
        to := from + length;
      } else {
        NextStart(start, length + spacing, 0);
      }
      hide ChipletStart;
      cells := cells + PatternCells(p, from, to);
    }
  }

  /** The block lies within the extent of chiplet `k`. */
  ghost predicate Within(b: Span, start: real, length: real, spacing: real, k: nat) {
    var from := ChipletStart(start, length + spacing, k);
    from <= b.start && 0.0 <= b.length && b.End() <= from + length
  }

  /** A chiplet's cells cover a block inside it, and touch no block inside another chiplet. */
  lemma OneChiplet(p: Pattern, start: real, length: real, spacing: real, last: nat, b: Span, k: nat)
    requires Usable(p) && Fits(p, length) && 0.0 <= length && 0.0 <= spacing && Within(b, start, length, spacing, k)
    ensures var from := ChipletStart(start, length + spacing, last);
            OverlapSum(PatternCells(p, from, from + length), b) == if k == last then b.length else 0.0
  {
    hide PatternCells, ChipletStart, Fits, Within, Into, Tiles, Abut, OverlapSum, Times;
    var from := ChipletStart(start, length + spacing, last);
    var to := from + length;
    Apart(start, length, spacing, last, b, k);
    assert to - from == length;
    PatternTiles(p, from, to);
    OverlapOfTiles(PatternCells(p, from, to), from, to, b);
  }

  lemma Apart(start: real, length: real, spacing: real, last: nat, b: Span, k: nat)
    requires 0.0 <= length && 0.0 <= spacing && Within(b, start, length, spacing, k)
    ensures var from := ChipletStart(start, length + spacing, last);
            && 0.0 <= b.length
            && (k == last ==> from <= b.start && b.End() <= from + length)
            && (k != last ==> b.End() <= from || from + length <= b.start)
  {
    hide ChipletStart;
    if k < last { StartsOrdered(start, length + spacing, k, last); }
    if last < k { StartsOrdered(start, length + spacing, last, k); }
  }

  /** The cells of all chiplets together cover a block that lies in one of them exactly. */
  lemma {:induction false} ChipletsCover(p: Pattern, start: real, length: real, spacing: real, count: nat, b: Span, k: nat)
    requires Usable(p) && Fits(p, length) && 0.0 <= length && 0.0 <= spacing && Within(b, start, length, spacing, k)
    ensures OverlapSum(ChipletCells(p, start, length, spacing, count), b) == if k < count then b.length else 0.0
    decreases count
  {
    hide PatternCells, ChipletStart, Fits, Within, OverlapLength;
    if count > 0 {
      var last := count - 1;
      var from := ChipletStart(start, length + spacing, last);
      ChipletsCover(p, start, length, spacing, last, b, k);
      OverlapSplits(ChipletCells(p, start, length, spacing, last), PatternCells(p, from, from + length), b);
      OneChiplet(p, start, length, spacing, last, b, k);
    }
  }

  /** With no gaps, the cells of all chiplets cover just that part of a block that lies between the
      first chiplet's start and the last one's end. */
  lemma {:induction false} GaplessCover(p: Pattern, start: real, length: real, count: nat, b: Span)
    requires Usable(p) && Fits(p, length) && b.length >= 0.0
    ensures OverlapSum(ChipletCells(p, start, length, 0.0, count), b) == Into(b, ChipletStart(start, length, count)) - Into(b, start)
    decreases count
  {
    hide PatternCells, ChipletStart, Fits, OverlapLength, Into, Tiles, Abut;
    NextStart(start, length, if count > 0 then count - 1 else 0);
    if count > 0 {
      var last := count - 1;
      var from := ChipletStart(start, length, last);
      assert length + 0.0 == length && from + length - from == length;
      GaplessCover(p, start, length, last, b);
      OverlapSplits(ChipletCells(p, start, length, 0.0, last), PatternCells(p, from, from + length), b);
      PatternTiles(p, from, from + length);
      OverlapOfTiles(PatternCells(p, from, from + length), from, from + length, b);
    }
  }

  // ---------------------------------------------------------------- cells of a layer

  datatype Cell = Cell(x: Span, y: Span) {
    function Area(): real { x.length * y.length }
  }

  function CellRow(x: Span, ys: seq<Span>): seq<Cell> {
    seq(|ys|, j requires 0 <= j < |ys| => Cell(x, ys[j]))
  }

  /** All cells, column by column along x. */
  function Grid(xs: seq<Span>, ys: seq<Span>): seq<Cell> {
    if xs == [] then [] else Grid(xs[..|xs| - 1], ys) + CellRow(xs[|xs| - 1], ys)
  }

  method CreateNodes(xs: seq<Span>, ys: seq<Span>) returns (nodes: seq<Cell>)
    ensures nodes == Grid(xs, ys)
    ensures |nodes| == |xs| * |ys|
    ensures forall i: nat, j: nat | i < |xs| && j < |ys| :: i * |ys| + j < |nodes| && nodes[i * |ys| + j] == Cell(xs[i], ys[j])
  {
    nodes := [];
    for i := 0 to |xs|
      invariant nodes == Grid(xs[..i], ys)
    {
      assert xs[..i + 1][..i] == xs[..i];
      var row := CreateRow(xs[i], ys);
      nodes := nodes + row;
    }
    assert xs[..|xs|] == xs;
    GridLayout(xs, ys);
  }

  method CreateRow(x: Span, ys: seq<Span>) returns (row: seq<Cell>)
    ensures row == CellRow(x, ys)
  {
    row := [];
    for j := 0 to |ys|
      invariant row == CellRow(x, ys)[..j]
    {
      row := row + [Cell(x, ys[j])];
    }
  }

  lemma GridLayout(xs: seq<Span>, ys: seq<Span>)
    ensures |Grid(xs, ys)| == |xs| * |ys|
    ensures forall i: nat, j: nat | i < |xs| && j < |ys| ::
              i * |ys| + j < |Grid(xs, ys)| && Grid(xs, ys)[i * |ys| + j] == Cell(xs[i], ys[j])
  {
    hide Grid;
    GridSize(xs, ys);
    forall i: nat, j: nat | i < |xs| && j < |ys|
      ensures i * |ys| + j < |Grid(xs, ys)| && Grid(xs, ys)[i * |ys| + j] == Cell(xs[i], ys[j])
    {
      GridAt(xs, ys, i, j);
    }
  }

  lemma {:induction false} GridSize(xs: seq<Span>, ys: seq<Span>)
    ensures |Grid(xs, ys)| == |xs| * |ys|
    decreases |xs|
  {
    if xs != [] {
      GridSize(xs[..|xs| - 1], ys);
      assert |xs| * |ys| == (|xs| - 1) * |ys| + |ys|;
    }
  }

  lemma {:induction false} GridAt(xs: seq<Span>, ys: seq<Span>, i: nat, j: nat)
    requires i < |xs| && j < |ys|
    ensures i * |ys| + j < |Grid(xs, ys)| && Grid(xs, ys)[i * |ys| + j] == Cell(xs[i], ys[j])
    decreases |xs|
  {
    var n := |xs| - 1;
    GridSize(xs[..n], ys);
    if i < n { GridAt(xs[..n], ys, i, j); }
  }

  // ---------------------------------------------------------------- power

  /** A power block; it dissipates `maxPower` scaled by its activity at each step. */
  datatype Block = Block(x: Span, y: Span, maxPower: real, activity: seq<real>) {
    function Area(): real { x.length * y.length }
  }

  function OverlapArea(c: Cell, b: Block): real {
    OverlapLength(c.x, b.x) * OverlapLength(c.y, b.y)
  }

  lemma OverlapNeedsArea(c: Cell, b: Block)
    requires OverlapArea(c, b) > 0.0
    ensures b.Area() != 0.0
  {
  }

  /** The power of `area` units of a block's area at step `t`. */
  function Spread(b: Block, area: real, t: nat): real
    requires b.Area() != 0.0 && t < |b.activity|
  {
    (b.maxPower * area / b.Area()) * b.activity[t]
  }

  /** What one block contributes to a cell at step `t`. */
  function Contribution(c: Cell, b: Block, t: nat): real {
    if OverlapArea(c, b) > 0.0 && t < |b.activity| then
      OverlapNeedsArea(c, b);
      Spread(b, OverlapArea(c, b), t)
    else 0.0
  }

  function NodePower(c: Cell, blocks: seq<Block>, t: nat): real {
    if blocks == [] then 0.0
    else NodePower(c, blocks[..|blocks| - 1], t) + Contribution(c, blocks[|blocks| - 1], t)
  }

  /** The part of a cell that no block covers. */
  function Uncovered(c: Cell, blocks: seq<Block>): real {
    if blocks == [] then c.Area()
    else
      var rest, area := Uncovered(c, blocks[..|blocks| - 1]), OverlapArea(c, blocks[|blocks| - 1]);
      if area > 0.0 then rest - area else rest
  }

  /** The area of a cell that the blocks overlap, each counted for itself. */
  ghost function OverlappedArea(c: Cell, blocks: seq<Block>): real {
    if blocks == [] then 0.0 else OverlappedArea(c, blocks[..|blocks| - 1]) + OverlapArea(c, blocks[|blocks| - 1])
  }

  /** What is left uncovered is the rest of the cell. */
  lemma {:induction false} UncoveredIsRest(c: Cell, blocks: seq<Block>)
    ensures Uncovered(c, blocks) == c.Area() - OverlappedArea(c, blocks)
    decreases |blocks|
  {
    hide Cell.Area, OverlapLength;
    if blocks != [] {
      UncoveredIsRest(c, blocks[..|blocks| - 1]);
      OverlapNotNegative(c, blocks[|blocks| - 1]);
    }
  }

  lemma OverlapNotNegative(c: Cell, b: Block)
    ensures OverlapArea(c, b) >= 0.0
  {
  }

  predicate Covered(c: Cell, blocks: seq<Block>) {
    -0.0001 <= Uncovered(c, blocks) <= 0.0001
  }

  ghost function TotalArea(nodes: seq<Cell>, b: Block): real {
    if nodes == [] then 0.0 else TotalArea(nodes[..|nodes| - 1], b) + OverlapArea(nodes[|nodes| - 1], b)
  }

  ghost function TotalContribution(nodes: seq<Cell>, b: Block, t: nat): real {
    if nodes == [] then 0.0 else TotalContribution(nodes[..|nodes| - 1], b, t) + Contribution(nodes[|nodes| - 1], b, t)
  }

  ghost function TotalPower(nodes: seq<Cell>, blocks: seq<Block>, t: nat): real {
    if nodes == [] then 0.0 else TotalPower(nodes[..|nodes| - 1], blocks, t) + NodePower(nodes[|nodes| - 1], blocks, t)
  }

  /** What the blocks dissipate together at step `t`. */
  ghost function BlockPower(blocks: seq<Block>, t: nat): real {
    if blocks == [] then 0.0
    else
      BlockPower(blocks[..|blocks| - 1], t) + Emitted(blocks[|blocks| - 1], t)
  }

  ghost function Emitted(b: Block, t: nat): real {
    if t < |b.activity| then b.maxPower * b.activity[t] else 0.0
  }

  lemma {:induction false} AreaSplits(a: seq<Cell>, c: seq<Cell>, b: Block)
    ensures TotalArea(a + c, b) == TotalArea(a, b) + TotalArea(c, b)
    decreases |c|
  {
    if c == [] {
      assert a + c == a;
    } else {
      assert (a + c)[..|a + c| - 1] == a + c[..|c| - 1];
      AreaSplits(a, c[..|c| - 1], b);
    }
  }

  lemma AreaIsProduct(c: Cell, b: Block)
    ensures OverlapArea(c, b) == Times(OverlapLength(c.x, b.x), OverlapLength(c.y, b.y))
  {
  }

  lemma {:induction false} RowArea(x: Span, ys: seq<Span>, b: Block)
    ensures TotalArea(CellRow(x, ys), b) == Times(OverlapLength(x, b.x), OverlapSum(ys, b.y))
    decreases |ys|
  {
    hide OverlapLength, OverlapArea, Times;
    TimesAdds(OverlapLength(x, b.x), 0.0, 0.0);
    if ys != [] {
      var n := |ys| - 1;
      RowArea(x, ys[..n], b);
      assert CellRow(x, ys)[..n] == CellRow(x, ys[..n]);
      AreaIsProduct(Cell(x, ys[n]), b);
      TimesAdds(OverlapLength(x, b.x), OverlapSum(ys[..n], b.y), OverlapLength(ys[n], b.y));
    }
  }

  /** Over a grid, overlap areas add up to the product of the overlaps along the axes. */
  lemma {:induction false} GridArea(xs: seq<Span>, ys: seq<Span>, b: Block)
    ensures TotalArea(Grid(xs, ys), b) == Times(OverlapSum(xs, b.x), OverlapSum(ys, b.y))
    decreases |xs|
  {
    hide OverlapLength, OverlapArea, Times, TotalArea, CellRow;
    if xs == [] {
      TimesAdds(OverlapSum(ys, b.y), 0.0, 0.0);
      NoArea(b);
    } else {
      var n := |xs| - 1;
      GridArea(xs[..n], ys, b);
      RowArea(xs[n], ys, b);
      AreaSplits(Grid(xs[..n], ys), CellRow(xs[n], ys), b);
      TimesAdds(OverlapSum(ys, b.y), OverlapSum(xs[..n], b.x), OverlapLength(xs[n], b.x));
    }
  }

  lemma NoArea(b: Block)
    ensures TotalArea([], b) == 0.0
  {
  }

  ghost function PerArea(b: Block, t: nat): real
    requires b.Area() != 0.0 && t < |b.activity|
  {
    b.maxPower * b.activity[t] / b.Area()
  }

  lemma ContributionIsShare(c: Cell, b: Block, t: nat)
    requires b.Area() != 0.0 && t < |b.activity|
    ensures Contribution(c, b, t) == Times(PerArea(b, t), OverlapArea(c, b))
  {
    var o, a := OverlapArea(c, b), b.Area();
    assert o >= 0.0;
    hide OverlapArea, Block.Area;
    Rearrange(b.maxPower, o, a, b.activity[t]);
    TimesAdds(PerArea(b, t), 0.0, 0.0);
  }

  lemma Rearrange(p: real, o: real, a: real, s: real)
    requires a != 0.0
    ensures (p * o / a) * s == (p * s / a) * o
  {
    assert (p * o / a) * s == (p * o * s) / a;
    assert (p * s / a) * o == (p * s * o) / a;
  }

  lemma {:induction false} ContributionsAddUp(nodes: seq<Cell>, b: Block, t: nat)
    requires b.Area() != 0.0 && t < |b.activity|
    ensures TotalContribution(nodes, b, t) == Times(PerArea(b, t), TotalArea(nodes, b))
    decreases |nodes|
  {
    hide OverlapArea, Contribution, PerArea, Times, Block.Area;
    TimesAdds(PerArea(b, t), 0.0, 0.0);
    if nodes != [] {
      var n := |nodes| - 1;
      ContributionsAddUp(nodes[..n], b, t);
      ContributionIsShare(nodes[n], b, t);
      TimesAdds(PerArea(b, t), TotalArea(nodes[..n], b), OverlapArea(nodes[n], b));
    }
  }

  lemma {:induction false} PowerByBlock(nodes: seq<Cell>, blocks: seq<Block>, t: nat)
    requires blocks != []
    ensures TotalPower(nodes, blocks, t) ==
              TotalPower(nodes, blocks[..|blocks| - 1], t) + TotalContribution(nodes, blocks[|blocks| - 1], t)
    decreases |nodes|
  {
    hide Contribution;
    if nodes != [] { PowerByBlock(nodes[..|nodes| - 1], blocks, t); }
  }

  lemma {:induction false} NoBlocksNoPower(nodes: seq<Cell>, t: nat)
    ensures TotalPower(nodes, [], t) == 0.0
    decreases |nodes|
  {
    if nodes != [] { NoBlocksNoPower(nodes[..|nodes| - 1], t); }
  }

  /** The layout of a layer: how each axis is divided. */
  datatype Axis = Axis(pattern: Pattern, start: real, length: real, spacing: real, count: nat)

  ghost predicate Proper(a: Axis) {
    Usable(a.pattern) && 0.0 <= a.length && Fits(a.pattern, a.length) && 0.0 <= a.spacing
  }

  function AxisCells(a: Axis): seq<Span>
    requires Usable(a.pattern)
  {
    ChipletCells(a.pattern, a.start, a.length, a.spacing, a.count)
  }

  /** Along the axis, the block lies inside one chiplet, or anywhere in a row of chiplets without gaps. */
  ghost predicate OnAxis(b: Span, a: Axis) {
    || (exists k: nat :: k < a.count && Within(b, a.start, a.length, a.spacing, k))
    || (a.spacing == 0.0 && 0.0 <= b.length && a.start <= b.start && b.End() <= ChipletStart(a.start, a.length, a.count))
  }

  lemma AxisCovers(a: Axis, b: Span)
    requires Proper(a) && OnAxis(b, a)
    ensures OverlapSum(AxisCells(a), b) == b.length
  {
    hide ChipletCells, Within, Fits, OverlapSum, ChipletStart;
    if k: nat :| k < a.count && Within(b, a.start, a.length, a.spacing, k) {
      ChipletsCover(a.pattern, a.start, a.length, a.spacing, a.count, b, k);
    } else {
      GaplessCover(a.pattern, a.start, a.length, a.count, b);
    }
  }

  /** A grid covers the whole of a block whose length its columns cover and whose width its rows do. */
  lemma AreaFullyCovered(xs: seq<Span>, ys: seq<Span>, b: Block)
    requires OverlapSum(xs, b.x) == b.x.length && OverlapSum(ys, b.y) == b.y.length
    ensures TotalArea(Grid(xs, ys), b) == b.Area()
  {
    hide Grid, OverlapSum, TotalArea;
    GridArea(xs, ys, b);
  }

  /** A block's power arrives in full exactly when the nodes cover its whole area, or there is none. */
  lemma BlockFullySpread(nodes: seq<Cell>, b: Block, t: nat)
    requires b.Area() != 0.0 && t < |b.activity|
    ensures TotalContribution(nodes, b, t) == Emitted(b, t) <==> TotalArea(nodes, b) == b.Area() || Emitted(b, t) == 0.0
  {
    hide TotalArea, TotalContribution, Block.Area, PerArea, Emitted, Times;
    ContributionsAddUp(nodes, b, t);
    WholeArea(b, t);
    SameShare(PerArea(b, t), TotalArea(nodes, b), b.Area());
  }

  lemma SameShare(share: real, a: real, c: real)
    requires c != 0.0
    ensures Times(share, a) == Times(share, c) <==> a == c || Times(share, c) == 0.0
  {
    if share != 0.0 && share * a == share * c {
      assert share * (a - c) == 0.0;
    }
  }

  lemma WholeArea(b: Block, t: nat)
    requires b.Area() != 0.0 && t < |b.activity|
    ensures Times(PerArea(b, t), b.Area()) == Emitted(b, t)
  {
    hide Block.Area;
    Cancel(b.maxPower * b.activity[t], b.Area());
  }

  lemma Cancel(p: real, a: real)
    requires a != 0.0
    ensures p / a * a == p
  {
  }

  /** Power is conserved: when the nodes cover the whole area of each block, their powers add up to
      the total block power at every step. */
  lemma {:induction false} PowerConserved(nodes: seq<Cell>, blocks: seq<Block>, t: nat)
    requires forall k | 0 <= k < |blocks| :: blocks[k].Area() != 0.0 && TotalArea(nodes, blocks[k]) == blocks[k].Area() && t < |blocks[k].activity|
    ensures TotalPower(nodes, blocks, t) == BlockPower(blocks, t)
    decreases |blocks|
  {
    hide TotalPower, TotalContribution, TotalArea, Block.Area, Emitted;
    if blocks == [] {
      NoBlocksNoPower(nodes, t);
    } else {
      PowerConserved(nodes, blocks[..|blocks| - 1], t);
      PowerByBlock(nodes, blocks, t);
      BlockFullySpread(nodes, blocks[|blocks| - 1], t);
    }
  }

  /** In a layer, that is so for blocks inside a chiplet, and for blocks anywhere in rows of chiplets
      without gaps. */
  lemma LayerPowerConserved(ax: Axis, ay: Axis, blocks: seq<Block>, t: nat)
    requires Proper(ax) && Proper(ay)
    requires forall k | 0 <= k < |blocks| :: OnAxis(blocks[k].x, ax) && OnAxis(blocks[k].y, ay)
    requires forall k | 0 <= k < |blocks| :: blocks[k].Area() != 0.0 && t < |blocks[k].activity|
    ensures TotalPower(Grid(AxisCells(ax), AxisCells(ay)), blocks, t) == BlockPower(blocks, t)
  {
    hide Grid, AxisCells, OnAxis, Fits, TotalPower, TotalArea, BlockPower, Block.Area;
    var nodes := Grid(AxisCells(ax), AxisCells(ay));
    forall k | 0 <= k < |blocks| ensures TotalArea(nodes, blocks[k]) == blocks[k].Area() {
      AxisCovers(ax, blocks[k].x);
      AxisCovers(ay, blocks[k].y);
      AreaFullyCovered(AxisCells(ax), AxisCells(ay), blocks[k]);
    }
    PowerConserved(nodes, blocks, t);
  }

  // ---------------------------------------------------------------- computing it

  /** Spreads the blocks' power over the cells; gives up on the first cell that is not covered by
      blocks to within a ten-thousandth. */
  method GetPower(nodes: seq<Cell>, blocks: seq<Block>, steps: nat) returns (ok: bool, power: array2<real>)
    requires forall k | 0 <= k < |blocks| :: steps <= |blocks[k].activity|
    ensures ok <==> forall n | 0 <= n < |nodes| :: Covered(nodes[n], blocks)
    ensures power.Length0 == |nodes| && power.Length1 == steps
    ensures ok ==> forall n: nat, t: nat | n < |nodes| && t < steps :: power[n, t] == NodePower(nodes[n], blocks, t)
  {
    power := new real[|nodes|, steps]((i, j) => 0.0);
    for n := 0 to |nodes|
      invariant forall m | 0 <= m < n :: Covered(nodes[m], blocks)
      invariant forall m: nat, t: nat | m < n && t < steps :: power[m, t] == NodePower(nodes[m], blocks, t)
      invariant forall m: nat, t: nat | n <= m < |nodes| && t < steps :: power[m, t] == 0.0
    {
      var row, left := PowerOfNode(nodes[n], blocks, steps);
      for t := 0 to steps
        invariant forall u: nat | u < t :: power[n, u] == row[u]
        invariant forall u: nat | t <= u < steps :: power[n, u] == 0.0
        invariant forall m: nat, u: nat | m < n && u < steps :: power[m, u] == NodePower(nodes[m], blocks, u)
        invariant forall m: nat, u: nat | n < m < |nodes| && u < steps :: power[m, u] == 0.0
      {
        power[n, t] := power[n, t] + row[t];
      }
      if left > 0.0001 || left < -0.0001 { return false, power; }
    }
    return true, power;
  }

  method PowerOfNode(c: Cell, blocks: seq<Block>, steps: nat) returns (row: seq<real>, left: real)
    requires forall k | 0 <= k < |blocks| :: steps <= |blocks[k].activity|
    ensures |row| == steps && forall t: nat | t < steps :: row[t] == NodePower(c, blocks, t)
    ensures left == Uncovered(c, blocks)
  {
    hide Spread, OverlapArea;
    row := seq(steps, t => 0.0);
    left := c.Area();
    for k := 0 to |blocks|
      invariant |row| == steps && forall t: nat | t < steps :: row[t] == NodePower(c, blocks[..k], t)
      invariant left == Uncovered(c, blocks[..k])
    {
      assert blocks[..k + 1][..k] == blocks[..k];
      var b := blocks[k];
      var area := OverlapArea(c, b);
      if area > 0.0 {
        OverlapNeedsArea(c, b);
        left := left - area;
        var before := row;
        row := seq(steps, t requires 0 <= t < steps && |before| == steps && steps <= |b.activity| && b.Area() != 0.0 =>
          before[t] + Spread(b, area, t));
      }
    }
    assert blocks[..|blocks|] == blocks;
  }
}
