/** Greedy allocation of a layer onto chiplets and the all-or-nothing mapping of a whole model
    (model_mapper.py). */
module Mapper {
  import opened Numbers
  import opened Sums

  // ---------------------------------------------------------------- layer requirements

  datatype Layer =
    | Conv(filterSize: nat, outChannels: nat)
    | FullyConnected(inFeatures: nat, outFeatures: nat)
    | SelfAttention(embed: nat)
    | OtherLayer

  datatype ChipKind = InMemory | Cmos | Io

  datatype ChipSpec = ChipSpec(kind: ChipKind, rows: nat, columns: nat, bitsPerCell: nat, bitsPerWeight: nat)

  function CeilDiv(a: real, b: nat): int
    requires b > 0
  {
    Ceil(a / b as real)
  }

  /** Crossbars needed for a matrix of the given width and height. */
  function Crossbars(spec: ChipSpec, width: nat, height: nat): int
    requires spec.rows > 0 && spec.columns > 0 && spec.bitsPerCell > 0
  {
    CeilDiv(width as real * spec.bitsPerWeight as real / spec.bitsPerCell as real, spec.columns)
    * CeilDiv(height as real, spec.rows)
  }

  predicate Usable(spec: ChipSpec) {
    spec.kind == Cmos || (spec.rows > 0 && spec.columns > 0 && spec.bitsPerCell > 0)
  }

  /** Capacity units one chiplet needs to host the whole layer: weights or crossbars. */
  function LayerRequirement(layer: Layer, spec: ChipSpec): int
    requires Usable(spec)
  {
    if spec.kind == Cmos then
      match layer
      case Conv(filter, out) => filter * out
      case FullyConnected(inf, out) => inf * out
      case SelfAttention(embed) => embed * embed
      case OtherLayer => 0
    else
      match layer
      case Conv(filter, out) => Crossbars(spec, out, filter)
      case FullyConnected(inf, out) => Crossbars(spec, out, inf)
      case SelfAttention(embed) => Crossbars(spec, embed, embed)
      case OtherLayer => 0
  }

  /** A grid of `r` by `c` crossbars holds a matrix of the given height and width, each weight spread
      over as many cells as its bits need. */
  ghost predicate Holds(spec: ChipSpec, width: nat, height: nat, r: nat, c: nat) {
    HighEnough(spec, height, r) && WideEnough(spec, width, c)
  }

  ghost predicate HighEnough(spec: ChipSpec, height: nat, r: nat) {
    r * spec.rows >= height
  }

  ghost predicate WideEnough(spec: ChipSpec, width: nat, c: nat) {
    c * spec.columns * spec.bitsPerCell >= width * spec.bitsPerWeight
  }

  /** `n` crossbars are just enough for such a matrix: some grid of `n` holds it and no smaller one does. */
  ghost predicate JustEnough(spec: ChipSpec, width: nat, height: nat, n: int) {
    && (exists r: nat, c: nat :: Holds(spec, width, height, r, c) && n == r * c)
    && forall r: nat, c: nat | Holds(spec, width, height, r, c) :: n <= r * c
  }

  /** The units a chiplet needs for a whole layer: on one that computes in memory the crossbars that
      hold its weight matrix, on a digital one its weights; nothing for kinds without a size rule. */
  ghost predicate NeedsExactly(layer: Layer, spec: ChipSpec, n: int) {
    match layer
    case Conv(filter, out) => if spec.kind == Cmos then n == filter * out else JustEnough(spec, out, filter, n)
    case FullyConnected(inf, out) => if spec.kind == Cmos then n == inf * out else JustEnough(spec, out, inf, n)
    case SelfAttention(embed) => if spec.kind == Cmos then n == embed * embed else JustEnough(spec, embed, embed, n)
    case OtherLayer => n == 0
  }

  /** The least whole number that covers a quotient. */
  lemma CeilDivLeast(a: real, b: nat, n: int)
    requires b > 0
    ensures CeilDiv(a, b) <= n <==> a <= Times(n as real, b as real)
  {
    QuotientOrder(a, b as real, n as real);
    if a / b as real <= n as real { CeilLeast(a / b as real, n); }
  }

  lemma RealProduct(a: int, b: int)
    ensures (a * b) as real == Times(a as real, b as real)
  {
  }

  lemma CellsOrder(spec: ChipSpec, width: nat, most: int)
    requires spec.bitsPerCell > 0
    ensures Cells(spec, width) <= most as real <==> width * spec.bitsPerWeight <= most * spec.bitsPerCell
  {
    RealProduct(width, spec.bitsPerWeight);
    RealProduct(most, spec.bitsPerCell);
    QuotientOrder(width as real * spec.bitsPerWeight as real, spec.bitsPerCell as real, most as real);
  }

  lemma ColumnsLeast(spec: ChipSpec, width: nat, c: nat)
    requires spec.columns > 0 && spec.bitsPerCell > 0
    ensures CeilDiv(Cells(spec, width), spec.columns) <= c <==> WideEnough(spec, width, c)
  {
    hide CeilDiv, Cells;
    RealProduct(c, spec.columns);
    CeilDivLeast(Cells(spec, width), spec.columns, c);
    CellsOrder(spec, width, c * spec.columns);
  }

  lemma RowsLeast(spec: ChipSpec, height: nat, r: nat)
    requires spec.rows > 0
    ensures CeilDiv(height as real, spec.rows) <= r <==> HighEnough(spec, height, r)
  {
    hide CeilDiv;
    RealProduct(r, spec.rows);
    CeilDivLeast(height as real, spec.rows, r);
  }

  lemma CeilDivNat(a: real, b: nat)
    requires b > 0 && a >= 0.0
    ensures CeilDiv(a, b) >= 0
  {
    CeilDivLeast(a, b, -1);
  }

  lemma ProductOrder(a: nat, b: nat, c: nat, d: nat)
    requires a <= c && b <= d
    ensures a * b <= c * d
  {
    assert a * b <= c * b <= c * d;
  }

  /** The cells of a row that a matrix of the given width takes. */
  function Cells(spec: ChipSpec, width: nat): real
    requires spec.bitsPerCell > 0
  {
    width as real * spec.bitsPerWeight as real / spec.bitsPerCell as real
  }

  lemma HoldsExactly(spec: ChipSpec, width: nat, height: nat, r: nat, c: nat)
    requires spec.rows > 0 && spec.columns > 0 && spec.bitsPerCell > 0
    ensures Holds(spec, width, height, r, c) <==> CeilDiv(height as real, spec.rows) <= r && CeilDiv(Cells(spec, width), spec.columns) <= c
  {
    hide CeilDiv, Cells, HighEnough, WideEnough;
    RowsLeast(spec, height, r);
    ColumnsLeast(spec, width, c);
  }

  lemma CrossbarsExact(spec: ChipSpec, width: nat, height: nat)
    requires spec.rows > 0 && spec.columns > 0 && spec.bitsPerCell > 0
    ensures JustEnough(spec, width, height, Crossbars(spec, width, height))
  {
    hide CeilDiv, Holds, Cells, Crossbars;
    CellsNonNegative(spec, width);
    CeilDivNat(Cells(spec, width), spec.columns);
    CeilDivNat(height as real, spec.rows);
    GridIsProduct(spec, width, height);
    var columns: nat, rows: nat := CeilDiv(Cells(spec, width), spec.columns), CeilDiv(height as real, spec.rows);
    HoldsExactly(spec, width, height, rows, columns);
    forall r: nat, c: nat | Holds(spec, width, height, r, c) ensures rows * columns <= r * c {
      HoldsExactly(spec, width, height, r, c);
      ProductOrder(rows, columns, r, c);
    }
  }

  lemma GridIsProduct(spec: ChipSpec, width: nat, height: nat)
    requires spec.rows > 0 && spec.columns > 0 && spec.bitsPerCell > 0
    ensures Crossbars(spec, width, height) == CeilDiv(height as real, spec.rows) * CeilDiv(Cells(spec, width), spec.columns)
  {
    hide CeilDiv;
  }

  lemma CellsNonNegative(spec: ChipSpec, width: nat)
    requires spec.bitsPerCell > 0
    ensures Cells(spec, width) >= 0.0
  {
    QuotientOrder(width as real * spec.bitsPerWeight as real, spec.bitsPerCell as real, 0.0);
    assert width as real * spec.bitsPerWeight as real >= 0.0;
  }

  /** What a chiplet is said to need for a layer is exactly that. */
  lemma RequirementExact(layer: Layer, spec: ChipSpec)
    requires Usable(spec)
    ensures NeedsExactly(layer, spec, LayerRequirement(layer, spec))
  {
    hide JustEnough, Crossbars;
    if spec.kind != Cmos {
      match layer
      case Conv(filter, out) => CrossbarsExact(spec, out, filter);
      case FullyConnected(inf, out) => CrossbarsExact(spec, out, inf);
      case SelfAttention(embed) => CrossbarsExact(spec, embed, embed);
      case OtherLayer =>
    }
  }

  // ---------------------------------------------------------------- arithmetic of one step

  /** Percentage of the layer that `units` of a chiplet needing `full` for all of it can hold. */
  function ShareOf(units: int, full: int): real
    requires full > 0
  {
    units as real * 100.0 / full as real
  }

  /** Amount of work, out of `req`, in a percentage share. */
  function Work(share: real, req: int): real {
    share * req as real / 100.0
  }

  /** Units a chiplet needs for `left` out of `req`. */
  function UnitsFor(left: int, full: int, req: int): int
    requires req > 0
  {
    Ceil(Ratio(left, full, req))
  }

  function Ratio(a: int, b: int, c: int): real
    requires c > 0
  {
    a as real * b as real / c as real
  }

  lemma WorkOfShare(units: int, full: int, req: int)
    requires full > 0
    ensures Work(ShareOf(units, full), req) == Ratio(units, req, full)
  {
  }

  lemma WorkSplits(a: real, b: real, req: int)
    ensures Work(a - b, req) == Work(a, req) - Work(b, req)
  {
  }

  lemma ShareFromWork(share: real, req: int)
    requires req > 0 && Work(share, req) >= 0.0
    ensures share >= 0.0
  {
  }

  /** Cross-multiplication: `n` is at least `a * b / c` exactly when `n * c / b` is at least `a`. */
  lemma RatioFlip(a: int, b: int, c: int, n: int)
    requires b > 0 && c > 0
    ensures Ratio(a, b, c) <= n as real <==> a as real <= Ratio(n, c, b)
  {
    var x, y := a as real * b as real, n as real * c as real;
    QuotientOrder(x, c as real, n as real);
    QuotientOrder(y, b as real, a as real);
  }

  lemma QuotientOrder(x: real, d: real, n: real)
    requires d > 0.0
    ensures x / d <= n <==> x <= n * d
    ensures n <= x / d <==> n * d <= x
  {
    var q := x / d;
    assert q * d == x;
    if q <= n { ScaleOrder(q, n, d); }
    if n <= q { ScaleOrder(n, q, d); }
    if q > n { ScaleStrict(n, q, d); }
    if n > q { ScaleStrict(q, n, d); }
  }

  lemma ScaleOrder(a: real, b: real, d: real)
    requires a <= b && d > 0.0
    ensures a * d <= b * d
  {
  }

  lemma ScaleStrict(a: real, b: real, d: real)
    requires a < b && d > 0.0
    ensures a * d < b * d
  {
  }

  /** Not enough units for what is left means the units hold less than what is left. */
  lemma TooFewUnits(units: int, left: int, full: int, req: int)
    requires req > 0 && full > 0 && units < UnitsFor(left, full, req)
    ensures Ratio(units, req, full) < left as real
  {
    RatioFlip(left, full, req, units);
  }

  /** A chiplet filled to zero: what it takes never exceeds what is left, and rounding up widens the
      gap between the unplaced share and the work still counted by less than one. */
  lemma PartialStep(req: int, full: int, units: int, left: int, share: real)
    requires req > 0 && full > 0 && 0 <= units && 0 < left && units < UnitsFor(left, full, req)
    requires left as real <= Work(share, req)
    ensures var alloc := ShareOf(units, full);
            var taken := Ceil(Work(alloc, req));
            && 0.0 <= alloc <= share && 0 <= taken <= left
            && Work(share, req) - left as real
               <= Work(share - alloc, req) - (left - taken) as real
               <= Work(share, req) - left as real + 1.0
  {
    var alloc := ShareOf(units, full);
    WorkOfShare(units, full, req);
    TooFewUnits(units, left, full, req);
    var r := Work(alloc, req);
    CeilLeast(r, left);
    assert 0.0 <= alloc && 0.0 <= r by { NonNegative(units, full, req); }
    WorkSplits(share, alloc, req);
    ShareFromWork(share - alloc, req);
  }

  lemma NonNegative(units: int, full: int, req: int)
    requires 0 <= units && full > 0 && req > 0
    ensures 0.0 <= ShareOf(units, full) && 0.0 <= Work(ShareOf(units, full), req)
  {
  }

  /** The chiplet that takes all the rest needs at least one unit, and enough for what is left. */
  lemma WholeStep(req: int, full: int, left: int, share: real)
    requires req > 0 && full > 0 && 0 < left
    ensures 0 < UnitsFor(left, full, req)
    ensures left as real <= Ratio(UnitsFor(left, full, req), req, full)
    ensures Work(0.0, req) == 0.0
  {
    RatioFlip(left, full, req, UnitsFor(left, full, req));
    RatioFlip(left, full, req, 0);
  }

  /** It takes less than one unit more than its share calls for. */
  lemma NotTooMany(req: int, full: int, left: int, share: real)
    requires req > 0 && full > 0 && left as real <= Work(share, req)
    ensures UnitsFor(left, full, req) as real < Work(share, full) + 1.0
  {
    var f, r := full as real, req as real;
    ScaleOrder(left as real, share * r / 100.0, f);
    assert left as real * f <= (share * f / 100.0) * r;
    QuotientOrder(left as real * f, r, share * f / 100.0);
    assert Ratio(left, full, req) <= Work(share, full);
    hide Ratio, Work;
    assert UnitsFor(left, full, req) as real - 1.0 < Ratio(left, full, req);
  }

  // ---------------------------------------------------------------- the allocation of one layer

  /** Progress of one layer's allocation.  `filled` counts the chiplets used up so far (`CountsFilled`)
      and `last` is the chiplet that took all the rest, or -1. */
  datatype Placement = Placement(remaining: seq<int>, action: seq<real>, left: int, share: real, filled: nat, last: int)

  /** What trying chiplet `c` does. */
  function PlaceOn(req: int, full: int, st: Placement, c: nat): Placement
    requires c < |st.remaining| == |st.action| && req > 0
  {
    var units := st.remaining[c];
    if units <= 0 || full <= 0 then st
    else
      var needed := UnitsFor(st.left, full, req);
      if units >= needed then
        Placement(st.remaining[c := units - needed], st.action[c := st.action[c] + st.share], 0, 0.0, st.filled, c)
      else
        var alloc := ShareOf(units, full);
        Placement(st.remaining[c := 0], st.action[c := st.action[c] + alloc], st.left - Ceil(Work(alloc, req)),
                  st.share - alloc, st.filled + 1, st.last)
  }

  predicate Distinct(order: seq<nat>, n: nat) {
    (forall k | 0 <= k < |order| :: order[k] < n) && forall j, k | 0 <= j < k < |order| :: order[j] != order[k]
  }

  /** Capacity is only taken, and only from the chiplets tried. */
  ghost predicate Takes(cap: seq<int>, st: Placement, tried: seq<nat>) {
    && |st.remaining| == |st.action| == |cap|
    && (forall i | 0 <= i < |cap| :: 0 <= st.remaining[i] <= cap[i] && 0.0 <= st.action[i])
    && (forall i | 0 <= i < |cap| && i !in tried :: st.remaining[i] == cap[i] && st.action[i] == 0.0)
  }

  /** What is counted as left lags the unplaced share by at most one per chiplet used up, and the
      shares add up. */
  ghost predicate Balanced(req: int, st: Placement) {
    && 0 <= st.left && 0.0 <= st.share && Sum(st.action) + st.share == 100.0
    && 0.0 <= Work(st.share, req) - st.left as real <= st.filled as real
  }

  /** Every chiplet that holds a share, except possibly `last`, has been used up; `last` took all
      the rest. */
  ghost predicate UsedUp(st: Placement)
    requires |st.remaining| == |st.action|
  {
    && (forall i | 0 <= i < |st.action| && st.action[i] > 0.0 && i != st.last :: st.remaining[i] == 0)
    && (st.last != -1 ==> st.left == 0 && st.share == 0.0)
  }

  /** The chiplets that hold a share and were used up for it. */
  ghost function Filled(st: Placement): set<int> {
    set i | 0 <= i < |st.action| && st.action[i] > 0.0 && i != st.last
  }

  ghost predicate CountsFilled(st: Placement) {
    st.filled == |Filled(st)|
  }

  /** The units taken from a chiplet hold its share: exactly, if it was used up, and up to one unit
      of work per chiplet used up, if it took all the rest; it then takes less than a unit too many. */
  ghost predicate Backed(req: int, cap: seq<int>, full: seq<int>, st: Placement, i: int)
    requires |cap| == |full| == |st.remaining| == |st.action| && 0 <= i < |cap|
  {
    st.action[i] > 0.0 ==>
      && full[i] > 0 && Work(st.action[i], req) <= Ratio(cap[i] - st.remaining[i], req, full[i]) + st.filled as real
      && (if i == st.last then (cap[i] - st.remaining[i]) as real < Work(st.action[i], full[i]) + 1.0
          else st.action[i] == ShareOf(cap[i], full[i]))
  }

  /** A chiplet gives up capacity only for a share. */
  ghost predicate Untouched(cap: seq<int>, st: Placement)
    requires |cap| == |st.remaining| == |st.action|
  {
    forall i | 0 <= i < |cap| && st.action[i] == 0.0 :: st.remaining[i] == cap[i]
  }

  ghost predicate Placed(req: int, cap: seq<int>, full: seq<int>, st: Placement, tried: seq<nat>) {
    && |cap| == |full| && Takes(cap, st, tried) && Balanced(req, st) && UsedUp(st)
    && (st.last != -1 ==> st.last in tried)
    && (forall i | 0 <= i < |cap| :: Backed(req, cap, full, st, i))
    && CountsFilled(st) && Untouched(cap, st)
  }

  /** Only a chiplet used up is counted. */
  lemma PlaceCounts(req: int, full: int, st: Placement, c: nat)
    requires c < |st.remaining| == |st.action| && req > 0 && 0 < st.left && CountsFilled(st)
    requires st.action[c] == 0.0 && st.last == -1
    ensures CountsFilled(PlaceOn(req, full, st, c))
  {
    var units, st' := st.remaining[c], PlaceOn(req, full, st, c);
    if units > 0 && full > 0 {
      if units >= UnitsFor(st.left, full, req) {
        assert Filled(st') == Filled(st);
      } else {
        SomeShare(units, full);
        assert Filled(st') == Filled(st) + {c as int} && c !in Filled(st);
      }
    }
  }

  lemma SomeShare(units: int, full: int)
    requires units > 0 && full > 0
    ensures ShareOf(units, full) > 0.0
  {
  }

  /** A chiplet that gives something up gets a share for it. */
  lemma PlaceTouches(req: int, cap: seq<int>, full: int, st: Placement, c: nat)
    requires c < |cap| == |st.remaining| == |st.action| && req > 0 && 0 < st.left && Untouched(cap, st)
    requires st.action[c] == 0.0 && st.left as real <= Work(st.share, req)
    ensures Untouched(cap, PlaceOn(req, full, st, c))
  {
    hide UnitsFor, Ceil;
    var units := st.remaining[c];
    if units > 0 && full > 0 { SomeShare(units, full); }
    hide ShareOf;
    PositiveShare(st.share, req);
    hide Work;
  }

  lemma PositiveShare(share: real, req: int)
    requires req > 0 && Work(share, req) > 0.0
    ensures share > 0.0
  {
  }

  lemma PlaceBalanced(req: int, full: int, st: Placement, c: nat)
    requires c < |st.remaining| == |st.action| && req > 0 && 0 < st.left && Balanced(req, st)
    ensures Balanced(req, PlaceOn(req, full, st, c))
    ensures var t := PlaceOn(req, full, st, c); st.filled <= t.filled <= st.filled + 1 && 0 <= t.left
  {
    var units := st.remaining[c];
    if units > 0 && full > 0 {
      if units >= UnitsFor(st.left, full, req) {
        SumUpdate(st.action, c, st.action[c] + st.share);
        WholeStep(req, full, st.left, st.share);
      } else {
        PartialStep(req, full, units, st.left, st.share);
        SumUpdate(st.action, c, st.action[c] + ShareOf(units, full));
      }
    }
  }

  lemma PlaceTakes(req: int, cap: seq<int>, full: int, st: Placement, c: nat, tried: seq<nat>)
    requires c < |cap| && req > 0 && 0 < st.left && 0.0 <= st.share && Takes(cap, st, tried) && c !in tried
    ensures Takes(cap, PlaceOn(req, full, st, c), tried + [c])
    ensures UsedUp(st) && st.last == -1 ==> UsedUp(PlaceOn(req, full, st, c))
  {
    var units := st.remaining[c];
    if units > 0 && full > 0 {
      if units >= UnitsFor(st.left, full, req) {
        WholeStep(req, full, st.left, st.share);
      } else {
        NonNegative(units, full, req);
      }
    }
  }

  lemma PlaceBacked(req: int, cap: seq<int>, full: seq<int>, st: Placement, c: nat, i: nat)
    requires |cap| == |full| == |st.remaining| == |st.action| && c < |cap| && i < |cap| && req > 0 && 0 < st.left
    requires st.remaining[c] == cap[c] && st.action[c] == 0.0 && st.last == -1 && Backed(req, cap, full, st, i)
    requires 0.0 <= Work(st.share, req) - st.left as real <= st.filled as real
    ensures Backed(req, cap, full, PlaceOn(req, full[c], st, c), i)
  {
    var units := st.remaining[c];
    if i == c && units > 0 && full[c] > 0 {
      if units >= UnitsFor(st.left, full[c], req) {
        WholeStep(req, full[c], st.left, st.share);
        NotTooMany(req, full[c], st.left, st.share);
      } else {
        WorkOfShare(units, full[c], req);
      }
    }
  }

  lemma PlaceKeeps(req: int, cap: seq<int>, full: seq<int>, st: Placement, c: nat, tried: seq<nat>)
    requires req > 0 && 0 < st.left && Placed(req, cap, full, st, tried) && c < |cap| && c !in tried
    ensures Placed(req, cap, full, PlaceOn(req, full[c], st, c), tried + [c])
  {
    PlaceBalanced(req, full[c], st, c);
    PlaceTakes(req, cap, full[c], st, c, tried);
    PlaceCounts(req, full[c], st, c);
    PlaceTouches(req, cap, full[c], st, c);
    forall i | 0 <= i < |cap| ensures Backed(req, cap, full, PlaceOn(req, full[c], st, c), i) {
      PlaceBacked(req, cap, full, st, c, i);
    }
    hide Balanced, Takes, Backed, CountsFilled, Untouched;
    assert PlaceOn(req, full[c], st, c).last == st.last || PlaceOn(req, full[c], st, c).last == c;
  }

  /** Shares follow the order: after the chiplet that took all the rest, none is used. */
  ghost predicate LastIsLast(order: seq<nat>, st: Placement)
    requires Distinct(order, |st.action|)
  {
    forall k, j | 0 <= k < j < |order| && order[k] == st.last :: st.action[order[j]] == 0.0
  }

  /** While something is left, every usable chiplet tried has been used up. */
  ghost predicate Drained(full: seq<int>, st: Placement, tried: seq<nat>)
    requires Distinct(tried, |st.remaining|) && |full| == |st.remaining|
  {
    st.left > 0 ==> st.last == -1 && forall h | 0 <= h < |tried| && full[tried[h]] > 0 :: st.remaining[tried[h]] <= 0
  }

  lemma PlaceDrains(req: int, full: seq<int>, st: Placement, c: nat, tried: seq<nat>)
    requires |st.remaining| == |st.action| == |full| && c < |full| && req > 0 && 0 < st.left
    requires Distinct(tried, |full|) && c !in tried && Drained(full, st, tried)
    ensures Distinct(tried + [c], |full|) && Drained(full, PlaceOn(req, full[c], st, c), tried + [c])
    ensures PlaceOn(req, full[c], st, c).last == -1 || PlaceOn(req, full[c], st, c).last == c
  {
    var st' := PlaceOn(req, full[c], st, c);
    assert st'.left > 0 ==> st'.last == st.last;
    hide UnitsFor, ShareOf, Work;
  }

  lemma NothingPlaced(req: nat, cap: seq<int>, full: seq<int>, st: Placement)
    requires |full| == |cap| && (forall i | 0 <= i < |cap| :: 0 <= cap[i])
    requires st == Placement(cap, seq(|cap|, i => 0.0), req, 100.0, 0, -1)
    ensures Placed(req, cap, full, st, [])
  {
    SumOfZeros(|cap|);
    assert Work(100.0, req) == req as real;
    assert Filled(st) == {};
  }

  lemma SomethingNeeded(req: nat, st: Placement)
    requires Balanced(req, st) && st.left > 0
    ensures req > 0
  {
    assert Work(st.share, 0) == 0.0;
  }

  method PlaceStep(req: nat, full: int, st: Placement, c: nat) returns (r: Placement)
    requires c < |st.remaining| == |st.action| && req > 0
    ensures r == PlaceOn(req, full, st, c)
  {
    var remaining, action, left, share := st.remaining, st.action, st.left, st.share;
    var units := remaining[c];
    if units <= 0 { return st; }
    if full <= 0 { return st; }
    var needed := UnitsFor(left, full, req);
    var filled, last := st.filled, st.last;
    var alloc;
    if units >= needed {
      remaining := remaining[c := units - needed];
      alloc := share;
      share := 0.0;
      left := 0;
      last := c;
    } else {
      alloc := ShareOf(units, full);
      remaining := remaining[c := 0];
      share := share - alloc;
      left := left - Ceil(Work(alloc, req));
      filled := filled + 1;
    }
    action := action[c := action[c] + alloc];
    r := Placement(remaining, action, left, share, filled, last);
  }

  /** Where an allocation begins: nothing placed. */
  function Begin(req: nat, cap: seq<int>): Placement {
    Placement(cap, seq(|cap|, i => 0.0), req, 100.0, 0, -1)
  }

  /** The allocation after the first `k` chiplets in order; once nothing is left, no more are tried. */
  function Tried(req: nat, cap: seq<int>, full: seq<int>, order: seq<nat>, k: nat): (st: Placement)
    requires k <= |order| && |full| == |cap| && Distinct(order, |cap|)
    ensures |st.remaining| == |st.action| == |cap|
  {
    if k == 0 then Begin(req, cap)
    else
      var before := Tried(req, cap, full, order, k - 1);
      if before.left <= 0 || req == 0 then before else PlaceOn(req, full[order[k - 1]], before, order[k - 1])
  }

  /** The whole outcome of a layer's allocation over the chiplets in the given order. */
  ghost predicate Allocated(req: nat, cap: seq<int>, full: seq<int>, st: Placement, order: seq<nat>) {
    && Distinct(order, |cap|) && Placed(req, cap, full, st, order)
    && LastIsLast(order, st) && Drained(full, st, order)
    && st == Tried(req, cap, full, order, |order|)
  }

  lemma {:induction false} TriedStays(req: nat, cap: seq<int>, full: seq<int>, order: seq<nat>, k: nat, n: nat)
    requires k <= n <= |order| && |full| == |cap| && Distinct(order, |cap|) && Tried(req, cap, full, order, k).left <= 0
    ensures Tried(req, cap, full, order, n) == Tried(req, cap, full, order, k)
    decreases n
  {
    hide PlaceOn, Distinct;
    if k < n { TriedStays(req, cap, full, order, k, n - 1); }
  }

  /** Allocates a layer that needs `req` over the chiplets in the given order.  `full[i]` is what
      chiplet `i` would need for the whole layer. */
  method Allocate(req: nat, order: seq<nat>, cap: seq<int>, full: seq<int>) returns (st: Placement, failed: bool)
    requires Distinct(order, |cap|) && |full| == |cap| && forall i | 0 <= i < |cap| :: 0 <= cap[i]
    ensures Allocated(req, cap, full, st, order)
    ensures failed <==> st.left > 10
  {
    st := Begin(req, cap);
    NothingPlaced(req, cap, full, st);
    hide PlaceOn, Balanced, UsedUp, Backed, Work, Ratio, UnitsFor, ShareOf, Sum;
    var k := 0;
    assert order[..0] == [];
    while k < |order|
      invariant 0 <= k <= |order| && Upto(req, cap, full, st, order, k) && st == Tried(req, cap, full, order, k)
    {
      if st.left <= 0 { break; }
      NextChiplet(req, cap, full, st, order, k);
      st := PlaceStep(req, full[order[k]], st, order[k]);
      k := k + 1;
    }
    assert k == |order| ==> order[..k] == order;
    if k < |order| { TriedStays(req, cap, full, order, k, |order|); }
    WholeOrder(req, cap, full, st, order, k);
    failed := st.left - 10 > 0;
  }

  /** The allocation after the first `k` chiplets in order. */
  ghost predicate Upto(req: nat, cap: seq<int>, full: seq<int>, st: Placement, order: seq<nat>, k: nat)
    requires k <= |order|
  {
    && Distinct(order[..k], |cap|) && Placed(req, cap, full, st, order[..k]) && Drained(full, st, order[..k])
    && (st.last != -1 ==> k > 0 && order[k - 1] == st.last)
  }

  lemma NextChiplet(req: nat, cap: seq<int>, full: seq<int>, st: Placement, order: seq<nat>, k: nat)
    requires Distinct(order, |cap|) && k < |order| && Upto(req, cap, full, st, order, k) && st.left > 0
    ensures req > 0 && Upto(req, cap, full, PlaceOn(req, full[order[k]], st, order[k]), order, k + 1)
  {
    var c, tried := order[k], order[..k];
    assert order[..k + 1] == tried + [c] && c !in tried;
    SomethingNeeded(req, st);
    PlaceKeeps(req, cap, full, st, c, tried);
    PlaceDrains(req, full, st, c, tried);
    hide PlaceOn, Balanced, UsedUp, Backed, Takes;
  }

  lemma WholeOrder(req: int, cap: seq<int>, full: seq<int>, st: Placement, order: seq<nat>, k: nat)
    requires k <= |order| && Distinct(order, |cap|) && Placed(req, cap, full, st, order[..k])
    requires st.last != -1 ==> k > 0 && order[k - 1] == st.last
    ensures Placed(req, cap, full, st, order) && LastIsLast(order, st)
  {
    forall i | 0 <= i < |cap| && i !in order ensures st.remaining[i] == cap[i] && st.action[i] == 0.0 {
      assert i !in order[..k];
    }
    forall j | k <= j < |order| ensures st.action[order[j]] == 0.0 {
      assert order[j] !in order[..k];
    }
  }

  /** A layer that is accepted leaves at most 10 units of work unplaced, plus one for each chiplet
      that holds a share and was used up for it. */
  lemma UnplacedShare(req: nat, cap: seq<int>, full: seq<int>, st: Placement, order: seq<nat>)
    requires Placed(req, cap, full, st, order) && st.left <= 10 && req > 0
    ensures 0.0 <= st.share <= (10 + |Filled(st)|) as real * 100.0 / req as real
    ensures Sum(st.action) == 100.0 - st.share
    ensures forall i | i in Filled(st) :: st.remaining[i] == 0 && 0 < cap[i]
  {
    var bound := (10 + |Filled(st)|) as real;
    assert Work(st.share, req) <= bound;
    assert st.share * req as real <= bound * 100.0;
    QuotientOrder(bound * 100.0, req as real, st.share);
    forall i | i in Filled(st) ensures 0 < cap[i] {
      assert Backed(req, cap, full, st, i);
    }
  }

  /** A layer gets no share at all exactly when everything it needs is still left. */
  lemma NoShareNothingDone(req: nat, cap: seq<int>, full: seq<int>, st: Placement, order: seq<nat>)
    requires Placed(req, cap, full, st, order) && req > 0
    ensures (forall i | 0 <= i < |st.action| :: st.action[i] == 0.0) <==> st.left == req
  {
    if forall i | 0 <= i < |st.action| :: st.action[i] == 0.0 {
      assert st.action == seq(|st.action|, i => 0.0);
      SumOfZeros(|st.action|);
      assert Filled(st) == {};
      assert Work(100.0, req) == req as real;
    }
    if st.left == req {
      WholeWork(st.share, req);
      SumOfNonNegative(st.action);
    }
  }

  /** Some chiplet of the order has capacity and can host part of the layer. */
  predicate Hostable(cap: seq<int>, full: seq<int>, order: seq<nat>)
    requires |full| == |cap| && Distinct(order, |cap|)
  {
    exists k | 0 <= k < |order| :: cap[order[k]] > 0 && full[order[k]] > 0
  }

  lemma {:induction false} NothingTried(req: nat, cap: seq<int>, full: seq<int>, order: seq<nat>, k: nat)
    requires k <= |order| && |full| == |cap| && Distinct(order, |cap|)
    requires req == 0 || !Hostable(cap, full, order)
    ensures Tried(req, cap, full, order, k) == Begin(req, cap)
    decreases k
  {
    if k > 0 { NothingTried(req, cap, full, order, k - 1); }
  }

  /** A layer gets no share exactly when it needs nothing or no chiplet in its order, with capacity
      left, can host any of it; all it needs is then left over.  Otherwise something is placed. */
  lemma NoShareExactly(req: nat, cap: seq<int>, full: seq<int>, st: Placement, order: seq<nat>)
    requires Allocated(req, cap, full, st, order)
    ensures (forall i | 0 <= i < |st.action| :: st.action[i] <= 0.0) <==> req == 0 || !Hostable(cap, full, order)
    ensures req == 0 || !Hostable(cap, full, order) ==> st.left == req && st.remaining == cap
  {
    if req == 0 || !Hostable(cap, full, order) {
      NothingTried(req, cap, full, order, |order|);
    } else {
      NoShareNothingDone(req, cap, full, st, order);
      var k :| 0 <= k < |order| && cap[order[k]] > 0 && full[order[k]] > 0;
      assert st.left > 0 ==> st.remaining[order[k]] <= 0 && st.action[order[k]] > 0.0;
    }
  }

  lemma WholeWork(share: real, req: int)
    requires req > 0 && Work(share, req) >= req as real
    ensures share >= 100.0
  {
  }

  /** A layer that no chiplet can host gets no share, and all it needs is left: it is refused exactly
      when that is more than ten units. */
  lemma Unhostable(req: nat, cap: seq<int>, full: seq<int>, st: Placement, order: seq<nat>)
    requires Placed(req, cap, full, st, order) && forall i | 0 <= i < |full| :: full[i] <= 0
    ensures st.left == req && forall i | 0 <= i < |st.action| :: st.action[i] == 0.0
  {
    forall i | 0 <= i < |st.action| ensures st.action[i] == 0.0 {
      assert Backed(req, cap, full, st, i);
    }
    if req > 0 { NoShareNothingDone(req, cap, full, st, order); }
    if st.left > 0 { SomethingNeeded(req, st); }
  }
}
