/** Packets for loading weights (traffic_calculator.py): one layer's traffic from the I/O chiplets, and
    the traffic of a phase that loads several layers at once. */
module TrafficCalculator {
  import opened Options
  import opened Numbers
  import opened Sums
  import opened Phases

  // ---------------------------------------------------------------- combined phases

  /** Packets to a destination, zero when there is no entry. */
  function Amount(row: map<nat, int>, d: nat): int {
    if d in row then row[d] else 0
  }

  /** One source's destinations with the layer's amounts added. */
  method MergeRow(row: map<nat, int>, dests: map<nat, int>) returns (r: map<nat, int>)
    ensures forall d: nat :: Amount(r, d) == Amount(row, d) + Amount(dests, d)
  {
    r := row;
    var todo := dests.Keys;
    while todo != {}
      invariant todo <= dests.Keys
      invariant forall d: nat :: Amount(r, d) == Amount(row, d) + if d in todo then 0 else Amount(dests, d)
      decreases |todo|
    {
      var d :| d in todo;
      r := if d in r then r[d := r[d] + dests[d]] else r[d := dests[d]];
      todo := todo - {d};
    }
  }

  method Merge(combined: Traffic, layer: Traffic) returns (r: Traffic)
    ensures forall src: nat, dst: nat :: Packets(r, src, dst) == Packets(combined, src, dst) + Packets(layer, src, dst)
  {
    r := combined;
    var todo := layer.Keys;
    while todo != {}
      invariant todo <= layer.Keys
      invariant forall src: nat, dst: nat ::
                  Packets(r, src, dst) == Packets(combined, src, dst) + if src in todo then 0 else Packets(layer, src, dst)
      decreases |todo|
    {
      var src :| src in todo;
      var row: map<nat, int> := if src in r then r[src] else map[];
      var merged := MergeRow(row, layer[src]);
      ghost var before := r;
      r := r[src := merged];
      RowReplaced(before, layer, src, row, merged, r);
      todo := todo - {src};
    }
  }

  lemma RowReplaced(before: Traffic, layer: Traffic, src: nat, row: map<nat, int>, merged: map<nat, int>, after: Traffic)
    requires src in layer && row == (if src in before then before[src] else map[]) && after == before[src := merged]
    requires forall d: nat :: Amount(merged, d) == Amount(row, d) + Amount(layer[src], d)
    ensures forall s: nat, d: nat :: Packets(after, s, d) == Packets(before, s, d) + if s == src then Packets(layer, s, d) else 0
  {
    forall s: nat, d: nat ensures Packets(after, s, d) == Packets(before, s, d) + if s == src then Packets(layer, s, d) else 0 {
      assert Amount(merged, d) == Amount(row, d) + Amount(layer[src], d);
    }
  }

  ghost function PacketSum(layers: seq<Traffic>, src: nat, dst: nat): int {
    if layers == [] then 0 else PacketSum(layers[..|layers| - 1], src, dst) + Packets(layers[|layers| - 1], src, dst)
  }

  /** The traffic of a combined phase is the pointwise sum of its layers' traffic. */
  method CombineTraffic(layers: seq<Traffic>) returns (combined: Traffic)
    ensures forall src: nat, dst: nat :: Packets(combined, src, dst) == PacketSum(layers, src, dst)
  {
    combined := map[];
    hide Packets;
    NoPackets();
    for k := 0 to |layers|
      invariant forall src: nat, dst: nat :: Packets(combined, src, dst) == PacketSum(layers[..k], src, dst)
    {
      assert layers[..k + 1][..k] == layers[..k];
      combined := Merge(combined, layers[k]);
    }
    assert layers[..|layers|] == layers;
  }

  lemma NoPackets()
    ensures forall src: nat, dst: nat :: Packets(map[], src, dst) == 0
  {
  }

  // ---------------------------------------------------------------- one layer

  /** A chiplet as weight loading sees it: its word size and the I/O chiplet that serves it. */
  datatype Site = Site(isIo: bool, bits: nat, io: Option<nat>)

  /** A chiplet and its share of the layer, in percent. */
  datatype Share = Share(chiplet: nat, percent: real)

  function Trunc(x: real): int {
    if x >= 0.0 then x.Floor else -((-x).Floor)
  }

  function WeightsFor(count: nat, percent: real): int {
    Trunc(Times(count as real, percent / 100.0))
  }

  function PacketsOf(weights: int, bits: nat, perPacket: nat): int
    requires perPacket > 0
  {
    MaxInt(1, (weights * bits) / perPacket)
  }

  /** The packets a number of weights fills: none is sent in part, and at least one is sent. */
  ghost predicate FillsPackets(n: int, weights: int, bits: nat, perPacket: nat) {
    && n >= 1 && weights * bits < (n + 1) * perPacket
    && (n * perPacket <= weights * bits || n == 1)
  }

  lemma PacketsExact(weights: int, bits: nat, perPacket: nat, n: int)
    requires perPacket > 0
    ensures FillsPackets(n, weights, bits, perPacket) <==> n == PacketsOf(weights, bits, perPacket)
  {
    var b := weights * bits;
    var q := b / perPacket;
    assert q * perPacket <= b < (q + 1) * perPacket;
    if n < q { Multiples(n + 1, q, perPacket); }
    if q < n { Multiples(q + 1, n, perPacket); }
    if q < 1 { Multiples(q + 1, 2, perPacket); }
  }

  lemma Multiples(a: int, b: int, p: nat)
    requires a <= b
    ensures a * p <= b * p
  {
  }

  /** A share's weights are its percentage of all, fractions of a weight dropped. */
  lemma WeightsExact(count: nat, percent: real)
    requires percent >= 0.0
    ensures var w := WeightsFor(count, percent); 0 <= w && w as real <= Part(count, percent) < w as real + 1.0
  {
    assert count as real * (percent / 100.0) == count as real * percent / 100.0 >= 0.0;
  }

  predicate KnownChiplet(sites: seq<Site>, id: nat) {
    1 <= id <= |sites|
  }

  /** The share leads to packets: the chiplet exists, gets some weights and has an I/O chiplet. */
  predicate Loads(count: nat, sites: seq<Site>, s: Share) {
    KnownChiplet(sites, s.chiplet) && WeightsFor(count, s.percent) != 0 && sites[s.chiplet - 1].io.Some?
  }

  /** Traffic after the first `n` shares. */
  function TrafficTo(count: nat, mapping: seq<Share>, sites: seq<Site>, perPacket: nat, n: nat): Traffic
    requires n <= |mapping| && perPacket > 0
  {
    if n == 0 then map[]
    else
      var before := TrafficTo(count, mapping, sites, perPacket, n - 1);
      var s := mapping[n - 1];
      if !Loads(count, sites, s) then before
      else
        var site := sites[s.chiplet - 1];
        var row: map<nat, int> := if site.io.value in before then before[site.io.value] else map[];
        before[site.io.value := row[s.chiplet := PacketsOf(WeightsFor(count, s.percent), site.bits, perPacket)]]
  }

  datatype Result = Ok(traffic: Traffic) | Rejected

  /** The packets that bring a layer's weights from the I/O chiplets; an I/O chiplet among the
      layer's own chiplets is an error. */
  method LayerTraffic(count: nat, mapping: seq<Share>, sites: seq<Site>, perPacket: nat) returns (r: Result)
    requires perPacket > 0
    ensures count == 0 || mapping == [] || (forall s | s in sites :: !s.isIo) ==> r == Ok(map[])
    ensures count != 0 && mapping != [] && (exists s | s in sites :: s.isIo) ==>
              if exists k :: 0 <= k < |mapping| && KnownChiplet(sites, mapping[k].chiplet) && sites[mapping[k].chiplet - 1].isIo
              then r == Rejected else r == Ok(TrafficTo(count, mapping, sites, perPacket, |mapping|))
  {
    if count == 0 || mapping == [] || (forall s | s in sites :: !s.isIo) { return Ok(map[]); }
    var traffic: Traffic := map[];
    for k := 0 to |mapping|
      invariant traffic == TrafficTo(count, mapping, sites, perPacket, k)
      invariant forall j | 0 <= j < k && KnownChiplet(sites, mapping[j].chiplet) :: !sites[mapping[j].chiplet - 1].isIo
    {
      var s := mapping[k];
      if !KnownChiplet(sites, s.chiplet) { continue; }
      var site := sites[s.chiplet - 1];
      if site.isIo { return Rejected; }
      var weights := WeightsFor(count, s.percent);
      if weights == 0 { continue; }
      var packets := PacketsOf(weights, site.bits, perPacket);
      if site.io.None? { continue; }
      var row: map<nat, int> := if site.io.value in traffic then traffic[site.io.value] else map[];
      traffic := traffic[site.io.value := row[s.chiplet := packets]];
    }
    return Ok(traffic);
  }

  // ---------------------------------------------------------------- how many packets

  ghost predicate DistinctChiplets(mapping: seq<Share>) {
    forall j, k | 0 <= j < k < |mapping| :: mapping[j].chiplet != mapping[k].chiplet
  }

  function PacketsAt(count: nat, sites: seq<Site>, perPacket: nat, s: Share): int
    requires perPacket > 0
  {
    if Loads(count, sites, s) then PacketsOf(WeightsFor(count, s.percent), sites[s.chiplet - 1].bits, perPacket) else 0
  }

  /** The source and destination of packets already recorded belong to an earlier share. */
  lemma {:induction false} RecordedEarlier(count: nat, mapping: seq<Share>, sites: seq<Site>, perPacket: nat, n: nat, src: nat, dst: nat)
    requires n <= |mapping| && perPacket > 0
    requires forall k | 0 <= k < n :: mapping[k].chiplet != dst || !Loads(count, sites, mapping[k]) || sites[dst - 1].io != Some(src)
    ensures Packets(TrafficTo(count, mapping, sites, perPacket, n), src, dst) == 0
    decreases n
  {
    hide PacketsOf, WeightsFor;
    if n > 0 { RecordedEarlier(count, mapping, sites, perPacket, n - 1, src, dst); }
  }

  /** Each share's packets are recorded for its chiplet, coming from the I/O chiplet that serves it,
      and no later share disturbs them. */
  lemma {:induction false} RecordedFor(count: nat, mapping: seq<Share>, sites: seq<Site>, perPacket: nat, n: nat, k: nat)
    requires k < n <= |mapping| && perPacket > 0 && DistinctChiplets(mapping) && Loads(count, sites, mapping[k])
    ensures Packets(TrafficTo(count, mapping, sites, perPacket, n), sites[mapping[k].chiplet - 1].io.value, mapping[k].chiplet)
         == PacketsAt(count, sites, perPacket, mapping[k])
    decreases n
  {
    hide PacketsOf, WeightsFor;
    if k < n - 1 {
      RecordedFor(count, mapping, sites, perPacket, n - 1, k);
      assert mapping[k].chiplet != mapping[n - 1].chiplet;
    }
  }

  /** The weights of a share, unrounded. */
  function Part(count: nat, percent: real): real {
    count as real * percent / 100.0
  }

  /** `n` packets go to a chiplet with the given part of the weights: those its whole weights fill, and
      none if it gets no whole weight. */
  ghost predicate FillsPart(n: int, part: real, bits: nat, perPacket: nat) {
    if part >= 1.0 then exists w: nat :: w as real <= part < w as real + 1.0 && FillsPackets(n, w, bits, perPacket) else n == 0
  }

  /** Every known chiplet of a layer with an I/O chiplet to serve it gets just the packets its part of
      the weights fills. */
  lemma EntryExact(count: nat, mapping: seq<Share>, sites: seq<Site>, perPacket: nat, k: nat)
    requires k < |mapping| && perPacket > 0 && DistinctChiplets(mapping) && mapping[k].percent >= 0.0
    requires KnownChiplet(sites, mapping[k].chiplet) && sites[mapping[k].chiplet - 1].io.Some?
    ensures var site := sites[mapping[k].chiplet - 1];
            FillsPart(Packets(TrafficTo(count, mapping, sites, perPacket, |mapping|), site.io.value, mapping[k].chiplet),
                      Part(count, mapping[k].percent), site.bits, perPacket)
  {
    hide WeightsFor, PacketsOf, FillsPackets, Part, TrafficTo;
    var s := mapping[k];
    var site := sites[s.chiplet - 1];
    WeightsExact(count, s.percent);
    var w := WeightsFor(count, s.percent);
    if Loads(count, sites, s) {
      RecordedFor(count, mapping, sites, perPacket, |mapping|, k);
      PacketsExact(w, site.bits, perPacket, PacketsOf(w, site.bits, perPacket));
    } else {
      NothingRecorded(count, mapping, sites, perPacket, k);
    }
  }

  lemma NothingRecorded(count: nat, mapping: seq<Share>, sites: seq<Site>, perPacket: nat, k: nat)
    requires k < |mapping| && perPacket > 0 && DistinctChiplets(mapping) && !Loads(count, sites, mapping[k])
    ensures forall src: nat :: Packets(TrafficTo(count, mapping, sites, perPacket, |mapping|), src, mapping[k].chiplet) == 0
  {
    hide TrafficTo, Loads;
    forall src: nat ensures Packets(TrafficTo(count, mapping, sites, perPacket, |mapping|), src, mapping[k].chiplet) == 0 {
      var t := TrafficTo(count, mapping, sites, perPacket, |mapping|);
      if src in t && mapping[k].chiplet in t[src] {
        RecordedEarlier(count, mapping, sites, perPacket, |mapping|, src, mapping[k].chiplet);
      }
    }
  }

  ghost function TotalPackets(count: nat, mapping: seq<Share>, sites: seq<Site>, perPacket: nat, n: nat): int
    requires n <= |mapping| && perPacket > 0
  {
    if n == 0 then 0 else TotalPackets(count, mapping, sites, perPacket, n - 1) + PacketsAt(count, sites, perPacket, mapping[n - 1])
  }

  ghost function LoadingShares(count: nat, mapping: seq<Share>, sites: seq<Site>, n: nat): nat
    requires n <= |mapping|
  {
    if n == 0 then 0 else LoadingShares(count, mapping, sites, n - 1) + if Loads(count, sites, mapping[n - 1]) then 1 else 0
  }

  ghost function PercentSum(mapping: seq<Share>, n: nat): real
    requires n <= |mapping|
  {
    if n == 0 then 0.0 else PercentSum(mapping, n - 1) + mapping[n - 1].percent
  }

  ghost function Rate(bits: nat, perPacket: nat): real
    requires perPacket > 0
  {
    bits as real / perPacket as real
  }

  lemma PacketsBound(weights: nat, bits: nat, perPacket: nat)
    requires perPacket > 0
    ensures PacketsOf(weights, bits, perPacket) as real <= Times(weights as real, Rate(bits, perPacket)) + 1.0
  {
    var all := weights * bits;
    var q := all / perPacket;
    assert q * perPacket <= all;
    assert all >= 0;
    assert Times(weights as real, Rate(bits, perPacket)) == all as real / perPacket as real by {
      assert weights as real * bits as real == all as real;
      Associate(weights as real, bits as real, perPacket as real);
    }
    Divided(q, all, perPacket);
  }

  lemma Associate(a: real, b: real, c: real)
    requires c != 0.0
    ensures a * (b / c) == (a * b) / c
  {
  }

  lemma Divided(q: int, all: nat, p: nat)
    requires p > 0 && q * p <= all
    ensures q as real <= all as real / p as real
    ensures 0.0 <= all as real / p as real
  {
    assert q as real * p as real <= all as real;
  }

  lemma WeightsBound(count: nat, percent: real)
    requires percent >= 0.0
    ensures 0 <= WeightsFor(count, percent) && WeightsFor(count, percent) as real <= Times(count as real, percent / 100.0)
  {
    assert count as real * (percent / 100.0) >= 0.0;
  }

  lemma RateOrder(a: real, b: real, rate: real)
    requires a <= b && rate >= 0.0
    ensures Times(a, rate) <= Times(b, rate)
  {
  }

  lemma OneShare(count: nat, sites: seq<Site>, perPacket: nat, bits: nat, s: Share)
    requires perPacket > 0 && s.percent >= 0.0 && (KnownChiplet(sites, s.chiplet) ==> sites[s.chiplet - 1].bits == bits)
    ensures PacketsAt(count, sites, perPacket, s) as real
         <= Times(Times(count as real, s.percent / 100.0), Rate(bits, perPacket)) + if Loads(count, sites, s) then 1.0 else 0.0
  {
    WeightsBound(count, s.percent);
    var w := WeightsFor(count, s.percent);
    var share := Times(count as real, s.percent / 100.0);
    PacketsBound(w, bits, perPacket);
    assert Rate(bits, perPacket) >= 0.0 by { Divided(0, bits, perPacket); }
    hide Times, Rate, WeightsFor, PacketsOf;
    RateOrder(w as real, share, Rate(bits, perPacket));
    RateOrder(0.0, share, Rate(bits, perPacket));
    TimesAdds(Rate(bits, perPacket), 0.0, 0.0);
  }

  lemma {:induction false} PacketsUpTo(count: nat, mapping: seq<Share>, sites: seq<Site>, perPacket: nat, bits: nat, n: nat)
    requires n <= |mapping| && perPacket > 0
    requires forall k | 0 <= k < |mapping| :: mapping[k].percent >= 0.0
    requires forall k | 0 <= k < |mapping| && KnownChiplet(sites, mapping[k].chiplet) :: sites[mapping[k].chiplet - 1].bits == bits
    ensures TotalPackets(count, mapping, sites, perPacket, n) as real
         <= Times(Times(count as real, PercentSum(mapping, n) / 100.0), Rate(bits, perPacket)) + LoadingShares(count, mapping, sites, n) as real
    decreases n
  {
    hide Times, Rate, PacketsAt, Loads;
    var rate, c := Rate(bits, perPacket), count as real;
    if n == 0 {
      TimesAdds(c, 0.0, 0.0);
      TimesAdds(rate, 0.0, 0.0);
    } else {
      PacketsUpTo(count, mapping, sites, perPacket, bits, n - 1);
      OneShare(count, sites, perPacket, bits, mapping[n - 1]);
      var p, q := PercentSum(mapping, n - 1) / 100.0, mapping[n - 1].percent / 100.0;
      assert PercentSum(mapping, n) / 100.0 == p + q;
      TimesAdds(c, p, q);
      TimesAdds(rate, Times(c, p), Times(c, q));
    }
  }

  lemma SharesPacketsBounded(count: nat, mapping: seq<Share>, sites: seq<Site>, perPacket: nat, bits: nat)
    requires perPacket > 0 && PercentSum(mapping, |mapping|) <= 100.0
    requires forall k | 0 <= k < |mapping| :: mapping[k].percent >= 0.0
    requires forall k | 0 <= k < |mapping| && KnownChiplet(sites, mapping[k].chiplet) :: sites[mapping[k].chiplet - 1].bits == bits
    ensures TotalPackets(count, mapping, sites, perPacket, |mapping|) as real
         <= count as real * (bits as real / perPacket as real) + LoadingShares(count, mapping, sites, |mapping|) as real
  {
    var n := |mapping|;
    PacketsUpTo(count, mapping, sites, perPacket, bits, n);
    var c, rate, part := count as real, Rate(bits, perPacket), PercentSum(mapping, n) / 100.0;
    assert rate >= 0.0 by { Divided(0, bits, perPacket); }
    assert Times(c, rate) == count as real * (bits as real / perPacket as real);
    assert Times(c, 1.0) == c;
    hide Times, Rate, TotalPackets, LoadingShares, PercentSum;
    TimesAdds(c, part, 1.0);
    TimesAdds(c, 1.0, 0.0);
    RateOrder(part, 1.0, c);
    RateOrder(Times(c, part), c, rate);
  }

  // ---------------------------------------------------------------- packets in the traffic itself

  /** All packets a source sends. */
  ghost function RowTotal(row: map<nat, int>): int
    decreases |row|
  {
    if row == map[] then 0 else var d :| d in row; row[d] + RowTotal(row - {d})
  }

  lemma {:induction false} RowTotalWithout(row: map<nat, int>, d: nat)
    requires d in row
    ensures RowTotal(row) == row[d] + RowTotal(row - {d})
    decreases |row|
  {
    var e :| e in row && RowTotal(row) == row[e] + RowTotal(row - {e});
    if e != d {
      RowTotalWithout(row - {e}, d);
      RowTotalWithout(row - {d}, e);
      assert row - {e} - {d} == row - {d} - {e};
    }
  }

  lemma RowTotalAdds(row: map<nat, int>, d: nat, v: int)
    requires d !in row
    ensures RowTotal(row[d := v]) == RowTotal(row) + v
  {
    RowTotalWithout(row[d := v], d);
    assert row[d := v] - {d} == row;
  }

  /** All packets of a traffic matrix. */
  ghost function TrafficTotal(tr: Traffic): int
    decreases |tr|
  {
    if tr == map[] then 0 else var src :| src in tr; RowTotal(tr[src]) + TrafficTotal(tr - {src})
  }

  lemma {:induction false} TrafficTotalWithout(tr: Traffic, src: nat)
    requires src in tr
    ensures TrafficTotal(tr) == RowTotal(tr[src]) + TrafficTotal(tr - {src})
    decreases |tr|
  {
    hide RowTotal;
    var e :| e in tr && TrafficTotal(tr) == RowTotal(tr[e]) + TrafficTotal(tr - {e});
    if e != src {
      TrafficTotalWithout(tr - {e}, src);
      TrafficTotalWithout(tr - {src}, e);
      assert tr - {e} - {src} == tr - {src} - {e};
    }
  }

  /** One more entry adds its packets, if its destination is new to its source. */
  lemma TrafficTotalAdds(tr: Traffic, src: nat, d: nat, v: int)
    requires src in tr ==> d !in tr[src]
    ensures var row: map<nat, int> := if src in tr then tr[src] else map[];
            TrafficTotal(tr[src := row[d := v]]) == TrafficTotal(tr) + v
  {
    var row: map<nat, int> := if src in tr then tr[src] else map[];
    var after := tr[src := row[d := v]];
    TrafficTotalWithout(after, src);
    RowTotalAdds(row, d, v);
    assert RowTotal(map[]) == 0;
    if src in tr {
      TrafficTotalWithout(tr, src);
      assert after - {src} == tr - {src};
    } else {
      assert after - {src} == tr;
    }
  }

  lemma {:induction false} OnlySharesReceive(count: nat, mapping: seq<Share>, sites: seq<Site>, perPacket: nat, n: nat, src: nat, d: nat)
    requires n <= |mapping| && perPacket > 0
    requires src in TrafficTo(count, mapping, sites, perPacket, n) && d in TrafficTo(count, mapping, sites, perPacket, n)[src]
    ensures exists k :: 0 <= k < n && mapping[k].chiplet == d
    decreases n
  {
    hide PacketsOf, WeightsFor;
    var before := TrafficTo(count, mapping, sites, perPacket, n - 1);
    if src in before && d in before[src] { OnlySharesReceive(count, mapping, sites, perPacket, n - 1, src, d); }
  }

  /** On distinct chiplets no entry is overwritten: the packets of the traffic are those of the shares. */
  lemma {:induction false} TrafficAddsUp(count: nat, mapping: seq<Share>, sites: seq<Site>, perPacket: nat, n: nat)
    requires n <= |mapping| && perPacket > 0 && DistinctChiplets(mapping)
    ensures TrafficTotal(TrafficTo(count, mapping, sites, perPacket, n)) == TotalPackets(count, mapping, sites, perPacket, n)
    decreases n
  {
    hide PacketsOf, WeightsFor, RowTotal;
    if n > 0 {
      TrafficAddsUp(count, mapping, sites, perPacket, n - 1);
      var before, s := TrafficTo(count, mapping, sites, perPacket, n - 1), mapping[n - 1];
      if Loads(count, sites, s) {
        var src := sites[s.chiplet - 1].io.value;
        if src in before && s.chiplet in before[src] {
          OnlySharesReceive(count, mapping, sites, perPacket, n - 1, src, s.chiplet);
          assert false;
        }
        TrafficTotalAdds(before, src, s.chiplet, PacketsAt(count, sites, perPacket, s));
      }
    }
  }

  /** The packets of the traffic computed for a layer exceed what its weights fill by at most one per
      chiplet loaded. */
  lemma LayerPacketsBounded(count: nat, mapping: seq<Share>, sites: seq<Site>, perPacket: nat, bits: nat)
    requires perPacket > 0 && DistinctChiplets(mapping) && PercentSum(mapping, |mapping|) <= 100.0
    requires forall k | 0 <= k < |mapping| :: mapping[k].percent >= 0.0
    requires forall k | 0 <= k < |mapping| && KnownChiplet(sites, mapping[k].chiplet) :: sites[mapping[k].chiplet - 1].bits == bits
    ensures TrafficTotal(TrafficTo(count, mapping, sites, perPacket, |mapping|)) as real
         <= count as real * (bits as real / perPacket as real) + LoadingShares(count, mapping, sites, |mapping|) as real
  {
    TrafficAddsUp(count, mapping, sites, perPacket, |mapping|);
    SharesPacketsBounded(count, mapping, sites, perPacket, bits);
  }
}
