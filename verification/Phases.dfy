/** Phase kinds, per-input phase instances and packet traffic (comm_types.py). */
module Phases {
  import opened Numbers

  /** Packets per source and destination chiplet.  A phase whose traffic was never computed
      carries the empty map: the simulator treats the two alike. */
  type Traffic = map<nat, map<nat, int>>

  /** A phase's identifier is its position in the model's phase list. */
  datatype Phase =
    | Compute(deps: seq<nat>, layer: nat)
    | ActivationComm(deps: seq<nat>, layer: nat, traffic: Traffic)
    | WeightLoading(deps: seq<nat>, layers: seq<nat>, traffic: Traffic)
  {
    predicate IsComm() { !Compute? }
  }

  datatype PhaseState = NotStarted | Running | Complete {
    function Rank(): nat {
      match this
      case NotStarted => 0
      case Running => 1
      case Complete => 2
    }
  }

  /** The simulation advances by one microsecond at a time; durations below are counted in these steps. */
  const TIME_STEP: real := 1.0

  /** Times that are not known yet hold the marker `UNSET`. */
  const UNSET: real := -1.0

  datatype Instance = Instance(
    state: PhaseState,
    start: real,
    completion: real,
    latency: real,
    scaled: Traffic,
    percent: real,
    active: bool)

  const FreshInstance: Instance := Instance(NotStarted, UNSET, UNSET, 0.0, map[], 0.0, false)

  /** The traffic a transfer has when nothing of it is done. */
  function TrafficOf(phase: Phase): Traffic
    requires phase.IsComm()
  {
    match phase
    case ActivationComm(_, _, traffic) => traffic
    case WeightLoading(_, _, traffic) => traffic
  }

  predicate HasTraffic(tr: Traffic) {
    exists src | src in tr :: exists dst | dst in tr[src] :: tr[src][dst] > 0
  }

  function Portion(amount: int, fraction: real): real {
    amount as real * fraction
  }

  /** Packets left of `amount` for the given remaining fraction: rounded, but never lost. */
  function ScaleAmount(amount: int, fraction: real): int {
    if fraction >= 1.0 then amount else MaxInt(1, Round(Portion(amount, fraction)))
  }

  /** Traffic left for the given remaining fraction; entries that carry nothing are dropped. */
  function ScaleTraffic(tr: Traffic, fraction: real): Traffic {
    if fraction >= 1.0 then tr
    else map src | src in tr ::
           map dst | dst in tr[src] && tr[src][dst] > 0 :: ScaleAmount(tr[src][dst], fraction)
  }

  /** Packets from `src` to `dst`, zero when there is no entry. */
  function Packets(tr: Traffic, src: nat, dst: nat): int {
    if src in tr && dst in tr[src] then tr[src][dst] else 0
  }

  lemma PacketsScaled(tr: Traffic, fraction: real, src: nat, dst: nat)
    ensures Packets(tr, src, dst) > 0 ==>
              Packets(ScaleTraffic(tr, fraction), src, dst) == ScaleAmount(Packets(tr, src, dst), fraction)
    ensures Packets(tr, src, dst) <= 0 ==> Packets(ScaleTraffic(tr, fraction), src, dst) <= 0
  {
    if fraction < 1.0 && src in tr {
      assert ScaleTraffic(tr, fraction)[src]
          == map d | d in tr[src] && tr[src][d] > 0 :: ScaleAmount(tr[src][d], fraction);
    }
  }

  /** There is traffic exactly when some chiplet sends another at least one packet. */
  lemma TrafficIsPackets(tr: Traffic)
    ensures HasTraffic(tr) <==> exists src: nat, dst: nat :: Packets(tr, src, dst) > 0
  {
    if HasTraffic(tr) {
      var src :| src in tr && exists dst | dst in tr[src] :: tr[src][dst] > 0;
      var dst :| dst in tr[src] && tr[src][dst] > 0;
      assert Packets(tr, src, dst) > 0;
    }
  }

  /** What exactly is left of an amount when so much of it is. */
  function Rest(amount: int, fraction: real): real {
    amount as real * fraction
  }

  lemma AmountExactly(amount: int, fraction: real)
    requires amount > 0 && fraction <= 1.0
    ensures NearestPositive(ScaleAmount(amount, fraction), Rest(amount, fraction))
  {
    hide NearestPositive, Round;
    assert Portion(amount, fraction) == Rest(amount, fraction);
    RoundPositive(Portion(amount, fraction));
    if fraction >= 1.0 {
      assert Rest(amount, fraction) == amount as real;
      RoundOfInteger(amount);
    }
  }

  /** When `fraction` of a transfer is left, each entry that carries packets carries that part of
      them, rounded to the nearest integer and never to nothing. */
  lemma ScaledExactly(tr: Traffic, fraction: real, src: nat, dst: nat)
    requires fraction <= 1.0
    ensures Packets(tr, src, dst) > 0 ==>
              NearestPositive(Packets(ScaleTraffic(tr, fraction), src, dst), Rest(Packets(tr, src, dst), fraction))
    ensures Packets(tr, src, dst) <= 0 ==> Packets(ScaleTraffic(tr, fraction), src, dst) <= 0
  {
    hide Packets, ScaleTraffic, ScaleAmount, NearestPositive, Rest;
    PacketsScaled(tr, fraction, src, dst);
    if Packets(tr, src, dst) > 0 { AmountExactly(Packets(tr, src, dst), fraction); }
  }

  lemma PortionOrder(amount: int, x: real, y: real)
    requires 0 <= amount && x <= y
    ensures Portion(amount, x) <= Portion(amount, y)
  {
  }

  lemma ScaleAmountBounds(amount: int, fraction: real, later: real)
    requires 0 < amount && later <= fraction
    ensures 1 <= ScaleAmount(amount, later) <= ScaleAmount(amount, fraction) <= amount
  {
    RoundOfInteger(amount);
    if later < 1.0 {
      PortionOrder(amount, later, 1.0);
      RoundMonotone(Portion(amount, later), Portion(amount, 1.0));
    }
    if fraction < 1.0 {
      PortionOrder(amount, later, fraction);
      RoundMonotone(Portion(amount, later), Portion(amount, fraction));
      PortionOrder(amount, fraction, 1.0);
      RoundMonotone(Portion(amount, fraction), Portion(amount, 1.0));
    }
  }

  /** Scaling keeps every positive entry between one packet and its original amount, and a
      smaller remaining fraction never carries more packets. */
  lemma ScaledTrafficBounds(tr: Traffic, fraction: real, later: real, src: nat, dst: nat)
    requires later <= fraction
    ensures Packets(tr, src, dst) > 0 ==>
              1 <= Packets(ScaleTraffic(tr, later), src, dst)
                <= Packets(ScaleTraffic(tr, fraction), src, dst)
                <= Packets(tr, src, dst)
    ensures Packets(tr, src, dst) <= 0 ==> Packets(ScaleTraffic(tr, fraction), src, dst) <= 0
  {
    PacketsScaled(tr, fraction, src, dst);
    PacketsScaled(tr, later, src, dst);
    if Packets(tr, src, dst) > 0 {
      ScaleAmountBounds(Packets(tr, src, dst), fraction, later);
    }
  }

  /** So scaled traffic is empty exactly when the original is. */
  lemma ScaledTrafficNonzero(tr: Traffic, fraction: real)
    ensures HasTraffic(ScaleTraffic(tr, fraction)) <==> HasTraffic(tr)
  {
    var sc := ScaleTraffic(tr, fraction);
    if HasTraffic(tr) {
      var src :| src in tr && exists dst | dst in tr[src] :: tr[src][dst] > 0;
      var dst :| dst in tr[src] && tr[src][dst] > 0;
      ScaledTrafficBounds(tr, fraction, fraction, src, dst);
      assert Packets(sc, src, dst) == sc[src][dst];
    }
    if HasTraffic(sc) {
      var src :| src in sc && exists dst | dst in sc[src] :: sc[src][dst] > 0;
      var dst :| dst in sc[src] && sc[src][dst] > 0;
      ScaledTrafficBounds(tr, fraction, fraction, src, dst);
      assert Packets(sc, src, dst) == sc[src][dst];
      assert tr[src][dst] > 0;
    }
  }
}
