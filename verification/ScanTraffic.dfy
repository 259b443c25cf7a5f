/** What the transfers a scan reports still carry (mapped_model.py): the part of their traffic that
    corresponds to the time left, entry by entry. */
module ScanTraffic {
  import opened Numbers
  import opened Phases
  import opened PhaseSchedule
  import opened ScheduleInvariant
  import opened ScheduleLiveness

  /** With a part `fraction` of the time left, `n` packets are left of `amount`. */
  predicate Remains(n: int, amount: int, fraction: real) {
    if amount > 0 then NearestPositive(n, Rest(amount, fraction)) else n <= 0
  }

  /** A transfer under way at `now`: without a latency it carries all its traffic, otherwise what
      the time left of its latency calls for. */
  ghost predicate CarriesRest(phase: Phase, x: Instance, now: real)
    requires phase.IsComm()
  {
    && x.state == Running
    && (x.latency <= 0.0 ==> x.scaled == TrafficOf(phase))
    && (x.latency > 0.0 ==>
          && 0.0 <= now - x.start < x.latency && x.percent == (now - x.start) / x.latency
          && forall src: nat, dst: nat ::
               Remains(Packets(x.scaled, src, dst), Packets(TrafficOf(phase), src, dst), 1.0 - (now - x.start) / x.latency))
  }

  lemma PartBelowOne(elapsed: real, latency: real)
    requires 0.0 <= elapsed < latency
    ensures 0.0 <= elapsed / latency < 1.0
  {
  }

  lemma ScaledRemains(tr: Traffic, fraction: real)
    requires fraction <= 1.0
    ensures forall src: nat, dst: nat :: Remains(Packets(ScaleTraffic(tr, fraction), src, dst), Packets(tr, src, dst), fraction)
  {
    hide ScaleTraffic, NearestPositive, Packets;
    forall src: nat, dst: nat ensures Remains(Packets(ScaleTraffic(tr, fraction), src, dst), Packets(tr, src, dst), fraction) {
      ScaledExactly(tr, fraction, src, dst);
    }
  }

  lemma VisitedTransfer(x: Instance, phase: Phase, begin: real, now: real)
    requires phase.IsComm() && (x.state == Running ==> x.start <= now)
    requires VisitComm(x, TrafficOf(phase), begin, now).reported
    ensures CarriesRest(phase, VisitComm(x, TrafficOf(phase), begin, now).inst, now)
  {
    hide ScaleTraffic, HasTraffic, Remains, Packets;
    if x.state == Running && x.latency > 0.0 {
      PartBelowOne(now - x.start, x.latency);
      ScaledRemains(TrafficOf(phase), 1.0 - (now - x.start) / x.latency);
    }
  }

  lemma VisitedCarriesRest(c: Config, s: Sched, i: nat, p: nat, now: real)
    requires Invariant(c, s, now) && i < |s.start| && p < |c.phases| && Has(s, i, p) && c.phases[p].IsComm()
    requires VisitPhase(c, s, i, p, now).reported
    ensures CarriesRest(c.phases[p], VisitPhase(c, s, i, p, now).inst, now)
  {
    assert InstanceOk(c, s, i, p, now);
    VisitedTransfer(At(s, i, p), c.phases[p], StartTime(c, s, i, p), now);
    hide VisitComm, StartTime, CarriesRest;
  }

  lemma ReportedIsVisited(c: Config, s: Sched, i: nat, now: real, r: (nat, nat))
    requires Shaped(c, s) && i < c.numInputs && OrderInRange(c) && r in ReportInput(c, s, i, now)
    ensures r.1 < |c.phases| && Has(s, i, r.1) && VisitPhase(c, s, i, r.1, now).reported
  {
    hide FindCurrent, VisitPhase;
  }

  /** Every transfer a scan reports carries just what the time left calls for. */
  lemma {:induction false} ReportedCarriesRest(c: Config, s: Sched, n: nat, now: real, r: (nat, nat))
    requires WellFormed(c) && Invariant(c, s, now) && n <= c.numInputs && Shaped(c, s) && OrderInRange(c)
    requires r in Reports(c, s, n, now) && r.1 < |c.phases| && c.phases[r.1].IsComm()
    ensures var s' := ScanInputs(c, s, n, now); Has(s', r.0, r.1) && CarriesRest(c.phases[r.1], At(s', r.0, r.1), now)
    decreases n
  {
    hide WellFormed, Invariant, ScanInput, ReportInput, VisitPhase, CarriesRest, Grows, Shaped, OrderInRange;
    var m := ScanInputs(c, s, n - 1, now);
    ScanKeepsInvariant(c, s, n - 1, now);
    ReportsRunning(c, s, n, now, r);
    if r in ReportInput(c, m, n - 1, now) {
      ReportInputRunning(c, m, n - 1, now, r);
      ReportedIsVisited(c, m, n - 1, now, r);
      StartSize(c, m);
      VisitedCarriesRest(c, m, n - 1, r.1, now);
    } else {
      ReportedCarriesRest(c, s, n - 1, now, r);
      ReportsRunning(c, s, n - 1, now, r);
      ScanInputsRow(c, s, n - 1, n, now, r.0);
    }
  }

  lemma StartSize(c: Config, s: Sched)
    requires Shaped(c, s)
    ensures |s.start| == c.numInputs
  {
  }

  /** All transfers among the phases reported. */
  ghost predicate AllCarryRest(c: Config, s: Sched, reported: seq<(nat, nat)>, now: real) {
    forall r | r in reported && r.1 < |c.phases| && c.phases[r.1].IsComm() ::
      Has(s, r.0, r.1) && CarriesRest(c.phases[r.1], At(s, r.0, r.1), now)
  }

  lemma ScanCarriesRest(c: Config, s: Sched, now: real)
    requires WellFormed(c) && Invariant(c, s, now) && Shaped(c, s) && OrderInRange(c)
    ensures AllCarryRest(c, ScanInputs(c, s, c.numInputs, now), Reports(c, s, c.numInputs, now), now)
  {
    hide WellFormed, Invariant, ScanInputs, Reports, CarriesRest, Shaped, OrderInRange;
    forall r | r in Reports(c, s, c.numInputs, now) && r.1 < |c.phases| && c.phases[r.1].IsComm()
      ensures var s' := ScanInputs(c, s, c.numInputs, now); Has(s', r.0, r.1) && CarriesRest(c.phases[r.1], At(s', r.0, r.1), now)
    {
      ReportedCarriesRest(c, s, c.numInputs, now, r);
    }
  }
}
