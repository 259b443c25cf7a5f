/** Chiplets and the capacity they have to offer (chiplet.py, system.py). */
module Capacity {
  import opened Mapper

  function Clamp(units: int, total: nat): int {
    if units < 0 then 0 else if units > total then total else units
  }

  /** The value in range that lies nearest. */
  lemma ClampIsNearest(units: int, total: nat, v: int)
    requires 0 <= v <= total
    ensures 0 <= Clamp(units, total) <= total
    ensures if v <= units then v <= Clamp(units, total) <= units else units <= Clamp(units, total) <= v
  {
  }

  /** A capacity unit is a crossbar on an in-memory chiplet and a single weight on a CMOS one. */
  class Chiplet {
    const spec: ChipSpec
    const total: nat
    var available: int

    constructor (spec: ChipSpec, total: nat)
      ensures this.spec == spec && this.total == total && available == total
    {
      this.spec := spec;
      this.total := total;
      available := total;
    }

    /** The crossbar setter refuses values out of range. */
    method SetAvailableCrossbars(crossbars: int) returns (ok: bool)
      modifies this
      ensures ok <==> 0 <= crossbars <= total
      ensures available == if ok then crossbars else old(available)
    {
      if crossbars < 0 { return false; }
      if crossbars > total { return false; }
      available := crossbars;
      return true;
    }

    /** The capacity setter clamps first, so it never fails. */
    method SetAvailableCapacityUnits(units: int) returns (ok: bool)
      modifies this
      ensures ok && available == Clamp(units, total)
    {
      var clamped := units;
      if clamped < 0 { clamped := 0; }
      if clamped > total { clamped := total; }
      if spec.kind == Cmos {
        available := clamped;
        return true;
      }
      ok := SetAvailableCrossbars(clamped);
    }
  }

  class System {
    const chiplets: seq<Chiplet>

    constructor (chiplets: seq<Chiplet>)
      ensures this.chiplets == chiplets
    {
      this.chiplets := chiplets;
    }

    ghost predicate Distinct() {
      forall i, j | 0 <= i < j < |chiplets| :: chiplets[i] != chiplets[j]
    }

    ghost function Available(): seq<int>
      reads chiplets
    {
      seq(|chiplets|, i requires 0 <= i < |chiplets| reads chiplets => chiplets[i].available)
    }

    method GetAvailableCapacity() returns (capacity: seq<int>)
      ensures capacity == Available()
    {
      capacity := [];
      for i := 0 to |chiplets|
        invariant |capacity| == i && forall k | 0 <= k < i :: capacity[k] == chiplets[k].available
      {
        capacity := capacity + [chiplets[i].available];
      }
    }

    /** Sets every chiplet's available units, each clamped to its range. */
    method UpdateCapacityAvailability(units: seq<int>) returns (ok: bool)
      requires Distinct() && |units| == |chiplets|
      modifies chiplets
      ensures ok && Available() == seq(|chiplets|, i requires 0 <= i < |chiplets| => Clamp(units[i], chiplets[i].total))
      ensures (forall i | 0 <= i < |chiplets| :: 0 <= units[i] <= chiplets[i].total) ==> Available() == units
    {
      for i := 0 to |chiplets|
        invariant forall k | 0 <= k < i :: chiplets[k].available == Clamp(units[k], chiplets[k].total)
      {
        var stored := chiplets[i].SetAvailableCapacityUnits(units[i]);
        if !stored { return false; }
      }
      return true;
    }
  }
}
