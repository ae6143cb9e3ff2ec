/**
 * Per-ship heat bookkeeping: heat added to a system is clamped at MAX_SYSTEM_HEAT with the
 * excess turned into damage, and each tick the ship's coolant is spread over its systems.
 */
module HeatManagement {
  import opened Wrappers

  const MAX_SYSTEM_HEAT: real := 100.0
  const OVERHEAT_DAMAGE_ID: string := "overheat"

  /** The heat-related part of a ship system, updated in place. */
  class ShipSystem {
    var heat: real
    var coolantFactor: real

    constructor (heat: real, coolantFactor: real)
      ensures this.heat == heat && this.coolantFactor == coolantFactor
    {
      this.heat := heat;
      this.coolantFactor := coolantFactor;
    }
  }

  /** One call `damageSystem(system, { id, amount }, factor)`. */
  datatype DamageCall = DamageCall(system: ShipSystem, id: string, amount: real, factor: real)

  /** Stands in for the damage manager: it records the calls it receives. */
  class DamageManager {
    var calls: seq<DamageCall>

    constructor ()
      ensures calls == []
    {
      calls := [];
    }

    method DamageSystem(system: ShipSystem, id: string, amount: real, factor: real)
      modifies this
      ensures calls == old(calls) + [DamageCall(system, id, amount, factor)]
    {
      calls := calls + [DamageCall(system, id, amount, factor)];
    }
  }

  /**
   * The heat after `addHeat` and the overheat damage it reports, if any. Nothing is lost:
   * the new heat plus the reported damage is the old heat plus the value.
   */
  function AddedHeat(heat: real, value: real): (r: (real, Option<real>))
    ensures r.0 <= MAX_SYSTEM_HEAT
    ensures heat + value <= MAX_SYSTEM_HEAT ==> r.0 == heat + value && r.1 == None
    ensures heat + value > MAX_SYSTEM_HEAT ==> r.0 == MAX_SYSTEM_HEAT && r.1.Some? && r.1.value > 0.0
    ensures r.0 + r.1.GetOr(0.0) == heat + value
  {
    var h := heat + value;
    if h > MAX_SYSTEM_HEAT then (MAX_SYSTEM_HEAT, Some((h - MAX_SYSTEM_HEAT) * 1.0)) else (h, None)
  }

  /** The heat after `reduceHeat`: untouched when not positive, else lowered but never below 0. */
  function ReducedHeat(heat: real, value: real): (h: real)
    ensures heat <= 0.0 ==> h == heat
    ensures heat > 0.0 ==> h >= 0.0
    ensures heat > 0.0 && heat - value >= 0.0 ==> h == heat - value
    ensures heat > 0.0 && heat - value < 0.0 ==> h == 0.0
  {
    if heat > 0.0 then (if heat - value < 0.0 then 0.0 else heat - value) else heat
  }

  /** With a non-negative reduction, cooling never raises the heat. */
  lemma ReducedHeatNeverRaises(heat: real, value: real)
    requires value >= 0.0
    ensures ReducedHeat(heat, value) <= heat
  {
  }

  function Sum(xs: seq<real>): real {
    if xs == [] then 0.0 else Sum(xs[..|xs| - 1]) + xs[|xs| - 1]
  }

  /** An even share of the coolant for each of `n` systems. */
  function EvenRequests(n: nat, totalCoolant: real, deltaSeconds: real): (r: seq<real>)
    ensures |r| == n
    ensures forall i :: 0 <= i < n ==> r[i] == totalCoolant / (n as real) * deltaSeconds
  {
    if n == 0 then [] else seq(n, i => totalCoolant / (n as real) * deltaSeconds)
  }

  /**
   * The amount each system is asked to shed in one tick of `update`: an even share of the
   * coolant when the coolant factors sum to 0, else a share proportional to its factor.
   */
  function CoolantRequests(factors: seq<real>, totalCoolant: real, deltaSeconds: real): (r: seq<real>)
    ensures |r| == |factors|
  {
    var totalFactors := Sum(factors);
    if totalFactors == 0.0 then
      EvenRequests(|factors|, totalCoolant, deltaSeconds)
    else
      seq(|factors|, i requires 0 <= i < |factors| => factors[i] * (totalCoolant / totalFactors) * deltaSeconds)
  }

  lemma {:induction false} SumScaled(xs: seq<real>, k: real, ys: seq<real>)
    requires |ys| == |xs|
    requires forall i :: 0 <= i < |xs| ==> ys[i] == xs[i] * k
    ensures Sum(ys) == Sum(xs) * k
  {
    if xs != [] {
      var n := |xs| - 1;
      SumScaled(xs[..n], k, ys[..n]);
    }
  }

  lemma {:induction false} SumConstant(ys: seq<real>, c: real)
    requires forall i :: 0 <= i < |ys| ==> ys[i] == c
    ensures Sum(ys) == (|ys| as real) * c
  {
    if ys != [] {
      SumConstant(ys[..|ys| - 1], c);
    }
  }

  /** Handing out `a / b * d` to each of `b` shares hands out `a * d` in all. */
  lemma ShareTimesCount(a: real, b: real, d: real)
    requires b != 0.0
    ensures b * (a / b * d) == a * d
    ensures (a / b * d) * b == a * d
  {
    var q := a / b;
    assert q * b == a;
    calc {
      b * (q * d);
      (q * b) * d;
      a * d;
    }
  }

  /** An even split hands out exactly the tick's coolant budget. */
  lemma EvenRequestsSplitBudget(n: nat, totalCoolant: real, deltaSeconds: real)
    requires n > 0
    ensures Sum(EvenRequests(n, totalCoolant, deltaSeconds)) == totalCoolant * deltaSeconds
  {
    var r := EvenRequests(n, totalCoolant, deltaSeconds);
    SumConstant(r, totalCoolant / (n as real) * deltaSeconds);
    ShareTimesCount(totalCoolant, n as real, deltaSeconds);
  }

  /** A proportional split hands out exactly the tick's coolant budget. */
  lemma ProportionalRequestsSplitBudget(factors: seq<real>, totalCoolant: real, deltaSeconds: real)
    requires Sum(factors) != 0.0
    ensures Sum(CoolantRequests(factors, totalCoolant, deltaSeconds)) == totalCoolant * deltaSeconds
  {
    var r := CoolantRequests(factors, totalCoolant, deltaSeconds);
    var total := Sum(factors);
    var perFactor := totalCoolant / total;
    var k := perFactor * deltaSeconds;
    forall i | 0 <= i < |factors|
      ensures r[i] == factors[i] * k
    {
      assert r[i] == factors[i] * perFactor * deltaSeconds;
    }
    SumScaled(factors, k, r);
    ShareTimesCount(totalCoolant, total, deltaSeconds);
  }

  /**
   * The requests always add up to the whole coolant budget of the tick, and a system whose
   * factor is 0 is not cooled when the factors do not sum to 0.
   */
  lemma CoolantRequestsSplitBudget(factors: seq<real>, totalCoolant: real, deltaSeconds: real)
    requires |factors| > 0
    ensures Sum(CoolantRequests(factors, totalCoolant, deltaSeconds)) == totalCoolant * deltaSeconds
    ensures Sum(factors) != 0.0 ==>
      forall i :: 0 <= i < |factors| && factors[i] == 0.0 ==> CoolantRequests(factors, totalCoolant, deltaSeconds)[i] == 0.0
  {
    if Sum(factors) == 0.0 {
      EvenRequestsSplitBudget(|factors|, totalCoolant, deltaSeconds);
    } else {
      ProportionalRequestsSplitBudget(factors, totalCoolant, deltaSeconds);
    }
  }

  /** The coolant factors of the systems, in order. */
  function Factors(systems: seq<ShipSystem>): (r: seq<real>)
    reads systems
    ensures |r| == |systems|
    ensures forall i :: 0 <= i < |systems| ==> r[i] == systems[i].coolantFactor
  {
    seq(|systems|, i reads systems requires 0 <= i < |systems| => systems[i].coolantFactor)
  }

  class HeatManager {
    /** The ship's systems (`state.systems()`), each listed once. */
    const systems: seq<ShipSystem>
    /** `state.design.totalCoolant`: each unit of coolant removes 1 heat per second. */
    const totalCoolant: real
    const damageManager: DamageManager

    ghost predicate Valid() {
      forall i, j :: 0 <= i < j < |systems| ==> systems[i] != systems[j]
    }

    constructor (systems: seq<ShipSystem>, totalCoolant: real, damageManager: DamageManager)
      requires forall i, j :: 0 <= i < j < |systems| ==> systems[i] != systems[j]
      ensures Valid()
      ensures this.systems == systems && this.totalCoolant == totalCoolant && this.damageManager == damageManager
    {
      this.systems := systems;
      this.totalCoolant := totalCoolant;
      this.damageManager := damageManager;
    }

    /** `addHeat`: clamps at MAX_SYSTEM_HEAT and reports the excess once as 'overheat' damage. */
    method AddHeat(value: real, system: ShipSystem)
      modifies system`heat, damageManager
      ensures system.heat == AddedHeat(old(system.heat), value).0
      ensures system.heat <= MAX_SYSTEM_HEAT
      ensures AddedHeat(old(system.heat), value).1.None? ==> damageManager.calls == old(damageManager.calls)
      ensures AddedHeat(old(system.heat), value).1.Some? ==>
        damageManager.calls == old(damageManager.calls)
          + [DamageCall(system, OVERHEAT_DAMAGE_ID, AddedHeat(old(system.heat), value).1.value, 1.0)]
    {
      system.heat := system.heat + value;
      if system.heat > MAX_SYSTEM_HEAT {
        var damageAmount := (system.heat - MAX_SYSTEM_HEAT) * 1.0;
        system.heat := MAX_SYSTEM_HEAT;
        damageManager.DamageSystem(system, OVERHEAT_DAMAGE_ID, damageAmount, 1.0);
      }
    }

    /** `reduceHeat`. */
    method ReduceHeat(value: real, system: ShipSystem)
      modifies system`heat
      ensures system.heat == ReducedHeat(old(system.heat), value)
    {
      var heat := system.heat;
      if heat > 0.0 {
        var newHeat := heat - value;
        if newHeat < 0.0 {
          system.heat := 0.0;
        } else {
          system.heat := heat - value;
        }
      }
    }

    /** `update`: every system sheds its share of this tick's coolant; factors are untouched. */
    method Update(deltaSeconds: real)
      requires Valid()
      modifies systems
      ensures forall i :: 0 <= i < |systems| ==>
        systems[i].heat
          == ReducedHeat(old(systems[i].heat), CoolantRequests(old(Factors(systems)), totalCoolant, deltaSeconds)[i])
      ensures Factors(systems) == old(Factors(systems))
    {
      ghost var factors := Factors(systems);
      ghost var requests := CoolantRequests(factors, totalCoolant, deltaSeconds);
      var totalCoolantFactors := Sum(Factors(systems));
      var i := 0;
      if totalCoolantFactors == 0.0 {
        // even distribution over all systems
        if |systems| > 0 {
          var coolantPerSystem := totalCoolant / (|systems| as real);
          while i < |systems|
            invariant 0 <= i <= |systems|
            invariant Factors(systems) == factors
            invariant forall j :: 0 <= j < i ==> systems[j].heat == ReducedHeat(old(systems[j].heat), requests[j])
            invariant forall j :: i <= j < |systems| ==> systems[j].heat == old(systems[j].heat)
          {
            var amount := coolantPerSystem * deltaSeconds;
            assert amount == requests[i];
            ReduceHeat(amount, systems[i]);
            i := i + 1;
          }
        }
      } else {
        var coolantPerFactor := totalCoolant / totalCoolantFactors;
        while i < |systems|
          invariant 0 <= i <= |systems|
          invariant Factors(systems) == factors
          invariant forall j :: 0 <= j < i ==> systems[j].heat == ReducedHeat(old(systems[j].heat), requests[j])
          invariant forall j :: i <= j < |systems| ==> systems[j].heat == old(systems[j].heat)
        {
          var amount := systems[i].coolantFactor * coolantPerFactor * deltaSeconds;
          assert amount == requests[i];
          ReduceHeat(amount, systems[i]);
          i := i + 1;
        }
      }
    }
  }
}
