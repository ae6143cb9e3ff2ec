/**
 * The ship reactor system: its design values, the two tweakable/defectible fields and the
 * derived getters `energyPerSecond` and `broken`.
 */
module Reactors {
  import opened Wrappers

  datatype ReactorDesign = ReactorDesign(
    energyPerSecond: real,
    maxEnergy: real,
    energyHeatEPMThreshold: real,
    energyHeat: real,
    damage50: real)

  /** Every design field of a freshly created design state is 0. */
  const DEFAULT_DESIGN: ReactorDesign := ReactorDesign(0.0, 0.0, 0.0, 0.0, 0.0)

  const REACTOR_TYPE: string := "Reactor"
  const DEFAULT_ENERGY: real := 1000.0
  /** The `normal` value of the defectible efficiency factor. */
  const NORMAL_EFFICIENCY: real := 1.0

  datatype Reactor = Reactor(design: ReactorDesign, energy: real, effeciencyFactor: real)

  /** A reactor as constructed: the given design, energy 1000 and full efficiency. */
  function NewReactor(design: ReactorDesign): (r: Reactor)
    ensures r.design == design
    ensures r.energy == DEFAULT_ENERGY && r.effeciencyFactor == NORMAL_EFFICIENCY
  {
    Reactor(design, DEFAULT_ENERGY, NORMAL_EFFICIENCY)
  }

  /** The declared ranges: energy in [0, maxEnergy], efficiency factor in [0, 1]. */
  predicate InDeclaredRanges(r: Reactor) {
    && 0.0 <= r.energy <= r.design.maxEnergy
    && 0.0 <= r.effeciencyFactor <= 1.0
  }

  /** The `energyPerSecond` getter. */
  function EnergyPerSecond(r: Reactor): real {
    r.effeciencyFactor * r.design.energyPerSecond
  }

  /** The `broken` getter. */
  predicate Broken(r: Reactor) {
    r.effeciencyFactor == 0.0
  }

  /** A value of unknown type, as `isInstance` receives it: null/undefined, or an object with an optional `type` field. */
  datatype Unknown = Nullish | Obj(typeField: Option<string>)

  /** `Reactor.isInstance`: the value is an object whose `type` is 'Reactor'. */
  predicate IsInstance(o: Unknown) {
    o.Obj? && o.typeField == Some(REACTOR_TYPE)
  }

  /**
   * Only objects typed 'Reactor' pass `isInstance`: null or undefined, an object without a
   * `type` and an object of any other type all fail.
   */
  lemma IsInstanceRejectsOthers(o: Unknown)
    ensures o.Nullish? ==> !IsInstance(o)
    ensures o.Obj? && o.typeField.None? ==> !IsInstance(o)
    ensures o.Obj? && o.typeField.Some? && o.typeField.value != REACTOR_TYPE ==> !IsInstance(o)
    ensures o == Obj(Some(REACTOR_TYPE)) ==> IsInstance(o)
  {
  }

  /** A fresh reactor produces exactly its design rate. */
  lemma FreshReactorRate(design: ReactorDesign)
    ensures EnergyPerSecond(NewReactor(design)) == design.energyPerSecond
    ensures !Broken(NewReactor(design))
  {
  }

  /** A fresh reactor is within its declared energy range only if the design allows 1000 energy. */
  lemma FreshReactorInRange(design: ReactorDesign)
    ensures InDeclaredRanges(NewReactor(design)) <==> design.maxEnergy >= DEFAULT_ENERGY
  {
  }

  /** A broken reactor produces nothing, and with a non-zero design rate only a broken one does. */
  lemma BrokenIffNoEnergy(r: Reactor)
    ensures Broken(r) ==> EnergyPerSecond(r) == 0.0
    ensures r.design.energyPerSecond != 0.0 ==> (Broken(r) <==> EnergyPerSecond(r) == 0.0)
  {
  }

  /** Within the declared ranges the output lies between 0 and a non-negative design rate. */
  lemma {:induction false} RateWithinDesign(r: Reactor)
    requires InDeclaredRanges(r)
    requires r.design.energyPerSecond >= 0.0
    ensures 0.0 <= EnergyPerSecond(r) <= r.design.energyPerSecond
  {
    var f, d := r.effeciencyFactor, r.design.energyPerSecond;
    assert f * d <= 1.0 * d by {
      assert (1.0 - f) * d >= 0.0;
    }
    assert 0.0 <= f * d;
    assert EnergyPerSecond(r) == f * d;
  }
}
