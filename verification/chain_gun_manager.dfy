/**
 * The chain gun system of a ship: choosing the ammunition type, loading and unloading
 * rounds against the ship's magazine, the lifetime of the next shell and firing it into
 * space.
 */
module ChainGuns {
  import opened Wrappers
  import opened SpaceObjectBase
  import SpaceManagement

  /** The name of a projectile model, one of `projectileModels`; the string 'None' is `None`. */
  type ProjectileModel = string

  /** `SmartPilotMode` as a shell range mode; every mode other than DIRECT and TARGET is `OtherMode`. */
  datatype ShellRangeMode = Direct | Target | OtherMode(code: int)

  /** The design fields of a chain gun that the manager reads. */
  datatype ChainGunDesign = ChainGunDesign(
    /** The `use_<model>` flags; a model without a flag is not used. */
    use: map<ProjectileModel, bool>,
    bulletsPerSecond: real,
    energyCost: real,
    overrideSecondsToLive: real,
    minShellRange: real,
    maxShellRange: real)

  predicate Uses(design: ChainGunDesign, p: ProjectileModel) {
    p in design.use && design.use[p]
  }

  /** The models the design enables. */
  function UsedModels(design: ChainGunDesign): set<ProjectileModel> {
    set p | p in design.use && design.use[p]
  }

  /** The models the design enables and the magazine holds at least one round of. */
  function AvailableModels(design: ChainGunDesign, counts: map<ProjectileModel, int>): set<ProjectileModel> {
    set p | p in design.use && design.use[p] && p in counts && counts[p] > 0
  }

  predicate Distinct(xs: seq<ProjectileModel>) {
    forall i, j :: 0 <= i < |xs| && 0 <= j < |xs| && i != j ==> xs[i] != xs[j]
  }

  // -------------------------------------------------------------------------------
  // Iterating over the projectile models
  // -------------------------------------------------------------------------------

  /** `Iterator.filter`: the elements of `xs` that are in `keep`, in their order. */
  function Filter(xs: seq<ProjectileModel>, keep: set<ProjectileModel>): (r: seq<ProjectileModel>)
    ensures |r| <= |xs|
    ensures forall x :: x in r <==> x in xs && x in keep
  {
    if xs == [] then []
    else if xs[0] in keep then [xs[0]] + Filter(xs[1..], keep)
    else Filter(xs[1..], keep)
  }

  /** Filtering keeps the order: the last element is kept or dropped after all the others. */
  lemma {:induction false} FilterSnoc(xs: seq<ProjectileModel>, x: ProjectileModel, keep: set<ProjectileModel>)
    ensures Filter(xs + [x], keep) == Filter(xs, keep) + (if x in keep then [x] else [])
  {
    if xs == [] {
      assert xs + [x] == [x];
      assert [x][1..] == [];
    } else {
      assert (xs + [x])[0] == xs[0];
      assert (xs + [x])[1..] == xs[1..] + [x];
      FilterSnoc(xs[1..], x, keep);
    }
  }

  /** Filtering keeps the models distinct. */
  lemma {:induction false} FilterDistinct(xs: seq<ProjectileModel>, keep: set<ProjectileModel>)
    requires Distinct(xs)
    ensures Distinct(Filter(xs, keep))
  {
    if xs != [] {
      assert Distinct(xs[1..]) by {
        forall i, j | 0 <= i < |xs[1..]| && 0 <= j < |xs[1..]| && i != j
          ensures xs[1..][i] != xs[1..][j]
        {
          assert xs[1..][i] == xs[i + 1] && xs[1..][j] == xs[j + 1];
        }
      }
      FilterDistinct(xs[1..], keep);
      if xs[0] in keep {
        var rest := Filter(xs[1..], keep);
        assert xs[0] !in xs[1..] by {
          forall k | 0 <= k < |xs[1..]| ensures xs[1..][k] != xs[0] {
            assert xs[1..][k] == xs[k + 1];
          }
        }
        assert xs[0] !in rest;
        forall i, j | 0 <= i < |[xs[0]] + rest| && 0 <= j < |[xs[0]] + rest| && i != j
          ensures ([xs[0]] + rest)[i] != ([xs[0]] + rest)[j]
        {
          if i > 0 && j > 0 {
            assert ([xs[0]] + rest)[i] == rest[i - 1] && ([xs[0]] + rest)[j] == rest[j - 1];
          } else if i == 0 {
            assert ([xs[0]] + rest)[j] == rest[j - 1];
          } else {
            assert ([xs[0]] + rest)[i] == rest[i - 1];
          }
        }
      }
    }
  }

  /** `Iterator.firstOr('None')`. */
  function FirstOr(xs: seq<ProjectileModel>): Option<ProjectileModel> {
    if xs == [] then None else Some(xs[0])
  }

  /**
   * The first element of a filtered stream is the earliest element of `xs` in `keep`, and
   * there is none exactly when no element of `xs` is kept.
   */
  lemma {:induction false} FirstOfFilter(xs: seq<ProjectileModel>, keep: set<ProjectileModel>)
    ensures FirstOr(Filter(xs, keep)).None? <==> forall x :: x in xs ==> x !in keep
    ensures FirstOr(Filter(xs, keep)).Some? ==>
      exists i :: 0 <= i < |xs| && xs[i] == FirstOr(Filter(xs, keep)).value && xs[i] in keep &&
        forall j :: 0 <= j < i ==> xs[j] !in keep
  {
    if xs != [] && xs[0] !in keep {
      FirstOfFilter(xs[1..], keep);
      var r := FirstOr(Filter(xs, keep));
      if r.Some? {
        var i :| 0 <= i < |xs[1..]| && xs[1..][i] == r.value && xs[1..][i] in keep &&
          forall j :: 0 <= j < i ==> xs[1..][j] !in keep;
        assert xs[i + 1] == r.value;
        forall j | 0 <= j < i + 1 ensures xs[j] !in keep {
          if j > 0 { assert xs[j] == xs[1..][j - 1]; }
        }
      }
    } else if xs != [] {
      assert xs[0] == FirstOr(Filter(xs, keep)).value;
    }
  }

  /** The position of the first occurrence of `x` in `xs`. */
  function FirstIndex(xs: seq<ProjectileModel>, x: ProjectileModel): (i: nat)
    requires x in xs
    ensures i < |xs| && xs[i] == x
    ensures forall j :: 0 <= j < i ==> xs[j] != x
  {
    if xs[0] == x then 0
    else
      var i := FirstIndex(xs[1..], x);
      assert forall j :: 1 <= j < i + 1 ==> xs[j] == xs[1..][j - 1];
      i + 1
  }

  /**
   * `Iterator.elementAfter(current)`: the element following `current`, wrapping around to
   * the first one; the first element when `current` is not in the stream, and nothing for
   * an empty stream.
   */
  function ElementAfter(xs: seq<ProjectileModel>, current: ProjectileModel): (r: Option<ProjectileModel>)
    ensures r.None? <==> xs == []
    ensures r.Some? ==> r.value in xs
  {
    if xs == [] then None
    else if current in xs then
      var i := FirstIndex(xs, current);
      Some(if i + 1 < |xs| then xs[i + 1] else xs[0])
    else Some(xs[0])
  }

  /** The type selected after `k` switch commands, starting from the first one. */
  function SwitchedTimes(xs: seq<ProjectileModel>, k: nat): ProjectileModel
    requires xs != []
  {
    if k == 0 then xs[0] else ElementAfter(xs, SwitchedTimes(xs, k - 1)).value
  }

  /** Repeated switching visits every type in order. */
  lemma {:induction false} SwitchingVisitsEveryType(xs: seq<ProjectileModel>, k: nat)
    requires Distinct(xs) && k < |xs|
    ensures SwitchedTimes(xs, k) == xs[k]
  {
    if k > 0 {
      SwitchingVisitsEveryType(xs, k - 1);
      assert FirstIndex(xs, xs[k - 1]) == k - 1;
    }
  }

  /** Switching once per type brings the selection back to the first type. */
  lemma SwitchingWrapsAround(xs: seq<ProjectileModel>)
    requires Distinct(xs) && xs != []
    ensures SwitchedTimes(xs, |xs|) == xs[0]
  {
    SwitchingVisitsEveryType(xs, |xs| - 1);
    assert FirstIndex(xs, xs[|xs| - 1]) == |xs| - 1;
  }

  // -------------------------------------------------------------------------------
  // Ammunition selection
  // -------------------------------------------------------------------------------

  /**
   * The selection after a switch (`changeProjectileCommand`): the first enabled model from
   * no selection, otherwise the enabled model after the current one.
   */
  function SwitchedProjectile(models: seq<ProjectileModel>, design: ChainGunDesign, projectile: Option<ProjectileModel>): (r: Option<ProjectileModel>)
    ensures r.Some? ==> r.value in models && Uses(design, r.value)
    ensures r.None? <==> forall p :: p in models ==> !Uses(design, p)
  {
    var ammoTypes := Filter(models, UsedModels(design));
    if projectile.None? then FirstOr(ammoTypes) else ElementAfter(ammoTypes, projectile.value)
  }

  /** Switching is forced while the selected model is no longer enabled. */
  predicate MustSwitch(design: ChainGunDesign, projectile: Option<ProjectileModel>, command: bool) {
    command || (projectile.Some? && !Uses(design, projectile.value))
  }

  /** `resetChainGun`. */
  method ResetChainGun(chainGun: ChainGun)
    modifies chainGun`angleOffset, chainGun`rateOfFireFactor, chainGun`shellRangeMode
    ensures chainGun.angleOffset == 0.0 && chainGun.rateOfFireFactor == 1.0 && chainGun.shellRangeMode == Direct
  {
    chainGun.angleOffset := 0.0;
    chainGun.rateOfFireFactor := 1.0;
    chainGun.shellRangeMode := Direct;
  }

  /**
   * `switchToAvailableAmmo`: with nothing selected, selects the first model that is both
   * enabled and in stock, if any; an existing selection stays.
   */
  method SwitchToAvailableAmmo(chainGun: ChainGun, magazine: Magazine, models: seq<ProjectileModel>)
    modifies chainGun`projectile
    ensures old(chainGun.projectile).Some? ==> chainGun.projectile == old(chainGun.projectile)
    ensures old(chainGun.projectile).None? ==>
      chainGun.projectile == FirstOr(Filter(models, AvailableModels(chainGun.design, magazine.counts)))
    ensures old(chainGun.projectile).None? && chainGun.projectile.Some? ==>
      var p := chainGun.projectile.value;
      p in models && Uses(chainGun.design, p) && p in magazine.counts && magazine.counts[p] > 0
  {
    if chainGun.projectile.None? {
      chainGun.projectile := FirstOr(Filter(models, AvailableModels(chainGun.design, magazine.counts)));
    }
  }

  // -------------------------------------------------------------------------------
  // Loading
  // -------------------------------------------------------------------------------

  /** The loading state: the gun's progress and round, the magazine and the carried-over progress. */
  datatype Loader = Loader(
    loading: real,
    loaded: Option<ProjectileModel>,
    counts: map<ProjectileModel, int>,
    remainder: real)

  /**
   * The loader is consistent: progress in [0, 1], a round in the gun exactly when there is
   * progress, a non-negative carry-over and no negative stock.
   */
  predicate LoaderInv(l: Loader) {
    && 0.0 <= l.loading <= 1.0
    && (l.loading == 0.0 <==> l.loaded.None?)
    && 0.0 <= l.remainder
    && (l.loaded.Some? ==> l.loaded.value in l.counts)
    && (forall p :: p in l.counts ==> l.counts[p] >= 0)
  }

  /** The rounds of model `p` in the magazine and in the gun together. */
  function Stock(l: Loader, p: ProjectileModel): int {
    (if p in l.counts then l.counts[p] else 0) + (if l.loaded == Some(p) then 1 else 0)
  }

  /** `dontLoad`: the gun is empty and the magazine has no round of the selected model. */
  predicate DontLoad(l: Loader, projectile: Option<ProjectileModel>)
    requires projectile.Some? ==> projectile.value in l.counts
  {
    projectile.Some? && l.loading == 0.0 && l.counts[projectile.value] < 1
  }

  /** How far a step of `deltaSeconds` advances the loading. */
  function LoadingDelta(design: ChainGunDesign, rateOfFireFactor: real, effectiveness: real, deltaSeconds: real): real {
    design.bulletsPerSecond * rateOfFireFactor * effectiveness * deltaSeconds
  }

  /** Taking a round of `p` from the magazine into an empty gun, with the carried-over progress. */
  function StartLoading(l: Loader, p: ProjectileModel): Loader
    requires p in l.counts
  {
    Loader(l.loading + l.remainder, Some(p), l.counts[p := l.counts[p] - 1], 0.0)
  }

  /** `dontLoad` holds exactly when the selected model has no round left, neither in the gun nor in the magazine. */
  lemma DontLoadMeansNoRound(l: Loader, p: ProjectileModel)
    requires LoaderInv(l) && p in l.counts
    ensures DontLoad(l, Some(p)) <==> l.loaded.None? && Stock(l, p) == 0
  {
  }

  /** A step advances the loading only for a gun that is effective, not stopped and given time. */
  lemma {:induction false} LoadingDeltaSign(design: ChainGunDesign, rateOfFireFactor: real, effectiveness: real, deltaSeconds: real)
    requires design.bulletsPerSecond >= 0.0 && rateOfFireFactor >= 0.0 && effectiveness >= 0.0 && deltaSeconds >= 0.0
    ensures LoadingDelta(design, rateOfFireFactor, effectiveness, deltaSeconds) >= 0.0
    ensures rateOfFireFactor == 0.0 || effectiveness == 0.0 || deltaSeconds == 0.0 ==>
      LoadingDelta(design, rateOfFireFactor, effectiveness, deltaSeconds) == 0.0
  {
    var a := design.bulletsPerSecond * rateOfFireFactor;
    assert a >= 0.0;
    var b := a * effectiveness;
    assert b >= 0.0;
    assert LoadingDelta(design, rateOfFireFactor, effectiveness, deltaSeconds) == b * deltaSeconds;
  }

  /** Starting to load moves one round of `p` from the magazine into the empty gun. */
  lemma StartLoadingConservesStock(l: Loader, p: ProjectileModel)
    requires p in l.counts && l.loaded.None?
    ensures StartLoading(l, p).loaded == Some(p)
    ensures forall q :: Stock(StartLoading(l, p), q) == Stock(l, q)
  {
  }

  /**
   * One loading step of `updateChainGun`, given whether the energy manager grants the
   * energy asked for: a positive `loadingDelta` unloads a round that is not the selected
   * one (or not wanted), otherwise loads the selected model up to a full load, carrying the
   * excess over.
   */
  function LoadStep(l: Loader, projectile: Option<ProjectileModel>, loadAmmo: bool, loadingDelta: real, energyGranted: bool): (r: Loader)
    requires projectile.Some? ==> projectile.value in l.counts
    requires l.loaded.Some? ==> l.loaded.value in l.counts
    ensures !energyGranted || loadingDelta <= 0.0 ==> r == l
    ensures r.counts.Keys == l.counts.Keys
  {
    if !(loadingDelta > 0.0) then l
    else if l.loaded.Some? && (projectile != l.loaded || !loadAmmo) then
      if !energyGranted then l
      else if l.loading - loadingDelta <= 0.0 then
        var p := l.loaded.value;
        Loader(0.0, None, l.counts[p := l.counts[p] + 1], l.remainder)
      else l.(loading := l.loading - loadingDelta)
    else if projectile.Some? && loadAmmo && l.loading < 1.0 && !DontLoad(l, projectile) then
      if !energyGranted then l
      else
        var started := if l.loading == 0.0 then StartLoading(l, projectile.value) else l;
        var loading := started.loading + loadingDelta;
        if loading >= 1.0 then started.(loading := 1.0, remainder := loading - 1.0)
        else started.(loading := loading)
    else l
  }

  /** A loading step keeps the loader consistent. */
  lemma LoadStepKeepsInvariant(l: Loader, projectile: Option<ProjectileModel>, loadAmmo: bool, loadingDelta: real, energyGranted: bool)
    requires LoaderInv(l)
    requires projectile.Some? ==> projectile.value in l.counts
    ensures LoaderInv(LoadStep(l, projectile, loadAmmo, loadingDelta, energyGranted))
  {
  }

  /** Loading and unloading only move rounds between the magazine and the gun. */
  lemma LoadStepConservesStock(l: Loader, projectile: Option<ProjectileModel>, loadAmmo: bool, loadingDelta: real, energyGranted: bool)
    requires LoaderInv(l)
    requires projectile.Some? ==> projectile.value in l.counts
    ensures forall p :: Stock(LoadStep(l, projectile, loadAmmo, loadingDelta, energyGranted), p) == Stock(l, p)
  {
  }

  /**
   * The three transitions of a step that is given time and granted its energy. A round
   * that is not the selected one, or not wanted, is unloaded and returns to the magazine
   * once its progress reaches 0. An empty gun takes one round of the selected model from
   * the magazine and starts from the carried-over progress. A gun loading the selected
   * model advances. Progress is capped at 1 and the excess is carried over; in every other
   * case nothing changes.
   */
  lemma LoadStepTransitions(l: Loader, projectile: Option<ProjectileModel>, loadAmmo: bool, loadingDelta: real)
    requires LoaderInv(l)
    requires projectile.Some? ==> projectile.value in l.counts
    requires loadingDelta > 0.0
    ensures var r := LoadStep(l, projectile, loadAmmo, loadingDelta, true);
      l.loaded.Some? && (projectile != l.loaded || !loadAmmo) ==>
        if l.loading <= loadingDelta then
          && r.loading == 0.0 && r.loaded.None? && r.remainder == l.remainder
          && r.counts == l.counts[l.loaded.value := l.counts[l.loaded.value] + 1]
        else r == l.(loading := l.loading - loadingDelta)
    ensures var r := LoadStep(l, projectile, loadAmmo, loadingDelta, true);
      l.loaded.None? && projectile.Some? && loadAmmo && l.counts[projectile.value] >= 1 ==>
        var p, total := projectile.value, l.remainder + loadingDelta;
        && r.loaded == Some(p)
        && r.counts == l.counts[p := l.counts[p] - 1]
        && r.loading == (if total >= 1.0 then 1.0 else total)
        && r.remainder == (if total >= 1.0 then total - 1.0 else 0.0)
    ensures var r := LoadStep(l, projectile, loadAmmo, loadingDelta, true);
      l.loaded.Some? && projectile == l.loaded && loadAmmo && l.loading < 1.0 ==>
        var total := l.loading + loadingDelta;
        && r.loaded == l.loaded && r.counts == l.counts
        && r.loading == (if total >= 1.0 then 1.0 else total)
        && r.remainder == (if total >= 1.0 then total - 1.0 else l.remainder)
    ensures
      || (l.loaded.None? && (projectile.None? || !loadAmmo || l.counts[projectile.value] < 1))
      || (l.loaded.Some? && projectile == l.loaded && loadAmmo && l.loading == 1.0)
      ==> LoadStep(l, projectile, loadAmmo, loadingDelta, true) == l
  {
  }

  /** Firing empties the gun. */
  function Fired(l: Loader): (r: Loader)
    ensures r.loading == 0.0 && r.loaded.None?
    ensures r.counts == l.counts && r.remainder == l.remainder
  {
    l.(loading := 0.0, loaded := None)
  }

  /** Firing keeps the loader consistent and uses up exactly the round that was in the gun. */
  lemma FiredUsesOneRound(l: Loader, p: ProjectileModel)
    requires LoaderInv(l)
    ensures LoaderInv(Fired(l))
    ensures Stock(Fired(l), p) == Stock(l, p) - (if l.loaded == Some(p) then 1 else 0)
  {
  }

  /** `fireChainGun`'s condition. */
  predicate CanFire(effectiveness: real, isFiring: bool, l: Loader) {
    effectiveness > 0.0 && isFiring && l.loading >= 1.0 && l.loaded.Some?
  }

  /** A consistent gun that can fire holds exactly one full round. */
  lemma CanFireNeedsFullRound(effectiveness: real, isFiring: bool, l: Loader)
    requires LoaderInv(l)
    ensures CanFire(effectiveness, isFiring, l) ==> l.loading == 1.0 && l.loaded.Some?
    ensures CanFire(effectiveness, isFiring, l) <==> effectiveness > 0.0 && isFiring && l.loading == 1.0
  {
  }

  /** The number of projectiles of model `p` among `xs`. */
  function ShellsOf(xs: seq<SpaceObject>, p: ProjectileModel): nat {
    if xs == [] then 0
    else (if xs[0].kind.Projectile? && xs[0].kind.model == p then 1 else 0) + ShellsOf(xs[1..], p)
  }

  /**
   * The shell `fireChainGun` creates: a projectile of the loaded model with the sampled
   * angle, the resulting velocity and muzzle position; a homing model takes the weapons
   * target and its own lifetime, any other model the chain gun's shell lifetime.
   */
  function Shell(model: ProjectileModel, id: Id, position: XY, velocity: XY, angle: real, radius: real,
                 homingSecondsToLive: Option<real>, targetId: Option<Id>, shellSecondsToLive: real): (o: SpaceObject)
    ensures o.id == id && o.position == position && o.velocity == velocity && o.angle == angle
    ensures o.kind.Projectile? && o.kind.model == model && !o.destroyed
    ensures o.kind.homing <==> homingSecondsToLive.Some?
    ensures homingSecondsToLive.Some? ==> o.kind.secondsToLive == homingSecondsToLive.value && o.kind.targetId == targetId
    ensures homingSecondsToLive.None? ==> o.kind.secondsToLive == shellSecondsToLive && o.kind.targetId.None?
  {
    var secondsToLive := if homingSecondsToLive.Some? then homingSecondsToLive.value else shellSecondsToLive;
    var target := if homingSecondsToLive.Some? then targetId else None;
    NewObject(Projectile(model, secondsToLive, homingSecondsToLive.Some?, target, None), id, position, radius)
      .(velocity := velocity, angle := angle)
  }

  // -------------------------------------------------------------------------------
  // Shell range
  // -------------------------------------------------------------------------------

  /**
   * The range the shell aims at before the player's adjustment: the middle of the range in
   * DIRECT mode, the target's distance capped to the range in TARGET mode; nothing (the
   * source throws) in TARGET mode without a target and in any other mode.
   */
  function BaseRange(design: ChainGunDesign, mode: ShellRangeMode, targetDistance: Option<real>,
                     capToRange: (real, real, real) -> real): (r: Option<real>)
    ensures mode == Direct ==> r == Some((design.minShellRange + design.maxShellRange) / 2.0)
    ensures mode == Target && targetDistance.Some? ==>
      r == Some(capToRange(design.minShellRange, design.maxShellRange, targetDistance.value))
    ensures r.None? <==> mode.OtherMode? || (mode == Target && targetDistance.None?)
  {
    var aimRange := (design.maxShellRange - design.minShellRange) / 2.0;
    match mode
    case Direct => Some(design.minShellRange + aimRange)
    case Target => if targetDistance.Some? then Some(capToRange(design.minShellRange, design.maxShellRange, targetDistance.value)) else None
    case OtherMode(_) => None
  }

  // -------------------------------------------------------------------------------
  // State
  // -------------------------------------------------------------------------------

  /** The chain gun's state, updated in place. */
  class ChainGun {
    var design: ChainGunDesign
    var angleOffset: real
    var rateOfFireFactor: real
    var shellRangeMode: ShellRangeMode
    /** The player's adjustment of the range, in [-1, 1]. */
    var shellRange: real
    var shellSecondsToLive: real
    /** The selected ammunition. */
    var projectile: Option<ProjectileModel>
    /** The round in the gun. */
    var loadedProjectile: Option<ProjectileModel>
    /** The loading progress of the round in the gun; 1 is fully loaded. */
    var loading: real
    var loadAmmo: bool
    var isFiring: bool
    var changeProjectileCommand: bool
    var effectiveness: real
  }

  /** The ship's magazine: `count_<model>` per projectile model. */
  class Magazine {
    var counts: map<ProjectileModel, int>
  }

  class ChainGunManager {
    const chainGun: ChainGun
    const magazine: Magazine
    const spaceManager: SpaceManagement.SpaceManager
    /** `projectileModels`, in their order. */
    const models: seq<ProjectileModel>
    /** Loading progress carried over to the next round, for very high rates of fire. */
    var loadingRemainder: real
    /** `capToRange(min, max, value)`. */
    const capToRange: (real, real, real) -> real
    /** `lerp([fromLow, fromHigh], [toLow, toHigh], value)`. */
    const lerp: (real, real, real, real, real) -> real
    /** `calcShellSecondsToLive(state, chainGun, range)` for this ship and gun. */
    const secondsToLiveAtRange: real -> real
    /** The `homing.secondsToLive` of a model's design, for homing models. */
    const homingSecondsToLive: ProjectileModel -> Option<real>
    /** The radius of a `new Projectile(model)`. */
    const projectileRadius: ProjectileModel -> real

    function CurrentLoader(): Loader
      reads this`loadingRemainder, chainGun`loading, chainGun`loadedProjectile, magazine`counts
    {
      Loader(chainGun.loading, chainGun.loadedProjectile, magazine.counts, loadingRemainder)
    }

    /**
     * The models are distinct and all have a magazine count, the selected and loaded models
     * are models, and the loader is consistent.
     */
    ghost predicate Valid()
      reads this`loadingRemainder, chainGun`loading, chainGun`loadedProjectile, chainGun`projectile, magazine`counts
    {
      && Distinct(models)
      && (forall p :: p in models ==> p in magazine.counts)
      && (chainGun.projectile.Some? ==> chainGun.projectile.value in models)
      && (chainGun.loadedProjectile.Some? ==> chainGun.loadedProjectile.value in models)
      && LoaderInv(CurrentLoader())
    }

    /** The constructor: no carried-over progress, and ammunition selected if there is none. */
    constructor (chainGun: ChainGun, magazine: Magazine, spaceManager: SpaceManagement.SpaceManager,
                 models: seq<ProjectileModel>, capToRange: (real, real, real) -> real,
                 lerp: (real, real, real, real, real) -> real, secondsToLiveAtRange: real -> real,
                 homingSecondsToLive: ProjectileModel -> Option<real>, projectileRadius: ProjectileModel -> real)
      requires Distinct(models) && forall p :: p in models ==> p in magazine.counts
      requires chainGun.projectile.Some? ==> chainGun.projectile.value in models
      requires chainGun.loadedProjectile.Some? ==> chainGun.loadedProjectile.value in models
      requires LoaderInv(Loader(chainGun.loading, chainGun.loadedProjectile, magazine.counts, 0.0))
      modifies chainGun`projectile
      ensures Valid() && loadingRemainder == 0.0
      ensures this.chainGun == chainGun && this.magazine == magazine && this.spaceManager == spaceManager && this.models == models
      ensures old(chainGun.projectile).Some? ==> chainGun.projectile == old(chainGun.projectile)
      ensures old(chainGun.projectile).None? ==>
        chainGun.projectile == FirstOr(Filter(models, AvailableModels(chainGun.design, magazine.counts)))
    {
      this.chainGun := chainGun;
      this.magazine := magazine;
      this.spaceManager := spaceManager;
      this.models := models;
      this.capToRange := capToRange;
      this.lerp := lerp;
      this.secondsToLiveAtRange := secondsToLiveAtRange;
      this.homingSecondsToLive := homingSecondsToLive;
      this.projectileRadius := projectileRadius;
      loadingRemainder := 0.0;
      new;
      SwitchToAvailableAmmo(chainGun, magazine, models);
    }

    /**
     * `setShellRangeMode`: TARGET without a weapons target is refused and logged; any other
     * new mode is set and resets the player's range adjustment.
     */
    method SetShellRangeMode(value: ShellRangeMode, hasWeaponsTarget: bool) returns (logged: bool)
      modifies chainGun`shellRangeMode, chainGun`shellRange
      ensures logged <==> value == Target && !hasWeaponsTarget
      ensures logged || value == old(chainGun.shellRangeMode) ==>
        chainGun.shellRangeMode == old(chainGun.shellRangeMode) && chainGun.shellRange == old(chainGun.shellRange)
      ensures !logged && value != old(chainGun.shellRangeMode) ==> chainGun.shellRangeMode == value && chainGun.shellRange == 0.0
    {
      logged := false;
      if value == Target && !hasWeaponsTarget {
        logged := true;
      } else if value != chainGun.shellRangeMode {
        chainGun.shellRangeMode := value;
        chainGun.shellRange := 0.0;
      }
    }

    /**
     * The lifetime of the next shell, given the distance to the weapons target if there is
     * one: the design's override when positive, otherwise the lifetime for the base range
     * moved by the player's adjustment, capped to the range; nothing when the source throws.
     */
    function ShellSecondsToLive(targetDistance: Option<real>): (r: Option<real>)
      reads this, chainGun
      ensures chainGun.design.overrideSecondsToLive > 0.0 ==> r == Some(chainGun.design.overrideSecondsToLive)
      ensures r.None? <==>
        chainGun.design.overrideSecondsToLive <= 0.0 &&
        BaseRange(chainGun.design, chainGun.shellRangeMode, targetDistance, capToRange).None?
      ensures r.Some? && chainGun.design.overrideSecondsToLive <= 0.0 ==>
        var d := chainGun.design;
        var aimRange := (d.maxShellRange - d.minShellRange) / 2.0;
        var baseRange := BaseRange(d, chainGun.shellRangeMode, targetDistance, capToRange).value;
        r == Some(secondsToLiveAtRange(capToRange(d.minShellRange, d.maxShellRange,
                                                  baseRange + lerp(-1.0, 1.0, -aimRange, aimRange, chainGun.shellRange))))
    {
      var design := chainGun.design;
      if design.overrideSecondsToLive > 0.0 then Some(design.overrideSecondsToLive)
      else
        var aimRange := (design.maxShellRange - design.minShellRange) / 2.0;
        match BaseRange(design, chainGun.shellRangeMode, targetDistance, capToRange)
        case None => None
        case Some(baseRange) =>
          var range := capToRange(design.minShellRange, design.maxShellRange,
                                  baseRange + lerp(-1.0, 1.0, -aimRange, aimRange, chainGun.shellRange));
          Some(secondsToLiveAtRange(range))
    }

    /** In DIRECT mode the shell lifetime does not depend on the weapons target. */
    lemma DirectIgnoresTarget(d1: Option<real>, d2: Option<real>)
      requires chainGun.shellRangeMode == Direct
      ensures ShellSecondsToLive(d1) == ShellSecondsToLive(d2)
    {
      assert BaseRange(chainGun.design, Direct, d1, capToRange) == BaseRange(chainGun.design, Direct, d2, capToRange);
    }

    /** `calcShellSecondsToLive`: stores the lifetime, or throws and leaves it. */
    method CalcShellSecondsToLive(targetDistance: Option<real>) returns (thrown: bool)
      modifies chainGun`shellSecondsToLive
      ensures thrown <==> old(ShellSecondsToLive(targetDistance)).None?
      ensures !thrown ==> Some(chainGun.shellSecondsToLive) == old(ShellSecondsToLive(targetDistance))
      ensures thrown ==> chainGun.shellSecondsToLive == old(chainGun.shellSecondsToLive)
    {
      var r := ShellSecondsToLive(targetDistance);
      thrown := r.None?;
      if r.Some? {
        chainGun.shellSecondsToLive := r.value;
      }
    }

    /** The first part of `updateChainGun`: a commanded or forced switch of ammunition. */
    method SwitchProjectile()
      requires Valid()
      modifies chainGun`changeProjectileCommand, chainGun`projectile
      ensures Valid() && !chainGun.changeProjectileCommand
      ensures chainGun.projectile ==
        if MustSwitch(chainGun.design, old(chainGun.projectile), old(chainGun.changeProjectileCommand))
        then SwitchedProjectile(models, chainGun.design, old(chainGun.projectile))
        else old(chainGun.projectile)
      ensures chainGun.projectile.Some? ==> Uses(chainGun.design, chainGun.projectile.value)
    {
      if chainGun.projectile.Some? && !Uses(chainGun.design, chainGun.projectile.value) {
        chainGun.changeProjectileCommand := true;
      }
      if chainGun.changeProjectileCommand {
        chainGun.changeProjectileCommand := false;
        var ammoTypes := Filter(models, UsedModels(chainGun.design));
        if chainGun.projectile.None? {
          chainGun.projectile := FirstOr(ammoTypes);
        } else {
          chainGun.projectile := ElementAfter(ammoTypes, chainGun.projectile.value);
        }
      }
    }

    /** The last part of `updateChainGun`: loading or unloading, as `LoadStep` says. */
    method Load(loadingDelta: real, energyGranted: bool)
      requires Valid()
      modifies chainGun`loading, chainGun`loadedProjectile, this`loadingRemainder, magazine`counts
      ensures Valid()
      ensures CurrentLoader() == LoadStep(old(CurrentLoader()), chainGun.projectile, chainGun.loadAmmo, loadingDelta, energyGranted)
    {
      ghost var before := CurrentLoader();
      LoadStepKeepsInvariant(before, chainGun.projectile, chainGun.loadAmmo, loadingDelta, energyGranted);
      var dontLoad := chainGun.projectile.Some? && chainGun.loading == 0.0 && magazine.counts[chainGun.projectile.value] < 1;
      if loadingDelta > 0.0 {
        if chainGun.loadedProjectile.Some? && (chainGun.projectile != chainGun.loadedProjectile || !chainGun.loadAmmo) {
          if energyGranted {
            chainGun.loading := chainGun.loading - loadingDelta;
            if chainGun.loading <= 0.0 {
              chainGun.loading := 0.0;
              var p := chainGun.loadedProjectile.value;
              magazine.counts := magazine.counts[p := magazine.counts[p] + 1];
              chainGun.loadedProjectile := None;
            }
          }
        } else if chainGun.projectile.Some? && chainGun.loadAmmo && chainGun.loading < 1.0 && !dontLoad {
          if energyGranted {
            if chainGun.loading == 0.0 {
              var p := chainGun.projectile.value;
              magazine.counts := magazine.counts[p := magazine.counts[p] - 1];
              chainGun.loadedProjectile := chainGun.projectile;
              chainGun.loading := chainGun.loading + loadingRemainder;
              loadingRemainder := 0.0;
            }
            chainGun.loading := chainGun.loading + loadingDelta;
            if chainGun.loading >= 1.0 {
              loadingRemainder := chainGun.loading - 1.0;
              chainGun.loading := 1.0;
            }
          }
        }
      }
    }

    /** The middle part of `updateChainGun`: no firing without effectiveness, no carry-over without firing. */
    method HoldFire()
      requires Valid()
      modifies chainGun`isFiring, this`loadingRemainder
      ensures Valid()
      ensures chainGun.isFiring <==> old(chainGun.isFiring) && chainGun.effectiveness != 0.0
      ensures CurrentLoader() == old(CurrentLoader()).(remainder := if chainGun.isFiring then old(loadingRemainder) else 0.0)
    {
      if chainGun.effectiveness == 0.0 {
        chainGun.isFiring := false;
      }
      if !chainGun.isFiring {
        loadingRemainder := 0.0;
      }
    }

    /**
     * `updateChainGun`: switches ammunition when commanded or forced, stops firing without
     * effectiveness, drops the carried-over progress while not firing, then loads or
     * unloads; `energyGranted` is the energy manager's answer to the loading energy asked for.
     */
    method UpdateChainGun(deltaSeconds: real, energyGranted: bool)
      requires Valid()
      modifies chainGun`changeProjectileCommand, chainGun`projectile, chainGun`isFiring,
               chainGun`loading, chainGun`loadedProjectile, this`loadingRemainder, magazine`counts
      ensures Valid() && !chainGun.changeProjectileCommand
      ensures chainGun.projectile ==
        if MustSwitch(chainGun.design, old(chainGun.projectile), old(chainGun.changeProjectileCommand))
        then SwitchedProjectile(models, chainGun.design, old(chainGun.projectile))
        else old(chainGun.projectile)
      ensures chainGun.projectile.Some? ==> Uses(chainGun.design, chainGun.projectile.value)
      ensures chainGun.isFiring <==> old(chainGun.isFiring) && chainGun.effectiveness != 0.0
      ensures CurrentLoader() == LoadStep(
        old(CurrentLoader()).(remainder := if chainGun.isFiring then old(loadingRemainder) else 0.0),
        chainGun.projectile, chainGun.loadAmmo,
        LoadingDelta(chainGun.design, chainGun.rateOfFireFactor, chainGun.effectiveness, deltaSeconds),
        energyGranted)
      ensures forall p :: Stock(CurrentLoader(), p) == old(Stock(CurrentLoader(), p))
    {
      ghost var start := CurrentLoader();
      SwitchProjectile();
      HoldFire();
      ghost var reset := CurrentLoader();
      assert reset == start.(remainder := if chainGun.isFiring then start.remainder else 0.0);
      var loadingDelta := LoadingDelta(chainGun.design, chainGun.rateOfFireFactor, chainGun.effectiveness, deltaSeconds);
      Load(loadingDelta, energyGranted);
      forall p ensures Stock(CurrentLoader(), p) == Stock(start, p) {
        LoadStepConservesStock(reset, chainGun.projectile, chainGun.loadAmmo, loadingDelta, energyGranted);
        assert Stock(CurrentLoader(), p) == Stock(reset, p);
      }
    }

    /**
     * `fireChainGun`: with effectiveness, firing on and a fully loaded round, empties the gun
     * and queues one shell of the loaded model; `angle` is the sampled shot angle and
     * `velocity` and `position` the shell's resulting velocity and muzzle position.
     */
    method FireChainGun(shellId: Id, angle: real, velocity: XY, position: XY, targetId: Option<Id>) returns (fired: bool)
      requires Valid()
      modifies chainGun`loading, chainGun`loadedProjectile, spaceManager`toInsert
      ensures Valid()
      ensures fired <==> old(CanFire(chainGun.effectiveness, chainGun.isFiring, CurrentLoader()))
      ensures fired ==> CurrentLoader() == Fired(old(CurrentLoader()))
      ensures fired ==> spaceManager.toInsert == old(spaceManager.toInsert) + [Shell(
        old(chainGun.loadedProjectile).value, shellId, position, velocity, angle,
        projectileRadius(old(chainGun.loadedProjectile).value),
        homingSecondsToLive(old(chainGun.loadedProjectile).value), targetId, chainGun.shellSecondsToLive)]
      ensures !fired ==> CurrentLoader() == old(CurrentLoader()) && spaceManager.toInsert == old(spaceManager.toInsert)
      ensures forall p :: Stock(CurrentLoader(), p) + ShellsOf(spaceManager.toInsert[|old(spaceManager.toInsert)|..], p)
                          == old(Stock(CurrentLoader(), p))
    {
      ghost var queued, start := spaceManager.toInsert, CurrentLoader();
      fired := false;
      if chainGun.effectiveness > 0.0 && chainGun.isFiring && chainGun.loading >= 1.0 && chainGun.loadedProjectile.Some? {
        var model := chainGun.loadedProjectile.value;
        FiredUsesOneRound(CurrentLoader(), model);
        chainGun.loading := 0.0;
        chainGun.loadedProjectile := None;
        var shell := Shell(model, shellId, position, velocity, angle, projectileRadius(model),
                           homingSecondsToLive(model), targetId, chainGun.shellSecondsToLive);
        spaceManager.Insert(shell);
        fired := true;
      }
      forall p ensures Stock(CurrentLoader(), p) + ShellsOf(spaceManager.toInsert[|queued|..], p) == Stock(start, p) {
        if fired {
          FiredUsesOneRound(start, p);
          assert spaceManager.toInsert[|queued|..] == [spaceManager.toInsert[|queued|]];
        } else {
          assert spaceManager.toInsert[|queued|..] == [];
        }
      }
    }

    /**
     * The part of `update` after the shell lifetime: the gun's update, then firing. Every
     * round the magazine and the gun lose is a shell queued for insertion.
     */
    method UpdateAndFire(deltaSeconds: real, energyGranted: bool,
                         shellId: Id, angle: real, velocity: XY, position: XY, targetId: Option<Id>)
      returns (ghost loaded: Loader)
      requires Valid()
      modifies chainGun`changeProjectileCommand, chainGun`projectile, chainGun`isFiring,
               chainGun`loading, chainGun`loadedProjectile, this`loadingRemainder, magazine`counts, spaceManager`toInsert
      ensures Valid() && !chainGun.changeProjectileCommand
      ensures chainGun.projectile ==
        if MustSwitch(chainGun.design, old(chainGun.projectile), old(chainGun.changeProjectileCommand))
        then SwitchedProjectile(models, chainGun.design, old(chainGun.projectile))
        else old(chainGun.projectile)
      ensures chainGun.isFiring <==> old(chainGun.isFiring) && chainGun.effectiveness != 0.0
      ensures loaded == LoadStep(
        old(CurrentLoader()).(remainder := if chainGun.isFiring then old(loadingRemainder) else 0.0),
        chainGun.projectile, chainGun.loadAmmo,
        LoadingDelta(chainGun.design, chainGun.rateOfFireFactor, chainGun.effectiveness, deltaSeconds),
        energyGranted)
      ensures CanFire(chainGun.effectiveness, chainGun.isFiring, loaded) ==>
        && CurrentLoader() == Fired(loaded)
        && spaceManager.toInsert == old(spaceManager.toInsert) + [Shell(
             loaded.loaded.value, shellId, position, velocity, angle, projectileRadius(loaded.loaded.value),
             homingSecondsToLive(loaded.loaded.value), targetId, chainGun.shellSecondsToLive)]
      ensures !CanFire(chainGun.effectiveness, chainGun.isFiring, loaded) ==>
        CurrentLoader() == loaded && spaceManager.toInsert == old(spaceManager.toInsert)
      ensures |old(spaceManager.toInsert)| <= |spaceManager.toInsert| <= |old(spaceManager.toInsert)| + 1
      ensures spaceManager.toInsert[..|old(spaceManager.toInsert)|] == old(spaceManager.toInsert)
      ensures forall p :: Stock(CurrentLoader(), p) + ShellsOf(spaceManager.toInsert[|old(spaceManager.toInsert)|..], p)
                          == old(Stock(CurrentLoader(), p))
    {
      UpdateChainGun(deltaSeconds, energyGranted);
      loaded := CurrentLoader();
      var _ := FireChainGun(shellId, angle, velocity, position, targetId);
    }

    /**
     * `update`: the shell lifetime, the gun's update and firing, in this order; when the
     * lifetime throws, the rest of the tick does not run. Every round the magazine and the
     * gun lose is a shell queued for insertion.
     */
    method Update(deltaSeconds: real, targetDistance: Option<real>, energyGranted: bool,
                  shellId: Id, angle: real, velocity: XY, position: XY, targetId: Option<Id>)
      returns (thrown: bool, ghost loaded: Loader)
      requires Valid()
      modifies chainGun`shellSecondsToLive, chainGun`changeProjectileCommand, chainGun`projectile, chainGun`isFiring,
               chainGun`loading, chainGun`loadedProjectile, this`loadingRemainder, magazine`counts, spaceManager`toInsert
      ensures Valid()
      ensures thrown <==> old(ShellSecondsToLive(targetDistance)).None?
      ensures thrown ==>
        && CurrentLoader() == old(CurrentLoader()) && spaceManager.toInsert == old(spaceManager.toInsert)
        && chainGun.shellSecondsToLive == old(chainGun.shellSecondsToLive)
        && chainGun.projectile == old(chainGun.projectile) && chainGun.isFiring == old(chainGun.isFiring)
        && chainGun.changeProjectileCommand == old(chainGun.changeProjectileCommand)
      ensures !thrown ==> Some(chainGun.shellSecondsToLive) == old(ShellSecondsToLive(targetDistance))
      ensures !thrown ==>
        && !chainGun.changeProjectileCommand
        && chainGun.projectile ==
             (if MustSwitch(chainGun.design, old(chainGun.projectile), old(chainGun.changeProjectileCommand))
              then SwitchedProjectile(models, chainGun.design, old(chainGun.projectile))
              else old(chainGun.projectile))
        && (chainGun.isFiring <==> old(chainGun.isFiring) && chainGun.effectiveness != 0.0)
        && loaded == LoadStep(
             old(CurrentLoader()).(remainder := if chainGun.isFiring then old(loadingRemainder) else 0.0),
             chainGun.projectile, chainGun.loadAmmo,
             LoadingDelta(chainGun.design, chainGun.rateOfFireFactor, chainGun.effectiveness, deltaSeconds),
             energyGranted)
      ensures !thrown && CanFire(chainGun.effectiveness, chainGun.isFiring, loaded) ==>
        && CurrentLoader() == Fired(loaded)
        && spaceManager.toInsert == old(spaceManager.toInsert) + [Shell(
             loaded.loaded.value, shellId, position, velocity, angle, projectileRadius(loaded.loaded.value),
             homingSecondsToLive(loaded.loaded.value), targetId, chainGun.shellSecondsToLive)]
      ensures !thrown && !CanFire(chainGun.effectiveness, chainGun.isFiring, loaded) ==>
        CurrentLoader() == loaded && spaceManager.toInsert == old(spaceManager.toInsert)
      ensures |old(spaceManager.toInsert)| <= |spaceManager.toInsert| <= |old(spaceManager.toInsert)| + 1
      ensures spaceManager.toInsert[..|old(spaceManager.toInsert)|] == old(spaceManager.toInsert)
      ensures forall p :: Stock(CurrentLoader(), p) + ShellsOf(spaceManager.toInsert[|old(spaceManager.toInsert)|..], p)
                          == old(Stock(CurrentLoader(), p))
    {
      loaded := CurrentLoader();
      thrown := CalcShellSecondsToLive(targetDistance);
      if thrown {
        assert spaceManager.toInsert[|old(spaceManager.toInsert)|..] == [];
        return;
      }
      loaded := UpdateAndFire(deltaSeconds, energyGranted, shellId, angle, velocity, position, targetId);
    }
  }
}
