/** The sovereignty capacity ledger of `UpgradeCalculator`
    (upgrade_calculator.py:23-396) as specification functions: the upgrade
    catalog, the base capacities, the per-system lists of installed
    upgrades, the usage figures, the accept/reject gate and the presets.
    `UpgradeCalculator.UpgradeCalculator` holds the ledger and runs them.

    Every upgrade carries a signed power delta and a signed workforce
    delta: a positive delta consumes capacity, a negative one adds it. */
module Capacity {
  import opened Wrappers

  /** One catalog row: category and the two deltas. */
  datatype UpgradeDef = UpgradeDef(category: string, power: int, workforce: int)

  /** One system's base power and workforce. */
  datatype BaseCapacity = BaseCapacity(power: int, workforce: int)

  /** The upgrade table by name, the system table by name, and the installed
      upgrades of each system in installation order. */
  type Catalog = map<string, UpgradeDef>
  type Capacities = map<string, BaseCapacity>
  type Ledger = map<string, seq<string>>

  /** The `ValueError`s of the calculator. */
  datatype CalcError = UnknownUpgrade(name: string) | UnknownSystem(name: string) | UnknownPreset(name: string)

  /** get_upgrade_info (upgrade_calculator.py:88-91): an unknown name is an
      error, never a reject. */
  function UpgradeInfo(catalog: Catalog, name: string): (r: Result<UpgradeDef, CalcError>)
    ensures r.Ok? <==> name in catalog
    ensures r.Ok? ==> r.value == catalog[name]
    ensures r.Err? ==> r.error == UnknownUpgrade(name)
  {
    if name in catalog then Ok(catalog[name]) else Err(UnknownUpgrade(name))
  }

  /** get_system_capacity (upgrade_calculator.py:103-110). */
  function SystemCapacity(capacities: Capacities, system: string): (r: Result<BaseCapacity, CalcError>)
    ensures r.Ok? <==> system in capacities
    ensures r.Ok? ==> r.value == capacities[system]
    ensures r.Err? ==> r.error == UnknownSystem(system)
  {
    if system in capacities then Ok(capacities[system]) else Err(UnknownSystem(system))
  }

  /** `system_upgrades.get(system, [])`. */
  function Installed(ledger: Ledger, system: string): seq<string> {
    if system in ledger then ledger[system] else []
  }

  datatype Resource = Power | Workforce

  function Delta(d: UpgradeDef, resource: Resource): int {
    match resource
    case Power => d.power
    case Workforce => d.workforce
  }

  /** The capacity a delta adds (`abs(delta)` when negative) and the
      capacity it uses (the delta when not negative). */
  datatype Side = Grants | Consumes

  function Part(delta: int, side: Side): nat {
    match side
    case Grants => if delta < 0 then -delta else 0
    case Consumes => if delta < 0 then 0 else delta
  }

  predicate Known(catalog: Catalog, names: seq<string>) {
    forall n :: n in names ==> n in catalog
  }

  /** The sum of one side of one resource over installed upgrades. */
  function Tally(catalog: Catalog, names: seq<string>, resource: Resource, side: Side): nat
    requires Known(catalog, names)
  {
    if names == [] then 0
    else Tally(catalog, names[..|names| - 1], resource, side) + Part(Delta(catalog[names[|names| - 1]], resource), side)
  }

  /** The plain signed sum of the deltas, the reference for the tallies. */
  function SignedSum(catalog: Catalog, names: seq<string>, resource: Resource): int
    requires Known(catalog, names)
  {
    if names == [] then 0
    else SignedSum(catalog, names[..|names| - 1], resource) + Delta(catalog[names[|names| - 1]], resource)
  }

  /** The first installed name missing from the catalog, in list order. */
  function FirstUnknown(catalog: Catalog, names: seq<string>): (r: Option<string>)
    ensures r.None? <==> Known(catalog, names)
    ensures r.Some? ==>
      exists i :: 0 <= i < |names| && names[i] == r.value && r.value !in catalog && Known(catalog, names[..i])
  {
    if names == [] then None
    else
      var init, last := names[..|names| - 1], names[|names| - 1];
      assert names == init + [last];
      match FirstUnknown(catalog, init)
      case Some(n) =>
        var i :| 0 <= i < |init| && init[i] == n && n !in catalog && Known(catalog, init[..i]);
        assert names[i] == n && names[..i] == init[..i];
        Some(n)
      case None =>
        if last in catalog then None
        else
          assert names[..|init|] == init;
          Some(last)
  }

  /** One entry of the `upgrades` list of the usage report. */
  datatype Detail = Detail(name: string, power: int, workforce: int, category: string)

  function Details(catalog: Catalog, names: seq<string>): seq<Detail>
    requires Known(catalog, names)
  {
    if names == [] then []
    else
      var n := names[|names| - 1];
      Details(catalog, names[..|names| - 1]) + [Detail(n, catalog[n].power, catalog[n].workforce, catalog[n].category)]
  }

  /** The report of calculate_capacity_usage. */
  datatype Usage = Usage(
    basePower: int,
    baseWorkforce: int,
    powerAdded: nat,
    workforceAdded: nat,
    powerUsed: nat,
    workforceUsed: nat,
    powerAvailable: int,
    workforceAvailable: int,
    totalPower: int,
    totalWorkforce: int,
    upgrades: seq<Detail>)

  /** calculate_capacity_usage (upgrade_calculator.py:135-181): the system's
      base capacity (an unknown system is an error), then the installed
      upgrades in order (the first unknown one is an error), folded into
      added and used figures per resource. */
  function CapacityUsage(catalog: Catalog, capacities: Capacities, ledger: Ledger, system: string): Result<Usage, CalcError> {
    var base :- SystemCapacity(capacities, system);
    var names := Installed(ledger, system);
    match FirstUnknown(catalog, names)
    case Some(n) => Err(UnknownUpgrade(n))
    case None =>
      var pa, wa := Tally(catalog, names, Power, Grants), Tally(catalog, names, Workforce, Grants);
      var pu, wu := Tally(catalog, names, Power, Consumes), Tally(catalog, names, Workforce, Consumes);
      Ok(Usage(base.power, base.workforce, pa, wa, pu, wu,
        base.power + pa - pu, base.workforce + wa - wu, base.power + pa, base.workforce + wa,
        Details(catalog, names)))
  }

  /** The verdicts of can_add_upgrade: accepted with what would remain, or
      the first reason to refuse. */
  datatype Verdict =
    | Accept(powerRemaining: int, workforceRemaining: int)
    | InsufficientPower(need: nat, available: int)
    | InsufficientWorkforce(need: nat, available: int)
    | AlreadyInstalled

  /** can_add_upgrade (upgrade_calculator.py:194-216): looks the upgrade up,
      then the usage; only the positive part of each delta is a cost; the
      power check comes first, then the workforce check, then the
      already-installed check. */
  function CanAddUpgrade(catalog: Catalog, capacities: Capacities, ledger: Ledger, system: string, upgrade: string): Result<Verdict, CalcError> {
    var d :- UpgradeInfo(catalog, upgrade);
    var u :- CapacityUsage(catalog, capacities, ledger, system);
    var powerCost, workforceCost := Part(d.power, Consumes), Part(d.workforce, Consumes);
    var powerRemaining := u.powerAvailable - powerCost;
    var workforceRemaining := u.workforceAvailable - workforceCost;
    if powerRemaining < 0 then Ok(InsufficientPower(powerCost, u.powerAvailable))
    else if workforceRemaining < 0 then Ok(InsufficientWorkforce(workforceCost, u.workforceAvailable))
    else if upgrade in Installed(ledger, system) then Ok(AlreadyInstalled)
    else Ok(Accept(powerRemaining, workforceRemaining))
  }

  /** The ledger with `name` appended to the system's list, which is
      created when absent. */
  function Append(ledger: Ledger, system: string, name: string): Ledger {
    ledger[system := Installed(ledger, system) + [name]]
  }

  /** add_upgrade (upgrade_calculator.py:230-242): the answer and the new
      ledger. A forced add skips the gate entirely; otherwise the gate's
      errors propagate and only an accepted upgrade is appended. */
  function AddUpgrade(catalog: Catalog, capacities: Capacities, ledger: Ledger, system: string, upgrade: string, force: bool): Result<(bool, Ledger), CalcError> {
    if force then Ok((true, Append(ledger, system, upgrade)))
    else
      var verdict :- CanAddUpgrade(catalog, capacities, ledger, system, upgrade);
      if verdict.Accept? then Ok((true, Append(ledger, system, upgrade))) else Ok((false, ledger))
  }

  /** `list.remove(x)`: the list without the first occurrence of `x`. */
  function RemoveFirst(s: seq<string>, x: string): seq<string> {
    if s == [] then []
    else if s[0] == x then s[1..]
    else [s[0]] + RemoveFirst(s[1..], x)
  }

  /** remove_upgrade (upgrade_calculator.py:255-265). */
  function RemoveUpgrade(ledger: Ledger, system: string, upgrade: string): (bool, Ledger) {
    if system !in ledger then (false, ledger)
    else if upgrade !in ledger[system] then (false, ledger)
    else (true, ledger[system := RemoveFirst(ledger[system], upgrade)])
  }

  /** clear_system_upgrades (upgrade_calculator.py:274): the system's list
      becomes empty, created when absent. */
  function Clear(ledger: Ledger, system: string): Ledger {
    ledger[system := []]
  }

  // ---------------------------------------------------------------------
  // Presets (upgrade_calculator.py:353-396).

  /** The outcome of a preset, or of part of one, and the ledger it leaves,
      which also holds when the outcome is an error. */
  datatype Step = Step(outcome: Result<seq<string>, CalcError>, ledger: Ledger)

  const MiningLevels: seq<string> := ["Prospecting Array 3", "Prospecting Array 2", "Prospecting Array 1"]
  const MajorLevels: seq<string> := ["Major Threat 3", "Major Threat 2", "Major Threat 1"]
  const MinorLevels: seq<string> := ["Minor Threat 3", "Minor Threat 2", "Minor Threat 1"]

  /** One level loop: each name is tried with a non-forced add until the
      first that is added; an error aborts the loop. */
  function TryLevels(catalog: Catalog, capacities: Capacities, ledger: Ledger, system: string, names: seq<string>): Step {
    if names == [] then Step(Ok([]), ledger)
    else
      match AddUpgrade(catalog, capacities, ledger, system, names[0], false)
      case Err(e) => Step(Err(e), ledger)
      case Ok(added) =>
        if added.0 then Step(Ok([names[0]]), added.1)
        else TryLevels(catalog, capacities, ledger, system, names[1..])
  }

  /** A second level loop after a first one that did not fail. */
  function AndThen(first: Step, catalog: Catalog, capacities: Capacities, system: string, names: seq<string>): Step {
    match first.outcome
    case Err(_) => first
    case Ok(a) =>
      var second := TryLevels(catalog, capacities, first.ledger, system, names);
      match second.outcome
      case Ok(b) => Step(Ok(a + b), second.ledger)
      case Err(e) => Step(Err(e), second.ledger)
  }

  /** apply_preset: the system is cleared first, whatever the preset; then
      the preset's level loops run; an unknown preset is an error after the
      clear. */
  function PresetRun(catalog: Catalog, capacities: Capacities, ledger: Ledger, system: string, preset: string): Step {
    var cleared := Clear(ledger, system);
    if preset == "max_mining" then TryLevels(catalog, capacities, cleared, system, MiningLevels)
    else if preset == "max_ratting" then
      AndThen(TryLevels(catalog, capacities, cleared, system, MajorLevels), catalog, capacities, system, MinorLevels)
    else if preset == "balanced" then
      AndThen(TryLevels(catalog, capacities, cleared, system, ["Prospecting Array 1"]), catalog, capacities, system, ["Major Threat 1"])
    else if preset == "empty" then Step(Ok([]), cleared)
    else Step(Err(UnknownPreset(preset)), cleared)
  }

  // ---------------------------------------------------------------------
  // The sums.

  lemma {:induction false} TallyConcat(catalog: Catalog, x: seq<string>, y: seq<string>, resource: Resource, side: Side)
    requires Known(catalog, x) && Known(catalog, y)
    ensures Known(catalog, x + y)
    ensures Tally(catalog, x + y, resource, side) == Tally(catalog, x, resource, side) + Tally(catalog, y, resource, side)
    decreases |y|
  {
    if y == [] {
      assert x + y == x;
    } else {
      var init := y[..|y| - 1];
      assert (x + y)[..|x + y| - 1] == x + init;
      TallyConcat(catalog, x, init, resource, side);
    }
  }

  /** Cutting one element out of a list takes it out of the multiset. */
  lemma CutOne(b: seq<string>, i: nat)
    requires i < |b|
    ensures multiset(b[..i] + b[i + 1..]) == multiset(b) - multiset{b[i]}
  {
    assert b == b[..i] + [b[i]] + b[i + 1..];
    assert multiset(b) == multiset(b[..i]) + multiset{b[i]} + multiset(b[i + 1..]);
  }

  /** The element cut out of a list is the difference of the tallies. */
  lemma TallyCut(catalog: Catalog, b: seq<string>, i: nat, resource: Resource, side: Side)
    requires Known(catalog, b) && i < |b|
    ensures Known(catalog, b[..i] + b[i + 1..])
    ensures Tally(catalog, b, resource, side) == Tally(catalog, b[..i] + b[i + 1..], resource, side) + Part(Delta(catalog[b[i]], resource), side)
  {
    var x := b[i];
    assert b == b[..i] + [x] + b[i + 1..];
    assert Known(catalog, b[..i]) && Known(catalog, b[i + 1..]);
    assert [x][..0] == [];
    TallyConcat(catalog, b[..i], [x], resource, side);
    TallyConcat(catalog, b[..i] + [x], b[i + 1..], resource, side);
    TallyConcat(catalog, b[..i], b[i + 1..], resource, side);
  }

  lemma KnownSameMultiset(catalog: Catalog, a: seq<string>, b: seq<string>)
    requires Known(catalog, a) && multiset(a) == multiset(b)
    ensures Known(catalog, b)
  {
    forall n | n in b ensures n in catalog {
      assert n in multiset(b);
      assert n in multiset(a);
    }
  }

  /** The tallies depend only on which upgrades are installed, not on the
      order of the list. */
  lemma {:induction false} TallyPermutation(catalog: Catalog, a: seq<string>, b: seq<string>, resource: Resource, side: Side)
    requires Known(catalog, a) && multiset(a) == multiset(b)
    ensures Known(catalog, b)
    ensures Tally(catalog, a, resource, side) == Tally(catalog, b, resource, side)
    decreases |a|
  {
    KnownSameMultiset(catalog, a, b);
    if a != [] {
      var init, x := a[..|a| - 1], a[|a| - 1];
      assert a == init + [x];
      assert multiset(init) == multiset(a) - multiset{x} by {
        assert multiset(a) == multiset(init) + multiset{x};
      }
      assert Known(catalog, init) by {
        forall n | n in init ensures n in catalog {
          assert n in a;
        }
      }
      assert x in multiset(b);
      var i :| 0 <= i < |b| && b[i] == x;
      CutOne(b, i);
      TallyPermutation(catalog, init, b[..i] + b[i + 1..], resource, side);
      TallyCut(catalog, b, i, resource, side);
      assert Tally(catalog, a, resource, side) == Tally(catalog, init, resource, side) + Part(Delta(catalog[x], resource), side);
    }
  }

  /** Adding capacity and using it net out to the signed sum: what the
      upgrades use minus what they add is the sum of the deltas. */
  lemma {:induction false} TallyNet(catalog: Catalog, names: seq<string>, resource: Resource)
    requires Known(catalog, names)
    ensures Tally(catalog, names, resource, Consumes) - Tally(catalog, names, resource, Grants) == SignedSum(catalog, names, resource)
  {
    if names != [] {
      TallyNet(catalog, names[..|names| - 1], resource);
    }
  }

  lemma {:induction false} DetailsCorrect(catalog: Catalog, names: seq<string>)
    requires Known(catalog, names)
    ensures |Details(catalog, names)| == |names|
    ensures forall i :: 0 <= i < |names| ==>
      Details(catalog, names)[i] == Detail(names[i], catalog[names[i]].power, catalog[names[i]].workforce, catalog[names[i]].category)
  {
    if names != [] {
      DetailsCorrect(catalog, names[..|names| - 1]);
    }
  }

  /** What calculate_capacity_usage reports: an unknown system is the
      first error, then the first unknown installed upgrade; otherwise, per
      resource, total = base + added and available = base + added - used =
      base minus the signed sum of the deltas, and the report lists the
      installed upgrades in installation order. */
  lemma CapacityUsageCorrect(catalog: Catalog, capacities: Capacities, ledger: Ledger, system: string)
    ensures system !in capacities ==> CapacityUsage(catalog, capacities, ledger, system) == Err(UnknownSystem(system))
    ensures system in capacities && !Known(catalog, Installed(ledger, system)) ==>
      CapacityUsage(catalog, capacities, ledger, system) == Err(UnknownUpgrade(FirstUnknown(catalog, Installed(ledger, system)).value))
    ensures CapacityUsage(catalog, capacities, ledger, system).Ok? <==> system in capacities && Known(catalog, Installed(ledger, system))
    ensures CapacityUsage(catalog, capacities, ledger, system).Ok? ==>
      var u, names, base := CapacityUsage(catalog, capacities, ledger, system).value, Installed(ledger, system), capacities[system];
      && u.basePower == base.power && u.baseWorkforce == base.workforce
      && u.powerAdded == Tally(catalog, names, Power, Grants) && u.powerUsed == Tally(catalog, names, Power, Consumes)
      && u.workforceAdded == Tally(catalog, names, Workforce, Grants) && u.workforceUsed == Tally(catalog, names, Workforce, Consumes)
      && u.totalPower == base.power + u.powerAdded && u.totalWorkforce == base.workforce + u.workforceAdded
      && u.powerAvailable == u.totalPower - u.powerUsed && u.workforceAvailable == u.totalWorkforce - u.workforceUsed
      && u.powerAvailable == base.power - SignedSum(catalog, names, Power)
      && u.workforceAvailable == base.workforce - SignedSum(catalog, names, Workforce)
      && |u.upgrades| == |names|
      && forall i :: 0 <= i < |names| ==> u.upgrades[i].name == names[i] && u.upgrades[i].category == catalog[names[i]].category
  {
    var names := Installed(ledger, system);
    if system in capacities && Known(catalog, names) {
      TallyNet(catalog, names, Power);
      TallyNet(catalog, names, Workforce);
      DetailsCorrect(catalog, names);
    }
  }

  /** The worked example: base power 2000 with one upgrade using 500 and
      one adding 300 reports 300 added, 500 used, 2300 in total and 1800
      available. */
  lemma UsageExample(catalog: Catalog, capacities: Capacities, ledger: Ledger, system: string, consumer: string, producer: string)
    requires system in capacities && capacities[system].power == 2000
    requires consumer in catalog && catalog[consumer].power == 500
    requires producer in catalog && catalog[producer].power == -300
    requires Installed(ledger, system) == [consumer, producer]
    ensures CapacityUsage(catalog, capacities, ledger, system).Ok?
    ensures var u := CapacityUsage(catalog, capacities, ledger, system).value;
      u.powerAdded == 300 && u.powerUsed == 500 && u.totalPower == 2300 && u.powerAvailable == 1800
  {
    var names := [consumer, producer];
    assert names[..1] == [consumer] && names[..1][..0] == [];
    assert Tally(catalog, [consumer], Power, Grants) == 0;
    assert Tally(catalog, [consumer], Power, Consumes) == 500;
    assert Tally(catalog, names, Power, Grants) == 300;
    assert Tally(catalog, names, Power, Consumes) == 500;
  }

  /** The usage figures of a report, without its list of upgrades. */
  function Figures(u: Usage): Usage {
    u.(upgrades := [])
  }

  /** The figures depend only on which upgrades are installed: two ledgers
      whose lists for the system hold the same upgrades, in any order, give
      the same figures, or the same kind of failure. */
  lemma UsagePermutation(catalog: Catalog, capacities: Capacities, l1: Ledger, l2: Ledger, system: string)
    requires multiset(Installed(l1, system)) == multiset(Installed(l2, system))
    ensures CapacityUsage(catalog, capacities, l1, system).Ok? <==> CapacityUsage(catalog, capacities, l2, system).Ok?
    ensures CapacityUsage(catalog, capacities, l1, system).Ok? ==>
      Figures(CapacityUsage(catalog, capacities, l1, system).value) == Figures(CapacityUsage(catalog, capacities, l2, system).value)
  {
    var a, b := Installed(l1, system), Installed(l2, system);
    assert Known(catalog, a) <==> Known(catalog, b) by {
      if Known(catalog, a) {
        TallyPermutation(catalog, a, b, Power, Grants);
      }
      if Known(catalog, b) {
        TallyPermutation(catalog, b, a, Power, Grants);
      }
    }
    if system in capacities && Known(catalog, a) {
      TallyPermutation(catalog, a, b, Power, Grants);
      TallyPermutation(catalog, a, b, Power, Consumes);
      TallyPermutation(catalog, a, b, Workforce, Grants);
      TallyPermutation(catalog, a, b, Workforce, Consumes);
    }
  }

  // ---------------------------------------------------------------------
  // The gate and the mutations.

  /** What can_add_upgrade promises: the upgrade lookup fails first, then
      the usage; a verdict refuses for power when the power left after the
      positive part of the delta would be negative, then for workforce,
      then for an upgrade already installed; otherwise it accepts with both
      remaining values, which are not negative. */
  lemma CanAddUpgradeCorrect(catalog: Catalog, capacities: Capacities, ledger: Ledger, system: string, upgrade: string)
    ensures upgrade !in catalog ==> CanAddUpgrade(catalog, capacities, ledger, system, upgrade) == Err(UnknownUpgrade(upgrade))
    ensures upgrade in catalog && CapacityUsage(catalog, capacities, ledger, system).Err? ==>
      CanAddUpgrade(catalog, capacities, ledger, system, upgrade) == Err(CapacityUsage(catalog, capacities, ledger, system).error)
    ensures CanAddUpgrade(catalog, capacities, ledger, system, upgrade).Ok? <==>
      upgrade in catalog && CapacityUsage(catalog, capacities, ledger, system).Ok?
    ensures CanAddUpgrade(catalog, capacities, ledger, system, upgrade).Ok? ==>
      var d, u := catalog[upgrade], CapacityUsage(catalog, capacities, ledger, system).value;
      var pr, wr := u.powerAvailable - Part(d.power, Consumes), u.workforceAvailable - Part(d.workforce, Consumes);
      match CanAddUpgrade(catalog, capacities, ledger, system, upgrade).value
      case InsufficientPower(need, available) => pr < 0 && need == Part(d.power, Consumes) && available == u.powerAvailable
      case InsufficientWorkforce(need, available) => pr >= 0 && wr < 0 && need == Part(d.workforce, Consumes) && available == u.workforceAvailable
      case AlreadyInstalled => pr >= 0 && wr >= 0 && upgrade in Installed(ledger, system)
      case Accept(p, w) => p == pr >= 0 && w == wr >= 0 && upgrade !in Installed(ledger, system)
  {
  }

  /** What add_upgrade promises: a forced add always appends; a non-forced
      add appends exactly when the gate accepts and otherwise changes
      nothing. Appending puts the name at the end of the system's list,
      creating it when absent, and no other system's list changes. */
  lemma AddUpgradeCorrect(catalog: Catalog, capacities: Capacities, ledger: Ledger, system: string, upgrade: string, force: bool)
    ensures force ==> AddUpgrade(catalog, capacities, ledger, system, upgrade, force) == Ok((true, Append(ledger, system, upgrade)))
    ensures !force ==>
      match CanAddUpgrade(catalog, capacities, ledger, system, upgrade)
      case Err(e) => AddUpgrade(catalog, capacities, ledger, system, upgrade, force) == Err(e)
      case Ok(v) =>
        AddUpgrade(catalog, capacities, ledger, system, upgrade, force)
          == if v.Accept? then Ok((true, Append(ledger, system, upgrade))) else Ok((false, ledger))
    ensures var l := Append(ledger, system, upgrade);
      && system in l && l[system] == Installed(ledger, system) + [upgrade]
      && (forall s :: s != system ==> (s in l <==> s in ledger) && (s in ledger ==> l[s] == ledger[s]))
  {
  }

  /** Appending a catalogued upgrade lowers each available value by the
      upgrade's signed delta. */
  lemma AppendAvailable(catalog: Catalog, capacities: Capacities, ledger: Ledger, system: string, upgrade: string)
    requires CapacityUsage(catalog, capacities, ledger, system).Ok? && upgrade in catalog
    ensures CapacityUsage(catalog, capacities, Append(ledger, system, upgrade), system).Ok?
    ensures var u, v := CapacityUsage(catalog, capacities, ledger, system).value, CapacityUsage(catalog, capacities, Append(ledger, system, upgrade), system).value;
      && v.powerAvailable == u.powerAvailable - Delta(catalog[upgrade], Power)
      && v.workforceAvailable == u.workforceAvailable - Delta(catalog[upgrade], Workforce)
  {
    var names := Installed(ledger, system);
    var l := Append(ledger, system, upgrade);
    CapacityUsageCorrect(catalog, capacities, ledger, system);
    CapacityUsageCorrect(catalog, capacities, l, system);
    assert Installed(l, system) == names + [upgrade];
    assert (names + [upgrade])[..|names|] == names;
    assert Known(catalog, names + [upgrade]);
  }

  /** After a non-forced add succeeds, neither resource is over capacity. */
  lemma AddKeepsCapacity(catalog: Catalog, capacities: Capacities, ledger: Ledger, system: string, upgrade: string)
    requires AddUpgrade(catalog, capacities, ledger, system, upgrade, false) == Ok((true, Append(ledger, system, upgrade)))
    ensures CapacityUsage(catalog, capacities, Append(ledger, system, upgrade), system).Ok?
    ensures var u := CapacityUsage(catalog, capacities, Append(ledger, system, upgrade), system).value;
      u.powerAvailable >= 0 && u.workforceAvailable >= 0
  {
    assert CanAddUpgrade(catalog, capacities, ledger, system, upgrade).Ok?;
    AppendAvailable(catalog, capacities, ledger, system, upgrade);
  }

  /** `list.remove(x)` cuts the list at the first occurrence of `x`. */
  lemma {:induction false} RemoveFirstSplit(s: seq<string>, x: string) returns (i: nat)
    requires x in s
    ensures i < |s| && s[i] == x && x !in s[..i]
    ensures RemoveFirst(s, x) == s[..i] + s[i + 1..]
  {
    if s[0] == x {
      i := 0;
      assert s[..0] == [] && s[0 + 1..] == s[1..];
    } else {
      assert s == [s[0]] + s[1..];
      var j := RemoveFirstSplit(s[1..], x);
      i := j + 1;
      assert s[..i] == [s[0]] + s[1..][..j];
      assert s[i + 1..] == s[1..][j + 1..];
    }
  }

  lemma RemoveFirstCorrect(s: seq<string>, x: string)
    requires x in s
    ensures |RemoveFirst(s, x)| == |s| - 1
    ensures multiset(RemoveFirst(s, x)) == multiset(s) - multiset{x}
    ensures exists i :: 0 <= i < |s| && s[i] == x && x !in s[..i] && RemoveFirst(s, x) == s[..i] + s[i + 1..]
  {
    var i := RemoveFirstSplit(s, x);
    assert s == s[..i] + [x] + s[i + 1..];
    assert multiset(s) == multiset(s[..i]) + multiset{x} + multiset(s[i + 1..]);
  }

  /** What remove_upgrade promises: it refuses, changing nothing, when the
      system has no list or the name is not in it; otherwise it removes the
      first occurrence only, so the list is one shorter, and no other
      system's list changes. */
  lemma RemoveUpgradeCorrect(ledger: Ledger, system: string, upgrade: string)
    ensures var (removed, l) := RemoveUpgrade(ledger, system, upgrade);
      && (removed <==> system in ledger && upgrade in ledger[system])
      && (!removed ==> l == ledger)
      && (removed ==>
            && l.Keys == ledger.Keys
            && |l[system]| == |ledger[system]| - 1
            && multiset(l[system]) == multiset(ledger[system]) - multiset{upgrade}
            && (exists i :: 0 <= i < |ledger[system]| && ledger[system][i] == upgrade && upgrade !in ledger[system][..i]
                  && l[system] == ledger[system][..i] + ledger[system][i + 1..])
            && forall s :: s in ledger && s != system ==> l[s] == ledger[s])
  {
    if system in ledger && upgrade in ledger[system] {
      RemoveFirstCorrect(ledger[system], upgrade);
    }
  }

  /** Removing an installed upgrade and adding it back (forced, or through
      the gate) restores the usage figures. */
  lemma RemoveThenAddRestores(catalog: Catalog, capacities: Capacities, ledger: Ledger, system: string, upgrade: string)
    requires system in ledger && upgrade in ledger[system]
    ensures var l := Append(RemoveUpgrade(ledger, system, upgrade).1, system, upgrade);
      && (CapacityUsage(catalog, capacities, l, system).Ok? <==> CapacityUsage(catalog, capacities, ledger, system).Ok?)
      && (CapacityUsage(catalog, capacities, l, system).Ok? ==>
            Figures(CapacityUsage(catalog, capacities, l, system).value) == Figures(CapacityUsage(catalog, capacities, ledger, system).value))
  {
    var s := ledger[system];
    var l := Append(RemoveUpgrade(ledger, system, upgrade).1, system, upgrade);
    RemoveFirstCorrect(s, upgrade);
    assert Installed(l, system) == RemoveFirst(s, upgrade) + [upgrade];
    assert multiset(Installed(l, system)) == multiset(Installed(ledger, system));
    UsagePermutation(catalog, capacities, l, ledger, system);
  }

  // ---------------------------------------------------------------------
  // What the presets promise.

  /** A refused non-forced add on `ledger`. */
  predicate Refused(catalog: Catalog, capacities: Capacities, ledger: Ledger, system: string, upgrade: string) {
    AddUpgrade(catalog, capacities, ledger, system, upgrade, false) == Ok((false, ledger))
  }

  /** One level loop adds at most one name: the first that the gate
      accepts, after every earlier one was refused; when it adds nothing
      every name was refused and the ledger is unchanged; an error is the
      error of the first name that is neither refused nor accepted. */
  lemma {:induction false} TryLevelsCorrect(catalog: Catalog, capacities: Capacities, ledger: Ledger, system: string, names: seq<string>)
    ensures var st := TryLevels(catalog, capacities, ledger, system, names);
      match st.outcome
      case Err(e) =>
        && st.ledger == ledger
        && exists i :: 0 <= i < |names| && AddUpgrade(catalog, capacities, ledger, system, names[i], false) == Err(e)
             && forall j :: 0 <= j < i ==> Refused(catalog, capacities, ledger, system, names[j])
      case Ok(added) =>
        && |added| <= 1
        && (added == [] ==> st.ledger == ledger && forall j :: 0 <= j < |names| ==> Refused(catalog, capacities, ledger, system, names[j]))
        && (added != [] ==>
              && st.ledger == Append(ledger, system, added[0])
              && AddUpgrade(catalog, capacities, ledger, system, added[0], false) == Ok((true, st.ledger))
              && exists i :: 0 <= i < |names| && names[i] == added[0]
                   && forall j :: 0 <= j < i ==> Refused(catalog, capacities, ledger, system, names[j]))
  {
    if names != [] {
      TryLevelsCorrect(catalog, capacities, ledger, system, names[1..]);
      var first := AddUpgrade(catalog, capacities, ledger, system, names[0], false);
      if first.Ok? && !first.value.0 {
        assert first.value.1 == ledger;
        var st := TryLevels(catalog, capacities, ledger, system, names[1..]);
        match st.outcome
        case Err(e) =>
          var i :| 0 <= i < |names[1..]| && AddUpgrade(catalog, capacities, ledger, system, names[1..][i], false) == Err(e)
            && forall j :: 0 <= j < i ==> Refused(catalog, capacities, ledger, system, names[1..][j]);
          assert names[i + 1] == names[1..][i];
          forall j | 0 <= j < i + 1 ensures Refused(catalog, capacities, ledger, system, names[j]) {
            if j > 0 {
              assert names[j] == names[1..][j - 1];
            }
          }
        case Ok(added) =>
          if added != [] {
            var i :| 0 <= i < |names[1..]| && names[1..][i] == added[0]
              && forall j :: 0 <= j < i ==> Refused(catalog, capacities, ledger, system, names[1..][j]);
            assert names[i + 1] == added[0];
            forall j | 0 <= j < i + 1 ensures Refused(catalog, capacities, ledger, system, names[j]) {
              if j > 0 {
                assert names[j] == names[1..][j - 1];
              }
            }
          } else {
            forall j | 0 <= j < |names| ensures Refused(catalog, capacities, ledger, system, names[j]) {
              if j > 0 {
                assert names[j] == names[1..][j - 1];
              }
            }
          }
      }
    }
  }

  /** An unknown preset clears the system and then fails. */
  lemma UnknownPresetClears(catalog: Catalog, capacities: Capacities, ledger: Ledger, system: string, preset: string)
    requires preset !in {"max_mining", "max_ratting", "balanced", "empty"}
    ensures PresetRun(catalog, capacities, ledger, system, preset) == Step(Err(UnknownPreset(preset)), ledger[system := []])
  {
  }

  /** A level loop that did not fail appends what it added to the
      system's list. */
  lemma LevelsLedger(catalog: Catalog, capacities: Capacities, ledger: Ledger, system: string, names: seq<string>)
    requires system in ledger
    requires TryLevels(catalog, capacities, ledger, system, names).outcome.Ok?
    ensures var st := TryLevels(catalog, capacities, ledger, system, names);
      st.ledger == ledger[system := ledger[system] + st.outcome.value]
  {
    TryLevelsCorrect(catalog, capacities, ledger, system, names);
    var st := TryLevels(catalog, capacities, ledger, system, names);
    var added := st.outcome.value;
    if added == [] {
      assert ledger[system] + added == ledger[system];
    } else {
      assert added == [added[0]];
    }
  }

  /** After a successful preset the system's list is exactly the returned
      list of added upgrades, and no other system's list changed. */
  lemma PresetLedger(catalog: Catalog, capacities: Capacities, ledger: Ledger, system: string, preset: string)
    requires PresetRun(catalog, capacities, ledger, system, preset).outcome.Ok?
    ensures var st := PresetRun(catalog, capacities, ledger, system, preset);
      st.ledger == ledger[system := st.outcome.value]
  {
    var cleared := Clear(ledger, system);
    if preset == "max_mining" {
      LevelsLedger(catalog, capacities, cleared, system, MiningLevels);
      var st := TryLevels(catalog, capacities, cleared, system, MiningLevels);
      assert [] + st.outcome.value == st.outcome.value;
    } else if preset == "max_ratting" {
      ThenLedger(catalog, capacities, cleared, system, MajorLevels, MinorLevels);
    } else if preset == "balanced" {
      ThenLedger(catalog, capacities, cleared, system, ["Prospecting Array 1"], ["Major Threat 1"]);
    }
  }

  lemma ThenLedger(catalog: Catalog, capacities: Capacities, cleared: Ledger, system: string, first: seq<string>, second: seq<string>)
    requires system in cleared && cleared[system] == []
    requires AndThen(TryLevels(catalog, capacities, cleared, system, first), catalog, capacities, system, second).outcome.Ok?
    ensures var st := AndThen(TryLevels(catalog, capacities, cleared, system, first), catalog, capacities, system, second);
      st.ledger == cleared[system := st.outcome.value]
  {
    var st1 := TryLevels(catalog, capacities, cleared, system, first);
    LevelsLedger(catalog, capacities, cleared, system, first);
    var a := st1.outcome.value;
    assert [] + a == a;
    assert st1.ledger == cleared[system := a];
    LevelsLedger(catalog, capacities, st1.ledger, system, second);
  }

  /** max_mining adds at most one Prospecting Array: the highest level the
      gate accepts on the cleared system, every higher level having been
      refused; it adds none only when all three were refused. */
  lemma MaxMiningPreset(catalog: Catalog, capacities: Capacities, ledger: Ledger, system: string)
    requires PresetRun(catalog, capacities, ledger, system, "max_mining").outcome.Ok?
    ensures var added := PresetRun(catalog, capacities, ledger, system, "max_mining").outcome.value;
      && |added| <= 1
      && (added == [] ==> forall j :: 0 <= j < 3 ==> Refused(catalog, capacities, Clear(ledger, system), system, MiningLevels[j]))
      && (added != [] ==>
            exists i :: 0 <= i < 3 && added == [MiningLevels[i]]
              && AddUpgrade(catalog, capacities, Clear(ledger, system), system, MiningLevels[i], false).Ok?
              && AddUpgrade(catalog, capacities, Clear(ledger, system), system, MiningLevels[i], false).value.0
              && forall j :: 0 <= j < i ==> Refused(catalog, capacities, Clear(ledger, system), system, MiningLevels[j]))
  {
    TryLevelsCorrect(catalog, capacities, Clear(ledger, system), system, MiningLevels);
    var added := PresetRun(catalog, capacities, ledger, system, "max_mining").outcome.value;
    if added != [] {
      assert added == [added[0]];
    }
  }

  /** What one level loop picked on `ledger`: nothing, with every level
      refused, or the one level the gate accepts first, every earlier level
      having been refused. */
  predicate FirstAccepted(catalog: Catalog, capacities: Capacities, ledger: Ledger, system: string, levels: seq<string>, picked: seq<string>) {
    if picked == [] then
      forall j :: 0 <= j < |levels| ==> Refused(catalog, capacities, ledger, system, levels[j])
    else
      && |picked| == 1
      && exists i :: 0 <= i < |levels| && levels[i] == picked[0]
           && AddUpgrade(catalog, capacities, ledger, system, levels[i], false) == Ok((true, Append(ledger, system, levels[i])))
           && forall j :: 0 <= j < i ==> Refused(catalog, capacities, ledger, system, levels[j])
  }

  /** A level loop that did not fail picked by `FirstAccepted` and
      appended its pick to the system's list. */
  lemma LevelsFirstAccepted(catalog: Catalog, capacities: Capacities, ledger: Ledger, system: string, names: seq<string>)
    requires TryLevels(catalog, capacities, ledger, system, names).outcome.Ok?
    ensures var st := TryLevels(catalog, capacities, ledger, system, names);
      && FirstAccepted(catalog, capacities, ledger, system, names, st.outcome.value)
      && (st.outcome.value == [] ==> st.ledger == ledger)
      && (st.outcome.value != [] ==> st.ledger == Append(ledger, system, st.outcome.value[0]))
  {
    TryLevelsCorrect(catalog, capacities, ledger, system, names);
  }

  /** A level loop on a cleared system leaves the system holding exactly
      its pick. */
  lemma ClearedFirstAccepted(catalog: Catalog, capacities: Capacities, ledger: Ledger, system: string, names: seq<string>)
    requires TryLevels(catalog, capacities, Clear(ledger, system), system, names).outcome.Ok?
    ensures var st := TryLevels(catalog, capacities, Clear(ledger, system), system, names);
      && FirstAccepted(catalog, capacities, Clear(ledger, system), system, names, st.outcome.value)
      && st.ledger == ledger[system := st.outcome.value]
  {
    var cleared := Clear(ledger, system);
    LevelsFirstAccepted(catalog, capacities, cleared, system, names);
    var st := TryLevels(catalog, capacities, cleared, system, names);
    var a := st.outcome.value;
    if a != [] {
      assert a == [a[0]];
      assert Installed(cleared, system) + [a[0]] == a;
    }
  }

  /** Two level loops after a clear: the names added split into what the
      first loop picked on the cleared system and what the second loop
      picked on the system holding only the first loop's pick. */
  lemma ThenFirstAccepted(catalog: Catalog, capacities: Capacities, ledger: Ledger, system: string, first: seq<string>, second: seq<string>)
    requires AndThen(TryLevels(catalog, capacities, Clear(ledger, system), system, first), catalog, capacities, system, second).outcome.Ok?
    ensures var added := AndThen(TryLevels(catalog, capacities, Clear(ledger, system), system, first), catalog, capacities, system, second).outcome.value;
      exists k :: 0 <= k <= |added|
        && FirstAccepted(catalog, capacities, Clear(ledger, system), system, first, added[..k])
        && FirstAccepted(catalog, capacities, ledger[system := added[..k]], system, second, added[k..])
  {
    var st1 := TryLevels(catalog, capacities, Clear(ledger, system), system, first);
    ClearedFirstAccepted(catalog, capacities, ledger, system, first);
    var a := st1.outcome.value;
    LevelsFirstAccepted(catalog, capacities, st1.ledger, system, second);
    var b := TryLevels(catalog, capacities, st1.ledger, system, second).outcome.value;
    var added := AndThen(st1, catalog, capacities, system, second).outcome.value;
    assert added == a + b;
    assert added[..|a|] == a && added[|a|..] == b;
  }

  /** max_ratting adds at most one Major Threat followed by at most one
      Minor Threat: the first of levels 3, 2, 1 the gate accepts on the
      cleared system, then the first of levels 3, 2, 1 it accepts on the
      system holding only that Major Threat. */
  lemma MaxRattingPreset(catalog: Catalog, capacities: Capacities, ledger: Ledger, system: string)
    requires PresetRun(catalog, capacities, ledger, system, "max_ratting").outcome.Ok?
    ensures var added := PresetRun(catalog, capacities, ledger, system, "max_ratting").outcome.value;
      && |added| <= 2
      && (|added| == 1 ==> added[0] in MajorLevels || added[0] in MinorLevels)
      && (|added| == 2 ==> added[0] in MajorLevels && added[1] in MinorLevels)
      && exists k :: 0 <= k <= |added|
           && FirstAccepted(catalog, capacities, Clear(ledger, system), system, MajorLevels, added[..k])
           && FirstAccepted(catalog, capacities, ledger[system := added[..k]], system, MinorLevels, added[k..])
  {
    var cleared := Clear(ledger, system);
    var st1 := TryLevels(catalog, capacities, cleared, system, MajorLevels);
    TryLevelsCorrect(catalog, capacities, cleared, system, MajorLevels);
    TryLevelsCorrect(catalog, capacities, st1.ledger, system, MinorLevels);
    var a := st1.outcome.value;
    var b := TryLevels(catalog, capacities, st1.ledger, system, MinorLevels).outcome.value;
    assert a != [] ==> a == [a[0]] && a[0] in MajorLevels;
    assert b != [] ==> b == [b[0]] && b[0] in MinorLevels;
    ThenFirstAccepted(catalog, capacities, ledger, system, MajorLevels, MinorLevels);
  }

  /** balanced tries Prospecting Array 1 on the cleared system, then Major
      Threat 1 on the system holding whatever the first attempt added. */
  lemma BalancedPreset(catalog: Catalog, capacities: Capacities, ledger: Ledger, system: string)
    requires PresetRun(catalog, capacities, ledger, system, "balanced").outcome.Ok?
    ensures var added := PresetRun(catalog, capacities, ledger, system, "balanced").outcome.value;
      exists k :: 0 <= k <= |added|
        && FirstAccepted(catalog, capacities, Clear(ledger, system), system, ["Prospecting Array 1"], added[..k])
        && FirstAccepted(catalog, capacities, ledger[system := added[..k]], system, ["Major Threat 1"], added[k..])
  {
    ThenFirstAccepted(catalog, capacities, ledger, system, ["Prospecting Array 1"], ["Major Threat 1"]);
  }

  /** A preset that added anything leaves the system within capacity. */
  lemma PresetWithinCapacity(catalog: Catalog, capacities: Capacities, ledger: Ledger, system: string, preset: string)
    requires PresetRun(catalog, capacities, ledger, system, preset).outcome.Ok?
    requires PresetRun(catalog, capacities, ledger, system, preset).outcome.value != []
    ensures var st := PresetRun(catalog, capacities, ledger, system, preset);
      && CapacityUsage(catalog, capacities, st.ledger, system).Ok?
      && CapacityUsage(catalog, capacities, st.ledger, system).value.powerAvailable >= 0
      && CapacityUsage(catalog, capacities, st.ledger, system).value.workforceAvailable >= 0
  {
    var cleared := Clear(ledger, system);
    if preset == "max_mining" {
      LevelsWithinCapacity(catalog, capacities, cleared, system, MiningLevels);
    } else if preset == "max_ratting" {
      ThenWithinCapacity(catalog, capacities, cleared, system, MajorLevels, MinorLevels);
    } else {
      ThenWithinCapacity(catalog, capacities, cleared, system, ["Prospecting Array 1"], ["Major Threat 1"]);
    }
  }

  lemma LevelsWithinCapacity(catalog: Catalog, capacities: Capacities, ledger: Ledger, system: string, names: seq<string>)
    requires TryLevels(catalog, capacities, ledger, system, names).outcome.Ok?
    requires TryLevels(catalog, capacities, ledger, system, names).outcome.value != []
    ensures var l := TryLevels(catalog, capacities, ledger, system, names).ledger;
      && CapacityUsage(catalog, capacities, l, system).Ok?
      && CapacityUsage(catalog, capacities, l, system).value.powerAvailable >= 0
      && CapacityUsage(catalog, capacities, l, system).value.workforceAvailable >= 0
  {
    TryLevelsCorrect(catalog, capacities, ledger, system, names);
    var added := TryLevels(catalog, capacities, ledger, system, names).outcome.value;
    AddKeepsCapacity(catalog, capacities, ledger, system, added[0]);
  }

  lemma ThenWithinCapacity(catalog: Catalog, capacities: Capacities, ledger: Ledger, system: string, first: seq<string>, second: seq<string>)
    requires AndThen(TryLevels(catalog, capacities, ledger, system, first), catalog, capacities, system, second).outcome.Ok?
    requires AndThen(TryLevels(catalog, capacities, ledger, system, first), catalog, capacities, system, second).outcome.value != []
    ensures var l := AndThen(TryLevels(catalog, capacities, ledger, system, first), catalog, capacities, system, second).ledger;
      && CapacityUsage(catalog, capacities, l, system).Ok?
      && CapacityUsage(catalog, capacities, l, system).value.powerAvailable >= 0
      && CapacityUsage(catalog, capacities, l, system).value.workforceAvailable >= 0
  {
    var st1 := TryLevels(catalog, capacities, ledger, system, first);
    TryLevelsCorrect(catalog, capacities, ledger, system, first);
    var st2 := TryLevels(catalog, capacities, st1.ledger, system, second);
    TryLevelsCorrect(catalog, capacities, st1.ledger, system, second);
    if st2.outcome.value != [] {
      LevelsWithinCapacity(catalog, capacities, st1.ledger, system, second);
    } else {
      assert st1.outcome.value != [];
      LevelsWithinCapacity(catalog, capacities, ledger, system, first);
    }
  }
}
