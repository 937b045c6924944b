/** `UpgradeCalculator` (upgrade_calculator.py:23-396) as a class: the
    catalog and the base capacities it loads once, and the per-system lists
    of installed upgrades that its methods update in place. Every method is
    proved against the matching specification function of `Capacity`. */
module UpgradeCalculator {
  import opened Wrappers
  import opened Capacity

  /** `Known` of a longer prefix, once the next name is in the catalog. */
  lemma KnownStep(catalog: Catalog, names: seq<string>, k: nat)
    requires k < |names| && Known(catalog, names[..k]) && names[k] in catalog
    ensures Known(catalog, names[..k + 1])
    ensures names[..k + 1][..k] == names[..k]
  {
    assert names[..k + 1] == names[..k] + [names[k]];
  }

  /** The first name the scan cannot look up is the one the usage reports. */
  lemma FirstUnknownAt(catalog: Catalog, names: seq<string>, k: nat)
    requires k < |names| && Known(catalog, names[..k]) && names[k] !in catalog
    ensures FirstUnknown(catalog, names) == Some(names[k])
  {
    var n := FirstUnknown(catalog, names);
    assert n.Some? by {
      assert names[k] in names;
    }
    var i :| 0 <= i < |names| && names[i] == n.value && n.value !in catalog && Known(catalog, names[..i]);
  }

  class UpgradeCalculator {
    /** The upgrade database and the system database, loaded once. */
    const catalog: Catalog
    const capacities: Capacities
    /** `system_upgrades`: each system's installed upgrades in order. */
    var systemUpgrades: Ledger

    /** A calculator over loaded data with no upgrades installed. */
    constructor(catalog: Catalog, capacities: Capacities)
      ensures this.catalog == catalog && this.capacities == capacities
      ensures systemUpgrades == map[]
    {
      this.catalog := catalog;
      this.capacities := capacities;
      systemUpgrades := map[];
    }

    /** calculate_capacity_usage: the four counters and the detail list
        accumulated over the system's installed upgrades. */
    method CalculateCapacityUsage(system: string) returns (r: Result<Usage, CalcError>)
      ensures r == CapacityUsage(catalog, capacities, systemUpgrades, system)
    {
      var base := SystemCapacity(capacities, system);
      if base.Err? {
        return Err(base.error);
      }
      var names := Installed(systemUpgrades, system);
      var powerAdded, workforceAdded, powerUsed, workforceUsed := 0, 0, 0, 0;
      var details: seq<Detail> := [];
      var k := 0;
      while k < |names|
        invariant 0 <= k <= |names|
        invariant Known(catalog, names[..k])
        invariant powerAdded == Tally(catalog, names[..k], Power, Grants)
        invariant workforceAdded == Tally(catalog, names[..k], Workforce, Grants)
        invariant powerUsed == Tally(catalog, names[..k], Power, Consumes)
        invariant workforceUsed == Tally(catalog, names[..k], Workforce, Consumes)
        invariant details == Details(catalog, names[..k])
      {
        var name := names[k];
        var info := UpgradeInfo(catalog, name);
        if info.Err? {
          FirstUnknownAt(catalog, names, k);
          return Err(info.error);
        }
        var d := info.value;
        KnownStep(catalog, names, k);
        if d.power < 0 {
          powerAdded := powerAdded + -d.power;
        } else {
          powerUsed := powerUsed + d.power;
        }
        if d.workforce < 0 {
          workforceAdded := workforceAdded + -d.workforce;
        } else {
          workforceUsed := workforceUsed + d.workforce;
        }
        details := details + [Detail(name, d.power, d.workforce, d.category)];
        k := k + 1;
      }
      assert names[..k] == names;
      var b := base.value;
      return Ok(Usage(b.power, b.workforce, powerAdded, workforceAdded, powerUsed, workforceUsed,
        b.power + powerAdded - powerUsed, b.workforce + workforceAdded - workforceUsed,
        b.power + powerAdded, b.workforce + workforceAdded, details));
    }

    /** can_add_upgrade: the gate, reading the ledger only. */
    method CanAddUpgrade(system: string, upgrade: string) returns (r: Result<Verdict, CalcError>)
      ensures r == Capacity.CanAddUpgrade(catalog, capacities, systemUpgrades, system, upgrade)
    {
      var info := UpgradeInfo(catalog, upgrade);
      if info.Err? {
        return Err(info.error);
      }
      var usage := CalculateCapacityUsage(system);
      if usage.Err? {
        return Err(usage.error);
      }
      var d, u := info.value, usage.value;
      var powerCost := if d.power > 0 then d.power else 0;
      var workforceCost := if d.workforce > 0 then d.workforce else 0;
      var powerRemaining := u.powerAvailable - powerCost;
      var workforceRemaining := u.workforceAvailable - workforceCost;
      if powerRemaining < 0 {
        return Ok(InsufficientPower(powerCost, u.powerAvailable));
      }
      if workforceRemaining < 0 {
        return Ok(InsufficientWorkforce(workforceCost, u.workforceAvailable));
      }
      if upgrade in Installed(systemUpgrades, system) {
        return Ok(AlreadyInstalled);
      }
      return Ok(Accept(powerRemaining, workforceRemaining));
    }

    /** add_upgrade: the gate unless forced, then an append to the
        system's list, which is created when absent. */
    method AddUpgrade(system: string, upgrade: string, force: bool) returns (r: Result<bool, CalcError>)
      modifies this
      ensures var res := Capacity.AddUpgrade(catalog, capacities, old(systemUpgrades), system, upgrade, force);
        && (res.Err? ==> r == Err(res.error) && systemUpgrades == old(systemUpgrades))
        && (res.Ok? ==> r == Ok(res.value.0) && systemUpgrades == res.value.1)
    {
      if !force {
        var verdict := CanAddUpgrade(system, upgrade);
        if verdict.Err? {
          return Err(verdict.error);
        }
        if !verdict.value.Accept? {
          return Ok(false);
        }
      }
      if system !in systemUpgrades {
        systemUpgrades := systemUpgrades[system := []];
      }
      systemUpgrades := systemUpgrades[system := systemUpgrades[system] + [upgrade]];
      return Ok(true);
    }

    /** remove_upgrade: refuses when the system has no list or the name is
        not in it; otherwise cuts the list at the name's first occurrence. */
    method RemoveUpgrade(system: string, upgrade: string) returns (removed: bool)
      modifies this
      ensures (removed, systemUpgrades) == Capacity.RemoveUpgrade(old(systemUpgrades), system, upgrade)
    {
      if system !in systemUpgrades {
        return false;
      }
      var s := systemUpgrades[system];
      var i := 0;
      while i < |s| && s[i] != upgrade
        invariant 0 <= i <= |s|
        invariant upgrade !in s[..i]
      {
        i := i + 1;
      }
      if i == |s| {
        assert s[..i] == s;
        return false;
      }
      var j := RemoveFirstSplit(s, upgrade);
      assert i == j;
      systemUpgrades := systemUpgrades[system := s[..i] + s[i + 1..]];
      return true;
    }

    /** clear_system_upgrades. */
    method ClearSystemUpgrades(system: string)
      modifies this
      ensures systemUpgrades == Clear(old(systemUpgrades), system)
    {
      systemUpgrades := systemUpgrades[system := []];
    }

    /** One level loop of apply_preset: non-forced adds in order, stopping
        after the first that succeeds. */
    method TryLevels(system: string, names: seq<string>) returns (r: Result<seq<string>, CalcError>)
      modifies this
      ensures Step(r, systemUpgrades) == Capacity.TryLevels(catalog, capacities, old(systemUpgrades), system, names)
    {
      var k := 0;
      while k < |names|
        invariant 0 <= k <= |names|
        invariant systemUpgrades == old(systemUpgrades)
        invariant Capacity.TryLevels(catalog, capacities, systemUpgrades, system, names[k..])
          == Capacity.TryLevels(catalog, capacities, old(systemUpgrades), system, names)
      {
        assert names[k..][0] == names[k] && names[k..][1..] == names[k + 1..];
        var added := AddUpgrade(system, names[k], false);
        if added.Err? {
          return Err(added.error);
        }
        if added.value {
          return Ok([names[k]]);
        }
        k := k + 1;
      }
      return Ok([]);
    }

    /** apply_preset: clears the system, then runs the preset's level loops;
        an unknown preset fails after the clear. */
    method ApplyPreset(system: string, preset: string) returns (r: Result<seq<string>, CalcError>)
      modifies this
      ensures Step(r, systemUpgrades) == PresetRun(catalog, capacities, old(systemUpgrades), system, preset)
    {
      ClearSystemUpgrades(system);
      if preset == "max_mining" {
        r := TryLevels(system, MiningLevels);
      } else if preset == "max_ratting" {
        var a := TryLevels(system, MajorLevels);
        if a.Err? {
          return a;
        }
        var b := TryLevels(system, MinorLevels);
        if b.Err? {
          return Err(b.error);
        }
        r := Ok(a.value + b.value);
      } else if preset == "balanced" {
        var a := TryLevels(system, ["Prospecting Array 1"]);
        if a.Err? {
          return a;
        }
        var b := TryLevels(system, ["Major Threat 1"]);
        if b.Err? {
          return Err(b.error);
        }
        r := Ok(a.value + b.value);
      } else if preset == "empty" {
        r := Ok([]);
      } else {
        r := Err(UnknownPreset(preset));
      }
    }
  }
}
