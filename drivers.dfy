/** Driver discovery and ordering (Access.cs, FilterDriversForAccess and
    GetConnectionStrings): which installed ODBC drivers can open an Access
    file, and the ordered list of connection strings OpenDatabase tries. */
module Drivers {
  import opened Failures
  import opened Text

  /** The pre-2010 ("2000") Access driver. */
  const Access2000Driver := "Microsoft Access Driver (*.mdb)"
  /** The 2010 Access driver, which also opens .accdb files. */
  const Access2010Driver := "Microsoft Access Driver (*.mdb, *.accdb)"

  /** The four values read from the per-user configuration key. The force
      values are integers there; a flag is on only when its value is 1. A
      missing value reads as "" or 0. The 32-bit or 64-bit variant of the
      first two is chosen by the caller. */
  datatype DriverSettings = DriverSettings(
    driverName: string,
    forceDriverName: int,
    force2000DriverName: int,
    force2010DriverName: int)

  predicate IsOn(value: int) { value == 1 }

  /** A driver whose lower-cased name mentions the vendor, the product and
      the .mdb file pattern. */
  predicate IsAccessDriver(name: string)
  {
    var lower := Lower(name);
    Contains(lower, "microsoft") && Contains(lower, "access") && Contains(lower, "*.mdb")
  }

  /** The Access drivers among `drivers`, in their order. */
  function AccessDrivers(drivers: seq<string>): seq<string>
    decreases |drivers|
  {
    if |drivers| == 0 then []
    else
      var last := drivers[|drivers| - 1];
      AccessDrivers(drivers[..|drivers| - 1]) + (if IsAccessDriver(last) then [last] else [])
  }

  method FilterDriversForAccess(drivers: Option<seq<string>>) returns (ret: seq<string>)
    ensures drivers.None? ==> ret == []
    ensures drivers.Some? ==> ret == AccessDrivers(drivers.value)
  {
    ret := [];
    if drivers.None? {
      return;
    }
    var ds := drivers.value;
    var i := 0;
    while i < |ds|
      invariant 0 <= i <= |ds|
      invariant ret == AccessDrivers(ds[..i])
    {
      assert ds[..i + 1][..i] == ds[..i];
      var lower := Lower(ds[i]);
      if Contains(lower, "microsoft") && Contains(lower, "access") && Contains(lower, "*.mdb") {
        ret := ret + [ds[i]];
      }
      i := i + 1;
    }
    assert ds[..i] == ds;
  }

  /** `idx` picks the elements of `sub` out of `s`, at strictly increasing positions. */
  ghost predicate PicksOut(sub: seq<string>, s: seq<string>, idx: seq<nat>)
  {
    && |idx| == |sub|
    && (forall k :: 0 <= k < |idx| ==> idx[k] < |s| && s[idx[k]] == sub[k])
    && (forall k, l :: 0 <= k < l < |idx| ==> idx[k] < idx[l])
  }

  ghost predicate IsSubsequence(sub: seq<string>, s: seq<string>)
  {
    exists idx :: PicksOut(sub, s, idx)
  }

  /** The filter keeps an order-preserving selection of its input. */
  lemma {:induction false} AccessDriversPicksOut(drivers: seq<string>) returns (idx: seq<nat>)
    ensures PicksOut(AccessDrivers(drivers), drivers, idx)
    ensures forall k :: 0 <= k < |idx| ==> IsAccessDriver(drivers[idx[k]])
    decreases |drivers|
  {
    if |drivers| == 0 {
      idx := [];
    } else {
      var n := |drivers| - 1;
      var init := drivers[..n];
      var prev := AccessDriversPicksOut(init);
      if IsAccessDriver(drivers[n]) {
        idx := prev + [n];
      } else {
        idx := prev;
      }
    }
  }

  lemma AccessDriversSubsequence(drivers: seq<string>)
    ensures IsSubsequence(AccessDrivers(drivers), drivers)
  {
    var idx := AccessDriversPicksOut(drivers);
  }

  /** A driver name is kept exactly when it is installed and is an Access
      driver, and it is kept as often as it is installed. */
  lemma {:induction false} AccessDriversKeeps(drivers: seq<string>)
    ensures forall d :: d in AccessDrivers(drivers) <==> d in drivers && IsAccessDriver(d)
    ensures forall d :: multiset(AccessDrivers(drivers))[d] ==
                        if IsAccessDriver(d) then multiset(drivers)[d] else 0
    decreases |drivers|
  {
    if |drivers| > 0 {
      var n := |drivers| - 1;
      AccessDriversKeeps(drivers[..n]);
      assert drivers == drivers[..n] + [drivers[n]];
    }
  }

  /** Connection string for `driver` and the database file `filename`: the
      template "Driver={{{1}}};DBQ={0}" filled in. */
  function ConnectionString(filename: string, driver: string): string
  {
    DriverOpen + driver + DriverClose + filename
  }

  const DriverOpen := "Driver={"
  const DriverClose := "};DBQ="

  /** `list` with `name` put at its front when `wanted` and not yet present,
      as List.Insert(0, name) after a Contains test. */
  function InsertFrontIfAbsent(wanted: bool, name: string, list: seq<string>): seq<string>
  {
    if wanted && name !in list then [name] + list else list
  }

  /** The configured driver, when one is named. */
  function Configured(settings: DriverSettings): seq<string>
  {
    if settings.driverName != "" then [settings.driverName] else []
  }

  /** The filtered catalog with the 2000 driver and then the 2010 driver put
      at its front on request. */
  function WithFamilies(settings: DriverSettings, filtered: seq<string>): seq<string>
  {
    var with2000 := InsertFrontIfAbsent(IsOn(settings.force2000DriverName), Access2000Driver, filtered);
    InsertFrontIfAbsent(IsOn(settings.force2010DriverName), Access2010Driver, with2000)
  }

  /** The drivers tried, in order: the configured one, and unless that one is
      forced, the installed Access drivers with the family drivers added. */
  function CandidateDrivers(settings: DriverSettings, installed: seq<string>): seq<string>
  {
    Configured(settings)
    + (if IsOn(settings.forceDriverName) then [] else WithFamilies(settings, AccessDrivers(installed)))
  }

  /** The connection string of each driver, in order. */
  function ConnectionStringsFor(filename: string, drivers: seq<string>): (r: seq<string>)
    ensures |r| == |drivers|
    decreases |drivers|
  {
    if |drivers| == 0 then []
    else ConnectionStringsFor(filename, drivers[..|drivers| - 1]) + [ConnectionString(filename, drivers[|drivers| - 1])]
  }

  lemma {:induction false} ConnectionStringsForAt(filename: string, drivers: seq<string>, k: nat)
    requires k < |drivers|
    ensures ConnectionStringsFor(filename, drivers)[k] == ConnectionString(filename, drivers[k])
    decreases |drivers|
  {
    var n := |drivers| - 1;
    if k < n {
      ConnectionStringsForAt(filename, drivers[..n], k);
    }
  }

  lemma ConnectionStringsForStep(filename: string, drivers: seq<string>, i: nat)
    requires i < |drivers|
    ensures ConnectionStringsFor(filename, drivers[..i + 1]) ==
            ConnectionStringsFor(filename, drivers[..i]) + [ConnectionString(filename, drivers[i])]
  {
    assert drivers[..i + 1][..i] == drivers[..i];
  }

  lemma {:induction false} ConnectionStringsForAppend(filename: string, a: seq<string>, b: seq<string>)
    ensures ConnectionStringsFor(filename, a + b) ==
            ConnectionStringsFor(filename, a) + ConnectionStringsFor(filename, b)
    decreases |b|
  {
    if |b| > 0 {
      var n := |b| - 1;
      assert (a + b)[..|a + b| - 1] == a + b[..n];
      ConnectionStringsForAppend(filename, a, b[..n]);
      AppendAssociates(ConnectionStringsFor(filename, a), ConnectionStringsFor(filename, b[..n]),
                       [ConnectionString(filename, b[n])]);
    } else {
      assert a + b == a;
    }
  }

  function ConnectionStrings(filename: string, settings: DriverSettings, installed: seq<string>): seq<string>
  {
    ConnectionStringsFor(filename, CandidateDrivers(settings, installed))
  }

  method GetConnectionStrings(filename: string, settings: DriverSettings, installed: seq<string>)
    returns (ret: seq<string>)
    ensures ret == ConnectionStrings(filename, settings, installed)
  {
    ret := [];
    var over := settings.driverName;
    if over != "" {
      ret := ret + [ConnectionString(filename, over)];
    }
    assert ret == ConnectionStringsFor(filename, Configured(settings));
    if IsOn(settings.forceDriverName) {
      assert CandidateDrivers(settings, installed) == Configured(settings) + [];
      return;
    }
    var drivers := FilterDriversForAccess(Some(installed));
    if IsOn(settings.force2000DriverName) && Access2000Driver !in drivers {
      drivers := [Access2000Driver] + drivers;
    }
    if IsOn(settings.force2010DriverName) && Access2010Driver !in drivers {
      drivers := [Access2010Driver] + drivers;
    }
    assert drivers == WithFamilies(settings, AccessDrivers(installed));
    ret := AddConnectionStrings(filename, ret, drivers);
    ConnectionStringsForAppend(filename, Configured(settings), drivers);
  }

  /** The last loop of GetConnectionStrings: one connection string per
      driver, appended in order. */
  method AddConnectionStrings(filename: string, start: seq<string>, drivers: seq<string>)
    returns (ret: seq<string>)
    ensures ret == start + ConnectionStringsFor(filename, drivers)
  {
    ret := start;
    var i := 0;
    while i < |drivers|
      invariant 0 <= i <= |drivers|
      invariant ret == start + ConnectionStringsFor(filename, drivers[..i])
    {
      ConnectionStringsForStep(filename, drivers, i);
      AppendAssociates(start, ConnectionStringsFor(filename, drivers[..i]), [ConnectionString(filename, drivers[i])]);
      ret := ret + [ConnectionString(filename, drivers[i])];
      i := i + 1;
    }
    assert drivers[..i] == drivers;
  }

  /** With the force flag on, only the configured driver is tried (nothing at
      all when none is named), whatever is installed. */
  lemma ForcedDriverOnly(filename: string, settings: DriverSettings, installed: seq<string>)
    requires IsOn(settings.forceDriverName)
    ensures ConnectionStrings(filename, settings, installed) ==
            if settings.driverName != "" then [ConnectionString(filename, settings.driverName)] else []
  {
  }

  /** Without the force flag: the configured driver, then the family drivers
      that were requested and are not installed (the 2010 one first), then
      the installed Access drivers in their order. */
  lemma {:induction false} CandidateOrder(settings: DriverSettings, installed: seq<string>)
    requires !IsOn(settings.forceDriverName)
    ensures
      var filtered := AccessDrivers(installed);
      var add2000 := IsOn(settings.force2000DriverName) && Access2000Driver !in filtered;
      var add2010 := IsOn(settings.force2010DriverName) && Access2010Driver !in filtered;
      CandidateDrivers(settings, installed) ==
        (if settings.driverName != "" then [settings.driverName] else [])
        + (if add2010 then [Access2010Driver] else [])
        + (if add2000 then [Access2000Driver] else [])
        + filtered
  {
    var filtered := AccessDrivers(installed);
    var with2000 := InsertFrontIfAbsent(IsOn(settings.force2000DriverName), Access2000Driver, filtered);
    assert Access2010Driver in with2000 <==> Access2010Driver in filtered by {
      assert Access2010Driver != Access2000Driver;
    }
    assert CandidateDrivers(settings, installed) == Configured(settings) + WithFamilies(settings, filtered);
  }

  /** Length of the list: one for a configured driver, one per installed
      Access driver, one per family driver inserted. */
  lemma CandidateCount(filename: string, settings: DriverSettings, installed: seq<string>)
    requires !IsOn(settings.forceDriverName)
    ensures
      var filtered := AccessDrivers(installed);
      var add2000 := IsOn(settings.force2000DriverName) && Access2000Driver !in filtered;
      var add2010 := IsOn(settings.force2010DriverName) && Access2010Driver !in filtered;
      |ConnectionStrings(filename, settings, installed)| ==
        (if settings.driverName != "" then 1 else 0) + |filtered|
        + (if add2000 then 1 else 0) + (if add2010 then 1 else 0)
  {
    CandidateOrder(settings, installed);
  }

  /** A family driver is inserted only on request and only when the filtered
      catalog lacks it verbatim; if present it keeps its catalog place. A
      family driver appears in the list exactly when it was configured,
      installed, or requested. */
  lemma FamilyDriverPresence(settings: DriverSettings, installed: seq<string>)
    requires !IsOn(settings.forceDriverName)
    ensures
      var filtered := AccessDrivers(installed);
      var ds := CandidateDrivers(settings, installed);
      && multiset(ds)[Access2000Driver] ==
           multiset(filtered)[Access2000Driver]
           + (if settings.driverName == Access2000Driver then 1 else 0)
           + (if IsOn(settings.force2000DriverName) && Access2000Driver !in filtered then 1 else 0)
      && multiset(ds)[Access2010Driver] ==
           multiset(filtered)[Access2010Driver]
           + (if settings.driverName == Access2010Driver then 1 else 0)
           + (if IsOn(settings.force2010DriverName) && Access2010Driver !in filtered then 1 else 0)
  {
    var filtered := AccessDrivers(installed);
    var with2000 := InsertFrontIfAbsent(IsOn(settings.force2000DriverName), Access2000Driver, filtered);
    var withBoth := InsertFrontIfAbsent(IsOn(settings.force2010DriverName), Access2010Driver, with2000);
    assert Access2000Driver != Access2010Driver;
    assert CandidateDrivers(settings, installed) == Configured(settings) + withBoth;
    FrontCount(IsOn(settings.force2000DriverName), Access2000Driver, filtered, Access2000Driver);
    FrontCount(IsOn(settings.force2000DriverName), Access2000Driver, filtered, Access2010Driver);
    FrontCount(IsOn(settings.force2010DriverName), Access2010Driver, with2000, Access2000Driver);
    FrontCount(IsOn(settings.force2010DriverName), Access2010Driver, with2000, Access2010Driver);
    assert multiset(CandidateDrivers(settings, installed)) == multiset(Configured(settings)) + multiset(withBoth);
  }

  /** Putting a name at the front adds one occurrence of it and of nothing else. */
  lemma FrontCount(wanted: bool, name: string, list: seq<string>, x: string)
    ensures multiset(InsertFrontIfAbsent(wanted, name, list))[x] ==
            multiset(list)[x] + (if wanted && name !in list && x == name then 1 else 0)
    ensures x in InsertFrontIfAbsent(wanted, name, list) <==> x in list || (wanted && x == name)
  {
  }

  /** Every connection string names the target file and a driver that is the
      configured one, an installed Access driver, or a requested family driver. */
  lemma CandidateOrigins(filename: string, settings: DriverSettings, installed: seq<string>, k: nat)
    requires k < |ConnectionStrings(filename, settings, installed)|
    ensures
      var d := CandidateDrivers(settings, installed)[k];
      && ConnectionStrings(filename, settings, installed)[k] == ConnectionString(filename, d)
      && (|| (d == settings.driverName && d != "")
          || (d in installed && IsAccessDriver(d))
          || (d == Access2000Driver && IsOn(settings.force2000DriverName))
          || (d == Access2010Driver && IsOn(settings.force2010DriverName)))
  {
    AccessDriversKeeps(installed);
    ConnectionStringsForAt(filename, CandidateDrivers(settings, installed), k);
    if !IsOn(settings.forceDriverName) {
      CandidateOrder(settings, installed);
    }
  }

  /** No connection string at all exactly when no driver is configured and
      either the configured driver is forced or nothing is installed and no
      family driver is requested. */
  lemma NoCandidates(filename: string, settings: DriverSettings, installed: seq<string>)
    ensures ConnectionStrings(filename, settings, installed) == [] <==>
      && settings.driverName == ""
      && (|| IsOn(settings.forceDriverName)
          || (&& AccessDrivers(installed) == []
              && !IsOn(settings.force2000DriverName)
              && !IsOn(settings.force2010DriverName)))
  {
    if !IsOn(settings.forceDriverName) {
      CandidateOrder(settings, installed);
    }
  }
}
