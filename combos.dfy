/** The network-free helpers of aqt/generate_combinations.py and its near-copy
    ci/generate_combinations.py: the rows of the combinations document, the tool
    blacklist, and the enumeration of archive ids. */
module Combos {
  import opened Wrappers
  import opened Strs
  import opened Exceptions

  /** Which of the two copies of the script a member follows, where they differ. */
  datatype Copy = Aqt | Ci

  /** A `{"os_name", "target", ["tool_name",] "arch"}` record of the `qt` and `tools` lists. */
  datatype Row = Row(osName: string, target: string, toolName: Option<string>, arch: string)

  /** A `{"qt_version", "modules"}` record of the `modules` list. */
  datatype ModuleRow = ModuleRow(qtVersion: string, modules: seq<string>)

  // ---------------------------------------------------------------- is_blacklisted_tool

  /** Some prefix of the list starts `name`. */
  function AnyPrefix(name: string, prefixes: seq<string>): (r: bool)
    ensures r <==> exists i :: 0 <= i < |prefixes| && StartsWith(name, prefixes[i])
  {
    if prefixes == [] then false
    else StartsWith(name, prefixes[0]) || AnyPrefix(name, prefixes[1..])
  }

  /** Some suffix of the list ends `name`. */
  function AnySuffix(name: string, suffixes: seq<string>): (r: bool)
    ensures r <==> exists i :: 0 <= i < |suffixes| && EndsWith(name, suffixes[i])
  {
    if suffixes == [] then false
    else EndsWith(name, suffixes[0]) || AnySuffix(name, suffixes[1..])
  }

  /** `is_blacklisted_tool(tool_name)`: the loops over the prefix and suffix tuples. A tool
      is skipped exactly when it is a 3D Studio tool, a preview or an early-access build. */
  function IsBlacklistedTool(name: string): (r: bool)
    ensures r <==> StartsWith(name, "tools_qt3dstudio_") || EndsWith(name, "_preview") || EndsWith(name, "_early_access")
  {
    var suffixes := ["_preview", "_early_access"];
    assert EndsWith(name, "_preview") ==> EndsWith(name, suffixes[0]);
    assert EndsWith(name, "_early_access") ==> EndsWith(name, suffixes[1]);
    AnyPrefix(name, ["tools_qt3dstudio_"]) || AnySuffix(name, suffixes)
  }

  // ---------------------------------------------------------------- iter_archive_ids

  datatype ArchiveId = ArchiveId(category: string, host: string, target: string, extension: string)

  /** `iter_extensions()`: the extensions tried for one category and target. */
  function Extensions(category: string, target: string, addExtensions: bool): (r: seq<string>)
    ensures addExtensions && category == "qt6" && target == "android" ==> r == ["x86_64", "x86", "armv7", "arm64_v8a"]
    ensures addExtensions && category == "qt5" && target == "desktop" ==> r == ["wasm", ""]
    ensures !addExtensions ==> r == [""]
    ensures r != [] && r[|r| - 1] in {"", "arm64_v8a"}
  {
    if addExtensions && category == "qt6" && target == "android" then ["x86_64", "x86", "armv7", "arm64_v8a"]
    else if addExtensions && category == "qt5" && target == "desktop" then ["wasm", ""]
    else [""]
  }

  /** There is no Qt 6 for WinRT. */
  predicate Skipped(category: string, target: string) { target == "winrt" && category == "qt6" }

  /** One id per extension, in the order of the extensions. */
  function WithExtensions(category: string, host: string, target: string, exts: seq<string>): (r: seq<ArchiveId>)
    ensures |r| == |exts|
    ensures forall k :: 0 <= k < |r| ==> r[k] == ArchiveId(category, host, target, exts[k])
    ensures forall id :: id in r <==> id.category == category && id.host == host && id.target == target && id.extension in exts
  {
    if exts == [] then []
    else [ArchiveId(category, host, target, exts[0])] + WithExtensions(category, host, target, exts[1..])
  }

  /** `for target in use_targets`, skipping WinRT for Qt 6. */
  function ForTargets(category: string, host: string, targets: seq<string>, addExtensions: bool): (r: seq<ArchiveId>)
    ensures forall id :: id in r <==>
      && id.category == category && id.host == host && id.target in targets
      && !Skipped(category, id.target) && id.extension in Extensions(category, id.target, addExtensions)
  {
    if targets == [] then []
    else
      var rest := ForTargets(category, host, targets[1..], addExtensions);
      if Skipped(category, targets[0]) then rest
      else WithExtensions(category, host, targets[0], Extensions(category, targets[0], addExtensions)) + rest
  }

  /** The targets of a host: the given list, or `ArchiveId.TARGETS_FOR_HOST[host]`. */
  function TargetsOf(host: string, targets: Option<seq<string>>, table: map<string, seq<string>>): (r: Result<seq<string>, Failure>)
    ensures r.Err? <==> targets.None? && host !in table
    ensures r.Err? ==> r.error == KeyError(host)
  {
    match targets
    case Some(ts) => Ok(ts)
    case None => if host in table then Ok(table[host]) else Err(KeyError(host))
  }

  /** `for host in sorted(hosts)`, with the hosts already sorted. */
  function ForHosts(category: string, hosts: seq<string>, targets: Option<seq<string>>,
                    table: map<string, seq<string>>, addExtensions: bool): (r: Result<seq<ArchiveId>, Failure>)
    ensures r.Err? <==> exists i :: 0 <= i < |hosts| && TargetsOf(hosts[i], targets, table).Err?
    ensures r.Ok? ==> forall id :: id in r.value <==>
      && id.category == category && id.host in hosts
      && id.target in TargetsOf(id.host, targets, table).value
      && !Skipped(category, id.target) && id.extension in Extensions(category, id.target, addExtensions)
  {
    if hosts == [] then Ok([])
    else match TargetsOf(hosts[0], targets, table)
      case Err(e) => Err(e)
      case Ok(ts) =>
        match ForHosts(category, hosts[1..], targets, table, addExtensions)
        case Err(e) => Err(e)
        case Ok(rest) =>
          assert forall i :: 1 <= i < |hosts| ==> hosts[i] == hosts[1..][i - 1];
          Ok(ForTargets(category, hosts[0], ts, addExtensions) + rest)
  }

  function ForCategories(categories: seq<string>, hosts: seq<string>, targets: Option<seq<string>>,
                         table: map<string, seq<string>>, addExtensions: bool): (r: Result<seq<ArchiveId>, Failure>)
  {
    if categories == [] then Ok([])
    else match ForHosts(categories[0], hosts, targets, table, addExtensions)
      case Err(e) => Err(e)
      case Ok(ids) =>
        match ForCategories(categories[1..], hosts, targets, table, addExtensions)
        case Err(e) => Err(e)
        case Ok(rest) => Ok(ids + rest)
  }

  /** Everything `list(iter_archive_ids(categories=..., hosts=..., targets=..., add_extensions=...))`
      yields or raises; `table` is `ArchiveId.TARGETS_FOR_HOST`. The ids come category by
      category, then host by host in sorted order, then target by target, then extension by
      extension. */
  function IterArchiveIds(categories: seq<string>, hosts: seq<string>, targets: Option<seq<string>>,
                          table: map<string, seq<string>>, addExtensions: bool): (r: Result<seq<ArchiveId>, Failure>)
    ensures r.Ok? ==> r.value == Nested(categories, Sort(hosts), targets, table, addExtensions)
  {
    ForCategoriesNested(categories, Sort(hosts), targets, table, addExtensions);
    ForCategories(categories, Sort(hosts), targets, table, addExtensions)
  }

  // ---------------------------------------------------------------- the enumeration order

  /** The lists one after the other. */
  function Concat(xss: seq<seq<ArchiveId>>): seq<ArchiveId>
  {
    if xss == [] then [] else xss[0] + Concat(xss[1..])
  }

  /** The ids of one target: none for Qt 6 on WinRT, otherwise one per extension tried. */
  function TargetIds(category: string, host: string, target: string, addExtensions: bool): seq<ArchiveId>
  {
    if Skipped(category, target) then []
    else
      var exts := Extensions(category, target, addExtensions);
      seq(|exts|, k requires 0 <= k < |exts| => ArchiveId(category, host, target, exts[k]))
  }

  /** The targets enumerated for a host, none when it has no list. */
  function HostTargets(host: string, targets: Option<seq<string>>, table: map<string, seq<string>>): seq<string>
  {
    match TargetsOf(host, targets, table)
    case Ok(ts) => ts
    case Err(_) => []
  }

  function TargetsIds(category: string, host: string, ts: seq<string>, addExtensions: bool): seq<ArchiveId>
  {
    Concat(seq(|ts|, k requires 0 <= k < |ts| => TargetIds(category, host, ts[k], addExtensions)))
  }

  function HostsIds(category: string, hosts: seq<string>, targets: Option<seq<string>>,
                    table: map<string, seq<string>>, addExtensions: bool): seq<ArchiveId>
  {
    Concat(seq(|hosts|, j requires 0 <= j < |hosts| =>
      TargetsIds(category, hosts[j], HostTargets(hosts[j], targets, table), addExtensions)))
  }

  /** The four nested loops of the enumeration, written out as one list. */
  function Nested(categories: seq<string>, hosts: seq<string>, targets: Option<seq<string>>,
                  table: map<string, seq<string>>, addExtensions: bool): seq<ArchiveId>
  {
    Concat(seq(|categories|, i requires 0 <= i < |categories| =>
      HostsIds(categories[i], hosts, targets, table, addExtensions)))
  }

  lemma {:induction false} ForTargetsNested(category: string, host: string, ts: seq<string>, addExtensions: bool)
    ensures ForTargets(category, host, ts, addExtensions) == TargetsIds(category, host, ts, addExtensions)
  {
    if ts != [] {
      ForTargetsNested(category, host, ts[1..], addExtensions);
      var f := seq(|ts|, k requires 0 <= k < |ts| => TargetIds(category, host, ts[k], addExtensions));
      assert f[1..] == seq(|ts[1..]|, k requires 0 <= k < |ts[1..]| => TargetIds(category, host, ts[1..][k], addExtensions));
      TargetIdsExtensions(category, host, ts[0], addExtensions);
    }
  }

  lemma TargetIdsExtensions(category: string, host: string, target: string, addExtensions: bool)
    ensures !Skipped(category, target) ==>
      TargetIds(category, host, target, addExtensions) == WithExtensions(category, host, target, Extensions(category, target, addExtensions))
  {
  }

  lemma {:induction false} ForHostsNested(category: string, hosts: seq<string>, targets: Option<seq<string>>,
                                          table: map<string, seq<string>>, addExtensions: bool)
    ensures var r := ForHosts(category, hosts, targets, table, addExtensions);
      r.Ok? ==> r.value == HostsIds(category, hosts, targets, table, addExtensions)
  {
    if hosts != [] && ForHosts(category, hosts, targets, table, addExtensions).Ok? {
      ForHostsNested(category, hosts[1..], targets, table, addExtensions);
      ForTargetsNested(category, hosts[0], HostTargets(hosts[0], targets, table), addExtensions);
      var f := seq(|hosts|, j requires 0 <= j < |hosts| =>
        TargetsIds(category, hosts[j], HostTargets(hosts[j], targets, table), addExtensions));
      assert f[1..] == seq(|hosts[1..]|, j requires 0 <= j < |hosts[1..]| =>
        TargetsIds(category, hosts[1..][j], HostTargets(hosts[1..][j], targets, table), addExtensions));
    }
  }

  lemma {:induction false} ForCategoriesNested(categories: seq<string>, hosts: seq<string>, targets: Option<seq<string>>,
                                               table: map<string, seq<string>>, addExtensions: bool)
    ensures var r := ForCategories(categories, hosts, targets, table, addExtensions);
      r.Ok? ==> r.value == Nested(categories, hosts, targets, table, addExtensions)
  {
    if categories != [] && ForCategories(categories, hosts, targets, table, addExtensions).Ok? {
      ForCategoriesNested(categories[1..], hosts, targets, table, addExtensions);
      ForHostsNested(categories[0], hosts, targets, table, addExtensions);
      var f := seq(|categories|, i requires 0 <= i < |categories| =>
        HostsIds(categories[i], hosts, targets, table, addExtensions));
      assert f[1..] == seq(|categories[1..]|, i requires 0 <= i < |categories[1..]| =>
        HostsIds(categories[1..][i], hosts, targets, table, addExtensions));
    }
  }

  lemma {:induction false} ForCategoriesMembers(categories: seq<string>, hosts: seq<string>, targets: Option<seq<string>>,
                                                table: map<string, seq<string>>, addExtensions: bool)
    ensures var r := ForCategories(categories, hosts, targets, table, addExtensions);
      && (r.Err? <==> categories != [] && exists i :: 0 <= i < |hosts| && TargetsOf(hosts[i], targets, table).Err?)
      && (r.Ok? ==> forall id :: id in r.value <==>
            && id.category in categories && id.host in hosts
            && id.target in TargetsOf(id.host, targets, table).value
            && !Skipped(id.category, id.target) && id.extension in Extensions(id.category, id.target, addExtensions))
  {
    if categories != [] {
      ForCategoriesMembers(categories[1..], hosts, targets, table, addExtensions);
      var r := ForCategories(categories, hosts, targets, table, addExtensions);
      if r.Ok? {
        assert forall c :: c in categories <==> c == categories[0] || c in categories[1..];
      }
    }
  }

  /** The ids enumerated are exactly the combinations of a category, a host, one of the
      host's targets and one of the extensions tried for them, leaving out Qt 6 for WinRT;
      the only failure is a host without a target list when none is given. */
  lemma ArchiveIdMembers(categories: seq<string>, hosts: seq<string>, targets: Option<seq<string>>,
                         table: map<string, seq<string>>, addExtensions: bool)
    ensures var r := IterArchiveIds(categories, hosts, targets, table, addExtensions);
      && (r.Err? <==> categories != [] && targets.None? && exists h :: h in hosts && h !in table)
      && (r.Ok? ==> forall id :: id in r.value <==>
            && id.category in categories && id.host in hosts
            && id.target in TargetsOf(id.host, targets, table).value
            && !Skipped(id.category, id.target) && id.extension in Extensions(id.category, id.target, addExtensions))
  {
    var sorted := Sort(hosts);
    ForCategoriesMembers(categories, sorted, targets, table, addExtensions);
    assert forall h :: h in hosts <==> h in sorted by {
      forall h ensures h in hosts <==> h in multiset(sorted) { }
    }
    if categories != [] && targets.None? && exists h :: h in hosts && h !in table {
      var h :| h in hosts && h !in table;
      var i :| 0 <= i < |sorted| && sorted[i] == h;
      assert TargetsOf(sorted[i], targets, table).Err?;
    }
  }

  /** No Qt 6 archive id for WinRT is ever produced. */
  lemma NoQt6WinRT(categories: seq<string>, hosts: seq<string>, targets: Option<seq<string>>,
                   table: map<string, seq<string>>, addExtensions: bool, id: ArchiveId)
    requires IterArchiveIds(categories, hosts, targets, table, addExtensions).Ok?
    requires id in IterArchiveIds(categories, hosts, targets, table, addExtensions).value
    ensures !(id.category == "qt6" && id.target == "winrt")
  {
    ArchiveIdMembers(categories, hosts, targets, table, addExtensions);
  }
}
