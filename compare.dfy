/** `compare_combos` and `alphabetize_modules` of aqt/generate_combinations.py and its
    near-copy ci/generate_combinations.py: the comparison of a freshly generated combinations
    document with the stored one, and the normalisation of the stored module lists. */
module Compare {
  import opened Wrappers
  import opened Strs
  import opened Exceptions
  import opened Combos

  /** The value of one key of a combinations document: a list of strings, of
      `{"os_name", "target", ...}` records, or of `{"qt_version", "modules"}` records. */
  datatype Column = Texts(items: seq<string>) | Records(rows: seq<Row>) | Modules(entries: seq<ModuleRow>)

  /** An element of what `to_set` returns: a string, or the `str()` of a record. */
  datatype Item = Text(text: string) | Record(row: Row) | ModuleRecord(entry: ModuleRow)

  function Len(c: Column): nat
  {
    match c
    case Texts(xs) => |xs|
    case Records(rs) => |rs|
    case Modules(ms) => |ms|
  }

  /** `to_set(a_list)`. */
  function ToSet(c: Column): set<Item>
  {
    match c
    case Texts(xs) => set x | x in xs :: Text(x)
    case Records(rs) => set r | r in rs :: Record(r)
    case Modules(ms) => set m | m in ms :: ModuleRecord(m)
  }

  /** Two lists of strings give the same set exactly when they hold the same strings. */
  lemma TextSets(a: seq<string>, b: seq<string>)
    ensures ToSet(Texts(a)) == ToSet(Texts(b)) <==> forall x :: x in a <==> x in b
  {
    if ToSet(Texts(a)) == ToSet(Texts(b)) {
      forall x ensures x in a <==> x in b {
        assert x in a <==> Text(x) in ToSet(Texts(a));
        assert x in b <==> Text(x) in ToSet(Texts(b));
      }
    }
  }

  /** `report_difference(superset, subset, ...)`: whether the subset misses anything. */
  function ReportDifference(superset: set<Item>, subset: set<Item>): (r: bool)
    ensures r <==> !(superset <= subset)
  {
    var missing := superset - subset;
    assert missing != {} <== !(superset <= subset) by {
      if !(superset <= subset) {
        var x :| x in superset && x !in subset;
        assert x in missing;
      }
    }
    missing != {}
  }

  /** Both directions of the comparison of one key other than `modules`. */
  function KeyDiffers(actual: Column, expected: Column): (r: bool)
    ensures r <==> ToSet(actual) != ToSet(expected)
  {
    var actualSet, expectedSet := ToSet(actual), ToSet(expected);
    ReportDifference(expectedSet, actualSet) || ReportDifference(actualSet, expectedSet)
  }

  function Elems(xs: seq<string>): set<string>
  {
    set x | x in xs
  }

  /** `compare_modules_entry(actual_mod_item, expect_mod_item)`. */
  function CompareModulesEntry(actual: ModuleRow, expected: ModuleRow): (r: bool)
    ensures r <==> Elems(actual.modules) != Elems(expected.modules)
  {
    var actualModules, expectModules := Elems(actual.modules), Elems(expected.modules);
    var missingFromActual := expectModules - actualModules;
    var missingFromExpect := actualModules - expectModules;
    assert actualModules == expectModules <== missingFromActual == {} && missingFromExpect == {} by {
      if missingFromActual == {} && missingFromExpect == {} {
        assert forall x :: x in actualModules <==> x in expectModules by {
          forall x ensures x in actualModules <==> x in expectModules {
            assert x !in missingFromActual && x !in missingFromExpect;
          }
        }
      }
    }
    missingFromActual != {} || missingFromExpect != {}
  }

  /** The loop over `zip(actual_combos["modules"], expected_combos["modules"])`: it stops at
      the shorter list and fails on the first pair whose `qt_version`s differ. */
  function ZipModules(actual: seq<ModuleRow>, expected: seq<ModuleRow>): Result<bool, Failure>
  {
    if actual == [] || expected == [] then Ok(false)
    else if actual[0].qtVersion != expected[0].qtVersion then Err(AssertionError)
    else match ZipModules(actual[1..], expected[1..])
      case Err(e) => Err(e)
      case Ok(d) => Ok(CompareModulesEntry(actual[0], expected[0]) || d)
  }

  function Min(a: nat, b: nat): nat { if a < b then a else b }

  /** The zipped rows fail exactly when a pair disagrees on the Qt version, and otherwise
      differ exactly when a pair holds different sets of modules. */
  lemma {:induction false} ZipModulesMeaning(actual: seq<ModuleRow>, expected: seq<ModuleRow>)
    ensures var r := ZipModules(actual, expected);
      && (r.Err? <==> exists i :: 0 <= i < Min(|actual|, |expected|) && actual[i].qtVersion != expected[i].qtVersion)
      && (r.Err? ==> r.error == AssertionError)
      && (r.Ok? ==> (r.value <==> exists i :: 0 <= i < Min(|actual|, |expected|) && CompareModulesEntry(actual[i], expected[i])))
  {
    if actual != [] && expected != [] {
      var a, e := actual[1..], expected[1..];
      ZipModulesMeaning(a, e);
      assert forall i :: 0 <= i < Min(|a|, |e|) ==> a[i] == actual[i + 1] && e[i] == expected[i + 1];
      if exists i :: 0 <= i < Min(|actual|, |expected|) && actual[i].qtVersion != expected[i].qtVersion {
        var i :| 0 <= i < Min(|actual|, |expected|) && actual[i].qtVersion != expected[i].qtVersion;
        if i > 0 {
          assert a[i - 1].qtVersion != e[i - 1].qtVersion;
        }
      }
      if exists i :: 0 <= i < Min(|actual|, |expected|) && CompareModulesEntry(actual[i], expected[i]) {
        var i :| 0 <= i < Min(|actual|, |expected|) && CompareModulesEntry(actual[i], expected[i]);
        if i > 0 {
          assert CompareModulesEntry(a[i - 1], e[i - 1]);
        }
      }
    }
  }

  /** What reading `row["qt_version"]` raises on a row that is not a module record. */
  function RowFailure(c: Column): Failure
  {
    if c.Texts? then TypeMismatch else KeyError("qt_version")
  }

  /** The `modules` branch of the loop over the keys. */
  function CompareModulesKey(actual: Column, expected: Column): Result<bool, Failure>
  {
    if Len(actual) == 0 || Len(expected) == 0 then Ok(false)
    else if !actual.Modules? then Err(RowFailure(actual))
    else if !expected.Modules? then Err(RowFailure(expected))
    else ZipModules(actual.entries, expected.entries)
  }

  /** One key of the loop. */
  function CompareKey(key: string, actual: Column, expected: Column): Result<bool, Failure>
  {
    if key == "modules" then CompareModulesKey(actual, expected) else Ok(KeyDiffers(actual, expected))
  }

  /** The ci copy never compares `new_archive`, which it copies from the stored document. */
  predicate Ignored(copy: Copy, key: string)
  {
    copy == Ci && key == "new_archive"
  }

  /** `has_difference |= ...` over the rest of the keys. */
  function Combine(hasDifference: bool, rest: Result<bool, Failure>): Result<bool, Failure>
  {
    match rest
    case Err(e) => Err(e)
    case Ok(d) => Ok(hasDifference || d)
  }

  /** What `compare_combos(actual_combos, expected_combos, ...)` returns or raises, for the
      keys of `actual_combos` in their order; a key missing from `expected_combos` is a
      KeyError. */
  function CompareSpec(copy: Copy, actual: seq<(string, Column)>, expected: map<string, Column>): Result<bool, Failure>
    decreases |actual|
  {
    if actual == [] then Ok(false)
    else
      var key := actual[0].0;
      if Ignored(copy, key) then CompareSpec(copy, actual[1..], expected)
      else if key !in expected then Err(KeyError(key))
      else match CompareKey(key, actual[0].1, expected[key])
        case Err(e) => Err(e)
        case Ok(d) => Combine(d, CompareSpec(copy, actual[1..], expected))
  }

  /** The loop over the zipped module rows. */
  method CompareModuleColumns(actual: Column, expected: Column) returns (r: Result<bool, Failure>)
    ensures r == CompareModulesKey(actual, expected)
  {
    var n := Min(Len(actual), Len(expected));
    if n == 0 {
      return Ok(false);
    }
    if !actual.Modules? {
      return Err(RowFailure(actual));
    }
    if !expected.Modules? {
      return Err(RowFailure(expected));
    }
    var a, e := actual.entries, expected.entries;
    var hasDifference := false;
    for i := 0 to n
      invariant ZipModules(a, e) == Combine(hasDifference, ZipModules(a[i..], e[i..]))
    {
      assert a[i..][1..] == a[i + 1..] && e[i..][1..] == e[i + 1..];
      if a[i].qtVersion != e[i].qtVersion {
        return Err(AssertionError);
      }
      hasDifference := hasDifference || CompareModulesEntry(a[i], e[i]);
    }
    assert a[n..] == [] || e[n..] == [];
    return Ok(hasDifference);
  }

  /** `compare_combos(actual_combos, expected_combos, ...)`: the loop over the keys of the
      generated document that accumulates `has_difference`. */
  method CompareCombos(copy: Copy, actual: seq<(string, Column)>, expected: map<string, Column>)
    returns (r: Result<bool, Failure>)
    ensures r == CompareSpec(copy, actual, expected)
  {
    var hasDifference := false;
    for i := 0 to |actual|
      invariant CompareSpec(copy, actual, expected) == Combine(hasDifference, CompareSpec(copy, actual[i..], expected))
    {
      assert actual[i..][1..] == actual[i + 1..];
      var rootKey := actual[i].0;
      if Ignored(copy, rootKey) {
        continue;
      }
      if rootKey !in expected {
        return Err(KeyError(rootKey));
      }
      if rootKey == "modules" {
        var d := CompareModuleColumns(actual[i].1, expected[rootKey]);
        if d.Err? {
          return Err(d.error);
        }
        hasDifference := hasDifference || d.value;
        continue;
      }
      var actualSet := ToSet(actual[i].1);
      var expectedSet := ToSet(expected[rootKey]);
      var missingFromActual := ReportDifference(expectedSet, actualSet);
      var missingFromExpected := ReportDifference(actualSet, expectedSet);
      hasDifference := hasDifference || missingFromActual || missingFromExpected;
    }
    return Ok(hasDifference);
  }

  /** The key fails the comparison: it is missing from the stored document, or its rows cannot
      be compared. */
  predicate FailsAt(copy: Copy, entry: (string, Column), expected: map<string, Column>)
  {
    && !Ignored(copy, entry.0)
    && (entry.0 !in expected || CompareKey(entry.0, entry.1, expected[entry.0]).Err?)
  }

  /** The key is compared and differs. */
  predicate DiffersAt(copy: Copy, entry: (string, Column), expected: map<string, Column>)
  {
    && !Ignored(copy, entry.0)
    && entry.0 in expected
    && CompareKey(entry.0, entry.1, expected[entry.0]) == Ok(true)
  }

  /** The comparison raises exactly when some compared key fails, and otherwise reports a
      difference exactly when some compared key differs. */
  lemma {:induction false} CompareMeaning(copy: Copy, actual: seq<(string, Column)>, expected: map<string, Column>)
    ensures var r := CompareSpec(copy, actual, expected);
      && (r.Err? <==> exists i :: 0 <= i < |actual| && FailsAt(copy, actual[i], expected))
      && (r.Ok? ==> (r.value <==> exists i :: 0 <= i < |actual| && DiffersAt(copy, actual[i], expected)))
    decreases |actual|
  {
    if actual != [] {
      var rest := actual[1..];
      CompareMeaning(copy, rest, expected);
      assert forall i :: 0 <= i < |rest| ==> rest[i] == actual[i + 1];
      if exists i :: 0 <= i < |actual| && FailsAt(copy, actual[i], expected) {
        var i :| 0 <= i < |actual| && FailsAt(copy, actual[i], expected);
        if i > 0 {
          assert FailsAt(copy, rest[i - 1], expected);
        }
      }
      if exists i :: 0 <= i < |actual| && DiffersAt(copy, actual[i], expected) {
        var i :| 0 <= i < |actual| && DiffersAt(copy, actual[i], expected);
        if i > 0 {
          assert DiffersAt(copy, rest[i - 1], expected);
        }
      }
    }
  }

  /** In the ci copy the stored `new_archive` plays no part: two stored documents that agree
      on every other key compare alike. */
  lemma {:induction false} CiIgnoresNewArchive(actual: seq<(string, Column)>, e1: map<string, Column>, e2: map<string, Column>)
    requires forall k :: k != "new_archive" ==> (k in e1 <==> k in e2)
    requires forall k :: k != "new_archive" && k in e1 ==> e1[k] == e2[k]
    ensures CompareSpec(Ci, actual, e1) == CompareSpec(Ci, actual, e2)
    decreases |actual|
  {
    if actual != [] {
      CiIgnoresNewArchive(actual[1..], e1, e2);
    }
  }

  /** The aqt copy does compare `new_archive`: a version missing from the stored list is a
      difference there and not in the ci copy. */
  lemma NewArchiveCopiesDiffer()
    ensures CompareSpec(Aqt, [("new_archive", Texts(["6.5.0"]))], map["new_archive" := Texts([])]) == Ok(true)
    ensures CompareSpec(Ci, [("new_archive", Texts(["6.5.0"]))], map["new_archive" := Texts([])]) == Ok(false)
  {
    var actual := [("new_archive", Texts(["6.5.0"]))];
    assert Text("6.5.0") in ToSet(Texts(["6.5.0"]));
    assert actual[1..] == [];
  }

  // ---------------------------------------------------------------- alphabetize_modules

  /** `entry["modules"] = sorted(entry["modules"])`. */
  function SortModules(row: ModuleRow): ModuleRow
  {
    row.(modules := Sort(row.modules))
  }

  /** The module rows with each module list sorted. */
  function Alphabetized(rows: seq<ModuleRow>): (r: seq<ModuleRow>)
    ensures |r| == |rows|
  {
    if rows == [] then [] else [SortModules(rows[0])] + Alphabetized(rows[1..])
  }

  /** Row `i` of the result is row `i` of the input with its module list sorted. */
  lemma {:induction false} AlphabetizedAt(rows: seq<ModuleRow>, i: nat)
    requires i < |rows|
    ensures Alphabetized(rows)[i] == SortModules(rows[i])
  {
    if i > 0 {
      AlphabetizedAt(rows[1..], i - 1);
    }
  }

  /** Each row keeps its Qt version and its modules, now in order. */
  lemma AlphabetizedRows(rows: seq<ModuleRow>)
    ensures forall i :: 0 <= i < |rows| ==>
      && Alphabetized(rows)[i].qtVersion == rows[i].qtVersion
      && multiset(Alphabetized(rows)[i].modules) == multiset(rows[i].modules)
      && SortedBy(s => s, Alphabetized(rows)[i].modules)
  {
    forall i | 0 <= i < |rows| ensures Alphabetized(rows)[i] == SortModules(rows[i]) {
      AlphabetizedAt(rows, i);
    }
  }

  /** Sorting a module list keeps its set of modules. */
  lemma SortedElems(xs: seq<string>)
    ensures Elems(Sort(xs)) == Elems(xs)
  {
    forall x ensures x in Sort(xs) <==> x in xs {
      assert x in Sort(xs) <==> x in multiset(Sort(xs));
    }
  }

  /** Alphabetizing the stored module rows, as `main` does before comparing, never changes the
      outcome of the comparison of the module rows. */
  lemma {:induction false} AlphabetizeKeepsComparison(actual: seq<ModuleRow>, expected: seq<ModuleRow>)
    ensures ZipModules(actual, Alphabetized(expected)) == ZipModules(actual, expected)
  {
    if actual != [] && expected != [] {
      SortedElems(expected[0].modules);
      assert Alphabetized(expected)[1..] == Alphabetized(expected[1..]);
      AlphabetizeKeepsComparison(actual[1..], expected[1..]);
    }
  }

  /** `alphabetize_modules(combos)`, given the list `combos["modules"]`: every module list is
      sorted in place, and nothing else changes. */
  method AlphabetizeModules(rows: array<ModuleRow>)
    modifies rows
    ensures rows[..] == Alphabetized(old(rows[..]))
  {
    ghost var original := rows[..];
    for i := 0 to rows.Length
      invariant forall j :: 0 <= j < rows.Length ==> rows[j] == if j < i then SortModules(original[j]) else original[j]
    {
      rows[i] := SortModules(rows[i]);
    }
    forall j | 0 <= j < rows.Length ensures rows[j] == Alphabetized(original)[j] {
      AlphabetizedAt(original, j);
    }
  }
}
