/** `merge_records` of aqt/generate_combinations.py (identical in ci/generate_combinations.py):
    keep the first record of each (os_name, target, arch), then sort stably by arch, by
    target and by os_name, which leaves the records in lexicographic (os_name, target, arch)
    order. */
module Merge {
  import opened Strs
  import opened Combos

  /** The keys a record is sorted by. */
  datatype Field = OsName | Target | Arch

  function Get(r: Row, f: Field): string
  {
    match f
    case OsName => r.osName
    case Target => r.target
    case Arch => r.arch
  }

  /** `lambda d: d[sorting_key]`. */
  function KeyOf(f: Field): Row -> string
  {
    r => Get(r, f)
  }

  /** `record["os_name"], record["target"], record["arch"]`. */
  function Hash(r: Row): (string, string, string)
  {
    (r.osName, r.target, r.arch)
  }

  function Hashes(s: seq<Row>): set<(string, string, string)>
  {
    set x | x in s :: Hash(x)
  }

  /** No record occurs twice and no two records share a hash. */
  ghost predicate UniqueHashes(s: seq<Row>)
  {
    && (forall x :: multiset(s)[x] <= 1)
    && (forall x, y :: x in multiset(s) && y in multiset(s) && Hash(x) == Hash(y) ==> x == y)
  }

  /** The records the first loop keeps: each record whose hash is not yet kept, in input order. */
  function Dedup(xs: seq<Row>): seq<Row>
  {
    if xs == [] then []
    else
      var d := Dedup(xs[..|xs| - 1]);
      var x := xs[|xs| - 1];
      if Hash(x) in Hashes(d) then d else d + [x]
  }

  lemma HashesAppend(s: seq<Row>, x: Row)
    ensures Hashes(s + [x]) == Hashes(s) + {Hash(x)}
  {
    assert forall y :: y in s + [x] <==> y in s || y == x;
  }

  /** Every hash of the input is kept. */
  lemma {:induction false} DedupHashes(xs: seq<Row>)
    ensures Hashes(Dedup(xs)) == Hashes(xs)
  {
    if xs != [] {
      var init := xs[..|xs| - 1];
      var x := xs[|xs| - 1];
      assert xs == init + [x];
      DedupHashes(init);
      HashesAppend(init, x);
      HashesAppend(Dedup(init), x);
    }
  }

  /** No record is kept twice, and no two kept records share a hash. */
  lemma {:induction false} DedupUnique(xs: seq<Row>)
    ensures UniqueHashes(Dedup(xs))
  {
    if xs != [] {
      var init := xs[..|xs| - 1];
      var x := xs[|xs| - 1];
      var d := Dedup(init);
      DedupUnique(init);
      if Hash(x) !in Hashes(d) {
        assert x !in d;
        assert multiset(d + [x]) == multiset(d) + multiset{x};
        forall y | y in multiset(d) ensures Hash(y) != Hash(x) {
          assert y in d;
        }
      }
    }
  }

  /** Each kept record is the first one of the input with its hash. */
  lemma {:induction false} DedupFirst(xs: seq<Row>)
    ensures var r := Dedup(xs);
      forall k :: 0 <= k < |r| ==>
        exists i :: 0 <= i < |xs| && xs[i] == r[k] && forall j :: 0 <= j < i ==> Hash(xs[j]) != Hash(r[k])
  {
    if xs != [] {
      var init := xs[..|xs| - 1];
      var x := xs[|xs| - 1];
      var d := Dedup(init);
      DedupFirst(init);
      assert forall i :: 0 <= i < |init| ==> xs[i] == init[i];
      var r := Dedup(xs);
      assert r == if Hash(x) in Hashes(d) then d else d + [x];
      forall k | 0 <= k < |r|
        ensures exists i :: 0 <= i < |xs| && xs[i] == r[k] && forall j :: 0 <= j < i ==> Hash(xs[j]) != Hash(r[k])
      {
        if k < |d| {
          assert r[k] == d[k];
          assert 0 <= k < |Dedup(init)|;
          var i :| 0 <= i < |init| && init[i] == d[k] && forall j :: 0 <= j < i ==> Hash(init[j]) != Hash(d[k]);
          assert xs[i] == r[k];
        } else {
          DedupHashes(init);
          assert r[k] == x;
          forall j | 0 <= j < |xs| - 1 ensures Hash(xs[j]) != Hash(x) {
            assert init[j] in init;
          }
          assert xs[|xs| - 1] == r[k];
        }
      }
    }
  }

  /** `x <= y` on the tuple of the given fields, in lexicographic order. */
  predicate Le(fields: seq<Field>, a: Row, b: Row)
  {
    if fields == [] then true
    else
      var x := Get(a, fields[0]);
      var y := Get(b, fields[0]);
      (StrLe(x, y) && x != y) || (x == y && Le(fields[1..], a, b))
  }

  ghost predicate Ordered(fields: seq<Field>, s: seq<Row>)
  {
    forall i, j :: 0 <= i < j < |s| ==> Le(fields, s[i], s[j])
  }

  lemma StrLeReflexive(a: string)
    ensures StrLe(a, a)
  {
    StrLeTotal(a, a);
  }

  /** Records ordered on `[f] + fields` are ordered on `f`. */
  lemma LeHead(f: Field, fields: seq<Field>, a: Row, b: Row)
    requires Le([f] + fields, a, b)
    ensures StrLe(Get(a, f), Get(b, f))
  {
    assert ([f] + fields)[0] == f;
    StrLeReflexive(Get(a, f));
  }

  /** Inserting a record that precedes every element on `fields` keeps an order on `[f] + fields`:
      the element goes before the first one whose `f` is not below its own. */
  lemma {:induction false} InsertOrdered(f: Field, fields: seq<Field>, x: Row, t: seq<Row>)
    requires Ordered([f] + fields, t)
    requires forall j :: 0 <= j < |t| ==> Le(fields, x, t[j])
    ensures Ordered([f] + fields, InsertBy(KeyOf(f), x, t))
  {
    var g := [f] + fields;
    assert g[0] == f && g[1..] == fields;
    var r := InsertBy(KeyOf(f), x, t);
    if t == [] || StrLe(Get(x, f), Get(t[0], f)) {
      assert r == [x] + t;
      forall j | 1 <= j < |r| ensures Le(g, x, r[j]) {
        assert r[j] == t[j - 1];
        if j > 1 {
          LeHead(f, fields, t[0], t[j - 1]);
          StrLeTransitive(Get(x, f), Get(t[0], f), Get(t[j - 1], f));
        }
      }
    } else {
      StrLeTotal(Get(x, f), Get(t[0], f));
      StrLeReflexive(Get(x, f));
      assert Le(g, t[0], x);
      var rest := t[1..];
      assert forall j :: 0 <= j < |rest| ==> rest[j] == t[j + 1];
      InsertOrdered(f, fields, x, rest);
      var u := InsertBy(KeyOf(f), x, rest);
      assert r == [t[0]] + u;
      forall j | 0 <= j < |u| ensures Le(g, t[0], u[j]) {
        assert u[j] in multiset(u);
        if u[j] != x {
          assert u[j] in multiset(rest);
          var m :| 0 <= m < |rest| && rest[m] == u[j];
          assert t[m + 1] == u[j];
        }
      }
    }
  }

  /** `sorted(..., key=lambda d: d[f])` is stable: it turns an order on `fields` into an order
      on `[f] + fields`. */
  lemma {:induction false} SortByOrdered(f: Field, fields: seq<Field>, s: seq<Row>)
    requires Ordered(fields, s)
    ensures Ordered([f] + fields, SortBy(KeyOf(f), s))
  {
    if s != [] {
      var rest := s[1..];
      assert forall j :: 0 <= j < |rest| ==> rest[j] == s[j + 1];
      SortByOrdered(f, fields, rest);
      var sorted := SortBy(KeyOf(f), rest);
      forall j | 0 <= j < |sorted| ensures Le(fields, s[0], sorted[j]) {
        assert sorted[j] in multiset(sorted);
        var m :| 0 <= m < |rest| && rest[m] == sorted[j];
        assert s[m + 1] == sorted[j];
      }
      InsertOrdered(f, fields, s[0], sorted);
    }
  }

  /** The sorts applied one after the other, in the order of `fields`. */
  function SortAll(fields: seq<Field>, s: seq<Row>): (r: seq<Row>)
    ensures multiset(r) == multiset(s)
  {
    if fields == [] then s
    else SortBy(KeyOf(fields[|fields| - 1]), SortAll(fields[..|fields| - 1], s))
  }

  function Reversed(fields: seq<Field>): seq<Field>
  {
    if fields == [] then [] else [fields[|fields| - 1]] + Reversed(fields[..|fields| - 1])
  }

  /** Sorting stably by each field in turn orders by the last field first. */
  lemma {:induction false} SortAllOrdered(fields: seq<Field>, s: seq<Row>)
    ensures Ordered(Reversed(fields), SortAll(fields, s))
  {
    if fields != [] {
      var init := fields[..|fields| - 1];
      SortAllOrdered(init, s);
      SortByOrdered(fields[|fields| - 1], Reversed(init), SortAll(init, s));
    }
  }

  /** `("arch", "target", "os_name")`. */
  const SortingKeys: seq<Field> := [Arch, Target, OsName]

  /** What `merge_records(arch_records)` returns. */
  function MergeSpec(records: seq<Row>): seq<Row>
  {
    SortAll(SortingKeys, Dedup(records))
  }

  /** One iteration of the de-duplicating loop: the record is kept exactly when its hash is new. */
  lemma DedupStep(records: seq<Row>, i: nat)
    requires i < |records|
    ensures Dedup(records[..i + 1]) ==
      if Hash(records[i]) in Hashes(Dedup(records[..i])) then Dedup(records[..i])
      else Dedup(records[..i]) + [records[i]]
  {
    assert records[..i + 1][..i] == records[..i];
  }

  /** One iteration of the loop over the sorting keys. */
  lemma SortAllStep(fields: seq<Field>, t: nat, s: seq<Row>)
    requires t < |fields|
    ensures SortAll(fields[..t + 1], s) == SortBy(KeyOf(fields[t]), SortAll(fields[..t], s))
  {
    assert fields[..t + 1][..t] == fields[..t];
  }

  /** `merge_records(arch_records)`: the de-duplicating loop over the records with its set of
      hashes, then the loop over the sorting keys. */
  method MergeRecords(records: seq<Row>) returns (all: seq<Row>)
    ensures all == MergeSpec(records)
  {
    all := [];
    var hashes: set<(string, string, string)> := {};
    for i := 0 to |records|
      invariant all == Dedup(records[..i])
      invariant hashes == Hashes(all)
    {
      DedupStep(records, i);
      var h := Hash(records[i]);
      if h !in hashes {
        HashesAppend(all, records[i]);
        all := all + [records[i]];
        hashes := hashes + {h};
      }
    }
    assert records[..|records|] == records;
    var deduped := all;
    for t := 0 to |SortingKeys|
      invariant all == SortAll(SortingKeys[..t], deduped)
    {
      SortAllStep(SortingKeys, t, deduped);
      all := SortBy(KeyOf(SortingKeys[t]), all);
    }
    assert SortingKeys[..3] == SortingKeys;
  }

  /** The merged records are in lexicographic (os_name, target, arch) order. */
  lemma MergeOrdered(records: seq<Row>)
    ensures Ordered([OsName, Target, Arch], MergeSpec(records))
  {
    SortAllOrdered(SortingKeys, Dedup(records));
    assert SortingKeys[..2] == [Arch, Target] && [Arch, Target][..1] == [Arch] && [Arch][..0] == [];
    assert Reversed(SortingKeys) == [OsName, Target, Arch];
  }

  /** The merged records are the kept records, rearranged: one record per hash, each hash
      of the input represented. */
  lemma MergeKeepsRecords(records: seq<Row>)
    ensures multiset(MergeSpec(records)) == multiset(Dedup(records))
    ensures UniqueHashes(MergeSpec(records))
    ensures Hashes(MergeSpec(records)) == Hashes(records)
  {
    var d := Dedup(records);
    var m := MergeSpec(records);
    DedupUnique(records);
    DedupHashes(records);
    assert forall x :: x in m <==> x in d by {
      forall x ensures x in m <==> x in d {
        assert x in m <==> x in multiset(m);
        assert x in d <==> x in multiset(d);
      }
    }
  }
}
