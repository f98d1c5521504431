/** `RepoModel` of aqt/repo_model.py: the parsed repository document, mapping each
    tool name to its schemas, from which `get_schema` builds a `Schema` by popping the
    reserved entries out of the stored schema object. */
module Repo {
  import opened Wrappers
  import opened Json
  import opened Exceptions
  import opened Schema

  /** The keys of an object are pairwise different, as in a parsed dictionary. */
  predicate UniqueKeys(members: seq<(string, Json)>)
  {
    forall i, j :: 0 <= i < j < |members| ==> members[i].0 != members[j].0
  }

  /** The entries without the one at `i`. */
  function RemoveAt(members: seq<(string, Json)>, i: nat): (r: seq<(string, Json)>)
    requires i < |members|
    ensures |r| == |members| - 1
  {
    members[..i] + members[i + 1..]
  }

  /** `d.pop(key)`: the value and the remaining entries, or the missing key. */
  function PopKey(members: seq<(string, Json)>, key: string): (r: Result<(Json, seq<(string, Json)>), Failure>)
    ensures r.Err? <==> key !in Keys(members)
    ensures r.Err? ==> r.error == KeyError(key)
    ensures r.Ok? ==> Lookup(members, key) == Some(r.value.0)
    ensures r.Ok? ==> exists i :: 0 <= i < |members| && members[i].0 == key && r.value.1 == RemoveAt(members, i)
  {
    match IndexOf(members, key)
    case None => Err(KeyError(key))
    case Some(i) =>
      LookupAtFirst(members, key, i);
      Ok((members[i].1, RemoveAt(members, i)))
  }

  lemma LookupAtFirst(members: seq<(string, Json)>, key: string, i: nat)
    requires i < |members| && members[i].0 == key
    requires forall j :: 0 <= j < i ==> members[j].0 != key
    ensures Lookup(members, key) == Some(members[i].1)
  {
    if i > 0 {
      LookupAtFirst(members[1..], key, i - 1);
    }
  }

  /** `d.pop(key, default)`. */
  function PopOr(members: seq<(string, Json)>, key: string, default: Json): (r: (Json, seq<(string, Json)>))
    ensures key !in Keys(members) ==> r == (default, members)
    ensures key in Keys(members) ==> PopKey(members, key) == Ok(r)
  {
    match PopKey(members, key)
    case Err(_) => (default, members)
    case Ok(p) => p
  }

  function Strings(items: seq<Json>): (r: Option<seq<string>>)
    ensures r.Some? ==> |r.value| == |items| && forall k :: 0 <= k < |items| ==> items[k] == JString(r.value[k])
    ensures r.None? ==> exists k :: 0 <= k < |items| && !items[k].JString?
  {
    if items == [] then Some([])
    else if !items[0].JString? then None
    else match Strings(items[1..])
      case None => None
      case Some(rest) => Some([items[0].str] + rest)
  }

  /** An object of string lists as a map; the first entry of a key counts. */
  function StringLists(members: seq<(string, Json)>): (r: Option<map<string, seq<string>>>)
    ensures r.Some? ==> r.value.Keys == set k | 0 <= k < |members| :: members[k].0
  {
    if members == [] then Some(map[])
    else match (StringLists(members[1..]), members[0].1)
      case (Some(m), JArray(items)) =>
        (match Strings(items)
         case None => None
         case Some(vs) =>
           assert forall k :: 0 <= k < |members| ==> (k == 0 || members[k] == members[1..][k - 1]);
           Some(m[members[0].0 := vs]))
      case _ => None
  }

  /** The typed fields of a `Schema`, or the value of the wrong JSON type among them. */
  function ToSchema(tool: string, name: string, args: Json, urlTemplate: Json, allowed: Json,
                    conversions: seq<(string, Json)>): (r: Result<Schema, Failure>)
    ensures r.Ok? ==> r.value.toolName == tool && r.value.schemaName == name && r.value.conversions == conversions
    ensures r.Ok? ==> args.JArray? && args.items == seq(|r.value.args|, k requires 0 <= k < |r.value.args| => JString(r.value.args[k]))
    ensures r.Ok? ==> urlTemplate == JString(r.value.urlTemplate)
    ensures r.Ok? && !Truthy(allowed) ==> r.value.allowedValues == map[]
    ensures r.Ok? && Truthy(allowed) ==> allowed.JObject? && StringLists(allowed.members) == Some(r.value.allowedValues)
  {
    if !args.JArray? || Strings(args.items).None? || !urlTemplate.JString? then Err(TypeMismatch)
    else
      var names := Strings(args.items).value;
      assert args.items == seq(|names|, k requires 0 <= k < |names| => JString(names[k]));
      if !Truthy(allowed) then Ok(Schema(tool, name, names, urlTemplate.str, map[], conversions))
      else if !allowed.JObject? || StringLists(allowed.members).None? then Err(TypeMismatch)
      else Ok(Schema(tool, name, names, urlTemplate.str, StringLists(allowed.members).value, conversions))
  }

  /** The document with the object of schema `name` of tool `tool` replaced by `members`. */
  function Store(doc: seq<(string, Json)>, ti: nat, si: nat, members: seq<(string, Json)>): seq<(string, Json)>
    requires ti < |doc| && doc[ti].1.JObject? && si < |doc[ti].1.members|
  {
    var tool := doc[ti].1.members;
    doc[ti := (doc[ti].0, JObject(tool[si := (tool[si].0, JObject(members))]))]
  }

  lemma StoreTwice(doc: seq<(string, Json)>, ti: nat, si: nat, a: seq<(string, Json)>, b: seq<(string, Json)>)
    requires ti < |doc| && doc[ti].1.JObject? && si < |doc[ti].1.members|
    ensures var d := Store(doc, ti, si, a);
      ti < |d| && d[ti].1.JObject? && si < |d[ti].1.members| && Store(d, ti, si, b) == Store(doc, ti, si, b)
  {
    var tool := doc[ti].1.members;
    var d := Store(doc, ti, si, a);
    var t1 := tool[si := (tool[si].0, JObject(a))];
    assert d[ti] == (doc[ti].0, JObject(t1));
    assert t1[si := (t1[si].0, JObject(b))] == tool[si := (tool[si].0, JObject(b))];
  }

  /** The stored object of schema `name` of tool `tool`, if there is one. */
  function SchemaObject(doc: seq<(string, Json)>, tool: string, name: string): Option<Json>
  {
    match Lookup(doc, tool)
    case None => None
    case Some(t) => if t.JObject? then Lookup(t.members, name) else None
  }

  lemma {:induction false} LookupIsIndexOf(members: seq<(string, Json)>, key: string)
    ensures Lookup(members, key) == if IndexOf(members, key).None? then None else Some(members[IndexOf(members, key).value].1)
  {
    if members != [] && members[0].0 != key {
      LookupIsIndexOf(members[1..], key);
    }
  }

  /** Where a schema object sits in the document: the tool's position, the schema's
      position in the tool's object, and the schema object's entries. */
  datatype Place = Place(ti: nat, si: nat, members: seq<(string, Json)>)

  predicate At(doc: seq<(string, Json)>, p: Place)
  {
    p.ti < |doc| && doc[p.ti].1.JObject? && p.si < |doc[p.ti].1.members|
    && doc[p.ti].1.members[p.si].1 == JObject(p.members)
  }

  /** `self.definition[tool_name][schema]`, as a place in the document. */
  function Locate(doc: seq<(string, Json)>, tool: string, name: string): (r: Result<Place, Failure>)
    ensures tool !in Keys(doc) ==> r == Err(KeyError(tool))
    ensures r.Ok? <==> SchemaObject(doc, tool, name).Some? && SchemaObject(doc, tool, name).value.JObject?
    ensures r.Ok? ==> At(doc, r.value) && SchemaObject(doc, tool, name) == Some(JObject(r.value.members))
    ensures r.Ok? ==> IndexOf(doc, tool) == Some(r.value.ti) && IndexOf(doc[r.value.ti].1.members, name) == Some(r.value.si)
  {
    LookupIsIndexOf(doc, tool);
    match IndexOf(doc, tool)
    case None => Err(KeyError(tool))
    case Some(ti) =>
      var t := doc[ti].1;
      if !t.JObject? then Err(TypeMismatch)
      else
        LookupIsIndexOf(t.members, name);
        match IndexOf(t.members, name)
        case None => Err(KeyError(name))
        case Some(si) =>
          var s := t.members[si].1;
          if !s.JObject? then Err(TypeMismatch)
          else Ok(Place(ti, si, s.members))
  }

  /** `s.pop("args")`, `s.pop("url_template")`, `s.pop("allowed_values", {})` in turn: the
      popped values or the first missing key, and the entries left in the object. */
  function PopEntries(m: seq<(string, Json)>): (r: (Result<(Json, Json, Json), Failure>, seq<(string, Json)>))
    ensures "args" !in Keys(m) ==> r == (Err(KeyError("args")), m)
  {
    match PopKey(m, "args")
    case Err(e) => (Err(e), m)
    case Ok((args, m1)) =>
      match PopKey(m1, "url_template")
      case Err(e) => (Err(e), m1)
      case Ok((url, m2)) =>
        var (allowed, m3) := PopOr(m2, "allowed_values", JObject([]));
        (Ok((args, url, allowed)), m3)
  }

  /** What `get_schema(tool, name)` returns or raises, and the document it leaves behind:
      the entries `args`, `url_template` and `allowed_values` are popped from the stored
      schema object in that order, and what remains is the schema's conversions. */
  function ExtractSchema(doc: seq<(string, Json)>, tool: string, name: string): (r: (Result<Schema, Failure>, seq<(string, Json)>))
    ensures tool !in Keys(doc) ==> r == (Err(KeyError(tool)), doc)
    ensures r.0.Ok? ==> r.0.value.toolName == tool && r.0.value.schemaName == name
  {
    match Locate(doc, tool, name)
    case Err(e) => (Err(e), doc)
    case Ok(p) =>
      var (popped, rest) := PopEntries(p.members);
      var d := Store(doc, p.ti, p.si, rest);
      match popped
      case Err(e) => (Err(e), d)
      case Ok((args, url, allowed)) => (ToSchema(tool, name, args, url, allowed, rest), d)
  }

  /** Removing an entry under another key leaves the lookup of `key` alone. */
  lemma {:induction false} LookupRemoveOther(members: seq<(string, Json)>, i: nat, key: string)
    requires i < |members| && members[i].0 != key
    ensures Lookup(RemoveAt(members, i), key) == Lookup(members, key)
  {
    if i > 0 {
      LookupRemoveOther(members[1..], i - 1, key);
      var r := RemoveAt(members, i);
      assert members[..i] == [members[0]] + members[1..][..i - 1];
      assert members[i + 1..] == members[1..][i..];
      assert r[0] == members[0] && r[1..] == RemoveAt(members[1..], i - 1);
    } else {
      assert RemoveAt(members, i) == members[1..];
    }
  }

  /** The three values popped are the stored `args` and `url_template`, and the stored
      `allowed_values` or `{}` when there is none. */
  lemma PopEntriesFields(m: seq<(string, Json)>)
    ensures var r := PopEntries(m).0;
      r.Ok? ==>
        && Lookup(m, "args") == Some(r.value.0)
        && Lookup(m, "url_template") == Some(r.value.1)
        && r.value.2 == (match Lookup(m, "allowed_values") case Some(a) => a case None => JObject([]))
  {
    match PopKey(m, "args")
    case Err(_) =>
    case Ok((args, m1)) =>
      var i :| 0 <= i < |m| && m[i].0 == "args" && m1 == RemoveAt(m, i);
      LookupRemoveOther(m, i, "url_template");
      LookupRemoveOther(m, i, "allowed_values");
      match PopKey(m1, "url_template")
      case Err(_) =>
      case Ok((url, m2)) =>
        var j :| 0 <= j < |m1| && m1[j].0 == "url_template" && m2 == RemoveAt(m1, j);
        LookupRemoveOther(m1, j, "allowed_values");
  }

  /** The schema built by `get_schema` holds what the stored object held: the names in
      its `args` list, its `url_template` string, and its `allowed_values` lists, none
      when that entry is absent or empty. */
  lemma ExtractFields(doc: seq<(string, Json)>, tool: string, name: string)
    ensures var r := ExtractSchema(doc, tool, name).0;
      r.Ok? ==>
        && SchemaObject(doc, tool, name).Some? && SchemaObject(doc, tool, name).value.JObject?
        && var m := SchemaObject(doc, tool, name).value.members;
        && Lookup(m, "args") == Some(JArray(seq(|r.value.args|, k requires 0 <= k < |r.value.args| => JString(r.value.args[k]))))
        && Lookup(m, "url_template") == Some(JString(r.value.urlTemplate))
        && (match Lookup(m, "allowed_values")
            case None => r.value.allowedValues == map[]
            case Some(a) =>
              && (!Truthy(a) ==> r.value.allowedValues == map[])
              && (Truthy(a) ==> a.JObject? && StringLists(a.members) == Some(r.value.allowedValues)))
  {
    match Locate(doc, tool, name)
    case Err(_) =>
    case Ok(p) =>
      PopEntriesFields(p.members);
  }

  /** The entries of an object other than the three reserved ones, in order. */
  function Unreserved(members: seq<(string, Json)>): (r: seq<(string, Json)>)
  {
    if members == [] then []
    else if Reserved(members[0].0) then Unreserved(members[1..])
    else [members[0]] + Unreserved(members[1..])
  }

  predicate Reserved(key: string) { key == "args" || key == "url_template" || key == "allowed_values" }

  // ---------------------------------------------------------------- properties of get_schema

  lemma {:induction false} IndexOfSameKeys(a: seq<(string, Json)>, b: seq<(string, Json)>, key: string)
    requires Keys(a) == Keys(b)
    ensures IndexOf(a, key) == IndexOf(b, key)
  {
    if a != [] {
      assert Keys(a[1..]) == Keys(a)[1..] && Keys(b[1..]) == Keys(b)[1..];
      IndexOfSameKeys(a[1..], b[1..], key);
    }
  }

  lemma UpdateKeepsKeys(members: seq<(string, Json)>, i: nat, v: Json)
    requires i < |members|
    ensures Keys(members[i := (members[i].0, v)]) == Keys(members)
  {
  }

  /** After `Store`, the tool's object has the same schema names, and every other lookup
      is unchanged. */
  lemma StoreLookups(doc: seq<(string, Json)>, ti: nat, si: nat, m: seq<(string, Json)>, key: string)
    requires ti < |doc| && doc[ti].1.JObject? && si < |doc[ti].1.members|
    ensures var d := Store(doc, ti, si, m);
      && Keys(d) == Keys(doc)
      && (IndexOf(doc, key) == Some(ti) ==>
            Lookup(d, key) == Some(JObject(doc[ti].1.members[si := (doc[ti].1.members[si].0, JObject(m))])))
      && (IndexOf(doc, key) != Some(ti) ==> Lookup(d, key) == Lookup(doc, key))
  {
    var tool := doc[ti].1.members;
    var d := Store(doc, ti, si, m);
    UpdateKeepsKeys(doc, ti, JObject(tool[si := (tool[si].0, JObject(m))]));
    IndexOfSameKeys(d, doc, key);
    LookupIsIndexOf(d, key);
    LookupIsIndexOf(doc, key);
  }

  /** After `Store` at the place of a schema, that schema's object holds the new entries. */
  lemma StoreSchemaObject(doc: seq<(string, Json)>, tool: string, name: string, p: Place, m: seq<(string, Json)>)
    requires Locate(doc, tool, name) == Ok(p)
    ensures SchemaObject(Store(doc, p.ti, p.si, m), tool, name) == Some(JObject(m))
  {
    var t := doc[p.ti].1.members;
    var t1 := t[p.si := (t[p.si].0, JObject(m))];
    StoreLookups(doc, p.ti, p.si, m, tool);
    UpdateKeepsKeys(t, p.si, JObject(m));
    IndexOfSameKeys(t1, t, name);
    LookupIsIndexOf(t1, name);
  }

  /** `d` has the tool names of `doc`, and under `key` an object with the same schema
      names or the same value. */
  predicate SameNames(doc: seq<(string, Json)>, d: seq<(string, Json)>, key: string)
  {
    && Keys(d) == Keys(doc)
    && (Lookup(doc, key).None? <==> Lookup(d, key).None?)
    && (Lookup(doc, key).Some? ==>
          (Lookup(doc, key).value.JObject? <==> Lookup(d, key).value.JObject?)
          && (Lookup(doc, key).value.JObject? ==>
                Keys(Lookup(d, key).value.members) == Keys(Lookup(doc, key).value.members))
          && (!Lookup(doc, key).value.JObject? ==> Lookup(d, key) == Lookup(doc, key)))
  }

  /** `get_schema` changes no tool name and no schema name: only the popped entries go. */
  lemma ExtractKeepsNames(doc: seq<(string, Json)>, tool: string, name: string, key: string)
    ensures SameNames(doc, ExtractSchema(doc, tool, name).1, key)
  {
    match Locate(doc, tool, name) {
      case Err(_) =>
      case Ok(p) =>
        var rest := PopEntries(p.members).1;
        StoreLookups(doc, p.ti, p.si, rest, key);
        LookupIsIndexOf(doc, key);
        UpdateKeepsKeys(doc[p.ti].1.members, p.si, JObject(rest));
    }
  }

  lemma RemoveAtIndex(members: seq<(string, Json)>, i: nat)
    requires i < |members|
    ensures forall j :: 0 <= j < |RemoveAt(members, i)| ==>
      RemoveAt(members, i)[j] == if j < i then members[j] else members[j + 1]
  {
    var r := RemoveAt(members, i);
    forall j | 0 <= j < |r| ensures r[j] == if j < i then members[j] else members[j + 1] {
      if j < i { assert r[j] == members[..i][j]; } else { assert r[j] == members[i + 1..][j - i]; }
    }
  }

  /** No entry of the object has the key `key`. */
  predicate Without(members: seq<(string, Json)>, key: string)
  {
    forall j :: 0 <= j < |members| ==> members[j].0 != key
  }

  lemma WithoutKeys(members: seq<(string, Json)>, key: string)
    ensures Without(members, key) <==> key !in Keys(members)
  {
    if !Without(members, key) {
      var j :| 0 <= j < |members| && members[j].0 == key;
      assert Keys(members)[j] == key;
    }
  }

  /** Removing an entry brings back no key: a key the object lacks stays absent. */
  lemma RemoveKeys(members: seq<(string, Json)>, i: nat, key: string)
    requires i < |members| && Without(members, key)
    ensures Without(RemoveAt(members, i), key)
  {
    RemoveAtIndex(members, i);
  }

  /** Removing an entry of an object with unique keys removes its key and keeps the others unique. */
  lemma RemoveUnique(members: seq<(string, Json)>, i: nat)
    requires i < |members| && UniqueKeys(members)
    ensures UniqueKeys(RemoveAt(members, i))
    ensures Without(RemoveAt(members, i), members[i].0)
  {
    var r := RemoveAt(members, i);
    RemoveAtIndex(members, i);
    forall a, b | 0 <= a < b < |r| ensures r[a].0 != r[b].0 {
      var a', b' := if a < i then a else a + 1, if b < i then b else b + 1;
      assert r[a] == members[a'] && r[b] == members[b'] && a' < b';
    }
    forall j | 0 <= j < |r| ensures r[j].0 != members[i].0 {
      var j' := if j < i then j else j + 1;
      assert r[j] == members[j'] && j' != i;
    }
  }

  lemma {:induction false} UnreservedRemove(members: seq<(string, Json)>, i: nat)
    requires i < |members| && Reserved(members[i].0)
    ensures Unreserved(RemoveAt(members, i)) == Unreserved(members)
  {
    if i > 0 {
      UnreservedRemove(members[1..], i - 1);
      assert RemoveAt(members, i) == [members[0]] + RemoveAt(members[1..], i - 1);
    } else {
      assert RemoveAt(members, i) == members[1..];
    }
  }

  lemma {:induction false} UnreservedNone(members: seq<(string, Json)>)
    requires Without(members, "args") && Without(members, "url_template") && Without(members, "allowed_values")
    ensures Unreserved(members) == members
  {
    if members != [] {
      UnreservedNone(members[1..]);
    }
  }

  /** Facts about one `pop` of a present key from an object with unique keys. */
  lemma PopUnique(members: seq<(string, Json)>, key: string)
    requires UniqueKeys(members) && key in Keys(members)
    ensures var rest := PopKey(members, key).value.1;
      && UniqueKeys(rest) && Without(rest, key)
      && (forall k :: Without(members, k) ==> Without(rest, k))
      && (Reserved(key) ==> Unreserved(rest) == Unreserved(members))
  {
    var i :| 0 <= i < |members| && members[i].0 == key && PopKey(members, key).value.1 == RemoveAt(members, i);
    RemoveUnique(members, i);
    forall k | Without(members, k) ensures Without(RemoveAt(members, i), k) {
      RemoveKeys(members, i, k);
    }
    if Reserved(key) {
      UnreservedRemove(members, i);
    }
  }

  /** `d.pop(key, default)` of an absent key leaves the object as it is. */
  lemma PopOrAbsent(members: seq<(string, Json)>, key: string, default: Json)
    requires Without(members, key)
    ensures PopOr(members, key, default).1 == members
  {
    WithoutKeys(members, key);
  }

  /** On an object with unique keys, the pops remove the reserved entries present, and
      once `args` is gone it stays gone. */
  lemma PopEntriesUnique(m: seq<(string, Json)>)
    requires UniqueKeys(m)
    ensures var (popped, rest) := PopEntries(m);
      && ("args" in Keys(m) ==> Without(rest, "args"))
      && (popped.Ok? ==> rest == Unreserved(m))
  {
    if "args" in Keys(m) {
      var m1 := PopKey(m, "args").value.1;
      PopUnique(m, "args");
      if "url_template" in Keys(m1) {
        PopThenRest(m1);
      }
    }
  }

  /** The pops after `args`. */
  lemma PopThenRest(m1: seq<(string, Json)>)
    requires UniqueKeys(m1) && "url_template" in Keys(m1)
    ensures var m2 := PopKey(m1, "url_template").value.1;
      var m3 := PopOr(m2, "allowed_values", JObject([])).1;
      && (Without(m1, "args") ==> Without(m3, "args") && Unreserved(m3) == m3)
      && Unreserved(m3) == Unreserved(m1)
  {
    var m2 := PopKey(m1, "url_template").value.1;
    PopUnique(m1, "url_template");
    var m3 := PopOr(m2, "allowed_values", JObject([])).1;
    if "allowed_values" in Keys(m2) {
      PopUnique(m2, "allowed_values");
    } else {
      PopOrAbsent(m2, "allowed_values", JObject([]));
      WithoutKeys(m2, "allowed_values");
    }
    if Without(m1, "args") {
      UnreservedNone(m3);
    }
  }

  lemma {:induction false} UnreservedKeeps(members: seq<(string, Json)>)
    ensures forall i :: 0 <= i < |members| && !Reserved(members[i].0) ==> members[i] in Unreserved(members)
  {
    if members != [] {
      UnreservedKeeps(members[1..]);
      forall i | 1 <= i < |members| && !Reserved(members[i].0) ensures members[i] in Unreserved(members) {
        assert members[i] == members[1..][i - 1];
      }
    }
  }

  /** The conversions of an extracted schema are the stored object's other entries, in order. */
  lemma ExtractConversions(doc: seq<(string, Json)>, tool: string, name: string, m: seq<(string, Json)>)
    requires SchemaObject(doc, tool, name) == Some(JObject(m)) && UniqueKeys(m)
    requires ExtractSchema(doc, tool, name).0.Ok?
    ensures ExtractSchema(doc, tool, name).0.value.conversions == Unreserved(m)
    ensures forall i :: 0 <= i < |m| && !Reserved(m[i].0) ==> m[i] in ExtractSchema(doc, tool, name).0.value.conversions
  {
    PopEntriesUnique(m);
    UnreservedKeeps(m);
  }

  /** `get_schema` consumes the stored object: asking for the same schema again fails
      on the entry popped first. */
  lemma ExtractTwiceFails(doc: seq<(string, Json)>, tool: string, name: string, m: seq<(string, Json)>)
    requires SchemaObject(doc, tool, name) == Some(JObject(m)) && UniqueKeys(m)
    requires "args" in Keys(m)
    ensures ExtractSchema(ExtractSchema(doc, tool, name).1, tool, name).0 == Err(KeyError("args"))
  {
    var p := Locate(doc, tool, name).value;
    var rest := PopEntries(m).1;
    PopEntriesUnique(m);
    WithoutKeys(rest, "args");
    StoreSchemaObject(doc, tool, name, p, rest);
  }

  /** The pops happen one at a time: when `url_template` is missing, the error is raised
      after `args` has already left the stored object. */
  lemma MissingTemplateKeepsPop(doc: seq<(string, Json)>, tool: string, name: string, m: seq<(string, Json)>)
    requires SchemaObject(doc, tool, name) == Some(JObject(m))
    requires "args" in Keys(m) && "url_template" !in Keys(m)
    ensures var (r, d) := ExtractSchema(doc, tool, name);
      && r == Err(KeyError("url_template"))
      && SchemaObject(d, tool, name) == Some(JObject(PopKey(m, "args").value.1))
  {
    var p := Locate(doc, tool, name).value;
    var m1 := PopKey(m, "args").value.1;
    var i :| 0 <= i < |m| && m[i].0 == "args" && m1 == RemoveAt(m, i);
    WithoutKeys(m, "url_template");
    RemoveKeys(m, i, "url_template");
    WithoutKeys(m1, "url_template");
    StoreSchemaObject(doc, tool, name, p, m1);
  }

  /** `definition[tool].keys()`: the schema names of a tool. */
  function SchemaNames(doc: seq<(string, Json)>, tool: string): (r: Result<seq<string>, Failure>)
    ensures tool !in Keys(doc) ==> r == Err(KeyError(tool))
    ensures r.Ok? ==> exists t :: Lookup(doc, tool) == Some(JObject(t)) && r.value == Keys(t)
  {
    match Lookup(doc, tool)
    case None => Err(KeyError(tool))
    case Some(t) => if t.JObject? then Ok(Keys(t.members)) else Err(TypeMismatch)
  }

  /** `get_schema` changes neither the tool names nor any tool's schema names. */
  lemma ExtractKeepsListing(doc: seq<(string, Json)>, tool: string, name: string)
    ensures var d := ExtractSchema(doc, tool, name).1;
      Keys(d) == Keys(doc) && forall t :: SchemaNames(d, t) == SchemaNames(doc, t)
  {
    var d := ExtractSchema(doc, tool, name).1;
    ExtractKeepsNames(doc, tool, name, tool);
    forall t ensures SchemaNames(d, t) == SchemaNames(doc, t) {
      ExtractKeepsNames(doc, tool, name, t);
    }
  }

  /** Storing a schema object's own entries back changes nothing. */
  lemma StoreSame(doc: seq<(string, Json)>, p: Place)
    requires At(doc, p)
    ensures Store(doc, p.ti, p.si, p.members) == doc
  {
    var tool := doc[p.ti].1.members;
    assert tool[p.si := (tool[p.si].0, JObject(p.members))] == tool;
  }

  // ---------------------------------------------------------------- the stored document

  /** The model of the repository document, after `json.loads`. */
  class RepoModel {
    var definition: seq<(string, Json)>

    constructor(definition: seq<(string, Json)>)
      ensures this.definition == definition
    {
      this.definition := definition;
    }

    /** `list_tool_names()`. */
    function ListToolNames(): (r: seq<string>)
      reads this
      ensures |r| == |definition| && forall i :: 0 <= i < |r| ==> r[i] == definition[i].0
    {
      Keys(definition)
    }

    /** `list_schemas(tool_name)`. */
    function ListSchemas(tool: string): (r: Result<seq<string>, Failure>)
      reads this
      ensures tool !in Keys(definition) ==> r == Err(KeyError(tool))
      ensures r.Ok? ==> exists t :: Lookup(definition, tool) == Some(JObject(t)) && r.value == Keys(t)
    {
      SchemaNames(definition, tool)
    }

    /** `get_schema(tool_name, schema)`: pops the reserved entries out of the stored schema
        object, one at a time, and keeps the rest as the conversions. */
    method GetSchema(tool: string, name: string) returns (r: Result<Schema, Failure>)
      modifies this
      ensures (r, definition) == ExtractSchema(old(definition), tool, name)
      ensures ListToolNames() == old(ListToolNames())
      ensures forall t :: ListSchemas(t) == old(ListSchemas(t))
    {
      ghost var doc := definition;
      ExtractKeepsListing(doc, tool, name);
      var place := Locate(definition, tool, name);
      if place.Err? {
        r := Err(place.error);
      } else {
        var ti, si, m := place.value.ti, place.value.si, place.value.members;
        var popped := PopKey(m, "args");
        if popped.Err? {
          StoreSame(doc, place.value);
          r := Err(popped.error);
        } else {
          var args, m1 := popped.value.0, popped.value.1;
          definition := Store(definition, ti, si, m1);
          popped := PopKey(m1, "url_template");
          if popped.Err? {
            r := Err(popped.error);
          } else {
            var url, m2 := popped.value.0, popped.value.1;
            StoreTwice(doc, ti, si, m1, m2);
            definition := Store(definition, ti, si, m2);
            var (allowed, m3) := PopOr(m2, "allowed_values", JObject([]));
            StoreTwice(doc, ti, si, m2, m3);
            definition := Store(definition, ti, si, m3);
            r := ToSchema(tool, name, args, url, allowed, m3);
          }
        }
      }
    }
  }
}
