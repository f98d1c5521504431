/** `Schema.yield_urls(args)` of aqt/repo_model.py: every argument given as "all"
    is expanded to the values the schema allows for it, and one URL is produced per
    combination, the last argument varying fastest. The generator keeps one shared
    dictionary of bindings, binding a name before descending and popping it after. */
module Urls {
  import opened Wrappers
  import opened Exceptions
  import opened Schema

  /** What consuming the generator gives: the URLs produced, then possibly the
      failure that ended it. */
  datatype Outcome = Outcome(urls: seq<string>, failure: Option<Failure>)

  /** An outcome of one level of the backtracking, with the shared dictionary as
      that level leaves it. */
  datatype Emission = Emission(urls: seq<string>, failure: Option<Failure>, dict: map<string, string>)

  /** `f"{self.tool_name}/{self.fill_template(args_dict)}"`. */
  function Url(s: Schema, dict: map<string, string>, contains: Versions.RangeTest): Result<string, Failure>
  {
    match Filled(s, dict, contains)
    case Ok(u) => Ok(s.toolName + "/" + u)
    case Err(e) => Err(e)
  }

  /** What the innermost level does with a complete dictionary of bindings. */
  type Render = map<string, string> -> Result<string, Failure>

  function Renderer(s: Schema, contains: Versions.RangeTest): Render
  {
    d => Url(s, d, contains)
  }

  /** `args_dict.pop(name)` after a level that produced `e` without failing. */
  function Pop(e: Emission, name: string): (r: Emission)
    ensures r.urls == e.urls
    ensures r.failure.None? <==> name in e.dict
    ensures r.failure.None? ==> r.dict == e.dict - {name} && name !in r.dict
    ensures r.failure.Some? ==> r.failure == Some(KeyError(name))
  {
    if name in e.dict then Emission(e.urls, None, e.dict - {name})
    else Emission(e.urls, Some(KeyError(name)), e.dict)
  }

  /** `helper(args_dict, index)`. */
  function Walk(s: Schema, args: seq<string>, i: nat, dict: map<string, string>, render: Render): Emission
    requires |args| == |s.args| && i <= |args|
    decreases |args| - i, 1, 0
  {
    if i == |args| then
      match render(dict)
      case Ok(u) => Emission([u], None, dict)
      case Err(e) => Emission([], Some(e), dict)
    else
      var name := s.args[i];
      if args[i] == "all" then
        match AllowedValuesFor(s, name)
        case Err(e) => Emission([], Some(e), dict)
        case Ok(values) =>
          var e := Loop(s, args, i, values, dict, render);
          if e.failure.Some? then e else Pop(e, name)
      else
        var e := Walk(s, args, i + 1, dict[name := args[i]], render);
        if e.failure.Some? then e else Pop(e, name)
  }

  /** The `for allowed_value in ...` loop of `helper`, over the values still to bind. */
  function Loop(s: Schema, args: seq<string>, i: nat, values: seq<string>, dict: map<string, string>,
                render: Render): Emission
    requires |args| == |s.args| && i < |args|
    decreases |args| - i, 0, |values|
  {
    if values == [] then Emission([], None, dict)
    else
      var e := Walk(s, args, i + 1, dict[s.args[i] := values[0]], render);
      if e.failure.Some? then e
      else
        var rest := Loop(s, args, i, values[1..], e.dict, render);
        Emission(e.urls + rest.urls, rest.failure, rest.dict)
  }

  /** One turn of the loop: bind the `j`-th value, walk the remaining arguments, and
      go on with the next value unless that walk failed. */
  lemma LoopStep(s: Schema, args: seq<string>, i: nat, values: seq<string>, j: nat,
                 dict: map<string, string>, render: Render)
    requires |args| == |s.args| && i < |args| && j < |values|
    ensures var e := Walk(s, args, i + 1, dict[s.args[i] := values[j]], render);
      var l := Loop(s, args, i, values[j..], dict, render);
      var rest := Loop(s, args, i, values[j + 1..], e.dict, render);
      && (e.failure.Some? ==> l == e)
      && (e.failure.None? ==> l == Emission(e.urls + rest.urls, rest.failure, rest.dict))
  {
    assert values[j..][0] == values[j] && values[j..][1..] == values[j + 1..];
  }

  /** Everything `list(schema.yield_urls(args))` produces or raises. */
  function YieldAll(s: Schema, args: seq<string>, contains: Versions.RangeTest): (r: Outcome)
    ensures |args| != |s.args| ==> r == Outcome([], Some(Fail(CliInputError, "Wrong number of arguments!")))
  {
    if |args| != |s.args| then Outcome([], Some(Fail(CliInputError, "Wrong number of arguments!")))
    else
      var e := Walk(s, args, 0, map[], Renderer(s, contains));
      Outcome(e.urls, e.failure)
  }

  // ---------------------------------------------------------------- the reference reading

  /** The values argument `i` ranges over. */
  function Choices(s: Schema, args: seq<string>, i: nat): Result<seq<string>, Failure>
    requires |args| == |s.args| && i < |args|
  {
    if args[i] == "all" then AllowedValuesFor(s, s.args[i]) else Ok([args[i]])
  }

  /** From argument `i` on, every argument has a non-empty list of values. */
  predicate Expandable(s: Schema, args: seq<string>, i: nat)
    requires |args| == |s.args|
  {
    forall k :: i <= k < |args| ==> Choices(s, args, k).Ok? && |Choices(s, args, k).value| > 0
  }

  function Lists(s: Schema, args: seq<string>, i: nat): (r: seq<seq<string>>)
    requires |args| == |s.args| && i <= |args| && Expandable(s, args, i)
    ensures |r| == |args| - i
    decreases |args| - i
  {
    if i == |args| then [] else [Choices(s, args, i).value] + Lists(s, args, i + 1)
  }

  /** `[v] + t` for every `t` of `tails`. */
  function Prefixed(v: string, tails: seq<seq<string>>): (r: seq<seq<string>>)
    ensures |r| == |tails|
  {
    seq(|tails|, k requires 0 <= k < |tails| => [v] + tails[k])
  }

  /** `[[v] + t for v in values for t in tails]`. */
  function Extend(values: seq<string>, tails: seq<seq<string>>): (r: seq<seq<string>>)
    ensures |r| == |values| * |tails|
  {
    if values == [] then [] else Prefixed(values[0], tails) + Extend(values[1..], tails)
  }

  /** `itertools.product(*lists)`, as sequences. */
  function Cartesian(lists: seq<seq<string>>): (r: seq<seq<string>>)
    ensures forall k :: 0 <= k < |r| ==> |r[k]| == |lists|
  {
    if lists == [] then [[]]
    else
      var tails := Cartesian(lists[1..]);
      var r := Extend(lists[0], tails);
      ExtendLengths(lists[0], tails, |lists| - 1);
      r
  }

  lemma {:induction false} ExtendLengths(values: seq<string>, tails: seq<seq<string>>, n: nat)
    requires forall k :: 0 <= k < |tails| ==> |tails[k]| == n
    ensures forall k :: 0 <= k < |Extend(values, tails)| ==> |Extend(values, tails)[k]| == n + 1
  {
    if values != [] {
      ExtendLengths(values[1..], tails, n);
    }
  }

  function Product(ns: seq<nat>): nat
  {
    if ns == [] then 1 else ns[0] * Product(ns[1..])
  }

  function Sizes(lists: seq<seq<string>>): (r: seq<nat>)
    ensures |r| == |lists| && forall k :: 0 <= k < |lists| ==> r[k] == |lists[k]|
  {
    if lists == [] then [] else [|lists[0]|] + Sizes(lists[1..])
  }

  /** There are as many combinations as the product of the list sizes. */
  lemma {:induction false} CartesianSize(lists: seq<seq<string>>)
    ensures |Cartesian(lists)| == Product(Sizes(lists))
  {
    if lists != [] {
      CartesianSize(lists[1..]);
      assert Sizes(lists)[1..] == Sizes(lists[1..]);
    }
  }

  /** A combination picks one value from each list, and every such pick is a combination. */
  lemma {:induction false} CartesianMembers(lists: seq<seq<string>>, t: seq<string>)
    ensures t in Cartesian(lists) <==> |t| == |lists| && forall k :: 0 <= k < |t| ==> t[k] in lists[k]
  {
    if lists == [] {
    } else {
      var tails := Cartesian(lists[1..]);
      if t != [] {
        CartesianMembers(lists[1..], t[1..]);
      }
      ExtendMembers(lists[0], tails, t);
      if |t| == |lists| && (forall k :: 0 <= k < |t| ==> t[k] in lists[k]) {
        assert t[0] in lists[0] && t[1..] in tails;
      }
      if t in Cartesian(lists) {
        assert t[0] in lists[0] && t[1..] in tails;
        forall k | 1 <= k < |t| ensures t[k] in lists[k] { assert t[k] == t[1..][k - 1]; }
      }
    }
  }

  lemma {:induction false} ExtendMembers(values: seq<string>, tails: seq<seq<string>>, t: seq<string>)
    ensures t in Extend(values, tails) <==> t != [] && t[0] in values && t[1..] in tails
  {
    if values != [] {
      ExtendMembers(values[1..], tails, t);
      if t != [] && t[0] == values[0] && t[1..] in tails {
        var k :| 0 <= k < |tails| && tails[k] == t[1..];
        assert Prefixed(values[0], tails)[k] == t;
      }
      if t in Prefixed(values[0], tails) {
        var k :| 0 <= k < |tails| && Prefixed(values[0], tails)[k] == t;
        assert t[1..] == tails[k];
      }
    }
  }

  /** The bindings of one combination, over `dict`. */
  function Bind(dict: map<string, string>, names: seq<string>, t: seq<string>): map<string, string>
    decreases |names|
  {
    if names == [] || t == [] then dict else Bind(dict[names[0] := t[0]], names[1..], t[1..])
  }

  function Binds(dict: map<string, string>, names: seq<string>, tuples: seq<seq<string>>): (r: seq<map<string, string>>)
    ensures |r| == |tuples|
  {
    seq(|tuples|, k requires 0 <= k < |tuples| => Bind(dict, names, tuples[k]))
  }

  /** One URL per binding in order, stopping at the first template that cannot be filled. */
  function RenderAll(dicts: seq<map<string, string>>, render: Render): (r: Outcome)
    ensures r.failure.None? ==> |r.urls| == |dicts|
  {
    if dicts == [] then Outcome([], None)
    else match render(dicts[0])
      case Err(e) => Outcome([], Some(e))
      case Ok(u) =>
        var rest := RenderAll(dicts[1..], render);
        Outcome([u] + rest.urls, rest.failure)
  }

  // ---------------------------------------------------------------- the backtracking is the product

  lemma {:induction false} RenderAllAppend(a: seq<map<string, string>>, b: seq<map<string, string>>,
                                           render: Render)
    ensures var ra := RenderAll(a, render);
      RenderAll(a + b, render)
      == if ra.failure.Some? then ra else Outcome(ra.urls + RenderAll(b, render).urls, RenderAll(b, render).failure)
  {
    if a == [] {
      assert a + b == b;
    } else {
      assert (a + b)[0] == a[0] && (a + b)[1..] == a[1..] + b;
      RenderAllAppend(a[1..], b, render);
      match render(a[0]) {
        case Err(_) =>
        case Ok(u) =>
          var ra := RenderAll(a[1..], render);
          assert [u] + ra.urls + RenderAll(b, render).urls == [u] + (ra.urls + RenderAll(b, render).urls);
      }
    }
  }

  lemma BindsAppend(dict: map<string, string>, names: seq<string>, x: seq<seq<string>>, y: seq<seq<string>>)
    ensures Binds(dict, names, x + y) == Binds(dict, names, x) + Binds(dict, names, y)
  {
  }

  /** Binding a prefixed combination binds the first name, then the rest. */
  lemma BindsPrefixed(dict: map<string, string>, names: seq<string>, v: string, tails: seq<seq<string>>)
    requires |names| >= 1
    ensures Binds(dict, names, Prefixed(v, tails)) == Binds(dict[names[0] := v], names[1..], tails)
  {
    var p := Prefixed(v, tails);
    forall k | 0 <= k < |tails| ensures Bind(dict, names, p[k]) == Bind(dict[names[0] := v], names[1..], tails[k]) {
      assert p[k][0] == v && p[k][1..] == tails[k];
    }
  }

  /** A binding of the first name made before is overwritten by every combination. */
  lemma BindsOverride(dict: map<string, string>, names: seq<string>, v: string, tuples: seq<seq<string>>)
    requires |names| >= 1
    requires forall k :: 0 <= k < |tuples| ==> tuples[k] != []
    ensures Binds(dict[names[0] := v], names, tuples) == Binds(dict, names, tuples)
  {
    forall k | 0 <= k < |tuples| ensures Bind(dict[names[0] := v], names, tuples[k]) == Bind(dict, names, tuples[k]) {
      assert dict[names[0] := v][names[0] := tuples[k][0]] == dict[names[0] := tuples[k][0]];
    }
  }

  /** The argument names from `i` on are pairwise different. */
  predicate DistinctFrom(names: seq<string>, i: nat)
  {
    forall j, k :: i <= j < k < |names| ==> names[j] != names[k]
  }

  lemma {:induction false} CartesianStep(s: Schema, args: seq<string>, i: nat)
    requires |args| == |s.args| && i < |args| && Expandable(s, args, i)
    ensures Lists(s, args, i)[1..] == Lists(s, args, i + 1)
    ensures Cartesian(Lists(s, args, i)) == Extend(Choices(s, args, i).value, Cartesian(Lists(s, args, i + 1)))
  {
    assert Lists(s, args, i)[1..] == Lists(s, args, i + 1);
  }

  /** Binding argument `i` keeps the later names unbound. */
  lemma StillFree(names: seq<string>, i: nat, dict: map<string, string>, v: string)
    requires i < |names| && DistinctFrom(names, i)
    requires forall k :: i < k < |names| ==> names[k] !in dict
    ensures forall k :: i < k < |names| ==> names[k] !in dict[names[i] := v]
    ensures DistinctFrom(names, i + 1)
  {
  }

  /** The reference over several values: the first value's combinations, then the rest's. */
  lemma ReferenceSplit(dict: map<string, string>, names: seq<string>, values: seq<string>,
                       tails: seq<seq<string>>, render: Render)
    requires |names| >= 1 && values != []
    ensures var a := RenderAll(Binds(dict[names[0] := values[0]], names[1..], tails), render);
      var b := RenderAll(Binds(dict, names, Extend(values[1..], tails)), render);
      RenderAll(Binds(dict, names, Extend(values, tails)), render)
      == if a.failure.Some? then a else Outcome(a.urls + b.urls, b.failure)
  {
    BindsPrefixed(dict, names, values[0], tails);
    BindsAppend(dict, names, Prefixed(values[0], tails), Extend(values[1..], tails));
    RenderAllAppend(Binds(dict, names, Prefixed(values[0], tails)), Binds(dict, names, Extend(values[1..], tails)), render);
  }

  /** A level of the backtracking produces, in order, the URLs of every combination of
      the remaining arguments' values, and restores the dictionary it was given. */
  lemma {:induction false} WalkProduct(s: Schema, args: seq<string>, i: nat, dict: map<string, string>,
                                       render: Render)
    requires |args| == |s.args| && i <= |args|
    requires Expandable(s, args, i) && DistinctFrom(s.args, i)
    requires forall k :: i <= k < |args| ==> s.args[k] !in dict
    ensures var e := Walk(s, args, i, dict, render);
      && Outcome(e.urls, e.failure) == RenderAll(Binds(dict, s.args[i..], Cartesian(Lists(s, args, i))), render)
      && (e.failure.None? ==> e.dict == dict)
    decreases |args| - i, 2, 0
  {
    if i == |args| {
      assert Binds(dict, s.args[i..], Cartesian(Lists(s, args, i))) == [dict];
    } else if args[i] == "all" {
      WalkAllProduct(s, args, i, dict, render);
    } else {
      WalkFixedProduct(s, args, i, dict, render);
    }
  }

  /** The level of an "all" argument. */
  lemma {:induction false} WalkAllProduct(s: Schema, args: seq<string>, i: nat, dict: map<string, string>,
                                          render: Render)
    requires |args| == |s.args| && i < |args| && args[i] == "all"
    requires Expandable(s, args, i) && DistinctFrom(s.args, i)
    requires forall k :: i <= k < |args| ==> s.args[k] !in dict
    ensures var e := Walk(s, args, i, dict, render);
      && Outcome(e.urls, e.failure) == RenderAll(Binds(dict, s.args[i..], Cartesian(Lists(s, args, i))), render)
      && (e.failure.None? ==> e.dict == dict)
    decreases |args| - i, 1, 0
  {
    var name := s.args[i];
    var values := Choices(s, args, i).value;
    CartesianStep(s, args, i);
    StillFree(s.args, i, dict, values[0]);
    LoopProduct(s, args, i, values, dict, render);
    var e := Loop(s, args, i, values, dict, render);
    if e.failure.None? {
      assert dict[name := values[|values| - 1]] - {name} == dict;
    }
  }

  /** The level of an argument given a value. */
  lemma {:induction false} WalkFixedProduct(s: Schema, args: seq<string>, i: nat, dict: map<string, string>,
                                            render: Render)
    requires |args| == |s.args| && i < |args| && args[i] != "all"
    requires Expandable(s, args, i) && DistinctFrom(s.args, i)
    requires forall k :: i <= k < |args| ==> s.args[k] !in dict
    ensures var e := Walk(s, args, i, dict, render);
      && Outcome(e.urls, e.failure) == RenderAll(Binds(dict, s.args[i..], Cartesian(Lists(s, args, i))), render)
      && (e.failure.None? ==> e.dict == dict)
    decreases |args| - i, 1, 0
  {
    var names := s.args[i..];
    var name := s.args[i];
    var tails := Cartesian(Lists(s, args, i + 1));
    CartesianStep(s, args, i);
    assert Choices(s, args, i).value == [args[i]];
    assert names[0] == name && names[1..] == s.args[i + 1..];
    StillFree(s.args, i, dict, args[i]);
    assert Extend([args[i]], tails) == Prefixed(args[i], tails) + [];
    assert Cartesian(Lists(s, args, i)) == Prefixed(args[i], tails);
    BindsPrefixed(dict, names, args[i], tails);
    WalkProduct(s, args, i + 1, dict[name := args[i]], render);
    assert dict[name := args[i]] - {name} == dict;
  }

  lemma {:induction false} LoopProduct(s: Schema, args: seq<string>, i: nat, values: seq<string>,
                                       dict: map<string, string>, render: Render)
    requires |args| == |s.args| && i < |args|
    requires Expandable(s, args, i + 1) && DistinctFrom(s.args, i)
    requires forall k :: i < k < |args| ==> s.args[k] !in dict
    ensures var e := Loop(s, args, i, values, dict, render);
      && Outcome(e.urls, e.failure)
         == RenderAll(Binds(dict, s.args[i..], Extend(values, Cartesian(Lists(s, args, i + 1)))), render)
      && (e.failure.None? && values != [] ==> e.dict == dict[s.args[i] := values[|values| - 1]])
      && (values == [] ==> e.dict == dict)
    decreases |args| - i, 0, |values|
  {
    var names := s.args[i..];
    var tails := Cartesian(Lists(s, args, i + 1));
    if values == [] {
      assert Binds(dict, names, Extend(values, tails)) == [];
    } else {
      var first := dict[s.args[i] := values[0]];
      assert names[1..] == s.args[i + 1..];
      StillFree(s.args, i, dict, values[0]);
      WalkProduct(s, args, i + 1, first, render);
      var e := Walk(s, args, i + 1, first, render);
      var a := RenderAll(Binds(first, names[1..], tails), render);
      assert Outcome(e.urls, e.failure) == a;
      var b := RenderAll(Binds(dict, names, Extend(values[1..], tails)), render);
      ReferenceSplit(dict, names, values, tails, render);
      if e.failure.None? {
        var rest := Loop(s, args, i, values[1..], first, render);
        assert Loop(s, args, i, values, dict, render) == Emission(e.urls + rest.urls, rest.failure, rest.dict);
        LoopProduct(s, args, i, values[1..], first, render);
        ExtendLengths(values[1..], tails, |args| - i - 1);
        BindsOverride(dict, names, values[0], Extend(values[1..], tails));
        assert Outcome(rest.urls, rest.failure) == b;
        LastAfterFirst(dict, s.args[i], values);
      }
    }
  }

  lemma LastAfterFirst(dict: map<string, string>, name: string, values: seq<string>)
    requires values != []
    ensures values[1..] != [] ==> dict[name := values[0]][name := values[1..][|values[1..]| - 1]]
                                  == dict[name := values[|values| - 1]]
  {
  }


  /** When every argument has values and the names differ, the generator yields one URL
      per combination of the arguments' values, in order, until a template fails. */
  lemma YieldAllIsProduct(s: Schema, args: seq<string>, contains: Versions.RangeTest)
    requires |args| == |s.args| && Expandable(s, args, 0) && DistinctFrom(s.args, 0)
    ensures YieldAll(s, args, contains)
         == RenderAll(Binds(map[], s.args, Cartesian(Lists(s, args, 0))), Renderer(s, contains))
  {
    WalkProduct(s, args, 0, map[], Renderer(s, contains));
    assert s.args[0..] == s.args;
  }

  /** Without a failing template, the count of URLs is the product of the list sizes. */
  lemma YieldAllCount(s: Schema, args: seq<string>, contains: Versions.RangeTest)
    requires |args| == |s.args| && Expandable(s, args, 0) && DistinctFrom(s.args, 0)
    requires YieldAll(s, args, contains).failure.None?
    ensures |YieldAll(s, args, contains).urls| == Product(Sizes(Lists(s, args, 0)))
  {
    YieldAllIsProduct(s, args, contains);
    CartesianSize(Lists(s, args, 0));
  }

  /** An "all" argument whose schema lists no values makes the closing `pop` fail:
      nothing is produced and a KeyError for the name is raised. */
  lemma EmptyValuesFail(s: Schema, args: seq<string>, i: nat, dict: map<string, string>, render: Render)
    requires |args| == |s.args| && i < |args| && args[i] == "all"
    requires AllowedValuesFor(s, s.args[i]) == Ok([]) && s.args[i] !in dict
    ensures Walk(s, args, i, dict, render) == Emission([], Some(KeyError(s.args[i])), dict)
  {
  }

  /** Two fixed arguments under one name: the inner level pops the shared entry, so the
      outer `pop` fails after the one URL has been produced. */
  lemma RepeatedNameFails(s: Schema, args: seq<string>, contains: Versions.RangeTest)
    requires |args| == |s.args| == 2 && s.args[0] == s.args[1]
    requires args[0] != "all" && args[1] != "all"
    requires Url(s, map[s.args[0] := args[1]], contains).Ok?
    ensures YieldAll(s, args, contains)
         == Outcome([Url(s, map[s.args[0] := args[1]], contains).value], Some(KeyError(s.args[0])))
  {
    var name := s.args[0];
    var u := Url(s, map[name := args[1]], contains).value;
    assert map[][name := args[0]][name := args[1]] == map[name := args[1]];
    assert map[name := args[1]] - {name} == map[];
    var render := Renderer(s, contains);
    var inner := Walk(s, args, 2, map[name := args[1]], render);
    assert inner == Emission([u], None, map[name := args[1]]);
    assert Walk(s, args, 1, map[name := args[0]], render) == Emission([u], None, map[]);
  }

  // ---------------------------------------------------------------- the generator's state

  /** The running generator: its schema and arguments, the shared dictionary, and the
      URLs it has produced so far. */
  class UrlGenerator {
    const schema: Schema
    const args: seq<string>
    const contains: Versions.RangeTest
    var argsDict: map<string, string>
    var produced: seq<string>

    constructor(schema: Schema, args: seq<string>, contains: Versions.RangeTest)
      ensures this.schema == schema && this.args == args && this.contains == contains
      ensures argsDict == map[] && produced == []
    {
      this.schema := schema;
      this.args := args;
      this.contains := contains;
      argsDict := map[];
      produced := [];
    }

    /** `helper(args_dict, index)`, binding into and popping from `argsDict`. */
    method Helper(index: nat) returns (failure: Option<Failure>)
      requires |args| == |schema.args| && index <= |args|
      modifies this
      ensures var e := Walk(schema, args, index, old(argsDict), Renderer(schema, contains));
        && produced == old(produced) + e.urls
        && failure == e.failure
        && (failure.None? ==> argsDict == e.dict)
      decreases |args| - index, 1
    {
      if index == |args| {
        var filled := FillTemplate(schema, argsDict, contains);
        if filled.Err? {
          return Some(filled.error);
        }
        produced := produced + [schema.toolName + "/" + filled.value];
        return None;
      }
      var arg, argName := args[index], schema.args[index];
      if arg == "all" {
        var allowed := AllowedValuesFor(schema, argName);
        if allowed.Err? {
          return Some(allowed.error);
        }
        failure := BindEach(index, allowed.value);
      } else {
        argsDict := argsDict[argName := arg];
        failure := Helper(index + 1);
      }
      if failure.Some? {
        return;
      }
      if argName !in argsDict {
        return Some(KeyError(argName));
      }
      argsDict := argsDict - {argName};
    }

    /** The `for allowed_value in ...` loop of `helper` for argument `index`. */
    method BindEach(index: nat, values: seq<string>) returns (failure: Option<Failure>)
      requires |args| == |schema.args| && index < |args|
      modifies this
      ensures var e := Loop(schema, args, index, values, old(argsDict), Renderer(schema, contains));
        && produced == old(produced) + e.urls
        && failure == e.failure
        && (failure.None? ==> argsDict == e.dict)
      decreases |args| - index, 0
    {
      var argName := schema.args[index];
      ghost var render := Renderer(schema, contains);
      ghost var whole := Loop(schema, args, index, values, argsDict, render);
      ghost var done: seq<string> := [];
      var j := 0;
      while j < |values|
        invariant 0 <= j <= |values|
        invariant var rest := Loop(schema, args, index, values[j..], argsDict, render);
          && produced == old(produced) + done
          && whole.urls == done + rest.urls && whole.failure == rest.failure && whole.dict == rest.dict
      {
        ghost var e := Walk(schema, args, index + 1, argsDict[argName := values[j]], render);
        LoopStep(schema, args, index, values, j, argsDict, render);
        argsDict := argsDict[argName := values[j]];
        failure := Helper(index + 1);
        if failure.Some? {
          return;
        }
        ghost var rest := Loop(schema, args, index, values[j + 1..], argsDict, render);
        assert done + (e.urls + rest.urls) == (done + e.urls) + rest.urls;
        assert produced == (old(produced) + done) + e.urls == old(produced) + (done + e.urls);
        done := done + e.urls;
        j := j + 1;
      }
      assert values[j..] == [] && done + [] == done;
      return None;
    }

    /** `yield from helper({}, 0)` after the arity check. */
    method YieldUrls() returns (failure: Option<Failure>)
      modifies this
      ensures var r := YieldAll(schema, args, contains);
        produced == old(produced) + r.urls && failure == r.failure
    {
      if |args| != |schema.args| {
        return Some(Fail(CliInputError, "Wrong number of arguments!"));
      }
      argsDict := map[];
      failure := Helper(0);
    }
  }
}
