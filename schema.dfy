/** `Schema` of aqt/repo_model.py: a URL template, its positional argument names,
    the values each argument may take, and the `"<src>-to-<dst>"` conversion rules
    that derive further variables before the template is filled. */
module Schema {
  import opened Wrappers
  import opened Strs
  import opened Json
  import opened Versions
  import opened Exceptions
  import opened Templates

  datatype Schema = Schema(
    toolName: string,
    schemaName: string,
    args: seq<string>,
    urlTemplate: string,
    allowedValues: map<string, seq<string>>,
    conversions: seq<(string, Json)>)

  /** `Schema.ALLOWED_VALUES`, the table consulted when a schema lists no values of its own. */
  const DefaultAllowedValues: map<string, seq<string>> :=
    map["host" := ["windows", "linux", "mac"], "bits" := ["64", "32"]]

  const Separator: string := "-to-"

  ghost predicate HasSeparator(s: string) { exists j :: OccursAt(s, Separator, j) }

  // ---------------------------------------------------------------- list_allowed_values_for

  /** `list_allowed_values_for(key)`: the schema's own list first, then the default
      table, otherwise the key is not tracked. */
  function AllowedValuesFor(s: Schema, key: string): (r: Result<seq<string>, Failure>)
    ensures key in s.allowedValues ==> r == Ok(s.allowedValues[key])
    ensures key !in s.allowedValues && key in DefaultAllowedValues ==> r == Ok(DefaultAllowedValues[key])
    ensures r.Err? <==> key !in s.allowedValues && key !in DefaultAllowedValues
    ensures r.Err? ==> r.error == KeyError("Allowed values for the key '" + key + "' are not tracked.")
  {
    if key in s.allowedValues then Ok(s.allowedValues[key])
    else if key in DefaultAllowedValues then Ok(DefaultAllowedValues[key])
    else Err(KeyError("Allowed values for the key '" + key + "' are not tracked."))
  }

  // ---------------------------------------------------------------- recursive_translate

  /** `_from, _to = translation_key.split("-to-")`, after the check that the separator is present. */
  function SplitKey(key: string): (r: Result<(string, string), Failure>)
    ensures r.Ok? ==> key == r.value.0 + Separator + r.value.1
    ensures r.Ok? ==> !HasSeparator(r.value.1)
                      && forall j :: 0 <= j < |r.value.0| ==> !OccursAt(key, Separator, j)
    ensures r == Err(Fail(SchemaError, "Schema contains unrecognized key")) <==> !HasSeparator(key)
  {
    match Find(key, Separator, 0)
    case None => Err(Fail(SchemaError, "Schema contains unrecognized key"))
    case Some(i) =>
      var src, dst := key[..i], key[i + 4..];
      assert key == src + Separator + dst;
      if Find(dst, Separator, 0).Some? then Err(ValueError("too many values to unpack (expected 2)"))
      else Ok((src, dst))
  }

  /** The index of the first range key of `members`, from `k` on, that contains `v`;
      a range that does not parse stops the scan with a ValueError. */
  function FirstRange(members: seq<(string, Json)>, v: Version, contains: RangeTest, k: nat): (r: Result<Option<nat>, Failure>)
    requires k <= |members|
    ensures r.Ok? && r.value.Some? ==>
      k <= r.value.value < |members| && contains(members[r.value.value].0, v) == Some(true)
      && forall j :: k <= j < r.value.value ==> contains(members[j].0, v) == Some(false)
    ensures r == Ok(None) ==> forall j :: k <= j < |members| ==> contains(members[j].0, v) == Some(false)
    ensures r.Err? ==> exists i :: (k <= i < |members| && contains(members[i].0, v).None?
      && forall j :: k <= j < i ==> contains(members[j].0, v) == Some(false))
    decreases |members| - k
  {
    if k == |members| then Ok(None)
    else match contains(members[k].0, v)
      case None => Err(ValueError("invalid range " + members[k].0))
      case Some(true) => Ok(Some(k))
      case Some(false) => FirstRange(members, v, contains, k + 1)
  }

  /** The scan stops at the first range that contains the version. */
  lemma {:induction false} FirstRangeFinds(members: seq<(string, Json)>, v: Version, contains: RangeTest, k: nat, i: nat)
    requires k <= i < |members|
    requires contains(members[i].0, v) == Some(true)
    requires forall j :: k <= j < i ==> contains(members[j].0, v) == Some(false)
    ensures FirstRange(members, v, contains, k) == Ok(Some(i))
    decreases i - k
  {
    if k < i {
      FirstRangeFinds(members, v, contains, k + 1, i);
    }
  }

  /** When no range from `k` on contains the version, the scan finds none. */
  lemma {:induction false} FirstRangeNone(members: seq<(string, Json)>, v: Version, contains: RangeTest, k: nat)
    requires k <= |members|
    ensures (forall j :: k <= j < |members| ==> contains(members[j].0, v) == Some(false))
      ==> FirstRange(members, v, contains, k) == Ok(None)
    decreases |members| - k
  {
    if k < |members| {
      FirstRangeNone(members, v, contains, k + 1);
    }
  }

  /** `choose_translation(key, conversion)`: for the source `semver`, the first range
      that contains the version given as argument; for any other source, the entry
      named by the variable's current value. */
  function Choose(src: string, node: Json, vars: map<string, string>, semver: Option<Version>,
                  contains: RangeTest): (r: Result<Json, Failure>)
    ensures r.Ok? ==> r.value < node
    ensures src == "semver" && node.JObject? && semver.None? ==> r == Err(NameError("semver"))
    ensures src == "semver" && node.JObject? && semver.Some?
      && (forall j :: 0 <= j < |node.members| ==> contains(node.members[j].0, semver.value) == Some(false))
      ==> r == Err(Fail(SchemaError, "Schema contains no resolution for version " + Show(semver.value)))
    ensures src != "semver" && src !in vars ==> r == Err(KeyError(src))
    ensures src != "semver" && src in vars && node.JObject? && vars[src] !in Keys(node.members)
      ==> r == Err(KeyError(vars[src]))
  {
    if src == "semver" then
      if !node.JObject? then Err(TypeMismatch)
      else if semver.None? then Err(NameError("semver"))
      else
        FirstRangeNone(node.members, semver.value, contains, 0);
        match FirstRange(node.members, semver.value, contains, 0)
        case Err(e) => Err(e)
        case Ok(None) => Err(Fail(SchemaError, "Schema contains no resolution for version " + Show(semver.value)))
        case Ok(Some(i)) =>
          assert node.members[i].1 < node.members[i] < node;
          Ok(node.members[i].1)
    else if src !in vars then Err(KeyError(src))
    else if !node.JObject? then Err(TypeMismatch)
    else match Lookup(node.members, vars[src])
      case None => Err(KeyError(vars[src]))
      case Some(t) => Ok(t)
  }

  /** `recursive_translate(key, conversion)`: follows single-key levels until a string
      is reached, and names the variable it binds. A malformed key, a failed choice, or a
      chosen entry that is neither a string nor a one-key dictionary stops it. */
  function Translate(key: string, node: Json, vars: map<string, string>, semver: Option<Version>,
                     contains: RangeTest): (r: Result<(string, string), Failure>)
    ensures SplitKey(key).Err? ==> r == Err(SplitKey(key).error)
    ensures SplitKey(key).Ok? ==>
      var c := Choose(SplitKey(key).value.0, node, vars, semver, contains);
      && (c.Err? ==> r == Err(c.error))
      && (c.Ok? && c.value.JString? ==> r == Ok((SplitKey(key).value.1, c.value.str)))
      && (c.Ok? && !c.value.JString? && !c.value.JObject? ==>
            r == Err(Fail(SchemaError, "Translator object is neither a string nor a dictionary")))
      && (c.Ok? && c.value.JObject? && |c.value.members| != 1 ==>
            r == Err(Fail(SchemaError, "Translator object should only have one key available")))
    decreases node
  {
    match SplitKey(key)
    case Err(e) => Err(e)
    case Ok((src, dst)) =>
      match Choose(src, node, vars, semver, contains)
      case Err(e) => Err(e)
      case Ok(t) =>
        if t.JString? then Ok((dst, t.str))
        else if !t.JObject? then Err(Fail(SchemaError, "Translator object is neither a string nor a dictionary"))
        else if |t.members| != 1 then Err(Fail(SchemaError, "Translator object should only have one key available"))
        else
          assert t.members[0].1 < t.members[0] < t;
          Translate(t.members[0].0, t.members[0].1, vars, semver, contains)
  }

  // ---------------------------------------------------------------- fill_template

  /** The variables before any conversion: the caller's, plus the two derived from `semver`. */
  function InitialVariables(args: map<string, string>): (r: Result<(map<string, string>, Option<Version>), Failure>)
    ensures "semver" !in args ==> r == Ok((args, None))
    ensures "semver" in args ==> (r.Ok? <==> Parse(args["semver"]).Some?)
    ensures r.Ok? && "semver" in args ==>
      var (vars, semver) := r.value;
      && semver == Parse(args["semver"])
      && vars.Keys == args.Keys + {"major_minor_semver", "semver_underscores"}
      && (forall k :: k in args && k !in {"major_minor_semver", "semver_underscores"} ==> vars[k] == args[k])
  {
    if "semver" !in args then Ok((args, None))
    else match Parse(args["semver"])
      case None => Err(ValueError("Invalid version string: '" + args["semver"] + "'"))
      case Some(v) =>
        Ok((args["major_minor_semver" := MajorMinor(v)]["semver_underscores" := Underscored(v)], Some(v)))
  }

  /** The conversions applied in stored order, each binding its target variable. */
  function ApplyConversions(convs: seq<(string, Json)>, vars: map<string, string>, semver: Option<Version>,
                            contains: RangeTest): Result<map<string, string>, Failure>
  {
    if convs == [] then Ok(vars)
    else match Translate(convs[0].0, convs[0].1, vars, semver, contains)
      case Err(e) => Err(e)
      case Ok((name, value)) => ApplyConversions(convs[1..], vars[name := value], semver, contains)
  }

  /** One conversion of the run: it fails, or the rest runs with its target bound. */
  lemma ApplyStep(convs: seq<(string, Json)>, i: nat, vars: map<string, string>, semver: Option<Version>,
                  contains: RangeTest)
    requires i < |convs|
    ensures ApplyConversions(convs[i..], vars, semver, contains)
      == match Translate(convs[i].0, convs[i].1, vars, semver, contains)
         case Err(e) => Err(e)
         case Ok((name, value)) => ApplyConversions(convs[i + 1..], vars[name := value], semver, contains)
  {
    assert convs[i..][0] == convs[i] && convs[i..][1..] == convs[i + 1..];
  }

  /** What `fill_template(args)` returns or raises. */
  function Filled(s: Schema, args: map<string, string>, contains: RangeTest): Result<string, Failure>
  {
    match InitialVariables(args)
    case Err(e) => Err(e)
    case Ok((vars, semver)) =>
      match ApplyConversions(s.conversions, vars, semver, contains)
      case Err(e) => Err(e)
      case Ok(all) => FormatNamed(s.urlTemplate, all)
  }

  /** `fill_template(args)`: copies the arguments, derives the version variables, runs
      the conversions over the copy in stored order, then fills the template. */
  method FillTemplate(s: Schema, args: map<string, string>, contains: RangeTest) returns (r: Result<string, Failure>)
    ensures r == Filled(s, args, contains)
  {
    var variables := args;
    var semver: Option<Version> := None;
    if "semver" in args {
      semver := Parse(args["semver"]);
      if semver.None? {
        return Err(ValueError("Invalid version string: '" + args["semver"] + "'"));
      }
      variables := variables["major_minor_semver" := MajorMinor(semver.value)];
      variables := variables["semver_underscores" := Underscored(semver.value)];
    }
    assert InitialVariables(args) == Ok((variables, semver));
    var converted := RunConversions(s.conversions, variables, semver, contains);
    if converted.Err? {
      return Err(converted.error);
    }
    r := FormatNamed(s.urlTemplate, converted.value);
  }

  /** The `for key, conversion in self.name_converters.items()` loop of `fill_template`. */
  method RunConversions(convs: seq<(string, Json)>, initial: map<string, string>, semver: Option<Version>,
                        contains: RangeTest) returns (r: Result<map<string, string>, Failure>)
    ensures r == ApplyConversions(convs, initial, semver, contains)
  {
    var variables := initial;
    var i := 0;
    while i < |convs|
      invariant 0 <= i <= |convs|
      invariant ApplyConversions(convs[i..], variables, semver, contains)
             == ApplyConversions(convs, initial, semver, contains)
    {
      var key, conversion := convs[i].0, convs[i].1;
      var translated := Translate(key, conversion, variables, semver, contains);
      ApplyStep(convs, i, variables, semver, contains);
      if translated.Err? {
        return Err(translated.error);
      }
      variables := variables[translated.value.0 := translated.value.1];
      i := i + 1;
    }
    assert convs[i..] == [];
    return Ok(variables);
  }

  // ---------------------------------------------------------------- properties

  /** `s` with every `from` turned into `to`. */
  function ReplaceChar(s: string, from: char, to: char): (r: string)
    ensures |r| == |s|
  {
    if s == [] then [] else [if s[0] == from then to else s[0]] + ReplaceChar(s[1..], from, to)
  }

  lemma {:induction false} ReplaceCharConcat(x: string, y: string, from: char, to: char)
    ensures ReplaceChar(x + y, from, to) == ReplaceChar(x, from, to) + ReplaceChar(y, from, to)
  {
    if x == [] {
      assert x + y == y;
    } else {
      assert (x + y)[0] == x[0] && (x + y)[1..] == x[1..] + y;
      ReplaceCharConcat(x[1..], y, from, to);
    }
  }

  lemma {:induction false} ReplaceCharAbsent(x: string, from: char, to: char)
    requires from !in x
    ensures ReplaceChar(x, from, to) == x
  {
    if x != [] {
      assert x[0] != from && from !in x[1..];
      ReplaceCharAbsent(x[1..], from, to);
    }
  }

  /** The derived variables are spellings of the version text itself: `major_minor_semver`
      is the text up to the patch number and `semver_underscores` the text with its dots
      turned into underscores. */
  lemma DerivedFromText(text: string)
    requires Parse(text).Some?
    ensures var v := Parse(text).value;
      && text == MajorMinor(v) + "." + NatToString(v.patch)
      && Underscored(v) == ReplaceChar(text, '.', '_')
  {
    var v := Parse(text).value;
    var a, b, c := NatToString(v.major), NatToString(v.minor), NatToString(v.patch);
    assert Join(".", [a, b, c]) == a + "." + Join(".", [b, c]);
    assert Join(".", [b, c]) == b + "." + c;
    ShowParse(text);
    assert text == a + "." + b + "." + c;
    DigitsHaveNoDot(a);
    DigitsHaveNoDot(b);
    DigitsHaveNoDot(c);
    ReplaceCharAbsent(a, '.', '_');
    ReplaceCharAbsent(b, '.', '_');
    ReplaceCharAbsent(c, '.', '_');
    assert "."[0] == '.' && "."[1..] == [];
    assert ReplaceChar(".", '.', '_') == "_";
    ReplaceCharConcat(a, ".", '.', '_');
    assert ReplaceChar(a + ".", '.', '_') == a + "_";
    ReplaceCharConcat(a + ".", b, '.', '_');
    assert ReplaceChar(a + "." + b, '.', '_') == a + "_" + b;
    ReplaceCharConcat(a + "." + b, ".", '.', '_');
    assert ReplaceChar(a + "." + b + ".", '.', '_') == a + "_" + b + "_";
    ReplaceCharConcat(a + "." + b + ".", c, '.', '_');
  }

  /** A run of conversions succeeds only if every key names one source and one target. */
  lemma {:induction false} ConversionKeysSplit(convs: seq<(string, Json)>, vars: map<string, string>,
                                               semver: Option<Version>, contains: RangeTest)
    requires ApplyConversions(convs, vars, semver, contains).Ok?
    ensures forall i :: 0 <= i < |convs| ==> SplitKey(convs[i].0).Ok?
  {
    if convs != [] {
      var t := Translate(convs[0].0, convs[0].1, vars, semver, contains);
      assert t.Ok?;
      assert SplitKey(convs[0].0).Ok?;
      ConversionKeysSplit(convs[1..], vars[t.value.0 := t.value.1], semver, contains);
      forall i | 1 <= i < |convs| ensures SplitKey(convs[i].0).Ok? { assert convs[i] == convs[1..][i - 1]; }
    }
  }

  /** A conversion key without "-to-" is rejected with the schema error, as soon as the
      conversions before it have succeeded. */
  lemma UnrecognizedKey(convs: seq<(string, Json)>, vars: map<string, string>, semver: Option<Version>,
                        contains: RangeTest)
    requires convs != [] && !HasSeparator(convs[0].0)
    ensures ApplyConversions(convs, vars, semver, contains) == Err(Fail(SchemaError, "Schema contains unrecognized key"))
  {
  }

  /** A template is filled only when all its conversion keys are well formed. */
  lemma FilledKeysSplit(s: Schema, args: map<string, string>, contains: RangeTest)
    requires Filled(s, args, contains).Ok?
    ensures forall i :: 0 <= i < |s.conversions| ==> SplitKey(s.conversions[i].0).Ok?
  {
    var (vars, semver) := InitialVariables(args).value;
    ConversionKeysSplit(s.conversions, vars, semver, contains);
  }

  // ---------------------------------------------------------------- rule chains

  /** One level of a rule: the entries before the chosen one, the chosen key, the
      entries after it, and the source and target names of the key that leads here. */
  datatype Link = Link(src: string, dst: string, before: seq<(string, Json)>, choice: string, after: seq<(string, Json)>)

  function KeyOf(l: Link): string { l.src + Separator + l.dst }

  /** The rule tree whose chosen path runs through `links` and ends in `leaf`. */
  function Chain(links: seq<Link>, leaf: string): Json
    requires |links| >= 1
  {
    var l := links[0];
    var inner := if |links| == 1 then JString(leaf) else JObject([(KeyOf(links[1]), Chain(links[1..], leaf))]);
    JObject(l.before + [(l.choice, inner)] + l.after)
  }

  /** The link's choice is the one `choose_translation` makes. */
  predicate Selects(l: Link, vars: map<string, string>, semver: Option<Version>, contains: RangeTest)
  {
    if l.src == "semver" then
      && semver.Some?
      && (forall j :: 0 <= j < |l.before| ==> contains(l.before[j].0, semver.value) == Some(false))
      && contains(l.choice, semver.value) == Some(true)
    else
      l.src in vars && vars[l.src] == l.choice && l.choice !in Keys(l.before)
  }

  predicate PlainName(n: string) { '-' !in n }

  /** A link whose key splits cleanly and whose choice is the one made. */
  predicate Follows(l: Link, vars: map<string, string>, semver: Option<Version>, contains: RangeTest)
  {
    PlainName(l.src) && PlainName(l.dst) && Selects(l, vars, semver, contains)
  }

  lemma DashAtOccurrence(s: string)
    ensures forall j: nat :: OccursAt(s, Separator, j) ==> s[j] == '-'
  {
    forall j: nat | OccursAt(s, Separator, j) ensures s[j] == '-' {
      assert s[j] == s[j..j + 4][0];
    }
  }

  lemma SplitKeyOf(src: string, dst: string)
    requires PlainName(src) && PlainName(dst)
    ensures SplitKey(src + Separator + dst) == Ok((src, dst))
  {
    var key := src + Separator + dst;
    assert OccursAt(key, Separator, |src|) by { assert key[|src|..|src| + 4] == Separator; }
    forall j | 0 <= j < |src| ensures !OccursAt(key, Separator, j) {
      assert key[j] == src[j];
    }
    var f := Find(key, Separator, 0);
    assert f == Some(|src|);
    assert key[|src| + 4..] == dst;
    DashAtOccurrence(dst);
  }

  lemma LookupSkips(before: seq<(string, Json)>, key: string, value: Json, after: seq<(string, Json)>)
    requires key !in Keys(before)
    ensures Lookup(before + [(key, value)] + after, key) == Some(value)
  {
    if before != [] {
      assert (before + [(key, value)] + after)[1..] == before[1..] + [(key, value)] + after;
      assert before[0].0 == Keys(before)[0];
      assert Keys(before[1..]) == Keys(before)[1..];
      LookupSkips(before[1..], key, value, after);
    }
  }

  /** At one level, `choose_translation` picks the link's choice. */
  lemma ChooseLink(l: Link, inner: Json, vars: map<string, string>, semver: Option<Version>, contains: RangeTest)
    requires Selects(l, vars, semver, contains)
    ensures Choose(l.src, JObject(l.before + [(l.choice, inner)] + l.after), vars, semver, contains) == Ok(inner)
  {
    var members := l.before + [(l.choice, inner)] + l.after;
    assert members[|l.before|] == (l.choice, inner);
    if l.src == "semver" {
      forall j | 0 <= j < |l.before| ensures members[j] == l.before[j] { }
      FirstRangeFinds(members, semver.value, contains, 0, |l.before|);
    } else {
      LookupSkips(l.before, l.choice, inner, l.after);
    }
  }

  /** One level of `recursive_translate` along a link: a string ends the walk, an
      object with one entry continues it with that entry. */
  lemma TranslateLevel(l: Link, inner: Json, vars: map<string, string>, semver: Option<Version>, contains: RangeTest)
    requires Follows(l, vars, semver, contains)
    ensures var t := Translate(KeyOf(l), JObject(l.before + [(l.choice, inner)] + l.after), vars, semver, contains);
      && (inner.JString? ==> t == Ok((l.dst, inner.str)))
      && (inner.JObject? && |inner.members| == 1 ==> t == Translate(inner.members[0].0, inner.members[0].1, vars, semver, contains))
      && (!inner.JString? && !inner.JObject? ==>
            t == Err(Fail(SchemaError, "Translator object is neither a string nor a dictionary")))
      && (inner.JObject? && |inner.members| != 1 ==>
            t == Err(Fail(SchemaError, "Translator object should only have one key available")))
  {
    SplitKeyOf(l.src, l.dst);
    ChooseLink(l, inner, vars, semver, contains);
  }

  /** A `semver` rule none of whose ranges contains the version stops with the
      "no resolution" SchemaError. */
  lemma NoResolution(dst: string, members: seq<(string, Json)>, vars: map<string, string>, v: Version, contains: RangeTest)
    requires PlainName(dst)
    requires forall j :: 0 <= j < |members| ==> contains(members[j].0, v) == Some(false)
    ensures Translate("semver" + Separator + dst, JObject(members), vars, Some(v), contains)
         == Err(Fail(SchemaError, "Schema contains no resolution for version " + Show(v)))
  {
    assert PlainName("semver");
    SplitKeyOf("semver", dst);
  }

  /** A chain of one link translates to its leaf. */
  lemma ChainEnd(l: Link, leaf: string, vars: map<string, string>, semver: Option<Version>, contains: RangeTest)
    requires Follows(l, vars, semver, contains)
    ensures Translate(KeyOf(l), Chain([l], leaf), vars, semver, contains) == Ok((l.dst, leaf))
  {
    TranslateLevel(l, JString(leaf), vars, semver, contains);
  }

  /** A longer chain translates as the chain without its first link. */
  lemma ChainStep(links: seq<Link>, leaf: string, vars: map<string, string>, semver: Option<Version>, contains: RangeTest)
    requires |links| >= 2 && Follows(links[0], vars, semver, contains)
    ensures Translate(KeyOf(links[0]), Chain(links, leaf), vars, semver, contains)
         == Translate(KeyOf(links[1]), Chain(links[1..], leaf), vars, semver, contains)
  {
    var inner := JObject([(KeyOf(links[1]), Chain(links[1..], leaf))]);
    TranslateLevel(links[0], inner, vars, semver, contains);
  }

  /** The variable a conversion binds is the target of the innermost key on the chosen
      path, and its value is the string at the end of that path, whatever the other
      entries at each level hold. */
  lemma {:induction false} ChainTranslates(links: seq<Link>, leaf: string, vars: map<string, string>,
                                           semver: Option<Version>, contains: RangeTest)
    requires |links| >= 1
    requires forall i :: 0 <= i < |links| ==> Follows(links[i], vars, semver, contains)
    ensures Translate(KeyOf(links[0]), Chain(links, leaf), vars, semver, contains)
         == Ok((links[|links| - 1].dst, leaf))
    decreases |links|, 1
  {
    if |links| == 1 {
      assert links == [links[0]];
      ChainEnd(links[0], leaf, vars, semver, contains);
    } else {
      ChainLonger(links, leaf, vars, semver, contains);
    }
  }

  lemma {:induction false} ChainLonger(links: seq<Link>, leaf: string, vars: map<string, string>,
                                       semver: Option<Version>, contains: RangeTest)
    requires |links| >= 2
    requires forall i :: 0 <= i < |links| ==> Follows(links[i], vars, semver, contains)
    ensures Translate(KeyOf(links[0]), Chain(links, leaf), vars, semver, contains)
         == Ok((links[|links| - 1].dst, leaf))
    decreases |links|, 0
  {
    var rest := links[1..];
    assert rest[0] == links[1] && rest[|rest| - 1] == links[|links| - 1];
    ChainStep(links, leaf, vars, semver, contains);
    ChainTranslates(rest, leaf, vars, semver, contains);
  }
}
