/** `template.format(**variables)` for templates with named fields only: each
    `{name}` is replaced by the variable's value, `{{` and `}}` stand for single
    braces. */
module Templates {
  import opened Wrappers
  import opened Strs
  import opened Exceptions

  predicate IsBrace(c: char) { c == '{' || c == '}' }

  /** The index of the first `}` at or after `from`. */
  function CloseAt(t: string, from: nat): (r: Option<nat>)
    ensures r.Some? ==> from <= r.value < |t| && t[r.value] == '}'
    ensures r.Some? ==> forall k :: from <= k < r.value ==> t[k] != '}'
    ensures r.None? ==> forall k :: from <= k < |t| ==> t[k] != '}'
    decreases |t| - from
  {
    if from >= |t| then None else if t[from] == '}' then Some(from) else CloseAt(t, from + 1)
  }

  /** A field Python reads as positional (`{}` or `{0}`): there are no positional arguments. */
  predicate IsPositional(name: string) { forall k :: 0 <= k < |name| ==> IsDigit(name[k]) }

  function Prepend(s: string, r: Result<string, Failure>): Result<string, Failure>
  {
    match r
    case Ok(rest) => Ok(s + rest)
    case Err(e) => Err(e)
  }

  /** `t.format(**vars)`. */
  function FormatNamed(t: string, vars: map<string, string>): Result<string, Failure>
    decreases |t|
  {
    if t == [] then Ok("")
    else if t[0] == '{' then
      if |t| >= 2 && t[1] == '{' then Prepend("{", FormatNamed(t[2..], vars))
      else match CloseAt(t, 1)
        case None => Err(ValueError("Single '{' encountered in format string"))
        case Some(j) =>
          var name := t[1..j];
          if '{' in name then Err(ValueError("unexpected '{' in field name"))
          else if IsPositional(name) then Err(IndexError)
          else if name !in vars then Err(KeyError(name))
          else Prepend(vars[name], FormatNamed(t[j + 1..], vars))
    else if t[0] == '}' then
      if |t| >= 2 && t[1] == '}' then Prepend("}", FormatNamed(t[2..], vars))
      else Err(ValueError("Single '}' encountered in format string"))
    else Prepend([t[0]], FormatNamed(t[1..], vars))
  }

  // ---------------------------------------------------------------- templates built from pieces

  /** A template as literal text and named fields. */
  datatype Piece = Text(text: string) | Field(name: string)

  predicate PlainText(s: string) { forall k :: 0 <= k < |s| ==> !IsBrace(s[k]) }

  predicate FieldName(name: string) { PlainText(name) && !IsPositional(name) }

  predicate WellFormed(pieces: seq<Piece>)
  {
    forall i :: 0 <= i < |pieces| ==>
      match pieces[i] case Text(s) => PlainText(s) case Field(n) => FieldName(n)
  }

  /** The template text of the pieces. */
  function Render(pieces: seq<Piece>): string
  {
    if pieces == [] then ""
    else match pieces[0]
      case Text(s) => s + Render(pieces[1..])
      case Field(n) => "{" + n + "}" + Render(pieces[1..])
  }

  /** The reference reading: text as it is, each field replaced by its value,
      or the first field without a value. */
  function Substitute(pieces: seq<Piece>, vars: map<string, string>): Result<string, Failure>
  {
    if pieces == [] then Ok("")
    else match pieces[0]
      case Text(s) => Prepend(s, Substitute(pieces[1..], vars))
      case Field(n) => if n in vars then Prepend(vars[n], Substitute(pieces[1..], vars)) else Err(KeyError(n))
  }

  lemma {:induction false} FormatPlainText(s: string, rest: string, vars: map<string, string>)
    requires PlainText(s)
    ensures FormatNamed(s + rest, vars) == Prepend(s, FormatNamed(rest, vars))
    decreases |s|
  {
    if s == [] {
      assert s + rest == rest;
      match FormatNamed(rest, vars) {
        case Ok(x) => assert "" + x == x;
        case Err(_) =>
      }
    } else {
      assert (s + rest)[0] == s[0] && (s + rest)[1..] == s[1..] + rest;
      FormatPlainText(s[1..], rest, vars);
      match FormatNamed(rest, vars) {
        case Ok(x) => assert [s[0]] + (s[1..] + x) == s + x;
        case Err(_) =>
      }
    }
  }

  lemma FormatField(n: string, rest: string, vars: map<string, string>)
    requires FieldName(n)
    ensures FormatNamed("{" + n + "}" + rest, vars)
      == if n in vars then Prepend(vars[n], FormatNamed(rest, vars)) else Err(KeyError(n))
  {
    var t := "{" + n + "}" + rest;
    assert t[0] == '{';
    assert t[1..|n| + 1] == n;
    assert t[|n| + 1] == '}';
    assert forall k :: 1 <= k < |n| + 1 ==> t[k] == n[k - 1];
    assert CloseAt(t, 1) == Some(|n| + 1);
    assert t[|n| + 2..] == rest;
  }

  /** Formatting a well-formed template substitutes every field: the template engine
      agrees with the reference reading, including which missing variable it reports. */
  lemma {:induction false} FormatRender(pieces: seq<Piece>, vars: map<string, string>)
    requires WellFormed(pieces)
    ensures FormatNamed(Render(pieces), vars) == Substitute(pieces, vars)
  {
    if pieces != [] {
      FormatRender(pieces[1..], vars);
      match pieces[0] {
        case Text(s) =>
          FormatPlainText(s, Render(pieces[1..]), vars);
        case Field(n) =>
          FormatField(n, Render(pieces[1..]), vars);
      }
    }
  }

  /** Text without braces comes through unchanged. */
  lemma FormatNoFields(s: string, vars: map<string, string>)
    requires PlainText(s)
    ensures FormatNamed(s, vars) == Ok(s)
  {
    FormatPlainText(s, "", vars);
    assert s + "" == s;
  }
}
