/** The exception values of aqt/exceptions.py (and `SchemaError` of
    aqt/repo_model.py), their class hierarchy, and how they render with the
    "Suggested follow-up" block. Python's own exceptions that the modelled code
    can raise are listed in `Failure`. */
module Exceptions {
  import opened Wrappers
  import opened Strs

  /** The classes of the hierarchy. */
  datatype Kind =
    | AqtException
    | ArchiveDownloadError
    | ArchiveChecksumError
    | ArchiveConnectionError
    | ArchiveListError
    | NoPackageFound
    | EmptyMetadata
    | CliInputError
    | CliKeyboardInterrupt
    | ArchiveExtractionError
    | UpdaterError
    | SchemaError

  /** The class a kind directly derives from; `AqtException` derives from `Exception`. */
  function Base(k: Kind): Option<Kind>
  {
    match k
    case AqtException => None
    case ArchiveChecksumError => Some(ArchiveDownloadError)
    case _ => Some(AqtException)
  }

  function Depth(k: Kind): nat
  {
    match k
    case AqtException => 0
    case ArchiveChecksumError => 2
    case _ => 1
  }

  /** `issubclass(k, c)`. */
  predicate IsA(k: Kind, c: Kind)
    decreases Depth(k)
  {
    k == c || (Base(k).Some? && IsA(Base(k).value, c))
  }

  lemma EveryKindIsAqtException(k: Kind)
    ensures IsA(k, AqtException)
  {
  }

  /** A checksum failure is caught by handlers for download failures, not the other way round. */
  lemma ChecksumErrorIsDownloadError()
    ensures IsA(ArchiveChecksumError, ArchiveDownloadError)
    ensures !IsA(ArchiveDownloadError, ArchiveChecksumError)
    ensures !IsA(ArchiveChecksumError, ArchiveConnectionError)
  {
  }

  /** An instance of one of the classes above. */
  datatype AqtError = AqtError(kind: Kind, args: seq<string>, suggestedAction: seq<string>, shouldShowHelp: bool)

  /** What a modelled call can raise: one of the classes above, or one of Python's own. */
  datatype Failure =
    | Raised(error: AqtError)
    | KeyError(key: string)
    | ValueError(detail: string)
    | NameError(name: string)
    | IndexError
    | AssertionError
    | TypeMismatch      // TypeError or AttributeError: a value of the wrong JSON type

  /** `kind(*args, suggested_action=..., should_show_help=...)`; an absent keyword takes its default. */
  function NewError(kind: Kind, args: seq<string>, suggestedAction: Option<seq<string>>, shouldShowHelp: Option<bool>): (e: AqtError)
    ensures e.kind == kind && e.args == args
    ensures suggestedAction.None? ==> e.suggestedAction == []
    ensures suggestedAction.Some? ==> e.suggestedAction == suggestedAction.value
    ensures e.shouldShowHelp <==> shouldShowHelp == Some(true)
  {
    AqtError(kind, args,
      match suggestedAction case Some(s) => s case None => [],
      match shouldShowHelp case Some(b) => b case None => false)
  }

  /** An error raised with a message and no keywords, such as `SchemaError("...")`. */
  function Fail(kind: Kind, message: string): Failure
  {
    Raised(NewError(kind, [message], None, None))
  }

  /** `str(Exception(*args))`: empty, the one argument, or the repr of the tuple of
      arguments, each written by `repr` and separated by ", ". */
  function BaseMessage(args: seq<string>): (r: string)
    ensures |args| == 0 ==> r == ""
    ensures |args| == 1 ==> r == args[0]
    ensures |args| >= 2 ==> StartsWith(r, "(" + Repr(args[0]) + ", ") && EndsWith(r, ")")
    ensures |args| >= 2 ==> '\n' !in r
  {
    if |args| == 0 then ""
    else if |args| == 1 then args[0]
    else
      var reprs := Reprs(args);
      JoinWithout(", ", reprs, '\n');
      var r := "(" + Join(", ", reprs) + ")";
      assert r == ("(" + Repr(args[0]) + ", ") + Join(", ", reprs[1..]) + ")";
      r
  }

  /** The repr of each argument, in order. */
  function Reprs(args: seq<string>): (r: seq<string>)
    ensures |r| == |args|
    ensures forall i :: 0 <= i < |r| ==> r[i] == Repr(args[i])
  {
    if args == [] then [] else [Repr(args[0])] + Reprs(args[1..])
  }

  /** The quote `repr` puts around a string: a double quote when the string holds a
      single quote and no double quote, a single quote otherwise. */
  function QuoteFor(s: string): char
  {
    if '\'' in s && '"' !in s then '"' else '\''
  }

  /** `repr(s)` for a string: the quote, each character escaped, the quote. */
  function Repr(s: string): (r: string)
    ensures '\n' !in r
  {
    [QuoteFor(s)] + EscapeAll(s, QuoteFor(s)) + [QuoteFor(s)]
  }

  /** A lower-case hexadecimal digit. */
  function HexDigit(d: nat): char
    requires d < 16
  {
    if d < 10 then ('0' as int + d) as char else ('a' as int + d - 10) as char
  }

  predicate IsHexDigit(c: char) { '0' <= c <= '9' || 'a' <= c <= 'f' }

  function HexValue(c: char): nat
    requires IsHexDigit(c)
  {
    if c <= '9' then c as int - '0' as int else c as int - 'a' as int + 10
  }

  /** How `repr` writes one character between quotes `q`: the quote and the backslash
      behind a backslash, tab, line feed and carriage return as `\t`, `\n`, `\r`, the
      other ASCII control characters as `\x` and two hexadecimal digits, the rest as they are. */
  function Escape(c: char, q: char): (r: string)
    requires q == '\'' || q == '"'
    ensures '\n' !in r
  {
    if c == q || c == '\\' then ['\\', c]
    else if c == '\t' then "\\t"
    else if c == '\n' then "\\n"
    else if c == '\r' then "\\r"
    else if c as int < 32 || c as int == 127 then ['\\', 'x', HexDigit(c as int / 16), HexDigit(c as int % 16)]
    else [c]
  }

  /** Every character of `s` written as `Escape` writes it, in order. */
  function EscapeAll(s: string, q: char): (r: string)
    requires q == '\'' || q == '"'
    ensures '\n' !in r
  {
    if s == [] then [] else Escape(s[0], q) + EscapeAll(s[1..], q)
  }

  /** The first character of escaped text and how many characters spell it. */
  function UnescapeHead(t: string): (r: Option<(char, nat)>)
    requires t != []
    ensures r.Some? ==> 1 <= r.value.1 <= |t|
  {
    if t[0] != '\\' then Some((t[0], 1))
    else if |t| >= 2 && (t[1] == '\\' || t[1] == '\'' || t[1] == '"') then Some((t[1], 2))
    else if |t| >= 2 && t[1] == 't' then Some(('\t', 2))
    else if |t| >= 2 && t[1] == 'n' then Some(('\n', 2))
    else if |t| >= 2 && t[1] == 'r' then Some(('\r', 2))
    else if |t| >= 4 && t[1] == 'x' && IsHexDigit(t[2]) && IsHexDigit(t[3])
    then Some(((HexValue(t[2]) * 16 + HexValue(t[3])) as char, 4))
    else None
  }

  /** Reads escaped text back: the inverse of `EscapeAll`. */
  function Unescape(t: string): Option<string>
    decreases |t|
  {
    if t == [] then Some([])
    else match UnescapeHead(t)
      case None => None
      case Some((c, used)) =>
        match Unescape(t[used..])
        case None => None
        case Some(rest) => Some([c] + rest)
  }

  lemma UnescapeOne(c: char, q: char, rest: string)
    requires q == '\'' || q == '"'
    ensures Unescape(Escape(c, q) + rest) ==
      match Unescape(rest) case Some(u) => Some([c] + u) case None => None
  {
    var t := Escape(c, q) + rest;
    assert t[|Escape(c, q)|..] == rest;
    if c as int < 32 || c as int == 127 {
      if c != '\t' && c != '\n' && c != '\r' {
        var hi, lo := c as int / 16, c as int % 16;
        assert HexValue(HexDigit(hi)) == hi && HexValue(HexDigit(lo)) == lo;
      }
    }
  }

  /** Escaping loses nothing: the escaped text reads back as the original. */
  lemma {:induction false} UnescapeEscape(s: string, q: char)
    requires q == '\'' || q == '"'
    ensures Unescape(EscapeAll(s, q)) == Some(s)
  {
    if s != [] {
      UnescapeEscape(s[1..], q);
      UnescapeOne(s[0], q, EscapeAll(s[1..], q));
      assert [s[0]] + s[1..] == s;
    }
  }

  /** Text with no quote of the kind chosen, no backslash and no ASCII control character
      is written as it is, between the quotes: `'x'`, `"it's"`. */
  lemma {:induction false} ReprPlain(s: string)
    requires !('\'' in s && '"' in s) && '\\' !in s
    requires forall i :: 0 <= i < |s| ==> 32 <= s[i] as int != 127
    ensures Repr(s) == [QuoteFor(s)] + s + [QuoteFor(s)]
    ensures QuoteFor(s) == (if '\'' in s then '"' else '\'')
  {
    EscapePlain(s, QuoteFor(s));
  }

  lemma {:induction false} EscapePlain(s: string, q: char)
    requires q == '\'' || q == '"'
    requires q !in s && '\\' !in s
    requires forall i :: 0 <= i < |s| ==> 32 <= s[i] as int != 127
    ensures EscapeAll(s, q) == s
  {
    if s != [] {
      EscapePlain(s[1..], q);
      assert [s[0]] + s[1..] == s;
    }
  }

  /** Two arguments are written `(a, b)`, each by `repr`. */
  lemma PairMessage(a: string, b: string)
    ensures BaseMessage([a, b]) == "(" + Repr(a) + ", " + Repr(b) + ")"
  {
    var xs := [Repr(a), Repr(b)];
    assert Reprs([a, b]) == xs;
    assert xs[1..] == [Repr(b)];
    assert Join(", ", xs) == Repr(a) + ", " + Repr(b);
  }

  /** An argument with an apostrophe is put between double quotes, so the two arguments
      `it's` and `x` are written `("it's", 'x')`. */
  lemma ApostropheRepr()
    ensures Repr("it's") == "\"it's\"" && Repr("x") == "'x'"
  {
    ReprPlain("it's");
    assert "it's"[2] == '\'';
    ReprPlain("x");
  }

  /** The thirty `=` on either side of the banner. */
  const Rule: string := Repeat("=", 30)

  const Banner: string := Rule + "Suggested follow-up:" + Rule

  lemma RuleText()
    ensures |Rule| == 30 && forall i :: 0 <= i < 30 ==> Rule[i] == '='
    ensures '\n' !in Banner
  {
    forall i | 0 <= i < 30 ensures Rule[i] == '=' { RepeatAt('=', 30, i); }
  }

  function Bullets(suggestions: seq<string>): (r: seq<string>)
    ensures |r| == |suggestions|
    ensures forall i :: 0 <= i < |r| ==> r[i] == "* " + suggestions[i]
  {
    if suggestions == [] then [] else ["* " + suggestions[0]] + Bullets(suggestions[1..])
  }

  /** `_format_suggested_follow_up`: the banner line, then one bullet per suggestion,
      with no line break after the last one. */
  function FollowUp(suggestions: seq<string>): (r: string)
    ensures StartsWith(r, Banner + "\n")
    ensures suggestions != [] ==> EndsWith(r, "* " + suggestions[|suggestions| - 1])
  {
    var bullets := Bullets(suggestions);
    JoinLast("\n", bullets);
    Banner + "\n" + Join("\n", bullets)
  }

  /** `format(e, spec)`: a non-empty spec is refused by `object.__format__`; no
      suggestions leave the message alone, otherwise the follow-up block is appended.
      The message is `BaseMessage`, whose tuple repr escapes ASCII characters only. */
  function Format(e: AqtError, spec: string): (r: Result<string, Failure>)
    ensures spec != "" ==> r.Err?
    ensures spec == "" && e.suggestedAction == [] ==> r == Ok(BaseMessage(e.args))
    ensures spec == "" && e.suggestedAction != [] ==>
      r == Ok(BaseMessage(e.args) + "\n" + Banner + "\n" + Join("\n", Bullets(e.suggestedAction)))
  {
    if spec != "" then Err(TypeMismatch)
    else if e.suggestedAction == [] then Ok(BaseMessage(e.args))
    else
      assert FollowUp(e.suggestedAction) == Banner + "\n" + Join("\n", Bullets(e.suggestedAction));
      AppendAssoc(BaseMessage(e.args) + "\n", Banner + "\n", Join("\n", Bullets(e.suggestedAction)));
      AppendAssoc(BaseMessage(e.args) + "\n", Banner, "\n");
      Ok(BaseMessage(e.args) + "\n" + FollowUp(e.suggestedAction))
  }

  /** Without line breaks inside the suggestions, the block's lines are the banner
      and one "* " line per suggestion. */
  lemma FollowUpLines(suggestions: seq<string>)
    requires |suggestions| >= 1
    requires forall i :: 0 <= i < |suggestions| ==> '\n' !in suggestions[i]
    ensures Split(FollowUp(suggestions), '\n') == [Banner] + Bullets(suggestions)
  {
    var bullets := Bullets(suggestions);
    RuleText();
    forall i | 0 <= i < |bullets| ensures '\n' !in bullets[i] {
      assert bullets[i] == "* " + suggestions[i];
    }
    var tail := Join("\n", bullets);
    SplitJoin(bullets, '\n');
    SplitWithout(Banner, '\n');
    SplitConcat(Banner, '\n', tail);
  }

  /** When no line break occurs inside the message or the suggestions, the rendered
      text has the message's line, then the banner, then one "* " line per suggestion. */
  lemma FormatLines(e: AqtError)
    requires e.suggestedAction != []
    requires forall i :: 0 <= i < |e.suggestedAction| ==> '\n' !in e.suggestedAction[i]
    requires '\n' !in BaseMessage(e.args)
    ensures Format(e, "").Ok?
    ensures Split(Format(e, "").value, '\n') == [BaseMessage(e.args), Banner] + Bullets(e.suggestedAction)
  {
    var base := BaseMessage(e.args);
    FollowUpLines(e.suggestedAction);
    SplitWithout(base, '\n');
    SplitConcat(base, '\n', FollowUp(e.suggestedAction));
  }

  /** `ArchiveExtractionError(tool, archive, *args, suggested_action=..., should_show_help=...)`,
      with the working directory, read by the source from `os.getcwd()`, as a parameter. */
  function NewExtractionError(tool: string, archive: string, args: seq<string>,
                              suggestedAction: Option<seq<string>>, shouldShowHelp: Option<bool>,
                              cwd: string): (r: Result<AqtError, Failure>)
    ensures r.Err? <==> |args| == 0
    ensures r.Err? ==> r.error == IndexError
    ensures r.Ok? ==> r.value.kind == ArchiveExtractionError && |r.value.args| == |args|
  {
    if |args| == 0 then Err(IndexError)
    else
      var msg := "`" + tool + "` failed to extract `" + archive + "`: " + args[0];
      var given := match suggestedAction case Some(s) => s case None => [];
      Ok(NewError(ArchiveExtractionError, [msg] + args[1..], Some(given + ExtractionAdvice(cwd)), shouldShowHelp))
  }

  const ExternalToolAdvice: string :=
    "Consider using another 7z extraction tool with `--external`\n"
    + "  (see https://aqtinstall.readthedocs.io/en/latest/cli.html#cmdoption-list-tool-external)"

  const BugReportAdvice: string :=
    "If this error persists, file a bug report at https://github.com/miurahr/aqtinstall/issues,\n"
    + "  and include the relevant log file at "

  /** The two suggestions every extraction error carries. */
  function ExtractionAdvice(cwd: string): seq<string>
  {
    [ExternalToolAdvice, BugReportAdvice + cwd + "/aqtinstall.log"]
  }

  /** The extraction error's message names the tool, the archive and the first argument,
      forwards the other arguments, and appends exactly the two fixed suggestions. */
  lemma ExtractionErrorShape(tool: string, archive: string, args: seq<string>,
                             suggestedAction: Option<seq<string>>, cwd: string)
    requires |args| >= 1
    ensures var r := NewExtractionError(tool, archive, args, suggestedAction, None, cwd);
      && r.Ok?
      && r.value.kind == ArchiveExtractionError
      && r.value.args[0] == "`" + tool + "` failed to extract `" + archive + "`: " + args[0]
      && r.value.args[1..] == args[1..]
      && |r.value.suggestedAction| >= 2
      && r.value.suggestedAction[|r.value.suggestedAction| - 2..] == ExtractionAdvice(cwd)
      && r.value.suggestedAction[..|r.value.suggestedAction| - 2]
         == (if suggestedAction.Some? then suggestedAction.value else [])
      && !r.value.shouldShowHelp
  {
  }

  /** The layout of two suggestions, as tests/test_list.py expects it: the banner, then
      each suggestion on its own line after "* ". */
  lemma FollowUpTwo(a: string, b: string)
    ensures FollowUp([a, b]) == Banner + "\n" + "* " + a + "\n" + "* " + b
  {
    assert Bullets([a, b]) == ["* " + a, "* " + b];
    assert Join("\n", ["* " + a, "* " + b]) == "* " + a + "\n" + "* " + b;
  }

  /** The full text of an error carrying two suggestions. */
  lemma FormatTwo(e: AqtError, a: string, b: string)
    requires e.suggestedAction == [a, b]
    ensures Format(e, "") == Ok(BaseMessage(e.args) + "\n" + Banner + "\n" + "* " + a + "\n" + "* " + b)
  {
    var head := BaseMessage(e.args) + "\n" + Banner + "\n";
    assert Bullets([a, b]) == ["* " + a, "* " + b];
    assert Join("\n", ["* " + a, "* " + b]) == "* " + a + "\n" + "* " + b;
    AppendAssoc(head, "* " + a + "\n" + "* ", b);
    AppendAssoc(head, "* " + a + "\n", "* ");
    AppendAssoc(head, "* " + a, "\n");
    AppendAssoc(head, "* ", a);
  }

  /** The full text of an extraction error raised without suggestions of its own: the
      message, the banner, and the two fixed suggestions, each with its inner line break. */
  lemma ExtractionErrorText(tool: string, archive: string, args: seq<string>, cwd: string)
    requires |args| >= 1
    ensures var r := NewExtractionError(tool, archive, args, None, None, cwd);
      && r.Ok?
      && r.value.args == ["`" + tool + "` failed to extract `" + archive + "`: " + args[0]] + args[1..]
      && Format(r.value, "") == Ok(BaseMessage(r.value.args) + "\n" + Banner + "\n"
           + "* " + ExtractionAdvice(cwd)[0] + "\n" + "* " + ExtractionAdvice(cwd)[1])
  {
    var e := NewExtractionError(tool, archive, args, None, None, cwd).value;
    assert e.suggestedAction == ExtractionAdvice(cwd);
    FormatTwo(e, ExtractionAdvice(cwd)[0], ExtractionAdvice(cwd)[1]);
  }
}
