/** `pretty_print_combos` of aqt/generate_combinations.py and its helpers: the aligned
    one-line records, the wrapping of long module lines, and the version lists with one
    line per minor version. */
module Pretty {
  import opened Wrappers
  import opened Strs
  import opened Exceptions
  import opened Versions
  import opened Combos

  /** What a formatter produces: text, an exception, or no answer because the source's
      loop never ends. */
  datatype Outcome = Done(text: string) | Fails(failure: Failure) | Loops

  /** `"  " * n`. */
  function Indent(n: nat): (r: string)
    ensures |r| == 2 * n
    ensures forall i :: 0 <= i < |r| ==> r[i] == ' '
  {
    if n == 0 then "" else "  " + Indent(n - 1)
  }

  /** `f"{s:<n}"`: left-aligned, padded with spaces, never cut. */
  function PadRight(s: string, n: nat): (r: string)
    ensures |r| == if |s| < n then n else |s|
    ensures r[..|s|] == s
    ensures forall i :: |s| <= i < |r| ==> r[i] == ' '
  {
    if |s| < n then s + seq(n - |s|, _ => ' ') else s
  }

  function Quote(s: string): string { "\"" + s + "\"" }

  function QuoteAll(xs: seq<string>): (r: seq<string>)
    ensures |r| == |xs|
    ensures forall i :: 0 <= i < |xs| ==> r[i] == Quote(xs[i])
  {
    if xs == [] then [] else [Quote(xs[0])] + QuoteAll(xs[1..])
  }

  // ---------------------------------------------------------------- fmt_dict_entry

  const ArchLabel: string := "\"arch\": \""

  function ToolPart(toolName: Option<string>): string
  {
    match toolName
    case Some(t) => "\"tool_name\": \"" + t + "\", "
    case None => ""
  }

  /** `fmt_dict_entry(entry, depth)`. With an os_name of at most seven characters the
      target field starts in the same column on every line, which is what the padding is for. */
  function FmtDictEntry(e: Row, depth: nat): (r: string)
    ensures |e.osName| <= 7 ==> OccursAt(r, " \"target\": ", 2 * depth + 22)
  {
    var front := EntryFront(e, depth);
    OccursBefore(front, " \"target\": ", 2 * depth + 22, ToolPart(e.toolName) + EntryTail(e));
    front + (ToolPart(e.toolName) + EntryTail(e))
  }

  /** The entry up to the optional tool name: the padded os_name and target fields. */
  function EntryFront(e: Row, depth: nat): (r: string)
    ensures |e.osName| <= 7 ==> OccursAt(r, " \"target\": ", 2 * depth + 22)
  {
    var head := Indent(depth) + "{\"os_name\": " + PadRight(Quote(e.osName) + ",", 10);
    var r := head + (" \"target\": " + PadRight(Quote(e.target) + ",", 10) + " ");
    assert |e.osName| <= 7 ==> |head| == 2 * depth + 22;
    r
  }

  /** The entry after the optional tool name: the arch field and the closing brace. */
  function EntryTail(e: Row): string
  {
    ArchLabel + e.arch + "\"}"
  }

  lemma OccursBefore(a: string, p: string, i: nat, b: string)
    ensures OccursAt(a, p, i) ==> OccursAt(a + b, p, i)
  {
    if OccursAt(a, p, i) {
      assert (a + b)[i..i + |p|] == a[i..i + |p|];
    }
  }

  /** The tool name, when the record has one, is the only difference: it sits just before
      the arch field. */
  lemma DictEntryToolName(e: Row, depth: nat, t: string)
    requires e.toolName.None?
    ensures var without := FmtDictEntry(e, depth);
      var k := |without| - (|ArchLabel| + |e.arch| + 2);
      0 <= k && FmtDictEntry(e.(toolName := Some(t)), depth)
        == without[..k] + "\"tool_name\": \"" + t + "\", " + without[k..]
  {
    var front, tail := EntryFront(e, depth), EntryTail(e);
    var without := FmtDictEntry(e, depth);
    EntryPieces(e, depth, front, tail);
    assert EntryFront(e.(toolName := Some(t)), depth) == front;
  }

  lemma EntryPieces(e: Row, depth: nat, front: string, tail: string)
    requires e.toolName.None? && front == EntryFront(e, depth) && tail == EntryTail(e)
    ensures FmtDictEntry(e, depth) == front + tail
    ensures FmtDictEntry(e, depth)[..|front|] == front && FmtDictEntry(e, depth)[|front|..] == tail
  {
    assert FmtDictEntry(e, depth) == front + tail;
  }

  // ---------------------------------------------------------------- span_multiline

  /** `line.rfind(" ", start, end)`: the last `c` in `line[start:end]`, or none. */
  function RFind(s: string, c: char, start: nat, end: nat): (r: Option<nat>)
    ensures r.Some? ==> start <= r.value < end && r.value < |s| && s[r.value] == c
    decreases end
  {
    var e := if end > |s| then |s| else end;
    if e <= start then None
    else if s[e - 1] == c then Some(e - 1)
    else RFind(s, c, start, e - 1)
  }

  /** `rfind` finds the last occurrence inside the window, and none means there is none. */
  lemma {:induction false} RFindLast(s: string, c: char, start: nat, end: nat)
    ensures var r := RFind(s, c, start, end);
      && (r.Some? ==> forall j :: r.value < j < end && j < |s| ==> s[j] != c)
      && (r.None? ==> forall j :: start <= j < end && j < |s| ==> s[j] != c)
    decreases end
  {
    var e := if end > |s| then |s| else end;
    if e > start && s[e - 1] != c {
      RFindLast(s, c, start, e - 1);
    }
  }

  /** One pass of the loop of `span_multiline`: the last space of the window `[start, start +
      maxWidth)` becomes a line break followed by the indent, and the next window starts at
      the indent's last column. None when the window's only space is at its start, or when
      it has none. */
  function SpanBreak(line: string, maxWidth: nat, indent: string, start: nat): (r: Option<(string, nat)>)
    ensures r.Some? ==> |r.value.0| - r.value.1 < |line| - start
  {
    match RFind(line, ' ', start, start + maxWidth)
    case None => None
    case Some(b) =>
      if b == start then None
      else Some((line[..b] + "\n" + indent + line[b + 1..], b + |indent|))
  }

  /** The loop of `span_multiline` from a window starting at `start`. A window whose only
      space is the one at its start makes no progress: there the source runs forever,
      first because `rfind` gives -1 and then because it keeps finding the indent it just
      inserted. */
  function SpanFrom(line: string, maxWidth: nat, indent: string, start: nat): (r: Outcome)
    ensures r.Done? || r.Loops?
    decreases |line| - start
  {
    if |line| - start <= maxWidth then Done(line)
    else match SpanBreak(line, maxWidth, indent, start)
      case None => Loops
      case Some((next, nextStart)) => SpanFrom(next, maxWidth, indent, nextStart)
  }

  /** `span_multiline(line, max_width, depth)`. */
  function Span(line: string, maxWidth: nat, depth: nat): Outcome
  {
    SpanFrom(line, maxWidth, Indent(depth + 1), 0)
  }

  /** The loop itself: each pass replaces the last space of the window by a line break and
      the indent, and moves the window past the inserted text. */
  method SpanMultiline(line: string, maxWidth: nat, depth: nat) returns (r: Outcome)
    ensures r == Span(line, maxWidth, depth)
  {
    var windowStart: nat, windowEnd: nat := 0, maxWidth;
    var indent := Indent(depth + 1);
    var text := line;
    while |text| - windowStart > maxWidth
      invariant windowEnd == windowStart + maxWidth
      invariant SpanFrom(text, maxWidth, indent, windowStart) == Span(line, maxWidth, depth)
      decreases |text| - windowStart
    {
      var progress, next, nextStart := SpanPass(text, maxWidth, indent, windowStart, windowEnd);
      if !progress {
        return Loops;
      }
      text := next;
      windowStart, windowEnd := nextStart, nextStart + maxWidth;
    }
    return Done(text);
  }

  /** One pass of the loop body: find the break, replace it, move the window. */
  method SpanPass(text: string, maxWidth: nat, indent: string, windowStart: nat, windowEnd: nat)
    returns (progress: bool, next: string, nextStart: nat)
    requires windowEnd == windowStart + maxWidth
    ensures progress <==> SpanBreak(text, maxWidth, indent, windowStart).Some?
    ensures progress ==> SpanBreak(text, maxWidth, indent, windowStart).value == (next, nextStart)
  {
    var breakLoc := RFind(text, ' ', windowStart, windowEnd);
    if breakLoc.None? || breakLoc.value == windowStart {
      return false, text, windowStart;
    }
    var b := breakLoc.value;
    next := text[..b] + "\n" + indent + text[b + 1..];
    nextStart := b + |indent|;
    progress := true;
  }

  /** A line that fits is left alone. */
  lemma SpanShort(line: string, maxWidth: nat, depth: nat)
    requires |line| <= maxWidth
    ensures Span(line, maxWidth, depth) == Done(line)
  {
  }

  lemma JoinFirst(sep: string, xs: seq<string>)
    requires |xs| >= 1
    ensures Join(sep, xs) == xs[0] + (if |xs| == 1 then "" else sep + Join(sep, xs[1..]))
  {
  }

  lemma JoinCons(sep: string, a: string, xs: seq<string>)
    requires |xs| >= 1
    ensures Join(sep, [a] + xs) == a + sep + Join(sep, xs)
  {
    assert ([a] + xs)[1..] == xs;
  }

  /** Text in front of the first piece comes out in front of the joined text. */
  lemma JoinPrefixFirst(sep: string, p: string, xs: seq<string>)
    requires |xs| >= 1
    ensures Join(sep, [p + xs[0]] + xs[1..]) == p + Join(sep, xs)
  {
    if |xs| > 1 {
      assert ([p + xs[0]] + xs[1..])[1..] == xs[1..];
    }
  }

  /** The pieces with the first one's leading space removed. */
  function Peeled(inner: seq<string>): seq<string>
    requires |inner| >= 1 && inner[0] != []
  {
    [inner[0][1..]] + inner[1..]
  }

  lemma PeelSpace(sep: string, inner: seq<string>)
    requires |inner| >= 1 && inner[0] != [] && inner[0][0] == ' '
    ensures Join(sep, inner) == " " + Join(sep, Peeled(inner))
  {
    var tail := Peeled(inner);
    assert inner[0] == " " + tail[0];
    assert tail[1..] == inner[1..];
    assert inner == [" " + tail[0]] + tail[1..];
    JoinPrefixFirst(sep, " ", tail);
  }

  /** One pass of the loop seen from the pieces: the pieces after the replaced space, which
      start with the indent's last space, become the pieces from `start` on. */
  lemma Reassemble(line: string, start: nat, b: nat, indent: string, inner: seq<string>)
    returns (segs: seq<string>)
    requires start < b < |line| && line[b] == ' '
    requires |indent| >= 1 && indent[|indent| - 1] == ' '
    requires |inner| >= 1 && inner[0] != []
    requires Join(" ", inner) == " " + line[b + 1..]
    ensures |segs| >= 1 && segs[0] != []
    ensures Join(" ", segs) == line[start..]
    ensures line[..b] + "\n" + indent[..|indent| - 1] + Join("\n" + indent, inner)
         == line[..start] + Join("\n" + indent, segs)
  {
    var brk := "\n" + indent;
    assert inner[0][0] == ' ' by {
      JoinFirst(" ", inner);
      assert Join(" ", inner)[0] == inner[0][0];
    }
    var tail := Peeled(inner);
    segs := [line[start..b]] + tail;
    assert Join(" ", segs) == line[start..] by {
      PeelSpace(" ", inner);
      var j := Join(" ", tail);
      assert (" " + line[b + 1..])[1..] == line[b + 1..] && (" " + j)[1..] == j;
      JoinCons(" ", line[start..b], tail);
      assert line[start..] == line[start..b] + " " + line[b + 1..];
    }
    var head := indent[..|indent| - 1];
    assert head + " " == indent;
    assert line[..b] == line[..start] + line[start..b];
    PeelSpace(brk, inner);
    JoinCons(brk, line[start..b], tail);
    RegroupBreak(line[..start], line[start..b], head, Join(brk, tail), Join(brk, inner));
  }

  lemma RegroupBreak(x: string, y: string, head: string, jt: string, ji: string)
    requires ji == " " + jt
    ensures x + y + "\n" + head + ji == x + (y + ("\n" + (head + " ")) + jt)
  {
  }

  /** The text after one replacement, around the new window start. */
  lemma StepText(line: string, b: nat, indent: string)
    requires b < |line| && |indent| >= 1 && indent[|indent| - 1] == ' '
    ensures var nl := line[..b] + "\n" + indent + line[b + 1..];
      && b + |indent| < |nl|
      && nl[..b + |indent|] == line[..b] + "\n" + indent[..|indent| - 1]
      && nl[b + |indent|..] == " " + line[b + 1..]
  {
  }

  /** One pass of the loop that ends in text: it replaces a space inside the window, and the
      new window starts on the last space of the inserted indent. */
  lemma SpanStep(line: string, maxWidth: nat, indent: string, start: nat) returns (b: nat, nl: string)
    requires |line| - start > maxWidth
    requires |indent| >= 1 && indent[|indent| - 1] == ' '
    requires SpanFrom(line, maxWidth, indent, start).Done?
    ensures start < b < |line| && line[b] == ' '
    ensures b + |indent| < |nl|
    ensures nl[..b + |indent|] == line[..b] + "\n" + indent[..|indent| - 1]
    ensures nl[b + |indent|..] == " " + line[b + 1..]
    ensures SpanFrom(line, maxWidth, indent, start) == SpanFrom(nl, maxWidth, indent, b + |indent|)
  {
    var found := RFind(line, ' ', start, start + maxWidth);
    assert found.Some? && found.value != start;
    b := found.value;
    nl := line[..b] + "\n" + indent + line[b + 1..];
    assert SpanBreak(line, maxWidth, indent, start) == Some((nl, b + |indent|));
    StepText(line, b, indent);
  }

  /** The pieces between the replaced spaces, from `start` on, of a loop that ends in `text`. */
  lemma {:induction false} SpanPieces(line: string, maxWidth: nat, indent: string, start: nat, text: string)
    returns (segs: seq<string>)
    requires |indent| >= 1 && forall i :: 0 <= i < |indent| ==> indent[i] == ' '
    requires start <= |line|
    requires SpanFrom(line, maxWidth, indent, start) == Done(text)
    ensures |segs| >= 1
    ensures text == line[..start] + Join("\n" + indent, segs)
    ensures Join(" ", segs) == line[start..]
    ensures start < |line| ==> segs[0] != []
    decreases |line| - start, 0
  {
    if |line| - start <= maxWidth {
      segs := [line[start..]];
      assert Join("\n" + indent, segs) == line[start..];
      assert line[..start] + line[start..] == line;
    } else {
      var b, nl := SpanStep(line, maxWidth, indent, start);
      segs := SpanRest(line, maxWidth, indent, start, b, nl, text);
    }
  }

  /** The pieces after one replacement at `b`, seen from before it: the text that follows
      the replacement, split at the later replacements and then once more at `b`. */
  lemma {:induction false} SpanRest(line: string, maxWidth: nat, indent: string, start: nat, b: nat, nl: string,
                                    text: string)
    returns (segs: seq<string>)
    requires |indent| >= 1 && forall i :: 0 <= i < |indent| ==> indent[i] == ' '
    requires start < b < |line| && line[b] == ' '
    requires b + |indent| < |nl|
    requires nl[..b + |indent|] == line[..b] + "\n" + indent[..|indent| - 1]
    requires nl[b + |indent|..] == " " + line[b + 1..]
    requires SpanFrom(nl, maxWidth, indent, b + |indent|) == Done(text)
    ensures |segs| >= 1 && segs[0] != []
    ensures text == line[..start] + Join("\n" + indent, segs)
    ensures Join(" ", segs) == line[start..]
    decreases |nl| - (b + |indent|), 1
  {
    var inner := SpanPieces(nl, maxWidth, indent, b + |indent|, text);
    segs := Reassemble(line, start, b, indent, inner);
  }

  /** Turning each inserted line break and indent back into a space restores the line: the
      output is the line's space-separated pieces, joined by line breaks and the indent. */
  lemma SpanUndo(line: string, maxWidth: nat, depth: nat)
    ensures Span(line, maxWidth, depth).Done? ==>
      exists segs :: Join(" ", segs) == line && Span(line, maxWidth, depth).text == Join("\n" + Indent(depth + 1), segs)
  {
    if Span(line, maxWidth, depth).Done? {
      var segs := SpanPieces(line, maxWidth, Indent(depth + 1), 0, Span(line, maxWidth, depth).text);
      assert line[..0] == [] && line[0..] == line;
    }
  }

  // ---------------------------------------------------------------- fmt_module_entry

  /** The one-line form of a modules record, before wrapping. */
  function ModuleLine(m: ModuleRow, depth: nat): string
  {
    Indent(depth) + "{\"qt_version\": \"" + m.qtVersion + "\", \"modules\": [" + Join(", ", QuoteAll(m.modules)) + "]}"
  }

  /** `fmt_module_entry(entry, depth)`: the record on one line, wrapped at 120 columns. */
  function FmtModuleEntry(m: ModuleRow, depth: nat): (r: Outcome)
    ensures |ModuleLine(m, depth)| <= 120 ==> r == Done(ModuleLine(m, depth))
    ensures r.Done? ==>
      exists segs :: Join(" ", segs) == ModuleLine(m, depth) && r.text == Join("\n" + Indent(depth + 1), segs)
  {
    var line := ModuleLine(m, depth);
    SpanUndo(line, 120, depth);
    Span(line, 120, depth)
  }

  // ---------------------------------------------------------------- fmt_version_list

  /** The number of leading decimal digits. */
  function LeadingDigits(s: string): (n: nat)
    ensures n <= |s|
  {
    if s == [] || !IsDigit(s[0]) then 0 else 1 + LeadingDigits(s[1..])
  }

  /** The leading digits are digits, and the character after them is not one. */
  lemma {:induction false} LeadingDigitsRun(s: string)
    ensures forall i :: 0 <= i < LeadingDigits(s) ==> IsDigit(s[i])
    ensures LeadingDigits(s) < |s| ==> !IsDigit(s[LeadingDigits(s)])
  {
    if s != [] && IsDigit(s[0]) {
      LeadingDigitsRun(s[1..]);
    }
  }

  /** `int(minor_pattern.match(ver).group(1))`, with `^\d+\.(\d+)\.\d+` in the aqt copy and
      `^\d+\.(\d+)(\.\d+)?` in the ci copy; none where the pattern does not match. */
  function MinorOf(copy: Copy, ver: string): Option<nat>
  {
    var i := LeadingDigits(ver);
    if i == 0 || i == |ver| || ver[i] != '.' then None
    else
      var after := ver[i + 1..];
      var k := LeadingDigits(after);
      if k == 0 then None
      else
        var rest := after[k..];
        if copy == Aqt && !(|rest| >= 2 && rest[0] == '.' && IsDigit(rest[1])) then None
        else LeadingDigitsRun(after); Some(DigitsValue(after[..k]))
  }

  /** The minor version of a plain `major.minor.patch` string, in both copies. */
  lemma MinorOfShow(copy: Copy, v: Version)
    ensures MinorOf(copy, Show(v)) == Some(v.minor)
  {
    var a, b, c := NatToString(v.major), NatToString(v.minor), NatToString(v.patch);
    assert [a, b, c][1..] == [b, c] && [b, c][1..] == [c];
    assert Join(".", [b, c]) == (b + ".") + c;
    assert Show(v) == (a + ".") + ((b + ".") + c);
    MinorOfParts(copy, a, b, c);
    NatToStringValue(v.minor);
  }

  /** Three runs of digits joined by dots: the minor version is the value of the second. */
  lemma MinorOfParts(copy: Copy, a: string, b: string, c: string)
    requires IsDecimal(a) && IsDecimal(b) && IsDecimal(c)
    ensures MinorOf(copy, (a + ".") + ((b + ".") + c)) == Some(DigitsValue(b))
  {
    var after := (b + ".") + c;
    var s := (a + ".") + after;
    LeadingDigitsAt(s, |a|);
    assert s[|a| + 1..] == after;
    LeadingDigitsAt(after, |b|);
    assert after[..|b|] == b;
    var rest := after[|b|..];
    assert rest[0] == '.' && rest[1] == c[0];
  }

  /** A run of `n` digits followed by something else. */
  lemma {:induction false} LeadingDigitsAt(s: string, n: nat)
    requires n < |s| && !IsDigit(s[n])
    requires forall i :: 0 <= i < n ==> IsDigit(s[i])
    ensures LeadingDigits(s) == n
  {
    if n > 0 {
      LeadingDigitsAt(s[1..], n - 1);
    }
  }

  /** The copies differ on a version without a patch number, such as "6.2": only the ci
      copy's pattern accepts it; where the aqt copy's pattern matches, they agree. */
  lemma MinorCopiesDiffer(ver: string)
    ensures MinorOf(Aqt, "6.2") == None && MinorOf(Ci, "6.2") == Some(2)
    ensures MinorOf(Aqt, ver).Some? ==> MinorOf(Ci, ver) == MinorOf(Aqt, ver)
  {
    var s := "6.2";
    assert LeadingDigits(s[2..]) == 1;
    assert LeadingDigits(s) == 1;
    assert s[2..][..1] == "2";
  }

  /** `minor_pattern.match(ver)` and its group, for the copy's pattern. */
  function MatchFor(copy: Copy): string -> Option<nat>
  {
    v => MinorOf(copy, v)
  }

  /** The minor version of an entry known to match. */
  function KeyOf(minorOf: string -> Option<nat>): string -> nat
  {
    v => match minorOf(v) case Some(n) => n case None => 0
  }

  function KeyFor(copy: Copy): string -> nat
  {
    KeyOf(MatchFor(copy))
  }

  /** The maximal runs of consecutive entries with the same key. */
  function Runs(xs: seq<string>, key: string -> nat): (r: seq<seq<string>>)
    ensures |r| == 0 <==> |xs| == 0
  {
    if xs == [] then []
    else
      var n := |xs| - 1;
      var init := Runs(xs[..n], key);
      if n > 0 && key(xs[n]) == key(xs[n - 1]) then init[..|init| - 1] + [init[|init| - 1] + [xs[n]]]
      else init + [[xs[n]]]
  }

  function Flatten(r: seq<seq<string>>): seq<string>
  {
    if r == [] then [] else Flatten(r[..|r| - 1]) + r[|r| - 1]
  }

  /** Every run is non-empty and holds one key. */
  ghost predicate Uniform(r: seq<seq<string>>, key: string -> nat)
  {
    forall k :: 0 <= k < |r| ==> r[k] != [] && forall i :: 0 <= i < |r[k]| ==> key(r[k][i]) == key(r[k][0])
  }

  /** The runs put back together give the entries. */
  lemma {:induction false} RunsFlatten(xs: seq<string>, key: string -> nat)
    ensures Flatten(Runs(xs, key)) == xs
  {
    if xs != [] {
      var n := |xs| - 1;
      var init := Runs(xs[..n], key);
      RunsFlatten(xs[..n], key);
      var r := Runs(xs, key);
      assert xs == xs[..n] + [xs[n]];
      if n > 0 && key(xs[n]) == key(xs[n - 1]) {
        var m := |init| - 1;
        var last := init[m];
        assert Flatten(init) == Flatten(init[..m]) + last;
        assert r[..m] == init[..m] && r[m] == last + [xs[n]];
        assert Flatten(r) == Flatten(init[..m]) + (last + [xs[n]]);
      } else {
        assert r[..|init|] == init;
      }
    }
  }

  /** The last run ends with the last entry. */
  lemma {:induction false} RunsLast(xs: seq<string>, key: string -> nat)
    requires xs != []
    ensures var r := Runs(xs, key);
      r[|r| - 1] != [] && r[|r| - 1][|r[|r| - 1]| - 1] == xs[|xs| - 1]
  {
  }

  /** Every run is non-empty and holds a single key. */
  lemma {:induction false} RunsUniform(xs: seq<string>, key: string -> nat)
    ensures Uniform(Runs(xs, key), key)
  {
    if xs != [] {
      var n := |xs| - 1;
      var init := Runs(xs[..n], key);
      RunsUniform(xs[..n], key);
      var r := Runs(xs, key);
      if n > 0 && key(xs[n]) == key(xs[n - 1]) {
        var m := |init| - 1;
        RunsLast(xs[..n], key);
        assert xs[..n][n - 1] == xs[n - 1];
        assert r == init[..m] + [init[m] + [xs[n]]];
        forall k | 0 <= k < |r| ensures r[k] != [] && forall i :: 0 <= i < |r[k]| ==> key(r[k][i]) == key(r[k][0]) {
          if k < m {
            assert r[k] == init[k];
          }
        }
      } else {
        assert r == init + [[xs[n]]];
        forall k | 0 <= k < |r| ensures r[k] != [] && forall i :: 0 <= i < |r[k]| ==> key(r[k][i]) == key(r[k][0]) {
          if k < |init| {
            assert r[k] == init[k];
          }
        }
      }
    }
  }

  /** Uniform runs whose neighbours hold different keys. */
  ghost predicate Partitioned(r: seq<seq<string>>, key: string -> nat)
  {
    Uniform(r, key) && forall k :: 0 < k < |r| ==> key(r[k][0]) != key(r[k - 1][0])
  }

  /** Extending the last run with an entry of its key keeps the partition. */
  lemma ExtendPartitioned(r: seq<seq<string>>, x: string, key: string -> nat)
    requires Partitioned(r, key) && r != [] && key(x) == key(r[|r| - 1][0])
    ensures Partitioned(r[..|r| - 1] + [r[|r| - 1] + [x]], key)
  {
    var m := |r| - 1;
    var t := r[..m] + [r[m] + [x]];
    assert forall k :: 0 <= k < m ==> t[k] == r[k];
    assert t[m][0] == r[m][0];
  }

  /** Starting a run with an entry of another key keeps the partition. */
  lemma AppendPartitioned(r: seq<seq<string>>, x: string, key: string -> nat)
    requires Partitioned(r, key) && (r != [] ==> key(x) != key(r[|r| - 1][0]))
    ensures Partitioned(r + [[x]], key)
  {
    var t := r + [[x]];
    assert forall k :: 0 <= k < |r| ==> t[k] == r[k];
  }

  /** Neighbouring runs hold different keys, so no run could be longer. */
  lemma {:induction false} RunsBoundaries(xs: seq<string>, key: string -> nat)
    ensures Partitioned(Runs(xs, key), key)
  {
    if xs != [] {
      var n := |xs| - 1;
      var init := Runs(xs[..n], key);
      RunsBoundaries(xs[..n], key);
      if n > 0 {
        RunsLast(xs[..n], key);
        assert xs[..n][n - 1] == xs[n - 1];
        var last := init[|init| - 1];
        assert key(last[|last| - 1]) == key(last[0]);
        if key(xs[n]) == key(xs[n - 1]) {
          ExtendPartitioned(init, xs[n], key);
        } else {
          AppendPartitioned(init, xs[n], key);
        }
      } else {
        AppendPartitioned(init, xs[n], key);
      }
    }
  }

  /** The runs put back together give the entries; each run holds a single key, and
      neighbouring runs hold different keys. */
  lemma RunsPartition(xs: seq<string>, key: string -> nat)
    ensures var r := Runs(xs, key);
      && Flatten(r) == xs
      && Uniform(r, key)
      && forall k :: 0 < k < |r| ==> key(r[k][0]) != key(r[k - 1][0])
  {
    RunsFlatten(xs, key);
    RunsBoundaries(xs, key);
  }

  /** Every entry matches the pattern. */
  predicate Matches(entry: seq<string>, minorOf: string -> Option<nat>)
  {
    forall i :: 0 <= i < |entry| ==> minorOf(entry[i]).Some?
  }

  /** Every entry matches the copy's pattern. */
  predicate AllMatch(copy: Copy, entry: seq<string>)
  {
    Matches(entry, MatchFor(copy))
  }

  /** What `list(iter_minor_versions())` yields or raises: an entry the pattern does not
      match gives `None.group`, an AttributeError. */
  function RunsOf(entry: seq<string>, minorOf: string -> Option<nat>): Result<seq<seq<string>>, Failure>
  {
    if Matches(entry, minorOf) then Ok(Runs(entry, KeyOf(minorOf))) else Err(TypeMismatch)
  }

  /** The runs of a version list, with the copy's pattern. */
  function MinorRuns(copy: Copy, entry: seq<string>): Result<seq<seq<string>>, Failure>
  {
    RunsOf(entry, MatchFor(copy))
  }

  /** `iter_minor_versions()`: the loop that cuts the entries where the minor version changes;
      `minorOf` is the pattern's match and group, `MatchFor(copy)` in `fmt_version_list`. */
  method IterMinorVersions(entry: seq<string>, minorOf: string -> Option<nat>) returns (r: Result<seq<seq<string>>, Failure>)
    ensures r == RunsOf(entry, minorOf)
  {
    if |entry| == 0 {
      return Ok([]);
    }
    var key := KeyOf(minorOf);
    var begin := 0;
    var first := minorOf(entry[begin]);
    if first.None? {
      return Err(TypeMismatch);
    }
    var current := first.value;
    var groups: seq<seq<string>> := [];
    for i := 0 to |entry|
      invariant begin < |entry| && begin <= i && (i > 0 ==> begin < i)
      invariant minorOf(entry[begin]) == Some(current)
      invariant forall j :: 0 <= j < i ==> minorOf(entry[j]).Some?
      invariant i > 0 ==> minorOf(entry[i - 1]) == Some(current)
      invariant i == 0 ==> groups == [] && begin == 0
      invariant i > 0 ==> Runs(entry[..i], key) == groups + [entry[begin..i]]
    {
      var minor := minorOf(entry[i]);
      if minor.None? {
        return Err(TypeMismatch);
      }
      ghost var begin0, groups0 := begin, groups;
      if minor.value != current {
        if i > 0 {
          groups := groups + [entry[begin..i]];
        }
        begin := i;
        current := minor.value;
      }
      RunsNext(entry, key, i, begin0, groups0, begin, groups);
    }
    assert entry[..|entry|] == entry;
    return Ok(groups + [entry[begin..]]);
  }

  /** One step of the loop: the next entry extends the open run `xs[begin..i]` when it has the
      key of the entry before it, and closes it and opens a new run otherwise. */
  lemma RunsNext(xs: seq<string>, key: string -> nat, i: nat,
                 begin: nat, groups: seq<seq<string>>, begin': nat, groups': seq<seq<string>>)
    requires i < |xs|
    requires i == 0 ==> begin' == 0 && groups' == []
    requires i > 0 ==> begin < i && Runs(xs[..i], key) == groups + [xs[begin..i]]
    requires i > 0 && key(xs[i]) == key(xs[i - 1]) ==> begin' == begin && groups' == groups
    requires i > 0 && key(xs[i]) != key(xs[i - 1]) ==> begin' == i && groups' == groups + [xs[begin..i]]
    ensures Runs(xs[..i + 1], key) == groups' + [xs[begin'..i + 1]]
  {
    if i == 0 {
      RunsFirst(xs, key);
    } else if key(xs[i]) == key(xs[i - 1]) {
      RunsExtend(xs, key, i, begin, groups);
    } else {
      RunsCut(xs, key, i, begin, groups);
    }
  }

  lemma RunsFirst(xs: seq<string>, key: string -> nat)
    requires xs != []
    ensures Runs(xs[..1], key) == [] + [xs[0..1]]
  {
    assert xs[..1][..0] == [] && xs[..1][0] == xs[0];
    assert [xs[0]] == xs[0..1];
  }

  lemma RunsExtend(xs: seq<string>, key: string -> nat, i: nat, begin: nat, groups: seq<seq<string>>)
    requires begin < i < |xs| && key(xs[i]) == key(xs[i - 1])
    requires Runs(xs[..i], key) == groups + [xs[begin..i]]
    ensures Runs(xs[..i + 1], key) == groups + [xs[begin..i + 1]]
  {
    var ys := xs[..i + 1];
    assert ys[..i] == xs[..i] && ys[i] == xs[i] && ys[i - 1] == xs[i - 1];
    var init := groups + [xs[begin..i]];
    assert init[..|init| - 1] == groups && init[|init| - 1] == xs[begin..i];
    assert xs[begin..i] + [xs[i]] == xs[begin..i + 1];
  }

  lemma RunsCut(xs: seq<string>, key: string -> nat, i: nat, begin: nat, groups: seq<seq<string>>)
    requires begin < i < |xs| && key(xs[i]) != key(xs[i - 1])
    requires Runs(xs[..i], key) == groups + [xs[begin..i]]
    ensures Runs(xs[..i + 1], key) == (groups + [xs[begin..i]]) + [xs[i..i + 1]]
  {
    var ys := xs[..i + 1];
    assert ys[..i] == xs[..i] && ys[i] == xs[i] && ys[i - 1] == xs[i - 1];
    assert [xs[i]] == xs[i..i + 1];
  }

  /** The lines of the list, before joining. */
  function GroupLines(runs: seq<seq<string>>): (r: seq<string>)
    ensures |r| == |runs|
    ensures forall i :: 0 <= i < |runs| ==> r[i] == Join(", ", QuoteAll(runs[i]))
  {
    if runs == [] then [] else [Join(", ", QuoteAll(runs[0]))] + GroupLines(runs[1..])
  }

  /** `fmt_version_list(entry, depth)`: the runs of one minor version each, quoted and
      joined by ", ", one run per line, the lines joined by "," and a line break and indented. */
  function FmtVersionList(copy: Copy, entry: seq<string>, depth: nat): (r: Result<string, Failure>)
    ensures entry == [] ==> r == Ok("")
    ensures r.Err? <==> !AllMatch(copy, entry)
    ensures r.Ok? ==> r.value == Join(",\n" + Indent(depth), GroupLines(Runs(entry, KeyFor(copy))))
  {
    match MinorRuns(copy, entry)
    case Err(e) => Err(e)
    case Ok(runs) => Ok(Join(",\n" + Indent(depth), GroupLines(runs)))
  }

  /** Line `i` of parts joined by "," and a line break followed by `ind`, when the first
      line starts with `p`. */
  function ListLine(p: string, ind: string, parts: seq<string>, i: nat): string
    requires i < |parts|
  {
    (if i == 0 then p else ind) + parts[i] + (if i + 1 < |parts| then "," else "")
  }

  lemma {:induction false} JoinLines(p: string, parts: seq<string>, ind: string)
    requires |parts| >= 1
    requires '\n' !in p && '\n' !in ind
    requires forall i :: 0 <= i < |parts| ==> '\n' !in parts[i]
    ensures var lines := Split(p + Join(",\n" + ind, parts), '\n');
      |lines| == |parts| && forall i :: 0 <= i < |parts| ==> lines[i] == ListLine(p, ind, parts, i)
    decreases |parts|
  {
    if |parts| == 1 {
      SplitWithout(p + parts[0], '\n');
    } else {
      var rest := parts[1..];
      var first, tail := p + parts[0] + ",", ind + Join(",\n" + ind, rest);
      assert p + Join(",\n" + ind, parts) == first + ['\n'] + tail;
      SplitWithout(first, '\n');
      SplitConcat(first, '\n', tail);
      JoinLines(ind, rest, ind);
      var lines := Split(p + Join(",\n" + ind, parts), '\n');
      assert lines == [first] + Split(tail, '\n');
      forall i | 0 <= i < |parts| ensures lines[i] == ListLine(p, ind, parts, i) {
        if i > 0 {
          assert lines[i] == Split(tail, '\n')[i - 1] && parts[i] == rest[i - 1];
        }
      }
    }
  }

  lemma {:induction false} JoinNoBreak(xs: seq<string>)
    requires forall i :: 0 <= i < |xs| ==> '\n' !in xs[i]
    ensures '\n' !in Join(", ", xs)
  {
    if |xs| > 1 {
      JoinNoBreak(xs[1..]);
    }
  }

  /** Each minor version gets its own line: without line breaks in the entries, line `i`
      of the list is the indent (none on the first line), the quoted entries of run `i`
      joined by ", ", and a comma on every line but the last. */
  lemma VersionListLines(copy: Copy, entry: seq<string>, depth: nat)
    requires entry != [] && AllMatch(copy, entry)
    requires forall x :: x in entry ==> '\n' !in x
    ensures FmtVersionList(copy, entry, depth).Ok?
    ensures var runs := Runs(entry, KeyFor(copy));
      var lines := Split(FmtVersionList(copy, entry, depth).value, '\n');
      && |lines| == |runs|
      && forall i :: 0 <= i < |runs| ==> lines[i] == ListLine("", Indent(depth), GroupLines(runs), i)
  {
    var runs := Runs(entry, KeyFor(copy));
    assert MinorRuns(copy, entry) == Ok(runs);
    RunsFlatten(entry, KeyFor(copy));
    forall k | 0 <= k < |runs| ensures forall x :: x in runs[k] ==> '\n' !in x {
      RunMember(runs, k);
    }
    RunsLines(runs, depth);
  }

  /** Runs without line breaks give one line each. */
  lemma RunsLines(runs: seq<seq<string>>, depth: nat)
    requires runs != []
    requires forall k :: 0 <= k < |runs| ==> forall x :: x in runs[k] ==> '\n' !in x
    ensures var lines := Split(Join(",\n" + Indent(depth), GroupLines(runs)), '\n');
      |lines| == |runs| && forall i :: 0 <= i < |runs| ==> lines[i] == ListLine("", Indent(depth), GroupLines(runs), i)
  {
    var lines := GroupLines(runs);
    forall k | 0 <= k < |runs| ensures '\n' !in lines[k] {
      var q := QuoteAll(runs[k]);
      forall i | 0 <= i < |q| ensures '\n' !in q[i] {
        assert runs[k][i] in runs[k];
        assert q[i] == "\"" + runs[k][i] + "\"";
      }
      JoinNoBreak(q);
    }
    var ind := Indent(depth);
    assert "" + Join(",\n" + ind, lines) == Join(",\n" + ind, lines);
    JoinLines("", lines, ind);
  }

  /** Every entry of a run is an entry of the list. */
  lemma {:induction false} RunMember(runs: seq<seq<string>>, k: nat)
    requires k < |runs|
    ensures forall x :: x in runs[k] ==> x in Flatten(runs)
  {
    if k < |runs| - 1 {
      RunMember(runs[..|runs| - 1], k);
    }
  }

  // ---------------------------------------------------------------- pretty_print_combos

  /** The document `generate_combos` builds. */
  datatype Document = Document(qt: seq<Row>, tools: seq<Row>, modules: seq<ModuleRow>,
                               versions: seq<string>, newArchive: seq<string>)

  function DictLines(rows: seq<Row>): seq<string>
  {
    if rows == [] then [] else [FmtDictEntry(rows[0], 1)] + DictLines(rows[1..])
  }

  /** The wrapped module lines, or the first outcome that is not text. */
  function ModuleLines(rows: seq<ModuleRow>): Result<seq<string>, Outcome>
  {
    if rows == [] then Ok([])
    else match FmtModuleEntry(rows[0], 1)
      case Done(t) => (match ModuleLines(rows[1..]) case Ok(ts) => Ok([t] + ts) case Err(o) => Err(o))
      case o => Err(o)
  }

  /** What stops the module lines is a wrap that never ends. */
  lemma {:induction false} ModuleLinesErr(rows: seq<ModuleRow>)
    ensures ModuleLines(rows).Err? ==> ModuleLines(rows).error == Loops
  {
    if rows != [] {
      var o := FmtModuleEntry(rows[0], 1);
      assert o == Span(ModuleLine(rows[0], 1), 120, 1);
      ModuleLinesErr(rows[1..]);
    }
  }

  function Section(key: string, lines: seq<string>): string
  {
    Quote(key) + ": [\n" + Join(",\n", lines) + "\n]"
  }

  /** `root_element_strings`: the three lists of records, then the two version lists. */
  function Sections(doc: Document, moduleLines: seq<string>, versions: string, newArchive: string): seq<string>
  {
    [ Section("qt", DictLines(doc.qt)),
      Section("tools", DictLines(doc.tools)),
      Section("modules", moduleLines),
      Quote("versions") + ": [\n  " + versions + "\n]",
      Quote("new_archive") + ": [\n  " + newArchive + "\n]" ]
  }

  /** `pretty_print_combos(combos)`, with the copy's version pattern. It fails exactly when a
      version list has an entry the pattern does not match; a module entry that cannot be
      wrapped is passed on. The output is one JSON array holding one object, which starts
      with the `qt` list and ends with the `new_archive` list. */
  function PrettyPrint(copy: Copy, doc: Document): (r: Outcome)
    ensures r.Fails? <==> ModuleLines(doc.modules).Ok? && (!AllMatch(copy, doc.versions) || !AllMatch(copy, doc.newArchive))
    ensures ModuleLines(doc.modules).Err? ==> r == ModuleLines(doc.modules).error
    ensures r.Done? ==> StartsWith(r.text, "[{" + (Quote("qt") + ": [\n")) && EndsWith(r.text, "\n]" + "}]")
  {
    ModuleLinesErr(doc.modules);
    match ModuleLines(doc.modules)
    case Err(o) => o
    case Ok(moduleLines) =>
      match FmtVersionList(copy, doc.versions, 1)
      case Err(e) => Fails(e)
      case Ok(versions) =>
        match FmtVersionList(copy, doc.newArchive, 1)
        case Err(e) => Fails(e)
        case Ok(newArchive) =>
          AssembleFrame(doc, moduleLines, versions, newArchive);
          Done("[{" + Join(", ", Sections(doc, moduleLines, versions, newArchive)) + "}]")
  }

  lemma StartsConcat(p: string, a: string, b: string)
    requires StartsWith(a, p)
    ensures StartsWith(a + b, p)
  {
    assert (a + b)[..|p|] == a[..|p|];
  }

  lemma EndsConcat(p: string, a: string, b: string)
    requires EndsWith(b, p)
    ensures EndsWith(a + b, p)
  {
    assert (a + b)[|a + b| - |p|..] == b[|b| - |p|..];
  }

  /** A join starts with its first item and ends with its last. */
  lemma {:induction false} JoinEnds(sep: string, xs: seq<string>)
    requires |xs| >= 1
    ensures StartsWith(Join(sep, xs), xs[0])
    ensures EndsWith(Join(sep, xs), xs[|xs| - 1])
  {
    if |xs| == 1 {
      assert Join(sep, xs) == xs[0];
    } else {
      JoinEnds(sep, xs[1..]);
      StartsConcat(xs[0], xs[0], sep + Join(sep, xs[1..]));
      assert Join(sep, xs) == xs[0] + (sep + Join(sep, xs[1..]));
      EndsConcat(xs[|xs| - 1], sep, Join(sep, xs[1..]));
      EndsConcat(xs[|xs| - 1], xs[0], sep + Join(sep, xs[1..]));
    }
  }

  lemma AssembleFrame(doc: Document, moduleLines: seq<string>, versions: string, newArchive: string)
    ensures var text := "[{" + Join(", ", Sections(doc, moduleLines, versions, newArchive)) + "}]";
      StartsWith(text, "[{" + (Quote("qt") + ": [\n")) && EndsWith(text, "\n]" + "}]")
  {
    var sections := Sections(doc, moduleLines, versions, newArchive);
    var p, q := Quote("qt") + ": [\n", "\n]";
    var lines := Join(",\n", DictLines(doc.qt));
    StartsConcat(p, p, lines);
    StartsConcat(p, p + lines, q);
    EndsConcat(q, Quote("new_archive") + ": [\n  " + newArchive, q);
    JoinEnds(", ", sections);
    Framed("[{", Join(", ", sections), "}]", p, q);
  }

  /** Text that starts with `p` and ends with `q`, put between `o` and `c`. */
  lemma Framed(o: string, body: string, c: string, p: string, q: string)
    requires StartsWith(body, p) && EndsWith(body, q)
    ensures StartsWith(o + body + c, o + p) && EndsWith(o + body + c, q + c)
  {
    var t := o + body + c;
    assert t[..|o + p|] == o + body[..|p|];
    assert t[|t| - |q + c|..] == body[|body| - |q|..] + c;
  }
}
