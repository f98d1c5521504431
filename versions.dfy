/** The part of `aqt.metadata.Version` the URL templates use: a release number
    `major.minor.patch`, its text form, and range containment as a parameter. */
module Versions {
  import opened Wrappers
  import opened Strs

  datatype Version = Version(major: nat, minor: nat, patch: nat)

  /** `SimpleSpec(spec).__contains__(v)`, supplied by the caller: `Some(b)` is the
      verdict, `None` means the range text does not parse (a ValueError). */
  type RangeTest = (string, Version) -> Option<bool>

  /** `str(v)`. */
  function Show(v: Version): string
  {
    Join(".", [NatToString(v.major), NatToString(v.minor), NatToString(v.patch)])
  }

  /** `Version(s)`: three canonical decimal numbers separated by dots. */
  function Parse(s: string): Option<Version>
  {
    var parts := Split(s, '.');
    if |parts| != 3 then None
    else match (ParseNat(parts[0]), ParseNat(parts[1]), ParseNat(parts[2]))
      case (Some(a), Some(b), Some(c)) => Some(Version(a, b, c))
      case _ => None
  }

  /** `f"{v.major}.{v.minor}"`. */
  function MajorMinor(v: Version): string
  {
    NatToString(v.major) + "." + NatToString(v.minor)
  }

  /** `f"{v.major}_{v.minor}_{v.patch}"`. */
  function Underscored(v: Version): string
  {
    NatToString(v.major) + "_" + NatToString(v.minor) + "_" + NatToString(v.patch)
  }

  lemma DigitsHaveNoDot(s: string)
    requires IsDecimal(s)
    ensures '.' !in s
  {
  }

  /** Parsing the text of a version gives the version back. */
  lemma ParseShow(v: Version)
    ensures Parse(Show(v)) == Some(v)
  {
    var parts := [NatToString(v.major), NatToString(v.minor), NatToString(v.patch)];
    forall i | 0 <= i < 3 ensures '.' !in parts[i] { DigitsHaveNoDot(parts[i]); }
    SplitJoin(parts, '.');
    assert Split(Show(v), '.') == parts;
    ParseNatOfString(v.major);
    ParseNatOfString(v.minor);
    ParseNatOfString(v.patch);
  }

  lemma {:induction false} JoinSplit(s: string, c: char)
    ensures Join([c], Split(s, c)) == s
  {
    if s != [] {
      JoinSplit(s[1..], c);
      var rest := Split(s[1..], c);
      if s[0] == c {
        assert Join([c], [""] + rest) == [c] + Join([c], rest);
      } else {
        assert Join([c], [[s[0]] + rest[0]] + rest[1..]) == [s[0]] + Join([c], rest);
      }
      assert s == [s[0]] + s[1..];
    }
  }

  /** Every text that parses is the text of its version: no two spellings of one version. */
  lemma ShowParse(s: string)
    requires Parse(s).Some?
    ensures Show(Parse(s).value) == s
  {
    var parts := Split(s, '.');
    StringOfParseNat(parts[0]);
    StringOfParseNat(parts[1]);
    StringOfParseNat(parts[2]);
    JoinSplit(s, '.');
    assert parts == [parts[0], parts[1], parts[2]];
  }
}
