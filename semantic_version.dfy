// Semantic Versioning 2.0.0 versions: the parser, the canonical rendering and the
// precedence order of OmniSharp's `SemanticVersion` record.
module SemanticVersioning {
  import opened Wrappers
  import opened Text

  type UInt32 = n: nat | n <= 0xFFFF_FFFF

  /**
   * `SemanticVersion(Major, Minor, Patch)` with its two nullable labels.
   * The positional constructor leaves both labels null.
   */
  datatype SemanticVersion = SemanticVersion(
    major: UInt32, minor: UInt32, patch: UInt32,
    preReleaseLabel: Option<string>, buildLabel: Option<string>)

  function Plain(major: UInt32, minor: UInt32, patch: UInt32): SemanticVersion {
    SemanticVersion(major, minor, patch, None, None)
  }

  /**
   * What `$` means at the end of the anchored patterns. .NET's `$` also matches just
   * before a final '\n'; `EndOfInput` is the anchor that matches only at the end.
   */
  datatype EndAnchor = DotNetDollar | EndOfInput

  // ----- the three patterns, as character-class predicates -----

  predicate IsLabelChar(c: char) { IsAsciiAlphaNumeric(c) || c == '-' || c == '.' }

  /** The body of `[0-9A-Za-z][0-9A-Za-z\-\.]*`. */
  predicate IsLabelUnit(s: string) {
    |s| > 0 && IsAsciiAlphaNumeric(s[0]) && forall i :: 0 <= i < |s| ==> IsLabelChar(s[i])
  }

  /** The three anchored patterns of `SemanticVersion`. */
  datatype Pattern = VersionSans | LabelUnit | Label

  /** Whether the text between `^` and `$` matches the pattern's body. */
  predicate Body(pattern: Pattern, s: string) {
    match pattern
    case VersionSans => IsVersionCore(s)
    case LabelUnit => IsLabelUnit(s)
    case Label => IsLabelPattern(s)
  }

  /** The text an anchored `^body$` pattern covers in `s`, if it matches. */
  function AnchoredText(s: string, pattern: Pattern, anchor: EndAnchor): (r: Option<string>)
    ensures r.Some? ==> Body(pattern, r.value) && StartsWith(s, r.value)
    ensures anchor == EndOfInput ==> r == (if Body(pattern, s) then Some(s) else None)
  {
    if Body(pattern, s) then Some(s)
    else if anchor == DotNetDollar && |s| > 0 && s[|s| - 1] == '\n' && Body(pattern, s[..|s| - 1]) then Some(s[..|s| - 1])
    else None
  }

  /** The body of `(0|[1-9]\d*)\.(0|[1-9]\d*)\.(0|[1-9]\d*)`: three canonical numerals. */
  predicate IsVersionCore(s: string) {
    var parts := Split(s, '.');
    |parts| == 3 && IsCanonicalNumeral(parts[0]) && IsCanonicalNumeral(parts[1]) && IsCanonicalNumeral(parts[2])
  }

  /** `uint.TryParse` on a group the pattern already restricted to digits. */
  function ParseUInt32(digits: string): (r: Option<UInt32>)
    requires AllDigits(digits)
    ensures r.Some? <==> DigitsValue(digits) <= UInt32Max
    ensures r.Some? ==> r.value == DigitsValue(digits)
  {
    var n := DigitsValue(digits);
    if n <= UInt32Max then Some(n) else None
  }

  // ----- constructors -----

  /** Applies `LabelUnitRegEx` to a non-empty label the way the five-argument constructor does; a null or empty one leaves the property null. */
  function StoredLabel(text: Option<string>, anchor: EndAnchor): (r: Result<Option<string>>)
    ensures IsNullOrEmpty(text) ==> r == Ok(None)
    ensures r.Throws? ==> r.exception == ArgumentOutOfRangeException
    ensures r.Ok? && r.value.Some? ==> IsLabelUnit(r.value.value) && StartsWith(text.value, r.value.value)
    ensures anchor == EndOfInput && !IsNullOrEmpty(text) ==> (r.Ok? <==> IsLabelUnit(text.value))
    ensures anchor == EndOfInput && r.Ok? ==> r.value == (if IsNullOrEmpty(text) then None else text)
  {
    if IsNullOrEmpty(text) then Ok(None)
    else match AnchoredText(text.value, LabelUnit, anchor)
      // `Captures[0]` of a failed match is out of range
      case None => Throws(ArgumentOutOfRangeException)
      case Some(t) => Ok(Some(t))
  }

  /** `new SemanticVersion(major, minor, patch, preReleaseLabel, buildLabel)`. */
  function CreateWithLabels(major: UInt32, minor: UInt32, patch: UInt32,
                            pre: Option<string>, build: Option<string>, anchor: EndAnchor): (r: Result<SemanticVersion>)
    ensures r.Ok? ==> r.value.major == major && r.value.minor == minor && r.value.patch == patch
    ensures r.Ok? <==> (IsNullOrEmpty(pre) || AnchoredText(pre.value, LabelUnit, anchor).Some?)
                       && (IsNullOrEmpty(build) || AnchoredText(build.value, LabelUnit, anchor).Some?)
    ensures r.Ok? && !IsNullOrEmpty(pre) ==> r.value.preReleaseLabel.Some? && IsLabelUnit(r.value.preReleaseLabel.value)
    ensures r.Ok? ==> ValidLabel(r.value.preReleaseLabel) && ValidLabel(r.value.buildLabel)
  {
    var p :- StoredLabel(pre, anchor);
    var b :- StoredLabel(build, anchor);
    Ok(SemanticVersion(major, minor, patch, p, b))
  }

  /**
   * The body of `LabelRegEx`, `(pre)?(\+build)?`: a possibly empty pre-release part up to the
   * first '+', and after it a build part. Gives the two group values, "" for a group that did not take part.
   */
  function LabelGroups(t: string): (r: Option<(string, string)>)
    ensures r.Some? ==> '+' !in r.value.0
  {
    var k := IndexOf(t, '+');
    var pre := if k == -1 then t else t[..k];
    var build := if k == -1 then "" else t[k + 1..];
    if (pre == "" || IsLabelUnit(pre)) && (k == -1 || IsLabelUnit(build)) then Some((pre, build)) else None
  }

  predicate IsLabelPattern(t: string) { LabelGroups(t).Some? }

  /** `new SemanticVersion(major, minor, patch, label)`: splits a whole label at its first '+'. */
  function CreateWithLabel(major: UInt32, minor: UInt32, patch: UInt32, text: string, anchor: EndAnchor)
    : (r: Result<SemanticVersion>)
    ensures text == "" ==> r == Ok(Plain(major, minor, patch))
    ensures r.Throws? ==> r.exception == FormatException
    ensures r.Ok? && text != "" ==> r.value.preReleaseLabel.Some? && r.value.buildLabel.Some?
    ensures anchor == EndOfInput && r.Ok? && text != "" ==>
      var pre := r.value.preReleaseLabel.value;
      var build := r.value.buildLabel.value;
      text == (if build == "" then pre else pre + "+" + build)
  {
    if text == "" then Ok(Plain(major, minor, patch))
    else match AnchoredText(text, Label, anchor)
      case None => Throws(FormatException)
      case Some(t) =>
        var groups := LabelGroups(t).value;
        Ok(SemanticVersion(major, minor, patch, Some(groups.0), Some(groups.1)))
  }

  // ----- parsing -----

  /** The locals `TryParse` derives from the positions of the first '-' and the first '+'. */
  datatype LabelSplit = LabelSplit(pre: Option<string>, build: Option<string>, sans: string, dashIndex: int)

  /** The input put back together from its parts. */
  function Reassemble(split: LabelSplit): string {
    split.sans
    + (if split.pre.Some? then "-" + split.pre.value else "")
    + (if split.build.Some? then "+" + split.build.value else "")
  }

  /** The branches of `TryParse` that cut the input at the given first '-' and first '+'. */
  function SplitAt(s: string, dashIndex: int, plusIndex: int): (r: LabelSplit)
    requires -1 <= dashIndex < |s| && -1 <= plusIndex < |s| && (dashIndex == -1 || dashIndex != plusIndex)
    ensures r.pre.Some? <==> r.dashIndex != -1
    ensures r.build.Some? <==> plusIndex != -1
  {
    if dashIndex > plusIndex then
      if plusIndex == -1 then LabelSplit(Some(s[dashIndex + 1..]), None, s[..dashIndex], dashIndex)
      else LabelSplit(None, Some(s[plusIndex + 1..]), s[..plusIndex], -1)
    else if plusIndex == -1 then LabelSplit(None, None, s, dashIndex)
    else if dashIndex == -1 then LabelSplit(None, Some(s[plusIndex + 1..]), s[..plusIndex], dashIndex)
    else LabelSplit(Some(s[dashIndex + 1..plusIndex]), Some(s[plusIndex + 1..]), s[..dashIndex], dashIndex)
  }

  function SplitAtSeparators(s: string): (r: LabelSplit)
    ensures r.pre.Some? <==> r.dashIndex != -1
    ensures r.build.Some? <==> IndexOf(s, '+') != -1
  {
    SplitAt(s, IndexOf(s, '-'), IndexOf(s, '+'))
  }

  /** Indices that point at a '-' and a '+' of `s`, or are -1. */
  predicate IsCut(s: string, d: int, p: int) {
    -1 <= d < |s| && -1 <= p < |s| && (d == -1 || s[d] == '-') && (p == -1 || s[p] == '+') && (d == -1 || d != p)
  }

  lemma SplitAtReassembles(s: string, d: int, p: int)
    requires IsCut(s, d, p)
    ensures Reassemble(SplitAt(s, d, p)) == s
  {
    if d > p && p == -1 {
      assert s == s[..d] + ("-" + s[d + 1..]) + "";
    } else if d > p || (p != -1 && d == -1) {
      assert s == s[..p] + "" + ("+" + s[p + 1..]);
    } else if p != -1 {
      assert s == s[..d] + ("-" + s[d + 1..p]) + ("+" + s[p + 1..]);
    }
  }

  /** The parts put back together give the input. */
  lemma SplitReassembles(s: string)
    ensures Reassemble(SplitAtSeparators(s)) == s
  {
    SplitAtReassembles(s, IndexOf(s, '-'), IndexOf(s, '+'));
  }

  /** Which separator opens which label. */
  lemma SplitRule(s: string)
    ensures var r, d, p := SplitAtSeparators(s), IndexOf(s, '-'), IndexOf(s, '+');
      && (d != -1 && (p == -1 || d < p) ==> r.pre == Some(if p == -1 then s[d + 1..] else s[d + 1..p]))
      && (p != -1 && (d == -1 || p < d) ==> r.pre == None && r.build == Some(s[p + 1..]))
      && (d == -1 && p == -1 ==> r.pre == None && r.build == None)
  {
  }

  lemma SplitAtKeepsAbsent(s: string, d: int, p: int, c: char)
    requires IsCut(s, d, p) && c !in s
    ensures var r := SplitAt(s, d, p);
      c !in r.sans && (r.pre.Some? ==> c !in r.pre.value) && (r.build.Some? ==> c !in r.build.value)
  {
    SplitAtReassembles(s, d, p);
  }

  /** A character absent from the input is absent from every part. */
  lemma SplitKeepsAbsent(s: string, c: char)
    requires c !in s
    ensures var r := SplitAtSeparators(s);
      c !in r.sans && (r.pre.Some? ==> c !in r.pre.value) && (r.build.Some? ==> c !in r.build.value)
  {
    SplitAtKeepsAbsent(s, IndexOf(s, '-'), IndexOf(s, '+'), c);
  }

  predicate EndsInSeparator(s: string) {
    |s| > 0 && (s[|s| - 1] == '-' || s[|s| - 1] == '+' || s[|s| - 1] == '.')
  }

  /** A dash without a pre-release label, a plus without a build label, or no version part. */
  predicate MissingPart(split: LabelSplit, plusIndex: int) {
    (split.dashIndex != -1 && IsNullOrEmpty(split.pre)) || (plusIndex != -1 && IsNullOrEmpty(split.build))
    || split.sans == ""
  }

  /** The three numbers of the version part, when `VersionSansRegEx` matches and each fits in a `uint`. */
  function ParseNumbers(sans: string, anchor: EndAnchor): Option<(UInt32, UInt32, UInt32)> {
    match AnchoredText(sans, VersionSans, anchor)
    case None => None
    case Some(core) =>
      var parts := Split(core, '.');
      match (ParseUInt32(parts[0]), ParseUInt32(parts[1]), ParseUInt32(parts[2]))
      case (Some(major), Some(minor), Some(patch)) => Some((major, minor, patch))
      case _ => None
  }

  /** Each label that is present matches `LabelUnitRegEx`. */
  predicate LabelsMatch(split: LabelSplit, anchor: EndAnchor) {
    (split.pre.None? || AnchoredText(split.pre.value, LabelUnit, anchor).Some?)
    && (split.build.None? || AnchoredText(split.build.value, LabelUnit, anchor).Some?)
  }

  /** The version `TryParse` builds from the parts of its input, or `None` where it returns false. */
  function ParseParts(split: LabelSplit, plusIndex: int, anchor: EndAnchor): (r: Option<SemanticVersion>)
    ensures r.Some? ==> ValidLabel(r.value.preReleaseLabel) && ValidLabel(r.value.buildLabel)
  {
    if MissingPart(split, plusIndex) then None
    else match ParseNumbers(split.sans, anchor)
      case None => None
      case Some(n) =>
        if !LabelsMatch(split, anchor) then None
        else Some(CreateWithLabels(n.0, n.1, n.2, split.pre, split.build, anchor).value)
  }

  /**
   * `SemanticVersion.TryParse`, with the end anchor of its patterns as a parameter:
   * `Throws` for a null input or one ending in a separator, `Ok(None)` for `false`,
   * `Ok(Some(v))` for `true` with `v` as the out value.
   */
  function ParseWith(version: Option<string>, anchor: EndAnchor): Result<Option<SemanticVersion>> {
    if version.None? || EndsInSeparator(version.value) then Throws(FormatException)
    else Ok(ParseParts(SplitAtSeparators(version.value), IndexOf(version.value, '+'), anchor))
  }

  /** `SemanticVersion.TryParse` as written: its patterns end in .NET's `$`. */
  function TryParse(version: Option<string>): (r: Result<Option<SemanticVersion>>)
    ensures r.Throws? ==> r.exception == FormatException
    ensures r.Ok? && r.value.Some? ==> ValidLabel(r.value.value.preReleaseLabel) && ValidLabel(r.value.value.buildLabel)
  {
    ParseWith(version, DotNetDollar)
  }

  /** `TryParse` with patterns anchored at the true end of the input. */
  function TryParseStrict(version: Option<string>): Result<Option<SemanticVersion>> {
    ParseWith(version, EndOfInput)
  }

  /**
   * Contrary to its documentation, `TryParse` throws `FormatException` instead of returning false,
   * exactly for a null input and for one whose last character is '-', '+' or '.'.
   */
  lemma TryParseThrows(version: Option<string>)
    ensures TryParse(version).Throws? <==>
      version.None? || (|version.value| > 0 && version.value[|version.value| - 1] in ['-', '+', '.'])
    ensures TryParse(version).Throws? ==> TryParse(version).exception == FormatException
  {
  }

  /** `SemanticVersion.Parse`: a null or empty input throws; otherwise the `TryParse` outcome, `null` for false. */
  function Parse(version: Option<string>): (r: Result<Option<SemanticVersion>>)
    ensures IsNullOrEmpty(version) ==> r == Throws(FormatException)
    ensures !IsNullOrEmpty(version) ==> r == TryParse(version)
  {
    if IsNullOrEmpty(version) then Throws(FormatException) else TryParse(version)
  }

  // ----- rendering -----

  function CoreString(v: SemanticVersion): string {
    NatToString(v.major) + "." + NatToString(v.minor) + "." + NatToString(v.patch)
  }

  /** `ToString()`: `Major.Minor.Patch`, then `-pre` and `+build` for the labels that are not null or empty. */
  function ToString(v: SemanticVersion): (r: string)
    ensures |CoreString(v)| <= |r| && r[..|CoreString(v)|] == CoreString(v)
    ensures r == CoreString(v) <==> IsNullOrEmpty(v.preReleaseLabel) && IsNullOrEmpty(v.buildLabel)
    ensures !IsNullOrEmpty(v.preReleaseLabel) ==> r[|CoreString(v)|] == '-'
    ensures IsNullOrEmpty(v.preReleaseLabel) && !IsNullOrEmpty(v.buildLabel) ==> r[|CoreString(v)|] == '+'
  {
    CoreString(v)
    + (if IsNullOrEmpty(v.preReleaseLabel) then "" else "-" + v.preReleaseLabel.value)
    + (if IsNullOrEmpty(v.buildLabel) then "" else "+" + v.buildLabel.value)
  }

  // ----- precedence -----

  /** `int.TryParse` with `NumberStyles.Integer`: optional white space around an optional sign and digits. */
  predicate IsNumberWhite(c: char) { ('\t' <= c <= '\r') || c == ' ' }

  function TrimNumberWhite(s: string): (r: string)
    ensures |r| <= |s|
    decreases |s|
  {
    if s != [] && IsNumberWhite(s[0]) then TrimNumberWhite(s[1..])
    else if s != [] && IsNumberWhite(s[|s| - 1]) then TrimNumberWhite(s[..|s| - 1])
    else s
  }

  function ParseInt32(s: string): (r: Option<int>)
    ensures r.Some? ==> IsInt32(r.value)
  {
    var t := TrimNumberWhite(s);
    var negative := |t| > 0 && t[0] == '-';
    var digits := if |t| > 0 && (t[0] == '-' || t[0] == '+') then t[1..] else t;
    if |digits| == 0 || !AllDigits(digits) then None
    else
      var value: int := DigitsValue(digits);
      var n := if negative then -value else value;
      if IsInt32(n) then Some(n) else None
  }

  /** The sign of the comparison of one pair of dot-separated identifiers; 0 means "look at the next pair". */
  function CompareIdentifiers(a: string, b: string): (r: int)
    ensures -1 <= r <= 1
  {
    match (ParseInt32(a), ParseInt32(b))
    case (Some(n1), Some(n2)) => if n1 != n2 then (if n1 < n2 then -1 else 1) else 0
    case (Some(_), None) => -1
    case (None, Some(_)) => 1
    case (None, None) => CompareOrdinal(a, b)
  }

  /** The sign of comparing identifier lists pairwise until a difference; a list that runs out first ranks lower. */
  function CompareIdentifierLists(u1: seq<string>, u2: seq<string>): (r: int)
    ensures -1 <= r <= 1
  {
    if u1 == [] || u2 == [] then CompareNumbers(|u1|, |u2|)
    else
      var c := CompareIdentifiers(u1[0], u2[0]);
      if c != 0 then c else CompareIdentifierLists(u1[1..], u2[1..])
  }

  /** The specification of `ComparePreLabel`, up to the sign: no label ranks above every label. */
  function PreLabelOrder(pre1: Option<string>, pre2: Option<string>): (r: int)
    ensures -1 <= r <= 1
  {
    if IsNullOrEmpty(pre1) then (if IsNullOrEmpty(pre2) then 0 else 1)
    else if IsNullOrEmpty(pre2) then -1
    else CompareIdentifierLists(Split(pre1.value, '.'), Split(pre2.value, '.'))
  }

  /** `ComparePreLabel`: the identifier loop with its early returns, keeping the sign of an ordinal difference. */
  method ComparePreLabel(preLabel1: Option<string>, preLabel2: Option<string>) returns (r: int)
    ensures r == PreLabelOrder(preLabel1, preLabel2)
  {
    if IsNullOrEmpty(preLabel1) {
      return if IsNullOrEmpty(preLabel2) then 0 else 1;
    }
    if IsNullOrEmpty(preLabel2) {
      return -1;
    }
    var units1 := Split(preLabel1.value, '.');
    var units2 := Split(preLabel2.value, '.');
    var minLength := if |units1| < |units2| then |units1| else |units2|;
    var i := 0;
    while i < minLength
      invariant 0 <= i <= minLength
      invariant PreLabelOrder(preLabel1, preLabel2) == CompareIdentifierLists(units1[i..], units2[i..])
    {
      var ac := units1[i];
      var bc := units2[i];
      var number1 := ParseInt32(ac);
      var number2 := ParseInt32(bc);
      CompareIdentifierListsStep(units1, units2, i);
      if number1.Some? && number2.Some? {
        if number1.value != number2.value {
          return if number1.value < number2.value then -1 else 1;
        }
      } else {
        if number1.Some? {
          return -1;
        }
        if number2.Some? {
          return 1;
        }
        var result := CompareOrdinal(ac, bc);
        if result != 0 {
          return result;
        }
      }
      i := i + 1;
    }
    CompareIdentifierListsEnd(units1, units2, i);
    return CompareNumbers(|units1|, |units2|);
  }

  /** One round of the identifier loop. */
  lemma CompareIdentifierListsStep(u1: seq<string>, u2: seq<string>, i: int)
    requires 0 <= i < |u1| && i < |u2|
    ensures CompareIdentifierLists(u1[i..], u2[i..]) ==
      if CompareIdentifiers(u1[i], u2[i]) != 0 then CompareIdentifiers(u1[i], u2[i])
      else CompareIdentifierLists(u1[i + 1..], u2[i + 1..])
  {
    assert u1[i..][1..] == u1[i + 1..] && u2[i..][1..] == u2[i + 1..];
  }

  /** When one list runs out, the longer list ranks higher. */
  lemma CompareIdentifierListsEnd(u1: seq<string>, u2: seq<string>, i: int)
    requires 0 <= i <= |u1| && i <= |u2| && (i == |u1| || i == |u2|)
    ensures CompareIdentifierLists(u1[i..], u2[i..]) == CompareNumbers(|u1|, |u2|)
  {
  }

  /** (Major, Minor, Patch) of `a` precedes that of `b` lexicographically. */
  predicate NumbersBelow(a: SemanticVersion, b: SemanticVersion) {
    a.major < b.major || (a.major == b.major && (a.minor < b.minor || (a.minor == b.minor && a.patch < b.patch)))
  }

  /** The sign of `CompareTo(SemanticVersion?)`: Major, Minor, Patch, then the pre-release label; `null` ranks lowest. */
  function CompareTo(v: SemanticVersion, other: Option<SemanticVersion>): (r: int)
    ensures -1 <= r <= 1
    ensures other.None? ==> r == 1
    ensures other.Some? && NumbersBelow(v, other.value) ==> r == -1
    ensures other.Some? && NumbersBelow(other.value, v) ==> r == 1
    ensures other.Some? && r == 0 ==>
      v.major == other.value.major && v.minor == other.value.minor && v.patch == other.value.patch
    ensures other.Some? && (v.major, v.minor, v.patch) == (other.value.major, other.value.minor, other.value.patch) ==>
      r == PreLabelOrder(v.preReleaseLabel, other.value.preReleaseLabel)
  {
    if other.None? then 1
    else
      var o := other.value;
      if v.major != o.major then (if v.major > o.major then 1 else -1)
      else if v.minor != o.minor then (if v.minor > o.minor then 1 else -1)
      else if v.patch != o.patch then (if v.patch > o.patch then 1 else -1)
      else PreLabelOrder(v.preReleaseLabel, o.preReleaseLabel)
  }

  /** The static `Compare`: a null first argument throws. */
  function Compare(a: Option<SemanticVersion>, b: Option<SemanticVersion>): (r: Result<int>)
    ensures r.Throws? <==> a.None?
    ensures r.Throws? ==> r.exception == ArgumentNullException
  {
    if a.Some? then Ok(CompareTo(a.value, b)) else Throws(ArgumentNullException)
  }

  datatype Operator = Less | LessOrEqual | Greater | GreaterOrEqual

  /** The four comparison operators, each `Compare(V1, V2) op 0`. */
  function Apply(op: Operator, v1: Option<SemanticVersion>, v2: Option<SemanticVersion>): (r: Result<bool>)
    ensures v1.None? ==> r == Throws(ArgumentNullException)
    ensures v1.Some? && v2.None? ==> r == Ok(op == Greater || op == GreaterOrEqual)
  {
    var c :- Compare(v1, v2);
    Ok(match op
       case Less => c < 0
       case LessOrEqual => c <= 0
       case Greater => c > 0
       case GreaterOrEqual => c >= 0)
  }

  // ----- parsing and rendering are inverse -----

  predicate ValidLabel(l: Option<string>) { l.None? || IsLabelUnit(l.value) }

  /** The versions `TryParse` can produce: labels absent or well formed, and no separator at the very end. */
  predicate IsCanonical(v: SemanticVersion) {
    ValidLabel(v.preReleaseLabel) && ValidLabel(v.buildLabel) && !EndsInSeparator(ToString(v))
  }

  /** No digit is a separator or a line break. */
  lemma NumeralCharacters(x: string)
    requires AllDigits(x)
    ensures '.' !in x && '-' !in x && '+' !in x && '\n' !in x
  {
  }

  lemma CoreStringSplits(v: SemanticVersion)
    ensures Split(CoreString(v), '.') == [NatToString(v.major), NatToString(v.minor), NatToString(v.patch)]
    ensures '-' !in CoreString(v) && '+' !in CoreString(v) && '\n' !in CoreString(v)
  {
    var a, b, c := NatToString(v.major), NatToString(v.minor), NatToString(v.patch);
    NumeralCharacters(a);
    NumeralCharacters(b);
    NumeralCharacters(c);
    SplitThree(a, b, c, '.');
    assert CoreString(v) == a + ['.'] + b + ['.'] + c;
  }

  /** The version part of a rendering parses back to its three numbers. */
  lemma ParseNumbersOfCore(v: SemanticVersion, anchor: EndAnchor)
    ensures ParseNumbers(CoreString(v), anchor) == Some((v.major, v.minor, v.patch))
  {
    CoreStringSplits(v);
    NatToStringValue(v.major);
    NatToStringValue(v.minor);
    NatToStringValue(v.patch);
  }

  /** A strictly matched version part is three numerals, the renderings of the numbers it yields. */
  lemma ParseNumbersParts(sans: string, n: (UInt32, UInt32, UInt32))
    requires ParseNumbers(sans, EndOfInput) == Some(n)
    ensures var parts := Split(sans, '.');
      |parts| == 3 && parts[0] == NatToString(n.0) && parts[1] == NatToString(n.1) && parts[2] == NatToString(n.2)
  {
    var parts := Split(sans, '.');
    CanonicalNumeralRoundTrip(parts[0]);
    CanonicalNumeralRoundTrip(parts[1]);
    CanonicalNumeralRoundTrip(parts[2]);
  }

  lemma JoinThree(parts: seq<string>)
    requires |parts| == 3
    ensures Join(".", parts) == parts[0] + "." + parts[1] + "." + parts[2]
  {
    assert Join(".", parts[2..]) == parts[2];
    assert Join(".", parts[1..]) == parts[1] + "." + parts[2];
  }

  /** A strictly matched version part is the rendering of the numbers it yields. */
  lemma ParseNumbersRendering(sans: string, major: UInt32, minor: UInt32, patch: UInt32)
    requires ParseNumbers(sans, EndOfInput) == Some((major, minor, patch))
    ensures CoreString(Plain(major, minor, patch)) == sans
  {
    ParseNumbersParts(sans, (major, minor, patch));
    JoinSplit(sans, '.');
    JoinThree(Split(sans, '.'));
  }

  /** What building a version from the parts establishes about each stage. */
  lemma ParsePartsAccepts(split: LabelSplit, plusIndex: int, anchor: EndAnchor, v: SemanticVersion)
    requires ParseParts(split, plusIndex, anchor) == Some(v)
    ensures !MissingPart(split, plusIndex)
    ensures ParseNumbers(split.sans, anchor) == Some((v.major, v.minor, v.patch))
    ensures LabelsMatch(split, anchor)
    ensures CreateWithLabels(v.major, v.minor, v.patch, split.pre, split.build, anchor) == Ok(v)
  {
  }

  /** What a successful parse establishes about each stage. */
  lemma ParseWithAccepts(s: string, anchor: EndAnchor, v: SemanticVersion)
    requires ParseWith(Some(s), anchor) == Ok(Some(v))
    ensures var split := SplitAtSeparators(s);
      && !EndsInSeparator(s)
      && !MissingPart(split, IndexOf(s, '+'))
      && ParseNumbers(split.sans, anchor) == Some((v.major, v.minor, v.patch))
      && LabelsMatch(split, anchor)
      && CreateWithLabels(v.major, v.minor, v.patch, split.pre, split.build, anchor) == Ok(v)
  {
    assert !EndsInSeparator(s);
    ParseWithParts(s, anchor);
    ParsePartsAccepts(SplitAtSeparators(s), IndexOf(s, '+'), anchor, v);
  }

  /** Under the strict anchor a present label is stored as it is. */
  lemma StoredLabelStrict(l: Option<string>)
    requires l.None? || (l.value != "" && IsLabelUnit(l.value))
    ensures StoredLabel(l, EndOfInput) == Ok(l)
  {
  }

  /** Under the strict anchor, well-formed labels are stored as given. */
  lemma CreateWithLabelsStrict(major: UInt32, minor: UInt32, patch: UInt32, pre: Option<string>, build: Option<string>)
    requires pre.None? || (pre.value != "" && IsLabelUnit(pre.value))
    requires build.None? || (build.value != "" && IsLabelUnit(build.value))
    ensures CreateWithLabels(major, minor, patch, pre, build, EndOfInput) == Ok(SemanticVersion(major, minor, patch, pre, build))
  {
    StoredLabelStrict(pre);
    StoredLabelStrict(build);
  }

  /** Canonical round trip of the strictly anchored parser: a parsed version renders as its input. */
  lemma StrictParseRoundTrip(s: string, v: SemanticVersion)
    requires TryParseStrict(Some(s)) == Ok(Some(v))
    ensures ToString(v) == s
    ensures IsCanonical(v)
  {
    ParseWithAccepts(s, EndOfInput, v);
    var split := SplitAtSeparators(s);
    SplitReassembles(s);
    ParseNumbersRendering(split.sans, v.major, v.minor, v.patch);
    assert split.pre.Some? ==> split.pre.value != "" && IsLabelUnit(split.pre.value);
    assert split.build.Some? ==> split.build.value != "" && IsLabelUnit(split.build.value);
    CreateWithLabelsStrict(v.major, v.minor, v.patch, split.pre, split.build);
    assert v == SemanticVersion(v.major, v.minor, v.patch, split.pre, split.build);
    assert CoreString(v) == split.sans;
    assert ToString(v) == Reassemble(split);
  }

  /** A label unit contains neither '+' nor a line break. */
  lemma LabelUnitCharacters(l: string)
    requires IsLabelUnit(l)
    ensures '+' !in l && '\n' !in l
  {
  }

  /** The cut when the input has no separator. */
  lemma SplitWithoutSeparators(s: string)
    requires '-' !in s && '+' !in s
    ensures SplitAtSeparators(s) == LabelSplit(None, None, s, -1)
  {
  }

  /** The cut when a '+' comes before any '-'. */
  lemma SplitAtPlusFirst(s: string, p: int)
    requires 0 <= p < |s| && s[p] == '+' && '+' !in s[..p] && '-' !in s[..p]
    ensures SplitAtSeparators(s) == LabelSplit(None, Some(s[p + 1..]), s[..p], -1)
  {
    IndexOfIs(s, '+', p);
    IndexOfAtLeast(s, '-', p);
  }

  /** The cut when there is a '-' and no '+'. */
  lemma SplitAtDashOnly(s: string, d: int)
    requires 0 <= d < |s| && s[d] == '-' && '-' !in s[..d] && '+' !in s
    ensures SplitAtSeparators(s) == LabelSplit(Some(s[d + 1..]), None, s[..d], d)
  {
    IndexOfIs(s, '-', d);
  }

  /** The cut when a '-' comes before the first '+'. */
  lemma SplitAtDashThenPlus(s: string, d: int, p: int)
    requires 0 <= d < p < |s| && s[d] == '-' && s[p] == '+' && '-' !in s[..d] && '+' !in s[..p]
    ensures SplitAtSeparators(s) == LabelSplit(Some(s[d + 1..p]), Some(s[p + 1..]), s[..d], d)
  {
    IndexOfIs(s, '-', d);
    IndexOfIs(s, '+', p);
  }

  lemma SplitOfCoreAndBuild(core: string, b: string)
    requires '-' !in core && '+' !in core
    ensures SplitAtSeparators(core + "+" + b) == LabelSplit(None, Some(b), core, -1)
  {
    var s := core + "+" + b;
    assert s[..|core|] == core && s[|core| + 1..] == b;
    SplitAtPlusFirst(s, |core|);
  }

  lemma SplitOfCoreAndPre(core: string, p: string)
    requires '-' !in core && '+' !in core && '+' !in p
    ensures SplitAtSeparators(core + "-" + p) == LabelSplit(Some(p), None, core, |core|)
  {
    var s := core + "-" + p;
    assert s[..|core|] == core && s[|core| + 1..] == p;
    SplitAtDashOnly(s, |core|);
  }

  lemma SplitOfCorePreAndBuild(core: string, p: string, b: string)
    requires '-' !in core && '+' !in core && '+' !in p
    ensures SplitAtSeparators(core + "-" + p + "+" + b) == LabelSplit(Some(p), Some(b), core, |core|)
  {
    var s := core + "-" + p + "+" + b;
    var q := |core| + 1 + |p|;
    assert s[..|core|] == core && s[|core| + 1..q] == p && s[q + 1..] == b;
    assert s[..q] == core + "-" + p;
    SplitAtDashThenPlus(s, |core|, q);
  }

  /** How `TryParse` cuts the rendering of a canonical version. */
  lemma SplitOfRendering(v: SemanticVersion)
    requires ValidLabel(v.preReleaseLabel) && ValidLabel(v.buildLabel)
    ensures SplitAtSeparators(ToString(v)) ==
      LabelSplit(v.preReleaseLabel, v.buildLabel, CoreString(v), if v.preReleaseLabel.Some? then |CoreString(v)| else -1)
  {
    var core := CoreString(v);
    CoreStringSplits(v);
    RenderingLayout(v);
    if v.preReleaseLabel.None? && v.buildLabel.None? {
      SplitWithoutSeparators(core);
    } else if v.preReleaseLabel.None? {
      SplitOfCoreAndBuild(core, v.buildLabel.value);
    } else if v.buildLabel.None? {
      LabelUnitCharacters(v.preReleaseLabel.value);
      SplitOfCoreAndPre(core, v.preReleaseLabel.value);
    } else {
      LabelUnitCharacters(v.preReleaseLabel.value);
      SplitOfCorePreAndBuild(core, v.preReleaseLabel.value, v.buildLabel.value);
    }
  }

  /** The rendering of a version whose labels are absent or non-empty. */
  lemma RenderingLayout(v: SemanticVersion)
    requires ValidLabel(v.preReleaseLabel) && ValidLabel(v.buildLabel)
    ensures var core, pre, build := CoreString(v), v.preReleaseLabel, v.buildLabel;
      ToString(v) == if pre.None? && build.None? then core
                     else if pre.None? then core + "+" + build.value
                     else if build.None? then core + "-" + pre.value
                     else core + "-" + pre.value + "+" + build.value
  {
  }

  /** Past the checks for null and a final separator, `TryParse` parses the parts. */
  lemma ParseWithParts(s: string, anchor: EndAnchor)
    requires !EndsInSeparator(s)
    ensures ParseWith(Some(s), anchor) == Ok(ParseParts(SplitAtSeparators(s), IndexOf(s, '+'), anchor))
  {
  }

  /** A parse whose every stage succeeds yields the version the constructor builds. */
  lemma ParsePartsSucceed(split: LabelSplit, plusIndex: int, anchor: EndAnchor, n: (UInt32, UInt32, UInt32))
    requires !MissingPart(split, plusIndex)
    requires ParseNumbers(split.sans, anchor) == Some(n)
    requires LabelsMatch(split, anchor)
    ensures CreateWithLabels(n.0, n.1, n.2, split.pre, split.build, anchor).Ok?
    ensures ParseParts(split, plusIndex, anchor) == Some(CreateWithLabels(n.0, n.1, n.2, split.pre, split.build, anchor).value)
  {
  }

  /** A well-formed label is stored as given, whatever the anchor. */
  lemma CreateWithValidLabels(v: SemanticVersion, anchor: EndAnchor)
    requires ValidLabel(v.preReleaseLabel) && ValidLabel(v.buildLabel)
    ensures CreateWithLabels(v.major, v.minor, v.patch, v.preReleaseLabel, v.buildLabel, anchor) == Ok(v)
  {
  }

  lemma NothingMissing(split: LabelSplit, plusIndex: int)
    requires split.pre.Some? <==> split.dashIndex != -1
    requires plusIndex != -1 ==> split.build.Some?
    requires ValidLabel(split.pre) && ValidLabel(split.build) && split.sans != ""
    ensures !MissingPart(split, plusIndex)
  {
  }

  lemma ValidLabelsMatch(split: LabelSplit, anchor: EndAnchor)
    requires ValidLabel(split.pre) && ValidLabel(split.build)
    ensures LabelsMatch(split, anchor)
  {
  }

  /** Every canonical version is parsed back from its rendering, by either parser. */
  lemma RenderingParses(v: SemanticVersion, anchor: EndAnchor)
    requires IsCanonical(v)
    ensures ParseWith(Some(ToString(v)), anchor) == Ok(Some(v))
  {
    SplitOfRendering(v);
    ParseNumbersOfCore(v, anchor);
    var split := SplitAtSeparators(ToString(v));
    assert CoreString(v) != "";
    NothingMissing(split, IndexOf(ToString(v), '+'));
    ValidLabelsMatch(split, anchor);
    CreateWithValidLabels(v, anchor);
    ParsePartsSucceed(split, IndexOf(ToString(v), '+'), anchor, (v.major, v.minor, v.patch));
    ParseWithParts(ToString(v), anchor);
  }

  lemma AnchoredTextWithoutLineBreak(t: string, pattern: Pattern)
    requires '\n' !in t
    ensures AnchoredText(t, pattern, DotNetDollar) == AnchoredText(t, pattern, EndOfInput)
  {
    if |t| > 0 { assert t[|t| - 1] in t; }
  }

  lemma StoredLabelWithoutLineBreak(l: Option<string>)
    requires l.Some? ==> '\n' !in l.value
    ensures StoredLabel(l, DotNetDollar) == StoredLabel(l, EndOfInput)
  {
    if l.Some? { AnchoredTextWithoutLineBreak(l.value, LabelUnit); }
  }

  /** The stages agree across anchors when the parts hold no line break. */
  lemma StagesWithoutLineBreak(split: LabelSplit)
    requires '\n' !in split.sans
    requires split.pre.Some? ==> '\n' !in split.pre.value
    requires split.build.Some? ==> '\n' !in split.build.value
    ensures ParseNumbers(split.sans, DotNetDollar) == ParseNumbers(split.sans, EndOfInput)
    ensures LabelsMatch(split, DotNetDollar) == LabelsMatch(split, EndOfInput)
    ensures forall major: UInt32, minor: UInt32, patch: UInt32 ::
      CreateWithLabels(major, minor, patch, split.pre, split.build, DotNetDollar)
      == CreateWithLabels(major, minor, patch, split.pre, split.build, EndOfInput)
  {
    AnchoredTextWithoutLineBreak(split.sans, VersionSans);
    StoredLabelWithoutLineBreak(split.pre);
    StoredLabelWithoutLineBreak(split.build);
  }

  lemma ParsePartsWithoutLineBreak(split: LabelSplit, plusIndex: int)
    requires '\n' !in split.sans
    requires split.pre.Some? ==> '\n' !in split.pre.value
    requires split.build.Some? ==> '\n' !in split.build.value
    ensures ParseParts(split, plusIndex, DotNetDollar) == ParseParts(split, plusIndex, EndOfInput)
  {
    StagesWithoutLineBreak(split);
  }

  /** The two parsers differ only on inputs that contain a line break. */
  lemma ParsersAgreeWithoutLineBreak(s: string)
    requires '\n' !in s
    ensures TryParse(Some(s)) == TryParseStrict(Some(s))
  {
    if !EndsInSeparator(s) {
      SplitKeepsAbsent(s, '\n');
      ParsePartsWithoutLineBreak(SplitAtSeparators(s), IndexOf(s, '+'));
      ParseWithParts(s, DotNetDollar);
      ParseWithParts(s, EndOfInput);
    }
  }

  /**
   * The rule that sorts separators into labels: a '-' before the first '+' opens the pre-release
   * label, which runs up to that '+'; when the first '+' comes first, everything after it is the
   * build label, dashes included, and the pre-release label is null.
   */
  lemma LabelSplitRule(s: string, v: SemanticVersion)
    requires TryParseStrict(Some(s)) == Ok(Some(v))
    ensures var d, p := IndexOf(s, '-'), IndexOf(s, '+');
      && (d != -1 && (p == -1 || d < p) ==>
            v.preReleaseLabel == Some(if p == -1 then s[d + 1..] else s[d + 1..p]))
      && (p != -1 && (d == -1 || p < d) ==> v.preReleaseLabel == None && v.buildLabel == Some(s[p + 1..]))
      && (d == -1 && p == -1 ==> v.preReleaseLabel == None && v.buildLabel == None)
  {
    ParseWithAccepts(s, EndOfInput, v);
    var split := SplitAtSeparators(s);
    assert split.pre.Some? ==> split.pre.value != "" && IsLabelUnit(split.pre.value);
    assert split.build.Some? ==> split.build.value != "" && IsLabelUnit(split.build.value);
    CreateWithLabelsStrict(v.major, v.minor, v.patch, split.pre, split.build);
    assert v.preReleaseLabel == split.pre && v.buildLabel == split.build;
    SplitRule(s);
  }

  /** Both matches cover the same text, so the numbers are the same. */
  lemma ParseNumbersSameText(s: string, a: EndAnchor, t: string, b: EndAnchor)
    requires AnchoredText(s, VersionSans, a) == AnchoredText(t, VersionSans, b)
    ensures ParseNumbers(s, a) == ParseNumbers(t, b)
  {
  }

  lemma CoreIsVersionSans(v: SemanticVersion)
    ensures Body(VersionSans, CoreString(v))
  {
    CoreStringSplits(v);
  }

  lemma CoreWithLineBreakIsNotVersionSans(v: SemanticVersion)
    ensures !Body(VersionSans, CoreString(v) + "\n")
  {
    var a, b, c := NatToString(v.major), NatToString(v.minor), NatToString(v.patch);
    NumeralCharacters(a);
    NumeralCharacters(b);
    NumeralCharacters(c);
    SplitThree(a, b, c + "\n", '.');
    assert CoreString(v) + "\n" == a + ['.'] + b + ['.'] + (c + "\n");
    assert (c + "\n")[|c|] == '\n';
  }

  /** `$` lets the version pattern match a version part in front of a final line break. */
  lemma CoreMatchesBeforeLineBreak(v: SemanticVersion)
    ensures AnchoredText(CoreString(v) + "\n", VersionSans, DotNetDollar) == Some(CoreString(v))
  {
    var s := CoreString(v) + "\n";
    CoreIsVersionSans(v);
    CoreWithLineBreakIsNotVersionSans(v);
    assert s[..|s| - 1] == CoreString(v);
  }

  lemma LineBreakPartsParse(v: SemanticVersion)
    requires v.preReleaseLabel.None? && v.buildLabel.None?
    ensures var s := CoreString(v) + "\n"; ParseParts(SplitAtSeparators(s), IndexOf(s, '+'), DotNetDollar) == Some(v)
  {
    var s := CoreString(v) + "\n";
    CoreStringSplits(v);
    CoreMatchesBeforeLineBreak(v);
    ParseNumbersOfCore(v, EndOfInput);
    ParseNumbersSameText(s, DotNetDollar, CoreString(v), EndOfInput);
    SplitWithoutSeparators(s);
    var split := SplitAtSeparators(s);
    NothingMissing(split, -1);
    ValidLabelsMatch(split, DotNetDollar);
    ParsePartsSucceed(split, -1, DotNetDollar, (v.major, v.minor, v.patch));
    CreateWithValidLabels(v, DotNetDollar);
  }

  lemma LineBreakParses(v: SemanticVersion)
    requires v.preReleaseLabel.None? && v.buildLabel.None?
    ensures TryParse(Some(CoreString(v) + "\n")) == Ok(Some(v))
  {
    var s := CoreString(v) + "\n";
    assert s[|s| - 1] == '\n';
    ParseWithParts(s, DotNetDollar);
    LineBreakPartsParse(v);
  }

  /**
   * As written, `TryParse` accepts every plain version followed by a line break, and the
   * version it yields renders without it: "1.2.3\n" parses as 1.2.3.
   */
  lemma TrailingLineBreakAccepted(v: SemanticVersion)
    requires v.preReleaseLabel.None? && v.buildLabel.None?
    ensures TryParse(Some(ToString(v) + "\n")) == Ok(Some(v))
    ensures ToString(v) + "\n" != ToString(v)
  {
    assert ToString(v) == CoreString(v);
    LineBreakParses(v);
  }

  // ----- precedence is an order -----

  lemma CompareIdentifiersAntisymmetric(a: string, b: string)
    ensures CompareIdentifiers(a, b) == -CompareIdentifiers(b, a)
  {
    CompareOrdinalAntisymmetric(a, b);
  }

  lemma {:induction false} CompareIdentifierListsAntisymmetric(u1: seq<string>, u2: seq<string>)
    ensures CompareIdentifierLists(u1, u2) == -CompareIdentifierLists(u2, u1)
  {
    if u1 != [] && u2 != [] {
      CompareIdentifiersAntisymmetric(u1[0], u2[0]);
      CompareIdentifierListsAntisymmetric(u1[1..], u2[1..]);
    }
  }

  /** Antisymmetry of `CompareTo` on non-null versions. */
  lemma CompareToAntisymmetric(a: SemanticVersion, b: SemanticVersion)
    ensures CompareTo(a, Some(b)) == -CompareTo(b, Some(a))
  {
    if !IsNullOrEmpty(a.preReleaseLabel) && !IsNullOrEmpty(b.preReleaseLabel) {
      CompareIdentifierListsAntisymmetric(Split(a.preReleaseLabel.value, '.'), Split(b.preReleaseLabel.value, '.'));
    }
  }

  /** Identifiers that compare equal compare alike with every third identifier. */
  lemma CompareIdentifiersEquivalent(x: string, y: string, z: string)
    requires CompareIdentifiers(x, y) == 0
    ensures CompareIdentifiers(x, z) == CompareIdentifiers(y, z)
  {
  }

  lemma CompareIdentifiersTransitive(x: string, y: string, z: string)
    requires CompareIdentifiers(x, y) <= 0 && CompareIdentifiers(y, z) <= 0
    ensures CompareIdentifiers(x, z) <= 0
    ensures CompareIdentifiers(x, y) < 0 || CompareIdentifiers(y, z) < 0 ==> CompareIdentifiers(x, z) < 0
  {
    if ParseInt32(x).None? && ParseInt32(y).None? && ParseInt32(z).None? {
      CompareOrdinalTransitive(x, y, z);
      CompareOrdinalAntisymmetric(y, z);
    }
  }

  lemma {:induction false} CompareIdentifierListsTransitive(u1: seq<string>, u2: seq<string>, u3: seq<string>)
    requires CompareIdentifierLists(u1, u2) <= 0 && CompareIdentifierLists(u2, u3) <= 0
    ensures CompareIdentifierLists(u1, u3) <= 0
  {
    if u1 != [] && u2 != [] && u3 != [] {
      var c12 := CompareIdentifiers(u1[0], u2[0]);
      var c23 := CompareIdentifiers(u2[0], u3[0]);
      CompareIdentifiersTransitive(u1[0], u2[0], u3[0]);
      if c12 == 0 {
        CompareIdentifiersEquivalent(u1[0], u2[0], u3[0]);
      }
      if c12 == 0 && c23 == 0 {
        CompareIdentifierListsTransitive(u1[1..], u2[1..], u3[1..]);
      }
    }
  }

  /** `CompareTo` is transitive on non-null versions. */
  lemma CompareToTransitive(a: SemanticVersion, b: SemanticVersion, c: SemanticVersion)
    requires CompareTo(a, Some(b)) <= 0 && CompareTo(b, Some(c)) <= 0
    ensures CompareTo(a, Some(c)) <= 0
  {
    if (a.major, a.minor, a.patch) == (b.major, b.minor, b.patch) == (c.major, c.minor, c.patch)
       && !IsNullOrEmpty(a.preReleaseLabel) && !IsNullOrEmpty(b.preReleaseLabel) && !IsNullOrEmpty(c.preReleaseLabel) {
      CompareIdentifierListsTransitive(
        Split(a.preReleaseLabel.value, '.'), Split(b.preReleaseLabel.value, '.'), Split(c.preReleaseLabel.value, '.'));
    }
  }

  /** Build metadata takes no part in precedence. */
  lemma BuildLabelIgnored(a: SemanticVersion, b: SemanticVersion, build1: Option<string>, build2: Option<string>)
    ensures CompareTo(a.(buildLabel := build1), Some(b.(buildLabel := build2))) == CompareTo(a, Some(b))
  {
  }

  /** A pre-release version ranks below the release with the same numbers. */
  lemma PreReleaseRanksLower(v: SemanticVersion, pre: string)
    requires pre != ""
    ensures CompareTo(v.(preReleaseLabel := Some(pre)), Some(v.(preReleaseLabel := None))) == -1
  {
  }

  /** A leading zero does not change the value of a digit string. */
  lemma {:induction false} DigitsValueLeadingZero(s: string)
    requires AllDigits(s)
    ensures AllDigits("0" + s) && DigitsValue("0" + s) == DigitsValue(s)
    decreases |s|
  {
    var z := "0" + s;
    if s == [] {
      assert z[..0] == "";
    } else {
      assert z[..|z| - 1] == "0" + s[..|s| - 1];
      DigitsValueLeadingZero(s[..|s| - 1]);
    }
  }

  /** `int.TryParse` of an unsigned digit string: its value, when that fits in an `int`. */
  lemma {:induction false} ParseInt32OfDigits(s: string)
    requires |s| > 0 && AllDigits(s)
    ensures ParseInt32(s) == if DigitsValue(s) <= Int32Max then Some(DigitsValue(s) as int) else None
  {
    assert TrimNumberWhite(s) == s;
  }

  /** `int.TryParse` of '-' and a digit string: the negated value, when that fits in an `int`. */
  lemma {:induction false} ParseInt32OfNegated(s: string)
    requires |s| > 0 && AllDigits(s)
    ensures ParseInt32("-" + s) == if DigitsValue(s) <= -Int32Min then Some(-(DigitsValue(s) as int)) else None
  {
    var t := "-" + s;
    assert t[|t| - 1] == s[|s| - 1] && IsAsciiDigit(s[|s| - 1]);
    NoOuterNumberWhite(t);
    assert t[0] == '-' && t[1..] == s;
    ParseInt32OfTrimmedNegative(t);
  }

  /** `int.TryParse` of a '-' and digits with no white space around them. */
  lemma {:induction false} ParseInt32OfTrimmedNegative(t: string)
    requires |t| > 1 && t[0] == '-' && AllDigits(t[1..]) && TrimNumberWhite(t) == t
    ensures var value: int := DigitsValue(t[1..]);
      ParseInt32(t) == if IsInt32(-value) then Some(-value) else None
  {
  }

  /** A string that neither starts nor ends with white space is left as it is. */
  lemma {:induction false} NoOuterNumberWhite(t: string)
    requires t != [] && !IsNumberWhite(t[0]) && !IsNumberWhite(t[|t| - 1])
    ensures TrimNumberWhite(t) == t
  {
  }

  /**
   * Identifiers are read with `int.TryParse`, which takes a sign and leading zeros: a zero before
   * a digit string changes nothing, so "01" ties with "1", and a '-' before it gives the negated
   * value whenever that fits in an `int`, so "-1" is a number, below "0".
   */
  lemma NumericIdentifiersAreInt32(s: string)
    requires |s| > 0 && AllDigits(s)
    ensures ParseInt32("0" + s) == ParseInt32(s)
    ensures ParseInt32("-" + s) == if DigitsValue(s) <= -Int32Min then Some(-(DigitsValue(s) as int)) else None
    ensures ParseInt32(s).Some? ==> CompareIdentifiers("0" + s, s) == 0
    ensures 0 < DigitsValue(s) <= -Int32Min ==> CompareIdentifiers("-" + s, "0") == -1
  {
    DigitsValueLeadingZero(s);
    ParseInt32OfDigits(s);
    ParseInt32OfDigits("0" + s);
    ParseInt32OfNegated(s);
    assert DigitsValue("0") == 0 by {
      assert "0"[..0] == "";
    }
    ParseInt32OfDigits("0");
  }
}
