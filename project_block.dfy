// `ProjectBlock`: one `Project(...) = ...` entry of a solution file, its header matched by a
// backtracking search that stands for the header regular expression, and the lines that follow
// it read up to `EndProject`.
module ProjectBlock {
  import opened Wrappers
  import opened Text

  const HeaderStart := "Project(\""
  const SolutionFolderGuid := "{2150E333-8FDC-42A3-9474-1A3956D46DE8}"
  const LegacyAspNetWebsite := "{E24C65DC-7377-472B-9ABA-BC803B73C61A}"
  const HttpPrefix := "http://"
  const EndProject := "EndProject"
  const SectionStart := "ProjectSection("
  const EmptyProjectNamePrefix := "EmptyProjectName."

  // ----- the header pattern -----
  //
  // `^Project\("(.*)"\)\s*=\s*"(.*)"\s*,\s*"(.*)"\s*,\s*"(.*)"$`: each `.*` is a group that cannot
  // cross a line feed; `\s*` before a literal that is not white space consumes all of it; `$`
  // matches at the end or before a final line feed. The groups are numbered 0 to 3.

  /** The end of the run that a `.*` starting at `pos` can cover: the first line feed, or the end. */
  function MaxEnd(line: string, pos: nat): (r: nat)
    requires pos <= |line|
    ensures pos <= r <= |line|
    ensures forall k :: pos <= k < r ==> line[k] != '\n'
    ensures r < |line| ==> line[r] == '\n'
    decreases |line| - pos
  {
    if pos == |line| || line[pos] == '\n' then pos else MaxEnd(line, pos + 1)
  }

  /** The first position at or after `i` that is not white space. */
  function SkipWhiteSpace(line: string, i: nat): (r: nat)
    requires i <= |line|
    ensures i <= r <= |line|
    ensures forall k :: i <= k < r ==> IsWhiteSpace(line[k])
    ensures r < |line| ==> !IsWhiteSpace(line[r])
    decreases |line| - i
  {
    if i == |line| || !IsWhiteSpace(line[i]) then i else SkipWhiteSpace(line, i + 1)
  }

  /** `\s*` sep `\s*"` from position `i`: the start of the next group. */
  function Glue(line: string, i: nat, sep: char): (r: Option<nat>)
    requires i <= |line|
    ensures r.Some? ==> i < r.value <= |line| && line[r.value - 1] == '"'
  {
    var j := SkipWhiteSpace(line, i);
    if j < |line| && line[j] == sep then
      var k := SkipWhiteSpace(line, j + 1);
      if k < |line| && line[k] == '"' then Some(k + 1) else None
    else None
  }

  /** What must follow group `g` (0, 1 or 2) ending at `e`, up to the next group's start. */
  function Next(line: string, g: nat, e: nat): (r: Option<nat>)
    requires g < 3 && e <= |line|
    ensures r.Some? ==> e < r.value <= |line|
  {
    if g == 0 then
      if e + 1 < |line| && line[e] == '"' && line[e + 1] == ')' then Glue(line, e + 2, '=') else None
    else
      if e < |line| && line[e] == '"' then Glue(line, e + 1, ',') else None
  }

  /** What must follow the last group: its closing quote, then the end of the line. */
  predicate Final(line: string, e: nat) {
    e < |line| && line[e] == '"' && (e + 1 == |line| || (e + 2 == |line| && line[e + 1] == '\n'))
  }

  /** The groups `g + 1`..3 as `rest` places them, after group `g` ended at `e`. */
  predicate RestMatches(line: string, g: nat, e: nat, rest: seq<(nat, nat)>)
    requires g <= 3 && e <= |line|
    decreases 3 - g, 0
  {
    if g == 3 then rest == [] && Final(line, e)
    else Next(line, g, e).Some? && Matches(line, g + 1, Next(line, g, e).value, rest)
  }

  /** The reference: `spans` are the (start, end) of groups `g`..3, one valid decomposition of the rest of `line`. */
  predicate Matches(line: string, g: nat, pos: nat, spans: seq<(nat, nat)>)
    requires g <= 3 && pos <= |line|
    decreases 3 - g, 1
  {
    |spans| > 0 && spans[0].0 == pos && pos <= spans[0].1 <= MaxEnd(line, pos)
    && RestMatches(line, g, spans[0].1, spans[1..])
  }

  /** The rest of the pattern tried after group `g` ends at `e`. */
  function SearchRest(line: string, g: nat, e: nat): (r: Option<seq<(nat, nat)>>)
    requires g <= 3 && e <= |line|
    decreases 3 - g, 0
  {
    if g == 3 then (if Final(line, e) then Some([]) else None)
    else
      var next := Next(line, g, e);
      if next.None? then None else Search(line, g + 1, next.value, MaxEnd(line, next.value))
  }

  /**
   * The regex engine's backtracking for group `g` starting at `pos`: the longest run first,
   * then ever shorter ones, each tried with the rest of the pattern.
   */
  function Search(line: string, g: nat, pos: nat, e: nat): (r: Option<seq<(nat, nat)>>)
    requires g <= 3 && pos <= |line| && pos <= e <= MaxEnd(line, pos)
    decreases 3 - g, e - pos + 1
    ensures r.Some? ==> |r.value| > 0
  {
    var rest := SearchRest(line, g, e);
    if rest.Some? then Some([(pos, e)] + rest.value)
    else if e == pos then None
    else Search(line, g, pos, e - 1)
  }

  /** What the search finds is a decomposition, with the group ending no later than where it started looking. */
  lemma {:induction false} SearchSound(line: string, g: nat, pos: nat, e: nat)
    requires g <= 3 && pos <= |line| && pos <= e <= MaxEnd(line, pos)
    ensures Search(line, g, pos, e).Some? ==>
      Matches(line, g, pos, Search(line, g, pos, e).value) && Search(line, g, pos, e).value[0].1 <= e
    decreases 3 - g, e - pos + 1
  {
    var rest := SearchRest(line, g, e);
    if rest.Some? {
      SearchRestSound(line, g, e);
      var r := [(pos, e)] + rest.value;
      assert r[0] == (pos, e) && r[1..] == rest.value;
    } else if e > pos {
      SearchSound(line, g, pos, e - 1);
    }
  }

  lemma {:induction false} SearchRestSound(line: string, g: nat, e: nat)
    requires g <= 3 && e <= |line|
    ensures SearchRest(line, g, e).Some? ==> RestMatches(line, g, e, SearchRest(line, g, e).value)
    decreases 3 - g, 0
  {
    if g < 3 {
      var next := Next(line, g, e);
      if next.Some? {
        SearchSound(line, g + 1, next.value, MaxEnd(line, next.value));
      }
    }
  }

  /** If any decomposition exists with the group ending by `e`, the search finds one. */
  lemma {:induction false} SearchComplete(line: string, g: nat, pos: nat, e: nat, spans: seq<(nat, nat)>)
    requires g <= 3 && pos <= |line| && pos <= e <= MaxEnd(line, pos)
    requires Matches(line, g, pos, spans) && spans[0].1 <= e
    ensures Search(line, g, pos, e).Some?
    decreases 3 - g, e - pos + 1
  {
    if spans[0].1 < e {
      SearchComplete(line, g, pos, e - 1, spans);
    } else {
      SearchRestComplete(line, g, e, spans[1..]);
    }
  }

  lemma {:induction false} SearchRestComplete(line: string, g: nat, e: nat, rest: seq<(nat, nat)>)
    requires g <= 3 && e <= |line|
    requires RestMatches(line, g, e, rest)
    ensures SearchRest(line, g, e).Some?
    decreases 3 - g, 0
  {
    if g < 3 {
      var p := Next(line, g, e).value;
      SearchComplete(line, g + 1, p, MaxEnd(line, p), rest);
    }
  }

  /** The search is greedy: no decomposition gives the group a longer run than the one found. */
  lemma {:induction false} SearchGreedy(line: string, g: nat, pos: nat, e: nat, spans: seq<(nat, nat)>)
    requires g <= 3 && pos <= |line| && pos <= e <= MaxEnd(line, pos)
    requires Matches(line, g, pos, spans) && spans[0].1 <= e
    ensures Search(line, g, pos, e).Some? && spans[0].1 <= Search(line, g, pos, e).value[0].1
    decreases e - pos
  {
    SearchComplete(line, g, pos, e, spans);
    if spans[0].1 == e {
      SearchRestComplete(line, g, e, spans[1..]);
      assert Search(line, g, pos, e).value[0] == (pos, e);
    } else if SearchRest(line, g, e).Some? {
      assert Search(line, g, pos, e).value[0] == (pos, e);
    } else {
      SearchGreedy(line, g, pos, e - 1, spans);
    }
  }

  /** The header's four groups, when the header pattern matches the line. */
  function MatchHeader(line: string): (r: Option<seq<(nat, nat)>>)
  {
    if StartsWith(line, HeaderStart) then Search(line, 0, |HeaderStart|, MaxEnd(line, |HeaderStart|)) else None
  }

  /** The line has the header's form, for some placement of the four groups. */
  ghost predicate IsHeader(line: string) {
    StartsWith(line, HeaderStart) && exists spans :: Matches(line, 0, |HeaderStart|, spans)
  }

  lemma {:induction false} MatchesShape(line: string, g: nat, pos: nat, spans: seq<(nat, nat)>)
    requires g <= 3 && pos <= |line|
    requires Matches(line, g, pos, spans)
    ensures |spans| == 4 - g
    ensures forall i :: 0 <= i < |spans| ==> spans[i].0 <= spans[i].1 <= |line|
    decreases 3 - g
  {
    if g < 3 {
      var next := Next(line, g, spans[0].1).value;
      MatchesShape(line, g + 1, next, spans[1..]);
      assert forall i :: 1 <= i < |spans| ==> spans[i] == spans[1..][i - 1];
    }
  }

  /** The match succeeds exactly on header lines, and what it finds is a placement of the four groups. */
  lemma MatchHeaderIffHeader(line: string)
    ensures MatchHeader(line).Some? <==> IsHeader(line)
    ensures MatchHeader(line).Some? ==> Matches(line, 0, |HeaderStart|, MatchHeader(line).value)
    ensures MatchHeader(line).Some? ==> IsPlacement(line, MatchHeader(line).value)
  {
    if StartsWith(line, HeaderStart) {
      var pos := |HeaderStart|;
      SearchSound(line, 0, pos, MaxEnd(line, pos));
      if MatchHeader(line).Some? {
        MatchesShape(line, 0, pos, MatchHeader(line).value);
      }
      if exists spans :: Matches(line, 0, pos, spans) {
        var spans :| Matches(line, 0, pos, spans);
        SearchComplete(line, 0, pos, MaxEnd(line, pos), spans);
      }
    }
  }

  // ----- the block -----

  datatype ProjectBlock<Section> = ProjectBlock(projectTypeGuid: string, projectName: string, relativePath: string,
                                                projectGuid: string, sections: seq<Section>)

  /** The fields of a matched header, before the lines that follow it are read. */
  datatype Header = Header(projectTypeGuid: string, projectName: string, relativePath: string, projectGuid: string)

  /** `Path.GetInvalidPathChars()` on a Unix-like platform: the null character. */
  predicate IsInvalidPathChar(c: char) { c == '\0' }

  /** Group `i` of a match, trimmed as `Parse` trims it. */
  function Group(line: string, spans: seq<(nat, nat)>, i: nat): string
    requires i < |spans| && spans[i].0 <= spans[i].1 <= |line|
  {
    Trim(line[spans[i].0..spans[i].1])
  }

  /** Some character of `path` is invalid in a path. */
  predicate HasInvalidPathChar(path: string) {
    exists k :: 0 <= k < |path| && IsInvalidPathChar(path[k])
  }

  /**
   * The header part of `Parse`: `None` (null) when the header does not match; otherwise the four
   * trimmed groups, an empty name replaced by a generated one, and an invalid path character
   * rejected. `freshGuid` stands for the text of `Guid.NewGuid()`.
   */
  function ParseHeader(headerLine: string, freshGuid: string): (r: Result<Option<Header>>)
    ensures r.Throws? ==> r.exception == InvalidSolutionFileException
  {
    MatchHeaderIffHeader(headerLine);
    var m := MatchHeader(headerLine);
    if m.None? then Ok(None)
    else
      var h :- HeaderOf(headerLine, m.value, freshGuid);
      Ok(Some(h))
  }

  /** The four groups of a match, whatever their placement, as `Parse` turns them into fields. */
  predicate IsPlacement(line: string, spans: seq<(nat, nat)>) {
    |spans| == 4 && forall i :: 0 <= i < 4 ==> spans[i].0 <= spans[i].1 <= |line|
  }

  function HeaderOf(line: string, spans: seq<(nat, nat)>, freshGuid: string): (r: Result<Header>)
    requires IsPlacement(line, spans)
    ensures r.Throws? ==> r.exception == InvalidSolutionFileException
  {
    var name := Group(line, spans, 1);
    var path := Group(line, spans, 2);
    if HasInvalidPathChar(path) then Throws(InvalidSolutionFileException)
    else Ok(Header(Group(line, spans, 0), if name == "" then EmptyProjectNamePrefix + freshGuid else name,
                   path, Group(line, spans, 3)))
  }

  /** Null exactly for a line that is not a project header. */
  lemma ParseHeaderNullIffNotHeader(headerLine: string, freshGuid: string)
    ensures ParseHeader(headerLine, freshGuid) == Ok(None) <==> !IsHeader(headerLine)
  {
    MatchHeaderIffHeader(headerLine);
  }

  /** Neither end of a trimmed string is white space. */
  predicate HasNoOuterWhiteSpace(t: string) {
    t == [] || (!IsWhiteSpace(t[0]) && !IsWhiteSpace(t[|t| - 1]))
  }

  lemma TrimmedHasNoOuterWhiteSpace(s: string)
    ensures HasNoOuterWhiteSpace(Trim(s))
  {
    var u := TrimStart(s);
    var t := TrimEnd(u);
    if t != [] {
      assert u[..|t|] == t;
      assert t[0] == u[0];
    }
  }

  /** Only a path holding an invalid character is rejected. */
  lemma HeaderOfRejects(line: string, spans: seq<(nat, nat)>, freshGuid: string)
    requires IsPlacement(line, spans)
    ensures HeaderOf(line, spans, freshGuid).Throws? <==> HasInvalidPathChar(Group(line, spans, 2))
  {
  }

  /** The name is never empty: it is the trimmed group or, when that is empty, the generated one. */
  lemma HeaderOfName(line: string, spans: seq<(nat, nat)>, freshGuid: string)
    requires IsPlacement(line, spans) && HeaderOf(line, spans, freshGuid).Ok?
    ensures var h := HeaderOf(line, spans, freshGuid).value;
      h.projectName != ""
      && (h.projectName == Group(line, spans, 1) || h.projectName == EmptyProjectNamePrefix + freshGuid)
  {
    var name := Group(line, spans, 1);
    if name == "" {
      assert |EmptyProjectNamePrefix + freshGuid| >= |EmptyProjectNamePrefix|;
    }
  }

  /** The other fields are trimmed, and the path holds no invalid character. */
  lemma HeaderOfTrimmed(line: string, spans: seq<(nat, nat)>, freshGuid: string)
    requires IsPlacement(line, spans) && HeaderOf(line, spans, freshGuid).Ok?
    ensures var h := HeaderOf(line, spans, freshGuid).value;
      HasNoOuterWhiteSpace(h.projectTypeGuid) && HasNoOuterWhiteSpace(h.relativePath) && HasNoOuterWhiteSpace(h.projectGuid)
      && !HasInvalidPathChar(h.relativePath)
  {
    var h := HeaderOf(line, spans, freshGuid).value;
    assert h.projectTypeGuid == Group(line, spans, 0) && h.relativePath == Group(line, spans, 2)
      && h.projectGuid == Group(line, spans, 3);
    TrimmedHasNoOuterWhiteSpace(line[spans[0].0..spans[0].1]);
    TrimmedHasNoOuterWhiteSpace(line[spans[2].0..spans[2].1]);
    TrimmedHasNoOuterWhiteSpace(line[spans[3].0..spans[3].1]);
  }

  /** A header line gives fields as `HeaderOf` builds them from the groups the match places. */
  lemma ParseHeaderOfHeader(headerLine: string, freshGuid: string)
    requires IsHeader(headerLine)
    ensures MatchHeader(headerLine).Some? && IsPlacement(headerLine, MatchHeader(headerLine).value)
    ensures var h := HeaderOf(headerLine, MatchHeader(headerLine).value, freshGuid);
      ParseHeader(headerLine, freshGuid) == if h.Ok? then Ok(Some(h.value)) else Throws(h.exception)
  {
    MatchHeaderIffHeader(headerLine);
  }

  // ----- the lines after the header -----

  /** How many lines after a `ProjectSection(` line the section parser reads, as far as there are any. */
  function Consumed<Section>(line: string, after: seq<string>, parseSection: (string, seq<string>) -> (Option<Section>, nat))
    : (r: nat)
    ensures r <= |after|
  {
    if StartsWith(line, SectionStart) then Min(parseSection(line, after).1, |after|) else 0
  }

  /** The section a line contributes: the parsed one for a `ProjectSection(` line, when not null. */
  function Found<Section>(line: string, after: seq<string>, parseSection: (string, seq<string>) -> (Option<Section>, nat))
    : seq<Section>
  {
    if StartsWith(line, SectionStart) && parseSection(line, after).0.Some? then [parseSection(line, after).0.value] else []
  }

  function Min(a: nat, b: nat): nat { if a < b then a else b }

  /**
   * The loop of `Parse` over the lines from position `k`: stop after `EndProject` or at the end;
   * a `ProjectSection(` line is handed, with the lines after it, to the section parser, which
   * says what it found and how many of those lines it read. The result is the sections and the
   * position after the last line read.
   */
  function ReadSections<Section>(lines: seq<string>, k: nat, parseSection: (string, seq<string>) -> (Option<Section>, nat))
    : (r: (seq<Section>, nat))
    requires k <= |lines|
    ensures k <= r.1 <= |lines|
    ensures r.1 < |lines| ==> k < r.1 && lines[r.1 - 1] == EndProject
    decreases |lines| - k
  {
    if k == |lines| then ([], k)
    else if lines[k] == EndProject then ([], k + 1)
    else
      var rest := ReadSections(lines, k + 1 + Consumed(lines[k], lines[k + 1..], parseSection), parseSection);
      (Found(lines[k], lines[k + 1..], parseSection) + rest.0, rest.1)
  }

  /** Without `ProjectSection(` lines, reading stops right after the first `EndProject`, with no sections. */
  lemma {:induction false} StopsAtFirstEndProject<Section>(lines: seq<string>, k: nat, i: nat,
                                                            parseSection: (string, seq<string>) -> (Option<Section>, nat))
    requires k <= i < |lines| && lines[i] == EndProject
    requires forall j :: k <= j < i ==> lines[j] != EndProject && !StartsWith(lines[j], SectionStart)
    ensures ReadSections(lines, k, parseSection) == ([], i + 1)
    decreases i - k
  {
    if k < i {
      StopsAtFirstEndProject(lines, k + 1, i, parseSection);
      ReadSectionsStep(lines, k, parseSection);
      assert Consumed(lines[k], lines[k + 1..], parseSection) == 0;
      assert Found(lines[k], lines[k + 1..], parseSection) == [];
      var rest := ReadSections(lines, k + 1, parseSection);
      assert ReadSections(lines, k, parseSection) == (Found(lines[k], lines[k + 1..], parseSection) + rest.0, rest.1);
      assert rest == ([], i + 1);
      assert Found(lines[k], lines[k + 1..], parseSection) + rest.0 == [];
    }
  }

  /** Lines with no `EndProject` are read to the end. */
  lemma ReadsToEndWithoutEndProject<Section>(lines: seq<string>, k: nat,
                                             parseSection: (string, seq<string>) -> (Option<Section>, nat))
    requires k <= |lines|
    requires forall j :: k <= j < |lines| ==> lines[j] != EndProject
    ensures ReadSections(lines, k, parseSection).1 == |lines|
  {
  }

  /** Every section comes from a `ProjectSection(` line read by the loop. */
  lemma {:induction false} SectionsFromSectionLines<Section>(lines: seq<string>, k: nat,
                                                              parseSection: (string, seq<string>) -> (Option<Section>, nat))
    requires k <= |lines|
    ensures forall x :: x in ReadSections(lines, k, parseSection).0 ==>
      exists j :: k <= j < ReadSections(lines, k, parseSection).1 && StartsWith(lines[j], SectionStart)
        && parseSection(lines[j], lines[j + 1..]).0 == Some(x)
    decreases |lines| - k
  {
    if k < |lines| && lines[k] != EndProject {
      var next := k + 1 + Consumed(lines[k], lines[k + 1..], parseSection);
      SectionsFromSectionLines(lines, next, parseSection);
    }
  }

  /** The sections are those of the `ProjectSection(` lines read, in their order: no more than one per line read. */
  lemma {:induction false} AtMostOneSectionPerLine<Section>(lines: seq<string>, k: nat,
                                                             parseSection: (string, seq<string>) -> (Option<Section>, nat))
    requires k <= |lines|
    ensures |ReadSections(lines, k, parseSection).0| <= ReadSections(lines, k, parseSection).1 - k
    decreases |lines| - k
  {
    if k < |lines| && lines[k] != EndProject {
      var next := k + 1 + Consumed(lines[k], lines[k + 1..], parseSection);
      AtMostOneSectionPerLine(lines, next, parseSection);
    }
  }

  /** `Scanner`: the solution file's lines and the position of the next one. */
  class Scanner {
    const lines: seq<string>
    var position: nat

    constructor (lines: seq<string>, position: nat)
      requires position <= |lines|
      ensures this.lines == lines && this.position == position
    {
      this.lines := lines;
      this.position := position;
    }

    /** `NextLine()`: the next line, or null at the end. */
    method NextLine() returns (line: Option<string>)
      requires position <= |lines|
      modifies this
      ensures old(position) < |lines| ==> line == Some(lines[old(position)]) && position == old(position) + 1
      ensures old(position) == |lines| ==> line.None? && position == old(position)
    {
      if position == |lines| {
        return None;
      }
      line := Some(lines[position]);
      position := position + 1;
    }

    /** The section parser reading `count` lines of its own, as far as there are any. */
    method Skip(count: nat)
      requires position <= |lines|
      modifies this
      ensures position == old(position) + Min(count, |lines| - old(position))
    {
      position := position + Min(count, |lines| - position);
    }
  }

  /**
   * One turn of the `while` loop of `Parse`: the next line, and for a `ProjectSection(` line
   * the section parser's work. `more` is false when the loop stops.
   */
  method ReadLine<Section>(scanner: Scanner, parseSection: (string, seq<string>) -> (Option<Section>, nat))
    returns (more: bool, found: seq<Section>)
    requires scanner.position <= |scanner.lines|
    modifies scanner
    ensures old(scanner.position) == |scanner.lines| ==> !more && found == [] && scanner.position == old(scanner.position)
    ensures old(scanner.position) < |scanner.lines| && scanner.lines[old(scanner.position)] == EndProject ==>
      !more && found == [] && scanner.position == old(scanner.position) + 1
    ensures old(scanner.position) < |scanner.lines| && scanner.lines[old(scanner.position)] != EndProject ==>
      var k := old(scanner.position);
      more && found == Found(scanner.lines[k], scanner.lines[k + 1..], parseSection)
      && scanner.position == k + 1 + Consumed(scanner.lines[k], scanner.lines[k + 1..], parseSection)
  {
    var next := scanner.NextLine();
    if next.None? {
      return false, [];
    }
    var line := next.value;
    if line == EndProject {
      return false, [];
    }
    var after := scanner.lines[scanner.position..];
    found := [];
    if StartsWith(line, SectionStart) {
      var parsed := parseSection(line, after);
      scanner.Skip(parsed.1);
      if parsed.0.Some? {
        found := [parsed.0.value];
      }
    }
    more := true;
  }

  /** The `while` loop of `Parse`: the sections found, the scanner left after the last line read. */
  method ReadBlockLines<Section>(scanner: Scanner, parseSection: (string, seq<string>) -> (Option<Section>, nat))
    returns (sections: seq<Section>)
    requires scanner.position <= |scanner.lines|
    modifies scanner
    ensures sections == ReadSections(scanner.lines, old(scanner.position), parseSection).0
    ensures scanner.position == ReadSections(scanner.lines, old(scanner.position), parseSection).1
  {
    ghost var start := scanner.position;
    ghost var lines := scanner.lines;
    sections := [];
    while true
      invariant start <= scanner.position <= |lines| && scanner.lines == lines
      invariant ReadSections(lines, start, parseSection).0 == sections + ReadSections(lines, scanner.position, parseSection).0
      invariant ReadSections(lines, start, parseSection).1 == ReadSections(lines, scanner.position, parseSection).1
      decreases |lines| - scanner.position
    {
      ghost var here := scanner.position;
      var more, found := ReadLine(scanner, parseSection);
      if !more {
        break;
      }
      assert here < |lines| && lines[here] != EndProject;
      assert found == Found(lines[here], lines[here + 1..], parseSection);
      assert scanner.position == here + 1 + Consumed(lines[here], lines[here + 1..], parseSection);
      ghost var pos := scanner.position;
      LoopStep(lines, start, here, pos, sections, found, parseSection);
      sections := sections + found;
      assert ReadSections(lines, start, parseSection).0 == sections + ReadSections(lines, pos, parseSection).0;
    }
  }

  /** One line that is not `EndProject`: its section, then the rest after the lines its parser read. */
  lemma ReadSectionsStep<Section>(lines: seq<string>, k: nat, parseSection: (string, seq<string>) -> (Option<Section>, nat))
    requires k < |lines| && lines[k] != EndProject
    ensures var rest := ReadSections(lines, k + 1 + Consumed(lines[k], lines[k + 1..], parseSection), parseSection);
      ReadSections(lines, k, parseSection) == (Found(lines[k], lines[k + 1..], parseSection) + rest.0, rest.1)
  {
  }

  lemma LoopStep<Section>(lines: seq<string>, start: nat, here: nat, pos: nat, sections: seq<Section>, found: seq<Section>,
                          parseSection: (string, seq<string>) -> (Option<Section>, nat))
    requires start <= here < |lines| && lines[here] != EndProject
    requires ReadSections(lines, start, parseSection).0 == sections + ReadSections(lines, here, parseSection).0
    requires ReadSections(lines, start, parseSection).1 == ReadSections(lines, here, parseSection).1
    requires found == Found(lines[here], lines[here + 1..], parseSection)
    requires pos == here + 1 + Consumed(lines[here], lines[here + 1..], parseSection)
    ensures ReadSections(lines, start, parseSection).0 == (sections + found) + ReadSections(lines, pos, parseSection).0
    ensures ReadSections(lines, start, parseSection).1 == ReadSections(lines, pos, parseSection).1
  {
    ReadSectionsStep(lines, here, parseSection);
    ConcatAssociative(sections, found, ReadSections(lines, pos, parseSection).0);
  }

  lemma ConcatAssociative<T>(a: seq<T>, b: seq<T>, c: seq<T>)
    ensures a + (b + c) == (a + b) + c
  {
  }

  /** `Parse(headerLine, scanner)`: the header, then the lines up to `EndProject`. */
  method Parse<Section>(headerLine: string, scanner: Scanner, freshGuid: string,
                        parseSection: (string, seq<string>) -> (Option<Section>, nat))
    returns (r: Result<Option<ProjectBlock<Section>>>)
    requires scanner.position <= |scanner.lines|
    modifies scanner
    ensures ParseHeader(headerLine, freshGuid).Throws? ==>
      r == Throws(InvalidSolutionFileException) && scanner.position == old(scanner.position)
    ensures ParseHeader(headerLine, freshGuid) == Ok(None) ==> r == Ok(None) && scanner.position == old(scanner.position)
    ensures ParseHeader(headerLine, freshGuid).Ok? && ParseHeader(headerLine, freshGuid).value.Some? ==>
      var h := ParseHeader(headerLine, freshGuid).value.value;
      var read := ReadSections(scanner.lines, old(scanner.position), parseSection);
      r == Ok(Some(ProjectBlock(h.projectTypeGuid, h.projectName, h.relativePath, h.projectGuid, read.0)))
      && scanner.position == read.1
  {
    var header := ParseHeader(headerLine, freshGuid);
    if header.Throws? {
      return Throws(InvalidSolutionFileException);
    }
    if header.value.None? {
      return Ok(None);
    }
    var h := header.value.value;
    var sections := ReadBlockLines(scanner, parseSection);
    return Ok(Some(ProjectBlock(h.projectTypeGuid, h.projectName, h.relativePath, h.projectGuid, sections)));
  }

  /** `IsNotSupported`: a solution folder or a legacy web site, by type, or a project served over http. */
  predicate IsNotSupported<Section>(block: ProjectBlock<Section>)
    ensures IsNotSupported(block) <==>
      EqualsIgnoreCase(block.projectTypeGuid, SolutionFolderGuid)
      || EqualsIgnoreCase(block.projectTypeGuid, LegacyAspNetWebsite)
      || StartsWithIgnoreCase(block.relativePath, HttpPrefix)
  {
    UpperCasedPrefix(block.relativePath, HttpPrefix);
    Unsupported(block.projectTypeGuid, block.relativePath, SolutionFolderGuid, LegacyAspNetWebsite, HttpPrefix)
  }

  /** Upper-casing a string before a case-insensitive prefix test changes nothing. */
  lemma UpperCasedPrefix(s: string, prefix: string)
    ensures StartsWithIgnoreCase(ToUpper(s), prefix) <==> StartsWithIgnoreCase(s, prefix)
  {
    if |prefix| <= |s| {
      assert ToUpper(ToUpper(s)[..|prefix|]) == ToUpper(s[..|prefix|]);
    }
  }

  /** The test of `IsNotSupported`, on the two guids and the prefix it is given. */
  predicate Unsupported(projectTypeGuid: string, relativePath: string, folderGuid: string, websiteGuid: string, prefix: string) {
    EqualsIgnoreCase(projectTypeGuid, folderGuid)
    || EqualsIgnoreCase(projectTypeGuid, websiteGuid)
    || StartsWithIgnoreCase(ToUpper(relativePath), prefix)
  }

  lemma UnsupportedIgnoresCase(guid: string, path: string, guid': string, path': string,
                               folderGuid: string, websiteGuid: string, prefix: string)
    requires EqualsIgnoreCase(guid, guid') && EqualsIgnoreCase(path, path')
    ensures Unsupported(guid, path, folderGuid, websiteGuid, prefix) == Unsupported(guid', path', folderGuid, websiteGuid, prefix)
  {
  }

  /** The decision ignores the case of the type guid and of the path. */
  lemma IsNotSupportedIgnoresCase<Section>(a: ProjectBlock<Section>, b: ProjectBlock<Section>)
    requires EqualsIgnoreCase(a.projectTypeGuid, b.projectTypeGuid) && EqualsIgnoreCase(a.relativePath, b.relativePath)
    ensures IsNotSupported(a) == IsNotSupported(b)
  {
    UnsupportedIgnoresCase(a.projectTypeGuid, a.relativePath, b.projectTypeGuid, b.relativePath,
                           SolutionFolderGuid, LegacyAspNetWebsite, HttpPrefix);
  }
}
