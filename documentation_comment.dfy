// `DocumentationComment`: the sections of an XML documentation comment, gathered by one pass
// over the reader's nodes, and the string helpers that clean up the text of each section.
module DocumentationComment {
  import opened Wrappers
  import opened Text

  // ----- string helpers -----

  /** A line break at the start of `s`: "\n" is tried first, then "\r\n"; 0 when there is none. */
  function LineBreakLength(s: string): (r: nat)
    ensures r <= |s|
    ensures r == 1 <==> s != [] && s[0] == '\n'
    ensures r == 2 <==> |s| >= 2 && s[0] == '\r' && s[1] == '\n'
    ensures r == 0 || r == 1 || r == 2
  {
    if s != [] && s[0] == '\n' then 1
    else if |s| >= 2 && s[0] == '\r' && s[1] == '\n' then 2
    else 0
  }

  function Keep(piece: string): seq<string> {
    if piece == [] then [] else [piece]
  }

  /**
   * `Split(new[] { "\n", "\r\n" }, RemoveEmptyEntries)` on `s`, with `current` the piece read so
   * far: the pieces between line breaks, empty ones dropped.
   */
  function SplitLines(s: string, current: string): seq<string>
    decreases |s|
  {
    if s == [] then Keep(current)
    else if LineBreakLength(s) > 0 then Keep(current) + SplitLines(s[LineBreakLength(s)..], "")
    else SplitLines(s[1..], current + [s[0]])
  }

  /** The reference: `s` with its line breaks taken out. */
  function WithoutLineBreaks(s: string): string
    decreases |s|
  {
    if s == [] then ""
    else if LineBreakLength(s) > 0 then WithoutLineBreaks(s[LineBreakLength(s)..])
    else [s[0]] + WithoutLineBreaks(s[1..])
  }

  function Concat(pieces: seq<string>): string {
    if pieces == [] then "" else pieces[0] + Concat(pieces[1..])
  }

  lemma {:induction false} ConcatAppend(a: seq<string>, b: seq<string>)
    ensures Concat(a + b) == Concat(a) + Concat(b)
    decreases |a|
  {
    if a == [] {
      assert a + b == b;
    } else {
      assert (a + b)[0] == a[0] && (a + b)[1..] == a[1..] + b;
      ConcatAppend(a[1..], b);
    }
  }

  lemma ConcatKeep(piece: string)
    ensures Concat(Keep(piece)) == piece
  {
    if piece != [] {
      assert Keep(piece)[1..] == [];
    }
  }

  /** The pieces, put back together, are the text without its line breaks: nothing is lost or added. */
  lemma {:induction false} SplitLinesKeepsText(s: string, current: string)
    ensures Concat(SplitLines(s, current)) == current + WithoutLineBreaks(s)
    decreases |s|
  {
    if s == [] {
      ConcatKeep(current);
    } else if LineBreakLength(s) > 0 {
      var rest := s[LineBreakLength(s)..];
      assert SplitLines(s, current) == Keep(current) + SplitLines(rest, "");
      assert WithoutLineBreaks(s) == WithoutLineBreaks(rest);
      SplitLinesKeepsText(rest, "");
      ConcatAppend(Keep(current), SplitLines(rest, ""));
      ConcatKeep(current);
      assert "" + WithoutLineBreaks(rest) == WithoutLineBreaks(rest);
    } else {
      assert SplitLines(s, current) == SplitLines(s[1..], current + [s[0]]);
      assert WithoutLineBreaks(s) == [s[0]] + WithoutLineBreaks(s[1..]);
      SplitLinesKeepsText(s[1..], current + [s[0]]);
      assert current + [s[0]] + WithoutLineBreaks(s[1..]) == current + ([s[0]] + WithoutLineBreaks(s[1..]));
    }
  }

  /** No piece is empty, and none holds a line feed. */
  lemma {:induction false} SplitLinesPieces(s: string, current: string)
    requires '\n' !in current
    ensures forall p :: p in SplitLines(s, current) ==> p != [] && '\n' !in p
    decreases |s|
  {
    if s != [] {
      if LineBreakLength(s) > 0 {
        SplitLinesPieces(s[LineBreakLength(s)..], "");
      } else {
        assert s[0] != '\n';
        SplitLinesPieces(s[1..], current + [s[0]]);
      }
    }
  }

  /** `TrimStartRetainingSingleLeadingSpace`: blank text becomes empty, leading white space one space. */
  function TrimStartRetainingSingleLeadingSpace(input: Option<string>): (r: string)
    ensures (input.None? || IsNullOrWhiteSpace(input.value)) <==> r == ""
  {
    if input.None? || IsNullOrWhiteSpace(input.value) then ""
    else if !IsWhiteSpace(input.value[0]) then input.value
    else " " + TrimStart(input.value)
  }

  /**
   * Non-blank text without leading white space is returned unchanged; otherwise its leading white
   * space becomes a single space, and the text after it is kept.
   */
  lemma TrimStartRetainsSingleSpace(input: string)
    requires !IsNullOrWhiteSpace(input)
    ensures var r := TrimStartRetainingSingleLeadingSpace(Some(input));
      r != [] && TrimStart(r) == TrimStart(input)
      && (IsWhiteSpace(r[0]) <==> IsWhiteSpace(input[0]))
      && (IsWhiteSpace(r[0]) ==> r[0] == ' ' && |r| > 1 && !IsWhiteSpace(r[1]))
    ensures !IsWhiteSpace(input[0]) ==> TrimStartRetainingSingleLeadingSpace(Some(input)) == input
    ensures IsWhiteSpace(input[0]) ==> TrimStartRetainingSingleLeadingSpace(Some(input)) == " " + TrimStart(input)
  {
    var t := TrimStart(input);
    var j :| 0 <= j < |input| && !IsWhiteSpace(input[j]);
    assert j >= |input| - |t|;
    if IsWhiteSpace(input[0]) {
      var r := " " + t;
      assert r[1..] == t;
    }
  }

  /** `TrimMultiLineString`: null becomes empty; otherwise the non-empty lines, each trimmed, joined by `lineEnding`. */
  function TrimMultiLineString(input: Option<string>, lineEnding: string): (r: string)
    ensures input.None? ==> r == ""
    ensures '\n' !in lineEnding ==> '\n' !in r
  {
    if input.None? then ""
    else
      TrimmedLinesHaveNoLineFeed(input.value, lineEnding);
      Join(lineEnding, TrimLines(SplitLines(input.value, "")))
  }

  function TrimLines(lines: seq<string>): (r: seq<string>)
    ensures |r| == |lines|
    ensures forall i :: 0 <= i < |lines| ==> r[i] == TrimStartRetainingSingleLeadingSpace(Some(lines[i]))
  {
    if lines == [] then [] else [TrimStartRetainingSingleLeadingSpace(Some(lines[0]))] + TrimLines(lines[1..])
  }

  lemma TrimmedLineHasNoLineFeed(line: string)
    requires '\n' !in line
    ensures '\n' !in TrimStartRetainingSingleLeadingSpace(Some(line))
  {
    if !IsNullOrWhiteSpace(line) && IsWhiteSpace(line[0]) {
      var t := TrimStart(line);
      assert forall k :: 0 <= k < |t| ==> t[k] == line[|line| - |t| + k];
    }
  }

  lemma {:induction false} JoinHasNoLineFeed(sep: string, parts: seq<string>)
    requires '\n' !in sep && forall p :: p in parts ==> '\n' !in p
    ensures '\n' !in Join(sep, parts)
    decreases |parts|
  {
    if |parts| > 1 {
      JoinHasNoLineFeed(sep, parts[1..]);
    }
  }

  /** The only line feeds of the joined, trimmed lines are those of `lineEnding`. */
  lemma TrimmedLinesHaveNoLineFeed(text: string, lineEnding: string)
    ensures '\n' !in lineEnding ==> '\n' !in Join(lineEnding, TrimLines(SplitLines(text, "")))
  {
    if '\n' !in lineEnding {
      var lines := SplitLines(text, "");
      SplitLinesPieces(text, "");
      var trimmed := TrimLines(lines);
      forall p | p in trimmed
        ensures '\n' !in p
      {
        var i :| 0 <= i < |trimmed| && trimmed[i] == p;
        TrimmedLineHasNoLineFeed(lines[i]);
      }
      JoinHasNoLineFeed(lineEnding, trimmed);
    }
  }

  /** `GetCref`: a `X:` kind prefix is dropped, and a space is appended to anything that is not blank. */
  function GetCref(cref: Option<string>): (r: string)
    ensures (cref.None? || Trim(cref.value) == "") ==> r == ""
    ensures cref.Some? && Trim(cref.value) != "" && |cref.value| >= 2 ==>
      |r| > 0 && r[|r| - 1] == ' ' && r[..|r| - 1] == (if cref.value[1] == ':' then cref.value[2..] else cref.value)
    ensures cref.Some? && Trim(cref.value) != "" && |cref.value| < 2 ==> r == cref.value
  {
    if cref.None? || Trim(cref.value) == "" then ""
    else if |cref.value| < 2 then cref.value
    else if cref.value[1] == ':' then cref.value[2..] + " "
    else cref.value + " "
  }

  /** What an exception item is named after: the target without its kind prefix, without the appended space. */
  lemma CrefNameOfExceptions(target: string, kind: char)
    requires target != [] && !IsWhiteSpace(target[|target| - 1])
    ensures TrimEnd(GetCref(Some([kind, ':'] + target))) == target
  {
    var cref := [kind, ':'] + target;
    assert cref[2..] == target && cref[1] == ':';
    assert cref[|cref| - 1] == target[|target| - 1];
    var ts := TrimStart(cref);
    assert |ts| > 0;
    assert ts[|ts| - 1] == cref[|cref| - 1];
    assert Trim(cref) != "";
    var r := target + " ";
    assert r[..|r| - 1] == target;
  }

  // ----- the reader's nodes -----

  /**
   * A node of the XML reader: an element with its attributes and the number of nodes inside it,
   * end tag included (0 for an empty element); a text node; or any other node, end tags included.
   */
  datatype Node = Element(name: string, attributes: map<string, string>, descendants: nat) | Text(value: string) | Other

  /** `xml[attribute]`: the attribute's value, or null. */
  function Attribute(attributes: map<string, string>, key: string): Option<string> {
    if key in attributes then Some(attributes[key]) else None
  }

  /** The case labels of the `switch` on the element name, in their order. */
  datatype Label = FilterPriority | Remarks | Example | ExceptionLabel | Returns | Summary | Param | TypeParam | Value
                 | TypeParamRef | See | SeeAlso | ParamRef | LineBreak | Unlabelled

  function LabelOf(name: string): Label {
    if name == "filterpriority" then FilterPriority
    else if name == "remarks" then Remarks
    else if name == "example" then Example
    else if name == "exception" then ExceptionLabel
    else if name == "returns" then Returns
    else if name == "summary" then Summary
    else if name == "param" then Param
    else if name == "typeparam" then TypeParam
    else if name == "value" then Value
    else if name == "typeparamref" then TypeParamRef
    else if name == "see" then See
    else if name == "seealso" then SeeAlso
    else if name == "paramref" then ParamRef
    else if name == "br" || name == "para" then LineBreak
    else Unlabelled
  }

  /** How the element name is folded before the `switch`: `ToUpperInvariant` as written. */
  datatype Fold = UpperCase | LowerCase

  function FoldName(fold: Fold, name: string): string {
    match fold
    case UpperCase => ToUpper(name)
    case LowerCase => ToLower(name)
  }

  /** An upper-cased name never begins with a lower-case letter, so it matches no label and is never "code". */
  lemma UpperCaseNameMatchesNoLabel(name: string)
    ensures LabelOf(ToUpper(name)) == Unlabelled && ToUpper(name) != "code"
  {
    var u := ToUpper(name);
    if u != [] {
      assert u[0] == ToUpperChar(name[0]);
      assert !('a' <= u[0] <= 'z');
    }
  }

  // ----- the pass over the nodes -----

  /** A `DocumentationItem` (and the builder it is converted from): a name and its text. */
  datatype Item = Item(name: string, documentation: string)

  /** The builder `currentSectionBuilder` refers to; an item's builder is always the last one added. */
  datatype Section = NoSection | SummaryText | ReturnsText | RemarksText | ExampleText | ValueText
                   | LastTypeParam | LastParam | LastException

  /** The local state of `From`: the builders, `elementName` and `currentSectionBuilder`. */
  datatype State = State(summary: string, returnsText: string, remarks: string, example: string, value: string,
                         typeParams: seq<Item>, params: seq<Item>, exceptions: seq<Item>,
                         elementName: Option<string>, current: Section)

  const Initial := State("", "", "", "", "", [], [], [], None, NoSection)

  /** The current builder exists: an item section has an item to write to. */
  predicate Valid(st: State) {
    (st.current == LastTypeParam ==> st.typeParams != [])
    && (st.current == LastParam ==> st.params != [])
    && (st.current == LastException ==> st.exceptions != [])
  }

  function AppendToLast(items: seq<Item>, text: string): (r: seq<Item>)
    ensures |r| == |items|
  {
    if items == [] then items
    else items[..|items| - 1] + [items[|items| - 1].(documentation := items[|items| - 1].documentation + text)]
  }

  /** `currentSectionBuilder.Append(text)`. */
  function Append(st: State, text: string): (r: State)
    ensures Valid(st) ==> Valid(r)
    ensures r.current == st.current && r.elementName == st.elementName
  {
    match st.current
    case NoSection => st
    case SummaryText => st.(summary := st.summary + text)
    case ReturnsText => st.(returnsText := st.returnsText + text)
    case RemarksText => st.(remarks := st.remarks + text)
    case ExampleText => st.(example := st.example + text)
    case ValueText => st.(value := st.value + text)
    case LastTypeParam => st.(typeParams := AppendToLast(st.typeParams, text))
    case LastParam => st.(params := AppendToLast(st.params, text))
    case LastException => st.(exceptions := AppendToLast(st.exceptions, text))
  }

  /** `Append` of a string that may be null: nothing is appended for null. */
  function AppendOption(st: State, text: Option<string>): (r: State)
    ensures Valid(st) ==> Valid(r)
    ensures r.current == st.current && r.elementName == st.elementName
  {
    if text.None? then st else Append(st, text.value)
  }

  /** The `switch` for an element other than `filterpriority`, whose folded name is `name`. */
  function ElementStep(st: State, name: string, attributes: map<string, string>, lineEnding: string): (r: State)
    ensures Valid(st) ==> Valid(r)
    ensures r.elementName == st.elementName
  {
    match LabelOf(name)
    case Remarks => st.(current := RemarksText)
    case Example => st.(current := ExampleText)
    case ExceptionLabel =>
      st.(exceptions := st.exceptions + [Item(TrimEnd(GetCref(Attribute(attributes, "cref"))), "")], current := LastException)
    case Returns => st.(current := ReturnsText)
    case Summary => st.(current := SummaryText)
    case Param =>
      st.(params := st.params + [Item(TrimMultiLineString(Attribute(attributes, "name"), lineEnding), "")], current := LastParam)
    case TypeParam =>
      st.(typeParams := st.typeParams + [Item(TrimMultiLineString(Attribute(attributes, "name"), lineEnding), "")],
          current := LastTypeParam)
    case Value => st.(current := ValueText)
    case _ =>
      if st.current == NoSection then st
      else
        match LabelOf(name)
        case TypeParamRef => Append(AppendOption(st, Attribute(attributes, "name")), " ")
        case See => AppendOption(Append(st, GetCref(Attribute(attributes, "cref"))), Attribute(attributes, "langword"))
        case SeeAlso => Append(Append(st, "See also: "), GetCref(Attribute(attributes, "cref")))
        case ParamRef => Append(AppendOption(st, Attribute(attributes, "name")), " ")
        case LineBreak => Append(st, lineEnding)
        case _ => st
  }

  /**
   * One turn of the `do`/`while` loop at node `i`: the new state and the next node read.
   * `filterpriority` is skipped with its contents, and the `Read` of the loop condition then
   * passes over the node after it as well.
   */
  function Step(nodes: seq<Node>, i: nat, st: State, fold: Fold, lineEnding: string): (r: (State, nat))
    requires i < |nodes|
    ensures r.1 > i
    ensures Valid(st) ==> Valid(r.0)
  {
    match nodes[i]
    case Element(name, attributes, descendants) =>
      var folded := FoldName(fold, name);
      var st' := st.(elementName := Some(folded));
      if LabelOf(folded) == FilterPriority then (st', i + 2 + descendants)
      else (ElementStep(st', folded, attributes, lineEnding), i + 1)
    case Text(value) =>
      if st.current == NoSection then (st, i + 1)
      else if st.elementName == Some("code") then (Append(st, value), i + 1)
      else (Append(st, TrimMultiLineString(Some(value), lineEnding)), i + 1)
    case Other => (st, i + 1)
  }

  /** The loop from node `i` on, in state `st`. */
  function Run(nodes: seq<Node>, i: nat, st: State, fold: Fold, lineEnding: string): State
    decreases |nodes| - i
  {
    if i >= |nodes| then st
    else
      var next := Step(nodes, i, st, fold, lineEnding);
      Run(nodes, next.1, next.0, fold, lineEnding)
  }

  /** The current builder always exists. */
  lemma {:induction false} RunKeepsValid(nodes: seq<Node>, i: nat, st: State, fold: Fold, lineEnding: string)
    requires Valid(st)
    ensures Valid(Run(nodes, i, st, fold, lineEnding))
    decreases |nodes| - i
  {
    if i < |nodes| {
      var next := Step(nodes, i, st, fold, lineEnding);
      RunKeepsValid(nodes, next.1, next.0, fold, lineEnding);
    }
  }

  /** The record `From` returns, with the item builders converted. */
  datatype DocumentationComment = DocumentationComment(
    summaryText: string, typeParamElements: Option<seq<Item>>, paramElements: Option<seq<Item>>,
    returnsText: string, remarksText: string, exampleText: string, valueText: string,
    exception: Option<seq<Item>>)

  /** `DocumentationComment.Empty`: the record's defaults, with null item lists. */
  const Empty := DocumentationComment("", None, None, "", "", "", "", None)

  function Result(st: State): DocumentationComment {
    DocumentationComment(st.summary, Some(st.typeParams), Some(st.params), st.returnsText, st.remarks, st.example,
                         st.value, Some(st.exceptions))
  }

  /**
   * The loop of `From` over the nodes the reader produces for `<docroot>` + the comment +
   * `</docroot>`, with element names folded by `fold`.
   */
  method ReadSections(nodes: seq<Node>, fold: Fold, lineEnding: string) returns (r: DocumentationComment)
    ensures r == Result(Run(nodes, 0, Initial, fold, lineEnding))
  {
    var st := Initial;
    var i := 0;
    while i < |nodes|
      invariant Run(nodes, 0, Initial, fold, lineEnding) == Run(nodes, i, st, fold, lineEnding)
      decreases |nodes| - i
    {
      var next := Step(nodes, i, st, fold, lineEnding);
      st, i := next.0, next.1;
    }
    return Result(st);
  }

  /**
   * `From(xmlDocumentation, lineEnding)`: `Empty` for a null or empty comment. `reader` stands for
   * the XML reader over `<docroot>` + the comment + `</docroot>`: the nodes it reads, or the
   * `XmlException` it throws on malformed XML, which nothing catches.
   */
  method From(xmlDocumentation: Option<string>, reader: string -> Result<seq<Node>>, lineEnding: string)
    returns (r: Result<DocumentationComment>)
    ensures IsNullOrEmpty(xmlDocumentation) ==> r == Ok(Empty)
    ensures !IsNullOrEmpty(xmlDocumentation) ==>
      var read := reader("<docroot>" + xmlDocumentation.value + "</docroot>");
      (read.Throws? ==> r == Throws(read.exception))
      && (read.Ok? ==> r == Ok(Result(Run(read.value, 0, Initial, UpperCase, lineEnding))))
  {
    if IsNullOrEmpty(xmlDocumentation) {
      return Ok(Empty);
    }
    var nodes :- reader("<docroot>" + xmlDocumentation.value + "</docroot>");
    var comment := ReadSections(nodes, UpperCase, lineEnding);
    return Ok(comment);
  }

  // ----- what the pass yields -----

  /** A state that has not selected a section and has gathered nothing. */
  predicate Untouched(st: State) {
    st.current == NoSection && st.summary == "" && st.returnsText == "" && st.remarks == "" && st.example == ""
    && st.value == "" && st.typeParams == [] && st.params == [] && st.exceptions == []
  }

  /** With upper-cased names the `switch` selects no section, so nothing is ever gathered. */
  lemma {:induction false} UpperCaseGathersNothing(nodes: seq<Node>, i: nat, st: State, lineEnding: string)
    requires Untouched(st)
    ensures Untouched(Run(nodes, i, st, UpperCase, lineEnding))
    decreases |nodes| - i
  {
    if i < |nodes| {
      if nodes[i].Element? {
        UpperCaseNameMatchesNoLabel(nodes[i].name);
      }
      var next := Step(nodes, i, st, UpperCase, lineEnding);
      UpperCaseGathersNothing(nodes, next.1, next.0, lineEnding);
    }
  }

  /** `From` as written returns empty texts and empty item lists for every comment that is not empty. */
  lemma FromGathersNothing(nodes: seq<Node>, lineEnding: string)
    ensures Result(Run(nodes, 0, Initial, UpperCase, lineEnding))
      == DocumentationComment("", Some([]), Some([]), "", "", "", "", Some([]))
  {
    UpperCaseGathersNothing(nodes, 0, Initial, lineEnding);
  }

  /** The nodes for `<summary>Hello</summary>` inside the root element. */
  const SummaryNodes := [Element("docroot", map[], 4), Element("summary", map[], 2), Text("Hello"), Other, Other]

  /** As written, even a plain summary is lost. */
  lemma SummaryLostAsWritten(lineEnding: string)
    ensures Result(Run(SummaryNodes, 0, Initial, UpperCase, lineEnding)).summaryText == ""
  {
    FromGathersNothing(SummaryNodes, lineEnding);
  }

  // ----- the pass as evidently intended: names folded to lower case -----

  /** The texts of nodes `i`.. as a section gathers them outside `code`. */
  function GatheredText(nodes: seq<Node>, i: nat, lineEnding: string): string
    decreases |nodes| - i
  {
    if i >= |nodes| || !nodes[i].Text? then ""
    else TrimMultiLineString(Some(nodes[i].value), lineEnding) + GatheredText(nodes, i + 1, lineEnding)
  }

  /** A text node met inside the summary goes, trimmed, to the summary, and the loop goes on at the next node. */
  lemma SummaryTextStep(nodes: seq<Node>, i: nat, st: State, lineEnding: string)
    requires i < |nodes| && nodes[i].Text?
    requires st.current == SummaryText && st.elementName == Some("summary")
    ensures Run(nodes, i, st, LowerCase, lineEnding)
      == Run(nodes, i + 1, st.(summary := st.summary + TrimMultiLineString(Some(nodes[i].value), lineEnding)), LowerCase, lineEnding)
  {
    assert Step(nodes, i, st, LowerCase, lineEnding)
      == (st.(summary := st.summary + TrimMultiLineString(Some(nodes[i].value), lineEnding)), i + 1);
  }

  lemma AppendAssociates(a: string, b: string, c: string)
    ensures a + b + c == a + (b + c)
  {
  }

  /** Text nodes after a summary element are gathered, in order, into the summary and nowhere else. */
  lemma {:induction false} SummaryGathersText(nodes: seq<Node>, i: nat, st: State, lineEnding: string)
    requires st.current == SummaryText && st.elementName == Some("summary")
    requires forall k :: i <= k < |nodes| ==> nodes[k].Text?
    ensures var r := Run(nodes, i, st, LowerCase, lineEnding);
      r.summary == st.summary + GatheredText(nodes, i, lineEnding)
      && r.returnsText == st.returnsText && r.remarks == st.remarks && r.params == st.params
    decreases |nodes| - i
  {
    if i < |nodes| {
      var text := TrimMultiLineString(Some(nodes[i].value), lineEnding);
      var st' := st.(summary := st.summary + text);
      SummaryTextStep(nodes, i, st, lineEnding);
      SummaryGathersText(nodes, i + 1, st', lineEnding);
      AppendAssociates(st.summary, text, GatheredText(nodes, i + 1, lineEnding));
    }
  }

  /** With lower-cased names, an element named "summary" in any case opens the summary. */
  lemma SummaryElementStep(nodes: seq<Node>, st: State, lineEnding: string)
    requires nodes != [] && nodes[0].Element? && ToLower(nodes[0].name) == "summary"
    ensures Run(nodes, 0, st, LowerCase, lineEnding)
      == Run(nodes, 1, st.(elementName := Some("summary"), current := SummaryText), LowerCase, lineEnding)
  {
    assert LabelOf("summary") == Summary;
    assert Step(nodes, 0, st, LowerCase, lineEnding) == (st.(elementName := Some("summary"), current := SummaryText), 1);
  }

  /** With lower-cased names, an element named "summary" in any case opens the summary, and its text lands there. */
  lemma IntendedSummaryGathered(name: string, text: seq<Node>, st: State, lineEnding: string)
    requires ToLower(name) == "summary"
    requires forall k :: 0 <= k < |text| ==> text[k].Text?
    ensures var nodes := [Element(name, map[], |text|)] + text;
      Run(nodes, 0, st, LowerCase, lineEnding).summary == st.summary + GatheredText(nodes, 1, lineEnding)
  {
    var nodes := [Element(name, map[], |text|)] + text;
    SummaryElementStep(nodes, st, lineEnding);
    assert forall k :: 1 <= k < |nodes| ==> nodes[k] == text[k - 1];
    SummaryGathersText(nodes, 1, st.(elementName := Some("summary"), current := SummaryText), lineEnding);
  }

  // ----- parameter lookup -----

  /** `Array.Find(items, item => item.Name == name)?.Documentation ?? ""` on a non-null array, from item `i` on. */
  function FindDocumentation(items: seq<Item>, name: string, i: nat): (r: string)
    ensures (forall k :: i <= k < |items| ==> items[k].name != name) ==> r == ""
    ensures forall k :: i <= k < |items| && items[k].name == name && (forall j :: i <= j < k ==> items[j].name != name) ==>
      r == items[k].documentation
    decreases |items| - i
  {
    if i >= |items| then ""
    else if items[i].name == name then items[i].documentation
    else FindDocumentation(items, name, i + 1)
  }

  /** `GetParameterText(name)`: `Array.Find` throws `ArgumentNullException` on the null array of `Empty`. */
  function GetParameterText(comment: DocumentationComment, name: string): (r: Result<string>)
    ensures comment.paramElements.None? <==> r == Throws(ArgumentNullException)
    ensures comment.paramElements.Some? ==> r == Ok(FindDocumentation(comment.paramElements.value, name, 0))
  {
    if comment.paramElements.None? then Throws(ArgumentNullException)
    else Ok(FindDocumentation(comment.paramElements.value, name, 0))
  }

  /** `GetTypeParameterText(name)`, the same lookup over the type parameters. */
  function GetTypeParameterText(comment: DocumentationComment, name: string): (r: Result<string>)
    ensures comment.typeParamElements.None? <==> r == Throws(ArgumentNullException)
    ensures comment.typeParamElements.Some? ==> r == Ok(FindDocumentation(comment.typeParamElements.value, name, 0))
  {
    if comment.typeParamElements.None? then Throws(ArgumentNullException)
    else Ok(FindDocumentation(comment.typeParamElements.value, name, 0))
  }

  /** The comment `From` returns for an empty string cannot be asked for a parameter. */
  lemma EmptyCommentParameterThrows(name: string)
    ensures GetParameterText(Empty, name) == Throws(ArgumentNullException)
    ensures GetTypeParameterText(Empty, name) == Throws(ArgumentNullException)
  {
  }

  /** `GetParameterText` as evidently intended: a null array holds no parameters. */
  function IntendedGetParameterText(comment: DocumentationComment, name: string): (r: string)
    ensures comment.paramElements.None? ==> r == ""
    ensures comment.paramElements.Some? ==> Ok(r) == GetParameterText(comment, name)
  {
    FindDocumentation(comment.paramElements.GetOr([]), name, 0)
  }
}
