// `LinePositionSpanTextChange`: a replacement text for the span between two line/column
// positions, with value equality, a hash consistent with it and a one-line debug rendering.
module TextChange {
  import opened Wrappers
  import opened Text

  datatype LinePositionSpanTextChange = LinePositionSpanTextChange(
    newText: Option<string>, startLine: int, startColumn: int, endLine: int, endColumn: int)

  /**
   * `Equals(object)`: `obj` is `None` for null or for an object of another type; otherwise the
   * texts compare ordinally and the four positions numerically.
   */
  predicate Equals(c: LinePositionSpanTextChange, obj: Option<LinePositionSpanTextChange>)
    ensures Equals(c, obj) <==> obj == Some(c)
  {
    obj.Some?
    && c.newText == obj.value.newText
    && c.startLine == obj.value.startLine
    && c.startColumn == obj.value.startColumn
    && c.endLine == obj.value.endLine
    && c.endColumn == obj.value.endColumn
  }

  /** `Equals` is value equality on all five properties, hence an equivalence. */
  lemma EqualsIsValueEquality(a: LinePositionSpanTextChange, b: LinePositionSpanTextChange)
    ensures Equals(a, Some(b)) <==> a == b
    ensures Equals(a, Some(a))
    ensures Equals(a, Some(b)) ==> Equals(b, Some(a))
    ensures !Equals(a, None)
  {
  }

  lemma EqualsTransitive(a: LinePositionSpanTextChange, b: LinePositionSpanTextChange, c: LinePositionSpanTextChange)
    requires Equals(a, Some(b)) && Equals(b, Some(c))
    ensures Equals(a, Some(c))
  {
  }

  /**
   * `GetHashCode()`. `??` binds looser than `*`, so the products of the positions multiply the
   * 0 of the null case only: the hash is the text's ordinal hash, or 0 for a null text.
   * `stringHash` stands for `string.GetHashCode(StringComparison.Ordinal)`.
   */
  function HashCode(c: LinePositionSpanTextChange, stringHash: string -> int): (r: int)
    ensures c.newText.None? ==> r == 0
  {
    match c.newText
    case Some(text) => stringHash(text)
    case None => 0 * (23 + c.startLine) * (29 + c.startColumn) * (31 + c.endLine) * (37 + c.endColumn)
  }

  /** Equal changes hash alike, and so do changes that differ only in their positions. */
  lemma HashConsistentWithEquals(a: LinePositionSpanTextChange, b: LinePositionSpanTextChange, stringHash: string -> int)
    requires Equals(a, Some(b)) || a.newText == b.newText
    ensures HashCode(a, stringHash) == HashCode(b, stringHash)
  {
  }

  // ----- the debug rendering -----

  /** `s.Replace(c, replacement)` for a one-character search string, ordinally. */
  function ReplaceChar(s: string, c: char, replacement: string): (r: string)
    ensures c !in replacement ==> c !in r
  {
    if s == [] then ""
    else (if s[0] == c then replacement else [s[0]]) + ReplaceChar(s[1..], c, replacement)
  }

  lemma {:induction false} ReplaceCharAppend(a: string, b: string, c: char, replacement: string)
    ensures ReplaceChar(a + b, c, replacement) == ReplaceChar(a, c, replacement) + ReplaceChar(b, c, replacement)
    decreases |a|
  {
    if a != [] {
      assert (a + b)[0] == a[0] && (a + b)[1..] == a[1..] + b;
      ReplaceCharAppend(a[1..], b, c, replacement);
    } else {
      assert a + b == b;
    }
  }

  /** A carriage return, line feed or tab shown as its two-character escape. */
  function EscapeChar(ch: char): string {
    if ch == '\r' then "\\r" else if ch == '\n' then "\\n" else if ch == '\t' then "\\t" else [ch]
  }

  /** Each control character shown as its escape, every other character as itself. */
  function Escape(s: string): (r: string)
    ensures '\r' !in r && '\n' !in r && '\t' !in r
    ensures |r| >= |s|
  {
    if s == [] then "" else EscapeChar(s[0]) + Escape(s[1..])
  }

  /** The displayed text: the three `Replace` calls in a row, or "null". */
  function DisplayText(newText: Option<string>): string {
    match newText
    case None => "null"
    case Some(text) => ReplaceChar(ReplaceChar(ReplaceChar(text, '\r', "\\r"), '\n', "\\n"), '\t', "\\t")
  }

  lemma ReplaceCharSingle(ch: char, c: char, replacement: string)
    ensures ReplaceChar([ch], c, replacement) == if ch == c then replacement else [ch]
  {
    assert [ch][1..] == [];
  }

  lemma {:induction false} ReplaceCharUnchanged(s: string, c: char, replacement: string)
    requires c !in s
    ensures ReplaceChar(s, c, replacement) == s
  {
    if s != [] {
      assert s[0] != c && c !in s[1..];
      ReplaceCharUnchanged(s[1..], c, replacement);
    }
  }

  /** One character through the three replacements is its escape. */
  lemma DisplayCharEscapes(ch: char)
    ensures ReplaceChar(ReplaceChar(ReplaceChar([ch], '\r', "\\r"), '\n', "\\n"), '\t', "\\t") == EscapeChar(ch)
  {
    ReplaceCharSingle(ch, '\r', "\\r");
    var r := ReplaceChar([ch], '\r', "\\r");
    assert '\n' !in "\\r" && '\t' !in "\\r" && '\t' !in "\\n";
    if ch == '\r' {
      ReplaceCharUnchanged(r, '\n', "\\n");
      ReplaceCharUnchanged(r, '\t', "\\t");
    } else {
      ReplaceCharSingle(ch, '\n', "\\n");
      var n := ReplaceChar(r, '\n', "\\n");
      if ch == '\n' {
        ReplaceCharUnchanged(n, '\t', "\\t");
      } else {
        ReplaceCharSingle(ch, '\t', "\\t");
      }
    }
  }

  /** The three replacements in a row escape each character on its own, since no escape holds a control character. */
  lemma {:induction false} DisplayTextEscapes(text: string)
    ensures DisplayText(Some(text)) == Escape(text)
    decreases |text|
  {
    if text != [] {
      var head, rest := [text[0]], text[1..];
      assert text == head + rest;
      ReplaceCharAppend(head, rest, '\r', "\\r");
      var r1, r2 := ReplaceChar(head, '\r', "\\r"), ReplaceChar(rest, '\r', "\\r");
      ReplaceCharAppend(r1, r2, '\n', "\\n");
      var n1, n2 := ReplaceChar(r1, '\n', "\\n"), ReplaceChar(r2, '\n', "\\n");
      ReplaceCharAppend(n1, n2, '\t', "\\t");
      DisplayTextEscapes(rest);
      DisplayCharEscapes(text[0]);
    } else {
      assert DisplayText(Some(text)) == "";
    }
  }

  const TypeLabel := "LinePositionSpanTextChange { StartLine="
  const StartColumnLabel := ", StartColumn="
  const EndLineLabel := ", EndLine="
  const EndColumnLabel := ", EndColumn="
  const NewTextLabel := ", NewText="
  const Closing := " }"

  const NullTextEnding := NewTextLabel + "null" + Closing

  /** `ToString()`: the four positions, then the displayed text; a single line whatever the text holds. */
  function ToString(c: LinePositionSpanTextChange): (r: string)
    ensures SingleLine(r)
    ensures c.newText.None? ==> |NullTextEnding| <= |r| && r[|r| - |NullTextEnding|..] == NullTextEnding
  {
    TypeLabelSingleLine();
    LabelsSingleLine();
    IntToStringSingleLine(c.startLine);
    IntToStringSingleLine(c.startColumn);
    IntToStringSingleLine(c.endLine);
    IntToStringSingleLine(c.endColumn);
    DisplayTextSingleLine(c.newText);
    TypeLabel + IntToString(c.startLine)
    + StartColumnLabel + IntToString(c.startColumn)
    + EndLineLabel + IntToString(c.endLine)
    + EndColumnLabel + IntToString(c.endColumn)
    + NewTextLabel + DisplayText(c.newText) + Closing
  }

  /** Neither a line feed nor a carriage return. */
  predicate SingleLine(s: string) {
    '\n' !in s && '\r' !in s
  }

  lemma TypeLabelSingleLine()
    ensures SingleLine(TypeLabel)
  {
  }

  lemma LabelsSingleLine()
    ensures SingleLine(StartColumnLabel) && SingleLine(EndLineLabel)
    ensures SingleLine(EndColumnLabel) && SingleLine(NewTextLabel) && SingleLine(Closing)
  {
  }

  lemma IntToStringSingleLine(n: int)
    ensures SingleLine(IntToString(n))
  {
    assert AllDigits(NatToString(if n < 0 then -n else n));
  }

  /** The displayed text, escaped or "null", holds no line break. */
  lemma DisplayTextSingleLine(newText: Option<string>)
    ensures SingleLine(DisplayText(newText))
  {
    if newText.Some? {
      DisplayTextEscapes(newText.value);
    }
  }
}
