// `SemanticHighlightSpan`: a classified span of a document, ordered by its positions, with the
// comparison operators defined for possibly-null operands.
module SemanticHighlightSpan {
  import opened Wrappers
  import opened Text

  /**
   * A span. `classification` is the `SemanticHighlightClassification` enum value and
   * `modifiers` the optional modifier list; neither takes part in ordering or equality.
   */
  datatype Span = Span(startLine: int, startColumn: int, endLine: int, endColumn: int,
                       classification: int, modifiers: Option<seq<int>>)

  /** The four positions in their order of significance. */
  function Key(x: Span): seq<int> {
    [x.startLine, x.startColumn, x.endLine, x.endColumn]
  }

  /** The reference order: lexicographic on equally long sequences. */
  predicate LexLess(a: seq<int>, b: seq<int>)
    requires |a| == |b|
  {
    |a| > 0 && (a[0] < b[0] || (a[0] == b[0] && LexLess(a[1..], b[1..])))
  }

  /**
   * `CompareTo(other)`: a chain of lifted comparisons `other?.P < P`, `other?.P > P`, each of
   * which is false when `other` is null.
   */
  function CompareTo(x: Span, other: Option<Span>): (r: int)
    ensures -1 <= r <= 1
    ensures other.None? ==> r == 0
  {
    if other.Some? && other.value.startLine < x.startLine then 1
    else if other.Some? && other.value.startLine > x.startLine then -1
    else if other.Some? && other.value.startColumn < x.startColumn then 1
    else if other.Some? && other.value.startColumn > x.startColumn then -1
    else if other.Some? && other.value.endLine < x.endLine then 1
    else if other.Some? && other.value.endLine > x.endLine then -1
    else if other.Some? && other.value.endColumn < x.endColumn then 1
    else if other.Some? && other.value.endColumn > x.endColumn then -1
    else 0
  }

  /** `Equals(object)`: another span at the same four positions. */
  predicate Equals(x: Span, obj: Option<Span>)
    ensures Equals(x, obj) <==> obj.Some? && Key(obj.value) == Key(x)
    ensures Equals(x, obj) <==> obj.Some? && CompareTo(x, obj) == 0
  {
    obj.Some?
    && obj.value.startLine == x.startLine
    && obj.value.startColumn == x.startColumn
    && obj.value.endLine == x.endLine
    && obj.value.endColumn == x.endColumn
  }

  /** `GetHashCode()`, with C#'s unchecked 32-bit arithmetic. */
  function HashCode(x: Span): (r: int)
    ensures IsInt32(r)
  {
    WrapInt32(13 * x.startLine + 17 * x.startColumn + 23 * x.endLine + 31 * x.endColumn)
  }

  /** The lexicographic order on four positions, written out. */
  lemma {:induction false} LexLessOfFour(a: seq<int>, b: seq<int>)
    requires |a| == |b| == 4
    ensures LexLess(a, b) <==>
      (a[0] < b[0] || (a[0] == b[0] && (a[1] < b[1] || (a[1] == b[1] && (a[2] < b[2] || (a[2] == b[2] && a[3] < b[3]))))))
  {
    var a1, b1 := a[1..], b[1..];
    var a2, b2 := a1[1..], b1[1..];
    var a3, b3 := a2[1..], b2[1..];
    assert !LexLess(a3[1..], b3[1..]);
    assert LexLess(a3, b3) <==> a[3] < b[3];
    assert LexLess(a2, b2) <==> a[2] < b[2] || (a[2] == b[2] && LexLess(a3, b3));
    assert LexLess(a1, b1) <==> a[1] < b[1] || (a[1] == b[1] && LexLess(a2, b2));
  }

  /** For a non-null span, `CompareTo` is the lexicographic order of the positions. */
  lemma CompareToIsLexicographic(x: Span, y: Span)
    ensures CompareTo(x, Some(y)) == -1 <==> LexLess(Key(x), Key(y))
    ensures CompareTo(x, Some(y)) == 1 <==> LexLess(Key(y), Key(x))
    ensures CompareTo(x, Some(y)) == 0 <==> Key(x) == Key(y)
  {
    LexLessOfFour(Key(x), Key(y));
    LexLessOfFour(Key(y), Key(x));
  }

  /** `Equals` looks at the positions only, and agrees with `CompareTo` returning 0. */
  lemma EqualsIffSamePositions(x: Span, y: Span)
    ensures Equals(x, Some(y)) <==> Key(x) == Key(y)
    ensures Equals(x, Some(y)) <==> CompareTo(x, Some(y)) == 0
    ensures !Equals(x, None)
  {
    CompareToIsLexicographic(x, y);
  }

  lemma CompareToAntisymmetric(x: Span, y: Span)
    ensures CompareTo(x, Some(y)) == -CompareTo(y, Some(x))
  {
  }

  lemma {:induction false} LexLessTransitive(a: seq<int>, b: seq<int>, c: seq<int>)
    requires |a| == |b| == |c|
    requires LexLess(a, b) && LexLess(b, c)
    ensures LexLess(a, c)
  {
    if a[0] == b[0] && b[0] == c[0] {
      LexLessTransitive(a[1..], b[1..], c[1..]);
    }
  }

  lemma CompareToTransitive(x: Span, y: Span, z: Span)
    requires CompareTo(x, Some(y)) <= 0 && CompareTo(y, Some(z)) <= 0
    ensures CompareTo(x, Some(z)) <= 0
    ensures CompareTo(x, Some(y)) < 0 || CompareTo(y, Some(z)) < 0 ==> CompareTo(x, Some(z)) < 0
  {
    CompareToIsLexicographic(x, y);
    CompareToIsLexicographic(y, z);
    CompareToIsLexicographic(x, z);
    if LexLess(Key(x), Key(y)) && LexLess(Key(y), Key(z)) {
      LexLessTransitive(Key(x), Key(y), Key(z));
    }
  }

  /** Equal spans hash alike, whatever their classification and modifiers. */
  lemma HashConsistentWithEquals(x: Span, y: Span)
    requires Equals(x, Some(y))
    ensures HashCode(x) == HashCode(y)
  {
  }

  // ----- the operators, with `None` for a null operand -----

  /** `CompareToIsLexicographic` for two operands that may be null. */
  lemma OperandsCompare(left: Option<Span>, right: Option<Span>)
    ensures left.Some? && right.Some? ==>
      (CompareTo(left.value, right) == -1 <==> LexLess(Key(left.value), Key(right.value)))
      && (CompareTo(left.value, right) == 1 <==> LexLess(Key(right.value), Key(left.value)))
      && (CompareTo(left.value, right) == 0 <==> Key(left.value) == Key(right.value))
  {
    if left.Some? && right.Some? {
      CompareToIsLexicographic(left.value, right.value);
    }
  }

  /** `==`: true for two nulls, false against a single null, otherwise the positions agree. */
  predicate Eq(left: Option<Span>, right: Option<Span>)
    ensures Eq(left, right) <==> (left.None? && right.None?) || (left.Some? && right.Some? && Key(left.value) == Key(right.value))
  {
    if left.None? then right.None? else Equals(left.value, right)
  }

  /** `!=`: exactly when `==` is false. */
  predicate Neq(left: Option<Span>, right: Option<Span>)
    ensures Neq(left, right) <==> (left.None? != right.None?) || (left.Some? && right.Some? && Key(left.value) != Key(right.value))
  {
    !Eq(left, right)
  }

  /** `<`: the positions below, null below a span, and a span never below null. */
  predicate Less(left: Option<Span>, right: Option<Span>)
    ensures left.Some? && right.Some? ==> (Less(left, right) <==> LexLess(Key(left.value), Key(right.value)))
    ensures left.None? ==> (Less(left, right) <==> right.Some?)
    ensures left.Some? && right.None? ==> !Less(left, right)
  {
    OperandsCompare(left, right);
    if left.None? then right.Some? else CompareTo(left.value, right) < 0
  }

  /** `<=`: the positions below or equal, and true whenever either operand is null. */
  predicate LessEq(left: Option<Span>, right: Option<Span>)
    ensures left.Some? && right.Some? ==>
      (LessEq(left, right) <==> LexLess(Key(left.value), Key(right.value)) || Key(left.value) == Key(right.value))
    ensures left.None? || right.None? ==> LessEq(left, right)
  {
    OperandsCompare(left, right);
    left.None? || CompareTo(left.value, right) <= 0
  }

  /** `>`: the positions above, and false whenever either operand is null. */
  predicate Greater(left: Option<Span>, right: Option<Span>)
    ensures left.Some? && right.Some? ==> (Greater(left, right) <==> LexLess(Key(right.value), Key(left.value)))
    ensures left.None? || right.None? ==> !Greater(left, right)
  {
    OperandsCompare(left, right);
    left.Some? && CompareTo(left.value, right) > 0
  }

  /** `>=`: the positions above or equal; null is at least only null, a span at least null. */
  predicate GreaterEq(left: Option<Span>, right: Option<Span>)
    ensures left.Some? && right.Some? ==>
      (GreaterEq(left, right) <==> LexLess(Key(right.value), Key(left.value)) || Key(left.value) == Key(right.value))
    ensures left.None? ==> (GreaterEq(left, right) <==> right.None?)
    ensures left.Some? && right.None? ==> GreaterEq(left, right)
  {
    OperandsCompare(left, right);
    if left.None? then right.None? else CompareTo(left.value, right) >= 0
  }

  /** Between two non-null spans the six operators are the ones of one total order. */
  lemma OperatorsOnSpans(x: Span, y: Span)
    ensures Eq(Some(x), Some(y)) <==> Key(x) == Key(y)
    ensures Neq(Some(x), Some(y)) <==> Key(x) != Key(y)
    ensures Less(Some(x), Some(y)) <==> LexLess(Key(x), Key(y))
    ensures Greater(Some(x), Some(y)) <==> Less(Some(y), Some(x))
    ensures LessEq(Some(x), Some(y)) <==> Less(Some(x), Some(y)) || Eq(Some(x), Some(y))
    ensures GreaterEq(Some(x), Some(y)) <==> LessEq(Some(y), Some(x))
  {
    CompareToIsLexicographic(x, y);
    CompareToIsLexicographic(y, x);
  }

  /** A null left operand: `==` and `>=` hold only against null, `<` only against a span, `<=` always, `>` never. */
  lemma NullLeftOperand(y: Option<Span>)
    ensures Eq(None, y) <==> y.None?
    ensures Less(None, y) <==> y.Some?
    ensures LessEq(None, y)
    ensures !Greater(None, y)
    ensures GreaterEq(None, y) <==> y.None?
  {
  }

  /**
   * A null right operand: `CompareTo(null)` is 0, so a span is neither below nor above null,
   * yet both at most and at least null, while not equal to it.
   */
  lemma NullRightOperand(x: Span)
    ensures CompareTo(x, None) == 0
    ensures !Less(Some(x), None) && !Greater(Some(x), None)
    ensures LessEq(Some(x), None) && GreaterEq(Some(x), None)
    ensures !Eq(Some(x), None)
  {
  }

  /** The operators are not converses of each other when null is involved: `null < x` but not `x > null`. */
  lemma NullOrderAsymmetric(x: Span)
    ensures Less(None, Some(x)) && !Greater(Some(x), None)
    ensures LessEq(Some(x), None) && !GreaterEq(None, Some(x))
  {
  }

  // ----- the ordering as evidently intended: null below every span -----

  /** `CompareTo` with the .NET convention that every instance follows null. */
  function IntendedCompareTo(x: Span, other: Option<Span>): (r: int)
    ensures -1 <= r <= 1
    ensures other.None? ==> r == 1
    ensures other.Some? ==> r == CompareTo(x, other)
  {
    if other.None? then 1 else CompareTo(x, other)
  }

  predicate IntendedLess(left: Option<Span>, right: Option<Span>) {
    if left.None? then right.Some? else IntendedCompareTo(left.value, right) < 0
  }

  predicate IntendedLessEq(left: Option<Span>, right: Option<Span>) {
    left.None? || IntendedCompareTo(left.value, right) <= 0
  }

  predicate IntendedGreater(left: Option<Span>, right: Option<Span>) {
    left.Some? && IntendedCompareTo(left.value, right) > 0
  }

  predicate IntendedGreaterEq(left: Option<Span>, right: Option<Span>) {
    if left.None? then right.None? else IntendedCompareTo(left.value, right) >= 0
  }

  /** With null first, the operators are converses and `<=` is `<` or `==`, for every pair of operands. */
  lemma IntendedOperatorsConsistent(left: Option<Span>, right: Option<Span>)
    ensures IntendedGreater(left, right) <==> IntendedLess(right, left)
    ensures IntendedGreaterEq(left, right) <==> IntendedLessEq(right, left)
    ensures IntendedLessEq(left, right) <==> IntendedLess(left, right) || Eq(left, right)
    ensures IntendedLess(left, right) || Eq(left, right) || IntendedGreater(left, right)
  {
    if left.Some? && right.Some? {
      OperatorsOnSpans(left.value, right.value);
    }
  }
}
