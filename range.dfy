// The V2 `Range` record: a start and an end point, a containment test and a validity test.
module Ranges {
  import opened Wrappers

  /** A zero-based line and column. */
  datatype Point = Point(line: int, column: int)

  /** `Range(Start, End)`; either point may be null. */
  datatype Range = Range(start: Option<Point>, end: Option<Point>)

  /** The reference order on points: by line, then by column. */
  predicate AtOrBefore(p: Point, q: Point) {
    p.line < q.line || (p.line == q.line && p.column <= q.column)
  }

  /**
   * `Contains(line, column)`, the early-return tests in order. `Start.Line` is read first and
   * `End.Line` only when the start line does not already exclude `line`; reading a property of
   * a null point throws `NullReferenceException`.
   */
  function Contains(r: Range, line: int, column: int): (result: Result<bool>)
    ensures r.start.None? ==> result == Throws(NullReferenceException)
    ensures r.start.Some? && r.start.value.line > line ==> result == Ok(false)
  {
    if r.start.None? then Throws(NullReferenceException)
    else if r.start.value.line > line then Ok(false)
    else if r.end.None? then Throws(NullReferenceException)
    else if r.end.value.line < line then Ok(false)
    else if r.start.value.line == line && r.start.value.column > column then Ok(false)
    else if r.end.value.line == line && r.end.value.column < column then Ok(false)
    else Ok(true)
  }

  /** Containment is the inclusive interval between the two points, in the lexicographic order. */
  lemma ContainsIsInclusiveInterval(start: Point, end: Point, line: int, column: int)
    ensures Contains(Range(Some(start), Some(end)), line, column) ==
      Ok(AtOrBefore(start, Point(line, column)) && AtOrBefore(Point(line, column), end))
  {
  }

  /** When the start is not after the end, both ends are contained. */
  lemma EndsContained(start: Point, end: Point)
    requires AtOrBefore(start, end)
    ensures Contains(Range(Some(start), Some(end)), start.line, start.column) == Ok(true)
    ensures Contains(Range(Some(start), Some(end)), end.line, end.column) == Ok(true)
  {
  }

  /** Nothing on a line before the start line or after the end line is contained. */
  lemma OutsideLinesNotContained(start: Point, end: Point, line: int, column: int)
    requires line < start.line || line > end.line
    ensures Contains(Range(Some(start), Some(end)), line, column) == Ok(false)
  {
  }

  /** With a null end, `Contains` throws unless the start line already excludes `line`. */
  lemma NullEndReadOnlyWhenNeeded(start: Point, line: int, column: int)
    ensures start.line > line ==> Contains(Range(Some(start), None), line, column) == Ok(false)
    ensures start.line <= line ==> Contains(Range(Some(start), None), line, column) == Throws(NullReferenceException)
  {
  }

  /** `IsValid()`: both points present with no negative coordinate; their order is not checked. */
  predicate IsValid(r: Range)
    ensures IsValid(r) ==> r.start.Some? && r.end.Some? && forall line, column :: Contains(r, line, column).Ok?
  {
    r.start.Some? && r.start.value.line > -1 && r.start.value.column > -1
    && r.end.Some? && r.end.value.line > -1 && r.end.value.column > -1
  }

  /** A valid range may have its start after its end, and then contains no point at all. */
  lemma ValidRangeMayBeEmpty()
    ensures IsValid(Range(Some(Point(1, 0)), Some(Point(0, 0))))
    ensures forall line, column :: Contains(Range(Some(Point(1, 0)), Some(Point(0, 0))), line, column) == Ok(false)
  {
  }

  /** A valid range never throws from `Contains`. */
  lemma ValidRangeContainsDefined(r: Range, line: int, column: int)
    requires IsValid(r)
    ensures Contains(r, line, column).Ok?
    ensures Contains(r, line, column).value <==>
      AtOrBefore(r.start.value, Point(line, column)) && AtOrBefore(Point(line, column), r.end.value)
  {
  }
}
