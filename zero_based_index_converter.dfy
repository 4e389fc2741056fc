// The JSON converter for line and column indices: OmniSharp works with zero-based indices and,
// unless the client asked for zero-based ones, adds one on the way out.
module ZeroBasedIndexConverter {
  import opened Wrappers
  import opened Text

  /** The CLR types the converter is asked about or meets at run time. */
  datatype ClrType = Int | NullableInt | IEnumerableOfInt | IntArray | ListOfInt | OtherType

  /** `CanConvert`: exactly `int`, `int?`, `IEnumerable<int>` and `int[]`, all index-bearing types. */
  function CanConvert(objectType: ClrType): (r: bool)
    ensures r <==> objectType in {Int, NullableInt, IEnumerableOfInt, IntArray}
  {
    objectType == Int || objectType == NullableInt || objectType == IEnumerableOfInt || objectType == IntArray
  }

  /**
   * A value handed to `WriteJson`. A non-null `int?` arrives boxed as an `int`; any `IEnumerable<int>`
   * that is not an array (a `List<int>`, a LINQ query) is an `IntEnumerable`.
   */
  datatype Boxed = NullValue | BoxedInt(n: int) | IntArrayObject(a: array<int>) | IntEnumerable(items: seq<int>) | OtherObject

  /** `value.GetType()`. */
  function RuntimeType(value: Boxed): ClrType
    requires !value.NullValue?
  {
    match value
    case BoxedInt(_) => Int
    case IntArrayObject(_) => IntArray
    case IntEnumerable(_) => ListOfInt
    case OtherObject => OtherType
  }

  /** `GetType()` never yields `int?` or `IEnumerable<int>`, so those two branches of `WriteJson` are dead. */
  lemma RuntimeTypeIsConcrete(value: Boxed)
    requires !value.NullValue?
    ensures RuntimeType(value) != NullableInt && RuntimeType(value) != IEnumerableOfInt
  {
  }

  /** The JSON a value is written as, and the token `ReadJson` reads. */
  datatype Json = JNull | JNumber(n: int) | JNumbers(items: seq<int>) | JOther

  /** C#'s unchecked `x + 1` and `x - 1` on `int`. */
  function Increment(x: int): int { WrapInt32(x + 1) }
  function Decrement(x: int): int { WrapInt32(x - 1) }

  function Incremented(s: seq<int>): (r: seq<int>)
    ensures |r| == |s| && forall i :: 0 <= i < |s| ==> r[i] == Increment(s[i])
  {
    seq(|s|, i requires 0 <= i < |s| => Increment(s[i]))
  }

  function Decremented(s: seq<int>): (r: seq<int>)
    ensures |r| == |s| && forall i :: 0 <= i < |s| ==> r[i] == Decrement(s[i])
  {
    seq(|s|, i requires 0 <= i < |s| => Decrement(s[i]))
  }

  /** For 32-bit values, one step up and one step down cancel. */
  lemma DecrementIncrement(x: int)
    requires IsInt32(x)
    ensures Decrement(Increment(x)) == x
  {
    if x == Int32Max {
      assert Increment(x) == Int32Min;
    } else {
      assert Increment(x) == x + 1;
    }
  }

  lemma DecrementedIncremented(s: seq<int>)
    requires forall i :: 0 <= i < |s| ==> IsInt32(s[i])
    ensures Decremented(Incremented(s)) == s
  {
    forall i | 0 <= i < |s|
      ensures Decremented(Incremented(s))[i] == s[i]
    {
      DecrementIncrement(s[i]);
    }
  }

  /**
   * The JSON `WriteJson` emits, given the contents an `int[]` had before the call: unchanged in
   * zero-based mode; in one-based mode a boxed `int` and each element of an `int[]` plus one,
   * every other value unchanged.
   */
  function Written(value: Boxed, contents: seq<int>, useZeroBasedIndices: bool): (r: Json)
    ensures value.NullValue? ==> r == JNull
    ensures useZeroBasedIndices && value.BoxedInt? ==> r == JNumber(value.n)
    ensures !useZeroBasedIndices && value.BoxedInt? ==> r == JNumber(Increment(value.n))
    ensures value.IntArrayObject? ==> r == JNumbers(if useZeroBasedIndices then contents else Incremented(contents))
    ensures value.IntEnumerable? ==> r == JNumbers(value.items)
  {
    match value
    case NullValue => JNull
    case BoxedInt(n) => JNumber(if useZeroBasedIndices then n else Increment(n))
    case IntArrayObject(_) => JNumbers(if useZeroBasedIndices then contents else Incremented(contents))
    case IntEnumerable(items) => JNumbers(items)
    case OtherObject => JOther
  }

  /**
   * `WriteJson`: in one-based mode an `int[]` is incremented in place, so the caller's array
   * itself changes, and what is written is its new contents.
   */
  method WriteJson(value: Boxed, useZeroBasedIndices: bool) returns (written: Json)
    modifies if value.IntArrayObject? then {value.a} else {}
    ensures value.IntArrayObject? ==>
      value.a[..] == (if useZeroBasedIndices then old(value.a[..]) else Incremented(old(value.a[..])))
    ensures written == Written(value, if value.IntArrayObject? then old(value.a[..]) else [], useZeroBasedIndices)
  {
    if value.NullValue? {
      return JNull;
    }
    if useZeroBasedIndices {
      match value {
        case BoxedInt(n) => written := JNumber(n);
        case IntArrayObject(a) => written := JNumbers(a[..]);
        case IntEnumerable(items) => written := JNumbers(items);
        case OtherObject => written := JOther;
      }
      return;
    }
    match value
    case IntArrayObject(results) =>
      for i := 0 to results.Length
        invariant forall k :: 0 <= k < i ==> results[k] == Increment(old(results[k]))
        invariant forall k :: i <= k < results.Length ==> results[k] == old(results[k])
      {
        results[i] := WrapInt32(results[i] + 1);
      }
      assert results[..] == Incremented(old(results[..]));
      written := JNumbers(results[..]);
    case BoxedInt(intValue) =>
      written := JNumber(Increment(intValue));
    case IntEnumerable(items) =>
      written := JNumbers(items);
    case OtherObject =>
      written := JOther;
  }

  /** What `ReadJson` returns: a fresh `object` for a null token, or the number(s) it read. */
  datatype ReadValue = FreshObject | ReadInt(n: int) | ReadInts(items: seq<int>)

  /**
   * `ReadJson` as written: the mode is never consulted. A null token gives a fresh object; for
   * `IEnumerable<int>` each element is decremented; for every other type, `int[]` included, the
   * token is read as an `int?` and returned unchanged, and a token of the wrong shape throws.
   */
  function ReadJson(token: Json, objectType: ClrType): (r: Result<ReadValue>)
    ensures token.JNull? ==> r == Ok(FreshObject)
    ensures token.JNumbers? && objectType == IEnumerableOfInt ==> r == Ok(ReadInts(Decremented(token.items)))
    ensures token.JNumber? && objectType != IEnumerableOfInt ==> r == Ok(ReadInt(token.n))
    ensures token.JNumbers? && objectType == IntArray ==> r.Throws?
  {
    match token
    case JNull => Ok(FreshObject)
    case JNumbers(items) =>
      if objectType == IEnumerableOfInt then Ok(ReadInts(Decremented(items))) else Throws(JsonSerializationException)
    case JNumber(n) =>
      if objectType == IEnumerableOfInt then Throws(JsonSerializationException) else Ok(ReadInt(n))
    case JOther => Throws(JsonSerializationException)
  }

  /** In one-based mode a written index is read back one too high. */
  lemma OneBasedIndexReadBackShifted(n: int)
    requires IsInt32(n) && n != Int32Max
    ensures Written(BoxedInt(n), [], false) == JNumber(n + 1)
    ensures ReadJson(Written(BoxedInt(n), [], false), Int) == Ok(ReadInt(n + 1))
  {
  }

  /** In zero-based mode a written index list is read back one too low. */
  lemma ZeroBasedListReadBackShifted(items: seq<int>)
    requires |items| > 0 && IsInt32(items[0]) && items[0] != Int32Min
    ensures Written(IntEnumerable(items), [], true) == JNumbers(items)
    ensures ReadJson(JNumbers(items), IEnumerableOfInt).value.items[0] == items[0] - 1
  {
  }

  // ----- the converter as evidently intended -----

  /** The values an index converter carries, without the run-time boxing. */
  datatype Indices = One(n: int) | Several(items: seq<int>)

  predicate IsInt32Indices(v: Indices) {
    match v
    case One(n) => IsInt32(n)
    case Several(items) => forall i :: 0 <= i < |items| ==> IsInt32(items[i])
  }

  /** Writing adds one to every index in one-based mode, whatever collection holds them. */
  function IntendedWrite(v: Indices, useZeroBasedIndices: bool): Json {
    match v
    case One(n) => JNumber(if useZeroBasedIndices then n else Increment(n))
    case Several(items) => JNumbers(if useZeroBasedIndices then items else Incremented(items))
  }

  /** Reading takes one off every index in one-based mode, and leaves it alone in zero-based mode. */
  function IntendedRead(token: Json, useZeroBasedIndices: bool): Result<Option<Indices>> {
    match token
    case JNull => Ok(None)
    case JNumber(n) => Ok(Some(One(if useZeroBasedIndices then n else Decrement(n))))
    case JNumbers(items) => Ok(Some(Several(if useZeroBasedIndices then items else Decremented(items))))
    case JOther => Throws(JsonSerializationException)
  }

  /** Every 32-bit index, and every list of them, survives a write and a read in either mode. */
  lemma IntendedRoundTrip(v: Indices, useZeroBasedIndices: bool)
    requires IsInt32Indices(v)
    ensures IntendedRead(IntendedWrite(v, useZeroBasedIndices), useZeroBasedIndices) == Ok(Some(v))
  {
    if !useZeroBasedIndices {
      match v
      case One(n) => DecrementIncrement(n);
      case Several(items) => DecrementedIncremented(items);
    }
  }
}
