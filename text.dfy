// Character classes, case folding, searching, splitting, trimming and decimal
// formatting as the .NET base library performs them on `string`, and the
// order-preserving selections the modelled code makes from sequences.
module Text {

  predicate IsAsciiDigit(c: char) { '0' <= c <= '9' }
  predicate IsAsciiLetter(c: char) { 'A' <= c <= 'Z' || 'a' <= c <= 'z' }
  predicate IsAsciiAlphaNumeric(c: char) { IsAsciiDigit(c) || IsAsciiLetter(c) }

  /** `char.IsWhiteSpace`: the Unicode space separators, line and paragraph separators and U+0009..U+000D, U+0085. */
  predicate IsWhiteSpace(c: char) {
    var n := c as int;
    (0x09 <= n <= 0x0D) || n == 0x20 || n == 0x85 || n == 0xA0 || n == 0x1680
    || (0x2000 <= n <= 0x200A) || n == 0x2028 || n == 0x2029 || n == 0x202F || n == 0x205F
    || n == 0x3000
  }

  function ToUpperChar(c: char): char {
    if 'a' <= c <= 'z' then (c as int - 32) as char else c
  }

  function ToLowerChar(c: char): char {
    if 'A' <= c <= 'Z' then (c as int + 32) as char else c
  }

  /** `ToUpperInvariant`, on the ASCII letters. */
  function ToUpper(s: string): (r: string)
    ensures |r| == |s|
    ensures forall i :: 0 <= i < |s| ==> r[i] == ToUpperChar(s[i])
  {
    if s == [] then [] else [ToUpperChar(s[0])] + ToUpper(s[1..])
  }

  /** `ToLowerInvariant`, on the ASCII letters. */
  function ToLower(s: string): (r: string)
    ensures |r| == |s|
    ensures forall i :: 0 <= i < |s| ==> r[i] == ToLowerChar(s[i])
  {
    if s == [] then [] else [ToLowerChar(s[0])] + ToLower(s[1..])
  }

  /** `StringComparer.OrdinalIgnoreCase`: equal after folding both sides to upper case. */
  predicate EqualsIgnoreCase(a: string, b: string) {
    ToUpper(a) == ToUpper(b)
  }

  /** Some element equals `x` under `StringComparer.OrdinalIgnoreCase`. */
  predicate ContainsIgnoringCase(s: seq<string>, x: string) {
    exists y :: y in s && EqualsIgnoreCase(x, y)
  }

  /** No two elements equal ignoring case. */
  predicate DistinctIgnoringCase(s: seq<string>) {
    forall i, j :: 0 <= i < j < |s| ==> !EqualsIgnoreCase(s[i], s[j])
  }

  predicate StartsWith(s: string, prefix: string) {
    |prefix| <= |s| && s[..|prefix|] == prefix
  }

  predicate EndsWith(s: string, suffix: string) {
    |suffix| <= |s| && s[|s| - |suffix|..] == suffix
  }

  predicate StartsWithIgnoreCase(s: string, prefix: string) {
    |prefix| <= |s| && EqualsIgnoreCase(s[..|prefix|], prefix)
  }

  predicate EndsWithIgnoreCase(s: string, suffix: string) {
    |suffix| <= |s| && EqualsIgnoreCase(s[|s| - |suffix|..], suffix)
  }

  /** `string.IndexOf(char)`: the first index of `c`, or -1. */
  function IndexOf(s: string, c: char): (r: int)
    ensures -1 <= r < |s|
    ensures r == -1 <==> c !in s
    ensures 0 <= r ==> s[r] == c && c !in s[..r]
  {
    if s == [] then -1
    else if s[0] == c then 0
    else
      var k := IndexOf(s[1..], c);
      assert s[1..][..if k < 0 then 0 else k] == s[1..1 + (if k < 0 then 0 else k)];
      if k == -1 then -1 else k + 1
  }

  /** The first occurrence determines `IndexOf`. */
  lemma IndexOfIs(s: string, c: char, k: int)
    requires 0 <= k < |s| && s[k] == c && c !in s[..k]
    ensures IndexOf(s, c) == k
  {
    assert s[k] in s;
  }

  /** When `c` is absent from a prefix, `IndexOf` finds it no earlier than the prefix's end. */
  lemma IndexOfAtLeast(s: string, c: char, k: int)
    requires 0 <= k <= |s| && c !in s[..k]
    ensures IndexOf(s, c) == -1 || IndexOf(s, c) >= k
  {
  }

  /** `string.Split(sep)`: the pieces between the separators, empty ones included. */
  function Split(s: string, sep: char): (r: seq<string>)
    ensures |r| >= 1
    ensures forall i :: 0 <= i < |r| ==> sep !in r[i]
    decreases |s|
  {
    var k := IndexOf(s, sep);
    if k == -1 then [s] else [s[..k]] + Split(s[k + 1..], sep)
  }

  lemma {:induction false} IndexOfAppend(a: string, b: string, c: char)
    requires c !in a
    ensures IndexOf(a + b, c) == (if c in b then |a| + IndexOf(b, c) else -1)
    decreases |a|
  {
    if a == [] {
      assert a + b == b;
    } else {
      assert (a + b)[1..] == a[1..] + b;
      IndexOfAppend(a[1..], b, c);
    }
  }

  /** Cutting a string at one index and putting the character back. */
  lemma CutAt(s: string, k: int)
    requires 0 <= k < |s|
    ensures s == s[..k] + [s[k]] + s[k + 1..]
  {
  }

  /** The two halves of a concatenation around one separator. */
  lemma HalvesOf(x: string, sep: char, rest: string)
    ensures var s := x + [sep] + rest; |s| == |x| + 1 + |rest| && s[..|x|] == x && s[|x|] == sep && s[|x| + 1..] == rest
  {
  }

  lemma SplitWithoutSeparator(s: string, sep: char)
    requires sep !in s
    ensures Split(s, sep) == [s]
  {
  }

  lemma Regroup(x: string, sep: char, y: string, z: string)
    ensures x + [sep] + y + [sep] + z == x + [sep] + (y + [sep] + z)
  {
  }

  lemma SplitAtFirst(x: string, rest: string, sep: char)
    requires sep !in x
    ensures Split(x + [sep] + rest, sep) == [x] + Split(rest, sep)
  {
    var s := x + [sep] + rest;
    assert s == x + ([sep] + rest);
    IndexOfAppend(x, [sep] + rest, sep);
    HalvesOf(x, sep, rest);
  }

  /** Three separator-free pieces joined by the separator split back into those pieces. */
  lemma SplitThree(x: string, y: string, z: string, sep: char)
    requires sep !in x && sep !in y && sep !in z
    ensures Split(x + [sep] + y + [sep] + z, sep) == [x, y, z]
  {
    var tail := y + [sep] + z;
    SplitWithoutSeparator(z, sep);
    SplitAtFirst(y, z, sep);
    SplitAtFirst(x, tail, sep);
    Regroup(x, sep, y, z);
  }

  /** `string.Join(sep, parts)`. */
  function Join(sep: string, parts: seq<string>): string {
    if parts == [] then "" else if |parts| == 1 then parts[0] else parts[0] + sep + Join(sep, parts[1..])
  }

  lemma {:induction false} JoinSplit(s: string, sep: char)
    ensures Join([sep], Split(s, sep)) == s
    decreases |s|
  {
    var k := IndexOf(s, sep);
    if k != -1 {
      JoinSplit(s[k + 1..], sep);
      CutAt(s, k);
    }
  }

  function TrimStart(s: string): (r: string)
    ensures |r| <= |s| && s[|s| - |r|..] == r
    ensures r == [] || !IsWhiteSpace(r[0])
    ensures forall i :: 0 <= i < |s| - |r| ==> IsWhiteSpace(s[i])
  {
    if s != [] && IsWhiteSpace(s[0]) then TrimStart(s[1..]) else s
  }

  function TrimEnd(s: string): (r: string)
    ensures |r| <= |s| && s[..|r|] == r
    ensures r == [] || !IsWhiteSpace(r[|r| - 1])
    ensures forall i :: |r| <= i < |s| ==> IsWhiteSpace(s[i])
  {
    if s != [] && IsWhiteSpace(s[|s| - 1]) then TrimEnd(s[..|s| - 1]) else s
  }

  function Trim(s: string): string {
    TrimEnd(TrimStart(s))
  }

  predicate IsNullOrWhiteSpace(s: string) {
    forall i :: 0 <= i < |s| ==> IsWhiteSpace(s[i])
  }

  // ----- decimal numerals -----

  function DigitChar(d: nat): char
    requires d < 10
  {
    ('0' as int + d) as char
  }

  function DigitValue(c: char): nat
    requires IsAsciiDigit(c)
  {
    c as int - '0' as int
  }

  predicate AllDigits(s: string) {
    forall i :: 0 <= i < |s| ==> IsAsciiDigit(s[i])
  }

  /** One or more digits, without a leading zero unless the numeral is "0". */
  predicate IsCanonicalNumeral(s: string) {
    |s| > 0 && AllDigits(s) && (s[0] == '0' ==> |s| == 1)
  }

  /** The value of a string of digits, most significant first. */
  function DigitsValue(s: string): nat
    requires AllDigits(s)
  {
    if s == [] then 0 else DigitsValue(s[..|s| - 1]) * 10 + DigitValue(s[|s| - 1])
  }

  /** `n.ToString()` for a non-negative number. */
  function NatToString(n: nat): (r: string)
    ensures IsCanonicalNumeral(r)
  {
    if n < 10 then [DigitChar(n)] else NatToString(n / 10) + [DigitChar(n % 10)]
  }

  /** `n.ToString()` with the invariant culture. */
  function IntToString(n: int): string {
    if n < 0 then "-" + NatToString(-n) else NatToString(n)
  }

  lemma {:induction false} NatToStringValue(n: nat)
    ensures DigitsValue(NatToString(n)) == n
  {
    if n >= 10 {
      NatToStringValue(n / 10);
      var s := NatToString(n);
      assert s[..|s| - 1] == NatToString(n / 10);
    }
  }

  lemma {:induction false} CanonicalNumeralRoundTrip(s: string)
    requires IsCanonicalNumeral(s)
    ensures NatToString(DigitsValue(s)) == s
    decreases |s|
  {
    if |s| > 1 {
      var init := s[..|s| - 1];
      assert init[0] == s[0];
      DigitsValueBound(init);
      CanonicalNumeralRoundTrip(init);
      assert s == init + [s[|s| - 1]];
    }
  }

  /** A numeral with a non-zero leading digit is at least 10^(length - 1). */
  lemma {:induction false} DigitsValueBound(s: string)
    requires AllDigits(s) && |s| >= 1 && s[0] != '0'
    ensures |s| > 1 ==> DigitsValue(s) >= 10
    ensures DigitsValue(s) >= 1
    decreases |s|
  {
    if |s| > 1 {
      DigitsValueBound(s[..|s| - 1]);
    }
  }

  lemma NatToStringInjective(m: nat, n: nat)
    requires NatToString(m) == NatToString(n)
    ensures m == n
  {
    NatToStringValue(m);
    NatToStringValue(n);
  }

  // ----- 32-bit integers -----

  const Int32Min: int := -0x8000_0000
  const Int32Max: int := 0x7FFF_FFFF
  const UInt32Max: int := 0xFFFF_FFFF

  predicate IsInt32(x: int) { Int32Min <= x <= Int32Max }

  /** Two's-complement wrap-around of C#'s unchecked `int` arithmetic. */
  function WrapInt32(x: int): (r: int)
    ensures IsInt32(r)
    ensures (r - x) % 0x1_0000_0000 == 0
  {
    (x - Int32Min) % 0x1_0000_0000 + Int32Min
  }

  /** `x.CompareTo(y)` for numbers. */
  function CompareNumbers(x: int, y: int): (r: int)
    ensures r == 0 <==> x == y
    ensures r < 0 <==> x < y
    ensures -1 <= r <= 1
  {
    if x < y then -1 else if x > y then 1 else 0
  }

  /** The sign of `string.CompareOrdinal(a, b)`: code-unit lexicographic order. */
  function CompareOrdinal(a: string, b: string): (r: int)
    ensures -1 <= r <= 1
    ensures r == 0 <==> a == b
  {
    if a == [] && b == [] then 0
    else if a == [] then -1
    else if b == [] then 1
    else if a[0] < b[0] then -1
    else if a[0] > b[0] then 1
    else
      var r := CompareOrdinal(a[1..], b[1..]);
      assert r == 0 ==> a == [a[0]] + a[1..] == [b[0]] + b[1..] == b;
      r
  }

  lemma {:induction false} CompareOrdinalTransitive(a: string, b: string, c: string)
    requires CompareOrdinal(a, b) <= 0 && CompareOrdinal(b, c) <= 0
    ensures CompareOrdinal(a, c) <= 0
    decreases |a|
  {
    if a != [] && b != [] && c != [] && a[0] == b[0] && b[0] == c[0] {
      CompareOrdinalTransitive(a[1..], b[1..], c[1..]);
    }
  }

  lemma {:induction false} CompareOrdinalAntisymmetric(a: string, b: string)
    ensures CompareOrdinal(a, b) == -CompareOrdinal(b, a)
    decreases |a|
  {
    if a != [] && b != [] && a[0] == b[0] {
      CompareOrdinalAntisymmetric(a[1..], b[1..]);
    }
  }

  // ----- order-preserving selections -----

  /** The elements of `s` not in `removed`, in order. */
  function Without(s: seq<string>, removed: set<string>): (r: seq<string>)
    ensures forall x :: x in r <==> x in s && x !in removed
  {
    if s == [] then [] else (if s[0] in removed then [] else [s[0]]) + Without(s[1..], removed)
  }

  /** `a` is `b` with some elements left out and the others kept in their order. */
  predicate Subsequence<T(==)>(a: seq<T>, b: seq<T>)
    decreases |b|
  {
    if a == [] then true
    else if b == [] then false
    else (a[0] == b[0] && Subsequence(a[1..], b[1..])) || Subsequence(a, b[1..])
  }

  /** An element appended to the longer sequence may be kept or left out. */
  lemma {:induction false} SubsequenceAppend<T>(a: seq<T>, b: seq<T>, x: T)
    requires Subsequence(a, b)
    ensures Subsequence(a, b + [x]) && Subsequence(a + [x], b + [x])
    decreases |b|
  {
    var bx := b + [x];
    if b == [] {
      assert a == [];
      assert ([] + [x])[1..] == [] && bx[1..] == [];
    } else {
      assert bx[0] == b[0] && bx[1..] == b[1..] + [x];
      if a == [] {
        SubsequenceAppend(a, b[1..], x);
        assert [] + [x] == [x] && [x][1..] == [];
      } else {
        assert (a + [x])[0] == a[0] && (a + [x])[1..] == a[1..] + [x];
        if a[0] == b[0] && Subsequence(a[1..], b[1..]) {
          SubsequenceAppend(a[1..], b[1..], x);
        } else {
          SubsequenceAppend(a, b[1..], x);
        }
      }
    }
  }
}
