// `System.IO.Path` on a Unix-like platform, where '/' is the only directory separator
// and a rooted path is one that starts with it.
module Paths {
  import opened Wrappers
  import opened Text

  const Separator: char := '/'

  predicate IsPathRooted(p: string) { |p| > 0 && p[0] == Separator }

  /** `Path.Combine(a, b)`: a rooted or empty second part wins, otherwise one separator joins the two. */
  function Combine(a: string, b: string): (r: string)
    ensures IsPathRooted(b) ==> r == b
    ensures b == "" ==> r == a
    ensures a != "" && b != "" && !IsPathRooted(b) ==> StartsWith(r, a) && EndsWith(r, b)
  {
    if b == "" then a
    else if a == "" then b
    else if IsPathRooted(b) then b
    else if a[|a| - 1] == Separator then a + b
    else a + [Separator] + b
  }

  /** The index of the last '.' after the last separator, or -1. */
  function LastDotInFileName(p: string): (r: int)
    ensures -1 <= r < |p|
    ensures r >= 0 ==> p[r] == '.' && Separator !in p[r..]
  {
    if p == [] then -1
    else if p[|p| - 1] == '.' then |p| - 1
    else if p[|p| - 1] == Separator then -1
    else
      var k := LastDotInFileName(p[..|p| - 1]);
      assert k >= 0 ==> p[k..] == p[..|p| - 1][k..] + [p[|p| - 1]];
      k
  }

  /** `Path.GetExtension(p)`: from the last '.' of the file name on, or "" when it has none or ends in '.'. */
  function GetExtension(p: string): (r: string)
    ensures r == "" || (r[0] == '.' && |r| >= 2 && EndsWith(p, r) && Separator !in r)
  {
    var k := LastDotInFileName(p);
    if k == -1 || k == |p| - 1 then "" else p[k..]
  }

  /** `Path.GetFileName(p)`: everything after the last separator. */
  function GetFileName(p: string): (r: string)
    ensures Separator !in r && EndsWith(p, r)
    ensures |r| < |p| ==> p[|p| - |r| - 1] == Separator
  {
    if p == [] then ""
    else if p[|p| - 1] == Separator then ""
    else
      var r := GetFileName(p[..|p| - 1]);
      assert p[|p| - 1 - |r|..] == p[..|p| - 1][|p| - 1 - |r|..] + [p[|p| - 1]];
      r + [p[|p| - 1]]
  }

  /** Runs of consecutive separators collapsed to one, as .NET normalises directory names on Unix. */
  function CollapseSeparators(p: string): (r: string)
    ensures |r| <= |p|
    ensures forall i :: 0 <= i < |r| - 1 ==> !(r[i] == Separator && r[i + 1] == Separator)
    ensures |p| > 0 ==> |r| > 0 && r[0] == p[0]
  {
    if |p| < 2 then p
    else if p[0] == Separator && p[1] == Separator then CollapseSeparators(p[1..])
    else [p[0]] + CollapseSeparators(p[1..])
  }

  /**
   * The end of the directory part: the position of the last separator, with the separators
   * just before it trimmed away, but never shorter than the root.
   */
  function DirectoryNameEnd(p: string, rootLength: nat, end: nat): (r: nat)
    requires rootLength <= end <= |p|
    ensures rootLength <= r <= end
    decreases end
  {
    if end > rootLength && p[end - 1] != Separator then DirectoryNameEnd(p, rootLength, end - 1)
    else if end > rootLength then TrimSeparators(p, rootLength, end - 1)
    else end
  }

  function TrimSeparators(p: string, rootLength: nat, end: nat): (r: nat)
    requires rootLength <= end <= |p|
    ensures rootLength <= r <= end
    ensures r == rootLength || p[r - 1] != Separator
    decreases end
  {
    if end > rootLength && p[end - 1] == Separator then TrimSeparators(p, rootLength, end - 1) else end
  }

  /** `Path.GetDirectoryName(p)`: null for an empty path or a bare root, "" for a bare file name. */
  function GetDirectoryName(p: string): (r: Option<string>)
    ensures p == "" || p == [Separator] ==> r == None
    ensures r.Some? ==> |r.value| < |p|
  {
    if p == "" then None
    else
      var rootLength := if IsPathRooted(p) then 1 else 0;
      if |p| <= rootLength then None
      else
        var end := DirectoryNameEnd(p, rootLength, |p|);
        Some(CollapseSeparators(p[..end]))
  }

  lemma {:induction false} DirectoryNameEndWithoutSeparator(p: string, end: nat)
    requires end <= |p| && Separator !in p
    ensures DirectoryNameEnd(p, 0, end) == 0
    decreases end
  {
    if end > 0 {
      assert p[end - 1] in p;
      DirectoryNameEndWithoutSeparator(p, end - 1);
    }
  }

  /** A bare file name has the empty string as its directory name. */
  lemma DirectoryOfBareFileName(p: string)
    requires p != "" && Separator !in p
    ensures GetDirectoryName(p) == Some("")
  {
    assert p[0] in p;
    DirectoryNameEndWithoutSeparator(p, |p|);
  }
}
