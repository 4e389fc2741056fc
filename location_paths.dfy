// `OmniSharpExtensionsOptions.GetNormalizedLocationPaths`: the configured extension and CLI
// locations made absolute against the target directory, with case-insensitive duplicates dropped.
module LocationPaths {
  import opened Wrappers
  import opened Text
  import opened Paths
  import opened OmniSharpEnvironment

  /** A rooted location is kept verbatim; a relative one is resolved against the target directory. */
  function Normalize(targetDirectory: string, locationPath: string): (r: string)
    ensures IsPathRooted(locationPath) ==> r == locationPath
    ensures !IsPathRooted(locationPath) ==> r == Combine(targetDirectory, locationPath)
  {
    if IsPathRooted(locationPath) then locationPath else Combine(targetDirectory, locationPath)
  }

  /** `HashSet.Add` under `OrdinalIgnoreCase`: a new element goes at the end, a duplicate is ignored. */
  function AddIgnoringCase(s: seq<string>, x: string): (r: seq<string>)
    requires DistinctIgnoringCase(s)
    ensures DistinctIgnoringCase(r)
    ensures ContainsIgnoringCase(s, x) ==> r == s
    ensures !ContainsIgnoringCase(s, x) ==> r == s + [x]
  {
    if ContainsIgnoringCase(s, x) then s
    else
      forall i | 0 <= i < |s|
        ensures !EqualsIgnoreCase(s[i], x)
      {
        assert s[i] in s;
      }
      s + [x]
  }

  /** The normalised locations in the order a `HashSet` that is only added to enumerates them. */
  function NormalizedPaths(targetDirectory: string, locationPaths: seq<string>): (r: seq<string>)
    ensures DistinctIgnoringCase(r)
    ensures |r| <= |locationPaths|
  {
    if locationPaths == [] then []
    else
      AddIgnoringCase(NormalizedPaths(targetDirectory, Init(locationPaths)), Normalize(targetDirectory, Last(locationPaths)))
  }

  function Init(s: seq<string>): seq<string> requires s != [] { s[..|s| - 1] }
  function Last(s: seq<string>): string requires s != [] { s[|s| - 1] }

  lemma InitLast(s: seq<string>)
    requires s != []
    ensures s == Init(s) + [Last(s)]
    ensures forall p :: p in s <==> p in Init(s) || p == Last(s)
  {
  }

  /** Every configured location is represented, up to case, among the normalised ones. */
  lemma {:induction false} NormalizedPathsCover(targetDirectory: string, locationPaths: seq<string>)
    ensures forall p :: p in locationPaths ==>
      ContainsIgnoringCase(NormalizedPaths(targetDirectory, locationPaths), Normalize(targetDirectory, p))
  {
    if locationPaths != [] {
      var init := Init(locationPaths);
      var x := Normalize(targetDirectory, Last(locationPaths));
      NormalizedPathsCover(targetDirectory, init);
      InitLast(locationPaths);
      var prefix := NormalizedPaths(targetDirectory, init);
      var r := NormalizedPaths(targetDirectory, locationPaths);
      assert r == AddIgnoringCase(prefix, x);
      forall p | p in locationPaths
        ensures ContainsIgnoringCase(r, Normalize(targetDirectory, p))
      {
        if p in init {
          var y :| y in prefix && EqualsIgnoreCase(Normalize(targetDirectory, p), y);
          assert y in r;
        } else {
          assert p == Last(locationPaths);
          if !ContainsIgnoringCase(prefix, x) {
            assert x in r && EqualsIgnoreCase(x, x);
          }
        }
      }
    }
  }

  /** Every normalised location comes from a configured one. */
  lemma {:induction false} NormalizedPathsFrom(targetDirectory: string, locationPaths: seq<string>)
    ensures forall x :: x in NormalizedPaths(targetDirectory, locationPaths) ==>
      exists p :: p in locationPaths && x == Normalize(targetDirectory, p)
  {
    if locationPaths != [] {
      var init := Init(locationPaths);
      NormalizedPathsFrom(targetDirectory, init);
      InitLast(locationPaths);
    }
  }

  /**
   * `GetNormalizedLocationPaths(env)`: a null environment throws `ArgumentNullException`,
   * and null or empty `LocationPaths` give no locations.
   */
  method GetNormalizedLocationPaths(locationPaths: Option<seq<string>>, env: Option<Environment>)
    returns (r: Result<seq<string>>)
    ensures env.None? ==> r == Throws(ArgumentNullException)
    ensures env.Some? && (locationPaths.None? || locationPaths.value == []) ==> r == Ok([])
    ensures env.Some? && locationPaths.Some? ==> r == Ok(NormalizedPaths(env.value.targetDirectory, locationPaths.value))
  {
    if env.None? {
      return Throws(ArgumentNullException);
    }
    if locationPaths.None? || locationPaths.value == [] {
      return Ok([]);
    }
    var paths := locationPaths.value;
    var normalizePaths: seq<string> := [];
    var i := 0;
    while i < |paths|
      invariant 0 <= i <= |paths|
      invariant normalizePaths == NormalizedPaths(env.value.targetDirectory, paths[..i])
    {
      var locationPath := paths[i];
      var normalized: string;
      if IsPathRooted(locationPath) {
        normalized := locationPath;
      } else {
        normalized := Combine(env.value.targetDirectory, locationPath);
      }
      assert paths[..i + 1][..i] == paths[..i];
      normalizePaths := AddIgnoringCase(normalizePaths, normalized);
      i := i + 1;
    }
    assert paths[..i] == paths;
    return Ok(normalizePaths);
  }
}
