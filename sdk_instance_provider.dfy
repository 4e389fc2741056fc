// The .NET SDK discovery provider: which installed SDKs OmniSharp may load MSBuild from,
// judged by the version recorded in each SDK's `.version` file and by the configured options.
module SdkInstanceProvider {
  import opened Wrappers
  import opened Text
  import opened Paths
  import opened SemanticVersioning

  /**
   * The files the provider can see: each existing path with its lines as `File.ReadAllLines`
   * returns them. A path that is not a key does not exist.
   */
  type FileSystem = map<string, seq<string>>

  /** The `SdkOptions` the provider reads: the configured `Version` and `IncludePrereleases`. */
  datatype SdkOptions = SdkOptions(version: Option<string>, includePrereleases: bool)

  /** `System.Version`: components left undefined are -1, and comparison is lexicographic. */
  datatype DotNetVersion = DotNetVersion(major: int, minor: int, build: int, revision: int)

  /** `a >= b` on `System.Version`. */
  predicate AtLeast(a: DotNetVersion, b: DotNetVersion) {
    a.major > b.major
    || (a.major == b.major && (a.minor > b.minor
    || (a.minor == b.minor && (a.build > b.build
    || (a.build == b.build && a.revision >= b.revision)))))
  }

  /** An SDK as `QueryVisualStudioInstances` reports it. */
  datatype SdkLocation = SdkLocation(name: string, visualStudioRootPath: string, msBuildPath: string, version: DotNetVersion)

  /** `IsModernDotNet`: the SDK is .NET 6 or later. */
  predicate IsModernDotNet(v: SemanticVersion)
    ensures IsModernDotNet(v) <==>
      CompareTo(v, Some(Plain(6, 0, 0))) >= 0 || (v.major == 6 && v.minor == 0 && v.patch == 0)
  {
    v.major >= 6
  }

  /** The two error messages of `TryParseVersion`, each quoting the configured version. */
  datatype ErrorMessage = NotValidSemanticVersion(configured: string) | NotModernDotNet(configured: string)

  /** The text of an error message. */
  function MessageText(m: ErrorMessage): string {
    match m
    case NotValidSemanticVersion(configured) =>
      "The Sdk version specified in the OmniSharp settings was not a valid semantic version. Configured version is '"
      + configured + "'. Please update your settings and restart OmniSharp."
    case NotModernDotNet(configured) =>
      "The Sdk version specified in the OmniSharp settings is not .NET 6 or higher. Configured version is '"
      + configured + "'. Please update your settings and restart OmniSharp."
  }

  /**
   * What `TryParseVersion` returns with its two out parameters: `true` with the version, or
   * `false` with the error message and whatever version `TryParse` produced.
   */
  datatype VersionCheck = Accepted(version: SemanticVersion) | Refused(parsed: Option<SemanticVersion>, errorMessage: ErrorMessage)

  /**
   * `TryParseVersion`: an unparsable string is refused with the "not a valid semantic version"
   * message, a parsed version below 6 with the ".NET 6 or higher" message, and anything else is
   * accepted. An input `TryParse` throws on throws here too.
   */
  function TryParseVersion(versionString: string): (r: Result<VersionCheck>)
    ensures r.Throws? <==> TryParse(Some(versionString)).Throws?
    ensures r.Ok? && r.value.Accepted? <==> exists v :: TryParse(Some(versionString)) == Ok(Some(v)) && IsModernDotNet(v)
    ensures r.Ok? && r.value.Accepted? ==> TryParse(Some(versionString)) == Ok(Some(r.value.version))
    ensures TryParse(Some(versionString)) == Ok(None) ==> r == Ok(Refused(None, NotValidSemanticVersion(versionString)))
    ensures forall v :: TryParse(Some(versionString)) == Ok(Some(v)) && !IsModernDotNet(v) ==>
      r == Ok(Refused(Some(v), NotModernDotNet(versionString)))
  {
    JudgeVersion(versionString, TryParse(Some(versionString)))
  }

  /** The `switch` of `TryParseVersion` over the outcome of `TryParse`. */
  function JudgeVersion(versionString: string, parsed: Result<Option<SemanticVersion>>): (r: Result<VersionCheck>)
    ensures r.Throws? <==> parsed.Throws?
    ensures r.Ok? && r.value.Accepted? <==> exists v :: parsed == Ok(Some(v)) && IsModernDotNet(v)
    ensures r.Ok? && r.value.Accepted? ==> parsed == Ok(Some(r.value.version))
    ensures parsed == Ok(None) ==> r == Ok(Refused(None, NotValidSemanticVersion(versionString)))
    ensures forall v :: parsed == Ok(Some(v)) && !IsModernDotNet(v) ==>
      r == Ok(Refused(Some(v), NotModernDotNet(versionString)))
  {
    match parsed
    case Throws(e) => Throws(e)
    case Ok(None) => Ok(Refused(None, NotValidSemanticVersion(versionString)))
    case Ok(Some(v)) =>
      if !IsModernDotNet(v) then Ok(Refused(Some(v), NotModernDotNet(versionString)))
      else Ok(Accepted(v))
  }

  /** A rendered version of .NET 6 or later is accepted, with the version it renders. */
  lemma RenderedModernVersionAccepted(v: SemanticVersion)
    requires IsCanonical(v) && IsModernDotNet(v)
    ensures TryParseVersion(ToString(v)) == Ok(Accepted(v))
  {
    RenderingParses(v, DotNetDollar);
  }

  /** A rendered version before .NET 6 is refused with the ".NET 6 or higher" message. */
  lemma RenderedOldVersionRefused(v: SemanticVersion)
    requires IsCanonical(v) && !IsModernDotNet(v)
    ensures TryParseVersion(ToString(v)) == Ok(Refused(Some(v), NotModernDotNet(ToString(v))))
  {
    RenderingParses(v, DotNetDollar);
  }

  /**
   * The version the `foreach` of `TryGetSdkVersion` settles on: the first line `TryParse`
   * accepts, `None` when no line parses, or the exception of the first line that throws.
   */
  function FirstParsedLine(lines: seq<string>, i: nat): (r: Result<Option<SemanticVersion>>)
    requires i <= |lines|
    ensures r == Ok(None) <==> NoneParse(lines, i, |lines|)
    ensures r != Ok(None) ==> exists k :: i <= k < |lines| && NoneParse(lines, i, k) && TryParse(Some(lines[k])) == r
    decreases |lines| - i
  {
    if i == |lines| then Ok(None)
    else
      var head := TryParse(Some(lines[i]));
      if head == Ok(None) then
        var r := FirstParsedLine(lines, i + 1);
        assert forall k :: i < k <= |lines| && NoneParse(lines, i + 1, k) ==> NoneParse(lines, i, k);
        r
      else
        assert NoneParse(lines, i, i);
        head
  }

  /** No line from the `i`-th to before the `k`-th parses, and none throws. */
  predicate NoneParse(lines: seq<string>, i: nat, k: nat)
    requires i <= k <= |lines|
  {
    forall j :: i <= j < k ==> TryParse(Some(lines[j])) == Ok(None)
  }

  function VersionFilePath(sdkPath: string): string { Combine(sdkPath, ".version") }

  /** `TryGetSdkVersion` as a value: false (`None`) when the SDK has no `.version` file. */
  function SdkVersion(sdkPath: string, files: FileSystem): Result<Option<SemanticVersion>> {
    if VersionFilePath(sdkPath) !in files then Ok(None) else FirstParsedLine(files[VersionFilePath(sdkPath)], 0)
  }

  /** `TryGetSdkVersion`: reads the `.version` file and returns on the first line that parses. */
  method TryGetSdkVersion(sdkPath: string, files: FileSystem) returns (r: Result<Option<SemanticVersion>>)
    ensures r == SdkVersion(sdkPath, files)
  {
    var versionPath := Combine(sdkPath, ".version");
    if versionPath !in files {
      return Ok(None);
    }
    var lines := files[versionPath];
    var i := 0;
    while i < |lines|
      invariant 0 <= i <= |lines|
      invariant FirstParsedLine(lines, 0) == FirstParsedLine(lines, i)
    {
      var parsed := TryParse(Some(lines[i]));
      if parsed != Ok(None) {
        return parsed;
      }
      i := i + 1;
    }
    return Ok(None);
  }

  /** No line `File.ReadAllLines` returns holds a line break. */
  predicate AreFileLines(lines: seq<string>) { forall i :: 0 <= i < |lines| ==> '\n' !in lines[i] }

  /**
   * On the lines of a file the line-break quirk of `TryParse` cannot arise: the version found is
   * exactly the rendering of one of the lines.
   */
  lemma {:induction false} SdkVersionIsALine(lines: seq<string>, v: SemanticVersion)
    requires AreFileLines(lines)
    requires FirstParsedLine(lines, 0) == Ok(Some(v))
    ensures exists i :: 0 <= i < |lines| && lines[i] == ToString(v)
    ensures IsCanonical(v)
  {
    var i :| 0 <= i < |lines| && TryParse(Some(lines[i])) == Ok(Some(v));
    ParsersAgreeWithoutLineBreak(lines[i]);
    StrictParseRoundTrip(lines[i], v);
  }

  /**
   * `IncludeSdkInstance`: the SDK has a `.version` file with a version of .NET 6 or later that
   * equals the configured version when one is configured, and otherwise is admitted by
   * `includePrerelease` or has no pre-release label. `sameVersion` stands for `SemanticVersion.Equals`.
   */
  function IncludeSdkInstance(sdkPath: string, targetVersion: Option<SemanticVersion>, includePrerelease: bool,
                              files: FileSystem, sameVersion: (SemanticVersion, SemanticVersion) -> bool): (r: Result<bool>)
    ensures r.Throws? <==> SdkVersion(sdkPath, files).Throws?
    ensures r == Ok(true) <==>
      exists v :: SdkVersion(sdkPath, files) == Ok(Some(v)) && IsModernDotNet(v)
        && (if targetVersion.Some? then sameVersion(v, targetVersion.value)
            else includePrerelease || IsNullOrEmpty(v.preReleaseLabel))
    ensures SdkVersion(sdkPath, files) == Ok(None) ==> r == Ok(false)
  {
    var found :- SdkVersion(sdkPath, files);
    match found
    case None => Ok(false)
    case Some(v) =>
      Ok(IsModernDotNet(v)
         && (if targetVersion.Some? then sameVersion(v, targetVersion.value)
             else includePrerelease || IsNullOrEmpty(v.preReleaseLabel)))
  }

  /** The `Where` clause of `GetInstances`: the locations `IncludeSdkInstance` admits, in order. */
  function IncludedLocations(queried: seq<SdkLocation>, targetVersion: Option<SemanticVersion>, includePrerelease: bool,
                             files: FileSystem, sameVersion: (SemanticVersion, SemanticVersion) -> bool): (r: Result<seq<SdkLocation>>)
    ensures r.Ok? ==> forall x :: x in r.value <==> (x in queried
      && IncludeSdkInstance(x.visualStudioRootPath, targetVersion, includePrerelease, files, sameVersion) == Ok(true))
    ensures r.Ok? ==> |r.value| <= |queried|
  {
    if queried == [] then Ok([])
    else
      var keep :- IncludeSdkInstance(queried[0].visualStudioRootPath, targetVersion, includePrerelease, files, sameVersion);
      var rest :- IncludedLocations(queried[1..], targetVersion, includePrerelease, files, sameVersion);
      assert forall x :: x in queried <==> x == queried[0] || x in queried[1..];
      Ok(if keep then [queried[0]] + rest else rest)
  }

  /** The `Where` predicate applied to one location. */
  function Check(x: SdkLocation, targetVersion: Option<SemanticVersion>, includePrerelease: bool,
                 files: FileSystem, sameVersion: (SemanticVersion, SemanticVersion) -> bool): Result<bool>
  {
    IncludeSdkInstance(x.visualStudioRootPath, targetVersion, includePrerelease, files, sameVersion)
  }

  /** `IncludeSdkInstance` admits the location without throwing. */
  predicate Admitted(x: SdkLocation, targetVersion: Option<SemanticVersion>, includePrerelease: bool,
                     files: FileSystem, sameVersion: (SemanticVersion, SemanticVersion) -> bool)
  {
    Check(x, targetVersion, includePrerelease, files, sameVersion) == Ok(true)
  }

  /**
   * The `Where` clause keeps the admitted locations in their order, each as often as it was
   * queried, and drops the others.
   */
  lemma {:induction false} IncludedLocationsFilter(queried: seq<SdkLocation>, targetVersion: Option<SemanticVersion>,
                                                   includePrerelease: bool, files: FileSystem,
                                                   sameVersion: (SemanticVersion, SemanticVersion) -> bool)
    ensures var r := IncludedLocations(queried, targetVersion, includePrerelease, files, sameVersion);
      r.Ok? ==>
        (Subsequence(r.value, queried)
         && forall x :: multiset(r.value)[x] ==
              if Admitted(x, targetVersion, includePrerelease, files, sameVersion) then multiset(queried)[x] else 0)
    decreases |queried|
  {
    var r := IncludedLocations(queried, targetVersion, includePrerelease, files, sameVersion);
    if queried != [] && r.Ok? {
      IncludedLocationsFilter(queried[1..], targetVersion, includePrerelease, files, sameVersion);
      var rest := IncludedLocations(queried[1..], targetVersion, includePrerelease, files, sameVersion).value;
      assert queried == [queried[0]] + queried[1..];
      assert multiset(queried) == multiset{queried[0]} + multiset(queried[1..]);
      if Admitted(queried[0], targetVersion, includePrerelease, files, sameVersion) {
        assert r.value == [queried[0]] + rest;
        assert ([queried[0]] + rest)[0] == queried[0] && ([queried[0]] + rest)[1..] == rest;
        assert multiset(r.value) == multiset{queried[0]} + multiset(rest);
      } else {
        assert r.value == rest;
      }
    }
  }

  /** When the `Where` clause throws, it is with the exception of the first location whose check throws. */
  lemma {:induction false} IncludedLocationsThrows(queried: seq<SdkLocation>, targetVersion: Option<SemanticVersion>,
                                                   includePrerelease: bool, files: FileSystem,
                                                   sameVersion: (SemanticVersion, SemanticVersion) -> bool)
    ensures var r := IncludedLocations(queried, targetVersion, includePrerelease, files, sameVersion);
      r.Throws? ==>
        (exists i :: 0 <= i < |queried|
           && Check(queried[i], targetVersion, includePrerelease, files, sameVersion) == Throws(r.exception)
           && forall j :: 0 <= j < i ==> Check(queried[j], targetVersion, includePrerelease, files, sameVersion).Ok?)
    decreases |queried|
  {
    var r := IncludedLocations(queried, targetVersion, includePrerelease, files, sameVersion);
    if queried != [] && r.Throws? {
      var head := Check(queried[0], targetVersion, includePrerelease, files, sameVersion);
      if head.Ok? {
        var tail := queried[1..];
        IncludedLocationsThrows(tail, targetVersion, includePrerelease, files, sameVersion);
        var rest := IncludedLocations(tail, targetVersion, includePrerelease, files, sameVersion);
        assert rest == r;
        var i :| 0 <= i < |tail|
          && Check(tail[i], targetVersion, includePrerelease, files, sameVersion) == Throws(rest.exception)
          && forall j :: 0 <= j < i ==> Check(tail[j], targetVersion, includePrerelease, files, sameVersion).Ok?;
        assert queried[i + 1] == tail[i];
        forall j | 0 <= j < i + 1
          ensures Check(queried[j], targetVersion, includePrerelease, files, sameVersion).Ok?
        {
          if j > 0 { assert queried[j] == tail[j - 1]; }
        }
      } else {
        assert r == Throws(head.exception);
      }
    }
  }

  /** A location whose check throws makes the whole `Where` clause throw. */
  lemma {:induction false} IncludedLocationsThrowsIfAny(queried: seq<SdkLocation>, i: nat,
                                                        targetVersion: Option<SemanticVersion>,
                                                        includePrerelease: bool, files: FileSystem,
                                                        sameVersion: (SemanticVersion, SemanticVersion) -> bool)
    requires i < |queried| && Check(queried[i], targetVersion, includePrerelease, files, sameVersion).Throws?
    ensures IncludedLocations(queried, targetVersion, includePrerelease, files, sameVersion).Throws?
    decreases |queried|
  {
    if i > 0 && Check(queried[0], targetVersion, includePrerelease, files, sameVersion).Ok? {
      assert queried[1..][i - 1] == queried[i];
      IncludedLocationsThrowsIfAny(queried[1..], i - 1, targetVersion, includePrerelease, files, sameVersion);
    }
  }

  predicate Descending(s: seq<SdkLocation>) {
    forall i, j :: 0 <= i < j < |s| ==> AtLeast(s[i].version, s[j].version)
  }

  lemma AtLeastTransitive(a: DotNetVersion, b: DotNetVersion, c: DotNetVersion)
    requires AtLeast(a, b) && AtLeast(b, c)
    ensures AtLeast(a, c)
  {
  }

  /** A location at least as new as every element of a descending sequence may lead it. */
  lemma DescendingCons(x: SdkLocation, s: seq<SdkLocation>)
    requires Descending(s)
    requires forall y :: y in s ==> AtLeast(x.version, y.version)
    ensures Descending([x] + s)
  {
    forall i, j | 0 <= i < j < |[x] + s|
      ensures AtLeast(([x] + s)[i].version, ([x] + s)[j].version)
    {
      assert ([x] + s)[j] == s[j - 1];
      if i > 0 { assert ([x] + s)[i] == s[i - 1]; }
    }
  }

  /** A location at least as new as `x` and as every element of `s` is at least as new as every element of `s` with `x`. */
  lemma HeadLeadsInsertion(head: SdkLocation, s: seq<SdkLocation>, x: SdkLocation, rest: seq<SdkLocation>)
    requires Descending([head] + s) && AtLeast(head.version, x.version)
    requires multiset(rest) == multiset(s) + multiset{x}
    ensures forall y :: y in rest ==> AtLeast(head.version, y.version)
  {
    forall y | y in rest
      ensures AtLeast(head.version, y.version)
    {
      assert y in multiset(rest);
      if y != x {
        assert y in s;
        var k :| 0 <= k < |s| && s[k] == y;
        assert ([head] + s)[0] == head && ([head] + s)[k + 1] == y;
      }
    }
  }

  /** `x` inserted into a descending sequence after every location whose version is at least its own. */
  function InsertDescending(s: seq<SdkLocation>, x: SdkLocation): (r: seq<SdkLocation>)
    requires Descending(s)
    ensures Descending(r)
    ensures multiset(r) == multiset(s) + multiset{x}
  {
    if s == [] then [x]
    else if AtLeast(s[0].version, x.version) then
      var rest := InsertDescending(s[1..], x);
      assert s == [s[0]] + s[1..];
      HeadLeadsInsertion(s[0], s[1..], x, rest);
      DescendingCons(s[0], rest);
      [s[0]] + rest
    else
      forall y | y in s
        ensures AtLeast(x.version, y.version)
      {
        if y != s[0] { AtLeastTransitive(x.version, s[0].version, y.version); }
      }
      DescendingCons(x, s);
      [x] + s
  }

  /** `OrderByDescending(instance => instance.Version)`: newest first. */
  function OrderByVersionDescending(s: seq<SdkLocation>): (r: seq<SdkLocation>)
    ensures Descending(r)
    ensures multiset(r) == multiset(s)
  {
    if s == [] then []
    else
      var r := InsertDescending(OrderByVersionDescending(s[..|s| - 1]), s[|s| - 1]);
      assert s == s[..|s| - 1] + [s[|s| - 1]];
      r
  }

  /** No version is configured, or `TryParseVersion` accepts the configured one. */
  predicate AcceptsConfiguration(options: SdkOptions) {
    IsNullOrEmpty(options.version)
    || (TryParseVersion(options.version.value).Ok? && TryParseVersion(options.version.value).value.Accepted?)
  }

  /** The configured version `GetInstances` filters by: `null` when no version is configured. */
  function ConfiguredVersion(options: SdkOptions): Option<SemanticVersion>
    requires AcceptsConfiguration(options)
  {
    if IsNullOrEmpty(options.version) then None else Some(TryParseVersion(options.version.value).value.version)
  }

  /**
   * `GetInstances`, up to the projection into `MSBuildInstance`: no instances when a configured
   * version is refused by `TryParseVersion`; otherwise the locations `IncludeSdkInstance` admits
   * for the configured version, newest first.
   */
  function GetInstances(options: SdkOptions, queried: seq<SdkLocation>, files: FileSystem,
                        sameVersion: (SemanticVersion, SemanticVersion) -> bool): (r: Result<seq<SdkLocation>>)
    ensures (!IsNullOrEmpty(options.version) && TryParseVersion(options.version.value).Ok?
             && TryParseVersion(options.version.value).value.Refused?) ==> r == Ok([])
    ensures r.Ok? && AcceptsConfiguration(options) ==>
      var included := IncludedLocations(queried, ConfiguredVersion(options), options.includePrereleases, files, sameVersion);
      included.Ok? && multiset(r.value) == multiset(included.value)
    ensures r.Ok? && AcceptsConfiguration(options) ==>
      Descending(r.value)
      && forall x :: x in r.value <==> (x in queried
           && IncludeSdkInstance(x.visualStudioRootPath, ConfiguredVersion(options), options.includePrereleases,
                                 files, sameVersion) == Ok(true))
  {
    if !IsNullOrEmpty(options.version) && TryParseVersion(options.version.value).Throws? then
      TryParseVersion(options.version.value).PropagateFailure()
    else if !IsNullOrEmpty(options.version) && TryParseVersion(options.version.value).value.Refused? then
      Ok([])
    else
      var included :- IncludedLocations(queried, ConfiguredVersion(options), options.includePrereleases, files, sameVersion);
      var sorted := OrderByVersionDescending(included);
      assert forall x :: x in sorted <==> x in multiset(sorted);
      Ok(sorted)
  }

  /**
   * With an accepted configuration, `GetInstances` holds each admitted location as often as it
   * was queried and no other, and throws exactly when the `Where` clause does.
   */
  lemma GetInstancesFilter(options: SdkOptions, queried: seq<SdkLocation>, files: FileSystem,
                           sameVersion: (SemanticVersion, SemanticVersion) -> bool)
    requires AcceptsConfiguration(options)
    ensures var r := GetInstances(options, queried, files, sameVersion);
      var included := IncludedLocations(queried, ConfiguredVersion(options), options.includePrereleases, files, sameVersion);
      (r.Throws? <==> included.Throws?)
      && (r.Ok? ==>
            forall x :: multiset(r.value)[x] ==
              if Admitted(x, ConfiguredVersion(options), options.includePrereleases, files, sameVersion)
              then multiset(queried)[x] else 0)
  {
    IncludedLocationsFilter(queried, ConfiguredVersion(options), options.includePrereleases, files, sameVersion);
  }
}
