// The .NET CLI service: which `dotnet` executable OmniSharp runs, the MSBuild variables it strips
// from a child environment, and the test for a "legacy" (project.json era) CLI.
module DotNetCliService {
  import opened Wrappers
  import opened Text
  import opened Paths
  import opened SemanticVersioning

  // ----- locating the dotnet executable -----

  /** The executable's file name on a Unix-like platform, where it has no extension. */
  const ExecutableName: string := "dotnet"

  /** The first location holding the executable, or `None` when no location holds it. */
  function FirstLocationWithExecutable(locations: seq<string>, files: set<string>): (r: Option<string>)
    ensures r.None? <==> forall i :: 0 <= i < |locations| ==> Combine(locations[i], ExecutableName) !in files
    ensures r.Some? ==> exists i :: (0 <= i < |locations| && locations[i] == r.value
      && Combine(locations[i], ExecutableName) in files
      && forall j :: 0 <= j < i ==> Combine(locations[j], ExecutableName) !in files)
  {
    if locations == [] then None
    else if Combine(locations[0], ExecutableName) in files then Some(locations[0])
    else
      var r := FirstLocationWithExecutable(locations[1..], files);
      assert forall i :: 1 <= i < |locations| ==> locations[i] == locations[1..][i - 1];
      r
  }

  /**
   * The path the constructor settles on: the first configured location with the executable,
   * then a non-empty DOTNET_ROOT with the executable, then plain "dotnet" from the PATH.
   */
  function ChosenDotNetPath(locations: seq<string>, dotnetRoot: Option<string>, files: set<string>): (r: string)
    ensures FirstLocationWithExecutable(locations, files).Some? ==>
      r == Combine(FirstLocationWithExecutable(locations, files).value, "dotnet")
    ensures (FirstLocationWithExecutable(locations, files).None? && dotnetRoot.Some? && dotnetRoot.value != ""
             && Combine(dotnetRoot.value, ExecutableName) in files) ==> r == Combine(dotnetRoot.value, "dotnet")
    ensures (FirstLocationWithExecutable(locations, files).None?
             && (dotnetRoot.None? || dotnetRoot.value == "" || Combine(dotnetRoot.value, ExecutableName) !in files)) ==>
      r == "dotnet"
  {
    match FirstLocationWithExecutable(locations, files)
    case Some(location) => Combine(location, "dotnet")
    case None =>
      if dotnetRoot.Some? && dotnetRoot.value != "" && Combine(dotnetRoot.value, ExecutableName) in files then
        Combine(dotnetRoot.value, "dotnet")
      else "dotnet"
  }

  /** A location that holds the executable wins over everything configured after it. */
  lemma EarlierLocationWins(locations: seq<string>, dotnetRoot: Option<string>, files: set<string>, i: nat)
    requires i < |locations| && Combine(locations[i], ExecutableName) in files
    requires forall j :: 0 <= j < i ==> Combine(locations[j], ExecutableName) !in files
    ensures ChosenDotNetPath(locations, dotnetRoot, files) == Combine(locations[i], "dotnet")
  {
    var first := FirstLocationWithExecutable(locations, files);
    var k :| 0 <= k < |locations| && locations[k] == first.value
      && Combine(locations[k], ExecutableName) in files
      && forall j :: 0 <= j < k ==> Combine(locations[j], ExecutableName) !in files;
    assert k == i;
  }

  /** `DotNetCliService`, reduced to its `DotNetPath` property. */
  class DotNetCli {
    var dotNetPath: string

    /**
     * The constructor's search: `locations` are the normalised location paths of the CLI options,
     * `dotnetRoot` the DOTNET_ROOT variable and `files` the files that exist.
     */
    constructor(locations: seq<string>, dotnetRoot: Option<string>, files: set<string>)
      ensures dotNetPath == ChosenDotNetPath(locations, dotnetRoot, files)
    {
      var found: Option<string> := None;
      var i := 0;
      while i < |locations|
        invariant 0 <= i <= |locations|
        invariant found.None? ==> FirstLocationWithExecutable(locations, files) == FirstLocationWithExecutable(locations[i..], files)
        invariant found.Some? ==> found == FirstLocationWithExecutable(locations, files)
        decreases |locations| - i, found.None?
      {
        if Combine(locations[i], ExecutableName) in files {
          found := Some(locations[i]);
          break;
        }
        i := i + 1;
      }
      if found.Some? {
        dotNetPath := Combine(found.value, "dotnet");
      } else if dotnetRoot.Some? && dotnetRoot.value != "" && Combine(dotnetRoot.value, ExecutableName) in files {
        dotNetPath := Combine(dotnetRoot.value, "dotnet");
      } else {
        dotNetPath := "dotnet";
      }
    }
  }

  // ----- the environment of a child process -----

  /** The variables OmniSharp sets for its own MSBuild and keeps away from the CLI. */
  const MSBuildVariables: set<string> := {"MSBUILD_EXE_PATH", "MSBuildExtensionsPath"}

  /** A mutable `IDictionary<string, string>` of environment variables. */
  class EnvironmentVariables {
    var entries: map<string, string>

    constructor(entries: map<string, string>)
      ensures this.entries == entries
    {
      this.entries := entries;
    }

    /** `IDictionary.Remove`: drops the key when present. */
    method Remove(key: string)
      modifies this
      ensures entries == old(entries) - {key}
    {
      entries := entries - {key};
    }
  }

  /** The variables with the MSBuild ones taken out. */
  function WithoutMSBuildVariables(m: map<string, string>): (r: map<string, string>)
    ensures forall k :: k in r <==> k in m && k != "MSBUILD_EXE_PATH" && k != "MSBuildExtensionsPath"
    ensures forall k :: k in r ==> r[k] == m[k]
  {
    m - MSBuildVariables
  }

  /** `RemoveMSBuildEnvironmentVariables`: exactly the two MSBuild keys go; every other entry stays. */
  method RemoveMSBuildEnvironmentVariables(environment: EnvironmentVariables)
    modifies environment
    ensures environment.entries == WithoutMSBuildVariables(old(environment.entries))
  {
    environment.Remove("MSBUILD_EXE_PATH");
    environment.Remove("MSBuildExtensionsPath");
  }

  /** The entries of `ProcessStartInfo.Environment` whose value is not null. */
  function NonNullEntries(m: map<string, Option<string>>): (r: map<string, string>)
    ensures forall k :: k in r <==> k in m && m[k].Some?
    ensures forall k :: k in r ==> Some(r[k]) == m[k]
  {
    map k | k in m && m[k].Some? :: m[k].value
  }

  /**
   * The environment `Start` launches the child with, as written: the MSBuild variables are
   * removed from a copy of `startInfo.Environment` that is then dropped, so the child inherits
   * them unchanged.
   */
  method StartEnvironment(startEnvironment: map<string, Option<string>>) returns (launched: map<string, Option<string>>)
    ensures launched == startEnvironment
    ensures forall k :: k in MSBuildVariables && k in startEnvironment ==> k in launched
  {
    var environmentVariables := new EnvironmentVariables(NonNullEntries(startEnvironment));
    RemoveMSBuildEnvironmentVariables(environmentVariables);
    launched := startEnvironment;
  }

  /** The environment `Start` evidently means to launch with: `startInfo.Environment` itself stripped. */
  function IntendedStartEnvironment(startEnvironment: map<string, Option<string>>): (r: map<string, Option<string>>)
    ensures forall k :: k in MSBuildVariables ==> k !in r
    ensures forall k :: k in r <==> k in startEnvironment && k !in MSBuildVariables
    ensures forall k :: k in r ==> r[k] == startEnvironment[k]
  {
    startEnvironment - MSBuildVariables
  }

  // ----- legacy CLI versions -----

  /** OmniSharp's `DotNetVersion`: the version `dotnet --version` printed, or an error. */
  datatype CliVersion = CliVersion(version: Option<SemanticVersion>, hasError: bool)

  /** A CLI of the project.json era: a beta, exactly 1.0.0, or a "preview1"/"preview2" pre-release. */
  predicate IsLegacyVersion(v: SemanticVersion) {
    v.major < 1
    || (v.major == 1 && v.minor == 0 && v.patch == 0)
    || (v.preReleaseLabel.Some?
        && (StartsWith(v.preReleaseLabel.value, "preview1") || StartsWith(v.preReleaseLabel.value, "preview2")))
  }

  /**
   * `IsLegacy(DotNetVersion)` as written, `!HasError || …`: every version read without error is
   * legacy, and an error reaches `Version.Major`, which throws when `Version` is null.
   */
  function IsLegacyAsWritten(cli: CliVersion): (r: Result<bool>)
    ensures !cli.hasError ==> r == Ok(true)
    ensures cli.hasError && cli.version.None? ==> r == Throws(NullReferenceException)
    ensures cli.hasError && cli.version.Some? ==> (r == Ok(true) <==> IsLegacyVersion(cli.version.value))
  {
    if !cli.hasError then Ok(true)
    else if cli.version.None? then Throws(NullReferenceException)
    else Ok(IsLegacyVersion(cli.version.value))
  }

  /** `IsLegacy` as its documentation describes it: a CLI read without error whose version is legacy. */
  predicate IsLegacy(cli: CliVersion)
    ensures IsLegacy(cli) ==> IsLegacyAsWritten(cli) == Ok(true)
    ensures !cli.hasError && cli.version.Some? ==> (IsLegacy(cli) <==> IsLegacyAsWritten(cli.(hasError := true)) == Ok(true))
  {
    !cli.hasError && cli.version.Some? && IsLegacyVersion(cli.version.value)
  }

  /** The .NET 6 CLI, read without error, is reported legacy by the code as written. */
  lemma ModernCliReportedLegacy()
    ensures IsLegacyAsWritten(CliVersion(Some(Plain(6, 0, 100)), false)) == Ok(true)
    ensures !IsLegacy(CliVersion(Some(Plain(6, 0, 100)), false))
  {
  }

  /** The intended test never throws, refuses every failed read, and passes every release after 1.0.0. */
  lemma LegacyOnlyForOldReleases(cli: CliVersion)
    ensures cli.hasError ==> !IsLegacy(cli)
    ensures !cli.hasError && cli.version.Some? && cli.version.value.major >= 2 && cli.version.value.preReleaseLabel.None?
      ==> !IsLegacy(cli)
    ensures !cli.hasError && cli.version.Some? && cli.version.value.major == 0 ==> IsLegacy(cli)
  {
  }
}
