// The host environment OmniSharp is launched in: the target directory or solution it serves,
// the shared settings directory, and the host process id, log level and extra arguments.
module OmniSharpEnvironment {
  import opened Wrappers
  import opened Text
  import opened Paths

  /** `Microsoft.Extensions.Logging.LogLevel`. */
  datatype LogLevel = Trace | Debug | Information | Warning | Error | Critical | NoLogging

  /** `IOmniSharpEnvironment`: the properties of a constructed `OmniSharpEnvironment`. */
  datatype Environment = Environment(
    targetDirectory: string,
    solutionFilePath: Option<string>,
    sharedDirectory: Option<string>,
    hostProcessId: int,
    logLevel: LogLevel,
    additionalArguments: Option<seq<string>>)

  /**
   * What the constructor observes of the machine: the current directory, the existing
   * directories and files, and the environment variables that are set.
   */
  datatype Host = Host(currentDirectory: string, directories: set<string>, files: set<string>,
                       variables: map<string, string>)

  /** A solution (`.sln`) or solution filter (`.slnf`) by its extension, ignoring case. */
  predicate IsSolutionPath(path: string) {
    EqualsIgnoreCase(GetExtension(path), ".sln") || EqualsIgnoreCase(GetExtension(path), ".slnf")
  }

  /**
   * The settings root: the first of OMNISHARPHOME, USERPROFILE and HOME that is set, joined
   * with ".omnisharp"; null when none is set.
   */
  function SharedDirectory(variables: map<string, string>): (r: Option<string>)
    ensures r.None? <==> "OMNISHARPHOME" !in variables && "USERPROFILE" !in variables && "HOME" !in variables
    ensures "OMNISHARPHOME" in variables ==> r == Some(Combine(variables["OMNISHARPHOME"], ".omnisharp"))
    ensures "OMNISHARPHOME" !in variables && "USERPROFILE" in variables ==>
      r == Some(Combine(variables["USERPROFILE"], ".omnisharp"))
    ensures "OMNISHARPHOME" !in variables && "USERPROFILE" !in variables && "HOME" in variables ==>
      r == Some(Combine(variables["HOME"], ".omnisharp"))
  {
    var root :=
      if "OMNISHARPHOME" in variables then Some(variables["OMNISHARPHOME"])
      else if "USERPROFILE" in variables then Some(variables["USERPROFILE"])
      else if "HOME" in variables then Some(variables["HOME"])
      else None;
    match root
    case None => None
    case Some(dir) => Some(Combine(dir, ".omnisharp"))
  }

  /**
   * The target directory and solution file the constructor settles on for `path`, or `None`
   * when it throws `ArgumentException`.
   */
  function Target(path: Option<string>, host: Host): (r: Option<(string, Option<string>)>)
    ensures (path.None? || path.value == "") ==> r == Some((host.currentDirectory, None))
    ensures path.Some? && path.value != "" && path.value in host.directories ==> r == Some((path.value, None))
    ensures r.Some? && r.value.1.Some? ==>
      path.Some? && r.value.1.value == path.value && path.value in host.files && IsSolutionPath(path.value)
      && GetDirectoryName(path.value) == Some(r.value.0)
    ensures r.None? <==>
      path.Some? && path.value != "" && path.value !in host.directories
      && (path.value !in host.files || !IsSolutionPath(path.value) || GetDirectoryName(path.value).None?)
  {
    if path.None? || path.value == "" then Some((host.currentDirectory, None))
    else if path.value in host.directories then Some((path.value, None))
    else if path.value in host.files && IsSolutionPath(path.value) then
      match GetDirectoryName(path.value)
      case None => None
      case Some(dir) => Some((dir, Some(path.value)))
    else None
  }

  /**
   * `new OmniSharpEnvironment(path, hostPid, logLevel, additionalArguments)`: throws
   * `ArgumentException` when `path` names neither a directory nor an existing solution file;
   * otherwise stores the chosen target and the remaining arguments verbatim.
   */
  function Create(path: Option<string>, hostPid: int, logLevel: LogLevel, additionalArguments: Option<seq<string>>,
                  host: Host): (r: Result<Environment>)
    ensures r.Throws? <==> Target(path, host).None?
    ensures r.Throws? ==> r.exception == ArgumentException
    ensures r.Ok? ==>
      && (r.value.targetDirectory, r.value.solutionFilePath) == Target(path, host).value
      && r.value.sharedDirectory == SharedDirectory(host.variables)
      && r.value.hostProcessId == hostPid
      && r.value.logLevel == logLevel
      && r.value.additionalArguments == additionalArguments
  {
    match Target(path, host)
    case None => Throws(ArgumentException)
    case Some((target, solution)) =>
      Ok(Environment(target, solution, SharedDirectory(host.variables), hostPid, logLevel, additionalArguments))
  }

  /** A bare solution file name in the current directory is served from the empty directory name. */
  lemma SolutionFileNameAlone(name: string, host: Host)
    requires name != "" && Separator !in name
    requires name !in host.directories && name in host.files && IsSolutionPath(name)
    ensures Create(Some(name), -1, NoLogging, None, host).Ok?
    ensures Create(Some(name), -1, NoLogging, None, host).value.targetDirectory == ""
    ensures Create(Some(name), -1, NoLogging, None, host).value.solutionFilePath == Some(name)
  {
    DirectoryOfBareFileName(name);
  }
}
