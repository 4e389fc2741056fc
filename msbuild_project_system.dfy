// `MSBuildProjectSystem`: finds the projects of a solution or a directory, loads them into the
// workspace, and keeps every workspace project's documents, references and options in step with
// what MSBuild reports for its project file.
module MSBuildProjectSystem {
  import opened Wrappers
  import opened Text
  import opened Paths
  import opened FileWatching
  import TextChange

  type ProjectId = nat

  // ----- what MSBuild reports, and the workspace -----

  /** A package reference the dependency resolver could not find, named by id and normalised version range. */
  datatype PackageDependency = PackageDependency(name: string, version: string)

  /**
   * `ProjectFileInfo`: what loading a project file yields, together with the package references
   * the dependency resolver reports unresolved for it.
   */
  datatype ProjectFileInfo = ProjectFileInfo(
    id: ProjectId, filePath: string, directory: string, outputKind: int, allowUnsafeCode: bool,
    suppressedDiagnosticIds: seq<string>, signAssembly: bool, assemblyOriginatorKeyFile: Option<string>,
    documentationFile: Option<string>, sourceFiles: seq<string>, languageVersion: int,
    preprocessorSymbolNames: seq<string>, projectReferences: seq<string>, references: seq<string>,
    unresolvedDependencies: seq<PackageDependency>)

  /**
   * The machine the system runs on: the files that exist, the project files that load (a path
   * missing from `loader` fails to load), and the `EnablePackageAutoRestore` option.
   */
  datatype Environment = Environment(files: set<string>, loader: map<string, ProjectFileInfo>,
                                     enablePackageAutoRestore: bool)

  /**
   * `LoadProject`: the project file at `path`, which gets that path as its `FilePath`, or `None`
   * when it fails to load.
   */
  function LoadProject(env: Environment, path: string): (r: Option<ProjectFileInfo>)
    ensures r.Some? <==> path in env.loader
    ensures r.Some? ==> r.value.filePath == path
  {
    if path in env.loader then Some(env.loader[path].(filePath := path)) else None
  }

  /** `DocumentationMode`: no documentation comments, parsed, or parsed and diagnosed. */
  datatype DocumentationMode = NoComments | Parse | Diagnose

  datatype ParseOptions = ParseOptions(languageVersion: int, preprocessorSymbolNames: seq<string>,
                                       documentationMode: DocumentationMode)

  /** `LanguageVersion.Default`. */
  const DefaultLanguageVersion: int := 0

  /** The parse options of a project added without any. */
  const DefaultParseOptions := ParseOptions(DefaultLanguageVersion, [], Parse)

  datatype ReportDiagnostic = Default | Error | Warn | Info | Hidden | Suppress

  /** The parts of `CSharpCompilationOptions` the project system sets. */
  datatype CompilationOptions = CompilationOptions(outputKind: int, allowUnsafe: bool,
                                                   specificDiagnosticOptions: map<string, ReportDiagnostic>,
                                                   cryptoKeyFile: Option<string>, xmlReferenceResolver: bool)

  /**
   * A project of the workspace: the project file information it was added with, which fixes its
   * compilation options (nothing changes them later), its documents and metadata references by
   * file path, and the ids of the projects it references.
   */
  datatype WorkspaceProject = WorkspaceProject(id: ProjectId, filePath: string, addedAs: ProjectFileInfo,
                                               parseOptions: ParseOptions, documents: seq<string>,
                                               projectReferences: set<ProjectId>, metadataReferences: seq<string>)

  /** What the system reports to the client, or asks of the buffer manager and the .NET CLI. */
  datatype Event =
    | UnresolvedDependencies(projectFilePath: string, dependencies: seq<PackageDependency>)
    | RestoreRequested(directory: string, projectFilePath: string, dependencies: seq<PackageDependency>)
    | BufferUpdatedFromDisk(fileName: string)

  /** The system's fields and the workspace it maintains. */
  datatype SystemState = SystemState(projects: map<string, ProjectFileInfo>, queue: seq<ProjectFileInfo>,
                                     workspace: seq<WorkspaceProject>, events: seq<Event>,
                                     solutionFileOrRootPath: Option<string>)

  // ----- the projects of a solution -----

  /** A project entry of a solution file. */
  datatype SolutionProject = SolutionProject(isSolutionFolder: bool, relativePath: string)

  /**
   * The full path of a project entry: backslashes become separators, the path is combined with
   * the target directory and `fullPath` (`Path.GetFullPath`) normalises it.
   */
  function ProjectFilePath(entry: SolutionProject, targetDirectory: string, fullPath: string -> string): string {
    fullPath(Combine(targetDirectory, TextChange.ReplaceChar(entry.relativePath, '\\', [Separator])))
  }

  /** The extension is `.csproj` in any casing, so the path ends so. */
  predicate IsCSharpProjectFile(path: string)
    ensures IsCSharpProjectFile(path) ==> EndsWithIgnoreCase(path, ".csproj")
  {
    EqualsIgnoreCase(GetExtension(path), ".csproj")
  }

  /**
   * The paths `GetProjectPathsFromSolution` returns for `entries[i..]`, `processed` being the
   * paths seen before (upper-cased, as the case-insensitive set compares them).
   */
  function SolutionProjectPaths(entries: seq<SolutionProject>, i: nat, processed: set<string>,
                                targetDirectory: string, fullPath: string -> string): seq<string>
    decreases |entries| - i
  {
    if i >= |entries| then []
    else if entries[i].isSolutionFolder then SolutionProjectPaths(entries, i + 1, processed, targetDirectory, fullPath)
    else
      var path := ProjectFilePath(entries[i], targetDirectory, fullPath);
      if ToUpper(path) in processed then SolutionProjectPaths(entries, i + 1, processed, targetDirectory, fullPath)
      else
        (if IsCSharpProjectFile(path) then [path] else [])
        + SolutionProjectPaths(entries, i + 1, processed + {ToUpper(path)}, targetDirectory, fullPath)
  }

  /** Every path of `paths` is a C# project file of an entry from index `i` on that is not a solution folder, not seen before. */
  predicate SoundPaths(paths: seq<string>, entries: seq<SolutionProject>, i: nat, processed: set<string>,
                       targetDirectory: string, fullPath: string -> string) {
    forall p :: p in paths ==>
      IsCSharpProjectFile(p) && ToUpper(p) !in processed && FromEntry(entries, i, targetDirectory, fullPath, p)
  }

  /** Every path returned is a C# project file of an entry that is not a solution folder, not seen before. */
  lemma {:induction false} SolutionPathsSound(entries: seq<SolutionProject>, i: nat, processed: set<string>,
                                              targetDirectory: string, fullPath: string -> string)
    ensures SoundPaths(SolutionProjectPaths(entries, i, processed, targetDirectory, fullPath), entries, i, processed,
                       targetDirectory, fullPath)
    decreases |entries| - i
  {
    if i < |entries| {
      var path := ProjectFilePath(entries[i], targetDirectory, fullPath);
      if entries[i].isSolutionFolder || ToUpper(path) in processed {
        SolutionPathsSound(entries, i + 1, processed, targetDirectory, fullPath);
        SoundPathsSkipped(entries, i, processed, targetDirectory, fullPath);
      } else {
        SolutionPathsSound(entries, i + 1, processed + {ToUpper(path)}, targetDirectory, fullPath);
        SoundPathsVisited(entries, i, processed, targetDirectory, fullPath);
      }
    }
  }

  lemma SoundPathsSkipped(entries: seq<SolutionProject>, i: nat, processed: set<string>,
                          targetDirectory: string, fullPath: string -> string)
    requires i < |entries|
    requires entries[i].isSolutionFolder || ToUpper(ProjectFilePath(entries[i], targetDirectory, fullPath)) in processed
    requires SoundPaths(SolutionProjectPaths(entries, i + 1, processed, targetDirectory, fullPath), entries, i + 1, processed,
                        targetDirectory, fullPath)
    ensures SoundPaths(SolutionProjectPaths(entries, i, processed, targetDirectory, fullPath), entries, i, processed,
                       targetDirectory, fullPath)
  {
    SolutionEntrySkipped(entries, i, processed, targetDirectory, fullPath);
    FromLaterEntry(entries, i, targetDirectory, fullPath);
  }

  lemma SoundPathsVisited(entries: seq<SolutionProject>, i: nat, processed: set<string>,
                          targetDirectory: string, fullPath: string -> string)
    requires i < |entries|
    requires !entries[i].isSolutionFolder && ToUpper(ProjectFilePath(entries[i], targetDirectory, fullPath)) !in processed
    requires var seen := processed + {ToUpper(ProjectFilePath(entries[i], targetDirectory, fullPath))};
      SoundPaths(SolutionProjectPaths(entries, i + 1, seen, targetDirectory, fullPath), entries, i + 1, seen,
                 targetDirectory, fullPath)
    ensures SoundPaths(SolutionProjectPaths(entries, i, processed, targetDirectory, fullPath), entries, i, processed,
                       targetDirectory, fullPath)
  {
    var path := ProjectFilePath(entries[i], targetDirectory, fullPath);
    var seen := processed + {ToUpper(path)};
    var rest := SolutionProjectPaths(entries, i + 1, seen, targetDirectory, fullPath);
    var added := if IsCSharpProjectFile(path) then [path] else [];
    SolutionEntryFirst(entries, i, processed, targetDirectory, fullPath);
    FromLaterEntry(entries, i, targetDirectory, fullPath);
    assert FromEntry(entries, i, targetDirectory, fullPath, path);
    forall p | p in added + rest
      ensures IsCSharpProjectFile(p) && ToUpper(p) !in processed && FromEntry(entries, i, targetDirectory, fullPath, p)
    {
      if p !in rest {
        assert p in added;
      }
    }
  }

  /** `p` is the full path of an entry from index `i` on that is not a solution folder. */
  predicate FromEntry(entries: seq<SolutionProject>, i: nat, targetDirectory: string, fullPath: string -> string, p: string) {
    exists k :: i <= k < |entries| && !entries[k].isSolutionFolder && ProjectFilePath(entries[k], targetDirectory, fullPath) == p
  }

  lemma FromLaterEntry(entries: seq<SolutionProject>, i: nat, targetDirectory: string, fullPath: string -> string)
    ensures forall p :: FromEntry(entries, i + 1, targetDirectory, fullPath, p) ==> FromEntry(entries, i, targetDirectory, fullPath, p)
  {
  }

  /** No project is returned twice, even under another spelling of its path. */
  lemma {:induction false} SolutionPathsDistinct(entries: seq<SolutionProject>, i: nat, processed: set<string>,
                                                 targetDirectory: string, fullPath: string -> string)
    ensures DistinctIgnoringCase(SolutionProjectPaths(entries, i, processed, targetDirectory, fullPath))
    decreases |entries| - i
  {
    if i < |entries| {
      var path := ProjectFilePath(entries[i], targetDirectory, fullPath);
      if entries[i].isSolutionFolder || ToUpper(path) in processed {
        SolutionPathsDistinct(entries, i + 1, processed, targetDirectory, fullPath);
      } else {
        var rest := SolutionProjectPaths(entries, i + 1, processed + {ToUpper(path)}, targetDirectory, fullPath);
        SolutionPathsDistinct(entries, i + 1, processed + {ToUpper(path)}, targetDirectory, fullPath);
        SolutionPathsSound(entries, i + 1, processed + {ToUpper(path)}, targetDirectory, fullPath);
        if IsCSharpProjectFile(path) {
          DistinctCons(path, rest);
        } else {
          assert [] + rest == rest;
        }
      }
    }
  }

  /** Upper-casing keeps every '.' and separator where it is. */
  lemma {:induction false} LastDotIgnoresCase(p: string)
    ensures LastDotInFileName(ToUpper(p)) == LastDotInFileName(p)
    decreases |p|
  {
    if p != [] {
      assert ToUpper(p)[..|p| - 1] == ToUpper(p[..|p| - 1]);
      LastDotIgnoresCase(p[..|p| - 1]);
    }
  }

  lemma ExtensionOfUpperCase(p: string)
    ensures GetExtension(ToUpper(p)) == ToUpper(GetExtension(p))
  {
    LastDotIgnoresCase(p);
    var k := LastDotInFileName(p);
    if k != -1 && k != |p| - 1 {
      assert ToUpper(p)[k..] == ToUpper(p[k..]);
    }
  }

  /** Two spellings of one path are both C# project files or neither. */
  lemma ProjectFileIgnoresCase(a: string, b: string)
    requires EqualsIgnoreCase(a, b)
    ensures IsCSharpProjectFile(a) <==> IsCSharpProjectFile(b)
  {
    ExtensionOfUpperCase(a);
    ExtensionOfUpperCase(b);
  }

  /** Entry `k` is a C# project, not a solution folder, whose path was not seen before. */
  predicate UnseenProjectEntry(entries: seq<SolutionProject>, k: nat, processed: set<string>,
                               targetDirectory: string, fullPath: string -> string) {
    k < |entries| && !entries[k].isSolutionFolder
    && ToUpper(ProjectFilePath(entries[k], targetDirectory, fullPath)) !in processed
    && IsCSharpProjectFile(ProjectFilePath(entries[k], targetDirectory, fullPath))
  }

  /** An unseen C# project entry is returned, possibly under the spelling met first. */
  lemma {:induction false} SolutionPathsCompleteAt(entries: seq<SolutionProject>, i: nat, processed: set<string>,
                                                   targetDirectory: string, fullPath: string -> string, k: nat)
    requires i <= k && UnseenProjectEntry(entries, k, processed, targetDirectory, fullPath)
    ensures ContainsIgnoringCase(SolutionProjectPaths(entries, i, processed, targetDirectory, fullPath),
                                 ProjectFilePath(entries[k], targetDirectory, fullPath))
    decreases |entries| - i
  {
    var path := ProjectFilePath(entries[i], targetDirectory, fullPath);
    var q := ProjectFilePath(entries[k], targetDirectory, fullPath);
    var r := SolutionProjectPaths(entries, i, processed, targetDirectory, fullPath);
    if entries[i].isSolutionFolder || ToUpper(path) in processed {
      SolutionPathsCompleteAt(entries, i + 1, processed, targetDirectory, fullPath, k);
    } else {
      var seen := processed + {ToUpper(path)};
      var rest := SolutionProjectPaths(entries, i + 1, seen, targetDirectory, fullPath);
      assert r == (if IsCSharpProjectFile(path) then [path] else []) + rest;
      if ToUpper(q) == ToUpper(path) {
        ProjectFileIgnoresCase(q, path);
        assert path in r && EqualsIgnoreCase(q, path);
      } else {
        assert k != i;
        assert ToUpper(q) !in seen;
        assert UnseenProjectEntry(entries, k, seen, targetDirectory, fullPath);
        SolutionPathsCompleteAt(entries, i + 1, seen, targetDirectory, fullPath, k);
        var y :| y in rest && EqualsIgnoreCase(q, y);
        assert y in r;
      }
    }
  }

  /** Every C# project entry not seen before is returned, possibly under the spelling met first. */
  lemma SolutionPathsComplete(entries: seq<SolutionProject>, processed: set<string>,
                              targetDirectory: string, fullPath: string -> string)
    ensures forall k: nat :: UnseenProjectEntry(entries, k, processed, targetDirectory, fullPath) ==>
      ContainsIgnoringCase(SolutionProjectPaths(entries, 0, processed, targetDirectory, fullPath),
                           ProjectFilePath(entries[k], targetDirectory, fullPath))
  {
    forall k: nat | UnseenProjectEntry(entries, k, processed, targetDirectory, fullPath)
      ensures ContainsIgnoringCase(SolutionProjectPaths(entries, 0, processed, targetDirectory, fullPath),
                                   ProjectFilePath(entries[k], targetDirectory, fullPath))
    {
      SolutionPathsCompleteAt(entries, 0, processed, targetDirectory, fullPath, k);
    }
  }

  // ----- source files -----

  /** `sourceFiles[k]` for some `k >= i`. */
  predicate Listed(sourceFiles: seq<string>, i: nat, file: string) {
    exists k :: i <= k < |sourceFiles| && sourceFiles[k] == file
  }

  /**
   * The loop of `UpdateSourceFiles` over `sourceFiles[i..]`: the documents still to be removed
   * (those of `current` not listed) and the files added, in order, as documents.
   */
  function ReconcileDocuments(current: set<string>, sourceFiles: seq<string>, i: nat, files: set<string>)
    : (r: (set<string>, seq<string>))
    ensures r.0 <= current
    ensures i <= |sourceFiles| ==> forall x :: x in current ==> (x in r.0 <==> x !in sourceFiles[i..])
    ensures i <= |sourceFiles| ==> forall x :: x in r.1 ==> x in files && x in sourceFiles[i..]
    ensures i <= |sourceFiles| ==> forall x :: x in sourceFiles[i..] && x in files && x !in current ==> x in r.1
    decreases |sourceFiles| - i
  {
    if i >= |sourceFiles| then (current, [])
    else
      assert sourceFiles[i..] == [sourceFiles[i]] + sourceFiles[i + 1..];
      if sourceFiles[i] in current then ReconcileDocuments(current - {sourceFiles[i]}, sourceFiles, i + 1, files)
      else if sourceFiles[i] !in files then ReconcileDocuments(current, sourceFiles, i + 1, files)
      else
        var rest := ReconcileDocuments(current, sourceFiles, i + 1, files);
        (rest.0, [sourceFiles[i]] + rest.1)
  }

  /** The documents of a project after `UpdateSourceFiles`. */
  function UpdatedDocuments(documents: seq<string>, sourceFiles: seq<string>, files: set<string>): seq<string> {
    var r := ReconcileDocuments((set x | x in documents), sourceFiles, 0, files);
    Without(documents, r.0) + r.1
  }

  lemma ListedSplit(sourceFiles: seq<string>, i: nat)
    requires i < |sourceFiles|
    ensures forall f :: Listed(sourceFiles, i, f) <==> f == sourceFiles[i] || Listed(sourceFiles, i + 1, f)
  {
    forall f | Listed(sourceFiles, i, f)
      ensures f == sourceFiles[i] || Listed(sourceFiles, i + 1, f)
    {
      var k :| i <= k < |sourceFiles| && sourceFiles[k] == f;
      if k > i {
        assert Listed(sourceFiles, i + 1, f);
      }
    }
  }

  /** With no file listed twice: the documents kept for removal are the unlisted ones; the files added are the listed ones that are new and on disk. */
  lemma {:induction false} ReconcileDocumentsSpec(current: set<string>, sourceFiles: seq<string>, i: nat, files: set<string>)
    requires forall a, b :: i <= a < b < |sourceFiles| ==> sourceFiles[a] != sourceFiles[b]
    ensures var r := ReconcileDocuments(current, sourceFiles, i, files);
      (forall d :: d in r.0 <==> d in current && !Listed(sourceFiles, i, d))
      && (forall d :: d in r.1 <==> Listed(sourceFiles, i, d) && d !in current && d in files)
    decreases |sourceFiles| - i
  {
    if i < |sourceFiles| {
      var x := sourceFiles[i];
      ListedSplit(sourceFiles, i);
      assert !Listed(sourceFiles, i + 1, x);
      if x in current {
        ReconcileDocumentsSpec(current - {x}, sourceFiles, i + 1, files);
      } else {
        ReconcileDocumentsSpec(current, sourceFiles, i + 1, files);
      }
    }
  }

  /**
   * For a list without duplicates, the documents afterwards are the existing documents that are
   * listed and the listed files, not yet documents, that exist; none already present is added again.
   */
  lemma DocumentsReconciled(documents: seq<string>, sourceFiles: seq<string>, files: set<string>)
    requires forall a, b :: 0 <= a < b < |sourceFiles| ==> sourceFiles[a] != sourceFiles[b]
    ensures forall d :: d in UpdatedDocuments(documents, sourceFiles, files) <==>
      (d in documents && d in sourceFiles) || (d in sourceFiles && d !in documents && d in files)
    ensures forall d :: d in ReconcileDocuments((set x | x in documents), sourceFiles, 0, files).1 ==> d !in documents
  {
    var current := set d | d in documents;
    ReconcileDocumentsSpec(current, sourceFiles, 0, files);
    assert forall f :: Listed(sourceFiles, 0, f) <==> f in sourceFiles by {
      forall f | f in sourceFiles
        ensures Listed(sourceFiles, 0, f)
      {
        var k :| 0 <= k < |sourceFiles| && sourceFiles[k] == f;
      }
    }
  }

  // ----- metadata references -----

  /** The keys under which a file path is compared: `StringComparer.OrdinalIgnoreCase`. */
  function Keys(paths: seq<string>): set<string> {
    set p | p in paths :: ToUpper(p)
  }

  /** The elements of `s` whose key is not in `removed`, in order. */
  function WithoutKeys(s: seq<string>, removed: set<string>): (r: seq<string>)
    ensures forall x :: x in r <==> x in s && ToUpper(x) !in removed
  {
    if s == [] then [] else (if ToUpper(s[0]) in removed then [] else [s[0]]) + WithoutKeys(s[1..], removed)
  }

  /** The two hash sets of `UpdateReferences` and the references added so far. */
  datatype MetadataScan = MetadataScan(toRemove: set<string>, toAdd: set<string>, added: seq<string>)

  /**
   * The loop of `UpdateReferences` over `paths[i..]`: keys only leave `toRemove` and only join
   * `toAdd`, and every reference added is a listed path whose file exists.
   */
  function ScanMetadataReferences(files: set<string>, scan: MetadataScan, paths: seq<string>, i: nat): (r: MetadataScan)
    ensures r.toRemove <= scan.toRemove && scan.toAdd <= r.toAdd
    ensures i <= |paths| ==> forall x :: x in r.added ==> x in scan.added || (x in files && x in paths[i..])
    decreases |paths| - i
  {
    if i >= |paths| then scan
    else if paths[i] !in files then
      assert paths[i..] == [paths[i]] + paths[i + 1..];
      ScanMetadataReferences(files, scan, paths, i + 1)
    else
      assert paths[i..] == [paths[i]] + paths[i + 1..];
      var key := ToUpper(paths[i]);
      if key in scan.toRemove then ScanMetadataReferences(files, scan.(toRemove := scan.toRemove - {key}), paths, i + 1)
      else if key in scan.toAdd then ScanMetadataReferences(files, scan, paths, i + 1)
      else ScanMetadataReferences(files, MetadataScan(scan.toRemove, scan.toAdd + {key}, scan.added + [paths[i]]), paths, i + 1)
  }

  /** The metadata references of a project after `UpdateReferences`. */
  function UpdatedMetadataReferences(references: seq<string>, paths: seq<string>, files: set<string>): seq<string> {
    var scan := ScanMetadataReferences(files, MetadataScan(Keys(references), {}, []), paths, 0);
    WithoutKeys(references, scan.toRemove) + scan.added
  }

  /** The keys of the listed paths, from index `i` on, whose files exist. */
  function ListedKeys(paths: seq<string>, i: nat, files: set<string>): set<string> {
    set k | i <= k < |paths| && paths[k] in files :: ToUpper(paths[k])
  }

  /** No two of the paths from index `i` on are equal ignoring case. */
  predicate DistinctFrom(paths: seq<string>, i: nat) {
    forall a, b :: i <= a < b < |paths| ==> !EqualsIgnoreCase(paths[a], paths[b])
  }

  lemma ListedKeysSplit(paths: seq<string>, i: nat, files: set<string>)
    requires i < |paths|
    ensures ListedKeys(paths, i, files) ==
      ListedKeys(paths, i + 1, files) + (if paths[i] in files then {ToUpper(paths[i])} else {})
    ensures DistinctFrom(paths, i) ==> DistinctFrom(paths, i + 1) && ToUpper(paths[i]) !in ListedKeys(paths, i + 1, files)
  {
    var a := ListedKeys(paths, i, files);
    var b := ListedKeys(paths, i + 1, files) + (if paths[i] in files then {ToUpper(paths[i])} else {});
    forall x | x in a
      ensures x in b
    {
      var k :| i <= k < |paths| && paths[k] in files && ToUpper(paths[k]) == x;
      if k > i {
        assert x in ListedKeys(paths, i + 1, files);
      }
    }
    if DistinctFrom(paths, i) {
      forall k | i + 1 <= k < |paths|
        ensures ToUpper(paths[k]) != ToUpper(paths[i])
      {
        assert !EqualsIgnoreCase(paths[i], paths[k]);
      }
    }
  }

  /**
   * The scan takes out of `toRemove` the listed keys of existing files, and adds each listed key
   * not already referenced. A key both referenced and listed twice is added back at its second
   * listing, so without duplicates in the list the added keys are exactly the new ones.
   */
  lemma {:induction false} ScanMetadataRemoves(files: set<string>, scan: MetadataScan, paths: seq<string>, i: nat)
    ensures ScanMetadataReferences(files, scan, paths, i).toRemove == scan.toRemove - ListedKeys(paths, i, files)
    decreases |paths| - i
  {
    if i < |paths| {
      ListedKeysSplit(paths, i, files);
      var key := ToUpper(paths[i]);
      if paths[i] !in files {
        ScanMetadataRemoves(files, scan, paths, i + 1);
      } else if key in scan.toRemove {
        ScanMetadataRemoves(files, scan.(toRemove := scan.toRemove - {key}), paths, i + 1);
      } else if key in scan.toAdd {
        ScanMetadataRemoves(files, scan, paths, i + 1);
      } else {
        ScanMetadataRemoves(files, MetadataScan(scan.toRemove, scan.toAdd + {key}, scan.added + [paths[i]]), paths, i + 1);
      }
    }
  }

  lemma {:induction false} ScanMetadataAddsBounded(files: set<string>, scan: MetadataScan, paths: seq<string>, i: nat)
    ensures var r := ScanMetadataReferences(files, scan, paths, i);
      scan.toAdd + (ListedKeys(paths, i, files) - scan.toRemove) <= r.toAdd <= scan.toAdd + ListedKeys(paths, i, files)
    decreases |paths| - i
  {
    if i < |paths| {
      ListedKeysSplit(paths, i, files);
      var key := ToUpper(paths[i]);
      if paths[i] !in files {
        ScanMetadataAddsBounded(files, scan, paths, i + 1);
      } else if key in scan.toRemove {
        ScanMetadataAddsBounded(files, scan.(toRemove := scan.toRemove - {key}), paths, i + 1);
      } else if key in scan.toAdd {
        ScanMetadataAddsBounded(files, scan, paths, i + 1);
      } else {
        ScanMetadataAddsBounded(files, MetadataScan(scan.toRemove, scan.toAdd + {key}, scan.added + [paths[i]]), paths, i + 1);
      }
    }
  }

  lemma {:induction false} ScanMetadataAddsNew(files: set<string>, scan: MetadataScan, paths: seq<string>, i: nat)
    requires DistinctFrom(paths, i)
    ensures ScanMetadataReferences(files, scan, paths, i).toAdd == scan.toAdd + (ListedKeys(paths, i, files) - scan.toRemove)
    decreases |paths| - i
  {
    if i < |paths| {
      ListedKeysSplit(paths, i, files);
      var key := ToUpper(paths[i]);
      if paths[i] !in files {
        ScanMetadataAddsNew(files, scan, paths, i + 1);
      } else if key in scan.toRemove {
        ScanMetadataAddsNew(files, scan.(toRemove := scan.toRemove - {key}), paths, i + 1);
      } else if key in scan.toAdd {
        ScanMetadataAddsNew(files, scan, paths, i + 1);
      } else {
        ScanMetadataAddsNew(files, MetadataScan(scan.toRemove, scan.toAdd + {key}, scan.added + [paths[i]]), paths, i + 1);
      }
    }
  }

  /**
   * The scan takes out of `toRemove` the listed keys of existing files, and adds each listed key
   * not already referenced. A key both referenced and listed twice is added back at its second
   * listing, so only without duplicates in the list are the added keys exactly the new ones.
   */
  lemma ScanMetadataKeys(files: set<string>, scan: MetadataScan, paths: seq<string>, i: nat)
    ensures var r := ScanMetadataReferences(files, scan, paths, i);
      r.toRemove == scan.toRemove - ListedKeys(paths, i, files)
      && scan.toAdd + (ListedKeys(paths, i, files) - scan.toRemove) <= r.toAdd <= scan.toAdd + ListedKeys(paths, i, files)
      && (DistinctFrom(paths, i) ==> r.toAdd == scan.toAdd + (ListedKeys(paths, i, files) - scan.toRemove))
  {
    ScanMetadataRemoves(files, scan, paths, i);
    ScanMetadataAddsBounded(files, scan, paths, i);
    if DistinctFrom(paths, i) {
      ScanMetadataAddsNew(files, scan, paths, i);
    }
  }

  /** The added references exist, are added once each ignoring case, and are the keys of `toAdd`. */
  lemma {:induction false} ScanMetadataAdded(files: set<string>, scan: MetadataScan, paths: seq<string>, i: nat)
    requires scan.toAdd == Keys(scan.added) && DistinctIgnoringCase(scan.added)
    requires forall x :: x in scan.added ==> x in files
    ensures var r := ScanMetadataReferences(files, scan, paths, i);
      r.toAdd == Keys(r.added) && DistinctIgnoringCase(r.added) && (forall x :: x in r.added ==> x in files)
    decreases |paths| - i
  {
    if i < |paths| {
      var x := paths[i];
      var key := ToUpper(x);
      if x !in files {
        ScanMetadataAdded(files, scan, paths, i + 1);
      } else if key in scan.toRemove {
        ScanMetadataAdded(files, scan.(toRemove := scan.toRemove - {key}), paths, i + 1);
      } else if key in scan.toAdd {
        ScanMetadataAdded(files, scan, paths, i + 1);
      } else {
        var added := scan.added + [x];
        assert Keys(added) == Keys(scan.added) + {key};
        assert DistinctIgnoringCase(added) by {
          forall a | 0 <= a < |scan.added|
            ensures !EqualsIgnoreCase(added[a], x)
          {
            assert ToUpper(scan.added[a]) in Keys(scan.added);
          }
        }
        ScanMetadataAdded(files, MetadataScan(scan.toRemove, scan.toAdd + {key}, added), paths, i + 1);
      }
    }
  }

  /** The tail of a sequence without duplicates has none, and does not repeat the head. */
  lemma DistinctTail(s: seq<string>)
    requires s != [] && DistinctIgnoringCase(s)
    ensures DistinctIgnoringCase(s[1..])
    ensures forall y :: y in s[1..] ==> !EqualsIgnoreCase(s[0], y)
  {
    forall a, b | 0 <= a < b < |s[1..]|
      ensures !EqualsIgnoreCase(s[1..][a], s[1..][b])
    {
      assert s[1..][a] == s[a + 1] && s[1..][b] == s[b + 1];
    }
    forall y | y in s[1..]
      ensures !EqualsIgnoreCase(s[0], y)
    {
      var b :| 0 <= b < |s[1..]| && s[1..][b] == y;
      assert s[b + 1] == y;
    }
  }

  lemma DistinctCons(x: string, s: seq<string>)
    requires DistinctIgnoringCase(s) && forall y :: y in s ==> !EqualsIgnoreCase(x, y)
    ensures DistinctIgnoringCase([x] + s)
  {
    var t := [x] + s;
    forall a, b | 0 <= a < b < |t|
      ensures !EqualsIgnoreCase(t[a], t[b])
    {
      if a > 0 {
        assert t[a] == s[a - 1] && t[b] == s[b - 1];
      } else {
        assert t[b] in s;
      }
    }
  }

  lemma {:induction false} KeysOfWithoutKeys(s: seq<string>, removed: set<string>)
    ensures Keys(WithoutKeys(s, removed)) == Keys(s) - removed
    decreases |s|
  {
    if s != [] {
      KeysOfWithoutKeys(s[1..], removed);
      var rest := WithoutKeys(s[1..], removed);
      assert s == [s[0]] + s[1..];
      assert Keys(s) == {ToUpper(s[0])} + Keys(s[1..]);
      assert Keys([s[0]] + rest) == {ToUpper(s[0])} + Keys(rest);
    }
  }

  lemma {:induction false} WithoutKeysDistinct(s: seq<string>, removed: set<string>)
    requires DistinctIgnoringCase(s)
    ensures DistinctIgnoringCase(WithoutKeys(s, removed))
    decreases |s|
  {
    if s != [] {
      DistinctTail(s);
      WithoutKeysDistinct(s[1..], removed);
      if ToUpper(s[0]) !in removed {
        DistinctCons(s[0], WithoutKeys(s[1..], removed));
      }
    }
  }

  lemma DistinctConcat(s: seq<string>, t: seq<string>)
    requires DistinctIgnoringCase(s) && DistinctIgnoringCase(t) && Keys(s) !! Keys(t)
    ensures DistinctIgnoringCase(s + t)
  {
    var u := s + t;
    forall a, b | 0 <= a < b < |u|
      ensures !EqualsIgnoreCase(u[a], u[b])
    {
      if b < |s| {
        assert u[a] == s[a] && u[b] == s[b];
      } else if a >= |s| {
        assert u[a] == t[a - |s|] && u[b] == t[b - |s|];
      } else {
        assert u[a] == s[a] && u[b] == t[b - |s|];
        assert ToUpper(s[a]) in Keys(s) && ToUpper(t[b - |s|]) in Keys(t);
      }
    }
  }

  /**
   * After `UpdateReferences`, the references are, by key, exactly the listed paths whose files
   * exist; every added one exists; and, when no path is listed twice, no reference is there twice
   * unless it was before.
   */
  lemma MetadataReferencesReconciled(references: seq<string>, paths: seq<string>, files: set<string>)
    ensures Keys(UpdatedMetadataReferences(references, paths, files)) == ListedKeys(paths, 0, files)
    ensures forall x :: x in UpdatedMetadataReferences(references, paths, files) && x !in references ==> x in files
    ensures DistinctIgnoringCase(references) && DistinctFrom(paths, 0) ==>
      DistinctIgnoringCase(UpdatedMetadataReferences(references, paths, files))
  {
    var scan := ScanMetadataReferences(files, MetadataScan(Keys(references), {}, []), paths, 0);
    ScanMetadataKeys(files, MetadataScan(Keys(references), {}, []), paths, 0);
    ScanMetadataAdded(files, MetadataScan(Keys(references), {}, []), paths, 0);
    KeysOfWithoutKeys(references, scan.toRemove);
    var kept := WithoutKeys(references, scan.toRemove);
    assert Keys(kept + scan.added) == Keys(kept) + Keys(scan.added);
    if DistinctIgnoringCase(references) && DistinctFrom(paths, 0) {
      WithoutKeysDistinct(references, scan.toRemove);
      DistinctConcat(kept, scan.added);
    }
  }

  /** A referenced assembly listed twice is added again at its second listing. */
  lemma ListedTwiceIsAddedAgain()
    ensures UpdatedMetadataReferences(["a.dll"], ["a.dll", "a.dll"], {"a.dll"}) == ["a.dll", "a.dll"]
  {
    var key := ToUpper("a.dll");
    var paths := ["a.dll", "a.dll"];
    assert Keys(["a.dll"]) == {key};
    assert ScanMetadataReferences({"a.dll"}, MetadataScan({key}, {}, []), paths, 0)
        == ScanMetadataReferences({"a.dll"}, MetadataScan({}, {}, []), paths, 1);
    assert ScanMetadataReferences({"a.dll"}, MetadataScan({}, {}, []), paths, 1)
        == ScanMetadataReferences({"a.dll"}, MetadataScan({}, {key}, ["a.dll"]), paths, 2);
    assert WithoutKeys(["a.dll"], {}) == ["a.dll"];
  }

  // ----- parse and compilation options -----

  /** The test by which `UpdateParseOptions` leaves the options as they are. */
  predicate ParseOptionsMatch(o: ParseOptions, languageVersion: int, symbols: seq<string>, generateXmlDocumentation: bool) {
    o.languageVersion == languageVersion && o.preprocessorSymbolNames == symbols
    && (o.documentationMode == Diagnose) == generateXmlDocumentation
  }

  /**
   * `UpdateParseOptions`: matching options are kept; otherwise new options with the language
   * version and symbols, diagnosing documentation comments when XML documentation is generated.
   */
  function UpdatedParseOptions(o: ParseOptions, languageVersion: int, symbols: seq<string>, generateXmlDocumentation: bool)
    : (r: ParseOptions)
    ensures ParseOptionsMatch(r, languageVersion, symbols, generateXmlDocumentation)
    ensures ParseOptionsMatch(o, languageVersion, symbols, generateXmlDocumentation) ==> r == o
    ensures !generateXmlDocumentation && !ParseOptionsMatch(o, languageVersion, symbols, generateXmlDocumentation) ==>
      r.documentationMode == Parse
  {
    if ParseOptionsMatch(o, languageVersion, symbols, generateXmlDocumentation) then o
    else ParseOptions(languageVersion, symbols, if generateXmlDocumentation then Diagnose else Parse)
  }

  /** Updating the parse options twice with the same values is updating them once. */
  lemma UpdateParseOptionsIdempotent(o: ParseOptions, languageVersion: int, symbols: seq<string>, generateXmlDocumentation: bool)
    ensures var once := UpdatedParseOptions(o, languageVersion, symbols, generateXmlDocumentation);
      UpdatedParseOptions(once, languageVersion, symbols, generateXmlDocumentation) == once
  {
  }

  /** The warnings about assembly references that every project suppresses. */
  const AlwaysSuppressed: seq<string> := ["CS1701", "CS1702", "CS1705"]

  /**
   * The specific diagnostic options of `CreateCompilationOptions`, built as the source does: the
   * three assembly-reference warnings, then each suppressed id not yet a key.
   */
  method BuildSpecificDiagnosticOptions(suppressedDiagnosticIds: seq<string>) returns (options: map<string, ReportDiagnostic>)
    ensures options == SpecificDiagnosticOptions(suppressedDiagnosticIds)
  {
    options := map["CS1701" := Suppress, "CS1702" := Suppress, "CS1705" := Suppress];
    for i := 0 to |suppressedDiagnosticIds|
      invariant options.Keys == (set id | id in AlwaysSuppressed) + (set k | 0 <= k < i :: suppressedDiagnosticIds[k])
      invariant forall id :: id in options ==> options[id] == Suppress
    {
      var id := suppressedDiagnosticIds[i];
      if id !in options {
        options := options[id := Suppress];
      }
    }
    assert (set k | 0 <= k < |suppressedDiagnosticIds| :: suppressedDiagnosticIds[k]) == (set id | id in suppressedDiagnosticIds) by {
      forall id | id in suppressedDiagnosticIds
        ensures id in (set k | 0 <= k < |suppressedDiagnosticIds| :: suppressedDiagnosticIds[k])
      {
        var k :| 0 <= k < |suppressedDiagnosticIds| && suppressedDiagnosticIds[k] == id;
      }
    }
    assert options.Keys == SpecificDiagnosticOptions(suppressedDiagnosticIds).Keys;
  }

  /** Every diagnostic id mapped to `Suppress`: the three assembly-reference warnings and the suppressed ids. */
  function SpecificDiagnosticOptions(suppressedDiagnosticIds: seq<string>): (r: map<string, ReportDiagnostic>)
    ensures forall id :: id in r <==> id in AlwaysSuppressed || id in suppressedDiagnosticIds
    ensures forall id :: id in r ==> r[id] == Suppress
  {
    var ids := (set x | x in AlwaysSuppressed) + (set x | x in suppressedDiagnosticIds);
    map id | id in ids :: Suppress
  }

  /**
   * `CreateCompilationOptions`: the output kind, unsafe code, the diagnostic options, the key file
   * (combined with the project directory) when the assembly is signed with a named key, and the
   * XML reference resolver when a documentation file is named.
   */
  function CompilationOptionsFor(p: ProjectFileInfo): (r: CompilationOptions)
    ensures r.outputKind == p.outputKind && r.allowUnsafe == p.allowUnsafeCode
    ensures r.specificDiagnosticOptions == SpecificDiagnosticOptions(p.suppressedDiagnosticIds)
    ensures r.cryptoKeyFile.Some? <==> p.signAssembly && !IsNullOrEmpty(p.assemblyOriginatorKeyFile)
    ensures r.cryptoKeyFile.Some? ==> r.cryptoKeyFile.value == Combine(p.directory, p.assemblyOriginatorKeyFile.value)
    ensures r.xmlReferenceResolver <==> p.documentationFile.Some? && !IsNullOrWhiteSpace(p.documentationFile.value)
  {
    CompilationOptions(
      p.outputKind, p.allowUnsafeCode, SpecificDiagnosticOptions(p.suppressedDiagnosticIds),
      if p.signAssembly && !IsNullOrEmpty(p.assemblyOriginatorKeyFile)
      then Some(Combine(p.directory, p.assemblyOriginatorKeyFile.value)) else None,
      p.documentationFile.Some? && !IsNullOrWhiteSpace(p.documentationFile.value))
  }

  /** `CreateCompilationOptions`, building the diagnostic map entry by entry. */
  method CreateCompilationOptions(p: ProjectFileInfo) returns (r: CompilationOptions)
    ensures r == CompilationOptionsFor(p)
  {
    var specificDiagnosticOptions := BuildSpecificDiagnosticOptions(p.suppressedDiagnosticIds);
    var cryptoKeyFile := None;
    if p.signAssembly && !IsNullOrEmpty(p.assemblyOriginatorKeyFile) {
      cryptoKeyFile := Some(Combine(p.directory, p.assemblyOriginatorKeyFile.value));
    }
    var xmlReferenceResolver := p.documentationFile.Some? && !IsNullOrWhiteSpace(p.documentationFile.value);
    r := CompilationOptions(p.outputKind, p.allowUnsafeCode, specificDiagnosticOptions, cryptoKeyFile, xmlReferenceResolver);
  }

  // ----- adding, registering and finding projects -----

  /** `CurrentSolution.GetProject(id)`: the index of the first workspace project from `i` on with the id. */
  function FindProject(workspace: seq<WorkspaceProject>, id: ProjectId, i: nat): (r: Option<nat>)
    ensures r.Some? ==> i <= r.value < |workspace| && workspace[r.value].id == id
    ensures r.Some? ==> forall k :: i <= k < r.value ==> workspace[k].id != id
    ensures r.None? <==> forall k :: i <= k < |workspace| ==> workspace[k].id != id
    decreases |workspace| - i
  {
    if i >= |workspace| then None
    else if workspace[i].id == id then Some(i)
    else FindProject(workspace, id, i + 1)
  }

  /** The workspace project `AddProject` creates: the compilation options, default parse options, nothing else yet. */
  function NewWorkspaceProject(p: ProjectFileInfo): WorkspaceProject {
    WorkspaceProject(p.id, p.filePath, p, DefaultParseOptions, [], {}, [])
  }

  /** The compilation options of a workspace project: those created for the information it was added with. */
  function CompilationOptionsOf(w: WorkspaceProject): CompilationOptions {
    CompilationOptionsFor(w.addedAs)
  }

  /**
   * `AddProject`: the project is tracked under its path and added to the workspace. The path must
   * not be tracked yet (the collection's `Add` would throw).
   */
  function WithProjectAdded(s: SystemState, p: ProjectFileInfo): (r: SystemState)
    requires p.filePath !in s.projects
    ensures r.projects == s.projects[p.filePath := p]
    ensures r.workspace == s.workspace + [NewWorkspaceProject(p)]
    ensures r.queue == s.queue && r.events == s.events && r.solutionFileOrRootPath == s.solutionFileOrRootPath
  {
    s.(projects := s.projects[p.filePath := p], workspace := s.workspace + [NewWorkspaceProject(p)])
  }

  /** A dequeued project: added when its path is unknown, otherwise replacing the tracked entry. */
  function Registered(s: SystemState, p: ProjectFileInfo): (r: SystemState)
    ensures r.projects == s.projects[p.filePath := p]
    ensures p.filePath in s.projects ==> r.workspace == s.workspace
    ensures p.filePath !in s.projects ==> r.workspace == s.workspace + [NewWorkspaceProject(p)]
    ensures r.queue == s.queue && r.events == s.events && r.solutionFileOrRootPath == s.solutionFileOrRootPath
  {
    if p.filePath !in s.projects then WithProjectAdded(s, p) else s.(projects := s.projects[p.filePath := p])
  }

  // ----- project references -----

  /**
   * The loop of `UpdateProjectReferences` as it goes: the tracked projects, the projects loaded
   * (each also added to the workspace and enqueued), the original references not met yet and the
   * references added.
   */
  datatype ReferenceScan = ReferenceScan(projects: map<string, ProjectFileInfo>, loaded: seq<ProjectFileInfo>,
                                         existing: set<ProjectId>, added: set<ProjectId>)

  /** Meeting a reference: an original one is kept, a new one is added once. */
  function Met(scan: ReferenceScan, id: ProjectId): ReferenceScan {
    if id in scan.existing then scan.(existing := scan.existing - {id})
    else if id in scan.added then scan
    else scan.(added := scan.added + {id})
  }

  /**
   * One path of the loop: a tracked project is met; an unknown file that exists and loads is
   * loaded, tracked and met; anything else is skipped.
   */
  function ReferenceStep(env: Environment, scan: ReferenceScan, path: string): ReferenceScan {
    if path in scan.projects then Met(scan, scan.projects[path].id)
    else if path in env.files && path in env.loader then
      var q := LoadProject(env, path).value;
      Met(scan.(projects := scan.projects[path := q], loaded := scan.loaded + [q]), q.id)
    else scan
  }

  /**
   * The loop of `UpdateProjectReferences` over `paths[i..]`: original references are only met,
   * added ones only gained, and tracked projects stay tracked.
   */
  function ScanReferences(env: Environment, scan: ReferenceScan, paths: seq<string>, i: nat): (r: ReferenceScan)
    ensures r.existing <= scan.existing && scan.added <= r.added
    ensures scan.projects.Keys <= r.projects.Keys
    decreases |paths| - i
  {
    if i >= |paths| then scan
    else
      assert paths[i..] == [paths[i]] + paths[i + 1..];
      ScanReferences(env, ReferenceStep(env, scan, paths[i]), paths, i + 1)
  }

  /** The workspace projects `AddProject` creates for the loaded projects, in order. */
  function NewWorkspaceProjects(loaded: seq<ProjectFileInfo>): (r: seq<WorkspaceProject>)
    ensures |r| == |loaded| && forall k :: 0 <= k < |loaded| ==> r[k] == NewWorkspaceProject(loaded[k])
  {
    seq(|loaded|, k requires 0 <= k < |loaded| => NewWorkspaceProject(loaded[k]))
  }

  /**
   * `UpdateProjectReferences` on workspace project `j`: the loaded projects are tracked, added to
   * the workspace and enqueued; project `j` keeps the met original references and gains the added ones.
   */
  function UpdatedProjectReferences(env: Environment, s: SystemState, j: nat, paths: seq<string>): (r: SystemState)
    requires j < |s.workspace|
  {
    var original := s.workspace[j].projectReferences;
    var scan := ScanReferences(env, ReferenceScan(s.projects, [], original, {}), paths, 0);
    s.(projects := scan.projects, queue := s.queue + scan.loaded,
       workspace := s.workspace[j := s.workspace[j].(projectReferences := (original + scan.added) - scan.existing)]
                    + NewWorkspaceProjects(scan.loaded))
  }

  // ----- what the reference scan keeps -----

  /** The loadable project files not yet tracked: each load uses one up. */
  function Untracked(env: Environment, projects: map<string, ProjectFileInfo>): nat {
    |env.loader.Keys - projects.Keys|
  }

  /** Tracking one more loadable file uses it up; tracking any path uses nothing up again. */
  lemma UntrackedOfTracked(env: Environment, projects: map<string, ProjectFileInfo>, path: string, p: ProjectFileInfo)
    ensures Untracked(env, projects[path := p]) <= Untracked(env, projects)
    ensures path in env.loader && path !in projects ==> Untracked(env, projects[path := p]) == Untracked(env, projects) - 1
  {
    assert env.loader.Keys - projects[path := p].Keys == (env.loader.Keys - projects.Keys) - {path};
  }

  /** `after` tracks what `before` tracked, with the same entries. */
  predicate Extends(before: map<string, ProjectFileInfo>, after: map<string, ProjectFileInfo>) {
    forall p :: p in before ==> p in after && after[p] == before[p]
  }

  /** Whether resolving `path` loads a project: an unknown file that exists and loads. */
  predicate Loads(env: Environment, projects: map<string, ProjectFileInfo>, path: string) {
    path !in projects && path in env.files && path in env.loader
  }

  lemma StepLoads(env: Environment, scan: ReferenceScan, path: string)
    ensures ReferenceStep(env, scan, path).loaded ==
      scan.loaded + (if Loads(env, scan.projects, path) then [LoadProject(env, path).value] else [])
    ensures ReferenceStep(env, scan, path).projects ==
      if Loads(env, scan.projects, path) then scan.projects[path := LoadProject(env, path).value] else scan.projects
  {
  }

  lemma {:induction false} ScanReferencesExtends(env: Environment, scan: ReferenceScan, paths: seq<string>, i: nat)
    ensures Extends(scan.projects, ScanReferences(env, scan, paths, i).projects)
    decreases |paths| - i
  {
    if i < |paths| {
      StepLoads(env, scan, paths[i]);
      ScanReferencesExtends(env, ReferenceStep(env, scan, paths[i]), paths, i + 1);
    }
  }

  /** The scan appends to the loaded projects one project per loadable file it tracks. */
  lemma {:induction false} ScanReferencesLoads(env: Environment, scan: ReferenceScan, paths: seq<string>, i: nat)
    ensures var r := ScanReferences(env, scan, paths, i);
      |r.loaded| >= |scan.loaded| && r.loaded[..|scan.loaded|] == scan.loaded
      && |r.loaded| - |scan.loaded| + Untracked(env, r.projects) == Untracked(env, scan.projects)
    decreases |paths| - i
  {
    if i < |paths| {
      var path := paths[i];
      var next := ReferenceStep(env, scan, path);
      StepLoads(env, scan, path);
      if Loads(env, scan.projects, path) {
        UntrackedOfTracked(env, scan.projects, path, LoadProject(env, path).value);
      }
      ScanReferencesLoads(env, next, paths, i + 1);
      var r := ScanReferences(env, next, paths, i + 1);
      assert r.loaded[..|scan.loaded|] == r.loaded[..|next.loaded|][..|scan.loaded|];
    } else {
      assert scan.loaded[..|scan.loaded|] == scan.loaded;
    }
  }

  /** The ids of the tracked projects listed in `paths[..i]`. */
  function ResolvedIds(projects: map<string, ProjectFileInfo>, paths: seq<string>, i: nat): set<ProjectId> {
    set k | 0 <= k < i && k < |paths| && paths[k] in projects :: projects[paths[k]].id
  }

  /** No path listed before `i` is a loadable file that is not tracked. */
  predicate ListedResolved(env: Environment, projects: map<string, ProjectFileInfo>, paths: seq<string>, i: nat) {
    forall k :: 0 <= k < i && k < |paths| ==> paths[k] in projects || !(paths[k] in env.files && paths[k] in env.loader)
  }

  /** The projects tracked after resolving `paths[i]`. */
  function TrackedAfter(env: Environment, projects: map<string, ProjectFileInfo>, path: string): map<string, ProjectFileInfo> {
    if path !in projects && path in env.files && path in env.loader then projects[path := LoadProject(env, path).value]
    else projects
  }

  lemma StepTracks(env: Environment, scan: ReferenceScan, path: string)
    ensures ReferenceStep(env, scan, path).projects == TrackedAfter(env, scan.projects, path)
  {
  }

  /** Resolving `paths[i]` adds its id, if it resolves, to the ids of the tracked listed projects. */
  lemma ResolvedIdsStep(env: Environment, projects: map<string, ProjectFileInfo>, paths: seq<string>, i: nat)
    requires i < |paths| && ListedResolved(env, projects, paths, i)
    ensures var t := TrackedAfter(env, projects, paths[i]);
      ListedResolved(env, t, paths, i + 1)
      && ResolvedIds(t, paths, i + 1) == ResolvedIds(projects, paths, i) + (if paths[i] in t then {t[paths[i]].id} else {})
  {
    var t := TrackedAfter(env, projects, paths[i]);
    forall k | 0 <= k < i && k < |paths|
      ensures (paths[k] in t <==> paths[k] in projects)
      ensures paths[k] in projects ==> t[paths[k]] == projects[paths[k]]
    {
    }
    var a := ResolvedIds(t, paths, i + 1);
    var b := ResolvedIds(projects, paths, i) + (if paths[i] in t then {t[paths[i]].id} else {});
    forall x | x in a
      ensures x in b
    {
      var k :| 0 <= k < i + 1 && k < |paths| && paths[k] in t && t[paths[k]].id == x;
      if k < i {
        assert x in ResolvedIds(projects, paths, i);
      }
    }
    forall x | x in b
      ensures x in a
    {
      if x in ResolvedIds(projects, paths, i) {
        var k :| 0 <= k < i && k < |paths| && paths[k] in projects && projects[paths[k]].id == x;
        assert paths[k] in t && t[paths[k]].id == x;
      }
    }
  }

  /**
   * The sets of the scan: the references still to be removed are original ones never met, the
   * added ones were not original, and with the met ones they are the ids of the listed tracked projects.
   */
  predicate ReferenceSets(env: Environment, original: set<ProjectId>, paths: seq<string>, i: nat, scan: ReferenceScan) {
    scan.existing <= original && scan.added !! scan.existing
    && (original - scan.existing) + scan.added == ResolvedIds(scan.projects, paths, i)
    && ListedResolved(env, scan.projects, paths, i)
  }

  lemma ReferenceStepSets(env: Environment, original: set<ProjectId>, paths: seq<string>, i: nat, scan: ReferenceScan)
    requires i < |paths| && ReferenceSets(env, original, paths, i, scan)
    ensures ReferenceSets(env, original, paths, i + 1, ReferenceStep(env, scan, paths[i]))
  {
    ResolvedIdsStep(env, scan.projects, paths, i);
    StepTracks(env, scan, paths[i]);
  }

  lemma {:induction false} ScanReferencesSets(env: Environment, original: set<ProjectId>, paths: seq<string>, i: nat,
                                               scan: ReferenceScan)
    requires i <= |paths| && ReferenceSets(env, original, paths, i, scan)
    ensures ReferenceSets(env, original, paths, |paths|, ScanReferences(env, scan, paths, i))
    decreases |paths| - i
  {
    if i < |paths| {
      ReferenceStepSets(env, original, paths, i, scan);
      ScanReferencesSets(env, original, paths, i + 1, ReferenceStep(env, scan, paths[i]));
    }
  }

  /** A listed path is tracked after the scan exactly when it was tracked or loadable before. */
  lemma {:induction false} ScanReferencesTracks(env: Environment, scan: ReferenceScan, paths: seq<string>, i: nat)
    ensures var t := ScanReferences(env, scan, paths, i).projects;
      forall k :: i <= k < |paths| ==>
        (paths[k] in t <==> paths[k] in scan.projects || (paths[k] in env.files && paths[k] in env.loader))
    ensures forall p :: p in ScanReferences(env, scan, paths, i).projects ==>
      p in scan.projects || (p in env.files && p in env.loader)
    decreases |paths| - i
  {
    if i < |paths| {
      var next := ReferenceStep(env, scan, paths[i]);
      StepLoads(env, scan, paths[i]);
      ScanReferencesTracks(env, next, paths, i + 1);
      ScanReferencesExtends(env, next, paths, i + 1);
      var t := ScanReferences(env, scan, paths, i).projects;
      forall k | i <= k < |paths|
        ensures paths[k] in t <==> paths[k] in scan.projects || (paths[k] in env.files && paths[k] in env.loader)
      {
        if k == i {
          assert paths[i] in next.projects <==> paths[i] in scan.projects || (paths[i] in env.files && paths[i] in env.loader);
        }
      }
    }
  }

  /**
   * After `UpdateProjectReferences`, project `j` references exactly the listed projects that are
   * tracked, where a listed unknown file that exists and loads is now tracked; the other workspace
   * projects stay, followed by one new project per loaded file, which is also enqueued.
   */
  lemma ProjectReferencesReconciled(env: Environment, s: SystemState, j: nat, paths: seq<string>)
    requires j < |s.workspace|
    ensures var t := UpdatedProjectReferences(env, s, j, paths);
      t.workspace[j].projectReferences == ResolvedIds(t.projects, paths, |paths|)
      && (forall k :: 0 <= k < |paths| ==>
            (paths[k] in t.projects <==> paths[k] in s.projects || (paths[k] in env.files && paths[k] in env.loader)))
  {
    var original := s.workspace[j].projectReferences;
    var scan0 := ReferenceScan(s.projects, [], original, {});
    ScanReferencesSets(env, original, paths, 0, scan0);
    ScanReferencesTracks(env, scan0, paths, 0);
  }

  /** Only project `j` changes among the workspace projects; the tracked projects grow by the loaded ones. */
  lemma ProjectReferencesFrame(env: Environment, s: SystemState, j: nat, paths: seq<string>)
    requires j < |s.workspace|
    ensures var t := UpdatedProjectReferences(env, s, j, paths);
      |s.workspace| <= |t.workspace| && t.workspace[..|s.workspace|] == s.workspace[j := t.workspace[j]]
      && t.workspace[j] == s.workspace[j].(projectReferences := t.workspace[j].projectReferences)
      && Extends(s.projects, t.projects) && t.queue[..|s.queue|] == s.queue
      && |t.queue| + Untracked(env, t.projects) == |s.queue| + Untracked(env, s.projects)
      && t.events == s.events && t.solutionFileOrRootPath == s.solutionFileOrRootPath
  {
    var t := UpdatedProjectReferences(env, s, j, paths);
    ScanReferencesExtends(env, ReferenceScan(s.projects, [], s.workspace[j].projectReferences, {}), paths, 0);
    ScanReferencesLoads(env, ReferenceScan(s.projects, [], s.workspace[j].projectReferences, {}), paths, 0);
    assert t.workspace[..|s.workspace|] == s.workspace[j := t.workspace[j]];
    assert t.queue[..|s.queue|] == s.queue;
  }

  // ----- updating a project, and the dependency check -----

  /** Whether the project generates XML documentation: its documentation file is named. */
  predicate GeneratesXmlDocumentation(p: ProjectFileInfo) {
    p.documentationFile.Some? && !IsNullOrWhiteSpace(p.documentationFile.value)
  }

  /**
   * `UpdateProject`: nothing when the workspace has no project with the id; otherwise its source
   * files, parse options, project references and metadata references, in that order.
   */
  function Updated(env: Environment, s: SystemState, p: ProjectFileInfo): SystemState {
    match FindProject(s.workspace, p.id, 0)
    case None => s
    case Some(j) =>
      var w := s.workspace[j];
      var s1 := s.(workspace := s.workspace[j := w.(
        documents := UpdatedDocuments(w.documents, p.sourceFiles, env.files),
        parseOptions := UpdatedParseOptions(w.parseOptions, p.languageVersion, p.preprocessorSymbolNames,
                                            GeneratesXmlDocumentation(p)))]);
      var s2 := UpdatedProjectReferences(env, s1, j, p.projectReferences);
      s2.(workspace := s2.workspace[j := s2.workspace[j].(
        metadataReferences := UpdatedMetadataReferences(w.metadataReferences, p.references, env.files))])
  }

  /**
   * `t` extends `s`: tracked entries stay, the queue only grows at its end, by one project for
   * each loadable file that became tracked, the workspace only grows and nothing is reported.
   */
  predicate Grows(env: Environment, s: SystemState, t: SystemState) {
    Extends(s.projects, t.projects) && |s.queue| <= |t.queue| && t.queue[..|s.queue|] == s.queue
    && |t.queue| + Untracked(env, t.projects) == |s.queue| + Untracked(env, s.projects)
    && |s.workspace| <= |t.workspace| && t.events == s.events && t.solutionFileOrRootPath == s.solutionFileOrRootPath
  }

  lemma GrowsTransitive(env: Environment, s: SystemState, t: SystemState, u: SystemState)
    requires Grows(env, s, t) && Grows(env, t, u)
    ensures Grows(env, s, u)
  {
    assert u.queue[..|s.queue|] == u.queue[..|t.queue|][..|s.queue|];
  }

  /** Updating a project only tracks more projects, enqueuing one per project it loads, and reports nothing. */
  lemma UpdatedGrows(env: Environment, s: SystemState, p: ProjectFileInfo)
    ensures Grows(env, s, Updated(env, s, p))
  {
    match FindProject(s.workspace, p.id, 0)
    case None =>
      assert s.queue[..|s.queue|] == s.queue;
    case Some(j) =>
      var w := s.workspace[j];
      var s1 := s.(workspace := s.workspace[j := w.(
        documents := UpdatedDocuments(w.documents, p.sourceFiles, env.files),
        parseOptions := UpdatedParseOptions(w.parseOptions, p.languageVersion, p.preprocessorSymbolNames,
                                            GeneratesXmlDocumentation(p)))]);
      ProjectReferencesFrame(env, s1, j, p.projectReferences);
  }

  /**
   * `CheckForUnresolvedDependences`: nothing without unresolved packages; otherwise a restore of
   * the project's directory when restoring is allowed and enabled (reporting them if it fails),
   * or else the report of them.
   */
  function DependencyEvents(env: Environment, p: ProjectFileInfo, allowAutoRestore: bool): (r: seq<Event>)
    ensures p.unresolvedDependencies == [] <==> r == []
    ensures |r| <= 1
    ensures r != [] && allowAutoRestore && env.enablePackageAutoRestore ==>
      r == [RestoreRequested(p.directory, p.filePath, p.unresolvedDependencies)]
    ensures r != [] && !(allowAutoRestore && env.enablePackageAutoRestore) ==>
      r == [UnresolvedDependencies(p.filePath, p.unresolvedDependencies)]
  {
    if p.unresolvedDependencies == [] then []
    else if allowAutoRestore && env.enablePackageAutoRestore then
      [RestoreRequested(p.directory, p.filePath, p.unresolvedDependencies)]
    else [UnresolvedDependencies(p.filePath, p.unresolvedDependencies)]
  }

  // ----- ProcessProjects -----

  /** The dequeue loop from `ps[i]` on. */
  function RegisterAll(s: SystemState, ps: seq<ProjectFileInfo>, i: nat): SystemState
    decreases |ps| - i
  {
    if i >= |ps| then s else RegisterAll(Registered(s, ps[i]), ps, i + 1)
  }

  /** The update loop from `ps[i]` on. */
  function UpdateAll(env: Environment, s: SystemState, ps: seq<ProjectFileInfo>, i: nat): SystemState
    decreases |ps| - i
  {
    if i >= |ps| then s else UpdateAll(env, Updated(env, s, ps[i]), ps, i + 1)
  }

  /** The dependency-check loop from `ps[i]` on. */
  function CheckAll(env: Environment, s: SystemState, ps: seq<ProjectFileInfo>, i: nat): SystemState
    decreases |ps| - i
  {
    if i >= |ps| then s
    else CheckAll(env, s.(events := s.events + DependencyEvents(env, ps[i], true)), ps, i + 1)
  }

  /** One round of the outer loop: dequeue the whole queue, then update all, then check all. */
  function Batch(env: Environment, s: SystemState): SystemState {
    CheckAll(env, UpdateAll(env, RegisterAll(s.(queue := []), s.queue, 0), s.queue, 0), s.queue, 0)
  }

  /** `ProcessProjects`: rounds until the queue is empty. */
  function Processed(env: Environment, s: SystemState): SystemState
    decreases Untracked(env, s.projects), |s.queue|
  {
    if s.queue == [] then s
    else
      BatchDecreases(env, s);
      Processed(env, Batch(env, s))
  }

  /** The paths of the projects `ps[i..]`. */
  function PathsFrom(ps: seq<ProjectFileInfo>, i: nat): set<string>
    decreases |ps| - i
  {
    if i >= |ps| then {} else {ps[i].filePath} + PathsFrom(ps, i + 1)
  }

  lemma {:induction false} PathsFromHas(ps: seq<ProjectFileInfo>, i: nat, k: nat)
    requires i <= k < |ps|
    ensures ps[k].filePath in PathsFrom(ps, i)
    decreases k - i
  {
    if i < k {
      PathsFromHas(ps, i + 1, k);
    }
  }

  /** Registering tracks every dequeued path and keeps the others. */
  lemma {:induction false} RegisterAllKeys(s: SystemState, ps: seq<ProjectFileInfo>, i: nat)
    ensures RegisterAll(s, ps, i).projects.Keys == s.projects.Keys + PathsFrom(ps, i)
    decreases |ps| - i
  {
    if i < |ps| {
      RegisterAllKeys(Registered(s, ps[i]), ps, i + 1);
    }
  }

  /** Registering uses no loadable file up again, and changes nothing but the projects and the workspace. */
  lemma {:induction false} RegisterAllFrame(s: SystemState, ps: seq<ProjectFileInfo>, i: nat, env: Environment)
    ensures var t := RegisterAll(s, ps, i);
      Untracked(env, t.projects) <= Untracked(env, s.projects)
      && t.queue == s.queue && t.events == s.events && t.solutionFileOrRootPath == s.solutionFileOrRootPath
    decreases |ps| - i
  {
    if i < |ps| {
      UntrackedOfTracked(env, s.projects, ps[i].filePath, ps[i]);
      RegisterAllFrame(Registered(s, ps[i]), ps, i + 1, env);
    }
  }

  lemma {:induction false} UpdateAllGrows(env: Environment, s: SystemState, ps: seq<ProjectFileInfo>, i: nat)
    ensures Grows(env, s, UpdateAll(env, s, ps, i))
    decreases |ps| - i
  {
    if i < |ps| {
      var next := Updated(env, s, ps[i]);
      UpdatedGrows(env, s, ps[i]);
      UpdateAllGrows(env, next, ps, i + 1);
      GrowsTransitive(env, s, next, UpdateAll(env, next, ps, i + 1));
    } else {
      assert s.queue[..|s.queue|] == s.queue;
    }
  }

  /** The reports of the projects `ps[i..]`, one project after the other. */
  function AllDependencyEvents(env: Environment, ps: seq<ProjectFileInfo>, i: nat): seq<Event>
    decreases |ps| - i
  {
    if i >= |ps| then [] else DependencyEvents(env, ps[i], true) + AllDependencyEvents(env, ps, i + 1)
  }

  lemma {:induction false} CheckAllReports(env: Environment, s: SystemState, ps: seq<ProjectFileInfo>, i: nat)
    ensures CheckAll(env, s, ps, i) == s.(events := s.events + AllDependencyEvents(env, ps, i))
    decreases |ps| - i
  {
    if i < |ps| {
      CheckAllReports(env, s.(events := s.events + DependencyEvents(env, ps[i], true)), ps, i + 1);
      assert s.events + DependencyEvents(env, ps[i], true) + AllDependencyEvents(env, ps, i + 1)
          == s.events + AllDependencyEvents(env, ps, i);
    } else {
      assert s.events + [] == s.events;
    }
  }

  /**
   * A round tracks every dequeued path and reports, in dequeue order, the dependency check of each
   * dequeued project, once all of them are updated; the queue then holds just the projects loaded
   * during the updates, each using up one loadable file.
   */
  lemma BatchSpec(env: Environment, s: SystemState)
    ensures var t := Batch(env, s);
      (forall k :: 0 <= k < |s.queue| ==> s.queue[k].filePath in t.projects)
      && s.projects.Keys <= t.projects.Keys
      && t.events == s.events + AllDependencyEvents(env, s.queue, 0)
      && |t.queue| + Untracked(env, t.projects) <= Untracked(env, s.projects)
      && t.solutionFileOrRootPath == s.solutionFileOrRootPath
  {
    var s1 := RegisterAll(s.(queue := []), s.queue, 0);
    RegisterAllKeys(s.(queue := []), s.queue, 0);
    RegisterAllFrame(s.(queue := []), s.queue, 0, env);
    forall k | 0 <= k < |s.queue|
      ensures s.queue[k].filePath in s1.projects
    {
      PathsFromHas(s.queue, 0, k);
    }
    UpdateAllGrows(env, s1, s.queue, 0);
    CheckAllReports(env, UpdateAll(env, s1, s.queue, 0), s.queue, 0);
  }

  /** Each round uses up a loadable file, or else leaves nothing queued. */
  lemma BatchDecreases(env: Environment, s: SystemState)
    requires s.queue != []
    ensures var t := Batch(env, s);
      Untracked(env, t.projects) < Untracked(env, s.projects)
      || (Untracked(env, t.projects) == Untracked(env, s.projects) && |t.queue| < |s.queue|)
  {
    BatchSpec(env, s);
  }

  /**
   * `t` is where processing from `s` ends: an empty queue, every path queued in `s` tracked,
   * nothing tracked dropped, and the reports of `s` kept at the front.
   */
  predicate Finishes(s: SystemState, t: SystemState) {
    t.queue == [] && (forall k :: 0 <= k < |s.queue| ==> s.queue[k].filePath in t.projects)
    && s.projects.Keys <= t.projects.Keys
    && |s.events| <= |t.events| && t.events[..|s.events|] == s.events
    && t.solutionFileOrRootPath == s.solutionFileOrRootPath
  }

  /** `ProcessProjects` ends where processing finishes. */
  lemma {:induction false} ProcessedSpec(env: Environment, s: SystemState)
    ensures Finishes(s, Processed(env, s))
    decreases Untracked(env, s.projects), |s.queue|
  {
    if s.queue == [] {
      assert s.events[..|s.events|] == s.events;
    } else {
      var b := Batch(env, s);
      BatchSpec(env, s);
      BatchDecreases(env, s);
      assert Processed(env, s) == Processed(env, b);
      ProcessedSpec(env, b);
      FinishesAfterBatch(env, s, b, Processed(env, b));
    }
  }

  /** A round followed by the rest of the processing finishes what the round started from. */
  lemma FinishesAfterBatch(env: Environment, s: SystemState, b: SystemState, t: SystemState)
    requires b == Batch(env, s) && Finishes(b, t)
    requires forall k :: 0 <= k < |s.queue| ==> s.queue[k].filePath in b.projects
    requires s.projects.Keys <= b.projects.Keys
    requires b.events == s.events + AllDependencyEvents(env, s.queue, 0)
    requires b.solutionFileOrRootPath == s.solutionFileOrRootPath
    ensures Finishes(s, t)
  {
    assert t.events[..|s.events|] == t.events[..|b.events|][..|s.events|];
  }

  // ----- the initial projects -----

  /** The root `GetInitialProjectPaths` records: the given solution, else the one found, else the directory. */
  function InitialRoot(solutionFilePath: Option<string>, foundSolution: Option<string>, targetDirectory: string): string {
    if !IsNullOrEmpty(solutionFilePath) then solutionFilePath.value
    else if !IsNullOrEmpty(foundSolution) then foundSolution.value
    else targetDirectory
  }

  /**
   * `GetInitialProjectPaths`: the projects of the given solution, else of the solution found in
   * the target directory (`parseSolution` is `SolutionFile.ParseFile`, which may throw), else every
   * `*.csproj` below the directory. The root recorded is the source of the paths.
   */
  function InitialProjectPaths(solutionFilePath: Option<string>, foundSolution: Option<string>, targetDirectory: string,
                               parseSolution: string -> Result<seq<SolutionProject>>, csprojFiles: seq<string>,
                               fullPath: string -> string): (r: Result<seq<string>>)
    ensures IsNullOrEmpty(solutionFilePath) && IsNullOrEmpty(foundSolution) ==>
      r == Ok(csprojFiles) && InitialRoot(solutionFilePath, foundSolution, targetDirectory) == targetDirectory
    ensures !IsNullOrEmpty(solutionFilePath) ==> InitialRoot(solutionFilePath, foundSolution, targetDirectory) == solutionFilePath.value
    ensures !(IsNullOrEmpty(solutionFilePath) && IsNullOrEmpty(foundSolution)) ==>
      var solution := InitialRoot(solutionFilePath, foundSolution, targetDirectory);
      (parseSolution(solution).Throws? ==> r == Throws(parseSolution(solution).exception))
      && (parseSolution(solution).Ok? ==> r == Ok(SolutionProjectPaths(parseSolution(solution).value, 0, {}, targetDirectory, fullPath)))
  {
    if IsNullOrEmpty(solutionFilePath) && IsNullOrEmpty(foundSolution) then Ok(csprojFiles)
    else
      var entries :- parseSolution(InitialRoot(solutionFilePath, foundSolution, targetDirectory));
      Ok(SolutionProjectPaths(entries, 0, {}, targetDirectory, fullPath))
  }

  /** The projects `Initalize` enqueues for `paths`: those whose file exists and loads, in order. */
  function InitialQueue(env: Environment, paths: seq<string>): seq<ProjectFileInfo>
    decreases |paths|
  {
    if paths == [] then []
    else
      var path := paths[|paths| - 1];
      InitialQueue(env, paths[..|paths| - 1])
      + (if path in env.files && LoadProject(env, path).Some? then [LoadProject(env, path).value] else [])
  }

  /** Every enqueued project is loaded from a listed file that exists, under that file's path. */
  lemma {:induction false} InitialQueueLoaded(env: Environment, paths: seq<string>)
    ensures forall q :: q in InitialQueue(env, paths) ==>
      q.filePath in paths && q.filePath in env.files && LoadProject(env, q.filePath) == Some(q)
    ensures forall path :: path in paths && path in env.files && path in env.loader ==>
      exists q :: q in InitialQueue(env, paths) && q.filePath == path
    decreases |paths|
  {
    if paths != [] {
      var init := paths[..|paths| - 1];
      var path := paths[|paths| - 1];
      InitialQueueLoaded(env, init);
      assert paths == init + [path];
      forall other | other in paths && other in env.files && other in env.loader
        ensures exists q :: q in InitialQueue(env, paths) && q.filePath == other
      {
        if other == path {
          assert LoadProject(env, path).value in InitialQueue(env, paths);
        } else {
          assert other in init;
          var q :| q in InitialQueue(env, init) && q.filePath == other;
          assert q in InitialQueue(env, paths);
        }
      }
    }
  }

  // ----- documents by path, as the workspace finds them -----

  /** The documents without those whose path equals `path` ignoring case. */
  function WithoutPath(documents: seq<string>, path: string): (r: seq<string>)
    ensures forall d :: d in r <==> d in documents && !EqualsIgnoreCase(d, path)
  {
    if documents == [] then []
    else (if EqualsIgnoreCase(documents[0], path) then [] else [documents[0]]) + WithoutPath(documents[1..], path)
  }

  /** The workspace after every document with the path is removed, from whichever project it is in. */
  function WithoutDocument(workspace: seq<WorkspaceProject>, path: string): (r: seq<WorkspaceProject>)
    ensures |r| == |workspace|
    ensures forall k :: 0 <= k < |r| ==> r[k] == workspace[k].(documents := WithoutPath(workspace[k].documents, path))
  {
    seq(|workspace|, k requires 0 <= k < |workspace| => workspace[k].(documents := WithoutPath(workspace[k].documents, path)))
  }

  /** The path of the first workspace project from `i` on with a document at `filePath` (ignoring case). */
  function ProjectOfDocument(workspace: seq<WorkspaceProject>, filePath: string, i: nat): (r: Option<string>)
    ensures r.None? <==> forall k :: i <= k < |workspace| ==> !ContainsIgnoringCase(workspace[k].documents, filePath)
    ensures r.Some? ==> exists k :: i <= k < |workspace| && ContainsIgnoringCase(workspace[k].documents, filePath)
                                   && workspace[k].filePath == r.value
    decreases |workspace| - i
  {
    if i >= |workspace| then None
    else if ContainsIgnoringCase(workspace[i].documents, filePath) then Some(workspace[i].filePath)
    else ProjectOfDocument(workspace, filePath, i + 1)
  }

  /** Whether a directory event asks the buffer manager to read the file: a created or unspecified, existing `.cs` file. */
  predicate UpdatesBuffer(changeType: FileChangeType, path: string, files: set<string>) {
    (changeType == Unspecified || changeType == Create) && EqualsIgnoreCase(GetExtension(path), ".cs") && path in files
  }

  /** `Without` distributes over concatenation. */
  lemma {:induction false} WithoutConcat(a: seq<string>, b: seq<string>, removed: set<string>)
    ensures Without(a + b, removed) == Without(a, removed) + Without(b, removed)
    decreases |a|
  {
    if a == [] {
      assert a + b == b;
    } else {
      assert (a + b)[0] == a[0] && (a + b)[1..] == a[1..] + b;
      WithoutConcat(a[1..], b, removed);
    }
  }

  /** Removing what a sequence does not hold leaves it as it is. */
  lemma {:induction false} WithoutNothing(s: seq<string>, removed: set<string>)
    requires forall k :: 0 <= k < |s| ==> s[k] !in removed
    ensures Without(s, removed) == s
    decreases |s|
  {
    if s != [] {
      WithoutNothing(s[1..], removed);
    }
  }

  lemma {:induction false} WithoutKeysConcat(a: seq<string>, b: seq<string>, removed: set<string>)
    ensures WithoutKeys(a + b, removed) == WithoutKeys(a, removed) + WithoutKeys(b, removed)
    decreases |a|
  {
    if a == [] {
      assert a + b == b;
    } else {
      assert (a + b)[0] == a[0] && (a + b)[1..] == a[1..] + b;
      WithoutKeysConcat(a[1..], b, removed);
    }
  }

  lemma {:induction false} WithoutKeysNothing(s: seq<string>, removed: set<string>)
    requires forall k :: 0 <= k < |s| ==> ToUpper(s[k]) !in removed
    ensures WithoutKeys(s, removed) == s
    decreases |s|
  {
    if s != [] {
      WithoutKeysNothing(s[1..], removed);
    }
  }

  /** Once a path's documents are removed, no project of the workspace holds a document at that path. */
  lemma RemovedDocumentIsGone(workspace: seq<WorkspaceProject>, path: string)
    ensures ProjectOfDocument(WithoutDocument(workspace, path), path, 0).None?
  {
    var r := WithoutDocument(workspace, path);
    forall k, m | 0 <= k < |r| && 0 <= m < |r[k].documents|
      ensures !EqualsIgnoreCase(r[k].documents[m], path)
    {
      assert r[k].documents[m] in r[k].documents;
    }
  }

  /**
   * The loop of `UpdateSourceFiles`: the documents met are struck from `current`, and the listed
   * files that exist and are not documents are added, in order.
   */
  method ReconcileSourceFiles(documents: seq<string>, sourceFiles: seq<string>, files: set<string>)
    returns (current: set<string>, added: seq<string>)
    ensures (current, added) == ReconcileDocuments((set x | x in documents), sourceFiles, 0, files)
    ensures forall k :: 0 <= k < |added| ==> added[k] !in current
  {
    current := set x | x in documents;
    added := [];
    ghost var r0 := ReconcileDocuments(current, sourceFiles, 0, files);
    assert added + r0.1 == r0.1;
    for i := 0 to |sourceFiles|
      invariant r0 == (ReconcileDocuments(current, sourceFiles, i, files).0, added + ReconcileDocuments(current, sourceFiles, i, files).1)
      invariant forall k :: 0 <= k < |added| ==> added[k] !in current
    {
      var sourceFile := sourceFiles[i];
      if sourceFile in current {
        current := current - {sourceFile};
      } else if sourceFile in files {
        assert (added + [sourceFile]) + ReconcileDocuments(current, sourceFiles, i + 1, files).1
            == added + ReconcileDocuments(current, sourceFiles, i, files).1;
        added := added + [sourceFile];
      }
    }
    assert added + [] == added;
  }

  /**
   * The loop of `UpdateReferences`: a path whose file exists and whose key is still to be removed
   * is kept, one whose key was added already is skipped, any other is added.
   */
  method ScanReferencePaths(references: seq<string>, paths: seq<string>, files: set<string>)
    returns (toRemove: set<string>, toAdd: set<string>, added: seq<string>)
    ensures MetadataScan(toRemove, toAdd, added) == ScanMetadataReferences(files, MetadataScan(Keys(references), {}, []), paths, 0)
    ensures forall k :: 0 <= k < |added| ==> ToUpper(added[k]) !in toRemove
  {
    toRemove, toAdd, added := Keys(references), {}, [];
    for i := 0 to |paths|
      invariant ScanMetadataReferences(files, MetadataScan(Keys(references), {}, []), paths, 0)
             == ScanMetadataReferences(files, MetadataScan(toRemove, toAdd, added), paths, i)
      invariant forall k :: 0 <= k < |added| ==> ToUpper(added[k]) !in toRemove
    {
      if paths[i] in files {
        var reference := ToUpper(paths[i]);
        if reference in toRemove {
          toRemove := toRemove - {reference};
        } else if reference !in toAdd {
          added := added + [paths[i]];
          toAdd := toAdd + {reference};
        }
      }
    }
  }

  /** `UpdateProject` in its four steps, as the workspace sees them one after the other. */
  lemma UpdatedSteps(env: Environment, s: SystemState, p: ProjectFileInfo, j: nat, s1: SystemState, s2: SystemState, t: SystemState)
    requires FindProject(s.workspace, p.id, 0) == Some(j)
    requires s1 == s.(workspace := s.workspace[j := s.workspace[j].(
      documents := UpdatedDocuments(s.workspace[j].documents, p.sourceFiles, env.files))][j := s.workspace[j].(
      documents := UpdatedDocuments(s.workspace[j].documents, p.sourceFiles, env.files)).(
      parseOptions := UpdatedParseOptions(s.workspace[j].parseOptions, p.languageVersion, p.preprocessorSymbolNames,
                                          GeneratesXmlDocumentation(p)))])
    requires s2 == UpdatedProjectReferences(env, s1, j, p.projectReferences)
    requires s2.workspace[j].metadataReferences == s1.workspace[j].metadataReferences
    requires t == s2.(workspace := s2.workspace[j := s2.workspace[j].(
      metadataReferences := UpdatedMetadataReferences(s2.workspace[j].metadataReferences, p.references, env.files))])
    ensures t == Updated(env, s, p)
  {
    var w := s.workspace[j];
    var documents := UpdatedDocuments(w.documents, p.sourceFiles, env.files);
    var w1 := w.(documents := documents, parseOptions := UpdatedParseOptions(w.parseOptions, p.languageVersion,
                                                                            p.preprocessorSymbolNames, GeneratesXmlDocumentation(p)));
    assert s.workspace[j := w.(documents := documents)][j := w1] == s.workspace[j := w1];
    assert s1 == s.(workspace := s.workspace[j := w1]);
    assert s2.workspace[j].metadataReferences == w.metadataReferences;
  }

  /** Moving the head of a queue to the end of what was dequeued keeps the two together. */
  lemma Dequeued<T>(dequeued: seq<T>, queue: seq<T>)
    requires queue != []
    ensures (dequeued + [queue[0]]) + queue[1..] == dequeued + queue
  {
    assert queue == [queue[0]] + queue[1..];
  }

  /** An entry that is a solution folder, or names a path processed before, adds nothing. */
  lemma SolutionEntrySkipped(entries: seq<SolutionProject>, i: nat, processed: set<string>, targetDirectory: string,
                             fullPath: string -> string)
    requires i < |entries|
    requires entries[i].isSolutionFolder || ToUpper(ProjectFilePath(entries[i], targetDirectory, fullPath)) in processed
    ensures SolutionProjectPaths(entries, i, processed, targetDirectory, fullPath)
         == SolutionProjectPaths(entries, i + 1, processed, targetDirectory, fullPath)
  {
  }

  /** An entry not seen before: its path comes first when it is a C# project file, and it is marked processed. */
  lemma SolutionEntryFirst(entries: seq<SolutionProject>, i: nat, processed: set<string>, targetDirectory: string,
                           fullPath: string -> string)
    requires i < |entries|
    requires !entries[i].isSolutionFolder && ToUpper(ProjectFilePath(entries[i], targetDirectory, fullPath)) !in processed
    ensures var path := ProjectFilePath(entries[i], targetDirectory, fullPath);
      SolutionProjectPaths(entries, i, processed, targetDirectory, fullPath)
      == (if IsCSharpProjectFile(path) then [path] else [])
         + SolutionProjectPaths(entries, i + 1, processed + {ToUpper(path)}, targetDirectory, fullPath)
  {
  }

  /** Another entry is marked processed, and its path is returned first when it is a C# project file. */
  lemma SolutionEntryVisited(entries: seq<SolutionProject>, i: nat, processed: set<string>, targetDirectory: string,
                             fullPath: string -> string, result: seq<string>)
    requires i < |entries|
    requires !entries[i].isSolutionFolder && ToUpper(ProjectFilePath(entries[i], targetDirectory, fullPath)) !in processed
    ensures var path := ProjectFilePath(entries[i], targetDirectory, fullPath);
      result + SolutionProjectPaths(entries, i, processed, targetDirectory, fullPath)
      == (result + if IsCSharpProjectFile(path) then [path] else [])
         + SolutionProjectPaths(entries, i + 1, processed + {ToUpper(path)}, targetDirectory, fullPath)
  {
    var path := ProjectFilePath(entries[i], targetDirectory, fullPath);
    var rest := SolutionProjectPaths(entries, i + 1, processed + {ToUpper(path)}, targetDirectory, fullPath);
    var added := if IsCSharpProjectFile(path) then [path] else [];
    Regrouped(result, added, rest);
  }

  lemma Regrouped<T>(a: seq<T>, b: seq<T>, c: seq<T>)
    ensures a + (b + c) == (a + b) + c
  {
  }

  /** The loop of `GetProjectPathsFromSolution` over the entries of a parsed solution file. */
  method GetProjectPathsFromSolution(entries: seq<SolutionProject>, targetDirectory: string, fullPath: string -> string)
    returns (result: seq<string>)
    ensures result == SolutionProjectPaths(entries, 0, {}, targetDirectory, fullPath)
  {
    var processed: set<string> := {};
    result := [];
    for i := 0 to |entries|
      invariant SolutionProjectPaths(entries, 0, {}, targetDirectory, fullPath)
             == result + SolutionProjectPaths(entries, i, processed, targetDirectory, fullPath)
    {
      processed, result := VisitSolutionEntry(entries, i, processed, targetDirectory, fullPath, result);
    }
    assert result + [] == result;
  }

  /** The body of that loop for `entries[i]`: a new C# project path is returned, any new path is marked processed. */
  method VisitSolutionEntry(entries: seq<SolutionProject>, i: nat, processed: set<string>, targetDirectory: string,
                            fullPath: string -> string, result: seq<string>)
    returns (processed': set<string>, result': seq<string>)
    requires i < |entries|
    ensures result' + SolutionProjectPaths(entries, i + 1, processed', targetDirectory, fullPath)
         == result + SolutionProjectPaths(entries, i, processed, targetDirectory, fullPath)
  {
    processed', result' := processed, result;
    var projectFilePath := ProjectFilePath(entries[i], targetDirectory, fullPath);
    if entries[i].isSolutionFolder || ToUpper(projectFilePath) in processed {
      SolutionEntrySkipped(entries, i, processed, targetDirectory, fullPath);
      return;
    }
    SolutionEntryVisited(entries, i, processed, targetDirectory, fullPath, result);
    if IsCSharpProjectFile(projectFilePath) {
      result' := result + [projectFilePath];
    } else {
      assert result + [] == result;
    }
    processed' := processed + {ToUpper(projectFilePath)};
  }

  /**
   * `Initalize` from `s`: the root is recorded, the initial projects that exist and load are
   * enqueued, and all of them are processed.
   */
  function Initialized(env: Environment, s: SystemState, root: string, paths: seq<string>): SystemState {
    Processed(env, s.(solutionFileOrRootPath := Some(root), queue := s.queue + InitialQueue(env, paths)))
  }

  /**
   * After `Initalize` every initial project path that exists and loads is tracked, nothing is
   * queued, and the root is the solution or directory the paths came from.
   */
  lemma InitializedTracksInitialProjects(env: Environment, s: SystemState, root: string, paths: seq<string>)
    ensures var t := Initialized(env, s, root, paths);
      t.queue == [] && t.solutionFileOrRootPath == Some(root)
      && s.projects.Keys <= t.projects.Keys
      && forall path :: path in paths && path in env.files && path in env.loader ==> path in t.projects
  {
    var s1 := s.(solutionFileOrRootPath := Some(root), queue := s.queue + InitialQueue(env, paths));
    InitialQueueLoaded(env, paths);
    ProcessedSpec(env, s1);
    forall path | path in paths && path in env.files && path in env.loader
      ensures path in Initialized(env, s, root, paths).projects
    {
      var q :| q in InitialQueue(env, paths) && q.filePath == path;
      var k :| 0 <= k < |InitialQueue(env, paths)| && InitialQueue(env, paths)[k] == q;
      assert s1.queue[|s.queue| + k] == q;
    }
  }

  // ----- the project system -----

  /**
   * `MSBuildProjectSystem`: the tracked projects by path, the projects still to process, the
   * workspace, what was reported, and the solution or directory the projects came from.
   */
  class ProjectSystem {
    const env: Environment
    var projects: map<string, ProjectFileInfo>
    var queue: seq<ProjectFileInfo>
    var workspace: seq<WorkspaceProject>
    var events: seq<Event>
    var solutionFileOrRootPath: Option<string>

    function State(): SystemState
      reads this
    {
      SystemState(projects, queue, workspace, events, solutionFileOrRootPath)
    }

    constructor (env: Environment, workspace: seq<WorkspaceProject>)
      ensures this.env == env && State() == SystemState(map[], [], workspace, [], None)
    {
      this.env := env;
      projects, queue, this.workspace, events, solutionFileOrRootPath := map[], [], workspace, [], None;
    }

    /** `AddProject`: the path must not be tracked yet. */
    method AddProject(p: ProjectFileInfo)
      requires p.filePath !in projects
      modifies this
      ensures State() == WithProjectAdded(old(State()), p)
    {
      projects := projects[p.filePath := p];
      workspace := workspace + [NewWorkspaceProject(p)];
    }

    /** `CurrentSolution.GetProject(id)`: the index of the first workspace project with the id. */
    method FindProjectIndex(id: ProjectId) returns (r: Option<nat>)
      ensures r == FindProject(workspace, id, 0)
    {
      var i := 0;
      while i < |workspace|
        invariant i <= |workspace| && FindProject(workspace, id, 0) == FindProject(workspace, id, i)
      {
        if workspace[i].id == id {
          return Some(i);
        }
        i := i + 1;
      }
      return None;
    }

    /**
     * `UpdateSourceFiles`: a listed file that is a document already is kept, one that exists is
     * added, and the documents not listed are removed afterwards.
     */
    method UpdateSourceFiles(j: nat, sourceFiles: seq<string>)
      requires j < |workspace|
      modifies this
      ensures workspace == old(workspace[j := workspace[j].(
        documents := UpdatedDocuments(workspace[j].documents, sourceFiles, env.files))])
      ensures projects == old(projects) && queue == old(queue) && events == old(events)
      ensures solutionFileOrRootPath == old(solutionFileOrRootPath)
    {
      var documents := workspace[j].documents;
      var current, added := ReconcileSourceFiles(documents, sourceFiles, env.files);
      WithoutConcat(documents, added, current);
      WithoutNothing(added, current);
      workspace := workspace[j := workspace[j].(documents := Without(documents + added, current))];
    }

    /** `UpdateParseOptions`: options that match are kept; otherwise new ones from the arguments. */
    method UpdateParseOptions(j: nat, languageVersion: int, symbols: seq<string>, generateXmlDocumentation: bool)
      requires j < |workspace|
      modifies this
      ensures workspace == old(workspace[j := workspace[j].(
        parseOptions := UpdatedParseOptions(workspace[j].parseOptions, languageVersion, symbols, generateXmlDocumentation))])
      ensures projects == old(projects) && queue == old(queue) && events == old(events)
      ensures solutionFileOrRootPath == old(solutionFileOrRootPath)
    {
      var existing := workspace[j].parseOptions;
      if existing.languageVersion == languageVersion && existing.preprocessorSymbolNames == symbols
         && (existing.documentationMode == Diagnose) == generateXmlDocumentation {
        return;
      }
      var parseOptions := ParseOptions(languageVersion, [], Parse);
      if symbols != [] {
        parseOptions := parseOptions.(preprocessorSymbolNames := symbols);
      }
      if generateXmlDocumentation {
        parseOptions := parseOptions.(documentationMode := Diagnose);
      }
      workspace := workspace[j := workspace[j].(parseOptions := parseOptions)];
    }

    /**
     * `UpdateProjectReferences`: a listed project that is not tracked but exists and loads is
     * added and enqueued; each project met is referenced once, and the original references not
     * met are removed afterwards.
     */
    method UpdateProjectReferences(j: nat, paths: seq<string>)
      requires j < |workspace|
      modifies this
      ensures State() == UpdatedProjectReferences(env, old(State()), j, paths)
    {
      var original := workspace[j].projectReferences;
      var existing := original;
      var added: set<ProjectId> := {};
      ghost var s0 := State();
      ghost var loaded: seq<ProjectFileInfo> := [];
      assert s0.queue + loaded == s0.queue && s0.workspace + NewWorkspaceProjects(loaded) == s0.workspace;
      for i := 0 to |paths|
        invariant ScanReferences(env, ReferenceScan(s0.projects, [], original, {}), paths, 0)
               == ScanReferences(env, ReferenceScan(projects, loaded, existing, added), paths, i)
        invariant queue == s0.queue + loaded && workspace == s0.workspace + NewWorkspaceProjects(loaded)
        invariant events == s0.events && solutionFileOrRootPath == s0.solutionFileOrRootPath
      {
        var path := paths[i];
        var referenced: Option<ProjectFileInfo> := None;
        if path in projects {
          referenced := Some(projects[path]);
        } else if path in env.files {
          referenced := LoadProject(env, path);
          if referenced.Some? {
            AddProject(referenced.value);
            queue := queue + [referenced.value];
            assert NewWorkspaceProjects(loaded + [referenced.value])
                == NewWorkspaceProjects(loaded) + [NewWorkspaceProject(referenced.value)];
            loaded := loaded + [referenced.value];
          }
        }
        if referenced.Some? {
          var id := referenced.value.id;
          if id in existing {
            existing := existing - {id};
          } else if id !in added {
            added := added + {id};
          }
        }
      }
      workspace := workspace[j := workspace[j].(projectReferences := (original + added) - existing)];
    }

    /**
     * `UpdateReferences`: the metadata references by path ignoring case; a listed file that exists
     * and is not referenced is added once, and the references not listed are removed afterwards.
     */
    method UpdateReferences(j: nat, paths: seq<string>)
      requires j < |workspace|
      modifies this
      ensures workspace == old(workspace[j := workspace[j].(
        metadataReferences := UpdatedMetadataReferences(workspace[j].metadataReferences, paths, env.files))])
      ensures projects == old(projects) && queue == old(queue) && events == old(events)
      ensures solutionFileOrRootPath == old(solutionFileOrRootPath)
    {
      var references := workspace[j].metadataReferences;
      var toRemove, _, added := ScanReferencePaths(references, paths, env.files);
      WithoutKeysConcat(references, added, toRemove);
      WithoutKeysNothing(added, toRemove);
      workspace := workspace[j := workspace[j].(metadataReferences := WithoutKeys(references + added, toRemove))];
    }

    /** `UpdateProject`: a project the workspace does not hold is left alone. */
    method UpdateProject(p: ProjectFileInfo)
      modifies this
      ensures State() == Updated(env, old(State()), p)
    {
      var found := FindProjectIndex(p.id);
      if found.None? {
        return;
      }
      var j := found.value;
      ghost var s0 := State();
      UpdateSourceFiles(j, p.sourceFiles);
      var generateXmlDocumentation := p.documentationFile.Some? && !IsNullOrWhiteSpace(p.documentationFile.value);
      UpdateParseOptions(j, p.languageVersion, p.preprocessorSymbolNames, generateXmlDocumentation);
      ghost var s1 := State();
      UpdateProjectReferences(j, p.projectReferences);
      ghost var s2 := State();
      ProjectReferencesFrame(env, s1, j, p.projectReferences);
      UpdateReferences(j, p.references);
      UpdatedSteps(env, s0, p, j, s1, s2, State());
    }

    /** `CheckForUnresolvedDependences`. */
    method CheckForUnresolvedDependences(p: ProjectFileInfo, allowAutoRestore: bool)
      modifies this
      ensures State() == old(State()).(events := old(events) + DependencyEvents(env, p, allowAutoRestore))
    {
      if p.unresolvedDependencies == [] {
        assert events + [] == events;
        return;
      }
      if allowAutoRestore && env.enablePackageAutoRestore {
        events := events + [RestoreRequested(p.directory, p.filePath, p.unresolvedDependencies)];
      } else {
        events := events + [UnresolvedDependencies(p.filePath, p.unresolvedDependencies)];
      }
    }

    /**
     * `ProcessProjects`: rounds until nothing is queued. Each round dequeues every queued project,
     * adding the unknown ones and replacing the tracked entries of the others, then updates all of
     * them, then checks all of them for unresolved dependencies.
     */
    method ProcessProjects()
      modifies this
      ensures State() == Processed(env, old(State()))
    {
      while queue != []
        invariant Processed(env, State()) == Processed(env, old(State()))
        decreases Untracked(env, projects), |queue|
      {
        ghost var before := State();
        BatchDecreases(env, before);
        var newProjects := DequeueAll();
        assert newProjects == before.queue;
        for i := 0 to |newProjects|
          invariant UpdateAll(env, RegisterAll(before.(queue := []), before.queue, 0), before.queue, 0)
                 == UpdateAll(env, State(), newProjects, i)
        {
          UpdateProject(newProjects[i]);
        }
        for i := 0 to |newProjects|
          invariant Batch(env, before) == CheckAll(env, State(), newProjects, i)
        {
          CheckForUnresolvedDependences(newProjects[i], true);
        }
      }
    }

    /** The inner loop of `ProcessProjects`: the projects dequeued, in order, each one registered. */
    method DequeueAll() returns (newProjects: seq<ProjectFileInfo>)
      modifies this
      ensures newProjects == old(queue)
      ensures State() == RegisterAll(old(State()).(queue := []), old(queue), 0)
    {
      ghost var before := State();
      newProjects := [];
      while queue != []
        invariant newProjects + queue == before.queue
        invariant RegisterAll(before.(queue := []), before.queue, 0)
               == RegisterAll(State().(queue := []), before.queue, |newProjects|)
        decreases |queue|
      {
        assert queue[0] == before.queue[|newProjects|];
        Dequeued(newProjects, queue);
        var project := DequeueOne();
        newProjects := newProjects + [project];
      }
      assert State() == State().(queue := []);
    }

    /** One step of the inner loop: the head of the queue is dequeued and registered. */
    method DequeueOne() returns (project: ProjectFileInfo)
      requires queue != []
      modifies this
      ensures project == old(queue[0]) && queue == old(queue[1..])
      ensures State().(queue := []) == Registered(old(State()).(queue := []), project)
    {
      project := queue[0];
      queue := queue[1..];
      if project.filePath !in projects {
        AddProject(project);
      } else {
        projects := projects[project.filePath := project];
      }
    }

    /**
     * `GetInitialProjectPaths`: `foundSolution` is the solution `FindSolutionFilePath` picks in
     * the target directory, `parseSolution` is `SolutionFile.ParseFile` and `csprojFiles` every
     * `*.csproj` below the directory. The root is recorded before the solution is parsed.
     */
    method GetInitialProjectPaths(solutionFilePath: Option<string>, foundSolution: Option<string>, targetDirectory: string,
                                  parseSolution: string -> Result<seq<SolutionProject>>, csprojFiles: seq<string>,
                                  fullPath: string -> string)
      returns (r: Result<seq<string>>)
      modifies this
      ensures r == InitialProjectPaths(solutionFilePath, foundSolution, targetDirectory, parseSolution, csprojFiles, fullPath)
      ensures State() == old(State()).(solutionFileOrRootPath := Some(InitialRoot(solutionFilePath, foundSolution, targetDirectory)))
    {
      var solution: string;
      if !IsNullOrEmpty(solutionFilePath) {
        solution := solutionFilePath.value;
      } else if !IsNullOrEmpty(foundSolution) {
        solution := foundSolution.value;
      } else {
        solutionFileOrRootPath := Some(targetDirectory);
        return Ok(csprojFiles);
      }
      solutionFileOrRootPath := Some(solution);
      var parsed := parseSolution(solution);
      if parsed.Throws? {
        return Throws(parsed.exception);
      }
      var paths := GetProjectPathsFromSolution(parsed.value, targetDirectory, fullPath);
      return Ok(paths);
    }

    /**
     * `Initalize`: an exception from parsing the solution leaves the system with only the root
     * recorded; otherwise the initial projects that exist and load are enqueued and processed.
     */
    method Initalize(solutionFilePath: Option<string>, foundSolution: Option<string>, targetDirectory: string,
                     parseSolution: string -> Result<seq<SolutionProject>>, csprojFiles: seq<string>,
                     fullPath: string -> string)
      returns (outcome: Outcome)
      modifies this
      ensures var paths := InitialProjectPaths(solutionFilePath, foundSolution, targetDirectory, parseSolution, csprojFiles, fullPath);
        var root := InitialRoot(solutionFilePath, foundSolution, targetDirectory);
        (paths.Throws? ==> outcome == Raised(paths.exception)
                           && State() == old(State()).(solutionFileOrRootPath := Some(root)))
        && (paths.Ok? ==> outcome == Completed && State() == Initialized(env, old(State()), root, paths.value))
    {
      var paths := GetInitialProjectPaths(solutionFilePath, foundSolution, targetDirectory, parseSolution, csprojFiles, fullPath);
      if paths.Throws? {
        return Raised(paths.exception);
      }
      EnqueueInitialProjects(paths.value);
      ProcessProjects();
      return Completed;
    }

    /** The loop of `Initalize`: each initial project that exists and loads is enqueued. */
    method EnqueueInitialProjects(paths: seq<string>)
      modifies this
      ensures State() == old(State()).(queue := old(queue) + InitialQueue(env, paths))
    {
      ghost var q0 := queue;
      assert q0 + InitialQueue(env, paths[..0]) == q0;
      for i := 0 to |paths|
        invariant queue == q0 + InitialQueue(env, paths[..i])
        invariant State() == old(State()).(queue := queue)
      {
        assert paths[..i + 1][..i] == paths[..i];
        var projectPath := paths[i];
        if projectPath !in env.files {
          continue;
        }
        var project := LoadProject(env, projectPath);
        if project.None? {
          continue;
        }
        queue := queue + [project.value];
      }
      assert paths[..|paths|] == paths;
    }

    /**
     * `OnDirectoryFileChanged`: a removal takes the documents at the path out of every project;
     * a created or unspecified change to an existing `.cs` file asks the buffer manager to read it.
     */
    method OnDirectoryFileChanged(path: string, changeType: FileChangeType)
      modifies this
      ensures workspace == if IsRemoval(changeType, path in env.files) then WithoutDocument(old(workspace), path) else old(workspace)
      ensures events == old(events) + if UpdatesBuffer(changeType, path, env.files) then [BufferUpdatedFromDisk(path)] else []
      ensures projects == old(projects) && queue == old(queue) && solutionFileOrRootPath == old(solutionFileOrRootPath)
    {
      if (changeType == Unspecified && path !in env.files) || changeType == Delete {
        RemoveDocuments(path);
      }
      if (changeType == Unspecified || changeType == Create) && EqualsIgnoreCase(GetExtension(path), ".cs") && path in env.files {
        events := events + [BufferUpdatedFromDisk(path)];
      } else {
        assert events + [] == events;
      }
    }

    /** The removal loop of `OnDirectoryFileChanged`: each document at `path` leaves its project. */
    method RemoveDocuments(path: string)
      modifies this
      ensures workspace == WithoutDocument(old(workspace), path)
      ensures projects == old(projects) && queue == old(queue) && events == old(events)
      ensures solutionFileOrRootPath == old(solutionFileOrRootPath)
    {
      ghost var target := WithoutDocument(workspace, path);
      for k := 0 to |workspace|
        invariant |workspace| == |target|
        invariant forall m :: 0 <= m < k ==> workspace[m] == target[m]
        invariant forall m :: k <= m < |workspace| ==> workspace[m] == old(workspace[m])
        invariant projects == old(projects) && queue == old(queue) && events == old(events)
        invariant solutionFileOrRootPath == old(solutionFileOrRootPath)
      {
        workspace := workspace[k := workspace[k].(documents := WithoutPath(workspace[k].documents, path))];
      }
    }

    /**
     * `GetProjectModelAsync`: the information of the project that holds a document at `filePath`,
     * or else of the project file at `filePath`; `None` when that path is not tracked.
     */
    function GetProjectModel(filePath: string): (r: Option<ProjectFileInfo>)
      reads this
      ensures r.Some? ==> r.value in projects.Values
      ensures ProjectOfDocument(workspace, filePath, 0).None? ==>
        r == if filePath in projects then Some(projects[filePath]) else None
      ensures ProjectOfDocument(workspace, filePath, 0).Some? ==>
        var path := ProjectOfDocument(workspace, filePath, 0).value;
        r == if path in projects then Some(projects[path]) else None
    {
      var projectFilePath := match ProjectOfDocument(workspace, filePath, 0)
        case Some(path) => path
        case None => filePath;
      if projectFilePath in projects then Some(projects[projectFilePath]) else None
    }
  }
}
