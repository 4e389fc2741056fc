// `CakeProjectSystem`: one workspace project per Cake script, created from what the Cake script
// service generates for the script, and kept in step with the usings and references the service
// reports when the script changes.
module CakeProjectSystem {
  import opened Wrappers
  import opened Text
  import opened Paths
  import opened FileWatching

  /** A project id; the source draws a new GUID for each project, the model the next number. */
  type ProjectId = nat

  /** What `ICakeScriptService.Generate` returns for a script: its code, usings, references and host. */
  datatype CakeScript = CakeScript(source: string, usings: Option<seq<string>>, references: seq<string>,
                                   hostAssemblyPath: string, hostTypeName: string)

  /**
   * The machine the system runs on: the files that exist, the script the service generates for
   * each path (a path missing from `scripts` makes `Generate` throw), and the host type names
   * `Type.GetType` resolves from their assembly.
   */
  datatype Environment = Environment(files: set<string>, scripts: map<string, CakeScript>, hostTypes: set<string>)

  /**
   * The compilation options of a Cake project. Every project starts from the same options
   * (a library, unsafe code allowed, the default suppressed diagnostics, the script resolvers);
   * only the usings set on them differ, so the model keeps the usings.
   */
  datatype CompilationOptions = CompilationOptions(usings: seq<string>)

  /** The shared options `CreateCompilationOptions` makes once. */
  const BaseCompilationOptions := CompilationOptions([])

  /** The base options when `usings` is null, else the base options `WithUsings(usings)`. */
  function OptionsFor(usings: Option<seq<string>>): (r: CompilationOptions)
    ensures usings.None? ==> r == BaseCompilationOptions
    ensures usings.Some? ==> r.usings == usings.value
  {
    match usings
    case None => BaseCompilationOptions
    case Some(u) => BaseCompilationOptions.(usings := u)
  }

  /**
   * A Cake project of the workspace. It holds one document, the script, at the project's own
   * file path; its metadata references are file paths.
   */
  datatype CakeProject = CakeProject(id: ProjectId, name: string, filePath: string, assemblyName: string,
                                     compilationOptions: CompilationOptions, metadataReferences: seq<string>)

  /** The system's fields and the Cake projects of the workspace. */
  datatype CakeState = CakeState(initialized: bool, projects: map<string, CakeProject>, workspace: seq<CakeProject>,
                                 nextId: ProjectId)

  // ----- metadata references -----

  /** `GetMetadataReferences`: the references whose files exist, in order. */
  function ExistingReferences(references: seq<string>, files: set<string>): (r: seq<string>)
    ensures forall x :: x in r <==> x in references && x in files
    ensures |r| <= |references|
  {
    if references == [] then []
    else (if references[0] in files then [references[0]] else []) + ExistingReferences(references[1..], files)
  }

  /** Filtering a concatenation filters each part: the order of the references is kept. */
  lemma {:induction false} ExistingReferencesConcat(a: seq<string>, b: seq<string>, files: set<string>)
    ensures ExistingReferences(a + b, files) == ExistingReferences(a, files) + ExistingReferences(b, files)
    decreases |a|
  {
    if a == [] {
      assert a + b == b;
    } else {
      assert (a + b)[0] == a[0] && (a + b)[1..] == a[1..] + b;
      ExistingReferencesConcat(a[1..], b, files);
    }
  }

  /** References whose files all exist are kept as they are. */
  lemma {:induction false} ExistingReferencesAll(references: seq<string>, files: set<string>)
    requires forall k :: 0 <= k < |references| ==> references[k] in files
    ensures ExistingReferences(references, files) == references
    decreases |references|
  {
    if references != [] {
      ExistingReferencesAll(references[1..], files);
    }
  }

  /** The loop of `GetMetadataReferences`. */
  method GetMetadataReferences(references: seq<string>, files: set<string>) returns (r: seq<string>)
    ensures r == ExistingReferences(references, files)
  {
    r := [];
    for i := 0 to |references|
      invariant ExistingReferences(references, files) == r + ExistingReferences(references[i..], files)
    {
      ExistingReferencesStep(references, i, files, r);
      if references[i] !in files {
        continue;
      }
      r := r + [references[i]];
    }
  }

  /** The filter of `references[i..]`: the reference at `i` when its file exists, then the filter of the rest. */
  lemma ExistingReferencesStep(references: seq<string>, i: nat, files: set<string>, r: seq<string>)
    requires i < |references|
    ensures r + ExistingReferences(references[i..], files)
         == (if references[i] in files then r + [references[i]] else r) + ExistingReferences(references[i + 1..], files)
  {
    assert references[i..][1..] == references[i + 1..];
  }

  /** The two hash sets of `ScriptReferencesChanged` and the references added so far. */
  datatype ReferenceScan = ReferenceScan(toRemove: set<string>, toAdd: set<string>, added: seq<string>)

  /**
   * The loop of `ScriptReferencesChanged` over `references[i..]`: a reference still to remove is
   * struck exactly when it is listed, every listed reference not still to remove ends up in the
   * added set, only listed references join the ones added before, and none of them is still to remove.
   */
  function ScanReferences(scan: ReferenceScan, references: seq<string>, i: nat): (r: ReferenceScan)
    ensures r.toRemove <= scan.toRemove && scan.toAdd <= r.toAdd
    ensures i <= |references| ==> forall x :: x in scan.toRemove ==> (x in r.toRemove <==> x !in references[i..])
    ensures i <= |references| ==> forall x :: x in references[i..] && x !in scan.toRemove ==> x in r.toAdd
    ensures forall x :: x in scan.added ==> x in r.added
    ensures forall x :: x in r.toAdd ==> x in scan.toAdd || x in r.added
    ensures i <= |references| ==> forall x :: x in r.added ==> x in scan.added || x in references[i..]
    ensures (forall x :: x in scan.added ==> x !in scan.toRemove) ==> forall x :: x in r.added ==> x !in r.toRemove
    decreases |references| - i
  {
    if i >= |references| then scan
    else
      assert references[i..] == [references[i]] + references[i + 1..];
      if references[i] in scan.toRemove then ScanReferences(scan.(toRemove := scan.toRemove - {references[i]}), references, i + 1)
      else if references[i] in scan.toAdd then ScanReferences(scan, references, i + 1)
      else ScanReferences(ReferenceScan(scan.toRemove, scan.toAdd + {references[i]}, scan.added + [references[i]]), references, i + 1)
  }

  /** A project's metadata references after `ScriptReferencesChanged` with `references`. */
  function ReconciledReferences(current: seq<string>, references: seq<string>): (r: seq<string>)
    ensures forall x :: x in r <==> x in references
  {
    var scan := ScanReferences(ReferenceScan((set x | x in current), {}, []), references, 0);
    Without(current, scan.toRemove) + scan.added
  }

  /** `references[k]` for some `k >= i`. */
  predicate ListedFrom(references: seq<string>, i: nat, x: string) {
    exists k :: i <= k < |references| && references[k] == x
  }

  lemma ListedFromSplit(references: seq<string>, i: nat)
    requires i < |references|
    ensures forall x :: ListedFrom(references, i, x) <==> x == references[i] || ListedFrom(references, i + 1, x)
  {
    forall x | ListedFrom(references, i, x)
      ensures x == references[i] || ListedFrom(references, i + 1, x)
    {
      var k :| i <= k < |references| && references[k] == x;
      if k != i {
        assert ListedFrom(references, i + 1, x);
      }
    }
  }

  predicate Distinct(s: seq<string>) {
    forall a, b :: 0 <= a < b < |s| ==> s[a] != s[b]
  }

  /** The scan adds no reference twice. */
  lemma {:induction false} ScanAddsOnce(scan: ReferenceScan, references: seq<string>, i: nat)
    requires Distinct(scan.added) && forall x :: x in scan.added ==> x in scan.toAdd
    ensures Distinct(ScanReferences(scan, references, i).added)
    ensures forall x :: x in ScanReferences(scan, references, i).added ==> x in ScanReferences(scan, references, i).toAdd
    decreases |references| - i
  {
    if i < |references| {
      var x := references[i];
      if x in scan.toRemove {
        var next := scan.(toRemove := scan.toRemove - {x});
        assert next.added == scan.added && next.toAdd == scan.toAdd;
        ScanAddsOnce(next, references, i + 1);
        assert ScanReferences(scan, references, i) == ScanReferences(next, references, i + 1);
      } else if x in scan.toAdd {
        ScanAddsOnce(scan, references, i + 1);
        assert ScanReferences(scan, references, i) == ScanReferences(scan, references, i + 1);
      } else {
        var next := ReferenceScan(scan.toRemove, scan.toAdd + {x}, scan.added + [x]);
        assert forall a :: 0 <= a < |scan.added| ==> next.added[a] == scan.added[a];
        ScanAddsOnce(next, references, i + 1);
      }
    }
  }

  lemma {:induction false} WithoutDistinct(s: seq<string>, removed: set<string>)
    requires Distinct(s)
    ensures Distinct(Without(s, removed))
    decreases |s|
  {
    if s != [] {
      assert Distinct(s[1..]) by {
        forall a, b | 0 <= a < b < |s[1..]|
          ensures s[1..][a] != s[1..][b]
        {
          assert s[1..][a] == s[a + 1] && s[1..][b] == s[b + 1];
        }
      }
      WithoutDistinct(s[1..], removed);
      var rest := Without(s[1..], removed);
      var head := if s[0] in removed then [] else [s[0]];
      forall a, b | 0 <= a < b < |head + rest|
        ensures (head + rest)[a] != (head + rest)[b]
      {
        if a < |head| {
          assert (head + rest)[b] in rest;
          assert s[0] !in s[1..] by {
            forall k | 0 <= k < |s[1..]|
              ensures s[1..][k] != s[0]
            {
              assert s[1..][k] == s[k + 1];
            }
          }
        } else {
          assert (head + rest)[a] == rest[a - |head|] && (head + rest)[b] == rest[b - |head|];
        }
      }
    }
  }

  /** A project whose references were distinct keeps them distinct when none is listed twice. */
  lemma ReferencesStayDistinct(current: seq<string>, references: seq<string>)
    requires Distinct(current) && Distinct(references)
    ensures Distinct(ReconciledReferences(current, references))
  {
    var init := ReferenceScan((set x | x in current), {}, []);
    var scan := ScanReferences(init, references, 0);
    ScanAddsOnce(init, references, 0);
    WithoutDistinct(current, scan.toRemove);
    var kept := Without(current, scan.toRemove);
    var r := kept + scan.added;
    forall a, b | 0 <= a < b < |r|
      ensures r[a] != r[b]
    {
      if b < |kept| {
        assert r[a] == kept[a] && r[b] == kept[b];
      } else if a >= |kept| {
        assert r[a] == scan.added[a - |kept|] && r[b] == scan.added[b - |kept|];
      } else {
        var x := r[a];
        assert x in kept && x in current && x !in scan.toRemove;
        assert r[b] in scan.added;
        if r[b] == x {
          // A reference the project had and the list names is struck from the set to remove the
          // first time it is met, so the list must name it again for it to be added.
          HeldReferenceNotReAdded(current, references, x);
        }
      }
    }
  }

  /** When the list names each reference once, a reference the project already held is not added again. */
  lemma HeldReferenceNotReAdded(current: seq<string>, references: seq<string>, x: string)
    requires Distinct(references) && x in current
    ensures x !in ScanReferences(ReferenceScan((set y | y in current), {}, []), references, 0).added
  {
    var init := ReferenceScan((set y | y in current), {}, []);
    ScanKeepsHad(init, references, 0, x);
  }

  /** While the list names a reference at most once, a reference still to remove is never added. */
  lemma {:induction false} ScanKeepsHad(scan: ReferenceScan, references: seq<string>, i: nat, x: string)
    requires Distinct(references) && x !in scan.added
    requires x in scan.toRemove || !ListedFrom(references, i, x)
    ensures x !in ScanReferences(scan, references, i).added
    decreases |references| - i
  {
    if i < |references| {
      ListedFromSplit(references, i);
      var y := references[i];
      if y == x {
        assert !ListedFrom(references, i + 1, x) by {
          forall k | i + 1 <= k < |references|
            ensures references[k] != x
          {
            assert references[i] != references[k];
          }
        }
      }
      if y in scan.toRemove {
        ScanKeepsHad(scan.(toRemove := scan.toRemove - {y}), references, i + 1, x);
      } else if y in scan.toAdd {
        ScanKeepsHad(scan, references, i + 1, x);
      } else {
        ScanKeepsHad(ReferenceScan(scan.toRemove, scan.toAdd + {y}, scan.added + [y]), references, i + 1, x);
      }
    }
  }

  // ----- projects -----

  /**
   * `GetProject`: the project for a generated script, named after the script's file name; it
   * throws `FileNotFoundException` when the host assembly is missing and
   * `InvalidOperationException` when the host type does not resolve.
   */
  function ProjectFor(env: Environment, script: CakeScript, filePath: string, id: ProjectId): (r: Result<CakeProject>)
    ensures script.hostAssemblyPath !in env.files ==> r == Throws(FileNotFoundException)
    ensures script.hostAssemblyPath in env.files && script.hostTypeName !in env.hostTypes ==> r == Throws(InvalidOperationException)
    ensures r.Ok? <==> script.hostAssemblyPath in env.files && script.hostTypeName in env.hostTypes
    ensures r.Ok? ==> r.value.id == id && r.value.filePath == filePath && r.value.name == GetFileName(filePath)
    ensures r.Ok? ==> r.value.assemblyName == GetFileName(filePath) + ".dll"
    ensures r.Ok? ==> r.value.compilationOptions == OptionsFor(script.usings)
    ensures r.Ok? ==> r.value.metadataReferences == ExistingReferences(script.references, env.files)
  {
    if script.hostAssemblyPath !in env.files then Throws(FileNotFoundException)
    else if script.hostTypeName !in env.hostTypes then Throws(InvalidOperationException)
    else
      var name := GetFileName(filePath);
      Ok(CakeProject(id, name, filePath, name + ".dll", OptionsFor(script.usings), ExistingReferences(script.references, env.files)))
  }

  /** Whether `AddCakeFile` succeeds for `path`: the script generates and its host resolves. */
  predicate Adds(env: Environment, path: string, id: ProjectId) {
    path in env.scripts && ProjectFor(env, env.scripts[path], path, id).Ok?
  }

  /**
   * `AddCakeFile`: on success a new project holding the script joins the workspace and becomes
   * the tracked entry of the path; any failure is caught and changes nothing.
   */
  function Added(env: Environment, s: CakeState, path: string): (r: CakeState)
    ensures !Adds(env, path, s.nextId) ==> r == s
    ensures Adds(env, path, s.nextId) ==>
      var p := ProjectFor(env, env.scripts[path], path, s.nextId).value;
      r == s.(projects := s.projects[path := p], workspace := s.workspace + [p], nextId := s.nextId + 1)
  {
    if !Adds(env, path, s.nextId) then s
    else
      var p := ProjectFor(env, env.scripts[path], path, s.nextId).value;
      s.(projects := s.projects[path := p], workspace := s.workspace + [p], nextId := s.nextId + 1)
  }

  /** The workspace without the projects with the id. */
  function WithoutProject(workspace: seq<CakeProject>, id: ProjectId): (r: seq<CakeProject>)
    ensures forall p :: p in r <==> p in workspace && p.id != id
    ensures |r| <= |workspace|
  {
    if workspace == [] then []
    else (if workspace[0].id == id then [] else [workspace[0]]) + WithoutProject(workspace[1..], id)
  }

  /** `RemoveCakeFile`: a tracked path's project leaves the workspace and the path is no longer tracked. */
  function Removed(s: CakeState, path: string): (r: CakeState)
    ensures path !in s.projects ==> r == s
    ensures path in s.projects ==>
      r == s.(projects := s.projects - {path}, workspace := WithoutProject(s.workspace, s.projects[path].id))
  {
    if path in s.projects then s.(projects := s.projects - {path}, workspace := WithoutProject(s.workspace, s.projects[path].id))
    else s
  }

  /** Whether a file event adds the script: a creation, or an unspecified change to a file that exists. */
  predicate IsAddition(changeType: FileChangeType, fileExists: bool) {
    (changeType == Unspecified && fileExists) || changeType == Create
  }

  /** `OnCakeFileChanged`: the removal, then the addition, each when the event calls for it. */
  function Changed(env: Environment, s: CakeState, path: string, changeType: FileChangeType): CakeState {
    var removed := if IsRemoval(changeType, path in env.files) then Removed(s, path) else s;
    if IsAddition(changeType, path in env.files) then Added(env, removed, path) else removed
  }

  /** No event both removes and adds a script, and a plain change does neither. */
  lemma ChangeKinds(env: Environment, s: CakeState, path: string, changeType: FileChangeType)
    ensures !(IsRemoval(changeType, path in env.files) && IsAddition(changeType, path in env.files))
    ensures changeType == Change ==> Changed(env, s, path, changeType) == s
    ensures IsRemoval(changeType, path in env.files) ==> Changed(env, s, path, changeType) == Removed(s, path)
    ensures IsAddition(changeType, path in env.files) ==> Changed(env, s, path, changeType) == Added(env, s, path)
  {
  }

  /** `AddCakeFile` for each path in turn, from `paths[i]` on. */
  function AddedAll(env: Environment, s: CakeState, paths: seq<string>, i: nat): CakeState
    decreases |paths| - i
  {
    if i >= |paths| then s else AddedAll(env, Added(env, s, paths[i]), paths, i + 1)
  }

  /**
   * `Initalize`: nothing once initialized, nothing without Cake files or when the script service
   * does not initialize; otherwise every Cake file is added and the system becomes initialized.
   */
  function Initialized(env: Environment, s: CakeState, cakeFiles: seq<string>, serviceInitializes: bool): (r: CakeState)
    ensures r.initialized <==> s.initialized || (cakeFiles != [] && serviceInitializes)
    ensures s.initialized || cakeFiles == [] || !serviceInitializes ==> r == s
  {
    if s.initialized || cakeFiles == [] || !serviceInitializes then s
    else AddedAll(env, s, cakeFiles, 0).(initialized := true)
  }

  lemma {:induction false} AddedAllKeepsInitialized(env: Environment, s: CakeState, paths: seq<string>, i: nat)
    ensures AddedAll(env, s, paths, i).initialized == s.initialized
    decreases |paths| - i
  {
    if i < |paths| {
      AddedAllKeepsInitialized(env, Added(env, s, paths[i]), paths, i + 1);
    }
  }

  /** A second `Initalize` does nothing, whatever the files and the service. */
  lemma InitializeOnce(env: Environment, s: CakeState, cakeFiles: seq<string>, serviceInitializes: bool,
                       laterFiles: seq<string>, laterInitializes: bool)
    requires Initialized(env, s, cakeFiles, serviceInitializes).initialized
    ensures var t := Initialized(env, s, cakeFiles, serviceInitializes);
      Initialized(env, t, laterFiles, laterInitializes) == t
  {
  }

  /** The projects holding a script at `path`, as the workspace finds documents by path (ignoring case). */
  predicate HoldsScript(p: CakeProject, path: string)
    ensures p.filePath == path ==> HoldsScript(p, path)
    ensures HoldsScript(p, path) <==> EqualsIgnoreCase(p.filePath, ToUpper(path))
  {
    assert ToUpper(ToUpper(path)) == ToUpper(path);
    EqualsIgnoreCase(p.filePath, path)
  }

  /** `ScriptUsingsChanged`: each project holding the script gets the options with the usings. */
  function UsingsChanged(s: CakeState, scriptPath: string, usings: Option<seq<string>>): (r: CakeState)
    ensures r.initialized == s.initialized && r.projects == s.projects && r.nextId == s.nextId
    ensures |r.workspace| == |s.workspace|
    ensures forall k :: 0 <= k < |s.workspace| ==>
      r.workspace[k] == (if HoldsScript(s.workspace[k], scriptPath) then s.workspace[k].(compilationOptions := OptionsFor(usings)) else s.workspace[k])
  {
    s.(workspace := seq(|s.workspace|, k requires 0 <= k < |s.workspace| =>
      if HoldsScript(s.workspace[k], scriptPath) then s.workspace[k].(compilationOptions := OptionsFor(usings)) else s.workspace[k]))
  }

  /** Setting the same usings twice is setting them once. */
  lemma UsingsChangedIdempotent(s: CakeState, scriptPath: string, usings: Option<seq<string>>)
    ensures UsingsChanged(UsingsChanged(s, scriptPath, usings), scriptPath, usings) == UsingsChanged(s, scriptPath, usings)
  {
    var t := UsingsChanged(s, scriptPath, usings);
    var u := UsingsChanged(t, scriptPath, usings);
    assert u.workspace == t.workspace;
  }

  /** `ScriptReferencesChanged`: each project holding the script reconciles its references with the existing ones listed. */
  function ReferencesChanged(env: Environment, s: CakeState, scriptPath: string, references: seq<string>): (r: CakeState)
    ensures r.initialized == s.initialized && r.projects == s.projects && r.nextId == s.nextId
    ensures |r.workspace| == |s.workspace|
    ensures forall k :: 0 <= k < |s.workspace| ==>
      r.workspace[k] == (if HoldsScript(s.workspace[k], scriptPath)
                         then s.workspace[k].(metadataReferences := ReconciledReferences(s.workspace[k].metadataReferences,
                                                                                         ExistingReferences(references, env.files)))
                         else s.workspace[k])
  {
    var listed := ExistingReferences(references, env.files);
    s.(workspace := seq(|s.workspace|, k requires 0 <= k < |s.workspace| =>
      if HoldsScript(s.workspace[k], scriptPath)
      then s.workspace[k].(metadataReferences := ReconciledReferences(s.workspace[k].metadataReferences, listed))
      else s.workspace[k]))
  }

  /** After the references change, each project holding the script references exactly the listed files that exist. */
  lemma ReferencesChangedExactly(env: Environment, s: CakeState, scriptPath: string, references: seq<string>)
    ensures var t := ReferencesChanged(env, s, scriptPath, references);
      forall k, x :: 0 <= k < |t.workspace| && HoldsScript(t.workspace[k], scriptPath) ==>
        (x in t.workspace[k].metadataReferences <==> x in references && x in env.files)
  {
  }

  // ----- what every operation keeps -----

  /** The id of a project of the workspace. */
  predicate InWorkspace(workspace: seq<CakeProject>, id: ProjectId) {
    exists k :: 0 <= k < |workspace| && workspace[k].id == id
  }

  /**
   * The ids of the workspace's projects are below the next id, and every tracked path's entry is
   * a project at that path whose id is in the workspace and is no other tracked path's.
   */
  predicate Valid(s: CakeState) {
    (forall k :: 0 <= k < |s.workspace| ==> s.workspace[k].id < s.nextId)
    && (forall path :: path in s.projects ==> s.projects[path].filePath == path && InWorkspace(s.workspace, s.projects[path].id))
    && (forall p, q :: p in s.projects && q in s.projects && p != q ==> s.projects[p].id != s.projects[q].id)
  }

  lemma InitialValid()
    ensures Valid(CakeState(false, map[], [], 0))
  {
  }

  lemma AddedValid(env: Environment, s: CakeState, path: string)
    requires Valid(s)
    ensures Valid(Added(env, s, path))
  {
    if Adds(env, path, s.nextId) {
      var t := Added(env, s, path);
      forall q | q in t.projects
        ensures InWorkspace(t.workspace, t.projects[q].id)
      {
        if q == path {
          assert t.workspace[|s.workspace|].id == t.projects[q].id;
        } else {
          var k :| 0 <= k < |s.workspace| && s.workspace[k].id == s.projects[q].id;
          assert t.workspace[k].id == t.projects[q].id;
        }
      }
      forall q | q in s.projects
        ensures s.projects[q].id < s.nextId
      {
        var k :| 0 <= k < |s.workspace| && s.workspace[k].id == s.projects[q].id;
      }
    }
  }

  lemma RemovedValid(s: CakeState, path: string)
    requires Valid(s)
    ensures Valid(Removed(s, path))
  {
    if path in s.projects {
      var t := Removed(s, path);
      var id := s.projects[path].id;
      forall k | 0 <= k < |t.workspace|
        ensures t.workspace[k].id < t.nextId
      {
        assert t.workspace[k] in t.workspace;
      }
      forall q | q in t.projects
        ensures InWorkspace(t.workspace, t.projects[q].id)
      {
        var k :| 0 <= k < |s.workspace| && s.workspace[k].id == s.projects[q].id;
        assert s.workspace[k] in s.workspace;
        var n :| 0 <= n < |t.workspace| && t.workspace[n] == s.workspace[k];
      }
    }
  }

  lemma ChangedValid(env: Environment, s: CakeState, path: string, changeType: FileChangeType)
    requires Valid(s)
    ensures Valid(Changed(env, s, path, changeType))
  {
    RemovedValid(s, path);
    var removed := if IsRemoval(changeType, path in env.files) then Removed(s, path) else s;
    AddedValid(env, removed, path);
  }

  lemma UsingsChangedValid(s: CakeState, scriptPath: string, usings: Option<seq<string>>)
    requires Valid(s)
    ensures Valid(UsingsChanged(s, scriptPath, usings))
  {
    var t := UsingsChanged(s, scriptPath, usings);
    forall q | q in t.projects
      ensures InWorkspace(t.workspace, t.projects[q].id)
    {
      var k :| 0 <= k < |s.workspace| && s.workspace[k].id == s.projects[q].id;
      assert t.workspace[k].id == s.workspace[k].id;
    }
  }

  lemma ReferencesChangedValid(env: Environment, s: CakeState, scriptPath: string, references: seq<string>)
    requires Valid(s)
    ensures Valid(ReferencesChanged(env, s, scriptPath, references))
  {
    var t := ReferencesChanged(env, s, scriptPath, references);
    forall q | q in t.projects
      ensures InWorkspace(t.workspace, t.projects[q].id)
    {
      var k :| 0 <= k < |s.workspace| && s.workspace[k].id == s.projects[q].id;
      assert t.workspace[k].id == s.workspace[k].id;
    }
  }

  lemma {:induction false} AddedAllValid(env: Environment, s: CakeState, paths: seq<string>, i: nat)
    requires Valid(s)
    ensures Valid(AddedAll(env, s, paths, i))
    decreases |paths| - i
  {
    if i < |paths| {
      AddedValid(env, s, paths[i]);
      AddedAllValid(env, Added(env, s, paths[i]), paths, i + 1);
    }
  }

  lemma InitializedValid(env: Environment, s: CakeState, cakeFiles: seq<string>, serviceInitializes: bool)
    requires Valid(s)
    ensures Valid(Initialized(env, s, cakeFiles, serviceInitializes))
  {
    AddedAllValid(env, s, cakeFiles, 0);
  }

  /**
   * A removed path is no longer tracked and its project is gone from the workspace, while every
   * other tracked path keeps its entry and its project.
   */
  lemma RemovedUntracks(s: CakeState, path: string)
    requires Valid(s) && path in s.projects
    ensures var t := Removed(s, path);
      path !in t.projects && !InWorkspace(t.workspace, s.projects[path].id)
      && (forall q :: q in s.projects && q != path ==>
            q in t.projects && t.projects[q] == s.projects[q] && InWorkspace(t.workspace, s.projects[q].id))
  {
    var id := s.projects[path].id;
    var t := Removed(s, path);
    assert t.projects == s.projects - {path} && t.workspace == WithoutProject(s.workspace, id);
    forall k | 0 <= k < |t.workspace|
      ensures t.workspace[k].id != id
    {
      assert t.workspace[k] in t.workspace;
    }
    forall q | q in s.projects && q != path
      ensures InWorkspace(t.workspace, s.projects[q].id)
    {
      var k :| 0 <= k < |s.workspace| && s.workspace[k].id == s.projects[q].id;
      assert s.workspace[k] in s.workspace && s.projects[q].id != id;
      var n :| 0 <= n < |t.workspace| && t.workspace[n] == s.workspace[k];
    }
  }

  /**
   * Adding a path that is tracked already replaces its entry with the new project, and the
   * project added before stays in the workspace under its id, no longer tracked.
   */
  lemma ReAddKeepsOldProject(env: Environment, s: CakeState, path: string)
    requires Valid(s) && path in s.projects && Adds(env, path, s.nextId)
    ensures var t := Added(env, s, path);
      InWorkspace(t.workspace, s.projects[path].id) && t.projects[path].id != s.projects[path].id
      && |t.workspace| == |s.workspace| + 1
  {
    var t := Added(env, s, path);
    var k :| 0 <= k < |s.workspace| && s.workspace[k].id == s.projects[path].id;
    assert t.workspace[k] == s.workspace[k];
  }

  // ----- the queries -----

  /** The file path of the first project holding a document at `filePath`, else `filePath` itself. */
  function ProjectPathOf(workspace: seq<CakeProject>, filePath: string, i: nat): (r: string)
    ensures (forall k :: i <= k < |workspace| ==> !HoldsScript(workspace[k], filePath)) ==> r == filePath
    ensures r == filePath || exists k :: i <= k < |workspace| && HoldsScript(workspace[k], filePath) && workspace[k].filePath == r
    decreases |workspace| - i
  {
    if i >= |workspace| then filePath
    else if HoldsScript(workspace[i], filePath) then workspace[i].filePath
    else ProjectPathOf(workspace, filePath, i + 1)
  }

  /**
   * `GetProjectModelAsync`: a null path throws `ArgumentNullException`; a path not ending in
   * `.cake` (ignoring case) has no model; otherwise the model of the script when the project
   * holding it, or else the path itself, is tracked.
   */
  function ProjectModel(s: CakeState, filePath: Option<string>): (r: Result<Option<string>>)
    ensures filePath.None? <==> r == Throws(ArgumentNullException)
    ensures filePath.Some? && !EndsWithIgnoreCase(filePath.value, ".cake") ==> r == Ok(None)
    ensures filePath.Some? && EndsWithIgnoreCase(filePath.value, ".cake") ==>
      r == if ProjectPathOf(s.workspace, filePath.value, 0) in s.projects then Ok(Some(filePath.value)) else Ok(None)
  {
    if filePath.None? then Throws(ArgumentNullException)
    else if !EndsWithIgnoreCase(filePath.value, ".cake") then Ok(None)
    else if ProjectPathOf(s.workspace, filePath.value, 0) in s.projects then Ok(Some(filePath.value))
    else Ok(None)
  }

  /**
   * A tracked script has a model when every project holding a document at its path is tracked,
   * as it is when no script was re-added or removed while spelled another way.
   */
  lemma TrackedScriptHasModel(s: CakeState, filePath: string)
    requires filePath in s.projects && EndsWithIgnoreCase(filePath, ".cake")
    requires forall k :: 0 <= k < |s.workspace| && HoldsScript(s.workspace[k], filePath) ==> s.workspace[k].filePath in s.projects
    ensures ProjectModel(s, Some(filePath)) == Ok(Some(filePath))
  {
  }

  /** A script whose removal was reported has no model, once no other project holds it. */
  lemma RemovedScriptHasNoModel(env: Environment, s: CakeState, filePath: string)
    requires Valid(s) && filePath !in env.files
    requires forall k :: 0 <= k < |s.workspace| && HoldsScript(s.workspace[k], filePath) ==> s.workspace[k].filePath == filePath
    ensures ProjectModel(Changed(env, s, filePath, Delete), Some(filePath)).Ok?
    ensures ProjectModel(Changed(env, s, filePath, Delete), Some(filePath)).value.None?
  {
    var t := Changed(env, s, filePath, Delete);
    assert t == Removed(s, filePath);
    forall k | 0 <= k < |t.workspace| && HoldsScript(t.workspace[k], filePath)
      ensures t.workspace[k].filePath == filePath
    {
      assert t.workspace[k] in t.workspace;
    }
  }

  // ----- the project system -----

  /** `CakeProjectSystem`: whether it is initialized, the tracked projects by path, and the workspace. */
  class CakeSystem {
    const env: Environment
    var initialized: bool
    var projects: map<string, CakeProject>
    var workspace: seq<CakeProject>
    var nextId: ProjectId

    function State(): CakeState
      reads this
    {
      CakeState(initialized, projects, workspace, nextId)
    }

    constructor (env: Environment)
      ensures this.env == env && State() == CakeState(false, map[], [], 0)
    {
      this.env := env;
      initialized, projects, workspace, nextId := false, map[], [], 0;
    }

    /** `AddCakeFile`: a failure to generate the script or to create its project is caught. */
    method AddCakeFile(cakeFilePath: string)
      modifies this
      ensures State() == Added(env, old(State()), cakeFilePath)
    {
      if cakeFilePath !in env.scripts {
        return;
      }
      var cakeScript := env.scripts[cakeFilePath];
      var project := ProjectFor(env, cakeScript, cakeFilePath, nextId);
      if project.Throws? {
        return;
      }
      nextId := nextId + 1;
      workspace := workspace + [project.value];
      projects := projects[cakeFilePath := project.value];
    }

    /** `RemoveCakeFile`: `TryRemove` on the tracked projects, then the project leaves the workspace. */
    method RemoveCakeFile(cakeFilePath: string)
      modifies this
      ensures State() == Removed(old(State()), cakeFilePath)
    {
      if cakeFilePath in projects {
        var projectInfo := projects[cakeFilePath];
        projects := projects - {cakeFilePath};
        workspace := WithoutProject(workspace, projectInfo.id);
      }
    }

    /** `OnCakeFileChanged`. */
    method OnCakeFileChanged(filePath: string, changeType: FileChangeType)
      modifies this
      ensures State() == Changed(env, old(State()), filePath, changeType)
    {
      if (changeType == Unspecified && filePath !in env.files) || changeType == Delete {
        RemoveCakeFile(filePath);
      }
      if (changeType == Unspecified && filePath in env.files) || changeType == Create {
        AddCakeFile(filePath);
      }
    }

    /** `Initalize`: `cakeFiles` are the `.cake` files found, `serviceInitializes` what the script service's `Initialize` answers. */
    method Initalize(cakeFiles: seq<string>, serviceInitializes: bool)
      modifies this
      ensures State() == Initialized(env, old(State()), cakeFiles, serviceInitializes)
    {
      if initialized {
        return;
      }
      if |cakeFiles| == 0 {
        return;
      }
      if !serviceInitializes {
        return;
      }
      ghost var s0 := State();
      for i := 0 to |cakeFiles|
        invariant AddedAll(env, s0, cakeFiles, 0) == AddedAll(env, State(), cakeFiles, i)
      {
        AddCakeFile(cakeFiles[i]);
      }
      initialized := true;
    }

    /** `ScriptUsingsChanged`: the options with the usings go to each project holding the script. */
    method ScriptUsingsChanged(scriptPath: string, usings: Option<seq<string>>)
      modifies this
      ensures State() == UsingsChanged(old(State()), scriptPath, usings)
    {
      var compilationOptions := if usings.None? then BaseCompilationOptions else BaseCompilationOptions.(usings := usings.value);
      for k := 0 to |workspace|
        invariant |workspace| == old(|workspace|)
        invariant forall m :: 0 <= m < k ==> workspace[m] == UsingsChanged(old(State()), scriptPath, usings).workspace[m]
        invariant forall m :: k <= m < |workspace| ==> workspace[m] == old(workspace[m])
        invariant initialized == old(initialized) && projects == old(projects) && nextId == old(nextId)
      {
        if HoldsScript(workspace[k], scriptPath) {
          workspace := workspace[k := workspace[k].(compilationOptions := compilationOptions)];
        }
      }
      assert workspace == UsingsChanged(old(State()), scriptPath, usings).workspace;
    }

    /** `ScriptReferencesChanged`: each project holding the script reconciles its metadata references. */
    method ScriptReferencesChanged(scriptPath: string, references: seq<string>)
      modifies this
      ensures State() == ReferencesChanged(env, old(State()), scriptPath, references)
    {
      ghost var target := ReferencesChanged(env, State(), scriptPath, references).workspace;
      for k := 0 to |workspace|
        invariant |workspace| == |target|
        invariant forall m :: 0 <= m < k ==> workspace[m] == target[m]
        invariant forall m :: k <= m < |workspace| ==> workspace[m] == old(workspace[m])
        invariant initialized == old(initialized) && projects == old(projects) && nextId == old(nextId)
      {
        if HoldsScript(workspace[k], scriptPath) {
          var metadataReferences := GetMetadataReferences(references, env.files);
          var reconciled := ReconcileReferences(workspace[k].metadataReferences, metadataReferences);
          workspace := workspace[k := workspace[k].(metadataReferences := reconciled)];
        }
      }
      assert workspace == target;
    }

    /** `GetProjectModelAsync`: the script's path as its context model, when it has one. */
    function GetProjectModel(filePath: Option<string>): (r: Result<Option<string>>)
      reads this
      ensures filePath.None? <==> r.Throws?
      ensures r.Ok? && r.value.Some? ==> r.value == filePath && EndsWithIgnoreCase(filePath.value, ".cake")
    {
      ProjectModel(State(), filePath)
    }

    /** `GetWorkspaceModelAsync`: a context model for each tracked path, in no particular order. */
    function GetWorkspaceModel(): (r: set<string>)
      reads this
      ensures forall path :: path in r <==> path in projects
    {
      projects.Keys
    }
  }

  /**
   * The reconciliation of one project's references: a listed reference still to remove is kept,
   * one added already is skipped, any other is added; the references not met are removed.
   */
  method ReconcileReferences(current: seq<string>, references: seq<string>) returns (r: seq<string>)
    ensures r == ReconciledReferences(current, references)
  {
    var toRemove := set x | x in current;
    var toAdd: set<string> := {};
    var added: seq<string> := [];
    for i := 0 to |references|
      invariant ScanReferences(ReferenceScan((set x | x in current), {}, []), references, 0)
             == ScanReferences(ReferenceScan(toRemove, toAdd, added), references, i)
    {
      var reference := references[i];
      if reference in toRemove {
        toRemove := toRemove - {reference};
        continue;
      }
      if reference in toAdd {
        continue;
      }
      added := added + [reference];
      toAdd := toAdd + {reference};
    }
    r := Without(current, toRemove) + added;
  }
}
