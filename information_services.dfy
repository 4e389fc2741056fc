// The "Projects" handlers for `/project` and `/projects`: each asks every initialized project
// system for its model and collects the answers in a dictionary keyed by the system's key.
// A project system's model call may itself throw; the exception leaves `Handle` unchanged.
module InformationServices {
  import opened Wrappers

  /** What the handlers read of an `IProjectSystem`: its key and whether it is initialized. */
  datatype ProjectSystem = ProjectSystem(key: string, initialized: bool)

  function Init<T>(s: seq<T>): seq<T> requires s != [] { s[..|s| - 1] }
  function Last<T>(s: seq<T>): T requires s != [] { s[|s| - 1] }

  // ----- the response dictionary -----

  /**
   * What one project system contributes to a response: an entry to add, nothing (a skipped
   * system or a null model), or the exception its model call threw.
   */
  type Step<V> = Result<Option<(string, V)>>

  /** The step adds an entry. */
  predicate Adds<V>(step: Step<V>) { step.Ok? && step.value.Some? }

  function KeyOf<V>(step: Step<V>): string requires Adds(step) { step.value.value.0 }
  function ValueOf<V>(step: Step<V>): V requires Adds(step) { step.value.value.1 }

  /** No step throws. */
  predicate NoneThrows<V>(steps: seq<Step<V>>) {
    forall i :: 0 <= i < |steps| ==> steps[i].Ok?
  }

  /** No key is added twice. */
  predicate AddedKeysDistinct<V>(steps: seq<Step<V>>) {
    forall i, j :: 0 <= i < j < |steps| && Adds(steps[i]) && Adds(steps[j]) ==> KeyOf(steps[i]) != KeyOf(steps[j])
  }

  /**
   * The steps taken in turn, stopping at the first exception: one a model call threw, or the
   * `ArgumentException` of `Dictionary.Add` on a key added twice.
   */
  function AddEach<V>(steps: seq<Step<V>>): (r: Result<map<string, V>>)
  {
    if steps == [] then Ok(map[])
    else
      var acc :- AddEach(Init(steps));
      var entry :- Last(steps);
      if entry.None? then Ok(acc)
      else if entry.value.0 in acc then Throws(ArgumentException)
      else Ok(acc[entry.value.0 := entry.value.1])
  }

  /** Once the first `k` steps have thrown, the remaining steps change nothing: the first exception wins. */
  lemma {:induction false} AddEachPrefixThrows<V>(steps: seq<Step<V>>, k: nat)
    requires k <= |steps| && AddEach(steps[..k]).Throws?
    ensures AddEach(steps) == AddEach(steps[..k])
    decreases |steps|
  {
    if k < |steps| {
      assert Init(steps)[..k] == steps[..k];
      AddEachPrefixThrows(Init(steps), k);
    } else {
      assert steps[..k] == steps;
    }
  }

  /** A built dictionary holds exactly the added keys, each with the value its step added. */
  lemma {:induction false} AddEachHolds<V>(steps: seq<Step<V>>)
    ensures AddEach(steps).Ok? ==> forall k :: k in AddEach(steps).value <==>
      exists i :: 0 <= i < |steps| && Adds(steps[i]) && KeyOf(steps[i]) == k
    ensures AddEach(steps).Ok? ==> forall i :: 0 <= i < |steps| && Adds(steps[i]) ==>
      AddEach(steps).value[KeyOf(steps[i])] == ValueOf(steps[i])
    decreases |steps|
  {
    if steps != [] && AddEach(steps).Ok? {
      var init, last := Init(steps), Last(steps);
      AddEachHolds(init);
      var acc := AddEach(init).value;
      assert forall i :: 0 <= i < |init| ==> init[i] == steps[i];
      var response := AddEach(steps).value;
      assert Adds(last) ==> response == acc[KeyOf(last) := ValueOf(last)];
      assert !Adds(last) ==> response == acc;
      forall i | 0 <= i < |steps| && Adds(steps[i])
        ensures response[KeyOf(steps[i])] == ValueOf(steps[i])
      {
        if i < |init| {
          assert KeyOf(init[i]) in acc;
        }
      }
      forall k
        ensures k in response <==> exists i :: 0 <= i < |steps| && Adds(steps[i]) && KeyOf(steps[i]) == k
      {
        if Adds(last) && k == KeyOf(last) {
          assert Adds(steps[|steps| - 1]) && KeyOf(steps[|steps| - 1]) == k;
        } else if exists i :: 0 <= i < |steps| && Adds(steps[i]) && KeyOf(steps[i]) == k {
          var i :| 0 <= i < |steps| && Adds(steps[i]) && KeyOf(steps[i]) == k;
          assert i < |init| && Adds(init[i]) && KeyOf(init[i]) == k;
        }
      }
    }
  }

  /** The dictionary is built exactly when no step throws and no key is added twice. */
  lemma {:induction false} AddEachSucceedsIff<V>(steps: seq<Step<V>>)
    ensures AddEach(steps).Ok? <==> NoneThrows(steps) && AddedKeysDistinct(steps)
    decreases |steps|
  {
    if steps != [] {
      var init, last := Init(steps), Last(steps);
      AddEachSucceedsIff(init);
      AddEachHolds(init);
      assert forall i :: 0 <= i < |init| ==> init[i] == steps[i];
      if AddEach(init).Ok? && Adds(last) && KeyOf(last) in AddEach(init).value {
        var i :| 0 <= i < |init| && Adds(init[i]) && KeyOf(init[i]) == KeyOf(last);
        assert KeyOf(steps[i]) == KeyOf(steps[|steps| - 1]);
      }
      if AddEach(init).Ok? && last.Throws? {
        assert !steps[|steps| - 1].Ok?;
      }
    }
  }

  /** An exception is the `ArgumentException` of a repeated key or one that a step threw. */
  lemma {:induction false} AddEachExceptions<V>(steps: seq<Step<V>>)
    ensures AddEach(steps).Throws? ==>
      (AddEach(steps).exception == ArgumentException
       || exists i :: 0 <= i < |steps| && steps[i] == Throws(AddEach(steps).exception))
    decreases |steps|
  {
    if steps != [] && AddEach(steps).Throws? {
      var init := Init(steps);
      AddEachExceptions(init);
      assert forall i :: 0 <= i < |init| ==> init[i] == steps[i];
      if AddEach(init).Ok? && Last(steps).Throws? {
        assert steps[|steps| - 1] == Throws(AddEach(steps).exception);
      }
    }
  }

  /** The first step to throw, when the steps before it have built a dictionary, decides the outcome. */
  lemma AddEachFirstThrow<V>(steps: seq<Step<V>>, i: nat)
    requires i < |steps| && steps[i].Throws? && AddEach(steps[..i]).Ok?
    ensures AddEach(steps) == Throws(steps[i].exception)
  {
    var prefix := steps[..i + 1];
    assert prefix != [] && Init(prefix) == steps[..i] && Last(prefix) == steps[i];
    AddEachPrefixThrows(steps, i + 1);
  }

  /** A suffix appended to each of two equal-length strings keeps them apart. */
  lemma SuffixInjective(a: string, b: string, suffix: string)
    requires a + suffix == b + suffix
    ensures a == b
  {
    assert |a| == |b|;
    assert a == (a + suffix)[..|a|];
    assert b == (b + suffix)[..|b|];
  }

  // ----- /project -----

  /** The system is asked for a model and answers with a non-null one. */
  predicate HasProjectModel<Model>(s: ProjectSystem, fileName: Option<string>,
                                   projectModel: (ProjectSystem, Option<string>) -> Result<Option<Model>>)
  {
    s.initialized && projectModel(s, fileName).Ok? && projectModel(s, fileName).value.Some?
  }

  /** What one system contributes to `/project`: nothing if uninitialized or null, else `Key + "Project"`. */
  function ProjectStep<Model>(s: ProjectSystem, fileName: Option<string>,
                              projectModel: (ProjectSystem, Option<string>) -> Result<Option<Model>>)
    : Step<Model>
  {
    if !s.initialized then Ok(None)
    else
      var project :- projectModel(s, fileName);
      if project.None? then Ok(None) else Ok(Some((s.key + "Project", project.value)))
  }

  function ProjectSteps<Model>(systems: seq<ProjectSystem>, fileName: Option<string>,
                               projectModel: (ProjectSystem, Option<string>) -> Result<Option<Model>>)
    : (r: seq<Step<Model>>)
    ensures |r| == |systems| && forall i :: 0 <= i < |systems| ==> r[i] == ProjectStep(systems[i], fileName, projectModel)
  {
    seq(|systems|, i requires 0 <= i < |systems| => ProjectStep(systems[i], fileName, projectModel))
  }

  /** The `/project` response, or the exception `Handle` throws. */
  function ProjectInformation<Request, Model>(request: Option<Request>, fileName: Option<string>,
                                              systems: seq<ProjectSystem>,
                                              projectModel: (ProjectSystem, Option<string>) -> Result<Option<Model>>)
    : (r: Result<map<string, Model>>)
    ensures request.None? ==> r == Throws(ArgumentNullException)
  {
    if request.None? then Throws(ArgumentNullException) else AddEach(ProjectSteps(systems, fileName, projectModel))
  }

  /**
   * `ProjectInformationService.Handle(request)`: the initialized systems are asked in order for the
   * model of the request's file; a null model adds nothing, and an exception is passed on.
   */
  method HandleProjectInformation<Request, Model>(request: Option<Request>, fileName: Option<string>,
                                                  systems: seq<ProjectSystem>,
                                                  projectModel: (ProjectSystem, Option<string>) -> Result<Option<Model>>)
    returns (r: Result<map<string, Model>>)
    ensures r == ProjectInformation(request, fileName, systems, projectModel)
  {
    if request.None? {
      return Throws(ArgumentNullException);
    }
    var response: map<string, Model> := map[];
    var i := 0;
    while i < |systems|
      invariant 0 <= i <= |systems|
      invariant AddEach(ProjectSteps(systems[..i], fileName, projectModel)) == Ok(response)
    {
      var projectSystem := systems[i];
      ghost var steps := ProjectSteps(systems[..i + 1], fileName, projectModel);
      assert steps != [] && Init(steps) == ProjectSteps(systems[..i], fileName, projectModel);
      assert Last(steps) == ProjectStep(projectSystem, fileName, projectModel);
      ghost var all := ProjectSteps(systems, fileName, projectModel);
      assert all[..i + 1] == steps;
      if projectSystem.initialized {
        var project := projectModel(projectSystem, fileName);
        if project.Throws? {
          AddEachPrefixThrows(all, i + 1);
          assert systems[..|systems|] == systems;
          return Throws(project.exception);
        }
        if project.value.Some? {
          var key := projectSystem.key + "Project";
          if key in response {
            AddEachPrefixThrows(all, i + 1);
            assert systems[..|systems|] == systems;
            return Throws(ArgumentException);
          }
          response := response[key := project.value.value];
        }
      }
      i := i + 1;
    }
    assert systems[..i] == systems;
    return Ok(response);
  }

  /** Once the first `k` systems have thrown, with the same exception the whole request throws. */
  lemma ProjectThrowPersists<Request, Model>(request: Request, fileName: Option<string>,
                                             systems: seq<ProjectSystem>, k: nat,
                                             projectModel: (ProjectSystem, Option<string>) -> Result<Option<Model>>)
    requires k <= |systems| && ProjectInformation(Some(request), fileName, systems[..k], projectModel).Throws?
    ensures ProjectInformation(Some(request), fileName, systems, projectModel)
      == ProjectInformation(Some(request), fileName, systems[..k], projectModel)
  {
    assert ProjectSteps(systems, fileName, projectModel)[..k] == ProjectSteps(systems[..k], fileName, projectModel);
    AddEachPrefixThrows(ProjectSteps(systems, fileName, projectModel), k);
  }

  /** The first initialized system whose model call throws passes its exception on unchanged. */
  lemma ProjectModelThrowPropagates<Request, Model>(request: Request, fileName: Option<string>,
                                                    systems: seq<ProjectSystem>, i: nat,
                                                    projectModel: (ProjectSystem, Option<string>) -> Result<Option<Model>>)
    requires i < |systems| && systems[i].initialized && projectModel(systems[i], fileName).Throws?
    requires ProjectInformation(Some(request), fileName, systems[..i], projectModel).Ok?
    ensures ProjectInformation(Some(request), fileName, systems, projectModel) == Throws(projectModel(systems[i], fileName).exception)
  {
    var steps := ProjectSteps(systems, fileName, projectModel);
    assert steps[..i] == ProjectSteps(systems[..i], fileName, projectModel);
    AddEachFirstThrow(steps, i);
  }

  /** A failed `/project` throws for a null request, a repeated key, or a system's own exception. */
  lemma ProjectInformationExceptions<Request, Model>(request: Option<Request>, fileName: Option<string>,
                                                     systems: seq<ProjectSystem>,
                                                     projectModel: (ProjectSystem, Option<string>) -> Result<Option<Model>>)
    ensures var r := ProjectInformation(request, fileName, systems, projectModel);
      r.Throws? ==>
        ((request.None? && r.exception == ArgumentNullException) || r.exception == ArgumentException
         || exists s :: s in systems && s.initialized && projectModel(s, fileName) == Throws(r.exception))
  {
    if request.Some? {
      var steps := ProjectSteps(systems, fileName, projectModel);
      AddEachExceptions(steps);
      var r := AddEach(steps);
      if r.Throws? && r.exception != ArgumentException {
        var i :| 0 <= i < |steps| && steps[i] == Throws(r.exception);
        assert systems[i] in systems;
      }
    }
  }

  /** `/project` answers exactly when no initialized system throws and no two systems with a model share a key. */
  lemma ProjectInformationSucceedsIff<Request, Model>(request: Request, fileName: Option<string>,
                                                      systems: seq<ProjectSystem>,
                                                      projectModel: (ProjectSystem, Option<string>) -> Result<Option<Model>>)
    ensures ProjectInformation(Some(request), fileName, systems, projectModel).Ok? <==>
      (forall s :: s in systems && s.initialized ==> projectModel(s, fileName).Ok?)
      && (forall i, j :: (0 <= i < j < |systems| && HasProjectModel(systems[i], fileName, projectModel)
                          && HasProjectModel(systems[j], fileName, projectModel)) ==> systems[i].key != systems[j].key)
  {
    var steps := ProjectSteps(systems, fileName, projectModel);
    AddEachSucceedsIff(steps);
    assert NoneThrows(steps) <==> forall s :: s in systems && s.initialized ==> projectModel(s, fileName).Ok? by {
      if NoneThrows(steps) {
        forall s | s in systems && s.initialized ensures projectModel(s, fileName).Ok? {
          var i :| 0 <= i < |systems| && systems[i] == s;
          assert steps[i].Ok?;
        }
      }
    }
    forall i, j | 0 <= i < j < |systems| && HasProjectModel(systems[i], fileName, projectModel)
        && HasProjectModel(systems[j], fileName, projectModel) && KeyOf(steps[i]) == KeyOf(steps[j])
      ensures systems[i].key == systems[j].key
    {
      SuffixInjective(systems[i].key, systems[j].key, "Project");
    }
  }

  /** Every initialized system with a model, and no other, has an entry holding its model. */
  lemma ProjectInformationEntries<Request, Model>(request: Request, fileName: Option<string>,
                                                  systems: seq<ProjectSystem>,
                                                  projectModel: (ProjectSystem, Option<string>) -> Result<Option<Model>>)
    requires ProjectInformation(Some(request), fileName, systems, projectModel).Ok?
    ensures var response := ProjectInformation(Some(request), fileName, systems, projectModel).value;
      (forall s :: s in systems && HasProjectModel(s, fileName, projectModel) ==>
        s.key + "Project" in response && response[s.key + "Project"] == projectModel(s, fileName).value.value)
      && (forall k :: k in response ==>
        exists s :: s in systems && HasProjectModel(s, fileName, projectModel) && k == s.key + "Project")
  {
    var steps := ProjectSteps(systems, fileName, projectModel);
    AddEachHolds(steps);
    var response := AddEach(steps).value;
    forall s | s in systems && HasProjectModel(s, fileName, projectModel)
      ensures s.key + "Project" in response && response[s.key + "Project"] == projectModel(s, fileName).value.value
    {
      var i :| 0 <= i < |systems| && systems[i] == s;
      assert Adds(steps[i]) && KeyOf(steps[i]) == s.key + "Project";
    }
    forall k | k in response
      ensures exists s :: s in systems && HasProjectModel(s, fileName, projectModel) && k == s.key + "Project"
    {
      var i :| 0 <= i < |steps| && Adds(steps[i]) && KeyOf(steps[i]) == k;
      assert systems[i] in systems;
    }
  }

  // ----- /projects -----

  /** What one system contributes to `/projects`: nothing if uninitialized, else `Key → model`, null models included. */
  function WorkspaceStep<Request, Model>(s: ProjectSystem, request: Request,
                                         workspaceModel: (ProjectSystem, Request) -> Result<Option<Model>>)
    : Step<Option<Model>>
  {
    if !s.initialized then Ok(None)
    else
      var model :- workspaceModel(s, request);
      Ok(Some((s.key, model)))
  }

  function WorkspaceSteps<Request, Model>(systems: seq<ProjectSystem>, request: Request,
                                          workspaceModel: (ProjectSystem, Request) -> Result<Option<Model>>)
    : (r: seq<Step<Option<Model>>>)
    ensures |r| == |systems| && forall i :: 0 <= i < |systems| ==> r[i] == WorkspaceStep(systems[i], request, workspaceModel)
  {
    seq(|systems|, i requires 0 <= i < |systems| => WorkspaceStep(systems[i], request, workspaceModel))
  }

  /** The `/projects` response, or the exception `Handle` throws. */
  function WorkspaceInformation<Request, Model>(request: Request, systems: seq<ProjectSystem>,
                                                workspaceModel: (ProjectSystem, Request) -> Result<Option<Model>>)
    : Result<map<string, Option<Model>>>
  {
    AddEach(WorkspaceSteps(systems, request, workspaceModel))
  }

  /** `WorkspaceInformationService.Handle(request)`: an exception of a system's model call is passed on. */
  method HandleWorkspaceInformation<Request, Model>(request: Request, systems: seq<ProjectSystem>,
                                                    workspaceModel: (ProjectSystem, Request) -> Result<Option<Model>>)
    returns (r: Result<map<string, Option<Model>>>)
    ensures r == WorkspaceInformation(request, systems, workspaceModel)
  {
    var dictionary: map<string, Option<Model>> := map[];
    var i := 0;
    while i < |systems|
      invariant 0 <= i <= |systems|
      invariant AddEach(WorkspaceSteps(systems[..i], request, workspaceModel)) == Ok(dictionary)
    {
      var projectSystem := systems[i];
      ghost var steps := WorkspaceSteps(systems[..i + 1], request, workspaceModel);
      assert steps != [] && Init(steps) == WorkspaceSteps(systems[..i], request, workspaceModel);
      assert Last(steps) == WorkspaceStep(projectSystem, request, workspaceModel);
      ghost var all := WorkspaceSteps(systems, request, workspaceModel);
      assert all[..i + 1] == steps;
      if projectSystem.initialized {
        var model := workspaceModel(projectSystem, request);
        if model.Throws? {
          AddEachPrefixThrows(all, i + 1);
          assert systems[..|systems|] == systems;
          return Throws(model.exception);
        }
        if projectSystem.key in dictionary {
          AddEachPrefixThrows(all, i + 1);
          assert systems[..|systems|] == systems;
          return Throws(ArgumentException);
        }
        dictionary := dictionary[projectSystem.key := model.value];
      }
      i := i + 1;
    }
    assert systems[..i] == systems;
    return Ok(dictionary);
  }

  /** Once the first `k` systems have thrown, with the same exception the whole request throws. */
  lemma WorkspaceThrowPersists<Request, Model>(request: Request, systems: seq<ProjectSystem>, k: nat,
                                               workspaceModel: (ProjectSystem, Request) -> Result<Option<Model>>)
    requires k <= |systems| && WorkspaceInformation(request, systems[..k], workspaceModel).Throws?
    ensures WorkspaceInformation(request, systems, workspaceModel) == WorkspaceInformation(request, systems[..k], workspaceModel)
  {
    assert WorkspaceSteps(systems, request, workspaceModel)[..k] == WorkspaceSteps(systems[..k], request, workspaceModel);
    AddEachPrefixThrows(WorkspaceSteps(systems, request, workspaceModel), k);
  }

  /** The first initialized system whose model call throws passes its exception on unchanged. */
  lemma WorkspaceModelThrowPropagates<Request, Model>(request: Request, systems: seq<ProjectSystem>, i: nat,
                                                      workspaceModel: (ProjectSystem, Request) -> Result<Option<Model>>)
    requires i < |systems| && systems[i].initialized && workspaceModel(systems[i], request).Throws?
    requires WorkspaceInformation(request, systems[..i], workspaceModel).Ok?
    ensures WorkspaceInformation(request, systems, workspaceModel) == Throws(workspaceModel(systems[i], request).exception)
  {
    var steps := WorkspaceSteps(systems, request, workspaceModel);
    assert steps[..i] == WorkspaceSteps(systems[..i], request, workspaceModel);
    AddEachFirstThrow(steps, i);
  }

  /** A failed `/projects` throws for a repeated key or with a system's own exception. */
  lemma WorkspaceInformationExceptions<Request, Model>(request: Request, systems: seq<ProjectSystem>,
                                                       workspaceModel: (ProjectSystem, Request) -> Result<Option<Model>>)
    ensures var r := WorkspaceInformation(request, systems, workspaceModel);
      r.Throws? ==>
        (r.exception == ArgumentException
         || exists s :: s in systems && s.initialized && workspaceModel(s, request) == Throws(r.exception))
  {
    var steps := WorkspaceSteps(systems, request, workspaceModel);
    AddEachExceptions(steps);
    var r := AddEach(steps);
    if r.Throws? && r.exception != ArgumentException {
      var i :| 0 <= i < |steps| && steps[i] == Throws(r.exception);
      assert systems[i] in systems;
    }
  }

  /** `/projects` answers exactly when no initialized system throws and no two initialized systems share a key. */
  lemma WorkspaceInformationSucceedsIff<Request, Model>(request: Request, systems: seq<ProjectSystem>,
                                                        workspaceModel: (ProjectSystem, Request) -> Result<Option<Model>>)
    ensures WorkspaceInformation(request, systems, workspaceModel).Ok? <==>
      (forall s :: s in systems && s.initialized ==> workspaceModel(s, request).Ok?)
      && (forall i, j :: 0 <= i < j < |systems| && systems[i].initialized && systems[j].initialized
            ==> systems[i].key != systems[j].key)
  {
    var steps := WorkspaceSteps(systems, request, workspaceModel);
    AddEachSucceedsIff(steps);
    assert NoneThrows(steps) <==> forall s :: s in systems && s.initialized ==> workspaceModel(s, request).Ok? by {
      if NoneThrows(steps) {
        forall s | s in systems && s.initialized ensures workspaceModel(s, request).Ok? {
          var i :| 0 <= i < |systems| && systems[i] == s;
          assert steps[i].Ok?;
        }
      }
    }
    if NoneThrows(steps) {
      assert forall i :: 0 <= i < |systems| ==> (Adds(steps[i]) <==> systems[i].initialized);
    }
  }

  /** The keys are exactly the initialized systems' keys, null models included, uninitialized systems absent. */
  lemma WorkspaceInformationEntries<Request, Model>(request: Request, systems: seq<ProjectSystem>,
                                                    workspaceModel: (ProjectSystem, Request) -> Result<Option<Model>>)
    requires WorkspaceInformation(request, systems, workspaceModel).Ok?
    ensures var response := WorkspaceInformation(request, systems, workspaceModel).value;
      (forall s :: s in systems && s.initialized ==>
        (workspaceModel(s, request).Ok? && s.key in response && response[s.key] == workspaceModel(s, request).value))
      && (forall k :: k in response ==> exists s :: s in systems && s.initialized && k == s.key)
  {
    var steps := WorkspaceSteps(systems, request, workspaceModel);
    AddEachHolds(steps);
    AddEachSucceedsIff(steps);
    var response := AddEach(steps).value;
    forall s | s in systems && s.initialized
      ensures workspaceModel(s, request).Ok? && s.key in response && response[s.key] == workspaceModel(s, request).value
    {
      var i :| 0 <= i < |systems| && systems[i] == s;
      assert steps[i].Ok? && Adds(steps[i]) && KeyOf(steps[i]) == s.key;
    }
    forall k | k in response
      ensures exists s :: s in systems && s.initialized && k == s.key
    {
      var i :| 0 <= i < |steps| && Adds(steps[i]) && KeyOf(steps[i]) == k;
      assert systems[i] in systems;
    }
  }

  /**
   * Two initialized systems with one key: `/projects` throws the first model call's exception, else
   * the second's, else `ArgumentException`.
   */
  lemma DuplicateKeyThrows<Request, Model>(request: Request, a: ProjectSystem, b: ProjectSystem,
                                           workspaceModel: (ProjectSystem, Request) -> Result<Option<Model>>)
    requires a.initialized && b.initialized && a.key == b.key
    ensures WorkspaceInformation(request, [a, b], workspaceModel) ==
      if workspaceModel(a, request).Throws? then Throws(workspaceModel(a, request).exception)
      else if workspaceModel(b, request).Throws? then Throws(workspaceModel(b, request).exception)
      else Throws(ArgumentException)
  {
    var steps := WorkspaceSteps([a, b], request, workspaceModel);
    var first := WorkspaceStep(a, request, workspaceModel);
    assert Init(steps) == [first] && Last(steps) == WorkspaceStep(b, request, workspaceModel);
    assert Init([first]) == [] && Last([first]) == first;
    if workspaceModel(a, request).Throws? {
      assert AddEach([first]) == Throws(workspaceModel(a, request).exception);
    } else {
      assert AddEach([first]) == Ok(map[a.key := workspaceModel(a, request).value]);
      if workspaceModel(b, request).Ok? {
        assert Last(steps) == Ok(Some((b.key, workspaceModel(b, request).value)));
      }
    }
  }
}
