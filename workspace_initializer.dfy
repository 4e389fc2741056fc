// `WorkspaceInitializer.Initialize`: start the project event forwarder, run the workspace options
// providers in ascending `Order`, initialize every enabled project system while isolating the
// ones that throw, and finally mark the workspace initialized.
module WorkspaceInitializer {
  import opened Wrappers

  /** What the loop reads of an `IProjectSystem`. */
  datatype ProjectSystem = ProjectSystem(key: string, enabledByDefault: bool)

  /** An `IWorkspaceOptionsProvider`, identified by its type name, with its `Order`. */
  datatype Provider = Provider(name: string, order: int)

  /** `OmniSharpOptions`: the editor-config switch, and everything else the providers read. */
  datatype OmniSharpOptions<Settings> = OmniSharpOptions(enableEditorConfigSupport: bool, settings: Settings)

  /** The `enabled` value of a project system's configuration section. */
  datatype EnabledSetting = Unset | Value(enabled: bool) | Unconvertible

  /**
   * `GetValue("enabled", defaultValue: EnabledByDefault)`: the default when the value is absent;
   * a value that does not convert to a boolean throws `InvalidOperationException`.
   */
  function EnabledFlag(setting: EnabledSetting, system: ProjectSystem): (r: Result<bool>)
    ensures setting.Unset? ==> r == Ok(system.enabledByDefault)
    ensures setting.Value? ==> r == Ok(setting.enabled)
    ensures setting.Unconvertible? ==> r == Throws(InvalidOperationException)
  {
    match setting
    case Unset => Ok(system.enabledByDefault)
    case Value(enabled) => Ok(enabled)
    case Unconvertible => Throws(InvalidOperationException)
  }

  /** How one provider's turn ended. */
  datatype ProviderOutcome = Applied | Rejected | ProviderThrew

  /** How one project system's turn ended; `Failed(true)` when `Initalize` itself threw. */
  datatype SystemOutcome = InitializeCalled | Disabled | Failed(inInitalize: bool)

  /** The observable steps of initialization, in the order they happen. */
  datatype Event =
    | ForwarderInitialized
    | ProviderRan(provider: Provider, outcome: ProviderOutcome)
    | SystemVisited(system: ProjectSystem, systemOutcome: SystemOutcome)
    | WorkspaceMarkedInitialized

  function Init<T>(s: seq<T>): seq<T> requires s != [] { s[..|s| - 1] }
  function Last<T>(s: seq<T>): T requires s != [] { s[|s| - 1] }

  lemma MultisetOfInitLast<T>(s: seq<T>)
    requires s != []
    ensures multiset(s) == multiset(Init(s)) + multiset{Last(s)}
  {
    assert s == Init(s) + [Last(s)];
  }

  // ----- ordering the providers -----

  predicate Ascending(s: seq<Provider>) {
    forall i, j :: 0 <= i < j < |s| ==> s[i].order <= s[j].order
  }

  /** A provider whose order is at most every other's may lead an ascending sequence. */
  lemma AscendingCons(x: Provider, s: seq<Provider>)
    requires Ascending(s)
    requires forall y :: y in s ==> x.order <= y.order
    ensures Ascending([x] + s)
  {
    forall i, j | 0 <= i < j < |[x] + s|
      ensures ([x] + s)[i].order <= ([x] + s)[j].order
    {
      assert ([x] + s)[j] == s[j - 1];
      if i > 0 { assert ([x] + s)[i] == s[i - 1]; }
    }
  }

  /** `x` inserted before the first provider of a higher order, so after those of the same order. */
  function InsertByOrder(s: seq<Provider>, x: Provider): (r: seq<Provider>)
    requires Ascending(s)
    ensures Ascending(r)
    ensures multiset(r) == multiset(s) + multiset{x}
  {
    if s == [] then [x]
    else if s[0].order <= x.order then
      var rest := InsertByOrder(s[1..], x);
      assert s == [s[0]] + s[1..];
      forall y | y in rest
        ensures s[0].order <= y.order
      {
        assert y in multiset(rest);
        if y != x { assert y in s[1..]; }
      }
      AscendingCons(s[0], rest);
      [s[0]] + rest
    else
      forall y | y in s
        ensures x.order <= y.order
      {
      }
      AscendingCons(x, s);
      [x] + s
  }

  /** `OrderBy(x => x.Order)`: a stable sort on the providers' order. */
  function OrderByOrder(providers: seq<Provider>): (r: seq<Provider>)
    ensures Ascending(r)
    ensures multiset(r) == multiset(providers)
  {
    if providers == [] then []
    else
      MultisetOfInitLast(providers);
      InsertByOrder(OrderByOrder(Init(providers)), Last(providers))
  }

  // ----- one provider, and one project system -----

  /**
   * One provider's turn: `Process` yields new options or throws (`None`); `TryApplyChanges`
   * either accepts them, and they become the workspace's options, or refuses them.
   */
  function ProviderStep<Opt, Settings>(p: Provider, current: Opt, options: OmniSharpOptions<Settings>,
                                       process: (Provider, Opt, OmniSharpOptions<Settings>) -> Option<Opt>,
                                       tryApply: (Provider, Opt) -> bool): (r: (Opt, Event))
    ensures r.1.ProviderRan? && r.1.provider == p
    ensures r.1.outcome == Applied <==> (process(p, current, options).Some? && tryApply(p, process(p, current, options).value))
    ensures r.1.outcome == Applied ==> r.0 == process(p, current, options).value
    ensures r.1.outcome != Applied ==> r.0 == current
  {
    match process(p, current, options)
    case None => (current, ProviderRan(p, ProviderThrew))
    case Some(next) => if tryApply(p, next) then (next, ProviderRan(p, Applied)) else (current, ProviderRan(p, Rejected))
  }

  /** The providers' turns in the given order, each starting from the options the previous one left. */
  function ProvidersRun<Opt, Settings>(ordered: seq<Provider>, start: Opt, options: OmniSharpOptions<Settings>,
                                       process: (Provider, Opt, OmniSharpOptions<Settings>) -> Option<Opt>,
                                       tryApply: (Provider, Opt) -> bool): (r: (Opt, seq<Event>))
    ensures |r.1| == |ordered|
  {
    if ordered == [] then (start, [])
    else
      var before := ProvidersRun(Init(ordered), start, options, process, tryApply);
      var step := ProviderStep(Last(ordered), before.0, options, process, tryApply);
      (step.0, before.1 + [step.1])
  }

  /** Every provider gets its turn, in the given order, whatever the earlier ones did. */
  lemma {:induction false} EveryProviderRuns<Opt, Settings>(ordered: seq<Provider>, start: Opt, options: OmniSharpOptions<Settings>,
                                                             process: (Provider, Opt, OmniSharpOptions<Settings>) -> Option<Opt>,
                                                             tryApply: (Provider, Opt) -> bool)
    ensures var events := ProvidersRun(ordered, start, options, process, tryApply).1;
      forall i :: 0 <= i < |ordered| ==> events[i].ProviderRan? && events[i].provider == ordered[i]
    decreases |ordered|
  {
    if ordered != [] {
      EveryProviderRuns(Init(ordered), start, options, process, tryApply);
    }
  }

  /** A provider that throws or is refused leaves the options as they were for the rest. */
  lemma FailedProviderChangesNothing<Opt, Settings>(p: Provider, rest: seq<Provider>, start: Opt, options: OmniSharpOptions<Settings>,
                                                    process: (Provider, Opt, OmniSharpOptions<Settings>) -> Option<Opt>,
                                                    tryApply: (Provider, Opt) -> bool)
    requires ProviderStep(p, start, options, process, tryApply).1.outcome != Applied
    ensures ProvidersRun([p] + rest, start, options, process, tryApply).0 == ProvidersRun(rest, start, options, process, tryApply).0
    decreases |rest|
  {
    if rest != [] {
      assert Init([p] + rest) == [p] + Init(rest) && Last([p] + rest) == Last(rest);
      FailedProviderChangesNothing(p, Init(rest), start, options, process, tryApply);
    } else {
      assert Init([p]) == [];
    }
  }

  /**
   * One project system's turn: the `enabled` flag is read, and `Initalize` called when it is
   * true. An exception from either is caught; `initalizeThrows` says whether `Initalize` throws.
   */
  function SystemStep(s: ProjectSystem, section: string -> EnabledSetting, initalizeThrows: ProjectSystem -> bool)
    : (r: Event)
    ensures r.SystemVisited? && r.system == s
  {
    match EnabledFlag(section(s.key), s)
    case Throws(_) => SystemVisited(s, Failed(false))
    case Ok(enabled) =>
      if !enabled then SystemVisited(s, Disabled)
      else if initalizeThrows(s) then SystemVisited(s, Failed(true))
      else SystemVisited(s, InitializeCalled)
  }

  /** `Initalize` was called on the system of this event, whether or not it then threw. */
  predicate CalledInitalize(e: Event) {
    e.SystemVisited? && (e.systemOutcome.InitializeCalled? || e.systemOutcome == Failed(true))
  }

  /** `Initalize` is called exactly when the section's flag, or the system's default, says enabled. */
  lemma SystemStepCallsIffEnabled(s: ProjectSystem, section: string -> EnabledSetting, initalizeThrows: ProjectSystem -> bool)
    ensures CalledInitalize(SystemStep(s, section, initalizeThrows)) <==> EnabledFlag(section(s.key), s) == Ok(true)
    ensures section(s.key).Unset? ==> (CalledInitalize(SystemStep(s, section, initalizeThrows)) <==> s.enabledByDefault)
  {
  }

  function SystemsRun(systems: seq<ProjectSystem>, section: string -> EnabledSetting, initalizeThrows: ProjectSystem -> bool)
    : (r: seq<Event>)
    ensures |r| == |systems|
  {
    if systems == [] then [] else SystemsRun(Init(systems), section, initalizeThrows) + [SystemStep(Last(systems), section, initalizeThrows)]
  }

  /** The events of the project systems are their turns, in order. */
  lemma {:induction false} SystemsRunSteps(systems: seq<ProjectSystem>, section: string -> EnabledSetting,
                                           initalizeThrows: ProjectSystem -> bool)
    ensures var events := SystemsRun(systems, section, initalizeThrows);
      forall i :: 0 <= i < |systems| ==> events[i] == SystemStep(systems[i], section, initalizeThrows)
    decreases |systems|
  {
    if systems != [] {
      SystemsRunSteps(Init(systems), section, initalizeThrows);
    }
  }

  /**
   * Each system gets its own turn in order, and `Initalize` is called on exactly the enabled ones:
   * a system that throws does not keep any later system from being initialized.
   */
  lemma {:induction false} FailuresAreIsolated(systems: seq<ProjectSystem>, section: string -> EnabledSetting,
                                               initalizeThrows: ProjectSystem -> bool)
    ensures var events := SystemsRun(systems, section, initalizeThrows);
      forall i :: 0 <= i < |systems| ==> (events[i] == SystemStep(systems[i], section, initalizeThrows)
        && (CalledInitalize(events[i]) <==> EnabledFlag(section(systems[i].key), systems[i]) == Ok(true)))
    decreases |systems|
  {
    if systems != [] {
      FailuresAreIsolated(Init(systems), section, initalizeThrows);
      SystemStepCallsIffEnabled(Last(systems), section, initalizeThrows);
    }
  }

  /** What `Initialize` does, in order. */
  function InitializeTrace<Opt, Settings>(providers: seq<Provider>, start: Opt, options: OmniSharpOptions<Settings>,
                                          process: (Provider, Opt, OmniSharpOptions<Settings>) -> Option<Opt>,
                                          tryApply: (Provider, Opt) -> bool,
                                          systems: seq<ProjectSystem>, section: string -> EnabledSetting,
                                          initalizeThrows: ProjectSystem -> bool): seq<Event>
  {
    [ForwarderInitialized]
    + ProvidersRun(OrderByOrder(providers), start, options, process, tryApply).1
    + SystemsRun(systems, section, initalizeThrows)
    + [WorkspaceMarkedInitialized]
  }

  /** The providers' events are in ascending order of their providers. */
  lemma ProviderEventsAscending<Opt, Settings>(providers: seq<Provider>, start: Opt, options: OmniSharpOptions<Settings>,
                                               process: (Provider, Opt, OmniSharpOptions<Settings>) -> Option<Opt>,
                                               tryApply: (Provider, Opt) -> bool)
    ensures var pe := ProvidersRun(OrderByOrder(providers), start, options, process, tryApply).1;
      |pe| == |providers|
      && (forall i :: 0 <= i < |pe| ==> pe[i].ProviderRan?)
      && (forall i, j :: 0 <= i < j < |pe| ==> pe[i].provider.order <= pe[j].provider.order)
  {
    var ordered := OrderByOrder(providers);
    assert |ordered| == |multiset(ordered)| == |providers|;
    EveryProviderRuns(ordered, start, options, process, tryApply);
  }

  /** Indexing into the four parts of a trace. */
  lemma TraceLayout(pe: seq<Event>, se: seq<Event>)
    ensures var t := [ForwarderInitialized] + pe + se + [WorkspaceMarkedInitialized];
      |t| == 2 + |pe| + |se|
      && t[0] == ForwarderInitialized
      && (forall i :: 1 <= i <= |pe| ==> t[i] == pe[i - 1])
      && (forall i :: |pe| < i <= |pe| + |se| ==> t[i] == se[i - |pe| - 1])
      && t[|t| - 1] == WorkspaceMarkedInitialized
  {
  }

  /** In a trace, the providers' turns come right after the forwarder, in ascending order. */
  lemma TraceProvidersAscending<Opt, Settings>(providers: seq<Provider>, start: Opt, options: OmniSharpOptions<Settings>,
                                               process: (Provider, Opt, OmniSharpOptions<Settings>) -> Option<Opt>,
                                               tryApply: (Provider, Opt) -> bool,
                                               systems: seq<ProjectSystem>, section: string -> EnabledSetting,
                                               initalizeThrows: ProjectSystem -> bool)
    ensures var t := InitializeTrace(providers, start, options, process, tryApply, systems, section, initalizeThrows);
      |t| == 2 + |providers| + |systems|
      && (forall i :: 1 <= i <= |providers| ==> t[i].ProviderRan?)
      && (forall i, j :: 1 <= i < j <= |providers| ==> t[i].provider.order <= t[j].provider.order)
  {
    var pe := ProvidersRun(OrderByOrder(providers), start, options, process, tryApply).1;
    var se := SystemsRun(systems, section, initalizeThrows);
    var t := InitializeTrace(providers, start, options, process, tryApply, systems, section, initalizeThrows);
    ProviderEventsAscending(providers, start, options, process, tryApply);
    TraceLayout(pe, se);
    forall i, j | 1 <= i < j <= |providers|
      ensures t[i].provider.order <= t[j].provider.order
    {
      assert t[i] == pe[i - 1] && t[j] == pe[j - 1];
    }
  }

  /** In a trace, the project systems' turns follow the providers', one per system, in order. */
  lemma TraceSystemsInOrder<Opt, Settings>(providers: seq<Provider>, start: Opt, options: OmniSharpOptions<Settings>,
                                           process: (Provider, Opt, OmniSharpOptions<Settings>) -> Option<Opt>,
                                           tryApply: (Provider, Opt) -> bool,
                                           systems: seq<ProjectSystem>, section: string -> EnabledSetting,
                                           initalizeThrows: ProjectSystem -> bool)
    ensures var t := InitializeTrace(providers, start, options, process, tryApply, systems, section, initalizeThrows);
      var n := |providers|;
      |t| == 2 + n + |systems|
      && t[0] == ForwarderInitialized
      && (forall i :: n < i <= n + |systems| ==> t[i] == SystemStep(systems[i - n - 1], section, initalizeThrows))
      && t[|t| - 1] == WorkspaceMarkedInitialized
  {
    var ordered := OrderByOrder(providers);
    assert |ordered| == |multiset(ordered)| == |providers|;
    var pe := ProvidersRun(ordered, start, options, process, tryApply).1;
    var se := SystemsRun(systems, section, initalizeThrows);
    var t := InitializeTrace(providers, start, options, process, tryApply, systems, section, initalizeThrows);
    var n := |providers|;
    SystemsRunSteps(systems, section, initalizeThrows);
    SystemsAfterProviders(pe, systems, section, initalizeThrows);
  }

  /** The project systems' events, placed after `pe` in a trace. */
  lemma SystemsAfterProviders(pe: seq<Event>, systems: seq<ProjectSystem>, section: string -> EnabledSetting,
                              initalizeThrows: ProjectSystem -> bool)
    requires var se := SystemsRun(systems, section, initalizeThrows);
      forall i :: 0 <= i < |systems| ==> se[i] == SystemStep(systems[i], section, initalizeThrows)
    ensures var t := [ForwarderInitialized] + pe + SystemsRun(systems, section, initalizeThrows) + [WorkspaceMarkedInitialized];
      var n := |pe|;
      |t| == 2 + n + |systems|
      && t[0] == ForwarderInitialized
      && (forall i :: n < i <= n + |systems| ==> t[i] == SystemStep(systems[i - n - 1], section, initalizeThrows))
      && t[|t| - 1] == WorkspaceMarkedInitialized
  {
    var se := SystemsRun(systems, section, initalizeThrows);
    TraceLayout(pe, se);
  }

  /**
   * The forwarder starts before any provider or project system, the providers run in ascending
   * order before the project systems, and the workspace is marked initialized last.
   */
  lemma InitializeOrder<Opt, Settings>(providers: seq<Provider>, start: Opt, options: OmniSharpOptions<Settings>,
                                       process: (Provider, Opt, OmniSharpOptions<Settings>) -> Option<Opt>,
                                       tryApply: (Provider, Opt) -> bool,
                                       systems: seq<ProjectSystem>, section: string -> EnabledSetting,
                                       initalizeThrows: ProjectSystem -> bool)
    ensures var t := InitializeTrace(providers, start, options, process, tryApply, systems, section, initalizeThrows);
      var n := |providers|;
      |t| == 2 + n + |systems|
      && t[0] == ForwarderInitialized
      && (forall i :: 1 <= i <= n ==> t[i].ProviderRan?)
      && (forall i, j :: 1 <= i < j <= n ==> t[i].provider.order <= t[j].provider.order)
      && (forall i :: n < i <= n + |systems| ==> t[i] == SystemStep(systems[i - n - 1], section, initalizeThrows))
      && t[|t| - 1] == WorkspaceMarkedInitialized
  {
    TraceProvidersAscending(providers, start, options, process, tryApply, systems, section, initalizeThrows);
    TraceSystemsInOrder(providers, start, options, process, tryApply, systems, section, initalizeThrows);
  }

  lemma ConcatAssociative(a: seq<Event>, b: seq<Event>, c: seq<Event>, d: seq<Event>, e: seq<Event>)
    ensures a + (b + c + d + e) == a + b + c + d + e
  {
  }

  // ----- the workspace -----

  /** The state `Initialize` changes: the workspace's flags and options, and the record of what ran. */
  class Host<Opt> {
    var forwarderInitialized: bool
    var editorConfigEnabled: bool
    var initialized: bool
    var workspaceOptions: Opt
    var events: seq<Event>

    constructor (workspaceOptions: Opt)
      ensures !forwarderInitialized && !editorConfigEnabled && !initialized
      ensures this.workspaceOptions == workspaceOptions && events == []
    {
      forwarderInitialized := false;
      editorConfigEnabled := false;
      initialized := false;
      this.workspaceOptions := workspaceOptions;
      events := [];
    }

    /** `ProvideWorkspaceOptions`: each provider in ascending `Order`, each failure caught. */
    method ProvideWorkspaceOptions<Settings>(providers: seq<Provider>, options: OmniSharpOptions<Settings>,
                                             process: (Provider, Opt, OmniSharpOptions<Settings>) -> Option<Opt>,
                                             tryApply: (Provider, Opt) -> bool)
      modifies this
      ensures workspaceOptions == ProvidersRun(OrderByOrder(providers), old(workspaceOptions), options, process, tryApply).0
      ensures events == old(events) + ProvidersRun(OrderByOrder(providers), old(workspaceOptions), options, process, tryApply).1
      ensures forwarderInitialized == old(forwarderInitialized) && editorConfigEnabled == old(editorConfigEnabled)
      ensures initialized == old(initialized)
    {
      var ordered := OrderByOrder(providers);
      var i := 0;
      while i < |ordered|
        invariant 0 <= i <= |ordered|
        invariant workspaceOptions == ProvidersRun(ordered[..i], old(workspaceOptions), options, process, tryApply).0
        invariant events == old(events) + ProvidersRun(ordered[..i], old(workspaceOptions), options, process, tryApply).1
        invariant forwarderInitialized == old(forwarderInitialized) && editorConfigEnabled == old(editorConfigEnabled)
        invariant initialized == old(initialized)
      {
        var provider := ordered[i];
        assert ordered[..i + 1] != [] && Init(ordered[..i + 1]) == ordered[..i] && Last(ordered[..i + 1]) == provider;
        ghost var step := ProviderStep(provider, workspaceOptions, options, process, tryApply);
        var outcome;
        match process(provider, workspaceOptions, options) {
          case None =>
            outcome := ProviderThrew;
          case Some(next) =>
            if tryApply(provider, next) {
              workspaceOptions := next;
              outcome := Applied;
            } else {
              outcome := Rejected;
            }
        }
        assert step == (workspaceOptions, ProviderRan(provider, outcome));
        events := events + [ProviderRan(provider, outcome)];
        i := i + 1;
      }
      assert ordered[..i] == ordered;
    }

    /** The `OnChange` subscriptions, in registration order: editor config, then the providers again. */
    method OnOptionsChanged<Settings>(providers: seq<Provider>, options: OmniSharpOptions<Settings>,
                                      process: (Provider, Opt, OmniSharpOptions<Settings>) -> Option<Opt>,
                                      tryApply: (Provider, Opt) -> bool)
      modifies this
      ensures editorConfigEnabled == options.enableEditorConfigSupport
      ensures workspaceOptions == ProvidersRun(OrderByOrder(providers), old(workspaceOptions), options, process, tryApply).0
      ensures events == old(events) + ProvidersRun(OrderByOrder(providers), old(workspaceOptions), options, process, tryApply).1
      ensures forwarderInitialized == old(forwarderInitialized) && initialized == old(initialized)
    {
      editorConfigEnabled := options.enableEditorConfigSupport;
      ProvideWorkspaceOptions(providers, options, process, tryApply);
    }

    /** The project-system loop of `Initialize`: every system in turn, each exception caught. */
    method InitializeProjectSystems(systems: seq<ProjectSystem>, section: string -> EnabledSetting,
                                    initalizeThrows: ProjectSystem -> bool)
      modifies this
      ensures events == old(events) + SystemsRun(systems, section, initalizeThrows)
      ensures workspaceOptions == old(workspaceOptions) && initialized == old(initialized)
      ensures forwarderInitialized == old(forwarderInitialized) && editorConfigEnabled == old(editorConfigEnabled)
    {
      var i := 0;
      while i < |systems|
        invariant 0 <= i <= |systems|
        invariant events == old(events) + SystemsRun(systems[..i], section, initalizeThrows)
        invariant workspaceOptions == old(workspaceOptions) && initialized == old(initialized)
        invariant forwarderInitialized == old(forwarderInitialized) && editorConfigEnabled == old(editorConfigEnabled)
      {
        var projectSystem := systems[i];
        assert systems[..i + 1] != [] && Init(systems[..i + 1]) == systems[..i] && Last(systems[..i + 1]) == projectSystem;
        var outcome;
        match EnabledFlag(section(projectSystem.key), projectSystem) {
          case Throws(_) =>
            outcome := Failed(false);
          case Ok(enabled) =>
            if !enabled {
              outcome := Disabled;
            } else if initalizeThrows(projectSystem) {
              outcome := Failed(true);
            } else {
              outcome := InitializeCalled;
            }
        }
        assert SystemVisited(projectSystem, outcome) == SystemStep(projectSystem, section, initalizeThrows);
        events := events + [SystemVisited(projectSystem, outcome)];
        i := i + 1;
      }
      assert systems[..i] == systems;
    }

    /** `Initialize`: the forwarder, the editor-config flag, the providers, the project systems, then `Initialized`. */
    method Initialize<Settings>(providers: seq<Provider>, options: OmniSharpOptions<Settings>,
                                process: (Provider, Opt, OmniSharpOptions<Settings>) -> Option<Opt>,
                                tryApply: (Provider, Opt) -> bool,
                                systems: seq<ProjectSystem>, section: string -> EnabledSetting,
                                initalizeThrows: ProjectSystem -> bool)
      modifies this
      ensures forwarderInitialized && initialized
      ensures editorConfigEnabled == options.enableEditorConfigSupport
      ensures workspaceOptions == ProvidersRun(OrderByOrder(providers), old(workspaceOptions), options, process, tryApply).0
      ensures events == old(events) + InitializeTrace(providers, old(workspaceOptions), options, process, tryApply,
                                                      systems, section, initalizeThrows)
    {
      ghost var e0 := events;
      ghost var pe := ProvidersRun(OrderByOrder(providers), workspaceOptions, options, process, tryApply).1;
      ghost var se := SystemsRun(systems, section, initalizeThrows);
      forwarderInitialized := true;
      events := events + [ForwarderInitialized];
      editorConfigEnabled := options.enableEditorConfigSupport;
      ProvideWorkspaceOptions(providers, options, process, tryApply);
      assert events == e0 + [ForwarderInitialized] + pe;
      InitializeProjectSystems(systems, section, initalizeThrows);
      assert events == e0 + [ForwarderInitialized] + pe + se;
      initialized := true;
      events := events + [WorkspaceMarkedInitialized];
      ConcatAssociative(e0, [ForwarderInitialized], pe, se, [WorkspaceMarkedInitialized]);
    }
  }
}
