// `CsharpDiagnosticWorkerComposer`: holds one of the two diagnostic workers, chosen by the
// `EnableAnalyzersSupport` option, swaps it when the option changes, and forwards every query to it.
module DiagnosticWorkerComposer {
  import opened Wrappers

  /** The two worker classes: `CSharpDiagnosticWorker` and `CSharpDiagnosticWorkerWithAnalyzers`. */
  datatype WorkerKind = Plain | WithAnalyzers

  /** The queries of `ICsDiagnosticWorker`, with their arguments left abstract where they are Roslyn objects. */
  datatype Query =
    | GetAllDiagnostics
    | GetDiagnostics(documentPaths: seq<string>)
    | QueueDocuments
    | QueueProjects(projectIds: seq<int>)
    | AnalyzeDocument(document: int)
    | AnalyzeProject(project: int)

  /** A worker: its class, whether that class is `IDisposable`, and what has been asked of it. */
  class Worker {
    const kind: WorkerKind
    const disposable: bool
    var disposed: bool
    var received: seq<Query>

    constructor (kind: WorkerKind, disposable: bool)
      ensures this.kind == kind && this.disposable == disposable
      ensures !disposed && received == []
    {
      this.kind := kind;
      this.disposable := disposable;
      disposed := false;
      received := [];
    }
  }

  /** The worker kind the option asks for. */
  function Wanted(enableAnalyzersSupport: bool): (r: WorkerKind)
    ensures r == WithAnalyzers <==> enableAnalyzersSupport
  {
    if enableAnalyzersSupport then WithAnalyzers else Plain
  }

  /** What one `UpdateImplementation` call decides, from the current worker's kind (`None` before the first). */
  datatype Decision = Decision(replace: bool, queueAll: bool)

  /**
   * The two branches of `UpdateImplementation`: the analyzer worker is created on the first run
   * or over a plain one; the plain worker on the first run or over an analyzer one, and then,
   * unless it is the first run, all documents are queued again.
   */
  function Decide(current: Option<WorkerKind>, enableAnalyzersSupport: bool): (r: Decision)
    ensures r.replace <==> current != Some(Wanted(enableAnalyzersSupport))
    ensures r.queueAll <==> current == Some(WithAnalyzers) && !enableAnalyzersSupport
  {
    var firstRun := current.None?;
    assert current.Some? ==> current.value == Plain || current.value == WithAnalyzers;
    if enableAnalyzersSupport && (firstRun || current == Some(Plain)) then Decision(true, false)
    else if !enableAnalyzersSupport && (firstRun || current == Some(WithAnalyzers)) then Decision(true, !firstRun)
    else Decision(false, false)
  }

  /** The kind held after a decision. */
  function After(current: Option<WorkerKind>, enableAnalyzersSupport: bool): WorkerKind
    requires current.Some? || Decide(current, enableAnalyzersSupport).replace
  {
    if Decide(current, enableAnalyzersSupport).replace then Wanted(enableAnalyzersSupport) else current.value
  }

  /** After any update, the worker is of the kind the option asks for; the throw for a null worker never fires. */
  lemma UpdateFollowsOption(current: Option<WorkerKind>, enableAnalyzersSupport: bool)
    ensures current.Some? || Decide(current, enableAnalyzersSupport).replace
    ensures After(current, enableAnalyzersSupport) == Wanted(enableAnalyzersSupport)
  {
  }

  /** A second update with the same option changes nothing: the machine has one state per option value. */
  lemma UpdateIsIdempotent(current: Option<WorkerKind>, enableAnalyzersSupport: bool)
    ensures !Decide(Some(Wanted(enableAnalyzersSupport)), enableAnalyzersSupport).replace
    ensures !Decide(Some(Wanted(enableAnalyzersSupport)), enableAnalyzersSupport).queueAll
  {
  }

  /** The first run never queues documents, and neither does a switch to the analyzer worker. */
  lemma QueueOnlyWhenSwitchingToPlain(current: Option<WorkerKind>, enableAnalyzersSupport: bool)
    ensures Decide(None, enableAnalyzersSupport).replace && !Decide(None, enableAnalyzersSupport).queueAll
    ensures enableAnalyzersSupport ==> !Decide(current, enableAnalyzersSupport).queueAll
    ensures Decide(current, enableAnalyzersSupport).queueAll ==> Decide(current, enableAnalyzersSupport).replace
  {
  }

  class Composer {
    /** Whether each worker class implements `IDisposable`. */
    const disposableKind: WorkerKind -> bool
    /** `_implementation`; `null` only while the constructor runs. */
    var implementation: Worker?
    /** The `OnChange` subscription: taken by the constructor, released by `Dispose`. */
    var subscribed: bool
    var disposedSubscription: bool

    /** The kind of the current worker, `None` before the first update. */
    function CurrentKind(): Option<WorkerKind>
      reads this, implementation
    {
      if implementation == null then None else Some(implementation.kind)
    }

    /**
     * The body of the constructor after its null check: subscribe to option changes, then run
     * the update once.
     */
    constructor (enableAnalyzersSupport: bool, disposableKind: WorkerKind -> bool)
      ensures this.disposableKind == disposableKind
      ensures implementation != null && fresh(implementation)
      ensures implementation.kind == Wanted(enableAnalyzersSupport)
      ensures implementation.disposable == disposableKind(implementation.kind)
      ensures implementation.received == [] && !implementation.disposed
      ensures subscribed && !disposedSubscription
    {
      this.disposableKind := disposableKind;
      subscribed := true;
      disposedSubscription := false;
      implementation := null;
      new;
      UpdateImplementation(enableAnalyzersSupport);
    }

    /**
     * `UpdateImplementation(options)`: a new worker of the wanted kind replaces none or one of the
     * other kind, the replaced one is disposed when it is `IDisposable`, and switching back to the
     * plain worker after the first run queues every document on it.
     */
    method UpdateImplementation(enableAnalyzersSupport: bool)
      modifies this, implementation
      ensures implementation != null && implementation.kind == Wanted(enableAnalyzersSupport)
      ensures var decision := Decide(old(CurrentKind()), enableAnalyzersSupport);
        (decision.replace ==>
          fresh(implementation)
          && implementation.disposable == disposableKind(implementation.kind)
          && !implementation.disposed
          && implementation.received == (if decision.queueAll then [QueueDocuments] else []))
        && (!decision.replace ==> implementation == old(implementation) && unchanged(implementation))
      ensures old(implementation) != null && implementation != old(implementation) ==>
        old(implementation).disposed == (old(implementation.disposed) || old(implementation).disposable)
        && old(implementation).received == old(implementation.received)
      ensures subscribed == old(subscribed) && disposedSubscription == old(disposedSubscription)
    {
      var firstRun := implementation == null;
      if enableAnalyzersSupport && (firstRun || implementation.kind == Plain) {
        var previous := implementation;
        implementation := new Worker(WithAnalyzers, disposableKind(WithAnalyzers));
        if previous != null && previous.disposable {
          previous.disposed := true;
        }
      } else if !enableAnalyzersSupport && (firstRun || implementation.kind == WithAnalyzers) {
        var previous := implementation;
        implementation := new Worker(Plain, disposableKind(Plain));
        if previous != null && previous.disposable {
          previous.disposed := true;
        }
        if !firstRun {
          implementation.received := implementation.received + [QueueDocuments];
        }
      }
      if implementation == null {
        assert false;
      }
    }

    /** Every query goes to the current worker, and to nothing else. */
    method Forward(query: Query)
      requires implementation != null
      modifies implementation
      ensures implementation.received == old(implementation.received) + [query]
      ensures implementation.disposed == old(implementation.disposed)
    {
      implementation.received := implementation.received + [query];
    }

    /** `Dispose()`: the current worker when it is `IDisposable`, then the subscription. */
    method Dispose()
      requires implementation != null
      modifies this, implementation
      ensures implementation == old(implementation)
      ensures implementation.disposed == (old(implementation.disposed) || implementation.disposable)
      ensures implementation.received == old(implementation.received)
      ensures disposedSubscription && subscribed == old(subscribed)
    {
      if implementation.disposable {
        implementation.disposed := true;
      }
      disposedSubscription := true;
    }
  }

  /** The constructor with its argument check: null options throw `ArgumentNullException` before anything else. */
  method NewComposer(options: Option<bool>, disposableKind: WorkerKind -> bool) returns (r: Result<Composer>)
    ensures options.None? ==> r == Throws(ArgumentNullException)
    ensures options.Some? ==> (r.Ok? && fresh(r.value) && r.value.implementation != null
      && r.value.implementation.kind == Wanted(options.value) && r.value.implementation.received == [])
  {
    if options.None? {
      return Throws(ArgumentNullException);
    }
    var composer := new Composer(options.value, disposableKind);
    return Ok(composer);
  }
}
