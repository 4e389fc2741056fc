// The base class of the Cake request handlers: each one answers an endpoint by finding the C#
// handler for the same endpoint, translating the Cake request into the generated C# script,
// delegating, and translating the response back.
module CakeRequestHandler {
  import opened Wrappers
  import opened Text

  const CSharp := "C#"

  /** A handler export: its metadata, and the value its `Lazy` produces (`None` for null). */
  datatype HandlerExport<Service> = HandlerExport(endpointName: string, language: string, value: Option<Service>)

  /** `EndpointName`'s outcome: a cached non-empty name, else the attribute's name, else an exception. */
  function EndpointNameOutcome(cache: Option<string>, attributeEndpointName: Option<string>): (r: Result<string>)
    ensures cache.Some? && cache.value != "" ==> r == Ok(cache.value)
    ensures (cache.None? || cache.value == "") && attributeEndpointName.None? ==> r == Throws(InvalidOperationException)
    ensures (cache.None? || cache.value == "") && attributeEndpointName.Some? ==> r == Ok(attributeEndpointName.value)
  {
    if cache.Some? && cache.value != "" then Ok(cache.value)
    else if attributeEndpointName.None? then Throws(InvalidOperationException)
    else Ok(attributeEndpointName.value)
  }

  /** The first export for `endpointName` (ordinal) in C#. */
  function FirstCSharpHandler<Service>(handlers: seq<HandlerExport<Service>>, endpointName: string)
    : (r: Option<HandlerExport<Service>>)
    ensures r.None? <==> forall i :: 0 <= i < |handlers| ==> !(handlers[i].endpointName == endpointName && handlers[i].language == CSharp)
    ensures r.Some? ==> exists i :: (0 <= i < |handlers| && handlers[i] == r.value
      && r.value.endpointName == endpointName && r.value.language == CSharp
      && forall j :: 0 <= j < i ==> !(handlers[j].endpointName == endpointName && handlers[j].language == CSharp))
  {
    if handlers == [] then None
    else if handlers[0].endpointName == endpointName && handlers[0].language == CSharp then Some(handlers[0])
    else
      var r := FirstCSharpHandler(handlers[1..], endpointName);
      assert forall i :: 1 <= i < |handlers| ==> handlers[i] == handlers[1..][i - 1];
      r
  }

  /**
   * The `Service` factory: the endpoint name's exception, or `InvalidOperationException` when
   * `Handlers` is null, no export matches, or the matching export's value is null.
   */
  function ResolveService<Service>(endpointName: Result<string>, handlers: Option<seq<HandlerExport<Service>>>)
    : (r: Result<Service>)
    ensures endpointName.Throws? ==> r == Throws(endpointName.exception)
    ensures r.Throws? ==> r.exception == InvalidOperationException || (endpointName.Throws? && r.exception == endpointName.exception)
    ensures r.Ok? <==> (endpointName.Ok? && handlers.Some?
      && FirstCSharpHandler(handlers.value, endpointName.value).Some?
      && FirstCSharpHandler(handlers.value, endpointName.value).value.value.Some?)
    ensures r.Ok? ==> r.value == FirstCSharpHandler(handlers.value, endpointName.value).value.value.value
  {
    if endpointName.Throws? then Throws(endpointName.exception)
    else if handlers.None? then Throws(InvalidOperationException)
    else match FirstCSharpHandler(handlers.value, endpointName.value)
      case None => Throws(InvalidOperationException)
      case Some(handler) => if handler.value.None? then Throws(InvalidOperationException) else Ok(handler.value.value)
  }

  /**
   * The overridable hooks of `Handle`. The two translations are awaited and may throw: the base
   * class's `Request.TranslateAsync` reads the workspace, and derived handlers translate responses.
   */
  datatype Hooks<!Request, !Response> = Hooks(
    isValid: Request -> bool,
    translateRequest: Request -> Result<Request>,
    translateResponse: (Response, Request) -> Result<Response>)

  /**
   * The base class's hooks: every request is valid; a `Request` is translated in place against the
   * workspace (`translateInPlace`, which yields the same object or its exception), any other request
   * passes unchanged; the response passes unchanged.
   */
  function DefaultHooks<Request(!new), Response(!new)>(isRequest: Request -> bool, translateInPlace: Request -> Result<Request>)
    : (h: Hooks<Request, Response>)
    ensures forall req :: h.isValid(req)
    ensures forall resp, req :: h.translateResponse(resp, req) == Ok(resp)
    ensures forall req :: !isRequest(req) ==> h.translateRequest(req) == Ok(req)
    ensures forall req :: isRequest(req) ==> h.translateRequest(req) == translateInPlace(req)
  {
    Hooks(_ => true, req => if isRequest(req) then translateInPlace(req) else Ok(req), (resp, _) => Ok(resp))
  }

  /** The steps of `Handle`, in the order they may happen. */
  datatype Step = ResolveServiceStep | TranslateRequestStep | ValidateStep | DelegateStep | TranslateResponseStep

  const AllSteps: seq<Step> := [ResolveServiceStep, TranslateRequestStep, ValidateStep, DelegateStep, TranslateResponseStep]

  /** A run of `Handle`: its outcome and the steps it took. */
  datatype HandleRun<Response> = HandleRun(result: Result<Response>, steps: seq<Step>)

  /**
   * `Handle(request)` once the service is resolved: translate, validate, delegate to the C#
   * handler (`serve`), translate back. A failing step ends the run with its exception.
   */
  function Pipeline<Service, Request, Response>(service: Result<Service>, request: Request,
                                                hooks: Hooks<Request, Response>,
                                                serve: (Service, Request) -> Result<Response>)
    : (run: HandleRun<Response>)
    ensures service.Throws? ==> run == HandleRun(Throws(service.exception), [ResolveServiceStep])
    ensures service.Ok? && hooks.translateRequest(request).Throws? ==>
      run == HandleRun(Throws(hooks.translateRequest(request).exception), AllSteps[..2])
    ensures service.Ok? && hooks.translateRequest(request).Ok? && !hooks.isValid(hooks.translateRequest(request).value) ==>
      run == HandleRun(Throws(InvalidOperationException), AllSteps[..3])
    ensures service.Ok? && hooks.translateRequest(request).Ok? && hooks.isValid(hooks.translateRequest(request).value) ==>
      var translated := hooks.translateRequest(request).value;
      match serve(service.value, translated)
      case Throws(e) => run == HandleRun(Throws(e), AllSteps[..4])
      case Ok(response) => run == HandleRun(hooks.translateResponse(response, translated), AllSteps)
  {
    if service.Throws? then HandleRun(Throws(service.exception), [ResolveServiceStep])
    else match hooks.translateRequest(request)
      case Throws(e) => HandleRun(Throws(e), AllSteps[..2])
      case Ok(translated) =>
        if !hooks.isValid(translated) then HandleRun(Throws(InvalidOperationException), AllSteps[..3])
        else match serve(service.value, translated)
          case Throws(e) => HandleRun(Throws(e), AllSteps[..4])
          case Ok(response) => HandleRun(hooks.translateResponse(response, translated), AllSteps)
  }

  /**
   * Every run takes a prefix of the fixed order, delegates only a translated request that is
   * valid, and succeeds only when every step, the translation back included, succeeded.
   */
  lemma PipelineOrder<Service, Request, Response>(service: Result<Service>, request: Request,
                                                  hooks: Hooks<Request, Response>,
                                                  serve: (Service, Request) -> Result<Response>)
    ensures var run := Pipeline(service, request, hooks, serve);
      0 < |run.steps| <= |AllSteps| && run.steps == AllSteps[..|run.steps|]
      && (DelegateStep in run.steps <==>
            service.Ok? && hooks.translateRequest(request).Ok? && hooks.isValid(hooks.translateRequest(request).value))
      && (run.result.Ok? ==> run.steps == AllSteps)
  {
    assert AllSteps[..5] == AllSteps;
    assert AllSteps[..2] == [ResolveServiceStep, TranslateRequestStep];
    assert AllSteps[..3] == [ResolveServiceStep, TranslateRequestStep, ValidateStep];
    assert AllSteps[..4][3] == DelegateStep;
  }

  /**
   * With the base hooks the C# handler's outcome is returned as is: its answer or its exception,
   * or the exception of translating the request in place.
   */
  lemma DefaultHooksPassResponse<Service, Request(!new), Response(!new)>(service: Service, request: Request,
                                                             isRequest: Request -> bool,
                                                             translateInPlace: Request -> Result<Request>,
                                                             serve: (Service, Request) -> Result<Response>)
    ensures var translated := DefaultHooks<Request, Response>(isRequest, translateInPlace).translateRequest(request);
      Pipeline(Ok(service), request, DefaultHooks(isRequest, translateInPlace), serve).result
      == (if translated.Throws? then Throws(translated.exception) else serve(service, translated.value))
  {
  }

  /**
   * The endpoint name cached after `EndpointName` reads it: a non-empty cached name stays, and
   * reading again from the new cache gives the same outcome.
   */
  function CachedEndpointName(cache: Option<string>, attributeEndpointName: Option<string>): (r: Option<string>)
    ensures cache.Some? && cache.value != "" ==> r == cache
    ensures EndpointNameOutcome(r, attributeEndpointName) == EndpointNameOutcome(cache, attributeEndpointName)
  {
    var outcome := EndpointNameOutcome(cache, attributeEndpointName);
    if outcome.Ok? then Some(outcome.value) else cache
  }

  /**
   * The cache after the `Service` factory runs: `FirstOrDefault` reads `EndpointName` only when
   * there is an export to test it against.
   */
  function ResolvedCache<Service>(cache: Option<string>, attributeEndpointName: Option<string>,
                                  handlers: Option<seq<HandlerExport<Service>>>): Option<string>
  {
    if handlers.None? || handlers.value == [] then cache else CachedEndpointName(cache, attributeEndpointName)
  }

  /** A Cake request handler: its cached endpoint name, its imports and its `Service` `Lazy`. */
  class CakeHandler<Service> {
    /** The `OmniSharpHandler` attribute's endpoint name; `None` when the attribute is missing. */
    const attributeEndpointName: Option<string>
    var endpointNameCache: Option<string>
    var handlers: Option<seq<HandlerExport<Service>>>
    /** The `Service` `Lazy`: `None` before its first use, then the value or exception it produced. */
    var service: Option<Result<Service>>

    constructor(attributeEndpointName: Option<string>, handlers: Option<seq<HandlerExport<Service>>>)
      ensures this.attributeEndpointName == attributeEndpointName && this.handlers == handlers
      ensures endpointNameCache.None? && service.None?
    {
      this.attributeEndpointName := attributeEndpointName;
      this.handlers := handlers;
      endpointNameCache := None;
      service := None;
    }

    /** `EndpointName`: read from the attribute while no non-empty name is cached, then cached. */
    method EndpointName() returns (r: Result<string>)
      modifies this
      ensures r == EndpointNameOutcome(old(endpointNameCache), attributeEndpointName)
      ensures endpointNameCache == CachedEndpointName(old(endpointNameCache), attributeEndpointName)
      ensures handlers == old(handlers) && service == old(service)
    {
      if endpointNameCache.None? || endpointNameCache.value == "" {
        if attributeEndpointName.None? {
          return Throws(InvalidOperationException);
        }
        endpointNameCache := attributeEndpointName;
      }
      return Ok(endpointNameCache.value);
    }

    /**
     * `Service.Value`: the factory runs on first use only; its value or exception is kept. With no
     * export to test, the factory throws without reading `EndpointName`; otherwise it reads it once,
     * since a second read answers from the cache with the same outcome.
     */
    method ServiceValue() returns (r: Result<Service>)
      modifies this
      ensures old(service).Some? ==> r == old(service).value && endpointNameCache == old(endpointNameCache)
      ensures old(service).None? ==>
        r == ResolveService(EndpointNameOutcome(old(endpointNameCache), attributeEndpointName), handlers)
      ensures old(service).None? ==>
        endpointNameCache == ResolvedCache(old(endpointNameCache), attributeEndpointName, handlers)
      ensures service == Some(r) && handlers == old(handlers)
    {
      if service.Some? {
        return service.value;
      }
      if handlers.None? || handlers.value == [] {
        r := Throws(InvalidOperationException);
      } else {
        var name := EndpointName();
        r := ResolveService(name, handlers);
      }
      service := Some(r);
    }

    /**
     * `Handle(request)`: resolve the service, then run the pipeline with the handler's hooks. The
     * null check that would throw `NotSupportedException` never fires: the factory throws instead.
     */
    method Handle<Request, Response>(request: Request, hooks: Hooks<Request, Response>,
                                     serve: (Service, Request) -> Result<Response>)
      returns (run: HandleRun<Response>)
      modifies this
      ensures service.Some? && run == Pipeline(service.value, request, hooks, serve)
      ensures old(service).Some? ==> service == old(service) && endpointNameCache == old(endpointNameCache)
      ensures old(service).None? ==>
        service == Some(ResolveService(EndpointNameOutcome(old(endpointNameCache), attributeEndpointName), handlers))
        && endpointNameCache == ResolvedCache(old(endpointNameCache), attributeEndpointName, handlers)
      ensures handlers == old(handlers)
    {
      var resolved := ServiceValue();
      if resolved.Throws? {
        return HandleRun(Throws(resolved.exception), [ResolveServiceStep]);
      }
      var translation := hooks.translateRequest(request);
      if translation.Throws? {
        return HandleRun(Throws(translation.exception), AllSteps[..2]);
      }
      var translated := translation.value;
      if !hooks.isValid(translated) {
        return HandleRun(Throws(InvalidOperationException), AllSteps[..3]);
      }
      var response := serve(resolved.value, translated);
      if response.Throws? {
        return HandleRun(Throws(response.exception), AllSteps[..4]);
      }
      return HandleRun(hooks.translateResponse(response.value, translated), AllSteps);
    }
  }
}
