// The HTTP host's endpoint middleware: a routing table from endpoint names to lazily built
// handlers, each with the predicate that picks its language services, and the request
// dispatch that either answers a known endpoint or passes the request on.
module EndpointMiddleware {
  import opened Wrappers
  import opened Text

  const UpdateBuffer := "/updatebuffer"
  const ProjectInformation := "/project"
  const WorkspaceInformation := "/projects"
  const PackageSearch := "/packagesearch"
  const PackageSource := "/packagesource"
  const PackageVersion := "/packageversion"

  /**
   * The predicate handler an endpoint handler selects its services with: a static language
   * ("Projects" or "NuGet"), or the one asking the project systems which language a file has.
   */
  datatype PredicateHandler = StaticLanguage(language: string) | LanguagePredicate

  /** Whether a handler may send the request's buffer to `/updatebuffer` first. */
  datatype UpdateBufferWiring = SharedUpdateBuffer | NoUpdateBuffer

  /** What `EndpointHandler.Factory` is given for an endpoint. */
  datatype EndpointHandler = EndpointHandler(endpointName: string, predicateHandler: PredicateHandler,
                                             updateBuffer: UpdateBufferWiring)

  /** The predicate choice; the `is` patterns compare names exactly. */
  function PredicateFor(endpointName: string): (r: PredicateHandler)
    ensures endpointName in {ProjectInformation, WorkspaceInformation} ==> r == StaticLanguage("Projects")
    ensures endpointName in {PackageSearch, PackageSource, PackageVersion} ==> r == StaticLanguage("NuGet")
    ensures endpointName !in {ProjectInformation, WorkspaceInformation, PackageSearch, PackageSource, PackageVersion}
      ==> r == LanguagePredicate
  {
    if endpointName == ProjectInformation || endpointName == WorkspaceInformation then StaticLanguage("Projects")
    else if endpointName == PackageSearch || endpointName == PackageSource || endpointName == PackageVersion then
      StaticLanguage("NuGet")
    else LanguagePredicate
  }

  /** The body of an endpoint's `Lazy`: its predicate and its update-buffer wiring. */
  function CreateHandler(endpointName: string): (r: EndpointHandler)
    ensures r.endpointName == endpointName && r.predicateHandler == PredicateFor(endpointName)
    ensures r.updateBuffer == NoUpdateBuffer <==> endpointName == UpdateBuffer
  {
    EndpointHandler(endpointName, PredicateFor(endpointName),
                    if endpointName == UpdateBuffer then NoUpdateBuffer else SharedUpdateBuffer)
  }

  // ----- the case-insensitive table -----

  /**
   * `ToDictionary(..., StringComparer.OrdinalIgnoreCase)`: the keys are added one by one, and a
   * key equal to an earlier one ignoring case throws `ArgumentException`.
   */
  function AddKeys(keys: seq<string>, names: seq<string>): (r: Result<seq<string>>)
    requires DistinctIgnoringCase(keys)
    ensures r.Throws? ==> r.exception == ArgumentException
    ensures r.Ok? ==> DistinctIgnoringCase(r.value)
    decreases |names|
  {
    if names == [] then Ok(keys)
    else if ContainsIgnoringCase(keys, names[0]) then Throws(ArgumentException)
    else
      forall i | 0 <= i < |keys|
        ensures !EqualsIgnoreCase(keys[i], names[0])
      {
        assert keys[i] in keys;
      }
      AddKeys(keys + [names[0]], names[1..])
  }

  /** The table is built exactly when no two names are equal ignoring case, and then holds every name. */
  lemma {:induction false} AddKeysSucceeds(keys: seq<string>, names: seq<string>)
    requires DistinctIgnoringCase(keys)
    ensures AddKeys(keys, names).Ok? <==> DistinctIgnoringCase(keys + names)
    ensures AddKeys(keys, names).Ok? ==> AddKeys(keys, names).value == keys + names
    decreases |names|
  {
    if names == [] {
      assert keys + names == keys;
    } else {
      var all := keys + names;
      var next := keys + [names[0]];
      assert all == next + names[1..];
      if ContainsIgnoringCase(keys, names[0]) {
        var y :| y in keys && EqualsIgnoreCase(names[0], y);
        var i :| 0 <= i < |keys| && keys[i] == y;
        assert all[i] == y && all[|keys|] == names[0];
      } else {
        forall i | 0 <= i < |keys|
          ensures !EqualsIgnoreCase(keys[i], names[0])
        {
          assert keys[i] in keys;
        }
        assert DistinctIgnoringCase(next);
        AddKeysSucceeds(next, names[1..]);
        if DistinctIgnoringCase(all) {
          assert DistinctIgnoringCase(next + names[1..]);
        } else {
          assert !DistinctIgnoringCase(next + names[1..]);
        }
      }
    }
  }

  /** The key the table holds for `path`: the first name equal to it ignoring case. */
  function FindKey(names: seq<string>, path: string): (r: Option<string>)
    ensures r.Some? <==> ContainsIgnoringCase(names, path)
    ensures r.Some? ==> r.value in names && EqualsIgnoreCase(path, r.value)
  {
    if names == [] then None
    else if EqualsIgnoreCase(path, names[0]) then Some(names[0])
    else
      var r := FindKey(names[1..], path);
      assert forall y :: y in names[1..] ==> y in names;
      assert forall y :: y in names ==> y == names[0] || y in names[1..];
      r
  }

  /** In a table without case-insensitive duplicates, a path matches one key at most. */
  lemma KeyIsUnique(names: seq<string>, path: string, y: string)
    requires DistinctIgnoringCase(names)
    requires y in names && EqualsIgnoreCase(path, y)
    ensures FindKey(names, path) == Some(y)
  {
    var k := FindKey(names, path).value;
    var i :| 0 <= i < |names| && names[i] == k;
    var j :| 0 <= j < |names| && names[j] == y;
    if i < j {
      assert EqualsIgnoreCase(names[i], names[j]);
    } else if j < i {
      assert EqualsIgnoreCase(names[j], names[i]);
    }
  }

  /**
   * The handler a shared update-buffer wiring resolves to, looked up in the table ignoring case;
   * `KeyNotFoundException` when there is no `/updatebuffer` endpoint.
   */
  function UpdateBufferTarget(names: seq<string>): (r: Result<EndpointHandler>)
    ensures r.Ok? <==> ContainsIgnoringCase(names, UpdateBuffer)
    ensures r.Throws? ==> r.exception == KeyNotFoundException
  {
    match FindKey(names, UpdateBuffer)
    case None => Throws(KeyNotFoundException)
    case Some(key) => Ok(CreateHandler(key))
  }

  /** `/updatebuffer` is wired to no update-buffer handler, so it never calls itself. */
  lemma UpdateBufferNeverCallsItself(names: seq<string>)
    requires DistinctIgnoringCase(names) && UpdateBuffer in names
    ensures UpdateBufferTarget(names) == Ok(CreateHandler(UpdateBuffer))
    ensures UpdateBufferTarget(names).value.updateBuffer == NoUpdateBuffer
  {
    KeyIsUnique(names, UpdateBuffer, UpdateBuffer);
  }

  // ----- the middleware -----

  /** What the middleware hands to a handler: the command as the request spelled it. */
  datatype RequestPacket = RequestPacket(command: string)

  /** `Invoke`'s two ways out: dispatch to a handler and write its response, or call `next`. */
  datatype InvokeOutcome = Dispatched(handler: EndpointHandler, packet: RequestPacket) | PassedToNext

  class Middleware {
    /** The endpoint names of the exported requests, in export order: the table's keys. */
    const endpointNames: seq<string>
    /** The `Lazy` handlers whose value has been created so far, by table key. */
    var handlers: map<string, EndpointHandler>

    predicate Valid()
      reads this
    {
      DistinctIgnoringCase(endpointNames)
      && forall k :: k in handlers ==> k in endpointNames && handlers[k] == CreateHandler(k)
    }

    /** The routing table for names already known to be distinct; no handler is built yet. */
    constructor FromTable(names: seq<string>)
      requires DistinctIgnoringCase(names)
      ensures endpointNames == names && handlers == map[]
      ensures Valid()
    {
      endpointNames := names;
      handlers := map[];
    }

    /** `_endpoints.Contains(path)`: the known-endpoint set compares ignoring case. */
    predicate IsKnownEndpoint(path: string)
      reads this
    {
      ContainsIgnoringCase(endpointNames, path)
    }

    /** `Lazy.Value`: the handler is created on first use only, then returned from the cache. */
    method HandlerValue(key: string) returns (handler: EndpointHandler, created: bool)
      requires Valid() && key in endpointNames
      modifies this
      ensures Valid()
      ensures handler == CreateHandler(key)
      ensures created <==> key !in old(handlers)
      ensures handlers == old(handlers)[key := handler]
    {
      if key in handlers {
        handler := handlers[key];
        created := false;
      } else {
        handler := CreateHandler(key);
        handlers := handlers[key := handler];
        created := true;
      }
    }

    /**
     * `Invoke(httpContext)`: a path with a value that is a known endpoint with a table entry is
     * dispatched to that entry's handler; anything else goes to `next`.
     */
    method Invoke(path: string) returns (outcome: InvokeOutcome)
      requires Valid()
      modifies this
      ensures Valid()
      ensures outcome.Dispatched? <==> path != "" && IsKnownEndpoint(path)
      ensures outcome.Dispatched? ==>
        && outcome.packet == RequestPacket(path)
        && outcome.handler == CreateHandler(FindKey(endpointNames, path).value)
        && handlers == old(handlers)[FindKey(endpointNames, path).value := outcome.handler]
      ensures outcome.PassedToNext? ==> handlers == old(handlers)
    {
      if path != "" {
        if ContainsIgnoringCase(endpointNames, path) {
          var entry := FindKey(endpointNames, path);
          if entry.Some? {
            var handler, _ := HandlerValue(entry.value);
            return Dispatched(handler, RequestPacket(path));
          }
        }
      }
      return PassedToNext;
    }
  }

  /**
   * `new EndpointMiddleware(next, host, loggerFactory)`, for the endpoint names of the host's
   * exported requests: `ArgumentException` when two equal ignoring case.
   */
  method Create(names: seq<string>) returns (r: Result<Middleware>)
    ensures r.Ok? <==> DistinctIgnoringCase(names)
    ensures r.Throws? ==> r.exception == ArgumentException
    ensures r.Ok? ==> fresh(r.value) && r.value.Valid() && r.value.endpointNames == names && r.value.handlers == map[]
  {
    AddKeysSucceeds([], names);
    assert [] + names == names;
    var keys := AddKeys([], names);
    if keys.Throws? {
      return Throws(keys.exception);
    }
    var middleware := new Middleware.FromTable(keys.value);
    return Ok(middleware);
  }
}
