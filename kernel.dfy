/**
 * The JSON-RPC kernel: `handle` turns the router's outcome into a response
 * (reporting, then rendering, whatever was thrown), and `terminate` runs the
 * terminate hooks of the matched route's middleware, then the application's.
 */
module Kernel {
  import opened Wrappers
  import opened Text
  import opened Exceptions
  import opened Routes
  import opened Server
  import opened ExceptionHandler

  /** An entry of a route's middleware list: a string `name:p1,p2`, or anything else (a closure, say). */
  datatype MiddlewareEntry = Named(definition: string) | Unnamed

  /** A `terminate` call the kernel makes. */
  datatype Hook = MiddlewareTerminated(name: string) | ApplicationTerminated

  /** What the kernel asks of the application container. */
  datatype Application = Application(
    skipsMiddleware: bool,   // `shouldSkipMiddleware()`
    terminable: set<string>, // names whose `make($name)` instance has a `terminate` method
    hasTerminate: bool)      // `method_exists($app, 'terminate')`

  /** The router's `gatherRouteMiddleware($route)`. */
  datatype Router = Router(gatherRouteMiddleware: Route -> seq<MiddlewareEntry>)

  /** How `$this->router->dispatch($request)` ended. */
  datatype Dispatch =
    | Returned(response: Response)
    | ThrewException(e: Exception)
    | ThrewError(message: string, code: int) // a `Throwable` that is not an `Exception`

  /** The types a `FatalThrowableError` is an instance of. */
  function FatalThrowableErrorClasses(): ForeignClasses
  {
    var space := "Symfony\\Component\\Debug\\Exception\\";
    assert space[0] == 'S';
    var fatal := space + "FatalThrowableError";
    var fatalError := space + "FatalErrorException";
    var errorException := "ErrorException";
    assert fatal[0] == 'S' && fatalError[0] == 'S' && errorException[0] == 'E';
    assert ExceptionClass[0] == 'E' && ThrowableInterface[0] == 'T';
    var classes := {fatal, fatalError, errorException, ExceptionClass, ThrowableInterface};
    ForeignByFirstLetter(classes);
    classes
  }

  /** `new FatalThrowableError($e)` for a throwable with this message and code. */
  function FatalThrowableError(message: string, code: int): (e: Exception)
    ensures e.Foreign? && e.GetMessage() == message && e.GetCode() == code
  {
    Foreign(FatalThrowableErrorClasses(), message, code)
  }

  /** The exception a catch block of `handle` holds: the exception itself, or the wrapped throwable. */
  function Caught(dispatch: Dispatch): (e: Exception)
    requires !dispatch.Returned?
    ensures dispatch.ThrewException? ==> e == dispatch.e
    ensures dispatch.ThrewError? ==>
              && e.Foreign? && ResponseExceptionClass !in e.InstanceOf()
              && ExceptionClass in e.InstanceOf() && ThrowableInterface in e.InstanceOf()
              && e.GetMessage() == dispatch.message && e.GetCode() == dispatch.code
  {
    match dispatch
    case ThrewException(e) => e
    case ThrewError(message, code) => FatalThrowableError(message, code)
  }

  /** `parseMiddleware($middleware)`: the name before the first ':' and the ','-separated parameters after it. */
  function ParseMiddleware(middleware: string): (parsed: (string, seq<string>))
    ensures ':' !in parsed.0
    ensures ':' !in middleware ==> parsed == (middleware, [])
    ensures ':' in middleware ==> && |parsed.1| >= 1
                                  && (forall p :: p in parsed.1 ==> ',' !in p)
                                  && middleware == parsed.0 + ":" + Join(parsed.1, ',')
  {
    var pieces := SplitOnce(middleware, ':');
    if |pieces| == 1 then (pieces[0], [])
    else
      JoinSplit(pieces[1], ',');
      (pieces[0], Split(pieces[1], ','))
  }

  /** The hook one middleware entry contributes: none for a non-string or a name without `terminate`. */
  function HookFor(entry: MiddlewareEntry, app: Application): (hooks: seq<Hook>)
    ensures |hooks| <= 1
    ensures hooks != [] <==> entry.Named? && ParseMiddleware(entry.definition).0 in app.terminable
    ensures hooks != [] ==> hooks == [MiddlewareTerminated(ParseMiddleware(entry.definition).0)]
  {
    match entry
    case Unnamed => []
    case Named(definition) =>
      var name := ParseMiddleware(definition).0;
      if name in app.terminable then [MiddlewareTerminated(name)] else []
  }

  /** The hooks `terminateMiddleware` calls for `entries`. */
  function TerminateHooks(entries: seq<MiddlewareEntry>, app: Application): (hooks: seq<Hook>)
    ensures forall k :: 0 <= k < |hooks| ==> hooks[k].MiddlewareTerminated? && hooks[k].name in app.terminable
  {
    if entries == [] then []
    else
      var front := TerminateHooks(entries[..|entries| - 1], app);
      var last := HookFor(entries[|entries| - 1], app);
      assert forall k :: |front| <= k < |front + last| ==> (front + last)[k] == last[k - |front|];
      front + last
  }

  /** Hooks follow the list: the hooks of a concatenation are the hooks of each part, in order. */
  lemma {:induction false} TerminateHooksAppend(a: seq<MiddlewareEntry>, b: seq<MiddlewareEntry>, app: Application)
    ensures TerminateHooks(a + b, app) == TerminateHooks(a, app) + TerminateHooks(b, app)
    decreases |b|
  {
    if b == [] {
      assert a + b == a;
    } else {
      var ab := a + b;
      assert ab[..|ab| - 1] == a + b[..|b| - 1];
      assert ab[|ab| - 1] == b[|b| - 1];
      TerminateHooksAppend(a, b[..|b| - 1], app);
    }
  }

  /** Every hook comes from a string entry whose parsed name has a `terminate` method; none is the application's. */
  lemma {:induction false} TerminateHooksFromNamedEntries(entries: seq<MiddlewareEntry>, app: Application, k: nat)
    requires k < |TerminateHooks(entries, app)|
    ensures TerminateHooks(entries, app)[k].MiddlewareTerminated?
    ensures exists i :: 0 <= i < |entries| && entries[i].Named?
              && ParseMiddleware(entries[i].definition).0 == TerminateHooks(entries, app)[k].name
              && TerminateHooks(entries, app)[k].name in app.terminable
  {
    var n := |entries| - 1;
    var front := TerminateHooks(entries[..n], app);
    if k < |front| {
      TerminateHooksFromNamedEntries(entries[..n], app, k);
      var i :| 0 <= i < n && entries[..n][i].Named?
               && ParseMiddleware(entries[..n][i].definition).0 == front[k].name && front[k].name in app.terminable;
      assert entries[i] == entries[..n][i];
    }
  }

  /** There is at most one hook per entry. */
  lemma {:induction false} TerminateHooksBounded(entries: seq<MiddlewareEntry>, app: Application)
    ensures |TerminateHooks(entries, app)| <= |entries|
  {
    if entries != [] {
      TerminateHooksBounded(entries[..|entries| - 1], app);
    }
  }

  class Kernel {
    const app: Application
    const router: Router
    /** `$this->app[ExceptionHandlerContract::class]`. */
    const handler: Handler

    constructor (app: Application, router: Router, handler: Handler)
      ensures this.app == app && this.router == router && this.handler == handler
    {
      this.app := app;
      this.router := router;
      this.handler := handler;
    }

    /**
     * `handle($request)`: the router's response when dispatch returns; otherwise
     * the caught exception is reported and then rendered. An exception that
     * `report` rethrows (no logger) leaves `handle` as `Failure`. `logged` lists
     * what reached the logger.
     */
    method Handle(request: Request, dispatch: Dispatch) returns (outcome: Result<Response, Exception>, logged: seq<Exception>)
      ensures dispatch.Returned? ==> outcome == Success(dispatch.response) && logged == []
      ensures !dispatch.Returned? ==>
                var e := Caught(dispatch);
                && (outcome.Failure? <==> handler.ShouldReport(e) && !handler.loggerResolvable)
                && (outcome.Failure? ==> outcome.error == e && logged == [])
                && (outcome.Success? ==> outcome.value == handler.Render(Some(request), e))
                && (outcome.Success? ==> logged == if handler.ShouldReport(e) then [e] else [])
    {
      match dispatch
      case Returned(response) =>
        outcome, logged := Success(response), [];
      case ThrewException(e) =>
        outcome, logged := ReportThenRender(request, e);
      case ThrewError(message, code) =>
        outcome, logged := ReportThenRender(request, FatalThrowableError(message, code));
    }

    /** The body of both catch blocks: `reportException($e)`, then `renderException($request, $e)`. */
    method ReportThenRender(request: Request, e: Exception) returns (outcome: Result<Response, Exception>, logged: seq<Exception>)
      ensures outcome.Failure? <==> handler.Report(e).Rethrown?
      ensures outcome.Failure? ==> outcome.error == e && logged == []
      ensures outcome.Success? ==> outcome.value == handler.Render(Some(request), e)
      ensures outcome.Success? ==> logged == if handler.Report(e).Logged? then [e] else []
    {
      var effect := handler.Report(e);
      if effect.Rethrown? {
        return Failure(e), [];
      }
      logged := if effect.Logged? then [e] else [];
      outcome := Success(handler.Render(Some(request), e));
    }

    /** `gatherRouteMiddleware($request)`: the router's list for the request's route, none without a route. */
    function GatherRouteMiddleware(request: Request): (entries: seq<MiddlewareEntry>)
      reads request
      ensures request.ResolveRoute().None? ==> entries == []
      ensures request.ResolveRoute().Some? ==> entries == router.gatherRouteMiddleware(request.ResolveRoute().value)
    {
      match request.ResolveRoute()
      case Some(route) => router.gatherRouteMiddleware(route)
      case None => []
    }

    /**
     * `terminateMiddleware($request, $response)`: visits the gathered middleware in
     * order, skips non-strings, and calls `terminate` on each resolved instance that has one.
     */
    method TerminateMiddleware(request: Request, response: Response) returns (hooks: seq<Hook>)
      ensures app.skipsMiddleware ==> hooks == []
      ensures !app.skipsMiddleware ==> hooks == TerminateHooks(GatherRouteMiddleware(request), app)
    {
      var middlewares := if app.skipsMiddleware then [] else GatherRouteMiddleware(request);
      hooks := [];
      for i := 0 to |middlewares|
        invariant hooks == TerminateHooks(middlewares[..i], app)
      {
        assert middlewares[..i + 1][..i] == middlewares[..i];
        var middleware := middlewares[i];
        if !middleware.Named? {
          continue;
        }
        var (name, parameters) := ParseMiddleware(middleware.definition);
        if name in app.terminable {
          hooks := hooks + [MiddlewareTerminated(name)];
        }
      }
      assert middlewares[..|middlewares|] == middlewares;
    }

    /** `terminate($request, $response)`: the middleware hooks, then the application's own when it has one. */
    method Terminate(request: Request, response: Response) returns (hooks: seq<Hook>)
      ensures hooks == (if app.skipsMiddleware then [] else TerminateHooks(GatherRouteMiddleware(request), app))
                       + (if app.hasTerminate then [ApplicationTerminated] else [])
    {
      hooks := TerminateMiddleware(request, response);
      if app.hasTerminate {
        hooks := hooks + [ApplicationTerminated];
      }
    }
  }
}
