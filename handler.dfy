/**
 * The exception handler: which exceptions are reported to the logger, and how an
 * exception becomes an error response.
 */
module ExceptionHandler {
  import opened Wrappers
  import opened Json
  import opened Exceptions
  import opened Server

  /** `collect($types)->first(fn ($type) => $e instanceof $type)`. */
  function FirstInstanceOf(types: seq<string>, e: Exception): (r: Option<string>)
    ensures r.Some? ==> exists i :: 0 <= i < |types| && types[i] == r.value && r.value in e.InstanceOf()
                          && forall j :: 0 <= j < i ==> types[j] !in e.InstanceOf()
    ensures r.None? <==> forall i :: 0 <= i < |types| ==> types[i] !in e.InstanceOf()
  {
    if types == [] then None
    else if types[0] in e.InstanceOf() then Some(types[0])
    else
      var r := FirstInstanceOf(types[1..], e);
      assert forall i :: 1 <= i < |types| ==> types[1..][i - 1] == types[i];
      r
  }

  /** What `report($e)` does. */
  datatype ReportEffect =
    | NotReported          // in the do-not-report list: returns at once
    | Logged(e: Exception) // `$logger->error($e)`
    | Rethrown(e: Exception) // the logger could not be resolved: `throw $e`

  class Handler {
    /** Whether `$this->container->make(LoggerInterface::class)` returns a logger rather than throwing. */
    const loggerResolvable: bool
    /** `$dontReport`, the configured exception types not to report. */
    const dontReport: seq<string>

    constructor (loggerResolvable: bool, dontReport: seq<string> := [])
      ensures this.loggerResolvable == loggerResolvable && this.dontReport == dontReport
    {
      this.loggerResolvable := loggerResolvable;
      this.dontReport := dontReport;
    }

    /** `shouldntReport($e)`: `e` is an instance of a configured type or of ResponseException. */
    predicate ShouldntReport(e: Exception)
      ensures ShouldntReport(e) <==> e.Rpc? || exists i :: 0 <= i < |dontReport| && dontReport[i] in e.InstanceOf()
    {
      var types := dontReport + [ResponseExceptionClass];
      assert forall i :: 0 <= i < |dontReport| ==> types[i] == dontReport[i];
      assert types[|dontReport|] == ResponseExceptionClass;
      FirstInstanceOf(types, e).Some?
    }

    /** `shouldReport($e)`: a foreign exception that no configured type covers. */
    predicate ShouldReport(e: Exception)
      ensures ShouldReport(e) <==> e.Foreign? && forall i :: 0 <= i < |dontReport| ==> dontReport[i] !in e.InstanceOf()
    {
      !ShouldntReport(e)
    }

    /** `report($e)`: nothing for ignored types; otherwise the logger gets `e`, or `e` is rethrown without one. */
    function Report(e: Exception): (effect: ReportEffect)
      ensures effect.NotReported? <==> ShouldntReport(e)
      ensures effect.Logged? <==> ShouldReport(e) && loggerResolvable
      ensures effect.Rethrown? <==> ShouldReport(e) && !loggerResolvable
      ensures !effect.NotReported? ==> effect.e == e
    {
      if ShouldntReport(e) then NotReported
      else if !loggerResolvable then Rethrown(e)
      else Logged(e)
    }

    /**
     * `render($request, $e)`: an error response carrying the exception's own code
     * and message, its data only for a ResponseException, and the request's id
     * only when `request` is a server Request (`None` otherwise).
     */
    function Render(request: Option<Request>, e: Exception): (response: Response)
      reads if request.Some? then {request.value} else {}
      reads if e.Rpc? then {e.e} else {}
      ensures response.result == None
      ensures response.error == Some(ErrorObject(e.GetCode(), e.GetMessage(), if e.Rpc? then e.e.GetData() else None))
      ensures response.id == if request.Some? then request.value.GetId() else JNull
    {
      var code := e.GetCode();
      var message := e.GetMessage();
      var data := if e.Rpc? then e.e.GetData() else None;
      var response := EmptyResponse.SetError(code, message, data);
      if request.Some? then response.Prepare(request.value) else response
    }
  }

  /** Protocol errors are never reported, whatever the configured list holds. */
  lemma ProtocolErrorsNotReported(h: Handler, e: ResponseException)
    ensures h.ShouldntReport(Rpc(e)) && h.Report(Rpc(e)) == NotReported
  {
  }

  /** With an empty list every foreign exception is reported, logged or rethrown. */
  lemma ForeignReportedByDefault(h: Handler, e: Exception)
    requires h.dontReport == [] && e.Foreign?
    ensures h.ShouldReport(e) && !h.Report(e).NotReported?
  {
  }

  /** Every exception the handler is given is an `\Exception`, so listing `Exception` silences reporting altogether. */
  lemma ExceptionListSilencesAll(h: Handler, e: Exception)
    requires ExceptionClass in h.dontReport
    ensures !h.ShouldReport(e) && h.Report(e) == NotReported
  {
    var i :| 0 <= i < |h.dontReport| && h.dontReport[i] == ExceptionClass;
    assert h.dontReport[i] in e.InstanceOf();
  }
}
