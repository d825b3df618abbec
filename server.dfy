/**
 * The inbound JSON-RPC request (`Server\Request`) and the response record the
 * error handler fills in.
 */
module Server {
  import opened Wrappers
  import opened Json
  import opened Exceptions
  import opened Routes

  /** The members `initialize` insists on, by key presence only. */
  const RequiredMembers: seq<string> := ["jsonrpc", "method"]

  /** The members `initialize` copies when present. */
  const OptionalMembers: seq<string> := ["params", "id"]

  predicate HasRequiredMembers(attributes: JsonValue)
  {
    forall k :: 0 <= k < |RequiredMembers| ==> HasKey(attributes, RequiredMembers[k])
  }

  /** The value of member `name` in `attributes`, or PHP `null` when the key is absent. */
  function MemberOr(attributes: JsonValue, name: string, absent: JsonValue): JsonValue
  {
    match Lookup(attributes, name)
    case Some(v) => v
    case None => absent
  }

  /** The route resolver callback: a closure returning a route or null. */
  type RouteResolver = () -> Option<Route>

  class Request {
    var jsonrpc: JsonValue
    var methodName: JsonValue
    var params: JsonValue
    var id: JsonValue
    var route: Option<Route>
    var routeResolver: Option<RouteResolver>

    /** The object as its property declarations leave it, before `initialize` runs. */
    constructor Blank()
      ensures jsonrpc == JString("2.0") && methodName == JNull && params == JNull && id == JNull
      ensures route == None && routeResolver == None
    {
      jsonrpc := JString("2.0");
      methodName := JNull;
      params := JNull;
      id := JNull;
      route := None;
      routeResolver := None;
    }

    /** `$this->{$name}` for the four JSON-RPC members. */
    function Member(name: string): JsonValue
      reads this
    {
      if name == "jsonrpc" then jsonrpc
      else if name == "method" then methodName
      else if name == "params" then params
      else id
    }

    /** `$this->{$name} = $value` for one of the four JSON-RPC members. */
    method SetMember(name: string, value: JsonValue)
      requires name in RequiredMembers + OptionalMembers
      modifies this
      ensures jsonrpc == (if name == "jsonrpc" then value else old(jsonrpc))
      ensures methodName == (if name == "method" then value else old(methodName))
      ensures params == (if name == "params" then value else old(params))
      ensures id == (if name == "id" then value else old(id))
      ensures route == old(route) && routeResolver == old(routeResolver)
    {
      if name == "jsonrpc" { jsonrpc := value; }
      else if name == "method" { methodName := value; }
      else if name == "params" { params := value; }
      else { id := value; }
    }

    /**
     * `initialize($attributes)`: copies each required member, throwing
     * InvalidRequest at the first one whose key is absent, then copies each
     * optional member whose key is present.
     */
    method Initialize(attributes: JsonValue) returns (error: Option<ResponseException>)
      requires IsArray(attributes)
      modifies this
      ensures error.Some? <==> !HasRequiredMembers(attributes)
      ensures error.Some? ==> fresh(error.value) && error.value.errorClass == InvalidRequestClass
                              && error.value.HasDefaults() && error.value.GetData() == None
      ensures error.None? ==>
                && jsonrpc == MemberOr(attributes, "jsonrpc", JNull)
                && methodName == MemberOr(attributes, "method", JNull)
                && params == MemberOr(attributes, "params", old(params))
                && id == MemberOr(attributes, "id", old(id))
      ensures error.Some? ==>
                && jsonrpc == MemberOr(attributes, "jsonrpc", old(jsonrpc))
                && methodName == old(methodName) && params == old(params) && id == old(id)
      ensures route == old(route) && routeResolver == old(routeResolver)
    {
      assert RequiredMembers[0] == "jsonrpc" && RequiredMembers[1] == "method";
      assert OptionalMembers[0] == "params" && OptionalMembers[1] == "id";
      for i := 0 to |RequiredMembers|
        invariant forall k :: 0 <= k < i ==>
                    HasKey(attributes, RequiredMembers[k]) && Member(RequiredMembers[k]) == Lookup(attributes, RequiredMembers[k]).value
        invariant forall k :: i <= k < |RequiredMembers| ==> Member(RequiredMembers[k]) == old(Member(RequiredMembers[k]))
        invariant params == old(params) && id == old(id)
        invariant route == old(route) && routeResolver == old(routeResolver)
      {
        var member := RequiredMembers[i];
        if !HasKey(attributes, member) {
          var e := new ResponseException.InvalidRequest();
          return Some(e);
        }
        SetMember(member, Lookup(attributes, member).value);
      }
      for i := 0 to |OptionalMembers|
        invariant forall k :: 0 <= k < i ==> Member(OptionalMembers[k]) == MemberOr(attributes, OptionalMembers[k], old(Member(OptionalMembers[k])))
        invariant forall k :: i <= k < |OptionalMembers| ==> Member(OptionalMembers[k]) == old(Member(OptionalMembers[k]))
        invariant jsonrpc == MemberOr(attributes, "jsonrpc", JNull) && methodName == MemberOr(attributes, "method", JNull)
        invariant route == old(route) && routeResolver == old(routeResolver)
      {
        var member := OptionalMembers[i];
        if HasKey(attributes, member) {
          SetMember(member, Lookup(attributes, member).value);
        }
      }
      return None;
    }

    /** `new Request($attributes)`: the blank object, initialised, or the exception `initialize` threw. */
    static method FromAttributes(attributes: JsonValue) returns (r: Result<Request, ResponseException>)
      requires IsArray(attributes)
      ensures r.Failure? <==> !HasRequiredMembers(attributes)
      ensures r.Failure? ==> fresh(r.error) && r.error.errorClass == InvalidRequestClass
                             && r.error.HasDefaults() && r.error.GetData() == None
      ensures r.Success? ==> fresh(r.value) && r.value.Denotes(attributes)
    {
      var request := new Request.Blank();
      var error := request.Initialize(attributes);
      if error.Some? {
        return Failure(error.value);
      }
      return Success(request);
    }

    /** What a freshly made request reads back: every member as the payload had it, absent ones null. */
    ghost predicate Denotes(attributes: JsonValue)
      reads this
    {
      && GetJsonrpc() == MemberOr(attributes, "jsonrpc", JNull)
      && GetMethod() == MemberOr(attributes, "method", JNull)
      && GetParams() == MemberOr(attributes, "params", JNull)
      && GetId() == MemberOr(attributes, "id", JNull)
      && GetRoute() == None && routeResolver == None
    }

    /** `json_decode($payload, true)`, rejected unless it succeeded and gave an array. */
    static function ParseJson(payload: string, decode: string -> Option<JsonValue>): (r: Option<JsonValue>)
      ensures r.Some? <==> decode(payload).Some? && IsArray(decode(payload).value)
      ensures r.Some? ==> r == decode(payload)
    {
      var decoded := decode(payload);
      if decoded.None? || !IsArray(decoded.value) then None else decoded
    }

    /**
     * `Request::make($payload)`: `decode` stands for `json_decode` (None when
     * `json_last_error()` reports an error). A payload that does not parse to an
     * array is a ParseError before any member is looked at.
     */
    static method Make(payload: string, decode: string -> Option<JsonValue>) returns (r: Result<Request, ResponseException>)
      ensures ParseJson(payload, decode).None? ==>
                r.Failure? && fresh(r.error) && r.error.errorClass == ParseErrorClass
                && r.error.HasDefaults() && r.error.GetData() == None
      ensures ParseJson(payload, decode).Some? ==>
                var attributes := decode(payload).value;
                && (r.Failure? <==> !HasRequiredMembers(attributes))
                && (r.Failure? ==> fresh(r.error) && r.error.errorClass == InvalidRequestClass
                                   && r.error.HasDefaults() && r.error.GetData() == None)
                && (r.Success? ==> fresh(r.value) && r.value.Denotes(attributes))
    {
      var attributes := ParseJson(payload, decode);
      if attributes.None? {
        var e := new ResponseException.ParseError();
        return Failure(e);
      }
      r := FromAttributes(attributes.value);
    }

    /** `getJsonrpc()`: the member `initialize` stored under `jsonrpc`. */
    function GetJsonrpc(): (v: JsonValue)
      reads this
      ensures v == Member("jsonrpc")
    {
      jsonrpc
    }

    /** `getMethod()`: the member `initialize` stored under `method`. */
    function GetMethod(): (v: JsonValue)
      reads this
      ensures v == Member("method")
    {
      methodName
    }

    /** `getParams()`: the member `initialize` stored under `params`. */
    function GetParams(): (v: JsonValue)
      reads this
      ensures v == Member("params")
    {
      params
    }

    /** `getId()`: the member `initialize` stored under `id`. */
    function GetId(): (v: JsonValue)
      reads this
      ensures v == Member("id")
    {
      id
    }

    /** `getParam($key, $default)`: `array_get` on the params. */
    function GetParam(key: string, default: JsonValue := JNull): (v: JsonValue)
      reads this
      ensures !IsArray(params) ==> v == default
      ensures !HasKey(params, key) && '.' !in key ==> v == default
      ensures HasKey(params, key) ==> v == Lookup(params, key).value
    {
      ArrayGet(params, key, default)
    }

    /** `getRoute()`: the route last set, null before any. */
    function GetRoute(): (r: Option<Route>)
      reads this
      ensures r == route
    {
      route
    }

    method SetRoute(route: Route)
      modifies this
      ensures GetRoute() == Some(route)
      ensures jsonrpc == old(jsonrpc) && methodName == old(methodName) && params == old(params) && id == old(id)
      ensures routeResolver == old(routeResolver)
    {
      this.route := Some(route);
    }

    method SetRouteResolver(callback: RouteResolver)
      modifies this
      ensures routeResolver == Some(callback)
      ensures jsonrpc == old(jsonrpc) && methodName == old(methodName) && params == old(params) && id == old(id)
      ensures route == old(route)
    {
      routeResolver := Some(callback);
    }

    /** The resolver set, or else a closure that returns null. */
    function GetRouteResolver(): (resolver: RouteResolver)
      reads this
      ensures routeResolver.None? ==> resolver() == None
      ensures routeResolver.Some? ==> resolver == routeResolver.value
    {
      match routeResolver
      case Some(callback) => callback
      case None => () => None
    }

    /** `route()`: the result of calling the route resolver. */
    function ResolveRoute(): (r: Option<Route>)
      reads this
      ensures routeResolver.None? ==> r == None
    {
      GetRouteResolver()()
    }
  }

  /** The `code`, `message` and `data` of an error response. */
  datatype ErrorObject = ErrorObject(code: int, message: string, data: Option<JsonValue>)

  /**
   * The state of a `Server\Response` that the core sets (the class itself is not
   * part of this model): the echoed id and either a result or an error.
   */
  datatype Response = Response(id: JsonValue, result: Option<JsonValue>, error: Option<ErrorObject>)
  {
    /** `setError($code, $message, $data)`. */
    function SetError(code: int, message: string, data: Option<JsonValue>): (r: Response)
      ensures r.error == Some(ErrorObject(code, message, data)) && r.result == None && r.id == id
    {
      this.(result := None, error := Some(ErrorObject(code, message, data)))
    }

    /**
     * `prepare($request)`: takes over the request's id. The id is always
     * overwritten; the only caller prepares a fresh response, whose id is unset.
     */
    function Prepare(request: Request): (r: Response)
      reads request
      ensures r.id == request.GetId() && r.result == result && r.error == error
    {
      this.(id := request.GetId())
    }
  }

  /** `new Response`. */
  const EmptyResponse := Response(JNull, None, None)

  /** A payload that decodes to a JSON list passes `parseJson` but has no member keys: an InvalidRequest, not a ParseError. */
  lemma ListPayloadIsInvalidRequest(items: seq<JsonValue>)
    ensures IsArray(JList(items)) && !HasRequiredMembers(JList(items))
  {
    assert RequiredMembers[0] == "jsonrpc";
    ListLacksWordKey(items, "jsonrpc", 0);
  }

  /** Presence is all `initialize` checks: the members may hold anything, `null` and a wrong version included. */
  lemma PresenceSuffices(members: map<string, JsonValue>)
    requires "jsonrpc" in members && "method" in members
    ensures HasRequiredMembers(JObject(members))
  {
  }
}
