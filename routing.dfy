/**
 * `RouteCollection`: the routes in registration order plus three look-up tables
 * (by method, by name, by controller) that every `add` updates in place.
 * `match` takes the FIRST registered route for a method; the tables keep the LAST.
 */
module Routing {
  import opened Wrappers
  import opened Json
  import opened Text
  import opened Exceptions
  import opened Routes
  import opened Server

  /** The three look-up tables. */
  datatype Table = MethodTable | NameTable | ActionTable

  /** The key under which `addLookups` files `route` in `table`, if it files it at all. */
  function TableKey(table: Table, route: Route): (key: Option<string>)
    ensures table == MethodTable ==> key == Some(route.methodName)
    ensures table == NameTable ==> key == route.action.name
    ensures table == ActionTable ==> (key.Some? <==> route.action.controller.Some?)
  {
    match table
    case MethodTable => Some(route.methodName)
    case NameTable => route.action.name
    case ActionTable =>
      match route.action.controller
      case Some(controller) => Some(Trim(controller, '\\'))
      case None => None
  }

  /** The table as `addLookups` leaves it after the routes were added one by one. */
  function Index(table: Table, routes: seq<Route>): map<string, Route>
  {
    if routes == [] then map[]
    else
      var last := routes[|routes| - 1];
      var earlier := Index(table, routes[..|routes| - 1]);
      match TableKey(table, last)
      case Some(key) => earlier[key := last]
      case None => earlier
  }

  /** Controller keys are already trimmed, so looking a trimmed controller up finds its routes. */
  lemma ControllerKeyTrimmed(route: Route)
    requires route.action.controller.Some?
    ensures Trim(TableKey(ActionTable, route).value, '\\') == TableKey(ActionTable, route).value
  {
    TrimIdempotent(route.action.controller.value, '\\');
  }

  /** Every table entry is one of the added routes, filed under that very key. */
  lemma {:induction false} IndexEntriesFiled(table: Table, routes: seq<Route>)
    ensures forall key :: key in Index(table, routes) ==>
              TableKey(table, Index(table, routes)[key]) == Some(key) && Index(table, routes)[key] in routes
  {
    if routes != [] {
      var front := routes[..|routes| - 1];
      IndexEntriesFiled(table, front);
      assert forall r :: r in front ==> r in routes;
    }
  }

  /** Adding one route updates a table at that route's key only. */
  lemma IndexSnoc(table: Table, routes: seq<Route>, route: Route)
    ensures Index(table, routes + [route]) ==
              match TableKey(table, route)
              case Some(key) => Index(table, routes)[key := route]
              case None => Index(table, routes)
  {
    assert (routes + [route])[..|routes|] == routes;
  }

  /** The position of the last route filed under `key`. */
  function LastFiled(table: Table, routes: seq<Route>, key: string): (r: Option<nat>)
    ensures r.Some? ==> r.value < |routes| && TableKey(table, routes[r.value]) == Some(key)
                        && forall j :: r.value < j < |routes| ==> TableKey(table, routes[j]) != Some(key)
    ensures r.None? ==> forall j :: 0 <= j < |routes| ==> TableKey(table, routes[j]) != Some(key)
  {
    if routes == [] then None
    else if TableKey(table, routes[|routes| - 1]) == Some(key) then Some(|routes| - 1)
    else
      var r := LastFiled(table, routes[..|routes| - 1], key);
      assert forall j :: 0 <= j < |routes| - 1 ==> routes[..|routes| - 1][j] == routes[j];
      r
  }

  /** Last write wins: a table maps a key to the last route filed under it, and holds no other keys. */
  lemma {:induction false} IndexIsLastFiled(table: Table, routes: seq<Route>, key: string)
    ensures key in Index(table, routes) <==> LastFiled(table, routes, key).Some?
    ensures key in Index(table, routes) ==> Index(table, routes)[key] == routes[LastFiled(table, routes, key).value]
  {
    if routes != [] {
      IndexIsLastFiled(table, routes[..|routes| - 1], key);
    }
  }

  /** Every route is reachable in a table under each key it is filed under. */
  lemma Filed(table: Table, routes: seq<Route>)
    ensures forall i :: 0 <= i < |routes| && TableKey(table, routes[i]).Some? ==>
              TableKey(table, routes[i]).value in Index(table, routes)
  {
    forall i | 0 <= i < |routes| && TableKey(table, routes[i]).Some?
      ensures TableKey(table, routes[i]).value in Index(table, routes)
    {
      IndexIsLastFiled(table, routes, TableKey(table, routes[i]).value);
    }
  }

  /** `Arr::first` over the routes: the position of the first route that matches the request's method. */
  function FirstMatch(routes: seq<Route>, requestMethod: JsonValue): (r: Option<nat>)
    ensures r.Some? ==> r.value < |routes| && Matches(routes[r.value], requestMethod)
                        && forall j :: 0 <= j < r.value ==> !Matches(routes[j], requestMethod)
    ensures r.None? <==> forall j :: 0 <= j < |routes| ==> !Matches(routes[j], requestMethod)
  {
    if routes == [] then None
    else if Matches(routes[0], requestMethod) then Some(0)
    else match FirstMatch(routes[1..], requestMethod)
      case Some(i) => Some(i + 1)
      case None => None
  }

  /** Two routes for one method: `match` answers with the first, the method table with the second. */
  lemma DuplicateMethodAsymmetry(first: Route, second: Route)
    requires first.methodName == second.methodName
    ensures FirstMatch([first, second], JString(first.methodName)) == Some(0)
    ensures Index(MethodTable, [first, second])[first.methodName] == second
    ensures second.action.controller.Some? ==>
              Index(ActionTable, [first, second])[Trim(second.action.controller.value, '\\')] == second
  {
    assert [first, second][..1] == [first];
  }

  class RouteCollection {
    var routes: seq<Route>
    var methodList: map<string, Route>
    var nameList: map<string, Route>
    var actionList: map<string, Route>

    /** The tables are exactly what adding the routes in order builds. */
    ghost predicate Valid()
      reads this
    {
      && methodList == Index(MethodTable, routes)
      && nameList == Index(NameTable, routes)
      && actionList == Index(ActionTable, routes)
    }

    constructor ()
      ensures Valid() && routes == []
      ensures methodList == map[] && nameList == map[] && actionList == map[]
    {
      routes := [];
      methodList := map[];
      nameList := map[];
      actionList := map[];
    }

    /** `add($route)`: pushes the route at the end, files it in the tables, and returns it. */
    method Add(route: Route) returns (added: Route)
      requires Valid()
      modifies this
      ensures Valid()
      ensures routes == old(routes) + [route] && added == route
      ensures methodList == old(methodList)[route.methodName := route]
    {
      IndexSnoc(MethodTable, routes, route);
      IndexSnoc(NameTable, routes, route);
      IndexSnoc(ActionTable, routes, route);
      routes := routes + [route];
      AddLookups(route);
      added := route;
    }

    /** `addLookups($route)`: overwrites the method entry, and the name and controller entries when set. */
    method AddLookups(route: Route)
      modifies this
      ensures routes == old(routes)
      ensures methodList == old(methodList)[route.methodName := route]
      ensures nameList == if route.action.name.Some? then old(nameList)[route.action.name.value := route]
                          else old(nameList)
      ensures actionList == if route.action.controller.Some?
                            then old(actionList)[Trim(route.action.controller.value, '\\') := route]
                            else old(actionList)
    {
      methodList := methodList[route.methodName := route];
      if route.action.name.Some? {
        nameList := nameList[route.action.name.value := route];
      }
      if route.action.controller.Some? {
        AddToActionList(route.action, route);
      }
    }

    /** `addToActionList($action, $route)`: files the route under its controller, backslashes trimmed. */
    method AddToActionList(action: Action, route: Route)
      requires action.controller.Some?
      modifies this
      ensures actionList == old(actionList)[Trim(action.controller.value, '\\') := route]
      ensures routes == old(routes) && methodList == old(methodList) && nameList == old(nameList)
    {
      actionList := actionList[Trim(action.controller.value, '\\') := route];
    }

    /** `match($request)`: the first registered route for the request's method, or MethodNotFound. */
    method Match(request: Request) returns (r: Result<Route, ResponseException>)
      ensures r.Success? <==> exists i :: 0 <= i < |routes| && Matches(routes[i], request.GetMethod())
      ensures r.Success? ==> exists i :: 0 <= i < |routes| && r.value == routes[i]
                               && Matches(routes[i], request.GetMethod())
                               && forall j :: 0 <= j < i ==> !Matches(routes[j], request.GetMethod())
      ensures r.Failure? ==> fresh(r.error) && r.error.errorClass == MethodNotFoundClass
                             && r.error.HasDefaults() && r.error.GetData() == None
    {
      var found := FirstMatch(routes, request.GetMethod());
      if found.None? {
        var e := new ResponseException.MethodNotFound();
        return Failure(e);
      }
      return Success(routes[found.value]);
    }

    /** `hasNamedRoute($name)`: some registered route carries that name. */
    function HasNamedRoute(name: string): (b: bool)
      requires Valid()
      reads this
      ensures b <==> exists i :: 0 <= i < |routes| && routes[i].action.name == Some(name)
    {
      IndexIsLastFiled(NameTable, routes, name);
      GetByName(name).Some?
    }

    /** `getByName($name)`: the last registered route with that name, or null. */
    function GetByName(name: string): (r: Option<Route>)
      requires Valid()
      reads this
      ensures r.None? <==> forall i :: 0 <= i < |routes| ==> routes[i].action.name != Some(name)
      ensures r.Some? ==> exists i :: 0 <= i < |routes| && r.value == routes[i] && routes[i].action.name == Some(name)
                            && forall j :: i < j < |routes| ==> routes[j].action.name != Some(name)
    {
      IndexIsLastFiled(NameTable, routes, name);
      if name in nameList then Some(nameList[name]) else None
    }

    /** `getByAction($action)`: the last registered route whose trimmed controller is `action`, or null. */
    function GetByAction(action: string): (r: Option<Route>)
      requires Valid()
      reads this
      ensures r.None? <==> forall i :: 0 <= i < |routes| ==> TableKey(ActionTable, routes[i]) != Some(action)
      ensures r.Some? ==> exists i :: 0 <= i < |routes| && r.value == routes[i]
                            && routes[i].action.controller.Some?
                            && Trim(routes[i].action.controller.value, '\\') == action
                            && forall j :: i < j < |routes| ==> TableKey(ActionTable, routes[j]) != Some(action)
    {
      IndexIsLastFiled(ActionTable, routes, action);
      if action in actionList then Some(actionList[action]) else None
    }

    /** `getRoutes()`: every added route, in the order `add` received them. */
    function GetRoutes(): (r: seq<Route>)
      reads this
      ensures Valid() ==> forall i :: 0 <= i < |r| ==> r[i].methodName in methodList
      ensures Valid() ==> forall i :: 0 <= i < |r| && r[i].action.name.Some? ==> r[i].action.name.value in nameList
      ensures Valid() ==> forall i :: 0 <= i < |r| && r[i].action.controller.Some? ==>
                            Trim(r[i].action.controller.value, '\\') in actionList
    {
      Filed(MethodTable, routes);
      Filed(NameTable, routes);
      Filed(ActionTable, routes);
      routes
    }
  }
}
