/**
 * The part of a route that the collection and the kernel use. The route class
 * itself is not part of this model: a route is its method name and the two
 * entries of its action array that the collection reads.
 */
module Routes {
  import opened Wrappers
  import opened Json

  /** `$action['as']` (here `name`) and `$action['controller']`; `None` where `isset` is false. */
  datatype Action = Action(name: Option<string>, controller: Option<string>)

  datatype Route = Route(methodName: string, action: Action)

  /** `Route::match($request)`: the request's method is this route's method name. */
  predicate Matches(route: Route, requestMethod: JsonValue)
  {
    requestMethod == JString(route.methodName)
  }
}
