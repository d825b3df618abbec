# JSON-RPC 2.0 server core for Laravel/Swoole, modelled in Dafny

This project models the request-handling core of `laravel-swoole-jsonrpc` and
proves properties of the model:

- **Inbound requests** (`Server\Request`). A payload is decoded and must be an
  array, or it is a `ParseErrorException`. The object then takes its members:
  `jsonrpc` and `method` are required (`InvalidRequestException` when a key is
  missing), and `params` and `id` are copied when present. `getParam` is
  Laravel's `array_get` on the params, so it also follows dotted keys into
  nested arrays.
- **Route collection** (`Routing\RouteCollection`). Routes are kept in
  registration order. Three tables are updated in place on every `add`: by
  method, by name (`as`) and by controller (with `\` trimmed). `match` returns
  the *first* registered route whose method equals the request's method, or
  throws `MethodNotFoundException`. The tables keep the *last* route filed
  under a key. `getRoutes()` is the routes field itself, in `add` order.
- **Exceptions** (`ResponseException` and its three subclasses). They carry
  the JSON-RPC default codes and messages. Only the base class accepts `data`.
- **Exception handler** (`Exceptions\Handler`):
  - `report` ignores every `ResponseException` and every configured
    do-not-report type. Otherwise it logs the exception, or rethrows it when
    no logger can be resolved.
  - `render` builds an error response from the exception's code and message.
    The data is included only for a `ResponseException`. The request id is
    included when there is a request.
- **Kernel** (`Server\Kernel`):
  - `handle` returns whatever the dispatcher returns. If dispatch throws, the
    exception is reported and then rendered; a non-`Exception` throwable is
    first wrapped in a `FatalThrowableError`.
  - `terminate` calls `terminate` on each string middleware of the request's
    route whose class has one, then on the application.
  - `parseMiddleware` splits `name:p1,p2` into a name and its parameters.
- **Client side** (`Client\Request`, `Client\Notification`).
  - A request always gets an id: the given one, or a fresh UUID.
  - A notification never has an id.
  - `params` is encoded only when it is an array.
  - The module `Interop` proves two things about a payload that decodes to
    what the client encoded. It passes `parseJson` and the member check. The
    members `Request::make` then reads back are the client's version, method,
    params and id (null for a notification).

Modules and files:

| module | file | models |
|---|---|---|
| `Wrappers` | wrappers.dfy | `Option` and `Result` |
| `Text` | text.dfy | `explode`, `implode`, `trim($s, $c)` |
| `Json` | json.dfy | decoded JSON values, `array_key_exists`, `array_get`, `json_encode`'s object |
| `Exceptions` | exceptions.dfy | the exception classes and what `instanceof` holds for |
| `Routes` | routes.dfy | the route value: method name and action (`as`, `controller`) |
| `Server` | server.dfy | `Server\Request`, and the error response the handler fills in |
| `Routing` | routing.dfy | `RouteCollection` |
| `ExceptionHandler` | handler.dfy | `Exceptions\Handler` |
| `Kernel` | kernel.dfy | `Server\Kernel` |
| `Client` | client.dfy | `Client\Request`, `Client\Notification` |
| `Interop` | interop.dfy | the client-to-server round trip |

How the environment is represented:

- `json_decode` is a function parameter: `None` when `json_last_error()`
  reports an error.
- `Uuid::uuid4()` is a `uuid` string parameter.
- The logger is a boolean: whether the container can resolve it. A resolved
  logger is assumed not to throw.
- The application is a value: whether it skips middleware, which middleware
  classes have a `terminate` method, and whether it has one itself.
- The router's `gatherRouteMiddleware` is a function held by the kernel's
  `router`. How `dispatch` ended is an argument of `Handle`.
- Side effects come back as traces rather than being performed. The logger's
  effect is the list of logged exceptions; `terminate`'s effect is the list of
  hooks called, in order.

Where the code and its documentation differ, the model follows the code:

- A payload that decodes to a JSON list (`[...]`) passes `parseJson`, because
  it is a PHP array. It then fails with `InvalidRequestException`, not a parse
  error (`Server.ListPayloadIsInvalidRequest`).
- `initialize` checks `jsonrpc` and `method` only for presence. Any value is
  accepted, `null` and versions other than `"2.0"` included
  (`Server.PresenceSuffices`).
- The client request is encoded in the key order `jsonrpc`, `method`, `id`,
  `params`.
- When no logger can be resolved, `report` rethrows. The rethrow happens
  inside `handle`'s catch block, so it escapes `handle`: `Kernel.Kernel.Handle`
  ends in `Failure` in exactly that case.

## Model

| member | source | states |
|---|---|---|
| Text.SplitOnce | src/Server/Kernel.php:145 | `explode(':', $m, 2)`: the whole string when it has no separator; otherwise the part before the first separator, which has none, and everything after it |
| Text.Split | src/Server/Kernel.php:148 | `explode(',', $p)`: at least one piece, none of them holding the separator; a string without the separator is its own single piece |
| Text.JoinSplit | src/Server/Kernel.php:145-148 | joining the pieces of `explode` with the separator gives back the original string |
| Text.SplitJoin | src/Server/Kernel.php:145-148 | exploding joined separator-free pieces gives back exactly those pieces |
| Text.Trim | src/Routing/RouteCollection.php:78 | `trim($c, '\\')`: the result neither starts nor ends with the character, and it is what remains of the input once a run of it is removed from each end |
| Text.TrimIdempotent | src/Routing/RouteCollection.php:78 | trimming twice is trimming once, so a trimmed controller maps to its own key |
| Json.IndexKeyDenotes | src/Server/Request.php:112 | the canonical decimal key of a list position is an index key and reads back as that position |
| Json.IndexKeyPositive | src/Server/Request.php:112 | an index key that does not start with `0` denotes a position greater than zero |
| Json.IndexKeyOfDigits | src/Server/Request.php:112 | every index key is the canonical key of the number it spells |
| Json.IsArray | src/Server/Request.php:239 | `is_array` of a decoded value: true for JSON arrays and objects, false for scalars and null (a definition; no contract of its own) |
| Json.HasKey | src/Server/Request.php:112 | `array_key_exists`: only arrays have keys, and an object has exactly its members' keys |
| Json.Lookup | src/Server/Request.php:112-116 | `array_key_exists` plus `$attributes[$k]`: only arrays have keys |
| Json.ListLookup | src/Server/Request.php:112-116 | a key of a decoded list exists exactly when it is the canonical decimal form of a position, and then holds that item |
| Json.ListLacksWordKey | src/Server/Request.php:112 | a key starting with a non-digit, such as `jsonrpc`, never exists in a list |
| Json.ArrayGet | src/Server/Request.php:159 | `array_get`: the default for a non-array; the direct entry when the key exists; the default for a missing key without dots |
| Json.ArrayGetDotted | src/Server/Request.php:159 | a dotted key `a.b` missing as such reads member `b` of member `a`, or the default when either is missing |
| Json.Decoded | src/Client/Request.php:75 | the object a receiver decodes from `json_encode` of an ordered key list: an object holding every key written |
| Json.DecodedKeys | src/Client/Request.php:75 | the decoded object has exactly the keys that were encoded |
| Json.DecodedLastWins | src/Client/Request.php:75 | each decoded key holds the value written for it last |
| Exceptions.DefaultCodesReserved | src/Exceptions/ResponseException.php:19 | the default codes -32603, -32700, -32600 and -32601 of the four classes lie in the JSON-RPC reserved range -32768..-32000 and are pairwise distinct |
| Exceptions.ResponseException.constructor | src/Exceptions/ResponseException.php:19-24 | defaults `Internal error` / -32603; the given message, code and `array\|null` data are stored |
| Exceptions.ResponseException.ParseError | src/Exceptions/ParseErrorException.php:13-16 | defaults `Parse error` / -32700; the data is always null |
| Exceptions.ResponseException.InvalidRequest | src/Exceptions/InvalidRequestException.php:13-16 | defaults `Invalid Request` / -32600; the data is always null |
| Exceptions.ResponseException.MethodNotFound | src/Exceptions/MethodNotFoundException.php:13-16 | defaults `Method not found` / -32601; the data is always null |
| Exceptions.ResponseException.SetData | src/Exceptions/ResponseException.php:29-32 | the data becomes the argument, null when none is given |
| Exceptions.ResponseException.GetData | src/Exceptions/ResponseException.php:37-40 | the stored data, which is always an array or null |
| Exceptions.Exception.InstanceOf | src/Exceptions/Handler.php:85 | `$e instanceof ResponseException` holds exactly for the ResponseException family |
| Server.Request.Blank | src/Server/Request.php:26-75 | the property defaults: `jsonrpc` is `"2.0"`, and the other members, the route and the resolver are null |
| Server.Request.SetMember | src/Server/Request.php:116-121 | `$this->{$member} = …` changes that member and nothing else |
| Server.Request.Initialize | src/Server/Request.php:109-124 | fails, with a fresh default InvalidRequest, exactly when `jsonrpc` or `method` is missing. On success the required members hold the payload's values and the optional members hold theirs when present, else keep their old values. On failure the members after the missing one are untouched |
| Server.Request.FromAttributes | src/Server/Request.php:98-101 | `new Request($attributes)`: an InvalidRequest exactly when a required key is missing; otherwise each getter reads the payload's member, or null when it is absent |
| Server.Request.ParseJson | src/Server/Request.php:235-244 | succeeds exactly when decoding succeeds and gives an array, and then returns the decoded value |
| Server.Request.Make | src/Server/Request.php:85-90 | a fresh default ParseError when the payload does not decode to an array; otherwise an InvalidRequest exactly when a required key is missing, else a request that reads back the payload |
| Server.Request.GetJsonrpc | src/Server/Request.php:129-132 | the value `initialize` stored under `jsonrpc` |
| Server.Request.GetMethod | src/Server/Request.php:137-140 | the value `initialize` stored under `method` |
| Server.Request.GetParams | src/Server/Request.php:145-148 | the value `initialize` stored under `params` |
| Server.Request.GetId | src/Server/Request.php:165-168 | the value `initialize` stored under `id` |
| Server.Request.GetRoute | src/Server/Request.php:175-178 | the route last set, null before any |
| Server.Request.GetParam | src/Server/Request.php:157-160 | `array_get` on the params: the default when the params are not an array or lack a dot-free key; the entry when the key exists |
| Server.Request.SetRoute | src/Server/Request.php:186-191 | `getRoute()` becomes the route; nothing else changes |
| Server.Request.SetRouteResolver | src/Server/Request.php:209-214 | the resolver becomes the callback; nothing else changes |
| Server.Request.GetRouteResolver | src/Server/Request.php:221-226 | the resolver that was set, or else a closure returning null |
| Server.Request.ResolveRoute | src/Server/Request.php:198-201 | `route()` is null when no resolver was set |
| Server.ListPayloadIsInvalidRequest | src/Server/Request.php:109-113 | a payload decoding to a JSON list is an array yet lacks the required members, so it is an InvalidRequest |
| Server.PresenceSuffices | src/Server/Request.php:111-116 | any object holding the keys `jsonrpc` and `method` passes the member check, whatever their values |
| Routing.TableKey | src/Routing/RouteCollection.php:55-65 | the key a route is filed under in each table: always its method; its `as` name exactly when set; a controller key exactly when the controller is set |
| Routing.ControllerKeyTrimmed | src/Routing/RouteCollection.php:78 | a controller key is its own trim, so `getByAction` with a trimmed controller finds its routes |
| Routing.Index | src/Routing/RouteCollection.php:53-67 | the table after the routes were added in order (a definition; no contract of its own) |
| Routing.IndexEntriesFiled | src/Routing/RouteCollection.php:53-67 | in the tables `addLookups` builds over a route sequence (`Routing.Index`), every entry is an added route filed under that very key |
| Routing.Filed | src/Routing/RouteCollection.php:53-67 | every added route can be found in each table under every key it is filed under |
| Routing.LastFiled | src/Routing/RouteCollection.php:58-65 | the position of the last route filed under a key in a table, or none when no route is |
| Routing.IndexIsLastFiled | src/Routing/RouteCollection.php:53-67 | after a sequence of adds, a table holds a key exactly when some route was filed under it, and it maps the key to the last such route |
| Routing.FirstMatch | src/Routing/RouteCollection.php:91-93 | `Arr::first`: the earliest route matching the request's method; none exactly when no route matches |
| Routing.DuplicateMethodAsymmetry | src/Routing/RouteCollection.php:39-100 | with two routes for one method, `match` picks the first while the method and controller tables hold the second |
| Routing.RouteCollection.Add | src/Routing/RouteCollection.php:39-45 | appends the route, files it in the method table, keeps the tables consistent with the route list, and returns the route |
| Routing.RouteCollection.constructor | src/Routing/RouteCollection.php:17-31 | no routes and three empty tables, consistent with each other |
| Routing.RouteCollection.AddLookups | src/Routing/RouteCollection.php:53-67 | overwrites the method entry, the name entry when `as` is set, and the trimmed controller entry when `controller` is set; leaves the rest alone |
| Routing.RouteCollection.AddToActionList | src/Routing/RouteCollection.php:76-79 | files the route under its controller with `\` trimmed; nothing else changes |
| Routing.RouteCollection.Match | src/Routing/RouteCollection.php:89-100 | succeeds exactly when some route matches; returns the first matching route; otherwise a fresh default MethodNotFound |
| Routing.RouteCollection.HasNamedRoute | src/Routing/RouteCollection.php:108-111 | true exactly when some added route has that name |
| Routing.RouteCollection.GetByName | src/Routing/RouteCollection.php:119-122 | null exactly when no route has the name; otherwise the last added route with it |
| Routing.RouteCollection.GetRoutes | src/Routing/RouteCollection.php:140-143 | every route returned can be found in the method table, and in the name and controller tables when it has a name or a controller |
| Routing.RouteCollection.GetByAction | src/Routing/RouteCollection.php:130-133 | null exactly when no route's trimmed controller is the key; otherwise the last such route |
| ExceptionHandler.FirstInstanceOf | src/Exceptions/Handler.php:84-86 | `collect($types)->first(...)`: the earliest type the exception is an instance of; none exactly when it is an instance of none |
| ExceptionHandler.Handler.constructor | src/Exceptions/Handler.php:35-38 | the handler over a container that can or cannot resolve the logger, with the given do-not-report list |
| ExceptionHandler.Handler.ShouldntReport | src/Exceptions/Handler.php:80-87 | holds exactly for a ResponseException or an instance of a configured type |
| ExceptionHandler.Handler.ShouldReport | src/Exceptions/Handler.php:69-72 | holds exactly for a foreign exception that no configured type covers |
| ExceptionHandler.Handler.Report | src/Exceptions/Handler.php:48-61 | nothing for an ignored exception; otherwise the exception itself is logged when a logger resolves and rethrown when none does |
| ExceptionHandler.Handler.Render | src/Exceptions/Handler.php:96-115 | no result; an error with the exception's code and message; its data only for a ResponseException; the request's id when there is a request, else null |
| ExceptionHandler.ProtocolErrorsNotReported | src/Exceptions/Handler.php:82 | protocol errors are never reported, whatever types are configured |
| ExceptionHandler.ForeignReportedByDefault | src/Exceptions/Handler.php:48-61 | with no configured types, every foreign exception is logged or rethrown |
| ExceptionHandler.ExceptionListSilencesAll | src/Exceptions/Handler.php:82-86 | with `Exception` in the do-not-report list, nothing is ever reported, since everything the handler gets is an `\Exception` |
| Server.Response.SetError | src/Exceptions/Handler.php:108 | `setError($code, $message, $data)`: the error is set from the three values and there is no result; the id stays |
| Server.Response.Prepare | src/Exceptions/Handler.php:110-111 | `prepare($request)`: the response takes over the request's id and keeps its result and error |
| Kernel.FatalThrowableError | src/Server/Kernel.php:71-72 | wraps a throwable as a foreign exception that keeps its message and code |
| Kernel.Caught | src/Server/Kernel.php:66-72 | the `$e` each catch block holds: a thrown `Exception` itself; a throwable that is not one becomes a `FatalThrowableError`, a foreign exception that is an `Exception` and a `Throwable`, is no ResponseException, and keeps the throwable's message and code |
| Kernel.ParseMiddleware | src/Server/Kernel.php:143-152 | the name never holds `:`. Without `:` the whole string is the name and there are no parameters. Otherwise there is at least one parameter, none holding `,`, and name, `:` and the `,`-joined parameters spell the input |
| Kernel.HookFor | src/Server/Kernel.php:108-118 | one middleware entry gives at most one hook. It gives one exactly when it is a string whose parsed name has `terminate`, and the hook names that parsed name |
| Kernel.TerminateHooks | src/Server/Kernel.php:107-119 | the reference definition of the loop: the entries' hooks in order, each a middleware hook whose class has `terminate` |
| Kernel.TerminateHooksAppend | src/Server/Kernel.php:107-119 | the hooks of a concatenated middleware list are the hooks of its parts, in order |
| Kernel.TerminateHooksFromNamedEntries | src/Server/Kernel.php:107-119 | every hook is a middleware hook for the parsed name of some string entry whose class has `terminate` |
| Kernel.TerminateHooksBounded | src/Server/Kernel.php:107-119 | at most one hook per middleware entry |
| Kernel.Kernel.constructor | src/Server/Kernel.php:43-51 | the kernel over the given application, router and handler |
| Kernel.Kernel.Handle | src/Server/Kernel.php:59-78 | the dispatcher's response when it returns, with nothing logged. Otherwise the caught exception, with a non-`Exception` wrapped, is rethrown exactly when it should be reported and no logger resolves; else it is logged when reportable and rendered against the request |
| Kernel.Kernel.ReportThenRender | src/Server/Kernel.php:67-75 | both catch blocks: a failure exactly when `report` rethrows; otherwise the rendered response and what was logged |
| Kernel.Kernel.GatherRouteMiddleware | src/Server/Kernel.php:128-135 | the router's middleware for the request's route; none without a route |
| Kernel.Kernel.TerminateMiddleware | src/Server/Kernel.php:103-120 | no hooks when the application skips middleware; otherwise the terminate hooks of the gathered middleware, in order |
| Kernel.Kernel.Terminate | src/Server/Kernel.php:87-94 | the middleware hooks, followed by the application's own when it has `terminate` |
| Client.Request.constructor | src/Client/Request.php:37-43 | stores the method and params; the id is the given one, or the UUID when none is given, so it is never null |
| Client.Request.SetId | src/Client/Request.php:49-58 | the id becomes the argument, or the UUID when the argument is null; method and params are unchanged |
| Client.Request.ToJson | src/Client/Request.php:63-76 | the keys `jsonrpc`, `method`, `id`, then `params` exactly when the params are an array, holding `"2.0"`, the method, the id and the params |
| Client.Request.ToString | src/Client/Request.php:81-84 | the same encoding as `toJson()` |
| Client.Notification.ToJson | src/Client/Notification.php:37-49 | the keys `jsonrpc` and `method`, then `params` exactly when the params are an array; never an `id` |
| Client.Notification.ToString | src/Client/Notification.php:54-57 | the same encoding as `toJson()` |
| Interop.RequestReadsBack | src/Client/Request.php:63-76 | a decoded client request passes the server's member check and reads back version, method and id, and its params exactly when they are an array |
| Interop.RequestPayloadParses | src/Server/Request.php:85-90 | a payload decoding to a client request's encoding passes `parseJson` and the member check, and its members are the client's version, method, params and id |
| Interop.NotificationPayloadParses | src/Server/Request.php:85-90 | a payload decoding to a notification's encoding passes `parseJson` and the member check; its members are version `"2.0"`, the notification's method and params, and a null id |
| Interop.NotificationReadsBack | src/Client/Notification.php:37-49 | a decoded notification passes the member check, reads back version `"2.0"`, its method, and its params exactly when they are an array, and has no `id` key, so the server's id is null |

## Left out

- JSON text is not modelled. Encoding and decoding are a function parameter or
  the top-level key list. Floating-point numbers, string escaping and the key
  order inside nested objects are not represented: objects are maps.
- `Uuid::uuid4()` is left out: the generated string is the `uuid` parameter.
- The route resolver, `Route::match`, the router's `dispatch`, and which
  middleware classes have `terminate` come from code outside the core. They
  are parameters, and a route matches a request when its method name equals
  the request's `method`.
- In `handle`, `$this->app->instance(...)` and
  `Facade::clearResolvedInstance(...)` are container bookkeeping with no
  effect on the result. They are left out.
- In `terminateMiddleware`, `$this->app->make($name)` can fail. That failure is
  not modelled: every parsed name is assumed to resolve.
- Kernel.Kernel.TerminateMiddleware: every `$instance->terminate($request,
  $response)` is assumed to return. A throwing hook would end the loop, skip
  the remaining hooks and `$this->app->terminate()`, and escape `terminate`.
- Kernel.Kernel.Terminate: every middleware hook and `$this->app->terminate()`
  are assumed to return; a throw from either would escape `terminate`.
- Kernel.Kernel.Handle: the logger's `error($e)` is assumed not to throw. A
  throwing logger would escape `handle` from inside the catch block.
- Server.Response.Prepare: the id is always taken from the request. A response
  whose id was set explicitly would keep it; the only caller, `render`,
  prepares a fresh response, so the two agree there.
- The parsed middleware parameters are computed but never used, as in the code.
- Kernel.FatalThrowableError: the message of a `ThrewError` outcome is taken
  as the text Symfony's `FatalThrowableError` builds, and the model does not
  build it. For a `TypeError` or a `ParseError` that text is the throwable's
  message with a `Type error: ` or `Parse error: ` prefix. Only the code is
  always the wrapped throwable's own.
- ExceptionHandler.Handler.constructor: `Handler::__construct` takes only the
  container, and `$dontReport` is `[]` in this class. The `dontReport`
  parameter stands for a subclass that overrides `$dontReport`. Its default
  `[]` is the class's own list.
- Kernel.Kernel.constructor: the `aliasMiddleware` calls on the router are left
  out; they only register aliases in code outside the core.
- `Handler::renderForConsole` writes to a console and is left out.
- `Kernel::getApplication` is a plain accessor and is left out.
- `Server\Response` itself is not part of this model. Only the `id`, `result`
  and `error` it is given are represented, not its serialisation.
- User subclasses of `ResponseException` are left out. A `ResponseException`
  in the model is always of one of the four classes of the package. Every other
  exception is foreign: its class set includes `Exception` and `Throwable` and
  none of the four.
- PHP matches class names in `instanceof` without regard to case. The model
  compares them exactly, so a do-not-report entry that differs from a class
  name only in case does not cover it here.
- `JsonRpcException` is taken to extend `\Exception`; its file is not part of
  this model.
- Json.ArrayGet: a `null` key, which makes `array_get` return the whole array,
  is not modelled, because keys are strings here.
- Server.Request.GetParam: the same limit applies as for `Json.ArrayGet`.
- The artisan command, the service provider, the facades and the
  `Transformable` contract are outside the core and are left out.
