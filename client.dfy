/**
 * Outbound JSON-RPC calls: a request, which always carries an id (a fresh UUID
 * when none is given), and a notification, which never does. `toJson` is
 * modelled as the ordered key/value pairs handed to `json_encode`.
 */
module Client {
  import opened Json

  /** What the `array $params = null` parameter admits: an array or nothing. */
  type Params = v: JsonValue | v.JNull? || IsArray(v) witness JNull

  class Request {
    const jsonrpc: string := "2.0"
    var methodName: string
    var params: Params
    var id: JsonValue

    /**
     * `new Request($method, $params, $id)`; `uuid` is the string `Uuid::uuid4()`
     * would produce, used only when `id` is null.
     */
    constructor (methodName: string, params: Params := JNull, id: JsonValue := JNull, nameonly uuid: string)
      ensures this.methodName == methodName && this.params == params
      ensures this.id == if id.JNull? then JString(uuid) else id
      ensures !this.id.JNull?
    {
      this.methodName := methodName;
      this.params := params;
      new;
      SetId(id, uuid := uuid);
    }

    /** `setId($id)`: stores `id`, or a fresh UUID string when `id` is null. */
    method SetId(id: JsonValue := JNull, nameonly uuid: string)
      modifies this
      ensures this.id == if id.JNull? then JString(uuid) else id
      ensures !this.id.JNull?
      ensures methodName == old(methodName) && params == old(params)
    {
      var value := id;
      if value.JNull? {
        value := JString(uuid);
      }
      this.id := value;
    }

    /** `toJson()`: jsonrpc, method and id, in that order, then params when it is an array. */
    function ToJson(): (data: Encoded)
      reads this
      ensures Keys(data) == ["jsonrpc", "method", "id"] + (if IsArray(params) then ["params"] else [])
      ensures data[0] == ("jsonrpc", JString("2.0")) && data[1] == ("method", JString(methodName))
      ensures data[2] == ("id", id)
      ensures IsArray(params) ==> data[3] == ("params", params)
    {
      var data := [("jsonrpc", JString(jsonrpc)), ("method", JString(methodName)), ("id", id)];
      if IsArray(params) then data + [("params", params)] else data
    }

    /** `__toString()`: the same as `toJson()`. */
    function ToString(): (data: Encoded)
      reads this
      ensures data == ToJson()
    {
      ToJson()
    }
  }

  /** `new Notification($method, $params)`: set once, never changed. */
  datatype Notification = Notification(methodName: string, params: Params := JNull)
  {
    const jsonrpc: string := "2.0"

    /** `toJson()`: jsonrpc and method, then params when it is an array; never an id. */
    function ToJson(): (data: Encoded)
      ensures Keys(data) == ["jsonrpc", "method"] + (if IsArray(params) then ["params"] else [])
      ensures data[0] == ("jsonrpc", JString("2.0")) && data[1] == ("method", JString(methodName))
      ensures IsArray(params) ==> data[2] == ("params", params)
      ensures "id" !in Keys(data)
    {
      var data := [("jsonrpc", JString(jsonrpc)), ("method", JString(methodName))];
      if IsArray(params) then data + [("params", params)] else data
    }

    /** `__toString()`: the same as `toJson()`. */
    function ToString(): (data: Encoded)
      ensures data == ToJson()
    {
      ToJson()
    }
  }
}
