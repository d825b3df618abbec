/**
 * What the server side makes of what the client side sends: a client request or
 * notification, once decoded, passes the server's member check and reads back
 * the method, params and id it was built with.
 */
module Interop {
  import opened Wrappers
  import opened Json
  import Client
  import Server

  /** A decoded client request has jsonrpc and method, its id, and params exactly when they are an array. */
  lemma RequestReadsBack(r: Client.Request)
    ensures var v := Decoded(r.ToJson());
            && Server.HasRequiredMembers(v)
            && Lookup(v, "jsonrpc") == Some(JString("2.0"))
            && Lookup(v, "method") == Some(JString(r.methodName))
            && Lookup(v, "id") == Some(r.id)
            && (HasKey(v, "params") <==> IsArray(r.params))
            && (IsArray(r.params) ==> Lookup(v, "params") == Some(r.params))
  {
    var data := r.ToJson();
    var keys := Keys(data);
    for k := 0 to |data|
      invariant forall i :: 0 <= i < k ==> Decoded(data).members[data[i].0] == data[i].1
    {
      assert keys[k] == data[k].0;
      DecodedLastWins(data, k);
    }
    DecodedKeys(data, "params");
    assert Server.RequiredMembers == ["jsonrpc", "method"];
  }

  /** A decoded notification has its version and method, its params exactly when they are an array, and no id key, so the server's `getId()` is null. */
  lemma NotificationReadsBack(n: Client.Notification)
    ensures var v := Decoded(n.ToJson());
            && Server.HasRequiredMembers(v)
            && Lookup(v, "jsonrpc") == Some(JString("2.0"))
            && Lookup(v, "method") == Some(JString(n.methodName))
            && !HasKey(v, "id")
            && Server.MemberOr(v, "id", JNull) == JNull
            && (HasKey(v, "params") <==> IsArray(n.params))
            && (IsArray(n.params) ==> Lookup(v, "params") == Some(n.params))
  {
    var data := n.ToJson();
    var keys := Keys(data);
    for k := 0 to |data|
      invariant forall i :: 0 <= i < k ==> Decoded(data).members[data[i].0] == data[i].1
    {
      assert keys[k] == data[k].0;
      DecodedLastWins(data, k);
    }
    DecodedKeys(data, "params");
    DecodedKeys(data, "id");
    assert Server.RequiredMembers == ["jsonrpc", "method"];
  }

  /**
   * A payload the server decodes to what a client request encoded survives
   * `parseJson` and the member check, and `Request::make` then reads back the
   * client's method, params and id (by the contract of `Server.Request.Make`).
   */
  lemma RequestPayloadParses(r: Client.Request, payload: string, decode: string -> Option<JsonValue>)
    requires decode(payload) == Some(Decoded(r.ToJson()))
    ensures Server.Request.ParseJson(payload, decode) == decode(payload)
    ensures var v := decode(payload).value;
            && Server.HasRequiredMembers(v)
            && Server.MemberOr(v, "jsonrpc", JNull) == JString("2.0")
            && Server.MemberOr(v, "method", JNull) == JString(r.methodName)
            && Server.MemberOr(v, "params", JNull) == r.params
            && Server.MemberOr(v, "id", JNull) == r.id
  {
    RequestReadsBack(r);
  }

  /** The same for a notification, whose id the server then reads as null. */
  lemma NotificationPayloadParses(n: Client.Notification, payload: string, decode: string -> Option<JsonValue>)
    requires decode(payload) == Some(Decoded(n.ToJson()))
    ensures Server.Request.ParseJson(payload, decode) == decode(payload)
    ensures var v := decode(payload).value;
            && Server.HasRequiredMembers(v)
            && Server.MemberOr(v, "jsonrpc", JNull) == JString("2.0")
            && Server.MemberOr(v, "method", JNull) == JString(n.methodName)
            && Server.MemberOr(v, "params", JNull) == n.params
            && Server.MemberOr(v, "id", JNull) == JNull
  {
    NotificationReadsBack(n);
  }
}
