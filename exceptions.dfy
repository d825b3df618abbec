/**
 * The JSON-RPC error taxonomy: `ResponseException` and its three subclasses, each
 * with the reserved code and message of section 5.1 of the JSON-RPC 2.0
 * specification, and the sum of everything the kernel can catch.
 */
module Exceptions {
  import opened Wrappers
  import opened Json

  const ThrowableInterface := "Throwable"
  const ExceptionClass := "Exception"
  const JsonRpcExceptionClass := "VinyVicente\\JsonRpc\\Exceptions\\JsonRpcException"
  const ResponseExceptionClass := "VinyVicente\\JsonRpc\\Exceptions\\ResponseException"
  const ParseErrorExceptionClass := "VinyVicente\\JsonRpc\\Exceptions\\ParseErrorException"
  const InvalidRequestExceptionClass := "VinyVicente\\JsonRpc\\Exceptions\\InvalidRequestException"
  const MethodNotFoundExceptionClass := "VinyVicente\\JsonRpc\\Exceptions\\MethodNotFoundException"

  /** The concrete class of a `ResponseException` object. */
  datatype ErrorClass = ResponseClass | ParseErrorClass | InvalidRequestClass | MethodNotFoundClass

  function ClassName(c: ErrorClass): string
  {
    match c
    case ResponseClass => ResponseExceptionClass
    case ParseErrorClass => ParseErrorExceptionClass
    case InvalidRequestClass => InvalidRequestExceptionClass
    case MethodNotFoundClass => MethodNotFoundExceptionClass
  }

  /** The class names `ResponseException` and its subclasses own. */
  const ProtocolClasses: set<string> :=
    {ResponseExceptionClass, ParseErrorExceptionClass, InvalidRequestExceptionClass, MethodNotFoundExceptionClass}

  /** Every class and interface an object of class `c` is an `instanceof`. */
  function InstanceOfClass(c: ErrorClass): set<string>
  {
    {ClassName(c), ResponseExceptionClass, JsonRpcExceptionClass, ExceptionClass, ThrowableInterface}
  }

  /** The code a constructor of class `c` uses when none is passed. */
  function DefaultCode(c: ErrorClass): int
  {
    match c
    case ResponseClass => -32603
    case ParseErrorClass => -32700
    case InvalidRequestClass => -32600
    case MethodNotFoundClass => -32601
  }

  /** The message a constructor of class `c` uses when none is passed. */
  function DefaultMessage(c: ErrorClass): string
  {
    match c
    case ResponseClass => "Internal error"
    case ParseErrorClass => "Parse error"
    case InvalidRequestClass => "Invalid Request"
    case MethodNotFoundClass => "Method not found"
  }

  /** The default codes are pairwise distinct and lie in the range JSON-RPC 2.0 reserves, -32768 to -32000. */
  lemma DefaultCodesReserved(c: ErrorClass, d: ErrorClass)
    ensures -32768 <= DefaultCode(c) <= -32000
    ensures DefaultCode(c) == DefaultCode(d) <==> c == d
  {
  }

  /** What an `array $data = null` parameter admits: absent, or a decoded array. */
  type ArrayOrNull = d: Option<JsonValue> | d.Some? ==> IsArray(d.value) witness None

  class ResponseException {
    const errorClass: ErrorClass
    const message: string
    const code: int
    var data: ArrayOrNull

    /** `new ResponseException($message, $code, $data)`. */
    constructor (message: string := DefaultMessage(ResponseClass), code: int := DefaultCode(ResponseClass),
                 data: ArrayOrNull := None)
      ensures errorClass == ResponseClass && this.message == message && this.code == code
      ensures GetData() == data
    {
      errorClass := ResponseClass;
      this.message := message;
      this.code := code;
      this.data := data;
    }

    /** `new ParseErrorException($message, $code)`: no data is forwarded to the parent. */
    constructor ParseError(message: string := DefaultMessage(ParseErrorClass), code: int := DefaultCode(ParseErrorClass))
      ensures errorClass == ParseErrorClass && this.message == message && this.code == code
      ensures GetData() == None
    {
      errorClass := ParseErrorClass;
      this.message := message;
      this.code := code;
      data := None;
    }

    /** `new InvalidRequestException($message, $code)`: no data is forwarded to the parent. */
    constructor InvalidRequest(message: string := DefaultMessage(InvalidRequestClass),
                               code: int := DefaultCode(InvalidRequestClass))
      ensures errorClass == InvalidRequestClass && this.message == message && this.code == code
      ensures GetData() == None
    {
      errorClass := InvalidRequestClass;
      this.message := message;
      this.code := code;
      data := None;
    }

    /** `new MethodNotFoundException($message, $code)`: no data is forwarded to the parent. */
    constructor MethodNotFound(message: string := DefaultMessage(MethodNotFoundClass),
                               code: int := DefaultCode(MethodNotFoundClass))
      ensures errorClass == MethodNotFoundClass && this.message == message && this.code == code
      ensures GetData() == None
    {
      errorClass := MethodNotFoundClass;
      this.message := message;
      this.code := code;
      data := None;
    }

    /** Replaces the data; with no argument, clears it. */
    method SetData(data: ArrayOrNull := None)
      modifies this
      ensures GetData() == data
    {
      this.data := data;
    }

    /** `getData()`: an array or null, whatever was stored. */
    function GetData(): (d: Option<JsonValue>)
      reads this
      ensures d.Some? ==> IsArray(d.value)
    {
      data
    }

    /** True of an object built with a subclass constructor and no explicit message or code. */
    predicate HasDefaults()
    {
      message == DefaultMessage(errorClass) && code == DefaultCode(errorClass)
    }
  }

  /**
   * Class sets of exceptions outside the `ResponseException` family. Everything
   * the kernel catches and the handler is given is an `\Exception`, so also a `Throwable`.
   */
  type ForeignClasses = s: set<string> | s * ProtocolClasses == {} && ExceptionClass in s && ThrowableInterface in s
    witness {ExceptionClass, ThrowableInterface}

  /** Names that do not start as the package namespace does are foreign to the protocol classes. */
  lemma ForeignByFirstLetter(classes: set<string>)
    requires forall c :: c in classes ==> |c| > 0 && c[0] != 'V'
    ensures classes * ProtocolClasses == {}
  {
    assert forall c :: c in ProtocolClasses ==> c[0] == 'V';
  }

  /** Anything the kernel catches as `\Exception`. */
  datatype Exception =
    | Rpc(e: ResponseException)
    | Foreign(classes: ForeignClasses, message: string, code: int)
  {
    function GetCode(): int
    {
      match this
      case Rpc(e) => e.code
      case Foreign(_, _, code) => code
    }

    function GetMessage(): string
    {
      match this
      case Rpc(e) => e.message
      case Foreign(_, message, _) => message
    }

    /** The types `$e instanceof $type` holds for. */
    function InstanceOf(): (types: set<string>)
      ensures ResponseExceptionClass in types <==> Rpc?
    {
      match this
      case Rpc(e) => InstanceOfClass(e.errorClass)
      case Foreign(classes, _, _) =>
        assert classes * ProtocolClasses == {};
        assert ResponseExceptionClass in ProtocolClasses;
        assert ResponseExceptionClass !in classes * ProtocolClasses;
        classes
    }
  }
}
