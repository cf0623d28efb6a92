/**
 * The exception records that exceptions.helper.ts throws. A thrown Nest `HttpException` is
 * modelled as the value thrown: its HTTP status, its response body and its `message`.
 */
module ExceptionHelper {
  import opened Js

  datatype HttpException = HttpException(status: int, response: JsValue, message: string)

  /** `obj[key]` on a response body: `undefined` for a missing key or a non-object. */
  function Get(v: JsValue, key: string): (r: JsValue)
    ensures r != Undefined ==> v.Obj? && key in v.fields && r == v.fields[key]
  {
    if v.Obj? && key in v.fields then v.fields[key] else Undefined
  }

  /** `a ?? b`. */
  function Coalesce(a: JsValue, b: JsValue): (r: JsValue)
    ensures r == a || r == b
    ensures r == a <==> (!a.Null? && !a.Undefined?) || a == b
  {
    if a.Null? || a.Undefined? then b else a
  }

  /** The `message` Nest gives an exception: the body itself when it is a string, the body's
    * `message` when that is a string, and otherwise the words of the exception's class name. */
  function NestMessage(response: JsValue, className: string): (m: string)
    ensures response.Str? ==> m == response.s
    ensures !response.Str? && Get(response, "message").Str? ==> m == Get(response, "message").s
    ensures !response.Str? && !Get(response, "message").Str? ==> m == className
  {
    if response.Str? then response.s
    else if Get(response, "message").Str? then Get(response, "message").s
    else className
  }

  function Throw(status: int, response: JsValue, className: string): (e: HttpException)
    ensures e.status == status && e.response == response
  {
    HttpException(status, response, NestMessage(response, className))
  }

  /** The body `{statusCode, message: [message]}` shared by the three fixed-status exceptions. */
  function ListBody(statusCode: int, message: string): JsValue {
    Obj(map["statusCode" := Num(statusCode), "message" := Arr([Str(message)])])
  }

  /** `notFoundException`: always thrown, with status 404. */
  function NotFoundException(message: string): (e: HttpException)
    ensures e.status == 404
    ensures Get(e.response, "message") == Arr([Str(message)])
  {
    Throw(404, ListBody(404, message), "Not Found Exception")
  }

  /** `unauthorizedException`: always thrown, with status 401. */
  function UnauthorizedException(message: string): (e: HttpException)
    ensures e.status == 401
    ensures Get(e.response, "message") == Arr([Str(message)])
  {
    Throw(401, ListBody(401, message), "Unauthorized Exception")
  }

  /** `badRequestException`: a 400 exception whose body claims status 403. */
  function BadRequestException(message: string): (e: HttpException)
    ensures e.status == 400
    ensures Get(e.response, "statusCode") == Num(403)
    ensures Get(e.response, "message") == Arr([Str(message)])
  {
    Throw(400, ListBody(403, message), "Bad Request Exception")
  }

  /** `defaultError(message, errorCode, statusCode, data?)`: always thrown, with the HTTP status
    * equal to `statusCode` and an `IError` body; an absent `data` is passed as `Undefined`. */
  function DefaultError(message: string, errorCode: string, statusCode: int, data: JsValue): (e: HttpException)
    ensures e.status == statusCode
    ensures Get(e.response, "status") == Num(statusCode)
    ensures Get(e.response, "errorCode") == Str(errorCode)
    ensures Get(e.response, "message") == Str(message)
    ensures Get(e.response, "data") == (if Truthy(data) then data else Obj(map[]))
  {
    var body := map[
      "status" := Num(statusCode),
      "errorCode" := Str(errorCode),
      "message" := Str(if message != "" then message else ""),
      "data" := if Truthy(data) then data else Obj(map[])];
    Throw(statusCode, Obj(body), "Http Exception")
  }
}
