/**
 * HttpExceptionFilter.catch: the JSON error response derived from a thrown `HttpException`.
 * Writing the response to the wire is I/O and is not modelled; the value written is.
 */
module HttpExceptionFilter {
  import opened Text
  import opened Js
  import opened ExceptionHelper

  datatype ErrorResponse = ErrorResponse(status: int, errorCode: JsValue, message: JsValue, data: JsValue)

  /** `s.replace(/\s+/g, '_')`, where `inRun` says whether the previous character was white space. */
  function ReplaceSpaceRuns(s: string, inRun: bool): (r: string)
    ensures forall i :: 0 <= i < |r| ==> !IsSpace(r[i])
    ensures |r| <= |s|
  {
    if |s| == 0 then ""
    else if IsSpace(s[0]) then (if inRun then "" else "_") + ReplaceSpaceRuns(s[1..], true)
    else [s[0]] + ReplaceSpaceRuns(s[1..], false)
  }

  /** The error code of one message: white-space runs become `_`, letters are lowered. */
  function Slug(s: string): (r: string)
    ensures forall i :: 0 <= i < |r| ==> !IsSpace(r[i])
  {
    var t := ReplaceSpaceRuns(s, false);
    assert forall i :: 0 <= i < |t| ==> !IsSpace(LowerChar(t[i]));
    AsciiLower(t)
  }

  lemma {:induction false} ReplaceOfUnspaced(s: string, inRun: bool)
    requires forall i :: 0 <= i < |s| ==> !IsSpace(s[i])
    ensures ReplaceSpaceRuns(s, inRun) == s
  {
    if |s| > 0 {
      ReplaceOfUnspaced(s[1..], false);
    }
  }

  /** A message without white space keeps its shape and is only lowered. */
  lemma SlugOfUnspaced(s: string)
    requires forall i :: 0 <= i < |s| ==> !IsSpace(s[i])
    ensures Slug(s) == AsciiLower(s)
  {
    ReplaceOfUnspaced(s, false);
  }

  /** An error code is its own error code. */
  lemma SlugIdempotent(s: string)
    ensures Slug(Slug(s)) == Slug(s)
  {
    var r := Slug(s);
    SlugOfUnspaced(r);
    assert AsciiLower(r) == r;
  }

  /** `String(m).replace(/\s+/g, '_').toLowerCase()` for each message, in order. */
  function MessageCodes(items: seq<JsValue>): (codes: seq<string>)
    ensures |codes| == |items|
    ensures forall i :: 0 <= i < |items| ==> codes[i] == Slug(ToJsString(items[i]))
  {
    seq(|items|, i requires 0 <= i < |items| => Slug(ToJsString(items[i])))
  }

  /** The loop of `catch` that pushes one code per message. */
  method BuildErrorCodes(items: seq<JsValue>) returns (codes: seq<string>)
    ensures codes == MessageCodes(items)
  {
    codes := [];
    for i := 0 to |items|
      invariant codes == MessageCodes(items[..i])
    {
      codes := codes + [Slug(ToJsString(items[i]))];
      assert items[..i + 1][..i] == items[..i];
    }
    assert items[..|items|] == items;
  }

  /** The response `message`: an array of messages joined with ", ", otherwise the body's
    * message, or the exception's own message when that is falsy. */
  function ResponseMessage(messages: JsValue, fallback: string): (r: JsValue)
    ensures messages.Arr? ==> r.Str?
    ensures !messages.Arr? && Truthy(messages) ==> r == messages
    ensures !Truthy(messages) && !messages.Arr? ==> r == Str(fallback)
  {
    if messages.Arr? then Str(ArrayJoin(messages, ", "))
    else if Truthy(messages) then messages
    else Str(fallback)
  }

  /** The derived error code: a list for several messages, one string for one message (or for a
    * single non-array message), and `''` when the messages are falsy. */
  function DerivedCode(messages: JsValue): (r: JsValue)
    ensures r.Str? || (messages.Arr? && r.Arr? && |r.items| == |messages.items| > 1)
    ensures r.Str? ==> forall i :: 0 <= i < |r.s| ==> !IsSpace(r.s[i])
  {
    if !Truthy(messages) then Str("")
    else if messages.Arr? && |messages.items| > 1 then
      var codes := MessageCodes(messages.items);
      Arr(seq(|codes|, i requires 0 <= i < |codes| => Str(codes[i])))
    else if messages.Arr? && |messages.items| == 1 then Str(Slug(ToJsString(messages.items[0])))
    else Str(Slug(ToJsString(messages)))
  }

  /** The response `catch` writes for an exception. */
  function ResponseOf(e: HttpException): (r: ErrorResponse)
    ensures r.status == e.status
    ensures r.data == Get(e.response, "data") || r.data == Obj(map[])
    ensures Get(e.response, "errorCode").Str? ==> r.errorCode == Get(e.response, "errorCode")
  {
    var messages := Get(e.response, "message");
    ErrorResponse(
      e.status,
      Coalesce(Get(e.response, "errorCode"), DerivedCode(messages)),
      ResponseMessage(messages, e.message),
      Coalesce(Get(e.response, "data"), Obj(map[])))
  }

  /** `catch`, with the error-code loop as written. */
  method Catch(e: HttpException) returns (r: ErrorResponse)
    ensures r == ResponseOf(e)
    ensures r.status == e.status
  {
    var messages := Get(e.response, "message");
    var message := ResponseMessage(messages, e.message);
    var errorCodes := Str("");
    if Truthy(messages) {
      if messages.Arr? && |messages.items| > 1 {
        var codes := BuildErrorCodes(messages.items);
        errorCodes := Arr(seq(|codes|, i requires 0 <= i < |codes| => Str(codes[i])));
      } else if messages.Arr? && |messages.items| == 1 {
        errorCodes := Str(Slug(ToJsString(messages.items[0])));
      } else {
        errorCodes := Str(Slug(ToJsString(messages)));
      }
    }
    r := ErrorResponse(e.status, Coalesce(Get(e.response, "errorCode"), errorCodes), message,
      Coalesce(Get(e.response, "data"), Obj(map[])));
  }

  /** Several messages give one code per message, in order, and the joined message. */
  lemma ManyMessagesGiveManyCodes(e: HttpException)
    requires Get(e.response, "message").Arr? && |Get(e.response, "message").items| > 1
    requires Get(e.response, "errorCode") == Undefined
    ensures var items := Get(e.response, "message").items;
      && ResponseOf(e).errorCode.Arr?
      && |ResponseOf(e).errorCode.items| == |items|
      && forall i :: 0 <= i < |items| ==> ResponseOf(e).errorCode.items[i] == Str(Slug(ToJsString(items[i])))
  {
  }

  /** A `defaultError` comes out of the filter with its status, code, message and data. */
  lemma DefaultErrorResponse(message: string, errorCode: string, statusCode: int, data: JsValue)
    ensures ResponseOf(DefaultError(message, errorCode, statusCode, data))
      == ErrorResponse(statusCode, Str(errorCode), Str(message), if Truthy(data) then data else Obj(map[]))
  {
    var e := DefaultError(message, errorCode, statusCode, data);
    assert e.message == message;
  }

  lemma SingletonJoin(m: string, sep: string)
    ensures ArrayJoin(Arr([Str(m)]), sep) == m
  {
    var parts := seq(1, i requires 0 <= i < 1 => m);
    assert parts == [m];
  }

  /** A `notFoundException` comes out with status 404, its message, the message's code and no data. */
  lemma NotFoundResponse(message: string)
    ensures ResponseOf(NotFoundException(message))
      == ErrorResponse(404, Str(Slug(message)), Str(message), Obj(map[]))
  {
    SingletonJoin(message, ", ");
  }

  /** An `unauthorizedException` comes out the same way with status 401. */
  lemma UnauthorizedResponse(message: string)
    ensures ResponseOf(UnauthorizedException(message))
      == ErrorResponse(401, Str(Slug(message)), Str(message), Obj(map[]))
  {
    SingletonJoin(message, ", ");
  }

  /** A `badRequestException` is answered with status 400, not the 403 its body names. */
  lemma BadRequestResponse(message: string)
    ensures ResponseOf(BadRequestException(message))
      == ErrorResponse(400, Str(Slug(message)), Str(message), Obj(map[]))
  {
    SingletonJoin(message, ", ");
  }
}
