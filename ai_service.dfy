/**
 * AIService: one call to Google Gemini, mapped to `{content, title, status}`.
 * The SDK call is a parameter `vendor(model, prompt)`. The prompt argument is whatever the
 * caller passes: the signature declares a string, and the callers pass a prompt object (and a
 * provider argument that the method does not take), so it is a JavaScript value here.
 */
module AiService {
  import opened Wrappers
  import opened Enums
  import opened Js
  import opened ExceptionHelper
  import opened AiResponse

  datatype AiService = AiService(apiKey: string)

  const GeminiFlash2 := "gemini-2.0-flash"

  /** The constructor: a missing (empty) `GEMINI_API_KEY` throws GEMINI_API_KEY_NOT_CONFIGURED/500. */
  function NewAiService(apiKey: string): (r: Result<AiService, HttpException>)
    ensures r.Ok? <==> apiKey != ""
    ensures r.Ok? ==> r.value.apiKey == apiKey
    ensures r.Err? ==>
      && r.error.status == 500
      && Get(r.error.response, "errorCode") == Str("GEMINI_API_KEY_NOT_CONFIGURED")
  {
    if apiKey == "" then
      Err(DefaultError("GEMINI_API_KEY is not configured", "GEMINI_API_KEY_NOT_CONFIGURED", 500, Undefined))
    else Ok(AiService(apiKey))
  }

  /** `generateContent`: never throws; a success is COMPLETED with the whole text as both
    * content and title, and any exception is the empty FAILED record. */
  function GenerateContent(prompt: JsValue, vendor: (string, JsValue) -> VendorOutcome): (r: AiResponse)
    ensures r.status == Completed || r == FailedResponse
    ensures r.status == Completed <==> vendor(GeminiFlash2, prompt).Success?
    ensures r.status == Completed ==> r.content == vendor(GeminiFlash2, prompt).text && r.title == r.content
  {
    match vendor(GeminiFlash2, prompt)
    case Success(text) => AiResponse(text, text, Completed)
    case Error(_) => FailedResponse
  }

  /** The model is fixed: two vendors that agree on `gemini-2.0-flash` give the same record,
    * whatever they would do for any other model. */
  lemma ModelIsFixed(prompt: JsValue, v1: (string, JsValue) -> VendorOutcome, v2: (string, JsValue) -> VendorOutcome)
    requires v1(GeminiFlash2, prompt) == v2(GeminiFlash2, prompt)
    ensures GenerateContent(prompt, v1) == GenerateContent(prompt, v2)
  {
  }
}
