/** GeminiProvider: Gemini behind the provider interface, with the first-sentence title rule. */
module GeminiProvider {
  import opened Wrappers
  import opened Text
  import opened Enums
  import opened Js
  import opened ExceptionHelper
  import opened AiResponse

  datatype GeminiProvider = GeminiProvider(apiKey: string)

  const GeminiFlash15 := "gemini-1.5-flash"

  /** The constructor: a missing (empty) `GEMINI_API_KEY` throws GEMINI_API_KEY_NOT_CONFIGURED/500. */
  function NewGeminiProvider(apiKey: string): (r: Result<GeminiProvider, HttpException>)
    ensures r.Ok? <==> apiKey != ""
    ensures r.Err? ==>
      && r.error.status == 500
      && Get(r.error.response, "errorCode") == Str("GEMINI_API_KEY_NOT_CONFIGURED")
  {
    if apiKey == "" then
      Err(DefaultError("GEMINI_API_KEY is not configured", "GEMINI_API_KEY_NOT_CONFIGURED", 500, Undefined))
    else Ok(GeminiProvider(apiKey))
  }

  /** `model || GEMINI_1_5_FLASH`; an absent model is the empty string. */
  function ModelOrDefault(model: string): (m: string)
    ensures m != ""
    ensures model != "" ==> m == model
  {
    if model != "" then model else GeminiFlash15
  }

  /** `generateContent`: never throws; a success is COMPLETED with the text as content and the
    * first-sentence rule as title, and any exception is the empty FAILED record. */
  function GenerateContent(prompt: string, model: string, vendor: (string, string) -> VendorOutcome): (r: AiResponse)
    ensures r.status == Completed || r == FailedResponse
    ensures var outcome := vendor(ModelOrDefault(model), prompt);
      && (r.status == Completed <==> outcome.Success?)
      && (outcome.Success? ==> r.content == outcome.text && r.title == TitleRule(outcome.text))
  {
    match vendor(ModelOrDefault(model), prompt)
    case Success(text) => AiResponse(text, TitleRule(text), Completed)
    case Error(_) => FailedResponse
  }

  /** `generateContentWithTitle` ignores the title prompt. */
  function GenerateContentWithTitle(contentPrompt: string, titlePrompt: string, model: string,
    vendor: (string, string) -> VendorOutcome): (r: AiResponse)
    ensures r == GenerateContent(contentPrompt, model, vendor)
  {
    GenerateContent(contentPrompt, model, vendor)
  }

  /** A completed record's title is a non-empty piece of a non-empty content. */
  lemma CompletedTitleIsFromContent(prompt: string, model: string, vendor: (string, string) -> VendorOutcome)
    requires GenerateContent(prompt, model, vendor).status == Completed
    ensures var r := GenerateContent(prompt, model, vendor);
      Contains(r.content, r.title) && (r.title == "" <==> r.content == "")
  {
    TitleRuleSpec(vendor(ModelOrDefault(model), prompt).text);
  }
}
