/**
 * OpenRouterProvider: one chat-completion request per call, with JSON or plain-text
 * normalisation of the reply. The HTTP post is a parameter `post(request)`, and `JSON.parse`
 * is a parameter `jsonParse(text)` whose `Err` stands for a thrown SyntaxError.
 */
module OpenRouterProvider {
  import opened Wrappers
  import opened Text
  import opened Enums
  import opened Js
  import opened ExceptionHelper
  import opened AiResponse

  /** `IAiPrompt`; an absent `expectedResponseFormat` is the empty string. */
  datatype AiPrompt = AiPrompt(contentPrompt: string, titlePrompt: string, expectedResponseFormat: string)

  datatype ChatMessage = ChatMessage(role: string, content: string)

  datatype RequestBody = RequestBody(model: string, messages: seq<ChatMessage>, maxTokens: int, responseFormat: Option<string>)

  datatype Request = Request(url: string, body: RequestBody, headers: map<string, string>)

  /** What the post comes back with: `choices?.[0]?.message?.content || ''` (the empty string
    * when the reply holds no text), or an exception. */
  datatype PostOutcome = Replied(text: string) | PostFailed(message: string)

  /** The provider's record. A parsed JSON reply may carry non-string values in `content` or
    * `title`, which the source returns as they are, so the fields are JavaScript values. */
  datatype ProviderReply = ProviderReply(content: JsValue, title: JsValue, status: ContentStatus)

  const ApiUrl := "https://openrouter.ai/api/v1/chat/completions"
  const DefaultModel := "openai/gpt-4o"
  const MaxTokens := 1000
  const FailedReply := ProviderReply(Str(""), Str(""), Failed)

  /** The combined prompt the request carries. */
  function CombinedPrompt(p: AiPrompt): (r: string)
    ensures p.contentPrompt + "\n\n" + p.titlePrompt <= r
    ensures p.expectedResponseFormat != "" ==>
      |p.expectedResponseFormat| <= |r| && r[|r| - |p.expectedResponseFormat|..] == p.expectedResponseFormat
  {
    var base := p.contentPrompt + "\n\n" + p.titlePrompt;
    if p.expectedResponseFormat != "" then base + "\n\nPlease respond in JSON format:\n" + p.expectedResponseFormat
    else base
  }

  /** The JSON instruction is appended exactly when a response format is given. */
  lemma CombinedPromptSpec(p: AiPrompt)
    ensures p.contentPrompt + "\n\n" + p.titlePrompt <= CombinedPrompt(p)
    ensures p.expectedResponseFormat == "" <==> CombinedPrompt(p) == p.contentPrompt + "\n\n" + p.titlePrompt
  {
    var base := p.contentPrompt + "\n\n" + p.titlePrompt;
    if p.expectedResponseFormat != "" {
      assert |CombinedPrompt(p)| > |base|;
    }
  }

  /** The request body `generateContent` posts for a prompt and a model. */
  function RequestBodyFor(p: AiPrompt, model: string): (r: RequestBody)
    ensures r.model == model && r.maxTokens == 1000
    ensures |r.messages| == 1 && r.messages[0] == ChatMessage("user", CombinedPrompt(p))
    ensures r.responseFormat.Some? <==> p.expectedResponseFormat != ""
  {
    RequestBody(model, [ChatMessage("user", CombinedPrompt(p))], MaxTokens,
      if p.expectedResponseFormat != "" then Some("json_object") else None)
  }

  /** The `json` branch: `None` where reading `content`/`title` or splitting the content throws,
    * which sends the source to the plain-text fallback. */
  function JsonReply(parsed: JsValue): (r: Option<ProviderReply>)
    ensures r.Some? ==> r.value.status == Completed
    ensures parsed.Null? ==> r.None?
  {
    if parsed.Null? || parsed.Undefined? then None
    else
      var content := if Truthy(Get(parsed, "content")) then Get(parsed, "content") else Str("");
      var title := Get(parsed, "title");
      if Truthy(title) then Some(ProviderReply(content, title, Completed))
      else if content.Str? then Some(ProviderReply(content, Str(TitleRule(content.s)), Completed))
      else None
  }

  /** The plain-text branch. */
  function TextReply(text: string): ProviderReply {
    ProviderReply(Str(text), Str(TitleRule(text)), Completed)
  }

  /** The record for one post outcome. */
  function Normalise(outcome: PostOutcome, jsonMode: bool, jsonParse: string -> Result<JsValue, string>): (r: ProviderReply)
    ensures r.status == Completed <==> outcome.Replied?
    ensures r.status == Completed || r == FailedReply
  {
    match outcome
    case PostFailed(_) => FailedReply
    case Replied(text) =>
      if !jsonMode then TextReply(text)
      else match jsonParse(text)
        case Err(_) => TextReply(text)
        case Ok(parsed) =>
          match JsonReply(parsed)
          case Some(reply) => reply
          case None => TextReply(text)
  }

  /** An unparseable JSON reply is handled as plain text and is still COMPLETED. */
  lemma UnparseableFallsBack(text: string, jsonParse: string -> Result<JsValue, string>)
    requires jsonParse(text).Err?
    ensures Normalise(Replied(text), true, jsonParse) == TextReply(text)
    ensures Normalise(Replied(text), true, jsonParse).status == Completed
  {
  }

  /** An empty reply gives COMPLETED with empty content and title (the empty string is not
    * valid JSON). */
  lemma EmptyReplyIsEmpty(jsonMode: bool, jsonParse: string -> Result<JsValue, string>)
    requires jsonParse("").Err?
    ensures Normalise(Replied(""), jsonMode, jsonParse) == ProviderReply(Str(""), Str(""), Completed)
  {
    TitleRuleSpec("");
  }

  /** A parsed object with a string content: the content (or `''`), and the title from the
    * object, or else from the content by the first-sentence rule. */
  lemma ParsedObjectReply(fields: map<string, JsValue>, c: string)
    requires "content" in fields && fields["content"] == Str(c)
    ensures var r := JsonReply(Obj(fields));
      && r.Some? && r.value.content == Str(c)
      && (if "title" in fields && Truthy(fields["title"]) then r.value.title == fields["title"]
          else r.value.title == Str(TitleRule(c)))
  {
  }

  /** A parse without a truthy `content` gives `''` as content, and `''.split` cannot throw: the
    * title is `parsed.title` when truthy, and otherwise the empty title of the empty content. */
  lemma FalsyContentReply(parsed: JsValue)
    requires !parsed.Null? && !parsed.Undefined? && !Truthy(Get(parsed, "content"))
    ensures JsonReply(parsed) == Some(ProviderReply(Str(""),
      if Truthy(Get(parsed, "title")) then Get(parsed, "title") else Str(""), Completed))
  {
    TitleRuleSpec("");
  }

  /** A truthy `content` that is not a string has no `split`, so without a truthy title the
    * access throws and the reply is read as plain text. */
  lemma NonStringContentFallsBack(text: string, fields: map<string, JsValue>,
    jsonParse: string -> Result<JsValue, string>)
    requires jsonParse(text) == Ok(Obj(fields))
    requires "content" in fields && Truthy(fields["content"]) && !fields["content"].Str?
    requires !("title" in fields && Truthy(fields["title"]))
    ensures JsonReply(Obj(fields)).None?
    ensures Normalise(Replied(text), true, jsonParse) == TextReply(text)
  {
  }

  class OpenRouterProvider {
    const apiKey: string
    const siteUrl: string
    const siteName: string

    /** Reads the configuration: a missing key is kept as `''`, the site URL and name get their
      * defaults. */
    constructor(configApiKey: string, configSiteUrl: string, configSiteName: string)
      ensures apiKey == configApiKey
      ensures siteUrl == (if configSiteUrl != "" then configSiteUrl else "https://ai-content-studio.com")
      ensures siteName == (if configSiteName != "" then configSiteName else "AI Content Studio")
    {
      apiKey := configApiKey;
      siteUrl := if configSiteUrl != "" then configSiteUrl else "https://ai-content-studio.com";
      siteName := if configSiteName != "" then configSiteName else "AI Content Studio";
    }

    function Headers(): map<string, string>
      reads this
    {
      map["Authorization" := "Bearer " + apiKey, "HTTP-Referer" := siteUrl, "X-Title" := siteName]
    }

    /** The request assembly: the combined prompt is built by appending, and the body gains
      * `response_format` when a format is expected. */
    method BuildRequest(p: AiPrompt, model: string) returns (request: Request)
      ensures request.url == ApiUrl && request.headers == Headers()
      ensures request.body == RequestBodyFor(p, model)
      ensures request.body.messages == [ChatMessage("user", CombinedPrompt(p))]
      ensures request.body.maxTokens == 1000
      ensures request.body.responseFormat.Some? <==> p.expectedResponseFormat != ""
    {
      var combinedPrompt := p.contentPrompt + "\n\n" + p.titlePrompt;
      if p.expectedResponseFormat != "" {
        combinedPrompt := combinedPrompt + "\n\nPlease respond in JSON format:\n" + p.expectedResponseFormat;
      }
      var body := RequestBody(model, [ChatMessage("user", combinedPrompt)], MaxTokens, None);
      if p.expectedResponseFormat != "" {
        body := body.(responseFormat := Some("json_object"));
      }
      request := Request(ApiUrl, body, Headers());
    }

    /** `generateContent(aiPrompt, model = 'openai/gpt-4o')`: `sent` is the request posted, if
      * any. Without a key nothing is posted and the record is FAILED; otherwise the record is
      * the normalised reply. The method never throws. */
    method GenerateContent(p: AiPrompt, model: Option<string>, post: Request -> PostOutcome,
      jsonParse: string -> Result<JsValue, string>) returns (reply: ProviderReply, sent: Option<Request>)
      ensures apiKey == "" ==> sent.None? && reply == FailedReply
      ensures apiKey != "" ==>
        && sent.Some?
        && sent.value.body == RequestBodyFor(p, model.GetOr(DefaultModel))
        && reply == Normalise(post(sent.value), p.expectedResponseFormat != "", jsonParse)
      ensures reply.status == Completed || reply == FailedReply
    {
      if apiKey == "" {
        return FailedReply, None;
      }
      var request := BuildRequest(p, model.GetOr(DefaultModel));
      sent := Some(request);
      reply := Normalise(post(request), p.expectedResponseFormat != "", jsonParse);
    }
  }
}
