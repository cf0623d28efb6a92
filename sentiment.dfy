/**
 * SentimentService: asks the AI service for a one-word sentiment of a text, reads the label out
 * of the answer, and stores it on the user's content record.
 */
module SentimentService {
  import opened Wrappers
  import opened Enums
  import opened Text
  import opened Js
  import opened ExceptionHelper
  import opened AiResponse
  import opened ContentRepository
  import opened ContentService
  import AiService

  /** `AnalysisDto`: the text to analyse and the record that receives the label. */
  datatype AnalysisDto = AnalysisDto(prompt: string, contentId: string)

  /** The lower-case word each label is written as. */
  function Word(s: Sentiment): string {
    match s
    case Positive => "positive"
    case Negative => "negative"
    case Neutral => "neutral"
  }

  const Instruction := "Analyze the sentiment of the following text and respond with only one word: \"positive\", \"negative\", or \"neutral\".\n\nText: "

  const SentimentFormat := "{\"sentiment\": \"positive|negative|neutral\"}"

  /** The `IAiPrompt` object sent to the AI service for `text`. */
  function SentimentPrompt(text: string): (p: JsValue)
    ensures p.Obj? && p.fields.Keys == {"contentPrompt", "titlePrompt", "expectedResponseFormat"}
    ensures p.fields["contentPrompt"] == Str(Instruction + text)
    ensures p.fields["titlePrompt"] == Str("")
    ensures p.fields["expectedResponseFormat"] == Str(SentimentFormat)
  {
    Obj(map["contentPrompt" := Str(Instruction + text),
            "titlePrompt" := Str(""),
            "expectedResponseFormat" := Str(SentimentFormat)])
  }

  /** `extractSentiment`: POSITIVE when the lower-cased answer mentions "positive" anywhere,
    * otherwise NEGATIVE when it mentions "negative", otherwise NEUTRAL. Trimming the answer
    * first makes no difference, since neither word starts or ends with white space. */
  function ExtractSentiment(content: string): (s: Sentiment)
    ensures s == Positive <==> Contains(AsciiLower(content), "positive")
    ensures s == Negative <==> !Contains(AsciiLower(content), "positive") && Contains(AsciiLower(content), "negative")
    ensures s == Neutral <==> !Contains(AsciiLower(content), "positive") && !Contains(AsciiLower(content), "negative")
  {
    var normalized := Trim(AsciiLower(content));
    ContainsTrimmed(AsciiLower(content), "positive");
    ContainsTrimmed(AsciiLower(content), "negative");
    if Contains(normalized, "positive") then Positive
    else if Contains(normalized, "negative") then Negative
    else Neutral
  }

  /** An answer that is exactly one of the requested words, in any letter case, is read back as
    * that label. */
  lemma {:induction false} ExtractWord(s: Sentiment, answer: string)
    requires AsciiLower(answer) == Word(s)
    ensures ExtractSentiment(answer) == s
  {
    var lower := AsciiLower(answer);
    match s
    case Positive =>
      assert OccursAt(lower, "positive", 0);
    case Negative =>
      assert OccursAt(lower, "negative", 0);
      assert !OccursAt(lower, "positive", 0) by {
        assert lower[0] == 'n';
      }
    case Neutral =>
  }

  /** A failed AI call, whose content is empty, always yields NEUTRAL. */
  lemma FailedCallIsNeutral(prompt: JsValue, vendor: (string, JsValue) -> VendorOutcome)
    requires vendor(AiService.GeminiFlash2, prompt).Error?
    ensures ExtractSentiment(AiService.GenerateContent(prompt, vendor).content) == Neutral
  {
    assert AiService.GenerateContent(prompt, vendor).content == "";
    assert AsciiLower("") == "";
  }

  class SentimentService {
    const contentService: ContentService

    ghost predicate Valid()
      reads this, contentService, contentService.contents, contentService.threadService,
        contentService.threadService.threads, contentService.sse, contentService.sse.Streams()
    {
      contentService.Valid()
    }

    constructor(contentService: ContentService)
      requires contentService.Valid()
      ensures this.contentService == contentService && Valid()
    {
      this.contentService := contentService;
    }

    /** `analyzeSentiment`: CONTENT_NOT_FOUND/404 and no change unless the record belongs to
      * the user; otherwise the label read from the AI answer to `SentimentPrompt(dto.prompt)`
      * is stored on the record, which keeps every other field, and returned. */
    method AnalyzeSentiment(userId: string, dto: AnalysisDto, vendor: (string, JsValue) -> VendorOutcome)
      returns (r: Result<Sentiment, HttpException>)
      requires Valid()
      modifies contentService.contents
      ensures Valid()
      ensures contentService.contents.issued == old(contentService.contents.issued)
      ensures old(contentService.FindOne(dto.contentId, userId)).Err? ==>
        r == Err(ContentNotFound) && contentService.contents.table == old(contentService.contents.table)
      ensures old(contentService.FindOne(dto.contentId, userId)).Ok? ==>
        var s := ExtractSentiment(AiService.GenerateContent(SentimentPrompt(dto.prompt), vendor).content);
        && r == Ok(s)
        && contentService.contents.table ==
             old(contentService.contents.table)[dto.contentId := old(contentService.contents.table[dto.contentId]).(sentiment := s)]
    {
      var owned := contentService.FindOne(dto.contentId, userId);
      if owned.Err? {
        return Err(owned.error);
      }
      var aiResponse := AiService.GenerateContent(SentimentPrompt(dto.prompt), vendor);
      var sentiment := ExtractSentiment(aiResponse.content);
      var updated := contentService.Update(dto.contentId, sentiment);
      r := if updated.Ok? then Ok(sentiment) else Err(ContentUpdateFailed);
    }
  }
}
