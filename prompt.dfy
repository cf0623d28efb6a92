/**
 * PromptHelper: the content and title prompts sent to the AI provider.
 * An optional field that is absent is represented by the empty string, since the source only
 * ever tests these fields for truthiness; an absent history is the empty history.
 */
module PromptHelper {
  import opened Text
  import opened Enums

  datatype HistoryItem = HistoryItem(prompt: string, response: string)

  datatype CurrentRequest = CurrentRequest(prompt: string, tone: string, language: string, extraInstructions: string)

  /** `type` is the stored string of the thread's content type. */
  datatype PromptPayload = PromptPayload(contentType: string, history: seq<HistoryItem>, current: CurrentRequest)

  datatype PromptResponse = PromptResponse(contentPrompt: string, titlePrompt: string)

  /** `value || fallback` on a string. */
  function OrDefault(value: string, fallback: string): (r: string)
    ensures value != "" ==> r == value
    ensures value == "" ==> r == fallback
  {
    if value != "" then value else fallback
  }

  /** The verb phrase for a content type, `Generate content` for any other value. */
  function TypeVerb(contentType: string): string {
    match ParseContentType(contentType)
    case Some(BlogPost) => "Write a comprehensive blog post"
    case Some(ProductDescription) => "Write a compelling product description"
    case Some(SocialMediaCaption) => "Write an engaging social media caption"
    case Some(Article) => "Write a detailed article"
    case Some(Other) => "Generate content"
    case None => "Generate content"
  }

  function BaseInstruction(contentType: string, prompt: string): (r: string)
    ensures TypeVerb(contentType) <= r
    ensures Contains(r, prompt)
  {
    var lead := TypeVerb(contentType) + " based on the following: ";
    ContainsMiddle(lead, prompt, "");
    assert lead + prompt + "" == lead + prompt;
    lead + prompt
  }

  /** One block of the detailed history, numbered from 1. */
  function HistoryBlock(index: nat, h: HistoryItem): string {
    "#" + NatToString(index + 1) + " Previous Prompt:\n" + h.prompt + "\nPrevious Response:\n" + h.response
  }

  function HistoryBlocks(history: seq<HistoryItem>): (blocks: seq<string>)
    ensures |blocks| == |history|
    ensures forall i :: 0 <= i < |history| ==> blocks[i] == HistoryBlock(i, history[i])
  {
    seq(|history|, i requires 0 <= i < |history| => HistoryBlock(i, history[i]))
  }

  const NoHistory := "No previous context provided."

  /** `historyText`. */
  function HistoryText(history: seq<HistoryItem>): (r: string)
    ensures |history| == 0 ==> r == NoHistory
    ensures |history| > 0 ==> HistoryBlock(0, history[0]) <= r
  {
    if |history| == 0 then NoHistory
    else
      JoinStartsWith(HistoryBlocks(history), "\n\n");
      Join(HistoryBlocks(history), "\n\n")
  }

  /** The history text is the fixed sentence exactly when there is no history; otherwise it
    * holds each entry's block, numbered in order. */
  lemma HistoryTextSpec(history: seq<HistoryItem>)
    ensures HistoryText(history) == NoHistory <==> |history| == 0
    ensures forall i :: 0 <= i < |history| ==> Contains(HistoryText(history), HistoryBlock(i, history[i]))
  {
    if |history| > 0 {
      var blocks := HistoryBlocks(history);
      JoinStartsWith(blocks, "\n\n");
      assert HistoryText(history)[0] == blocks[0][0] == '#';
      forall i | 0 <= i < |history|
        ensures Contains(HistoryText(history), HistoryBlock(i, history[i]))
      {
        JoinContains(blocks, "\n\n", i);
      }
    }
  }

  /** The numbered lines `k+1. prompt` of the context list, from entry `k` on. */
  function ContextLinesFrom(history: seq<HistoryItem>, k: nat): string
    decreases |history| - k
  {
    if k >= |history| then "" else ContextLine(k, history[k]) + ContextLinesFrom(history, k + 1)
  }

  function ContextLine(index: nat, h: HistoryItem): string {
    NatToString(index + 1) + ". " + h.prompt + "\n"
  }

  const ContextHeader := "\n\nPrevious context:\n"
  const ContextFooter := "\nPlease consider the above context when generating the new content."

  /** `contextText`: empty without history, otherwise the numbered prompts between a header
    * and a closing sentence. */
  function ContextText(history: seq<HistoryItem>): (r: string)
    ensures r == "" <==> |history| == 0
    ensures |history| > 0 ==> ContextHeader <= r
  {
    if |history| == 0 then "" else ContextHeader + ContextLinesFrom(history, 0) + ContextFooter
  }

  /** The `forEach` loop that builds `contextText` with `+=`. */
  method BuildContextText(history: seq<HistoryItem>) returns (text: string)
    ensures text == ContextText(history)
  {
    text := "";
    if |history| > 0 {
      text := ContextHeader;
      ghost var listed := ContextHeader + ContextLinesFrom(history, 0);
      for i := 0 to |history|
        invariant text + ContextLinesFrom(history, i) == listed
      {
        var line, rest := ContextLine(i, history[i]), ContextLinesFrom(history, i + 1);
        assert ContextLinesFrom(history, i) == line + rest;
        assert (text + line) + rest == text + (line + rest);
        text := text + line;
      }
      assert text == listed;
      text := text + ContextFooter;
    }
  }

  /** Every entry from `k` on has its numbered line in the list. */
  lemma {:induction false} ContextLinesContain(history: seq<HistoryItem>, k: nat, i: nat)
    requires k <= i < |history|
    ensures Contains(ContextLinesFrom(history, k), ContextLine(i, history[i]))
    decreases i - k
  {
    var line := ContextLine(k, history[k]);
    var rest := ContextLinesFrom(history, k + 1);
    assert ContextLinesFrom(history, k) == line + rest;
    if i == k {
      ContainsMiddle("", line, rest);
      assert "" + line + rest == line + rest;
    } else {
      ContextLinesContain(history, k + 1, i);
      ContainsAfterPrefix(line, rest, ContextLine(i, history[i]));
    }
  }

  /** The context text is empty exactly when the history is, and lists every entry's line. */
  lemma ContextTextSpec(history: seq<HistoryItem>)
    ensures ContextText(history) == "" <==> |history| == 0
    ensures forall i :: 0 <= i < |history| ==> Contains(ContextText(history), ContextLine(i, history[i]))
  {
    forall i | 0 <= i < |history|
      ensures Contains(ContextText(history), ContextLine(i, history[i]))
    {
      var lines := ContextLinesFrom(history, 0);
      ContextLinesContain(history, 0, i);
      ContainsAfterPrefix(ContextHeader, lines, ContextLine(i, history[i]));
      ContainsBeforeSuffix(ContextHeader + lines, ContextFooter, ContextLine(i, history[i]));
    }
  }

  const DefaultInstruction := "Generate helpful, clear content based on the user's request.\nFollow the user's instructions carefully."
  const BlogPostInstruction := "Generate a complete blog post with clear headings and paragraphs.\nUse a friendly and readable style.\nMake sure the content flows logically from introduction to conclusion.\nInclude engaging subheadings and well-structured sections."
  const ArticleInstruction := "Generate a comprehensive article with clear headings and paragraphs.\nUse a professional and informative style.\nMake sure the content flows logically from introduction to conclusion.\nInclude detailed explanations and supporting information."
  const ProductDescriptionInstruction := "Generate a concise, persuasive product description.\nHighlight key features, benefits, and use cases.\nKeep it skimmable, with short paragraphs or bullet points if helpful.\nMake it compelling and easy to understand."
  const SocialMediaCaptionInstruction := "Generate a short social media caption (1\U{2013}3 sentences).\nMatch the requested tone.\nOptionally add 3\U{2013}5 relevant hashtags at the end.\nAvoid long paragraphs. Keep it engaging and concise."
  const OtherInstruction := DefaultInstruction + "\nEnsure the content is relevant and well-structured."

  function InstructionOf(t: ContentType): string {
    match t
    case BlogPost => BlogPostInstruction
    case Article => ArticleInstruction
    case ProductDescription => ProductDescriptionInstruction
    case SocialMediaCaption => SocialMediaCaptionInstruction
    case Other => OtherInstruction
  }

  /** `getTypeInstruction`: the content type's own text, and a default for any other value. */
  function GetTypeInstruction(contentType: string): (r: string)
    ensures forall t: ContentType :: contentType == t.Value() ==> r == InstructionOf(t)
    ensures ParseContentType(contentType).None? ==> r == DefaultInstruction
  {
    forall t: ContentType | contentType == t.Value()
      ensures ParseContentType(contentType).Some? && ParseContentType(contentType).value == t
    {
      ContentTypeRoundTrip(t);
    }
    match ParseContentType(contentType)
    case Some(t) => InstructionOf(t)
    case None => DefaultInstruction
  }

  /** Each content type gets a text of its own, different from every other type's and from the
    * default that any other value gets. */
  lemma TypeInstructionsDistinct(t1: ContentType, t2: ContentType, other: string)
    requires ParseContentType(other).None?
    ensures GetTypeInstruction(t1.Value()) != GetTypeInstruction(other)
    ensures t1 != t2 ==> GetTypeInstruction(t1.Value()) != GetTypeInstruction(t2.Value())
  {
    ContentTypeRoundTrip(t1);
    ContentTypeRoundTrip(t2);
    assert |DefaultInstruction| == 102;
    assert |OtherInstruction| == 154;
    assert |BlogPostInstruction| == 230;
    assert |ArticleInstruction| == 239;
    assert |ProductDescriptionInstruction| == 213;
    assert |SocialMediaCaptionInstruction| == 182;
  }

  const ContentFirst := "You are an AI content generator."
  const ContentLast := "without explanations about what you are doing."

  /** The content prompt between its first and its last sentence fragment. */
  function ContentMiddle(p: PromptPayload): string {
    "\n\n" + BaseInstruction(p.contentType, p.current.prompt) + ContextText(p.history) + ContentDetails(p)
  }

  /** The content prompt's sections after the instruction and the context list. */
  function ContentDetails(p: PromptPayload): string {
    "\n\n### Content Type\n" + p.contentType
      + "\n\n### Previous Context (Detailed)\n" + HistoryText(p.history)
      + "\n\n### Current Request Details\nTone: " + OrDefault(p.current.tone, "neutral")
      + "\nLanguage: " + OrDefault(p.current.language, "en")
      + "\nExtra Instructions: " + OrDefault(p.current.extraInstructions, "None.")
      + "\n\n### Task\n" + GetTypeInstruction(p.contentType)
      + "\nUse the previous context only as reference. Do NOT repeat earlier responses."
      + "\nReturn only the final content, "
  }

  /** The content template literal without its leading newline and trailing indentation. */
  function ContentPromptBody(p: PromptPayload): string {
    ContentFirst + ContentMiddle(p) + ContentLast
  }

  const TitleFirst := "You are an expert title generator."
  const TitleLast := "and clear for the overall topic."

  /** The title prompt up to the history text. */
  function TitleHead(p: PromptPayload): string {
    "\n\n### Context\nWe are generating a new piece of content with the following details:"
      + "\n\nContent Type: " + p.contentType
      + "\nTone: " + OrDefault(p.current.tone, "neutral")
      + "\nLanguage: " + OrDefault(p.current.language, "en")
      + "\n\nPrevious Context (if any):\n"
  }

  const TitleTask := "\n\n### Task\nGenerate a short, catchy, human-friendly title for this content thread."
    + "\n- Maximum 8\U{2013}10 words.\n- No quotes around the title.\n- Make it relevant "

  function TitleMiddle(p: PromptPayload): string {
    TitleHead(p) + HistoryText(p.history) + "\n\nCurrent Prompt:\n" + p.current.prompt + TitleTask
  }

  /** The title template literal without its leading newline and trailing indentation. */
  function TitlePromptBody(p: PromptPayload): string {
    TitleFirst + TitleMiddle(p) + TitleLast
  }

  /** `buildContentGenerationPrompts`: both template literals, trimmed. */
  function BuildContentGenerationPrompts(p: PromptPayload): (r: PromptResponse)
    ensures Trimmed(r.contentPrompt) && Trimmed(r.titlePrompt)
  {
    var content := "\n" + ContentPromptBody(p) + "\n  ";
    var title := "\n" + TitlePromptBody(p) + "\n  ";
    TrimSpec(content);
    TrimSpec(title);
    PromptResponse(Trim(content), Trim(title))
  }

  /** Trimming removes exactly the templates' framing newline and indentation. */
  lemma PromptsAreBodies(p: PromptPayload)
    ensures BuildContentGenerationPrompts(p).contentPrompt == ContentPromptBody(p)
    ensures BuildContentGenerationPrompts(p).titlePrompt == TitlePromptBody(p)
  {
    assert ContentFirst[0] == 'Y' && ContentLast[|ContentLast| - 1] == '.';
    assert TitleFirst[0] == 'Y' && TitleLast[|TitleLast| - 1] == '.';
    TrimOfFramed(ContentFirst, ContentMiddle(p), ContentLast);
    TrimOfFramed(TitleFirst, TitleMiddle(p), TitleLast);
  }

  /** The title prompt quotes the current prompt and the history text. */
  lemma TitlePromptQuotes(p: PromptPayload)
    ensures Contains(BuildContentGenerationPrompts(p).titlePrompt, p.current.prompt)
    ensures Contains(BuildContentGenerationPrompts(p).titlePrompt, HistoryText(p.history))
  {
    PromptsAreBodies(p);
    var h := HistoryText(p.history);
    var mid := "\n\nCurrent Prompt:\n";
    var prompt := p.current.prompt;
    ContainsMiddle(TitleHead(p) + h + mid, prompt, TitleTask);
    ContainsMiddle(TitleHead(p), h, mid);
    ContainsBeforeSuffix(TitleHead(p) + h + mid, prompt, h);
    ContainsBeforeSuffix(TitleHead(p) + h + mid + prompt, TitleTask, h);
    InFramed(TitleFirst, TitleMiddle(p), TitleLast, prompt);
    InFramed(TitleFirst, TitleMiddle(p), TitleLast, h);
  }

  lemma InFramed(first: string, middle: string, last: string, needle: string)
    requires Contains(middle, needle)
    ensures Contains(first + middle + last, needle)
  {
    ContainsAfterPrefix(first, middle, needle);
    ContainsBeforeSuffix(first + middle, last, needle);
  }

  /** The content prompt carries the base instruction with the current prompt, followed by the
    * numbered context list (empty without history). */
  lemma ContentPromptQuotes(p: PromptPayload)
    ensures Contains(BuildContentGenerationPrompts(p).contentPrompt,
      BaseInstruction(p.contentType, p.current.prompt) + ContextText(p.history))
  {
    PromptsAreBodies(p);
    var b := BaseInstruction(p.contentType, p.current.prompt);
    var c := ContextText(p.history);
    ContainsAdjacent("\n\n", b, c, ContentDetails(p));
    InFramed(ContentFirst, ContentMiddle(p), ContentLast, b + c);
  }
}
