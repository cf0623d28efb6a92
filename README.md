# ai-content-studio-backend in Dafny

This project models the content-generation pipeline of the ai-content-studio backend (a NestJS
service) and the helpers that pipeline and the user/auth flow depend on. The pipeline has
four steps:

1. A user submits a prompt.
2. The service resolves or creates a thread and stores one PENDING content record.
3. It queues one GENERATE_CONTENT job.
4. When the job runs, the service marks the record PROCESSING, asks the AI service, writes the
   answer and its status, notifies the user over server-sent events, and renames the thread
   after its first completed generation.

Around the pipeline the model covers:

- **Tables.** The thread and content tables, the user table, and the SSE connection map.
- **AI layer.** The AI service and its two providers (Gemini, OpenRouter), and the
  first-sentence title rule.
- **Prompts and sentiment.** The prompt builder, and the sentiment service with its keyword
  extraction.
- **Users and auth.** User creation with its duplicate check, login, registration and token
  refresh.
- **Helpers.** The validators, the general helpers, error-record construction, and the HTTP
  exception filter's error-code derivation.

How the source is represented:

- **Stateful components are classes.** The repositories, the services that write to them, the
  SSE service and the queue consumer are classes, and their methods are proved against the new
  table contents.
- **Tables.** A table is a `map` from id to record. Next to it sits `issued`, every id ever
  handed out in creation order. A record's `createdAt` is its position in `issued`, so "newest
  first" is a walk down `issued`.
- **Fresh ObjectIds.** They come in as method parameters that were never issued.
- **Thrown `HttpException`s.** They are the `Err` side of a `Result`.
- **Foreign computations.** These are free constructors or function-typed parameters:
  - bcrypt is `Hashed(password, rounds)`;
  - a JWT is `Signed(claims, secret, expiresIn)`;
  - verifying a JWT is a parameter `verify`;
  - the Gemini and OpenRouter calls are parameters `vendor`/`post`;
  - `JSON.parse` and Mongo's hex ObjectId parsing are parameters too.
- **The queue.** It is the log `jobs` of what is handed to `addJob`.
- **JavaScript strings.** They are `seq<char>`, a sequence of Unicode scalar values, where
  JavaScript counts UTF-16 code units (see "Left out"). `trim` and `\s` use the language's
  white-space set, and `toLowerCase` is modelled on ASCII letters.

Where the behaviour described for the system and the code disagree, the model follows the code:

- **The `'new-thread'` thread id.** It is truthy, so it takes the lookup branch and does not
  create a thread. In the program the lookup of that non-ObjectId string fails with a Mongoose
  CastError before any THREAD_NOT_FOUND is raised. The model answers THREAD_NOT_FOUND, because
  CastError is left out (see "Left out", Mongoose schema behaviour).
- **No status guard.** Nothing checks the record's status before a run. Re-running a job writes
  PROCESSING again and overwrites a COMPLETED or FAILED record.
- **Queue failures.** The queue consumer calls `executeContentGeneration`, not
  `processContentJob`, and swallows every exception. A failure while building the prompt
  therefore leaves the record PROCESSING rather than FAILED, and the queue's two attempts never
  retry.
- **Title rule.**
  - In the providers, the trimmed text before the first `.`, `!` or `?` is used whole when it is
    non-empty. The 50-character cut applies only when that text is empty, not "whichever is
    shorter".
  - `AIService` uses the whole generated text as the title.
- **Job delay.** It is the constant 60000 ms, not a configuration value.

## Model

| member | source | states |
|---|---|---|
| ContentService.NewThreadTitleSpec | src/modules/content/content.service.ts:76-78 | the title of a new thread is the prompt up to its third space (or all of it when it has fewer), then `" - "`, then the content type's value |
| ContentService.NewThreadTitle | src/modules/content/content.service.ts:76-78 | the title always ends with `" - "` and the content type's value |
| ContentService.ContentService.GenerateThread | src/modules/content/content.service.ts:71-95 | an empty thread id creates an ACTIVE thread owned by the user with the derived title; any other id, `'new-thread'` included, returns the user's own thread or THREAD_NOT_FOUND with no change |
| ContentService.ContentService.Create | src/modules/content/content.service.ts:59-69 | exactly one record is added: PENDING, empty generated content, NEUTRAL sentiment, in the given thread, with the request's prompt |
| ContentService.ContentService.GenerateContent | src/modules/content/content.service.ts:34-57 | on a thread failure nothing is stored or queued; otherwise one PENDING record is stored, exactly one GENERATE_CONTENT job for it is queued with delay 60000 and 2 attempts, and the thread is returned with that record as `lastContent`; the queued job can run right away. Without a thread id, exactly one new ACTIVE thread with the derived title is added under the fresh id; with one, the threads table is unchanged |
| ContentService.ContentService.ExecuteContentGeneration | src/modules/content/content.service.ts:105-143 | without the content or the user's thread nothing changes and no one is notified; otherwise PROCESSING is written whatever the status was, then either the prompt builder fails (record left PROCESSING) or the AI answer's content and status are written, the final record is sent to the job's user only, and the thread is renamed exactly when `Renames` holds |
| ContentService.ContentService.Run | src/modules/content/content.service.ts:110-131 | the same outcomes once the content and the owned thread are in hand |
| ContentService.ContentService.WriteResult | src/modules/content/content.service.ts:120-130 | the final write is `Finished(c, ai)`, the user's stream gains exactly that record, other streams are unchanged, and the title changes only when the answer is COMPLETED with a non-empty title and the thread had no other contents |
| ContentService.Finished | src/modules/content/content.service.ts:110-123 | the written record is the PROCESSING patch followed by the patch of the AI content and status; id, thread, prompt and sentiment are kept |
| ContentService.FinishedStatus | src/modules/content/content.service.ts:120-123 | the stored status is COMPLETED exactly when the vendor call succeeded, and FAILED with empty content otherwise |
| ContentService.Renames | src/modules/content/content.service.ts:128-130 | a failed AI call never renames, a thread with earlier contents is never renamed, and a rename never sets an empty title |
| ContentService.ContentService.Runnable | src/modules/content/content.service.ts:134-143 | the job runs exactly when its content exists and its thread exists, both ids are non-empty, and the thread belongs to the job's user |
| ContentService.BuildGeneralPromptPayload | src/modules/content/content.service.ts:145-156 | the history has one `(prompt, generatedContent)` entry per previous record, in the same order; the type comes from the thread and the current prompt from the content |
| ContentService.PayloadHistoryIsThreadHistory | src/modules/content/content.service.ts:141-153 | the history holds exactly the other records of the thread |
| ContentService.ContentService.HandleContentJobError | src/modules/content/content.service.ts:158-163 | the record's status alone becomes FAILED and the result goes to the job's user; an absent record changes nothing |
| ContentService.ContentService.ProcessContentJob | src/modules/content/content.service.ts:97-103 | an unrunnable job changes no table and notifies no one; a failed prompt build ends with the record FAILED, that record sent to the job's user and the threads unchanged; a successful run writes `Finished(c, ai)`, sends it to the job's user and renames the thread exactly when `Renames` holds; other users' streams never change |
| ContentService.ContentService.FindOne | src/modules/content/content.service.ts:165-189 | the record is returned exactly when it exists and its thread belongs to the caller; otherwise CONTENT_NOT_FOUND/404 |
| ContentService.ContentService.Update | src/modules/content/content.service.ts:191-203 | only the sentiment changes, with no ownership check; an absent record gives CONTENT_UPDATE_FAILED/500 and no change |
| ContentService.ContentService.GetStatusCountsByUserId | src/modules/content/content.service.ts:207-228 | the map has a key for each of the four statuses, all 0 for no threads, and each holds the number of records of the given threads with that status |
| ContentService.RowValueOfDistinct | src/modules/content/content.service.ts:223-225 | folding rows whose statuses are distinct leaves each status at its row's count, and at 0 when no row names it |
| ContentService.AggregateRowValue | src/modules/content/content.service.ts:220-225 | copying the aggregated rows into the map gives each status exactly its number of records |
| ContentRepository.NewContent | src/modules/content/content.repository.ts:12-15 | a new record takes the draft's fields, with `""`, PENDING and NEUTRAL for the absent ones |
| ContentRepository.ContentRepository.Create | src/modules/content/content.repository.ts:12-15 | the table gains exactly the new record under the fresh id, and the stored record is returned |
| ContentRepository.ContentRepository.FindById | src/modules/content/content.repository.ts:17-19 | the record, or `None` exactly when the id is absent |
| ContentRepository.ContentRepository.FindByJobId | src/modules/content/content.repository.ts:36-40 | the job id is looked up as a content id |
| ContentRepository.ContentRepository.FindByThreadId | src/modules/content/content.repository.ts:21-24 | exactly the stored records of the thread other than the current one, each once, strictly newest first |
| ContentRepository.ContentRepository.NewestOfThread | src/modules/content/content.repository.ts:21-24 | the same among the first `k` issued ids |
| ContentRepository.PatchContent | src/modules/content/content.repository.ts:26-30 | exactly the fields in the patch change |
| ContentRepository.PatchContentIdempotent | src/modules/content/content.repository.ts:26-30 | an empty patch changes nothing, and applying the same patch twice is applying it once |
| ContentRepository.ContentRepository.Update | src/modules/content/content.repository.ts:26-30 | the post-update record is stored and returned; an absent id fails, since `toObject` is called on null, and nothing changes |
| ContentRepository.ContentRepository.Delete | src/modules/content/content.repository.ts:32-34 | the record is removed from the table and returned, or `None` |
| ContentRepository.ContentRepository.FindOneAndUpdate | src/modules/content/content.service.ts:192 | the patched record, or `None` with no change when absent |
| ContentRepository.ContentRepository.AggregateStatusCounts | src/modules/content/content.service.ts:220 | one row per status that occurs, with distinct statuses, each row's count being that status's count |
| ContentRepository.Nonzero | src/modules/content/content.service.ts:220 | keeps exactly the rows with a non-zero count and keeps their statuses distinct |
| QueueProcessor.QueueProcessor.HandleGenerateContentJob | src/modules/queue/queue.processor.ts:17-31 | the job's data goes unchanged to the generation and nothing is raised: an unrunnable job changes nothing and notifies no one; a prompt failure leaves the record PROCESSING with no FAILED write, the threads unchanged and no notification; a successful run writes `Finished(c, ai)`, sends it to the job's user and renames the thread exactly when `Renames` holds; other users' streams never change |
| ThreadRepository.NewThread | src/modules/thread/thread.repository.ts:12-15 | a new thread takes the draft's fields and is ACTIVE unless a status is given |
| ThreadRepository.PatchThread | src/modules/thread/thread.repository.ts:26-29 | exactly the fields in the patch change; id, owner and creation time are kept |
| ThreadRepository.ThreadRepository.Create | src/modules/thread/thread.repository.ts:12-15 | the table gains exactly the new thread under the fresh id |
| ThreadRepository.ThreadRepository.FindById | src/modules/thread/thread.repository.ts:17-20 | the thread, or `None` exactly when absent |
| ThreadRepository.ThreadRepository.FindByUserId | src/modules/thread/thread.repository.ts:22-24 | exactly the user's stored threads whose status is not DELETED, each once, strictly newest first |
| ThreadRepository.ThreadRepository.NewestOfUser | src/modules/thread/thread.repository.ts:22-24 | the same among the first `k` issued ids |
| ThreadRepository.ThreadRepository.Update | src/modules/thread/thread.repository.ts:26-29 | the patched thread is stored and returned, or `None` with no change when absent |
| ThreadRepository.ThreadRepository.Delete | src/modules/thread/thread.repository.ts:31-34 | the thread is removed from the table, so no later `FindByUserId` lists it |
| ThreadRepository.ThreadRepository.FindByIdAndUserId | src/modules/thread/thread.repository.ts:36-39 | a thread is returned exactly when it exists and belongs to the user |
| ThreadService.ThreadService.Create | src/modules/thread/thread.service.ts:19-32 | the thread is owned by the creating user, copies title and type, and is ACTIVE unless a status is given |
| ThreadService.ThreadService.FindUserThreadByThreadId | src/modules/thread/thread.service.ts:34-42 | `None` when either id is empty; otherwise a thread exactly when it exists and is the user's |
| ThreadService.ThreadService.UpdateTitle | src/modules/thread/thread.service.ts:44-48 | only the title changes; `None` and no change when absent |
| ThreadService.ThreadService.Update | src/modules/thread/thread.service.ts:50-71 | THREAD_NOT_FOUND/404 and no change unless the user owns the thread; otherwise the patched thread |
| ThreadService.ThreadService.Remove | src/modules/thread/thread.service.ts:73-84 | THREAD_NOT_FOUND/404 and no change unless owned; otherwise the thread alone is deleted, and its contents stay |
| Sse.SseService.Subscribe | src/sse/sse.service.ts:11-20 | an empty user id fails with no change; an existing stream is reused; otherwise one fresh empty stream is added for that user only; the copy in src/modules/sse/sse.service.ts has the same lines and behaviour |
| Sse.SseService.EmitToUser | src/sse/sse.service.ts:23-37 | returns true exactly when the user has a stream; the map is unchanged; only that user's stream gains the payload; the copy in src/modules/sse/sse.service.ts has the same lines and behaviour |
| Sse.SseService.CloseUser | src/sse/sse.service.ts:48-55 | that user's stream is completed and removed; every other entry and its log is unchanged; no-op when absent |
| Sse.SseService.OnModuleDestroy | src/sse/sse.service.ts:40-46 | every stream is completed with its log intact, and the map is empty; the copy in src/modules/sse/sse.service.ts has the same lines and behaviour |
| AiService.NewAiService | src/modules/ai/ai.service.ts:12-22 | construction fails with GEMINI_API_KEY_NOT_CONFIGURED/500 exactly when the key is missing |
| AiService.GenerateContent | src/modules/ai/ai.service.ts:29-56 | COMPLETED exactly when the vendor call succeeds, with content and title both the whole text; otherwise `{'', '', FAILED}`; never an error |
| AiService.ModelIsFixed | src/modules/ai/ai.service.ts:31 | only the vendor's answer for `gemini-2.0-flash` matters |
| GeminiProvider.NewGeminiProvider | src/modules/ai/providers/gemini.provider.ts:14-27 | construction fails with GEMINI_API_KEY_NOT_CONFIGURED/500 exactly when the key is missing |
| GeminiProvider.ModelOrDefault | src/modules/ai/providers/gemini.provider.ts:34 | a given model is kept, and a missing one becomes a non-empty default |
| GeminiProvider.GenerateContent | src/modules/ai/providers/gemini.provider.ts:29-50 | COMPLETED exactly on success, with the text as content and the title rule's title; otherwise `{'', '', FAILED}` |
| GeminiProvider.GenerateContentWithTitle | src/modules/ai/providers/gemini.provider.ts:52-61 | ignores the title prompt and equals `GenerateContent` of the content prompt |
| GeminiProvider.CompletedTitleIsFromContent | src/modules/ai/providers/gemini.provider.ts:39-45 | a completed title occurs in the content and is empty only for empty content |
| AiResponse.FirstSegment | src/modules/ai/providers/openrouter.provider.ts:97 | the longest prefix free of `.`, `!` and `?` |
| AiResponse.Take50 | src/modules/ai/providers/openrouter.provider.ts:97 | the first 50 characters, or all when shorter |
| AiResponse.TitleRule | src/modules/ai/providers/openrouter.provider.ts:97 | a title is never longer than its content and is non-empty for non-empty content |
| AiResponse.TitleRuleSpec | src/modules/ai/providers/openrouter.provider.ts:97 | the title occurs in the content and is empty only for empty content; it is the trimmed first segment, untruncated, when that is non-empty, and the first 50 characters otherwise |
| AiResponse.SentenceTitle | src/modules/ai/providers/openrouter.provider.ts:86 | a non-empty first segment is trimmed, free of terminators and part of the content |
| OpenRouterProvider.CombinedPromptSpec | src/modules/ai/providers/openrouter.provider.ts:47-51 | the message starts with `contentPrompt + "\n\n" + titlePrompt` and has nothing more exactly when no response format is set |
| OpenRouterProvider.CombinedPrompt | src/modules/ai/providers/openrouter.provider.ts:47-51 | the message starts with the content prompt, a blank line and the title prompt, and ends with the response format whenever one is given |
| OpenRouterProvider.RequestBodyFor | src/modules/ai/providers/openrouter.provider.ts:53-66 | the body names the model, carries one user message holding the combined prompt and `max_tokens` 1000, and asks for a response format exactly when one is given |
| OpenRouterProvider.OpenRouterProvider.constructor | src/modules/ai/providers/openrouter.provider.ts:17-29 | the key, site URL and site name come from configuration, with the two documented defaults |
| OpenRouterProvider.OpenRouterProvider.BuildRequest | src/modules/ai/providers/openrouter.provider.ts:47-66 | one user message holding the combined prompt, `max_tokens` 1000, and a JSON response format exactly when a format is expected |
| OpenRouterProvider.JsonReply | src/modules/ai/providers/openrouter.provider.ts:84-89 | a parsed object reply is COMPLETED; a null parse gives no reply |
| OpenRouterProvider.FalsyContentReply | src/modules/ai/providers/openrouter.provider.ts:85-86 | an absent or falsy `content` becomes `''`, and the title is `parsed.title` when truthy, else `''` |
| OpenRouterProvider.NonStringContentFallsBack | src/modules/ai/providers/openrouter.provider.ts:86-101 | a truthy non-string `content` without a truthy title makes `split` throw, so the reply is read as plain text |
| OpenRouterProvider.ParsedObjectReply | src/modules/ai/providers/openrouter.provider.ts:84-89 | content is `parsed.content`; the title is `parsed.title` when truthy and the title rule's title otherwise |
| OpenRouterProvider.Normalise | src/modules/ai/providers/openrouter.provider.ts:80-105 | COMPLETED exactly when the post returned, otherwise the empty FAILED reply |
| OpenRouterProvider.UnparseableFallsBack | src/modules/ai/providers/openrouter.provider.ts:90-101 | an unparseable JSON reply is handled as raw text and is still COMPLETED |
| OpenRouterProvider.EmptyReplyIsEmpty | src/modules/ai/providers/openrouter.provider.ts:80-101 | an empty reply is COMPLETED with empty content and title |
| OpenRouterProvider.OpenRouterProvider.GenerateContent | src/modules/ai/providers/openrouter.provider.ts:32-106 | no key means no request and the empty FAILED reply; otherwise the request for the model (default `openai/gpt-4o`) is sent and the reply normalised; never an error |
| PromptHelper.OrDefault | src/common/helpers/prompt.helper.ts:15-17 | an empty tone, language or extra instruction takes its default |
| PromptHelper.BaseInstruction | src/common/helpers/prompt.helper.ts:20-30 | the instruction opens with the content type's verb phrase and contains the user's prompt |
| PromptHelper.HistoryBlocks | src/common/helpers/prompt.helper.ts:32-41 | one numbered block per history entry, in order |
| Text.NatToStringInjective | src/common/helpers/prompt.helper.ts:38 | distinct indices render as distinct numerals, so no two history blocks carry the same number |
| PromptHelper.HistoryText | src/common/helpers/prompt.helper.ts:32-41 | the placeholder sentence without history; otherwise the text opens with the first entry's numbered block |
| PromptHelper.HistoryTextSpec | src/common/helpers/prompt.helper.ts:32-41 | the placeholder text exactly when there is no history; otherwise every entry's block occurs |
| PromptHelper.BuildContextText | src/common/helpers/prompt.helper.ts:44-52 | the loop builds exactly `ContextText` |
| PromptHelper.ContextText | src/common/helpers/prompt.helper.ts:44-52 | empty exactly when there is no history, and otherwise opens with the context header |
| PromptHelper.ContextTextSpec | src/common/helpers/prompt.helper.ts:44-52 | empty exactly when there is no history; otherwise every entry's numbered prompt line occurs |
| PromptHelper.TypeInstructionsDistinct | src/common/helpers/prompt.helper.ts:109-156 | the five content types have pairwise different instructions, each different from the default for any other value |
| PromptHelper.GetTypeInstruction | src/common/helpers/prompt.helper.ts:109-156 | each content type's value gets that type's instruction, and any other value the default one |
| PromptHelper.BuildContentGenerationPrompts | src/common/helpers/prompt.helper.ts:56-102 | both prompts are trimmed |
| PromptHelper.PromptsAreBodies | src/common/helpers/prompt.helper.ts:56-102 | trimming takes nothing from the assembled prompt bodies |
| PromptHelper.TitlePromptQuotes | src/common/helpers/prompt.helper.ts:56-102 | the title prompt contains the current prompt and the history text |
| PromptHelper.ContentPromptQuotes | src/common/helpers/prompt.helper.ts:20-30 | the content prompt contains the base instruction followed by the context text |
| SentimentService.SentimentPrompt | src/modules/sentiment/sentiment.service.ts:21-25 | the prompt object has exactly the three fields, with the instruction followed by the text, an empty title prompt and the one-word response format |
| SentimentService.ExtractSentiment | src/modules/sentiment/sentiment.service.ts:35-40 | POSITIVE exactly when the lower-cased answer contains "positive"; NEGATIVE exactly when it contains "negative" and not "positive"; NEUTRAL exactly when it contains neither |
| SentimentService.ExtractWord | src/modules/sentiment/sentiment.service.ts:35-40 | an answer that is one of the three words, in any letter case, reads back as that label |
| SentimentService.FailedCallIsNeutral | src/modules/sentiment/sentiment.service.ts:27-28 | a failed AI call yields NEUTRAL |
| SentimentService.SentimentService.AnalyzeSentiment | src/modules/sentiment/sentiment.service.ts:18-33 | a missing or foreign record gives CONTENT_NOT_FOUND and no change; otherwise the extracted label is written to the record's sentiment alone and returned |
| UserService.HashRoundTrip | src/modules/user/user.service.ts:55-60 | a password matches the hash made from it and no other |
| UserService.UserService.FindByEmail | src/modules/user/user.service.ts:22-27 | a user with exactly that email, or `None` exactly when there is none |
| UserService.UserService.IsActiveByEmail | src/modules/user/user.service.ts:22-27 | the user by email, with no activity filter |
| UserService.UserService.FindById | src/modules/user/user.service.ts:18-20 | the user, or `None` exactly when absent |
| UserService.UserService.Create | src/modules/user/user.service.ts:29-49 | USER_ALREADY_EXISTS/409 and no change when the email as given is taken; otherwise one USER with trimmed name and email and the 10-round hash |
| UserService.PaddedEmailPassesCheck | src/modules/user/user.service.ts:31-42 | stored emails are trimmed, so an email with a leading space never matches a stored one, and the service's own duplicate check does not catch a padded copy; the schema's setters and unique index, which would, are left out |
| UserService.UserService.UpdateSentiment | src/modules/user/user.service.ts:51-53 | only the sentiment changes |
| UserService.UserService.Me | src/modules/user/user.service.ts:62-76 | id, name, email and sentiment of the stored user, never the password, or `None` |
| AuthService.GenerateTokens | src/modules/auth/auth.service.ts:86-91 | a token signed over the claims with `JWT_SECRET` and the given expiry |
| AuthService.GenerateAuthTokens | src/modules/auth/auth.service.ts:75-84 | both tokens carry the user's `{sub, email, userType}` and the same secret; the access token lasts `JWT_EXPIRES_IN` or `7d`, the refresh token `30d` |
| AuthService.Register | src/modules/auth/auth.service.ts:21-46 | a creation failure passes through unchanged with no tokens and no change to the table; otherwise the table gains exactly one USER under the new id, with trimmed name and email and the hash of the password, and the response holds its id, name and email with a fresh token pair |
| AuthService.Login | src/modules/auth/auth.service.ts:48-73 | INVALID_EMAIL/401 exactly when no user has the email, INVALID_PASSWORD/401 exactly when the password does not match; otherwise id, name, email and fresh tokens |
| AuthService.LoginWithOwnPassword | src/modules/auth/auth.service.ts:57-62 | the password the stored hash was made from always logs in |
| AuthService.ValidateUser | src/modules/auth/auth.service.ts:93-95 | the user, or `None` exactly when absent |
| AuthService.RefreshToken | src/modules/auth/auth.service.ts:97-120 | every failure is INVALID_REFRESH_TOKEN/401; success exactly when the token verifies and its subject is a stored user, giving that user fresh tokens |
| AuthService.RefreshOfIssuedToken | src/modules/auth/auth.service.ts:97-120 | a refresh token this service issued, while it verifies, refreshes to the same user |
| CustomValidator.ValidateEmailMatchesPattern | src/common/validators/custom.validator.ts:5 | the check holds exactly for strings of the form `local@domain.tld` with non-empty runs free of white space and `@` |
| CustomValidator.ValidateEmail | src/common/validators/custom.validator.ts:4-6 | an accepted email has at least five characters and does not start with `@` |
| CustomValidator.ValidatePassword | src/common/validators/custom.validator.ts:7-15 | a valid password has at least 6 characters |
| CustomValidator.ValidPasswordExtends | src/common/validators/custom.validator.ts:7-15 | appending characters keeps a password valid |
| CustomValidator.IsPasswordValid | src/common/validators/custom.validator.ts:29-31 | a value passes exactly when it is a string that passes `validatePassword` |
| NestHelper.IsEmptyScalars | src/common/helpers/nest.helper.ts:12-26 | a number is empty exactly when 0, a boolean exactly when false |
| NestHelper.IsEmpty | src/common/helpers/nest.helper.ts:12-26 | null, undefined, `''`, `[]` and `{}` are empty; a boolean is empty exactly when false and a number exactly when 0 |
| NestHelper.BlankStringIsEmpty | src/common/helpers/nest.helper.ts:12-26 | a white-space-only string is empty |
| NestHelper.ZeroStringIsEmpty | src/common/helpers/nest.helper.ts:12-26 | `'0'` is empty through loose equality |
| NestHelper.ZeroPointZeroStringIsEmpty | src/common/helpers/nest.helper.ts:12-26 | `'0.0'` is empty too, since it reads as the number 0 |
| NestHelper.WordIsNotEmpty | src/common/helpers/nest.helper.ts:12-26 | a word that does not read as a zero number is not empty |
| NestHelper.ArrayOfFalseIsNotEmpty | src/common/helpers/nest.helper.ts:12-26 | `[false]` is not empty, since it prints as `"false"` |
| NestHelper.ArrayOfZeroIsEmpty | src/common/helpers/nest.helper.ts:12-26 | `[0]` prints as `"0"` and so is empty through loose equality |
| NestHelper.ObjectIsEmpty | src/common/helpers/nest.helper.ts:12-26 | a plain object is empty exactly when it has no keys or a `length` of 0 |
| NestHelper.ArrayFirstOrNull | src/common/helpers/nest.helper.ts:28-34 | element 0 of a non-empty array, else `None` |
| NestHelper.GetBooleanValue | src/common/helpers/nest.helper.ts:37-51 | true exactly for `true` and for strings equal to `'true'` ignoring case |
| NestHelper.BooleanRoundTrip | src/common/helpers/nest.helper.ts:37-51 | any letter case of `'true'`/`'false'` reads back as its boolean |
| NestHelper.GetObjectId | src/common/helpers/nest.helper.ts:53-62 | strings go to the hex parser; otherwise success exactly for objects with a truthy `_id`, which is returned |
| ExceptionHelper.DefaultError | src/common/helpers/exceptions.helper.ts:45-53 | status equals the status code; the body carries status, the error code, the message and the data or `{}` |
| ExceptionHelper.NotFoundException | src/common/helpers/exceptions.helper.ts:24-29 | status 404 with the message in a one-element list |
| ExceptionHelper.UnauthorizedException | src/common/helpers/exceptions.helper.ts:30-35 | status 401 with the message in a one-element list |
| ExceptionHelper.BadRequestException | src/common/helpers/exceptions.helper.ts:37-42 | status 400 while the body's status code says 403 |
| ExceptionHelper.NestMessage | src/common/filters/http-exception.filter.ts:19 | an exception's own message is its body when that is a string, else the body's string `message`, else the words of its class name |
| HttpExceptionFilter.Slug | src/common/filters/http-exception.filter.ts:26 | a derived code holds no white space |
| HttpExceptionFilter.ReplaceSpaceRuns | src/common/filters/http-exception.filter.ts:26 | the replacement leaves no white space and is never longer than the message |
| HttpExceptionFilter.SlugIdempotent | src/common/filters/http-exception.filter.ts:26 | deriving a code from a code changes nothing |
| HttpExceptionFilter.SlugOfUnspaced | src/common/filters/http-exception.filter.ts:26 | a message without white space only gets lower-cased |
| HttpExceptionFilter.MessageCodes | src/common/filters/http-exception.filter.ts:24-27 | one code per message, in order |
| HttpExceptionFilter.BuildErrorCodes | src/common/filters/http-exception.filter.ts:24-27 | the loop builds exactly the message codes |
| HttpExceptionFilter.ResponseMessage | src/common/filters/http-exception.filter.ts:16-20 | a message list becomes one string; any other truthy message is kept; a falsy one gives the exception's own message |
| HttpExceptionFilter.DerivedCode | src/common/filters/http-exception.filter.ts:22-33 | the code is one string without white space, or a list with one entry per message when there are several |
| HttpExceptionFilter.ResponseOf | src/common/filters/http-exception.filter.ts:35-40 | the response status is the exception's status, a string `errorCode` in the body is kept, and the data is the body's data or `{}` |
| HttpExceptionFilter.Catch | src/common/filters/http-exception.filter.ts:6-41 | the response status is the exception's status, and the body is the derived message, code and data |
| HttpExceptionFilter.ManyMessagesGiveManyCodes | src/common/filters/http-exception.filter.ts:22-27 | with several messages and no error code, the code is a list with one code per message |
| HttpExceptionFilter.DefaultErrorResponse | src/common/filters/http-exception.filter.ts:37-39 | a default error's own error code, message and data come out unchanged |
| HttpExceptionFilter.NotFoundResponse | src/common/filters/http-exception.filter.ts:16-33 | a not-found exception's single message gives a single derived code and data `{}` |
| HttpExceptionFilter.UnauthorizedResponse | src/common/filters/http-exception.filter.ts:16-33 | an unauthorized exception comes out with status 401, its single message, that message's derived code and data `{}` |
| HttpExceptionFilter.BadRequestResponse | src/common/filters/http-exception.filter.ts:16-33 | a bad-request exception comes out with status 400, not the 403 its body names, with its single message, its derived code and data `{}` |

## Left out

- I/O and logging:
  - the Mongo collections, Bull/Redis, the HTTP clients and the vendor SDKs are state or
    parameters;
  - logging is left out;
  - the filter's response write is left out, though its value is modelled.
- Concurrency: `Promise.all` in `fetchJobData` is two sequential reads. The un-awaited
  `handleContentJobError` runs to completion in place. Interleaving of jobs is not modelled.
- ThreadService.ThreadService.Update: the THREAD_UPDATE_FAILED/500 branch needs the thread to
  disappear between the lookup and the update. That cannot happen in a sequential model, so the
  branch is present but unreachable.
- ContentService.ContentService.HandleContentJobError: for an absent record the source calls
  `toObject` on null and the rejection goes unhandled. The model ends with no change.
- Queue timing and retries: the job's delay and attempts are recorded as data. Delivery, backoff
  and retry belong to Bull.
- ContentService.ContentService.ExecuteContentGeneration: `PromptHelper.buildSmallPrompt` and
  `setExpectedPromptResponseFormat` are not in the repository's `prompt.helper.ts`. They are
  the parameter `buildPrompt`, whose `Err` stands for a thrown exception.
- `AIService.generateContent`: the provider argument passed by callers is dropped, since the
  method takes one parameter. The `sentiment` hint is carried in the job data, which
  `IJobData` does not declare.
- ContentRepository.ContentRepository.FindOneAndUpdate and AggregateStatusCounts: they are not
  in `content.repository.ts` and are modelled as plain table operations. `findAll` and
  `findLatestContentByThreadIds` are not part of this model.
- Mongoose schema behaviour:
  - required-field checks and timestamps are left out;
  - the email setters (`trim`, `lowercase`) are left out, including their application to query
    filters. `UserService.Create` follows the service code alone: it trims and does not
    lower-case.
  - `CastError` for malformed ids is left out. A lookup by an id that is not an ObjectId (such
    as `'new-thread'`) fails in the program with that error; the model answers with the
    service's own not-found error;
  - `getObjectId` on an id is the identity on ids.
- ContentService.ContentService.Create: the schema's `trim: true` on `Content.prompt` is left out,
  so a padded prompt is stored as given, where the program stores it trimmed.
- ContentService.ContentService.GenerateThread: the schema's `trim: true` on `Thread.title` is
  left out, so a title derived from a prompt with leading spaces keeps them here.
- ContentService.ContentService.WriteResult: the title written by the rename is `ai.title` as
  given, where the program stores it trimmed by the `Thread.title` schema setter. `AIService`'s
  title is the whole generated text, so a trailing newline differs on the main path.
- ThreadService.ThreadService.UpdateTitle: the `Thread.title` setter is left out, so the title is
  stored untrimmed.
- UserService.UserService.UpdateSentiment: the `trim: true` on `User.sentiment` is left out, so
  the sentiment is stored as given.
- UserService.UserService.Create: the `unique: true` index on `User.email` is left out. An insert
  that the index would reject, such as a padded copy of a stored email, succeeds here.
- UserService.HashRoundTrip: bcrypt is an injective constructor here. Real bcrypt reads only the
  first 72 bytes of the UTF-8 password, so two passwords sharing those bytes match the same hash
  in the program and not in the model.
- CustomValidator.ValidatePassword: lengths count Unicode scalar values, not UTF-16 code units as
  JavaScript's `.length` does. A password with characters outside the Basic Multilingual Plane,
  such as `"a1😀😀"`, passes in the program and fails here.
- AiResponse.Take50: the cut is after 50 Unicode scalar values, not after 50 UTF-16 code units as
  `substring(0, 50)` makes it. The program can split a surrogate pair; the model cannot.
- Singletons: `getInstance` of the helpers is not modelled, since the helpers are stateless
  functions here.
- SSE: the `catch` around `subject.next` never fires on a plain subject. rxjs internals and
  SSE framing are left out.
- Letter case: `toLowerCase` is modelled on ASCII letters only. For the four words compared
  against a lowered string (`true`, `false`, `positive`, `negative`) this is exact. No other
  character lowers to a string made only of letters from those words.
- HttpExceptionFilter.Slug: non-ASCII capitals in a derived error code are not lowered.
  Line 26 of the filter lowers in full Unicode, so the message `"ÉCHEC"` gives the code
  `"échec"` in the program and `"ÉCHEC"` in the model. No Unicode case table is modelled.
- HttpExceptionFilter.SlugOfUnspaced: for the same reason, a message without white space is
  lowered on ASCII letters only, where the program lowers every letter.
- Numbers: JavaScript numbers are integers here. Fractions, NaN and infinities are not
  represented.
- Time: `createdAt` is the creation order. Token expiry is the parameter `verify`.
- ContentService.ContentService.ExecuteContentGeneration: the order of the emit before the
  rename is not stated, since both end in the same state.
