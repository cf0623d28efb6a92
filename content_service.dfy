/**
 * ContentService: the asynchronous generation pipeline over the content and thread tables.
 * Submission resolves or creates a thread, stores one PENDING record and appends one job to
 * the queue log `jobs` (what `QueueService.addJob` is handed; delivery and timing belong to
 * the queue). Execution writes PROCESSING, calls the AI service, writes the result, notifies
 * the user and may rename the thread.
 *
 * The prompt builder the pipeline calls (`PromptHelper.buildSmallPrompt` followed by
 * `setExpectedPromptResponseFormat`) is not in `prompt.helper.ts`, so it is a parameter
 * `buildPrompt(payload, sentiment)` whose `Err` stands for an exception. The AI vendor is a
 * parameter `vendor(model, prompt)` as in `AiService`. Fresh ObjectIds are parameters.
 */
module ContentService {
  import opened Wrappers
  import opened Enums
  import opened Text
  import opened Js
  import opened ExceptionHelper
  import opened AiResponse
  import AiService
  import PromptHelper
  import opened ContentRepository
  import opened ThreadRepository
  import opened ThreadService
  import opened Sse

  /** `GenerateContentDto`; an absent thread id or provider is `""`. `sentiment` is read by
    * the service although the DTO does not declare it. */
  datatype GenerateContentDto = GenerateContentDto(
    prompt: string,
    contentType: ContentType,
    threadId: string,
    provider: string,
    sentiment: Option<Sentiment>)

  /** The job payload (`IJobData`, plus the `sentiment` the service sets). */
  datatype JobData = JobData(contentId: string, userId: string, threadId: string, provider: string, sentiment: Option<Sentiment>)

  /** One `addJob(process, data, {delay, attempts})` call. */
  datatype Job = Job(process: string, data: JobData, delay: nat, attempts: nat)

  const GenerateContentProcess := "GENERATE_CONTENT"

  /** A thread as `generateContent` returns it, with `lastContent` set. */
  datatype ThreadView = ThreadView(thread: Thread, lastContent: Content)

  const ContentNotFound := DefaultError("Content not found", "CONTENT_NOT_FOUND", 404, Undefined)
  const ContentUpdateFailed := DefaultError("Failed to update content", "CONTENT_UPDATE_FAILED", 500, Undefined)

  /** The title of a thread created for a prompt: `prompt.split(' ').slice(0, 3).join(' ')`,
    * then `" - "` and the content type. */
  function NewThreadTitle(prompt: string, contentType: ContentType): (r: string)
    ensures var suffix := " - " + contentType.Value();
      |suffix| <= |r| && r[|r| - |suffix|..] == suffix
  {
    var words := Split(prompt, ' ');
    var lead := Join(words[..if 3 < |words| then 3 else |words|], " ");
    assert (lead + " - " + contentType.Value())[|lead|..] == " - " + contentType.Value();
    lead + " - " + contentType.Value()
  }

  /** The title opens with the prompt up to, not including, its third space (all of it when it
    * has fewer than three), followed by `" - "` and the type. */
  lemma NewThreadTitleSpec(prompt: string, contentType: ContentType)
    ensures NewThreadTitle(prompt, contentType) == PrefixBeforeNth(prompt, ' ', 3) + " - " + contentType.Value()
    ensures var lead := PrefixBeforeNth(prompt, ' ', 3);
      && lead <= prompt && Count(lead, ' ') < 3
      && (lead == prompt || (prompt[|lead|] == ' ' && Count(lead, ' ') == 2))
  {
    var words := Split(prompt, ' ');
    JoinTakeSplit(prompt, ' ', 3);
    assert Join(words[..if 3 < |words| then 3 else |words|], " ") == PrefixBeforeNth(prompt, ' ', 3);
    PrefixBeforeNthSpec(prompt, ' ', 3);
  }

  /** The record the final write leaves: the AI's content and status on the stored record. */
  function Finished(c: Content, ai: AiResponse): (r: Content)
    ensures r == PatchContent(PatchContent(c, ContentPatch(None, Some(Processing), None)), ContentPatch(Some(ai.content), Some(ai.status), None))
    ensures r.id == c.id && r.threadId == c.threadId && r.prompt == c.prompt && r.sentiment == c.sentiment
  {
    c.(generatedContent := ai.content, status := ai.status)
  }

  /** The rename rule: only a COMPLETED response with a non-empty title, for the first content
    * of its thread. */
  predicate Renames(ai: AiResponse, previous: seq<Content>)
    ensures ai == FailedResponse ==> !Renames(ai, previous)
    ensures |previous| > 0 ==> !Renames(ai, previous)
    ensures Renames(ai, previous) ==> ai.title != ""
  {
    ai.status == Completed && ai.title != "" && |previous| == 0
  }

  /** `buildGeneralPromptPayload`. */
  function BuildGeneralPromptPayload(content: Content, thread: Thread, previous: seq<Content>): (p: PromptHelper.PromptPayload)
    ensures p.contentType == thread.contentType.Value()
    ensures p.current.prompt == content.prompt
    ensures |p.history| == |previous|
    ensures forall i :: 0 <= i < |previous| ==>
      p.history[i] == PromptHelper.HistoryItem(previous[i].prompt, previous[i].generatedContent)
  {
    var history := seq(|previous|, i requires 0 <= i < |previous| =>
      PromptHelper.HistoryItem(previous[i].prompt, previous[i].generatedContent));
    PromptHelper.PromptPayload(thread.contentType.Value(), history, PromptHelper.CurrentRequest(content.prompt, "", "", ""))
  }

  /** The last count a row list gives status `s`, or 0 when no row names it. */
  function RowValue(rows: seq<StatusRow>, s: ContentStatus): nat {
    if |rows| == 0 then 0
    else if rows[|rows| - 1].status == s then rows[|rows| - 1].count
    else RowValue(rows[..|rows| - 1], s)
  }

  /** With one row per status, a row's count is what the list gives its status, and a status
    * without a row gets 0. */
  lemma {:induction false} RowValueOfDistinct(rows: seq<StatusRow>, s: ContentStatus)
    requires forall i, j :: 0 <= i < j < |rows| ==> rows[i].status != rows[j].status
    ensures forall row :: row in rows && row.status == s ==> RowValue(rows, s) == row.count
    ensures (forall row :: row in rows ==> row.status != s) ==> RowValue(rows, s) == 0
  {
    if |rows| > 0 {
      var init := rows[..|rows| - 1];
      RowValueOfDistinct(init, s);
      forall row | row in rows && row.status == s
        ensures RowValue(rows, s) == row.count
      {
        if rows[|rows| - 1].status != s {
          assert row in init;
        }
      }
    }
  }

  /** Adding one row at the end sets its status to its count and leaves the others. */
  lemma RowValueSnoc(rows: seq<StatusRow>, i: nat, s: ContentStatus)
    requires i < |rows|
    ensures RowValue(rows[..i + 1], s) == if rows[i].status == s then rows[i].count else RowValue(rows[..i], s)
  {
    assert rows[..i + 1][..i] == rows[..i];
  }

  /** Folding the aggregated rows gives every status its count. */
  lemma AggregateRowValue(repo: ContentRepository, threadIds: seq<string>, s: ContentStatus)
    ensures RowValue(repo.AggregateStatusCounts(threadIds), s) == repo.StatusCount(threadIds, s)
  {
    var rows := repo.AggregateStatusCounts(threadIds);
    var n := repo.StatusCount(threadIds, s);
    RowValueOfDistinct(rows, s);
    if n > 0 {
      assert StatusRow(s, n) in rows;
    } else {
      assert forall row :: row in rows ==> row.status != s;
    }
  }

  const AllStatuses: set<ContentStatus> := {Pending, Processing, Completed, Failed}

  class ContentService {
    const contents: ContentRepository
    const threadService: ThreadService
    const sse: SseService<Content>
    /** The jobs handed to the queue, oldest first. */
    var jobs: seq<Job>

    ghost predicate Valid()
      reads this, contents, threadService, threadService.threads, sse, sse.Streams()
    {
      contents.Valid() && threadService.Valid() && sse.Valid()
    }

    constructor(contents: ContentRepository, threadService: ThreadService, sse: SseService<Content>)
      requires contents.Valid() && threadService.Valid() && sse.Valid()
      ensures this.contents == contents && this.threadService == threadService && this.sse == sse
      ensures jobs == [] && Valid()
    {
      this.contents := contents;
      this.threadService := threadService;
      this.sse := sse;
      jobs := [];
    }

    /** `generateThread`: an empty thread id creates an ACTIVE thread owned by the user, titled
      * by `NewThreadTitle`; any other id, `'new-thread'` included, must name a thread of the
      * user, or THREAD_NOT_FOUND/404 is thrown and nothing changes. */
    method GenerateThread(dto: GenerateContentDto, userId: string, newThreadId: string) returns (r: Result<Thread, HttpException>)
      requires Valid()
      requires newThreadId != "" && newThreadId !in threadService.threads.issued
      modifies threadService.threads
      ensures Valid()
      ensures dto.threadId == "" ==>
        && r.Ok? && r.value.id == newThreadId && r.value.userId == userId
        && r.value.title == NewThreadTitle(dto.prompt, dto.contentType)
        && r.value.contentType == dto.contentType && r.value.status == Active
        && threadService.threads.table == old(threadService.threads.table)[newThreadId := r.value]
        && threadService.threads.issued == old(threadService.threads.issued) + [newThreadId]
      ensures dto.threadId != "" ==>
        && threadService.threads.table == old(threadService.threads.table)
        && threadService.threads.issued == old(threadService.threads.issued)
        && r == (match old(threadService.FindUserThreadByThreadId(dto.threadId, userId))
                 case Some(t) => Ok(t)
                 case None => Err(ThreadNotFound))
    {
      if dto.threadId == "" {
        var title := NewThreadTitle(dto.prompt, dto.contentType);
        var t := threadService.Create(userId, CreateThreadDto(title, dto.contentType, None), newThreadId);
        return Ok(t);
      }
      var found := threadService.FindUserThreadByThreadId(dto.threadId, userId);
      if found.None? {
        return Err(ThreadNotFound);
      }
      r := Ok(found.value);
    }

    /** `create`: one PENDING record with empty generated content in the given thread. */
    method Create(thread: Thread, dto: GenerateContentDto, newContentId: string) returns (c: Content)
      requires Valid()
      requires newContentId != "" && newContentId !in contents.issued
      modifies contents
      ensures Valid()
      ensures c.id == newContentId && c.threadId == thread.id && c.prompt == dto.prompt
      ensures c.generatedContent == "" && c.status == Pending && c.sentiment == Neutral
      ensures c.createdAt == |old(contents.issued)|
      ensures contents.table == old(contents.table)[newContentId := c]
      ensures contents.issued == old(contents.issued) + [newContentId]
    {
      c := contents.Create(newContentId, ContentDraft(thread.id, dto.prompt, Some(""), Some(Pending)));
    }

    /** `generateContent`: resolves the thread first; on success stores exactly one PENDING
      * record in it, queues exactly one GENERATE_CONTENT job for that record with delay
      * 60000 and 2 attempts, and returns the thread with the record as `lastContent`. On a
      * thread-lookup failure nothing is stored and nothing is queued. */
    method GenerateContent(userId: string, dto: GenerateContentDto, newThreadId: string, newContentId: string)
      returns (r: Result<ThreadView, HttpException>)
      requires Valid()
      requires newThreadId != "" && newThreadId !in threadService.threads.issued
      requires newContentId != "" && newContentId !in contents.issued
      modifies this, contents, threadService.threads
      ensures Valid()
      ensures r.Err? ==>
        && r.error == ThreadNotFound && dto.threadId != ""
        && jobs == old(jobs)
        && contents.table == old(contents.table) && contents.issued == old(contents.issued)
        && threadService.threads.table == old(threadService.threads.table)
      ensures r.Ok? ==>
        && r.value.thread.id in threadService.threads.table
        && threadService.threads.table[r.value.thread.id] == r.value.thread
        && r.value.thread.userId == userId
        && r.value.lastContent == NewContent(newContentId, ContentDraft(r.value.thread.id, dto.prompt, Some(""), Some(Pending)), |old(contents.issued)|)
        && contents.table == old(contents.table)[newContentId := r.value.lastContent]
        && contents.issued == old(contents.issued) + [newContentId]
        && jobs == old(jobs) + [Job(GenerateContentProcess,
             JobData(newContentId, userId, r.value.thread.id, dto.provider, dto.sentiment), 60000, 2)]
      ensures r.Ok? && dto.threadId == "" ==>
        && r.value.thread.id == newThreadId
        && r.value.thread.title == NewThreadTitle(dto.prompt, dto.contentType)
        && r.value.thread.contentType == dto.contentType && r.value.thread.status == Active
        && threadService.threads.table == old(threadService.threads.table)[newThreadId := r.value.thread]
        && threadService.threads.issued == old(threadService.threads.issued) + [newThreadId]
      ensures dto.threadId != "" ==>
        && threadService.threads.table == old(threadService.threads.table)
        && threadService.threads.issued == old(threadService.threads.issued)
      ensures r.Ok? && dto.threadId != "" ==> r.value.thread.id == dto.threadId
      ensures r.Ok? && userId != "" ==> Runnable(jobs[|jobs| - 1].data)
    {
      var thread := GenerateThread(dto, userId, newThreadId);
      if thread.Err? {
        return Err(thread.error);
      }
      var t := thread.value;
      var content := Create(t, dto, newContentId);
      var jobData := JobData(content.id, userId, t.id, dto.provider, dto.sentiment);
      jobs := jobs + [Job(GenerateContentProcess, jobData, 60000, 2)];
      r := Ok(ThreadView(t, content));
    }

    /** What `fetchJobData` finds: the content, and the thread only when it belongs to the job's
      * user. Execution proceeds only when both are there. */
    predicate Runnable(job: JobData)
      reads this, contents, threadService, threadService.threads
      ensures Runnable(job) <==>
        && job.contentId in contents.table
        && job.threadId != "" && job.userId != ""
        && job.threadId in threadService.threads.table
        && threadService.threads.table[job.threadId].userId == job.userId
    {
      job.contentId in contents.table && threadService.FindUserThreadByThreadId(job.threadId, job.userId).Some?
    }

    /** `executeContentGeneration`. Without the content or the user's thread: no write, no
      * notification. Otherwise PROCESSING is written first, whatever the record's status was;
      * if building the prompt throws, the exception escapes and the record stays PROCESSING.
      * Otherwise the AI response's content and status are written, the updated record is sent
      * to the job's user, and then the thread is renamed by `Renames`. */
    method ExecuteContentGeneration(job: JobData,
      buildPrompt: (PromptHelper.PromptPayload, Option<Sentiment>) -> Result<JsValue, string>,
      vendor: (string, JsValue) -> VendorOutcome) returns (r: Result<(), string>)
      requires Valid()
      modifies contents, threadService.threads, sse.Streams()
      ensures Valid()
      ensures contents.issued == old(contents.issued)
      ensures threadService.threads.issued == old(threadService.threads.issued)
      ensures sse.connections == old(sse.connections)
      ensures forall u :: u in sse.connections && u != job.userId ==> sse.connections[u].events == old(sse.connections[u].events)
      ensures !old(Runnable(job)) ==>
        && r == Ok(())
        && contents.table == old(contents.table)
        && threadService.threads.table == old(threadService.threads.table)
        && (job.userId in sse.connections ==> sse.connections[job.userId].events == old(sse.connections[job.userId].events))
      ensures old(Runnable(job)) ==>
        var c := old(contents.table[job.contentId]);
        var t := old(threadService.threads.table[job.threadId]);
        var previous := old(contents.FindByThreadId(t.id, job.contentId));
        var prompt := buildPrompt(BuildGeneralPromptPayload(c, t, previous), job.sentiment);
        && (prompt.Err? ==>
              && r.Err?
              && contents.table == old(contents.table)[job.contentId := c.(status := Processing)]
              && threadService.threads.table == old(threadService.threads.table)
              && (job.userId in sse.connections ==> sse.connections[job.userId].events == old(sse.connections[job.userId].events)))
        && (prompt.Ok? ==>
              var ai := AiService.GenerateContent(prompt.value, vendor);
              && r == Ok(())
              && contents.table == old(contents.table)[job.contentId := Finished(c, ai)]
              && (job.userId in sse.connections ==>
                    sse.connections[job.userId].events == old(sse.connections[job.userId].events) + [Finished(c, ai)])
              && threadService.threads.table ==
                   if Renames(ai, previous) then old(threadService.threads.table)[t.id := t.(title := ai.title)]
                   else old(threadService.threads.table))
    {
      // fetchJobData, with its two lookups taken one after the other
      var content := contents.FindById(job.contentId);
      var thread := threadService.FindUserThreadByThreadId(job.threadId, job.userId);
      var previous := if thread.Some? then contents.FindByThreadId(thread.value.id, job.contentId) else [];
      if content.None? || thread.None? {
        return Ok(());
      }
      r := Run(job, content.value, thread.value, previous, buildPrompt, vendor);
    }

    /** `executeContentGeneration` once the content `c` and the user's thread `t` are found. */
    method Run(job: JobData, c: Content, t: Thread, previous: seq<Content>,
      buildPrompt: (PromptHelper.PromptPayload, Option<Sentiment>) -> Result<JsValue, string>,
      vendor: (string, JsValue) -> VendorOutcome) returns (r: Result<(), string>)
      requires Valid()
      requires c.id in contents.table && contents.table[c.id] == c
      requires t.id in threadService.threads.table && threadService.threads.table[t.id] == t
      modifies contents, threadService.threads, sse.Streams()
      ensures Valid()
      ensures contents.issued == old(contents.issued)
      ensures threadService.threads.issued == old(threadService.threads.issued)
      ensures sse.connections == old(sse.connections)
      ensures forall u :: u in sse.connections && u != job.userId ==> sse.connections[u].events == old(sse.connections[u].events)
      ensures var prompt := buildPrompt(BuildGeneralPromptPayload(c, t, previous), job.sentiment);
        && (prompt.Err? ==>
              && r.Err?
              && contents.table == old(contents.table)[c.id := c.(status := Processing)]
              && threadService.threads.table == old(threadService.threads.table)
              && (job.userId in sse.connections ==> sse.connections[job.userId].events == old(sse.connections[job.userId].events)))
        && (prompt.Ok? ==>
              var ai := AiService.GenerateContent(prompt.value, vendor);
              && r == Ok(())
              && contents.table == old(contents.table)[c.id := Finished(c, ai)]
              && (job.userId in sse.connections ==>
                    sse.connections[job.userId].events == old(sse.connections[job.userId].events) + [Finished(c, ai)])
              && threadService.threads.table ==
                   if Renames(ai, previous) then old(threadService.threads.table)[t.id := t.(title := ai.title)]
                   else old(threadService.threads.table))
    {
      var _ := contents.Update(c.id, ContentPatch(None, Some(Processing), None));

      var payload := BuildGeneralPromptPayload(c, t, previous);
      var prompt := buildPrompt(payload, job.sentiment);
      if prompt.Err? {
        return Err(prompt.error);
      }
      var ai := AiService.GenerateContent(prompt.value, vendor);
      WriteResult(c, t, previous, ai, job.userId);
      r := Ok(());
    }

    /** The part of `executeContentGeneration` after the AI call: the final write, the
      * notification of the updated record, and the conditional rename. */
    method WriteResult(c: Content, t: Thread, previous: seq<Content>, ai: AiResponse, userId: string)
      requires Valid()
      requires c.id in contents.table && contents.table[c.id] == c.(status := Processing)
      requires t.id in threadService.threads.table && threadService.threads.table[t.id] == t
      modifies contents, threadService.threads, sse.Streams()
      ensures Valid()
      ensures contents.issued == old(contents.issued)
      ensures threadService.threads.issued == old(threadService.threads.issued)
      ensures contents.table == old(contents.table)[c.id := Finished(c, ai)]
      ensures sse.connections == old(sse.connections)
      ensures forall u :: u in sse.connections && u != userId ==> sse.connections[u].events == old(sse.connections[u].events)
      ensures userId in sse.connections ==>
        sse.connections[userId].events == old(sse.connections[userId].events) + [Finished(c, ai)]
      ensures threadService.threads.table ==
        if Renames(ai, previous) then old(threadService.threads.table)[t.id := t.(title := ai.title)]
        else old(threadService.threads.table)
    {
      var updated := contents.Update(c.id, ContentPatch(Some(ai.content), Some(ai.status), None));
      var _ := sse.EmitToUser(userId, updated.value);
      if ai.status == Completed && ai.title != "" && |previous| == 0 {
        var _ := threadService.UpdateTitle(t.id, ai.title);
      }
    }

    /** `handleContentJobError`: a write that sets only the status, to FAILED, then the updated
      * record goes to the job's user. For a record that no longer exists the update throws
      * inside the un-awaited call, so nothing is written and nothing is sent. */
    method HandleContentJobError(job: JobData)
      requires Valid()
      modifies contents, sse.Streams()
      ensures Valid()
      ensures contents.issued == old(contents.issued)
      ensures sse.connections == old(sse.connections)
      ensures forall u :: u in sse.connections && u != job.userId ==> sse.connections[u].events == old(sse.connections[u].events)
      ensures job.contentId !in old(contents.table) ==>
        && contents.table == old(contents.table)
        && (job.userId in sse.connections ==> sse.connections[job.userId].events == old(sse.connections[job.userId].events))
      ensures job.contentId in old(contents.table) ==>
        var failed := old(contents.table[job.contentId]).(status := Failed);
        && contents.table == old(contents.table)[job.contentId := failed]
        && (job.userId in sse.connections ==> sse.connections[job.userId].events == old(sse.connections[job.userId].events) + [failed])
    {
      var updated := contents.Update(job.contentId, ContentPatch(None, Some(Failed), None));
      if updated.Ok? {
        var _ := sse.EmitToUser(job.userId, updated.value);
      }
    }

    /** `processContentJob`: an execution whose exception is turned into the FAILED write. */
    method ProcessContentJob(job: JobData,
      buildPrompt: (PromptHelper.PromptPayload, Option<Sentiment>) -> Result<JsValue, string>,
      vendor: (string, JsValue) -> VendorOutcome)
      requires Valid()
      modifies contents, threadService.threads, sse.Streams()
      ensures Valid()
      ensures contents.issued == old(contents.issued)
      ensures sse.connections == old(sse.connections)
      ensures threadService.threads.issued == old(threadService.threads.issued)
      ensures forall u :: u in sse.connections && u != job.userId ==> sse.connections[u].events == old(sse.connections[u].events)
      ensures !old(Runnable(job)) ==>
        && contents.table == old(contents.table)
        && threadService.threads.table == old(threadService.threads.table)
        && (job.userId in sse.connections ==> sse.connections[job.userId].events == old(sse.connections[job.userId].events))
      ensures old(Runnable(job)) ==>
        var c := old(contents.table[job.contentId]);
        var t := old(threadService.threads.table[job.threadId]);
        var previous := old(contents.FindByThreadId(t.id, job.contentId));
        var prompt := buildPrompt(BuildGeneralPromptPayload(c, t, previous), job.sentiment);
        && (prompt.Err? ==>
              && contents.table == old(contents.table)[job.contentId := c.(status := Failed)]
              && threadService.threads.table == old(threadService.threads.table)
              && (job.userId in sse.connections ==>
                    sse.connections[job.userId].events == old(sse.connections[job.userId].events) + [c.(status := Failed)]))
        && (prompt.Ok? ==>
              var ai := AiService.GenerateContent(prompt.value, vendor);
              && contents.table == old(contents.table)[job.contentId := Finished(c, ai)]
              && (job.userId in sse.connections ==>
                    sse.connections[job.userId].events == old(sse.connections[job.userId].events) + [Finished(c, ai)])
              && threadService.threads.table ==
                   if Renames(ai, previous) then old(threadService.threads.table)[t.id := t.(title := ai.title)]
                   else old(threadService.threads.table))
    {
      var r := ExecuteContentGeneration(job, buildPrompt, vendor);
      if r.Err? {
        ghost var c := old(contents.table[job.contentId]);
        HandleContentJobError(job);
        FailedAfterProcessing(old(contents.table), job.contentId, c);
      }
    }

    /** Marking a PROCESSING record FAILED leaves the table as if it had been marked FAILED directly. */
    static lemma FailedAfterProcessing(m: map<string, Content>, id: string, c: Content)
      ensures var processing := m[id := c.(status := Processing)];
        processing[id := processing[id].(status := Failed)] == m[id := c.(status := Failed)]
    {
      var processing := m[id := c.(status := Processing)];
      assert processing[id].(status := Failed) == c.(status := Failed);
    }

    /** `findOne`: the record only when it exists and its thread belongs to `userId`; otherwise
      * CONTENT_NOT_FOUND/404, so another user's record is never returned. */
    function FindOne(id: string, userId: string): (r: Result<Content, HttpException>)
      reads this, contents, threadService, threadService.threads
      ensures r.Ok? <==>
        && id in contents.table && userId != "" && contents.table[id].threadId != ""
        && contents.table[id].threadId in threadService.threads.table
        && threadService.threads.table[contents.table[id].threadId].userId == userId
      ensures r.Ok? ==> r.value == contents.table[id]
      ensures r.Err? ==> r.error == ContentNotFound && r.error.status == 404
    {
      match contents.FindById(id)
      case None => Err(ContentNotFound)
      case Some(c) =>
        if threadService.FindUserThreadByThreadId(c.threadId, userId).None? then Err(ContentNotFound)
        else Ok(c)
    }

    /** `update`: sets the sentiment of any record, without an ownership check; a missing record
      * gives CONTENT_UPDATE_FAILED/500 and no change. */
    method Update(id: string, sentiment: Sentiment) returns (r: Result<Content, HttpException>)
      requires Valid()
      modifies contents
      ensures Valid()
      ensures contents.issued == old(contents.issued)
      ensures id !in old(contents.table) ==> r == Err(ContentUpdateFailed) && contents.table == old(contents.table)
      ensures id in old(contents.table) ==>
        && r == Ok(old(contents.table)[id].(sentiment := sentiment))
        && contents.table == old(contents.table)[id := r.value]
    {
      var updated := contents.FindOneAndUpdate(id, ContentPatch(None, None, Some(sentiment)));
      if updated.None? {
        return Err(ContentUpdateFailed);
      }
      r := Ok(updated.value);
    }

    /** `getStatusCountsByUserId`: a key for each of the four statuses, holding the number of
      * records of the given threads with that status (all zero, without a query, for no
      * threads). */
    method GetStatusCountsByUserId(threadIds: seq<string>) returns (counts: map<ContentStatus, nat>)
      ensures counts.Keys == AllStatuses
      ensures |threadIds| == 0 ==> forall s :: s in counts ==> counts[s] == 0
      ensures forall s :: s in counts ==> counts[s] == contents.StatusCount(threadIds, s)
    {
      counts := map[Pending := 0, Processing := 0, Completed := 0, Failed := 0];
      if |threadIds| == 0 {
        return;
      }
      var rows := contents.AggregateStatusCounts(threadIds);
      for i := 0 to |rows|
        invariant counts.Keys == AllStatuses
        invariant forall s :: s in counts ==> counts[s] == RowValue(rows[..i], s)
      {
        counts := counts[rows[i].status := rows[i].count];
        forall s | s in counts
          ensures counts[s] == RowValue(rows[..i + 1], s)
        {
          RowValueSnoc(rows, i, s);
        }
      }
      assert rows[..|rows|] == rows;
      forall s | s in counts
        ensures counts[s] == contents.StatusCount(threadIds, s)
      {
        AggregateRowValue(contents, threadIds, s);
      }
    }
  }

  /** Every other record of the thread reaches the prompt payload as a `(prompt, response)`
    * entry, and nothing else does. */
  lemma PayloadHistoryIsThreadHistory(repo: ContentRepository, content: Content, thread: Thread)
    requires repo.Valid()
    ensures var previous := repo.FindByThreadId(thread.id, content.id);
      var p := BuildGeneralPromptPayload(content, thread, previous);
      && (forall id :: id in repo.table && repo.table[id].threadId == thread.id && id != content.id ==>
            PromptHelper.HistoryItem(repo.table[id].prompt, repo.table[id].generatedContent) in p.history)
      && (forall h :: h in p.history ==>
            exists c :: c in repo.table.Values && c.threadId == thread.id && c.id != content.id && h == PromptHelper.HistoryItem(c.prompt, c.generatedContent))
  {
    var previous := repo.FindByThreadId(thread.id, content.id);
    var p := BuildGeneralPromptPayload(content, thread, previous);
    forall id | id in repo.table && repo.table[id].threadId == thread.id && id != content.id
      ensures PromptHelper.HistoryItem(repo.table[id].prompt, repo.table[id].generatedContent) in p.history
    {
      var c := repo.table[id];
      assert c in previous;
      var i :| 0 <= i < |previous| && previous[i] == c;
      assert p.history[i] == PromptHelper.HistoryItem(c.prompt, c.generatedContent);
    }
    forall h | h in p.history
      ensures exists c :: c in repo.table.Values && c.threadId == thread.id && c.id != content.id && h == PromptHelper.HistoryItem(c.prompt, c.generatedContent)
    {
      var i :| 0 <= i < |p.history| && p.history[i] == h;
      var c := previous[i];
      assert c in previous;
      assert repo.table[c.id] == c;
      assert c in repo.table.Values;
    }
  }

  /** The status a finished record ends in is COMPLETED or FAILED, COMPLETED exactly when the
    * vendor call succeeded. */
  lemma FinishedStatus(c: Content, prompt: JsValue, vendor: (string, JsValue) -> VendorOutcome)
    ensures var f := Finished(c, AiService.GenerateContent(prompt, vendor));
      && (f.status == Completed || f.status == Failed)
      && (f.status == Completed <==> vendor(AiService.GeminiFlash2, prompt).Success?)
      && (f.status == Failed ==> f.generatedContent == "")
  {
  }
}
