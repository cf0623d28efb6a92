/**
 * QueueProcessor: the consumer of GENERATE_CONTENT jobs. It runs the content generation for the
 * job's data and swallows any exception after logging it.
 */
module QueueProcessor {
  import opened Wrappers
  import opened Enums
  import opened Js
  import opened AiResponse
  import opened ContentRepository
  import opened ThreadRepository
  import opened ContentService
  import AiService
  import PromptHelper

  class QueueProcessor {
    const contentService: ContentService

    ghost predicate Valid()
      reads this, contentService, contentService.contents, contentService.threadService,
        contentService.threadService.threads, contentService.sse, contentService.sse.Streams()
    {
      contentService.Valid()
    }

    constructor(contentService: ContentService)
      requires contentService.Valid()
      ensures this.contentService == contentService && Valid()
    {
      this.contentService := contentService;
    }

    /** `handleGenerateContentJob`: the generation runs for the job's data. A failure is only
      * logged: the FAILED write of `processContentJob` is not made, so when building the prompt
      * throws, the record is left PROCESSING and no one is notified. */
    method HandleGenerateContentJob(job: Job,
      buildPrompt: (PromptHelper.PromptPayload, Option<Sentiment>) -> Result<JsValue, string>,
      vendor: (string, JsValue) -> VendorOutcome)
      requires Valid()
      requires job.process == GenerateContentProcess
      modifies contentService.contents, contentService.threadService.threads, contentService.sse.Streams()
      ensures Valid()
      ensures contentService.contents.issued == old(contentService.contents.issued)
      ensures contentService.threadService.threads.issued == old(contentService.threadService.threads.issued)
      ensures contentService.sse.connections == old(contentService.sse.connections)
      ensures forall u :: u in contentService.sse.connections && u != job.data.userId ==>
        contentService.sse.connections[u].events == old(contentService.sse.connections[u].events)
      ensures !old(contentService.Runnable(job.data)) ==>
        && contentService.contents.table == old(contentService.contents.table)
        && contentService.threadService.threads.table == old(contentService.threadService.threads.table)
        && (job.data.userId in contentService.sse.connections ==>
              contentService.sse.connections[job.data.userId].events == old(contentService.sse.connections[job.data.userId].events))
      ensures old(contentService.Runnable(job.data)) ==>
        var c := old(contentService.contents.table[job.data.contentId]);
        var t := old(contentService.threadService.threads.table[job.data.threadId]);
        var previous := old(contentService.contents.FindByThreadId(t.id, job.data.contentId));
        var prompt := buildPrompt(BuildGeneralPromptPayload(c, t, previous), job.data.sentiment);
        && (prompt.Err? ==>
              && contentService.contents.table == old(contentService.contents.table)[c.id := c.(status := Processing)]
              && contentService.threadService.threads.table == old(contentService.threadService.threads.table)
              && (job.data.userId in contentService.sse.connections ==>
                    contentService.sse.connections[job.data.userId].events == old(contentService.sse.connections[job.data.userId].events)))
        && (prompt.Ok? ==>
              var ai := AiService.GenerateContent(prompt.value, vendor);
              && contentService.contents.table == old(contentService.contents.table)[c.id := Finished(c, ai)]
              && (job.data.userId in contentService.sse.connections ==>
                    contentService.sse.connections[job.data.userId].events ==
                      old(contentService.sse.connections[job.data.userId].events) + [Finished(c, ai)])
              && contentService.threadService.threads.table ==
                   if Renames(ai, previous) then old(contentService.threadService.threads.table)[t.id := t.(title := ai.title)]
                   else old(contentService.threadService.threads.table))
    {
      var r := contentService.ExecuteContentGeneration(job.data, buildPrompt, vendor);
    }
  }
}
