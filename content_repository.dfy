/**
 * ContentRepository: the content collection as an in-memory table. Records are keyed by id;
 * `issued` lists every id the collection has handed out, in creation order, and a record's
 * `createdAt` is its position in that list, so "newest first" is "highest position first".
 * ObjectIds are never reused, so a deleted record's id stays in `issued`.
 */
module ContentRepository {
  import opened Wrappers
  import opened Enums

  /** A stored content document (`content.entity.ts` with its schema defaults). */
  datatype Content = Content(
    id: string,
    threadId: string,
    prompt: string,
    generatedContent: string,
    status: ContentStatus,
    sentiment: Sentiment,
    createdAt: nat)

  /** The partial record `create` receives; `None` leaves the field to its schema default. */
  datatype ContentDraft = ContentDraft(
    threadId: string,
    prompt: string,
    generatedContent: Option<string>,
    status: Option<ContentStatus>)

  /** The fields an update may set; `None` leaves the stored value alone. */
  datatype ContentPatch = ContentPatch(
    generatedContent: Option<string>,
    status: Option<ContentStatus>,
    sentiment: Option<Sentiment>)

  /** The record `create` stores: `generatedContent` defaults to `''`, `status` to PENDING and
    * `sentiment` to neutral. */
  function NewContent(id: string, draft: ContentDraft, createdAt: nat): (c: Content)
    ensures c.id == id && c.threadId == draft.threadId && c.prompt == draft.prompt
    ensures c.generatedContent == draft.generatedContent.GetOr("")
    ensures c.status == draft.status.GetOr(Pending)
    ensures c.sentiment == Neutral && c.createdAt == createdAt
  {
    Content(id, draft.threadId, draft.prompt, draft.generatedContent.GetOr(""),
      draft.status.GetOr(Pending), Neutral, createdAt)
  }

  /** `findByIdAndUpdate(id, patch, {new: true})` on one record: the fields in the patch are set
    * and every other field is kept. */
  function PatchContent(c: Content, patch: ContentPatch): (r: Content)
    ensures r.id == c.id && r.threadId == c.threadId && r.prompt == c.prompt && r.createdAt == c.createdAt
    ensures r.generatedContent == (if patch.generatedContent.Some? then patch.generatedContent.value else c.generatedContent)
    ensures r.status == (if patch.status.Some? then patch.status.value else c.status)
    ensures r.sentiment == (if patch.sentiment.Some? then patch.sentiment.value else c.sentiment)
  {
    c.(generatedContent := patch.generatedContent.GetOr(c.generatedContent),
       status := patch.status.GetOr(c.status),
       sentiment := patch.sentiment.GetOr(c.sentiment))
  }

  /** An empty patch changes nothing, and patching twice with the same patch is patching once. */
  lemma PatchContentIdempotent(c: Content, patch: ContentPatch)
    ensures PatchContent(c, ContentPatch(None, None, None)) == c
    ensures PatchContent(PatchContent(c, patch), patch) == PatchContent(c, patch)
  {
  }

  /** One status-count row of the aggregation, `{_id: status, count}`. */
  datatype StatusRow = StatusRow(status: ContentStatus, count: nat)

  class ContentRepository {
    var table: map<string, Content>
    var issued: seq<string>

    /** Every record sits under its own id at the position `createdAt` of `issued`, and no id is
      * issued twice. */
    ghost predicate Valid()
      reads this
    {
      && (forall id :: id in table ==>
            table[id].id == id && table[id].createdAt < |issued| && issued[table[id].createdAt] == id)
      && (forall i, j :: 0 <= i < j < |issued| ==> issued[i] != issued[j])
    }

    constructor()
      ensures Valid() && table == map[] && issued == []
    {
      table := map[];
      issued := [];
    }

    /** `create`: stores the draft with its defaults under a fresh id and returns the stored
      * record, which is the newest of all. */
    method Create(newId: string, draft: ContentDraft) returns (c: Content)
      requires Valid()
      requires newId != "" && newId !in issued
      modifies this
      ensures Valid()
      ensures c == NewContent(newId, draft, |old(issued)|)
      ensures table == old(table)[newId := c]
      ensures issued == old(issued) + [newId]
    {
      c := NewContent(newId, draft, |issued|);
      table := table[newId := c];
      issued := issued + [newId];
    }

    /** `findById`: the record, or null. */
    function FindById(id: string): (r: Option<Content>)
      reads this
      ensures r.Some? <==> id in table
      ensures r.Some? ==> r.value == table[id]
    {
      if id in table then Some(table[id]) else None
    }

    /** `findByJobId`: the job id is the content id, so this is `findById`. */
    function FindByJobId(jobId: string): (r: Option<Content>)
      reads this
      ensures r == FindById(jobId)
    {
      if jobId in table then Some(table[jobId]) else None
    }

    /** The records among the first `k` issued ids that belong to `threadId` and are not
      * `currentId`, newest first. */
    function NewestOfThread(k: nat, threadId: string, currentId: string): (r: seq<Content>)
      requires Valid() && k <= |issued|
      reads this
      ensures forall c :: c in r ==>
        && c.id in table && table[c.id] == c && c.threadId == threadId && c.id != currentId && c.createdAt < k
      ensures forall id :: id in table && table[id].threadId == threadId && id != currentId && table[id].createdAt < k ==>
        table[id] in r
      ensures forall i, j :: 0 <= i < j < |r| ==> r[i].createdAt > r[j].createdAt
    {
      if k == 0 then []
      else
        var id := issued[k - 1];
        var rest := NewestOfThread(k - 1, threadId, currentId);
        if id in table && table[id].threadId == threadId && id != currentId then [table[id]] + rest
        else rest
    }

    /** `findByThreadId(threadId, currentContentId)`: exactly the thread's records other than
      * the current one, each once, newest first. */
    function FindByThreadId(threadId: string, currentId: string): (r: seq<Content>)
      requires Valid()
      reads this
      ensures forall c :: c in r <==>
        c.id in table && table[c.id] == c && c.threadId == threadId && c.id != currentId
      ensures forall i, j :: 0 <= i < j < |r| ==> r[i].createdAt > r[j].createdAt
    {
      NewestOfThread(|issued|, threadId, currentId)
    }

    /** `update`: the record with the patch applied, which is also what is returned (`new:
      * true`); a missing record makes the source call `.toObject()` on null, which throws. */
    method Update(id: string, patch: ContentPatch) returns (r: Result<Content, string>)
      requires Valid()
      modifies this
      ensures Valid()
      ensures issued == old(issued)
      ensures id !in old(table) ==> r.Err? && table == old(table)
      ensures id in old(table) ==>
        && r == Ok(PatchContent(old(table)[id], patch))
        && table == old(table)[id := r.value]
    {
      if id !in table {
        return Err("Cannot read properties of null (reading 'toObject')");
      }
      var updated := PatchContent(table[id], patch);
      table := table[id := updated];
      r := Ok(updated);
    }

    /** `findOneAndUpdate`, which `ContentService.update` calls and which the repository does not
      * define: the same update, answering null for a missing record instead of throwing. */
    method FindOneAndUpdate(id: string, patch: ContentPatch) returns (r: Option<Content>)
      requires Valid()
      modifies this
      ensures Valid()
      ensures issued == old(issued)
      ensures id !in old(table) ==> r.None? && table == old(table)
      ensures id in old(table) ==>
        && r == Some(PatchContent(old(table)[id], patch))
        && table == old(table)[id := r.value]
    {
      if id !in table {
        return None;
      }
      var updated := PatchContent(table[id], patch);
      table := table[id := updated];
      r := Some(updated);
    }

    /** `delete`: removes the record for good and returns it, or null when there is none. */
    method Delete(id: string) returns (r: Option<Content>)
      requires Valid()
      modifies this
      ensures Valid()
      ensures issued == old(issued)
      ensures table == old(table) - {id}
      ensures r == (if id in old(table) then Some(old(table)[id]) else None)
    {
      r := FindById(id);
      table := table - {id};
    }

    /** How many records of the given threads have status `s`. */
    function StatusCount(threadIds: seq<string>, s: ContentStatus): (n: nat)
      reads this
      ensures |threadIds| == 0 ==> n == 0
    {
      var ids := set id | id in table && table[id].threadId in threadIds && table[id].status == s;
      assert |threadIds| == 0 ==> ids == {};
      |ids|
    }

    /** One row for each of the four statuses, with its count. */
    function StatusRows(threadIds: seq<string>): (rows: seq<StatusRow>)
      reads this
      ensures forall i, j :: 0 <= i < j < |rows| ==> rows[i].status != rows[j].status
      ensures forall row :: row in rows ==> row.count == StatusCount(threadIds, row.status)
      ensures forall s :: StatusRow(s, StatusCount(threadIds, s)) in rows
    {
      var rows := [
        StatusRow(Pending, StatusCount(threadIds, Pending)),
        StatusRow(Processing, StatusCount(threadIds, Processing)),
        StatusRow(Completed, StatusCount(threadIds, Completed)),
        StatusRow(Failed, StatusCount(threadIds, Failed))];
      assert forall s :: StatusRow(s, StatusCount(threadIds, s)) in rows by {
        forall s: ContentStatus
          ensures StatusRow(s, StatusCount(threadIds, s)) in rows
        {
          var k := match s case Pending => 0 case Processing => 1 case Completed => 2 case Failed => 3;
          assert rows[k] == StatusRow(s, StatusCount(threadIds, s));
        }
      }
      rows
    }

    /** `aggregateStatusCountsByUserId`, which the repository does not define: one row per status
      * that occurs among the records of the given threads, with its count. */
    function AggregateStatusCounts(threadIds: seq<string>): (rows: seq<StatusRow>)
      reads this
      ensures forall i, j :: 0 <= i < j < |rows| ==> rows[i].status != rows[j].status
      ensures forall row :: row in rows ==> row.count == StatusCount(threadIds, row.status) && row.count > 0
      ensures forall s :: StatusCount(threadIds, s) > 0 ==> StatusRow(s, StatusCount(threadIds, s)) in rows
    {
      var all := StatusRows(threadIds);
      Nonzero(all)
    }
  }

  /** The rows whose count is not zero, in order; rows with distinct statuses stay distinct. */
  function Nonzero(rows: seq<StatusRow>): (r: seq<StatusRow>)
    ensures forall row :: row in r <==> row in rows && row.count > 0
    ensures (forall i, j :: 0 <= i < j < |rows| ==> rows[i].status != rows[j].status) ==>
      forall i, j :: 0 <= i < j < |r| ==> r[i].status != r[j].status
  {
    if |rows| == 0 then []
    else
      var rest := Nonzero(rows[1..]);
      if rows[0].count > 0 then
        assert forall row :: row in rest ==> row in rows[1..];
        [rows[0]] + rest
      else rest
  }
}
