/**
 * ThreadRepository: the thread collection as an in-memory table, laid out like the content
 * table: records keyed by id, `issued` listing every id ever handed out in creation order, and
 * `createdAt` a record's position in that list.
 */
module ThreadRepository {
  import opened Wrappers
  import opened Enums

  /** A stored thread document (`thread.entity.ts`). */
  datatype Thread = Thread(
    id: string,
    userId: string,
    title: string,
    contentType: ContentType,
    status: ThreadStatus,
    createdAt: nat)

  /** The partial record `create` receives; an absent status takes the schema default. */
  datatype ThreadDraft = ThreadDraft(userId: string, title: string, contentType: ContentType, status: Option<ThreadStatus>)

  /** The fields of `UpdateThreadDto`, each optional. */
  datatype ThreadPatch = ThreadPatch(title: Option<string>, contentType: Option<ContentType>, status: Option<ThreadStatus>)

  function NewThread(id: string, draft: ThreadDraft, createdAt: nat): (t: Thread)
    ensures t.id == id && t.userId == draft.userId && t.title == draft.title
    ensures t.contentType == draft.contentType && t.status == draft.status.GetOr(Active)
    ensures t.createdAt == createdAt
  {
    Thread(id, draft.userId, draft.title, draft.contentType, draft.status.GetOr(Active), createdAt)
  }

  /** The fields in the patch are set; id, owner and creation time are kept. */
  function PatchThread(t: Thread, patch: ThreadPatch): (r: Thread)
    ensures r.id == t.id && r.userId == t.userId && r.createdAt == t.createdAt
    ensures r.title == (if patch.title.Some? then patch.title.value else t.title)
    ensures r.contentType == (if patch.contentType.Some? then patch.contentType.value else t.contentType)
    ensures r.status == (if patch.status.Some? then patch.status.value else t.status)
  {
    t.(title := patch.title.GetOr(t.title),
       contentType := patch.contentType.GetOr(t.contentType),
       status := patch.status.GetOr(t.status))
  }

  class ThreadRepository {
    var table: map<string, Thread>
    var issued: seq<string>

    ghost predicate Valid()
      reads this
    {
      && (forall id :: id in table ==>
            table[id].id == id && table[id].createdAt < |issued| && issued[table[id].createdAt] == id)
      && (forall i, j :: 0 <= i < j < |issued| ==> issued[i] != issued[j])
    }

    constructor()
      ensures Valid() && table == map[] && issued == []
    {
      table := map[];
      issued := [];
    }

    /** `create`: stores the draft under a fresh id and returns the stored record. */
    method Create(newId: string, draft: ThreadDraft) returns (t: Thread)
      requires Valid()
      requires newId != "" && newId !in issued
      modifies this
      ensures Valid()
      ensures t == NewThread(newId, draft, |old(issued)|)
      ensures table == old(table)[newId := t]
      ensures issued == old(issued) + [newId]
    {
      t := NewThread(newId, draft, |issued|);
      table := table[newId := t];
      issued := issued + [newId];
    }

    /** `findById`: the record, or null. */
    function FindById(id: string): (r: Option<Thread>)
      reads this
      ensures r.Some? <==> id in table
      ensures r.Some? ==> r.value == table[id]
    {
      if id in table then Some(table[id]) else None
    }

    /** `findByIdAndUserId`: the record only when it exists and belongs to `userId`. */
    function FindByIdAndUserId(id: string, userId: string): (r: Option<Thread>)
      reads this
      ensures r.Some? <==> id in table && table[id].userId == userId
      ensures r.Some? ==> r.value == table[id]
    {
      if id in table && table[id].userId == userId then Some(table[id]) else None
    }

    /** The user's threads not marked deleted among the first `k` issued ids, newest first. */
    function NewestOfUser(k: nat, userId: string): (r: seq<Thread>)
      requires Valid() && k <= |issued|
      reads this
      ensures forall t :: t in r ==>
        && t.id in table && table[t.id] == t && t.userId == userId && t.status != Deleted && t.createdAt < k
      ensures forall id :: id in table && table[id].userId == userId && table[id].status != Deleted && table[id].createdAt < k ==>
        table[id] in r
      ensures forall i, j :: 0 <= i < j < |r| ==> r[i].createdAt > r[j].createdAt
    {
      if k == 0 then []
      else
        var id := issued[k - 1];
        var rest := NewestOfUser(k - 1, userId);
        if id in table && table[id].userId == userId && table[id].status != Deleted then [table[id]] + rest
        else rest
    }

    /** `findByUserId`: exactly the user's threads whose status is not `'deleted'`, each once,
      * newest first. */
    function FindByUserId(userId: string): (r: seq<Thread>)
      requires Valid()
      reads this
      ensures forall t :: t in r <==>
        t.id in table && table[t.id] == t && t.userId == userId && t.status != Deleted
      ensures forall i, j :: 0 <= i < j < |r| ==> r[i].createdAt > r[j].createdAt
    {
      NewestOfUser(|issued|, userId)
    }

    /** `update`: the post-update record (`new: true`), or null with no change when the id is
      * absent. */
    method Update(id: string, patch: ThreadPatch) returns (r: Option<Thread>)
      requires Valid()
      modifies this
      ensures Valid()
      ensures issued == old(issued)
      ensures id !in old(table) ==> r.None? && table == old(table)
      ensures id in old(table) ==>
        && r == Some(PatchThread(old(table)[id], patch))
        && table == old(table)[id := r.value]
    {
      if id !in table {
        return None;
      }
      var updated := PatchThread(table[id], patch);
      table := table[id := updated];
      r := Some(updated);
    }

    /** `delete`: removes the record for good and returns it, or null. */
    method Delete(id: string) returns (r: Option<Thread>)
      requires Valid()
      modifies this
      ensures Valid()
      ensures issued == old(issued)
      ensures table == old(table) - {id}
      ensures r == (if id in old(table) then Some(old(table)[id]) else None)
    {
      r := FindById(id);
      table := table - {id};
    }
  }
}
