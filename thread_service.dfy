/**
 * ThreadService: ownership-checked operations on the thread table. A thrown `defaultError` is
 * the `Err` of a `Result`; the user is represented by its id.
 */
module ThreadService {
  import opened Wrappers
  import opened Enums
  import opened Js
  import opened ExceptionHelper
  import opened ThreadRepository

  /** `CreateThreadDto`; an absent status is `None`. */
  datatype CreateThreadDto = CreateThreadDto(title: string, contentType: ContentType, status: Option<ThreadStatus>)

  const ThreadNotFound := DefaultError("Thread not found", "THREAD_NOT_FOUND", 404, Undefined)
  const ThreadUpdateFailed := DefaultError("Failed to update thread", "THREAD_UPDATE_FAILED", 500, Undefined)

  class ThreadService {
    const threads: ThreadRepository

    ghost predicate Valid()
      reads this, threads
    {
      threads.Valid()
    }

    constructor(repository: ThreadRepository)
      requires repository.Valid()
      ensures threads == repository && Valid()
    {
      threads := repository;
    }

    /** `create`: the thread belongs to the creating user, copies title and type, and is ACTIVE
      * unless the request names a status. */
    method Create(userId: string, dto: CreateThreadDto, newId: string) returns (t: Thread)
      requires Valid()
      requires newId != "" && newId !in threads.issued
      modifies threads
      ensures Valid()
      ensures t.id == newId && t.userId == userId && t.title == dto.title && t.contentType == dto.contentType
      ensures t.status == dto.status.GetOr(Active)
      ensures threads.table == old(threads.table)[newId := t]
      ensures threads.issued == old(threads.issued) + [newId]
    {
      t := threads.Create(newId, ThreadDraft(userId, dto.title, dto.contentType, Some(dto.status.GetOr(Active))));
    }

    /** `findUserThreadByThreadId`: null without a lookup when either id is empty; otherwise
      * the thread only when it exists and belongs to `userId`. */
    function FindUserThreadByThreadId(threadId: string, userId: string): (r: Option<Thread>)
      reads this, threads
      ensures r.Some? <==>
        threadId != "" && userId != "" && threadId in threads.table && threads.table[threadId].userId == userId
      ensures r.Some? ==> r.value == threads.table[threadId]
    {
      if threadId == "" || userId == "" then None
      else threads.FindByIdAndUserId(threadId, userId)
    }

    /** `updateTitle`: sets the title and nothing else; null when the thread is gone. */
    method UpdateTitle(id: string, title: string) returns (r: Option<Thread>)
      requires Valid()
      modifies threads
      ensures Valid()
      ensures threads.issued == old(threads.issued)
      ensures id !in old(threads.table) ==> r.None? && threads.table == old(threads.table)
      ensures id in old(threads.table) ==>
        && r == Some(old(threads.table)[id].(title := title))
        && threads.table == old(threads.table)[id := r.value]
    {
      r := threads.Update(id, ThreadPatch(Some(title), None, None));
    }

    /** `update`: THREAD_NOT_FOUND/404 and no change unless the thread belongs to `userId`;
      * otherwise the patched thread. THREAD_UPDATE_FAILED/500 answers an update that finds
      * nothing, which cannot follow a successful lookup here. */
    method Update(id: string, userId: string, patch: ThreadPatch) returns (r: Result<Thread, HttpException>)
      requires Valid()
      modifies threads
      ensures Valid()
      ensures threads.issued == old(threads.issued)
      ensures old(threads.FindByIdAndUserId(id, userId)).None? ==>
        r == Err(ThreadNotFound) && threads.table == old(threads.table)
      ensures old(threads.FindByIdAndUserId(id, userId)).Some? ==>
        && r == Ok(PatchThread(old(threads.table)[id], patch))
        && threads.table == old(threads.table)[id := r.value]
    {
      var thread := threads.FindByIdAndUserId(id, userId);
      if thread.None? {
        return Err(ThreadNotFound);
      }
      var updated := threads.Update(id, patch);
      r := if updated.Some? then Ok(updated.value) else Err(ThreadUpdateFailed);
    }

    /** `remove`: THREAD_NOT_FOUND/404 and no change unless the thread belongs to `userId`;
      * otherwise the thread is deleted outright. Its contents are not touched. */
    method Remove(id: string, userId: string) returns (r: Result<(), HttpException>)
      requires Valid()
      modifies threads
      ensures Valid()
      ensures threads.issued == old(threads.issued)
      ensures old(threads.FindByIdAndUserId(id, userId)).None? ==>
        r == Err(ThreadNotFound) && threads.table == old(threads.table)
      ensures old(threads.FindByIdAndUserId(id, userId)).Some? ==>
        r == Ok(()) && threads.table == old(threads.table) - {id}
    {
      var thread := threads.FindByIdAndUserId(id, userId);
      if thread.None? {
        return Err(ThreadNotFound);
      }
      var _ := threads.Delete(id);
      r := Ok(());
    }
  }
}
