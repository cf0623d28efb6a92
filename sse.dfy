/**
 * SseService: the per-user notification streams. Each user id maps to one `Subject`, modelled
 * by the log of payloads it has delivered and whether it is completed. The two copies of the
 * service behave the same; only the one under src/sse has `closeUser`.
 */
module Sse {
  import opened Wrappers

  /** An rxjs `Subject`: `next` delivers to the log until the subject completes. */
  class Subject<T> {
    var events: seq<T>
    var completed: bool

    constructor()
      ensures events == [] && !completed
    {
      events := [];
      completed := false;
    }

    method Next(payload: T)
      modifies this
      ensures completed == old(completed)
      ensures events == if old(completed) then old(events) else old(events) + [payload]
    {
      if !completed {
        events := events + [payload];
      }
    }

    method Complete()
      modifies this
      ensures completed && events == old(events)
    {
      completed := true;
    }
  }

  class SseService<T> {
    var connections: map<string, Subject<T>>

    /** Every stream in the map is open, and no two users share a stream. */
    ghost predicate Valid()
      reads this, Streams()
    {
      && (forall u :: u in connections ==> !connections[u].completed)
      && (forall u, v :: u in connections && v in connections && u != v ==> connections[u] != connections[v])
    }

    function Streams(): set<Subject<T>>
      reads this
    {
      set u | u in connections :: connections[u]
    }

    constructor()
      ensures Valid() && connections == map[]
    {
      connections := map[];
    }

    /** `subscribe`: throws on a falsy user id; otherwise returns the user's stream, creating it
      * only when there is none, so the map grows by at most one entry. */
    method Subscribe(userId: string) returns (r: Result<Subject<T>, string>)
      requires Valid()
      modifies this
      ensures Valid()
      ensures userId == "" ==> r == Err("userId required") && connections == old(connections)
      ensures userId != "" && userId in old(connections) ==>
        r == Ok(old(connections)[userId]) && connections == old(connections)
      ensures userId != "" && userId !in old(connections) ==>
        && r.Ok? && fresh(r.value) && r.value.events == []
        && connections == old(connections)[userId := r.value]
    {
      if userId == "" {
        return Err("userId required");
      }
      if userId in connections {
        return Ok(connections[userId]);
      }
      var subject := new Subject<T>();
      connections := connections[userId := subject];
      r := Ok(subject);
    }

    /** `emitToUser`: false and no change without a stream; otherwise the payload is appended to
      * that user's stream alone and the result is true, whether or not anyone listens. */
    method EmitToUser(userId: string, payload: T) returns (delivered: bool)
      requires Valid()
      modifies Streams()
      ensures Valid()
      ensures delivered <==> userId in connections
      ensures connections == old(connections)
      ensures userId in connections ==> connections[userId].events == old(connections[userId].events) + [payload]
      ensures forall u :: u in connections && u != userId ==> connections[u].events == old(connections[u].events)
    {
      if userId !in connections {
        return false;
      }
      var subject := connections[userId];
      subject.Next(payload);
      delivered := true;
    }

    /** `closeUser`: completes and removes that user's stream, and is a no-op for a user
      * without one; every other entry is unchanged. */
    method CloseUser(userId: string)
      requires Valid()
      modifies this, Streams()
      ensures Valid()
      ensures connections == old(connections) - {userId}
      ensures userId in old(connections) ==>
        old(connections)[userId].completed && old(connections)[userId].events == old(connections[userId].events)
      ensures forall u :: u in connections ==> connections[u].events == old(connections[u].events)
    {
      if userId in connections {
        var subject := connections[userId];
        subject.Complete();
        connections := connections - {userId};
      }
    }

    /** `onModuleDestroy`: completes every stream, keeps what each delivered, and empties the map. */
    method OnModuleDestroy()
      requires Valid()
      modifies this, Streams()
      ensures Valid()
      ensures connections == map[]
      ensures forall u :: u in old(connections) ==>
        old(connections)[u].completed && old(connections)[u].events == old(connections[u].events)
    {
      var pending := connections.Keys;
      while pending != {}
        invariant pending <= connections.Keys
        invariant connections == old(connections)
        invariant forall u :: u in connections && u !in pending ==> connections[u].completed
        invariant forall u :: u in pending ==> !connections[u].completed
        invariant forall u :: u in connections ==> connections[u].events == old(connections[u].events)
        decreases pending
      {
        var u :| u in pending;
        connections[u].Complete();
        pending := pending - {u};
      }
      connections := map[];
    }
  }
}
