/** A whole catch-up seen from what the server holds: which rooms it asks for and
    from where, what it must recover, and when it may fail
    (internal/client/bulk_catchup.go, CatchUpAll and selectBulkRooms). */
module CatchUpServed {
  import opened CatchUpRoom
  import opened CatchUpChain
  import opened CatchUpServer
  import opened CatchUpFinish

  /** A chat whose missed interval is to be delivered. */
  predicate Missed(v: CP.View, id: int) { id in v.known && Resumes(v, id, v.known[id]) }

  /** Its last commit, or just below its first live admission. */
  function Position(v: CP.View, id: int): int {
    if CommittedMax(v, id) == 0 then FirstStart(v, id) - 1 else CommittedMax(v, id)
  }

  predicate Reaches(v: CP.View, floor: int, id: int) { Missed(v, id) && v.known[id] >= floor }

  ghost predicate Wanted(chats: seq<Chat>, cursors: map<int, int>, floor: int, id: int) {
    exists chat :: chat in chats && chat.id == id && AcquiresChat(cursors, chat, floor)
  }

  /** The rooms the first request is about, each with its position: missed rooms
      that reach the login floor, and inventory chats still to be acquired. */
  ghost function Asked(v: CP.View, floor: int, chats: seq<Chat>, cursors: map<int, int>): map<int, int> {
    map id |
      id in v.known.Keys + (set chat | chat in chats :: chat.id) &&
      (Reaches(v, floor, id) || (!Missed(v, id) && Wanted(chats, cursors, floor, id))) ::
      if Missed(v, id) then Position(v, id) else AcquiredThrough(cursors, id)
  }

  /** Rooms asked for plus the server's logs beyond their positions. */
  ghost function Load(db: seq<Log>, asked: map<int, int>): nat { |asked| + |Remaining(db, asked)| }

  /** The server's logs of the room follow on its position and reach its login
      ceiling. */
  ghost predicate Reachable(db: seq<Log>, v: CP.View, floor: int, id: int) {
    && Reaches(v, floor, id) && Linked(Position(v, id), RunOf(db, id, Position(v, id)))
    && exists l :: l in RunOf(db, id, Position(v, id)) && l.id >= v.known[id]
  }

  /** The server's logs in (committed, ceiling]. */
  function MissedLogs(db: seq<Log>, v: CP.View, id: int): seq<Log>
    requires id in v.known
  {
    AtMost(RunOf(db, id, Position(v, id)), v.known[id])
  }

  /** Replies a caller can use, and local writes that succeed, on every page. */
  ghost predicate Faultless(env: Env) {
    && (forall page: nat, request: Request :: page < MAX_PAGES ==> Usable(env.serve(page, request), request))
    && (forall page: nat :: page < MAX_PAGES ==> env.journals(page))
    && (forall page: nat, id: int :: page < MAX_PAGES ==> env.saves(page, id))
  }

  ghost predicate Usable(reply: Reply, request: Request) {
    && reply.Page? && Ordered(reply.logs)
    && (forall l :: l in reply.logs ==>
          l.decodes && l.chat in request.ids && (l.chat in request.since ==> request.since[l.chat] <= l.id))
  }

  ghost predicate NoAnswer(env: Env) { forall request: Request :: env.serve(0, request).Failed? }
  ghost predicate AnyReaches(v: CP.View, floor: int) { exists id :: id in v.known && Reaches(v, floor, id) }

  // ---- The chain's start ----

  /** Everything the chain starts from: the rooms selected and, pending, those
      that are not already done. */
  ghost predicate Starts(v: CP.View, floor: int, chats: seq<Chat>, cursors: map<int, int>, s: State) {
    && Selected(v, floor, s.rooms) && Acquiring(s.rooms, chats, cursors, floor)
    && (forall id :: id in s.pending <==> id in s.rooms && !s.rooms[id].done)
    && Distinct(s.pending) && s.pages == 0
  }

  lemma StartAsks(v: CP.View, floor: int, chats: seq<Chat>, cursors: map<int, int>, s: State, id: int)
    requires Starts(v, floor, chats, cursors, s)
    ensures id in s.pending <==> id in Asked(v, floor, chats, cursors)
    ensures id in s.pending ==> s.rooms[id].cursor == Asked(v, floor, chats, cursors)[id]
  {
    if id in s.rooms && !s.rooms[id].catchUp {
      var chat :| chat in chats && chat.id == id && AcquiresChat(cursors, chat, floor) &&
        s.rooms[id] == AcquisitionStart(chat, cursors);
      assert Wanted(chats, cursors, floor, id);
    }
  }

  lemma StartIsAsked(db: seq<Log>, v: CP.View, floor: int, chats: seq<Chat>, cursors: map<int, int>, s: State)
    requires Starts(v, floor, chats, cursors, s)
    ensures SinceOf(s) == Asked(v, floor, chats, cursors)
    ensures Outstanding(db, s) == Load(db, Asked(v, floor, chats, cursors))
  {
    var asked := Asked(v, floor, chats, cursors);
    forall id
      ensures id in SinceOf(s) <==> id in asked
      ensures id in SinceOf(s) ==> SinceOf(s)[id] == asked[id]
    {
      StartAsks(v, floor, chats, cursors, s, id);
    }
    assert SinceOf(s) == asked;
    DistinctCount(s.pending);
    assert SinceOf(s).Keys == set id | id in s.pending;
  }

  lemma {:induction false} DistinctCount(ids: seq<int>)
    requires Distinct(ids)
    ensures |set id | id in ids| == |ids|
  {
    if ids != [] {
      DistinctCount(ids[1..]);
      assert ids[0] !in ids[1..];
      assert (set id | id in ids) == (set id | id in ids[1..]) + {ids[0]};
    }
  }

  // ---- What the chain must recover ----

  lemma StartOnCourse(db: seq<Log>, v: CP.View, floor: int, chats: seq<Chat>, cursors: map<int, int>, s: State, id: int)
    requires Starts(v, floor, chats, cursors, s) && Ordered(db) && Reachable(db, v, floor, id)
    ensures id in s.pending && OnCourse(db, id, s.rooms[id])
    ensures s.rooms[id].gapStart == Position(v, id) + 1 && s.rooms[id].ceiling == v.known[id]
  {
    assert s.rooms[id] == CatchUpStart(v, id, v.known[id], floor);
    CommittedOnCourse(db, id, s.rooms[id]);
  }

  /** A server that answers: the chain ends, and every reachable room then holds
      the server's logs of its interval, as long as the rooms and logs to be read
      stay below the page cap. */
  lemma ReachableIsRecovered(env: Env, db: seq<Log>, size: nat -> nat, v: CP.View, floor: int, chats: seq<Chat>,
                             cursors: map<int, int>, s: State, id: int)
    requires Serves(env, db, size) && Starts(v, floor, chats, cursors, s)
    requires Load(db, Asked(v, floor, chats, cursors)) < MAX_PAGES && Reachable(db, v, floor, id)
    ensures Chain(env, s).Finished? && id in Chain(env, s).rooms
    ensures var room := Chain(env, s).rooms[id];
      Recovered(db, id, room) && room.gapStart == Position(v, id) + 1 && room.ceiling == v.known[id]
  {
    StartIsAsked(db, v, floor, chats, cursors, s);
    StartOnCourse(db, v, floor, chats, cursors, s, id);
    PagingRefinesPerRoomReads(env, db, size, s, {id});
  }

  // ---- Rooms never asked for ----

  /** A room that is not pending is never read. */
  lemma {:induction false} IdleStays(env: Env, s: State, id: int)
    requires s.Valid() && id in s.rooms && id !in s.pending
    ensures Chain(env, s).Finished? ==> id in Chain(env, s).rooms && Chain(env, s).rooms[id] == s.rooms[id]
    decreases MAX_PAGES - s.pages, s.history
  {
    if s.pending != [] {
      match TurnOf(env, s)
      case Leave(out) =>
      case Again(next) =>
        assert next.rooms[id] == s.rooms[id] && id !in next.pending;
        IdleStays(env, next, id);
    }
  }

  /** Below the login floor nothing is asked for. */
  lemma UnderFloorStays(env: Env, v: CP.View, floor: int, chats: seq<Chat>, cursors: map<int, int>, s: State, id: int)
    requires Starts(v, floor, chats, cursors, s) && Missed(v, id) && v.known[id] < floor
    ensures Chain(env, s).Finished? ==>
      id in Chain(env, s).rooms && Chain(env, s).rooms[id].events == [] && Chain(env, s).rooms[id].accepted == []
  {
    assert s.rooms[id] == CatchUpStart(v, id, v.known[id], floor);
    IdleStays(env, s, id);
  }

  // ---- When the chain may fail ----

  lemma UsablePageGoesOn(env: Env, s: State)
    requires Faultless(env) && s.Valid() && s.pending != [] && s.pages < MAX_PAGES
    ensures var step := PageStep(env, s.rooms, s.pending, s.pages); step.Stop? ==> step.out.Finished?
  {
    var ids := Batch(s.pending);
    var request := RequestFor(s.rooms, ids);
    var reply := env.serve(s.pages, request);
    assert Usable(reply, request);
    forall i | 0 <= i < |reply.logs|
      ensures reply.logs[i].chat in ids && s.rooms[reply.logs[i].chat].cursor <= reply.logs[i].id
    {
      assert reply.logs[i] in reply.logs;
    }
    PageAlwaysApplies(env, s.rooms, ids, s.pages, reply.logs);
  }

  /** Only a page that could not be read, was not the answer to its request, or
      could not be decoded or stored aborts the chain. */
  lemma {:induction false} FaultlessFinishes(env: Env, s: State)
    requires Faultless(env) && s.Valid()
    ensures Chain(env, s).Finished?
    decreases MAX_PAGES - s.pages, s.history
  {
    if s.pending != [] {
      if !(s.history && env.spent(s.pages)) && s.pages < MAX_PAGES { UsablePageGoesOn(env, s); }
      var turn := TurnOf(env, s);
      if turn.Again? { FaultlessFinishes(env, turn.next); }
    }
  }

  lemma ServedFinishes(env: Env, db: seq<Log>, size: nat -> nat, v: CP.View, floor: int, chats: seq<Chat>,
                       cursors: map<int, int>, s: State)
    requires Serves(env, db, size) && Starts(v, floor, chats, cursors, s)
    ensures Chain(env, s).Finished?
  {
    ChainRecovers(env, db, size, s, {});
  }

  /** A room to be delivered is asked for even when the acquisition budget is
      spent at once, so an unreachable server ends the catch-up. */
  lemma UnreachableAborts(env: Env, v: CP.View, floor: int, chats: seq<Chat>, cursors: map<int, int>, s: State, id: int)
    requires Starts(v, floor, chats, cursors, s) && Reaches(v, floor, id)
    requires NoAnswer(env)
    ensures Chain(env, s).Aborted?
  {
    assert s.rooms[id] == CatchUpStart(v, id, v.known[id], floor) && id in s.pending;
    if s.history && env.spent(0) {
      var next := TurnOf(env, s).next;
      assert id in next.pending;
      assert TurnOf(env, next) == Leave(Outcome.Aborted);
    } else {
      assert TurnOf(env, s) == Leave(Outcome.Aborted);
    }
  }
}
