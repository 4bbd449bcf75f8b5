/** The client's catch-up and its commit queue over the checkpoint
    (internal/client/bulk_catchup.go, CatchUpAll and finishBulkRooms;
    internal/client/client.go, CommitEvent and queueCommit). */
module CatchUpClient {
  import opened Basics
  import opened IdSets
  import opened CatchUpRoom
  import opened CatchUpChain
  import opened CatchUpAccount
  import opened CatchUpServer
  import opened CatchUpFinish
  import opened CatchUpRecovers
  import opened CatchUpServed

  function QueueOf(queue: map<int, seq<int>>, chat: int): seq<int> {
    if chat in queue then queue[chat] else []
  }

  function Enqueue(queue: map<int, seq<int>>, chat: int, logs: seq<int>): map<int, seq<int>> {
    if logs == [] then queue else queue[chat := QueueOf(queue, chat) + logs]
  }

  /** The head leaves; an empty queue is deleted. */
  function Dequeue(queue: map<int, seq<int>>, chat: int): map<int, seq<int>>
    requires QueueOf(queue, chat) != []
  {
    if |queue[chat]| == 1 then queue - {chat} else queue[chat := queue[chat][1..]]
  }

  predicate IsHead(queue: map<int, seq<int>>, chat: int, log: int) {
    QueueOf(queue, chat) != [] && QueueOf(queue, chat)[0] == log
  }

  function Ids(events: seq<Log>): seq<int> {
    seq(|events|, i requires 0 <= i < |events| => events[i].id)
  }

  lemma IdsSnoc(events: seq<Log>, last: Log)
    ensures Ids(events + [last]) == Ids(events) + [last.id]
  {
  }

  datatype CaughtUp = CaughtUp(id: int, room: Room, final: Final)
  datatype Caught = PagingFailed | FinishFailed | Rooms(rooms: seq<CaughtUp>)
  datatype CommitResult = OutOfOrder | NotSaved | Committed

  /** Every identity from the room's start through its ceiling is delivered, or
      strictly inside an accepted link, or in the gap the checkpoint holds; and
      its events are increasing and stay in that interval. */
  ghost predicate Settled(v: CP.View, caught: CaughtUp) {
    && Within(caught.room.gapStart - 1, caught.final.events, caught.room.ceiling)
    && (forall x :: caught.room.gapStart <= x <= caught.room.ceiling ==>
          (exists i :: 0 <= i < |caught.final.events| && caught.final.events[i].id == x) ||
          InsideLink(caught.room, x) || InGap(v, caught.id, x))
  }

  lemma EnqueueTwice(queue: map<int, seq<int>>, chat: int, a: seq<int>, b: seq<int>)
    ensures Enqueue(Enqueue(queue, chat, a), chat, b) == Enqueue(queue, chat, a + b)
  {
    if a == [] {
      assert a + b == b;
    } else if b == [] {
      assert a + b == a;
    } else {
      assert QueueOf(queue, chat) + a + b == QueueOf(queue, chat) + (a + b);
    }
  }

  predicate Succeed(writes: nat -> Write, n: nat) { forall k :: 0 <= k < n ==> writes(k).Written? }
  ghost predicate WritesWell(writes: nat -> Write) { forall n :: writes(n).Written? }
  ghost predicate AllWritten(writes: (int, nat) -> Write) { forall id: int, n: nat :: writes(id, n).Written? }

  class Client {
    const checkpoint: CP.Store
    var queue: map<int, seq<int>>

    ghost predicate Valid()
      reads this, checkpoint
    {
      checkpoint.Valid()
    }

    ghost function Now(): CP.View
      reads checkpoint
    {
      checkpoint.Now()
    }

    constructor (store: CP.Store)
      requires store.Valid()
      ensures Valid() && checkpoint == store && queue == map[] && Now() == store.Now()
    {
      checkpoint, queue := store, map[];
    }

    method QueueCommit(chat: int, log: int)
      modifies this
      ensures queue == Enqueue(old(queue), chat, [log])
    {
      queue := queue[chat := QueueOf(queue, chat) + [log]];
    }

    /** Only the head of a chat's queue can be committed, and it leaves the queue
        only once its commit is durable. */
    method CommitEvent(chat: int, log: int, write: Write) returns (r: CommitResult)
      requires Valid()
      modifies this, checkpoint
      ensures Valid()
      ensures r == if !IsHead(old(queue), chat, log) then OutOfOrder
                   else if CP.Legal(CP.Commit(chat, log)) && write.Written? then Committed else NotSaved
      ensures r == Committed ==>
        queue == Dequeue(old(queue), chat) && Now() == CP.Meaning(CP.Commit(chat, log), old(Now()))
      ensures r != Committed ==> queue == old(queue) && Now() == old(Now())
      ensures checkpoint.Durable() ==
        if IsHead(old(queue), chat, log) then
          CP.OnDisk(CP.Commit(chat, log), write, old(Now()), old(checkpoint.Durable()))
        else
          old(checkpoint.Durable())
    {
      if chat !in queue || queue[chat] == [] || queue[chat][0] != log {
        return OutOfOrder;
      }
      var status := checkpoint.CommitMessage(chat, log, write);
      if status != CP.Saved {
        return NotSaved;
      }
      queue := if |queue[chat]| == 1 then queue - {chat} else queue[chat := queue[chat][1..]];
      return Committed;
    }

    /** Gaps are recorded before any event of the room is queued. */
    method FinishRoom(id: int, room: Room, projects: bool, hadGap: bool, writes: nat -> Write) returns (ok: bool)
      requires Valid() && id > 0 && room.catchUp && RoomInv(room)
      modifies this, checkpoint
      ensures Valid()
      ensures var final := FinalOf(room, projects, hadGap);
        var ops := Writes(id, room, final);
        && (ok ==> Now() == Apply(old(Now()), ops) && queue == Enqueue(old(queue), id, Ids(final.events)))
        && (!ok ==> queue == old(queue) && exists n :: 0 <= n < |ops| && Now() == Apply(old(Now()), ops[..n]))
      ensures ok <==> Succeed(writes, |Writes(id, room, FinalOf(room, projects, hadGap))|)
    {
      var final := FinalOf(room, projects, hadGap);
      var ops := Writes(id, room, final);
      ghost var n;
      ok, n := WriteAll(ops, writes);
      if ok {
        assert ops[..|ops|] == ops;
        QueueEvents(id, final.events);
      }
    }

    /** Gap writes in order, up to the first that fails. */
    method WriteAll(ops: seq<CP.Op>, writes: nat -> Write) returns (ok: bool, ghost n: nat)
      requires Valid() && forall i :: 0 <= i < |ops| ==> (ops[i].RecordGap? || ops[i].ResolveGap?) && CP.Legal(ops[i])
      modifies checkpoint
      ensures Valid() && n <= |ops| && Now() == Apply(old(Now()), ops[..n])
      ensures ok <==> Succeed(writes, |ops|)
      ensures ok <==> n == |ops|
    {
      n := 0;
      for i := 0 to |ops|
        invariant Valid() && n == i && Now() == Apply(old(Now()), ops[..i]) && Succeed(writes, i)
      {
        var saved := WriteGap(ops[i], writes(i));
        if !saved {
          return false, n;
        }
        WriteStep(old(Now()), ops, i);
        n := n + 1;
      }
      ok := true;
    }

    method WriteGap(op: CP.Op, write: Write) returns (ok: bool)
      requires Valid() && (op.RecordGap? || op.ResolveGap?) && CP.Legal(op)
      modifies checkpoint
      ensures Valid()
      ensures Now() == if ok then CP.Meaning(op, old(Now())) else old(Now())
      ensures ok <==> write.Written?
    {
      var status;
      match op {
        case RecordGap(chat, from, to) => status := checkpoint.RecordGap(chat, from, to, write);
        case ResolveGap(chat, log) => status := checkpoint.ResolveGapThrough(chat, log, write);
      }
      ok := status == CP.Saved;
    }

    method QueueEvents(chat: int, events: seq<Log>)
      modifies this
      ensures queue == Enqueue(old(queue), chat, Ids(events))
    {
      for i := 0 to |events|
        invariant queue == Enqueue(old(queue), chat, Ids(events[..i]))
      {
        QueueCommit(chat, events[i].id);
        Prefix(events, i);
        IdsSnoc(events[..i], events[i]);
        EnqueueTwice(old(queue), chat, Ids(events[..i]), [events[i].id]);
      }
      assert events[..|events|] == events;
    }

    method FinishNext(id: int, room: Room, projects: bool, hadGap: bool, writes: nat -> Write)
      returns (ok: bool, final: Final)
      requires Valid() && id > 0 && room.catchUp && RoomInv(room)
      modifies this, checkpoint
      ensures Valid()
      ensures final == FinalOf(room, projects, hadGap)
      ensures ok ==> Settled(Now(), CaughtUp(id, room, final)) && Now() == Apply(old(Now()), Writes(id, room, final))
      ensures forall other :: other != id ==> SameGap(old(Now()), Now(), other)
      ensures ok ==> QueueOf(queue, id) == QueueOf(old(queue), id) + Ids(final.events)
      ensures !ok ==> queue == old(queue) && !WritesWell(writes)
      ensures forall other :: other != id ==> QueueOf(queue, other) == QueueOf(old(queue), other)
    {
      CP.ValidateIff(checkpoint.data);
      final := FinalOf(room, projects, hadGap);
      ok := FinishRoom(id, room, projects, hadGap, writes);
      WritesFrameAll(old(Now()), id, room, final);
      if ok {
        FinishSettles(old(Now()), id, room, projects, hadGap);
      }
    }

    /** Every catch-up room in ascending order. A gap write that fails stops
        here, before that room's events are queued. */
    method FinishBulkRooms(rooms: map<int, Room>, projects: int -> bool, writes: (int, nat) -> Write)
      returns (ok: bool, result: seq<CaughtUp>, ghost failed: int)
      requires Valid() && (forall id :: id in rooms ==> RoomInv(rooms[id]) && (rooms[id].catchUp ==> id > 0))
      modifies this, checkpoint
      ensures Valid()
      ensures ok ==> AllSettled(Now(), rooms, result)
      ensures ok ==> AllQueued(old(queue), queue, result)
      ensures AllFinished(old(Now()), Now(), projects, result)
      ensures !ok ==> !AllWritten(writes)
      ensures !ok ==> StoppedAt(old(Now()), Now(), old(queue), queue, rooms, result, failed)
    {
      var ids := SortedIds(set id | id in rooms && rooms[id].catchUp);
      var state := checkpoint.data;
      ghost var v, before := Now(), queue;
      result, failed := [], 0;
      for i := 0 to |ids|
        invariant Valid() && |result| == i && SoFar(v, Now(), before, queue, rooms, projects, ids, result)
      {
        assert ids[i] in ids;
        var saved, caught := FinishAt(v, before, rooms, projects, writes, ids, result, state);
        if !saved {
          failed := ids[i];
          return false, result, failed;
        }
        result := result + [caught];
      }
      Reported(rooms, ids, result);
      ok := true;
    }

    /** The next room in order. */
    method FinishAt(ghost v: CP.View, ghost before: map<int, seq<int>>, rooms: map<int, Room>, projects: int -> bool,
                    writes: (int, nat) -> Write, ids: seq<int>, result: seq<CaughtUp>, state: CP.Checkpoint)
      returns (saved: bool, caught: CaughtUp)
      requires Valid() && CP.Validate(state) && CP.Abs(state) == v
      requires SoFar(v, Now(), before, queue, rooms, projects, ids, result) && |result| < |ids|
      requires forall i, j :: 0 <= i < j < |ids| ==> ids[i] < ids[j]
      requires forall id :: id in ids <==> id in rooms && rooms[id].catchUp
      requires ids[|result|] > 0 && ids[|result|] in rooms && rooms[ids[|result|]].catchUp
      requires RoomInv(rooms[ids[|result|]])
      modifies this, checkpoint
      ensures Valid()
      ensures saved ==> SoFar(v, Now(), before, queue, rooms, projects, ids, result + [caught])
      ensures !saved ==> StoppedAt(v, Now(), before, queue, rooms, result, ids[|result|])
      ensures !saved ==> AllFinished(v, Now(), projects, result) && !AllWritten(writes)
    {
      var id := ids[|result|];
      var room := rooms[id];
      ghost var start, held := Now(), queue;
      var hadGap := CP.HasGapThrough(state, id, room.ceiling);
      var final;
      saved, final := FinishNext(id, room, projects(id), hadGap, (n: nat) => writes(id, n));
      caught := CaughtUp(id, room, final);
      if saved {
        CP.ReadsRefine(state, id, room.ceiling);
        SoFarStep(v, start, Now(), before, held, queue, rooms, projects, ids, result, caught);
      } else {
        StopsSoFar(v, start, Now(), before, queue, rooms, projects, ids, result);
      }
    }

    /** The rooms to read and, pending, those not already done. */
    method SelectStart(floor: int, history: Option<seq<Chat>>, cursors: map<int, int>) returns (start: State)
      requires Valid()
      ensures Starts(Now(), floor, Inventory(history), cursors, start) && CP.ValidView(Now())
      ensures start.Valid() && start.history == history.Some? && Continues(start.rooms, start.rooms)
    {
      var rooms := SelectBulkRooms(checkpoint, floor, history, cursors);
      CP.ValidateIff(checkpoint.data);
      SelectionStarts(Now(), floor, rooms);
      var pending := SortedIds(set id | id in rooms && !rooms[id].done);
      start := State(rooms, pending, 0, history.Some?);
    }

    /** The whole catch-up of a connect. A paging failure changes nothing; a
        finished one settles exactly the rooms that needed it, from where the
        checkpoint left them to their login ceilings. A gap write that fails
        leaves the rooms before it settled and queued, and those after it alone. */
    method CatchUpAll(floor: int, history: Option<seq<Chat>>, cursors: map<int, int>, env: Env, projects: int -> bool,
                      writes: (int, nat) -> Write, ghost db: seq<Log>, ghost size: nat -> nat)
      returns (r: Caught, ghost finished: seq<CaughtUp>, ghost failed: int)
      requires Valid()
      modifies this, checkpoint
      ensures Valid()
      ensures r.PagingFailed? ==> queue == old(queue) && Now() == old(Now())
      ensures r.PagingFailed? ==> !Faultless(env) && !Serves(env, db, size)
      ensures NoAnswer(env) && AnyReaches(old(Now()), floor) ==> r.PagingFailed?
      ensures Serves(env, db, size) && Load(db, Asked(old(Now()), floor, Inventory(history), cursors)) < MAX_PAGES ==>
        AllReadBack(db, old(Now()), Now(), floor, projects, if r.Rooms? then r.rooms else finished)
      ensures AllLeft(old(Now()), Now(), floor, projects, if r.Rooms? then r.rooms else finished)
      ensures r.Rooms? ==> Covers(old(Now()), floor, r.rooms)
      ensures r.Rooms? ==> forall i :: 0 <= i < |r.rooms| ==> Settled(Now(), r.rooms[i])
      ensures r.Rooms? ==> AllQueued(old(queue), queue, r.rooms)
      ensures r.FinishFailed? ==>
        CoversBefore(old(Now()), floor, finished, failed) && SameAfter(old(Now()), Now(), failed)
      ensures r.FinishFailed? ==> forall i :: 0 <= i < |finished| ==> Settled(Now(), finished[i])
      ensures r.FinishFailed? ==> AllQueued(old(queue), queue, finished)
      ensures r.FinishFailed? ==> !AllWritten(writes)
      ensures r.FinishFailed? ==> forall id :: id >= failed ==> QueueOf(queue, id) == QueueOf(old(queue), id)
    {
      var start := SelectStart(floor, history, cursors);
      ChainAccounts(env, start);
      ghost var v, chats := Now(), Inventory(history);
      Answers(env, db, size, v, floor, chats, cursors, start);
      var out := RunChain(env, start);
      if out.Aborted? {
        return PagingFailed, [], 0;
      }
      var ok, result;
      ok, result, failed := FinishBulkRooms(out.rooms, projects, writes);
      ReadsBack(env, db, size, v, Now(), floor, chats, cursors, start, projects, result);
      LeavesRest(env, v, Now(), floor, chats, cursors, start, projects, result);
      if !ok {
        CoversFinished(v, floor, start.rooms, out.rooms, result, Now(), failed);
        return FinishFailed, result, failed;
      }
      CoversSelected(v, floor, start.rooms, out.rooms, result, Now());
      return Rooms(result), [], 0;
    }
  }

  function Inventory(history: Option<seq<Chat>>): seq<Chat> { if history.Some? then history.value else [] }

  /** Recovered completely: exactly the server's logs of the interval, in order,
      nothing skipped or unresolved, and no gap left through the ceiling. */
  ghost predicate ReadBack(db: seq<Log>, v: CP.View, w: CP.View, caught: CaughtUp)
    requires caught.id in v.known
  {
    && caught.final.events == MissedLogs(db, v, caught.id) && caught.final.skip.None? && caught.final.rest.None?
    && forall x :: x <= v.known[caught.id] ==> !InGap(w, caught.id, x)
  }

  ghost predicate AllReadBack(db: seq<Log>, v: CP.View, w: CP.View, floor: int, projects: int -> bool,
                              result: seq<CaughtUp>) {
    forall i :: 0 <= i < |result| && Reachable(db, v, floor, result[i].id) && projects(result[i].id) ==>
      ReadBack(db, v, w, result[i])
  }

  /** Left for later: no event, and the whole interval in the gap. */
  ghost predicate LeftOut(v: CP.View, w: CP.View, caught: CaughtUp)
    requires caught.id in v.known
  {
    && caught.final.events == []
    && forall x :: Position(v, caught.id) < x <= v.known[caught.id] ==> InGap(w, caught.id, x)
  }

  /** A room below the login floor, and one that does not project, is left out. */
  ghost predicate AllLeft(v: CP.View, w: CP.View, floor: int, projects: int -> bool, result: seq<CaughtUp>) {
    forall i ::
      0 <= i < |result| && result[i].id in v.known && (v.known[result[i].id] < floor || !projects(result[i].id)) ==>
      LeftOut(v, w, result[i])
  }

  /** The outcome of a room's chain, written over the gap it started with. */
  ghost predicate IsFinished(v: CP.View, w: CP.View, projects: int -> bool, caught: CaughtUp) {
    && caught.final == FinalOf(caught.room, projects(caught.id), HasGapThrough(v, caught.id, caught.room.ceiling))
    && SameGap(Apply(v, Writes(caught.id, caught.room, caught.final)), w, caught.id)
  }

  ghost predicate AllFinished(v: CP.View, w: CP.View, projects: int -> bool, result: seq<CaughtUp>) {
    forall i :: 0 <= i < |result| ==> IsFinished(v, w, projects, result[i])
  }

  /** The rooms finished so far, and those still to come. */
  ghost predicate SoFar(v: CP.View, w: CP.View, before: map<int, seq<int>>, after: map<int, seq<int>>,
                        rooms: map<int, Room>, projects: int -> bool, ids: seq<int>, result: seq<CaughtUp>) {
    && Progress(w, before, after, rooms, ids, result) && Untouched(v, w, before, after, result)
    && AllFinished(v, w, projects, result)
  }

  lemma SoFarStep(v: CP.View, start: CP.View, w: CP.View, before: map<int, seq<int>>, after: map<int, seq<int>>,
                  next: map<int, seq<int>>, rooms: map<int, Room>, projects: int -> bool, ids: seq<int>,
                  result: seq<CaughtUp>, caught: CaughtUp)
    requires SoFar(v, start, before, after, rooms, projects, ids, result)
    requires |result| < |ids| && caught.id == ids[|result|] && forall i, j :: 0 <= i < j < |ids| ==> ids[i] < ids[j]
    requires IsSettled(w, rooms, caught) && w == Apply(start, Writes(caught.id, caught.room, caught.final))
    requires caught.final == FinalOf(caught.room, projects(caught.id), HasGapThrough(v, caught.id, caught.room.ceiling))
    requires QueueOf(next, caught.id) == QueueOf(after, caught.id) + Ids(caught.final.events)
    requires forall other :: other != caught.id ==>
      SameGap(start, w, other) && QueueOf(next, other) == QueueOf(after, other)
    ensures SoFar(v, w, before, next, rooms, projects, ids, result + [caught])
  {
    assert !Reports(result, caught.id);
    FinishedStep(v, start, w, projects, ids, result, caught);
    ProgressStep(start, w, before, after, next, rooms, ids, result, caught);
    UntouchedStep(v, start, w, before, after, next, result, caught);
  }

  lemma StopsSoFar(v: CP.View, start: CP.View, w: CP.View, before: map<int, seq<int>>, after: map<int, seq<int>>,
                   rooms: map<int, Room>, projects: int -> bool, ids: seq<int>, result: seq<CaughtUp>)
    requires SoFar(v, start, before, after, rooms, projects, ids, result) && |result| < |ids|
    requires forall i, j :: 0 <= i < j < |ids| ==> ids[i] < ids[j]
    requires forall id :: id in ids <==> id in rooms && rooms[id].catchUp
    requires forall other :: other != ids[|result|] ==> SameGap(start, w, other)
    ensures StoppedAt(v, w, before, after, rooms, result, ids[|result|]) && AllFinished(v, w, projects, result)
  {
    FinishedStay(v, start, w, projects, ids, result);
    Stops(v, start, w, before, after, rooms, ids, result);
  }

  lemma FinishedStay(v: CP.View, start: CP.View, w: CP.View, projects: int -> bool, ids: seq<int>,
                     result: seq<CaughtUp>)
    requires AllFinished(v, start, projects, result) && |result| < |ids|
    requires forall i, j :: 0 <= i < j < |ids| ==> ids[i] < ids[j]
    requires forall k :: 0 <= k < |result| ==> result[k].id == ids[k]
    requires forall other :: other != ids[|result|] ==> SameGap(start, w, other)
    ensures AllFinished(v, w, projects, result)
  {
    forall i | 0 <= i < |result|
      ensures IsFinished(v, w, projects, result[i])
    {
      assert IsFinished(v, start, projects, result[i]) && SameGap(start, w, result[i].id);
    }
  }

  lemma FinishedStep(v: CP.View, start: CP.View, w: CP.View, projects: int -> bool, ids: seq<int>,
                     result: seq<CaughtUp>, caught: CaughtUp)
    requires AllFinished(v, start, projects, result) && |result| < |ids| && caught.id == ids[|result|]
    requires forall i, j :: 0 <= i < j < |ids| ==> ids[i] < ids[j]
    requires forall k :: 0 <= k < |result| ==> result[k].id == ids[k]
    requires forall other :: other != ids[|result|] ==> SameGap(start, w, other)
    requires SameGap(v, start, caught.id) && w == Apply(start, Writes(caught.id, caught.room, caught.final))
    requires caught.final == FinalOf(caught.room, projects(caught.id), HasGapThrough(v, caught.id, caught.room.ceiling))
    ensures AllFinished(v, w, projects, result + [caught])
  {
    FinishedStay(v, start, w, projects, ids, result);
    ApplySame(v, start, Writes(caught.id, caught.room, caught.final), caught.id);
    assert IsFinished(v, w, projects, caught);
  }

  /** What a room's writes leave depends only on the gap it started with. */
  lemma {:induction false} ApplySame(v: CP.View, w: CP.View, ops: seq<CP.Op>, id: int)
    requires SameGap(v, w, id)
    requires forall i :: 0 <= i < |ops| ==> (ops[i].RecordGap? || ops[i].ResolveGap?) && ops[i].chat == id
    ensures SameGap(Apply(v, ops), Apply(w, ops), id)
  {
    if ops != [] {
      ApplySame(v, w, ops[..|ops| - 1], id);
    }
  }

  lemma Answers(env: Env, db: seq<Log>, size: nat -> nat, v: CP.View, floor: int, chats: seq<Chat>,
                cursors: map<int, int>, s: State)
    requires Starts(v, floor, chats, cursors, s)
    ensures Chain(env, s).Aborted? ==> !Faultless(env) && !Serves(env, db, size)
    ensures NoAnswer(env) && AnyReaches(v, floor) ==> Chain(env, s).Aborted?
  {
    if Faultless(env) { FaultlessFinishes(env, s); }
    if Serves(env, db, size) { ServedFinishes(env, db, size, v, floor, chats, cursors, s); }
    if NoAnswer(env) {
      forall id | id in v.known && Reaches(v, floor, id)
        ensures Chain(env, s).Aborted?
      {
        UnreachableAborts(env, v, floor, chats, cursors, s, id);
      }
    }
  }

  lemma ReadsBack(env: Env, db: seq<Log>, size: nat -> nat, v: CP.View, w: CP.View, floor: int, chats: seq<Chat>,
                  cursors: map<int, int>, s: State, projects: int -> bool, result: seq<CaughtUp>)
    requires Starts(v, floor, chats, cursors, s) && Chain(env, s).Finished?
    requires forall i :: 0 <= i < |result| ==> IsSettled(w, Chain(env, s).rooms, result[i])
    requires AllFinished(v, w, projects, result)
    ensures Serves(env, db, size) && Load(db, Asked(v, floor, chats, cursors)) < MAX_PAGES ==>
      AllReadBack(db, v, w, floor, projects, result)
  {
    if Serves(env, db, size) && Load(db, Asked(v, floor, chats, cursors)) < MAX_PAGES {
      forall i | 0 <= i < |result| && Reachable(db, v, floor, result[i].id) && projects(result[i].id)
        ensures ReadBack(db, v, w, result[i])
      {
        ReachableIsRecovered(env, db, size, v, floor, chats, cursors, s, result[i].id);
        assert IsSettled(w, Chain(env, s).rooms, result[i]) && IsFinished(v, w, projects, result[i]);
        ReadBackOne(v, w, db, projects, result[i]);
      }
    }
  }

  lemma ReadBackOne(v: CP.View, w: CP.View, db: seq<Log>, projects: int -> bool, caught: CaughtUp)
    requires caught.id in v.known && projects(caught.id) && IsFinished(v, w, projects, caught)
    requires Recovered(db, caught.id, caught.room)
    requires caught.room.gapStart == Position(v, caught.id) + 1 && caught.room.ceiling == v.known[caught.id]
    ensures ReadBack(db, v, w, caught)
  {
    RecoveredRoomLeavesNoGap(v, db, caught.id, caught.room, v.known[caught.id]);
    forall x | x <= v.known[caught.id]
      ensures !InGap(w, caught.id, x)
    {
      RecoveredRoomLeavesNoGap(v, db, caught.id, caught.room, x);
    }
  }

  lemma LeavesRest(env: Env, v: CP.View, w: CP.View, floor: int, chats: seq<Chat>, cursors: map<int, int>, s: State,
                   projects: int -> bool, result: seq<CaughtUp>)
    requires CP.ValidView(v) && Starts(v, floor, chats, cursors, s) && Chain(env, s).Finished?
    requires Continues(s.rooms, Chain(env, s).rooms)
    requires forall i :: 0 <= i < |result| ==> IsSettled(w, Chain(env, s).rooms, result[i])
    requires AllFinished(v, w, projects, result)
    ensures AllLeft(v, w, floor, projects, result)
  {
    forall i | 0 <= i < |result| && result[i].id in v.known &&
      (v.known[result[i].id] < floor || !projects(result[i].id))
      ensures LeftOut(v, w, result[i])
    {
      var caught := result[i];
      assert IsSettled(w, Chain(env, s).rooms, caught) && IsFinished(v, w, projects, caught);
      assert SameRequest(s.rooms[caught.id], caught.room);
      assert s.rooms[caught.id] == CatchUpStart(v, caught.id, v.known[caught.id], floor);
      if v.known[caught.id] < floor {
        UnderFloorStays(env, v, floor, chats, cursors, s, caught.id);
      }
      LeftOne(v, w, projects, caught);
    }
  }

  lemma LeftOne(v: CP.View, w: CP.View, projects: int -> bool, caught: CaughtUp)
    requires caught.id in v.known && CP.ValidView(v) && IsFinished(v, w, projects, caught)
    requires RoomInv(caught.room) && caught.room.catchUp
    requires caught.room.gapStart == Position(v, caught.id) + 1 && caught.room.ceiling == v.known[caught.id]
    requires !projects(caught.id) || (caught.room.events == [] && caught.room.accepted == [])
    ensures LeftOut(v, w, caught)
  {
    forall x | Position(v, caught.id) < x <= v.known[caught.id]
      ensures InGap(w, caught.id, x)
    {
      var hadGap := HasGapThrough(v, caught.id, caught.room.ceiling);
      assert Owed(caught.room, projects(caught.id), x);
      FinishedRoomAccounts(v, caught.id, caught.room, projects(caught.id), hadGap, x);
      assert InGap(Apply(v, Writes(caught.id, caught.room, caught.final)), caught.id, x);
    }
  }

  /** The rooms reported are those that needed catch-up, each from its commit or
      first admission to its login ceiling. */
  ghost predicate Covers(v: CP.View, floor: int, result: seq<CaughtUp>) {
    && (forall id :: id in v.known && Resumes(v, id, v.known[id]) ==>
        exists i :: 0 <= i < |result| && result[i].id == id)
    && (forall i :: 0 <= i < |result| ==> CoversRoom(v, floor, result[i]))
  }

  predicate CoversRoom(v: CP.View, floor: int, caught: CaughtUp) {
    caught.id in v.known && Resumes(v, caught.id, v.known[caught.id]) &&
    SameRequest(CatchUpStart(v, caught.id, v.known[caught.id], floor), caught.room)
  }

  lemma CoversSelected(v: CP.View, floor: int, rooms: map<int, Room>, after: map<int, Room>, result: seq<CaughtUp>,
                       w: CP.View)
    requires Selected(v, floor, rooms) && Continues(rooms, after) && AllSettled(w, after, result)
    ensures Covers(v, floor, result)
    ensures forall i :: 0 <= i < |result| ==> Settled(w, result[i])
  {
    forall i | 0 <= i < |result|
      ensures CoversRoom(v, floor, result[i]) && Settled(w, result[i])
    {
      assert IsSettled(w, after, result[i]);
      assert SameRequest(rooms[result[i].id], after[result[i].id]);
    }
    forall id | id in v.known && Resumes(v, id, v.known[id])
      ensures exists i :: 0 <= i < |result| && result[i].id == id
    {
      assert id in rooms && rooms[id].catchUp && SameRequest(rooms[id], after[id]);
    }
  }

  /** The rooms below failed that needed catch-up are among those finished, each
      from where the checkpoint left it. */
  ghost predicate CoversBefore(v: CP.View, floor: int, finished: seq<CaughtUp>, failed: int) {
    && failed in v.known && Resumes(v, failed, v.known[failed])
    && (forall id :: id in v.known && Resumes(v, id, v.known[id]) && id < failed ==>
        exists i :: 0 <= i < |finished| && finished[i].id == id)
    && (forall i :: 0 <= i < |finished| ==> finished[i].id < failed && CoversRoom(v, floor, finished[i]))
  }

  ghost predicate SameAfter(v: CP.View, w: CP.View, failed: int) { forall id :: id > failed ==> SameGap(v, w, id) }

  lemma CoversFinished(v: CP.View, floor: int, rooms: map<int, Room>, after: map<int, Room>, result: seq<CaughtUp>,
                       w: CP.View, failed: int)
    requires Selected(v, floor, rooms) && Continues(rooms, after)
    requires FinishedBefore(w, after, result, failed)
    ensures CoversBefore(v, floor, result, failed)
    ensures forall i :: 0 <= i < |result| ==> Settled(w, result[i])
  {
    assert SameRequest(rooms[failed], after[failed]);
    forall i | 0 <= i < |result|
      ensures CoversRoom(v, floor, result[i]) && Settled(w, result[i])
    {
      assert IsSettled(w, after, result[i]);
      assert SameRequest(rooms[result[i].id], after[result[i].id]);
    }
    forall id | id in v.known && Resumes(v, id, v.known[id]) && id < failed
      ensures exists i :: 0 <= i < |result| && result[i].id == id
    {
      assert id in rooms && rooms[id].catchUp && SameRequest(rooms[id], after[id]);
    }
  }

  /** Each room's events are queued after what was queued for it, in order. */
  ghost predicate AllQueued(before: map<int, seq<int>>, after: map<int, seq<int>>, result: seq<CaughtUp>) {
    forall i :: 0 <= i < |result| ==>
      QueueOf(after, result[i].id) == QueueOf(before, result[i].id) + Ids(result[i].final.events)
  }

  ghost predicate IsSettled(v: CP.View, rooms: map<int, Room>, caught: CaughtUp) {
    caught.id in rooms && rooms[caught.id].catchUp && caught.room == rooms[caught.id] && Settled(v, caught)
  }

  /** Every catch-up room is reported and settled. */
  ghost predicate AllSettled(v: CP.View, rooms: map<int, Room>, result: seq<CaughtUp>) {
    && (forall id :: id in rooms && rooms[id].catchUp ==> exists i :: 0 <= i < |result| && result[i].id == id)
    && (forall i :: 0 <= i < |result| ==> IsSettled(v, rooms, result[i]))
  }

  /** The rooms finished so far are settled and queued, the others untouched. */
  ghost predicate Progress(v: CP.View, before: map<int, seq<int>>, after: map<int, seq<int>>, rooms: map<int, Room>,
                           ids: seq<int>, result: seq<CaughtUp>) {
    && |result| <= |ids|
    && (forall k :: 0 <= k < |result| ==> result[k].id == ids[k] && IsSettled(v, rooms, result[k]))
    && AllQueued(before, after, result)
    && (forall k :: |result| <= k < |ids| ==> QueueOf(after, ids[k]) == QueueOf(before, ids[k]))
  }

  predicate Reports(result: seq<CaughtUp>, id: int) { exists k :: 0 <= k < |result| && result[k].id == id }

  lemma ReportsSnoc(result: seq<CaughtUp>, caught: CaughtUp, id: int)
    ensures Reports(result + [caught], id) <==> Reports(result, id) || caught.id == id
  {
    var all := result + [caught];
    assert all[|result|] == caught;
    if k :| 0 <= k < |result| && result[k].id == id { assert all[k].id == id; }
  }

  /** What is not reported keeps its gap and its queue. */
  ghost predicate Untouched(v: CP.View, w: CP.View, before: map<int, seq<int>>, after: map<int, seq<int>>,
                            result: seq<CaughtUp>) {
    forall id :: !Reports(result, id) ==> SameGap(v, w, id) && QueueOf(after, id) == QueueOf(before, id)
  }

  lemma UntouchedStep(v: CP.View, w: CP.View, next: CP.View, before: map<int, seq<int>>, after: map<int, seq<int>>,
                      queue: map<int, seq<int>>, result: seq<CaughtUp>, caught: CaughtUp)
    requires Untouched(v, w, before, after, result)
    requires forall other :: other != caught.id ==>
      SameGap(w, next, other) && QueueOf(queue, other) == QueueOf(after, other)
    ensures Untouched(v, next, before, queue, result + [caught])
  {
    forall id | !Reports(result + [caught], id)
      ensures SameGap(v, next, id) && QueueOf(queue, id) == QueueOf(before, id)
    {
      ReportsSnoc(result, caught, id);
      assert SameGap(v, w, id) && SameGap(w, next, id);
    }
  }

  /** The catch-up rooms below failed are finished, and only they. */
  ghost predicate FinishedBefore(w: CP.View, rooms: map<int, Room>, result: seq<CaughtUp>, failed: int) {
    && failed in rooms && rooms[failed].catchUp
    && (forall id :: id in rooms && rooms[id].catchUp && id < failed ==>
        exists i :: 0 <= i < |result| && result[i].id == id)
    && (forall i :: 0 <= i < |result| ==> result[i].id < failed && IsSettled(w, rooms, result[i]))
  }

  /** A gap write of the room failed: the rooms before it are settled and queued,
      it queued nothing, and the rooms after it are as they were. */
  ghost predicate StoppedAt(v: CP.View, w: CP.View, before: map<int, seq<int>>, after: map<int, seq<int>>,
                            rooms: map<int, Room>, result: seq<CaughtUp>, failed: int) {
    && FinishedBefore(w, rooms, result, failed) && AllQueued(before, after, result)
    && (forall id :: id >= failed ==> QueueOf(after, id) == QueueOf(before, id)) && SameAfter(v, w, failed)
  }

  lemma Stops(v: CP.View, start: CP.View, w: CP.View, before: map<int, seq<int>>, after: map<int, seq<int>>,
              rooms: map<int, Room>, ids: seq<int>, result: seq<CaughtUp>)
    requires Progress(start, before, after, rooms, ids, result) && |result| < |ids|
    requires Untouched(v, start, before, after, result)
    requires forall i, j :: 0 <= i < j < |ids| ==> ids[i] < ids[j]
    requires forall id :: id in ids <==> id in rooms && rooms[id].catchUp
    requires forall other :: other != ids[|result|] ==> SameGap(start, w, other)
    ensures StoppedAt(v, w, before, after, rooms, result, ids[|result|])
  {
    var failed := ids[|result|];
    assert failed in ids;
    FinishedThrough(start, w, before, after, rooms, ids, result);
    forall id | id >= failed
      ensures QueueOf(after, id) == QueueOf(before, id) && (id > failed ==> SameGap(v, w, id))
    {
      assert !Reports(result, id);
      if id > failed { assert SameGap(v, start, id) && SameGap(start, w, id); }
    }
  }

  lemma FinishedThrough(start: CP.View, w: CP.View, before: map<int, seq<int>>, after: map<int, seq<int>>,
                        rooms: map<int, Room>, ids: seq<int>, result: seq<CaughtUp>)
    requires Progress(start, before, after, rooms, ids, result) && |result| < |ids|
    requires forall i, j :: 0 <= i < j < |ids| ==> ids[i] < ids[j]
    requires forall id :: id in ids <==> id in rooms && rooms[id].catchUp
    requires forall other :: other != ids[|result|] ==> SameGap(start, w, other)
    ensures FinishedBefore(w, rooms, result, ids[|result|])
  {
    var failed := ids[|result|];
    assert failed in ids;
    forall i | 0 <= i < |result|
      ensures result[i].id < failed && IsSettled(w, rooms, result[i])
    {
      SettledStays(start, w, rooms, result[i]);
    }
    forall id | id in rooms && rooms[id].catchUp && id < failed
      ensures exists i :: 0 <= i < |result| && result[i].id == id
    {
      assert id in ids;
      var k :| 0 <= k < |ids| && ids[k] == id;
      assert k < |result| && result[k].id == id;
    }
  }

  lemma SettledStays(v: CP.View, w: CP.View, rooms: map<int, Room>, caught: CaughtUp)
    requires IsSettled(v, rooms, caught) && SameGap(v, w, caught.id)
    ensures IsSettled(w, rooms, caught)
  {
    assert forall x :: InGap(v, caught.id, x) ==> InGap(w, caught.id, x);
  }

  lemma ProgressStep(v: CP.View, w: CP.View, before: map<int, seq<int>>, after: map<int, seq<int>>,
                     next: map<int, seq<int>>, rooms: map<int, Room>, ids: seq<int>, result: seq<CaughtUp>,
                     caught: CaughtUp)
    requires Progress(v, before, after, rooms, ids, result) && |result| < |ids| && caught.id == ids[|result|]
    requires forall i, j :: 0 <= i < j < |ids| ==> ids[i] < ids[j]
    requires IsSettled(w, rooms, caught)
    requires QueueOf(next, caught.id) == QueueOf(after, caught.id) + Ids(caught.final.events)
    requires forall other :: other != caught.id ==>
      SameGap(v, w, other) && QueueOf(next, other) == QueueOf(after, other)
    ensures Progress(w, before, next, rooms, ids, result + [caught])
  {
    var all := result + [caught];
    Snoc(result, caught);
    forall k | 0 <= k < |all|
      ensures all[k].id == ids[k] && IsSettled(w, rooms, all[k])
    {
      if k < |result| { SettledStays(v, w, rooms, result[k]); }
    }
    QueuedStep(before, after, next, ids, result, caught);
  }

  lemma QueuedStep(before: map<int, seq<int>>, after: map<int, seq<int>>, next: map<int, seq<int>>, ids: seq<int>,
                   result: seq<CaughtUp>, caught: CaughtUp)
    requires |result| < |ids| && caught.id == ids[|result|] && forall i, j :: 0 <= i < j < |ids| ==> ids[i] < ids[j]
    requires forall k :: 0 <= k < |result| ==> result[k].id == ids[k]
    requires AllQueued(before, after, result)
    requires forall k :: |result| <= k < |ids| ==> QueueOf(after, ids[k]) == QueueOf(before, ids[k])
    requires QueueOf(next, caught.id) == QueueOf(after, caught.id) + Ids(caught.final.events)
    requires forall other :: other != caught.id ==> QueueOf(next, other) == QueueOf(after, other)
    ensures AllQueued(before, next, result + [caught])
    ensures forall k :: |result| < k < |ids| ==> QueueOf(next, ids[k]) == QueueOf(before, ids[k])
  {
    var all := result + [caught];
    forall i | 0 <= i < |all|
      ensures QueueOf(next, all[i].id) == QueueOf(before, all[i].id) + Ids(all[i].final.events)
    {
      if i < |result| { assert all[i] == result[i] && result[i].id == ids[i] < caught.id; }
    }
  }

  lemma Reported(rooms: map<int, Room>, ids: seq<int>, result: seq<CaughtUp>)
    requires |result| == |ids| && forall k :: 0 <= k < |ids| ==> result[k].id == ids[k]
    requires forall id :: id in rooms && rooms[id].catchUp ==> id in ids
    ensures forall id :: id in rooms && rooms[id].catchUp ==> exists i :: 0 <= i < |result| && result[i].id == id
  {
    forall id | id in rooms && rooms[id].catchUp
      ensures exists i :: 0 <= i < |result| && result[i].id == id
    {
      assert id in ids;
      var k :| 0 <= k < |ids| && ids[k] == id;
      assert result[k].id == id;
    }
  }

  lemma WriteStep(v: CP.View, ops: seq<CP.Op>, n: nat)
    requires n < |ops| && (ops[n].RecordGap? || ops[n].ResolveGap?)
    ensures Apply(v, ops[..n + 1]) == CP.Meaning(ops[n], Apply(v, ops[..n]))
  {
    assert ops[..n + 1][..n] == ops[..n];
  }

  predicate SameGap(v: CP.View, w: CP.View, id: int) {
    (id in v.gaps <==> id in w.gaps) && (id in v.gaps ==> v.gaps[id] == w.gaps[id])
  }

  /** A room's writes, or those before one failed, touch no other room's gap. */
  lemma WritesFrame(v: CP.View, id: int, room: Room, final: Final, n: nat, other: int)
    requires other != id && n <= |Writes(id, room, final)|
    ensures SameGap(v, Apply(v, Writes(id, room, final)[..n]), other)
  {
    var ops := Writes(id, room, final)[..n];
    assert forall i :: 0 <= i < |ops| ==> (ops[i].RecordGap? || ops[i].ResolveGap?) && ops[i].chat == id;
    ApplyFrame(v, ops, id, other);
  }

  lemma WritesFrameAll(v: CP.View, id: int, room: Room, final: Final)
    ensures forall n, other :: 0 <= n <= |Writes(id, room, final)| && other != id ==>
      SameGap(v, Apply(v, Writes(id, room, final)[..n]), other)
    ensures forall other :: other != id ==> SameGap(v, Apply(v, Writes(id, room, final)), other)
  {
    var ops := Writes(id, room, final);
    forall n, other | 0 <= n <= |ops| && other != id
      ensures SameGap(v, Apply(v, ops[..n]), other)
    {
      WritesFrame(v, id, room, final, n, other);
    }
    assert ops[..|ops|] == ops;
  }

  lemma {:induction false} ApplyFrame(v: CP.View, ops: seq<CP.Op>, id: int, other: int)
    requires other != id
    requires forall i :: 0 <= i < |ops| ==> (ops[i].RecordGap? || ops[i].ResolveGap?) && ops[i].chat == id
    ensures SameGap(v, Apply(v, ops), other)
  {
    if ops != [] {
      ApplyFrame(v, ops[..|ops| - 1], id, other);
    }
  }

  lemma {:induction false} WithinHigher(lo: int, run: seq<Log>, hi: int, higher: int)
    requires Within(lo, run, hi) && hi <= higher
    ensures Within(lo, run, higher)
    decreases run
  {
    if run != [] {
      WithinHigher(run[0].id, run[1..], hi, higher);
    }
  }

  lemma FinishSettles(v: CP.View, id: int, room: Room, projects: bool, hadGap: bool)
    requires CP.ValidView(v) && RoomInv(room) && room.catchUp
    ensures var final := FinalOf(room, projects, hadGap);
      Settled(Apply(v, Writes(id, room, final)), CaughtUp(id, room, final))
  {
    var final := FinalOf(room, projects, hadGap);
    WithinHigher(room.gapStart - 1, room.events, Min(room.ceiling, room.cursor), room.ceiling);
    forall x | room.gapStart <= x <= room.ceiling && Owed(room, projects, x)
      ensures InGap(Apply(v, Writes(id, room, final)), id, x)
    {
      FinishedRoomAccounts(v, id, room, projects, hadGap, x);
    }
  }
}
