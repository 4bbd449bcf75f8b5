/** What breaks a room's chain, what ends the page stream, and what a finished
    room records, each stated on the run, the page and the interval themselves
    (internal/client/bulk_catchup.go, applyBulkRun, CatchUpAll and
    finishBulkRooms). */
module CatchUpOutcomes {
  import opened Basics
  import opened CatchUpRoom
  import opened CatchUpChain
  import opened CatchUpAccount
  import opened CatchUpServer
  import opened CatchUpFinish
  import opened CatchUpServed
  import opened CatchUpClient

  // ---- One run ----

  /** The log follows the one before it, or the start. */
  predicate Follows(run: seq<Log>, start: int, i: nat)
    requires i < |run|
  {
    Links(run[i], if i == 0 then start else run[i - 1].id)
  }

  predicate Undecoded(run: seq<Log>, ceiling: int, i: nat)
    requires i < |run|
  {
    run[i].id <= ceiling && !run[i].decodes
  }

  /** Everything before the log follows and decodes. */
  ghost predicate GoodBefore(run: seq<Log>, start: int, ceiling: int, i: nat)
    requires i <= |run|
  {
    forall j :: 0 <= j < i ==> Follows(run, start, j) && !Undecoded(run, ceiling, j)
  }

  /** The first fault of the run is a broken link, or an undecodable body. */
  ghost predicate Breaks(run: seq<Log>, start: int, ceiling: int) {
    exists i :: 0 <= i < |run| && GoodBefore(run, start, ceiling, i) && !Follows(run, start, i)
  }

  ghost predicate Fails(run: seq<Log>, start: int, ceiling: int) {
    exists i :: 0 <= i < |run| && FailsAt(run, start, ceiling, i)
  }

  ghost predicate FailsAt(run: seq<Log>, start: int, ceiling: int, i: nat)
    requires i < |run|
  {
    GoodBefore(run, start, ceiling, i) && Follows(run, start, i) && Undecoded(run, ceiling, i)
  }

  lemma GoodAfter(run: seq<Log>, start: int, ceiling: int, i: nat)
    requires i < |run| && Follows(run, start, 0) && !Undecoded(run, ceiling, 0)
    ensures GoodBefore(run, start, ceiling, i + 1) <==> GoodBefore(run[1..], run[0].id, ceiling, i)
    ensures i + 1 < |run| ==>
      (Follows(run, start, i + 1) <==> Follows(run[1..], run[0].id, i)) &&
        (Undecoded(run, ceiling, i + 1) <==> Undecoded(run[1..], ceiling, i))
  {
    var rest := run[1..];
    forall j | 0 <= j < |rest|
      ensures Follows(rest, run[0].id, j) <==> Follows(run, start, j + 1)
      ensures Undecoded(rest, ceiling, j) <==> Undecoded(run, ceiling, j + 1)
    {
    }
    if GoodBefore(rest, run[0].id, ceiling, i) {
      forall j | 0 <= j < i + 1
        ensures Follows(run, start, j) && !Undecoded(run, ceiling, j)
      {
        if j > 0 { assert Follows(rest, run[0].id, j - 1) && !Undecoded(rest, ceiling, j - 1); }
      }
    }
    if GoodBefore(run, start, ceiling, i + 1) {
      forall j | 0 <= j < i
        ensures Follows(rest, run[0].id, j) && !Undecoded(rest, ceiling, j)
      {
        assert Follows(run, start, j + 1) && !Undecoded(run, ceiling, j + 1);
      }
    }
  }

  lemma FaultsAfter(run: seq<Log>, start: int, ceiling: int)
    requires run != [] && Follows(run, start, 0) && !Undecoded(run, ceiling, 0)
    ensures Breaks(run, start, ceiling) <==> Breaks(run[1..], run[0].id, ceiling)
    ensures Fails(run, start, ceiling) <==> Fails(run[1..], run[0].id, ceiling)
  {
    var rest := run[1..];
    forall i: nat | i < |run|
      ensures GoodBefore(run, start, ceiling, i + 1) <==> GoodBefore(rest, run[0].id, ceiling, i)
      ensures i + 1 < |run| ==>
        (Follows(run, start, i + 1) <==> Follows(rest, run[0].id, i)) &&
          (Undecoded(run, ceiling, i + 1) <==> Undecoded(rest, ceiling, i))
    {
      GoodAfter(run, start, ceiling, i);
    }
    if i :| 0 <= i < |rest| && GoodBefore(rest, run[0].id, ceiling, i) && !Follows(rest, run[0].id, i) {
      assert GoodBefore(run, start, ceiling, i + 1);
    }
    if i :| 0 <= i < |rest| && FailsAt(rest, run[0].id, ceiling, i) {
      assert FailsAt(run, start, ceiling, i + 1);
    }
    if i :| 0 <= i < |run| && GoodBefore(run, start, ceiling, i) && !Follows(run, start, i) {
      assert i > 0 && GoodBefore(rest, run[0].id, ceiling, i - 1);
    }
    if i :| 0 <= i < |run| && FailsAt(run, start, ceiling, i) {
      assert i > 0 && FailsAt(rest, run[0].id, ceiling, i - 1);
    }
  }

  /** The first fault decides how the walk ends. */
  lemma {:induction false} WalkIs(run: seq<Log>, start: int, ceiling: int)
    ensures Walk(run, start, ceiling).Broken? <==> Breaks(run, start, ceiling)
    ensures Walk(run, start, ceiling).Undecodable? <==> Fails(run, start, ceiling)
    decreases run
  {
    if run != [] {
      assert GoodBefore(run, start, ceiling, 0);
      if !Follows(run, start, 0) || Undecoded(run, ceiling, 0) {
        assert forall i: nat :: 0 < i < |run| ==> !GoodBefore(run, start, ceiling, i);
        assert Follows(run, start, 0) ==> FailsAt(run, start, ceiling, 0);
      } else {
        FaultsAfter(run, start, ceiling);
        WalkIs(run[1..], run[0].id, ceiling);
      }
    }
  }

  /** The run continues the room: its first predecessor lies at or past the
      cursor. */
  predicate Joins(room: Room, run: seq<Log>)
    requires run != []
  {
    run[0].prev.Some? && run[0].prev.value >= 0 && run[0].prev.value >= room.cursor
  }

  /** The hull of what was skipped before and (cursor, first]. */
  predicate SkippedNow(room: Room, first: int, x: int) {
    if room.cursor >= Min(first, room.ceiling) then Skipped(room, x)
    else (if room.skipFrom > 0 then room.skipFrom else room.cursor + 1) <= x <= Min(first, room.ceiling)
  }

  /** A catch-up room after a run: a run that does not continue it, or breaks,
      ends it where it was; an undecodable log or a failed save aborts; any other
      run delivers its logs up to the ceiling and moves the cursor past all of
      it, with what was skipped before it recorded. */
  lemma ApplyIs(room: Room, run: seq<Log>, saved: bool)
    requires room.catchUp && run != [] && RoomInv(room)
    ensures var out := ApplyRun(room, run, saved);
      && (out.Aborted? <==> Joins(room, run) && !Breaks(run, run[0].prev.value, room.ceiling) &&
                            (!saved || Fails(run, run[0].prev.value, room.ceiling)))
      && (!Joins(room, run) ==> out == Advanced(room.(done := true)))
      && (out.Advanced? && Joins(room, run) ==>
          Taken(room, run, out.room) && forall x :: Skipped(out.room, x) <==> SkippedNow(room, run[0].prev.value, x))
  {
    if Joins(room, run) {
      WalkIs(run, run[0].prev.value, room.ceiling);
      if Walk(run, run[0].prev.value, room.ceiling).Clean? { WalkDelivers(run, run[0].prev.value, room.ceiling); }
    }
  }

  ghost predicate Taken(room: Room, run: seq<Log>, after: Room)
    requires run != [] && run[0].prev.Some?
  {
    && SameRequest(room, after)
    && if Breaks(run, run[0].prev.value, room.ceiling) then
         after.done && after.events == room.events && after.cursor == room.cursor && after.accepted == room.accepted
       else
         && after.done == room.done && after.events == room.events + AtMost(run, room.ceiling)
         && after.cursor == run[|run| - 1].id && after.accepted == room.accepted + run
  }

  /** A room that is only acquired follows no chain: its cursor moves to the last
      log once the run is saved. */
  lemma AcquiresWhatIsSaved(room: Room, run: seq<Log>, saved: bool)
    requires !room.catchUp
    ensures var out := ApplyRun(room, run, saved);
      if run != [] && !saved then out.Aborted?
      else out == Advanced(room.(cursor := if run == [] then room.cursor else run[|run| - 1].id))
  {
  }

  // ---- The page stream ----

  /** On no page were both the room's run and the acquisition journal written. */
  ghost predicate NeverJournaled(env: Env, id: int) {
    forall page: nat :: page < MAX_PAGES ==> !(env.saves(page, id) && env.journals(page))
  }

  lemma UnjournaledStep(env: Env, s: State, id: int)
    requires s.Valid() && s.pending != [] && id in s.rooms && !s.rooms[id].catchUp
    requires !(env.saves(s.pages, id) && env.journals(s.pages)) || s.pages >= MAX_PAGES
    requires forall other :: other in s.rooms ==> RoomInv(s.rooms[other])
    ensures match TurnOf(env, s)
      case Leave(out) => out.Finished? ==> id in out.rooms && out.rooms[id] == s.rooms[id]
      case Again(next) => next.rooms[id] == s.rooms[id]
  {
    if !(s.history && env.spent(s.pages)) && s.pages < MAX_PAGES {
      var ids := Batch(s.pending);
      var reply := env.serve(s.pages, RequestFor(s.rooms, ids));
      if reply.Page? && Ordered(reply.logs) && id in ids {
        var run := RunOf(reply.logs, id, s.rooms[id].cursor);
        AcquiresWhatIsSaved(s.rooms[id], run, env.saves(s.pages, id));
        RunIsWithin(reply.logs, id, s.rooms[id].cursor);
        if run != [] { WithinMeans(s.rooms[id].cursor, run, run[|run| - 1].id); }
        assert run != [] && env.saves(s.pages, id) ==> Acquires(env, s.rooms[id], s.pages, reply.logs, id);
      }
    }
  }

  /** An acquired room never moves without its run saved and the acquisition
      cursors journaled on one page. */
  lemma {:induction false} UnjournaledStays(env: Env, s: State, id: int)
    requires s.Valid() && id in s.rooms && !s.rooms[id].catchUp && NeverJournaled(env, id)
    requires Continues(s.rooms, s.rooms)
    ensures Chain(env, s).Finished? ==> id in Chain(env, s).rooms && Chain(env, s).rooms[id] == s.rooms[id]
    decreases MAX_PAGES - s.pages, s.history
  {
    if s.pending != [] {
      UnjournaledStep(env, s, id);
      TurnContinues(env, s);
      var turn := TurnOf(env, s);
      if turn.Again? { UnjournaledStays(env, turn.next, id); }
    }
  }

  /** Once the acquisition budget is spent no acquired room is read any more. */
  lemma SpentAcquiresNothing(env: Env, s: State, id: int)
    requires s.Valid() && s.history && env.spent(s.pages) && id in s.rooms && !s.rooms[id].catchUp
    ensures Chain(env, s).Finished? ==> id in Chain(env, s).rooms && Chain(env, s).rooms[id] == s.rooms[id]
  {
    if s.pending != [] {
      var next := TurnOf(env, s).next;
      IdleStays(env, next, id);
    } else {
      IdleStays(env, s, id);
    }
  }

  /** A last page retires its whole batch: with no other room pending the stream
      ends there, and with rooms beyond the batch it goes on with those alone. */
  lemma LastPageRetires(env: Env, db: seq<Log>, size: nat -> nat, s: State)
    requires Serves(env, db, size) && Live(s) && s.pending != [] && s.pages < MAX_PAGES
    requires !(s.history && env.spent(s.pages))
    requires Answer(db, RequestFor(s.rooms, Batch(s.pending)), size(s.pages)).eof
    ensures TurnOf(env, s).Again? && TurnOf(env, s).next.pages == s.pages + 1
    ensures forall id :: id in TurnOf(env, s).next.pending ==> id in s.pending && id !in Batch(s.pending)
    ensures |s.pending| <= MAX_CHATS ==> Chain(env, s).Finished? && Chain(env, s).pages == s.pages + 1
  {
    PageGoesOn(env, db, size, s);
    var next := TurnOf(env, s).next;
    if |s.pending| <= MAX_CHATS {
      assert Batch(s.pending) == s.pending;
      var page := Answer(db, RequestFor(s.rooms, s.pending), size(s.pages));
      DropAll(s.pending, DoneRooms(next.rooms) + Retired(s.pending, page.logs, page.eof));
    }
  }

  lemma {:induction false} DropAll(pending: seq<int>, gone: set<int>)
    requires forall i :: 0 <= i < |pending| ==> pending[i] in gone
    ensures Drop(pending, gone) == []
  {
    if pending != [] {
      assert pending[0] in gone && forall i :: 0 <= i < |pending| - 1 ==> pending[1..][i] == pending[i + 1];
      DropAll(pending[1..], gone);
    }
  }

  /** A capped page retires the rooms below its last log's. */
  lemma CappedPageRetires(env: Env, db: seq<Log>, size: nat -> nat, s: State, id: int)
    requires Serves(env, db, size) && Live(s) && s.pending != [] && s.pages < MAX_PAGES
    requires !(s.history && env.spent(s.pages)) && id in Batch(s.pending)
    requires var page := Answer(db, RequestFor(s.rooms, Batch(s.pending)), size(s.pages));
             !page.eof && id < page.logs[|page.logs| - 1].chat
    ensures TurnOf(env, s).Again? && id !in TurnOf(env, s).next.pending
  {
    NextPending(env, db, size, s);
  }

  /** What is pending after a page. */
  lemma NextPending(env: Env, db: seq<Log>, size: nat -> nat, s: State)
    requires Serves(env, db, size) && Live(s) && s.pending != [] && s.pages < MAX_PAGES
    requires !(s.history && env.spent(s.pages))
    ensures var page, turn := Answer(db, RequestFor(s.rooms, Batch(s.pending)), size(s.pages)), TurnOf(env, s);
      turn.Again? && turn.next.pending ==
        Drop(s.pending, DoneRooms(turn.next.rooms) + Retired(Batch(s.pending), page.logs, page.eof))
  {
    PageGoesOn(env, db, size, s);
  }

  /** A page that is not the last and holds no log stops the stream with the
      rooms as they are, rather than asking the same again. */
  lemma EmptyPageStops(env: Env, s: State)
    requires s.Valid() && s.pending != [] && s.pages < MAX_PAGES && !(s.history && env.spent(s.pages))
    requires env.serve(s.pages, RequestFor(s.rooms, Batch(s.pending))) == Page([], false)
    ensures Chain(env, s) == Finished(s.rooms, s.pages + 1, s.pending)
  {
    var ids := Batch(s.pending);
    forall id | id in ids
      ensures RoomAfter(env, s.rooms[id], s.pages, [], id) == Advanced(s.rooms[id])
    {
    }
    assert RoomsAfter(env, s.rooms, ids, s.pages, []) == s.rooms;
    assert Retired(ids, [], false) == {};
    assert TurnOf(env, s) == Leave(Finished(s.rooms, s.pages + 1, s.pending));
  }

  // ---- What a finished room records ----

  predicate Records(op: CP.Op, id: int, x: int) { op.RecordGap? && op.chat == id && op.from <= x <= op.to }

  /** What the room still owes beyond its cursor or skipped. */
  predicate Unresolved(room: Room, projects: bool, x: int) {
    if projects then Skipped(room, x) || room.cursor < x <= room.ceiling else room.gapStart <= x <= room.ceiling
  }

  /** A finished room records exactly what was skipped and what lies beyond its
      cursor, or everything when it does not project; and it resolves the gap it
      had exactly when it records nothing. */
  lemma RecordsExactly(id: int, room: Room, projects: bool, hadGap: bool, x: int)
    requires room.catchUp && RoomInv(room)
    ensures var ops := Writes(id, room, FinalOf(room, projects, hadGap));
      && ((exists i :: 0 <= i < |ops| && Records(ops[i], id, x)) <==> Unresolved(room, projects, x))
      && (ops == [CP.ResolveGap(id, room.ceiling)] <==>
          hadGap && projects && room.skipFrom == 0 && room.cursor >= room.ceiling)
      && (forall i :: 0 <= i < |ops| && ops[i].ResolveGap? ==> |ops| == 1)
  {
    var final := FinalOf(room, projects, hadGap);
    var ops := Writes(id, room, final);
    if final.skip.Some? {
      assert Records(ops[0], id, x) <==> Skipped(room, x);
      assert final.rest.Some? ==> (Records(ops[1], id, x) <==> room.cursor < x <= room.ceiling);
    } else if final.rest.Some? {
      assert Records(ops[0], id, x) <==> Unresolved(room, projects, x);
    }
  }

  // ---- The commit queue ----

  /** A commit takes exactly the head off its chat's queue; an empty queue is not
      kept. */
  lemma HeadLeaves(queue: map<int, seq<int>>, chat: int, other: int)
    requires QueueOf(queue, chat) != []
    ensures var after := Dequeue(queue, chat);
      && QueueOf(after, other) == (if other == chat then QueueOf(queue, chat)[1..] else QueueOf(queue, other))
      && (chat in after <==> |QueueOf(queue, chat)| > 1)
  {
  }
}
