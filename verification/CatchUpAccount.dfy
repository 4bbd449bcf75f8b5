/** Whatever pages a server sends, the chain leaves no identity of a catch-up
    room unaccounted for below its cursor. */
module CatchUpAccount {
  import opened Basics
  import opened CatchUpRoom
  import opened CatchUpChain

  lemma {:induction false} NoRunAbove(logs: seq<Log>, chat: int, cursor: int)
    requires Ordered(logs) && (logs == [] || logs[0].chat > chat)
    ensures RunOf(logs, chat, cursor) == []
  {
    if logs != [] {
      NoRunAbove(logs[1..], chat, cursor);
    }
  }

  lemma {:induction false} RunAfter(prev: Log, logs: seq<Log>, chat: int, cursor: int)
    requires Ordered(logs) && (logs == [] || Before(prev, logs[0]))
    ensures var run := RunOf(logs, chat, cursor);
      run == [] || Within(if prev.chat == chat && prev.id > cursor then prev.id else cursor, run, run[|run| - 1].id)
    decreases logs
  {
    if logs != [] {
      RunAfter(logs[0], logs[1..], chat, cursor);
      var run, rest := RunOf(logs, chat, cursor), RunOf(logs[1..], chat, cursor);
      if logs[0].chat == chat && logs[0].id > cursor {
        assert run[1..] == rest;
      } else if logs[0].chat > chat {
        NoRunAbove(logs, chat, cursor);
      }
    }
  }

  /** A room's run on a parsed page is increasing and after its cursor. */
  lemma RunIsWithin(logs: seq<Log>, chat: int, cursor: int)
    requires Ordered(logs)
    ensures var run := RunOf(logs, chat, cursor); run == [] || Within(cursor, run, run[|run| - 1].id)
  {
    RunAfter(Log(0, cursor, None, false), logs, chat, cursor);
  }

  /** The request's parts of a room never change. */
  predicate SameRequest(a: Room, b: Room) {
    a.catchUp == b.catchUp && a.ceiling == b.ceiling && a.gapStart == b.gapStart
  }

  /** Every room of after is the room of before, further along and accounted
      for. */
  ghost predicate Continues(before: map<int, Room>, after: map<int, Room>) {
    && before.Keys == after.Keys
    && (forall id :: id in before ==> SameRequest(before[id], after[id]))
    && (forall id :: id in after ==> RoomInv(after[id]))
  }

  lemma PageContinues(env: Env, rooms: map<int, Room>, ids: seq<int>, page: nat, logs: seq<Log>)
    requires (forall id :: id in ids ==> id in rooms) && PageApplies(env, rooms, ids, page, logs)
    requires Ordered(logs) && Continues(rooms, rooms)
    ensures Continues(rooms, RoomsAfter(env, rooms, ids, page, logs))
  {
    var after := RoomsAfter(env, rooms, ids, page, logs);
    forall id | id in rooms
      ensures SameRequest(rooms[id], after[id]) && RoomInv(after[id])
    {
      if id in ids {
        assert RoomAfter(env, rooms[id], page, logs, id).Advanced?;
        RunIsWithin(logs, id, rooms[id].cursor);
        RunKeepsRoom(rooms[id], RunOf(logs, id, rooms[id].cursor), env.saves(page, id));
      }
    }
  }

  lemma TurnContinues(env: Env, s: State)
    requires s.Valid() && s.pending != [] && Continues(s.rooms, s.rooms)
    ensures var turn := TurnOf(env, s);
      && (turn.Again? ==> Continues(s.rooms, turn.next.rooms))
      && (turn.Leave? && turn.out.Finished? ==> Continues(s.rooms, turn.out.rooms))
  {
    if !(s.history && env.spent(s.pages)) && s.pages < MAX_PAGES {
      var ids := Batch(s.pending);
      var reply := env.serve(s.pages, RequestFor(s.rooms, ids));
      if reply.Page? && Ordered(reply.logs) && Requested(s.rooms, ids, reply.logs) &&
        PageApplies(env, s.rooms, ids, s.pages, reply.logs) {
        PageContinues(env, s.rooms, ids, s.pages, reply.logs);
      }
    }
  }

  /** For every sequence of server pages: a chain that is not aborted ends with
      every room accounted for through its cursor. */
  lemma {:induction false} ChainAccounts(env: Env, s: State)
    requires s.Valid() && Continues(s.rooms, s.rooms)
    ensures Chain(env, s).Finished? ==> Continues(s.rooms, Chain(env, s).rooms)
    decreases MAX_PAGES - s.pages, s.history
  {
    if s.pending != [] {
      TurnContinues(env, s);
      var turn := TurnOf(env, s);
      if turn.Again? {
        ChainAccounts(env, turn.next);
      }
    }
  }
}
