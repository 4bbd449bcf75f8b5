/** The connect's one MCHATLOGS chain over every room that needs it
    (internal/client/bulk_catchup.go, the CatchUpAll loop and bulkRuns). */
module CatchUpChain {
  import opened Basics
  import opened CatchUpRoom

  const MAX_PAGES := 100
  const MAX_CHATS := 100

  /** The positional chatIds/sinces pair: the rooms in order and each one's since. */
  datatype Request = Request(ids: seq<int>, since: map<int, int>)
  datatype Reply = Failed | Page(logs: seq<Log>, eof: bool)

  /** Everything outside the loop: the server's reply to each page's request,
      whether each acquired-store write of a page succeeds, and whether the
      acquisition budget is spent when checked before a page. */
  datatype Env = Env(
    serve: (nat, Request) -> Reply,
    saves: (nat, int) -> bool,
    journals: nat -> bool,
    spent: nat -> bool)

  /** The order ParseResponse checks: rooms are ascending contiguous runs of
      increasing log IDs. */
  predicate Ordered(logs: seq<Log>) {
    logs == [] ||
    (logs[0].chat > 0 && logs[0].id > 0 && (|logs| > 1 ==> Before(logs[0], logs[1])) && Ordered(logs[1..]))
  }

  predicate Before(a: Log, b: Log) {
    a.chat < b.chat || (a.chat == b.chat && a.id < b.id)
  }

  /** A room's run on a page: its logs after the cursor. */
  function RunOf(logs: seq<Log>, chat: int, cursor: int): seq<Log> {
    if logs == [] then []
    else if logs[0].chat == chat && logs[0].id > cursor then [logs[0]] + RunOf(logs[1..], chat, cursor)
    else RunOf(logs[1..], chat, cursor)
  }

  /** Every log belongs to a requested room and lies at or after its since. */
  predicate Requested(rooms: map<int, Room>, ids: seq<int>, logs: seq<Log>)
    requires forall id :: id in ids ==> id in rooms
  {
    forall i :: 0 <= i < |logs| ==> logs[i].chat in ids && rooms[logs[i].chat].cursor <= logs[i].id
  }

  function Get(runs: map<int, seq<Log>>, id: int): seq<Log> {
    if id in runs then runs[id] else []
  }

  ghost predicate Grouped(runs: map<int, seq<Log>>, rooms: map<int, Room>, ids: seq<int>, logs: seq<Log>)
    requires forall id :: id in ids ==> id in rooms
  {
    forall id :: id in ids ==> Get(runs, id) == RunOf(logs, id, rooms[id].cursor)
  }

  method BulkRuns(rooms: map<int, Room>, ids: seq<int>, logs: seq<Log>) returns (runs: Option<map<int, seq<Log>>>)
    requires forall id :: id in ids ==> id in rooms
    ensures runs.Some? <==> Requested(rooms, ids, logs)
    ensures runs.Some? ==> Grouped(runs.value, rooms, ids, logs)
  {
    var grouped: map<int, seq<Log>> := map[];
    for i := 0 to |logs|
      invariant Requested(rooms, ids, logs[..i])
      invariant Grouped(grouped, rooms, ids, logs[..i])
    {
      var log := logs[i];
      if log.chat !in ids || log.id < rooms[log.chat].cursor {
        return None;
      }
      assert logs[..i + 1] == logs[..i] + [log];
      GroupStep(grouped, rooms, ids, logs[..i], log);
      if log.id > rooms[log.chat].cursor {
        grouped := grouped[log.chat := Get(grouped, log.chat) + [log]];
      }
    }
    assert logs[..|logs|] == logs;
    runs := Some(grouped);
  }

  lemma GroupStep(runs: map<int, seq<Log>>, rooms: map<int, Room>, ids: seq<int>, logs: seq<Log>, log: Log)
    requires forall id :: id in ids ==> id in rooms
    requires Grouped(runs, rooms, ids, logs) && log.chat in ids
    ensures var next := if log.id > rooms[log.chat].cursor then runs[log.chat := Get(runs, log.chat) + [log]] else runs;
      Grouped(next, rooms, ids, logs + [log])
  {
    forall id | id in ids
      ensures RunOf(logs + [log], id, rooms[id].cursor) ==
              RunOf(logs, id, rooms[id].cursor) + (if log.chat == id && log.id > rooms[id].cursor then [log] else [])
    {
      RunOfAppend(logs, [log], id, rooms[id].cursor);
    }
  }

  lemma {:induction false} RunOfAppend(a: seq<Log>, b: seq<Log>, chat: int, cursor: int)
    ensures RunOf(a + b, chat, cursor) == RunOf(a, chat, cursor) + RunOf(b, chat, cursor)
  {
    if a == [] {
      assert a + b == b;
    } else {
      RunOfAppend(a[1..], b, chat, cursor);
      ConcatTail(a, b);
      Associates([a[0]], RunOf(a[1..], chat, cursor), RunOf(b, chat, cursor));
    }
  }

  // ---- One page ----

  function RoomAfter(env: Env, room: Room, page: nat, logs: seq<Log>, id: int): Applied {
    ApplyRun(room, RunOf(logs, id, room.cursor), env.saves(page, id))
  }

  ghost predicate PageApplies(env: Env, rooms: map<int, Room>, ids: seq<int>, page: nat, logs: seq<Log>)
    requires forall id :: id in ids ==> id in rooms
  {
    forall id :: id in ids ==> RoomAfter(env, rooms[id], page, logs, id).Advanced?
  }

  ghost function RoomsAfter(env: Env, rooms: map<int, Room>, ids: seq<int>, page: nat, logs: seq<Log>): map<int, Room>
    requires forall id :: id in ids ==> id in rooms
    requires PageApplies(env, rooms, ids, page, logs)
  {
    map id | id in rooms :: if id in ids then RoomAfter(env, rooms[id], page, logs, id).room else rooms[id]
  }

  /** The room advanced or ended on this page. */
  predicate Moves(env: Env, room: Room, page: nat, logs: seq<Log>, id: int) {
    var after := RoomAfter(env, room, page, logs, id);
    after.Advanced? && (after.room.cursor > room.cursor || after.room.done != room.done)
  }

  predicate Acquires(env: Env, room: Room, page: nat, logs: seq<Log>, id: int) {
    var after := RoomAfter(env, room, page, logs, id);
    after.Advanced? && after.room.cursor > room.cursor && !room.catchUp
  }

  ghost predicate Progressed(env: Env, rooms: map<int, Room>, ids: seq<int>, page: nat, logs: seq<Log>)
    requires forall id :: id in ids ==> id in rooms
  {
    exists id :: id in ids && Moves(env, rooms[id], page, logs, id)
  }

  ghost predicate Acquired(env: Env, rooms: map<int, Room>, ids: seq<int>, page: nat, logs: seq<Log>)
    requires forall id :: id in ids ==> id in rooms
  {
    exists id :: id in ids && Acquires(env, rooms[id], page, logs, id)
  }

  function Retired(ids: seq<int>, logs: seq<Log>, eof: bool): set<int> {
    set id | id in ids && (eof || (logs != [] && id < logs[|logs| - 1].chat))
  }

  function DoneRooms(rooms: map<int, Room>): set<int> {
    set id | id in rooms && rooms[id].done
  }

  function HistoryRooms(rooms: map<int, Room>): set<int> {
    set id | id in rooms && !rooms[id].catchUp
  }

  function Drop(pending: seq<int>, gone: set<int>): (left: seq<int>)
    ensures forall id :: id in left <==> id in pending && id !in gone
    ensures |left| <= |pending|
  {
    if pending == [] then []
    else if pending[0] in gone then Drop(pending[1..], gone)
    else [pending[0]] + Drop(pending[1..], gone)
  }

  function Batch(pending: seq<int>): seq<int> {
    pending[..if |pending| < MAX_CHATS then |pending| else MAX_CHATS]
  }

  function RequestFor(rooms: map<int, Room>, ids: seq<int>): Request
    requires forall id :: id in ids ==> id in rooms
  {
    Request(ids, map id | id in ids :: rooms[id].cursor)
  }

  // ---- The chain ----

  datatype Outcome = Aborted | Finished(rooms: map<int, Room>, pages: nat, left: seq<int>)

  datatype Step = Stop(out: Outcome) | Continue(rooms: map<int, Room>, pending: seq<int>)

  /** One request, its reply, the runs applied, and the rooms retired: the whole
      batch on eof and, on a capped page, the rooms below the last log's room. */
  ghost function PageStep(env: Env, rooms: map<int, Room>, pending: seq<int>, pages: nat): (step: Step)
    requires pending != [] && forall id :: id in pending ==> id in rooms
    ensures step.Continue? ==> step.rooms.Keys == rooms.Keys && forall id :: id in step.pending ==> id in pending
  {
    var ids := Batch(pending);
    match env.serve(pages, RequestFor(rooms, ids))
    case Failed => Stop(Outcome.Aborted)
    case Page(logs, eof) =>
      if !Ordered(logs) || !Requested(rooms, ids, logs) || !PageApplies(env, rooms, ids, pages, logs) then
        Stop(Outcome.Aborted)
      else
        var after := RoomsAfter(env, rooms, ids, pages, logs);
        if Acquired(env, rooms, ids, pages, logs) && !env.journals(pages) then Stop(Outcome.Aborted)
        else if Retired(ids, logs, eof) == {} && !Progressed(env, rooms, ids, pages, logs) then
          Stop(Finished(after, pages + 1, pending))
        else Continue(after, Drop(pending, DoneRooms(after) + Retired(ids, logs, eof)))
  }

  datatype State = State(rooms: map<int, Room>, pending: seq<int>, pages: nat, history: bool) {
    ghost predicate Valid() {
      pages <= MAX_PAGES && forall id :: id in pending ==> id in rooms
    }
  }

  datatype Turn = Leave(out: Outcome) | Again(next: State)

  /** One turn of the loop: give up acquisition once its budget is spent, stop
      at the page cap, or take one page. */
  ghost function TurnOf(env: Env, s: State): (turn: Turn)
    requires s.Valid() && s.pending != []
    ensures turn.Again? ==> turn.next.Valid() && turn.next.rooms.Keys == s.rooms.Keys
    ensures turn.Again? ==>
      (turn.next.pages == s.pages && s.history && !turn.next.history) || turn.next.pages == s.pages + 1
  {
    if s.history && env.spent(s.pages) then
      Again(s.(pending := Drop(s.pending, HistoryRooms(s.rooms)), history := false))
    else if s.pages >= MAX_PAGES then Leave(Finished(s.rooms, s.pages, s.pending))
    else match PageStep(env, s.rooms, s.pending, s.pages)
         case Stop(out) => Leave(out)
         case Continue(rooms, pending) => Again(State(rooms, pending, s.pages + 1, s.history))
  }

  ghost function Chain(env: Env, s: State): Outcome
    requires s.Valid()
    decreases MAX_PAGES - s.pages, s.history
  {
    if s.pending == [] then Finished(s.rooms, s.pages, [])
    else match TurnOf(env, s)
         case Leave(out) => out
         case Again(next) => Chain(env, next)
  }

  method TakePage(env: Env, rooms: map<int, Room>, pending: seq<int>, pages: nat) returns (step: Step)
    requires pending != [] && (forall id :: id in pending ==> id in rooms) && Distinct(pending)
    ensures step == PageStep(env, rooms, pending, pages)
    ensures step.Continue? ==> Distinct(step.pending)
  {
    var ids := Batch(pending);
    var reply := env.serve(pages, RequestFor(rooms, ids));
    if reply.Failed? || !Ordered(reply.logs) {
      return Stop(Outcome.Aborted);
    }
    var runs := BulkRuns(rooms, ids, reply.logs);
    if runs.None? {
      return Stop(Outcome.Aborted);
    }
    var ok, after, progressed, acquired := ApplyPage(env, rooms, ids, pages, runs.value, reply.logs);
    if !ok || (acquired && !env.journals(pages)) {
      return Stop(Outcome.Aborted);
    }
    var retired := Retired(ids, reply.logs, reply.eof);
    if retired == {} && !progressed {
      return Stop(Finished(after, pages + 1, pending));
    }
    DropDistinct(pending, DoneRooms(after) + retired);
    return Continue(after, Drop(pending, DoneRooms(after) + retired));
  }

  method ApplyPage(env: Env, rooms: map<int, Room>, ids: seq<int>, page: nat, runs: map<int, seq<Log>>,
                   ghost logs: seq<Log>)
    returns (ok: bool, after: map<int, Room>, progressed: bool, acquired: bool)
    requires forall id :: id in ids ==> id in rooms
    requires Distinct(ids) && Grouped(runs, rooms, ids, logs)
    ensures ok <==> PageApplies(env, rooms, ids, page, logs)
    ensures ok ==> after == RoomsAfter(env, rooms, ids, page, logs)
    ensures ok ==>
      (progressed <==> Progressed(env, rooms, ids, page, logs)) && (acquired <==> Acquired(env, rooms, ids, page, logs))
  {
    after, progressed, acquired := rooms, false, false;
    for i := 0 to |ids|
      invariant PageApplies(env, rooms, ids[..i], page, logs) && after == RoomsAfter(env, rooms, ids[..i], page, logs)
      invariant progressed <==> Progressed(env, rooms, ids[..i], page, logs)
      invariant acquired <==> Acquired(env, rooms, ids[..i], page, logs)
    {
      var id := ids[i];
      assert id !in ids[..i] && after[id] == rooms[id];
      var room := after[id];
      var applied := ApplyBulkRun(room, Get(runs, id), env.saves(page, id));
      assert applied == RoomAfter(env, room, page, logs, id);
      if applied.Aborted? {
        return false, after, progressed, acquired;
      }
      after := after[id := applied.room];
      assert ids[..i + 1] == ids[..i] + [id];
      progressed := progressed || applied.room.cursor > room.cursor || applied.room.done != room.done;
      acquired := acquired || (applied.room.cursor > room.cursor && !room.catchUp);
    }
    assert ids[..|ids|] == ids;
    ok := true;
  }

  predicate Distinct(ids: seq<int>) {
    forall i, j :: 0 <= i < j < |ids| ==> ids[i] != ids[j]
  }

  lemma {:induction false} DropDistinct(pending: seq<int>, gone: set<int>)
    requires Distinct(pending)
    ensures Distinct(Drop(pending, gone))
  {
    if pending != [] {
      DropDistinct(pending[1..], gone);
      assert pending[0] !in pending[1..];
    }
  }

  method TakeTurn(env: Env, s: State) returns (turn: Turn)
    requires s.Valid() && s.pending != [] && Distinct(s.pending)
    ensures turn == TurnOf(env, s)
    ensures turn.Again? ==> Distinct(turn.next.pending)
  {
    if s.history && env.spent(s.pages) {
      DropDistinct(s.pending, HistoryRooms(s.rooms));
      return Again(s.(pending := Drop(s.pending, HistoryRooms(s.rooms)), history := false));
    }
    if s.pages >= MAX_PAGES {
      return Leave(Finished(s.rooms, s.pages, s.pending));
    }
    var step := TakePage(env, s.rooms, s.pending, s.pages);
    if step.Stop? {
      return Leave(step.out);
    }
    return Again(State(step.rooms, step.pending, s.pages + 1, s.history));
  }

  /** The loop that shrinks pending page by page. */
  method RunChain(env: Env, start: State) returns (out: Outcome)
    requires start.Valid() && Distinct(start.pending)
    ensures out == Chain(env, start)
  {
    var s := start;
    while s.pending != []
      invariant s.Valid() && Distinct(s.pending)
      invariant Chain(env, start) == Chain(env, s)
      decreases MAX_PAGES - s.pages, s.history
    {
      var turn := TakeTurn(env, s);
      if turn.Leave? {
        return turn.out;
      }
      s := turn.next;
    }
    return Finished(s.rooms, s.pages, []);
  }
}
