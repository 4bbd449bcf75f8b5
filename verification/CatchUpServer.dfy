/** Multi-room paging refines the simple per-room read: against a server that
    pages its logs in (room, log) order, every room committed to a position the
    server still chains from is recovered completely. */
module CatchUpServer {
  import opened Basics
  import opened CatchUpRoom
  import opened CatchUpChain
  import opened CatchUpAccount

  /** The server's logs after the request's positions, in (room, log) order. */
  function Remaining(db: seq<Log>, since: map<int, int>): seq<Log> {
    if db == [] then []
    else if db[0].chat in since && db[0].id > since[db[0].chat] then [db[0]] + Remaining(db[1..], since)
    else Remaining(db[1..], since)
  }

  /** The first size remaining logs; eof exactly when nothing was cut. */
  function Answer(db: seq<Log>, request: Request, size: nat): Reply {
    var rest := Remaining(db, request.since);
    if size < |rest| then Page(rest[..size], false) else Page(rest, true)
  }

  /** A server holding db, with any page size of at least one on each page, and
      local writes and decoding that succeed. */
  ghost predicate Serves(env: Env, db: seq<Log>, size: nat -> nat) {
    && Ordered(db)
    && (forall l :: l in db ==> l.decodes)
    && (forall page: nat, request: Request :: env.serve(page, request) == Answer(db, request, size(page)))
    && (forall page: nat :: size(page) >= 1 && env.journals(page))
    && (forall page: nat, id: int :: env.saves(page, id))
  }

  // ---- A page and one room's share of it ----

  lemma {:induction false} RemainingRun(db: seq<Log>, since: map<int, int>, id: int)
    requires id in since
    ensures RunOf(Remaining(db, since), id, since[id]) == RunOf(db, id, since[id])
  {
    if db != [] {
      RemainingRun(db[1..], since, id);
      var rest := Remaining(db, since);
      if db[0].chat in since && db[0].id > since[db[0].chat] {
        assert rest[1..] == Remaining(db[1..], since);
      }
    }
  }

  lemma {:induction false} RemainingOrdered(prev: Log, db: seq<Log>, since: map<int, int>)
    requires Ordered(db) && (db == [] || Before(prev, db[0]))
    ensures Ordered(Remaining(db, since))
    ensures Remaining(db, since) == [] || Before(prev, Remaining(db, since)[0])
    decreases db
  {
    if db != [] {
      RemainingOrdered(db[0], db[1..], since);
      var rest := Remaining(db, since);
      if db[0].chat in since && db[0].id > since[db[0].chat] {
        assert rest[1..] == Remaining(db[1..], since);
      }
    }
  }

  lemma {:induction false} RemainingFrom(db: seq<Log>, since: map<int, int>)
    ensures forall l :: l in Remaining(db, since) ==> l in db && l.chat in since && l.id > since[l.chat]
  {
    if db != [] {
      RemainingFrom(db[1..], since);
    }
  }

  lemma {:induction false} OrderedSplit(a: seq<Log>, b: seq<Log>)
    requires Ordered(a + b)
    ensures Ordered(a) && Ordered(b)
    ensures a != [] && b != [] ==> Before(a[|a| - 1], b[0])
  {
    if a == [] {
      assert a + b == b;
    } else {
      assert (a + b)[1..] == a[1..] + b;
      OrderedSplit(a[1..], b);
    }
  }

  /** A page holds a prefix of what is left of a room, and all of it when the
      page is the last or the room lies below the page's last log. */
  lemma PageShare(db: seq<Log>, request: Request, size: nat, id: int) returns (rest: seq<Log>)
    requires Ordered(db) && id in request.since && size >= 1
    ensures var page := Answer(db, request, size);
      && RunOf(db, id, request.since[id]) == RunOf(page.logs, id, request.since[id]) + rest
      && (id in Retired([id], page.logs, page.eof) ==> rest == [])
  {
    var all := Remaining(db, request.since);
    RemainingRun(db, request.since, id);
    RemainingOrdered(Log(0, 0, None, false), db, request.since);
    if size < |all| {
      assert all == all[..size] + all[size..];
      RunOfAppend(all[..size], all[size..], id, request.since[id]);
      OrderedSplit(all[..size], all[size..]);
      rest := RunOf(all[size..], id, request.since[id]);
      if id < all[size - 1].chat {
        NoRunAbove(all[size..], id, request.since[id]);
      }
    } else {
      rest := [];
    }
  }

  // ---- A room the server still chains from ----

  /** What is left of the room is chained from its cursor and reaches its
      ceiling; what it delivered plus what is left is the whole interval. */
  ghost predicate OnCourse(db: seq<Log>, id: int, room: Room) {
    var left := RunOf(db, id, room.cursor);
    && room.catchUp && !room.done && room.skipFrom == 0
    && Linked(room.cursor, left)
    && (room.cursor >= room.ceiling || (left != [] && left[|left| - 1].id >= room.ceiling))
    && AtMost(RunOf(db, id, room.gapStart - 1), room.ceiling) == room.events + AtMost(left, room.ceiling)
  }

  /** Exactly the server's logs in (committed, ceiling], and no gap. */
  ghost predicate Recovered(db: seq<Log>, id: int, room: Room) {
    && room.events == AtMost(RunOf(db, id, room.gapStart - 1), room.ceiling)
    && room.skipFrom == 0 && !room.done && room.cursor >= room.ceiling
  }

  lemma {:induction false} LinkedSplit(previous: int, p: seq<Log>, q: seq<Log>)
    requires Linked(previous, p + q)
    ensures Linked(previous, p) && Linked(if p == [] then previous else p[|p| - 1].id, q)
    decreases p
  {
    if p == [] {
      assert p + q == q;
    } else {
      ConcatTail(p, q);
      LinkedSplit(p[0].id, p[1..], q);
    }
  }

  lemma {:induction false} LinkedWalks(previous: int, run: seq<Log>, ceiling: int)
    requires Linked(previous, run) && forall l :: l in run ==> l.decodes
    ensures Walk(run, previous, ceiling) == Clean(AtMost(run, ceiling))
    decreases run
  {
    if run != [] {
      LinkedWalks(run[0].id, run[1..], ceiling);
    }
  }

  lemma {:induction false} AtMostAppend(p: seq<Log>, q: seq<Log>, ceiling: int)
    ensures AtMost(p + q, ceiling) == AtMost(p, ceiling) + AtMost(q, ceiling)
  {
    if p == [] {
      assert p + q == q;
    } else {
      ConcatTail(p, q);
      AtMostAppend(p[1..], q, ceiling);
      Associates(if p[0].id <= ceiling then [p[0]] else [], AtMost(p[1..], ceiling), AtMost(q, ceiling));
    }
  }

  /** Moving the cursor forward keeps the logs above it. */
  lemma {:induction false} RunBeyond(db: seq<Log>, id: int, cursor: int, later: int)
    requires cursor <= later
    ensures RunOf(db, id, later) == RunOf(RunOf(db, id, cursor), id, later)
  {
    if db != [] {
      RunBeyond(db[1..], id, cursor, later);
      if db[0].chat == id && db[0].id > cursor {
        assert RunOf(db, id, cursor)[1..] == RunOf(db[1..], id, cursor);
      }
    }
  }

  lemma {:induction false} RunOfChat(db: seq<Log>, id: int, cursor: int)
    ensures forall l :: l in RunOf(db, id, cursor) ==> l in db && l.chat == id
  {
    if db != [] {
      RunOfChat(db[1..], id, cursor);
    }
  }

  lemma {:induction false} AllAbove(q: seq<Log>, id: int, lo: int)
    requires forall l :: l in q ==> l.chat == id && l.id > lo
    ensures RunOf(q, id, lo) == q
  {
    if q != [] {
      AllAbove(q[1..], id, lo);
    }
  }

  lemma {:induction false} NoneAbove(p: seq<Log>, id: int, hi: int)
    requires forall l :: l in p ==> l.id <= hi
    ensures RunOf(p, id, hi) == []
  {
    if p != [] {
      NoneAbove(p[1..], id, hi);
    }
  }

  lemma {:induction false} WithinSplit(lo: int, p: seq<Log>, q: seq<Log>, hi: int)
    requires p != [] && Within(lo, p + q, hi)
    ensures Within(lo, p, p[|p| - 1].id) && Within(p[|p| - 1].id, q, hi)
    decreases p
  {
    ConcatTail(p, q);
    if |p| > 1 {
      WithinSplit(p[0].id, p[1..], q, hi);
    } else {
      assert p[1..] + q == q;
    }
  }

  /** Having taken the first part of what was left, the second part is left. */
  lemma TakePrefix(db: seq<Log>, id: int, cursor: int, p: seq<Log>, q: seq<Log>)
    requires Ordered(db) && p != [] && RunOf(db, id, cursor) == p + q
    ensures RunOf(db, id, p[|p| - 1].id) == q && p[|p| - 1].id > cursor
  {
    var later := p[|p| - 1].id;
    RunIsWithin(db, id, cursor);
    var hi := (p + q)[|p + q| - 1].id;
    WithinSplit(cursor, p, q, hi);
    WithinMeans(cursor, p, later);
    RunBeyond(db, id, cursor, later);
    RunOfAppend(p, q, id, later);
    NoneAbove(p, id, later);
    assert RunOf(q, id, later) == q by {
      RunOfChat(db, id, cursor);
      WithinMeans(later, q, hi);
      assert forall l :: l in q ==> l in p + q;
      AllAbove(q, id, later);
    }
  }

  lemma LinkedApplies(db: seq<Log>, id: int, room: Room, p: seq<Log>, q: seq<Log>)
    requires forall l :: l in db ==> l.decodes
    requires room.catchUp && p != [] && RunOf(db, id, room.cursor) == p + q && Linked(room.cursor, p)
    ensures ApplyRun(room, p, true) == Advanced(room.(
      events := room.events + AtMost(p, room.ceiling), cursor := p[|p| - 1].id, accepted := room.accepted + p))
  {
    RunOfChat(db, id, room.cursor);
    assert forall l :: l in p ==> l in p + q;
    LinkedWalks(room.cursor, p, room.ceiling);
  }

  /** A room on course takes its share of a page without a gap, and is recovered
      once nothing is left. */
  lemma ShareKeepsCourse(db: seq<Log>, id: int, room: Room, p: seq<Log>, q: seq<Log>)
    requires Ordered(db) && (forall l :: l in db ==> l.decodes)
    requires OnCourse(db, id, room) && RunOf(db, id, room.cursor) == p + q
    ensures var after := ApplyRun(room, p, true);
      && after.Advanced? && SameRequest(room, after.room)
      && OnCourse(db, id, after.room) && RunOf(db, id, after.room.cursor) == q
      && (q == [] ==> Recovered(db, id, after.room))
  {
    if p != [] {
      LinkedSplit(room.cursor, p, q);
      LinkedApplies(db, id, room, p, q);
      TakePrefix(db, id, room.cursor, p, q);
      TakenKeepsCourse(db, id, room, p, q);
    } else {
      assert p + q == q;
    }
  }

  lemma TakenKeepsCourse(db: seq<Log>, id: int, room: Room, p: seq<Log>, q: seq<Log>)
    requires OnCourse(db, id, room) && p != [] && RunOf(db, id, room.cursor) == p + q
    requires RunOf(db, id, p[|p| - 1].id) == q && Linked(p[|p| - 1].id, q) && p[|p| - 1].id > room.cursor
    ensures var after :=
      room.(events := room.events + AtMost(p, room.ceiling), cursor := p[|p| - 1].id, accepted := room.accepted + p);
            OnCourse(db, id, after) && (q == [] ==> Recovered(db, id, after))
  {
    AtMostAppend(p, q, room.ceiling);
    Associates(room.events, AtMost(p, room.ceiling), AtMost(q, room.ceiling));
    assert q == [] ==> room.events + AtMost(p, room.ceiling) + [] == room.events + AtMost(p, room.ceiling);
    if q != [] {
      assert (p + q)[|p + q| - 1] == q[|q| - 1];
    } else {
      assert p + q == p;
    }
  }

  lemma {:induction false} NeverUndecodable(run: seq<Log>, previous: int, ceiling: int)
    requires forall l :: l in run ==> l.decodes
    ensures !Walk(run, previous, ceiling).Undecodable?
    decreases run
  {
    if run != [] {
      NeverUndecodable(run[1..], run[0].id, ceiling);
    }
  }

  lemma NeverAborts(room: Room, run: seq<Log>)
    requires forall l :: l in run ==> l.decodes
    ensures ApplyRun(room, run, true).Advanced?
    ensures run != [] && !room.done ==>
      var after := ApplyRun(room, run, true).room; after.done || after.cursor == run[|run| - 1].id
  {
    if run != [] && run[0].prev.Some? {
      NeverUndecodable(run, run[0].prev.value, room.ceiling);
    }
  }

  // ---- One page of every room ----

  ghost predicate Live(s: State) {
    s.Valid() && forall id :: id in s.pending ==> !s.rooms[id].done
  }

  /** The rooms in good are on course, and recovered once retired. */
  ghost predicate Tracks(db: seq<Log>, s: State, good: set<int>) {
    forall id :: id in good ==>
      id in s.rooms && OnCourse(db, id, s.rooms[id]) && (id in s.pending || Recovered(db, id, s.rooms[id]))
  }

  lemma PageIsSound(db: seq<Log>, rooms: map<int, Room>, ids: seq<int>, size: nat)
    requires Ordered(db) && (forall id :: id in ids ==> id in rooms)
    ensures var page := Answer(db, RequestFor(rooms, ids), size);
      && Ordered(page.logs) && Requested(rooms, ids, page.logs)
      && (forall l :: l in page.logs ==> l in db && l.chat in ids && l.id > rooms[l.chat].cursor)
  {
    var request := RequestFor(rooms, ids);
    var all := Remaining(db, request.since);
    RemainingOrdered(Log(0, 0, None, false), db, request.since);
    RemainingFrom(db, request.since);
    PagePart(all, size);
  }

  /** The first logs of an ordered sequence. */
  lemma PagePart(all: seq<Log>, size: nat)
    requires Ordered(all)
    ensures size < |all| ==> Ordered(all[..size]) && forall l :: l in all[..size] ==> l in all
  {
    if size < |all| {
      assert all == all[..size] + all[size..];
      OrderedSplit(all[..size], all[size..]);
    }
  }

  lemma PageAlwaysApplies(env: Env, rooms: map<int, Room>, ids: seq<int>, page: nat, logs: seq<Log>)
    requires forall id :: id in ids ==> id in rooms
    requires (forall l :: l in logs ==> l.decodes) && (forall id: int :: env.saves(page, id))
    ensures PageApplies(env, rooms, ids, page, logs)
  {
    forall id | id in ids
      ensures RoomAfter(env, rooms[id], page, logs, id).Advanced?
    {
      RunOfChat(logs, id, rooms[id].cursor);
      NeverAborts(rooms[id], RunOf(logs, id, rooms[id].cursor));
    }
  }

  lemma {:induction false} RunHas(logs: seq<Log>, id: int, cursor: int, i: nat)
    requires i < |logs| && logs[i].chat == id && logs[i].id > cursor
    ensures logs[i] in RunOf(logs, id, cursor)
  {
    if i > 0 {
      RunHas(logs[1..], id, cursor, i - 1);
    }
  }

  /** The room of a page's last log takes that log or ends there. */
  lemma LastLogMoves(env: Env, rooms: map<int, Room>, page: nat, logs: seq<Log>)
    requires Ordered(logs) && logs != [] && env.saves(page, logs[|logs| - 1].chat)
    requires forall l :: l in logs ==> l.decodes
    requires var last := logs[|logs| - 1];
             last.chat in rooms && last.id > rooms[last.chat].cursor && !rooms[last.chat].done
    ensures var last := logs[|logs| - 1];
      var after := RoomAfter(env, rooms[last.chat], page, logs, last.chat);
      after.Advanced? && (after.room.done || after.room.cursor >= last.id)
  {
    var last := logs[|logs| - 1];
    var room := rooms[last.chat];
    RunReaches(logs, room.cursor);
    RunOfChat(logs, last.chat, room.cursor);
    NeverAborts(room, RunOf(logs, last.chat, room.cursor));
  }

  lemma RunReaches(logs: seq<Log>, cursor: int)
    requires Ordered(logs) && logs != [] && logs[|logs| - 1].id > cursor
    ensures var last := logs[|logs| - 1];
      var run := RunOf(logs, last.chat, cursor);
      run != [] && run[|run| - 1].id >= last.id
  {
    var last := logs[|logs| - 1];
    var run := RunOf(logs, last.chat, cursor);
    RunHas(logs, last.chat, cursor, |logs| - 1);
    RunIsWithin(logs, last.chat, cursor);
    WithinMeans(cursor, run, run[|run| - 1].id);
  }

  // ---- The chain against the server ----

  /** Against such a server a turn never aborts or stalls. */
  lemma PageGoesOn(env: Env, db: seq<Log>, size: nat -> nat, s: State)
    requires Serves(env, db, size) && Live(s) && s.pending != []
    ensures var ids := Batch(s.pending);
      var page := Answer(db, RequestFor(s.rooms, ids), size(s.pages));
      && PageApplies(env, s.rooms, ids, s.pages, page.logs)
      && PageStep(env, s.rooms, s.pending, s.pages) ==
         Continue(RoomsAfter(env, s.rooms, ids, s.pages, page.logs),
                  Drop(s.pending,
                       DoneRooms(RoomsAfter(env, s.rooms, ids, s.pages, page.logs)) +
                         Retired(ids, page.logs, page.eof)))
  {
    var ids := Batch(s.pending);
    var request := RequestFor(s.rooms, ids);
    var page := Answer(db, request, size(s.pages));
    assert env.serve(s.pages, request) == page;
    PageIsSound(db, s.rooms, ids, size(s.pages));
    PageAlwaysApplies(env, s.rooms, ids, s.pages, page.logs);
    if page.eof {
      assert ids[0] in Retired(ids, page.logs, page.eof);
    } else {
      var last := page.logs[|page.logs| - 1];
      assert last in page.logs && last.chat in s.pending;
      LastLogMoves(env, s.rooms, s.pages, page.logs);
      assert Moves(env, s.rooms[last.chat], s.pages, page.logs, last.chat);
    }
  }

  lemma RoomStaysTracked(env: Env, db: seq<Log>, size: nat -> nat, s: State, id: int)
    requires Serves(env, db, size) && Live(s) && s.pending != []
    requires id in s.rooms && OnCourse(db, id, s.rooms[id]) && id in Batch(s.pending)
    ensures var ids := Batch(s.pending);
      var page := Answer(db, RequestFor(s.rooms, ids), size(s.pages));
      var after := RoomAfter(env, s.rooms[id], s.pages, page.logs, id);
      && after.Advanced? && SameRequest(s.rooms[id], after.room) && OnCourse(db, id, after.room)
      && (id in Retired(ids, page.logs, page.eof) ==> Recovered(db, id, after.room))
  {
    var request := RequestFor(s.rooms, Batch(s.pending));
    var page := Answer(db, request, size(s.pages));
    var rest := PageShare(db, request, size(s.pages), id);
    assert request.since[id] == s.rooms[id].cursor;
    ShareKeepsCourse(db, id, s.rooms[id], RunOf(page.logs, id, s.rooms[id].cursor), rest);
  }

  lemma TurnTracks(env: Env, db: seq<Log>, size: nat -> nat, s: State, good: set<int>)
    requires Serves(env, db, size) && Live(s) && s.pending != [] && Tracks(db, s, good)
    ensures var turn := TurnOf(env, s);
      && (turn.Leave? ==> s.pages >= MAX_PAGES && turn.out == Finished(s.rooms, s.pages, s.pending))
      && (turn.Again? ==> Live(turn.next) && Tracks(db, turn.next, good))
      && (turn.Again? ==> forall id :: id in s.rooms && id in good ==> SameRequest(s.rooms[id], turn.next.rooms[id]))
  {
    if !(s.history && env.spent(s.pages)) && s.pages < MAX_PAGES {
      PageGoesOn(env, db, size, s);
      var next := TurnOf(env, s).next;
      forall id | id in good
        ensures OnCourse(db, id, next.rooms[id]) && SameRequest(s.rooms[id], next.rooms[id])
        ensures id in next.pending || Recovered(db, id, next.rooms[id])
      {
        if id in Batch(s.pending) {
          RoomStaysTracked(env, db, size, s, id);
        }
      }
    }
  }

  /** Every room on course that the chain has retired holds exactly the server's
      logs of its interval and no gap; only the page cap leaves rooms behind. */
  lemma {:induction false} ChainRecovers(env: Env, db: seq<Log>, size: nat -> nat, s: State, good: set<int>)
    requires Serves(env, db, size) && Live(s) && Tracks(db, s, good)
    ensures var out := Chain(env, s);
      && out.Finished? && out.rooms.Keys == s.rooms.Keys
      && (out.left != [] ==> out.pages >= MAX_PAGES)
      && (forall id :: id in good ==> SameRequest(s.rooms[id], out.rooms[id]))
      && (forall id :: id in good && id !in out.left ==> Recovered(db, id, out.rooms[id]))
    decreases MAX_PAGES - s.pages, s.history
  {
    if s.pending != [] {
      TurnTracks(env, db, size, s, good);
      var turn := TurnOf(env, s);
      if turn.Again? {
        ChainRecovers(env, db, size, turn.next, good);
      }
    }
  }

  /** The chain's start for a room committed to a position from which the server
      still chains to its ceiling. */
  lemma CommittedOnCourse(db: seq<Log>, id: int, room: Room)
    requires room.catchUp && !room.done && room.skipFrom == 0 && room.events == [] && room.gapStart == room.cursor + 1
    requires Linked(room.cursor, RunOf(db, id, room.cursor))
    requires exists l :: l in RunOf(db, id, room.cursor) && l.id >= room.ceiling
    requires Ordered(db)
    ensures OnCourse(db, id, room)
  {
    var left := RunOf(db, id, room.cursor);
    RunIsWithin(db, id, room.cursor);
    WithinMeans(room.cursor, left, left[|left| - 1].id);
  }

  // ---- How many pages that takes ----

  function SinceOf(s: State): map<int, int>
    requires forall id :: id in s.pending ==> id in s.rooms
  {
    map id | id in s.pending :: s.rooms[id].cursor
  }

  /** Rooms still pending plus the server's logs still to come for them. */
  function Outstanding(db: seq<Log>, s: State): nat
    requires forall id :: id in s.pending ==> id in s.rooms
  {
    |s.pending| + |Remaining(db, SinceOf(s))|
  }

  ghost predicate Advances(a: map<int, int>, b: map<int, int>) {
    b.Keys <= a.Keys && forall id :: id in b ==> a[id] <= b[id]
  }

  lemma {:induction false} RemainingShrinks(db: seq<Log>, a: map<int, int>, b: map<int, int>)
    requires Advances(a, b)
    ensures |Remaining(db, b)| <= |Remaining(db, a)|
    ensures (exists l :: l in Remaining(db, a) && (l.chat !in b || l.id <= b[l.chat])) ==>
      |Remaining(db, b)| < |Remaining(db, a)|
  {
    if db != [] {
      RemainingShrinks(db[1..], a, b);
    }
  }

  lemma {:induction false} DropShorter(pending: seq<int>, gone: set<int>, i: nat)
    requires i < |pending| && pending[i] in gone
    ensures |Drop(pending, gone)| < |pending|
  {
    if i > 0 {
      DropShorter(pending[1..], gone, i - 1);
    }
  }

  lemma CursorGrows(env: Env, room: Room, page: nat, logs: seq<Log>, id: int)
    requires Ordered(logs) && RoomAfter(env, room, page, logs, id).Advanced?
    ensures RoomAfter(env, room, page, logs, id).room.cursor >= room.cursor
  {
    var run := RunOf(logs, id, room.cursor);
    RunIsWithin(logs, id, room.cursor);
    if run != [] {
      WithinMeans(room.cursor, run, run[|run| - 1].id);
    }
  }

  /** What a page does to the rooms and to pending. */
  ghost predicate Leads(env: Env, s: State, page: Reply, next: State) {
    && s.Valid() && next.Valid() && page.Page? && Ordered(page.logs) && next.rooms.Keys == s.rooms.Keys
    && (forall id :: id in Batch(s.pending) ==>
        RoomAfter(env, s.rooms[id], s.pages, page.logs, id) == Advanced(next.rooms[id]))
    && (forall id :: id in s.rooms && id !in Batch(s.pending) ==> next.rooms[id] == s.rooms[id])
    && (forall id :: id in next.pending ==> id in s.pending && !next.rooms[id].done)
  }

  lemma PageLeads(env: Env, db: seq<Log>, size: nat -> nat, s: State) returns (page: Reply, next: State)
    requires Serves(env, db, size) && Live(s) && s.pending != []
    requires s.pages < MAX_PAGES && !(s.history && env.spent(s.pages))
    ensures page == Answer(db, RequestFor(s.rooms, Batch(s.pending)), size(s.pages))
    ensures TurnOf(env, s) == Again(next) && Leads(env, s, page, next)
    ensures page.eof ==> |next.pending| < |s.pending|
    ensures |next.pending| <= |s.pending|
  {
    var ids := Batch(s.pending);
    page := Answer(db, RequestFor(s.rooms, ids), size(s.pages));
    PageGoesOn(env, db, size, s);
    next := TurnOf(env, s).next;
    assert Ordered(page.logs) by {
      PageIsSound(db, s.rooms, ids, size(s.pages));
    }
    if page.eof {
      assert s.pending[0] in Retired(ids, page.logs, page.eof);
      DropShorter(s.pending, DoneRooms(next.rooms) + Retired(ids, page.logs, page.eof), 0);
    }
  }

  lemma PageAdvancesSince(env: Env, s: State, page: Reply, next: State)
    requires Leads(env, s, page, next)
    ensures Advances(SinceOf(s), SinceOf(next))
  {
    forall id | id in SinceOf(next)
      ensures id in SinceOf(s) && next.rooms[id].cursor >= s.rooms[id].cursor
    {
      assert id in next.pending;
      if id in Batch(s.pending) {
        CursorGrows(env, s.rooms[id], s.pages, page.logs, id);
      }
    }
  }

  lemma LastLogLeaves(env: Env, db: seq<Log>, size: nat -> nat, s: State, page: Reply, next: State) returns (last: Log)
    requires Serves(env, db, size) && Live(s) && s.pending != [] && Leads(env, s, page, next)
    requires page == Answer(db, RequestFor(s.rooms, Batch(s.pending)), size(s.pages)) && !page.eof
    ensures last in Remaining(db, SinceOf(s)) && (last.chat !in SinceOf(next) || last.id <= SinceOf(next)[last.chat])
  {
    PageIsSound(db, s.rooms, Batch(s.pending), size(s.pages));
    last := page.logs[|page.logs| - 1];
    assert last in page.logs;
    LastLogMoves(env, s.rooms, s.pages, page.logs);
    RemainingKeeps(db, SinceOf(s), last);
  }

  /** Every page retires a room or takes a log. */
  lemma PageShrinks(env: Env, db: seq<Log>, size: nat -> nat, s: State)
    requires Serves(env, db, size) && Live(s) && s.pending != []
    requires s.pages < MAX_PAGES && !(s.history && env.spent(s.pages))
    ensures TurnOf(env, s).Again? && Outstanding(db, TurnOf(env, s).next) < Outstanding(db, s)
  {
    var page, next := PageLeads(env, db, size, s);
    PageAdvancesSince(env, s, page, next);
    RemainingShrinks(db, SinceOf(s), SinceOf(next));
    if !page.eof {
      var last := LastLogLeaves(env, db, size, s, page, next);
    }
  }

  lemma {:induction false} RemainingKeeps(db: seq<Log>, since: map<int, int>, l: Log)
    requires l in db && l.chat in since && l.id > since[l.chat]
    ensures l in Remaining(db, since)
  {
    if db[0] != l {
      RemainingKeeps(db[1..], since, l);
    }
  }

  lemma {:induction false} ChainPages(env: Env, db: seq<Log>, size: nat -> nat, s: State)
    requires Serves(env, db, size) && Live(s)
    ensures Chain(env, s).Finished? && Chain(env, s).pages <= s.pages + Outstanding(db, s)
    ensures Chain(env, s).left != [] ==> Chain(env, s).pages >= MAX_PAGES
    decreases MAX_PAGES - s.pages, s.history
  {
    if s.pending != [] {
      TurnTracks(env, db, size, s, {});
      var turn := TurnOf(env, s);
      if s.history && env.spent(s.pages) {
        RemainingShrinks(db, SinceOf(s), SinceOf(turn.next));
        ChainPages(env, db, size, turn.next);
      } else if s.pages < MAX_PAGES {
        PageShrinks(env, db, size, s);
        ChainPages(env, db, size, turn.next);
      }
    }
  }

  /** The per-room read: with fewer rooms and logs outstanding than the page cap,
      every room committed to a position from which the server still chains to
      its ceiling ends with exactly the server's logs in (committed, ceiling]. */
  lemma PagingRefinesPerRoomReads(env: Env, db: seq<Log>, size: nat -> nat, s: State, good: set<int>)
    requires Serves(env, db, size) && Live(s) && s.pages == 0 && Outstanding(db, s) < MAX_PAGES
    requires forall id :: id in good ==> id in s.pending && OnCourse(db, id, s.rooms[id])
    ensures var out := Chain(env, s);
      && out.Finished? && out.left == [] && out.rooms.Keys == s.rooms.Keys
      && (forall id :: id in good ==> SameRequest(s.rooms[id], out.rooms[id]) && Recovered(db, id, out.rooms[id]))
  {
    ChainRecovers(env, db, size, s, good);
    ChainPages(env, db, size, s);
  }
}
