/** One room of the connect's MCHATLOGS chain: following its prevId chain page
    by page (internal/client/bulk_catchup.go, chainRoom and applyBulkRun). */
module CatchUpRoom {
  import opened Basics

  /** One chat log. decodes says that the event decoder accepts the body and
      reports this chat and this log ID as its position. */
  datatype Log = Log(chat: int, id: int, prev: Option<int>, decodes: bool)

  /** accepted is the history of the room's accepted links, including those of
      logs past the ceiling, which deliver no event. */
  datatype Room = Room(
    ceiling: int, cursor: int, catchUp: bool, gapStart: int,
    events: seq<Log>, skipFrom: int, skipThrough: int, done: bool, accepted: seq<Log>)

  datatype Applied = Aborted | Advanced(room: Room)

  /** Strictly increasing identities, all above lo and none above hi. */
  predicate Within(lo: int, run: seq<Log>, hi: int)
    decreases run
  {
    if run == [] then lo <= hi else lo < run[0].id && Within(run[0].id, run[1..], hi)
  }

  /** The logs at or below a ceiling. */
  function AtMost(run: seq<Log>, ceiling: int): seq<Log> {
    if run == [] then []
    else (if run[0].id <= ceiling then [run[0]] else []) + AtMost(run[1..], ceiling)
  }

  /** A log with a predecessor identity: the source's PrevID, which rejects
      negative values. */
  predicate Links(log: Log, previous: int) {
    log.prev.Some? && log.prev.value >= 0 && log.prev.value == previous
  }

  /** A run chained by prevId from previous. */
  predicate Linked(previous: int, run: seq<Log>)
    decreases run
  {
    run == [] || (Links(run[0], previous) && Linked(run[0].id, run[1..]))
  }

  datatype Walked = Broken | Undecodable | Clean(decoded: seq<Log>)

  /** Follow the links of a run from previous; keep the events at or below the
      ceiling. The first failure decides. */
  function Walk(run: seq<Log>, previous: int, ceiling: int): Walked {
    if run == [] then Clean([])
    else if !Links(run[0], previous) then Broken
    else if run[0].id <= ceiling && !run[0].decodes then Undecodable
    else match Walk(run[1..], run[0].id, ceiling)
         case Clean(decoded) => Clean(if run[0].id <= ceiling then [run[0]] + decoded else decoded)
         case other => other
  }

  /** The skipped interval (cursor, first] below the ceiling joins the recorded
      hull. */
  function Skip(room: Room, first: int): Room {
    var from, through := room.cursor + 1, Min(first, room.ceiling);
    if from > through then room
    else if room.skipFrom == 0 then room.(skipFrom := from, skipThrough := through)
    else room.(skipThrough := through)
  }

  function ApplyRun(room: Room, run: seq<Log>, saved: bool): Applied {
    if run == [] then Advanced(room)
    else
      var last := run[|run| - 1].id;
      if !room.catchUp then (if saved then Advanced(room.(cursor := last)) else Aborted)
      else if run[0].prev.None? || run[0].prev.value < 0 || run[0].prev.value < room.cursor then
        Advanced(room.(done := true))
      else
        var start := run[0].prev.value;
        var r := if start > room.cursor then Skip(room, start) else room;
        match Walk(run, start, room.ceiling)
        case Broken => Advanced(r.(done := true))
        case Undecodable => Aborted
        case Clean(decoded) =>
          if saved then Advanced(r.(events := r.events + decoded, cursor := last, accepted := r.accepted + run))
          else Aborted
  }

  method ApplyBulkRun(room: Room, run: seq<Log>, saved: bool) returns (out: Applied)
    ensures out == ApplyRun(room, run, saved)
  {
    if run == [] {
      return Advanced(room);
    }
    var last := run[|run| - 1].id;
    if !room.catchUp {
      if !saved {
        return Aborted;
      }
      return Advanced(room.(cursor := last));
    }
    var r := room;
    var first := run[0].prev;
    if first.None? || first.value < 0 || first.value < room.cursor {
      return Advanced(room.(done := true));
    }
    if first.value > room.cursor {
      var from, through := room.cursor + 1, Min(first.value, room.ceiling);
      if from <= through && room.skipFrom == 0 {
        r := r.(skipFrom := from, skipThrough := through);
      } else if from <= through {
        r := r.(skipThrough := through);
      }
    }
    var walked := WalkRun(run, first.value, room.ceiling);
    if walked.Broken? {
      return Advanced(r.(done := true));
    }
    if walked.Undecodable? || !saved {
      return Aborted;
    }
    return Advanced(r.(events := r.events + walked.decoded, cursor := last, accepted := r.accepted + run));
  }

  /** The loop over a run's links. */
  method WalkRun(run: seq<Log>, start: int, ceiling: int) returns (walked: Walked)
    ensures walked == Walk(run, start, ceiling)
  {
    var previous := start;
    var decoded: seq<Log> := [];
    for i := 0 to |run|
      invariant Walk(run, start, ceiling) == Resumed(decoded, Walk(run[i..], previous, ceiling))
    {
      var log := run[i];
      Suffix(run, i);
      if !Links(log, previous) {
        return Broken;
      }
      previous := log.id;
      if log.id > ceiling {
        continue;
      }
      if !log.decodes {
        return Undecodable;
      }
      ResumedAssociates(decoded, log, Walk(run[i + 1..], previous, ceiling));
      decoded := decoded + [log];
    }
    assert decoded + [] == decoded;
    return Clean(decoded);
  }

  lemma ResumedAssociates(decoded: seq<Log>, log: Log, rest: Walked)
    ensures Resumed(decoded, Resumed([log], rest)) == Resumed(decoded + [log], rest)
  {
    if rest.Clean? { Associates(decoded, [log], rest.decoded); }
  }

  ghost function Resumed(decoded: seq<Log>, rest: Walked): Walked {
    match rest
    case Clean(more) => Clean(decoded + more)
    case other => other
  }

  // ---- What a room has accounted for ----

  ghost predicate Delivered(room: Room, x: int) {
    exists i :: 0 <= i < |room.events| && room.events[i].id == x
  }

  /** Strictly between a log and its accepted predecessor: the server says
      nothing exists there. */
  ghost predicate InsideLink(room: Room, x: int) {
    exists i :: 0 <= i < |room.accepted| && Inside(room.accepted[i], x)
  }

  ghost predicate Inside(log: Log, x: int) {
    log.prev.Some? && log.prev.value < x < log.id
  }

  predicate Skipped(room: Room, x: int) {
    room.skipFrom > 0 && room.skipFrom <= x <= room.skipThrough
  }

  ghost predicate Accounted(room: Room, x: int) {
    Delivered(room, x) || InsideLink(room, x) || Skipped(room, x)
  }

  /** Every identity from the room's start through its cursor is accounted for,
      and its events lie in that interval in increasing order. */
  ghost predicate RoomInv(room: Room) {
    room.catchUp ==> Shape(room) && AllAccounted(room)
  }

  predicate Shape(room: Room) {
    && 1 <= room.gapStart <= room.ceiling && room.gapStart - 1 <= room.cursor
    && Within(room.gapStart - 1, room.events, Min(room.ceiling, room.cursor))
    && (room.skipFrom != 0 ==>
        room.gapStart <= room.skipFrom <= room.skipThrough <= room.ceiling && room.skipFrom <= room.cursor + 1)
  }

  ghost predicate AllAccounted(room: Room) {
    forall x :: room.gapStart <= x <= Min(room.ceiling, room.cursor) ==> Accounted(room, x)
  }

  lemma {:induction false} WithinMeans(lo: int, run: seq<Log>, hi: int)
    requires Within(lo, run, hi)
    ensures lo <= hi
    ensures forall i :: 0 <= i < |run| ==> lo < run[i].id <= hi
    ensures forall i, j :: 0 <= i < j < |run| ==> run[i].id < run[j].id
    decreases run
  {
    if run != [] {
      WithinMeans(run[0].id, run[1..], hi);
    }
  }

  lemma {:induction false} WithinAppend(lo: int, a: seq<Log>, mid: int, b: seq<Log>, hi: int)
    requires Within(lo, a, mid) && Within(mid, b, hi)
    ensures Within(lo, a + b, hi)
    decreases a
  {
    if a == [] {
      assert a + b == b;
    } else {
      WithinAppend(a[0].id, a[1..], mid, b, hi);
      assert (a + b)[1..] == a[1..] + b;
    }
  }

  lemma {:induction false} WithinAtMost(lo: int, run: seq<Log>, hi: int, ceiling: int)
    requires Within(lo, run, hi)
    ensures Within(Min(lo, ceiling), AtMost(run, ceiling), Min(hi, ceiling))
    decreases run
  {
    if run != [] {
      WithinAtMost(run[0].id, run[1..], hi, ceiling);
      var all := AtMost(run, ceiling);
      if run[0].id <= ceiling {
        assert all[1..] == AtMost(run[1..], ceiling);
      } else {
        assert all == AtMost(run[1..], ceiling);
      }
    }
  }

  lemma {:induction false} AtMostHas(run: seq<Log>, ceiling: int, i: nat) returns (k: nat)
    requires i < |run| && run[i].id <= ceiling
    ensures k < |AtMost(run, ceiling)| && AtMost(run, ceiling)[k] == run[i]
  {
    if i == 0 {
      k := 0;
    } else {
      k := AtMostHas(run[1..], ceiling, i - 1);
      k := k + if run[0].id <= ceiling then 1 else 0;
    }
  }

  /** A clean walk delivers exactly the run's logs at or below the ceiling, and
      only a linked run is clean. */
  lemma {:induction false} WalkDelivers(run: seq<Log>, previous: int, ceiling: int)
    requires Walk(run, previous, ceiling).Clean?
    ensures Walk(run, previous, ceiling).decoded == AtMost(run, ceiling)
    ensures Linked(previous, run)
    decreases run
  {
    if run != [] {
      WalkDelivers(run[1..], run[0].id, ceiling);
    }
  }

  /** Every identity in (previous, last] is one of a linked run's logs or
      strictly inside one of its links. */
  lemma {:induction false} RunCovers(run: seq<Log>, previous: int, x: int) returns (i: nat)
    requires run != [] && Linked(previous, run)
    requires previous < x <= run[|run| - 1].id
    ensures i < |run| && (run[i].id == x || Inside(run[i], x))
    decreases run
  {
    if x <= run[0].id {
      i := 0;
    } else {
      i := RunCovers(run[1..], run[0].id, x);
      i := i + 1;
    }
  }

  lemma AccountedGrows(room: Room, next: Room, x: int)
    requires Accounted(room, x)
    requires room.events <= next.events && room.accepted <= next.accepted
    requires Skipped(room, x) ==> Skipped(next, x)
    ensures Accounted(next, x)
  {
    if i :| 0 <= i < |room.events| && room.events[i].id == x {
      assert next.events[i].id == x;
    } else if i :| 0 <= i < |room.accepted| && Inside(room.accepted[i], x) {
      assert Inside(next.accepted[i], x);
    }
  }

  /** Skipping widens what is recorded and loses nothing already accounted. */
  lemma SkipKeeps(room: Room, first: int)
    requires RoomInv(room) && room.catchUp && first > room.cursor
    ensures RoomInv(Skip(room, first))
    ensures forall x :: room.cursor < x <= Min(first, room.ceiling) ==> Skipped(Skip(room, first), x)
  {
    var next := Skip(room, first);
    forall x | next.gapStart <= x <= Min(next.ceiling, next.cursor)
      ensures Accounted(next, x)
    {
      assert Accounted(room, x);
      AccountedGrows(room, next, x);
    }
  }

  /** Every run on every page keeps the room accounted for. */
  lemma RunKeepsRoom(room: Room, run: seq<Log>, saved: bool)
    requires RoomInv(room)
    requires run == [] || Within(room.cursor, run, run[|run| - 1].id)
    requires ApplyRun(room, run, saved).Advanced?
    ensures RoomInv(ApplyRun(room, run, saved).room)
    ensures var next := ApplyRun(room, run, saved).room;
      next.catchUp == room.catchUp && next.ceiling == room.ceiling && next.gapStart == room.gapStart
  {
    var next := ApplyRun(room, run, saved).room;
    if run != [] && room.catchUp && run[0].prev.Some? && run[0].prev.value >= 0 && run[0].prev.value >= room.cursor {
      var start := run[0].prev.value;
      var r := if start > room.cursor then Skip(room, start) else room;
      if start > room.cursor {
        SkipKeeps(room, start);
      }
      if Walk(run, start, room.ceiling).Clean? {
        WalkDelivers(run, start, room.ceiling);
        CleanRunShape(r, run, next);
        CleanRunKeepsAccount(r, run, next);
      } else {
        SameAccount(r, next);
      }
    } else if room.catchUp {
      SameAccount(room, next);
    }
  }

  lemma SameAccount(room: Room, next: Room)
    requires RoomInv(room) && room.catchUp && next == room.(done := next.done)
    ensures RoomInv(next)
  {
    forall x | next.gapStart <= x <= Min(next.ceiling, next.cursor)
      ensures Accounted(next, x)
    {
      AccountedGrows(room, next, x);
    }
  }

  lemma CleanRunShape(r: Room, run: seq<Log>, next: Room)
    requires Shape(r) && run != [] && Within(r.cursor, run, run[|run| - 1].id)
    requires next ==
      r.(events := r.events + AtMost(run, r.ceiling), cursor := run[|run| - 1].id, accepted := r.accepted + run)
    ensures Shape(next)
  {
    WithinMeans(r.cursor, run, next.cursor);
    WithinAtMost(r.cursor, run, next.cursor, r.ceiling);
    WithinAppend(r.gapStart - 1, r.events, Min(r.ceiling, r.cursor), AtMost(run, r.ceiling),
                 Min(r.ceiling, next.cursor));
  }

  lemma CleanRunKeepsAccount(r: Room, run: seq<Log>, next: Room)
    requires AllAccounted(r) && run != [] && run[0].prev.Some? && Linked(run[0].prev.value, run)
    requires forall x :: r.cursor < x <= Min(run[0].prev.value, r.ceiling) ==> Skipped(r, x)
    requires next ==
      r.(events := r.events + AtMost(run, r.ceiling), cursor := run[|run| - 1].id, accepted := r.accepted + run)
    ensures AllAccounted(next)
  {
    forall x | next.gapStart <= x <= Min(next.ceiling, next.cursor)
      ensures Accounted(next, x)
    {
      CleanRunAccounts(r.cursor, run, r, next, x);
    }
  }

  lemma CleanRunAccounts(cursor: int, run: seq<Log>, r: Room, next: Room, x: int)
    requires run != [] && run[0].prev.Some? && Linked(run[0].prev.value, run)
    requires next ==
      r.(events := r.events + AtMost(run, r.ceiling), cursor := run[|run| - 1].id, accepted := r.accepted + run)
    requires x <= cursor ==> Accounted(r, x)
    requires cursor < x <= run[0].prev.value ==> Skipped(r, x)
    requires x <= Min(r.ceiling, next.cursor)
    ensures Accounted(next, x)
  {
    if x <= cursor {
      AccountedGrows(r, next, x);
    } else if x <= run[0].prev.value {
      assert Skipped(next, x);
    } else {
      NewlyAccounted(run, r, next, x);
    }
  }

  lemma NewlyAccounted(run: seq<Log>, r: Room, next: Room, x: int)
    requires run != [] && run[0].prev.Some? && Linked(run[0].prev.value, run)
    requires next.events == r.events + AtMost(run, r.ceiling) && next.accepted == r.accepted + run
    requires run[0].prev.value < x <= Min(r.ceiling, run[|run| - 1].id)
    ensures Accounted(next, x)
  {
    var i := RunCovers(run, run[0].prev.value, x);
    if run[i].id == x {
      var k := AtMostHas(run, r.ceiling, i);
      ConcatAt(r.events, AtMost(run, r.ceiling), k);
      DeliveredAt(next, |r.events| + k, x);
    } else {
      ConcatAt(r.accepted, run, i);
      InsideAt(next, |r.accepted| + i, x);
    }
  }

  lemma DeliveredAt(room: Room, i: nat, x: int)
    requires i < |room.events| && room.events[i].id == x
    ensures Accounted(room, x)
  {
  }

  lemma InsideAt(room: Room, i: nat, x: int)
    requires i < |room.accepted| && Inside(room.accepted[i], x)
    ensures Accounted(room, x)
  {
  }
}
