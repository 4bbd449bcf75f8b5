/** Selecting rooms, finishing them against the checkpoint, and the per-chat
    commit queue (internal/client/bulk_catchup.go, selectBulkRooms and
    finishBulkRooms; internal/client/client.go, CommitEvent and queueCommit;
    internal/client/sync.go, ResumeTargets). */
module CatchUpFinish {
  import opened Basics
  import opened SortedChats
  import CP = Checkpoints
  import opened CatchUpRoom
  import opened CatchUpAccount

  // ---- Selection ----

  function CommittedMax(v: CP.View, chat: int): int { if chat in v.chats then v.chats[chat] else 0 }
  function FirstStart(v: CP.View, chat: int): int { if chat in v.starts then v.starts[chat] else 0 }
  predicate HasGapThrough(v: CP.View, chat: int, log: int) { chat in v.gaps && v.gaps[chat].from <= log }
  predicate InGap(v: CP.View, chat: int, x: int) { chat in v.gaps && v.gaps[chat].from <= x <= v.gaps[chat].to }

  /** A chat needs catch-up when the server is ahead of its commit, or of its
      first live admission if it was never committed. */
  predicate Resumes(v: CP.View, chat: int, max: int) {
    var committed, start := CommittedMax(v, chat), FirstStart(v, chat);
    max > 0 && ((committed > 0 && max > committed) || (committed == 0 && start > 0 && max >= start))
  }

  /** A catch-up room starts at its commit, or just below its first admission;
      below the login floor it is unresolved without a request. */
  function CatchUpStart(v: CP.View, chat: int, max: int, floor: int): Room {
    var cursor := if CommittedMax(v, chat) == 0 then FirstStart(v, chat) - 1 else CommittedMax(v, chat);
    Room(max, cursor, true, cursor + 1, [], 0, 0, max < floor, [])
  }

  /** An inventory chat for startup acquisition; regular is the type and link
      test, ceiling its highest inventory log. */
  datatype Chat = Chat(id: int, regular: bool, ceiling: int)

  function AcquiredThrough(cursors: map<int, int>, chat: int): int { if chat in cursors then cursors[chat] else 0 }

  predicate AcquiresChat(cursors: map<int, int>, chat: Chat, floor: int) {
    chat.regular && chat.ceiling > 0 && AcquiredThrough(cursors, chat.id) < chat.ceiling && chat.ceiling >= floor
  }

  ghost predicate Selected(v: CP.View, floor: int, rooms: map<int, Room>) {
    && (forall id :: id in rooms && rooms[id].catchUp ==>
          id in v.known && Resumes(v, id, v.known[id]) && rooms[id] == CatchUpStart(v, id, v.known[id], floor))
    && (forall id :: id in v.known && Resumes(v, id, v.known[id]) ==> id in rooms && rooms[id].catchUp)
    && (forall id :: id in rooms && !rooms[id].catchUp ==> !rooms[id].done)
  }

  function AcquisitionStart(chat: Chat, cursors: map<int, int>): Room {
    Room(chat.ceiling, AcquiredThrough(cursors, chat.id), false, 0, [], 0, 0, false, [])
  }

  /** The other rooms are exactly the inventory chats still to be acquired, each
      from its durable acquisition cursor. */
  ghost predicate Acquiring(rooms: map<int, Room>, chats: seq<Chat>, cursors: map<int, int>, floor: int) {
    && (forall id :: id in rooms && !rooms[id].catchUp ==>
          exists chat ::
            chat in chats && chat.id == id && AcquiresChat(cursors, chat, floor) &&
              rooms[id] == AcquisitionStart(chat, cursors))
    && (forall chat :: chat in chats && AcquiresChat(cursors, chat, floor) ==> chat.id in rooms)
  }

  method SelectBulkRooms(store: CP.Store, floor: int, history: Option<seq<Chat>>, cursors: map<int, int>)
    returns (rooms: map<int, Room>)
    requires store.Valid()
    ensures Selected(store.Now(), floor, rooms)
    ensures Acquiring(rooms, if history.Some? then history.value else [], cursors, floor)
  {
    rooms := ResumeRooms(store, floor);
    if history.Some? {
      rooms := AddHistory(rooms, history.value, cursors, floor);
    }
  }

  method ResumeRooms(store: CP.Store, floor: int) returns (rooms: map<int, Room>)
    requires store.Valid()
    ensures Selected(store.Now(), floor, rooms) && forall id :: id in rooms ==> rooms[id].catchUp
  {
    rooms := map[];
    var known := store.data.known;
    CP.ValidateIff(store.data);
    ghost var v := store.Now();
    for i := 0 to |known|
      invariant Resuming(v, floor, ToMap(known[..i]), rooms)
    {
      var chat, max := known[i].chat, known[i].value;
      CP.PrefixMap(0, known, i);
      KnownAt(0, known, i);
      var room := ResumeRoom(store.data, chat, max, floor);
      ghost var before := rooms;
      if room.Some? {
        rooms := rooms[chat := room.value];
      }
      ResumingStep(v, floor, ToMap(known[..i]), before, chat, max, rooms);
    }
    assert known[..|known|] == known;
    ResumingAll(v, floor, rooms);
  }

  /** The room of one target, if the chat needs catch-up. */
  function ResumeRoom(cp: CP.Checkpoint, chat: int, max: int, floor: int): (room: Option<Room>)
    requires CP.Validate(cp)
    ensures room == if Resumes(CP.Abs(cp), chat, max) then Some(CatchUpStart(CP.Abs(cp), chat, max, floor)) else None
  {
    CP.ReadsRefine(cp, chat, 0);
    var committed, start := CP.CommittedMax(cp, chat), CP.FirstDeliveryStart(cp, chat);
    if max > 0 && ((committed > 0 && max > committed) || (committed == 0 && start > 0 && max >= start)) then
      var cursor := if committed == 0 then start - 1 else committed;
      Some(Room(max, cursor, true, cursor + 1, [], 0, 0, max < floor, []))
    else None
  }

  lemma ResumingAll(v: CP.View, floor: int, rooms: map<int, Room>)
    requires Resuming(v, floor, v.known, rooms)
    ensures Selected(v, floor, rooms) && forall id :: id in rooms ==> rooms[id].catchUp
  {
  }

  /** The rooms selected from part of the known targets. */
  ghost predicate Resuming(v: CP.View, floor: int, part: map<int, int>, rooms: map<int, Room>) {
    && (forall id :: id in part ==> id in v.known && part[id] == v.known[id])
    && (forall id :: id in rooms <==> id in part && Resumes(v, id, part[id]))
    && (forall id :: id in rooms ==> rooms[id] == CatchUpStart(v, id, part[id], floor))
  }

  lemma ResumingStep(v: CP.View, floor: int, part: map<int, int>, rooms: map<int, Room>, chat: int, max: int,
                     next: map<int, Room>)
    requires Resuming(v, floor, part, rooms) && chat in v.known && v.known[chat] == max
    requires next == if Resumes(v, chat, max) then rooms[chat := CatchUpStart(v, chat, max, floor)] else rooms
    ensures Resuming(v, floor, part[chat := max], next)
  {
  }

  lemma {:induction false} KnownAt(previous: int, items: seq<Entry<int>>, i: nat)
    requires SortedFrom(previous, items) && i < |items|
    ensures items[i].chat in ToMap(items) && ToMap(items)[items[i].chat] == items[i].value
    decreases items
  {
    if i > 0 {
      KnownAt(items[0].chat, items[1..], i - 1);
      KeysAbove(items[0].chat, items[1..], items[i].chat);
    }
  }

  method AddHistory(rooms: map<int, Room>, chats: seq<Chat>, cursors: map<int, int>, floor: int)
    returns (all: map<int, Room>)
    requires forall id :: id in rooms ==> rooms[id].catchUp
    ensures forall id :: id in rooms ==> id in all && all[id] == rooms[id]
    ensures forall id :: id in all && id !in rooms ==> !all[id].catchUp && !all[id].done
    ensures Acquiring(all, chats, cursors, floor)
  {
    all := rooms;
    for i := 0 to |chats|
      invariant forall id :: id in rooms ==> id in all && all[id] == rooms[id]
      invariant forall id :: id in all && id !in rooms ==> !all[id].catchUp && !all[id].done
      invariant Acquiring(all, chats[..i], cursors, floor)
    {
      var chat := chats[i];
      ghost var before := all;
      if chat.id !in all && AcquiresChat(cursors, chat, floor) {
        all := all[chat.id := AcquisitionStart(chat, cursors)];
      }
      AcquiringStep(before, all, chats, cursors, floor, i);
    }
    assert chats[..|chats|] == chats;
  }

  lemma AcquiringStep(before: map<int, Room>, after: map<int, Room>, chats: seq<Chat>, cursors: map<int, int>,
                      floor: int, i: nat)
    requires i < |chats| && Acquiring(before, chats[..i], cursors, floor)
    requires after == if chats[i].id !in before && AcquiresChat(cursors, chats[i], floor) then
      before[chats[i].id := AcquisitionStart(chats[i], cursors)]
    else
      before
    ensures Acquiring(after, chats[..i + 1], cursors, floor)
  {
    assert chats[..i + 1] == chats[..i] + [chats[i]];
    assert forall chat :: chat in chats[..i + 1] <==> chat in chats[..i] || chat == chats[i];
    forall id | id in after && !after[id].catchUp
      ensures exists chat ::
        chat in chats[..i + 1] && chat.id == id && AcquiresChat(cursors, chat, floor) &&
          after[id] == AcquisitionStart(chat, cursors)
    {
      if id in before {
        var chat :| chat in chats[..i] && chat.id == id && AcquiresChat(cursors, chat, floor) &&
          before[id] == AcquisitionStart(chat, cursors);
        assert chat in chats[..i + 1];
      } else {
        assert chats[i] in chats[..i + 1];
      }
    }
  }

  /** A selected chain starts accounted for. */
  lemma SelectionStarts(v: CP.View, floor: int, rooms: map<int, Room>)
    requires CP.ValidView(v) && Selected(v, floor, rooms)
    ensures Continues(rooms, rooms)
  {
  }

  // ---- Finishing one room ----

  datatype Final = Final(events: seq<Log>, skip: Option<CP.Gap>, rest: Option<CP.Gap>, resolves: bool)

  /** The room's outcome. A projection failure discards its events and leaves
      its whole interval unresolved. */
  function FinalOf(room: Room, projects: bool, hadGap: bool): Final {
    var cursor := if projects then room.cursor else room.gapStart - 1;
    var skip := if projects && room.skipFrom > 0 then Some(CP.Gap(room.skipFrom, room.skipThrough)) else None;
    var rest := if cursor < room.ceiling then Some(CP.Gap(cursor + 1, room.ceiling)) else None;
    Final(if projects then room.events else [], skip, rest, skip.None? && rest.None? && hadGap)
  }

  function RecordOf(id: int, gap: CP.Gap): CP.Op { CP.RecordGap(id, gap.from, gap.to) }

  /** The checkpoint writes of that outcome, in order. */
  function Writes(id: int, room: Room, final: Final): seq<CP.Op> {
    if final.skip.Some? then
      if final.rest.Some? then [RecordOf(id, final.skip.value), RecordOf(id, final.rest.value)]
      else [RecordOf(id, final.skip.value)]
    else if final.rest.Some? then [RecordOf(id, final.rest.value)]
    else if final.resolves then [CP.ResolveGap(id, room.ceiling)]
    else []
  }

  function Apply(v: CP.View, ops: seq<CP.Op>): CP.View { v.(gaps := GapsThrough(v.gaps, ops)) }

  function GapsThrough(gaps: map<int, CP.Gap>, ops: seq<CP.Op>): map<int, CP.Gap> {
    if ops == [] then gaps else CP.GapsAfter(ops[|ops| - 1], GapsThrough(gaps, ops[..|ops| - 1]))
  }

  /** Neither delivered nor strictly inside an accepted link. */
  ghost predicate Owed(room: Room, projects: bool, x: int) {
    room.gapStart <= x <= room.ceiling && !(projects && (Delivered(room, x) || InsideLink(room, x)))
  }

  /** Both records' intervals are inside what two records leave. */
  lemma RecordsHold(gaps: map<int, CP.Gap>, id: int, first: CP.Gap, last: CP.Gap)
    ensures Holds(GapsThrough(gaps, [RecordOf(id, last)]), id, last)
    ensures Holds(GapsThrough(gaps, [RecordOf(id, first), RecordOf(id, last)]), id, first)
    ensures Holds(GapsThrough(gaps, [RecordOf(id, first), RecordOf(id, last)]), id, last)
  {
    assert [RecordOf(id, last)][..0] == [] && [RecordOf(id, first)][..0] == [];
    assert [RecordOf(id, first), RecordOf(id, last)][..1] == [RecordOf(id, first)];
  }

  predicate Holds(gaps: map<int, CP.Gap>, id: int, gap: CP.Gap) {
    id in gaps && gaps[id].from <= gap.from && gap.to <= gaps[id].to
  }

  /** Once a room's writes are done, the checkpoint holds every identity the
      room still owes. */
  lemma FinishedRoomAccounts(v: CP.View, id: int, room: Room, projects: bool, hadGap: bool, x: int)
    requires CP.ValidView(v) && RoomInv(room) && room.catchUp && Owed(room, projects, x)
    ensures InGap(Apply(v, Writes(id, room, FinalOf(room, projects, hadGap))), id, x)
  {
    var final := FinalOf(room, projects, hadGap);
    WritesHold(v.gaps, id, room, final);
    OwedIsWritten(room, projects, hadGap, x);
  }

  /** What the room owes lies in one of the outcome's two gaps. */
  lemma OwedIsWritten(room: Room, projects: bool, hadGap: bool, x: int)
    requires RoomInv(room) && room.catchUp && Owed(room, projects, x)
    ensures var final := FinalOf(room, projects, hadGap);
      || (final.rest.Some? && final.rest.value.from <= x <= final.rest.value.to)
      || (final.skip.Some? && final.skip.value.from <= x <= final.skip.value.to)
  {
    if projects && x <= room.cursor {
      assert Accounted(room, x);
    }
  }

  lemma WritesHold(gaps: map<int, CP.Gap>, id: int, room: Room, final: Final)
    ensures final.rest.Some? ==> Holds(GapsThrough(gaps, Writes(id, room, final)), id, final.rest.value)
    ensures final.skip.Some? ==> Holds(GapsThrough(gaps, Writes(id, room, final)), id, final.skip.value)
  {
    if final.skip.Some? && final.rest.Some? {
      RecordsHold(gaps, id, final.skip.value, final.rest.value);
    } else if final.skip.Some? {
      RecordsHold(gaps, id, final.skip.value, final.skip.value);
    } else if final.rest.Some? {
      RecordsHold(gaps, id, final.rest.value, final.rest.value);
    }
  }
}
