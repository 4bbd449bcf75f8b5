/** A whole catch-up against an honest server: what the shared page stream gives
    a room is what reading that room alone gives, and it leaves no gap behind
    (internal/client/bulk_catchup.go). */
module CatchUpRecovers {
  import opened CatchUpRoom
  import opened CatchUpChain
  import opened CatchUpAccount
  import opened CatchUpServer
  import opened CatchUpFinish

  /** A chain of one room. */
  function Alone(s: State, id: int): State
    requires id in s.rooms
  {
    State(map[id := s.rooms[id]], [id], 0, false)
  }

  lemma AloneIsLess(db: seq<Log>, s: State, id: int)
    requires s.Valid() && id in s.pending
    ensures Outstanding(db, Alone(s, id)) <= Outstanding(db, s)
  {
    RemainingShrinks(db, SinceOf(s), SinceOf(Alone(s, id)));
  }

  /** The shared stream refines the read of one room: whenever both retire it,
      whatever their page sizes and however many pages other rooms take, they
      give it the same events, no skipped interval, and the ceiling reached. */
  lemma SharedEqualsAlone(env: Env, one: Env, db: seq<Log>, size: nat -> nat, oneSize: nat -> nat, s: State, id: int)
    requires Serves(env, db, size) && Serves(one, db, oneSize) && Live(s)
    requires id in s.pending && OnCourse(db, id, s.rooms[id])
    ensures var shared, alone := Chain(env, s), Chain(one, Alone(s, id));
      && shared.Finished? && alone.Finished? && id in shared.rooms && id in alone.rooms
      && (id !in shared.left ==> Recovered(db, id, shared.rooms[id]))
      && (id !in alone.left ==> Recovered(db, id, alone.rooms[id]))
      && (id !in shared.left && id !in alone.left ==> shared.rooms[id].events == alone.rooms[id].events)
  {
    ChainRecovers(env, db, size, s, {id});
    ChainRecovers(one, db, oneSize, Alone(s, id), {id});
    var shared, alone := Chain(env, s), Chain(one, Alone(s, id));
    if id !in shared.left && id !in alone.left { SameEvents(db, id, shared.rooms[id], alone.rooms[id]); }
  }

  /** Both retire every room when rooms and logs outstanding are below the cap. */
  lemma BothRetire(env: Env, one: Env, db: seq<Log>, size: nat -> nat, oneSize: nat -> nat, s: State, id: int)
    requires Serves(env, db, size) && Serves(one, db, oneSize)
    requires Live(s) && s.pages == 0 && Outstanding(db, s) < MAX_PAGES && id in s.pending
    ensures Chain(env, s).Finished? && Chain(env, s).left == []
    ensures Chain(one, Alone(s, id)).Finished? && Chain(one, Alone(s, id)).left == []
  {
    AloneIsLess(db, s, id);
    PagingRefinesPerRoomReads(env, db, size, s, {});
    PagingRefinesPerRoomReads(one, db, oneSize, Alone(s, id), {});
  }

  lemma SameEvents(db: seq<Log>, id: int, a: Room, b: Room)
    requires Recovered(db, id, a) && Recovered(db, id, b) && SameRequest(a, b)
    ensures a.events == b.events
  {
  }

  /** A recovered room that projects writes no gap and leaves none recorded
      through its ceiling; its events are the server's logs of its interval. */
  lemma RecoveredRoomLeavesNoGap(v: CP.View, db: seq<Log>, id: int, room: Room, x: int)
    requires Recovered(db, id, room) && x <= room.ceiling
    ensures var final := FinalOf(room, true, HasGapThrough(v, id, room.ceiling));
      && final.skip.None? && final.rest.None? && final.events == AtMost(RunOf(db, id, room.gapStart - 1), room.ceiling)
      && !InGap(Apply(v, Writes(id, room, final)), id, x)
  {
    var op := CP.ResolveGap(id, room.ceiling);
    assert [op][..0] == [] && GapsThrough(v.gaps, []) == v.gaps;
    assert GapsThrough(v.gaps, [op]) == CP.GapsAfter(op, v.gaps);
  }
}
