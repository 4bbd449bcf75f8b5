/** A run in which one overflow stops a chat for the rest of the session: the
    dropped event's commit stays queued behind the one its read adds
    (internal/bridge/connector/delivery_hold.go, internal/client/sync.go). */
module OverflowBlocks {
  import opened Basics
  import opened HeldCommits

  /** A change of chat 1 without a position; its logs 5 and 6. */
  const CHANGE := DH.Event(Some(1), None, 0)
  const DROPPED := DH.Event(Some(1), Some(5), 0)
  const LATER := DH.Event(Some(1), Some(6), 0)

  function Last(r: Run): Joint
    requires r.states != []
  {
    r.states[|r.states| - 1]
  }

  lemma OneMore(r: Run, delays: nat, step: Step, t: Joint) returns (after: Run)
    requires IsRun(r, delays) && Enabled(Last(r), step) && t == Next(Last(r), step)
    ensures IsRun(after, delays) && Last(after) == t
  {
    after := Run(r.states + [t], r.steps + [step]);
    forall i {:trigger after.steps[i]} | 0 <= i < |after.steps|
      ensures Enabled(after.states[i], after.steps[i]) && after.states[i + 1] == Next(after.states[i], after.steps[i])
    {
      if i < |r.steps| { assert after.steps[i] == r.steps[i]; }
    }
  }

  /** Only chat 1 is held, with n changes in its buffer, and nothing is on its way. */
  predicate Holds(j: Joint, n: nat, missed: nat, retrying: bool) {
    && j.hold.chats.Keys == {1} && j.stream == []
    && j.hold.chats[1].events == seq(n, i => CHANGE) && j.hold.chats[1].missedThrough == missed
    && j.hold.chats[1].retrying == retrying && j.hold.chats[1].due == None
  }

  lemma Grows(n: nat)
    ensures seq(n, i => CHANGE) + [CHANGE] == seq(n + 1, i => CHANGE)
    ensures seq(n + 1, i => CHANGE)[1..] == seq(n, i => CHANGE)
  {
  }

  /** A failed change holds the chat, and others fill its buffer. */
  lemma {:induction false} Filled(delays: nat, n: nat) returns (r: Run)
    requires 1 <= n <= DH.MAX_HELD_EVENTS
    ensures IsRun(r, delays) && Holds(Last(r), n, 0, false) && Last(r).queue == map[]
    decreases n
  {
    if n == 1 {
      r := Run([Initial(delays)], []);
    } else {
      r := Filled(delays, n - 1);
      Grows(n - 1);
    }
    var j := Last(r);
    var arrived := j.(stream := [CHANGE]);
    assert j.stream + [CHANGE] == [CHANGE];
    r := OneMore(r, delays, Arrive(CHANGE), arrived);
    var t := Next(arrived, Take(false, false, 0));
    TakesChange(arrived, if n == 1 then 0 else n - 1, t);
    r := OneMore(r, delays, Take(false, false, 0), t);
  }

  lemma TakesChange(j: Joint, n: nat, t: Joint)
    requires j.stream == [CHANGE] && n < DH.MAX_HELD_EVENTS
    requires if n == 0 then j.hold.chats == map[] else Holds(j.(stream := []), n, 0, false)
    requires Enabled(j, Take(false, false, 0)) && t == Next(j, Take(false, false, 0))
    ensures Holds(t, n + 1, 0, false) && t.queue == j.queue
  {
    Grows(n);
    if n == 0 {
      var started := DH.StartHold(j.hold, 1);
      assert [CHANGE][..0] == [] && DH.AddAll(started, 1, []) == started;
      assert DH.AddAll(started, 1, [CHANGE]) == DH.AddOne(started, 1, CHANGE);
      assert [] + [CHANGE] == seq(1, i => CHANGE);
    }
  }

  /** The full buffer drops log 5, and a resumed retry starts. */
  lemma Overflowed(delays: nat) returns (r: Run)
    ensures IsRun(r, delays) && Holds(Last(r), DH.MAX_HELD_EVENTS, 5, true) && Last(r).queue == map[1 := [5]]
  {
    r := Filled(delays, DH.MAX_HELD_EVENTS);
    var j := Last(r);
    assert j.stream + [DROPPED] == [DROPPED] && [] + [5] == [5];
    var arrived := j.(stream := [DROPPED], queue := map[1 := [5]]);
    r := OneMore(r, delays, Arrive(DROPPED), arrived);
    var t := Next(arrived, Take(false, false, 0));
    assert Holds(t, DH.MAX_HELD_EVENTS, 5, false);
    r := OneMore(r, delays, Take(false, false, 0), t);
    var u := Next(t, Retry(DH.Resume(1)));
    r := OneMore(r, delays, Retry(DH.Resume(1)), u);
  }

  /** The retry handles the changes. */
  lemma {:induction false} Drained(delays: nat, n: nat) returns (r: Run)
    requires n <= DH.MAX_HELD_EVENTS
    ensures IsRun(r, delays) && Holds(Last(r), n, 5, true) && Last(r).queue == map[1 := [5]]
    decreases DH.MAX_HELD_EVENTS - n
  {
    if n == DH.MAX_HELD_EVENTS {
      r := Overflowed(delays);
    } else {
      r := Drained(delays, n + 1);
      Grows(n);
      var step := DH.Handle(1, true, false, 0);
      var t := Next(Last(r), Retry(step));
      r := OneMore(r, delays, Retry(step), t);
    }
  }

  /** The read returns log 5 and queues its commit again; the first of the two
      commits is the one it takes. The chat is released. */
  lemma Released(delays: nat) returns (r: Run)
    ensures IsRun(r, delays) && Last(r).hold.chats == map[] && Last(r).stream == []
    ensures Last(r).queue == map[1 := [5]]
  {
    r := Drained(delays, 0);
    var j := Last(r);
    assert j.hold.chats[1].events == [];
    var read := DH.Read(1, Some([DROPPED]), false, 0);
    assert [DROPPED][1..] == [] && DH.ReadsTo([DROPPED], 1, 5);
    LogsOne(DROPPED);
    assert [5] + [5] == [5, 5];
    var t := Next(j, Retry(read));
    assert t.queue == map[1 := [5, 5]] && t.hold.chats[1].events == [DROPPED];
    r := OneMore(r, delays, Retry(read), t);
    var handle := DH.Handle(1, true, false, 0);
    var u := Next(t, Retry(handle));
    assert u.hold.chats[1].events == [] && u.queue == map[1 := [5, 5][1..]] && [5, 5][1..] == [5];
    r := OneMore(r, delays, Retry(handle), u);
    var v := Next(u, Retry(DH.Release(1)));
    assert v.hold.chats == map[];
    r := OneMore(r, delays, Retry(DH.Release(1)), v);
  }

  lemma Arrived(delays: nat) returns (r: Run)
    ensures IsRun(r, delays) && Last(r).hold.chats == map[] && Last(r).stream == [LATER]
    ensures Last(r).queue == map[1 := [5, 6]]
  {
    r := Released(delays);
    var j := Last(r);
    assert j.stream + [LATER] == [LATER] && [5] + [6] == [5, 6];
    r := OneMore(r, delays, Arrive(LATER), j.(stream := [LATER], queue := map[1 := [5, 6]]));
  }

  /** The event cannot be handled at once, and a hold keeps it first. */
  lemma Refused(j: Joint)
    requires j.hold.chats == map[] && j.stream == [LATER] && j.queue == map[1 := [5, 6]]
    ensures !Enabled(j, Take(true, false, 0)) && Enabled(j, Take(false, false, 0))
    ensures Stuck(Next(j, Take(false, false, 0)), 1, LATER)
  {
    HoldFacts(j.hold, 1, LATER, false, 0, 1);
  }

  /** The dropped event was read and handled, and yet the next event of the chat
      is refused: for good, by RefusedStaysRefused. */
  lemma OverflowBlocksTheChat(delays: nat) returns (r: Run)
    ensures IsRun(r, delays) && Stuck(Last(r), 1, LATER)
  {
    r := Arrived(delays);
    Refused(Last(r));
    var t := Next(Last(r), Take(false, false, 0));
    r := OneMore(r, delays, Take(false, false, 0), t);
  }
}
