/** Beginning, giving up, timing out and closing on one carriage, each stated on
    the session's fields, and what they decide over whole runs
    (internal/client/session.go). */
module LocoTimers {
  import opened Basics
  import opened LocoSession
  import opened LocoOutcomes

  // ---- Single steps ----

  /** The request waits under its identity, on a new and empty channel. */
  ghost predicate IsBegun(s: State, t: State, id: int, command: string) {
    && t == s.(nextID := t.nextID, pending := t.pending, issued := t.issued, mail := t.mail, made := t.made)
    && t.pending.Keys == s.pending.Keys + {id} && t.pending[id] == Pending(command, s.made) && t.made > s.made
    && (forall other :: other in s.pending && other != id ==> t.pending[other] == s.pending[other])
    && t.issued.Keys == s.issued.Keys + {s.made} && t.issued[s.made] == (id, command)
    && (forall k :: k in s.issued && k != s.made ==> t.issued[k] == s.issued[k])
    && t.mail.Keys == s.mail.Keys + {s.made} && t.mail[s.made] == []
    && (forall k :: k in s.mail && k != s.made ==> t.mail[k] == s.mail[k])
  }

  lemma BeginIs(s: State, step: Step)
    requires step.Allocate? || step.Choose?
    ensures IsBegun(s, Next(s, step), step.id, step.command)
  {
  }

  /** The caller's own request, and no other's under the same identity, leaves. */
  ghost predicate IsRemoved(s: State, t: State, id: int, ticket: nat) {
    if id in s.pending && s.pending[id].ticket == ticket then
      && t == s.(pending := t.pending, dropped := s.dropped + {ticket}) && t.pending.Keys == s.pending.Keys - {id}
      && forall other :: other in t.pending ==> t.pending[other] == s.pending[other]
    else t == s
  }

  lemma RemoveIs(s: State, id: int, ticket: nat)
    ensures IsRemoved(s, Next(s, Remove(id, ticket)), id, ticket)
  {
  }

  /** A timer is armed for a request that still waits on an open session. */
  ghost predicate IsArmed(s: State, t: State, id: int, command: string, ticket: nat) {
    if s.timed && !s.closed && !s.closing && id in s.pending && s.pending[id].ticket == ticket then
      && t == s.(timers := t.timers, made := t.made) && t.made > s.made
      && t.timers.Keys == s.timers.Keys + {id} && t.timers[id] == Timer(command, s.made)
      && forall other :: other in s.timers && other != id ==> t.timers[other] == s.timers[other]
    else t == s
  }

  lemma ArmIs(s: State, id: int, command: string, ticket: nat)
    ensures IsArmed(s, Next(s, Arm(id, command, ticket)), id, command, ticket)
  {
  }

  predicate Fires(s: State, id: int, handle: nat) {
    id in s.timers && s.timers[id].handle == handle && !s.closed && !s.closing
  }

  /** The armed timer of an open session times it out, any other does nothing. */
  ghost predicate IsFired(s: State, t: State, id: int, handle: nat) {
    if Fires(s, id, handle) then
      && t == s.(timers := t.timers, timedOut := true) && t.timers.Keys == s.timers.Keys - {id}
      && forall other :: other in t.timers ==> t.timers[other] == s.timers[other]
    else t == s
  }

  lemma FireIs(s: State, id: int, handle: nat)
    ensures IsFired(s, Next(s, Fire(id, handle)), id, handle)
  {
  }

  /** The first close stops every timer; without a carriage reading is over at
      once. Requests still wait for the end of reading. */
  ghost predicate IsClosed(s: State, t: State) {
    if s.closed || s.closing then t == s
    else
      && t == s.(closing := true, closed := t.closed, timers := t.timers) && t.timers == map[]
      && (t.closed <==> !s.wired)
  }

  lemma CloseIs(s: State)
    ensures IsClosed(s, Next(s, Close))
  {
  }

  /** An identity just taken, by the search or by a caller past the search, is the
      last the search would hand out again: only when all others are reserved. */
  lemma ReuseComesLast(s: State, step: Step, t: State, other: int)
    requires Enabled(s, step) && (step.Allocate? || (step.Choose? && InRange(step.id) && step.id >= s.nextID))
    requires t.nextID == Next(s, step).nextID && FirstFree(t, step.id)
    requires InRange(other) && other != step.id
    ensures Reserved(t, other)
  {
    if step.Allocate? { FirstFreeInRange(s, step.id); }
    var start := StartAt(t.nextID);
    var k: nat :| k < RANGE && step.id == Slot(start, k) && forall j: nat :: j < k ==> Reserved(t, Slot(start, j));
    SlotOf(start, other);
    var j: nat := if other >= start then other - start else other - start + RANGE;
    assert k == RANGE - 1 && j < k;
    assert Reserved(t, Slot(start, j));
  }

  lemma FirstFreeInRange(s: State, id: int)
    requires FirstFree(s, id)
    ensures InRange(id)
  {
  }

  // ---- Over runs ----

  /** A timer fired on the open session at the run's i-th step. */
  ghost predicate FiredAt(start: State, steps: seq<Step>, i: nat)
    requires i < |steps|
  {
    steps[i].Fire? && Fires(After(start, steps[..i]), steps[i].id, steps[i].handle)
  }

  ghost predicate SomeFired(start: State, steps: seq<Step>) { exists i :: 0 <= i < |steps| && FiredAt(start, steps, i) }

  lemma FiredStep(start: State, front: seq<Step>, last: Step)
    ensures SomeFired(start, front + [last]) <==>
      SomeFired(start, front) || (last.Fire? && Fires(After(start, front), last.id, last.handle))
  {
    var steps, n := front + [last], |front|;
    Snoc(front, last);
    assert FiredAt(start, steps, n) <==> last.Fire? && Fires(After(start, front), last.id, last.handle);
    forall i | 0 <= i < n ensures FiredAt(start, steps, i) <==> FiredAt(start, front, i) {
      assert front[..i] == steps[..i];
    }
    if i :| 0 <= i < n && FiredAt(start, front, i) { assert FiredAt(start, steps, i); }
  }

  lemma TimeoutStep(s: State, step: Step)
    requires Enabled(s, step)
    ensures Next(s, step).timedOut <==> s.timedOut || (step.Fire? && Fires(s, step.id, step.handle))
  {
    match step
    case Receive(id, command) => ReceiveIs(s, id, command);
    case FinishRead => FinishIs(s);
    case _ =>
  }

  /** Over every interleaving: the session counts as timed out if and only if an
      armed timer fired while it was open, and only then do the requests that
      still wait end with a timeout. */
  lemma {:induction false} TimedOutIff(wired: bool, timed: bool, nextID: int, steps: seq<Step>)
    requires Runs(Initial(wired, timed, nextID), steps)
    ensures var start := Initial(wired, timed, nextID);
      After(start, steps).timedOut <==> SomeFired(start, steps)
  {
    if steps != [] {
      var start, front, last := Initial(wired, timed, nextID), steps[..|steps| - 1], steps[|steps| - 1];
      RunsFront(start, steps);
      TimedOutIff(wired, timed, nextID, front);
      TimeoutStep(After(start, front), last);
      FiredStep(start, front, last);
      assert steps == front + [last];
    }
  }

  lemma {:induction false} DroppedStays(start: State, steps: seq<Step>, k: nat, i: nat)
    requires Runs(start, steps) && i <= |steps| && k in After(start, steps[..i]).dropped
    ensures k in After(start, steps).dropped
    decreases |steps|
  {
    if i < |steps| {
      var front := steps[..|steps| - 1];
      RunsFront(start, steps);
      assert front[..i] == steps[..i];
      DroppedStays(start, front, k, i);
      DroppedStep(After(start, front), steps[|steps| - 1], k);
    } else {
      assert steps[..i] == steps;
    }
  }

  lemma DroppedStep(s: State, step: Step, k: nat)
    requires k in s.dropped && Enabled(s, step)
    ensures k in Next(s, step).dropped
  {
    match step
    case Receive(id, command) => ReceiveIs(s, id, command);
    case FinishRead => FinishIs(s);
    case _ =>
  }

  /** A caller that gave up gets nothing, whatever arrives later under its
      identity. */
  lemma GivenUpGetsNothing(wired: bool, timed: bool, nextID: int, steps: seq<Step>, i: nat, id: int, o: Outcome)
    requires Runs(Initial(wired, timed, nextID), steps) && i < |steps|
    requires id in After(Initial(wired, timed, nextID), steps[..i]).pending
    requires steps[i] == Remove(id, After(Initial(wired, timed, nextID), steps[..i]).pending[id].ticket)
    ensures var start := Initial(wired, timed, nextID);
      !Has(After(start, steps), After(start, steps[..i]).pending[id].ticket, o)
  {
    var start := Initial(wired, timed, nextID);
    var s := After(start, steps[..i]);
    var k := s.pending[id].ticket;
    Prefix(steps, i);
    Snoc(steps[..i], steps[i]);
    assert After(start, steps[..i + 1]) == Next(s, steps[i]);
    RemoveIs(s, id, k);
    DroppedStays(start, steps, k, i + 1);
    RunsKeepInv(start, steps);
    if k in After(start, steps).mail { assert Answered(After(start, steps), k); }
  }
}
