/** What each request of a session ends with, exactly: the reply that came while
    it waited, the end of reading if it still waited then, or nothing
    (internal/client/session.go). */
module LocoOutcomes {
  import opened Basics
  import opened LocoSession

  /** The step puts the outcome on the ticket's channel. */
  ghost predicate Causes(s: State, step: Step, k: nat, o: Outcome) {
    match step
    case Receive(id, command) => Expected(s, id, command) && s.pending[id].ticket == k && o == Reply(id, command)
    case FinishRead => !s.closed && StillWaits(s, k) && o == Ended(s.timedOut)
    case _ => false
  }

  predicate Has(s: State, k: nat, o: Outcome) { k in s.mail && s.mail[k] == [o] }

  lemma ReplyStep(s: State, id: int, command: string, k: nat, o: Outcome)
    requires Inv(s)
    ensures Has(Received(s, id, command), k, o) <==> Has(s, k, o) || Causes(s, Receive(id, command), k, o)
  {
    ReceiveIs(s, id, command);
    if Expected(s, id, command) {
      assert Waiting(s, id);
      assert [] + [Reply(id, command)] == [Reply(id, command)];
    }
  }

  lemma EndStep(s: State, k: nat, o: Outcome)
    requires Inv(s)
    ensures Has(ReadFinished(s), k, o) <==> Has(s, k, o) || Causes(s, FinishRead, k, o)
  {
    FinishIs(s);
    if !s.closed && StillWaits(s, k) {
      var id :| id in s.pending && s.pending[id].ticket == k;
      assert Waiting(s, id);
      assert [] + [Ended(s.timedOut)] == [Ended(s.timedOut)];
    }
  }

  lemma OutcomeStep(s: State, step: Step, k: nat, o: Outcome)
    requires Inv(s) && Enabled(s, step)
    ensures Has(Next(s, step), k, o) <==> Has(s, k, o) || Causes(s, step, k, o)
  {
    match step
    case Allocate(_, _) => assert s.made !in s.issued;
    case Choose(_, _) => assert s.made !in s.issued;
    case Receive(id, command) => ReplyStep(s, id, command, k, o);
    case FinishRead => EndStep(s, k, o);
    case _ =>
  }

  /** The outcome is caused by the run's i-th step. */
  ghost predicate CausedAt(start: State, steps: seq<Step>, i: nat, k: nat, o: Outcome)
    requires i < |steps|
  {
    Causes(After(start, steps[..i]), steps[i], k, o)
  }

  ghost predicate SomeCause(start: State, steps: seq<Step>, k: nat, o: Outcome) {
    exists i :: 0 <= i < |steps| && CausedAt(start, steps, i, k, o)
  }

  lemma CauseStep(start: State, front: seq<Step>, last: Step, k: nat, o: Outcome)
    ensures SomeCause(start, front + [last], k, o) <==>
      SomeCause(start, front, k, o) || Causes(After(start, front), last, k, o)
  {
    var steps, n := front + [last], |front|;
    Snoc(front, last);
    assert CausedAt(start, steps, n, k, o) <==> Causes(After(start, front), last, k, o);
    forall i | 0 <= i < n ensures CausedAt(start, steps, i, k, o) <==> CausedAt(start, front, i, k, o) {
      assert front[..i] == steps[..i];
    }
    if i :| 0 <= i < n && CausedAt(start, front, i, k, o) { assert CausedAt(start, steps, i, k, o); }
  }

  /** Over every interleaving: a request ends with the outcome if and only if some
      step of the run put it there while the request waited: a reply of its own
      identity and method, or the end of reading. */
  lemma {:induction false} OutcomeIff(wired: bool, timed: bool, nextID: int, steps: seq<Step>, k: nat, o: Outcome)
    requires Runs(Initial(wired, timed, nextID), steps)
    ensures var start := Initial(wired, timed, nextID);
      Has(After(start, steps), k, o) <==> SomeCause(start, steps, k, o)
  {
    if steps != [] {
      var start, front, last := Initial(wired, timed, nextID), steps[..|steps| - 1], steps[|steps| - 1];
      RunsFront(start, steps);
      OutcomeIff(wired, timed, nextID, front, k, o);
      LastOutcome(start, front, last, k, o);
      assert steps == front + [last];
    }
  }

  lemma LastOutcome(start: State, front: seq<Step>, last: Step, k: nat, o: Outcome)
    requires Inv(start) && Runs(start, front) && Enabled(After(start, front), last)
    requires Has(After(start, front), k, o) <==> SomeCause(start, front, k, o)
    ensures Has(After(start, front + [last]), k, o) <==> SomeCause(start, front + [last], k, o)
  {
    RunsKeepInv(start, front);
    OutcomeStep(After(start, front), last, k, o);
    CauseStep(start, front, last, k, o);
    Snoc(front, last);
  }

  /** A request whose reply arrives while it waits ends with that reply, alone. */
  lemma ReplyIsTheOutcome(wired: bool, timed: bool, nextID: int, steps: seq<Step>, i: nat, id: int, command: string)
    requires Runs(Initial(wired, timed, nextID), steps) && i < |steps| && steps[i] == Receive(id, command)
    requires Expected(After(Initial(wired, timed, nextID), steps[..i]), id, command)
    ensures var start := Initial(wired, timed, nextID);
      Has(After(start, steps), After(start, steps[..i]).pending[id].ticket, Reply(id, command))
  {
    var start := Initial(wired, timed, nextID);
    var k := After(start, steps[..i]).pending[id].ticket;
    assert CausedAt(start, steps, i, k, Reply(id, command));
    OutcomeIff(wired, timed, nextID, steps, k, Reply(id, command));
  }
}
