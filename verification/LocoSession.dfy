/** Request correlation on one carriage (internal/client/session.go): pending
    requests by packet identity, receive-header timers, and the end of reading.
    Each mutex section is one step. */
module LocoSession {
  import opened Basics

  const REQUEST_ID_MIN := 100_000_000
  const REQUEST_ID_MAX := 200_000_000
  const RANGE := REQUEST_ID_MAX - REQUEST_ID_MIN

  /** ticket stands for the request's own result channel. */
  datatype Pending = Pending(command: string, ticket: nat)
  datatype Timer = Timer(command: string, handle: nat)

  /** What a result channel receives. */
  datatype Outcome = Reply(id: int, command: string) | Ended(timedOut: bool)

  /** wired: the session has a carriage; timed: it arms receive-header timers.
      issued, dropped and made are history: each ticket's packet identity and
      method, the tickets whose caller gave up, and the tickets and handles
      handed out. mail holds everything sent on each result channel. */
  datatype State = State(
    wired: bool, timed: bool, nextID: int, closed: bool, closing: bool, timedOut: bool,
    pending: map<int, Pending>, timers: map<int, Timer>,
    issued: map<nat, (int, string)>, mail: map<nat, seq<Outcome>>, dropped: set<nat>, made: nat)

  function Initial(wired: bool, timed: bool, nextID: int): State {
    State(wired, timed, nextID, false, false, false, map[], map[], map[], map[], {}, 0)
  }

  predicate Reserved(s: State, id: int) { id in s.pending || id in s.timers }

  predicate Accepting(s: State) { !s.closed && !s.closing && s.wired }

  // ---- Packet identities ----

  predicate InRange(id: int) { REQUEST_ID_MIN <= id < REQUEST_ID_MAX }

  /** The k-th identity at or after start, around the range. */
  function Slot(start: int, k: nat): (id: int)
    requires InRange(start) && k <= RANGE
    ensures InRange(id)
  {
    if start + k < REQUEST_ID_MAX then start + k else start + k - RANGE
  }

  function StartAt(nextID: int): (start: int)
    ensures InRange(start)
  {
    if InRange(nextID) then nextID else REQUEST_ID_MIN
  }

  /** The free identity the search finds: everything between the search's start
      and it, around the range, is reserved. */
  ghost predicate FirstFree(s: State, id: int) {
    exists k: nat :: k < RANGE && id == Slot(StartAt(s.nextID), k) && !Reserved(s, id) &&
      forall j: nat :: j < k ==> Reserved(s, Slot(StartAt(s.nextID), j))
  }

  ghost predicate RangeFull(s: State) { forall id :: InRange(id) ==> Reserved(s, id) }

  function Successor(id: int): int { if id + 1 >= REQUEST_ID_MAX then REQUEST_ID_MIN else id + 1 }

  /** An identity the caller chose moves the search past it, in 32 bits. */
  function Past(nextID: int, id: int): int {
    if id < nextID then nextID
    else
      var next := (id + 1) % 0x1_0000_0000;
      if next >= REQUEST_ID_MAX then REQUEST_ID_MIN else next
  }

  // ---- The steps ----

  function Begun(s: State, id: int, command: string): State {
    s.(pending := s.pending[id := Pending(command, s.made)], issued := s.issued[s.made := (id, command)],
       mail := s.mail[s.made := []], made := s.made + 1)
  }

  /** A request that failed to write, or whose caller gave up waiting. */
  function Removed(s: State, id: int, ticket: nat): State {
    if id in s.pending && s.pending[id].ticket == ticket then
      s.(pending := s.pending - {id}, dropped := s.dropped + {ticket})
    else
      s
  }

  function Armed(s: State, id: int, command: string, ticket: nat): State {
    if !s.timed || s.closed || s.closing || id !in s.pending || s.pending[id].ticket != ticket then s
    else s.(timers := s.timers[id := Timer(command, s.made)], made := s.made + 1)
  }

  function Sent(s: State, ticket: nat, outcome: Outcome): State {
    if ticket in s.mail then s.(mail := s.mail[ticket := s.mail[ticket] + [outcome]]) else s
  }

  /** A reply disarms the timer of its identity and method, whoever waits. */
  function Disarmed(s: State, id: int, command: string): State {
    if id in s.timers && s.timers[id].command == command then s.(timers := s.timers - {id}) else s
  }

  function Resolved(s: State, id: int, command: string): State {
    if id in s.pending && s.pending[id].command == command
    then Sent(s.(pending := s.pending - {id}), s.pending[id].ticket, Reply(id, command))
    else s
  }

  function Received(s: State, id: int, command: string): State { Resolved(Disarmed(s, id, command), id, command) }

  /** The timer's first section; its close is a step of its own. */
  function Fired(s: State, id: int, handle: nat): State {
    if id !in s.timers || s.timers[id].handle != handle || s.closed || s.closing then s
    else s.(timers := s.timers - {id}, timedOut := true)
  }

  /** A write that failed after some bytes: framing is ambiguous. */
  function Torn(s: State): State { s.(closing := true) }

  function Closing(s: State): State {
    if s.closed || s.closing then s else s.(closing := true, timers := map[], closed := !s.wired)
  }

  function Tickets(pending: map<int, Pending>): set<nat> { set id | id in pending :: pending[id].ticket }

  function ReadFinished(s: State): State {
    if s.closed then s
    else s.(closed := true, timers := map[], pending := map[], mail := map t | t in s.mail ::
              if t in Tickets(s.pending) then s.mail[t] + [Ended(s.timedOut)] else s.mail[t])
  }

  datatype Step =
    | Allocate(id: int, command: string) | AllocateFails | Choose(id: int, command: string) | ChooseRefused(id: int)
    | Remove(id: int, ticket: nat) | Arm(id: int, command: string, ticket: nat) | Receive(id: int, command: string)
    | Fire(id: int, handle: nat) | Tear | Close | FinishRead

  ghost predicate Enabled(s: State, step: Step) {
    match step
    case Allocate(id, _) => Accepting(s) && FirstFree(s, id)
    case AllocateFails => Accepting(s) && RangeFull(s)
    case Choose(id, _) => Accepting(s) && 0 < id < 0x1_0000_0000 && id !in s.pending
    case ChooseRefused(id) => Accepting(s) && 0 < id < 0x1_0000_0000 && id in s.pending
    case _ => true
  }

  function Next(s: State, step: Step): State {
    match step
    case Allocate(id, command) => Begun(s.(nextID := Successor(id)), id, command)
    case AllocateFails => s.(nextID := StartAt(s.nextID))
    case Choose(id, command) => Begun(s.(nextID := Past(s.nextID, id)), id, command)
    case ChooseRefused(id) => s.(nextID := Past(s.nextID, id))
    case Remove(id, ticket) => Removed(s, id, ticket)
    case Arm(id, command, ticket) => Armed(s, id, command, ticket)
    case Receive(id, command) => Received(s, id, command)
    case Fire(id, handle) => Fired(s, id, handle)
    case Tear => Torn(s)
    case Close => Closing(s)
    case FinishRead => ReadFinished(s)
  }

  // ---- What a packet and the end of reading do ----

  predicate Expected(s: State, id: int, command: string) { id in s.pending && s.pending[id].command == command }

  /** Everything else is as it was. */
  predicate OnlyRequests(s: State, t: State) { t == s.(pending := t.pending, mail := t.mail, timers := t.timers) }

  /** The channel receives the outcome, and no other channel anything. */
  predicate Delivers(before: map<nat, seq<Outcome>>, after: map<nat, seq<Outcome>>, ticket: nat, outcome: Outcome) {
    && after.Keys == before.Keys && (ticket in before ==> after[ticket] == before[ticket] + [outcome])
    && forall k :: k in before && k != ticket ==> after[k] == before[k]
  }

  /** A packet of the identity and method: the request pending under both leaves,
      its channel receives exactly the reply, and a timer armed for both is gone. */
  predicate IsAnswered(s: State, t: State, id: int, command: string) {
    && OnlyRequests(s, t)
    && t.timers == (if id in s.timers && s.timers[id].command == command then s.timers - {id} else s.timers)
    && if Expected(s, id, command) then
         t.pending == s.pending - {id} && Delivers(s.mail, t.mail, s.pending[id].ticket, Reply(id, command))
       else t.pending == s.pending && t.mail == s.mail
  }

  ghost predicate StillWaits(s: State, k: nat) { exists id :: id in s.pending && s.pending[id].ticket == k }

  /** The end of reading: every channel still waiting receives the end, nothing is
      pending or armed, and a second end changes nothing. */
  ghost predicate IsEnded(s: State, t: State) {
    if s.closed then t == s
    else
      && OnlyRequests(s.(closed := true), t) && t.pending == map[] && t.timers == map[] && t.mail.Keys == s.mail.Keys
      && (forall k :: k in s.mail && StillWaits(s, k) ==> t.mail[k] == s.mail[k] + [Ended(s.timedOut)])
      && (forall k :: k in s.mail && !StillWaits(s, k) ==> t.mail[k] == s.mail[k])
  }

  lemma ReceiveIs(s: State, id: int, command: string)
    ensures IsAnswered(s, Received(s, id, command), id, command)
  {
    var u := Disarmed(s, id, command);
    ResolveIs(u, id, command);
    AnsweredOnce(s, u, Resolved(u, id, command), id, command);
  }

  lemma AnsweredOnce(s: State, u: State, t: State, id: int, command: string)
    requires u == s.(timers := u.timers)
    requires u.timers == (if id in s.timers && s.timers[id].command == command then s.timers - {id} else s.timers)
    requires if Expected(u, id, command) then
        t == u.(pending := u.pending - {id}, mail := t.mail) &&
        Delivers(u.mail, t.mail, u.pending[id].ticket, Reply(id, command))
      else t == u
    ensures IsAnswered(s, t, id, command)
  {
  }

  lemma ResolveIs(s: State, id: int, command: string)
    ensures var t := Resolved(s, id, command);
      if Expected(s, id, command) then
        t == s.(pending := s.pending - {id}, mail := t.mail) &&
        Delivers(s.mail, t.mail, s.pending[id].ticket, Reply(id, command))
      else t == s
  {
    if Expected(s, id, command) {
      SendIs(s.(pending := s.pending - {id}), s.pending[id].ticket, Reply(id, command));
    }
  }

  lemma SendIs(s: State, ticket: nat, outcome: Outcome)
    ensures var t := Sent(s, ticket, outcome); t == s.(mail := t.mail) && Delivers(s.mail, t.mail, ticket, outcome)
  {
  }

  lemma FinishIs(s: State)
    ensures IsEnded(s, ReadFinished(s))
  {
    forall k ensures k in Tickets(s.pending) <==> StillWaits(s, k) {}
  }

  // ---- What every run keeps ----

  /** Each request's channel has received nothing while it is pending and at most
      one outcome ever; a reply carries the request's own identity and method;
      an end came with the end of reading. */
  ghost predicate Correlated(s: State) {
    && s.mail.Keys == s.issued.Keys && (forall t :: t in s.issued ==> t < s.made) && s.dropped <= s.issued.Keys
    && (forall id :: id in s.pending ==> Waiting(s, id))
    && (forall t :: t in s.mail ==> Answered(s, t))
  }

  ghost predicate Waiting(s: State, id: int)
    requires id in s.pending
  {
    var p := s.pending[id];
    p.ticket in s.mail && p.ticket in s.issued && s.issued[p.ticket] == (id, p.command) && s.mail[p.ticket] == [] &&
      p.ticket !in s.dropped
  }

  ghost predicate Answered(s: State, t: nat)
    requires t in s.mail
  {
    && |s.mail[t]| <= 1
    && (s.mail[t] != [] ==>
          match s.mail[t][0]
          case Reply(id, command) => t in s.issued && s.issued[t] == (id, command)
          case Ended(_) => s.closed)
    && (s.mail[t] == [] ==> t in s.dropped || t in Tickets(s.pending))
    && (t in s.dropped ==> s.mail[t] == [])
  }

  /** Once reading has finished, and on a session without a carriage, nothing is
      pending and no timer is armed. */
  ghost predicate Quiet(s: State) { s.closed || !s.wired ==> s.pending == map[] && s.timers == map[] }

  ghost predicate Inv(s: State) { Correlated(s) && Quiet(s) }

  lemma BeginKeeps(s: State, id: int, command: string)
    requires Inv(s) && Accepting(s) && id !in s.pending
    ensures Inv(Begun(s, id, command))
  {
    var t := Begun(s, id, command);
    forall i | i in t.pending ensures Waiting(t, i) {
      assert i != id ==> Waiting(s, i);
    }
    forall k | k in t.mail ensures Answered(t, k) {
      if k in s.mail {
        assert Answered(s, k);
        KeepsTickets(s.pending, t.pending, k);
      } else {
        assert t.pending[id].ticket == k;
      }
    }
  }

  /** A ticket stays waiting while its own entry stays. */
  lemma KeepsTickets(before: map<int, Pending>, after: map<int, Pending>, t: nat)
    requires forall id :: id in before && before[id].ticket == t ==> id in after && after[id] == before[id]
    ensures t in Tickets(before) ==> t in Tickets(after)
  {
    if t in Tickets(before) {
      var id :| id in before && before[id].ticket == t;
      assert after[id].ticket == t;
    }
  }

  lemma RemoveKeeps(s: State, id: int, ticket: nat)
    requires Inv(s)
    ensures Inv(Removed(s, id, ticket))
  {
    var t := Removed(s, id, ticket);
    if id in s.pending && s.pending[id].ticket == ticket {
      assert Waiting(s, id);
      forall i | i in t.pending ensures Waiting(t, i) {
        assert Waiting(s, i);
      }
      forall k | k in t.mail ensures Answered(t, k) {
        assert Answered(s, k);
        if k != ticket { KeepsTickets(s.pending, t.pending, k); }
      }
    }
  }

  lemma ResolveKeeps(s: State, id: int, command: string)
    requires Inv(s)
    ensures Inv(Resolved(s, id, command))
  {
    if id in s.pending && s.pending[id].command == command {
      assert Waiting(s, id);
      var t, ticket := Resolved(s, id, command), s.pending[id].ticket;
      forall i | i in t.pending ensures Waiting(t, i) {
        assert Waiting(s, i);
      }
      forall k | k in t.mail ensures Answered(t, k) {
        assert Answered(s, k);
        if k == ticket {
          assert t.mail[k] == [Reply(id, command)];
        } else {
          KeepsTickets(s.pending, t.pending, k);
        }
      }
    }
  }

  lemma FinishKeeps(s: State)
    requires Inv(s)
    ensures Inv(ReadFinished(s))
  {
    var t := ReadFinished(s);
    forall k | k in t.mail ensures Answered(t, k) {
      assert Answered(s, k);
      if k in Tickets(s.pending) {
        var id :| id in s.pending && s.pending[id].ticket == k;
        assert Waiting(s, id);
      }
    }
  }

  lemma FrameKeeps(s: State, t: State)
    requires Correlated(s) && (s.closed ==> t.closed) && s.made <= t.made
    requires t.pending == s.pending && t.mail == s.mail && t.issued == s.issued && t.dropped == s.dropped
    ensures Correlated(t)
  {
    forall i | i in t.pending ensures Waiting(t, i) { assert Waiting(s, i); }
    forall k | k in t.mail ensures Answered(t, k) { assert Answered(s, k); }
  }

  lemma StepKeepsInv(s: State, step: Step)
    requires Inv(s) && Enabled(s, step)
    ensures Inv(Next(s, step))
  {
    match step
    case Allocate(id, command) =>
      FrameKeeps(s, s.(nextID := Successor(id)));
      BeginKeeps(s.(nextID := Successor(id)), id, command);
    case Choose(id, command) =>
      FrameKeeps(s, s.(nextID := Past(s.nextID, id)));
      BeginKeeps(s.(nextID := Past(s.nextID, id)), id, command);
    case Remove(id, ticket) => RemoveKeeps(s, id, ticket);
    case Receive(id, command) =>
      FrameKeeps(s, Disarmed(s, id, command));
      ResolveKeeps(Disarmed(s, id, command), id, command);
    case FinishRead => FinishKeeps(s);
    case _ => FrameKeeps(s, Next(s, step));
  }

  function After(s: State, steps: seq<Step>): State {
    if steps == [] then s else Next(After(s, steps[..|steps| - 1]), steps[|steps| - 1])
  }

  ghost predicate Runs(s: State, steps: seq<Step>) {
    forall i {:trigger steps[i]} :: 0 <= i < |steps| ==> Enabled(After(s, steps[..i]), steps[i])
  }

  lemma {:induction false} RunsKeepInv(s: State, steps: seq<Step>)
    requires Inv(s) && Runs(s, steps)
    ensures Inv(After(s, steps))
  {
    if steps != [] {
      var front, last := steps[..|steps| - 1], steps[|steps| - 1];
      RunsFront(s, steps);
      RunsKeepInv(s, front);
      StepKeepsInv(After(s, front), last);
    }
  }

  /** Over every interleaving: a channel receives at most one outcome, a reply
      only to its own identity and method, an end only after reading finished;
      and then every request has its outcome unless its caller gave up, nothing
      is pending, no timer is armed. */
  lemma EachRequestResolvesOnce(wired: bool, timed: bool, nextID: int, steps: seq<Step>)
    requires Runs(Initial(wired, timed, nextID), steps)
    ensures var s := After(Initial(wired, timed, nextID), steps);
      && (forall t :: t in s.mail ==> |s.mail[t]| <= 1)
      && (forall t :: t in s.mail && s.mail[t] != [] && s.mail[t][0].Reply? ==>
          t in s.issued && s.issued[t] == (s.mail[t][0].id, s.mail[t][0].command))
      && (forall t :: t in s.mail && s.mail[t] != [] && s.mail[t][0].Ended? ==> s.closed)
      && (s.closed ==> s.pending == map[] && s.timers == map[] && forall t :: t in s.issued ==>
          (t in s.mail && |s.mail[t]| == 1) || t in s.dropped)
  {
    var s := After(Initial(wired, timed, nextID), steps);
    RunsKeepInv(Initial(wired, timed, nextID), steps);
    forall t | t in s.mail ensures Answered(s, t) {}
    assert s.closed ==> Tickets(s.pending) == {};
  }

  // ---- Timers of a closing session ----

  predicate Among(a: map<int, Timer>, b: map<int, Timer>) { forall id :: id in a ==> id in b && a[id] == b[id] }

  /** A closing session arms nothing, and a timer that fires changes nothing. */
  lemma ClosingArmsNothing(s: State, step: Step)
    requires s.closing && Enabled(s, step)
    ensures Next(s, step).closing && Among(Next(s, step).timers, s.timers)
    ensures step.Fire? ==> Next(s, step) == s
  {
    if step.Receive? { ReplyCalms(s, step.id, step.command); }
  }

  lemma ReplyCalms(s: State, id: int, command: string)
    ensures Among(Received(s, id, command).timers, s.timers) && Received(s, id, command).closing == s.closing
  {
    DisarmCalms(s, id, command);
    ResolveCalms(Disarmed(s, id, command), id, command);
  }

  lemma DisarmCalms(s: State, id: int, command: string)
    ensures Among(Disarmed(s, id, command).timers, s.timers) && Disarmed(s, id, command).closing == s.closing
  {
    MinusAmong(s.timers, {id});
  }

  lemma MinusAmong(timers: map<int, Timer>, ids: set<int>)
    ensures Among(timers - ids, timers)
  {
  }

  lemma ResolveCalms(s: State, id: int, command: string)
    ensures Resolved(s, id, command).timers == s.timers && Resolved(s, id, command).closing == s.closing
  {
  }

  /** Only a torn write starts closing with timers still armed. */
  lemma StartsClosing(s: State, step: Step)
    requires !s.closing && Enabled(s, step) && Next(s, step).closing && step != Tear
    ensures Next(s, step).timers == map[]
  {
    if step != Close { OthersStayOpen(s, step); }
  }

  lemma OthersStayOpen(s: State, step: Step)
    requires step != Tear && step != Close
    ensures Next(s, step).closing == s.closing
  {
    if step.Receive? { ReplyCalms(s, step.id, step.command); }
  }

  /** Over every interleaving: a closing session has an armed timer only after a
      write that failed with some bytes out, which closes without stopping it. */
  lemma {:induction false} ArmedWhileClosing(wired: bool, timed: bool, nextID: int, steps: seq<Step>)
    requires Runs(Initial(wired, timed, nextID), steps)
    requires After(Initial(wired, timed, nextID), steps).closing
    ensures Tear in steps || After(Initial(wired, timed, nextID), steps).timers == map[]
  {
    var start := Initial(wired, timed, nextID);
    if steps != [] {
      var front, last := steps[..|steps| - 1], steps[|steps| - 1];
      RunsFront(start, steps);
      if last != Tear { ClosesByTear(After(start, front), last); }
      assert Next(After(start, front), last) == After(start, steps);
      assert last in steps && forall step :: step in front ==> step in steps;
      if After(start, front).closing { ArmedWhileClosing(wired, timed, nextID, front); }
    }
  }

  lemma ClosesByTear(s: State, step: Step)
    requires Enabled(s, step) && Next(s, step).closing && step != Tear
    ensures Next(s, step).timers == map[] || (s.closing && s.timers != map[])
  {
    if s.closing {
      ClosingArmsNothing(s, step);
      if s.timers == map[] { assert forall id :: id !in Next(s, step).timers; }
    } else {
      StartsClosing(s, step);
    }
  }

  lemma RunsFront(s: State, steps: seq<Step>)
    requires steps != [] && Runs(s, steps)
    ensures Runs(s, steps[..|steps| - 1]) && Enabled(After(s, steps[..|steps| - 1]), steps[|steps| - 1])
  {
    var front := steps[..|steps| - 1];
    forall i {:trigger front[i]} | 0 <= i < |front| ensures Enabled(After(s, front[..i]), front[i]) {
      assert front[..i] == steps[..i] && front[i] == steps[i];
    }
  }

  /** It does happen: a request's timer outlives the torn write after it. */
  lemma TearLeavesATimer()
    ensures var steps := [Choose(5, "MSG"), Arm(5, "MSG", 0), Tear];
      var s := After(Initial(true, true, 1), steps);
      Runs(Initial(true, true, 1), steps) && s.closing && !s.closed && 5 in s.timers
  {
    var start, steps := Initial(true, true, 1), [Choose(5, "MSG"), Arm(5, "MSG", 0), Tear];
    assert steps[..2][..1] == steps[..1] && steps[..1][..0] == [];
    assert After(start, steps[..1]) == Next(start, steps[0]);
    assert After(start, steps[..2]) == Next(After(start, steps[..1]), steps[1]);
  }

  // ---- The session object ----

  datatype Begin = Started(id: int, ticket: nat) | NotOpen | Protocol

  lemma {:induction false} SlotOf(start: int, id: int)
    requires InRange(start) && InRange(id)
    ensures var k := if id >= start then id - start else id - start + RANGE; 0 <= k < RANGE && Slot(start, k) == id
  {
  }

  lemma FullWhenAllReserved(s: State, start: int)
    requires InRange(start) && forall j: nat :: j < RANGE ==> Reserved(s, Slot(start, j))
    ensures RangeFull(s)
  {
    forall id | InRange(id) ensures Reserved(s, id) {
      SlotOf(start, id);
      var k: nat := if id >= start then id - start else id - start + RANGE;
      assert Reserved(s, Slot(start, k));
    }
  }

  lemma {:induction false} SearchEnds(s: State, k: nat)
    requires k <= RANGE && forall j: nat :: j < k ==> Reserved(s, Slot(StartAt(s.nextID), j))
    ensures RangeFull(s) || exists id :: FirstFree(s, id)
    decreases RANGE - k
  {
    if k == RANGE {
      FullWhenAllReserved(s, StartAt(s.nextID));
    } else if Reserved(s, Slot(StartAt(s.nextID), k)) {
      SearchEnds(s, k + 1);
    } else {
      assert FirstFree(s, Slot(StartAt(s.nextID), k));
    }
  }

  /** Allocation fails exactly when every identity of the range is pending or
      armed; otherwise there is one answer, and it is neither. */
  lemma AllocationFailsIffFull(s: State)
    ensures RangeFull(s) <==> forall id :: !FirstFree(s, id)
    ensures forall id, other :: FirstFree(s, id) && FirstFree(s, other) ==> id == other
    ensures forall id :: FirstFree(s, id) ==> InRange(id) && id !in s.pending && id !in s.timers
  {
    SearchEnds(s, 0);
  }

  class Session {
    const wired: bool
    const timed: bool
    var nextID: int
    var closed: bool
    var closing: bool
    var timedOut: bool
    var pending: map<int, Pending>
    var timers: map<int, Timer>
    var mail: map<nat, seq<Outcome>>
    var made: nat
    ghost var issued: map<nat, (int, string)>
    ghost var dropped: set<nat>

    ghost function View(): State
      reads this
    {
      State(wired, timed, nextID, closed, closing, timedOut, pending, timers, issued, mail, dropped, made)
    }

    constructor (wired: bool, timed: bool, nextID: int)
      ensures View() == Initial(wired, timed, nextID)
    {
      this.wired, this.timed, this.nextID := wired, timed, nextID;
      closed, closing, timedOut, made := false, false, false, 0;
      pending, timers, mail, issued, dropped := map[], map[], map[], map[], {};
    }

    /** The first free identity from nextID on, around the range; it fails only
        when the whole range is reserved. */
    method AllocateRequestID() returns (r: Option<int>)
      modifies this`nextID
      ensures r.Some? ==> FirstFree(old(View()), r.value) && nextID == Successor(r.value)
      ensures r.None? ==> RangeFull(old(View())) && nextID == StartAt(old(nextID))
    {
      ghost var before := View();
      if nextID < REQUEST_ID_MIN || nextID >= REQUEST_ID_MAX {
        nextID := REQUEST_ID_MIN;
      }
      var start := nextID;
      ghost var k: nat := 0;
      while true
        invariant k < RANGE && start == StartAt(before.nextID) && nextID == Slot(start, k)
        invariant forall j: nat :: j < k ==> Reserved(before, Slot(start, j))
        decreases RANGE - k
      {
        var id := nextID;
        nextID := nextID + 1;
        if nextID >= REQUEST_ID_MAX {
          nextID := REQUEST_ID_MIN;
        }
        if id !in pending && id !in timers {
          assert id == Slot(start, k) && !Reserved(before, id);
          return Some(id);
        }
        assert Reserved(before, Slot(start, k));
        if nextID == start {
          FullWhenAllReserved(before, start);
          return None;
        }
        k := k + 1;
      }
    }

    /** The first section of requestRaw. */
    method BeginRequest(id: int, command: string) returns (r: Begin)
      requires 0 <= id < 0x1_0000_0000
      modifies this
      ensures r.NotOpen? ==> command != "" && !Accepting(old(View())) && View() == old(View())
      ensures r.Started? ==> var step := if id == 0 then Allocate(r.id, command) else Choose(r.id, command);
        Enabled(old(View()), step) && View() == Next(old(View()), step) && r.ticket == old(made) &&
          (id != 0 ==> r.id == id)
      ensures r.Protocol? ==> if command == "" then View() == old(View()) else
        var step := if id == 0 then AllocateFails else ChooseRefused(id);
          Enabled(old(View()), step) && View() == Next(old(View()), step)
    {
      if command == "" { return Protocol; }
      if closed || closing || !wired { return NotOpen; }
      var chosen := id;
      if id == 0 {
        var found := AllocateRequestID();
        if found.None? { return Protocol; }
        chosen := found.value;
      } else if id >= nextID {
        nextID := (id + 1) % 0x1_0000_0000;
        if nextID >= REQUEST_ID_MAX {
          nextID := REQUEST_ID_MIN;
        }
      }
      if chosen in pending { return Protocol; }
      r := Started(chosen, made);
      pending := pending[chosen := Pending(command, made)];
      issued, mail := issued[made := (chosen, command)], mail[made := []];
      made := made + 1;
    }

    method RemovePending(id: int, ticket: nat)
      modifies this
      ensures View() == Removed(old(View()), id, ticket)
    {
      if id in pending && pending[id].ticket == ticket {
        pending := pending - {id};
        dropped := dropped + {ticket};
      }
    }

    method ArmHeaderTimeout(id: int, command: string, ticket: nat)
      modifies this
      ensures View() == Armed(old(View()), id, command, ticket)
    {
      if !timed || closed || closing || id !in pending || pending[id].ticket != ticket { return; }
      timers := timers[id := Timer(command, made)];
      made := made + 1;
    }

    method FireHeaderTimeout(id: int, handle: nat)
      modifies this
      ensures var s := old(View()); View() == if Fired(s, id, handle) == s then s else Closing(Fired(s, id, handle))
    {
      if id !in timers || timers[id].handle != handle || closed || closing { return; }
      timers := timers - {id};
      timedOut := true;
      CloseSession();
    }

    method StopHeaderTimers()
      modifies this`timers
      ensures timers == map[]
    {
      while timers != map[]
        decreases timers.Keys
      {
        var id := PickOne(timers.Keys);
        timers := timers - {id};
      }
    }

    method DisarmHeaderTimeout(id: int, command: string)
      modifies this`timers
      ensures View() == Disarmed(old(View()), id, command)
    {
      if id in timers && timers[id].command == command {
        timers := timers - {id};
      }
    }

    method DispatchPacket(id: int, command: string) returns (taken: bool)
      modifies this
      ensures View() == Received(old(View()), id, command)
      ensures IsAnswered(old(View()), View(), id, command)
      ensures taken <==> id in old(pending) && old(pending)[id].command == command
    {
      ReceiveIs(View(), id, command);
      DisarmHeaderTimeout(id, command);
      taken := id in pending && pending[id].command == command;
      if taken {
        var ticket := pending[id].ticket;
        pending := pending - {id};
        Send(ticket, Reply(id, command));
      }
    }

    method Send(ticket: nat, outcome: Outcome)
      modifies this`mail
      ensures View() == Sent(old(View()), ticket, outcome)
    {
      if ticket in mail {
        mail := mail[ticket := mail[ticket] + [outcome]];
      }
    }

    method CloseSession()
      modifies this
      ensures View() == Closing(old(View()))
    {
      if closed || closing { return; }
      closing := true;
      StopHeaderTimers();
      if !wired {
        closed := true;
      }
    }

    /** Every pending request receives the end of the session. */
    method FinishRead()
      requires Correlated(View())
      modifies this
      ensures View() == ReadFinished(old(View())) && IsEnded(old(View()), View())
    {
      FinishIs(View());
      if closed { return; }
      ghost var before := View();
      closed := true;
      var waiting := pending;
      pending := map[];
      StopHeaderTimers();
      TellAll(waiting, before);
    }

    method TellAll(waiting: map<int, Pending>, ghost before: State)
      requires Correlated(before) && waiting == before.pending && mail == before.mail && timedOut == before.timedOut
      modifies this`mail
      ensures mail == Told(before, Tickets(waiting))
    {
      var todo := waiting.Keys;
      while todo != {}
        invariant todo <= waiting.Keys && mail == Told(before, TicketsBut(waiting, todo))
        decreases todo
      {
        var id := PickOne(todo);
        OneMore(before, waiting, todo, id);
        Send(waiting[id].ticket, Ended(timedOut));
        todo := todo - {id};
      }
      assert TicketsBut(waiting, todo) == Tickets(waiting);
    }
  }

  function TicketsBut(pending: map<int, Pending>, todo: set<int>): set<nat> {
    set id | id in pending && id !in todo :: pending[id].ticket
  }

  /** The channels once these tickets have received the end. */
  ghost function Told(s: State, told: set<nat>): map<nat, seq<Outcome>> {
    map t | t in s.mail :: if t in told then s.mail[t] + [Ended(s.timedOut)] else s.mail[t]
  }

  lemma OneMore(s: State, waiting: map<int, Pending>, todo: set<int>, id: int)
    requires Correlated(s) && waiting == s.pending && id in todo && todo <= waiting.Keys
    ensures var ticket, told := waiting[id].ticket, Told(s, TicketsBut(waiting, todo));
      ticket in told && Told(s, TicketsBut(waiting, todo - {id})) == told[ticket := told[ticket] + [Ended(s.timedOut)]]
  {
    assert Waiting(s, id);
    var ticket := waiting[id].ticket;
    forall i | i in waiting && i != id ensures waiting[i].ticket != ticket {
      assert Waiting(s, i);
    }
    assert ticket !in TicketsBut(waiting, todo);
    assert TicketsBut(waiting, todo - {id}) == TicketsBut(waiting, todo) + {ticket};
  }
}
