/** Account-wide request pacing (internal/client/history_admission.go and
    history_account.go): several processes share one durable record under an
    exclusive lease, and any of them may crash at any point. */
module Pacing {
  import opened Basics

  /** Normalised operator policy: the minimum interval is at most the backoff. */
  datatype Policy = Policy(minimumInterval: nat, errorBackoff: nat)

  datatype Record = Record(nextAllowed: int, lastFinished: Option<int>, lastError: Option<int>)

  /** One profile's admission: its process, its policy, its copy of the record. */
  datatype Admission = Admission(process: int, policy: Policy, state: Record)

  predicate Durable(w: Write) { !w.Lost? }
  predicate Succeeded(w: Write) { w.Written? }

  /** One physical dispatch: the start it reserved, its end once it has one, and
      what the durable record says of it. */
  datatype Mark = Unrecorded | Success | Failure
  datatype Dispatch = Dispatch(policy: Policy, start: int, end: Option<int>, mark: Mark)

  /** poisoned: processes whose durable write failed; dispatches is history. */
  datatype State = State(now: int, record: Option<Record>, lease: Option<int>, admissions: map<int, Admission>,
                         poisoned: set<int>, dispatches: seq<Dispatch>)

  function Initial(now: int, record: Option<Record>): State { State(now, record, None, map[], {}, []) }

  /** The instant a request may start. */
  function Allowed(r: Record, p: Policy): int {
    var finished := if r.lastFinished.Some? then Max(r.nextAllowed, r.lastFinished.value + p.minimumInterval)
                    else r.nextAllowed;
    if r.lastError.Some? then Max(finished, r.lastError.value + p.errorBackoff) else finished
  }

  predicate Running(s: State) { s.dispatches != [] && s.dispatches[|s.dispatches| - 1].end.None? }

  // ---- The steps ----

  datatype Step =
    | Tick(to: int)
    | Join(id: int, admission: Admission)
    | Leave(id: int)
    | Acquire(id: int, floor: int, write: Write)
    | Start(id: int, write: Write)
    | Finish(id: int, ok: bool, write: Write)
    | Release(id: int, closed: bool)
    | Crash(process: int)

  predicate Holds(s: State, id: int) { s.lease == Some(id) && id in s.admissions }

  predicate Enabled(s: State, step: Step) {
    match step
    case Tick(to) => to >= s.now
    case Join(id, admission) => id !in s.admissions
    case Leave(id) => id in s.admissions && s.lease != Some(id)
    case Acquire(id, _, _) => id in s.admissions && s.lease.None? && s.admissions[id].process !in s.poisoned
    case Start(id, _) =>
      Holds(s, id) && !Running(s) && s.admissions[id].process !in s.poisoned &&
        s.now >= Allowed(s.admissions[id].state, s.admissions[id].policy)
    case Finish(id, _, _) => Holds(s, id) && Running(s)
    case Release(id, _) => Holds(s, id) && !Running(s)
    case Crash(_) => true
  }

  function WithState(s: State, id: int, r: Record): State
    requires id in s.admissions
  {
    s.(admissions := s.admissions[id := s.admissions[id].(state := r)])
  }

  /** persist: the copy changes first; a failed write poisons the process. */
  function Persist(s: State, id: int, r: Record, write: Write): State
    requires id in s.admissions
  {
    var t := WithState(s, id, r);
    t.(record := if Durable(write) then Some(r) else s.record,
       poisoned := if Succeeded(write) then s.poisoned else s.poisoned + {s.admissions[id].process})
  }

  /** The copy a lease holder works from: the durable record when there is one,
      raised to the cooldowns older records still hold. */
  function Reloaded(s: State, id: int, floor: int): Record
    requires id in s.admissions
  {
    var r := if s.record.Some? then s.record.value else s.admissions[id].state;
    r.(nextAllowed := Max(r.nextAllowed, floor))
  }

  function Acquired(s: State, id: int, floor: int, write: Write): State
    requires id in s.admissions
  {
    var r := Reloaded(s, id, floor);
    if r.nextAllowed > s.now && (s.record.None? || r.nextAllowed > s.record.value.nextAllowed)
    then Persist(s, id, r, write).(lease := if Succeeded(write) then Some(id) else None)
    else WithState(s, id, r).(lease := Some(id))
  }

  function Reservation(s: State, id: int): Record
    requires id in s.admissions
  {
    var a := s.admissions[id];
    a.state.(nextAllowed := s.now + a.policy.errorBackoff, lastError := Some(s.now))
  }

  function Started(s: State, id: int, write: Write): State
    requires id in s.admissions
  {
    var t := Persist(s, id, Reservation(s, id), write);
    if Succeeded(write) then
      t.(dispatches := s.dispatches + [Dispatch(s.admissions[id].policy, s.now, None, Unrecorded)])
    else
      t
  }

  function Outcome(s: State, id: int, ok: bool): Record
    requires id in s.admissions
  {
    var a := s.admissions[id];
    if ok then Record(s.now + a.policy.minimumInterval, Some(s.now), None)
    else a.state.(nextAllowed := s.now + a.policy.errorBackoff, lastError := Some(s.now))
  }

  function Ended(ds: seq<Dispatch>, now: int, mark: Mark): seq<Dispatch>
    requires ds != []
  {
    ds[|ds| - 1 := ds[|ds| - 1].(end := Some(now), mark := mark)]
  }

  function Finished(s: State, id: int, ok: bool, write: Write): State
    requires id in s.admissions && Running(s)
  {
    var t := Persist(s, id, Outcome(s, id, ok), write);
    t.(dispatches :=
       Ended(s.dispatches, s.now, if !Durable(write) then Unrecorded else if ok then Success else Failure))
  }

  /** The process loses its admissions, its lease and its dispatch. */
  function Crashed(s: State, process: int): State {
    var t := s.(admissions := map id | id in s.admissions && s.admissions[id].process != process :: s.admissions[id],
                poisoned := s.poisoned - {process});
    if s.lease.Some? && s.lease.value !in t.admissions
    then t.(lease := None, dispatches := if Running(s) then Ended(s.dispatches, s.now, Unrecorded) else s.dispatches)
    else t
  }

  /** The last admission of a process takes the process's gate along, and with
      it the failure that poisoned it. */
  function Left(s: State, id: int): State
    requires id in s.admissions
  {
    var process := s.admissions[id].process;
    var rest := s.admissions - {id};
    s.(admissions := rest,
       poisoned := if exists other :: other in rest && rest[other].process == process then s.poisoned
                   else s.poisoned - {process})
  }

  function Next(s: State, step: Step): State
    requires Enabled(s, step)
  {
    match step
    case Tick(to) => s.(now := to)
    case Join(id, admission) => s.(admissions := s.admissions[id := admission])
    case Leave(id) => Left(s, id)
    case Acquire(id, floor, write) => Acquired(s, id, floor, write)
    case Start(id, write) => Started(s, id, write)
    case Finish(id, ok, write) => Finished(s, id, ok, write)
    case Release(id, closed) =>
      s.(lease := None, poisoned := if closed then s.poisoned else s.poisoned + {s.admissions[id].process})
    case Crash(process) => Crashed(s, process)
  }

  // ---- What every run keeps ----

  /** What the record still demands of the next start after a dispatch. */
  predicate Guards(r: Record, d: Dispatch) {
    match d.mark
    case Unrecorded =>
      r.nextAllowed >= d.start + d.policy.errorBackoff && r.lastError.Some? && r.lastError.value >= d.start
    case Success =>
      d.end.Some? && r.nextAllowed >= d.end.value + d.policy.minimumInterval && r.lastFinished.Some? &&
        r.lastFinished.value >= d.end.value
    case Failure =>
      d.end.Some? && r.nextAllowed >= d.end.value + d.policy.errorBackoff && r.lastError.Some? &&
        r.lastError.value >= d.end.value
  }

  /** The later dispatch starts after the earlier one ended, and no sooner than
      both policies allow: an interval after a recorded success, a backoff after a
      recorded failure, and a backoff from the reserved start when a crash or a
      failed write left the end unrecorded. */
  predicate Spaced(d: Dispatch, next: Dispatch) {
    && d.end.Some? && d.end.value <= next.start
    && match d.mark
       case Success => next.start >= d.end.value + Max(d.policy.minimumInterval, next.policy.minimumInterval)
       case Failure => next.start >= d.end.value + Max(d.policy.errorBackoff, next.policy.errorBackoff)
       case Unrecorded => next.start >= d.start + Max(d.policy.errorBackoff, next.policy.errorBackoff)
  }

  predicate AllSpaced(ds: seq<Dispatch>) {
    |ds| <= 1 || (Spaced(ds[|ds| - 2], ds[|ds| - 1]) && AllSpaced(ds[..|ds| - 1]))
  }

  predicate Past(d: Dispatch, now: int) { d.start <= now && (d.end.Some? ==> d.start <= d.end.value <= now) }

  ghost predicate LastGuarded(s: State, d: Dispatch)
    requires s.lease.Some? ==> s.lease.value in s.admissions
  {
    && Past(d, s.now) && s.record.Some? && Guards(s.record.value, d)
    && (s.lease.Some? && s.admissions[s.lease.value].process !in s.poisoned ==>
        Guards(s.admissions[s.lease.value].state, d))
    && (d.end.None? ==> s.lease.Some? && d.mark.Unrecorded? && s.admissions[s.lease.value].policy == d.policy)
  }

  ghost predicate Inv(s: State) {
    && AllSpaced(s.dispatches) && (s.lease.Some? ==> s.lease.value in s.admissions)
    && (s.dispatches != [] ==> LastGuarded(s, s.dispatches[|s.dispatches| - 1]))
  }

  lemma GuardsSpace(r: Record, d: Dispatch, p: Policy, now: int)
    requires Guards(r, d) && d.end.Some? && Past(d, now) && now >= Allowed(r, p)
    ensures Spaced(d, Dispatch(p, now, None, Unrecorded))
  {
  }

  /** A process with a lease holder keeps its gate. */
  lemma LeaveKeeps(s: State, id: int)
    requires Inv(s) && Enabled(s, Leave(id))
    ensures Inv(Left(s, id))
  {
    var t := Left(s, id);
    if s.lease.Some? {
      var holder := s.lease.value;
      assert holder in t.admissions && t.admissions[holder] == s.admissions[holder];
    }
    assert s.dispatches != [] ==> LastGuarded(t, t.dispatches[|t.dispatches| - 1]);
  }

  lemma AcquireKeeps(s: State, id: int, floor: int, write: Write)
    requires Inv(s) && Enabled(s, Acquire(id, floor, write))
    ensures Inv(Acquired(s, id, floor, write))
  {
    if s.dispatches != [] {
      var d := s.dispatches[|s.dispatches| - 1];
      assert Guards(Reloaded(s, id, floor), d);
    }
  }

  lemma AppendSpaced(ds: seq<Dispatch>, d: Dispatch)
    requires AllSpaced(ds) && (ds != [] ==> Spaced(ds[|ds| - 1], d))
    ensures AllSpaced(ds + [d])
  {
    Snoc(ds, d);
  }

  lemma StartSpaced(s: State, id: int)
    requires Inv(s) && Enabled(s, Start(id, Written))
    ensures AllSpaced(s.dispatches + [Dispatch(s.admissions[id].policy, s.now, None, Unrecorded)])
  {
    var a := s.admissions[id];
    if s.dispatches != [] {
      GuardsSpace(a.state, s.dispatches[|s.dispatches| - 1], a.policy, s.now);
    }
    AppendSpaced(s.dispatches, Dispatch(a.policy, s.now, None, Unrecorded));
  }

  /** The reservation guards the dispatch it precedes, and the one before. */
  lemma ReservationGuards(s: State, id: int, d: Dispatch)
    requires id in s.admissions && Past(d, s.now) && d.end.Some? && Guards(s.admissions[id].state, d)
    requires s.now >= Allowed(s.admissions[id].state, s.admissions[id].policy)
    ensures Guards(Reservation(s, id), d)
  {
  }

  lemma StartKeeps(s: State, id: int, write: Write)
    requires Inv(s) && Enabled(s, Start(id, write))
    ensures Inv(Started(s, id, write))
  {
    if Succeeded(write) {
      StartSpaced(s, id);
      Snoc(s.dispatches, Dispatch(s.admissions[id].policy, s.now, None, Unrecorded));
    } else if s.dispatches != [] {
      ReservationGuards(s, id, s.dispatches[|s.dispatches| - 1]);
    }
  }

  lemma EndKeepsSpacing(ds: seq<Dispatch>, now: int, mark: Mark)
    requires ds != [] && AllSpaced(ds)
    ensures AllSpaced(Ended(ds, now, mark))
  {
    var after := Ended(ds, now, mark);
    assert after[..|ds| - 1] == ds[..|ds| - 1];
  }

  lemma FinishKeeps(s: State, id: int, ok: bool, write: Write)
    requires Inv(s) && Enabled(s, Finish(id, ok, write))
    ensures Inv(Finished(s, id, ok, write))
  {
    EndKeepsSpacing(s.dispatches, s.now, if !Durable(write) then Unrecorded else if ok then Success else Failure);
  }

  lemma CrashKeeps(s: State, process: int)
    requires Inv(s)
    ensures Inv(Crashed(s, process))
  {
    if Running(s) { EndKeepsSpacing(s.dispatches, s.now, Unrecorded); }
  }

  lemma StepKeepsInv(s: State, step: Step)
    requires Inv(s) && Enabled(s, step)
    ensures Inv(Next(s, step))
  {
    match step
    case Leave(id) => LeaveKeeps(s, id);
    case Acquire(id, floor, write) => AcquireKeeps(s, id, floor, write);
    case Start(id, write) => StartKeeps(s, id, write);
    case Finish(id, ok, write) => FinishKeeps(s, id, ok, write);
    case Crash(process) => CrashKeeps(s, process);
    case _ =>
  }

  datatype Run = Run(states: seq<State>, steps: seq<Step>)

  ghost predicate IsRun(r: Run) {
    && |r.states| == |r.steps| + 1 && (exists now, record :: r.states[0] == Initial(now, record))
    && forall i {:trigger r.steps[i]} :: 0 <= i < |r.steps| ==>
       Enabled(r.states[i], r.steps[i]) && r.states[i + 1] == Next(r.states[i], r.steps[i])
  }

  lemma {:induction false} RunsKeepInv(r: Run, n: nat)
    requires IsRun(r) && n <= |r.steps|
    ensures Inv(r.states[n])
    decreases n
  {
    if n > 0 {
      RunsKeepInv(r, n - 1);
      StepKeepsInv(r.states[n - 1], r.steps[n - 1]);
    }
  }

  lemma {:induction false} AllSpacedMeans(ds: seq<Dispatch>, i: nat)
    requires AllSpaced(ds) && i + 1 < |ds|
    ensures Spaced(ds[i], ds[i + 1])
  {
    if i + 2 < |ds| { AllSpacedMeans(ds[..|ds| - 1], i); }
  }

  /** Over every run with crashes, failed writes and several processes: each
      dispatch starts after the previous one ended, spaced as the record
      demands. */
  lemma DispatchesAreSpaced(r: Run, n: nat, i: nat)
    requires IsRun(r) && n <= |r.steps| && i + 1 < |r.states[n].dispatches|
    ensures Spaced(r.states[n].dispatches[i], r.states[n].dispatches[i + 1])
  {
    RunsKeepInv(r, n);
    AllSpacedMeans(r.states[n].dispatches, i);
  }

  // ---- The dispatch, on the shared account ----

  lemma RunStep(r: Run, step: Step, t: State)
    requires IsRun(r) && Enabled(r.states[|r.steps|], step) && t == Next(r.states[|r.steps|], step)
    ensures IsRun(Run(r.states + [t], r.steps + [step]))
  {
    var after := Run(r.states + [t], r.steps + [step]);
    assert after.states[0] == r.states[0];
    forall i {:trigger after.steps[i]} | 0 <= i < |after.steps|
      ensures Enabled(after.states[i], after.steps[i]) && after.states[i + 1] == Next(after.states[i], after.steps[i])
    {
      if i < |r.steps| { assert after.steps[i] == r.steps[i]; }
    }
  }

  /** What a dispatch meets, by the number of the call: how long each wait or
      exchange takes, what each write does, and how the request ends. */
  datatype World = World(elapsed: nat -> nat, write: nat -> Write, fetch: nat -> bool, cancelled: nat -> bool,
                         close: nat -> bool)

  datatype Result = Done | Refused | Cancelled | FetchFailed | WriteFailed

  class Account {
    const world: World
    var now: int
    var record: Option<Record>
    var lease: Option<int>
    var admissions: map<int, Admission>
    var poisoned: set<int>
    var calls: nat
    ghost var dispatches: seq<Dispatch>
    ghost var trace: Run

    ghost function View(): State
      reads this
    {
      State(now, record, lease, admissions, poisoned, dispatches)
    }

    /** The account is where a run of the machine leads. */
    ghost predicate Valid()
      reads this
    {
      IsRun(trace) && trace.states[|trace.steps|] == View()
    }

    constructor (world: World, now: int, record: Option<Record>)
      ensures Valid() && View() == Initial(now, record)
    {
      this.world, this.now, this.record := world, now, record;
      lease, admissions, poisoned, calls := None, map[], {}, 0;
      dispatches, trace := [], Run([Initial(now, record)], []);
    }

    ghost method Took(before: State, step: Step)
      requires IsRun(trace) && trace.states[|trace.steps|] == before
      requires Enabled(before, step) && View() == Next(before, step)
      modifies this`trace
      ensures Valid()
    {
      RunStep(trace, step, View());
      trace := Run(trace.states + [View()], trace.steps + [step]);
    }

    method Elapse()
      requires Valid()
      modifies this`now, this`calls, this`trace
      ensures Valid() && now == old(now) + world.elapsed(old(calls)) && calls == old(calls) + 1
    {
      ghost var before := View();
      now := now + world.elapsed(calls);
      calls := calls + 1;
      Took(before, Tick(now));
    }

    method PersistState(id: int, next: Record) returns (ok: bool, ghost write: Write)
      requires id in admissions
      modifies this`admissions, this`record, this`poisoned, this`calls
      ensures View() == Persist(old(View()), id, next, write) && ok == Succeeded(write)
      ensures write == world.write(old(calls)) && calls == old(calls) + 1
    {
      admissions := admissions[id := admissions[id].(state := next)];
      var outcome := world.write(calls);
      calls := calls + 1;
      write, ok := outcome, outcome.Written?;
      if !outcome.Lost? {
        record := Some(next);
      }
      if !ok {
        poisoned := poisoned + {admissions[id].process};
      }
    }

    /** An older cooldown still runs that the durable record does not hold. */
    ghost predicate Imports(id: int, floor: int)
      requires id in admissions
      reads this
    {
      var from := if record.Some? then record.value else admissions[id].state;
      Max(from.nextAllowed, floor) > now && (record.None? || record.value.nextAllowed < floor)
    }

    /** The account's lease is had: no write of the process failed before, and a
        cooldown to be imported is written. */
    ghost predicate Grants(id: int, floor: int)
      requires id in admissions
      reads this
    {
      admissions[id].process !in poisoned && (Imports(id, floor) ==> world.write(calls).Written?)
    }

    /** The number of the call that waits, once the lease is had. */
    ghost function WaitCall(id: int, floor: int): nat
      requires id in admissions
      reads this
    {
      calls + if Imports(id, floor) then 1 else 0
    }

    /** When the wait ends. */
    ghost function Waited(id: int, floor: int): int
      requires id in admissions
      reads this
    {
      now + world.elapsed(WaitCall(id, floor))
    }

    /** The instant the durable record and the older cooldowns allow. */
    ghost function AllowedAt(id: int, floor: int): int
      requires id in admissions
      reads this
    {
      var from := if record.Some? then record.value else admissions[id].state;
      Allowed(from.(nextAllowed := Max(from.nextAllowed, floor)), admissions[id].policy)
    }

    /** The wait was cancelled, or ended before the record allows a request. */
    ghost predicate Waits(id: int, floor: int)
      requires id in admissions
      reads this
    {
      world.cancelled(WaitCall(id, floor) + 1) || Waited(id, floor) < AllowedAt(id, floor)
    }

    /** Reload the durable record under the lease and import older cooldowns. */
    method AcquireAccount(id: int, floor: int) returns (ok: bool)
      requires Valid() && id in admissions && lease.None?
      modifies this
      ensures Valid() && now == old(now) && admissions.Keys == old(admissions.Keys) && dispatches == old(dispatches)
      ensures ok ==>
        lease == Some(id) && admissions[id].process !in poisoned && admissions[id].policy == old(admissions)[id].policy
      ensures !ok ==> lease.None?
      ensures ok <==> old(Grants(id, floor))
      ensures ok ==> calls == old(WaitCall(id, floor))
      ensures ok ==> Allowed(admissions[id].state, admissions[id].policy) == old(AllowedAt(id, floor))
    {
      if admissions[id].process in poisoned { return false; }
      ghost var before := View();
      var r := if record.Some? then record.value else admissions[id].state;
      r := r.(nextAllowed := Max(r.nextAllowed, floor));
      ok := true;
      ghost var write := Written;
      if r.nextAllowed > now && (record.None? || r.nextAllowed > record.value.nextAllowed) {
        ok, write := PersistState(id, r);
      } else {
        admissions := admissions[id := admissions[id].(state := r)];
      }
      if ok {
        lease := Some(id);
      }
      Took(before, Acquire(id, floor, write));
    }

    method ReleaseAccount(id: int)
      requires Valid() && Holds(View(), id) && !Running(View())
      modifies this`lease, this`poisoned, this`calls, this`trace
      ensures Valid() && lease.None?
    {
      ghost var before := View();
      var closed := world.close(calls);
      calls, lease := calls + 1, None;
      if !closed {
        poisoned := poisoned + {admissions[id].process};
      }
      Took(before, Release(id, closed));
    }

    /** Reserve the longer cooldown before the request goes out. */
    method Reserve(id: int) returns (ok: bool)
      requires Valid() && Enabled(View(), Start(id, Written))
      modifies this
      ensures Valid() && Holds(View(), id) && Running(View()) == ok
      ensures ok == world.write(old(calls)).Written? && calls == old(calls) + 1
      ensures dispatches == if ok then
        old(dispatches) + [Dispatch(old(admissions)[id].policy, old(now), None, Unrecorded)] else old(dispatches)
    {
      ghost var before := View();
      var a := admissions[id];
      ghost var write;
      ok, write := PersistState(id, a.state.(nextAllowed := now + a.policy.errorBackoff, lastError := Some(now)));
      if ok {
        dispatches := dispatches + [Dispatch(a.policy, now, None, Unrecorded)];
      }
      Took(before, Start(id, write));
    }

    method Conclude(id: int, good: bool) returns (ok: bool)
      requires Valid() && Enabled(View(), Finish(id, good, Written))
      modifies this
      ensures Valid() && Holds(View(), id) && !Running(View()) && ok == world.write(old(calls)).Written?
      ensures exists mark ::
        dispatches == Ended(old(dispatches), now, mark) && (ok ==> mark == if good then Success else Failure) &&
          (!good ==> mark != Success)
    {
      ghost var before := View();
      var a := admissions[id];
      var next := if good then Record(now + a.policy.minimumInterval, Some(now), None)
        else a.state.(nextAllowed := now + a.policy.errorBackoff, lastError := Some(now));
      ghost var write;
      ok, write := PersistState(id, next);
      dispatches := Ended(dispatches, now, if !Durable(write) then Unrecorded else if good then Success else Failure);
      Took(before, Finish(id, good, write));
    }

    /** One admitted request: at most one physical dispatch, the lease given back,
        and the account still where a run of the machine leads. */
    method DispatchHistory(id: int, floor: int) returns (r: Result)
      requires Valid() && id in admissions && lease.None?
      modifies this
      ensures Valid() && lease.None? && !Running(View())
      ensures if r.Refused? || r.Cancelled? then dispatches == old(dispatches)
              else |old(dispatches)| <= |dispatches| <= |old(dispatches)| + 1
      ensures r.Done? ==> |dispatches| == |old(dispatches)| + 1 && dispatches[|dispatches| - 1].mark == Success
      ensures r.FetchFailed? ==> |dispatches| == |old(dispatches)| + 1 && dispatches[|dispatches| - 1].mark != Success
      ensures r.Refused? <==> !old(Grants(id, floor))
      ensures r.Cancelled? <==> old(Grants(id, floor) && Waits(id, floor))
      ensures |dispatches| == |old(dispatches)| + 1 <==>
        old(Grants(id, floor) && !Waits(id, floor) && world.write(WaitCall(id, floor) + 1).Written?)
      ensures |dispatches| > |old(dispatches)| ==>
        dispatches[|old(dispatches)|].start == old(Waited(id, floor)) >= old(AllowedAt(id, floor))
      ensures |dispatches| > |old(dispatches)| ==>
        (r.FetchFailed? <==> !world.fetch(old(WaitCall(id, floor)) + 3)) &&
          (r.Done? <==> world.fetch(old(WaitCall(id, floor)) + 3) && world.write(old(WaitCall(id, floor)) + 3).Written?)
    {
      NotRunningUnleased(trace);
      var got := AcquireAccount(id, floor);
      if !got { return Refused; }
      var allowed := Allowed(admissions[id].state, admissions[id].policy);
      Elapse();
      if world.cancelled(calls) || now < allowed {
        r := Cancelled;
      } else {
        r := DispatchOnce(id);
      }
      ReleaseAccount(id);
    }

    /** Reserve, fetch and record, under the lease. */
    method DispatchOnce(id: int) returns (r: Result)
      requires Valid() && Enabled(View(), Start(id, Written))
      modifies this
      ensures Valid() && Holds(View(), id) && !Running(View()) && !r.Refused? && !r.Cancelled?
      ensures |old(dispatches)| <= |dispatches| <= |old(dispatches)| + 1
      ensures r.Done? ==> |dispatches| == |old(dispatches)| + 1 && dispatches[|dispatches| - 1].mark == Success
      ensures r.FetchFailed? ==> |dispatches| == |old(dispatches)| + 1 && dispatches[|dispatches| - 1].mark != Success
      ensures |dispatches| == |old(dispatches)| + 1 <==> world.write(old(calls)).Written?
      ensures |dispatches| > |old(dispatches)| ==> dispatches[|old(dispatches)|].start == old(now)
      ensures |dispatches| > |old(dispatches)| ==>
        (r.FetchFailed? <==> !world.fetch(old(calls) + 2)) &&
          (r.Done? <==> world.fetch(old(calls) + 2) && world.write(old(calls) + 2).Written?)
    {
      var ok := Reserve(id);
      if !ok { return WriteFailed; }
      Elapse();
      var good := world.fetch(calls);
      ok := Conclude(id, good);
      r := if !good then FetchFailed else if ok then Done else WriteFailed;
    }
  }

  lemma NotRunningUnleased(r: Run)
    requires IsRun(r)
    ensures var s := r.states[|r.steps|]; s.lease.None? ==> !Running(s)
  {
    RunsKeepInv(r, |r.steps|);
  }
}

/** Pending demand on one account: each admission's count and the shared one
    (internal/client/history_account.go). */
module HistoryDemand {
  import opened Basics

  ghost function Sum(m: map<int, nat>): nat
    decreases m.Keys
  {
    if m == map[] then 0
    else
      var k := Any(m.Keys);
      m[k] + Sum(m - {k})
  }

  lemma {:induction false} SumSplit(m: map<int, nat>, k: int)
    requires k in m
    ensures Sum(m) == m[k] + Sum(m - {k})
    decreases m.Keys
  {
    var j := Any(m.Keys);
    if j != k {
      SumSplit(m - {j}, k);
      SumSplit(m - {k}, j);
      assert m - {j} - {k} == m - {k} - {j};
    }
  }

  lemma SumPut(m: map<int, nat>, k: int, n: nat)
    ensures Sum(m[k := n]) == Sum(m) + n - (if k in m then m[k] else 0)
  {
    SumSplit(m[k := n], k);
    assert m[k := n] - {k} == m - {k};
    if k in m { SumSplit(m, k); } else { assert m - {k} == m; }
  }

  lemma SumAtLeast(m: map<int, nat>, k: int)
    requires k in m
    ensures m[k] <= Sum(m)
  {
    SumSplit(m, k);
  }

  datatype Reserve = Reserved | Closed | Busy

  /** One account's gate in one process; every admission on it has the same
      policy. */
  class AccountGate {
    const maxPending: nat
    var sharedPending: nat
    var pending: map<int, nat>
    var stopped: set<int>

    /** The shared count is the sum over admissions, within the limit. */
    ghost predicate Valid()
      reads this
    {
      sharedPending == Sum(pending) <= maxPending && stopped <= pending.Keys
    }

    constructor (maxPending: nat)
      ensures Valid() && pending == map[] && this.maxPending == maxPending
    {
      this.maxPending, sharedPending, pending, stopped := maxPending, 0, map[], {};
    }

    method Open(id: int)
      requires Valid() && id !in pending
      modifies this
      ensures Valid() && pending == old(pending)[id := 0] && stopped == old(stopped)
    {
      SumPut(pending, id, 0);
      pending := pending[id := 0];
    }

    /** A demand is refused as busy exactly when the whole account is at its
        limit. */
    method ReserveDemand(id: int) returns (r: Reserve)
      requires Valid() && id in pending
      modifies this
      ensures Valid() && stopped == old(stopped)
      ensures r == if id in stopped then Closed else if old(Sum(pending)) == maxPending then Busy else Reserved
      ensures pending == if r.Reserved? then old(pending)[id := old(pending)[id] + 1] else old(pending)
    {
      SumAtLeast(pending, id);
      if id in stopped { return Closed; }
      if pending[id] >= maxPending { return Busy; }
      if sharedPending >= maxPending { return Busy; }
      SumPut(pending, id, pending[id] + 1);
      sharedPending := sharedPending + 1;
      pending := pending[id := pending[id] + 1];
      r := Reserved;
    }

    method FinishDemand(id: int) returns (idle: bool)
      requires Valid() && id in pending && pending[id] > 0
      modifies this
      ensures Valid() && stopped == old(stopped) && pending == old(pending)[id := old(pending)[id] - 1]
      ensures idle <==> id in stopped && pending[id] == 0
    {
      SumAtLeast(pending, id);
      SumPut(pending, id, pending[id] - 1);
      sharedPending := sharedPending - 1;
      pending := pending[id := pending[id] - 1];
      idle := id in stopped && pending[id] == 0;
    }

    method Stop(id: int) returns (idle: bool)
      requires Valid() && id in pending
      modifies this
      ensures Valid() && stopped == old(stopped) + {id} && pending == old(pending) && (idle <==> pending[id] == 0)
    {
      stopped := stopped + {id};
      idle := pending[id] == 0;
    }

    /** An idle stopped admission leaves without taking anyone's demand along. */
    method Leave(id: int)
      requires Valid() && id in stopped && pending[id] == 0
      modifies this
      ensures Valid() && pending == old(pending) - {id} && Sum(pending) == old(Sum(pending))
    {
      SumSplit(pending, id);
      pending, stopped := pending - {id}, stopped - {id};
    }
  }
}
