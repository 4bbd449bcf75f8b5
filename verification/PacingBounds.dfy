/** When the next dispatch may start, exactly: over every continuation of a
    reachable account, and what a final write that fails does to the spacing its
    dispatch asked for (internal/client/history_admission.go). */
module PacingBounds {
  import opened Basics
  import opened Pacing

  // ---- The record only rises between two dispatches ----

  predicate OptionAtLeast(a: Option<int>, b: Option<int>) { b.Some? ==> a.Some? && a.value >= b.value }

  predicate AtLeast(r: Record, floor: Record) {
    && r.nextAllowed >= floor.nextAllowed
    && OptionAtLeast(r.lastFinished, floor.lastFinished) && OptionAtLeast(r.lastError, floor.lastError)
  }

  /** What a lease holder may start from is the record, or later. */
  ghost predicate CopyInv(s: State) {
    s.record.Some? && s.lease.Some? && s.lease.value in s.admissions ==>
      (s.admissions[s.lease.value].process !in s.poisoned ==>
       AtLeast(s.admissions[s.lease.value].state, s.record.value))
  }

  lemma StepKeepsCopy(s: State, step: Step)
    requires Inv(s) && CopyInv(s) && Enabled(s, step)
    ensures CopyInv(Next(s, step))
  {
    if step.Leave? && s.lease.Some? {
      var holder := s.lease.value;
      assert holder in Left(s, step.id).admissions && s.admissions[holder] == Left(s, step.id).admissions[holder];
    }
  }

  lemma {:induction false} RunsKeepCopy(r: Run, n: nat)
    requires IsRun(r) && n <= |r.steps|
    ensures Inv(r.states[n]) && CopyInv(r.states[n])
    decreases n
  {
    if n > 0 {
      RunsKeepCopy(r, n - 1);
      StepKeepsInv(r.states[n - 1], r.steps[n - 1]);
      StepKeepsCopy(r.states[n - 1], r.steps[n - 1]);
    }
  }

  lemma StepRaisesRecord(s: State, step: Step)
    requires Inv(s) && CopyInv(s) && Enabled(s, step) && s.record.Some? && !Running(s)
    requires Next(s, step).dispatches == s.dispatches
    ensures var t := Next(s, step); t.now >= s.now && t.record.Some? && AtLeast(t.record.value, s.record.value)
  {
  }

  // ---- Continuations ----

  /** A run on from s, by any steps of any processes. */
  ghost predicate Continues(s: State, r: Run) {
    && |r.states| == |r.steps| + 1 && r.states[0] == s
    && forall i {:trigger r.steps[i]} :: 0 <= i < |r.steps| ==>
       Enabled(r.states[i], r.steps[i]) && r.states[i + 1] == Next(r.states[i], r.steps[i])
  }

  /** Its last step is the first dispatch after those of s: one under policy p,
      at the instant at. */
  ghost predicate DispatchesNext(s: State, r: Run, p: Policy, at: int) {
    && Continues(s, r) && r.steps != []
    && (forall i :: 0 <= i < |r.steps| ==> r.states[i].dispatches == s.dispatches)
    && r.states[|r.steps|].dispatches == s.dispatches + [Dispatch(p, at, None, Unrecorded)]
  }

  /** The first dispatch after those of s, if it is under policy p, starts at
      bound or later, whatever happens. */
  ghost predicate Waits(s: State, p: Policy, bound: int) { forall r, at :: DispatchesNext(s, r, p, at) ==> at >= bound }

  lemma {:induction false} RecordRises(s: State, r: Run, n: nat)
    requires Inv(s) && CopyInv(s) && s.record.Some? && !Running(s) && Continues(s, r) && n <= |r.steps|
    requires forall i :: 0 <= i <= n ==> r.states[i].dispatches == s.dispatches
    ensures var t := r.states[n]; Inv(t) && CopyInv(t) && t.now >= s.now && t.record.Some?
    ensures AtLeast(r.states[n].record.value, s.record.value)
    decreases n
  {
    if n > 0 {
      var before := r.states[n - 1];
      RecordRises(s, r, n - 1);
      assert Enabled(before, r.steps[n - 1]) && r.states[n] == Next(before, r.steps[n - 1]);
      StepKeepsInv(before, r.steps[n - 1]);
      StepKeepsCopy(before, r.steps[n - 1]);
      StepRaisesRecord(before, r.steps[n - 1]);
    }
  }

  /** A dispatch is a successful start by the lease holder. */
  lemma OnlyStartsDispatch(s: State, step: Step, d: Dispatch)
    requires Inv(s) && CopyInv(s) && Enabled(s, step) && s.record.Some? && !Running(s)
    requires Next(s, step).dispatches == s.dispatches + [d]
    ensures step.Start? && d.start == s.now >= Allowed(s.record.value, d.policy)
  {
    var t := Next(s, step);
    assert |t.dispatches| == |s.dispatches| + 1 && t.dispatches[|s.dispatches|] == d;
  }

  lemma NeverEarlier(s: State, r: Run, p: Policy, at: int)
    requires Inv(s) && CopyInv(s) && s.record.Some? && !Running(s) && DispatchesNext(s, r, p, at)
    ensures at >= s.now && at >= Allowed(s.record.value, p)
  {
    var n := |r.steps| - 1;
    RecordRises(s, r, n);
    assert Enabled(r.states[n], r.steps[n]) && r.states[n + 1] == Next(r.states[n], r.steps[n]);
    OnlyStartsDispatch(r.states[n], r.steps[n], Dispatch(p, at, None, Unrecorded));
  }

  // ---- And the bound is reached ----

  lemma {:induction false} Unused(s: set<int>) returns (x: int)
    ensures forall y :: y in s ==> y < x
    decreases |s|
  {
    x := 0;
    if s != {} {
      var y := Any(s);
      var rest := Unused(s - {y});
      x := Max(rest, y + 1);
      forall z | z in s ensures z < x {
        if z != y { assert z in s - {y}; }
      }
    }
  }

  lemma OneMore(s: State, r: Run, step: Step) returns (after: Run)
    requires Continues(s, r) && Enabled(r.states[|r.steps|], step)
    ensures Continues(s, after) && after.steps == r.steps + [step]
    ensures after.states == r.states + [Next(r.states[|r.steps|], step)]
  {
    after := Run(r.states + [Next(r.states[|r.steps|], step)], r.steps + [step]);
    forall i {:trigger after.steps[i]} | 0 <= i < |after.steps|
      ensures Enabled(after.states[i], after.steps[i]) && after.states[i + 1] == Next(after.states[i], after.steps[i])
    {
      if i < |r.steps| { assert after.steps[i] == r.steps[i]; }
    }
  }

  /** Nobody holds the lease. */
  lemma Freed(s: State) returns (r: Run, t: State)
    requires Inv(s) && !Running(s)
    ensures Continues(s, r) && t == r.states[|r.steps|] && t.lease.None? && t.admissions == s.admissions
    ensures t.now == s.now && t.record == s.record && !Running(t)
    ensures forall i :: 0 <= i <= |r.steps| ==> r.states[i].dispatches == s.dispatches
  {
    r := Run([s], []);
    if s.lease.Some? {
      r := OneMore(s, r, Release(s.lease.value, true));
    }
    t := r.states[|r.steps|];
  }

  /** A process that was not there before waits until the record lets it start. */
  lemma Reached(s: State, p: Policy) returns (r: Run, at: int)
    requires Inv(s) && s.record.Some? && !Running(s)
    ensures at == Max(s.now, Allowed(s.record.value, p)) && DispatchesNext(s, r, p, at)
  {
    at := Max(s.now, Allowed(s.record.value, p));
    var t;
    r, t := Freed(s);
    var id := Unused(t.admissions.Keys);
    var process := Unused(t.poisoned);
    assert id !in t.admissions && process !in t.poisoned;
    r := OneMore(s, r, Join(id, Admission(process, p, s.record.value)));
    r := OneMore(s, r, Tick(at));
    var u := r.states[|r.steps|];
    assert Reloaded(u, id, s.record.value.nextAllowed) == s.record.value;
    r := OneMore(s, r, Acquire(id, s.record.value.nextAllowed, Written));
    r := OneMore(s, r, Start(id, Written));
  }

  /** In every run, once a dispatch has ended: the next one, under whatever
      policy and after whatever else happens, waits for bound if and only if the
      record or the clock is already there. */
  lemma NextDispatchIff(r: Run, n: nat, p: Policy, bound: int)
    requires IsRun(r) && n <= |r.steps| && r.states[n].dispatches != [] && !Running(r.states[n])
    ensures r.states[n].record.Some?
    ensures Waits(r.states[n], p, bound) <==> Max(r.states[n].now, Allowed(r.states[n].record.value, p)) >= bound
  {
    RunsKeepCopy(r, n);
    WaitsIff(r.states[n], p, bound);
  }

  lemma WaitsIff(s: State, p: Policy, bound: int)
    requires Inv(s) && CopyInv(s) && s.record.Some? && !Running(s)
    ensures Waits(s, p, bound) <==> Max(s.now, Allowed(s.record.value, p)) >= bound
  {
    var r, at := Reached(s, p);
    if at >= bound {
      forall r, at | DispatchesNext(s, r, p, at) ensures at >= bound { NeverEarlier(s, r, p, at); }
    }
  }

  // ---- The final write of a dispatch ----

  /** What the next dispatch, under p, owes one that ended so at now. */
  function Spacing(ok: bool, policy: Policy, p: Policy): nat {
    if ok then Max(policy.minimumInterval, p.minimumInterval) else Max(policy.errorBackoff, p.errorBackoff)
  }

  /** In every run: the spacing from the end of a dispatch is kept, whatever
      follows, if and only if its final write replaced the record, or the record
      its start reserved already asks for as much. */
  lemma FinishKeepsSpacingIff(r: Run, n: nat, id: int, ok: bool, write: Write, p: Policy)
    requires IsRun(r) && n <= |r.steps| && Enabled(r.states[n], Finish(id, ok, write))
    ensures r.states[n].record.Some?
    ensures var s := r.states[n];
      var bound := s.now + Spacing(ok, s.admissions[id].policy, p);
      Waits(Next(s, Finish(id, ok, write)), p, bound) <==>
        !write.Lost? || bound == s.now || Allowed(s.record.value, p) >= bound
  {
    RunsKeepCopy(r, n);
    var s, step := r.states[n], Finish(id, ok, write);
    StepKeepsInv(s, step);
    StepKeepsCopy(s, step);
    WaitsIff(Next(s, step), p, s.now + Spacing(ok, s.admissions[id].policy, p));
  }

  // ---- The spacing that is lost ----

  const POLICY := Policy(2, 30)
  const EARLIER := Record(0, None, None)
  const RESERVED := Record(30, None, Some(0))
  const ENDED := Dispatch(POLICY, 0, Some(100), Unrecorded)

  function Two(first: Record, second: Record): map<int, Admission> {
    map[1 := Admission(1, POLICY, first), 2 := Admission(2, POLICY, second)]
  }

  const NONE_YET := Initial(0, None)
  const FETCHING := State(0, Some(RESERVED), Some(1), Two(RESERVED, EARLIER), {}, [ENDED.(end := None)])
  const UNSAVED :=
    State(100, Some(RESERVED), Some(1), Two(Record(102, Some(100), None), EARLIER), {1}, [ENDED])

  lemma FirstStarts() returns (r: Run)
    ensures Continues(NONE_YET, r) && |r.steps| == 4 && r.states[4] == FETCHING
  {
    r := Run([NONE_YET], []);
    r := OneMore(NONE_YET, r, Join(1, Admission(1, POLICY, EARLIER)));
    r := OneMore(NONE_YET, r, Join(2, Admission(2, POLICY, EARLIER)));
    assert r.states[2] == State(0, None, None, Two(EARLIER, EARLIER), {}, []);
    r := OneMore(NONE_YET, r, Acquire(1, 0, Written));
    r := OneMore(NONE_YET, r, Start(1, Written));
  }

  lemma FirstEndsUnsaved() returns (r: Run)
    ensures Continues(NONE_YET, r) && |r.steps| == 6 && r.steps[5] == Finish(1, true, Lost)
    ensures r.states[5].now == 100 && r.states[6] == UNSAVED
  {
    r := FirstStarts();
    r := OneMore(NONE_YET, r, Tick(100));
    r := OneMore(NONE_YET, r, Finish(1, true, Lost));
  }

  lemma SecondStarts() returns (r: Run)
    ensures Continues(UNSAVED, r) && r.steps == [Release(1, true), Acquire(2, 0, Written), Start(2, Written)]
    ensures DispatchesNext(UNSAVED, r, POLICY, 100)
  {
    r := Run([UNSAVED], []);
    r := OneMore(UNSAVED, r, Release(1, true));
    r := OneMore(UNSAVED, r, Acquire(2, 0, Written));
    r := OneMore(UNSAVED, r, Start(2, Written));
  }

  /** Process 1 fetches well from 0 to 100 and cannot record it; process 2 may
      then fetch again at 100, with no interval after the success. */
  lemma SpacingCanBeLost() returns (r: Run, rest: Run)
    ensures IsRun(r) && |r.steps| == 6 && r.states[5].now == 100 && r.steps[5] == Finish(1, true, Lost)
    ensures DispatchesNext(r.states[6], rest, POLICY, 100) && !Waits(r.states[6], POLICY, 100 + POLICY.minimumInterval)
  {
    r := FirstEndsUnsaved();
    rest := SecondStarts();
  }
}
