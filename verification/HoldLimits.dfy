/** When a held chat drops events, when it pauses, and what counts as received
    (internal/bridge/connector/delivery_hold.go, add, hold and scheduleHeld). */
module HoldLimits {
  import opened Basics
  import opened DeliveryHold

  // ---- Single changes ----

  /** Every other chat is as it was. */
  ghost predicate OthersSame(s: State, t: State, chat: int) {
    && t.delays == s.delays && (forall c :: c != chat ==> Of(t, c) == Of(s, c))
    && (forall c :: c != chat ==> (c in t.chats <==> c in s.chats) && (c in t.chats ==> t.chats[c] == s.chats[c]))
  }

  /** A held chat's next event joins the buffer's end, unless something was
      dropped before it or the buffer is full; then it is dropped, and a positioned
      one raises the read to come. */
  lemma AddIs(s: State, chat: int, e: Event)
    requires chat in s.chats
    ensures var t, h := AddOne(s, chat, e), s.chats[chat];
      && OthersSame(s, t, chat) && chat in t.chats && t.pausedDeliveries == s.pausedDeliveries
      && t.chats[chat] == h.(events := t.chats[chat].events, missedThrough := t.chats[chat].missedThrough)
      && Of(t, chat).done == Of(s, chat).done
      && if h.missedThrough > 0 || |h.events| >= 1024 then
           && t.chats[chat].events == h.events
           && t.chats[chat].missedThrough ==
              (if e.log.Some? then Max(h.missedThrough, e.log.value) else h.missedThrough)
           && Of(t, chat).received == Of(s, chat).received + [Received(e, false)]
         else
           && t.chats[chat].events == h.events + [e] && t.chats[chat].missedThrough == 0
           && Of(t, chat).received == Of(s, chat).received + [Received(e, true)]
  {
  }

  /** The next retry is timed while access is open and retries are left; with none
      left the chat pauses, counted once; without access it waits for a trigger. */
  lemma ScheduleIs(s: State, chat: int, access: bool, at: int)
    requires chat in s.chats
    ensures var t, h := Schedule(s, chat, access, at), s.chats[chat];
      && OthersSame(s, t, chat) && chat in t.chats && Of(t, chat) == Of(s, chat)
      && t.chats[chat] == h.(due := t.chats[chat].due, paused := t.chats[chat].paused, retrying := false)
      && t.chats[chat].due == (if access && h.attempts < s.delays then Some(at) else None)
      && (t.chats[chat].paused <==> h.paused || (access && h.attempts >= s.delays))
      && t.pausedDeliveries == s.pausedDeliveries + (if t.chats[chat].paused && !h.paused then 1 else 0)
  {
  }

  /** What a step brings to a chat. */
  function Brought(s: State, step: Step, chat: int): seq<Event> {
    match step
    case Deliver(event, _, _, _) => if event.chat == Some(chat) then [event] else []
    case Hold(c, pending, _, _) => if c == chat then pending else []
    case _ => []
  }

  function Events(received: seq<Received>): seq<Event> {
    if received == [] then [] else Events(received[..|received| - 1]) + [received[|received| - 1].event]
  }

  lemma EventsSnoc(received: seq<Received>, r: Received)
    ensures Events(received + [r]) == Events(received) + [r.event]
  {
    Snoc(received, r);
  }

  lemma {:induction false} AllReceived(s: State, chat: int, events: seq<Event>, c: int)
    requires chat in s.chats
    ensures var t := AddAll(s, chat, events);
      Events(Of(t, c).received) == Events(Of(s, c).received) + if c == chat then events else []
  {
    if events != [] {
      var front, last := events[..|events| - 1], events[|events| - 1];
      AllReceived(s, chat, front, c);
      var u := AddAll(s, chat, front);
      AddIs(u, chat, last);
      EventsSnoc(Of(u, c).received, Received(last, true));
      EventsSnoc(Of(u, c).received, Received(last, false));
      assert events == front + [last];
      Associates(Events(Of(s, c).received), front, [last]);
    }
  }

  /** Everything brought to a chat counts as received, once and in order, and
      nothing else does. */
  lemma ReceivedIs(s: State, step: Step, chat: int)
    requires Enabled(s, step)
    ensures Events(Of(Next(s, step), chat).received) == Events(Of(s, chat).received) + Brought(s, step, chat)
  {
    match step
    case Deliver(event, handled, _, _) =>
      if event.chat.Some? {
        var to := event.chat.value;
        EventsSnoc(Of(s, to).received, Received(event, true));
        EventsSnoc(Of(s, to).received, Received(event, false));
        if to !in s.chats { AllReceived(StartHold(s, to), to, [event], chat); }
      }
    case Hold(c, pending, _, _) => AllReceived(StartHold(s, c), c, pending, chat);
    case _ =>
  }

  // ---- A hold that never overflows ----

  predicate AllKept(received: seq<Received>) { forall r :: r in received ==> r.kept }

  /** While all was kept nothing waits for a read and the buffer is no longer than
      what was received; and up to the limit all was kept. */
  ghost predicate Few(s: State, chat: int) {
    var received := Of(s, chat).received;
    && (AllKept(received) ==> MissedThrough(s, chat) == 0 && |Buffer(s, chat)| <= |received|)
    && (|received| <= 1024 ==> AllKept(received))
  }

  ghost predicate AllFew(s: State) { forall c :: Few(s, c) }

  lemma KeptSnoc(received: seq<Received>, r: Received)
    ensures AllKept(received + [r]) <==> AllKept(received) && r.kept
  {
    var all := received + [r];
    assert all[|received|] == r && forall x :: x in received ==> x in all;
  }

  lemma AddFew(s: State, chat: int, e: Event)
    requires chat in s.chats && AllFew(s)
    ensures AllFew(AddOne(s, chat, e))
  {
    var t := AddOne(s, chat, e);
    AddIs(s, chat, e);
    forall c ensures Few(t, c) {
      assert Few(s, c);
      if c == chat {
        KeptSnoc(Of(s, c).received, Received(e, true));
        KeptSnoc(Of(s, c).received, Received(e, false));
      }
    }
  }

  lemma {:induction false} AddAllFew(s: State, chat: int, events: seq<Event>)
    requires chat in s.chats && AllFew(s)
    ensures AllFew(AddAll(s, chat, events))
  {
    if events != [] {
      AddAllFew(s, chat, events[..|events| - 1]);
      AddFew(AddAll(s, chat, events[..|events| - 1]), chat, events[|events| - 1]);
    }
  }

  /** A step that receives nothing, and shortens no wait but for a read. */
  lemma FewStays(s: State, t: State)
    requires AllFew(s)
    requires forall c :: Of(t, c).received == Of(s, c).received
    requires forall c :: AllKept(Of(s, c).received) ==>
      MissedThrough(t, c) <= MissedThrough(s, c) && |Buffer(t, c)| <= |Buffer(s, c)|
    ensures AllFew(t)
  {
    forall c ensures Few(t, c) { assert Few(s, c); }
  }

  lemma HoldFew(s: State, chat: int, pending: seq<Event>, access: bool, at: int)
    requires AllFew(s) && chat !in s.chats
    ensures AllFew(Schedule(AddAll(StartHold(s, chat), chat, pending), chat, access, at))
  {
    FewStays(s, StartHold(s, chat));
    AddAllFew(StartHold(s, chat), chat, pending);
    ScheduleFew(AddAll(StartHold(s, chat), chat, pending), chat, access, at);
  }

  lemma ScheduleFew(s: State, chat: int, access: bool, at: int)
    requires AllFew(s) && chat in s.chats
    ensures AllFew(Schedule(s, chat, access, at))
  {
    ScheduleIs(s, chat, access, at);
    FewStays(s, Schedule(s, chat, access, at));
  }

  lemma DeliverFew(s: State, step: Step)
    requires AllFew(s) && Enabled(s, step) && step.Deliver? && step.event.chat.Some?
    ensures AllFew(Next(s, step))
  {
    var chat, e := step.event.chat.value, step.event;
    if chat in s.chats {
      AddFew(s, chat, e);
    } else if step.handled {
      var t := Next(s, step);
      forall c ensures Few(t, c) {
        assert Few(s, c);
        if c == chat { KeptSnoc(Of(s, c).received, Received(e, true)); }
      }
    } else {
      HoldFew(s, chat, [e], step.access, step.at);
    }
  }

  lemma StepFew(s: State, step: Step)
    requires AllFew(s) && Enabled(s, step)
    ensures AllFew(Next(s, step))
  {
    match step
    case Deliver(event, _, _, _) => if event.chat.Some? { DeliverFew(s, step); }
    case Hold(chat, pending, access, at) => HoldFew(s, chat, pending, access, at);
    case Read(chat, missed, access, at) => ReadFew(s, step);
    case Handle(chat, handled, access, at) => HandleFew(s, step);
    case _ => OtherFew(s, step);
  }

  lemma ReadFew(s: State, step: Step)
    requires AllFew(s) && Enabled(s, step) && step.Read?
    ensures AllFew(Next(s, step))
  {
    assert Few(s, step.chat);
    FewStays(s, Next(s, step));
  }

  lemma HandleFew(s: State, step: Step)
    requires AllFew(s) && Enabled(s, step) && step.Handle?
    ensures AllFew(Next(s, step))
  {
    FewStays(s, Next(s, step));
  }

  lemma OtherFew(s: State, step: Step)
    requires AllFew(s) && Enabled(s, step) && (step.StartTimed? || step.Resume? || step.Release?)
    ensures AllFew(Next(s, step))
  {
    FewStays(s, Next(s, step));
  }

  lemma {:induction false} RunsKeepFew(r: Run, delays: nat, n: nat)
    requires IsRun(r, delays) && n <= |r.steps|
    ensures AllFew(r.states[n])
    decreases n
  {
    if n > 0 {
      RunsKeepFew(r, delays, n - 1);
      StepFew(r.states[n - 1], r.steps[n - 1]);
    }
  }

  /** In every run a chat that received no more than the buffer holds has lost
      nothing: each event it received was kept, and no read is due. */
  lemma FewAreAllKept(r: Run, delays: nat, chat: int)
    requires IsRun(r, delays) && |Of(Last(r), chat).received| <= MAX_HELD_EVENTS
    ensures var s := Last(r); AllKept(Of(s, chat).received) && MissedThrough(s, chat) == 0
  {
    RunsKeepFew(r, delays, |r.steps|);
    assert Few(Last(r), chat);
  }
}
