/** Held chats of the event pump (internal/bridge/connector/delivery_hold.go):
    a chat whose event failed is buffered and retried, while other chats flow. */
module DeliveryHold {
  import opened Basics
  import opened CatchUpRoom

  const MAX_HELD_EVENTS := 1024

  /** chat: the chat whose delivery order the event belongs to, if any;
      log: its positive log identity when it has a message position. */
  datatype Event = Event(chat: Option<int>, log: Option<nat>, tag: int)

  /** timed (retries by the clock since the hold or the last resume) and retrying
      (a retry of the chat is under way) are history. */
  datatype Held = Held(events: seq<Event>, attempts: nat, due: Option<int>, paused: bool, missedThrough: nat,
                       timed: nat, retrying: bool)

  /** An event as it was received, and whether it was kept. */
  datatype Received = Received(event: Event, kept: bool)

  /** An event as it entered the delivery order: live, or read again. */
  datatype Intake = Intake(event: Event, live: bool)

  /** A chat's history: what was received, what entered its delivery order, what
      was handled, what overflow dropped since the last read, and how far reads
      went. received, intake and done only grow. */
  datatype Story = Story(received: seq<Received>, intake: seq<Intake>, done: seq<Event>, dropped: seq<Event>,
                         readThrough: nat)

  /** delays is the length of the retry schedule. */
  datatype State = State(delays: nat, chats: map<int, Held>, pausedDeliveries: int, stories: map<int, Story>)

  const UNTOLD := Story([], [], [], [], 0)

  function Initial(delays: nat): State { State(delays, map[], 0, map[]) }

  function Of(s: State, chat: int): Story { if chat in s.stories then s.stories[chat] else UNTOLD }

  function Tell(s: State, chat: int, story: Story): State { s.(stories := s.stories[chat := story]) }

  predicate Positioned(e: Event) { e.log.Some? && e.log.value > 0 }

  /** The received events that were kept, in order. */
  function Kept(received: seq<Received>): seq<Event> {
    if received == [] then []
    else
      var last := received[|received| - 1];
      Kept(received[..|received| - 1]) + if last.kept then [last.event] else []
  }

  /** Everything that entered the delivery order, and the live part of it. */
  function Entered(intake: seq<Intake>): seq<Event> {
    if intake == [] then [] else Entered(intake[..|intake| - 1]) + [intake[|intake| - 1].event]
  }

  function Lives(intake: seq<Intake>): seq<Event> {
    if intake == [] then []
    else
      var last := intake[|intake| - 1];
      Lives(intake[..|intake| - 1]) + if last.live then [last.event] else []
  }

  function Reads(missed: seq<Event>): seq<Intake> {
    if missed == [] then [] else Reads(missed[..|missed| - 1]) + [Intake(missed[|missed| - 1], false)]
  }

  function Take(story: Story, e: Event): Story {
    story.(received := story.received + [Received(e, true)], intake := story.intake + [Intake(e, true)])
  }

  function Lose(story: Story, e: Event): Story {
    story.(received := story.received + [Received(e, false)], dropped := story.dropped + [e])
  }

  function Handled(story: Story, e: Event): Story { story.(done := story.done + [e]) }

  function ReadBack(story: Story, missed: seq<Event>, through: nat): Story {
    story.(intake := story.intake + Reads(missed), dropped := [],
           readThrough := if through > story.readThrough then through else story.readThrough)
  }

  // ---- One held chat ----

  predicate Fits(h: Held) { h.missedThrough == 0 && |h.events| < MAX_HELD_EVENTS }

  function Added(h: Held, e: Event): Held {
    if Fits(h) then h.(events := h.events + [e])
    else if e.log.Some? && e.log.value > h.missedThrough then h.(missedThrough := e.log.value)
    else h
  }

  /** The held chat with its next timed retry, and whether it pauses now. */
  function Scheduled(h: Held, delays: nat, access: bool, at: int): Held {
    var waiting := h.(due := None, retrying := false);
    if !access then waiting
    else if h.attempts < delays then waiting.(due := Some(at))
    else waiting.(paused := true)
  }

  // ---- The steps ----

  /** access: the chat's source access is not paused; at: when the next timed
      retry would run. */
  datatype Step =
    | Deliver(event: Event, handled: bool, access: bool, at: int)
    | Hold(chat: int, pending: seq<Event>, access: bool, at: int)
    | StartTimed(chat: int, now: int)
    | Resume(chat: int)
    | Handle(chat: int, handled: bool, access: bool, at: int)
    | Read(chat: int, missed: Option<seq<Event>>, access: bool, at: int)
    | Release(chat: int)

  /** Positioned events of the chat, rising from lo. */
  predicate Rising(lo: nat, events: seq<Event>, chat: int)
    decreases events
  {
    events == [] ||
    (events[0].chat == Some(chat) && events[0].log.Some? && events[0].log.value > lo &&
     Rising(events[0].log.value, events[1..], chat))
  }

  /** What a successful read through a target returns: nothing when the chat is
      already committed that far, else rising events that end at the target. */
  predicate ReadsTo(missed: seq<Event>, chat: int, through: nat) {
    Rising(0, missed, chat) && (missed == [] || missed[|missed| - 1].log == Some(through))
  }

  /** The pump is one goroutine: nothing is delivered during a retry. */
  ghost predicate Idle(s: State) { forall c :: c in s.chats ==> !s.chats[c].retrying }

  predicate Retried(s: State, chat: int) { chat in s.chats && s.chats[chat].retrying }

  ghost predicate Enabled(s: State, step: Step) {
    match step
    case Deliver(event, handled, _, _) => Idle(s) && (event.chat.None? ==> handled)
    case Hold(chat, pending, _, _) => Idle(s) && chat !in s.chats && pending != []
    case StartTimed(chat, now) =>
      Idle(s) && chat in s.chats && s.chats[chat].due.Some? && s.chats[chat].due.value <= now
    case Resume(chat) => Idle(s) && chat in s.chats && s.chats[chat].due.None?
    case Handle(chat, _, _, _) => Retried(s, chat) && s.chats[chat].events != []
    case Read(chat, missed, _, _) =>
      && Retried(s, chat) && s.chats[chat].events == [] && s.chats[chat].missedThrough > 0
      && (missed.Some? ==> ReadsTo(missed.value, chat, s.chats[chat].missedThrough))
    case Release(chat) => Retried(s, chat) && s.chats[chat].events == [] && s.chats[chat].missedThrough == 0
  }

  function AddOne(s: State, chat: int, e: Event): State
    requires chat in s.chats
  {
    var h := s.chats[chat];
    Tell(s.(chats := s.chats[chat := Added(h, e)]), chat,
         if Fits(h) then Take(Of(s, chat), e) else Lose(Of(s, chat), e))
  }

  function AddAll(s: State, chat: int, events: seq<Event>): (t: State)
    requires chat in s.chats
    ensures chat in t.chats
  {
    if events == [] then s
    else AddOne(AddAll(s, chat, events[..|events| - 1]), chat, events[|events| - 1])
  }

  /** A held chat schedules its next retry, or pauses and is counted. */
  function Schedule(s: State, chat: int, access: bool, at: int): State
    requires chat in s.chats
  {
    var h := s.chats[chat];
    var next := Scheduled(h, s.delays, access, at);
    s.(chats := s.chats[chat := next],
       pausedDeliveries := s.pausedDeliveries + (if next.paused && !h.paused then 1 else 0))
  }

  const FRESH := Held([], 0, None, false, 0, 0, false)

  function StartHold(s: State, chat: int): State { s.(chats := s.chats[chat := FRESH]) }

  function Fail(s: State, chat: int, access: bool, at: int): State
    requires chat in s.chats
  {
    var h := s.chats[chat];
    Schedule(s.(chats := s.chats[chat := h.(attempts := h.attempts + 1)]), chat, access, at)
  }

  /** The buffer's head was handled. */
  function Pop(s: State, chat: int): State
    requires chat in s.chats && s.chats[chat].events != []
  {
    var h := s.chats[chat];
    Tell(s.(chats := s.chats[chat := h.(events := h.events[1..])]), chat, Handled(Of(s, chat), h.events[0]))
  }

  /** Catch-up read the dropped interval again. */
  function Refill(s: State, chat: int, missed: seq<Event>): State
    requires chat in s.chats
  {
    var h := s.chats[chat];
    Tell(s.(chats := s.chats[chat := h.(events := missed, missedThrough := 0)]), chat,
         ReadBack(Of(s, chat), missed, h.missedThrough))
  }

  /** A chat that is not held handles the event at once. */
  function Pass(s: State, chat: int, event: Event): State { Tell(s, chat, Handled(Take(Of(s, chat), event), event)) }

  function Next(s: State, step: Step): State
    requires Enabled(s, step)
  {
    match step
    case Deliver(event, handled, access, at) =>
      if event.chat.None? then s
      else
        var chat := event.chat.value;
        if chat in s.chats then AddOne(s, chat, event)
        else if handled then Pass(s, chat, event)
        else Schedule(AddAll(StartHold(s, chat), chat, [event]), chat, access, at)
    case Hold(chat, pending, access, at) => Schedule(AddAll(StartHold(s, chat), chat, pending), chat, access, at)
    case StartTimed(chat, _) =>
      var h := s.chats[chat];
      s.(chats := s.chats[chat := h.(timed := h.timed + 1, retrying := true)])
    case Resume(chat) => s.(chats := s.chats[chat := s.chats[chat].(attempts := 0, timed := 0, retrying := true)])
    case Handle(chat, handled, access, at) => if handled then Pop(s, chat) else Fail(s, chat, access, at)
    case Read(chat, missed, access, at) =>
      if missed.Some? then Refill(s, chat, missed.value) else Fail(s, chat, access, at)
    case Release(chat) =>
      s.(chats := s.chats - {chat}, pausedDeliveries := s.pausedDeliveries - (if s.chats[chat].paused then 1 else 0))
  }

  // ---- What every run keeps ----

  function Buffer(s: State, chat: int): seq<Event> { if chat in s.chats then s.chats[chat].events else [] }
  function MissedThrough(s: State, chat: int): nat { if chat in s.chats then s.chats[chat].missedThrough else 0 }

  /** The delivery order is what was handled followed by the buffer; the kept
      events are its live part, in the order received; every other positioned
      event received lies at or below missedThrough, or at or below what a read
      went through. */
  ghost predicate Order(story: Story, buffer: seq<Event>, missedThrough: nat) {
    && Entered(story.intake) == story.done + buffer && Lives(story.intake) == Kept(story.received)
    && (forall r :: r in story.received && !r.kept && Positioned(r.event) ==>
        r.event.log.value <= missedThrough || r.event.log.value <= story.readThrough)
    && (forall e :: e in story.dropped && Positioned(e) ==> e.log.value <= missedThrough)
  }

  ghost predicate InOrder(s: State, chat: int) { Order(Of(s, chat), Buffer(s, chat), MissedThrough(s, chat)) }

  /** Timed retries since the hold or the last resume stay within the schedule. */
  ghost predicate Bounded(s: State, h: Held) {
    && h.timed <= s.delays && (h.due.Some? && !h.retrying ==> h.timed <= h.attempts < s.delays)
    && h.timed <= h.attempts + (if h.retrying then 1 else 0)
  }

  function Paused(chats: map<int, Held>): set<int> { set c | c in chats && chats[c].paused }

  ghost predicate OrderInv(s: State) { forall c :: InOrder(s, c) }

  ghost predicate RetryInv(s: State) {
    (forall c :: c in s.chats ==> Bounded(s, s.chats[c])) && s.pausedDeliveries == |Paused(s.chats)|
  }

  ghost predicate Inv(s: State) { OrderInv(s) && RetryInv(s) }

  lemma KeptAppend(received: seq<Received>, r: Received)
    ensures Kept(received + [r]) == Kept(received) + if r.kept then [r.event] else []
  {
    Snoc(received, r);
  }

  lemma IntakeAppend(intake: seq<Intake>, i: Intake)
    ensures Entered(intake + [i]) == Entered(intake) + [i.event]
    ensures Lives(intake + [i]) == Lives(intake) + if i.live then [i.event] else []
  {
    Snoc(intake, i);
  }

  lemma {:induction false} ReadsAppend(intake: seq<Intake>, missed: seq<Event>)
    ensures Entered(intake + Reads(missed)) == Entered(intake) + missed
    ensures Lives(intake + Reads(missed)) == Lives(intake)
    decreases |missed|
  {
    if missed == [] {
      assert intake + [] == intake;
    } else {
      var front, last := missed[..|missed| - 1], missed[|missed| - 1];
      ReadsAppend(intake, front);
      IntakeAppend(intake + Reads(front), Intake(last, false));
      Associates(intake, Reads(front), [Intake(last, false)]);
      Associates(Entered(intake), front, [last]);
      assert missed == front + [last];
    }
  }

  lemma TakeKeeps(story: Story, buffer: seq<Event>, e: Event)
    requires Order(story, buffer, 0)
    ensures Order(Take(story, e), buffer + [e], 0)
  {
    KeptAppend(story.received, Received(e, true));
    IntakeAppend(story.intake, Intake(e, true));
  }

  lemma LoseKeeps(story: Story, buffer: seq<Event>, missed: nat, e: Event, now: nat)
    requires Order(story, buffer, missed) && missed <= now && (Positioned(e) ==> e.log.value <= now)
    ensures Order(Lose(story, e), buffer, now)
  {
    KeptAppend(story.received, Received(e, false));
  }

  lemma HandleKeeps(story: Story, buffer: seq<Event>, missed: nat)
    requires Order(story, buffer, missed) && buffer != []
    ensures Order(Handled(story, buffer[0]), buffer[1..], missed)
  {
    assert story.done + buffer == story.done + [buffer[0]] + buffer[1..];
  }

  lemma ReadKeeps(story: Story, missed: seq<Event>, through: nat)
    requires Order(story, [], through)
    ensures Order(ReadBack(story, missed, through), missed, 0)
  {
    ReadsAppend(story.intake, missed);
    assert story.done + [] == story.done;
  }

  lemma AddKeepsOrder(s: State, chat: int, e: Event)
    requires chat in s.chats && OrderInv(s)
    ensures OrderInv(AddOne(s, chat, e))
  {
    var t := AddOne(s, chat, e);
    forall c ensures InOrder(t, c) {
      assert InOrder(s, c);
      if c == chat {
        var h := s.chats[chat];
        if Fits(h) {
          TakeKeeps(Of(s, c), h.events, e);
        } else {
          LoseKeeps(Of(s, c), h.events, h.missedThrough, e, t.chats[c].missedThrough);
        }
      }
    }
  }

  ghost predicate OnlyBuffers(s: State, t: State, chat: int) {
    && chat in s.chats && t.chats.Keys == s.chats.Keys
    && t.delays == s.delays && t.pausedDeliveries == s.pausedDeliveries
    && (forall c :: c in s.chats && c != chat ==> t.chats[c] == s.chats[c])
    && t.chats[chat].attempts == s.chats[chat].attempts
    && t.chats[chat].due == s.chats[chat].due && t.chats[chat].paused == s.chats[chat].paused
    && t.chats[chat].timed == s.chats[chat].timed && t.chats[chat].retrying == s.chats[chat].retrying
  }

  lemma {:induction false} AddAllFrame(s: State, chat: int, events: seq<Event>)
    requires chat in s.chats
    ensures OnlyBuffers(s, AddAll(s, chat, events), chat)
  {
    if events != [] { AddAllFrame(s, chat, events[..|events| - 1]); }
  }

  lemma {:induction false} AddAllKeeps(s: State, chat: int, events: seq<Event>)
    requires chat in s.chats && OrderInv(s)
    ensures OrderInv(AddAll(s, chat, events))
  {
    if events != [] {
      var front := events[..|events| - 1];
      AddAllKeeps(s, chat, front);
      AddKeepsOrder(AddAll(s, chat, front), chat, events[|events| - 1]);
    }
  }

  lemma PausedAt(chats: map<int, Held>, chat: int, h: Held)
    ensures |Paused(chats[chat := h])| ==
      |Paused(chats)| + (if h.paused then 1 else 0) - (if chat in chats && chats[chat].paused then 1 else 0)
  {
    var without := Paused(chats) - {chat};
    assert Paused(chats[chat := h]) == if h.paused then without + {chat} else without;
    assert Paused(chats) == if chat in chats && chats[chat].paused then without + {chat} else without;
  }

  lemma PausedWithout(chats: map<int, Held>, chat: int)
    requires chat in chats
    ensures |Paused(chats - {chat})| == |Paused(chats)| - (if chats[chat].paused then 1 else 0)
  {
    assert Paused(chats - {chat}) == Paused(chats) - {chat};
  }

  /** A change of one held chat that touches neither its buffer nor its history. */
  lemma FrameOrder(s: State, t: State)
    requires OrderInv(s)
    requires t.stories == s.stories
    requires forall c :: Buffer(t, c) == Buffer(s, c) && MissedThrough(t, c) == MissedThrough(s, c)
    ensures OrderInv(t)
  {
    forall c ensures InOrder(t, c) { assert InOrder(s, c); }
  }

  ghost predicate OthersBounded(s: State, chat: int) {
    forall c :: c in s.chats && c != chat ==> Bounded(s, s.chats[c])
  }

  lemma ScheduleKeeps(s: State, chat: int, access: bool, at: int)
    requires chat in s.chats && OrderInv(s) && OthersBounded(s, chat) && s.pausedDeliveries == |Paused(s.chats)|
    requires s.chats[chat].timed <= s.delays && s.chats[chat].timed <= s.chats[chat].attempts
    ensures Inv(Schedule(s, chat, access, at))
  {
    var t := Schedule(s, chat, access, at);
    FrameOrder(s, t);
    PausedAt(s.chats, chat, t.chats[chat]);
    forall c | c in t.chats ensures Bounded(t, t.chats[c]) {
      assert c != chat ==> Bounded(s, s.chats[c]);
    }
  }

  lemma HoldKeeps(s: State, chat: int, pending: seq<Event>, access: bool, at: int)
    requires Inv(s) && chat !in s.chats
    ensures Inv(Schedule(AddAll(StartHold(s, chat), chat, pending), chat, access, at))
  {
    var started := StartHold(s, chat);
    FrameOrder(s, started);
    AddAllKeeps(started, chat, pending);
    AddAllFrame(started, chat, pending);
    var t := AddAll(started, chat, pending);
    PausedAt(s.chats, chat, FRESH);
    OthersStay(s, started, t, chat);
    ScheduleKeeps(t, chat, access, at);
  }

  lemma OthersStay(s: State, started: State, t: State, chat: int)
    requires RetryInv(s) && started == StartHold(s, chat) && OnlyBuffers(started, t, chat)
    ensures OthersBounded(t, chat) && |Paused(t.chats)| == |Paused(started.chats)|
  {
    forall c | c in t.chats && c != chat ensures Bounded(t, t.chats[c]) { assert Bounded(s, s.chats[c]); }
    SamePaused(started.chats, t.chats);
  }

  lemma SamePaused(a: map<int, Held>, b: map<int, Held>)
    requires a.Keys == b.Keys && forall c :: c in a ==> a[c].paused == b[c].paused
    ensures Paused(a) == Paused(b)
  {
    forall c ensures c in Paused(a) <==> c in Paused(b) {
      assert c in a.Keys <==> c in b.Keys;
    }
  }

  lemma FailKeeps(s: State, chat: int, access: bool, at: int)
    requires Inv(s) && chat in s.chats && s.chats[chat].retrying
    ensures Inv(Fail(s, chat, access, at))
  {
    var h := s.chats[chat];
    var t := s.(chats := s.chats[chat := h.(attempts := h.attempts + 1)]);
    FrameOrder(s, t);
    SamePaused(s.chats, t.chats);
    assert Bounded(s, h);
    ScheduleKeeps(t, chat, access, at);
  }

  /** A change of one held chat's buffer and history. */
  lemma BufferOrder(s: State, t: State, chat: int)
    requires OrderInv(s) && OnlyBuffers(s, t, chat) && InOrder(t, chat)
    requires forall c :: c != chat ==> Of(t, c) == Of(s, c)
    ensures OrderInv(t)
  {
    forall c ensures InOrder(t, c) { assert InOrder(s, c); }
  }

  lemma BufferRetry(s: State, t: State, chat: int)
    requires RetryInv(s) && OnlyBuffers(s, t, chat)
    ensures RetryInv(t)
  {
    forall c | c in t.chats ensures Bounded(t, t.chats[c]) { assert Bounded(s, s.chats[c]); }
    SamePaused(s.chats, t.chats);
  }

  lemma PopKeeps(s: State, chat: int)
    requires Inv(s) && chat in s.chats && s.chats[chat].events != []
    ensures Inv(Pop(s, chat))
  {
    var h := s.chats[chat];
    assert InOrder(s, chat);
    HandleKeeps(Of(s, chat), h.events, h.missedThrough);
    BufferOrder(s, Pop(s, chat), chat);
    BufferRetry(s, Pop(s, chat), chat);
  }

  lemma RefillKeeps(s: State, chat: int, missed: seq<Event>)
    requires Inv(s) && chat in s.chats && s.chats[chat].events == []
    ensures Inv(Refill(s, chat, missed))
  {
    assert InOrder(s, chat);
    ReadKeeps(Of(s, chat), missed, s.chats[chat].missedThrough);
    BufferOrder(s, Refill(s, chat, missed), chat);
    BufferRetry(s, Refill(s, chat, missed), chat);
  }

  lemma StartKeeps(s: State, step: Step)
    requires Inv(s) && Enabled(s, step) && (step.StartTimed? || step.Resume?)
    ensures Inv(Next(s, step))
  {
    var t := Next(s, step);
    FrameOrder(s, t);
    SamePaused(s.chats, t.chats);
    forall c | c in t.chats ensures Bounded(t, t.chats[c]) { assert Bounded(s, s.chats[c]); }
  }

  lemma AddKeeps(s: State, chat: int, event: Event)
    requires Inv(s) && chat in s.chats
    ensures Inv(AddOne(s, chat, event))
  {
    AddKeepsOrder(s, chat, event);
    BufferRetry(s, AddOne(s, chat, event), chat);
  }

  lemma PassKeeps(s: State, chat: int, event: Event)
    requires OrderInv(s) && chat !in s.chats
    ensures OrderInv(Pass(s, chat, event))
  {
    forall c ensures InOrder(Pass(s, chat, event), c) {
      PassKeepsChat(s, chat, event, c);
    }
  }

  lemma PassKeepsChat(s: State, chat: int, event: Event, c: int)
    requires InOrder(s, c) && chat !in s.chats
    ensures InOrder(Pass(s, chat, event), c)
  {
    PassTells(s, chat, event, c);
    if c == chat { PassOrder(Of(s, chat), event); }
  }

  lemma PassTells(s: State, chat: int, event: Event, c: int)
    ensures var t := Pass(s, chat, event);
      && Buffer(t, c) == Buffer(s, c) && MissedThrough(t, c) == MissedThrough(s, c)
      && Of(t, c) == if c == chat then Handled(Take(Of(s, c), event), event) else Of(s, c)
  {
  }

  lemma PassOrder(story: Story, event: Event)
    requires Order(story, [], 0)
    ensures Order(Handled(Take(story, event), event), [], 0)
  {
    TakeKeeps(story, [], event);
    HandleKeeps(Take(story, event), [event], 0);
  }

  lemma DeliverKeeps(s: State, event: Event, handled: bool, access: bool, at: int)
    requires Inv(s) && Enabled(s, Deliver(event, handled, access, at))
    ensures Inv(Next(s, Deliver(event, handled, access, at)))
  {
    if event.chat.Some? {
      var chat := event.chat.value;
      if chat in s.chats {
        AddKeeps(s, chat, event);
      } else if handled {
        PassKeeps(s, chat, event);
      } else {
        HoldKeeps(s, chat, [event], access, at);
      }
    }
  }

  lemma ReleaseKeeps(s: State, chat: int)
    requires Inv(s) && Enabled(s, Release(chat))
    ensures Inv(Next(s, Release(chat)))
  {
    var t := Next(s, Release(chat));
    FrameOrder(s, t);
    PausedWithout(s.chats, chat);
    forall c | c in t.chats ensures Bounded(t, t.chats[c]) { assert Bounded(s, s.chats[c]); }
  }

  lemma StepKeepsInv(s: State, step: Step)
    requires Inv(s) && Enabled(s, step)
    ensures Inv(Next(s, step))
  {
    match step
    case Deliver(event, handled, access, at) => DeliverKeeps(s, event, handled, access, at);
    case Hold(chat, pending, access, at) => HoldKeeps(s, chat, pending, access, at);
    case Handle(chat, handled, access, at) => if handled { PopKeeps(s, chat); } else { FailKeeps(s, chat, access, at); }
    case Read(chat, missed, access, at) =>
      if missed.Some? { RefillKeeps(s, chat, missed.value); } else { FailKeeps(s, chat, access, at); }
    case Release(chat) => ReleaseKeeps(s, chat);
    case _ => StartKeeps(s, step);
  }

  /** A run: the states from a session's start, and the steps between them. */
  datatype Run = Run(states: seq<State>, steps: seq<Step>)

  ghost predicate IsRun(r: Run, delays: nat) {
    && |r.states| == |r.steps| + 1 && r.states[0] == Initial(delays)
    && forall i {:trigger r.steps[i]} :: 0 <= i < |r.steps| ==>
       Enabled(r.states[i], r.steps[i]) && r.states[i + 1] == Next(r.states[i], r.steps[i])
  }

  function Last(r: Run): State
    requires r.states != []
  {
    r.states[|r.states| - 1]
  }

  lemma {:induction false} RunsKeepInv(r: Run, delays: nat, n: nat)
    requires IsRun(r, delays) && n <= |r.steps|
    ensures Inv(r.states[n]) && r.states[n].delays == delays
    decreases n
  {
    if n == 0 {
      RunStartsInv(r, delays);
    } else {
      RunsKeepInv(r, delays, n - 1);
      var s, t := r.states[n - 1], r.states[n];
      RunKeepsInv(r, delays, n, s, t);
    }
  }

  lemma RunStartsInv(r: Run, delays: nat)
    requires IsRun(r, delays)
    ensures Inv(r.states[0]) && r.states[0].delays == delays
  {
    InitialInv(delays);
  }

  lemma RunKeepsInv(r: Run, delays: nat, n: nat, s: State, t: State)
    requires IsRun(r, delays) && 0 < n <= |r.steps| && s == r.states[n - 1] && t == r.states[n] && Inv(s)
    ensures Inv(t) && t.delays == s.delays
  {
    var step := r.steps[n - 1];
    assert Enabled(s, step) && t == Next(s, step);
    StepKeepsInv(s, step);
    DelaysStay(s, step);
  }

  lemma InitialInv(delays: nat)
    ensures Inv(Initial(delays))
  {
    assert Paused(map[]) == {};
  }

  /** In every run: a chat's delivery order is what was handled followed by its
      buffer, so nothing overtakes a failed head; the events kept of those received
      are its live part, in the order received; every other positioned event
      received lies at or below missedThrough or was gone through by a read; the
      paused counter counts the paused chats; timed retries since the last trigger
      stay within the schedule. */
  lemma HeldDeliveryIsSafe(r: Run, delays: nat, chat: int)
    requires IsRun(r, delays)
    ensures var s := Last(r);
      && InOrder(s, chat) && Of(s, chat).done <= Entered(Of(s, chat).intake)
      && s.pausedDeliveries == |Paused(s.chats)|
      && (chat in s.chats ==> s.chats[chat].timed <= delays)
  {
    RunsKeepInv(r, delays, |r.steps|);
    var s := Last(r);
    assert InOrder(s, chat);
    assert chat in s.chats ==> Bounded(s, s.chats[chat]);
  }

  lemma DelaysStay(s: State, step: Step)
    requires Enabled(s, step)
    ensures Next(s, step).delays == s.delays
  {
    match step
    case Deliver(event, _, _, _) =>
      if event.chat.Some? { AddAllFrame(StartHold(s, event.chat.value), event.chat.value, [event]); }
    case Hold(chat, pending, _, _) => AddAllFrame(StartHold(s, chat), chat, pending);
    case _ =>
  }

  lemma {:induction false} KeptHas(received: seq<Received>, r: Received)
    requires r in received && r.kept
    ensures r.event in Kept(received)
  {
    var front := received[..|received| - 1];
    assert received == front + [received[|received| - 1]];
    if r in front { KeptHas(front, r); }
  }

  lemma {:induction false} LivesEnter(intake: seq<Intake>)
    ensures forall e :: e in Lives(intake) ==> e in Entered(intake)
  {
    if intake != [] { LivesEnter(intake[..|intake| - 1]); }
  }

  /** In every run, every positioned event a chat received was handled, is in its
      buffer, or lies at or below missedThrough or what a read went through. */
  lemma ReceivedIsAccounted(r: Run, delays: nat, chat: int, got: Received)
    requires IsRun(r, delays) && got in Of(Last(r), chat).received && Positioned(got.event)
    ensures var s, log := Last(r), got.event.log.value;
      got.event in Of(s, chat).done || got.event in Buffer(s, chat) || log <= MissedThrough(s, chat) ||
        log <= Of(s, chat).readThrough
  {
    HeldDeliveryIsSafe(r, delays, chat);
    var story := Of(Last(r), chat);
    if got.kept {
      KeptHas(story.received, got);
      LivesEnter(story.intake);
    }
  }

  /** History is append-only. */
  predicate Extends(a: Story, b: Story) {
    a.received <= b.received && a.intake <= b.intake && a.done <= b.done && a.readThrough <= b.readThrough
  }

  lemma {:induction false} AddAllExtends(s: State, chat: int, events: seq<Event>, c: int)
    requires chat in s.chats
    ensures Extends(Of(s, c), Of(AddAll(s, chat, events), c))
  {
    if events != [] { AddAllExtends(s, chat, events[..|events| - 1], c); }
  }

  lemma HistoryOnlyGrows(s: State, step: Step, c: int)
    requires Enabled(s, step)
    ensures Extends(Of(s, c), Of(Next(s, step), c))
  {
    match step
    case Deliver(event, _, _, _) =>
      if event.chat.Some? { AddAllExtends(StartHold(s, event.chat.value), event.chat.value, [event], c); }
    case Hold(chat, pending, _, _) => AddAllExtends(StartHold(s, chat), chat, pending, c);
    case _ =>
  }

  // ---- Reads that return what was dropped ----

  predicate Returns(missed: seq<Event>, e: Event) { exists i :: 0 <= i < |missed| && missed[i].log == e.log }

  /** The read returns every positioned event dropped since the last one. */
  ghost predicate Honest(s: State, step: Step) {
    step.Read? && step.missed.Some? ==>
      forall e :: e in Of(s, step.chat).dropped && Positioned(e) ==> Returns(step.missed.value, e)
  }

  /** Every positioned event received is still to be read, or its log entered the
      delivery order. */
  ghost predicate Present(story: Story) {
    forall r :: r in story.received && Positioned(r.event) ==>
      r.event in story.dropped || Returns(Entered(story.intake), r.event)
  }

  lemma ReturnsMore(a: seq<Event>, b: seq<Event>, e: Event)
    requires Returns(a, e) || Returns(b, e)
    ensures Returns(a + b, e)
  {
    if i :| 0 <= i < |a| && a[i].log == e.log {
      assert (a + b)[i].log == e.log;
    } else {
      var j :| 0 <= j < |b| && b[j].log == e.log;
      assert (a + b)[|a| + j].log == e.log;
    }
  }

  lemma TakePresent(story: Story, e: Event)
    requires Present(story)
    ensures Present(Take(story, e))
  {
    var t := Take(story, e);
    IntakeAppend(story.intake, Intake(e, true));
    forall r | r in t.received && Positioned(r.event)
      ensures r.event in t.dropped || Returns(Entered(t.intake), r.event)
    {
      if r == Received(e, true) { assert [e][0].log == e.log; }
      if r == Received(e, true) || Returns(Entered(story.intake), r.event) {
        ReturnsMore(Entered(story.intake), [e], r.event);
      }
    }
  }

  lemma ReadPresent(story: Story, missed: seq<Event>, through: nat)
    requires Present(story) && forall e :: e in story.dropped && Positioned(e) ==> Returns(missed, e)
    ensures Present(ReadBack(story, missed, through))
  {
    var t := ReadBack(story, missed, through);
    ReadsAppend(story.intake, missed);
    forall r | r in t.received && Positioned(r.event)
      ensures Returns(Entered(t.intake), r.event)
    {
      ReturnsMore(Entered(story.intake), missed, r.event);
    }
  }

  ghost predicate AllPresent(s: State) { forall c :: Present(Of(s, c)) }

  lemma AddPresent(s: State, chat: int, e: Event)
    requires chat in s.chats && AllPresent(s)
    ensures AllPresent(AddOne(s, chat, e))
  {
    forall c ensures Present(Of(AddOne(s, chat, e), c)) {
      assert Present(Of(s, c));
      if c == chat { TakePresent(Of(s, c), e); }
    }
  }

  lemma {:induction false} AddAllPresent(s: State, chat: int, events: seq<Event>)
    requires chat in s.chats && AllPresent(s)
    ensures AllPresent(AddAll(s, chat, events))
  {
    if events != [] {
      var front := events[..|events| - 1];
      AddAllPresent(s, chat, front);
      AddPresent(AddAll(s, chat, front), chat, events[|events| - 1]);
    }
  }

  /** A step that leaves every story's receipts and intake alone. */
  lemma SamePresent(s: State, t: State)
    requires AllPresent(s)
    requires forall c ::
      Of(t, c).received == Of(s, c).received && Of(t, c).intake == Of(s, c).intake &&
        Of(t, c).dropped == Of(s, c).dropped
    ensures AllPresent(t)
  {
    forall c ensures Present(Of(t, c)) { assert Present(Of(s, c)); }
  }

  lemma HoldPresent(s: State, chat: int, pending: seq<Event>, access: bool, at: int)
    requires AllPresent(s)
    ensures AllPresent(Schedule(AddAll(StartHold(s, chat), chat, pending), chat, access, at))
  {
    SamePresent(s, StartHold(s, chat));
    AddAllPresent(StartHold(s, chat), chat, pending);
    SamePresent(AddAll(StartHold(s, chat), chat, pending),
                Schedule(AddAll(StartHold(s, chat), chat, pending), chat, access, at));
  }

  lemma PassPresent(s: State, chat: int, event: Event)
    requires AllPresent(s)
    ensures AllPresent(Pass(s, chat, event))
  {
    forall c ensures Present(Of(Pass(s, chat, event), c)) {
      assert Present(Of(s, c));
      if c == chat { TakePresent(Of(s, c), event); }
    }
  }

  lemma RefillPresent(s: State, chat: int, missed: seq<Event>)
    requires AllPresent(s) && chat in s.chats
    requires forall e :: e in Of(s, chat).dropped && Positioned(e) ==> Returns(missed, e)
    ensures AllPresent(Refill(s, chat, missed))
  {
    forall c ensures Present(Of(Refill(s, chat, missed), c)) {
      assert Present(Of(s, c));
      if c == chat { ReadPresent(Of(s, c), missed, s.chats[chat].missedThrough); }
    }
  }

  lemma StepPresent(s: State, step: Step)
    requires AllPresent(s) && Enabled(s, step) && Honest(s, step)
    ensures AllPresent(Next(s, step))
  {
    match step
    case Deliver(event, handled, access, at) =>
      if event.chat.Some? {
        var chat := event.chat.value;
        if chat in s.chats { AddPresent(s, chat, event); }
        else if handled { PassPresent(s, chat, event); }
        else { HoldPresent(s, chat, [event], access, at); }
      }
    case Hold(chat, pending, access, at) => HoldPresent(s, chat, pending, access, at);
    case Read(chat, missed, _, _) =>
      if missed.Some? { RefillPresent(s, chat, missed.value); } else { SamePresent(s, Next(s, step)); }
    case _ => SamePresent(s, Next(s, step));
  }

  ghost predicate AllHonest(r: Run)
    requires |r.states| == |r.steps| + 1
  {
    forall i {:trigger r.steps[i]} :: 0 <= i < |r.steps| ==> Honest(r.states[i], r.steps[i])
  }

  lemma {:induction false} HonestRunsKeepPresent(r: Run, delays: nat, n: nat)
    requires IsRun(r, delays) && AllHonest(r) && n <= |r.steps|
    ensures AllPresent(r.states[n])
    decreases n
  {
    if n > 0 {
      HonestRunsKeepPresent(r, delays, n - 1);
      StepPresent(r.states[n - 1], r.steps[n - 1]);
    }
  }

  /** In every run whose reads return what was dropped, no positioned event is
      lost: of a chat that is not held each one's log was handled, and of a held
      one it was handled, is buffered, or is still to be read again. */
  lemma HonestReadsLoseNothing(r: Run, delays: nat, chat: int, got: Received)
    requires IsRun(r, delays) && AllHonest(r) && got in Of(Last(r), chat).received && Positioned(got.event)
    ensures var s := Last(r);
      Returns(Of(s, chat).done + Buffer(s, chat), got.event) ||
        (chat in s.chats && got.event.log.value <= s.chats[chat].missedThrough)
  {
    HonestRunsKeepPresent(r, delays, |r.steps|);
    HeldDeliveryIsSafe(r, delays, chat);
    assert Present(Of(Last(r), chat));
  }

  // ---- The event pump ----

  lemma RunStep(r: Run, delays: nat, step: Step, t: State)
    requires IsRun(r, delays) && Enabled(Last(r), step) && t == Next(Last(r), step)
    ensures IsRun(Run(r.states + [t], r.steps + [step]), delays)
  {
    var after := Run(r.states + [t], r.steps + [step]);
    forall i {:trigger after.steps[i]} | 0 <= i < |after.steps|
      ensures Enabled(after.states[i], after.steps[i]) && after.states[i + 1] == Next(after.states[i], after.steps[i])
    {
      if i < |r.steps| { assert after.steps[i] == r.steps[i]; }
    }
  }

  /** What the pump calls out to, by the number of the call: event delivery, the
      source access state, the clock, and the catch-up read. */
  datatype World = World(handles: (nat, Event) -> bool, access: nat -> bool, clock: nat -> int,
                         catchUp: (nat, int, nat) -> Option<seq<Event>>)

  /** Reads answer as the client's catch-up does. */
  ghost predicate Serves(world: World) {
    forall n: nat, chat: int, through: nat ::
      world.catchUp(n, chat, through).Some? ==> ReadsTo(world.catchUp(n, chat, through).value, chat, through)
  }

  /** The client's catch-up as the pump sees it. */
  function AsEvents(chat: int, logs: seq<Log>): seq<Event> {
    if logs == [] then []
    else [Event(Some(chat), if logs[0].id >= 0 then Some(logs[0].id) else None, 0)] + AsEvents(chat, logs[1..])
  }

  lemma {:induction false} CatchUpReads(chat: int, logs: seq<Log>, lo: nat, through: nat)
    requires Within(lo, logs, through)
    ensures Rising(lo, AsEvents(chat, logs), chat) && |AsEvents(chat, logs)| == |logs|
    ensures logs != [] ==> AsEvents(chat, logs)[|logs| - 1].log == Some(logs[|logs| - 1].id)
    decreases logs
  {
    if logs != [] {
      CatchUpReads(chat, logs[1..], logs[0].id, through);
      assert AsEvents(chat, logs)[1..] == AsEvents(chat, logs[1..]);
    }
  }

  class Pump {
    const world: World
    const delays: seq<nat>
    var chats: map<int, Held>
    var pausedDeliveries: int
    var calls: nat
    ghost var stories: map<int, Story>
    ghost var trace: Run

    ghost function View(): State
      reads this
    {
      State(|delays|, chats, pausedDeliveries, stories)
    }

    /** The pump is where a run of the machine leads. */
    ghost predicate Valid()
      reads this
    {
      IsRun(trace, |delays|) && Last(trace) == View() && Serves(world)
    }

    constructor (world: World, delays: seq<nat>)
      requires Serves(world)
      ensures Valid() && chats == map[]
    {
      this.world, this.delays := world, delays;
      chats, pausedDeliveries, calls := map[], 0, 0;
      stories, trace := map[], Run([Initial(|delays|)], []);
    }

    ghost method Took(before: State, step: Step)
      requires IsRun(trace, |delays|) && Last(trace) == before && Serves(world)
      requires Enabled(before, step) && View() == Next(before, step)
      modifies this`trace
      ensures Valid() && trace.steps == old(trace).steps + [step]
    {
      RunStep(trace, |delays|, step, View());
      trace := Run(trace.states + [View()], trace.steps + [step]);
    }

    method HandleEvent(e: Event) returns (ok: bool)
      modifies this`calls
      ensures ok == world.handles(old(calls), e) && calls == old(calls) + 1
    {
      ok := world.handles(calls, e);
      calls := calls + 1;
    }

    method Add(chat: int, e: Event)
      requires chat in chats
      modifies this`chats, this`stories
      ensures View() == AddOne(old(View()), chat, e)
    {
      var h := chats[chat];
      stories := AddOne(View(), chat, e).stories;
      if h.missedThrough == 0 && |h.events| < MAX_HELD_EVENTS {
        chats := chats[chat := h.(events := h.events + [e])];
        return;
      }
      if e.log.Some? {
        var through := if e.log.value > h.missedThrough then e.log.value else h.missedThrough;
        chats := chats[chat := h.(missedThrough := through)];
      }
      assert chats == old(chats)[chat := Added(h, e)];
    }

    method ScheduleHeld(chat: int) returns (ghost access: bool, ghost at: int)
      requires chat in chats
      modifies this`chats, this`pausedDeliveries, this`calls
      ensures View() == Schedule(old(View()), chat, access, at)
      ensures access == world.access(old(calls)) && calls == old(calls) + 1
      ensures var tries := old(chats)[chat].attempts;
              access && tries < |delays| ==> at == world.clock(calls) + delays[tries]
    {
      var h := chats[chat];
      calls := calls + 1;
      var open := world.access(calls - 1);
      access, at := open, 0;
      h := h.(due := None, retrying := false);
      if open && h.attempts < |delays| {
        var when := world.clock(calls) + delays[h.attempts];
        at := when;
        h := h.(due := Some(when));
      } else if open && !h.paused {
        pausedDeliveries := pausedDeliveries + 1;
        h := h.(paused := true);
      }
      chats := chats[chat := h];
    }

    method StartHolding(chat: int, pending: seq<Event>) returns (ghost access: bool, ghost at: int)
      requires chat !in chats
      modifies this`chats, this`pausedDeliveries, this`calls, this`stories
      ensures View() == Schedule(AddAll(StartHold(old(View()), chat), chat, pending), chat, access, at)
    {
      chats := chats[chat := FRESH];
      ghost var start := View();
      for i := 0 to |pending|
        invariant View() == AddAll(start, chat, pending[..i])
      {
        assert pending[..i + 1][..i] == pending[..i];
        Add(chat, pending[i]);
      }
      assert pending[..|pending|] == pending;
      access, at := ScheduleHeld(chat);
    }

    /** A failed event that belongs to no chat is the only one not taken. */
    method Deliver(e: Event) returns (ok: bool, ghost step: Step)
      requires Valid() && Idle(View())
      modifies this
      ensures Valid() && Idle(View()) && (!ok ==> e.chat.None? && View() == old(View()))
      ensures ok ==> trace.steps == old(trace).steps + [step] && step.Deliver? && step.event == e
      ensures ok ==> step.handled == (Joins(old(chats), e) || world.handles(old(calls), e))
    {
      if Joins(chats, e) {
        ghost var before := View();
        Add(e.chat.value, e);
        step := Step.Deliver(e, true, true, 0);
        Took(before, step);
        return true, step;
      }
      var handled := HandleEvent(e);
      step := Step.Deliver(e, true, true, 0);
      if handled {
        Passed(e);
        return true, step;
      }
      if e.chat.None? { return false, step; }
      ghost var before := View();
      ghost var access, at := StartHolding(e.chat.value, [e]);
      AddAllFrame(StartHold(before, e.chat.value), e.chat.value, [e]);
      step := Step.Deliver(e, false, access, at);
      Took(before, step);
      ok := true;
    }

    /** The event joins a chat that is already held. */
    predicate Joins(chats: map<int, Held>, e: Event) { e.chat.Some? && e.chat.value in chats }

    ghost method Passed(e: Event)
      requires Valid() && Idle(View()) && (e.chat.Some? ==> e.chat.value !in chats)
      modifies this`stories, this`trace
      ensures Valid() && trace.steps == old(trace).steps + [Step.Deliver(e, true, true, 0)]
    {
      ghost var before := View();
      if e.chat.Some? {
        stories := Pass(before, e.chat.value, e).stories;
      }
      Took(before, Step.Deliver(e, true, true, 0));
    }

    /** Catch-up or seeding leaves a chat's undelivered events to the pump. */
    method Hold(chat: int, pending: seq<Event>)
      requires Valid() && Idle(View()) && chat !in chats && pending != []
      modifies this
      ensures Valid() && Idle(View())
    {
      ghost var before := View();
      ghost var access, at := StartHolding(chat, pending);
      AddAllFrame(StartHold(before, chat), chat, pending);
      Took(before, Step.Hold(chat, pending, access, at));
    }

    ghost predicate Retrying(chat: int)
      reads this
    {
      Valid() && chat in chats && chats[chat].retrying
    }

    ghost function Done(chat: int): seq<Event>
      reads this
    {
      Of(View(), chat).done
    }

    /** A retry's last call failed: the delivery of the buffer's head, or the read
        of what overflow dropped. */
    ghost predicate Refused(h: Held, chat: int, from: nat, to: nat) {
      exists n: nat :: from <= n < to && Refuses(h, chat, n)
    }

    ghost predicate Refuses(h: Held, chat: int, n: nat) {
      if h.events != [] then !world.handles(n, h.events[0])
      else h.missedThrough > 0 && world.catchUp(n, chat, h.missedThrough).None?
    }

    /** What a retry that started from h and done leaves: the chat released with
        its buffer handled, or one more failed attempt with the rest held. */
    ghost predicate Ended(s: State, calls: nat, chat: int, h: Held, done: seq<Event>, from: nat) {
      if chat !in s.chats then done + h.events <= Of(s, chat).done
      else
        var now := s.chats[chat];
        && now.attempts == h.attempts + 1 && now.timed == h.timed && !now.retrying
        && done <= Of(s, chat).done && Refused(now, chat, from, calls)
    }

    method PopHead(chat: int)
      requires Retrying(chat) && chats[chat].events != []
      modifies this`chats, this`stories, this`trace
      ensures Retrying(chat) && chats == old(chats)[chat := old(chats)[chat].(events := old(chats)[chat].events[1..])]
      ensures Done(chat) == old(Done(chat)) + [old(chats)[chat].events[0]]
      ensures forall c :: c != chat ==> Done(c) == old(Done(c))
    {
      ghost var before := View();
      var h := chats[chat];
      chats, stories := chats[chat := h.(events := h.events[1..])], Pop(before, chat).stories;
      Took(before, Step.Handle(chat, true, true, 0));
    }

    method FailRetry(chat: int, ghost read: bool)
      requires Retrying(chat)
      requires (if read then chats[chat].events == [] && chats[chat].missedThrough > 0 else chats[chat].events != [])
      modifies this
      ensures Valid() && chat in chats && !chats[chat].retrying && chats == old(chats)[chat := chats[chat]]
      ensures chats[chat].events == old(chats)[chat].events
      ensures chats[chat].missedThrough == old(chats)[chat].missedThrough
      ensures chats[chat].attempts == old(chats)[chat].attempts + 1 && chats[chat].timed == old(chats)[chat].timed
      ensures stories == old(stories) && calls == old(calls) + 1
    {
      ghost var before := View();
      chats := chats[chat := chats[chat].(attempts := chats[chat].attempts + 1)];
      ghost var access, at := ScheduleHeld(chat);
      Took(before, if read then Step.Read(chat, None, access, at) else Step.Handle(chat, false, access, at));
    }

    method RefillFrom(chat: int, missed: seq<Event>)
      requires Retrying(chat) && chats[chat].events == [] && chats[chat].missedThrough > 0
      requires ReadsTo(missed, chat, chats[chat].missedThrough)
      modifies this`chats, this`stories, this`trace
      ensures Retrying(chat) && chats == old(chats)[chat := old(chats)[chat].(events := missed, missedThrough := 0)]
      ensures forall c :: Done(c) == old(Done(c))
    {
      ghost var before := View();
      chats, stories := chats[chat := chats[chat].(events := missed, missedThrough := 0)],
        Refill(before, chat, missed).stories;
      Took(before, Step.Read(chat, Some(missed), true, 0));
    }

    method ReleaseChat(chat: int)
      requires Retrying(chat) && chats[chat].events == [] && chats[chat].missedThrough == 0
      modifies this`chats, this`pausedDeliveries, this`trace
      ensures Valid() && chats == old(chats) - {chat}
    {
      ghost var before := View();
      if chats[chat].paused {
        pausedDeliveries := pausedDeliveries - 1;
      }
      chats := chats - {chat};
      Took(before, Step.Release(chat));
    }

    /** The first event that fails stops the drain; those before it were all
        handled, in order. */
    method Drain(chat: int) returns (drained: bool, ghost n: nat)
      requires Retrying(chat)
      modifies this
      ensures Valid() && chat in chats && chats == old(chats)[chat := chats[chat]] && chats[chat].retrying == drained
      ensures chats[chat].missedThrough == old(chats)[chat].missedThrough
      ensures n <= |old(chats)[chat].events| && chats[chat].events == old(chats)[chat].events[n..]
      ensures forall k :: 0 <= k < n ==> world.handles(old(calls) + k, old(chats)[chat].events[k])
      ensures if drained then n == |old(chats)[chat].events|
              else n < |old(chats)[chat].events| && !world.handles(old(calls) + n, old(chats)[chat].events[n])
      ensures chats[chat].attempts == old(chats)[chat].attempts + (if drained then 0 else 1)
      ensures chats[chat].timed == old(chats)[chat].timed && calls >= old(calls) + n + (if drained then 0 else 1)
      ensures Done(chat) == old(Done(chat)) + old(chats)[chat].events[..n]
      ensures forall c :: c != chat ==> Done(c) == old(Done(c))
    {
      n := 0;
      while chats[chat].events != []
        invariant Retrying(chat) && chats == old(chats)[chat := chats[chat]]
        invariant chats[chat].missedThrough == old(chats)[chat].missedThrough && calls == old(calls) + n
        invariant n <= |old(chats)[chat].events| && chats[chat].events == old(chats)[chat].events[n..]
        invariant forall k :: 0 <= k < n ==> world.handles(old(calls) + k, old(chats)[chat].events[k])
        invariant chats[chat].attempts == old(chats)[chat].attempts && chats[chat].timed == old(chats)[chat].timed
        invariant Done(chat) == old(Done(chat)) + old(chats)[chat].events[..n]
        invariant forall c :: c != chat ==> Done(c) == old(Done(c))
        decreases |chats[chat].events|
      {
        var handled := HandleEvent(chats[chat].events[0]);
        if !handled {
          FailRetry(chat, false);
          return false, n;
        }
        PopHead(chat);
        Prefix(old(chats)[chat].events, n);
        n := n + 1;
      }
      drained := true;
    }

    lemma EndsAt(s: State, calls: nat, chat: int, h: Held, done: seq<Event>, from: nat, at: nat)
      requires chat in s.chats && from <= at < calls && Refuses(s.chats[chat], chat, at) && done <= Of(s, chat).done
      requires s.chats[chat].attempts == h.attempts + 1 && s.chats[chat].timed == h.timed && !s.chats[chat].retrying
      ensures Ended(s, calls, chat, h, done, from)
    {
    }

    /** Full delivery releases the chat; a failure keeps the rest held. */
    method RetryHeld(chat: int)
      requires Retrying(chat)
      modifies this
      ensures Valid()
      ensures chats == old(chats) - {chat} ||
        (chat in chats && !chats[chat].retrying && chats == old(chats)[chat := chats[chat]])
      ensures Ended(View(), calls, chat, old(chats)[chat], old(Done(chat)), old(calls)) && calls >= old(calls)
      ensures forall c :: c != chat ==> Done(c) == old(Done(c))
    {
      while true
        invariant Retrying(chat) && chats == old(chats)[chat := chats[chat]] && calls >= old(calls)
        invariant chats[chat].attempts == old(chats)[chat].attempts && chats[chat].timed == old(chats)[chat].timed
        invariant old(Done(chat)) <= Done(chat)
        invariant old(Done(chat)) + old(chats)[chat].events <= Done(chat) + chats[chat].events
        invariant forall c :: c != chat ==> Done(c) == old(Done(c))
        decreases chats[chat].missedThrough
      {
        ghost var n;
        var drained;
        ghost var from, held := calls, chats[chat].events;
        drained, n := Drain(chat);
        if !drained {
          EndsAt(View(), calls, chat, old(chats)[chat], old(Done(chat)), old(calls), from + n);
          return;
        }
        assert held[..n] == held;
        if chats[chat].missedThrough == 0 { break; }
        var missed := world.catchUp(calls, chat, chats[chat].missedThrough);
        ghost var read := calls;
        calls := calls + 1;
        if missed.None? {
          FailRetry(chat, true);
          EndsAt(View(), calls, chat, old(chats)[chat], old(Done(chat)), old(calls), read);
          return;
        }
        RefillFrom(chat, missed.value);
      }
      ReleaseChat(chat);
    }

    /** A retry by the clock is counted; a trigger restarts the schedule. */
    ghost function Started(h: Held, now: Option<int>): Held {
      if now.Some? then h.(timed := h.timed + 1) else h.(attempts := 0, timed := 0)
    }

    /** The held chat enters a retry, by the clock or by a trigger. */
    method StartRetry(chat: int, now: Option<int>)
      requires Valid() && Idle(View()) && chat in chats
      requires if now.Some? then chats[chat].due.Some? && chats[chat].due.value <= now.value else chats[chat].due.None?
      modifies this
      ensures Valid() && Idle(View())
      ensures chats == old(chats) - {chat} || (chat in chats && chats == old(chats)[chat := chats[chat]])
      ensures calls >= old(calls)
      ensures Ended(View(), calls, chat, Started(old(chats)[chat], now), old(Done(chat)), old(calls))
      ensures forall c :: c != chat ==> Done(c) == old(Done(c))
    {
      ghost var before := View();
      var h := chats[chat];
      if now.Some? {
        chats := chats[chat := h.(timed := h.timed + 1, retrying := true)];
        Took(before, Step.StartTimed(chat, now.value));
      } else {
        chats := chats[chat := h.(attempts := 0, timed := 0, retrying := true)];
        Took(before, Step.Resume(chat));
      }
      RetryHeld(chat);
    }

    /** Of the chats held in was, those chosen and no longer to do were retried
        once, as Ended says; the others are as they were. */
    ghost predicate Swept(was: State, s: State, chosen: set<int>, todo: set<int>, now: Option<int>, from: nat,
                          to: nat) {
      && s.chats.Keys <= was.chats.Keys && from <= to
      && forall c :: c in was.chats ==> SweptOne(was, s, c, c in chosen && c !in todo, now, from, to)
    }

    ghost predicate SweptOne(was: State, s: State, c: int, retried: bool, now: Option<int>, from: nat, to: nat)
      requires c in was.chats
    {
      if retried then Ended(s, to, c, Started(was.chats[c], now), Of(was, c).done, from) else Same(was, s, c)
    }

    ghost predicate Same(s: State, t: State, c: int)
      requires c in s.chats
    {
      c in t.chats && t.chats[c] == s.chats[c] && Of(t, c).done == Of(s, c).done
    }

    lemma SweptStep(was: State, s: State, t: State, chat: int, chosen: set<int>, todo: set<int>, now: Option<int>,
                    from: nat, at: nat, to: nat)
      requires Swept(was, s, chosen, todo + {chat}, now, from, at) && chat in chosen && chat !in todo && at <= to
      requires chat in was.chats && Ended(t, to, chat, Started(was.chats[chat], now), Of(was, chat).done, from)
      requires t.chats == s.chats - {chat} || (chat in t.chats && t.chats == s.chats[chat := t.chats[chat]])
      requires forall c :: c != chat ==> Of(t, c).done == Of(s, c).done
      ensures Swept(was, t, chosen, todo, now, from, to)
    {
      forall c | c in was.chats
        ensures SweptOne(was, t, c, c in chosen && c !in todo, now, from, to)
      {
        assert SweptOne(was, s, c, c in chosen && c !in todo + {chat}, now, from, at);
        if c != chat && c in chosen && c !in todo && c in s.chats {
          var n: nat :| from <= n < at && Refuses(s.chats[c], c, n);
          assert Refuses(t.chats[c], c, n);
        }
      }
    }

    method RetryNext(chat: int, now: Option<int>, ghost was: State, ghost chosen: set<int>, ghost todo: set<int>,
                     ghost from: nat)
      requires Valid() && Idle(View()) && Swept(was, View(), chosen, todo + {chat}, now, from, calls)
      requires chat in chats && chat in was.chats && chat in chosen && chat !in todo
      requires if now.Some? then chats[chat].due.Some? && chats[chat].due.value <= now.value else chats[chat].due.None?
      modifies this
      ensures Valid() && Idle(View()) && Swept(was, View(), chosen, todo, now, from, calls)
    {
      ghost var before, at := View(), calls;
      assert SweptOne(was, before, chat, false, now, from, at);
      StartRetry(chat, now);
      forall c | c != chat
        ensures Of(View(), c).done == Of(before, c).done
      {
        assert Done(c) == old(Done(c));
      }
      EndedEarlier(View(), calls, chat, Started(was.chats[chat], now), Of(was, chat).done, from, at);
      SweptStep(was, before, View(), chat, chosen, todo, now, from, at, calls);
    }

    lemma EndedEarlier(s: State, calls: nat, chat: int, h: Held, done: seq<Event>, from: nat, at: nat)
      requires Ended(s, calls, chat, h, done, at) && from <= at
      ensures Ended(s, calls, chat, h, done, from)
    {
      if chat in s.chats {
        var n: nat :| at <= n < calls && Refuses(s.chats[chat], chat, n);
        assert from <= n;
      }
    }

    ghost function DueAt(now: int): set<int>
      reads this
    {
      set c | c in chats && chats[c].due.Some? && chats[c].due.value <= now
    }

    /** Every chat whose timed retry is due is retried once, and no other. */
    method RetryDueHolds(now: int)
      requires Valid() && Idle(View())
      modifies this
      ensures Valid() && Idle(View())
      ensures Swept(old(View()), View(), old(DueAt(now)), {}, Some(now), old(calls), calls)
    {
      ghost var was, chosen, from := View(), DueAt(now), calls;
      var todo := chats.Keys;
      while todo != {}
        invariant Valid() && Idle(View()) && todo <= was.chats.Keys
        invariant Swept(was, View(), chosen, todo, Some(now), from, calls)
        decreases todo
      {
        var chat := PickOne(todo);
        assert SweptOne(was, View(), chat, false, Some(now), from, calls);
        ghost var rest := todo;
        todo := todo - {chat};
        assert todo + {chat} == rest;
        var h := chats[chat];
        if h.due.Some? && h.due.value <= now {
          RetryNext(chat, Some(now), was, chosen, todo, from);
        }
      }
    }

    ghost function WaitingFor(which: int): set<int>
      reads this
    {
      set c | c in chats && chats[c].due.None? && (which == 0 || c == which)
    }

    /** Chat 0 resumes every chat that waits for a trigger; chats with a timed
        retry keep it. */
    method ResumeHeld(which: int)
      requires Valid() && Idle(View())
      modifies this
      ensures Valid() && Idle(View())
      ensures Swept(old(View()), View(), old(WaitingFor(which)), {}, None, old(calls), calls)
    {
      ghost var was, chosen, from := View(), WaitingFor(which), calls;
      var todo := chats.Keys;
      while todo != {}
        invariant Valid() && Idle(View()) && todo <= was.chats.Keys
        invariant Swept(was, View(), chosen, todo, None, from, calls)
        decreases todo
      {
        var chat := PickOne(todo);
        assert SweptOne(was, View(), chat, false, None, from, calls);
        ghost var rest := todo;
        todo := todo - {chat};
        assert todo + {chat} == rest;
        var h := chats[chat];
        if (which == 0 || chat == which) && h.due.None? {
          RetryNext(chat, None, was, chosen, todo, from);
        }
      }
    }
  }

  /** The earliest timed retry, if any. */
  method NextHeldRetry(chats: map<int, Held>) returns (next: Option<int>)
    ensures next.Some? ==> exists c :: c in chats && chats[c].due == next
    ensures forall c :: c in chats && chats[c].due.Some? ==> next.Some? && next.value <= chats[c].due.value
  {
    next := None;
    var todo := chats.Keys;
    while todo != {}
      invariant todo <= chats.Keys && (next.Some? ==> exists c :: c in chats && chats[c].due == next)
      invariant forall c :: c in chats && c !in todo && chats[c].due.Some? ==>
        next.Some? && next.value <= chats[c].due.value
      decreases todo
    {
      var chat := PickOne(todo);
      if chats[chat].due.Some? && (next.None? || chats[chat].due.value < next.value) {
        next := chats[chat].due;
      }
      todo := todo - {chat};
    }
  }
}
