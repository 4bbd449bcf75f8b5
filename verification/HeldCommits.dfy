/** The client's commit queue beside the event pump: how pending commits and
    undelivered events stay in balance, what an overflow of a held chat's buffer
    costs, and when a commit is answered as out of order
    (internal/client/client.go, internal/bridge/connector/delivery_hold.go). */
module HeldCommits {
  import opened Basics
  import opened CatchUpClient
  import DH = DeliveryHold

  /** stream: events whose commits are queued and that the pump has not taken yet. */
  datatype Joint = Joint(hold: DH.State, queue: map<int, seq<int>>, stream: seq<DH.Event>)

  /** handled: the event was delivered and, if it has a position, committed. */
  datatype Step =
    | Arrive(event: DH.Event)
    | Take(handled: bool, access: bool, at: int)
    | Retry(step: DH.Step)

  function Initial(delays: nat): Joint { Joint(DH.Initial(delays), map[], []) }

  /** The event's own log, when it has a position. */
  function First(e: DH.Event): seq<int> { if DH.Positioned(e) then [e.log.value] else [] }

  /** The commit of the event is not answered as out of order. */
  predicate InTurn(j: Joint, chat: int, e: DH.Event) { DH.Positioned(e) ==> IsHead(j.queue, chat, e.log.value) }

  /** The pump handles the stream's first event at once. */
  predicate Passes(j: Joint, handled: bool) {
    j.stream != [] && j.stream[0].chat.Some? && j.stream[0].chat.value !in j.hold.chats && handled
  }

  ghost predicate Enabled(j: Joint, step: Step) {
    match step
    case Arrive(event) => DH.Positioned(event) ==> event.chat.Some?
    case Take(handled, access, at) =>
      && j.stream != [] && DH.Enabled(j.hold, DH.Deliver(j.stream[0], handled, access, at))
      && (Passes(j, handled) ==> InTurn(j, j.stream[0].chat.value, j.stream[0]))
    case Retry(step) =>
      && (step.StartTimed? || step.Resume? || step.Handle? || step.Read? || step.Release?) && DH.Enabled(j.hold, step)
      && (step.Handle? && step.handled ==> InTurn(j, step.chat, j.hold.chats[step.chat].events[0]))
  }

  /** A handled event with a position commits it. */
  function Committed(queue: map<int, seq<int>>, chat: int, e: DH.Event): map<int, seq<int>>
    requires DH.Positioned(e) ==> IsHead(queue, chat, e.log.value)
  {
    if DH.Positioned(e) then Dequeue(queue, chat) else queue
  }

  ghost function Next(j: Joint, step: Step): Joint
    requires Enabled(j, step)
  {
    match step
    case Arrive(e) =>
      var queue := if DH.Positioned(e) then Enqueue(j.queue, e.chat.value, First(e)) else j.queue;
      j.(stream := j.stream + [e], queue := queue)
    case Take(handled, access, at) =>
      var e := j.stream[0];
      Joint(DH.Next(j.hold, DH.Deliver(e, handled, access, at)),
            if Passes(j, handled) then Committed(j.queue, e.chat.value, e) else j.queue, j.stream[1..])
    case Retry(step) => j.(hold := DH.Next(j.hold, step), queue := QueueAfter(j, step))
  }

  /** A read queues the commits of what it returns. */
  ghost function QueueAfter(j: Joint, step: DH.Step): map<int, seq<int>>
    requires Enabled(j, Retry(step))
  {
    if step.Handle? && step.handled then Committed(j.queue, step.chat, j.hold.chats[step.chat].events[0])
    else if step.Read? && step.missed.Some? then Enqueue(j.queue, step.chat, Logs(step.missed.value))
    else j.queue
  }

  /** The logs of the positioned events, in order. */
  function Logs(events: seq<DH.Event>): seq<int> {
    if events == [] then [] else First(events[0]) + Logs(events[1..])
  }

  function StreamLogs(stream: seq<DH.Event>, chat: int): seq<int> {
    if stream == [] then []
    else (if stream[0].chat == Some(chat) then First(stream[0]) else []) + StreamLogs(stream[1..], chat)
  }

  /** The positioned events that overflow dropped this session. */
  function Drops(received: seq<DH.Received>): nat {
    if received == [] then 0
    else
      var last := received[|received| - 1];
      Drops(received[..|received| - 1]) + if !last.kept && DH.Positioned(last.event) then 1 else 0
  }

  function Lost(j: Joint, chat: int): nat { Drops(DH.Of(j.hold, chat).received) }

  /** What the chat's buffer and the stream still hold. */
  function Undelivered(j: Joint, chat: int): seq<int> { Logs(DH.Buffer(j.hold, chat)) + StreamLogs(j.stream, chat) }

  /** Each dropped event leaves one commit too many, and none is left without a
      drop: the queue is then exactly what is undelivered. */
  ghost predicate Balanced(j: Joint, chat: int) {
    && |QueueOf(j.queue, chat)| == |Undelivered(j, chat)| + Lost(j, chat)
    && (Lost(j, chat) == 0 ==> QueueOf(j.queue, chat) == Undelivered(j, chat) && DH.MissedThrough(j.hold, chat) == 0)
  }

  ghost predicate Inv(j: Joint) { forall c :: Balanced(j, c) }

  // ---- Sequences of events ----

  lemma {:induction false} LogsAppend(a: seq<DH.Event>, b: seq<DH.Event>)
    ensures Logs(a + b) == Logs(a) + Logs(b)
  {
    if a == [] {
      assert a + b == b;
    } else {
      ConcatTail(a, b);
      LogsAppend(a[1..], b);
      Associates(First(a[0]), Logs(a[1..]), Logs(b));
    }
  }

  lemma LogsOne(e: DH.Event)
    ensures Logs([e]) == First(e)
  {
    Cons(e, []);
    assert [e] + [] == [e] && First(e) + [] == First(e);
  }

  lemma {:induction false} StreamAppend(a: seq<DH.Event>, e: DH.Event, chat: int)
    ensures StreamLogs(a + [e], chat) == StreamLogs(a, chat) + (if e.chat == Some(chat) then First(e) else [])
  {
    if a == [] {
      assert a + [e] == [e] && [e][1..] == [];
    } else {
      ConcatTail(a, [e]);
      StreamAppend(a[1..], e, chat);
      Associates(if a[0].chat == Some(chat) then First(a[0]) else [], StreamLogs(a[1..], chat),
                 if e.chat == Some(chat) then First(e) else []);
    }
  }

  lemma QueueAt(queue: map<int, seq<int>>, chat: int, logs: seq<int>, c: int)
    ensures QueueOf(Enqueue(queue, chat, logs), c) == if c == chat then QueueOf(queue, c) + logs else QueueOf(queue, c)
  {
    if logs == [] { assert QueueOf(queue, c) + [] == QueueOf(queue, c); }
  }

  lemma CommitAt(queue: map<int, seq<int>>, chat: int, e: DH.Event, c: int)
    requires DH.Positioned(e) ==> IsHead(queue, chat, e.log.value)
    ensures c != chat ==> QueueOf(Committed(queue, chat, e), c) == QueueOf(queue, c)
    ensures c == chat ==> QueueOf(queue, c) == First(e) + QueueOf(Committed(queue, chat, e), c)
  {
    if c == chat && !DH.Positioned(e) { assert [] + QueueOf(queue, c) == QueueOf(queue, c); }
    if c == chat && DH.Positioned(e) {
      assert QueueOf(queue, c) == [QueueOf(queue, c)[0]] + QueueOf(queue, c)[1..];
    }
  }

  lemma DropsAppend(received: seq<DH.Received>, r: DH.Received)
    ensures Drops(received + [r]) == Drops(received) + if !r.kept && DH.Positioned(r.event) then 1 else 0
  {
    Snoc(received, r);
  }

  // ---- What the pump's steps do to one chat ----

  /** What the balance sees of a chat. */
  datatype Facts = Facts(buffer: seq<DH.Event>, missed: nat, lost: nat)

  function Of(s: DH.State, c: int): Facts {
    Facts(DH.Buffer(s, c), DH.MissedThrough(s, c), Drops(DH.Of(s, c).received))
  }

  lemma AddFacts(s: DH.State, chat: int, e: DH.Event, c: int)
    requires chat in s.chats
    ensures c != chat ==> Of(DH.AddOne(s, chat, e), c) == Of(s, c)
    ensures DH.Fits(s.chats[chat]) ==>
      Of(DH.AddOne(s, chat, e), chat) == Facts(s.chats[chat].events + [e], 0, Of(s, chat).lost)
    ensures !DH.Fits(s.chats[chat]) ==>
      var t := Of(DH.AddOne(s, chat, e), chat);
      t.buffer == s.chats[chat].events && t.lost == Of(s, chat).lost + |First(e)| &&
      (First(e) == [] ==> t.missed == Of(s, chat).missed)
  {
    DropsAppend(DH.Of(s, chat).received, DH.Received(e, DH.Fits(s.chats[chat])));
  }

  lemma HoldFacts(s: DH.State, chat: int, e: DH.Event, access: bool, at: int, c: int)
    requires chat !in s.chats
    ensures var t := DH.Schedule(DH.AddAll(DH.StartHold(s, chat), chat, [e]), chat, access, at);
      Of(t, c) == if c == chat then Facts([e], 0, Of(s, chat).lost) else Of(s, c)
  {
    var started := DH.StartHold(s, chat);
    assert [e][..0] == [] && DH.AddAll(started, chat, []) == started;
    assert DH.AddAll(started, chat, [e]) == DH.AddOne(started, chat, e);
    AddFacts(started, chat, e, c);
    assert [] + [e] == [e];
  }

  lemma PassFacts(s: DH.State, chat: int, e: DH.Event, c: int)
    requires chat !in s.chats
    ensures Of(DH.Pass(s, chat, e), c) == Of(s, c)
  {
    DropsAppend(DH.Of(s, chat).received, DH.Received(e, true));
  }

  lemma RetryFacts(j: Joint, step: DH.Step, c: int)
    requires Enabled(j, Retry(step))
    ensures var t := DH.Next(j.hold, step);
      Of(t, c) ==
        if step.Handle? && step.handled && step.chat == c then Of(j.hold, c).(buffer := j.hold.chats[c].events[1..])
        else if step.Read? && step.missed.Some? && step.chat == c then Facts(step.missed.value, 0, Of(j.hold, c).lost)
        else Of(j.hold, c)
  {
  }

  // ---- The balance ----

  lemma ArriveKeeps(j: Joint, e: DH.Event, c: int)
    requires Balanced(j, c) && Enabled(j, Arrive(e))
    ensures Balanced(Next(j, Arrive(e)), c)
  {
    var logs := Logs(DH.Buffer(j.hold, c));
    StreamAppend(j.stream, e, c);
    if DH.Positioned(e) { QueueAt(j.queue, e.chat.value, First(e), c); }
    Associates(logs, StreamLogs(j.stream, c), if e.chat == Some(c) then First(e) else []);
    if e.chat != Some(c) { assert StreamLogs(j.stream, c) + [] == StreamLogs(j.stream, c); }
    if First(e) == [] { assert StreamLogs(j.stream, c) + [] == StreamLogs(j.stream, c); }
  }

  /** The stream's first event leaves it. */
  lemma StreamMoves(buffer: seq<DH.Event>, stream: seq<DH.Event>, c: int)
    requires stream != []
    ensures stream[0].chat == Some(c) ==>
      Logs(buffer) + StreamLogs(stream, c) == Logs(buffer + [stream[0]]) + StreamLogs(stream[1..], c)
    ensures stream[0].chat == Some(c) ==> |StreamLogs(stream, c)| == |First(stream[0])| + |StreamLogs(stream[1..], c)|
    ensures stream[0].chat != Some(c) || First(stream[0]) == [] ==> StreamLogs(stream, c) == StreamLogs(stream[1..], c)
  {
    var e, rest := stream[0], StreamLogs(stream[1..], c);
    assert [] + rest == rest;
    if e.chat == Some(c) {
      LogsOne(e);
      LogsAppend(buffer, [e]);
      Associates(Logs(buffer), First(e), rest);
    }
  }

  lemma TakeKeeps(j: Joint, handled: bool, access: bool, at: int, c: int)
    requires Balanced(j, c) && Enabled(j, Take(handled, access, at))
    ensures Balanced(Next(j, Take(handled, access, at)), c)
  {
    var e := j.stream[0];
    StreamMoves(DH.Buffer(j.hold, c), j.stream, c);
    if e.chat.Some? {
      var chat := e.chat.value;
      if chat in j.hold.chats {
        AddFacts(j.hold, chat, e, c);
      } else if handled {
        PassFacts(j.hold, chat, e, c);
        PassKeeps(j, handled, access, at, c);
      } else {
        HoldFacts(j.hold, chat, e, access, at, c);
        assert [] + [e] == [e];
      }
    }
  }

  /** A commit in turn leaves the queue with its event. */
  lemma Settles(before: seq<int>, after: seq<int>, head: seq<int>, rest: seq<int>, lost: nat)
    requires before == head + after && |before| == |head + rest| + lost && (lost == 0 ==> before == head + rest)
    ensures |after| == |rest| + lost && (lost == 0 ==> after == rest)
  {
    assert (head + after)[|head|..] == after && (head + rest)[|head|..] == rest;
  }

  lemma PassKeeps(j: Joint, handled: bool, access: bool, at: int, c: int)
    requires Balanced(j, c) && Enabled(j, Take(handled, access, at)) && Passes(j, handled)
    requires Of(DH.Pass(j.hold, j.stream[0].chat.value, j.stream[0]), c) == Of(j.hold, c)
    ensures Balanced(Next(j, Take(handled, access, at)), c)
  {
    var e, rest := j.stream[0], StreamLogs(j.stream[1..], c);
    var t := Next(j, Take(handled, access, at));
    CommitAt(j.queue, e.chat.value, e, c);
    assert t.hold == DH.Pass(j.hold, e.chat.value, e) && DH.Buffer(t.hold, c) == DH.Buffer(j.hold, c);
    if c == e.chat.value {
      assert Undelivered(j, c) == First(e) + rest by { assert [] + StreamLogs(j.stream, c) == StreamLogs(j.stream, c); }
      assert Undelivered(t, c) == rest by { assert [] + rest == rest; }
      Settles(QueueOf(j.queue, c), QueueOf(t.queue, c), First(e), rest, Lost(j, c));
    } else {
      assert [] + rest == rest && Undelivered(t, c) == Undelivered(j, c);
    }
  }

  lemma RetryKeeps(j: Joint, step: DH.Step, c: int)
    requires Balanced(j, c) && Enabled(j, Retry(step))
    ensures Balanced(Next(j, Retry(step)), c)
  {
    RetryFacts(j, step, c);
    if step.Handle? && step.handled {
      HandleKeeps(j, step, c);
    } else if step.Read? && step.missed.Some? {
      QueueAt(j.queue, step.chat, Logs(step.missed.value), c);
    }
  }

  lemma HandleKeeps(j: Joint, step: DH.Step, c: int)
    requires Balanced(j, c) && Enabled(j, Retry(step)) && step.Handle? && step.handled
    ensures Balanced(Next(j, Retry(step)), c)
  {
    var events := j.hold.chats[step.chat].events;
    RetryFacts(j, step, c);
    CommitAt(j.queue, step.chat, events[0], c);
    if c == step.chat {
      var rest := Logs(events[1..]) + StreamLogs(j.stream, c);
      Associates(First(events[0]), Logs(events[1..]), StreamLogs(j.stream, c));
      Settles(QueueOf(j.queue, c), QueueOf(Next(j, Retry(step)).queue, c), First(events[0]), rest, Lost(j, c));
    }
  }

  lemma StepKeepsInv(j: Joint, step: Step)
    requires Inv(j) && Enabled(j, step)
    ensures Inv(Next(j, step))
  {
    forall c ensures Balanced(Next(j, step), c) {
      assert Balanced(j, c);
      match step
      case Arrive(e) => ArriveKeeps(j, e, c);
      case Take(handled, access, at) => TakeKeeps(j, handled, access, at, c);
      case Retry(step) => RetryKeeps(j, step, c);
    }
  }

  // ---- Runs ----

  datatype Run = Run(states: seq<Joint>, steps: seq<Step>)

  ghost predicate IsRun(r: Run, delays: nat) {
    && |r.states| == |r.steps| + 1 && r.states[0] == Initial(delays)
    && forall i {:trigger r.steps[i]} :: 0 <= i < |r.steps| ==>
       Enabled(r.states[i], r.steps[i]) && r.states[i + 1] == Next(r.states[i], r.steps[i])
  }

  lemma {:induction false} RunsKeepInv(r: Run, delays: nat, n: nat)
    requires IsRun(r, delays) && n <= |r.steps|
    ensures Inv(r.states[n])
    decreases n
  {
    if n == 0 {
      forall c ensures Balanced(r.states[0], c) {}
    } else {
      RunsKeepInv(r, delays, n - 1);
      var j, t := r.states[n - 1], r.states[n];
      assert Enabled(j, r.steps[n - 1]) && t == Next(j, r.steps[n - 1]);
      StepKeepsInv(j, r.steps[n - 1]);
    }
  }

  /** In every run, with overflow, reads and failures: a chat has as many pending
      commits as events to deliver, and one more for each event that overflow
      ever dropped. */
  lemma PendingExceedsByLost(r: Run, delays: nat, chat: int)
    requires IsRun(r, delays)
    ensures var j := r.states[|r.steps|]; |QueueOf(j.queue, chat)| == |Undelivered(j, chat)| + Lost(j, chat)
  {
    RunsKeepInv(r, delays, |r.steps|);
    assert Balanced(r.states[|r.steps|], chat);
  }

  /** In every run, a chat that lost nothing has exactly its undelivered events
      pending, in order: the commit of its next event is in turn. */
  lemma CommitsAreNeverOutOfOrder(r: Run, delays: nat, chat: int)
    requires IsRun(r, delays) && Lost(r.states[|r.steps|], chat) == 0
    ensures var j := r.states[|r.steps|];
      && QueueOf(j.queue, chat) == Undelivered(j, chat)
      && (DH.Buffer(j.hold, chat) != [] ==> InTurn(j, chat, DH.Buffer(j.hold, chat)[0]))
      && (DH.Buffer(j.hold, chat) == [] && j.stream != [] && j.stream[0].chat == Some(chat) ==>
          InTurn(j, chat, j.stream[0]))
  {
    RunsKeepInv(r, delays, |r.steps|);
    assert Balanced(r.states[|r.steps|], chat);
  }

  /** Nothing of the chat is held or on its way. */
  ghost predicate Quiet(j: Joint, chat: int) { chat !in j.hold.chats && StreamLogs(j.stream, chat) == [] }

  /** In every run, when a chat is quiet, the commit of the next event to arrive,
      one that is not pending yet, will be in turn if and only if overflow never
      dropped an event of the chat. */
  lemma NextCommitIff(r: Run, delays: nat, chat: int, e: DH.Event)
    requires IsRun(r, delays) && Quiet(r.states[|r.steps|], chat)
    requires DH.Positioned(e) && e.chat == Some(chat) && e.log.value !in QueueOf(r.states[|r.steps|].queue, chat)
    ensures var j := r.states[|r.steps|]; InTurn(Next(j, Arrive(e)), chat, e) <==> Lost(j, chat) == 0
  {
    var j := r.states[|r.steps|];
    RunsKeepInv(r, delays, |r.steps|);
    assert Balanced(j, chat);
    QueueAt(j.queue, chat, First(e), chat);
    if QueueOf(j.queue, chat) != [] { assert QueueOf(j.queue, chat)[0] in QueueOf(j.queue, chat); }
  }

  // ---- A refused commit ----

  /** The chat's next event is refused as out of order. */
  ghost predicate Stuck(j: Joint, chat: int, e: DH.Event) {
    DH.Buffer(j.hold, chat) != [] && DH.Buffer(j.hold, chat)[0] == e && !InTurn(j, chat, e)
  }

  lemma StuckStays(j: Joint, step: Step, chat: int, e: DH.Event)
    requires Inv(j) && Stuck(j, chat, e) && Enabled(j, step)
    ensures Stuck(Next(j, step), chat, e)
  {
    assert Balanced(j, chat) && |Undelivered(j, chat)| > 0;
    match step
    case Arrive(other) => if DH.Positioned(other) { QueueAt(j.queue, other.chat.value, First(other), chat); }
    case Take(handled, access, at) => StuckTake(j, handled, access, at, chat, e);
    case Retry(step) => StuckRetry(j, step, chat, e);
  }

  lemma StuckTake(j: Joint, handled: bool, access: bool, at: int, chat: int, e: DH.Event)
    requires Stuck(j, chat, e) && Enabled(j, Take(handled, access, at))
    ensures Stuck(Next(j, Take(handled, access, at)), chat, e)
  {
    var other := j.stream[0];
    if other.chat.Some? {
      var from := other.chat.value;
      if from in j.hold.chats {
        AddFacts(j.hold, from, other, chat);
      } else if handled {
        PassFacts(j.hold, from, other, chat);
        CommitAt(j.queue, from, other, chat);
      } else {
        HoldFacts(j.hold, from, other, access, at, chat);
      }
    }
  }

  lemma StuckRetry(j: Joint, step: DH.Step, chat: int, e: DH.Event)
    requires Stuck(j, chat, e) && Enabled(j, Retry(step))
    ensures Stuck(Next(j, Retry(step)), chat, e)
  {
    RetryFacts(j, step, chat);
    if step.Handle? && step.handled {
      CommitAt(j.queue, step.chat, j.hold.chats[step.chat].events[0], chat);
    } else if step.Read? && step.missed.Some? {
      QueueAt(j.queue, step.chat, Logs(step.missed.value), chat);
    }
  }

  /** In every run: once a held chat's first event is refused, it stays first and
      refused for the rest of the session, whatever is retried or arrives. */
  lemma {:induction false} RefusedStaysRefused(r: Run, delays: nat, n: nat, m: nat, chat: int, e: DH.Event)
    requires IsRun(r, delays) && n <= m <= |r.steps| && Stuck(r.states[n], chat, e)
    ensures Stuck(r.states[m], chat, e)
    decreases m
  {
    if n < m {
      RefusedStaysRefused(r, delays, n, m - 1, chat, e);
      RunsKeepInv(r, delays, m - 1);
      assert Enabled(r.states[m - 1], r.steps[m - 1]) && r.states[m] == Next(r.states[m - 1], r.steps[m - 1]);
      StuckStays(r.states[m - 1], r.steps[m - 1], chat, e);
    }
  }
}
