/** Sessions as a state machine: connect, catch up, go live, commit, crash and
    connect again. Each step is one of the client's atomic sections; a crash or
    a failed write between two of them is a step of its own. */
module DeliverySession {
  import opened CatchUpRoom
  import opened CatchUpAccount
  import opened CatchUpFinish
  import opened CatchUpClient
  import opened CatchUpSingle

  datatype Phase = Fresh | Finishing | Open | Dead

  /** A room as its chain ended, and whether its events project. */
  datatype Planned = Planned(room: Room, projects: bool)

  /** A read of one chat that succeeded: the position it started from, and its
      target, through which it resolves the chat's gap. */
  datatype Reading = Reading(from: int, target: int)

  /** cp is durable. queued and committed are this session's history; owed holds
      the rooms of this session's catch-up, and readings its later reads of single
      chats. */
  datatype Session = Session(
    cp: CP.View, queue: map<int, seq<int>>, queued: map<int, seq<int>>, committed: map<int, seq<int>>,
    plan: map<int, Planned>, owed: map<int, Planned>, readings: map<int, seq<Reading>>, phase: Phase)

  datatype Step =
    | Connect(op: CP.Op)
    | Chained(plan: map<int, Planned>)
    | FinishRoom(id: int, writes: nat)
    | Admit(chat: int, log: int)
    | CommitHead(chat: int, log: int)
    | Recovered(chat: int, through: int, logs: seq<Log>)
    | Unrecovered(chat: int, from: int, through: int)
    | Crash

  function ReadingsOf(s: Session, chat: int): seq<Reading> { if chat in s.readings then s.readings[chat] else [] }

  /** This session's catch-up neither delivered x nor saw it inside a link. */
  ghost predicate Owes(s: Session, chat: int, x: int) {
    chat in s.owed && Owed(s.owed[chat].room, s.owed[chat].projects, x)
  }

  /** A later read of the chat started below x and went through it. */
  ghost predicate ReadAgain(s: Session, chat: int, x: int) {
    exists r :: r in ReadingsOf(s, chat) && r.from < x <= r.target
  }

  /** A later read resolved the gap through x without reading x. */
  ghost predicate Erased(s: Session, chat: int, x: int) {
    exists r :: r in ReadingsOf(s, chat) && x <= r.from && x <= r.target
  }

  function WritesOf(s: Session, id: int): seq<CP.Op>
    requires id in s.plan
  {
    var p := s.plan[id];
    Writes(id, p.room, FinalOf(p.room, p.projects, HasGapThrough(s.cp, id, p.room.ceiling)))
  }

  function EventsOf(s: Session, id: int): seq<int>
    requires id in s.plan
  {
    if s.plan[id].projects then Ids(s.plan[id].room.events) else []
  }

  ghost predicate Plannable(cp: CP.View, id: int, p: Planned) {
    id > 0 && p.room.catchUp && RoomInv(p.room) && Anchored(cp, id, p.room.gapStart) &&
      CommittedMax(cp, id) < p.room.gapStart
  }

  /** The chat is committed, or was first admitted at or below the start. */
  predicate Anchored(cp: CP.View, id: int, start: int) { id in cp.chats || (id in cp.starts && cp.starts[id] <= start) }

  /** What a successful read of a single chat returns. */
  predicate ReadsThrough(position: int, through: int, logs: seq<Log>) {
    if position >= through then logs == []
    else logs != [] && logs[|logs| - 1].id == through && Within(position, logs, through)
  }

  ghost predicate Enabled(s: Session, step: Step) {
    match step
    case Connect(op) => op.Install? && CP.Legal(op)
    case Chained(plan) => s.phase == Fresh && forall id :: id in plan ==> Plannable(s.cp, id, plan[id])
    case FinishRoom(id, _) => s.phase == Finishing && id in s.plan
    case Admit(chat, log) => s.phase == Open && CP.Legal(CP.RecordStart(chat, log)) && log > CommittedMax(s.cp, chat)
    case CommitHead(chat, log) => IsHead(s.queue, chat, log) && CP.Legal(CP.Commit(chat, log))
    case Recovered(chat, through, logs) =>
      s.phase == Open && CP.Legal(CP.ResolveGap(chat, through)) && ReadsThrough(Position(s.cp, chat), through, logs)
    case Unrecovered(chat, from, through) =>
      s.phase == Open && CP.Legal(CP.RecordGap(chat, from, through)) && from == Position(s.cp, chat) + 1
    case Crash => true
  }

  /** The writes that happened before one failed. */
  function DoneWrites(s: Session, id: int, writes: nat): seq<CP.Op>
    requires id in s.plan
  {
    var ops := WritesOf(s, id);
    if writes < |ops| then ops[..writes] else ops
  }

  /** The writes a room needs, then its events; a write that fails ends the
      session. */
  ghost function Finished(s: Session, id: int, writes: nat): Session
    requires id in s.plan
  {
    var after := s.(cp := Apply(s.cp, DoneWrites(s, id, writes)));
    if writes < |WritesOf(s, id)| then after.(phase := Dead) else Queued(after, id, EventsOf(s, id))
  }

  function Queued(s: Session, id: int, logs: seq<int>): (t: Session)
    ensures t.owed == s.owed && t.readings == s.readings && t.cp == s.cp && t.plan == s.plan - {id}
  {
    var rest := s.plan - {id};
    s.(plan := rest, phase := if rest == map[] then Open else Finishing,
       queue := Enqueue(s.queue, id, logs), queued := Enqueue(s.queued, id, logs))
  }

  ghost function Next(s: Session, step: Step): Session
    requires Enabled(s, step)
  {
    match step
    case Connect(op) => Session(CP.Meaning(op, s.cp), map[], map[], map[], map[], map[], map[], Fresh)
    case Chained(plan) => s.(plan := plan, owed := plan, phase := if plan == map[] then Open else Finishing)
    case FinishRoom(id, writes) => Finished(s, id, writes)
    case Admit(chat, log) =>
      s.(cp := CP.Meaning(CP.RecordStart(chat, log), s.cp), queue := Enqueue(s.queue, chat, [log]),
         queued := Enqueue(s.queued, chat, [log]))
    case CommitHead(chat, log) =>
      s.(cp := CP.Meaning(CP.Commit(chat, log), s.cp), queue := Dequeue(s.queue, chat),
         committed := Enqueue(s.committed, chat, [log]))
    case Recovered(chat, through, logs) =>
      s.(cp := CP.Meaning(CP.ResolveGap(chat, through), s.cp),
         readings := s.readings[chat := ReadingsOf(s, chat) + [Reading(Position(s.cp, chat), through)]],
         queue := Enqueue(s.queue, chat, Ids(logs)), queued := Enqueue(s.queued, chat, Ids(logs)))
    case Unrecovered(chat, from, through) => s.(cp := CP.Meaning(CP.RecordGap(chat, from, through), s.cp))
    case Crash => Session(s.cp, map[], map[], map[], map[], map[], map[], Dead)
  }

  /** Every chain from a selection can be planned: what CatchUpAll hands to its
      finishing step is what Chained admits. */
  lemma ChainsArePlannable(v: CP.View, floor: int, rooms: map<int, Room>, after: map<int, Room>, id: int,
                           projects: bool)
    requires CP.ValidView(v) && Selected(v, floor, rooms) && Continues(rooms, after)
    requires id in after && after[id].catchUp
    ensures Plannable(v, id, Planned(after[id], projects))
  {
    assert SameRequest(rooms[id], after[id]);
  }

  // ---- What every run keeps ----

  /** Everything queued for a chat is its commits followed by what is pending. */
  ghost predicate InOrder(s: Session) {
    forall c :: QueueOf(s.queued, c) == QueueOf(s.committed, c) + QueueOf(s.queue, c)
  }

  ghost predicate PlanInv(s: Session) {
    && (forall id :: id in s.plan ==>
        Plannable(s.cp, id, s.plan[id]) && QueueOf(s.queue, id) == [] && id in s.owed && s.owed[id] == s.plan[id])
    && (s.phase == Open ==> s.plan == map[])
    && (s.phase == Fresh ==> s.queue == map[] && s.plan == map[] && s.owed == map[])
  }

  /** What a finished room owes is durably recorded, unless a later read went
      through it or resolved it. */
  ghost predicate GapInv(s: Session) {
    forall c, x :: Owes(s, c, x) && c !in s.plan ==> InGap(s.cp, c, x) || ReadAgain(s, c, x) || Erased(s, c, x)
  }

  /** Every room of the session stays anchored. */
  ghost predicate AnchorInv(s: Session) { forall c :: c in s.owed ==> Anchored(s.cp, c, s.owed[c].room.gapStart) }

  /** A read that started at or above the room's start did so at the chat's
      commit, and what it resolved stays resolved. */
  ghost predicate ReadingKept(s: Session, c: int, r: Reading)
    requires c in s.owed
  {
    Resolved(s.cp, c, r, s.owed[c].room.gapStart)
  }

  ghost predicate ReadingInv(s: Session) {
    && (forall c, r :: c in s.owed && r in ReadingsOf(s, c) ==> ReadingKept(s, c, r))
    && (s.phase == Fresh || s.phase == Finishing ==> s.readings == map[])
  }

  ghost predicate Inv(s: Session) {
    CP.ValidView(s.cp) && InOrder(s) && PlanInv(s) && GapInv(s) && AnchorInv(s) && ReadingInv(s)
  }

  lemma EnqueueAt(queue: map<int, seq<int>>, chat: int, logs: seq<int>, c: int)
    ensures QueueOf(Enqueue(queue, chat, logs), c) == if c == chat then QueueOf(queue, c) + logs else QueueOf(queue, c)
  {
    if logs == [] {
      assert QueueOf(queue, c) + logs == QueueOf(queue, c);
    }
  }

  lemma OrderStep(s: Session, step: Step)
    requires Inv(s) && Enabled(s, step)
    ensures InOrder(Next(s, step))
  {
    var t := Next(s, step);
    forall c
      ensures QueueOf(t.queued, c) == QueueOf(t.committed, c) + QueueOf(t.queue, c)
    {
      assert QueueOf(s.queued, c) == QueueOf(s.committed, c) + QueueOf(s.queue, c);
      match step {
        case FinishRoom(id, writes) => EnqueueBoth(s, id, EventsOf(s, id), c);
        case Admit(chat, log) => EnqueueBoth(s, chat, [log], c);
        case Recovered(chat, _, logs) => EnqueueBoth(s, chat, Ids(logs), c);
        case CommitHead(chat, log) => CommitOrder(s, chat, log, c);
        case _ =>
      }
    }
  }

  lemma CommitOrder(s: Session, chat: int, log: int, c: int)
    requires QueueOf(s.queued, c) == QueueOf(s.committed, c) + QueueOf(s.queue, c) && IsHead(s.queue, chat, log)
    ensures QueueOf(s.queued, c) == QueueOf(Enqueue(s.committed, chat, [log]), c) + QueueOf(Dequeue(s.queue, chat), c)
  {
    EnqueueAt(s.committed, chat, [log], c);
    if c == chat {
      assert QueueOf(s.queue, c) == [log] + QueueOf(Dequeue(s.queue, chat), c);
    }
  }

  lemma EnqueueBoth(s: Session, chat: int, logs: seq<int>, c: int)
    requires QueueOf(s.queued, c) == QueueOf(s.committed, c) + QueueOf(s.queue, c)
    ensures QueueOf(Enqueue(s.queued, chat, logs), c) ==
      QueueOf(s.committed, c) + QueueOf(Enqueue(s.queue, chat, logs), c)
  {
    EnqueueAt(s.queued, chat, logs, c);
    EnqueueAt(s.queue, chat, logs, c);
    assert QueueOf(s.committed, c) + QueueOf(s.queue, c) + logs ==
      QueueOf(s.committed, c) + (QueueOf(s.queue, c) + logs);
  }

  lemma {:induction false} WritesKeepGap(v: CP.View, ops: seq<CP.Op>, id: int, c: int, x: int)
    requires InGap(v, c, x) && c != id
    requires forall i :: 0 <= i < |ops| ==> (ops[i].RecordGap? || ops[i].ResolveGap?) && ops[i].chat == id
    ensures InGap(Apply(v, ops), c, x)
  {
    if ops != [] {
      WritesKeepGap(v, ops[..|ops| - 1], id, c, x);
    }
  }

  lemma {:induction false} WritesStayValid(v: CP.View, ops: seq<CP.Op>)
    requires CP.ValidView(v)
    requires forall i :: 0 <= i < |ops| ==> CP.Legal(ops[i]) && (ops[i].RecordGap? || ops[i].ResolveGap?)
    ensures CP.ValidView(Apply(v, ops)) && Apply(v, ops).chats == v.chats
  {
    if ops != [] {
      WritesStayValid(v, ops[..|ops| - 1]);
      CP.MeaningValid(Apply(v, ops[..|ops| - 1]), ops[|ops| - 1]);
    }
  }

  lemma WritesAreLegal(s: Session, id: int)
    requires Inv(s) && id in s.plan
    ensures forall i :: 0 <= i < |WritesOf(s, id)| ==>
      CP.Legal(WritesOf(s, id)[i]) && (WritesOf(s, id)[i].RecordGap? || WritesOf(s, id)[i].ResolveGap?) &&
        WritesOf(s, id)[i].chat == id
  {
    assert Plannable(s.cp, id, s.plan[id]);
  }

  lemma ValidStep(s: Session, step: Step)
    requires Inv(s) && Enabled(s, step)
    ensures CP.ValidView(Next(s, step).cp)
    ensures step.FinishRoom? ==> Next(s, step).cp.chats == s.cp.chats
  {
    match step {
      case Connect(op) => CP.MeaningValid(s.cp, op);
      case FinishRoom(id, writes) =>
        WritesAreLegal(s, id);
        WritesStayValid(s.cp, DoneWrites(s, id, writes));
      case Admit(chat, log) => CP.MeaningValid(s.cp, CP.RecordStart(chat, log));
      case CommitHead(chat, log) => CP.MeaningValid(s.cp, CP.Commit(chat, log));
      case Recovered(chat, through, _) => CP.MeaningValid(s.cp, CP.ResolveGap(chat, through));
      case Unrecovered(chat, from, through) => CP.MeaningValid(s.cp, CP.RecordGap(chat, from, through));
      case _ =>
    }
  }

  lemma PlanFinish(s: Session, id: int, writes: nat)
    requires Inv(s) && Enabled(s, FinishRoom(id, writes))
    ensures PlanInv(Next(s, FinishRoom(id, writes)))
  {
    var t := Next(s, FinishRoom(id, writes));
    forall other | other in t.plan
      ensures Plannable(t.cp, other, t.plan[other]) && QueueOf(t.queue, other) == []
      ensures other in t.owed && t.owed[other] == t.plan[other]
    {
      PlanStays(s, id, writes, other);
      assert Plannable(s.cp, other, s.plan[other]) && QueueOf(s.queue, other) == [];
    }
  }

  lemma PlanStays(s: Session, id: int, writes: nat, other: int)
    requires id in s.plan && other in Finished(s, id, writes).plan
    ensures var t := Finished(s, id, writes);
      && other in s.plan && t.plan[other] == s.plan[other] && t.owed == s.owed
      && t.cp.chats == s.cp.chats && t.cp.starts == s.cp.starts
      && (QueueOf(s.queue, other) == [] ==> QueueOf(t.queue, other) == [])
  {
    var after := s.(cp := Apply(s.cp, DoneWrites(s, id, writes)));
    if writes >= |WritesOf(s, id)| { QueuedStays(after, id, EventsOf(s, id), other); }
  }

  lemma QueuedStays(s: Session, id: int, logs: seq<int>, other: int)
    requires other in Queued(s, id, logs).plan
    ensures other != id && other in s.plan && QueueOf(Queued(s, id, logs).queue, other) == QueueOf(s.queue, other)
  {
    EnqueueAt(s.queue, id, logs, other);
  }

  lemma PlanCommit(s: Session, chat: int, log: int)
    requires Inv(s) && Enabled(s, CommitHead(chat, log))
    ensures PlanInv(Next(s, CommitHead(chat, log)))
  {
    var t := Next(s, CommitHead(chat, log));
    forall id | id in t.plan
      ensures Plannable(t.cp, id, t.plan[id]) && QueueOf(t.queue, id) == []
    {
      assert Plannable(s.cp, id, s.plan[id]) && chat != id;
    }
  }

  lemma PlanStep(s: Session, step: Step)
    requires Inv(s) && Enabled(s, step)
    ensures PlanInv(Next(s, step))
  {
    match step {
      case FinishRoom(id, writes) => PlanFinish(s, id, writes);
      case CommitHead(chat, log) => PlanCommit(s, chat, log);
      case _ =>
    }
  }

  lemma AnchorStep(s: Session, step: Step)
    requires Inv(s) && Enabled(s, step)
    ensures AnchorInv(Next(s, step))
  {
    var t := Next(s, step);
    forall c | c in t.owed ensures Anchored(t.cp, c, t.owed[c].room.gapStart) {
      if step.Chained? {
        assert Plannable(s.cp, c, step.plan[c]);
      } else {
        AnchorStays(s, step, c);
      }
    }
  }

  lemma AnchorStays(s: Session, step: Step, c: int)
    requires Enabled(s, step) && !step.Chained? && !step.Connect? && !step.Crash? && c in s.owed && CP.ValidView(s.cp)
    requires Anchored(s.cp, c, s.owed[c].room.gapStart)
    ensures Next(s, step).owed == s.owed && Anchored(Next(s, step).cp, c, s.owed[c].room.gapStart)
  {
    match step
    case Admit(chat, log) => UpdateAnchors(s.cp, CP.RecordStart(chat, log), c, s.owed[c].room.gapStart);
    case CommitHead(chat, log) => UpdateAnchors(s.cp, CP.Commit(chat, log), c, s.owed[c].room.gapStart);
    case FinishRoom(id, writes) => FinishAnchors(s, id, writes);
    case _ =>
  }

  lemma FinishAnchors(s: Session, id: int, writes: nat)
    requires id in s.plan
    ensures var t := Finished(s, id, writes); t.owed == s.owed && t.cp.chats == s.cp.chats && t.cp.starts == s.cp.starts
  {
  }

  lemma UpdateAnchors(v: CP.View, op: CP.Op, c: int, start: int)
    requires (op.RecordStart? || op.Commit?) && Anchored(v, c, start)
    ensures Anchored(CP.Meaning(op, v), c, start)
  {
  }

  // ---- Gaps ----

  /** What one update does to a chat's recorded gap, exactly. */
  lemma GapAfter(v: CP.View, op: CP.Op, c: int, x: int)
    requires CP.ValidView(v)
    ensures op.RecordStart? || op.Commit? ==> (InGap(CP.Meaning(op, v), c, x) <==> InGap(v, c, x))
    ensures op.ResolveGap? ==> (InGap(CP.Meaning(op, v), c, x) <==> InGap(v, c, x) && !(c == op.chat && x <= op.log))
    ensures op.RecordGap? && InGap(v, c, x) ==> InGap(CP.Meaning(op, v), c, x)
  {
  }

  /** A read resolves exactly the recorded identities at or below its target. */
  lemma ReadResolvesExactly(s: Session, chat: int, through: int, logs: seq<Log>, c: int, x: int)
    requires Inv(s) && Enabled(s, Recovered(chat, through, logs))
    ensures InGap(Next(s, Recovered(chat, through, logs)).cp, c, x) <==>
      InGap(s.cp, c, x) && !(c == chat && x <= through)
  {
    GapAfter(s.cp, CP.ResolveGap(chat, through), c, x);
  }

  /** The room's writes come before its events are queued. */
  lemma FinishGap(s: Session, id: int, writes: nat, c: int, x: int)
    requires Inv(s) && Enabled(s, FinishRoom(id, writes))
    requires var t := Next(s, FinishRoom(id, writes)); Owes(t, c, x) && c !in t.plan
    ensures InGap(Next(s, FinishRoom(id, writes)).cp, c, x)
  {
    if c == id {
      OwedGap(s, id, x);
    } else {
      assert s.readings == map[];
      OtherFinishGap(s, id, writes, c, x);
    }
  }

  lemma OwedGap(s: Session, id: int, x: int)
    requires Inv(s) && id in s.plan && Owes(s, id, x)
    ensures InGap(Apply(s.cp, WritesOf(s, id)), id, x)
  {
    var p := s.plan[id];
    assert Plannable(s.cp, id, p);
    FinishedRoomAccounts(s.cp, id, p.room, p.projects, HasGapThrough(s.cp, id, p.room.ceiling), x);
  }

  lemma OtherFinishGap(s: Session, id: int, writes: nat, c: int, x: int)
    requires Inv(s) && Enabled(s, FinishRoom(id, writes)) && c != id
    requires Owes(s, c, x) && c !in s.plan && s.readings == map[]
    ensures InGap(Next(s, FinishRoom(id, writes)).cp, c, x)
  {
    WritesAreLegal(s, id);
    assert InGap(s.cp, c, x);
    WritesKeepGap(s.cp, DoneWrites(s, id, writes), id, c, x);
  }

  /** Readings only accumulate. */
  lemma HistoryGrows(s: Session, t: Session, c: int, x: int)
    requires ReadingsOf(s, c) <= ReadingsOf(t, c)
    ensures ReadAgain(s, c, x) ==> ReadAgain(t, c, x)
    ensures Erased(s, c, x) ==> Erased(t, c, x)
  {
    if r :| r in ReadingsOf(s, c) && r.from < x <= r.target { assert r in ReadingsOf(t, c); }
    if r :| r in ReadingsOf(s, c) && x <= r.from && x <= r.target { assert r in ReadingsOf(t, c); }
  }

  lemma ReadGap(s: Session, chat: int, through: int, logs: seq<Log>, c: int, x: int)
    requires Inv(s) && Enabled(s, Recovered(chat, through, logs))
    requires InGap(s.cp, c, x) || ReadAgain(s, c, x) || Erased(s, c, x)
    ensures var t := Next(s, Recovered(chat, through, logs)); InGap(t.cp, c, x) || ReadAgain(t, c, x) || Erased(t, c, x)
  {
    var t := Next(s, Recovered(chat, through, logs));
    ReadResolvesExactly(s, chat, through, logs, c, x);
    HistoryGrows(s, t, c, x);
    if c == chat && x <= through {
      var r := Reading(Position(s.cp, chat), through);
      assert r in ReadingsOf(t, c);
    }
  }

  lemma GapStep(s: Session, step: Step)
    requires Inv(s) && Enabled(s, step)
    ensures GapInv(Next(s, step))
  {
    var t := Next(s, step);
    forall c, x | Owes(t, c, x) && c !in t.plan
      ensures InGap(t.cp, c, x) || ReadAgain(t, c, x) || Erased(t, c, x)
    {
      match step {
        case FinishRoom(id, writes) => FinishGap(s, id, writes, c, x);
        case Admit(chat, log) => LiveGap(s, CP.RecordStart(chat, log), t, c, x);
        case CommitHead(chat, log) => LiveGap(s, CP.Commit(chat, log), t, c, x);
        case Recovered(chat, through, logs) =>
          assert Owes(s, c, x);
          ReadGap(s, chat, through, logs, c, x);
        case Unrecovered(chat, from, through) => LiveGap(s, CP.RecordGap(chat, from, through), t, c, x);
        case _ =>
      }
    }
  }

  lemma LiveGap(s: Session, op: CP.Op, t: Session, c: int, x: int)
    requires Inv(s) && Owes(s, c, x) && c !in s.plan && (op.RecordStart? || op.Commit? || op.RecordGap?)
    requires t.cp == CP.Meaning(op, s.cp) && t.readings == s.readings
    ensures InGap(t.cp, c, x) || ReadAgain(t, c, x) || Erased(t, c, x)
  {
    GapAfter(s.cp, op, c, x);
    HistoryGrows(s, t, c, x);
  }

  lemma ReadingStep(s: Session, step: Step)
    requires Inv(s) && Enabled(s, step)
    ensures ReadingInv(Next(s, step))
  {
    var t := Next(s, step);
    forall c, r | c in t.owed && r in ReadingsOf(t, c)
      ensures ReadingKept(t, c, r)
    {
      if step.Recovered? || step.Unrecovered? || step.Admit? || step.CommitHead? {
        ReadingStays(s, step, c, r);
      }
    }
  }

  lemma ReadingStays(s: Session, step: Step, c: int, r: Reading)
    requires Inv(s) && Enabled(s, step) && (step.Recovered? || step.Unrecovered? || step.Admit? || step.CommitHead?)
    requires c in s.owed && r in ReadingsOf(Next(s, step), c)
    ensures ReadingKept(Next(s, step), c, r)
  {
    var start := s.owed[c].room.gapStart;
    assert Anchored(s.cp, c, start);
    if r in ReadingsOf(s, c) {
      assert ReadingKept(s, c, r);
    }
    match step
    case Recovered(chat, through, _) => ReadKeeps(s.cp, chat, through, c, r, start, r in ReadingsOf(s, c));
    case Unrecovered(chat, from, through) => GapKeeps(s.cp, CP.RecordGap(chat, from, through), c, r, start);
    case Admit(chat, log) => LiveKeeps(s.cp, CP.RecordStart(chat, log), c, r, start);
    case CommitHead(chat, log) => LiveKeeps(s.cp, CP.Commit(chat, log), c, r, start);
  }

  /** ReadingKept of a checkpoint. */
  predicate Resolved(v: CP.View, c: int, r: Reading, start: int) {
    r.from >= start ==>
      CommittedMax(v, c) >= r.from && (c in v.gaps ==> v.gaps[c].from > r.from || v.gaps[c].from > r.target)
  }

  lemma ReadKeeps(v: CP.View, chat: int, through: int, c: int, r: Reading, start: int, known: bool)
    requires CP.ValidView(v) && Anchored(v, c, start) && (known ==> Resolved(v, c, r, start))
    requires !known ==> c == chat && r == Reading(Position(v, chat), through)
    ensures Resolved(CP.Meaning(CP.ResolveGap(chat, through), v), c, r, start)
  {
  }

  lemma GapKeeps(v: CP.View, op: CP.Op, c: int, r: Reading, start: int)
    requires CP.ValidView(v) && Anchored(v, c, start) && Resolved(v, c, r, start)
    requires op.RecordGap? && CP.Legal(op) && op.from == Position(v, op.chat) + 1
    ensures Resolved(CP.Meaning(op, v), c, r, start)
  {
  }

  lemma LiveKeeps(v: CP.View, op: CP.Op, c: int, r: Reading, start: int)
    requires CP.ValidView(v) && Resolved(v, c, r, start) && (op.RecordStart? || op.Commit?) && CP.Legal(op)
    ensures Resolved(CP.Meaning(op, v), c, r, start)
  {
  }

  const START := Session(CP.Abs(CP.EMPTY), map[], map[], map[], map[], map[], map[], Dead)

  /** A run from nothing; a step that is not enabled is refused. */
  ghost function After(steps: seq<Step>): Session {
    if steps == [] then START
    else var before, last := After(steps[..|steps| - 1]), steps[|steps| - 1];
         if Enabled(before, last) then Next(before, last) else before
  }

  lemma {:induction false} RunsAreSafe(steps: seq<Step>)
    ensures Inv(After(steps))
  {
    if steps != [] {
      var before, last := After(steps[..|steps| - 1]), steps[|steps| - 1];
      RunsAreSafe(steps[..|steps| - 1]);
      if Enabled(before, last) {
        StepIsSafe(before, last);
      }
    }
  }

  lemma StepIsSafe(s: Session, step: Step)
    requires Inv(s) && Enabled(s, step)
    ensures Inv(Next(s, step))
  {
    ValidStep(s, step);
    OrderStep(s, step);
    PlanStep(s, step);
    AnchorStep(s, step);
    GapStep(s, step);
    ReadingStep(s, step);
  }

  /** In every run a chat's commits in a session are a prefix of what was queued
      for it, in order. */
  lemma CommitsFollowTheQueue(steps: seq<Step>, chat: int)
    ensures QueueOf(After(steps).committed, chat) <= QueueOf(After(steps).queued, chat)
  {
    RunsAreSafe(steps);
  }

  /** In every run, once a chat's durable commit has reached an identity that the
      session's catch-up skipped or did not recover, that identity is durably
      recorded as a gap, unless a later successful read of the chat had a target
      at or above it. */
  lemma NoCommitPassesAnUnrecordedGap(steps: seq<Step>, chat: int, x: int)
    requires Owes(After(steps), chat, x) && CommittedMax(After(steps).cp, chat) >= x
    ensures InGap(After(steps).cp, chat, x) || exists r :: r in ReadingsOf(After(steps), chat) && x <= r.target
  {
    RunsAreSafe(steps);
    var s := After(steps);
    assert chat in s.plan ==> Plannable(s.cp, chat, s.plan[chat]);
  }

  /** In every run, an identity that a finished room owes and no later read went
      through is recorded exactly when no later read resolved the gap from a
      position at or above it. */
  lemma OwedIsRecordedIff(steps: seq<Step>, chat: int, x: int)
    requires Owes(After(steps), chat, x) && chat !in After(steps).plan && !ReadAgain(After(steps), chat, x)
    ensures InGap(After(steps).cp, chat, x) <==> !Erased(After(steps), chat, x)
  {
    RunsAreSafe(steps);
    var s := After(steps);
    if Erased(s, chat, x) {
      var r :| r in ReadingsOf(s, chat) && x <= r.from && x <= r.target;
      assert ReadingKept(s, chat, r);
    }
  }
}
