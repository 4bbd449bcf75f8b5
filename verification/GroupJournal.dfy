/** The once-only creation journal (internal/bridge/connector/group_create.go and
    group_reconcile.go): CREATE and ADDMEM are sent only behind a durable
    reservation, whatever saves fail and whenever the process crashes. */
module GroupJournal {
  import opened Basics

  type Room = int

  datatype Attempt = Attempt(fingerprint: int, participants: seq<int>, chat: int, rejected: bool, bound: bool,
                             inviteAttempted: bool, invitees: seq<int>)

  type Journal = map<Room, Attempt>

  datatype Reply = Status | Chat(id: int) | Unknown

  /** Where the command holding the group gate stands. */
  datatype Place =
    | Idle
    | ToCreate(room: Room)
    | ToRecord(room: Room, attempt: Attempt)
    | ToBind(room: Room)
    | ToInvite(room: Room)
    | ToConfirm(room: Room, chat: int)

  /** memory: the loaded journal; stored: the durable one. History: every CREATE
      and completion ADDMEM by room, the rooms the source refused, the rooms whose
      binding was completed, and the source chats recorded by a good save. */
  datatype State = State(memory: Journal, stored: Journal, place: Place, creates: multiset<Room>,
                         invites: multiset<Room>, refused: set<Room>, bound: set<Room>, confirmed: map<Room, int>)

  predicate Resolved(a: Attempt) { a.rejected || a.bound }

  function Initial(stored: Journal): State {
    State(stored, stored, Idle, multiset{}, multiset{}, RejectedRooms(stored), BoundRooms(stored), map[])
  }

  function RejectedRooms(j: Journal): set<Room> { set r | r in j && j[r].rejected }
  function BoundRooms(j: Journal): set<Room> { set r | r in j && j[r].bound }

  predicate NothingUnresolved(j: Journal) { forall r :: r in j ==> Resolved(j[r]) }

  // ---- The steps ----

  datatype Step =
    | Begin(room: Room, fingerprint: int, participants: seq<int>, save: Write)
    | SendCreate(reply: Reply)
    | Record(save: Write)
    | Resume(room: Room)
    | Bind(ok: bool, save: Write)
    | Reconcile(room: Room, chat: int)
    | Complete(room: Room, missing: seq<int>, save: Write)
    | SendInvite(ok: bool)
    | Confirm(save: Write)
    | Flush(save: Write)
    | Crash

  /** A known, unresolved attempt. */
  predicate Open(s: State, room: Room) { room in s.memory && !Resolved(s.memory[room]) }

  predicate Enabled(s: State, step: Step) {
    match step
    case Begin(room, _, _, _) => s.place.Idle? && room !in s.memory && NothingUnresolved(s.memory)
    case SendCreate(reply) => s.place.ToCreate? && (reply.Chat? ==> reply.id > 0)
    case Record(_) => s.place.ToRecord?
    case Resume(room) => s.place.Idle? && room in s.memory && !s.memory[room].rejected && s.memory[room].chat != 0
    case Bind(_, _) => s.place.ToBind?
    case Reconcile(room, chat) =>
      s.place.Idle? && Open(s, room) && chat > 0 && (s.memory[room].chat == 0 || s.memory[room].chat == chat)
    case Complete(room, missing, _) =>
      s.place.Idle? && Open(s, room) && s.memory[room].chat > 0 && (missing != [] ==> !s.memory[room].inviteAttempted)
    case SendInvite(_) => s.place.ToInvite?
    case Confirm(_) => s.place.ToConfirm?
    case Flush(_) => true
    case Crash => true
  }

  /** saveGroupAttempt: a failed save puts the loaded journal back. */
  function Put(s: State, room: Room, attempt: Attempt, save: Write, then_: Place): State {
    var next := s.memory[room := attempt];
    match save
    case Written =>
      s.(memory := next, stored := next, place := then_,
         confirmed := if attempt.chat != 0 then s.confirmed[room := attempt.chat] else s.confirmed)
    case Lost => s.(place := Idle)
    case WrittenButFailed => s.(stored := next, place := Idle)
  }

  /** The attempt the current command works on. */
  function Now(s: State, room: Room): Attempt {
    if room in s.memory then s.memory[room] else Attempt(0, [], 0, false, false, false, [])
  }

  function Next(s: State, step: Step): State
    requires Enabled(s, step)
  {
    match step
    case Begin(room, fingerprint, participants, save) =>
      Put(s, room, Attempt(fingerprint, participants, 0, false, false, false, []), save, ToCreate(room))
    case SendCreate(reply) =>
      var room := s.place.room;
      var t := s.(creates := s.creates + multiset{room});
      (match reply
       case Unknown => t.(place := Idle)
       case Status => t.(refused := s.refused + {room}, place := ToRecord(room, Now(s, room).(rejected := true)))
       case Chat(id) => t.(place := ToRecord(room, Now(s, room).(chat := id))))
    case Record(save) =>
      Put(s, s.place.room, s.place.attempt, save, if s.place.attempt.rejected then Idle else ToBind(s.place.room))
    case Resume(room) => s.(place := ToBind(room))
    case Bind(ok, save) =>
      var room := s.place.room;
      if !ok then s.(place := Idle)
      else Put(s.(bound := s.bound + {room}), room, Now(s, room).(bound := true), save, Idle)
    case Reconcile(room, chat) => s.(place := ToConfirm(room, chat))
    case Complete(room, missing, save) =>
      if missing == [] then s.(place := ToConfirm(room, s.memory[room].chat))
      else Put(s, room, s.memory[room].(inviteAttempted := true, invitees := missing), save, ToInvite(room))
    case SendInvite(ok) =>
      var room := s.place.room;
      s.(invites := s.invites + multiset{room}, place := if ok then ToConfirm(room, Now(s, room).chat) else Idle)
    case Confirm(save) => Put(s, s.place.room, Now(s, s.place.room).(chat := s.place.chat), save, ToBind(s.place.room))
    case Flush(save) => if save.Lost? then s else s.(stored := s.memory)
    case Crash => s.(memory := s.stored, place := Idle)
  }

  // ---- What every run keeps ----

  /** What history demands of a journal. */
  ghost predicate Keeps(s: State, j: Journal) {
    && (forall r :: r in s.creates ==> r in j)
    && (forall r :: r in s.invites ==> r in j && j[r].inviteAttempted)
    && (forall r :: r in j && j[r].rejected ==> r in s.refused)
    && (forall r :: r in j && j[r].bound ==> r in s.bound)
    && (forall r :: r in s.confirmed ==> r in j && j[r].chat == s.confirmed[r] != 0)
  }

  ghost predicate Placed(s: State) {
    match s.place
    case Idle => true
    case ToCreate(room) =>
      room in s.memory && s.stored == s.memory && s.creates[room] == 0 && !Resolved(s.memory[room]) &&
        room !in s.confirmed &&
      forall r :: r in s.memory && r != room ==> Resolved(s.memory[r])
    case ToRecord(room, attempt) =>
      room in s.memory && room in s.stored && room !in s.confirmed && (attempt.rejected ==> room in s.refused) &&
        !attempt.bound &&
      attempt.inviteAttempted == s.memory[room].inviteAttempted
    case ToBind(room) => room in s.memory
    case ToInvite(room) =>
      room in s.memory && room in s.stored && s.invites[room] == 0 && s.memory[room].inviteAttempted &&
        s.stored[room].inviteAttempted &&
      s.memory[room].chat != 0
    case ToConfirm(room, chat) => room in s.memory && chat != 0 && (room in s.confirmed ==> s.confirmed[room] == chat)
  }

  ghost predicate Inv(s: State) {
    && Keeps(s, s.memory) && Keeps(s, s.stored) && Placed(s)
    && (forall r :: s.creates[r] <= 1) && (forall r :: s.invites[r] <= 1)
  }

  /** A save of an attempt that forgets nothing keeps the history's demands. */
  ghost predicate Forgets(s: State, room: Room, attempt: Attempt) {
    || (room in s.invites && !attempt.inviteAttempted)
    || (attempt.rejected && room !in s.refused) || (attempt.bound && room !in s.bound)
    || (room in s.confirmed && attempt.chat != s.confirmed[room])
  }

  lemma PutKeeps(s: State, room: Room, attempt: Attempt, save: Write, then_: Place)
    requires Keeps(s, s.memory) && Keeps(s, s.stored) && !Forgets(s, room, attempt)
    requires (forall r :: s.creates[r] <= 1) && (forall r :: s.invites[r] <= 1)
    requires save.Written? ==> Placed(Put(s, room, attempt, save, then_))
    ensures Inv(Put(s, room, attempt, save, then_))
  {
    KeepsPut(s, room, attempt);
    if save.Written? {
      KeepsConfirmed(s, Put(s, room, attempt, save, then_), room, attempt);
    }
  }

  lemma KeepsPut(s: State, room: Room, attempt: Attempt)
    requires Keeps(s, s.memory) && !Forgets(s, room, attempt)
    ensures Keeps(s, s.memory[room := attempt])
  {
  }

  lemma KeepsConfirmed(s: State, t: State, room: Room, attempt: Attempt)
    requires Keeps(s, t.memory) && t.memory == s.memory[room := attempt]
    requires t.creates == s.creates && t.invites == s.invites && t.refused == s.refused && t.bound == s.bound
    requires t.confirmed == if attempt.chat != 0 then s.confirmed[room := attempt.chat] else s.confirmed
    ensures Keeps(t, t.memory)
  {
  }

  lemma SendCreateKeeps(s: State, reply: Reply)
    requires Inv(s) && Enabled(s, SendCreate(reply))
    ensures Inv(Next(s, SendCreate(reply)))
  {
  }

  lemma BindKeeps(s: State, save: Write)
    requires Inv(s) && s.place.ToBind?
    ensures Inv(Next(s, Bind(true, save)))
  {
    var room := s.place.room;
    PutKeeps(s.(bound := s.bound + {room}), room, Now(s, room).(bound := true), save, Idle);
  }

  lemma CompleteKeeps(s: State, room: Room, missing: seq<int>, save: Write)
    requires Inv(s) && Enabled(s, Complete(room, missing, save))
    ensures Inv(Next(s, Complete(room, missing, save)))
  {
    if missing != [] {
      PutKeeps(s, room, s.memory[room].(inviteAttempted := true, invitees := missing), save, ToInvite(room));
    }
  }

  lemma SendInviteKeeps(s: State, ok: bool)
    requires Inv(s) && Enabled(s, SendInvite(ok))
    ensures Inv(Next(s, SendInvite(ok)))
  {
  }

  lemma RecordKeeps(s: State, step: Step)
    requires Inv(s) && Enabled(s, step) && (step.Record? || step.Confirm?)
    ensures Inv(Next(s, step))
  {
    var room := s.place.room;
    if step.Record? {
      PutKeeps(s, room, s.place.attempt, step.save, if s.place.attempt.rejected then Idle else ToBind(room));
    } else {
      PutKeeps(s, room, Now(s, room).(chat := s.place.chat), step.save, ToBind(room));
    }
  }

  lemma BeginKeeps(s: State, step: Step)
    requires Inv(s) && Enabled(s, step) && step.Begin?
    ensures Inv(Next(s, step))
  {
    PutKeeps(s, step.room, Attempt(step.fingerprint, step.participants, 0, false, false, false, []), step.save,
             ToCreate(step.room));
  }

  lemma OtherKeeps(s: State, step: Step)
    requires Inv(s) && Enabled(s, step)
    requires (step.Resume? || step.Reconcile? || step.Flush? || step.Crash? || (step.Bind? && !step.ok))
    ensures Inv(Next(s, step))
  {
  }

  lemma StepKeepsInv(s: State, step: Step)
    requires Inv(s) && Enabled(s, step)
    ensures Inv(Next(s, step))
  {
    match step
    case Begin(_, _, _, _) => BeginKeeps(s, step);
    case SendCreate(reply) => SendCreateKeeps(s, reply);
    case Record(_) => RecordKeeps(s, step);
    case Confirm(_) => RecordKeeps(s, step);
    case Bind(ok, save) => if ok { BindKeeps(s, save); } else { OtherKeeps(s, step); }
    case Complete(room, missing, save) => CompleteKeeps(s, room, missing, save);
    case SendInvite(ok) => SendInviteKeeps(s, ok);
    case _ => OtherKeeps(s, step);
  }

  datatype Run = Run(states: seq<State>, steps: seq<Step>)

  ghost predicate IsRun(r: Run) {
    && |r.states| == |r.steps| + 1 && (exists stored :: r.states[0] == Initial(stored))
    && forall i {:trigger r.steps[i]} :: 0 <= i < |r.steps| ==>
       Enabled(r.states[i], r.steps[i]) && r.states[i + 1] == Next(r.states[i], r.steps[i])
  }

  lemma {:induction false} RunsKeepInv(r: Run, n: nat)
    requires IsRun(r) && n <= |r.steps|
    ensures Inv(r.states[n])
    decreases n
  {
    if n > 0 {
      RunsKeepInv(r, n - 1);
      StepKeepsInv(r.states[n - 1], r.steps[n - 1]);
    }
  }

  /** Over every run with failed saves, crashes and repeated commands: at most one
      CREATE and one completion ADDMEM per room, and the source identity a good
      save recorded is the one both journals keep. */
  lemma SentAtMostOnce(r: Run, n: nat, room: Room)
    requires IsRun(r) && n <= |r.steps|
    ensures var s := r.states[n];
      && s.creates[room] <= 1 && s.invites[room] <= 1
      && (room in s.confirmed ==>
          room in s.memory && room in s.stored && s.memory[room].chat == s.confirmed[room] == s.stored[room].chat)
  {
    RunsKeepInv(r, n);
  }

  /** A CREATE goes out only when its own attempt is the one unresolved entry of
      both journals, and every room created before it was refused or bound. */
  lemma OneCreationInDoubt(r: Run, n: nat)
    requires IsRun(r) && n < |r.steps| && r.steps[n].SendCreate?
    ensures var s := r.states[n];
      && s.place.ToCreate? && s.place.room !in s.creates
      && s.place.room in s.memory && !Resolved(s.memory[s.place.room]) && s.stored == s.memory
      && (forall other :: other in s.memory && other != s.place.room ==> Resolved(s.memory[other]))
      && (forall other :: other in s.creates ==> other in s.refused || other in s.bound)
  {
    RunsKeepInv(r, n);
    var s := r.states[n];
    assert Enabled(s, r.steps[n]);
  }

  // ---- The connector's commands ----

  lemma RunStep(r: Run, step: Step, t: State)
    requires IsRun(r) && Enabled(r.states[|r.steps|], step) && t == Next(r.states[|r.steps|], step)
    ensures IsRun(Run(r.states + [t], r.steps + [step]))
  {
    var after := Run(r.states + [t], r.steps + [step]);
    assert after.states[0] == r.states[0];
    forall i {:trigger after.steps[i]} | 0 <= i < |after.steps|
      ensures Enabled(after.states[i], after.steps[i]) && after.states[i + 1] == Next(after.states[i], after.steps[i])
    {
      if i < |r.steps| { assert after.steps[i] == r.steps[i]; }
    }
  }

  /** What the commands call out to, by the number of the call: the save, the
      Matrix room check, the source's replies, the binding, and the selected
      participants missing from a matching source roster. */
  datatype World = World(save: nat -> Write, roomFits: nat -> bool, create: nat -> Reply, bind: nat -> bool,
                         invite: nat -> bool,
                         missing: (nat, bool) -> Option<seq<int>>)

  datatype Result = BoundTo(chat: int) | Refused | Unresolved | Unsaved | Pending

  /** A created group has a positive identity. */
  function Answered(reply: Reply): Reply { if reply.Chat? && reply.id <= 0 then Unknown else reply }

  /** Untouched, or bound now because it had a source chat and was unresolved. */
  predicate OnlyBound(was: Attempt, now: Attempt) {
    now == was || (!Resolved(was) && was.chat != 0 && now == was.(bound := true))
  }

  /** A refusal and a created group are recorded next; nothing else is known. */
  function AfterReply(room: Room, attempt: Attempt, reply: Reply): Place {
    match reply
    case Unknown => Idle
    case Status => ToRecord(room, attempt.(rejected := true))
    case Chat(id) => ToRecord(room, attempt.(chat := id))
  }

  function NewAttempt(fingerprint: int, participants: seq<int>): Attempt {
    Attempt(fingerprint, participants, 0, false, false, false, [])
  }

  datatype Chosen = Chosen(chat: int, absent: seq<int>)

  class Connector {
    const world: World
    var memory: Journal
    var stored: Journal
    var calls: nat
    ghost var place: Place
    ghost var creates: multiset<Room>
    ghost var invites: multiset<Room>
    ghost var refused: set<Room>
    ghost var bound: set<Room>
    ghost var confirmed: map<Room, int>
    ghost var trace: Run

    ghost function View(): State
      reads this
    {
      State(memory, stored, place, creates, invites, refused, bound, confirmed)
    }

    /** The journal is where a run of the machine leads. */
    ghost predicate Valid()
      reads this
    {
      IsRun(trace) && trace.states[|trace.steps|] == View()
    }

    /** No command is under way. */
    ghost predicate Ready()
      reads this
    {
      Valid() && place.Idle?
    }

    constructor (world: World, stored: Journal)
      ensures Ready() && View() == Initial(stored)
    {
      this.world, this.memory, this.stored, calls := world, stored, stored, 0;
      place, creates, invites, refused, bound, confirmed := Idle, multiset{}, multiset{}, RejectedRooms(stored),
        BoundRooms(stored), map[];
      trace := Run([Initial(stored)], []);
    }

    ghost method Took(before: State, step: Step)
      requires IsRun(trace) && trace.states[|trace.steps|] == before
      requires Enabled(before, step) && View() == Next(before, step)
      modifies this`trace
      ensures Valid()
    {
      RunStep(trace, step, View());
      trace := Run(trace.states + [View()], trace.steps + [step]);
    }

    method SaveGroupAttempt(room: Room, attempt: Attempt, ghost then_: Place) returns (ok: bool, ghost save: Write)
      modifies this`memory, this`stored, this`calls, this`place, this`confirmed
      ensures View() == Put(old(View()), room, attempt, save, then_) && ok == save.Written?
      ensures save == world.save(old(calls)) && calls == old(calls) + 1
    {
      var previous := memory;
      memory := memory[room := attempt];
      var outcome := world.save(calls);
      calls := calls + 1;
      save, ok := outcome, outcome.Written?;
      if !outcome.Lost? {
        stored := memory;
      }
      if !ok {
        memory := previous;
        place := Idle;
      } else {
        place := then_;
        if attempt.chat != 0 {
          confirmed := confirmed[room := attempt.chat];
        }
      }
    }

    method CheckUnresolvedGroupCreates() returns (clear: bool)
      ensures clear <==> NothingUnresolved(memory)
    {
      var todo := memory.Keys;
      while todo != {}
        invariant todo <= memory.Keys && forall r :: r in memory && r !in todo ==> Resolved(memory[r])
        decreases todo
      {
        var room := PickOne(todo);
        if !memory[room].rejected && !memory[room].bound { return false; }
        todo := todo - {room};
      }
      clear := true;
    }

    /** The binding of a confirmed source group; its last act journals it. */
    method BindCreatedGroup(room: Room) returns (ok: bool)
      requires Valid() && place == ToBind(room) && room in memory
      modifies this
      ensures Ready() && creates == old(creates) && invites == old(invites)
      ensures memory == if ok then old(memory)[room := old(memory)[room].(bound := true)] else old(memory)
      ensures ok <==> world.bind(old(calls)) && world.save(old(calls) + 1).Written?
    {
      ghost var before := View();
      var done := world.bind(calls);
      calls := calls + 1;
      if !done {
        place := Idle;
        Took(before, Bind(false, Lost));
        return false;
      }
      bound := bound + {room};
      ghost var save;
      ok, save := SaveGroupAttempt(room, memory[room].(bound := true), Idle);
      Took(before, Bind(true, save));
    }

    method SendCreateChat(room: Room) returns (reply: Reply)
      requires Valid() && place == ToCreate(room) && room in memory
      modifies this`calls, this`creates, this`refused, this`place, this`trace
      ensures Valid() && creates == old(creates) + multiset{room} && calls == old(calls) + 1
      ensures reply == Answered(world.create(old(calls)))
      ensures (reply.Chat? ==> reply.id > 0) && place == AfterReply(room, memory[room], reply)
    {
      ghost var before := View();
      reply := world.create(calls);
      calls := calls + 1;
      if reply.Chat? && reply.id <= 0 {
        reply := Unknown;
      }
      creates := creates + multiset{room};
      match reply {
        case Unknown => place := Idle;
        case Status =>
          refused := refused + {room};
          place := ToRecord(room, memory[room].(rejected := true));
        case Chat(id) => place := ToRecord(room, memory[room].(chat := id));
      }
      Took(before, SendCreate(reply));
    }

    method JournalNew(room: Room, fingerprint: int, participants: seq<int>) returns (ok: bool)
      requires Ready() && room !in memory && NothingUnresolved(memory)
      modifies this`memory, this`stored, this`calls, this`place, this`confirmed, this`trace
      ensures if ok then
          Valid() && place == ToCreate(room) && memory == old(memory)[room := NewAttempt(fingerprint, participants)]
        else
          Ready() && memory == old(memory)
      ensures ok <==> world.save(old(calls)).Written?
      ensures calls == old(calls) + 1
    {
      ghost var before := View();
      ghost var save;
      ok, save :=
        SaveGroupAttempt(room, NewAttempt(fingerprint, participants), ToCreate(room));
      Took(before, Begin(room, fingerprint, participants, save));
    }

    method JournalReply(room: Room, attempt: Attempt) returns (ok: bool)
      requires Valid() && place == ToRecord(room, attempt)
      modifies this`memory, this`stored, this`calls, this`place, this`confirmed, this`trace
      ensures Valid() && (!ok ==> place.Idle? && memory == old(memory))
      ensures (ok <==> world.save(old(calls)).Written?) && calls == old(calls) + 1
      ensures ok ==> memory == old(memory)[room := attempt] && place == if attempt.rejected then Idle else ToBind(room)
    {
      ghost var before := View();
      ghost var save;
      ok, save := SaveGroupAttempt(room, attempt, if attempt.rejected then Idle else ToBind(room));
      Took(before, Record(save));
    }

    ghost method BeginBinding(room: Room)
      requires Ready() && room in memory && !memory[room].rejected && memory[room].chat != 0
      modifies this`place, this`trace
      ensures Valid() && place == ToBind(room)
    {
      var before := View();
      place := ToBind(room);
      Took(before, Resume(room));
    }

    /** CREATE goes out: for a room without an attempt, nothing else unresolved,
        into a room that fits, behind a save that succeeded. */
    ghost predicate Creates(room: Room)
      reads this
    {
      room !in memory && NothingUnresolved(memory) && world.roomFits(calls) && world.save(calls + 1).Written?
    }

    /** What the reply to that CREATE leaves of the new attempt, when its record is
        saved. */
    ghost function Replied(at: nat, attempt: Attempt): Attempt {
      if !world.save(at + 1).Written? then attempt
      else match Answered(world.create(at))
           case Unknown => attempt
           case Status => attempt.(rejected := true)
           case Chat(id) => attempt.(chat := id)
    }

    /** CREATE goes out only for a room with no journalled attempt and no other
        attempt unresolved, behind a good save; any later call for the room only
        resumes its binding. */
    method CreateGroup(room: Room, fingerprint: int, participants: seq<int>) returns (r: Result)
      requires Ready()
      modifies this
      ensures Ready() && invites == old(invites)
      ensures creates == old(creates) ||
        (creates == old(creates) + multiset{room} && room !in old(memory) && old(NothingUnresolved(memory)))
      ensures room in old(memory) ==> creates == old(creates)
      ensures r.BoundTo? ==> room in memory && memory[room].bound && memory[room].chat == r.chat
      ensures room in old(memory) ==>
        var attempt := old(memory)[room];
        && (r.Refused? <==> attempt.fingerprint != fingerprint || attempt.rejected)
        && (r.Unresolved? <==> attempt.fingerprint == fingerprint && !attempt.rejected && attempt.chat == 0)
        && !r.Unsaved?
        && memory == if r.BoundTo? then old(memory)[room := attempt.(bound := true)] else old(memory)
      ensures creates != old(creates) <==> old(Creates(room))
      ensures room !in old(memory) && !old(Creates(room)) ==>
        r == Withheld(old(memory), old(calls)) && memory == old(memory)
      ensures old(Creates(room)) ==>
        var attempt := Replied(old(calls) + 2, NewAttempt(fingerprint, participants));
        && memory == old(memory)[room := if r.BoundTo? then attempt.(bound := true) else attempt]
        && (r.Refused? <==> attempt.rejected) && (r.BoundTo? || r.Pending? <==> attempt.chat > 0)
    {
      if room in memory {
        var attempt := memory[room];
        if attempt.fingerprint != fingerprint || attempt.rejected { return Refused; }
        if attempt.chat == 0 { return Unresolved; }
        BeginBinding(room);
      } else {
        var stopped := CreateNew(room, fingerprint, participants);
        if stopped.Some? { return stopped.value; }
      }
      var bindable := BindCreatedGroup(room);
      r := if bindable then BoundTo(memory[room].chat) else Pending;
    }

    /** Why no CREATE goes out for a new room. */
    ghost function Withheld(journal: Journal, at: nat): Result {
      if !NothingUnresolved(journal) then Unresolved else if !world.roomFits(at) then Refused else Unsaved
    }

    /** The attempt journalled, sent and its reply recorded; the group is bound
        next when it has a source chat. */
    method CreateNew(room: Room, fingerprint: int, participants: seq<int>) returns (stopped: Option<Result>)
      requires Ready() && room !in memory
      modifies this
      ensures if stopped.None? then Valid() && place == ToBind(room) else Ready()
      ensures invites == old(invites)
      ensures creates == if old(Creates(room)) then old(creates) + multiset{room} else old(creates)
      ensures !old(Creates(room)) ==> stopped == Some(Withheld(old(memory), old(calls))) && memory == old(memory)
      ensures old(Creates(room)) ==>
        var attempt := Replied(old(calls) + 2, NewAttempt(fingerprint, participants));
        memory == old(memory)[room := attempt] && Stops(attempt, stopped)
    {
      stopped := CheckNew();
      if stopped.Some? { return stopped; }
      var ok := JournalNew(room, fingerprint, participants);
      if !ok { return Some(Unsaved); }
      stopped := SendNew(room);
    }

    method CheckNew() returns (stopped: Option<Result>)
      requires Ready()
      modifies this`calls
      ensures Ready() && (stopped.Some? ==> stopped == Some(Withheld(memory, old(calls))))
      ensures stopped.None? <==> NothingUnresolved(memory) && world.roomFits(old(calls))
      ensures stopped.None? ==> calls == old(calls) + 1
    {
      var clear := CheckUnresolvedGroupCreates();
      if !clear { return Some(Unresolved); }
      var fits := world.roomFits(calls);
      calls := calls + 1;
      stopped := if fits then None else Some(Refused);
    }

    method SendNew(room: Room) returns (stopped: Option<Result>)
      requires Valid() && place == ToCreate(room) && room in memory
      requires !Resolved(memory[room]) && memory[room].chat == 0
      modifies this
      ensures if stopped.None? then Valid() && place == ToBind(room) else Ready()
      ensures creates == old(creates) + multiset{room} && invites == old(invites)
      ensures memory == old(memory)[room := Replied(old(calls), old(memory)[room])]
      ensures Stops(Replied(old(calls), old(memory)[room]), stopped)
    {
      var reply := SendCreateChat(room);
      if reply.Unknown? { return Some(Unresolved); }
      var next := if reply.Status? then memory[room].(rejected := true) else memory[room].(chat := reply.id);
      var ok := JournalReply(room, next);
      if reply.Status? { return Some(if ok then Refused else Unsaved); }
      if !ok { return Some(Unresolved); }
      stopped := None;
    }

    /** The binding follows only a recorded source chat; a recorded refusal is
        reported as one. */
    ghost predicate Stops(attempt: Attempt, stopped: Option<Result>) {
      if attempt.chat > 0 then stopped.None?
      else if attempt.rejected then stopped == Some(Refused)
      else stopped == Some(Unresolved) || stopped == Some(Unsaved)
    }

    method SendAddMembers(room: Room, missing: seq<int>) returns (ok: bool)
      requires Ready() && Open(View(), room) && memory[room].chat > 0 && missing != [] && !memory[room].inviteAttempted
      modifies this
      ensures Valid() && creates == old(creates) && invites <= old(invites) + multiset{room} && old(invites) <= invites
      ensures invites == if world.save(old(calls)).Written? then old(invites) + multiset{room} else old(invites)
      ensures memory == if world.save(old(calls)).Written? then Reserved(old(memory), room, missing) else old(memory)
      ensures ok ==> room in memory && place == ToConfirm(room, memory[room].chat)
      ensures ok ==> memory[room].chat == old(memory)[room].chat
      ensures !ok ==> place.Idle?
    {
      ghost var before := View();
      var reserved;
      ghost var save;
      reserved, save :=
        SaveGroupAttempt(room, memory[room].(inviteAttempted := true, invitees := missing), ToInvite(room));
      Took(before, Complete(room, missing, save));
      if !reserved { return false; }
      before := View();
      ok := world.invite(calls);
      calls := calls + 1;
      invites := invites + multiset{room};
      place := if ok then ToConfirm(room, memory[room].chat) else Idle;
      Took(before, SendInvite(ok));
    }

    method ConfirmChat(room: Room, chat: int) returns (ok: bool)
      requires Valid() && place == ToConfirm(room, chat) && room in memory
      modifies this`memory, this`stored, this`calls, this`place, this`confirmed, this`trace
      ensures Valid()
      ensures (if ok then place == ToBind(room) && memory == old(memory)[room := old(memory)[room].(chat := chat)]
               else place.Idle? && memory == old(memory))
    {
      ghost var before := View();
      ghost var save;
      ok, save := SaveGroupAttempt(room, memory[room].(chat := chat), ToBind(room));
      Took(before, Confirm(save));
    }

    /** The attempt is one to reconcile with this chat. */
    ghost predicate Reconciles(room: Room, selected: int, inviteMissing: bool)
      reads this
    {
      room in memory && !Resolved(memory[room]) &&
      var chat := if inviteMissing then memory[room].chat else selected;
      && chat > 0 && (memory[room].chat == 0 || memory[room].chat == chat) && world.roomFits(calls)
      && var missing := world.missing(calls, inviteMissing);
         missing.Some? && (inviteMissing && missing.value != [] ==> !memory[room].inviteAttempted)
    }

    ghost predicate Invites(room: Room)
      reads this
    {
      Reconciles(room, 0, true) && world.missing(calls, true).value != [] && world.save(calls + 1).Written?
    }

    /** Never sends CREATE; sends the missing invitations at most once, behind a
        good save; a confirmed source identity is not replaced. */
    method ReconcileGroup(room: Room, selected: int, inviteMissing: bool) returns (r: Result)
      requires Ready()
      modifies this
      ensures Ready() && creates == old(creates) && old(invites) <= invites <= old(invites) + multiset{room}
      ensures invites != old(invites) ==> inviteMissing && room in old(memory) && !old(memory)[room].inviteAttempted
      ensures r.BoundTo? ==>
        room in memory && memory[room].bound && memory[room].chat == r.chat && (!inviteMissing ==> r.chat == selected)
      ensures r.Refused? <==> !old(Reconciles(room, selected, inviteMissing))
      ensures r.Refused? ==> memory == old(memory)
      ensures invites != old(invites) <==> inviteMissing && old(Invites(room))
      ensures inviteMissing && old(Invites(room)) ==>
        room in memory && memory[room].inviteAttempted && memory[room].invitees == world.missing(old(calls), true).value
      ensures forall other :: other != room ==>
        (other in memory <==> other in old(memory)) && (other in memory ==> memory[other] == old(memory)[other])
    {
      var chosen := CheckReconcile(room, selected, inviteMissing);
      if chosen.None? { return Refused; }
      var chat, absent := chosen.value.chat, chosen.value.absent;
      var ok := InviteAbsent(room, chat, absent);
      if !ok { return Unresolved; }
      r := ConfirmAndBind(room, chat);
    }

    /** The chat to reconcile with, and the selected participants to be invited. */
    method CheckReconcile(room: Room, selected: int, inviteMissing: bool) returns (chosen: Option<Chosen>)
      requires Ready()
      modifies this`calls
      ensures Ready() && (chosen.Some? <==> old(Reconciles(room, selected, inviteMissing)))
      ensures chosen.Some? ==> calls == old(calls) + 1
      ensures chosen.Some? && inviteMissing ==>
        chosen.value == Chosen(memory[room].chat, world.missing(old(calls), true).value)
      ensures chosen.Some? && !inviteMissing ==> chosen.value == Chosen(selected, [])
    {
      if (!inviteMissing && selected <= 0) || room !in memory || memory[room].rejected || memory[room].bound {
        return None;
      }
      if inviteMissing && memory[room].chat <= 0 { return None; }
      var chat := if inviteMissing then memory[room].chat else selected;
      if memory[room].chat != 0 && memory[room].chat != chat { return None; }
      var fits, missing := world.roomFits(calls), world.missing(calls, inviteMissing);
      calls := calls + 1;
      if !fits || missing.None? { return None; }
      var absent := if inviteMissing then missing.value else [];
      if absent != [] && memory[room].inviteAttempted { return None; }
      return Some(Chosen(chat, absent));
    }

    method ConfirmAndBind(room: Room, chat: int) returns (r: Result)
      requires Valid() && place == ToConfirm(room, chat) && room in memory
      modifies this
      ensures Ready() && creates == old(creates) && invites == old(invites) && !r.Refused?
      ensures memory == old(memory) || memory == old(memory)[room := old(memory)[room].(chat := chat)] ||
        memory == old(memory)[room := old(memory)[room].(chat := chat, bound := true)]
      ensures r.BoundTo? ==> r.chat == chat && memory[room].bound && memory[room].chat == chat
    {
      var ok := ConfirmChat(room, chat);
      if !ok { return Unsaved; }
      var bindable := BindCreatedGroup(room);
      r := if bindable then BoundTo(memory[room].chat) else Pending;
    }

    /** The chat may be confirmed once nobody selected is missing from it, or they
        were invited. */
    method InviteAbsent(room: Room, chat: int, absent: seq<int>) returns (ok: bool)
      requires Ready() && Open(View(), room) && chat > 0 && (memory[room].chat == 0 || memory[room].chat == chat)
      requires absent != [] ==> memory[room].chat == chat && !memory[room].inviteAttempted
      modifies this
      ensures Valid() && creates == old(creates) && (if ok then place == ToConfirm(room, chat) else place.Idle?)
      ensures var sent := absent != [] && world.save(old(calls)).Written?;
        && invites == (if sent then old(invites) + multiset{room} else old(invites))
        && memory == (if sent then Reserved(old(memory), room, absent) else old(memory))
    {
      if absent != [] {
        ok := SendAddMembers(room, absent);
      } else {
        ghost var before := View();
        place := ToConfirm(room, chat);
        Took(before, Reconcile(room, chat));
        ok := true;
      }
    }

    ghost function Reserved(journal: Journal, room: Room, absent: seq<int>): Journal
      requires room in journal
    {
      journal[room := journal[room].(inviteAttempted := true, invitees := absent)]
    }

    /** At connect: every confirmed attempt is bound; one without a source chat
        stops the connection. */
    method ResumeGroupCreates() returns (ok: bool)
      requires Ready()
      modifies this
      ensures Ready() && creates == old(creates) && invites == old(invites)
      ensures ok <==> NothingUnresolved(memory)
      ensures memory.Keys == old(memory).Keys
      ensures forall r :: r in memory ==> OnlyBound(old(memory)[r], memory[r])
    {
      var todo := memory.Keys;
      while todo != {}
        invariant Ready() && creates == old(creates) && invites == old(invites)
        invariant todo <= memory.Keys == old(memory).Keys
        invariant forall r :: r in memory && r !in todo ==> Resolved(memory[r])
        invariant forall r :: r in memory ==> OnlyBound(old(memory)[r], memory[r])
        decreases todo
      {
        var room := PickOne(todo);
        todo := todo - {room};
        if !memory[room].rejected && !memory[room].bound {
          if memory[room].chat == 0 { return false; }
          BeginBinding(room);
          var done := BindCreatedGroup(room);
          if !done { return false; }
        }
      }
      ok := true;
    }
  }
}
