/** The session machine with the loaded checkpoint and the file apart: a write
    may report a failure after it replaced the file, which then stays one update
    ahead of the value until the next write or crash
    (internal/client/client.go, internal/client/sync.go,
    internal/continuity/continuity.go). */
module SessionFiles {
  import opened Basics
  import opened CatchUpFinish
  import opened CatchUpClient
  import opened CatchUpSingle
  import opened DeliverySession

  /** s.cp is the loaded value. drift is the update whose write failed after
      replacing the file, if that was the last to reach it. */
  datatype Stored = Stored(s: Session, file: CP.View, drift: Option<CP.Op>)

  /** Does: a step whose writes, if any, succeeded or changed nothing; wrote says
      that one reached the file. The others end in a write that failed after
      replacing the file. */
  datatype Move =
    | Does(step: Step, wrote: bool)
    | Drifts(op: CP.Op)
    | FinishDrifts(id: int, writes: nat)
    | ConnectDrifts(op: CP.Op)
    | Restart

  /** The single writes of a live session. */
  ghost predicate Writing(s: Session, op: CP.Op) {
    match op
    case RecordStart(chat, log) => s.phase == Open && log > CommittedMax(s.cp, chat)
    case Commit(chat, log) => IsHead(s.queue, chat, log)
    case ResolveGap(_, _) => s.phase == Open
    case RecordGap(chat, from, _) => s.phase == Open && from == Position(s.cp, chat) + 1
    case _ => false
  }

  ghost predicate MayMove(d: Stored, move: Move) {
    match move
    case Does(step, wrote) =>
      && step != Crash && Enabled(d.s, step)
      && (!wrote ==> Next(d.s, step).cp == d.s.cp) && (step.Connect? ==> wrote)
    case Drifts(op) => CP.Legal(op) && Writing(d.s, op)
    case FinishDrifts(id, writes) => d.s.phase == Finishing && id in d.s.plan && writes < |WritesOf(d.s, id)|
    case ConnectDrifts(op) => op.Install? && CP.Legal(op)
    case Restart => true
  }

  function Ended(v: CP.View): Session { Session(v, map[], map[], map[], map[], map[], map[], Dead) }

  ghost function Moved(d: Stored, move: Move): Stored
    requires MayMove(d, move)
  {
    match move
    case Does(step, wrote) =>
      var t := Next(d.s, step);
      if wrote then Stored(t, t.cp, None) else Stored(t, d.file, d.drift)
    case Drifts(op) => Stored(d.s, CP.Meaning(op, d.s.cp), Some(op))
    case FinishDrifts(id, writes) =>
      var op, t := WritesOf(d.s, id)[writes], Next(d.s, FinishRoom(id, writes));
      Stored(t, CP.Meaning(op, t.cp), Some(op))
    case ConnectDrifts(op) => Stored(Ended(d.s.cp), CP.Meaning(op, d.s.cp), Some(op))
    case Restart => Stored(Ended(d.file), d.file, None)
  }

  // ---- What every run keeps ----

  /** The drifted update belongs to the session as it is. */
  ghost predicate Belongs(s: Session, op: CP.Op) {
    && CP.Legal(op) && s.phase != Fresh && (s.phase == Finishing ==> op.Commit?)
    && (op.Install? ==> s.owed == map[] && s.plan == map[])
    && (op.Commit? ==> op.chat !in s.plan)
    && (op.RecordGap? ==> op.chat in s.plan || op.from == Position(s.cp, op.chat) + 1)
  }

  ghost predicate FileInv(d: Stored) {
    match d.drift
    case None => d.file == d.s.cp
    case Some(op) => d.file == CP.Meaning(op, d.s.cp) && Belongs(d.s, op)
  }

  ghost predicate AllKept(d: Stored) { Inv(d.s) && FileInv(d) }

  lemma EndedKeeps(v: CP.View)
    requires CP.ValidView(v)
    ensures Inv(Ended(v))
  {
  }

  lemma FileIsValid(d: Stored)
    requires AllKept(d)
    ensures CP.ValidView(d.file)
  {
    if d.drift.Some? { CP.MeaningValid(d.s.cp, d.drift.value); }
  }

  /** A step that writes nothing keeps the drift where it belongs. */
  lemma DoesKeeps(d: Stored, step: Step, wrote: bool)
    requires AllKept(d) && MayMove(d, Does(step, wrote))
    ensures FileInv(Moved(d, Does(step, wrote)))
  {
    if !wrote && d.drift.Some? {
      BelongsStays(d.s, step, d.drift.value);
    }
  }

  lemma BelongsStays(s: Session, step: Step, op: CP.Op)
    requires Inv(s) && Enabled(s, step) && Belongs(s, op) && !step.Connect? && step != Crash
    requires Next(s, step).cp == s.cp
    ensures Belongs(Next(s, step), op)
  {
    if step.FinishRoom? { FinishBelongs(s, step.id, step.writes, op); }
  }

  lemma FinishBelongs(s: Session, id: int, writes: nat, op: CP.Op)
    requires Inv(s) && Enabled(s, FinishRoom(id, writes)) && Belongs(s, op)
    requires Next(s, FinishRoom(id, writes)).cp == s.cp
    ensures Belongs(Next(s, FinishRoom(id, writes)), op)
  {
  }

  lemma MoveKeeps(d: Stored, move: Move)
    requires AllKept(d) && MayMove(d, move)
    ensures AllKept(Moved(d, move))
  {
    match move
    case Does(step, wrote) =>
      StepIsSafe(d.s, step);
      DoesKeeps(d, step, wrote);
    case Drifts(op) => DriftBelongs(d.s, op);
    case FinishDrifts(id, writes) =>
      StepIsSafe(d.s, FinishRoom(id, writes));
      FinishDriftBelongs(d.s, id, writes);
    case ConnectDrifts(op) => EndedKeeps(d.s.cp);
    case Restart =>
      FileIsValid(d);
      EndedKeeps(d.file);
  }

  lemma DriftBelongs(s: Session, op: CP.Op)
    requires Inv(s) && CP.Legal(op) && Writing(s, op)
    ensures Belongs(s, op)
  {
  }

  lemma FinishDriftBelongs(s: Session, id: int, writes: nat)
    requires Inv(s) && s.phase == Finishing && id in s.plan && writes < |WritesOf(s, id)|
    ensures Belongs(Next(s, FinishRoom(id, writes)), WritesOf(s, id)[writes])
  {
    WritesAreLegal(s, id);
  }

  /** A run from nothing; a move that cannot be made is refused. */
  ghost function Reach(moves: seq<Move>): Stored {
    if moves == [] then Stored(START, START.cp, None)
    else
      var before, last := Reach(moves[..|moves| - 1]), moves[|moves| - 1];
      if MayMove(before, last) then Moved(before, last) else before
  }

  lemma {:induction false} RunsKeep(moves: seq<Move>)
    ensures AllKept(Reach(moves))
  {
    if moves != [] {
      var before, last := Reach(moves[..|moves| - 1]), moves[|moves| - 1];
      RunsKeep(moves[..|moves| - 1]);
      if MayMove(before, last) { MoveKeeps(before, last); }
    }
  }

  // ---- What the file records ----

  /** The last write to reach the file was the resolve of a read that then failed,
      of this chat and through x. */
  predicate ResolvedOnDisk(d: Stored, chat: int, x: int) {
    d.drift.Some? && d.drift.value.ResolveGap? && d.drift.value.chat == chat && x <= d.drift.value.log
  }

  /** What a drift does to a recorded gap. */
  lemma FileGap(d: Stored, chat: int, x: int)
    requires AllKept(d) && chat in d.s.owed
    ensures InGap(d.s.cp, chat, x) && !ResolvedOnDisk(d, chat, x) ==> InGap(d.file, chat, x)
    ensures ResolvedOnDisk(d, chat, x) ==> !InGap(d.file, chat, x)
  {
    if d.drift.Some? { GapAfter(d.s.cp, d.drift.value, chat, x); }
  }

  /** The file commits no planned room past its start before its own writes. */
  lemma PlannedIsNotReached(d: Stored, chat: int, x: int)
    requires AllKept(d) && chat in d.s.plan && Owes(d.s, chat, x)
    ensures CommittedMax(d.file, chat) < x
  {
    assert Plannable(d.s.cp, chat, d.s.plan[chat]);
  }

  /** In every run, once the file's commit has reached an identity that the
      session's catch-up skipped or did not recover, the file records it as a gap,
      unless a later read of the chat had a target at or above it: one that
      succeeded, or one whose resolve was the last write to reach the file. */
  lemma NoFilePassesAnUnrecordedGap(moves: seq<Move>, chat: int, x: int)
    requires Owes(Reach(moves).s, chat, x) && CommittedMax(Reach(moves).file, chat) >= x
    ensures var d := Reach(moves);
      InGap(d.file, chat, x) || ResolvedOnDisk(d, chat, x) ||
      exists r :: r in ReadingsOf(d.s, chat) && x <= r.target
  {
    RunsKeep(moves);
    var d := Reach(moves);
    if chat in d.s.plan {
      PlannedIsNotReached(d, chat, x);
    } else {
      FileGap(d, chat, x);
    }
  }

  /** In every run, an identity that a finished room owes and no later read went
      through is recorded in the file exactly when no read resolved it unread,
      neither in the value nor last on disk. */
  lemma OwedIsFiledIff(moves: seq<Move>, chat: int, x: int)
    requires var s := Reach(moves).s; Owes(s, chat, x) && chat !in s.plan && !ReadAgain(s, chat, x)
    ensures var d := Reach(moves);
      InGap(d.file, chat, x) <==> !Erased(d.s, chat, x) && !ResolvedOnDisk(d, chat, x)
  {
    RunsKeep(moves);
    var d := Reach(moves);
    FileGap(d, chat, x);
    if Erased(d.s, chat, x) {
      var r :| r in ReadingsOf(d.s, chat) && x <= r.from && x <= r.target;
      StaysErased(d, chat, r);
    }
  }

  lemma StaysErased(d: Stored, chat: int, r: Reading)
    requires AllKept(d) && chat in d.s.owed && chat !in d.s.plan && r in ReadingsOf(d.s, chat)
    ensures Resolved(d.file, chat, r, d.s.owed[chat].room.gapStart)
  {
    var v, start := d.s.cp, d.s.owed[chat].room.gapStart;
    assert ReadingKept(d.s, chat, r) && Anchored(v, chat, start);
    if d.drift.Some? {
      var op := d.drift.value;
      match op
      case RecordGap(c, _, _) => if c == chat { GapKeeps(v, op, chat, r, start); }
      case ResolveGap(c, log) => if c == chat { ReadKeeps(v, c, log, chat, r, start, true); }
      case RecordStart(_, _) => LiveKeeps(v, op, chat, r, start);
      case Commit(_, _) => LiveKeeps(v, op, chat, r, start);
      case _ =>
    }
  }
}
