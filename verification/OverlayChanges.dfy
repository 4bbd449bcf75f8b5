/** What one change does to its target, and what every later row of a deleted
    target shows (internal/client/history_store.go, observe and observeRecords). */
module OverlayChanges {
  import opened Basics
  import opened Coverage
  import opened Overlay

  /** Only the target's overlay differs. */
  ghost predicate OnlyAt(a: Mutations, b: Mutations, t: Target) {
    b.Keys == a.Keys + {t} && forall other :: other in a && other != t ==> b[other] == a[other]
  }

  // ---- Single changes ----

  /** A deletion deletes its target, whether or not the overlay knew it, and keeps
      its revision and content; a second one changes nothing, and so does one that
      cannot be written. */
  lemma DeletionDeletes(ms: Mutations, t: Target, log: int, content: Option<Raw>, budget: nat)
    requires AllValid(ms) && t.chat > 0 && t.log > 0 && log >= 0
    ensures var w := Observe(ms, Deletion(t, log), content, budget);
      if t in ms && ms[t].deleted then w == Wrote(ms, budget, Fine)
      else if budget == 0 then w == Wrote(ms, 0, Broken)
      else
        && w.status == Fine && w.left == budget - 1 && OnlyAt(ms, w.ms, t)
        && w.ms[t].deleted && w.ms[t].sequence == log
        && (t in ms ==> w.ms[t].revision == ms[t].revision && w.ms[t].replacement == ms[t].replacement)
        && (t !in ms ==> w.ms[t].revision == 0 && w.ms[t].replacement.None?)
  {
  }

  /** Its target was deleted, or saw a later change, or this very one. */
  predicate Stale(ms: Mutations, t: Target, revision: int, log: int, content: Option<Raw>) {
    t in ms &&
    (ms[t].deleted || log < ms[t].sequence || revision < ms[t].revision ||
     (log == ms[t].sequence && revision == ms[t].revision && content.None?))
  }

  predicate LegalContent(t: Target, revision: int, content: Option<Raw>) {
    content.Some? ==> content.value.decodes && content.value.id == t.log && content.value.revision >= revision
  }

  /** An edit is written exactly when it is not stale. The recorded revision and
      sequence are then the edit's; its content is the edit's own, or what was
      there of the same revision, or unknown. */
  lemma EditIsWrittenIff(ms: Mutations, t: Target, revision: int, log: int, content: Option<Raw>, budget: nat)
    requires AllValid(ms) && t.chat > 0 && t.log > 0 && log > 0 && revision > 0 && LegalContent(t, revision, content)
    ensures var w := Observe(ms, Edit(t, revision, log), content, budget);
      if Stale(ms, t, revision, log, content) then w == Wrote(ms, budget, Fine)
      else if budget == 0 then w == Wrote(ms, 0, Broken)
      else
        && w.status == Fine && w.left == budget - 1 && OnlyAt(ms, w.ms, t)
        && !w.ms[t].deleted && w.ms[t].sequence == log && w.ms[t].revision == revision
        && (content.Some? ==> w.ms[t].replacement == content && w.ms[t].acquired)
        && (content.None? && t in ms && ms[t].revision == revision ==> w.ms[t].replacement == ms[t].replacement)
        && (content.None? && (t !in ms || ms[t].revision != revision) ==> w.ms[t].replacement.None?)
        && (t in ms && ms[t].acquired ==> w.ms[t].acquired)
  {
  }

  /** The record announces a change of its own row. */
  predicate ChangesItself(raw: Raw) {
    raw.feed.Deleted? || ((raw.feed.Deletes? || raw.feed.Edits?) && raw.feed.target == raw.id)
  }

  /** After a record of another row's change, or of none, was read, its own row
      shows it if and only if its target is not deleted and it is not older than
      what was recorded. */
  lemma RecordShowsIff(ms: Mutations, chat: int, raw: Raw, budget: nat)
    requires AllValid(ms) && !ChangesItself(raw) && Record(ms, chat, raw, budget).status == Fine
    ensures var w, t := Record(ms, chat, raw, budget), Target(chat, raw.id);
      Project(w.ms, chat, raw) == Showing(raw) <==> !(t in ms && (ms[t].deleted || raw.revision < ms[t].revision))
  {
  }

  /** An edit announced by a record is written exactly as a live one is. */
  lemma RecordedEdit(ms: Mutations, chat: int, raw: Raw, budget: nat)
    requires AllValid(ms) && raw.feed.Edits? && raw.feed.target != raw.id && raw.feed.revision > 0
    requires Record(ms, chat, raw, budget).status == Fine
    ensures var w, t := Record(ms, chat, raw, budget), Target(chat, raw.feed.target);
      if Stale(ms, t, raw.feed.revision, raw.id, None) then t in w.ms && w.ms[t] == ms[t]
      else t in w.ms && !w.ms[t].deleted && w.ms[t].revision == raw.feed.revision && w.ms[t].sequence == raw.id
  {
  }

  // ---- Which records and pages are stored ----

  /** The change a record announces names a log and, for an edit, a revision. */
  predicate LegalFeed(raw: Raw) {
    (raw.feed.Deletes? ==> raw.feed.target > 0) && (raw.feed.Edits? ==> raw.feed.target > 0 && raw.feed.revision > 0)
  }

  predicate DeletesItself(raw: Raw) { raw.feed.Deleted? || (raw.feed.Deletes? && raw.feed.target == raw.id) }

  /** The row is older than an edit whose content was never seen, and deleted: it
      would be kept as the tombstone's content, but is too old to be written. */
  predicate TooOld(ms: Mutations, chat: int, raw: Raw) {
    var t := Target(chat, raw.id);
    t in ms && ms[t].replacement.None? && raw.revision < ms[t].revision && (ms[t].deleted || DeletesItself(raw))
  }

  /** With writes enough a record is read if and only if it decodes and is not too
      old for a deleted target. */
  lemma RecordReadIff(ms: Mutations, chat: int, raw: Raw, budget: nat)
    requires AllValid(ms) && chat > 0 && raw.id > 0 && LegalFeed(raw) && budget >= 2
    ensures var w := Record(ms, chat, raw, budget);
      (w.status == Fine <==> raw.decodes && !TooOld(ms, chat, raw)) && w.left >= budget - 2
  {
  }

  /** The record read at its turn, after those before it. */
  ghost predicate TooOldAt(ms: Mutations, chat: int, logs: seq<Raw>, budget: nat, i: nat)
    requires i < |logs|
  {
    TooOld(Records(ms, chat, logs[..i], budget).ms, chat, logs[i])
  }

  ghost predicate NoneTooOld(ms: Mutations, chat: int, logs: seq<Raw>, budget: nat) {
    forall i :: 0 <= i < |logs| ==> !TooOldAt(ms, chat, logs, budget, i)
  }

  lemma {:induction false} RecordsReadIff(ms: Mutations, chat: int, logs: seq<Raw>, budget: nat)
    requires AllValid(ms) && chat > 0 && budget > 2 * |logs|
    requires forall i :: 0 <= i < |logs| ==> logs[i].id > 0 && LegalFeed(logs[i]) && logs[i].decodes
    ensures var w := Records(ms, chat, logs, budget);
      (w.status == Fine <==> NoneTooOld(ms, chat, logs, budget)) && w.left + 2 * |logs| >= budget
    decreases logs
  {
    if logs != [] {
      var first := Record(ms, chat, logs[0], budget);
      RecordReadIff(ms, chat, logs[0], budget);
      RecordKeeps(ms, chat, logs[0], budget);
      assert logs[..0] == [];
      assert first.status == Fine <==> !TooOldAt(ms, chat, logs, budget, 0);
      if first.status == Fine {
        RecordsReadIff(first.ms, chat, logs[1..], first.left);
        forall i | 0 <= i < |logs| - 1
          ensures TooOldAt(first.ms, chat, logs[1..], first.left, i) <==> TooOldAt(ms, chat, logs, budget, i + 1)
        {
          assert logs[..i + 1][1..] == logs[1..][..i] && logs[..i + 1][0] == logs[0];
        }
        assert forall i :: 0 < i < |logs| ==>
          (TooOldAt(first.ms, chat, logs[1..], first.left, i - 1) <==> TooOldAt(ms, chat, logs, budget, i));
      }
    }
  }

  /** A save that succeeds stores exactly the selected logs, in order, under the
      request's name and leaves every other page; one that fails stores none. */
  lemma SavedIs(d: Disk, req: Request, logs: seq<Raw>, budget: nat)
    ensures var after := Perform(d, SavePage(req, logs), budget);
      if after.1 == Fine then
        && after.0.pages.Keys == d.pages.Keys + {req} && Ascending(after.0.pages[req]) && after.0.pages[req] != []
        && (forall raw :: raw in after.0.pages[req] <==> raw in logs && req.cur < raw.id <= req.max)
        && (forall other :: other in d.pages && other != req ==> after.0.pages[other] == d.pages[other])
      else after.0.pages == d.pages
  {
    if ValidPage(req, logs) { InRangeAscending(req, logs); }
  }

  /** The request is one, and its logs ascend from its position with some selected
      and all of those decodable. */
  ghost predicate Savable(req: Request, logs: seq<Raw>) {
    && req.chat > 0 && 0 <= req.cur < req.max && Ascending(logs)
    && (forall i :: 0 <= i < |logs| ==> logs[i].id > 0 && logs[i].id >= req.cur)
    && (exists raw :: raw in logs && req.cur < raw.id <= req.max)
    && (forall raw :: raw in logs && req.cur < raw.id <= req.max ==> raw.decodes)
  }

  /** With writes enough a page is stored if and only if it is savable and none of
      the rows selected is, at its turn, too old for a deleted target. */
  lemma SavedIff(d: Disk, req: Request, logs: seq<Raw>, budget: nat)
    requires Good(d) && budget > 2 * |logs| && forall i :: 0 <= i < |logs| ==> LegalFeed(logs[i])
    ensures var rows := InRange(req, logs);
      Perform(d, SavePage(req, logs), budget).1 == Fine <==>
        Savable(req, logs) && NoneTooOld(d.mutations, req.chat, rows, budget)
  {
    var rows := InRange(req, logs);
    SavableIsValid(req, logs);
    if ValidPage(req, logs) {
      RowsDecode(req, logs);
      RecordsReadIff(d.mutations, req.chat, rows, budget);
      PageFollowsRecords(d, req, logs, budget);
    }
  }

  lemma PageFollowsRecords(d: Disk, req: Request, logs: seq<Raw>, budget: nat)
    requires ValidPage(req, logs) && Records(d.mutations, req.chat, InRange(req, logs), budget).left > 0
    ensures Perform(d, SavePage(req, logs), budget).1 ==
      Records(d.mutations, req.chat, InRange(req, logs), budget).status
  {
  }

  lemma SavableIsValid(req: Request, logs: seq<Raw>)
    ensures ValidPage(req, logs) <==> Savable(req, logs)
  {
    var rows := InRange(req, logs);
    if raw :| raw in logs && req.cur < raw.id <= req.max { assert raw in rows; }
    if rows != [] { assert rows[0] in rows && rows[0] in logs; }
  }

  lemma RowsDecode(req: Request, logs: seq<Raw>)
    requires ValidPage(req, logs) && forall i :: 0 <= i < |logs| ==> LegalFeed(logs[i])
    ensures var rows := InRange(req, logs);
      forall i :: 0 <= i < |rows| ==> rows[i].id > 0 && LegalFeed(rows[i]) && rows[i].decodes
  {
    var rows := InRange(req, logs);
    forall i | 0 <= i < |rows|
      ensures rows[i].id > 0 && LegalFeed(rows[i]) && rows[i].decodes
    {
      assert rows[i] in rows && rows[i] in logs;
    }
  }

  /** It does happen, from an empty store: a log edited and then deleted while only
      its identity was known makes the page that holds it unstorable, whatever its
      content and however many writes succeed. */
  lemma EditedThenDeleted(body: int, budget: nat)
    requires budget > 2
    ensures var t, raw, req := Target(1, 7), Raw(7, 0, body, Plain, true), Coverage.Request(1, 0, 10);
      var ops := [(Live(Edit(t, 5, 8), None), 1), (Live(Deletion(t, 9), None), 1)];
      var d := After(Disk(map[], map[]), ops);
      Good(d) && Savable(req, [raw]) && Perform(d, SavePage(req, [raw]), budget).1 != Fine
  {
    var t, raw, req := Target(1, 7), Raw(7, 0, body, Plain, true), Coverage.Request(1, 0, 10);
    var start := Disk(map[], map[]);
    var ops: seq<(StoreOp, nat)> := [(Live(Edit(t, 5, 8), None), 1), (Live(Deletion(t, 9), None), 1)];
    RunsOnlyGetNewer(start, ops);
    assert ops[..1] == [ops[0]] && ops[..1][..0] == [] && After(start, []) == start;
    assert After(start, ops[..1]) == Perform(start, ops[0].0, 1).0;
    var d := After(start, ops);
    assert d == Perform(After(start, ops[..1]), ops[1].0, 1).0;
    assert d.mutations[t] == Mutation(9, 5, true, false, None);
    assert InRange(req, [raw]) == [raw] && raw in [raw];
    SavedIff(d, req, [raw], budget);
    assert [raw][..0] == [] && TooOldAt(d.mutations, 1, [raw], budget, 0);
  }

  // ---- A deletion that was written ----

  /** The record announces the deletion of the target. */
  predicate Announces(chat: int, raw: Raw, t: Target) {
    (raw.feed.Deletes? && t == Target(chat, raw.feed.target)) || (raw.feed.Deleted? && t == Target(chat, raw.id))
  }

  /** The operation contains a deletion of the target and succeeds. */
  ghost predicate Deletes(d: Disk, op: StoreOp, budget: nat, t: Target) {
    && Perform(d, op, budget).1 == Fine
    && match op
       case Live(event, _) => event.Deletion? && event.target == t
       case ReadRecords(chat, logs) => exists raw :: raw in logs && Announces(chat, raw, t)
       case SavePage(req, logs) =>
         exists raw :: raw in logs && req.cur < raw.id <= req.max && Announces(req.chat, raw, t)
  }

  lemma ObservedDeletion(ms: Mutations, t: Target, log: int, content: Option<Raw>, budget: nat)
    requires Observe(ms, Deletion(t, log), content, budget).status == Fine
    ensures var w := Observe(ms, Deletion(t, log), content, budget); t in w.ms && w.ms[t].deleted
  {
  }

  lemma RecordedDeletion(ms: Mutations, chat: int, raw: Raw, budget: nat, t: Target)
    requires AllValid(ms) && Announces(chat, raw, t) && Record(ms, chat, raw, budget).status == Fine
    ensures var w := Record(ms, chat, raw, budget); t in w.ms && w.ms[t].deleted
  {
    var seen := Observe(ms, EventOf(chat, raw), None, budget);
    ObservedDeletion(ms, t, raw.id, None, budget);
    ObserveKeeps(ms, EventOf(chat, raw), None, budget);
    RecordSelfKeeps(seen.ms, chat, raw, seen.left);
  }

  lemma {:induction false} RecordsDelete(ms: Mutations, chat: int, logs: seq<Raw>, budget: nat, raw: Raw, t: Target)
    requires AllValid(ms) && raw in logs && Announces(chat, raw, t) && Records(ms, chat, logs, budget).status == Fine
    ensures var w := Records(ms, chat, logs, budget); t in w.ms && w.ms[t].deleted
    decreases logs
  {
    var first := Record(ms, chat, logs[0], budget);
    RecordKeeps(ms, chat, logs[0], budget);
    if logs[0] == raw {
      RecordedDeletion(ms, chat, raw, budget, t);
      RecordsKeep(first.ms, chat, logs[1..], first.left);
    } else {
      RecordsDelete(first.ms, chat, logs[1..], first.left, raw, t);
    }
  }

  lemma DeletionIsWritten(d: Disk, op: StoreOp, budget: nat, t: Target)
    requires Good(d) && Deletes(d, op, budget, t)
    ensures var ms := Perform(d, op, budget).0.mutations; t in ms && ms[t].deleted
  {
    match op
    case Live(event, content) => ObservedDeletion(d.mutations, t, event.log, content, budget);
    case ReadRecords(chat, logs) =>
      var raw :| raw in logs && Announces(chat, raw, t);
      RecordsDelete(d.mutations, chat, logs, budget, raw, t);
    case SavePage(req, logs) =>
      var raw :| raw in logs && req.cur < raw.id <= req.max && Announces(req.chat, raw, t);
      RecordsDelete(d.mutations, req.chat, InRange(req, logs), budget, raw, t);
  }

  /** Over every run, cut short anywhere: once an operation deleted a target, live
      or through a record it read, every stored row of the target shows a
      tombstone from then on, whenever it was stored. */
  lemma DeletedForGood(d: Disk, ops: seq<(StoreOp, nat)>, i: nat, req: Request, raw: Raw)
    requires Good(d) && i < |ops| && Deletes(After(d, ops[..i]), ops[i].0, ops[i].1, Target(req.chat, raw.id))
    requires req in After(d, ops).pages && raw in After(d, ops).pages[req]
    ensures Project(After(d, ops).mutations, req.chat, raw) == Tombstone(raw)
  {
    var t := Target(req.chat, raw.id);
    RunsOnlyGetNewer(d, ops[..i]);
    DeletionIsWritten(After(d, ops[..i]), ops[i].0, ops[i].1, t);
    assert ops[..i + 1][..i] == ops[..i] && ops[..i + 1][i] == ops[i];
    StaysDeleted(d, ops, i + 1, t);
  }

  lemma {:induction false} StaysDeleted(d: Disk, ops: seq<(StoreOp, nat)>, i: nat, t: Target)
    requires Good(d) && i <= |ops| && t in After(d, ops[..i]).mutations && After(d, ops[..i]).mutations[t].deleted
    ensures t in After(d, ops).mutations && After(d, ops).mutations[t].deleted
    decreases |ops|
  {
    if i == |ops| {
      assert ops[..i] == ops;
    } else {
      var front, last := ops[..|ops| - 1], ops[|ops| - 1];
      assert front[..i] == ops[..i];
      StaysDeleted(d, front, i, t);
      RunsOnlyGetNewer(d, front);
      PerformKeeps(After(d, front), last.0, last.1);
    }
  }
}
