/** The edit and deletion overlay of acquired pages, and what every order of
    writes, failures and crashes keeps (internal/client/history_store.go). */
module Overlay {
  import opened Basics
  import opened Coverage

  datatype Target = Target(chat: int, log: int)

  /** What a chat log announces besides itself. */
  datatype Feed = Plain | Deletes(target: int) | Deleted | Edits(target: int, revision: int)

  /** A stored chat log. revision counts its edits; decodes says that the event
      decoder accepts it at this chat and log ID. */
  datatype Raw = Raw(id: int, revision: nat, body: int, feed: Feed, decodes: bool)

  datatype Event = Deletion(target: Target, log: int) | Edit(target: Target, revision: int, log: int) | Other

  function EventOf(chat: int, raw: Raw): Event {
    match raw.feed
    case Plain => Other
    case Deletes(target) => Deletion(Target(chat, target), raw.id)
    case Deleted => Deletion(Target(chat, raw.id), raw.id)
    case Edits(target, revision) => Edit(Target(chat, target), revision, raw.id)
  }

  datatype Mutation = Mutation(sequence: int, revision: int, deleted: bool, acquired: bool, replacement: Option<Raw>)

  type Mutations = map<Target, Mutation>

  function Old(ms: Mutations, t: Target): Mutation {
    if t in ms then ms[t] else Mutation(0, 0, false, false, None)
  }

  /** What observing an event writes for its target, if anything. */
  function Observed(ms: Mutations, event: Event, replacement: Option<Raw>): Option<Mutation>
    requires !event.Other?
  {
    var old_ := Old(ms, event.target);
    if old_.deleted then None
    else match event
         case Deletion(_, log) => Some(Mutation(log, old_.revision, true, old_.acquired, old_.replacement))
         case Edit(_, revision, log) =>
           if log < old_.sequence || revision < old_.revision then None
           else if log == old_.sequence && revision == old_.revision && replacement.None? then None
           else
             var kept := if old_.revision == revision then old_.replacement else None;
             Some(Mutation(log, revision, false, old_.acquired, if replacement.Some? then replacement else kept))
  }

  predicate ValidMutation(t: Target, m: Mutation) {
    && t.chat > 0 && t.log > 0 && m.sequence >= 0 && m.revision >= 0
    && (m.deleted || m.revision != 0 || m.replacement.Some?)
    && (m.replacement.Some? ==>
        m.replacement.value.decodes && m.replacement.value.id == t.log && m.replacement.value.revision >= m.revision)
  }

  datatype Status = Fine | Refused | Broken

  /** A sequence of writes: the overlay on disk, the writes still to succeed
      before the next failure or crash, and how it ended. */
  datatype Wrote = Wrote(ms: Mutations, left: nat, status: Status)

  function WriteOverlay(ms: Mutations, t: Target, m: Mutation, budget: nat): Wrote {
    var n := m.(acquired := m.acquired || m.replacement.Some?);
    if !ValidMutation(t, n) then Wrote(ms, budget, Refused)
    else if budget == 0 then Wrote(ms, 0, Broken)
    else Wrote(ms[t := n], budget - 1, Fine)
  }

  function Observe(ms: Mutations, event: Event, replacement: Option<Raw>, budget: nat): Wrote {
    if event.Other? then Wrote(ms, budget, Fine)
    else match Observed(ms, event, replacement)
         case None => Wrote(ms, budget, Fine)
         case Some(m) => WriteOverlay(ms, event.target, m, budget)
  }

  /** A record is its event first, then itself as the newest content of its own
      identity. */
  function RecordSelf(ms: Mutations, chat: int, raw: Raw, budget: nat): Wrote {
    var t := Target(chat, raw.id);
    var old_ := Old(ms, t);
    if old_.deleted then
      if old_.replacement.None? then WriteOverlay(ms, t, old_.(replacement := Some(raw)), budget)
      else Wrote(ms, budget, Fine)
    else if raw.revision >= old_.revision then
      WriteOverlay(ms, t, old_.(revision := raw.revision, replacement := Some(raw)), budget)
    else Wrote(ms, budget, Fine)
  }

  function Record(ms: Mutations, chat: int, raw: Raw, budget: nat): Wrote {
    if !raw.decodes then Wrote(ms, budget, Refused)
    else
      var seen := Observe(ms, EventOf(chat, raw), None, budget);
      if seen.status != Fine then seen else RecordSelf(seen.ms, chat, raw, seen.left)
  }

  function Records(ms: Mutations, chat: int, logs: seq<Raw>, budget: nat): Wrote
    decreases logs
  {
    if logs == [] then Wrote(ms, budget, Fine)
    else
      var first := Record(ms, chat, logs[0], budget);
      if first.status != Fine then first else Records(first.ms, chat, logs[1..], first.left)
  }

  // ---- Monotone ----

  /** Deletion is absorbing and the revision never falls. */
  predicate NewerAt(a: Mutation, b: Mutation) {
    (a.deleted ==> b.deleted) && a.revision <= b.revision
  }

  ghost predicate Newer(a: Mutations, b: Mutations) {
    forall t :: t in a ==> t in b && NewerAt(a[t], b[t])
  }

  ghost predicate AllValid(ms: Mutations) {
    forall t :: t in ms ==> ValidMutation(t, ms[t]) && (ms[t].replacement.Some? ==> ms[t].acquired)
  }

  lemma NewerTransitive(a: Mutations, b: Mutations, c: Mutations)
    requires Newer(a, b) && Newer(b, c)
    ensures Newer(a, c)
  {
  }

  lemma ObserveKeeps(ms: Mutations, event: Event, replacement: Option<Raw>, budget: nat)
    requires AllValid(ms)
    ensures var w := Observe(ms, event, replacement, budget); Newer(ms, w.ms) && AllValid(w.ms)
  {
  }

  lemma RecordSelfKeeps(ms: Mutations, chat: int, raw: Raw, budget: nat)
    requires AllValid(ms)
    ensures var w := RecordSelf(ms, chat, raw, budget);
      && Newer(ms, w.ms) && AllValid(w.ms)
      && (w.status == Fine ==> Overlays(w.ms, chat, raw))
  {
  }

  /** The overlay decides what the row shows, and is at least as new. */
  predicate Overlays(ms: Mutations, chat: int, raw: Raw) {
    var t := Target(chat, raw.id);
    t in ms && (ms[t].deleted || ms[t].revision >= raw.revision)
  }

  lemma RecordKeeps(ms: Mutations, chat: int, raw: Raw, budget: nat)
    requires AllValid(ms)
    ensures var w := Record(ms, chat, raw, budget);
      && Newer(ms, w.ms) && AllValid(w.ms)
      && (w.status == Fine ==> Overlays(w.ms, chat, raw))
  {
    if raw.decodes {
      var seen := Observe(ms, EventOf(chat, raw), None, budget);
      ObserveKeeps(ms, EventOf(chat, raw), None, budget);
      if seen.status == Fine {
        RecordSelfKeeps(seen.ms, chat, raw, seen.left);
        NewerTransitive(ms, seen.ms, Record(ms, chat, raw, budget).ms);
      }
    }
  }

  lemma OverlaysGrow(a: Mutations, b: Mutations, chat: int, raw: Raw)
    requires Newer(a, b) && Overlays(a, chat, raw)
    ensures Overlays(b, chat, raw)
  {
  }

  /** Whatever number of writes succeed, the overlay only gets newer; and when all
      do, every record has its overlay. */
  lemma {:induction false} RecordsKeep(ms: Mutations, chat: int, logs: seq<Raw>, budget: nat)
    requires AllValid(ms)
    ensures var w := Records(ms, chat, logs, budget);
      && Newer(ms, w.ms) && AllValid(w.ms)
      && (w.status == Fine ==> forall i :: 0 <= i < |logs| ==> Overlays(w.ms, chat, logs[i]))
    decreases logs
  {
    if logs != [] {
      var first, w := Record(ms, chat, logs[0], budget), Records(ms, chat, logs, budget);
      RecordKeeps(ms, chat, logs[0], budget);
      if first.status == Fine {
        RecordsKeep(first.ms, chat, logs[1..], first.left);
        NewerTransitive(ms, first.ms, w.ms);
        if w.status == Fine {
          OverlaysGrow(first.ms, w.ms, chat, logs[0]);
          assert forall i :: 0 < i < |logs| ==> logs[i] == logs[1..][i - 1];
        }
      }
    }
  }

  // ---- The store on disk ----

  datatype Disk = Disk(pages: map<Request, seq<Raw>>, mutations: Mutations)

  predicate Ascending(logs: seq<Raw>) {
    forall i, j :: 0 <= i < j < |logs| ==> logs[i].id < logs[j].id
  }

  /** Only records of the selected interval enter the store. */
  function InRange(req: Request, logs: seq<Raw>): (rows: seq<Raw>)
    ensures forall raw :: raw in rows <==> raw in logs && req.cur < raw.id <= req.max
    ensures |rows| <= |logs|
  {
    if logs == [] then []
    else if req.cur < logs[0].id <= req.max then [logs[0]] + InRange(req, logs[1..])
    else InRange(req, logs[1..])
  }

  predicate ValidPage(req: Request, logs: seq<Raw>) {
    && req.chat > 0 && 0 <= req.cur < req.max
    && Ascending(logs) && (forall i :: 0 <= i < |logs| ==> logs[i].id > 0 && logs[i].id >= req.cur)
    && InRange(req, logs) != []
    && (forall raw :: raw in InRange(req, logs) ==> raw.decodes)
  }

  lemma {:induction false} InRangeAscending(req: Request, logs: seq<Raw>)
    requires Ascending(logs)
    ensures Ascending(InRange(req, logs))
  {
    if logs != [] {
      InRangeAscending(req, logs[1..]);
      assert forall raw :: raw in logs[1..] ==> raw.id > logs[0].id;
    }
  }

  datatype StoreOp =
    | Live(event: Event, replacement: Option<Raw>)
    | ReadRecords(chat: int, logs: seq<Raw>)
    | SavePage(req: Request, logs: seq<Raw>)

  /** One operation of which only the first budget durable writes happen: a page
      is published after its overlays. */
  function Perform(d: Disk, op: StoreOp, budget: nat): (Disk, Status) {
    match op
    case Live(event, replacement) =>
      var w := Observe(d.mutations, event, replacement, budget);
      (d.(mutations := w.ms), w.status)
    case ReadRecords(chat, logs) =>
      var w := Records(d.mutations, chat, logs, budget);
      (d.(mutations := w.ms), w.status)
    case SavePage(req, logs) =>
      if !ValidPage(req, logs) then (d, Refused)
      else
        var rows := InRange(req, logs);
        var w := Records(d.mutations, req.chat, rows, budget);
        if w.status != Fine then (d.(mutations := w.ms), w.status)
        else if w.left == 0 then (d.(mutations := w.ms), Broken)
        else (Disk(d.pages[req := rows], w.ms), Fine)
  }

  ghost predicate PageRows(req: Request, rows: seq<Raw>) {
    rows != [] && Ascending(rows) && forall raw :: raw in rows ==> req.cur < raw.id <= req.max
  }

  ghost predicate Good(d: Disk) {
    && AllValid(d.mutations)
    && (forall req :: req in d.pages ==> PageRows(req, d.pages[req]))
    && (forall req, raw :: req in d.pages && raw in d.pages[req] ==> Overlays(d.mutations, req.chat, raw))
  }

  lemma GoodGrows(d: Disk, ms: Mutations)
    requires Good(d) && Newer(d.mutations, ms) && AllValid(ms)
    ensures Good(d.(mutations := ms))
  {
    forall req, raw | req in d.pages && raw in d.pages[req]
      ensures Overlays(ms, req.chat, raw)
    {
      OverlaysGrow(d.mutations, ms, req.chat, raw);
    }
  }

  lemma PerformKeeps(d: Disk, op: StoreOp, budget: nat)
    requires Good(d)
    ensures Good(Perform(d, op, budget).0) && Newer(d.mutations, Perform(d, op, budget).0.mutations)
  {
    var ms := Perform(d, op, budget).0.mutations;
    match op {
      case Live(event, replacement) =>
        ObserveKeeps(d.mutations, event, replacement, budget);
        GoodGrows(d, ms);
      case ReadRecords(chat, logs) =>
        RecordsKeep(d.mutations, chat, logs, budget);
        GoodGrows(d, ms);
      case SavePage(req, logs) => SaveKeeps(d, req, logs, budget);
    }
  }

  lemma SaveKeeps(d: Disk, req: Request, logs: seq<Raw>, budget: nat)
    requires Good(d)
    ensures var after := Perform(d, SavePage(req, logs), budget).0; Good(after) && Newer(d.mutations, after.mutations)
  {
    if ValidPage(req, logs) {
      var rows := InRange(req, logs);
      var w := Records(d.mutations, req.chat, rows, budget);
      RecordsKeep(d.mutations, req.chat, rows, budget);
      GoodGrows(d, w.ms);
      InRangeAscending(req, logs);
      if w.status == Fine { PageKeepsGood(d.(mutations := w.ms), req, rows); }
    }
  }

  lemma PageKeepsGood(d: Disk, req: Request, rows: seq<Raw>)
    requires Good(d) && PageRows(req, rows) && forall i :: 0 <= i < |rows| ==> Overlays(d.mutations, req.chat, rows[i])
    ensures Good(Disk(d.pages[req := rows], d.mutations))
  {
  }

  /** Any sequence of operations, each cut short anywhere; a crash loses nothing
      that was written. */
  function After(d: Disk, ops: seq<(StoreOp, nat)>): Disk {
    if ops == [] then d
    else Perform(After(d, ops[..|ops| - 1]), ops[|ops| - 1].0, ops[|ops| - 1].1).0
  }

  lemma {:induction false} RunsOnlyGetNewer(d: Disk, ops: seq<(StoreOp, nat)>)
    requires Good(d)
    ensures Good(After(d, ops)) && Newer(d.mutations, After(d, ops).mutations)
  {
    if ops != [] {
      var before := After(d, ops[..|ops| - 1]);
      RunsOnlyGetNewer(d, ops[..|ops| - 1]);
      PerformKeeps(before, ops[|ops| - 1].0, ops[|ops| - 1].1);
      NewerTransitive(d.mutations, before.mutations, After(d, ops).mutations);
    }
  }

  // ---- What a row shows ----

  datatype Shown = Showing(raw: Raw) | Tombstone(raw: Raw) | Unresolved

  /** apply: a deleted row keeps its record with the deleted flag; an edited row
      without its new content is unresolved. */
  function Project(ms: Mutations, chat: int, raw: Raw): Shown {
    var t := Target(chat, raw.id);
    if t !in ms then Showing(raw)
    else if ms[t].deleted then Tombstone(raw)
    else if ms[t].replacement.None? then Unresolved
    else Showing(ms[t].replacement.value)
  }

  /** Over every run with crashes at any write: once a target was deleted, no
      page row of it shows content again; once it was at a revision, no page row
      shows an older one. */
  lemma NothingReturns(d: Disk, ops: seq<(StoreOp, nat)>, req: Request, raw: Raw)
    requires Good(d) && Target(req.chat, raw.id) in d.mutations
    requires req in After(d, ops).pages && raw in After(d, ops).pages[req]
    ensures var t := Target(req.chat, raw.id);
      var shown := Project(After(d, ops).mutations, req.chat, raw);
      && (d.mutations[t].deleted ==> shown.Tombstone?)
      && (shown.Showing? ==>
          shown.raw.id == raw.id && shown.raw.revision >= d.mutations[t].revision && shown.raw.revision >= raw.revision)
  {
    RunsOnlyGetNewer(d, ops);
    assert Overlays(After(d, ops).mutations, req.chat, raw);
  }

  // ---- Content only gets newer ----

  /** The target's content is at its recorded revision. */
  predicate ExactAt(ms: Mutations, t: Target) {
    t in ms && !ms[t].deleted && ms[t].replacement.Some? ==> ms[t].replacement.value.revision == ms[t].revision
  }

  /** A live edit that carries content carries it at its own revision. The
      decoder of SYNCMODMSG refuses any other; a MSG packet with an edit feed and
      a modifiedChatLog of another revision is the one input that is not. */
  predicate Carries(op: StoreOp) {
    op.Live? && op.event.Edit? && op.replacement.Some? ==> op.replacement.value.revision == op.event.revision
  }

  ghost predicate AllCarry(ops: seq<(StoreOp, nat)>) { forall op :: op in ops ==> Carries(op.0) }

  lemma ObserveExact(ms: Mutations, event: Event, replacement: Option<Raw>, budget: nat, t: Target)
    requires AllValid(ms) && ExactAt(ms, t) && Carries(Live(event, replacement))
    ensures ExactAt(Observe(ms, event, replacement, budget).ms, t)
  {
  }

  lemma RecordExact(ms: Mutations, chat: int, raw: Raw, budget: nat, t: Target)
    requires AllValid(ms) && ExactAt(ms, t)
    ensures ExactAt(Record(ms, chat, raw, budget).ms, t)
  {
    ObserveKeeps(ms, EventOf(chat, raw), None, budget);
    ObserveExact(ms, EventOf(chat, raw), None, budget, t);
  }

  lemma {:induction false} RecordsExact(ms: Mutations, chat: int, logs: seq<Raw>, budget: nat, t: Target)
    requires AllValid(ms) && ExactAt(ms, t)
    ensures ExactAt(Records(ms, chat, logs, budget).ms, t)
    decreases logs
  {
    if logs != [] {
      var first := Record(ms, chat, logs[0], budget);
      RecordKeeps(ms, chat, logs[0], budget);
      RecordExact(ms, chat, logs[0], budget, t);
      RecordsExact(first.ms, chat, logs[1..], first.left, t);
    }
  }

  lemma PerformExact(d: Disk, op: StoreOp, budget: nat, t: Target)
    requires AllValid(d.mutations) && ExactAt(d.mutations, t) && Carries(op)
    ensures ExactAt(Perform(d, op, budget).0.mutations, t)
  {
    match op
    case Live(event, replacement) => ObserveExact(d.mutations, event, replacement, budget, t);
    case ReadRecords(chat, logs) => RecordsExact(d.mutations, chat, logs, budget, t);
    case SavePage(req, logs) => RecordsExact(d.mutations, req.chat, InRange(req, logs), budget, t);
  }

  lemma {:induction false} RunsStayExact(d: Disk, ops: seq<(StoreOp, nat)>, t: Target)
    requires Good(d) && ExactAt(d.mutations, t) && AllCarry(ops)
    ensures ExactAt(After(d, ops).mutations, t)
  {
    if ops != [] {
      var front, last := ops[..|ops| - 1], ops[|ops| - 1];
      assert last in ops && forall op :: op in front ==> op in ops;
      RunsStayExact(d, front, t);
      RunsOnlyGetNewer(d, front);
      PerformExact(After(d, front), last.0, last.1, t);
    }
  }

  /** The target shows content in both, and older content in the second. */
  predicate FallsBack(a: Mutations, b: Mutations, t: Target) {
    && t in a && t in b && !a[t].deleted && !b[t].deleted && a[t].replacement.Some? && b[t].replacement.Some?
    && b[t].replacement.value.revision < a[t].replacement.value.revision
  }

  lemma ExactNeverFallsBack(d: Disk, ops: seq<(StoreOp, nat)>, t: Target)
    requires Good(d) && ExactAt(d.mutations, t)
    ensures !FallsBack(d.mutations, After(d, ops).mutations, t)
  {
    RunsOnlyGetNewer(d, ops);
  }

  /** Over every run of record reads, page saves, deletions and edits that carry
      content at their own revision, each cut short at any write: whatever two
      stored rows of a target show before and after, the later content is not
      older. */
  lemma ContentOnlyGetsNewer(d: Disk, early: seq<(StoreOp, nat)>, late: seq<(StoreOp, nat)>, req: Request, raw: Raw,
                             other: Raw)
    requires Good(d) && ExactAt(d.mutations, Target(req.chat, raw.id)) && AllCarry(early)
    requires req in After(d, early).pages && raw in After(d, early).pages[req] && other.id == raw.id
    ensures var before, after := After(d, early), After(After(d, early), late);
      var was, now := Project(before.mutations, req.chat, raw), Project(after.mutations, req.chat, other);
      was.Showing? && now.Showing? ==> now.raw.revision >= was.raw.revision
  {
    var before, t := After(d, early), Target(req.chat, raw.id);
    RunsOnlyGetNewer(d, early);
    RunsStayExact(d, early, t);
    ExactNeverFallsBack(before, late, t);
    RunsOnlyGetNewer(before, late);
    assert Overlays(before.mutations, req.chat, raw);
  }

  /** A target's shown content cannot fall back in any single operation, and in
      any run, exactly when it is at its recorded revision. */
  lemma NeverFallsBackIff(d: Disk, t: Target)
    requires Good(d) && t in d.mutations && !d.mutations[t].deleted && d.mutations[t].replacement.Some?
    ensures (forall op: StoreOp, budget: nat :: !FallsBack(d.mutations, Perform(d, op, budget).0.mutations, t)) <==>
      ExactAt(d.mutations, t)
    ensures (forall ops :: !FallsBack(d.mutations, After(d, ops).mutations, t)) <==> ExactAt(d.mutations, t)
  {
    var m := d.mutations[t];
    if m.replacement.value.revision != m.revision {
      var read := ReadRecords(t.chat, [Raw(t.log, m.revision, 0, Plain, true)]);
      OneRead(d, t);
      assert FallsBack(d.mutations, Perform(d, read, 1).0.mutations, t);
      OneOp(d, read, 1);
      assert FallsBack(d.mutations, After(d, [(read, 1)]).mutations, t);
    } else {
      forall op: StoreOp, budget: nat
        ensures !FallsBack(d.mutations, Perform(d, op, budget).0.mutations, t)
      {
        OneOp(d, op, budget);
        ExactNeverFallsBack(d, [(op, budget)], t);
      }
      forall ops
        ensures !FallsBack(d.mutations, After(d, ops).mutations, t)
      {
        ExactNeverFallsBack(d, ops, t);
      }
    }
  }

  lemma OneOp(d: Disk, op: StoreOp, budget: nat)
    ensures After(d, [(op, budget)]) == Perform(d, op, budget).0
  {
    assert [(op, budget)][..0] == [];
  }

  /** A read of the recorded revision replaces the content. */
  lemma OneRead(d: Disk, t: Target)
    requires Good(d) && t in d.mutations && !d.mutations[t].deleted
    ensures var raw := Raw(t.log, d.mutations[t].revision, 0, Plain, true);
      var after := Perform(d, ReadRecords(t.chat, [raw]), 1).0.mutations;
      t in after && !after[t].deleted && after[t].replacement == Some(raw)
  {
    var raw := Raw(t.log, d.mutations[t].revision, 0, Plain, true);
    assert ValidMutation(t, d.mutations[t]);
    RecordsOne(d.mutations, t.chat, raw, 1);
  }

  lemma RecordsOne(ms: Mutations, chat: int, raw: Raw, budget: nat)
    ensures Records(ms, chat, [raw], budget) == Record(ms, chat, raw, budget)
  {
    var first := Record(ms, chat, raw, budget);
    assert [raw][0] == raw && [raw][1..] == [];
    assert Records(first.ms, chat, [], first.left) == Wrote(first.ms, first.left, Fine);
  }

  /** A live edit that is written with content leaves its target exact exactly
      when it carries that content at its own revision. */
  lemma EditIsExactIff(ms: Mutations, t: Target, revision: int, log: int, content: Raw)
    requires Observed(ms, Edit(t, revision, log), Some(content)).Some?
    requires Observe(ms, Edit(t, revision, log), Some(content), 1).status == Fine
    ensures ExactAt(Observe(ms, Edit(t, revision, log), Some(content), 1).ms, t) <==>
      Carries(Live(Edit(t, revision, log), Some(content)))
  {
  }

  /** The failing input: a MSG packet whose edit feed names revision 1 and whose
      modifiedChatLog is marked 5, then a record at revision 3. */
  lemma ContentCanFallBack()
    ensures var t, edited, read := Target(1, 7), Raw(7, 5, 50, Plain, true), Raw(7, 3, 30, Plain, true);
      var before := Observe(map[], Edit(t, 1, 9), Some(edited), 1).ms;
      && !Carries(Live(Edit(t, 1, 9), Some(edited)))
      && Project(before, 1, read) == Showing(edited)
      && Project(Record(before, 1, read, 1).ms, 1, read) == Showing(read)
  {
    var t, edited := Target(1, 7), Raw(7, 5, 50, Plain, true);
    var m := Mutation(9, 1, false, true, Some(edited));
    assert Observe(map[], Edit(t, 1, 9), Some(edited), 1).ms == map[t := m];
  }
}
