/** The durable checkpoint between committed and replayable messages
    (internal/continuity/continuity.go). A stored file is one atomic durable
    value; a failed write leaves the loaded value in place, and the file either as
    it was or one update ahead. */
module Checkpoints {
  import opened Basics
  import opened SortedChats

  datatype Gap = Gap(from: int, to: int)
  datatype Target = Target(chat: int, max: int)

  datatype Checkpoint = Checkpoint(
    clean: bool, lastToken: int, lbk: int,
    chats: seq<Entry<int>>, known: seq<Entry<int>>, gaps: seq<Entry<Gap>>,
    watermarks: seq<Entry<int>>, starts: seq<Entry<int>>)

  const EMPTY := Checkpoint(true, 0, 0, [], [], [], [], [])

  /** The finite maps a checkpoint's five slices stand for. */
  datatype View = View(
    clean: bool, lastToken: int, lbk: int,
    chats: map<int, int>, known: map<int, int>, gaps: map<int, Gap>,
    watermarks: map<int, int>, starts: map<int, int>)

  function Abs(cp: Checkpoint): View {
    View(cp.clean, cp.lastToken, cp.lbk, ToMap(cp.chats), ToMap(cp.known), ToMap(cp.gaps), ToMap(cp.watermarks),
         ToMap(cp.starts))
  }

  predicate AllValues<V>(items: seq<Entry<V>>, ok: V -> bool) {
    items == [] || (ok(items[0].value) && AllValues(items[1..], ok))
  }

  predicate Validate(cp: Checkpoint) {
    && cp.lastToken >= 0 && cp.lbk >= 0
    && Sorted(cp.starts) && AllValues(cp.starts, Positive)
    && Sorted(cp.chats) && AllValues(cp.chats, Positive)
    && Sorted(cp.known) && AllValues(cp.known, NonNegative)
    && Sorted(cp.gaps) && AllValues(cp.gaps, Interval)
    && Sorted(cp.watermarks) && AllValues(cp.watermarks, Positive)
  }

  predicate Positive(n: int) { n > 0 }
  predicate NonNegative(n: int) { n >= 0 }
  predicate Interval(g: Gap) { 0 < g.from <= g.to }

  ghost predicate Ranges<V>(m: map<int, V>, ok: V -> bool) {
    forall c :: c in m ==> c > 0 && ok(m[c])
  }

  ghost predicate ValidView(v: View) {
    && v.lastToken >= 0 && v.lbk >= 0
    && Ranges(v.starts, Positive) && Ranges(v.chats, Positive) && Ranges(v.known, NonNegative)
    && Ranges(v.gaps, Interval) && Ranges(v.watermarks, Positive)
  }

  lemma {:induction false} ValuesRefine<V>(previous: nat, items: seq<Entry<V>>, ok: V -> bool)
    requires SortedFrom(previous, items)
    ensures AllValues(items, ok) <==> Ranges(ToMap(items), ok)
    decreases items
  {
    if items != [] {
      ValuesRefine(items[0].chat, items[1..], ok);
      var m, rest := ToMap(items), ToMap(items[1..]);
      if items[0].chat in rest {
        KeysAbove(items[0].chat, items[1..], items[0].chat);
      }
      forall c | c in rest
        ensures c in m && m[c] == rest[c]
      {
        KeysAbove(items[0].chat, items[1..], c);
      }
      assert m[items[0].chat] == items[0].value;
    }
  }

  ghost predicate AllSorted(cp: Checkpoint) {
    Sorted(cp.starts) && Sorted(cp.chats) && Sorted(cp.known) && Sorted(cp.gaps) && Sorted(cp.watermarks)
  }

  lemma ValidateIff(cp: Checkpoint)
    ensures Validate(cp) <==> AllSorted(cp) && ValidView(Abs(cp))
  {
    if AllSorted(cp) {
      ValuesRefine(0, cp.starts, Positive);
      ValuesRefine(0, cp.chats, Positive);
      ValuesRefine(0, cp.known, NonNegative);
      ValuesRefine(0, cp.gaps, Interval);
      ValuesRefine(0, cp.watermarks, Positive);
    }
  }

  // ---- What each update means on finite maps ----

  datatype Op =
    | Install(token: Option<int>, block: Option<int>, observed: seq<Target>, deleted: seq<int>, replace: bool)
    | RecordGap(chat: int, from: int, to: int)
    | ResolveGap(chat: int, log: int)
    | RecordStart(chat: int, log: int)
    | Commit(chat: int, log: int)
    | CommitRead(chat: int, log: int)
    | MarkClean

  predicate Legal(op: Op) {
    match op
    case Install(token, block, observed, deleted, _) =>
      && (token.Some? ==> token.value >= 0) && (block.Some? ==> block.value >= 0)
      && (forall i :: 0 <= i < |deleted| ==> deleted[i] > 0)
      && (forall i :: 0 <= i < |observed| ==> observed[i].chat > 0 && observed[i].max >= 0)
    case RecordGap(chat, from, to) => chat > 0 && 0 < from <= to
    case ResolveGap(chat, log) => chat > 0 && log > 0
    case RecordStart(chat, log) => chat > 0 && log > 0
    case Commit(chat, log) => chat > 0 && log > 0
    case CommitRead(chat, log) => chat > 0 && log > 0
    case MarkClean => true
  }

  function Raised(m: map<int, int>, chat: int, log: int): map<int, int> {
    m[chat := if chat in m then Max(m[chat], log) else log]
  }

  function RaisedAll(m: map<int, int>, floor: map<int, int>): map<int, int> {
    map c | c in m.Keys + floor.Keys ::
      if c !in floor then m[c] else if c !in m then floor[c] else Max(m[c], floor[c])
  }

  function SetAll(m: map<int, int>, targets: seq<Target>): map<int, int> {
    if targets == [] then m
    else var last := targets[|targets| - 1];
         SetAll(m, targets[..|targets| - 1])[last.chat := last.max]
  }

  function Elements(ids: seq<int>): set<int> {
    set i | 0 <= i < |ids| :: ids[i]
  }

  /** A recorded gap widens the chat's interval to the hull; a resolved one keeps
      what lies beyond the log. */
  function GapsAfter(op: Op, gaps: map<int, Gap>): map<int, Gap> {
    match op
    case RecordGap(chat, from, to) =>
      gaps[chat := if chat in gaps then Gap(Min(gaps[chat].from, from), Max(gaps[chat].to, to)) else Gap(from, to)]
    case ResolveGap(chat, log) =>
      if chat !in gaps || log < gaps[chat].from then gaps
      else if log >= gaps[chat].to then gaps - {chat}
      else gaps[chat := Gap(log + 1, gaps[chat].to)]
    case _ => gaps
  }

  function Meaning(op: Op, v: View): View {
    match op
    case Install(token, block, observed, deleted, replace) =>
      var gone := Elements(deleted);
      var inventory := SetAll((if replace then map[] else v.known) - gone, observed);
      View(false, if token.Some? then token.value else v.lastToken, if block.Some? then block.value else v.lbk,
           v.chats - gone, RaisedAll(inventory, v.chats - gone), v.gaps - gone, v.watermarks - gone, v.starts - gone)
    case RecordGap(_, _, _) => v.(gaps := GapsAfter(op, v.gaps))
    case ResolveGap(_, _) => v.(gaps := GapsAfter(op, v.gaps))
    case RecordStart(chat, log) =>
      if chat in v.chats then v
      else v.(known := Raised(v.known, chat, log),
              starts := v.starts[chat := if chat in v.starts then Min(v.starts[chat], log) else log])
    case Commit(chat, log) =>
      var advanced := chat !in v.chats || log > v.chats[chat];
      v.(starts := v.starts - {chat}, chats := Raised(v.chats, chat, log),
         known := if advanced then Raised(v.known, chat, log) else v.known)
    case CommitRead(chat, log) => v.(watermarks := Raised(v.watermarks, chat, log))
    case MarkClean => v.(clean := true)
  }

  // ---- What each update does to a chat ----

  /** The chat's last observed target, if it has one. */
  ghost predicate LastObserved(observed: seq<Target>, chat: int, max: int) {
    exists i :: 0 <= i < |observed| && observed[i] == Target(chat, max) &&
      forall j :: i < j < |observed| ==> observed[j].chat != chat
  }

  ghost predicate Mentions(observed: seq<Target>, chat: int) {
    exists i :: 0 <= i < |observed| && observed[i].chat == chat
  }

  predicate SameAt<V(==)>(m: map<int, V>, n: map<int, V>, chat: int) {
    (chat in m <==> chat in n) && (chat in m ==> m[chat] == n[chat])
  }

  /** An installation keeps a chat's commit, gap, watermark and delivery start
      unless it deletes the chat. */
  ghost predicate InstalledElsewhere(v: View, w: View, deleted: seq<int>, chat: int) {
    if chat in deleted then chat !in w.chats && chat !in w.gaps && chat !in w.watermarks && chat !in w.starts
    else
      SameAt(v.chats, w.chats, chat) && SameAt(v.gaps, w.gaps, chat) && SameAt(v.watermarks, w.watermarks, chat) &&
      SameAt(v.starts, w.starts, chat)
  }

  /** The chat's target is its last observed one; without one it is kept unless
      the chat was deleted or the inventory replaced; and no target is below the
      commit that is left. */
  ghost predicate InstalledTarget(v: View, w: View, observed: seq<Target>, deleted: seq<int>, replace: bool,
                                  chat: int) {
    var stays := chat in v.known && !replace && chat !in deleted;
    && (chat in w.known <==> Mentions(observed, chat) || stays || chat in w.chats)
    && (forall max :: LastObserved(observed, chat, max) ==> w.known[chat] == AtLeastCommit(max, w.chats, chat))
    && (!Mentions(observed, chat) && stays ==> w.known[chat] == AtLeastCommit(v.known[chat], w.chats, chat))
    && (!Mentions(observed, chat) && !stays && chat in w.chats ==> w.known[chat] == w.chats[chat])
  }

  function AtLeastCommit(max: int, chats: map<int, int>, chat: int): int {
    if chat in chats && chats[chat] > max then chats[chat] else max
  }

  /** What an installation leaves, chat by chat. */
  ghost predicate IsInstalled(v: View, w: View, op: Op)
    requires op.Install?
  {
    && w.lastToken == (if op.token.Some? then op.token.value else v.lastToken)
    && w.lbk == (if op.block.Some? then op.block.value else v.lbk) && !w.clean
    && forall chat :: InstalledElsewhere(v, w, op.deleted, chat) &&
                      InstalledTarget(v, w, op.observed, op.deleted, op.replace, chat)
  }

  lemma {:induction false} ObservedAt(m: map<int, int>, targets: seq<Target>, chat: int)
    ensures chat in SetAll(m, targets) <==> chat in m || Mentions(targets, chat)
    ensures forall max :: LastObserved(targets, chat, max) ==> SetAll(m, targets)[chat] == max
    ensures !Mentions(targets, chat) && chat in m ==> SetAll(m, targets)[chat] == m[chat]
  {
    if targets != [] {
      var n := |targets| - 1;
      var front := targets[..n];
      ObservedAt(m, front, chat);
      assert forall i :: 0 <= i < n ==> front[i] == targets[i];
      if targets[n].chat == chat { assert Mentions(targets, chat); }
      if i :| 0 <= i < n && front[i].chat == chat { assert targets[i].chat == chat; }
      forall max | LastObserved(targets, chat, max)
        ensures SetAll(m, targets)[chat] == max
      {
        if targets[n].chat != chat {
          var i :| 0 <= i < |targets| && targets[i] == Target(chat, max) &&
            forall j :: i < j < |targets| ==> targets[j].chat != chat;
          assert front[i] == Target(chat, max);
          assert LastObserved(front, chat, max);
        }
      }
    }
  }

  /** A mentioned chat has a last observed target. */
  lemma {:induction false} SomeIsLast(targets: seq<Target>, chat: int) returns (max: int)
    requires Mentions(targets, chat)
    ensures LastObserved(targets, chat, max)
  {
    var n := |targets| - 1;
    if targets[n].chat == chat {
      max := targets[n].max;
    } else {
      var front := targets[..n];
      var i :| 0 <= i < |targets| && targets[i].chat == chat;
      assert front[i].chat == chat;
      max := SomeIsLast(front, chat);
      var k :| 0 <= k < |front| && front[k] == Target(chat, max)
        && forall j :: k < j < |front| ==> front[j].chat != chat;
      assert targets[k] == Target(chat, max);
      assert forall j :: k < j < |targets| ==> targets[j].chat != chat by {
        assert forall j :: 0 <= j < n ==> targets[j] == front[j];
      }
    }
  }

  lemma ElementsAre(ids: seq<int>, x: int)
    ensures x in Elements(ids) <==> x in ids
  {
  }

  lemma SameEverywhere<V>(m: map<int, V>, n: map<int, V>)
    requires forall chat :: SameAt(m, n, chat)
    ensures m == n
  {
    forall chat ensures chat in m <==> chat in n { assert SameAt(m, n, chat); }
    forall chat | chat in m ensures m[chat] == n[chat] { assert SameAt(m, n, chat); }
  }

  /** An installation is exactly that. */
  lemma InstallIs(v: View, op: Op, w: View)
    requires op.Install?
    ensures w == Meaning(op, v) <==> IsInstalled(v, w, op)
  {
    var u := Meaning(op, v);
    forall chat
      ensures InstalledElsewhere(v, u, op.deleted, chat) &&
              InstalledTarget(v, u, op.observed, op.deleted, op.replace, chat)
    {
      ElementsAre(op.deleted, chat);
      InstallTargetIs(v, op, chat);
    }
    if IsInstalled(v, w, op) {
      forall chat
        ensures SameAt(u.chats, w.chats, chat) && SameAt(u.gaps, w.gaps, chat) && SameAt(u.known, w.known, chat)
        ensures SameAt(u.watermarks, w.watermarks, chat) && SameAt(u.starts, w.starts, chat)
      {
        InstalledOnce(v, u, w, op, chat);
      }
      SameEverywhere(u.chats, w.chats);
      SameEverywhere(u.known, w.known);
      SameEverywhere(u.gaps, w.gaps);
      SameEverywhere(u.watermarks, w.watermarks);
      SameEverywhere(u.starts, w.starts);
    }
  }

  lemma InstallTargetIs(v: View, op: Op, chat: int)
    requires op.Install?
    ensures InstalledTarget(v, Meaning(op, v), op.observed, op.deleted, op.replace, chat)
  {
    ElementsAre(op.deleted, chat);
    ObservedAt((if op.replace then map[] else v.known) - Elements(op.deleted), op.observed, chat);
  }

  lemma InstalledOnce(v: View, u: View, w: View, op: Op, chat: int)
    requires op.Install? && IsInstalled(v, u, op) && IsInstalled(v, w, op)
    ensures SameAt(u.chats, w.chats, chat) && SameAt(u.gaps, w.gaps, chat) && SameAt(u.known, w.known, chat)
    ensures SameAt(u.watermarks, w.watermarks, chat) && SameAt(u.starts, w.starts, chat)
  {
    assert InstalledElsewhere(v, u, op.deleted, chat) && InstalledElsewhere(v, w, op.deleted, chat);
    assert InstalledTarget(v, u, op.observed, op.deleted, op.replace, chat);
    assert InstalledTarget(v, w, op.observed, op.deleted, op.replace, chat);
    if Mentions(op.observed, chat) {
      var max := SomeIsLast(op.observed, chat);
    }
  }

  /** A recorded gap is the hull of the old one and the new interval: an identity
      is in it exactly when it lies between two that are. */
  lemma RecordGapIs(v: View, chat: int, from: int, to: int, c: int, x: int)
    requires Legal(RecordGap(chat, from, to)) && Ranges(v.gaps, Interval)
    ensures var w := Meaning(RecordGap(chat, from, to), v);
      && w == v.(gaps := w.gaps) && (c != chat ==> SameAt(v.gaps, w.gaps, c))
      && chat in w.gaps
      && (w.gaps[chat].from <= x <= w.gaps[chat].to <==>
          exists a, b :: RecordedBy(v, chat, from, to, a) && RecordedBy(v, chat, from, to, b) && a <= x <= b)
  {
    var w := Meaning(RecordGap(chat, from, to), v);
    var gap := w.gaps[chat];
    assert RecordedBy(v, chat, from, to, gap.from) && RecordedBy(v, chat, from, to, gap.to);
  }

  /** x is in the chat's recorded gap or in the interval. */
  predicate RecordedBy(v: View, chat: int, from: int, to: int, x: int) {
    from <= x <= to || (chat in v.gaps && v.gaps[chat].from <= x <= v.gaps[chat].to)
  }

  /** Resolving takes exactly the identities at or below the log. */
  lemma ResolveGapIs(v: View, chat: int, log: int, c: int, x: int)
    requires Ranges(v.gaps, Interval)
    ensures var w := Meaning(ResolveGap(chat, log), v);
      && w == v.(gaps := w.gaps)
      && (c in w.gaps && w.gaps[c].from <= x <= w.gaps[c].to <==>
          c in v.gaps && v.gaps[c].from <= x <= v.gaps[c].to && !(c == chat && x <= log))
  {
  }

  /** An admission, a commit and a read mark never lower a target or a watermark,
      change no other chat, and put their chat where they say. */
  lemma AdmissionIs(v: View, chat: int, log: int, c: int)
    ensures var w := Meaning(RecordStart(chat, log), v);
      && w == v.(known := w.known, starts := w.starts)
      && (c != chat || chat in v.chats ==> SameAt(v.known, w.known, c) && SameAt(v.starts, w.starts, c))
      && (chat !in v.chats ==>
          && chat in w.known && w.known[chat] >= log && (chat in v.known ==> w.known[chat] >= v.known[chat])
          && (w.known[chat] == log || (chat in v.known && w.known[chat] == v.known[chat]))
          && chat in w.starts && w.starts[chat] <= log && (chat in v.starts ==> w.starts[chat] <= v.starts[chat])
          && (w.starts[chat] == log || (chat in v.starts && w.starts[chat] == v.starts[chat])))
  {
  }

  lemma CommitIs(v: View, chat: int, log: int, c: int)
    ensures var w := Meaning(Commit(chat, log), v);
      && w == v.(known := w.known, starts := w.starts, chats := w.chats) && chat !in w.starts
      && (c != chat ==> SameAt(v.known, w.known, c) && SameAt(v.starts, w.starts, c) && SameAt(v.chats, w.chats, c))
      && chat in w.chats && w.chats[chat] >= log && (chat in v.chats ==> w.chats[chat] >= v.chats[chat])
      && (w.chats[chat] == log || (chat in v.chats && w.chats[chat] == v.chats[chat]))
      && (chat in v.known ==> chat in w.known && w.known[chat] >= v.known[chat])
      && (chat !in v.chats || log > v.chats[chat] ==> chat in w.known && w.known[chat] >= log)
      && (chat in w.known ==> SameAt(v.known, w.known, chat) || w.known[chat] == log)
  {
  }

  lemma ReadMarkIs(v: View, chat: int, log: int, c: int)
    ensures var w := Meaning(CommitRead(chat, log), v);
      && w == v.(watermarks := w.watermarks) && (c != chat ==> SameAt(v.watermarks, w.watermarks, c))
      && chat in w.watermarks && w.watermarks[chat] >= log
      && (chat in v.watermarks ==> w.watermarks[chat] >= v.watermarks[chat])
      && (w.watermarks[chat] == log || (chat in v.watermarks && w.watermarks[chat] == v.watermarks[chat]))
  {
  }

  /** The mark is set, and nothing else; it holds until the next installation. */
  lemma CleanIs(v: View, op: Op)
    ensures Meaning(Op.MarkClean, v) == v.(clean := true)
    ensures Meaning(op, v).clean <==> op.MarkClean? || (v.clean && !op.Install?)
  {
  }

  // ---- The pure reads ----

  function CommittedMax(cp: Checkpoint, chat: int): int {
    if Found(cp.chats, chat) then Lookup(cp.chats, chat) else 0
  }

  function FirstDeliveryStart(cp: Checkpoint, chat: int): int {
    if Found(cp.starts, chat) then Lookup(cp.starts, chat) else 0
  }

  predicate HasGapThrough(cp: Checkpoint, chat: int, log: int) {
    Found(cp.gaps, chat) && Lookup(cp.gaps, chat).from <= log
  }

  /** The binary searches are map reads. */
  lemma ReadsRefine(cp: Checkpoint, chat: int, log: int)
    requires Validate(cp)
    ensures CommittedMax(cp, chat) == if chat in Abs(cp).chats then Abs(cp).chats[chat] else 0
    ensures FirstDeliveryStart(cp, chat) == if chat in Abs(cp).starts then Abs(cp).starts[chat] else 0
    ensures HasGapThrough(cp, chat, log) <==> chat in Abs(cp).gaps && Abs(cp).gaps[chat].from <= log
  {
    LookupRefines(0, cp.chats, chat);
    LookupRefines(0, cp.starts, chat);
    LookupRefines(0, cp.gaps, chat);
  }

  // ---- The store ----

  datatype Status = Saved | Unchanged | Rejected | Corrupt | WriteFailed

  /** What one update reports: it is rejected exactly when its arguments are
      illegal, and validation never turns a legal update of a valid checkpoint
      away. */
  function Report(op: Op, write: Write): Status {
    if !Legal(op) then Rejected else if write.Written? then Saved else WriteFailed
  }

  /** The file after an update of a value: the atomic write may fail after it
      replaced the file. */
  function OnDisk(op: Op, write: Write, now: View, disk: View): View {
    if Legal(op) && !write.Lost? then Meaning(op, now) else disk
  }

  /** What a reload finds after a write: the update, unless it was not legal or the
      write replaced nothing. The loaded value has the update only if the write
      also reported success, so the two part at a write that failed late. */
  lemma DurableIs(op: Op, write: Write, now: View, disk: View)
    requires Legal(op)
    ensures write == Written || write == WrittenButFailed ==> OnDisk(op, write, now, disk) == Meaning(op, now)
    ensures write == Lost ==> OnDisk(op, write, now, disk) == disk
  {
  }

  /** data is the loaded value, file the durable one. They differ only after a
      write that failed after replacing the file. */
  class Store {
    var data: Checkpoint
    var file: Checkpoint

    ghost predicate Valid()
      reads this
    {
      Validate(data) && Validate(file)
    }

    ghost function Now(): View
      reads this
    {
      Abs(data)
    }

    ghost function Durable(): View
      reads this
    {
      Abs(file)
    }

    constructor ()
      ensures Valid() && Now() == Durable() == Abs(EMPTY)
    {
      data, file := EMPTY, EMPTY;
    }

    /** A crash loses the process, not the file. */
    method Reopen()
      requires Valid()
      modifies this`data
      ensures Valid() && Now() == Durable() == old(Durable())
    {
      data := file;
    }

    /** Validate, write, and only then replace the in-memory value. */
    method Publish(next: Checkpoint, write: Write) returns (r: Status)
      requires Valid()
      modifies this
      ensures Valid()
      ensures r == if !Validate(next) then Corrupt else if write.Written? then Saved else WriteFailed
      ensures data == if r == Saved then next else old(data)
      ensures file == if Validate(next) && !write.Lost? then next else old(file)
    {
      if !Validate(next) {
        return Corrupt;
      }
      if !write.Lost? {
        file := next;
      }
      if !write.Written? {
        return WriteFailed;
      }
      data := next;
      return Saved;
    }

    /** Publishing a checkpoint that carries out a legal update never fails
        validation. */
    method Update(ghost op: Op, next: Checkpoint, write: Write) returns (r: Status)
      requires Valid() && Legal(op)
      requires AllSorted(next) && Abs(next) == Meaning(op, Now())
      modifies this
      ensures Valid()
      ensures r == Report(op, write)
      ensures Now() == if r == Saved then Meaning(op, old(Now())) else old(Now())
      ensures Durable() == OnDisk(op, write, old(Now()), old(Durable()))
    {
      ValidateIff(data);
      MeaningValid(Now(), op);
      ValidateIff(next);
      r := Publish(next, write);
    }

    method RecordGap(chat: int, from: int, to: int, write: Write) returns (r: Status)
      requires Valid()
      modifies this
      ensures Valid()
      ensures r == Report(Op.RecordGap(chat, from, to), write)
      ensures Now() == if r == Saved then Meaning(Op.RecordGap(chat, from, to), old(Now())) else old(Now())
      ensures Durable() == OnDisk(Op.RecordGap(chat, from, to), write, old(Now()), old(Durable()))
    {
      if chat <= 0 || from <= 0 || to < from {
        return Rejected;
      }
      var next := GapRecorded(data, chat, from, to);
      r := Update(Op.RecordGap(chat, from, to), next, write);
    }

    method ResolveGapThrough(chat: int, log: int, write: Write) returns (r: Status)
      requires Valid()
      modifies this
      ensures Valid()
      ensures r == Report(ResolveGap(chat, log), write)
      ensures Now() == if r == Saved then Meaning(ResolveGap(chat, log), old(Now())) else old(Now())
      ensures Durable() == OnDisk(ResolveGap(chat, log), write, old(Now()), old(Durable()))
    {
      if chat <= 0 || log <= 0 {
        return Rejected;
      }
      var next := GapResolved(data, chat, log);
      r := Update(ResolveGap(chat, log), next, write);
    }

    /** An unchanged boundary is not rewritten. */
    method RecordDeliveryStart(chat: int, log: int, write: Write) returns (r: Status)
      requires Valid()
      modifies this
      ensures Valid()
      ensures r ==
        if Legal(RecordStart(chat, log)) && Meaning(RecordStart(chat, log), old(Now())) == old(Now()) then Unchanged
        else Report(RecordStart(chat, log), write)
      ensures Now() == if r == Saved then Meaning(RecordStart(chat, log), old(Now())) else old(Now())
      ensures Durable() == if r == Unchanged then old(Durable())
                           else OnDisk(RecordStart(chat, log), write, old(Now()), old(Durable()))
    {
      if chat <= 0 || log <= 0 {
        return Rejected;
      }
      var next, changed := StartRecorded(data, chat, log);
      if !changed {
        return Unchanged;
      }
      r := Update(RecordStart(chat, log), next, write);
    }

    method CommitMessage(chat: int, log: int, write: Write) returns (r: Status)
      requires Valid()
      modifies this
      ensures Valid()
      ensures r == Report(Commit(chat, log), write)
      ensures Now() == if r == Saved then Meaning(Commit(chat, log), old(Now())) else old(Now())
      ensures Durable() == OnDisk(Commit(chat, log), write, old(Now()), old(Durable()))
    {
      if chat <= 0 || log <= 0 {
        return Rejected;
      }
      var next := Committed(data, chat, log);
      r := Update(Commit(chat, log), next, write);
    }

    method CommitReadWatermark(chat: int, log: int, write: Write) returns (r: Status)
      requires Valid()
      modifies this
      ensures Valid()
      ensures r == Report(CommitRead(chat, log), write)
      ensures Now() == if r == Saved then Meaning(CommitRead(chat, log), old(Now())) else old(Now())
      ensures Durable() == OnDisk(CommitRead(chat, log), write, old(Now()), old(Durable()))
    {
      if chat <= 0 || log <= 0 {
        return Rejected;
      }
      UpsertRefines(0, data.watermarks, chat, log, (n: int) => Max(n, log));
      var next := data.(watermarks := Upsert(data.watermarks, chat, log, (n: int) => Max(n, log)));
      r := Update(CommitRead(chat, log), next, write);
    }

    method MarkClean(write: Write) returns (r: Status)
      requires Valid()
      modifies this
      ensures Valid()
      ensures r == Report(Op.MarkClean, write)
      ensures Now() == if r == Saved then Meaning(Op.MarkClean, old(Now())) else old(Now())
      ensures Durable() == OnDisk(Op.MarkClean, write, old(Now()), old(Durable()))
    {
      r := Update(Op.MarkClean, data.(clean := true), write);
    }

    /** Deletions, then observed inventory, then no committed chat's target
        below its commit. */
    method InstallSession(token: Option<int>, block: Option<int>, observed: seq<Target>, deleted: seq<int>,
                          replace: bool, write: Write)
      returns (r: Status)
      requires Valid()
      modifies this
      ensures Valid()
      ensures r == Report(Install(token, block, observed, deleted, replace), write)
      ensures Now() == if r == Saved then Meaning(Install(token, block, observed, deleted, replace), old(Now()))
                       else old(Now())
      ensures r == Saved ==> IsInstalled(old(Now()), Now(), Install(token, block, observed, deleted, replace))
      ensures Durable() == OnDisk(Install(token, block, observed, deleted, replace), write, old(Now()), old(Durable()))
    {
      var op := Install(token, block, observed, deleted, replace);
      InstallIs(Now(), op, Meaning(op, Now()));
      var next, ok := Installed(data, token, block, observed, deleted, replace);
      if !ok {
        return Rejected;
      }
      r := Update(op, next, write);
    }
  }

  // ---- The update callbacks on sorted slices ----

  function GapRecorded(cp: Checkpoint, chat: int, from: int, to: int): (next: Checkpoint)
    requires AllSorted(cp) && chat > 0
    ensures AllSorted(next) && Abs(next) == Meaning(RecordGap(chat, from, to), Abs(cp))
  {
    var merge := (g: Gap) => Gap(Min(g.from, from), Max(g.to, to));
    UpsertRefines(0, cp.gaps, chat, Gap(from, to), merge);
    cp.(gaps := Upsert(cp.gaps, chat, Gap(from, to), merge))
  }

  function GapResolved(cp: Checkpoint, chat: int, log: int): (next: Checkpoint)
    requires AllSorted(cp) && chat > 0
    ensures AllSorted(next) && Abs(next) == Meaning(ResolveGap(chat, log), Abs(cp))
  {
    LookupRefines(0, cp.gaps, chat);
    if !Found(cp.gaps, chat) || log < Lookup(cp.gaps, chat).from then cp
    else if log >= Lookup(cp.gaps, chat).to then
      RemoveRefines(0, cp.gaps, chat);
      cp.(gaps := Remove(cp.gaps, chat))
    else
      var current := Lookup(cp.gaps, chat);
      var shorten := (g: Gap) => Gap(log + 1, g.to);
      UpsertRefines(0, cp.gaps, chat, current, shorten);
      cp.(gaps := Upsert(cp.gaps, chat, current, shorten))
  }

  function TargetRaised(cp: Checkpoint, chat: int, log: int): (next: Checkpoint)
    requires AllSorted(cp) && chat > 0
    ensures AllSorted(next) && Abs(next) == Abs(cp).(known := Raised(Abs(cp).known, chat, log))
  {
    UpsertRefines(0, cp.known, chat, log, (n: int) => Max(n, log));
    cp.(known := Upsert(cp.known, chat, log, (n: int) => Max(n, log)))
  }

  function StartLowered(cp: Checkpoint, chat: int, log: int): (next: Checkpoint)
    requires AllSorted(cp) && chat > 0
    ensures AllSorted(next)
    ensures Abs(next) ==
      Abs(cp).(starts := Abs(cp).starts[chat := if chat in Abs(cp).starts then Min(Abs(cp).starts[chat], log) else log])
  {
    UpsertRefines(0, cp.starts, chat, log, (n: int) => Min(n, log));
    cp.(starts := Upsert(cp.starts, chat, log, (n: int) => Min(n, log)))
  }

  /** Reports false when neither the target rises nor the start falls. */
  method StartRecorded(cp: Checkpoint, chat: int, log: int) returns (next: Checkpoint, changed: bool)
    requires AllSorted(cp) && chat > 0
    ensures AllSorted(next) && Abs(next) == Meaning(RecordStart(chat, log), Abs(cp))
    ensures changed <==> Abs(next) != Abs(cp)
  {
    LookupRefines(0, cp.chats, chat);
    if Found(cp.chats, chat) {
      return cp, false;
    }
    LookupRefines(0, cp.known, chat);
    LookupRefines(0, cp.starts, chat);
    var raised := !Found(cp.known, chat) || Lookup(cp.known, chat) < log;
    var lowered := !Found(cp.starts, chat) || log < Lookup(cp.starts, chat);
    next := StartLowered(TargetRaised(cp, chat, log), chat, log);
    changed := lowered || raised;
    StartChanges(Abs(cp), chat, log);
  }

  /** An admission changes the checkpoint exactly when it raises the target or
      lowers the start. */
  lemma StartChanges(v: View, chat: int, log: int)
    requires chat !in v.chats
    ensures Meaning(RecordStart(chat, log), v) != v <==>
      chat !in v.known || v.known[chat] < log || chat !in v.starts || log < v.starts[chat]
  {
    var w := Meaning(RecordStart(chat, log), v);
    if chat in v.known && v.known[chat] >= log && chat in v.starts && log >= v.starts[chat] {
      assert w.known == v.known && w.starts == v.starts;
    } else {
      assert w.known[chat] != ValueOr(v.known, chat, log - 1) || w.starts[chat] != ValueOr(v.starts, chat, log + 1);
    }
  }

  function ValueOr(m: map<int, int>, chat: int, absent: int): int { if chat in m then m[chat] else absent }

  function Committed(cp: Checkpoint, chat: int, log: int): (next: Checkpoint)
    requires AllSorted(cp) && chat > 0
    ensures AllSorted(next) && Abs(next) == Meaning(Commit(chat, log), Abs(cp))
  {
    var raise := (n: int) => Max(n, log);
    RemoveRefines(0, cp.starts, chat);
    LookupRefines(0, cp.chats, chat);
    UpsertRefines(0, cp.chats, chat, log, raise);
    UpsertRefines(0, cp.known, chat, log, raise);
    var advanced := !Found(cp.chats, chat) || Lookup(cp.chats, chat) < log;
    cp.(starts := Remove(cp.starts, chat), chats := Upsert(cp.chats, chat, log, raise),
        known := if advanced then Upsert(cp.known, chat, log, raise) else cp.known)
  }

  ghost function Without(v: View, gone: set<int>): View {
    v.(chats := v.chats - gone, known := v.known - gone, gaps := v.gaps - gone, watermarks := v.watermarks - gone,
       starts := v.starts - gone)
  }

  lemma DropStep(base: View, deleted: seq<int>, i: nat)
    requires i < |deleted|
    ensures Without(Without(base, Elements(deleted[..i])), {deleted[i]}) == Without(base, Elements(deleted[..i + 1]))
  {
    var gone, more := Elements(deleted[..i]), Elements(deleted[..i + 1]);
    assert deleted[..i + 1][i] == deleted[i];
    assert forall k :: 0 <= k < i ==> deleted[..i + 1][k] == deleted[..i][k];
    assert more == gone + {deleted[i]} by {
      forall c | c in gone
        ensures c in more
      {
        var k :| 0 <= k < |deleted[..i]| && deleted[..i][k] == c;
        assert deleted[..i + 1][k] == c;
      }
    }
    assert base.chats - gone - {deleted[i]} == base.chats - more;
    assert base.known - gone - {deleted[i]} == base.known - more;
    assert base.gaps - gone - {deleted[i]} == base.gaps - more;
    assert base.watermarks - gone - {deleted[i]} == base.watermarks - more;
    assert base.starts - gone - {deleted[i]} == base.starts - more;
  }

  function DropChat(cp: Checkpoint, chat: int): (r: Checkpoint)
    requires AllSorted(cp)
    ensures AllSorted(r) && Abs(r) == Without(Abs(cp), {chat})
  {
    RemoveRefines(0, cp.known, chat);
    RemoveRefines(0, cp.chats, chat);
    RemoveRefines(0, cp.gaps, chat);
    RemoveRefines(0, cp.watermarks, chat);
    RemoveRefines(0, cp.starts, chat);
    cp.(known := Remove(cp.known, chat), chats := Remove(cp.chats, chat), gaps := Remove(cp.gaps, chat),
        watermarks := Remove(cp.watermarks, chat), starts := Remove(cp.starts, chat))
  }

  lemma {:induction false} PrefixMap<V>(previous: int, items: seq<Entry<V>>, i: nat)
    requires SortedFrom(previous, items) && i < |items|
    ensures items[i].chat > previous
    ensures ToMap(items[..i + 1]) == ToMap(items[..i])[items[i].chat := items[i].value]
    decreases i
  {
    if i > 0 {
      PrefixMap(items[0].chat, items[1..], i - 1);
      assert items[..i + 1][1..] == items[1..][..i];
      assert items[..i][1..] == items[1..][..i - 1];
    } else {
      assert items[..1] == [items[0]];
    }
  }

  method DropAll(cp: Checkpoint, deleted: seq<int>) returns (next: Checkpoint, ok: bool)
    requires AllSorted(cp)
    ensures ok <==> forall k :: 0 <= k < |deleted| ==> deleted[k] > 0
    ensures ok ==> AllSorted(next) && Abs(next) == Without(Abs(cp), Elements(deleted))
  {
    next := cp;
    assert Abs(cp) == Without(Abs(cp), {});
    for i := 0 to |deleted|
      invariant AllSorted(next)
      invariant forall k :: 0 <= k < i ==> deleted[k] > 0
      invariant Abs(next) == Without(Abs(cp), Elements(deleted[..i]))
    {
      if deleted[i] <= 0 {
        return next, false;
      }
      next := DropChat(next, deleted[i]);
      DropStep(Abs(cp), deleted, i);
    }
    assert deleted[..|deleted|] == deleted;
    ok := true;
  }

  /** The installation on a clone of the checkpoint, and whether its arguments are
      legal. */
  method Installed(cp: Checkpoint, token: Option<int>, block: Option<int>, observed: seq<Target>, deleted: seq<int>,
                   replace: bool)
    returns (next: Checkpoint, ok: bool)
    requires AllSorted(cp)
    ensures ok <==> Legal(Install(token, block, observed, deleted, replace))
    ensures ok ==> AllSorted(next) && Abs(next) == Meaning(Install(token, block, observed, deleted, replace), Abs(cp))
  {
    next := cp;
    if token.Some? {
      if token.value < 0 { return cp, false; }
      next := next.(lastToken := token.value);
    }
    if block.Some? {
      if block.value < 0 { return cp, false; }
      next := next.(lbk := block.value);
    }
    if replace {
      next := next.(known := []);
    }
    next, ok := DropAll(next, deleted);
    if !ok { return cp, false; }
    next, ok := ObserveAll(next, observed);
    if !ok { return cp, false; }
    next := RaiseToCommits(next);
    next := next.(clean := false);
  }

  function TargetSet(cp: Checkpoint, target: Target): (next: Checkpoint)
    requires AllSorted(cp) && target.chat > 0
    ensures AllSorted(next) && Abs(next) == Abs(cp).(known := Abs(cp).known[target.chat := target.max])
  {
    var replaced := (n: int) => target.max;
    UpsertRefines(0, cp.known, target.chat, target.max, replaced);
    cp.(known := Upsert(cp.known, target.chat, target.max, replaced))
  }

  method ObserveAll(cp: Checkpoint, observed: seq<Target>) returns (next: Checkpoint, ok: bool)
    requires AllSorted(cp)
    ensures ok <==> forall k :: 0 <= k < |observed| ==> observed[k].chat > 0 && observed[k].max >= 0
    ensures ok ==> AllSorted(next) && Abs(next) == Abs(cp).(known := SetAll(Abs(cp).known, observed))
  {
    next := cp;
    for i := 0 to |observed|
      invariant AllSorted(next)
      invariant forall k :: 0 <= k < i ==> observed[k].chat > 0 && observed[k].max >= 0
      invariant Abs(next) == Abs(cp).(known := SetAll(Abs(cp).known, observed[..i]))
    {
      var target := observed[i];
      if target.chat <= 0 || target.max < 0 {
        return next, false;
      }
      next := TargetSet(next, target);
      assert observed[..i + 1][..i] == observed[..i];
    }
    assert observed[..|observed|] == observed;
    ok := true;
  }

  method RaiseToCommits(cp: Checkpoint) returns (next: Checkpoint)
    requires AllSorted(cp)
    ensures AllSorted(next)
    ensures Abs(next) == Abs(cp).(known := RaisedAll(Abs(cp).known, Abs(cp).chats))
  {
    next := cp;
    for i := 0 to |cp.chats|
      invariant AllSorted(next)
      invariant Abs(next) == Abs(cp).(known := RaisedAll(ToMap(cp.known), ToMap(cp.chats[..i])))
    {
      var cursor := cp.chats[i];
      var raise := (n: int) => Max(n, cursor.value);
      PrefixMap(0, cp.chats, i);
      UpsertRefines(0, next.known, cursor.chat, cursor.value, raise);
      KeysFresh(0, cp.chats, i);
      RaiseStep(ToMap(cp.known), ToMap(cp.chats[..i]), cursor.chat, cursor.value);
      next := next.(known := Upsert(next.known, cursor.chat, cursor.value, raise));
    }
    assert cp.chats[..|cp.chats|] == cp.chats;
  }

  lemma {:induction false} KeysFresh<V>(previous: int, items: seq<Entry<V>>, i: nat)
    requires SortedFrom(previous, items) && i < |items|
    ensures items[i].chat !in ToMap(items[..i])
    decreases i
  {
    if i > 0 {
      KeysFresh(items[0].chat, items[1..], i - 1);
      PrefixMap(items[0].chat, items[1..], i - 1);
      assert items[..i][1..] == items[1..][..i - 1];
    }
  }

  lemma RaiseStep(m: map<int, int>, floor: map<int, int>, chat: int, log: int)
    requires chat !in floor
    ensures Raised(RaisedAll(m, floor), chat, log) == RaisedAll(m, floor[chat := log])
  {
  }

  lemma {:induction false} SetAllKeys(m: map<int, int>, targets: seq<Target>)
    requires Ranges(m, NonNegative)
    requires forall i :: 0 <= i < |targets| ==> targets[i].chat > 0 && targets[i].max >= 0
    ensures Ranges(SetAll(m, targets), NonNegative)
  {
    if targets != [] {
      SetAllKeys(m, targets[..|targets| - 1]);
    }
  }

  lemma MeaningValid(v: View, op: Op)
    requires ValidView(v) && Legal(op)
    ensures ValidView(Meaning(op, v))
  {
    if op.Install? {
      InstallValid(v, op);
    }
  }

  lemma InstallValid(v: View, op: Op)
    requires ValidView(v) && Legal(op) && op.Install?
    ensures ValidView(Meaning(op, v))
  {
    SetAllKeys((if op.replace then map[] else v.known) - Elements(op.deleted), op.observed);
  }
}
