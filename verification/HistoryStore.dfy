/** The acquired-history store: saving pages behind their overlays and reading a
    connected prefix or the newest rows of a window
    (internal/client/history_store.go, internal/client/history_window.go). */
module HistoryStores {
  import opened Basics
  import opened IdSets
  import opened Coverage
  import opened Overlay

  // ---- What a read may return ----

  ghost predicate PageHas(d: Disk, chat: int, raw: Raw) {
    exists req :: req in d.pages && req.chat == chat && raw in d.pages[req]
  }

  ghost predicate RowAt(d: Disk, chat: int, id: int) {
    exists raw :: PageHas(d, chat, raw) && raw.id == id
  }

  predicate ReplacementAt(d: Disk, chat: int, id: int) {
    Target(chat, id) in d.mutations && d.mutations[Target(chat, id)].replacement.Some?
  }

  /** A stored row of (cur, end]. */
  ghost predicate Candidate(d: Disk, req: Request, end: int, id: int) {
    req.cur < id <= end && (RowAt(d, req.chat, id) || ReplacementAt(d, req.chat, id))
  }

  /** An edit whose new content is not known yet. */
  predicate Blocks(d: Disk, targets: set<Target>, req: Request, end: int, id: int) {
    var t := Target(req.chat, id);
    req.cur < id <= end && t in d.mutations && !d.mutations[t].deleted && d.mutations[t].replacement.None? &&
      t in targets
  }

  ghost predicate Unblocked(d: Disk, targets: set<Target>, req: Request, end: int, id: int) {
    forall b :: Blocks(d, targets, req, end, b) ==> id < b
  }

  function ShownId(s: Shown): int {
    match s
    case Showing(raw) => raw.id
    case Tombstone(raw) => raw.id
    case Unresolved => 0
  }

  /** The overlay's content when it has one, otherwise a page's own record. */
  ghost predicate ShowsAt(d: Disk, chat: int, s: Shown) {
    var t := Target(chat, ShownId(s));
    if ReplacementAt(d, chat, ShownId(s)) then s == Project(d.mutations, chat, d.mutations[t].replacement.value)
    else !s.Unresolved? && exists raw ::
      PageHas(d, chat, raw) && raw.id == ShownId(s) && s == Project(d.mutations, chat, raw)
  }

  function Ids(out: seq<Shown>): seq<int> {
    seq(|out|, i requires 0 <= i < |out| => ShownId(out[i]))
  }

  /** Exactly the stored rows of (cur, end] before the first unresolved edit, in
      ascending order. */
  ghost predicate IsLookup(d: Disk, targets: set<Target>, req: Request, end: int, out: seq<Shown>) {
    && AscendingFrom(req.cur, Ids(out))
    && (forall id :: id in Ids(out) <==> Candidate(d, req, end, id) && Unblocked(d, targets, req, end, id))
    && (forall i :: 0 <= i < |out| ==> ShowsAt(d, req.chat, out[i]))
  }

  // ---- The answer for an order of pages ----

  /** The record of the identity on a page, if it has one. */
  function RowIn(page: seq<Raw>, id: int): Option<Raw> {
    if page == [] then None
    else
      var last := page[|page| - 1];
      if last.id == id then Some(last) else RowIn(page[..|page| - 1], id)
  }

  /** The chat's record of the identity once the pages were visited in this
      order: each page overwrites those before it. */
  function Survivor(d: Disk, order: seq<Request>, chat: int, id: int): Option<Raw> {
    if order == [] then None
    else
      var last := order[|order| - 1];
      var row := if last in d.pages && last.chat == chat then RowIn(d.pages[last], id) else None;
      if row.Some? then row else Survivor(d, order[..|order| - 1], chat, id)
  }

  ghost predicate VisitsAll(d: Disk, order: seq<Request>) {
    && (forall req :: req in order <==> req in d.pages)
    && (forall i, j :: 0 <= i < j < |order| ==> order[i] != order[j])
  }

  function ShownOf(d: Disk, order: seq<Request>, chat: int, id: int): Shown {
    var row := Survivor(d, order, chat, id);
    if ReplacementAt(d, chat, id) then Project(d.mutations, chat, d.mutations[Target(chat, id)].replacement.value)
    else if row.Some? then Project(d.mutations, chat, row.value)
    else Unresolved
  }

  /** The lookup's answer when the pages are visited in this order. */
  ghost predicate Answers(d: Disk, targets: set<Target>, req: Request, end: int, order: seq<Request>,
                          out: seq<Shown>) {
    IsLookup(d, targets, req, end, out) &&
    forall i :: 0 <= i < |out| ==> out[i] == ShownOf(d, order, req.chat, ShownId(out[i]))
  }

  /** Every stored row is a target. */
  ghost predicate Published(d: Disk, targets: set<Target>) {
    forall chat, raw :: PageHas(d, chat, raw) ==> Target(chat, raw.id) in targets
  }

  lemma {:induction false} RowInIs(page: seq<Raw>, id: int)
    ensures RowIn(page, id).Some? ==> RowIn(page, id).value in page && RowIn(page, id).value.id == id
    ensures RowIn(page, id).None? ==> forall raw :: raw in page ==> raw.id != id
  {
    if page != [] {
      var front, last := page[..|page| - 1], page[|page| - 1];
      RowInIs(front, id);
      assert page == front + [last];
    }
  }

  /** A page holds an identity once. */
  lemma RowInAt(page: seq<Raw>, raw: Raw)
    requires Ascending(page) && raw in page
    ensures RowIn(page, raw.id) == Some(raw)
  {
    RowInIs(page, raw.id);
    var i :| 0 <= i < |page| && page[i] == raw;
    var j :| 0 <= j < |page| && page[j] == RowIn(page, raw.id).value;
    assert i == j;
  }

  lemma {:induction false} SurvivorIsRow(d: Disk, order: seq<Request>, chat: int, id: int)
    ensures var row := Survivor(d, order, chat, id); row.Some? ==> PageHas(d, chat, row.value) && row.value.id == id
    ensures Survivor(d, order, chat, id).None? ==>
      forall req :: req in order && req in d.pages && req.chat == chat ==> RowIn(d.pages[req], id).None?
  {
    if order != [] {
      var front, last := order[..|order| - 1], order[|order| - 1];
      SurvivorIsRow(d, front, chat, id);
      assert order == front + [last];
      if last in d.pages { RowInIs(d.pages[last], id); }
    }
  }

  /** A stored row survives every order. */
  lemma Survives(d: Disk, order: seq<Request>, chat: int, id: int)
    requires VisitsAll(d, order)
    ensures Survivor(d, order, chat, id).Some? <==> RowAt(d, chat, id)
  {
    SurvivorIsRow(d, order, chat, id);
    if RowAt(d, chat, id) {
      var raw :| PageHas(d, chat, raw) && raw.id == id;
      var req :| req in d.pages && req.chat == chat && raw in d.pages[req];
      RowInIs(d.pages[req], id);
    }
  }

  /** Below the first unresolved edit every stored row shows something. */
  lemma ShownResolves(d: Disk, targets: set<Target>, req: Request, end: int, order: seq<Request>, id: int)
    requires Good(d) && Published(d, targets) && VisitsAll(d, order)
    requires Candidate(d, req, end, id) && Unblocked(d, targets, req, end, id)
    ensures ShownId(ShownOf(d, order, req.chat, id)) == id && ShowsAt(d, req.chat, ShownOf(d, order, req.chat, id))
    ensures !ShownOf(d, order, req.chat, id).Unresolved?
  {
    var t := Target(req.chat, id);
    if ReplacementAt(d, req.chat, id) {
      assert ValidMutation(t, d.mutations[t]);
    } else {
      Survives(d, order, req.chat, id);
      SurvivorIsRow(d, order, req.chat, id);
      var raw := Survivor(d, order, req.chat, id).value;
      assert Overlays(d.mutations, req.chat, raw) && t in targets;
      assert !Blocks(d, targets, req, end, id);
    }
  }

  /** What a lookup may return: the answer for some order. */
  ghost predicate Returned(d: Disk, targets: set<Target>, req: Request, end: int, out: seq<Shown>) {
    exists order :: VisitsAll(d, order) && Answers(d, targets, req, end, order, out)
  }

  lemma AnswerExists(d: Disk, targets: set<Target>, req: Request, end: int, order: seq<Request>)
    returns (out: seq<Shown>)
    requires Good(d) && Published(d, targets) && VisitsAll(d, order)
    ensures Answers(d, targets, req, end, order, out)
  {
    var shown := set id | req.cur < id <= end && Candidate(d, req, end, id) && Unblocked(d, targets, req, end, id);
    var ids := Sorted(shown);
    out := seq(|ids|, i requires 0 <= i < |ids| => ShownOf(d, order, req.chat, ids[i]));
    forall i | 0 <= i < |ids|
      ensures ShownId(out[i]) == ids[i] && ShowsAt(d, req.chat, out[i]) && req.cur < ids[i]
    {
      assert ids[i] in ids;
      ShownResolves(d, targets, req, end, order, ids[i]);
    }
    assert Ids(out) == ids;
    SortedAscends(req.cur, ids);
  }

  // ---- Independence of page order ----

  /** Deleted after an edit whose content never arrived, and recorded differently
      by two pages: which record survives as the tombstone is up to page order. */
  ghost predicate Ambiguous(d: Disk, chat: int, id: int) {
    !ReplacementAt(d, chat, id) &&
    exists a, b :: PageHas(d, chat, a) && PageHas(d, chat, b) && a.id == id && b.id == id && a != b
  }

  lemma {:induction false} AscendingAbove(lo: int, ids: seq<int>, x: int)
    requires AscendingFrom(lo, ids) && x in ids
    ensures x > lo
    decreases ids
  {
    if x != ids[0] {
      AscendingAbove(ids[0], ids[1..], x);
    }
  }

  lemma AscendingTail(lo: int, ids: seq<int>, x: int)
    requires AscendingFrom(lo, ids) && ids != []
    ensures x in ids[1..] <==> x in ids && x != ids[0]
  {
    assert ids == [ids[0]] + ids[1..];
    if x in ids[1..] {
      AscendingAbove(ids[0], ids[1..], x);
    }
  }

  lemma EmptyOrHolds(ids: seq<int>)
    ensures ids == [] || exists x :: x in ids
  {
    if ids != [] {
      var first := ids[0];
      assert first in ids;
    }
  }

  /** An ascending sequence is determined by its elements. */
  lemma {:induction false} SameAscending(lo: int, a: seq<int>, b: seq<int>)
    requires AscendingFrom(lo, a) && AscendingFrom(lo, b) && forall x :: x in a <==> x in b
    ensures a == b
    decreases a
  {
    if a == [] {
      EmptyOrHolds(b);
    } else {
      assert a[0] in a && a[0] in b && b[0] in a;
      if b[0] != a[0] {
        AscendingAbove(a[0], a[1..], b[0]);
        AscendingAbove(b[0], b[1..], a[0]);
      }
      forall x
        ensures x in a[1..] <==> x in b[1..]
      {
        AscendingTail(lo, a, x);
        AscendingTail(lo, b, x);
      }
      SameAscending(a[0], a[1..], b[1..]);
    }
  }

  lemma SameShown(d: Disk, chat: int, a: Shown, b: Shown)
    requires Good(d) && ShowsAt(d, chat, a) && ShowsAt(d, chat, b) && ShownId(a) == ShownId(b)
    requires !Ambiguous(d, chat, ShownId(a))
    ensures a == b
  {
  }

  lemma LookupIsUnique(d: Disk, targets: set<Target>, req: Request, end: int, out: seq<Shown>, other: seq<Shown>)
    requires Good(d) && IsLookup(d, targets, req, end, out) && IsLookup(d, targets, req, end, other)
    requires forall i :: 0 <= i < |out| ==> !Ambiguous(d, req.chat, ShownId(out[i]))
    ensures other == out
  {
    SameAscending(req.cur, Ids(out), Ids(other));
    assert |Ids(out)| == |out| && |Ids(other)| == |other|;
    forall i | 0 <= i < |out|
      ensures other[i] == out[i]
    {
      assert Ids(out)[i] == Ids(other)[i];
      SameShown(d, req.chat, out[i], other[i]);
    }
  }

  /** Two orders that visit different records of the identity last. */
  lemma OrdersDiffer(d: Disk, chat: int, id: int) returns (one: seq<Request>, two: seq<Request>)
    requires Good(d) && Ambiguous(d, chat, id)
    requires Target(chat, id) in d.mutations && d.mutations[Target(chat, id)].deleted
    ensures VisitsAll(d, one) && VisitsAll(d, two) && ShownOf(d, one, chat, id) != ShownOf(d, two, chat, id)
  {
    var a, b :| PageHas(d, chat, a) && PageHas(d, chat, b) && a.id == id && b.id == id && a != b;
    one := LastVisited(d, chat, a);
    two := LastVisited(d, chat, b);
    assert Project(d.mutations, chat, a) == Tombstone(a) && Project(d.mutations, chat, b) == Tombstone(b);
  }

  lemma LastVisited(d: Disk, chat: int, raw: Raw) returns (order: seq<Request>)
    requires Good(d) && PageHas(d, chat, raw)
    ensures VisitsAll(d, order) && Survivor(d, order, chat, raw.id) == Some(raw)
  {
    var req :| req in d.pages && req.chat == chat && raw in d.pages[req];
    assert PageRows(req, d.pages[req]);
    RowInAt(d.pages[req], raw);
    var rest := Listed(d.pages.Keys - {req});
    order := rest + [req];
    Snoc(rest, req);
    forall other ensures other in order <==> other in d.pages {
      if other in d.pages && other != req { assert other in d.pages.Keys - {req}; }
      if other in rest { assert other in d.pages.Keys - {req}; }
    }
    forall i, j | 0 <= i < j < |order| ensures order[i] != order[j] {
      assert order[i] in rest;
    }
  }

  ghost predicate SameForAllOrders(d: Disk, targets: set<Target>, req: Request, end: int) {
    forall a, b :: Returned(d, targets, req, end, a) && Returned(d, targets, req, end, b) ==> a == b
  }

  /** The answer is the same for all orders of visiting pages exactly when no
      stored row of (cur, end] before the first unresolved edit is ambiguous. */
  lemma LookupIsUniqueIff(d: Disk, targets: set<Target>, req: Request, end: int)
    requires Good(d) && Published(d, targets)
    ensures SameForAllOrders(d, targets, req, end) <==>
      forall id :: Candidate(d, req, end, id) && Unblocked(d, targets, req, end, id) ==> !Ambiguous(d, req.chat, id)
  {
    if id :| Candidate(d, req, end, id) && Unblocked(d, targets, req, end, id) && Ambiguous(d, req.chat, id) {
      OrderMatters(d, targets, req, end, id);
    } else {
      forall a, b | Returned(d, targets, req, end, a) && Returned(d, targets, req, end, b)
        ensures a == b
      {
        forall i | 0 <= i < |a| ensures !Ambiguous(d, req.chat, ShownId(a[i])) { assert Ids(a)[i] in Ids(a); }
        LookupIsUnique(d, targets, req, end, a, b);
      }
    }
  }

  lemma OrderMatters(d: Disk, targets: set<Target>, req: Request, end: int, id: int)
    requires Good(d) && Published(d, targets) && Ambiguous(d, req.chat, id)
    requires Candidate(d, req, end, id) && Unblocked(d, targets, req, end, id)
    ensures !SameForAllOrders(d, targets, req, end)
  {
    RowIsDecided(d, targets, req, end, id);
    var one, two := OrdersDiffer(d, req.chat, id);
    var a := AnswerExists(d, targets, req, end, one);
    var b := AnswerExists(d, targets, req, end, two);
    assert id in Ids(a);
    var i :| 0 <= i < |a| && Ids(a)[i] == id;
    forall k | 0 <= k < |b| ensures b[k] != a[i] {
      assert ShownId(b[k]) == id ==> b[k] == ShownOf(d, two, req.chat, id);
    }
    assert Returned(d, targets, req, end, a) && Returned(d, targets, req, end, b) && a != b;
  }

  /** A row without content below the first unresolved edit was deleted. */
  lemma RowIsDecided(d: Disk, targets: set<Target>, req: Request, end: int, id: int)
    requires Good(d) && Published(d, targets) && Ambiguous(d, req.chat, id)
    requires Candidate(d, req, end, id) && Unblocked(d, targets, req, end, id)
    ensures Target(req.chat, id) in d.mutations && d.mutations[Target(req.chat, id)].deleted
  {
    var a :| PageHas(d, req.chat, a) && a.id == id;
    assert Overlays(d.mutations, req.chat, a) && Target(req.chat, id) in targets;
    assert !Blocks(d, targets, req, end, id);
  }

  const ONE := Raw(7, 0, 70, Plain, true)
  const OTHER := Raw(7, 1, 71, Plain, true)
  const SEVEN := Target(1, 7)
  const EMPTY := Disk(map[], map[])

  /** Two pages record log 7 at revisions 0 and 1. */
  const SAVES: seq<(StoreOp, nat)> :=
    [] + [(SavePage(Request(1, 5, 7), [ONE]), 9)] + [(SavePage(Request(1, 6, 7), [OTHER]), 9)]

  /** A live edit to revision 2 arrives without content, then a live deletion. */
  const OPS := SAVES + [(Live(Edit(SEVEN, 2, 8), None), 9)] + [(Live(Deletion(SEVEN, 9), None), 9)]

  const SAVED := Disk(map[Request(1, 5, 7) := [ONE], Request(1, 6, 7) := [OTHER]],
                      map[SEVEN := Mutation(0, 1, false, true, Some(OTHER))])

  lemma AfterSnoc(d: Disk, ops: seq<(StoreOp, nat)>, op: StoreOp, budget: nat)
    ensures After(d, ops + [(op, budget)]) == Perform(After(d, ops), op, budget).0
  {
    Snoc(ops, (op, budget));
  }

  lemma SavesRun()
    ensures After(EMPTY, SAVES) == SAVED
  {
    var one, other := Request(1, 5, 7), Request(1, 6, 7);
    AfterSnoc(EMPTY, [], SavePage(one, [ONE]), 9);
    SaveOne(EMPTY, one, ONE, Mutation(0, 0, false, true, Some(ONE)));
    var d := Disk(map[one := [ONE]], map[SEVEN := Mutation(0, 0, false, true, Some(ONE))]);
    AfterSnoc(EMPTY, [] + [(SavePage(one, [ONE]), 9)], SavePage(other, [OTHER]), 9);
    SaveOne(d, other, OTHER, Mutation(0, 1, false, true, Some(OTHER)));
    assert d.pages[other := [OTHER]] == SAVED.pages;
  }

  /** Such a store is reachable. */
  lemma AmbiguousRun(d: Disk)
    requires d == After(EMPTY, OPS)
    ensures Good(d) && Ambiguous(d, 1, 7) && d.mutations.Keys == {SEVEN} && d.mutations[SEVEN].deleted
  {
    SavesRun();
    AfterSnoc(EMPTY, SAVES, Live(Edit(SEVEN, 2, 8), None), 9);
    AfterSnoc(EMPTY, SAVES + [(Live(Edit(SEVEN, 2, 8), None), 9)], Live(Deletion(SEVEN, 9), None), 9);
    EditThenDelete(SAVED, SEVEN);
    assert ONE in d.pages[Request(1, 5, 7)] && OTHER in d.pages[Request(1, 6, 7)];
    assert PageHas(d, 1, ONE) && PageHas(d, 1, OTHER);
    RunsOnlyGetNewer(EMPTY, OPS);
  }

  /** And the order of visiting its pages decides the answer. */
  lemma AmbiguityIsReachable(targets: set<Target>)
    requires Published(After(EMPTY, OPS), targets)
    ensures !SameForAllOrders(After(EMPTY, OPS), targets, Request(1, 5, 7), 7)
  {
    var d := After(EMPTY, OPS);
    AmbiguousRun(d);
    var raw :| PageHas(d, 1, raw) && raw.id == 7;
    assert RowAt(d, 1, 7);
    OrderMatters(d, targets, Request(1, 5, 7), 7, 7);
  }

  /** One plain record as a page: its overlay, then the page. */
  lemma SaveOne(d: Disk, req: Request, raw: Raw, m: Mutation)
    requires req.chat > 0 && 0 <= req.cur < raw.id <= req.max && raw.feed == Plain && raw.decodes
    requires var old_ := Old(d.mutations, Target(req.chat, raw.id));
      !old_.deleted && raw.revision >= old_.revision &&
        m == old_.(revision := raw.revision, replacement := Some(raw), acquired := true)
    requires m.sequence >= 0
    ensures Perform(d, SavePage(req, [raw]), 9) ==
      (Disk(d.pages[req := [raw]], d.mutations[Target(req.chat, raw.id) := m]), Fine)
  {
    assert [raw][1..] == [] && InRange(req, [raw]) == [raw];
    RecordsOne(d.mutations, req.chat, raw, 9);
  }

  /** An edit without content loses the content; a deletion keeps it lost. */
  lemma EditThenDelete(d: Disk, t: Target)
    requires t == Target(1, 7) && t in d.mutations && !d.mutations[t].deleted
    requires d.mutations[t].revision == 1 && d.mutations[t].sequence == 0
    ensures var d3 := Perform(d, Live(Edit(t, 2, 8), None), 9).0;
      var d4 := Perform(d3, Live(Deletion(t, 9), None), 9).0;
      d4.pages == d.pages && t in d4.mutations && d4.mutations[t].deleted && d4.mutations[t].replacement.None? &&
        d4.mutations.Keys == d.mutations.Keys
  {
  }
}
