/** The store object: maps updated in place in front of the files
    (internal/client/history_store.go, internal/client/history_window.go). */
module AcquiredHistory {
  import opened Basics
  import opened IdSets
  import opened Coverage
  import opened Overlay
  import opened HistoryStores

  function LastId(rows: seq<Raw>): int
    requires rows != []
  {
    rows[|rows| - 1].id
  }

  /** Newest rows of a window, with what is known of its coverage. */
  datatype Page = Page(events: seq<Shown>, covered: int, missing: int, cachedSuffix: bool, hasMore: bool,
                       complete: bool)

  /** A window request together with where its connected suffix starts. */
  datatype Span = Span(chat: int, after: int, through: int, exclude: bool, suffix: int)

  /** Rows the window may show: with a connected suffix, only of that suffix. */
  predicate Admits(w: Span, id: int) {
    w.after < id <= w.through && !(w.exclude && id == w.through) && !(w.suffix < w.through && id <= w.suffix)
  }

  /** Every stored row the window admits, ascending. */
  ghost predicate RowsOfWindow(d: Disk, w: Span, ids: seq<int>) {
    AscendingFrom(w.after, ids) && forall id :: id in ids <==> Admits(w, id) && RowAt(d, w.chat, id)
  }

  function Newest(ids: seq<int>, limit: nat): seq<int> {
    if |ids| > limit then ids[|ids| - limit..] else ids
  }

  predicate InSpan(req: Request, end: int, id: int) {
    req.cur < id <= end
  }

  ghost predicate RowOf(d: Disk, chat: int, lo: int, hi: int, id: int, raw: Raw) {
    lo < id <= hi && raw.id == id && PageHas(d, chat, raw)
  }

  ghost predicate Gathered(d: Disk, chat: int, lo: int, hi: int, rows: map<int, Raw>) {
    && (forall id :: id in rows ==> RowOf(d, chat, lo, hi, id, rows[id]))
    && (forall req, raw :: req in d.pages && req.chat == chat && raw in d.pages[req] && lo < raw.id <= hi ==>
        raw.id in rows)
  }

  ghost predicate Overlaid(d: Disk, req: Request, end: int, rows: map<int, Raw>, all: map<int, Raw>) {
    && (forall id :: id in all <==> id in rows || (InSpan(req, end, id) && ReplacementAt(d, req.chat, id)))
    && (forall id :: id in all ==>
          if InSpan(req, end, id) && ReplacementAt(d, req.chat, id) then
            all[id] == d.mutations[Target(req.chat, id)].replacement.value
          else id in rows && all[id] == rows[id])
  }

  ghost predicate IsBarrier(d: Disk, targets: set<Target>, req: Request, end: int, barrier: Option<int>) {
    && (barrier.Some? ==> Blocks(d, targets, req, end, barrier.value))
    && (forall b :: Blocks(d, targets, req, end, b) ==> barrier.Some? && barrier.value <= b)
  }

  lemma ProjectKeepsId(d: Disk, chat: int, raw: Raw)
    requires AllValid(d.mutations) && !Project(d.mutations, chat, raw).Unresolved? && PageHas(d, chat, raw)
    ensures ShownId(Project(d.mutations, chat, raw)) == raw.id && ShowsPage(d, chat, Project(d.mutations, chat, raw))
  {
    var t := Target(chat, raw.id);
    assert t in d.mutations ==> ValidMutation(t, d.mutations[t]);
  }

  lemma GatheredRows(d: Disk, chat: int, lo: int, hi: int, rows: map<int, Raw>, id: int)
    requires Gathered(d, chat, lo, hi, rows)
    ensures id in rows <==> lo < id <= hi && RowAt(d, chat, id)
  {
    if id in rows {
      assert RowOf(d, chat, lo, hi, id, rows[id]);
    }
    if lo < id <= hi && RowAt(d, chat, id) {
      var raw :| PageHas(d, chat, raw) && raw.id == id;
      var page :| page in d.pages && page.chat == chat && raw in d.pages[page];
      assert raw.id in rows;
    }
  }

  lemma IdsAppend(out: seq<Shown>, shown: Shown)
    ensures Ids(out + [shown]) == Ids(out) + [ShownId(shown)]
  {
  }

  /** An edit of the log was seen whose content is not stored. */
  predicate AwaitsEdit(d: Disk, chat: int, id: int) {
    var t := Target(chat, id);
    t in d.mutations && !d.mutations[t].deleted && d.mutations[t].replacement.None?
  }

  /** An unresolved row fails the whole read. */
  method ShowRows(d: Disk, chat: int, rows: map<int, Raw>, ids: seq<int>) returns (r: Option<seq<Shown>>)
    requires AllValid(d.mutations)
    requires forall id :: id in ids ==> id in rows && rows[id].id == id && PageHas(d, chat, rows[id])
    ensures r.Some? ==> Ids(r.value) == ids && ShowsPages(d, chat, r.value)
    ensures r.None? <==> exists id :: id in ids && AwaitsEdit(d, chat, id)
  {
    var out: seq<Shown> := [];
    for i := 0 to |ids|
      invariant Ids(out) == ids[..i] && ShowsPages(d, chat, out)
      invariant forall k :: 0 <= k < i ==> !AwaitsEdit(d, chat, ids[k])
    {
      var id := ids[i];
      assert id in ids;
      var shown := Project(d.mutations, chat, rows[id]);
      if shown.Unresolved? {
        assert AwaitsEdit(d, chat, id);
        return None;
      }
      ProjectKeepsId(d, chat, rows[id]);
      IdsAppend(out, shown);
      out := out + [shown];
    }
    assert ids[..|ids|] == ids;
    r := Some(out);
  }

  datatype Answer = StoreFailed | NotFound | Found(out: seq<Shown>)

  lemma SpanOfRows(d: Disk, req: Request, end: int, rows: map<int, Raw>, all: map<int, Raw>, ids: seq<int>)
    requires Gathered(d, req.chat, req.cur, end, rows) && Overlaid(d, req, end, rows, all)
    requires forall id :: id in ids <==> id in all
    ensures forall id :: id in ids <==> Candidate(d, req, end, id)
  {
    forall id
      ensures id in all <==> Candidate(d, req, end, id)
    {
      if id in rows {
        assert RowOf(d, req.chat, req.cur, end, id, rows[id]);
      }
      if req.cur < id <= end && RowAt(d, req.chat, id) {
        var raw :| PageHas(d, req.chat, raw) && raw.id == id;
        var page :| page in d.pages && page.chat == req.chat && raw in d.pages[page];
        assert raw.id in rows;
      }
    }
  }

  /** The ids before the barrier are the unblocked ones. */
  lemma CutLookup(d: Disk, targets: set<Target>, req: Request, end: int, barrier: Option<int>, ids: seq<int>, n: nat,
                  out: seq<Shown>)
    requires IsBarrier(d, targets, req, end, barrier) && n <= |ids| && Ids(out) == ids[..n]
    requires forall id :: id in ids <==> Candidate(d, req, end, id)
    requires forall i, j :: 0 <= i < j < |ids| ==> ids[i] < ids[j]
    requires forall k :: 0 <= k < n ==> (barrier.Some? ==> ids[k] < barrier.value)
    requires n < |ids| ==> barrier.Some? && ids[n] >= barrier.value
    requires forall k :: 0 <= k < |out| ==> ShowsAt(d, req.chat, out[k])
    ensures IsLookup(d, targets, req, end, out)
  {
    assert forall k :: 0 <= k < |ids| ==> ids[k] in ids;
    SortedAscends(req.cur, ids);
    AscendingPrefix(req.cur, ids, n);
    forall id
      ensures id in ids[..n] <==> Candidate(d, req, end, id) && Unblocked(d, targets, req, end, id)
    {
      if id in ids[..n] {
        var k :| 0 <= k < n && ids[k] == id;
        assert id in ids;
      } else if id in ids {
        var k :| 0 <= k < |ids| && ids[k] == id;
        assert k >= n && id >= ids[n] >= barrier.value;
      }
    }
  }

  /** The row of this identity shows content or a tombstone. */
  ghost predicate Resolves(d: Disk, ms: Mutations, chat: int, raw: Raw, id: int) {
    var shown := Project(ms, chat, raw);
    !shown.Unresolved? && ShownId(shown) == id && ShowsAt(d, chat, shown)
  }

  /** The projection of the sorted rows, up to the barrier. */
  method ProjectIds(ghost d: Disk, ms: Mutations, chat: int, ids: seq<int>, all: map<int, Raw>, barrier: Option<int>)
    returns (out: seq<Shown>, ghost n: nat)
    requires forall k :: 0 <= k < |ids| ==> ids[k] in all
    requires forall id :: id in all && (barrier.Some? ==> id < barrier.value) ==> Resolves(d, ms, chat, all[id], id)
    ensures n <= |ids| && Ids(out) == ids[..n] && (n < |ids| ==> barrier.Some? && ids[n] >= barrier.value)
    ensures forall k :: 0 <= k < n ==> (barrier.Some? ==> ids[k] < barrier.value)
    ensures forall k :: 0 <= k < |out| ==> ShowsAt(d, chat, out[k]) && out[k] == Project(ms, chat, all[ids[k]])
  {
    out := [];
    for i := 0 to |ids|
      invariant Ids(out) == ids[..i]
      invariant forall k :: 0 <= k < i ==> (barrier.Some? ==> ids[k] < barrier.value)
      invariant forall k :: 0 <= k < |out| ==> ShowsAt(d, chat, out[k]) && out[k] == Project(ms, chat, all[ids[k]])
    {
      var id := ids[i];
      if barrier.Some? && id >= barrier.value {
        return out, i;
      }
      assert Resolves(d, ms, chat, all[id], id);
      var shown := Project(ms, chat, all[id]);
      IdsAppend(out, shown);
      assert ids[..i + 1] == ids[..i] + [id];
      out := out + [shown];
    }
    n := |ids|;
  }

  datatype Window = WindowFailed | WindowUnresolved | WindowPage(page: Page)

  /** Each event is a page record of its identity through the overlay. */
  ghost predicate ShowsPages(d: Disk, chat: int, out: seq<Shown>) {
    forall i :: 0 <= i < |out| ==> ShowsPage(d, chat, out[i])
  }

  ghost predicate ShowsPage(d: Disk, chat: int, s: Shown) {
    exists raw :: PageHas(d, chat, raw) && raw.id == ShownId(s) && s == Project(d.mutations, chat, raw)
  }

  /** What the page says about coverage: complete exactly when every identity is
      covered; otherwise the first gap is a nonempty interval no page touches. */
  ghost predicate CoverageFacts(pages: Pages, chat: int, after: int, through: int, p: Page) {
    && p.covered == CoverEnd(pages, chat, after, through)
    && (p.complete <==> AllCovered(pages, chat, after, through))
    && (p.complete <==> SuffixStart(pages, chat, after, through) <= after)
    && (!p.complete ==>
          after <= p.covered < p.missing <= through && forall x :: p.covered < x <= p.missing ==>
            !CoveredAt(pages, chat, x))
  }

  /** The page's rows in (lo, hi] over those gathered before. */
  ghost predicate Over(page: seq<Raw>, lo: int, hi: int, rows: map<int, Raw>, more: map<int, Raw>) {
    forall id :: OverAt(page, lo, hi, rows, more, id)
  }

  predicate OverAt(page: seq<Raw>, lo: int, hi: int, rows: map<int, Raw>, more: map<int, Raw>, id: int) {
    var row := if lo < id <= hi then RowIn(page, id) else None;
    if row.Some? then id in more && more[id] == row.value
    else (id in more <==> id in rows) && (id in more ==> more[id] == rows[id])
  }

  method AddPage(page: seq<Raw>, lo: int, hi: int, rows: map<int, Raw>) returns (more: map<int, Raw>)
    ensures Over(page, lo, hi, rows, more)
  {
    more := rows;
    for i := 0 to |page|
      invariant Over(page[..i], lo, hi, rows, more)
    {
      ghost var before := more;
      if lo < page[i].id <= hi {
        more := more[page[i].id := page[i]];
      }
      Prefix(page, i);
      OverStep(page[..i], page[i], lo, hi, rows, before, more);
    }
    assert page[..|page|] == page;
  }

  lemma OverStep(page: seq<Raw>, raw: Raw, lo: int, hi: int, rows: map<int, Raw>, before: map<int, Raw>,
                 more: map<int, Raw>)
    requires Over(page, lo, hi, rows, before)
    requires more == if lo < raw.id <= hi then before[raw.id := raw] else before
    ensures Over(page + [raw], lo, hi, rows, more)
  {
    var longer := page + [raw];
    Snoc(page, raw);
    forall id ensures OverAt(longer, lo, hi, rows, more, id) {
      assert OverAt(page, lo, hi, rows, before, id);
    }
  }

  /** What was gathered from the pages visited in this order. */
  ghost predicate Follows(d: Disk, order: seq<Request>, chat: int, lo: int, hi: int, rows: map<int, Raw>) {
    forall id :: FollowsAt(d, order, chat, lo, hi, rows, id)
  }

  predicate FollowsAt(d: Disk, order: seq<Request>, chat: int, lo: int, hi: int, rows: map<int, Raw>, id: int) {
    var row := if lo < id <= hi then Survivor(d, order, chat, id) else None;
    (id in rows <==> row.Some?) && (id in rows ==> rows[id] == row.value)
  }

  lemma FollowsStep(d: Disk, order: seq<Request>, req: Request, chat: int, lo: int, hi: int, rows: map<int, Raw>,
                    more: map<int, Raw>)
    requires Follows(d, order, chat, lo, hi, rows) && req in d.pages
    requires if req.chat == chat then Over(d.pages[req], lo, hi, rows, more) else more == rows
    ensures Follows(d, order + [req], chat, lo, hi, more)
  {
    Snoc(order, req);
    var longer := order + [req];
    forall id ensures FollowsAt(d, longer, chat, lo, hi, more, id) {
      assert FollowsAt(d, order, chat, lo, hi, rows, id);
      if req.chat == chat { assert OverAt(d.pages[req], lo, hi, rows, more, id); }
    }
  }

  /** After every page, the stored rows of the interval. */
  lemma FollowsGathers(d: Disk, order: seq<Request>, chat: int, lo: int, hi: int, rows: map<int, Raw>)
    requires Follows(d, order, chat, lo, hi, rows) && VisitsAll(d, order)
    ensures Gathered(d, chat, lo, hi, rows)
  {
    forall id | id in rows ensures RowOf(d, chat, lo, hi, id, rows[id]) {
      assert FollowsAt(d, order, chat, lo, hi, rows, id);
      SurvivorIsRow(d, order, chat, id);
    }
    forall req, raw | req in d.pages && req.chat == chat && raw in d.pages[req] && lo < raw.id <= hi
      ensures raw.id in rows
    {
      assert PageHas(d, chat, raw) && RowAt(d, chat, raw.id);
      Survives(d, order, chat, raw.id);
      assert FollowsAt(d, order, chat, lo, hi, rows, raw.id);
    }
  }

  /** The targets a store rebuilt from these files starts with. */
  ghost function Rebuilt(d: Disk): set<Target> {
    (set req, raw | req in d.pages && raw in d.pages[req] :: Target(req.chat, raw.id)) +
    (set t | t in d.mutations && (d.mutations[t].acquired || d.mutations[t].replacement.Some?))
  }

  class HistoryStore {
    var disk: Disk
    var pages: Pages
    var mutations: Mutations
    var targets: set<Target>
    var failed: bool

    /** The maps mirror the files, and what a rebuilt store would target, this one
        does. */
    ghost predicate Valid()
      reads this
    {
      && Good(disk) && mutations == disk.mutations && pages.Keys == disk.pages.Keys
      && (forall req :: req in pages ==> pages[req] == LastId(disk.pages[req]))
      && Rebuilt(disk) <= targets
    }

    constructor ()
      ensures Valid() && disk == Disk(map[], map[]) && !failed
    {
      disk, pages, mutations, targets, failed := Disk(map[], map[]), map[], map[], {}, false;
    }

    /** A crash keeps the files; reopening rebuilds the maps from them, and
        forgets the targets whose page rows were overwritten away. */
    method Reopen()
      requires Valid()
      modifies this
      ensures Valid() && disk == old(disk) && !failed && targets == Rebuilt(disk)
    {
      var files := disk;
      pages := map req | req in files.pages :: LastId(files.pages[req]);
      mutations := files.mutations;
      targets := (set req, raw | req in files.pages && raw in files.pages[req] :: Target(req.chat, raw.id)) +
                 (set t | t in files.mutations &&
                  (files.mutations[t].acquired || files.mutations[t].replacement.Some?));
      failed := false;
      assert disk.pages == files.pages;
    }

    /** One durable overlay write, then the map. */
    method WriteMutation(t: Target, m: Mutation, budget: nat) returns (status: Status, left: nat)
      requires Valid()
      modifies this
      ensures var w := WriteOverlay(old(mutations), t, m, budget);
              mutations == w.ms && status == w.status && left == w.left
      ensures disk == old(disk).(mutations := mutations) && pages == old(pages) && targets >= old(targets)
      ensures failed == (old(failed) || status == Broken) && Rebuilt(disk) <= targets
    {
      var n := m.(acquired := m.acquired || m.replacement.Some?);
      if !ValidMutation(t, n) {
        return Refused, budget;
      }
      if budget == 0 {
        failed := true;
        return Broken, 0;
      }
      disk := disk.(mutations := mutations[t := n]);
      mutations := mutations[t := n];
      if n.acquired {
        targets := targets + {t};
      }
      return Fine, budget - 1;
    }

    method ObserveEvent(event: Event, replacement: Option<Raw>, budget: nat) returns (status: Status, left: nat)
      requires Valid()
      modifies this
      ensures var w := Observe(old(mutations), event, replacement, budget);
              mutations == w.ms && status == w.status && left == w.left
      ensures disk == old(disk).(mutations := mutations) && pages == old(pages) && targets >= old(targets)
      ensures failed == (old(failed) || status == Broken)
      ensures Valid()
    {
      ObserveKeeps(mutations, event, replacement, budget);
      GoodGrows(disk, Observe(mutations, event, replacement, budget).ms);
      if event.Other? {
        return Fine, budget;
      }
      var m := Observed(mutations, event, replacement);
      if m.None? {
        return Fine, budget;
      }
      status, left := WriteMutation(event.target, m.value, budget);
    }

    method ObserveRecord(chat: int, raw: Raw, budget: nat) returns (status: Status, left: nat)
      requires Valid()
      modifies this
      ensures var w := Record(old(mutations), chat, raw, budget);
              mutations == w.ms && status == w.status && left == w.left
      ensures disk == old(disk).(mutations := mutations) && pages == old(pages) && targets >= old(targets)
      ensures status == Fine ==> failed == old(failed)
      ensures Valid()
    {
      RecordKeeps(mutations, chat, raw, budget);
      GoodGrows(disk, Record(mutations, chat, raw, budget).ms);
      if !raw.decodes {
        return Refused, budget;
      }
      status, left := ObserveEvent(EventOf(chat, raw), None, budget);
      if status != Fine {
        return;
      }
      var t := Target(chat, raw.id);
      var current := Old(mutations, t);
      if current.deleted && current.replacement.None? {
        status, left := WriteMutation(t, current.(replacement := Some(raw)), left);
      }
      if !current.deleted && raw.revision >= current.revision {
        status, left := WriteMutation(t, current.(revision := raw.revision, replacement := Some(raw)), left);
      }
    }

    method ObserveRecords(chat: int, logs: seq<Raw>, budget: nat) returns (status: Status, left: nat)
      requires Valid()
      modifies this
      ensures var w := Records(old(mutations), chat, logs, budget);
              mutations == w.ms && status == w.status && left == w.left
      ensures disk == old(disk).(mutations := mutations) && pages == old(pages) && targets >= old(targets)
      ensures status == Fine ==> failed == old(failed)
      ensures Valid()
    {
      left := budget;
      for i := 0 to |logs|
        invariant Valid() && Records(old(mutations), chat, logs, budget) == Records(mutations, chat, logs[i..], left)
        invariant disk == old(disk).(mutations := mutations) && pages == old(pages)
        invariant targets >= old(targets) && failed == old(failed)
      {
        assert logs[i..][0] == logs[i] && logs[i..][1..] == logs[i + 1..];
        status, left := ObserveRecord(chat, logs[i], left);
        if status != Fine {
          return;
        }
      }
      status := Fine;
    }

    /** Overlays first, then the page. A record that cannot be written poisons the
        store until it is reopened. */
    method Save(req: Request, logs: seq<Raw>, budget: nat) returns (status: Status)
      requires Valid()
      modifies this
      ensures Valid()
      ensures old(failed) ==> status != Fine && disk == old(disk) && failed
      ensures !old(failed) ==> (disk, status) == Perform(old(disk), SavePage(req, logs), budget)
      ensures !old(failed) ==> (failed <==> status != Fine && ValidPage(req, logs))
      ensures targets >= old(targets)
    {
      if !ValidPage(req, logs) {
        return Refused;
      }
      if failed {
        return Broken;
      }
      PerformKeeps(disk, SavePage(req, logs), budget);
      var rows := InRange(req, logs);
      var left;
      status, left := ObserveRecords(req.chat, rows, budget);
      if status != Fine {
        failed := true;
        return;
      }
      if left == 0 {
        failed := true;
        return Broken;
      }
      Publish(req, rows);
    }

    method Publish(req: Request, rows: seq<Raw>)
      requires Valid() && rows != [] && Good(disk.(pages := disk.pages[req := rows]))
      modifies this`disk, this`pages, this`targets
      ensures Valid() && disk == old(disk).(pages := old(disk).pages[req := rows]) && targets >= old(targets)
    {
      disk := disk.(pages := disk.pages[req := rows]);
      pages := pages[req := LastId(rows)];
      targets := targets + (set raw | raw in rows :: Target(req.chat, raw.id));
    }

    /** The rows of every page of the chat in (lo, hi]; where pages differ, the
        page visited last wins. */
    method GatherRows(chat: int, lo: int, hi: int) returns (rows: map<int, Raw>, ghost order: seq<Request>)
      requires Valid()
      ensures Gathered(disk, chat, lo, hi, rows)
      ensures VisitsAll(disk, order) && Follows(disk, order, chat, lo, hi, rows)
    {
      rows, order := map[], [];
      var left := pages.Keys;
      while left != {}
        invariant left <= pages.Keys && forall req :: req in order <==> req in pages && req !in left
        invariant forall i, j :: 0 <= i < j < |order| ==> order[i] != order[j]
        invariant Follows(disk, order, chat, lo, hi, rows)
        decreases left
      {
        var req := PickOne(left);
        left := left - {req};
        ghost var before := rows;
        rows := AddRows(req, chat, lo, hi, rows);
        FollowsStep(disk, order, req, chat, lo, hi, before, rows);
        order := order + [req];
      }
      FollowsGathers(disk, order, chat, lo, hi, rows);
    }

    method AddRows(req: Request, chat: int, lo: int, hi: int, rows: map<int, Raw>) returns (more: map<int, Raw>)
      requires Valid() && req in pages
      ensures if req.chat == chat then Over(disk.pages[req], lo, hi, rows, more) else more == rows
    {
      if req.chat != chat || req.cur >= hi || pages[req] <= lo {
        if req.chat == chat {
          OutOfRange(req, lo, hi);
        }
        return rows;
      }
      more := AddPage(disk.pages[req], lo, hi, rows);
    }

    /** Every row of a page lies in (cur, last]. */
    lemma OutOfRange(req: Request, lo: int, hi: int)
      requires Valid() && req in pages && (req.cur >= hi || pages[req] <= lo)
      ensures forall id :: lo < id <= hi ==> RowIn(disk.pages[req], id).None?
    {
      var rows := disk.pages[req];
      assert PageRows(req, rows);
      forall raw | raw in rows
        ensures !(lo < raw.id <= hi)
      {
        var i :| 0 <= i < |rows| && rows[i] == raw;
        assert raw.id <= rows[|rows| - 1].id;
      }
      forall id | lo < id <= hi ensures RowIn(rows, id).None? { RowInIs(rows, id); }
    }

    /** Overlay contents replace page rows; the barrier is the first unresolved
        edit. */
    method OverlayRows(req: Request, end: int, rows: map<int, Raw>) returns (all: map<int, Raw>, barrier: Option<int>)
      requires Valid()
      ensures Overlaid(disk, req, end, rows, all)
      ensures IsBarrier(disk, targets, req, end, barrier)
    {
      all, barrier := rows, None;
      var left := mutations.Keys;
      while left != {}
        invariant left <= mutations.Keys
        invariant forall id :: id in all ==> id in rows || (InSpan(req, end, id) && ReplacementAt(disk, req.chat, id))
        invariant forall id :: id in rows ==> id in all
        invariant forall id ::
          id in all && (Target(req.chat, id) in left || !InSpan(req, end, id) || !ReplacementAt(disk, req.chat, id)) ==>
            id in rows && all[id] == rows[id]
        invariant forall id ::
          InSpan(req, end, id) && ReplacementAt(disk, req.chat, id) && Target(req.chat, id) !in left ==>
          id in all && all[id] == disk.mutations[Target(req.chat, id)].replacement.value
        invariant barrier.Some? ==> Blocks(disk, targets, req, end, barrier.value)
        invariant forall b :: Blocks(disk, targets, req, end, b) && Target(req.chat, b) !in left ==>
          barrier.Some? && barrier.value <= b
        decreases left
      {
        var t := PickOne(left);
        left := left - {t};
        if t.chat == req.chat && req.cur < t.log <= end {
          var m := mutations[t];
          if !m.deleted && m.replacement.None? && t in targets && (barrier.None? || t.log < barrier.value) {
            barrier := Some(t.log);
          }
          if m.replacement.Some? {
            all := all[t.log := m.replacement.value];
          }
        }
      }
    }

    /** A connected acquired prefix, projected through the overlay and cut before
        the first unresolved edit. */
    method Lookup(req: Request) returns (r: Answer)
      requires Valid()
      ensures r.StoreFailed? <==> failed
      ensures r.Found? ==>
        r.out != [] && Returned(disk, targets, req, CoverEnd(pages, req.chat, req.cur, req.max), r.out)
      ensures r.NotFound? ==> Returned(disk, targets, req, CoverEnd(pages, req.chat, req.cur, req.max), [])
    {
      if failed {
        return StoreFailed;
      }
      var end := CoveredThrough(pages, req.chat, req.cur, req.max);
      if end == req.cur {
        ghost var any := AnswerFor(req, end);
        return NotFound;
      }
      var rows, order := GatherRows(req.chat, req.cur, end);
      var all, barrier := OverlayRows(req, end, rows);
      var out := ProjectRows(req, end, order, rows, all, barrier);
      return if out == [] then NotFound else Found(out);
    }

    /** There is nothing to answer in an empty interval. */
    lemma AnswerFor(req: Request, end: int) returns (order: seq<Request>)
      requires Valid() && end == req.cur
      ensures VisitsAll(disk, order) && Answers(disk, targets, req, end, order, [])
    {
      order := Listed(disk.pages.Keys);
      assert Ids([]) == [];
    }

    method ProjectRows(req: Request, end: int, ghost order: seq<Request>, ghost rows: map<int, Raw>, all: map<int, Raw>,
                       barrier: Option<int>) returns (out: seq<Shown>)
      requires VisitsAll(disk, order) && Follows(disk, order, req.chat, req.cur, end, rows)
      requires Valid() && Gathered(disk, req.chat, req.cur, end, rows) && Overlaid(disk, req, end, rows, all)
      requires IsBarrier(disk, targets, req, end, barrier)
      ensures Answers(disk, targets, req, end, order, out)
    {
      var ids := SortedIds(all.Keys);
      SpanOfRows(disk, req, end, rows, all, ids);
      forall id | id in all && (barrier.Some? ==> id < barrier.value)
        ensures Resolves(disk, mutations, req.chat, all[id], id)
      {
        RowResolves(req, end, rows, all, barrier, id);
      }
      ghost var n;
      out, n := ProjectIds(disk, mutations, req.chat, ids, all, barrier);
      CutLookup(disk, targets, req, end, barrier, ids, n, out);
      forall i | 0 <= i < |out| ensures out[i] == ShownOf(disk, order, req.chat, ShownId(out[i])) {
        assert Ids(out)[i] == ids[i] && ids[i] in all;
        RowShows(req, end, order, rows, all, ids[i]);
      }
    }

    /** An overlaid row shows what the order of pages left. */
    lemma RowShows(req: Request, end: int, order: seq<Request>, rows: map<int, Raw>, all: map<int, Raw>, id: int)
      requires Valid() && Follows(disk, order, req.chat, req.cur, end, rows)
      requires Overlaid(disk, req, end, rows, all) && id in all
      ensures Project(mutations, req.chat, all[id]) == ShownOf(disk, order, req.chat, id)
    {
      assert FollowsAt(disk, order, req.chat, req.cur, end, rows, id);
      if ReplacementAt(disk, req.chat, id) { assert InSpan(req, end, id); }
    }

    /** Below the barrier no row is unresolved, so the projection's own check for
        an unresolved edit never stops the loop. */
    lemma RowResolves(req: Request, end: int, rows: map<int, Raw>, all: map<int, Raw>, barrier: Option<int>, id: int)
      requires Valid() && Gathered(disk, req.chat, req.cur, end, rows) && Overlaid(disk, req, end, rows, all)
      requires IsBarrier(disk, targets, req, end, barrier) && id in all && (barrier.Some? ==> id < barrier.value)
      ensures Resolves(disk, mutations, req.chat, all[id], id)
    {
      var t := Target(req.chat, id);
      if !(InSpan(req, end, id) && ReplacementAt(disk, req.chat, id)) {
        var raw := rows[id];
        assert RowOf(disk, req.chat, req.cur, end, id, raw);
        var page :| page in disk.pages && page.chat == req.chat && raw in disk.pages[page];
        assert Overlays(disk.mutations, page.chat, raw);
        assert t in Rebuilt(disk);
        assert !Blocks(disk, targets, req, end, id);
      }
    }

    /** The newest local rows of (after, through], never acquiring anything: the
        last limit of every row the window admits. */
    method ReadWindow(chat: int, after: int, through: int, limit: nat, exclude: bool)
      returns (r: Window, ghost all: seq<int>)
      requires Valid() && after < through
      ensures r.WindowFailed? <==> failed
      ensures r.WindowUnresolved? <==> !failed && exists id :: id in Newest(all, limit) && AwaitsEdit(disk, chat, id)
      ensures r.WindowPage? ==> CoverageFacts(pages, chat, after, through, r.page)
      ensures !r.WindowFailed? ==>
        RowsOfWindow(disk, Span(chat, after, through, exclude, SuffixStart(pages, chat, after, through)), all)
      ensures r.WindowPage? ==> Ids(r.page.events) == Newest(all, limit) && ShowsPages(disk, chat, r.page.events)
      ensures r.WindowPage? ==>
        (r.page.cachedSuffix <==> SuffixStart(pages, chat, after, through) < through && all != [])
      ensures r.WindowPage? ==> (r.page.hasMore <==> |all| > limit || (r.page.cachedSuffix && !r.page.complete))
    {
      all := [];
      if failed {
        return WindowFailed, [];
      }
      var covered, missing := FirstGapOf(chat, after, through);
      var suffix := SuffixAfter(pages, chat, after, through);
      CoverageIsDual(pages, chat, after, through);
      var ids, events := WindowEvents(Span(chat, after, through, exclude, suffix), limit);
      if events.None? {
        return WindowUnresolved, ids;
      }
      var cached, complete := suffix < through && |ids| > 0, covered >= through;
      var more := |ids| > limit || (cached && !complete);
      return WindowPage(Page(events.value, covered, missing, cached, more, complete)), ids;
    }

    method FirstGapOf(chat: int, after: int, through: int) returns (covered: int, missing: int)
      requires Valid() && after < through
      ensures covered == CoverEnd(pages, chat, after, through)
      ensures covered < through ==>
        after <= covered < missing <= through && forall x :: covered < x <= missing ==> !CoveredAt(pages, chat, x)
    {
      covered := CoveredThrough(pages, chat, after, through);
      missing := MissingThrough(pages, chat, covered, through);
      PagesNonEmpty();
      if covered < through {
        FirstGap(pages, chat, after, through, missing);
      }
    }

    method WindowEvents(w: Span, limit: nat) returns (ids: seq<int>, events: Option<seq<Shown>>)
      requires Valid()
      ensures RowsOfWindow(disk, w, ids)
      ensures events.Some? ==> Ids(events.value) == Newest(ids, limit) && ShowsPages(disk, w.chat, events.value)
      ensures events.None? <==> exists id :: id in Newest(ids, limit) && AwaitsEdit(disk, w.chat, id)
    {
      var rows, _ := GatherRows(w.chat, w.after, w.through);
      ids := SortedIds(set id | id in rows && Admits(w, id));
      forall id
        ensures id in ids <==> Admits(w, id) && RowAt(disk, w.chat, id)
      {
        GatheredRows(disk, w.chat, w.after, w.through, rows, id);
      }
      assert forall k :: 0 <= k < |ids| ==> ids[k] in ids;
      SortedAscends(w.after, ids);
      var newest := Newest(ids, limit);
      assert forall id :: id in newest ==> id in ids;
      forall id | id in newest
        ensures id in rows && rows[id].id == id && PageHas(disk, w.chat, rows[id])
      {
        GatheredRows(disk, w.chat, w.after, w.through, rows, id);
        assert RowOf(disk, w.chat, w.after, w.through, id, rows[id]);
      }
      events := ShowRows(disk, w.chat, rows, newest);
    }

    lemma PagesNonEmpty()
      requires Valid()
      ensures NonEmpty(pages)
    {
      forall req | req in pages
        ensures req.cur < pages[req]
      {
        var rows := disk.pages[req];
        assert rows[|rows| - 1] in rows;
      }
    }
  }

  // ---- What a reopen changes ----

  /** An unresolved edit of a target that only memory still knows: the page row
      it stood for was overwritten away. */
  ghost predicate Forgotten(d: Disk, targets: set<Target>, req: Request, end: int, b: int) {
    Blocks(d, targets, req, end, b) && Target(req.chat, b) !in Rebuilt(d)
  }

  /** A row that a lookup returns only once the store was reopened. */
  ghost predicate Freed(d: Disk, targets: set<Target>, req: Request, end: int, b: int, id: int) {
    Forgotten(d, targets, req, end, b) && b <= id && Candidate(d, req, end, id) &&
    Unblocked(d, Rebuilt(d), req, end, id)
  }

  /** A reopen leaves which rows a lookup returns as they are if and only if no
      forgotten edit stands at or before one it would then return. */
  lemma ReopenKeepsLookupIff(d: Disk, targets: set<Target>, req: Request, end: int, out: seq<Shown>, again: seq<Shown>)
    requires Rebuilt(d) <= targets
    requires IsLookup(d, targets, req, end, out) && IsLookup(d, Rebuilt(d), req, end, again)
    ensures Ids(again) == Ids(out) <==> !exists b, id :: Freed(d, targets, req, end, b, id)
  {
    forall id | id in Ids(again) && id !in Ids(out)
      ensures exists b :: Freed(d, targets, req, end, b, id)
    {
      var b :| Blocks(d, targets, req, end, b) && b <= id;
      assert !Blocks(d, Rebuilt(d), req, end, b);
      assert Freed(d, targets, req, end, b, id);
    }
    forall id | id in Ids(out)
      ensures id in Ids(again)
    {
      assert forall b :: Blocks(d, Rebuilt(d), req, end, b) ==> Blocks(d, targets, req, end, b);
    }
    if b, id :| Freed(d, targets, req, end, b, id) {
      assert id in Ids(again) && id !in Ids(out);
    } else {
      SameAscending(req.cur, Ids(again), Ids(out));
    }
  }
}
