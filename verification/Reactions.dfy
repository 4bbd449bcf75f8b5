/** A message's complete legacy reaction roster, derived from the stored one and
    a push's counts (internal/bridge/connector/reaction_derive.go). */
module Reactions {
  import opened Basics

  const CANCEL := 0
  const HEART := 1
  const SAD := 6

  type Selection = t: int | HEART <= t <= SAD witness HEART

  /** A stored reaction: its sender if that parses, its selection if legacy. */
  datatype Row = Row(sender: Option<int>, selection: Option<Selection>)
  datatype Actor = Actor(id: int, pick: int)
  datatype Item = Item(kind: int, typ: Option<int>, count: int)
  datatype Push = Push(metadataType: int, own: Option<int>, actor: Option<Actor>, items: seq<Item>)

  type Roster = map<int, int>

  // ---- Rosters and their counts ----

  function Pick(m: Roster, user: int): int { if user in m then m[user] else CANCEL }

  function Put(m: Roster, user: int, pick: int): (r: Roster)
    ensures forall u :: Pick(r, u) == if u == user then pick else Pick(m, u)
  {
    if pick == CANCEL then m - {user} else m[user := pick]
  }

  function Having(m: Roster, t: int): set<int> { set u | u in m && m[u] == t }

  function Count(m: Roster, t: int): nat { |Having(m, t)| }

  function Held(m: Roster): set<int> { set u | u in m :: m[u] }

  function Counts(m: Roster): map<int, int> { map t | t in Held(m) :: Count(m, t) }

  function At(counts: map<int, int>, t: int): int { if t in counts then counts[t] else 0 }

  ghost predicate Positive(counts: map<int, int>) { forall t :: t in counts ==> counts[t] > 0 }

  lemma CountsAre(m: Roster, t: int)
    ensures At(Counts(m), t) == Count(m, t) && (t in Counts(m) <==> Count(m, t) > 0)
  {
    if t in Held(m) {
      var u :| u in m && m[u] == t;
      assert u in Having(m, t);
    } else {
      assert forall u :: u !in Having(m, t);
      assert Having(m, t) == {};
    }
  }

  /** One member's change moves one unit of count. */
  lemma CountPut(m: Roster, user: int, pick: int, t: int)
    requires t != CANCEL
    ensures Count(Put(m, user, pick), t) ==
      Count(m, t) - (if Pick(m, user) == t then 1 else 0) + (if pick == t then 1 else 0)
  {
    HavingPut(m, user, pick, t);
    var before := Having(m, t);
    assert user in before <==> Pick(m, user) == t;
    assert |before - {user}| == |before| - (if user in before then 1 else 0);
    assert |before - {user} + {user}| == |before - {user}| + 1;
    assert user in before ==> before - {user} + {user} == before;
    assert user !in before ==> before - {user} + {user} == before + {user};
  }

  lemma HavingPut(m: Roster, user: int, pick: int, t: int)
    requires t != CANCEL
    ensures Having(Put(m, user, pick), t) == if pick == t then Having(m, t) - {user} + {user} else Having(m, t) - {user}
  {
    forall u
      ensures u in Having(Put(m, user, pick), t) <==> if u == user then pick == t else u in Having(m, t)
    {
      assert Pick(Put(m, user, pick), u) == if u == user then pick else Pick(m, u);
    }
  }

  lemma {:induction false} SameSize(a: set<int>, b: set<int>)
    requires a <= b && |a| == |b|
    ensures a == b
  {
    assert |b| == |a| + |b - a| by { assert b == a + (b - a); }
    assert b - a == {};
  }

  // ---- The stored roster and the wanted counts ----

  function StoredPicks(rows: seq<Row>): (r: Option<Roster>)
    ensures r.Some? ==> forall u :: u in r.value ==> u > 0 && HEART <= r.value[u] <= SAD
  {
    if rows == [] then Some(map[])
    else
      var before, row := StoredPicks(rows[..|rows| - 1]), rows[|rows| - 1];
      if before.None? || row.selection.None? then before
      else if row.sender.None? || row.sender.value <= 0 then None
      else if row.sender.value in before.value && before.value[row.sender.value] != row.selection.value then None
      else Some(before.value[row.sender.value := row.selection.value])
  }

  function Wants(items: seq<Item>): (r: Option<map<int, int>>)
    ensures r.Some? ==> Positive(r.value) && forall t :: t in r.value ==> HEART <= t <= SAD
  {
    if items == [] then Some(map[])
    else
      var before, item := Wants(items[..|items| - 1]), items[|items| - 1];
      if before.None? || item.kind != 1 || item.typ.None? || item.typ.value < HEART || item.typ.value > SAD then None
      else if item.count > 0 then Some(before.value[item.typ.value := item.count])
      else before
  }

  /** Some legacy row says that the member holds the selection. */
  ghost predicate Says(rows: seq<Row>, user: int, t: int) {
    exists i :: 0 <= i < |rows| && SaysAt(rows[i], user, t)
  }

  predicate SaysAt(row: Row, user: int, t: int) {
    row.selection.Some? && row.selection.value == t && row.sender == Some(user)
  }

  /** Every legacy row names a member, and none two selections of one. */
  ghost predicate Readable(rows: seq<Row>) {
    && (forall i :: 0 <= i < |rows| && rows[i].selection.Some? ==> rows[i].sender.Some? && rows[i].sender.value > 0)
    && (forall user, t, u :: Says(rows, user, t) && Says(rows, user, u) ==> t == u)
  }

  /** The roster the rows describe. */
  ghost predicate Stores(rows: seq<Row>, m: Roster) {
    forall user, t :: (user in m && m[user] == t) <==> Says(rows, user, t)
  }

  lemma SaysStep(rows: seq<Row>, row: Row, user: int, t: int)
    ensures Says(rows + [row], user, t) <==> Says(rows, user, t) || SaysAt(row, user, t)
  {
    var all := rows + [row];
    assert all[|rows|] == row && forall i :: 0 <= i < |rows| ==> all[i] == rows[i];
    if i :| 0 <= i < |rows| && SaysAt(rows[i], user, t) { assert SaysAt(all[i], user, t); }
    if SaysAt(row, user, t) { assert SaysAt(all[|rows|], user, t); }
  }

  /** The stored roster is read exactly when the rows are readable, and is then
      what they say. */
  lemma {:induction false} StoredPicksAre(rows: seq<Row>)
    ensures StoredPicks(rows).Some? <==> Readable(rows)
    ensures StoredPicks(rows).Some? ==> Stores(rows, StoredPicks(rows).value)
  {
    if rows != [] {
      var front, row := rows[..|rows| - 1], rows[|rows| - 1];
      StoredPicksAre(front);
      assert rows == front + [row];
      forall user, t ensures Says(rows, user, t) <==> Says(front, user, t) || SaysAt(row, user, t) {
        SaysStep(front, row, user, t);
      }
      if Readable(rows) {
        ReadableFront(front, row);
        if row.selection.Some? {
          var m, user := StoredPicks(front).value, row.sender.value;
          assert user in m ==> Says(front, user, m[user]);
        }
      } else {
        UnreadableLast(front, row);
      }
    }
  }

  lemma ReadableFront(front: seq<Row>, row: Row)
    requires Readable(front + [row])
    ensures Readable(front) && (row.selection.Some? ==> row.sender.Some? && row.sender.value > 0)
    ensures row.selection.Some? ==> forall t :: Says(front, row.sender.value, t) ==> t == row.selection.value
  {
    var all := front + [row];
    assert all[|front|] == row && forall i :: 0 <= i < |front| ==> all[i] == front[i];
    forall user, t ensures Says(all, user, t) <==> Says(front, user, t) || SaysAt(row, user, t) {
      SaysStep(front, row, user, t);
    }
    if row.selection.Some? { assert SaysAt(row, row.sender.value, row.selection.value); }
  }

  lemma UnreadableLast(front: seq<Row>, row: Row)
    requires !Readable(front + [row])
    ensures !Readable(front) || (row.selection.Some? && (row.sender.None? || row.sender.value <= 0)) ||
      (row.selection.Some? && exists t :: Says(front, row.sender.value, t) && t != row.selection.value)
  {
    var all := front + [row];
    assert all[|front|] == row && forall i :: 0 <= i < |front| ==> all[i] == front[i];
    forall user, t ensures Says(all, user, t) <==> Says(front, user, t) || SaysAt(row, user, t) {
      SaysStep(front, row, user, t);
    }
  }

  /** Every item is a legacy selection. */
  predicate LegalItems(items: seq<Item>) {
    forall i :: 0 <= i < |items| ==> items[i].kind == 1 && items[i].typ.Some? && HEART <= items[i].typ.value <= SAD
  }

  /** The last positive count of the selection. */
  ghost predicate LastCount(items: seq<Item>, t: int, n: int) {
    exists i :: 0 <= i < |items| && items[i].typ == Some(t) && items[i].count == n > 0 &&
      forall j :: i < j < |items| && items[j].typ == Some(t) ==> items[j].count <= 0
  }

  /** The counts the items ask for. */
  ghost predicate Asks(items: seq<Item>, want: map<int, int>) {
    LegalItems(items) && forall t, n :: (t in want && want[t] == n) <==> LastCount(items, t, n)
  }

  lemma LastCountStep(items: seq<Item>, item: Item, t: int, n: int)
    ensures LastCount(items + [item], t, n) <==>
      if item.typ == Some(t) && item.count > 0 then item.count == n else LastCount(items, t, n)
  {
    var all := items + [item];
    assert all[|items|] == item && forall i :: 0 <= i < |items| ==> all[i] == items[i];
    if item.typ == Some(t) && item.count > 0 {
      assert item.count == n ==> LastCount(all, t, n);
    } else if LastCount(items, t, n) {
      var i :| 0 <= i < |items| && items[i].typ == Some(t) && items[i].count == n > 0 &&
        forall j :: i < j < |items| && items[j].typ == Some(t) ==> items[j].count <= 0;
      assert all[i] == items[i];
    }
  }

  /** The wanted counts are read exactly when every item is legal, and are then
      what the items ask for. */
  lemma {:induction false} WantsAre(items: seq<Item>)
    ensures Wants(items).Some? <==> LegalItems(items)
    ensures Wants(items).Some? ==> Asks(items, Wants(items).value)
  {
    if items != [] {
      var front, item := items[..|items| - 1], items[|items| - 1];
      WantsAre(front);
      assert items == front + [item];
      assert LegalItems(items) <==> LegalItems(front) && LegalItems([item]) by {
        assert [item][0] == item && forall i :: 0 <= i < |front| ==> items[i] == front[i];
      }
      forall t, n
        ensures LastCount(items, t, n) <==>
          if item.typ == Some(t) && item.count > 0 then item.count == n else LastCount(front, t, n)
      {
        LastCountStep(front, item, t, n);
      }
    }
  }

  lemma StoresOnce(rows: seq<Row>, a: Roster, b: Roster)
    requires Stores(rows, a) && Stores(rows, b)
    ensures a == b
  {
    forall u | u in a ensures u in b && a[u] == b[u] { assert Says(rows, u, a[u]); }
    forall u | u in b ensures u in a { assert Says(rows, u, b[u]); }
  }

  lemma AsksOnce(items: seq<Item>, a: map<int, int>, b: map<int, int>)
    requires Asks(items, a) && Asks(items, b)
    ensures a == b
  {
    forall t | t in a ensures t in b && a[t] == b[t] { assert LastCount(items, t, a[t]); }
    forall t | t in b ensures t in a { assert LastCount(items, t, b[t]); }
  }

  method ReadRows(rows: seq<Row>) returns (r: Option<Roster>)
    ensures r == StoredPicks(rows)
  {
    var picks: Roster := map[];
    for i := 0 to |rows|
      invariant StoredPicks(rows[..i]) == Some(picks)
    {
      assert rows[..i + 1][..i] == rows[..i];
      var row := rows[i];
      if row.selection.Some? {
        if row.sender.None? || row.sender.value <= 0 ||
          (row.sender.value in picks && picks[row.sender.value] != row.selection.value) {
          NoRowsAfter(rows, i + 1);
          return None;
        }
        picks := picks[row.sender.value := row.selection.value];
      }
    }
    assert rows[..|rows|] == rows;
    r := Some(picks);
  }

  lemma {:induction false} NoRowsAfter(rows: seq<Row>, n: nat)
    requires n <= |rows| && StoredPicks(rows[..n]).None?
    ensures StoredPicks(rows).None?
    decreases |rows| - n
  {
    if n == |rows| {
      assert rows[..n] == rows;
    } else {
      assert rows[..n + 1][..n] == rows[..n];
      NoRowsAfter(rows, n + 1);
    }
  }

  method ReadItems(items: seq<Item>) returns (r: Option<map<int, int>>)
    ensures r == Wants(items)
  {
    var want: map<int, int> := map[];
    for i := 0 to |items|
      invariant Wants(items[..i]) == Some(want)
    {
      assert items[..i + 1][..i] == items[..i];
      var item := items[i];
      if item.kind != 1 || item.typ.None? || item.typ.value < HEART || item.typ.value > SAD {
        NoItemsAfter(items, i + 1);
        return None;
      }
      if item.count > 0 {
        want := want[item.typ.value := item.count];
      }
    }
    assert items[..|items|] == items;
    r := Some(want);
  }

  lemma {:induction false} NoItemsAfter(items: seq<Item>, n: nat)
    requires n <= |items| && Wants(items[..n]).None?
    ensures Wants(items).None?
    decreases |items| - n
  {
    if n == |items| {
      assert items[..n] == items;
    } else {
      assert items[..n + 1][..n] == items[..n];
      NoItemsAfter(items, n + 1);
    }
  }

  // ---- Counting ----

  method CountAll(picks: Roster) returns (have: map<int, int>)
    requires NoCancel(picks)
    ensures have == Counts(picks)
  {
    have := map[];
    var todo, seen: Roster := picks.Keys, map[];
    while todo != {}
      invariant todo <= picks.Keys && seen.Keys == picks.Keys - todo && (forall u :: u in seen ==> seen[u] == picks[u])
      invariant have == Counts(seen)
      decreases todo
    {
      var user := PickOne(todo);
      CountOne(seen, user, picks[user]);
      have := have[picks[user] := At(have, picks[user]) + 1];
      seen := seen[user := picks[user]];
      todo := todo - {user};
    }
    SameRoster(seen, picks);
  }

  lemma SameRoster(a: Roster, b: Roster)
    requires forall u :: Pick(a, u) == Pick(b, u)
    requires forall u :: u in a || u in b ==> Pick(a, u) != CANCEL
    ensures a == b
  {
    assert forall u :: u in a <==> u in b;
    forall u | u in a ensures a[u] == b[u] {
      assert Pick(a, u) == Pick(b, u);
    }
  }

  lemma CountOne(seen: Roster, user: int, pick: int)
    requires user !in seen && pick != CANCEL && NoCancel(seen)
    ensures Counts(seen[user := pick]) == Counts(seen)[pick := At(Counts(seen), pick) + 1]
  {
    var after := seen[user := pick];
    assert after == Put(seen, user, pick);
    forall t
      ensures At(Counts(after), t) == At(Counts(seen)[pick := At(Counts(seen), pick) + 1], t)
      ensures t in Counts(after) <==> t in Counts(seen) || t == pick
    {
      CountsAre(after, t);
      CountsAre(seen, t);
      CountsAre(seen, pick);
      if t != CANCEL { CountPut(seen, user, pick, t); } else { NobodyCancels(seen); NobodyCancels(after); }
    }
    assert forall t :: t in Counts(after) ==> Counts(after)[t] == At(Counts(after), t);
  }

  lemma NobodyCancels(m: Roster)
    requires NoCancel(m)
    ensures Count(m, CANCEL) == 0
  {
    assert forall u :: u !in Having(m, CANCEL);
    assert Having(m, CANCEL) == {};
  }

  ghost predicate NoCancel(m: Roster) { forall u :: u in m ==> m[u] != CANCEL }

  method LegacyCountsMatch(picks: Roster, want: map<int, int>) returns (ok: bool)
    requires NoCancel(picks) && Positive(want)
    ensures ok <==> want == Counts(picks)
  {
    var have := CountAll(picks);
    if |have| != |want| {
      return false;
    }
    var todo := want.Keys;
    while todo != {}
      invariant todo <= want.Keys
      invariant forall t :: t in want && t !in todo ==> At(have, t) == want[t]
      decreases todo
    {
      var t := PickOne(todo);
      if At(have, t) != want[t] {
        return false;
      }
      todo := todo - {t};
    }
    forall t | t in want
      ensures t in have && have[t] == want[t]
    {
      assert At(have, t) == want[t] > 0;
    }
    assert want.Keys <= have.Keys && |want.Keys| == |want| && |have.Keys| == |have|;
    SameSize(want.Keys, have.Keys);
    ok := true;
  }

  // ---- The one change that counts can attribute ----

  function Diff(picks: Roster, want: map<int, int>, t: int): int { At(want, t) - Count(picks, t) }

  /** Only lost fell by one, only gained (if any) rose by one, and holder is the
      only member besides this account that held lost. */
  ghost predicate Attributable(picks: Roster, want: map<int, int>, self: int, lost: int, holder: int, gained: int) {
    && HEART <= lost <= SAD && Diff(picks, want, lost) == -1
    && (gained == CANCEL || (HEART <= gained <= SAD && Diff(picks, want, gained) == 1))
    && (forall t :: HEART <= t <= SAD && t != lost && t != gained ==> Diff(picks, want, t) == 0)
    && SoleHolder(picks, self, lost, holder)
  }

  ghost predicate SoleHolder(picks: Roster, self: int, t: int, holder: int) {
    holder != self && Pick(picks, holder) == t && forall u :: u != self && Pick(picks, u) == t ==> u == holder
  }

  ghost function Resolve(picks: Roster, want: map<int, int>, self: int): Roster {
    if exists lost, holder, gained :: Attributable(picks, want, self, lost, holder, gained) then
      var lost, holder, gained :| Attributable(picks, want, self, lost, holder, gained);
      Put(picks, holder, gained)
    else picks
  }

  lemma AttributionIsUnique(picks: Roster, want: map<int, int>, self: int, lost: int, holder: int, gained: int, l: int,
                            h: int, g: int)
    requires Attributable(picks, want, self, lost, holder, gained) && Attributable(picks, want, self, l, h, g)
    ensures l == lost && h == holder && g == gained
  {
    assert Diff(picks, want, lost) == -1 && Diff(picks, want, l) == -1;
    assert gained != CANCEL ==> Diff(picks, want, gained) == 1;
    assert g != CANCEL ==> Diff(picks, want, g) == 1;
  }

  lemma ResolveMoves(picks: Roster, want: map<int, int>, self: int, lost: int, holder: int, gained: int)
    requires Attributable(picks, want, self, lost, holder, gained)
    ensures Resolve(picks, want, self) == Put(picks, holder, gained)
  {
    forall l, h, g | Attributable(picks, want, self, l, h, g)
      ensures l == lost && h == holder && g == gained
    {
      AttributionIsUnique(picks, want, self, lost, holder, gained, l, h, g);
    }
  }

  /** The selections below n whose count moved by d. */
  function Those(picks: Roster, want: map<int, int>, d: int, n: int): seq<int> {
    if n <= HEART then [] else Those(picks, want, d, n - 1) + if Diff(picks, want, n - 1) == d then [n - 1] else []
  }

  lemma {:induction false} ThoseAre(picks: Roster, want: map<int, int>, d: int, n: int)
    ensures forall t :: t in Those(picks, want, d, n) <==> HEART <= t < n && Diff(picks, want, t) == d
    decreases n - HEART
  {
    if n > HEART { ThoseAre(picks, want, d, n - 1); }
  }

  lemma {:induction false} ThoseAtMostOne(picks: Roster, want: map<int, int>, d: int, n: int, only: int)
    requires forall t :: HEART <= t < n && Diff(picks, want, t) == d ==> t == only
    ensures |Those(picks, want, d, n)| <= 1
    decreases n - HEART
  {
    if n > HEART {
      ThoseAtMostOne(picks, want, d, n - 1, only);
      ThoseAre(picks, want, d, n - 1);
      var before := Those(picks, want, d, n - 1);
      if before != [] {
        assert before[0] in before;
        assert Diff(picks, want, before[0]) == d && before[0] == only;
      }
    }
  }

  method FindHolder(picks: Roster, t: int, self: int) returns (holder: int)
    requires forall u :: u in picks && u != self ==> u > 0
    ensures holder > 0 ==> SoleHolder(picks, self, t, holder) || t == CANCEL
    ensures holder <= 0 && t != CANCEL ==> forall h :: !SoleHolder(picks, self, t, h)
  {
    holder := 0;
    var todo := picks.Keys;
    while todo != {}
      invariant todo <= picks.Keys
      invariant (holder == 0 ||
                 (holder > 0 && holder in picks && holder !in todo && holder != self && picks[holder] == t))
      invariant forall u :: u in picks && u !in todo && u != self && picks[u] == t ==> u == holder
      decreases todo
    {
      var user := PickOne(todo);
      todo := todo - {user};
      if picks[user] == t && user != self {
        if holder != 0 {
          if t != CANCEL {
            forall h ensures !SoleHolder(picks, self, t, h) {
              assert Pick(picks, user) == t && Pick(picks, holder) == t && user != holder;
            }
          }
          return -1;
        }
        holder := user;
      }
    }
  }

  method ResolveUniqueHolder(picks: Roster, want: map<int, int>, self: int) returns (out: Roster)
    requires NoCancel(picks) && forall u :: u in picks && u != self ==> u > 0
    ensures out == Resolve(picks, want, self)
  {
    var ok, lost, gained := Movements(picks, want);
    if !ok {
      return picks;
    }
    if |lost| != 1 || |gained| > 1 {
      NotAttributable(picks, want, self);
      return picks;
    }
    var to := if |gained| == 1 then gained[0] else CANCEL;
    MovementsMean(picks, want, lost[0], to);
    var holder := FindHolder(picks, lost[0], self);
    if holder <= 0 {
      return picks;
    }
    ResolveMoves(picks, want, self, lost[0], holder, to);
    out := Put(picks, holder, to);
  }

  /** The selections whose count fell or rose by one, unless one moved further. */
  method Movements(picks: Roster, want: map<int, int>) returns (ok: bool, lost: seq<int>, gained: seq<int>)
    requires NoCancel(picks)
    ensures ok <==> Small(picks, want, SAD + 1)
    ensures ok ==> lost == Those(picks, want, -1, SAD + 1) && gained == Those(picks, want, 1, SAD + 1)
  {
    var have := CountAll(picks);
    lost, gained := [], [];
    for t := HEART to SAD + 1
      invariant lost == Those(picks, want, -1, t) && gained == Those(picks, want, 1, t) && Small(picks, want, t)
    {
      CountsAre(picks, t);
      var d := At(want, t) - At(have, t);
      assert d == Diff(picks, want, t);
      if d == -1 {
        lost := lost + [t];
      } else if d == 1 {
        gained := gained + [t];
      } else if d != 0 {
        return false, [], [];
      }
    }
    ok := true;
  }

  ghost predicate Small(picks: Roster, want: map<int, int>, n: int) {
    forall t :: HEART <= t < n ==> -1 <= Diff(picks, want, t) <= 1
  }

  lemma MovementsMean(picks: Roster, want: map<int, int>, lost: int, to: int)
    requires Small(picks, want, SAD + 1) && Those(picks, want, -1, SAD + 1) == [lost]
    requires var gained := Those(picks, want, 1, SAD + 1);
             |gained| <= 1 && to == if |gained| == 1 then gained[0] else CANCEL
    ensures forall self, h :: SoleHolder(picks, self, lost, h) ==> Attributable(picks, want, self, lost, h, to)
    ensures forall self, l, h, g :: Attributable(picks, want, self, l, h, g) ==> SoleHolder(picks, self, lost, h)
    ensures lost != CANCEL
  {
    ThoseAre(picks, want, -1, SAD + 1);
    ThoseAre(picks, want, 1, SAD + 1);
    var gained := Those(picks, want, 1, SAD + 1);
    assert lost in [lost] && (|gained| == 1 ==> gained[0] in gained);
    forall self, l, h, g | Attributable(picks, want, self, l, h, g)
      ensures SoleHolder(picks, self, lost, h)
    {
      assert l in Those(picks, want, -1, SAD + 1);
    }
  }

  lemma AttributionCounts(picks: Roster, want: map<int, int>, self: int, l: int, h: int, g: int)
    requires Attributable(picks, want, self, l, h, g)
    ensures |Those(picks, want, -1, SAD + 1)| == 1 && |Those(picks, want, 1, SAD + 1)| <= 1
  {
    ThoseAtMostOne(picks, want, -1, SAD + 1, l);
    ThoseAtMostOne(picks, want, 1, SAD + 1, g);
    ThoseAre(picks, want, -1, SAD + 1);
    assert l in Those(picks, want, -1, SAD + 1);
  }

  lemma NotAttributable(picks: Roster, want: map<int, int>, self: int)
    requires |Those(picks, want, -1, SAD + 1)| != 1 || |Those(picks, want, 1, SAD + 1)| > 1
    ensures forall l, h, g :: !Attributable(picks, want, self, l, h, g)
  {
    forall l, h, g
      ensures !Attributable(picks, want, self, l, h, g)
    {
      if Attributable(picks, want, self, l, h, g) { AttributionCounts(picks, want, self, l, h, g); }
    }
  }

  // ---- The derivation ----

  /** The roster after the picks the push names, or none when its actor is this
      account with another pick. */
  function Named(stored: Roster, self: int, own: int, actor: Option<Actor>): Option<Roster> {
    var base := Put(stored, self, own);
    if actor.None? then Some(base)
    else if actor.value.id != self then Some(Put(base, actor.value.id, actor.value.pick))
    else if actor.value.pick != own then None
    else Some(base)
  }

  ghost function Derived(rows: seq<Row>, self: int, push: Push, confirmed: bool): Option<Roster> {
    if push.metadataType != 1 || push.own.None? || !confirmed || StoredPicks(rows).None? then None
    else
      var named, want := Named(StoredPicks(rows).value, self, push.own.value, push.actor), Wants(push.items);
      if named.None? || want.None? then None
      else
        var picks := if push.actor.None? && Counts(named.value) != want.value then
          Resolve(named.value, want.value, self) else named.value;
        if Counts(picks) == want.value then Some(picks) else None
  }

  method DeriveLegacyReactions(rows: seq<Row>, self: int, push: Push, confirmed: bool) returns (r: Option<Roster>)
    ensures r == Derived(rows, self, push, confirmed)
    ensures r.Some? ==> Asks(push.items, Counts(r.value)) && Pick(r.value, self) == push.own.value
    ensures r.Some? ==> push.metadataType == 1 && confirmed && Readable(rows)
    ensures r.Some? ==> forall stored :: Stores(rows, stored) ==>
      exists other :: Explains(stored, self, push, r.value, other)
  {
    if push.metadataType != 1 || push.own.None? || !confirmed { return None; }
    var stored := ReadRows(rows);
    if stored.None? { return None; }
    var picks := Put(stored.value, self, push.own.value);
    if push.actor.Some? {
      if push.actor.value.id == self {
        if push.actor.value.pick != push.own.value { return None; }
      } else {
        picks := Put(picks, push.actor.value.id, push.actor.value.pick);
      }
    }
    var want := ReadItems(push.items);
    if want.None? { return None; }
    var matches := LegacyCountsMatch(picks, want.value);
    if push.actor.None? && !matches {
      picks := ResolveUniqueHolder(picks, want.value, self);
      matches := LegacyCountsMatch(picks, want.value);
    }
    r := if matches then Some(picks) else None;
    if matches { DerivationExplains(rows, self, push, confirmed, picks); }
  }

  // ---- What the derivation recovers ----

  /** truth is what the push describes: the wanted counts, this account's own
      pick, the named actor's, or without an actor one other member's change. */
  ghost predicate Explains(stored: Roster, self: int, push: Push, truth: Roster, other: int) {
    && push.own.Some? && NoCancel(truth) && Asks(push.items, Counts(truth))
    && (forall u :: u != self && u != other ==> Pick(truth, u) == Pick(stored, u))
    && Pick(truth, self) == push.own.value && other != self
    && (push.actor.Some? ==>
          if push.actor.value.id == self then
            push.actor.value.pick == push.own.value && Pick(truth, other) == Pick(stored, other)
          else other == push.actor.value.id && Pick(truth, other) == push.actor.value.pick)
  }

  /** The roster with only this account's own pick applied. */
  function Base(stored: Roster, push: Push, self: int): Roster
    requires push.own.Some?
  {
    Put(stored, self, push.own.value)
  }

  lemma ChangedCounts(base: Roster, truth: Roster, other: int, t: int)
    requires NoCancel(base) && NoCancel(truth) && t != CANCEL
    requires forall u :: u != other ==> Pick(truth, u) == Pick(base, u)
    ensures truth == Put(base, other, Pick(truth, other))
    ensures Diff(base, Counts(truth), t) ==
      (if Pick(truth, other) == t then 1 else 0) - (if Pick(base, other) == t then 1 else 0)
  {
    SameRoster(truth, Put(base, other, Pick(truth, other)));
    CountPut(base, other, Pick(truth, other), t);
    CountsAre(truth, t);
  }

  lemma AttributionIsTheChange(base: Roster, want: map<int, int>, self: int, other: int, was: int, now: int, l: int,
                               h: int, g: int)
    requires Attributable(base, want, self, l, h, g) && was == Pick(base, other) && other != self
    requires Diff(base, want, l) == (if now == l then 1 else 0) - (if was == l then 1 else 0)
    ensures was != CANCEL && SoleHolder(base, self, was, other)
  {
  }

  /** Without an actor, one other member's change is attributable exactly when
      that member had a pick no other member shared. */
  lemma ChangeIsAttributable(base: Roster, truth: Roster, self: int, other: int)
    requires NoCancel(base) && NoCancel(truth) && other != self && Pick(base, other) != Pick(truth, other)
    requires forall u :: u != other ==> Pick(truth, u) == Pick(base, u)
    requires HEART <= Pick(base, other) <= SAD || Pick(base, other) == CANCEL
    requires HEART <= Pick(truth, other) <= SAD || Pick(truth, other) == CANCEL
    ensures Counts(base) != Counts(truth)
    ensures SoleHolder(base, self, Pick(base, other), other) && Pick(base, other) != CANCEL ==>
      Resolve(base, Counts(truth), self) == truth
    ensures !(SoleHolder(base, self, Pick(base, other), other) && Pick(base, other) != CANCEL) ==>
      Resolve(base, Counts(truth), self) == base
  {
    var want, was, now := Counts(truth), Pick(base, other), Pick(truth, other);
    forall t | t != CANCEL
      ensures Diff(base, want, t) == (if now == t then 1 else 0) - (if was == t then 1 else 0)
    {
      ChangedCounts(base, truth, other, t);
    }
    ChangedCounts(base, truth, other, HEART);
    var moved := if was != CANCEL then was else now;
    assert Diff(base, want, moved) != 0;
    CountsAre(base, moved);
    if was != CANCEL && SoleHolder(base, self, was, other) {
      assert Attributable(base, want, self, was, other, now);
      ResolveMoves(base, want, self, was, other, now);
    } else {
      forall l, h, g
        ensures !Attributable(base, want, self, l, h, g)
      {
        if Attributable(base, want, self, l, h, g) {
          AttributionIsTheChange(base, want, self, other, was, now, l, h, g);
        }
      }
    }
  }

  /** Whatever the derivation returns explains the push: the counts it asks for,
      the own pick, the actor's, and at most one other member's change. */
  lemma DerivationExplains(rows: seq<Row>, self: int, push: Push, confirmed: bool, picks: Roster)
    requires Derived(rows, self, push, confirmed) == Some(picks)
    ensures Readable(rows) && push.own.Some? && Pick(picks, self) == push.own.value && Asks(push.items, Counts(picks))
    ensures forall stored :: Stores(rows, stored) ==> exists other :: Explains(stored, self, push, picks, other)
  {
    StoredPicksAre(rows);
    WantsAre(push.items);
    var stored := StoredPicks(rows).value;
    var base, want := Base(stored, push, self), Wants(push.items).value;
    var named := Named(stored, self, push.own.value, push.actor).value;
    var other := if self == 0 then 1 else 0;
    if push.actor.Some? && push.actor.value.id != self {
      other := push.actor.value.id;
    } else if push.actor.None? && Counts(named) != want {
      other := ResolvedBy(base, want, self, other);
    }
    assert Explains(stored, self, push, picks, other);
    forall m | Stores(rows, m) ensures Explains(m, self, push, picks, other) { StoresOnce(rows, m, stored); }
  }

  lemma ResolvedBy(base: Roster, want: map<int, int>, self: int, any: int) returns (other: int)
    requires any != self && NoCancel(base)
    ensures other != self && NoCancel(Resolve(base, want, self))
    ensures forall u :: u != other ==> Pick(Resolve(base, want, self), u) == Pick(base, u)
  {
    other := any;
    if lost, holder, gained :| Attributable(base, want, self, lost, holder, gained) {
      ResolveMoves(base, want, self, lost, holder, gained);
      other := holder;
    }
  }

  /** Whenever the push is explained by some roster, the derivation returns that
      roster or nothing; with a named actor it always returns it, and without
      one exactly when no other member changed or the member who did was the
      only one to hold the selection it left. */
  lemma DerivesTheTruth(rows: seq<Row>, self: int, push: Push, stored: Roster, truth: Roster, other: int)
    requires push.metadataType == 1 && Readable(rows) && Stores(rows, stored)
    requires Explains(stored, self, push, truth, other)
    ensures var base := Base(stored, push, self);
            Derived(rows, self, push, true) ==
              if push.actor.Some? || truth == base ||
                (Pick(base, other) != CANCEL && SoleHolder(base, self, Pick(base, other), other))
              then Some(truth) else None
  {
    StoredPicksAre(rows);
    WantsAre(push.items);
    StoresOnce(rows, stored, StoredPicks(rows).value);
    AsksOnce(push.items, Counts(truth), Wants(push.items).value);
    DerivesFrom(rows, self, push, stored, truth, other);
  }

  lemma DerivesFrom(rows: seq<Row>, self: int, push: Push, stored: Roster, truth: Roster, other: int)
    requires push.metadataType == 1 && StoredPicks(rows) == Some(stored) && Wants(push.items) == Some(Counts(truth))
    requires Explains(stored, self, push, truth, other)
    ensures var base := Base(stored, push, self);
            Derived(rows, self, push, true) ==
              if push.actor.Some? || truth == base ||
                (Pick(base, other) != CANCEL && SoleHolder(base, self, Pick(base, other), other))
              then Some(truth) else None
  {
    var own := push.own.value;
    var base := Base(stored, push, self);
    var named := Named(stored, self, own, push.actor);
    if push.actor.Some? {
      SameRoster(named.value, truth);
    } else if Pick(base, other) == Pick(truth, other) {
      SameRoster(base, truth);
    } else {
      CountsAre(truth, Pick(truth, other));
      assert Pick(truth, other) != CANCEL ==> other in Having(truth, Pick(truth, other));
      ChangeIsAttributable(base, truth, self, other);
    }
  }
}
