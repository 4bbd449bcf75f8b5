/** A run in which reopening the history store changes a lookup's answer: the
    edit that stopped it stood for a page row that was overwritten away
    (internal/client/history_store.go). */
module ForgottenEdit {
  import opened Basics
  import opened IdSets
  import opened Coverage
  import opened Overlay
  import opened HistoryStores
  import opened AcquiredHistory

  const SIX := Raw(6, 0, 60, Plain, true)
  const SEVEN_ROW := Raw(7, 0, 70, Plain, true)
  const NINE := Raw(9, 0, 90, Plain, true)
  const WIDE := Request(1, 5, 10)
  const NARROW := Request(1, 6, 10)

  const EDITED := Mutation(20, 1, false, false, None)
  const WITH_SEVEN := Disk(map[WIDE := [SEVEN_ROW]], map[SEVEN := EDITED])
  const WITH_NINE := Disk(map[WIDE := [SEVEN_ROW], NARROW := [NINE]],
                          map[SEVEN := EDITED, Target(1, 9) := Mutation(0, 0, false, true, Some(NINE))])
  const SHORTER := Disk(map[WIDE := [SIX], NARROW := [NINE]],
                        map[SEVEN := EDITED, Target(1, 9) := Mutation(0, 0, false, true, Some(NINE)),
                            Target(1, 6) := Mutation(0, 0, false, true, Some(SIX))])

  /** A record older than a live edit leaves the edit unresolved. */
  lemma SeesSeven()
    ensures Perform(Disk(map[], map[SEVEN := EDITED]), SavePage(WIDE, [SEVEN_ROW]), 9) == (WITH_SEVEN, Fine)
  {
    assert [SEVEN_ROW][1..] == [] && InRange(WIDE, [SEVEN_ROW]) == [SEVEN_ROW];
    RecordsOne(map[SEVEN := EDITED], 1, SEVEN_ROW, 9);
  }

  lemma SeesNine()
    ensures Perform(WITH_SEVEN, SavePage(NARROW, [NINE]), 9) == (WITH_NINE, Fine)
  {
    SaveOne(WITH_SEVEN, NARROW, NINE, Mutation(0, 0, false, true, Some(NINE)));
    assert WITH_SEVEN.pages[NARROW := [NINE]] == WITH_NINE.pages;
    assert WITH_SEVEN.mutations[Target(1, 9) := Mutation(0, 0, false, true, Some(NINE))] == WITH_NINE.mutations;
  }

  lemma SeesSix()
    ensures Perform(WITH_NINE, SavePage(WIDE, [SIX]), 9) == (SHORTER, Fine)
  {
    SaveOne(WITH_NINE, WIDE, SIX, Mutation(0, 0, false, true, Some(SIX)));
    assert WITH_NINE.pages[WIDE := [SIX]] == SHORTER.pages;
    assert WITH_NINE.mutations[Target(1, 6) := Mutation(0, 0, false, true, Some(SIX))] == SHORTER.mutations;
  }

  lemma Covered(pages: Pages)
    requires pages.Keys == SHORTER.pages.Keys && forall req :: req in pages ==> pages[req] == LastId(SHORTER.pages[req])
    ensures CoverEnd(pages, 1, 5, 10) == 9
  {
    assert pages.Keys == {WIDE, NARROW} && pages[WIDE] == 6 && pages[NARROW] == 9;
    assert Covers(pages, WIDE, 1, 6) && Covers(pages, NARROW, 1, 7);
    assert Covers(pages, NARROW, 1, 8) && Covers(pages, NARROW, 1, 9);
    CoverEndIs(pages, 1, 5, 10, 9);
  }

  lemma StoredRows(id: int)
    ensures Candidate(SHORTER, WIDE, 9, id) <==> id == 6 || id == 9
  {
    assert SIX in SHORTER.pages[WIDE] && NINE in SHORTER.pages[NARROW];
    assert PageHas(SHORTER, 1, SIX) && PageHas(SHORTER, 1, NINE);
  }

  /** Memory still knows log 7, and stops before it. */
  lemma StopsBefore(targets: set<Target>, out: seq<Shown>)
    requires SEVEN in targets && Returned(SHORTER, targets, WIDE, 9, out)
    ensures Ids(out) == [6]
  {
    assert Blocks(SHORTER, targets, WIDE, 9, 7);
    forall id ensures id in Ids(out) <==> id in [6] { StoredRows(id); }
    SameAscending(5, Ids(out), [6]);
  }

  lemma GoesOn(out: seq<Shown>)
    requires Returned(SHORTER, Rebuilt(SHORTER), WIDE, 9, out)
    ensures Ids(out) == [6, 9]
  {
    assert SEVEN !in Rebuilt(SHORTER);
    forall id ensures id in Ids(out) <==> id in [6, 9] {
      StoredRows(id);
      assert forall b :: !Blocks(SHORTER, Rebuilt(SHORTER), WIDE, 9, b);
    }
    assert AscendingFrom(5, [6, 9]) by { assert [6, 9][1..] == [9]; }
    SameAscending(5, Ids(out), [6, 9]);
  }

  method Edited() returns (store: HistoryStore)
    ensures fresh(store) && store.Valid() && !store.failed && store.disk == Disk(map[], map[SEVEN := EDITED])
  {
    store := new HistoryStore();
    var status, left := store.ObserveEvent(Edit(SEVEN, 1, 20), None, 9);
  }

  /** Once log 7 was on a page, memory knows it for good. */
  method Overwritten() returns (store: HistoryStore)
    ensures fresh(store) && store.Valid() && !store.failed && store.disk == SHORTER && SEVEN in store.targets
  {
    store := Edited();
    SeesSeven();
    var status := store.Save(WIDE, [SEVEN_ROW], 9);
    assert SEVEN_ROW in store.disk.pages[WIDE] && SEVEN in Rebuilt(store.disk);
    SeesNine();
    status := store.Save(NARROW, [NINE], 9);
    SeesSix();
    status := store.Save(WIDE, [SIX], 9);
  }

  method Read(store: HistoryStore) returns (r: Answer)
    requires store.Valid() && !store.failed && store.disk == SHORTER
    ensures !r.StoreFailed? && Returned(SHORTER, store.targets, WIDE, 9, if r.Found? then r.out else [])
  {
    Covered(store.pages);
    r := store.Lookup(WIDE);
  }

  /** A live edit of log 7 without content, a page with log 7, a page with log 9,
      and the first page again with log 6 alone: the lookup returns log 6, and
      after a reopen of the same files logs 6 and 9. */
  method ReopenChangesTheAnswer() returns (before: Answer, after: Answer)
    ensures before.Found? && Ids(before.out) == [6]
    ensures after.Found? && Ids(after.out) == [6, 9]
  {
    var store := Overwritten();
    before := Read(store);
    StopsBefore(store.targets, if before.Found? then before.out else []);
    store.Reopen();
    after := Read(store);
    GoesOn(if after.Found? then after.out else []);
  }
}
