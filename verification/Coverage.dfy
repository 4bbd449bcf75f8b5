/** Interval coverage of acquired pages: the forward and backward fixpoints and
    the first missing interval (internal/client/history_store.go,
    coveredThroughLocked; internal/client/history_window.go, window). */
module Coverage {
  import opened Basics

  /** A page is named by its request: chat, exclusive start and inclusive end. */
  datatype Request = Request(chat: int, cur: int, max: int)

  /** Each page covers (cur, last]. */
  type Pages = map<Request, int>

  predicate Covers(pages: Pages, page: Request, chat: int, x: int)
    requires page in pages
  {
    page.chat == chat && page.cur < x <= pages[page]
  }

  ghost predicate CoveredAt(pages: Pages, chat: int, x: int) {
    exists page :: page in pages && Covers(pages, page, chat, x)
  }

  ghost predicate AllCovered(pages: Pages, chat: int, after: int, through: int) {
    forall x :: after < x <= through ==> CoveredAt(pages, chat, x)
  }

  /** The simple form: walk up one identity at a time while it is covered. */
  ghost function CoverEnd(pages: Pages, chat: int, cur: int, max: int): int
    decreases max - cur
  {
    if cur < max && CoveredAt(pages, chat, cur + 1) then CoverEnd(pages, chat, cur + 1, max) else cur
  }

  /** The simple form downwards. */
  ghost function SuffixStart(pages: Pages, chat: int, after: int, through: int): int
    decreases through - after
  {
    if after < through && CoveredAt(pages, chat, through) then SuffixStart(pages, chat, after, through - 1) else through
  }

  lemma {:induction false} CoverEndMeans(pages: Pages, chat: int, cur: int, max: int)
    ensures var end := CoverEnd(pages, chat, cur, max);
      && cur <= end && (end == cur || end <= max)
      && AllCovered(pages, chat, cur, end)
      && (end >= max || !CoveredAt(pages, chat, end + 1))
    decreases max - cur
  {
    if cur < max && CoveredAt(pages, chat, cur + 1) {
      CoverEndMeans(pages, chat, cur + 1, max);
    }
  }

  /** Sound, maximal and therefore unique: any end with these properties is the
      end, whatever order the pages were visited in. */
  lemma {:induction false} CoverEndIs(pages: Pages, chat: int, cur: int, max: int, end: int)
    requires cur <= end && (end == cur || end <= max) && AllCovered(pages, chat, cur, end)
    requires end >= max || !CoveredAt(pages, chat, end + 1)
    ensures end == CoverEnd(pages, chat, cur, max)
    decreases end - cur
  {
    if cur < end {
      assert CoveredAt(pages, chat, cur + 1);
      CoverEndIs(pages, chat, cur + 1, max, end);
    }
  }

  lemma {:induction false} CoverEndGreatest(pages: Pages, chat: int, cur: int, max: int, e: int)
    requires cur <= e <= max && AllCovered(pages, chat, cur, e)
    ensures e <= CoverEnd(pages, chat, cur, max)
    decreases e - cur
  {
    if cur < e {
      assert CoveredAt(pages, chat, cur + 1);
      CoverEndGreatest(pages, chat, cur + 1, max, e);
    } else {
      CoverEndMeans(pages, chat, cur, max);
    }
  }

  /** One pass: the farthest page connected to end, capped. */
  method Extend(pages: Pages, chat: int, end: int, max: int) returns (next: int)
    ensures next == end || (end < next <= max && AllCovered(pages, chat, end, next))
    ensures next == end && end < max ==> !CoveredAt(pages, chat, end + 1)
  {
    next := end;
    var left := pages.Keys;
    while left != {}
      invariant left <= pages.Keys
      invariant next == end || (end < next <= max && AllCovered(pages, chat, end, next))
      invariant next == end && end < max ==> forall page :: page in pages && page !in left ==>
        !Covers(pages, page, chat, end + 1)
      decreases left
    {
      var page := PickOne(left);
      left := left - {page};
      if page.chat == chat && page.cur <= end && pages[page] > end {
        assert forall x :: end < x <= pages[page] ==> Covers(pages, page, chat, x);
        next := Max(next, Min(pages[page], max));
      }
    }
  }

  /** The fixpoint reaches exactly the simple walk's end. */
  method CoveredThrough(pages: Pages, chat: int, cur: int, max: int) returns (end: int)
    ensures end == CoverEnd(pages, chat, cur, max)
  {
    end := cur;
    while true
      invariant cur <= end && (end == cur || end <= max) && AllCovered(pages, chat, cur, end)
      decreases max - end
    {
      var next := Extend(pages, chat, end, max);
      if next == end {
        break;
      }
      end := next;
    }
    CoverEndIs(pages, chat, cur, max, end);
  }

  // ---- Downwards ----

  lemma {:induction false} SuffixStartIs(pages: Pages, chat: int, after: int, through: int, start: int)
    requires start <= through && (start == through || start >= after) && AllCovered(pages, chat, start, through)
    requires start <= after || !CoveredAt(pages, chat, start)
    ensures start == SuffixStart(pages, chat, after, through)
    decreases through - start
  {
    if start < through {
      assert CoveredAt(pages, chat, through);
      SuffixStartIs(pages, chat, after, through - 1, start);
    }
  }

  lemma {:induction false} SuffixStartMeans(pages: Pages, chat: int, after: int, through: int)
    ensures var start := SuffixStart(pages, chat, after, through);
      && start <= through && (start == through || start >= after)
      && AllCovered(pages, chat, start, through)
      && (start <= after || !CoveredAt(pages, chat, start))
    decreases through - after
  {
    if after < through && CoveredAt(pages, chat, through) {
      SuffixStartMeans(pages, chat, after, through - 1);
    }
  }

  method Retreat(pages: Pages, chat: int, after: int, start: int) returns (next: int)
    ensures next == start || (after <= next < start && AllCovered(pages, chat, next, start))
    ensures next == start && after < start ==> !CoveredAt(pages, chat, start)
  {
    next := start;
    var left := pages.Keys;
    while left != {}
      invariant left <= pages.Keys
      invariant next == start || (after <= next < start && AllCovered(pages, chat, next, start))
      invariant next == start && after < start ==> forall page :: page in pages && page !in left ==>
        !Covers(pages, page, chat, start)
      decreases left
    {
      var page := PickOne(left);
      left := left - {page};
      if page.chat == chat && pages[page] >= start && page.cur < start {
        assert forall x :: page.cur < x <= start ==> Covers(pages, page, chat, x);
        next := Min(next, Max(after, page.cur));
      }
    }
  }

  method SuffixAfter(pages: Pages, chat: int, after: int, through: int) returns (start: int)
    ensures start == SuffixStart(pages, chat, after, through)
  {
    start := through;
    while true
      invariant start <= through && (start == through || start >= after) && AllCovered(pages, chat, start, through)
      decreases start - after
    {
      var next := Retreat(pages, chat, after, start);
      if next == start {
        break;
      }
      start := next;
    }
    SuffixStartIs(pages, chat, after, through, start);
  }

  /** Forward and backward coverage are dual: both say that the whole interval is
      covered. */
  lemma CoverageIsDual(pages: Pages, chat: int, after: int, through: int)
    ensures CoverEnd(pages, chat, after, through) >= through <==> AllCovered(pages, chat, after, through)
    ensures SuffixStart(pages, chat, after, through) <= after <==> AllCovered(pages, chat, after, through)
  {
    CoverEndMeans(pages, chat, after, through);
    SuffixStartMeans(pages, chat, after, through);
    if AllCovered(pages, chat, after, through) && after <= through {
      CoverEndGreatest(pages, chat, after, through, through);
    }
  }

  // ---- The first missing interval ----

  /** Saved pages hold at least one identity. */
  ghost predicate NonEmpty(pages: Pages) {
    forall page :: page in pages ==> page.cur < pages[page]
  }

  method MissingThrough(pages: Pages, chat: int, covered: int, through: int) returns (missing: int)
    ensures missing <= through
    ensures missing == through || exists page :: page in pages && page.chat == chat && page.cur == missing > covered
    ensures forall page :: page in pages && page.chat == chat && page.cur > covered ==> missing <= page.cur
  {
    missing := through;
    var left := pages.Keys;
    while left != {}
      invariant left <= pages.Keys && missing <= through
      invariant missing == through || exists page :: page in pages && page.chat == chat && page.cur == missing > covered
      invariant forall page :: page in pages && page !in left && page.chat == chat && page.cur > covered ==>
        missing <= page.cur
      decreases left
    {
      var page := PickOne(left);
      left := left - {page};
      if page.chat == chat && page.cur > covered {
        missing := Min(missing, page.cur);
      }
    }
  }

  /** When the interval is not complete, (covered, missing] is nonempty, inside
      it, disjoint from every page, and ends where coverage resumes: FetchMessages
      always has a legal interval to acquire. */
  lemma FirstGap(pages: Pages, chat: int, after: int, through: int, missing: int)
    requires NonEmpty(pages) && after < through
    requires var covered := CoverEnd(pages, chat, after, through);
      && covered < through && missing <= through
      && (missing == through || exists page :: page in pages && page.chat == chat && page.cur == missing > covered)
      && (forall page :: page in pages && page.chat == chat && page.cur > covered ==> missing <= page.cur)
    ensures after <= CoverEnd(pages, chat, after, through) < missing <= through
    ensures forall x :: CoverEnd(pages, chat, after, through) < x <= missing ==> !CoveredAt(pages, chat, x)
    ensures missing < through ==> CoveredAt(pages, chat, missing + 1)
  {
    var covered := CoverEnd(pages, chat, after, through);
    CoverEndMeans(pages, chat, after, through);
    forall x, page | covered < x <= missing && page in pages
      ensures !Covers(pages, page, chat, x)
    {
      assert !Covers(pages, page, chat, covered + 1);
    }
    if missing < through {
      var page :| page in pages && page.chat == chat && page.cur == missing > covered;
      assert Covers(pages, page, chat, missing + 1);
    }
  }

  // ---- Saving a page ----

  ghost predicate KeepsCoverage(before: Pages, after: Pages, chat: int) {
    forall x :: CoveredAt(before, chat, x) ==> CoveredAt(after, chat, x)
  }

  lemma {:induction false} CoverageGrows(before: Pages, after: Pages, chat: int, cur: int, max: int)
    requires KeepsCoverage(before, after, chat)
    ensures CoverEnd(before, chat, cur, max) <= CoverEnd(after, chat, cur, max)
    decreases max - cur
  {
    if cur < max && CoveredAt(before, chat, cur + 1) {
      CoverageGrows(before, after, chat, cur + 1, max);
    } else {
      CoverEndMeans(after, chat, cur, max);
    }
  }

  /** A page under a new name never shrinks coverage, and extends it when it
      connects. */
  lemma NewPageExtends(pages: Pages, page: Request, last: int, cur: int, max: int)
    requires page !in pages
    ensures var end, grown := CoverEnd(pages, page.chat, cur, max), CoverEnd(pages[page := last], page.chat, cur, max);
      && end <= grown
      && (page.cur <= end < last && end < max ==> grown >= Min(last, max))
  {
    var more := pages[page := last];
    var end := CoverEnd(pages, page.chat, cur, max);
    SaveKeeps(pages, page, last);
    CoverageGrows(pages, more, page.chat, cur, max);
    if page.cur <= end < last && end < max {
      CoverEndMeans(pages, page.chat, cur, max);
      forall x | cur < x <= Min(last, max)
        ensures CoveredAt(more, page.chat, x)
      {
        if x > end {
          assert Covers(more, page, page.chat, x);
        } else {
          assert CoveredAt(pages, page.chat, x);
        }
      }
      CoverEndGreatest(more, page.chat, cur, max, Min(last, max));
    }
  }

  lemma SaveKeeps(pages: Pages, page: Request, last: int)
    requires page !in pages
    ensures KeepsCoverage(pages, pages[page := last], page.chat)
  {
    var more := pages[page := last];
    forall x | CoveredAt(pages, page.chat, x)
      ensures CoveredAt(more, page.chat, x)
    {
      var p :| p in pages && Covers(pages, p, page.chat, x);
      assert p in more && Covers(more, p, page.chat, x);
    }
  }

  /** Every identity that replacing a page drops is covered by another page. */
  ghost predicate DropsNothing(before: Pages, after: Pages, page: Request)
    requires page in before && page in after
  {
    forall x :: after[page] < x <= before[page] && x > page.cur ==> CoveredAt(after, page.chat, x)
  }

  ghost predicate NeverShrinks(before: Pages, after: Pages, chat: int) {
    forall cur, max :: CoverEnd(before, chat, cur, max) <= CoverEnd(after, chat, cur, max)
  }

  lemma OverwriteKeeps(before: Pages, after: Pages, page: Request)
    requires page in before && page in after && after == before[page := after[page]]
    requires DropsNothing(before, after, page)
    ensures KeepsCoverage(before, after, page.chat)
  {
    forall x | CoveredAt(before, page.chat, x)
      ensures CoveredAt(after, page.chat, x)
    {
      var p :| p in before && Covers(before, p, page.chat, x);
      assert p in after;
      if p != page || x <= after[page] {
        assert Covers(after, p, page.chat, x);
      }
    }
  }

  /** Saving over an existing name may shrink coverage. It does not, for any
      interval, exactly when every identity it drops is covered by another
      page. */
  lemma OverwriteKeepsCoverageIff(before: Pages, after: Pages, page: Request)
    requires page in before && page in after && after == before[page := after[page]]
    ensures NeverShrinks(before, after, page.chat) <==> DropsNothing(before, after, page)
  {
    if DropsNothing(before, after, page) {
      OverwriteKeeps(before, after, page);
      forall cur, max
        ensures CoverEnd(before, page.chat, cur, max) <= CoverEnd(after, page.chat, cur, max)
      {
        CoverageGrows(before, after, page.chat, cur, max);
      }
    } else {
      var x :| after[page] < x <= before[page] && x > page.cur && !CoveredAt(after, page.chat, x);
      forall y | page.cur < y <= x
        ensures CoveredAt(before, page.chat, y)
      {
        assert Covers(before, page, page.chat, y);
      }
      CoverEndGreatest(before, page.chat, page.cur, x, x);
      CoverEndMeans(after, page.chat, page.cur, x);
      assert CoverEnd(after, page.chat, page.cur, x) < CoverEnd(before, page.chat, page.cur, x);
    }
  }

  lemma SinglePageEnd(page: Request, last: int, max: int)
    requires page.cur <= last <= max
    ensures CoverEnd(map[page := last], page.chat, page.cur, max) == last
  {
    var pages := map[page := last];
    forall x | page.cur < x <= last
      ensures CoveredAt(pages, page.chat, x)
    {
      assert Covers(pages, page, page.chat, x);
    }
    CoverEndIs(pages, page.chat, page.cur, max, last);
  }

  /** Coverage can shrink: a shorter page under the same name. */
  lemma OverwriteCanShrink()
    ensures var page := Request(1, 0, 10);
      CoverEnd(map[page := 9], 1, 0, 10) == 9 && CoverEnd(map[page := 9][page := 3], 1, 0, 10) == 3
  {
    var page := Request(1, 0, 10);
    SinglePageEnd(page, 9, 10);
    SinglePageEnd(page, 3, 10);
    assert map[page := 9][page := 3] == map[page := 3];
  }

  /** The page that FetchMessages acquires for a first gap is always a new name,
      so saving it moves coverage at least to the page's last identity. */
  lemma GapPageAdvances(pages: Pages, chat: int, after: int, through: int, missing: int, last: int)
    requires NonEmpty(pages) && after < through
    requires CoverEnd(pages, chat, after, through) < last <= missing <= through
    ensures var page := Request(chat, CoverEnd(pages, chat, after, through), missing);
      && page !in pages
      && CoverEnd(pages[page := last], chat, after, through) >= last
  {
    var covered := CoverEnd(pages, chat, after, through);
    var page := Request(chat, covered, missing);
    CoverEndMeans(pages, chat, after, through);
    NewPageExtends(pages, page, last, after, through);
  }
}
