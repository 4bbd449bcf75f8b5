/** Folding LOGINLIST/LCHATLIST pages into one cursor before installing it
    (internal/client/login_sync.go). */
module LoginSync {
  import opened Basics
  import opened Checkpoints

  /** One decoded page; commits is CommitsCursor, which gates the two tokens. */
  datatype Page = Page(commits: bool, token: Option<int>, block: Option<int>, deleted: seq<int>, chats: seq<Target>)

  /** The page on its own, as one installation. */
  function Alone(page: Page, replace: bool): (op: Op)
    ensures op.Install? && op.replace == replace
  {
    Install(if page.commits then page.token else None, if page.commits then page.block else None,
            page.chats, page.deleted, replace)
  }

  /** The simple form: install every page as it arrives; a full inventory
      replaces the old one at the first. */
  function PageByPage(v: View, pages: seq<Page>, replace: bool): View
    requires pages != []
    decreases |pages|
  {
    if |pages| == 1 then Meaning(Alone(pages[0], replace), v)
    else Meaning(Alone(pages[|pages| - 1], false), PageByPage(v, pages[..|pages| - 1], replace))
  }

  predicate Unique(targets: seq<Target>) {
    forall i, j :: 0 <= i < j < |targets| ==> targets[i].chat != targets[j].chat
  }

  function Latest<T>(old_: Option<T>, new_: Option<T>): Option<T> {
    if new_.Some? then new_ else old_
  }

  class Cursor {
    var token: Option<int>
    var block: Option<int>
    var observed: seq<Target>
    var deleted: seq<int>

    constructor ()
      ensures token == None && block == None && observed == [] && deleted == []
    {
      token, block, observed, deleted := None, None, [], [];
    }

    /** Deletions, then chat data, then the global cursors when the page
        commits them. */
    method Apply(page: Page)
      requires Unique(observed)
      modifies this
      ensures Unique(observed)
      ensures SetAll(map[], observed) == SetAll(SetAll(map[], old(observed)) - Elements(page.deleted), page.chats)
      ensures deleted == old(deleted) + page.deleted
      ensures token == Latest(old(token), Alone(page, false).token)
      ensures block == Latest(old(block), Alone(page, false).block)
      ensures forall t :: t in observed ==> t in old(observed) || t in page.chats
    {
      if page.commits {
        if page.token.Some? {
          token := page.token;
        }
        if page.block.Some? {
          block := page.block;
        }
      }
      ghost var start := SetAll(map[], observed);
      for i := 0 to |page.deleted|
        invariant Unique(observed)
        invariant forall t :: t in observed ==> t in old(observed)
        invariant deleted == old(deleted) + page.deleted[..i]
        invariant SetAll(map[], observed) == start - Elements(page.deleted[..i])
        invariant token == Latest(old(token), Alone(page, false).token)
        invariant block == Latest(old(block), Alone(page, false).block)
      {
        deleted := deleted + [page.deleted[i]];
        observed := RemoveTarget(observed, page.deleted[i]);
        ElementsStep(page.deleted, i);
      }
      assert page.deleted[..|page.deleted|] == page.deleted;
      ghost var kept := SetAll(map[], observed);
      for i := 0 to |page.chats|
        invariant Unique(observed)
        invariant forall t :: t in observed ==> t in old(observed) || t in page.chats
        invariant SetAll(map[], observed) == SetAll(kept, page.chats[..i])
        invariant deleted == old(deleted) + page.deleted
        invariant token == Latest(old(token), Alone(page, false).token)
        invariant block == Latest(old(block), Alone(page, false).block)
      {
        observed := SetLoginTarget(observed, page.chats[i]);
        assert page.chats[..i + 1][..i] == page.chats[..i];
      }
      assert page.chats[..|page.chats|] == page.chats;
    }
  }

  lemma ElementsStep(ids: seq<int>, i: nat)
    requires i < |ids|
    ensures Elements(ids[..i + 1]) == Elements(ids[..i]) + {ids[i]}
  {
    assert ids[..i + 1][i] == ids[i];
    forall c | c in Elements(ids[..i])
      ensures c in Elements(ids[..i + 1])
    {
      var k :| 0 <= k < |ids[..i]| && ids[..i][k] == c;
      assert ids[..i + 1][k] == c;
    }
  }

  /** Membership and value of a folded inventory, entry by entry. */
  lemma {:induction false} SetAllAt(m: map<int, int>, targets: seq<Target>, chat: int)
    requires Unique(targets)
    ensures chat in SetAll(m, targets) <==> chat in m || exists i :: 0 <= i < |targets| && targets[i].chat == chat
    ensures forall i :: 0 <= i < |targets| && targets[i].chat == chat ==> SetAll(m, targets)[chat] == targets[i].max
    ensures chat in m && (forall i :: 0 <= i < |targets| ==> targets[i].chat != chat) ==>
      SetAll(m, targets)[chat] == m[chat]
  {
    if targets != [] {
      var n := |targets| - 1;
      SetAllAt(m, targets[..n], chat);
      assert forall i :: 0 <= i < n ==> targets[..n][i] == targets[i];
    }
  }

  method RemoveTarget(observed: seq<Target>, chat: int) returns (r: seq<Target>)
    requires Unique(observed)
    ensures Unique(r)
    ensures SetAll(map[], r) == SetAll(map[], observed) - {chat}
    ensures forall t :: t in r ==> t in observed
  {
    r := observed;
    for i := 0 to |observed|
      invariant r == observed
      invariant forall k :: 0 <= k < i ==> observed[k].chat != chat
    {
      if observed[i].chat == chat {
        r := observed[..i] + observed[i + 1..];
        DropAt(observed, i);
        return;
      }
    }
    SetAllAt(map[], observed, chat);
  }

  lemma {:induction false} DropAt(observed: seq<Target>, i: nat)
    requires Unique(observed) && i < |observed|
    ensures Unique(observed[..i] + observed[i + 1..])
    ensures SetAll(map[], observed[..i] + observed[i + 1..]) == SetAll(map[], observed) - {observed[i].chat}
    decreases |observed|
  {
    var n := |observed| - 1;
    var r := observed[..i] + observed[i + 1..];
    if i == n {
      assert r == observed[..n];
      SetAllAt(map[], observed[..n], observed[i].chat);
    } else {
      DropAt(observed[..n], i);
      assert r[..|r| - 1] == observed[..n][..i] + observed[..n][i + 1..];
    }
  }

  method SetLoginTarget(observed: seq<Target>, target: Target) returns (r: seq<Target>)
    requires Unique(observed)
    ensures Unique(r)
    ensures SetAll(map[], r) == SetAll(map[], observed)[target.chat := target.max]
    ensures forall t :: t in r ==> t in observed || t == target
  {
    for i := 0 to |observed|
      invariant forall k :: 0 <= k < i ==> observed[k].chat != target.chat
    {
      if observed[i].chat == target.chat {
        r := observed[i := target];
        ReplaceAt(observed, i, target);
        return;
      }
    }
    r := observed + [target];
    assert r[..|r| - 1] == observed;
  }

  lemma ReplaceAt(observed: seq<Target>, i: nat, target: Target)
    requires Unique(observed) && i < |observed| && observed[i].chat == target.chat
    ensures Unique(observed[i := target])
    ensures SetAll(map[], observed[i := target]) == SetAll(map[], observed)[target.chat := target.max]
  {
    var r := observed[i := target];
    assert forall k :: 0 <= k < |r| ==> r[k] == if k == i then target else observed[k];
    var a, b := SetAll(map[], r), SetAll(map[], observed)[target.chat := target.max];
    forall c
      ensures (c in a <==> c in b) && (c in a ==> a[c] == b[c])
    {
      SetAllAt(map[], r, c);
      SetAllAt(map[], observed, c);
      assert r[i].chat == target.chat;
      if k :| 0 <= k < |observed| && observed[k].chat == c {
        assert r[k].chat == c;
      }
    }
  }

  /** An inventory is laid over the previous one as a whole. */
  lemma {:induction false} SetAllOver(m: map<int, int>, targets: seq<Target>)
    ensures SetAll(m, targets) == m + SetAll(map[], targets)
  {
    if targets != [] {
      SetAllOver(m, targets[..|targets| - 1]);
    }
  }

  lemma ElementsConcat(a: seq<int>, b: seq<int>)
    ensures Elements(a + b) == Elements(a) + Elements(b)
  {
    forall c | c in Elements(a) + Elements(b)
      ensures c in Elements(a + b)
    {
      if c in Elements(a) {
        var i :| 0 <= i < |a| && a[i] == c;
        assert (a + b)[i] == c;
      } else {
        var i :| 0 <= i < |b| && b[i] == c;
        assert (a + b)[|a| + i] == c;
      }
    }
  }

  /** Two installations in a row are one installation of the merged cursor. */
  lemma InstallTwice(v: View, first: Op, second: Op, merged: Op)
    requires first.Install? && second.Install? && merged.Install? && !second.replace
    requires merged.replace == first.replace && merged.deleted == first.deleted + second.deleted
    requires merged.token == Latest(first.token, second.token) && merged.block == Latest(first.block, second.block)
    requires SetAll(map[], merged.observed) ==
      SetAll(SetAll(map[], first.observed) - Elements(second.deleted), second.observed)
    ensures Meaning(merged, v) == Meaning(second, Meaning(first, v))
  {
    var a, b := Elements(first.deleted), Elements(second.deleted);
    ElementsConcat(first.deleted, second.deleted);
    var base := if first.replace then map[] else v.known;
    var one, two := SetAll(map[], first.observed), SetAll(map[], second.observed);
    var chats := v.chats - a;
    SetAllOver(base - a, first.observed);
    SetAllOver(base - (a + b), merged.observed);
    SetAllOver(one - b, second.observed);
    var known := RaisedAll((base - a) + one, chats);
    SetAllOver(known - b, second.observed);
    InventoryMerge(base, one, two, v.chats, a, b);
    MinusTwice(v.chats, a, b);
    MinusTwice(v.gaps, a, b);
    MinusTwice(v.watermarks, a, b);
    MinusTwice(v.starts, a, b);
  }

  lemma InventoryMerge(base: map<int, int>, one: map<int, int>, two: map<int, int>, chats: map<int, int>, a: set<int>,
                       b: set<int>)
    ensures RaisedAll((base - (a + b)) + ((one - b) + two), chats - (a + b)) ==
            RaisedAll((RaisedAll((base - a) + one, chats - a) - b) + two, chats - a - b)
  {
    var left := RaisedAll((base - (a + b)) + ((one - b) + two), chats - (a + b));
    var inner := RaisedAll((base - a) + one, chats - a);
    var right := RaisedAll((inner - b) + two, chats - a - b);
    forall c
      ensures (c in left <==> c in right) && (c in left ==> left[c] == right[c])
    {
      if c in b {
      } else if c in two {
      } else if c in a {
      }
    }
  }

  /** One installation of op means the same as installing page by page, and is
      accepted when every page on its own is. */
  ghost predicate Folds(op: Op, pages: seq<Page>, replace: bool)
    requires pages != []
  {
    && op.Install? && op.replace == replace
    && (forall v: View :: Meaning(op, v) == PageByPage(v, pages, replace))
    && ((forall i :: 0 <= i < |pages| ==> Legal(Alone(pages[i], replace))) ==> Legal(op))
  }

  // ---- What is folded, page by page ----

  /** The chat's target is last observed on a page, and no later page deletes or
      observes it. */
  ghost predicate Kept(pages: seq<Page>, chat: int, max: int) {
    exists i :: 0 <= i < |pages| && KeptFrom(pages, i, chat, max)
  }

  ghost predicate KeptFrom(pages: seq<Page>, i: nat, chat: int, max: int)
    requires i < |pages|
  {
    LastObserved(pages[i].chats, chat, max) && forall j :: i < j < |pages| ==> Leaves(pages[j], chat)
  }

  /** The page says nothing of the chat. */
  ghost predicate Leaves(page: Page, chat: int) { chat !in page.deleted && !Mentions(page.chats, chat) }

  /** The last token of a page that commits its cursor, if there is one. */
  ghost predicate LastToken(pages: seq<Page>, token: Option<int>) {
    if token.None? then forall i :: 0 <= i < |pages| ==> !(pages[i].commits && pages[i].token.Some?)
    else
      exists i :: 0 <= i < |pages| && pages[i].commits && pages[i].token == token &&
        forall j :: i < j < |pages| ==> !(pages[j].commits && pages[j].token.Some?)
  }

  ghost predicate LastBlock(pages: seq<Page>, block: Option<int>) {
    if block.None? then forall i :: 0 <= i < |pages| ==> !(pages[i].commits && pages[i].block.Some?)
    else
      exists i :: 0 <= i < |pages| && pages[i].commits && pages[i].block == block &&
        forall j :: i < j < |pages| ==> !(pages[j].commits && pages[j].block.Some?)
  }

  /** The cursor holds exactly that of the pages. */
  ghost predicate Holds(op: Op, pages: seq<Page>)
    requires op.Install?
  {
    && LastToken(pages, op.token) && LastBlock(pages, op.block)
    && (forall chat :: chat in op.deleted <==> exists i :: 0 <= i < |pages| && chat in pages[i].deleted)
    && (forall chat, max :: Target(chat, max) in op.observed <==> Kept(pages, chat, max))
  }

  lemma NoPages(op: Op)
    requires op.Install? && op.token.None? && op.block.None? && op.observed == [] && op.deleted == []
    ensures Holds(op, [])
  {
  }

  lemma HoldsStep(pages: seq<Page>, page: Page, before: Op, op: Op)
    requires before.Install? && op.Install? && Holds(before, pages) && Unique(before.observed) && Unique(op.observed)
    requires op.token == (if page.commits && page.token.Some? then page.token else before.token)
    requires op.block == (if page.commits && page.block.Some? then page.block else before.block)
    requires op.deleted == before.deleted + page.deleted
    requires SetAll(map[], op.observed) ==
      SetAll(SetAll(map[], before.observed) - Elements(page.deleted), page.chats)
    ensures Holds(op, pages + [page])
  {
    TokensStep(pages, page, before, op);
    forall chat
      ensures chat in op.deleted <==> exists i :: 0 <= i < |pages + [page]| && chat in (pages + [page])[i].deleted
    {
      DeletedStep(pages, page, before.deleted, chat);
    }
    forall chat, max
      ensures Target(chat, max) in op.observed <==> Kept(pages + [page], chat, max)
    {
      KeptStep(pages, page, chat, max);
      ObservedStep(before.observed, op.observed, page, chat, max);
    }
  }

  lemma TokensStep(pages: seq<Page>, page: Page, before: Op, op: Op)
    requires before.Install? && op.Install? && LastToken(pages, before.token) && LastBlock(pages, before.block)
    requires op.token == (if page.commits && page.token.Some? then page.token else before.token)
    requires op.block == (if page.commits && page.block.Some? then page.block else before.block)
    ensures LastToken(pages + [page], op.token) && LastBlock(pages + [page], op.block)
  {
    var all := pages + [page];
    assert all[|pages|] == page && forall i :: 0 <= i < |pages| ==> all[i] == pages[i];
  }

  lemma DeletedStep(pages: seq<Page>, page: Page, deleted: seq<int>, chat: int)
    requires chat in deleted <==> exists i :: 0 <= i < |pages| && chat in pages[i].deleted
    ensures chat in deleted + page.deleted <==>
      exists i :: 0 <= i < |pages + [page]| && chat in (pages + [page])[i].deleted
  {
    var all := pages + [page];
    assert all[|pages|] == page && forall i :: 0 <= i < |pages| ==> all[i] == pages[i];
  }

  lemma KeptStep(pages: seq<Page>, page: Page, chat: int, max: int)
    ensures Kept(pages + [page], chat, max) <==>
      LastObserved(page.chats, chat, max) || (Kept(pages, chat, max) && Leaves(page, chat))
  {
    var all, n := pages + [page], |pages|;
    assert all[n] == page && forall i :: 0 <= i < n ==> all[i] == pages[i];
    if LastObserved(page.chats, chat, max) { assert KeptFrom(all, n, chat, max); }
    if Kept(pages, chat, max) && Leaves(page, chat) {
      var i :| 0 <= i < n && KeptFrom(pages, i, chat, max);
      assert KeptFrom(all, i, chat, max);
    }
    if Kept(all, chat, max) {
      var i :| 0 <= i < |all| && KeptFrom(all, i, chat, max);
      if i < n { assert KeptFrom(pages, i, chat, max) && Leaves(all[n], chat); }
    }
  }

  lemma ObservedStep(before: seq<Target>, after: seq<Target>, page: Page, chat: int, max: int)
    requires Unique(before) && Unique(after)
    requires SetAll(map[], after) == SetAll(SetAll(map[], before) - Elements(page.deleted), page.chats)
    ensures Target(chat, max) in after <==>
      LastObserved(page.chats, chat, max) || (Target(chat, max) in before && Leaves(page, chat))
  {
    var kept := SetAll(map[], before) - Elements(page.deleted);
    ElementsAre(page.deleted, chat);
    EntryOf(before, chat, max);
    EntryOf(after, chat, max);
    ObservedAt(kept, page.chats, chat);
    if Mentions(page.chats, chat) {
      var last := SomeIsLast(page.chats, chat);
    }
  }

  lemma EntryOf(observed: seq<Target>, chat: int, max: int)
    requires Unique(observed)
    ensures Target(chat, max) in observed <==>
      chat in SetAll(map[], observed) && SetAll(map[], observed)[chat] == max
  {
    SetAllAt(map[], observed, chat);
    if chat in SetAll(map[], observed) {
      var i :| 0 <= i < |observed| && observed[i].chat == chat;
      assert observed[i] in observed;
    }
  }

  /** Folding every page into one cursor and installing it once gives the same
      checkpoint as installing page by page: for every page sequence, with
      deletions, re-additions and a full-inventory replacement at the start. */
  method FoldPages(pages: seq<Page>, replace: bool) returns (op: Op)
    requires pages != []
    ensures Folds(op, pages, replace) && Holds(op, pages)
  {
    var cursor := new Cursor();
    ghost var empty := Install(None, None, [], [], replace);
    NoPages(empty);
    cursor.Apply(pages[0]);
    op := Install(cursor.token, cursor.block, cursor.observed, cursor.deleted, replace);
    assert SetAll(map[], []) - Elements(pages[0].deleted) == map[];
    HoldsStep([], pages[0], empty, op);
    assert [] + [pages[0]] == [pages[0]];
    FirstPage(pages[0], op, replace);
    assert pages[..1] == [pages[0]];
    for i := 1 to |pages|
      invariant Unique(cursor.observed)
      invariant op == Install(cursor.token, cursor.block, cursor.observed, cursor.deleted, replace)
      invariant Folds(op, pages[..i], replace) && Holds(op, pages[..i])
    {
      ghost var before := op;
      cursor.Apply(pages[i]);
      op := Install(cursor.token, cursor.block, cursor.observed, cursor.deleted, replace);
      NextPage(pages[..i], pages[i], before, op, replace);
      HoldsStep(pages[..i], pages[i], before, op);
      Prefix(pages, i);
    }
    assert pages[..|pages|] == pages;
  }

  lemma NextPage(pages: seq<Page>, page: Page, before: Op, op: Op, replace: bool)
    requires pages != [] && Folds(before, pages, replace) && op.Install? && op.replace == replace
    requires var second := Alone(page, false);
      && op.deleted == before.deleted + second.deleted
      && op.token == Latest(before.token, second.token) && op.block == Latest(before.block, second.block)
      && (forall t :: t in op.observed ==> t in before.observed || t in second.observed)
      && SetAll(map[], op.observed) ==
         SetAll(SetAll(map[], before.observed) - Elements(second.deleted), second.observed)
    ensures Folds(op, pages + [page], replace)
  {
    var all, second := pages + [page], Alone(page, false);
    assert all[..|all| - 1] == pages;
    forall v: View
      ensures Meaning(op, v) == PageByPage(v, all, replace)
    {
      InstallTwice(v, before, second, op);
    }
    if forall i :: 0 <= i < |all| ==> Legal(Alone(all[i], replace)) {
      assert Legal(Alone(all[|pages|], replace));
      assert forall i :: 0 <= i < |pages| ==> all[i] == pages[i];
      MergedLegal(before, second, op);
    }
  }

  lemma MergedLegal(first: Op, second: Op, merged: Op)
    requires first.Install? && second.Install? && merged.Install? && Legal(first) && Legal(second)
    requires merged.deleted == first.deleted + second.deleted
    requires merged.token == Latest(first.token, second.token) && merged.block == Latest(first.block, second.block)
    requires forall t :: t in merged.observed ==> t in first.observed || t in second.observed
    ensures Legal(merged)
  {
    forall i | 0 <= i < |merged.observed|
      ensures merged.observed[i].chat > 0 && merged.observed[i].max >= 0
    {
      assert merged.observed[i] in merged.observed;
    }
  }

  lemma FirstPage(page: Page, op: Op, replace: bool)
    requires op.Install?
    requires op == Install(Alone(page, replace).token, Alone(page, replace).block, op.observed, page.deleted, replace)
    requires SetAll(map[], op.observed) == SetAll(map[], page.chats)
    requires forall t :: t in op.observed ==> t in page.chats
    ensures Folds(op, [page], replace)
  {
    forall v: View
      ensures Meaning(op, v) == Meaning(Alone(page, replace), v)
    {
      var kept := (if replace then map[] else v.known) - Elements(page.deleted);
      SetAllOver(kept, op.observed);
      SetAllOver(kept, page.chats);
    }
    if Legal(Alone([page][0], replace)) {
      MergedLegal(Install(None, None, [], [], replace), Alone(page, replace), op);
    }
  }
}
