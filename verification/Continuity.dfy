/** Sorting a set of identities, as slices.Sort does over a map's keys. */
module IdSets {
  import opened Basics

  method Least(ids: set<int>) returns (low: int)
    requires ids != {}
    ensures low in ids && forall id :: id in ids ==> low <= id
  {
    low := PickOne(ids);
    var rest := ids - {low};
    while rest != {}
      invariant low in ids && rest <= ids
      invariant forall id :: id in ids && id !in rest ==> low <= id
      decreases rest
    {
      var id := PickOne(rest);
      if id < low {
        low := id;
      }
      rest := rest - {id};
    }
  }

  method SortedIds(ids: set<int>) returns (sorted: seq<int>)
    ensures forall id :: id in sorted <==> id in ids
    ensures forall i, j :: 0 <= i < j < |sorted| ==> sorted[i] < sorted[j]
  {
    sorted := [];
    var left := ids;
    while left != {}
      invariant forall id :: id in ids <==> id in left || id in sorted
      invariant forall i, id :: 0 <= i < |sorted| && id in left ==> sorted[i] < id
      invariant forall i, j :: 0 <= i < j < |sorted| ==> sorted[i] < sorted[j]
      decreases left
    {
      var low := Least(left);
      left := left - {low};
      sorted := sorted + [low];
    }
  }

  /** Every finite set of identities can be listed in ascending order. */
  lemma {:induction false} Sorted(ids: set<int>) returns (sorted: seq<int>)
    ensures forall id :: id in sorted <==> id in ids
    ensures forall i, j :: 0 <= i < j < |sorted| ==> sorted[i] < sorted[j]
    decreases |ids|
  {
    sorted := [];
    if ids != {} {
      var top := Greatest(ids);
      var rest := Sorted(ids - {top});
      sorted := rest + [top];
      forall id ensures id in sorted <==> id in ids {
        if id in rest { assert id in ids - {top}; }
        if id in ids && id != top { assert id in ids - {top}; }
      }
      forall i, j | 0 <= i < j < |sorted| ensures sorted[i] < sorted[j] {
        assert sorted[i] in rest && sorted[i] in ids - {top};
      }
    }
  }

  lemma {:induction false} Greatest(ids: set<int>) returns (top: int)
    requires ids != {}
    ensures top in ids && forall id :: id in ids ==> id <= top
    decreases |ids|
  {
    var some := Any(ids);
    var rest := ids - {some};
    top := some;
    if rest != {} {
      var other := Greatest(rest);
      top := Max(some, other);
    }
    forall id | id in ids ensures id <= top {
      if id != some { assert id in rest; }
    }
  }

  predicate AscendingFrom(lo: int, ids: seq<int>)
    decreases ids
  {
    ids == [] || (lo < ids[0] && AscendingFrom(ids[0], ids[1..]))
  }

  lemma {:induction false} SortedAscends(lo: int, ids: seq<int>)
    requires forall i, j :: 0 <= i < j < |ids| ==> ids[i] < ids[j]
    requires forall i :: 0 <= i < |ids| ==> lo < ids[i]
    ensures AscendingFrom(lo, ids)
    decreases ids
  {
    if ids != [] {
      SortedAscends(ids[0], ids[1..]);
    }
  }

  lemma {:induction false} AscendingPrefix(lo: int, ids: seq<int>, n: nat)
    requires AscendingFrom(lo, ids) && n <= |ids|
    ensures AscendingFrom(lo, ids[..n])
    decreases ids
  {
    if n > 0 {
      AscendingPrefix(ids[0], ids[1..], n - 1);
      assert ids[..n][1..] == ids[1..][..n - 1];
    }
  }
}

/** Slices kept strictly sorted by chat ID, and the finite maps they stand for
    (internal/continuity/continuity.go, the chatKeyed helpers). */
module SortedChats {
  import opened Basics

  datatype Entry<V> = Entry(chat: int, value: V)

  /** Every chat ID is positive and above its predecessor's. */
  predicate SortedFrom<V>(previous: int, items: seq<Entry<V>>)
    decreases items
  {
    items == [] || (previous < items[0].chat && SortedFrom(items[0].chat, items[1..]))
  }

  predicate Sorted<V>(items: seq<Entry<V>>) {
    SortedFrom(0, items)
  }

  /** The position sort.Search yields: the first entry at or above chat. */
  function SearchChat<V>(items: seq<Entry<V>>, chat: int): (index: nat)
    ensures index <= |items|
    ensures forall i :: 0 <= i < index ==> items[i].chat < chat
    ensures index < |items| ==> items[index].chat >= chat
  {
    if items == [] || items[0].chat >= chat then 0
    else 1 + SearchChat(items[1..], chat)
  }

  /** sort.Search over a sorted slice: the halving loop ends at that position. */
  method BinarySearch<V>(items: seq<Entry<V>>, chat: int) returns (index: nat)
    requires SortedFrom(0, items)
    ensures index == SearchChat(items, chat)
  {
    var i, j := 0, |items|;
    while i < j
      invariant 0 <= i <= j <= |items|
      invariant i <= SearchChat(items, chat) <= j
      decreases j - i
    {
      var half := (i + j) / 2;
      SearchAgainst(0, items, chat, half);
      if items[half].chat < chat {
        i := half + 1;
      } else {
        j := half;
      }
    }
    index := i;
  }

  /** The position lies beyond an entry exactly when that entry is below chat. */
  lemma {:induction false} SearchAgainst<V>(previous: int, items: seq<Entry<V>>, chat: int, k: nat)
    requires SortedFrom(previous, items) && k < |items|
    ensures items[k].chat < chat <==> k < SearchChat(items, chat)
    decreases items
  {
    if k > 0 {
      SearchAgainst(items[0].chat, items[1..], chat, k - 1);
      RisesTo(items[0].chat, items[1..], k - 1);
    }
  }

  lemma {:induction false} RisesTo<V>(previous: int, items: seq<Entry<V>>, k: nat)
    requires SortedFrom(previous, items) && k < |items|
    ensures previous < items[k].chat
    decreases items
  {
    if k > 0 { RisesTo(items[0].chat, items[1..], k - 1); }
  }

  predicate Found<V>(items: seq<Entry<V>>, chat: int) {
    var index := SearchChat(items, chat);
    index < |items| && items[index].chat == chat
  }

  function Lookup<V>(items: seq<Entry<V>>, chat: int): V
    requires Found(items, chat)
  {
    items[SearchChat(items, chat)].value
  }

  function Upsert<V>(items: seq<Entry<V>>, chat: int, absent: V, merge: V -> V): seq<Entry<V>> {
    var index := SearchChat(items, chat);
    if Found(items, chat) then items[index := Entry(chat, merge(items[index].value))]
    else items[..index] + [Entry(chat, absent)] + items[index..]
  }

  function Remove<V>(items: seq<Entry<V>>, chat: int): seq<Entry<V>> {
    var index := SearchChat(items, chat);
    if Found(items, chat) then items[..index] + items[index + 1..] else items
  }

  /** The finite map a sorted slice stands for. */
  function ToMap<V>(items: seq<Entry<V>>): map<int, V> {
    if items == [] then map[] else ToMap(items[1..])[items[0].chat := items[0].value]
  }

  lemma {:induction false} KeysAbove<V>(previous: int, items: seq<Entry<V>>, chat: int)
    requires SortedFrom(previous, items) && chat in ToMap(items)
    ensures chat > previous
    decreases items
  {
    if chat != items[0].chat {
      KeysAbove(items[0].chat, items[1..], chat);
    }
  }

  /** The binary search reads the map. */
  lemma {:induction false} LookupRefines<V>(previous: int, items: seq<Entry<V>>, chat: int)
    requires SortedFrom(previous, items)
    ensures Found(items, chat) <==> chat in ToMap(items)
    ensures Found(items, chat) ==> Lookup(items, chat) == ToMap(items)[chat]
    decreases items
  {
    if items != [] {
      if items[0].chat < chat {
        LookupRefines(items[0].chat, items[1..], chat);
      } else if items[0].chat > chat && chat in ToMap(items) {
        KeysAbove(items[0].chat, items[1..], chat);
      }
    }
  }

  lemma SortedCons<V>(previous: int, x: Entry<V>, rest: seq<Entry<V>>)
    ensures SortedFrom(previous, [x] + rest) <==> x.chat > previous && SortedFrom(x.chat, rest)
    ensures ToMap([x] + rest) == ToMap(rest)[x.chat := x.value]
  {
    Cons(x, rest);
  }

  lemma SortedHigher<V>(previous: int, next: int, items: seq<Entry<V>>)
    requires SortedFrom(previous, items) && (items != [] ==> items[0].chat > next)
    ensures SortedFrom(next, items)
  {
  }

  /** The insertion one entry at a time. */
  function Insert<V>(items: seq<Entry<V>>, chat: int, absent: V, merge: V -> V): seq<Entry<V>> {
    if items == [] || chat < items[0].chat then [Entry(chat, absent)] + items
    else if items[0].chat < chat then [items[0]] + Insert(items[1..], chat, absent, merge)
    else [Entry(chat, merge(items[0].value))] + items[1..]
  }

  lemma {:induction false} UpsertIsInsert<V>(items: seq<Entry<V>>, chat: int, absent: V, merge: V -> V)
    ensures Upsert(items, chat, absent, merge) == Insert(items, chat, absent, merge)
    decreases items
  {
    if items != [] && items[0].chat < chat {
      UpsertStep(items, chat, absent, merge);
      UpsertIsInsert(items[1..], chat, absent, merge);
    } else if items != [] && items[0].chat == chat {
      assert items[0 := Entry(chat, merge(items[0].value))] == [Entry(chat, merge(items[0].value))] + items[1..];
    } else {
      assert items[..0] + [Entry(chat, absent)] + items[0..] == [Entry(chat, absent)] + items;
    }
  }

  lemma UpsertStep<V>(items: seq<Entry<V>>, chat: int, absent: V, merge: V -> V)
    requires items != [] && items[0].chat < chat
    ensures Upsert(items, chat, absent, merge) == [items[0]] + Upsert(items[1..], chat, absent, merge)
  {
    var first, rest := items[0], items[1..];
    var index := SearchChat(rest, chat);
    assert items == [first] + rest && SearchChat(items, chat) == index + 1;
    if Found(items, chat) {
      ReplaceAfterFirst(first, rest, index, Entry(chat, merge(rest[index].value)));
    } else {
      InsertAfterFirst(first, rest, index, Entry(chat, absent));
    }
  }

  lemma ReplaceAfterFirst<V>(first: Entry<V>, rest: seq<Entry<V>>, index: nat, entry: Entry<V>)
    requires index < |rest|
    ensures ([first] + rest)[index + 1 := entry] == [first] + rest[index := entry]
  {
  }

  lemma InsertAfterFirst<V>(first: Entry<V>, rest: seq<Entry<V>>, index: nat, entry: Entry<V>)
    requires index <= |rest|
    ensures var items := [first] + rest;
            items[..index + 1] + [entry] + items[index + 1..] == [first] + (rest[..index] + [entry] + rest[index..])
  {
    var items := [first] + rest;
    assert items[..index + 1] == [first] + rest[..index] && items[index + 1..] == rest[index..];
  }

  lemma {:induction false} InsertRefines<V>(previous: int, items: seq<Entry<V>>, chat: int, absent: V, merge: V -> V)
    requires SortedFrom(previous, items) && previous < chat
    ensures SortedFrom(previous, Insert(items, chat, absent, merge))
    ensures ToMap(Insert(items, chat, absent, merge)) ==
            ToMap(items)[chat := if chat in ToMap(items) then merge(ToMap(items)[chat]) else absent]
    decreases items
  {
    if items == [] || chat < items[0].chat {
      SortedHigher(previous, chat, items);
      SortedCons(previous, Entry(chat, absent), items);
      if chat in ToMap(items) { KeysAbove(chat, items, chat); }
    } else if items[0].chat < chat {
      InsertRefines(items[0].chat, items[1..], chat, absent, merge);
      SortedCons(previous, items[0], Insert(items[1..], chat, absent, merge));
    } else {
      SortedCons(previous, Entry(chat, merge(items[0].value)), items[1..]);
    }
  }

  lemma UpsertRefines<V>(previous: int, items: seq<Entry<V>>, chat: int, absent: V, merge: V -> V)
    requires SortedFrom(previous, items) && previous < chat
    ensures SortedFrom(previous, Upsert(items, chat, absent, merge))
    ensures ToMap(Upsert(items, chat, absent, merge)) ==
            ToMap(items)[chat := if chat in ToMap(items) then merge(ToMap(items)[chat]) else absent]
  {
    UpsertIsInsert(items, chat, absent, merge);
    InsertRefines(previous, items, chat, absent, merge);
  }

  /** The removal one entry at a time. */
  function Drop<V>(items: seq<Entry<V>>, chat: int): seq<Entry<V>> {
    if items == [] || chat < items[0].chat then items
    else if items[0].chat < chat then [items[0]] + Drop(items[1..], chat)
    else items[1..]
  }

  lemma {:induction false} RemoveIsDrop<V>(items: seq<Entry<V>>, chat: int)
    ensures Remove(items, chat) == Drop(items, chat)
    decreases items
  {
    if items != [] && items[0].chat < chat {
      RemoveStep(items, chat);
      RemoveIsDrop(items[1..], chat);
    } else if items != [] && items[0].chat == chat {
      assert items[..0] + items[1..] == items[1..];
    }
  }

  lemma RemoveStep<V>(items: seq<Entry<V>>, chat: int)
    requires items != [] && items[0].chat < chat
    ensures Remove(items, chat) == [items[0]] + Remove(items[1..], chat)
  {
    var first, rest := items[0], items[1..];
    var index := SearchChat(rest, chat);
    assert items == [first] + rest && SearchChat(items, chat) == index + 1;
    if Found(items, chat) {
      RemoveAfterFirst(first, rest, index);
    }
  }

  lemma RemoveAfterFirst<V>(first: Entry<V>, rest: seq<Entry<V>>, index: nat)
    requires index < |rest|
    ensures var items := [first] + rest;
            items[..index + 1] + items[index + 2..] == [first] + (rest[..index] + rest[index + 1..])
  {
    var items := [first] + rest;
    assert items[..index + 1] == [first] + rest[..index] && items[index + 2..] == rest[index + 1..];
  }

  lemma {:induction false} DropRefines<V>(previous: int, items: seq<Entry<V>>, chat: int)
    requires SortedFrom(previous, items)
    ensures SortedFrom(previous, Drop(items, chat))
    ensures ToMap(Drop(items, chat)) == ToMap(items) - {chat}
    decreases items
  {
    if items == [] || chat < items[0].chat {
      SortedHigher(previous, if items == [] then previous else chat, items);
      if chat in ToMap(items) { KeysAbove(chat, items, chat); }
    } else if items[0].chat < chat {
      DropRefines(items[0].chat, items[1..], chat);
      SortedCons(previous, items[0], Drop(items[1..], chat));
    } else {
      if chat in ToMap(items[1..]) { KeysAbove(chat, items[1..], chat); }
      SortedHigher(items[0].chat, previous, items[1..]);
    }
  }

  lemma RemoveRefines<V>(previous: int, items: seq<Entry<V>>, chat: int)
    requires SortedFrom(previous, items)
    ensures SortedFrom(previous, Remove(items, chat))
    ensures ToMap(Remove(items, chat)) == ToMap(items) - {chat}
  {
    RemoveIsDrop(items, chat);
    DropRefines(previous, items, chat);
  }
}
