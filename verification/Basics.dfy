/** What the other modules share: values that may be absent (the source's nil
    values and "not found" results), and small facts about collections. */
module Basics {
  datatype Option<+T> = None | Some(value: T)

  /** What a durable write did: it may fail with or without having replaced the
      stored value. */
  datatype Write = Written | Lost | WrittenButFailed

  function Max(a: int, b: int): int { if a < b then b else a }

  function Min(a: int, b: int): int { if a < b then a else b }

  lemma Inhabited<T>(s: set<T>)
    ensures s == {} || exists x :: x in s
  {
    if forall x :: x !in s {
      assert s == {};
    }
  }

  /** Some element, as a range over a map yields one. */
  method PickOne<T>(s: set<T>) returns (x: T)
    requires s != {}
    ensures x in s
  {
    Inhabited(s);
    x :| x in s;
  }

  ghost function Any<T>(s: set<T>): (x: T)
    requires s != {}
    ensures x in s
  {
    Inhabited(s);
    var x :| x in s;
    x
  }

  /** A finite set in some order. */
  lemma {:induction false} Listed<T>(s: set<T>) returns (list: seq<T>)
    ensures forall x :: x in list <==> x in s
    ensures forall i, j :: 0 <= i < j < |list| ==> list[i] != list[j]
    decreases |s|
  {
    list := [];
    if s != {} {
      var x := Any(s);
      var rest := Listed(s - {x});
      list := rest + [x];
      forall y ensures y in list <==> y in s {
        if y in rest { assert y in s - {x}; }
        if y in s && y != x { assert y in s - {x}; }
      }
      forall i, j | 0 <= i < j < |list| ensures list[i] != list[j] {
        assert list[i] in rest;
      }
    }
  }

  lemma Associates<T>(a: seq<T>, b: seq<T>, c: seq<T>)
    ensures a + (b + c) == a + b + c
  {
  }

  lemma Cons<T>(x: T, s: seq<T>)
    ensures ([x] + s)[0] == x && ([x] + s)[1..] == s
  {
  }

  lemma Snoc<T>(s: seq<T>, x: T)
    ensures (s + [x])[..|s|] == s && (s + [x])[|s|] == x
  {
  }

  lemma Prefix<T>(s: seq<T>, i: nat)
    requires i < |s|
    ensures s[..i + 1] == s[..i] + [s[i]]
  {
  }

  lemma MinusTwice<K, V>(m: map<K, V>, a: set<K>, b: set<K>)
    ensures m - a - b == m - (a + b)
  {
  }

  /** A sequence from its i-th element on. */
  lemma Suffix<T>(s: seq<T>, i: nat)
    requires i < |s|
    ensures s[i..][0] == s[i] && s[i..][1..] == s[i + 1..]
  {
  }

  /** The first element leaves the first part. */
  lemma ConcatTail<T>(a: seq<T>, b: seq<T>)
    requires a != []
    ensures (a + b)[0] == a[0] && (a + b)[1..] == a[1..] + b
  {
  }

  lemma ConcatAt<T>(a: seq<T>, b: seq<T>, k: nat)
    requires k < |b|
    ensures (a + b)[|a| + k] == b[k]
  {
  }
}
