/**
 * The `.sort({ createdAt: -1 })` of the queries: a result list ordered by a
 * timestamp key, largest (newest) first, holding exactly the matched records.
 */
module Sorting {

  ghost predicate NewestFirst<T>(s: seq<T>, key: T -> int) {
    forall i, j :: 0 <= i < j < |s| ==> key(s[i]) >= key(s[j])
  }

  /** Inserts `x` into a newest-first list, before the first element that is strictly older. */
  function Insert<T>(x: T, s: seq<T>, key: T -> int): (r: seq<T>)
    requires NewestFirst(s, key)
    ensures NewestFirst(r, key)
    ensures multiset(r) == multiset(s) + multiset{x}
  {
    if s == [] then [x]
    else if key(x) >= key(s[0]) then
      assert forall j :: 1 <= j < |[x] + s| ==> ([x] + s)[j] == s[j - 1];
      [x] + s
    else
      var tail := Insert(x, s[1..], key);
      InsertBehind(x, s, key, tail);
      [s[0]] + tail
  }

  /** An element older than the head goes behind it: the head, then the tail with `x` inserted. */
  lemma InsertBehind<T>(x: T, s: seq<T>, key: T -> int, tail: seq<T>)
    requires s != [] && NewestFirst(s, key) && key(x) < key(s[0])
    requires NewestFirst(tail, key) && multiset(tail) == multiset(s[1..]) + multiset{x}
    ensures NewestFirst([s[0]] + tail, key)
    ensures multiset([s[0]] + tail) == multiset(s) + multiset{x}
  {
    assert s == [s[0]] + s[1..];
    forall j | 0 <= j < |tail| ensures key(s[0]) >= key(tail[j]) {
      assert tail[j] in multiset(tail);
      if tail[j] != x {
        assert tail[j] in s[1..];
        var k :| 0 <= k < |s[1..]| && s[1..][k] == tail[j];
        assert s[k + 1] == tail[j];
      }
    }
    var r := [s[0]] + tail;
    forall i, j | 0 <= i < j < |r| ensures key(r[i]) >= key(r[j]) {
      if i > 0 {
        assert r[i] == tail[i - 1] && r[j] == tail[j - 1];
      }
    }
  }

  /** Insertion sort by `key`, newest first. */
  function SortNewestFirst<T>(s: seq<T>, key: T -> int): (r: seq<T>)
    ensures NewestFirst(r, key)
    ensures multiset(r) == multiset(s)
  {
    if s == [] then []
    else
      assert s == [s[0]] + s[1..];
      Insert(s[0], SortNewestFirst(s[1..], key), key)
  }
}
