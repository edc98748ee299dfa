/** Sorting by an integer key: the specification of `sort_by_key` and `sort_unstable`. */
module Sorting {

  predicate Ascending<T>(key: T -> int, s: seq<T>) {
    forall i, j | 0 <= i < j < |s| :: key(s[i]) <= key(s[j])
  }

  function Insert<T>(key: T -> int, x: T, s: seq<T>): seq<T> {
    if s == [] || key(x) <= key(s[0]) then [x] + s else [s[0]] + Insert(key, x, s[1..])
  }

  function Sorted<T>(key: T -> int, s: seq<T>): seq<T> {
    if s == [] then [] else Insert(key, s[0], Sorted(key, s[1..]))
  }

  /** Those with one key, in the order they have. */
  function WithKey<T>(key: T -> int, s: seq<T>, k: int): seq<T> {
    if s == [] then []
    else if key(s[0]) == k then [s[0]] + WithKey(key, s[1..], k)
    else WithKey(key, s[1..], k)
  }

  lemma {:induction false} InsertPermutes<T>(key: T -> int, x: T, s: seq<T>)
    ensures multiset(Insert(key, x, s)) == multiset(s) + multiset{x} && |Insert(key, x, s)| == |s| + 1
  {
    if s != [] && key(x) > key(s[0]) {
      assert s == [s[0]] + s[1..];
      InsertPermutes(key, x, s[1..]);
    }
  }

  lemma {:induction false} InsertAscends<T>(key: T -> int, x: T, s: seq<T>)
    requires Ascending(key, s)
    ensures Ascending(key, Insert(key, x, s))
    ensures Insert(key, x, s) != []
    ensures key(Insert(key, x, s)[0]) >= if s != [] && key(s[0]) < key(x) then key(s[0]) else key(x)
  {
    if s != [] && key(x) > key(s[0]) { InsertAscends(key, x, s[1..]); }
  }

  lemma {:induction false} InsertIsStable<T>(key: T -> int, x: T, s: seq<T>, k: int)
    ensures WithKey(key, Insert(key, x, s), k) == WithKey(key, [x] + s, k)
  {
    if s != [] && key(x) > key(s[0]) {
      InsertIsStable(key, x, s[1..], k);
      assert ([s[0]] + Insert(key, x, s[1..]))[1..] == Insert(key, x, s[1..]);
      assert ([x] + s)[1..] == s && ([x] + s[1..])[1..] == s[1..];
    }
  }

  lemma {:induction false} SortAscends<T>(key: T -> int, s: seq<T>)
    ensures Ascending(key, Sorted(key, s))
  {
    if s != [] {
      SortAscends(key, s[1..]);
      InsertAscends(key, s[0], Sorted(key, s[1..]));
    }
  }

  lemma {:induction false} SortPermutes<T>(key: T -> int, s: seq<T>)
    ensures multiset(Sorted(key, s)) == multiset(s) && |Sorted(key, s)| == |s|
  {
    if s != [] {
      SortPermutes(key, s[1..]);
      InsertPermutes(key, s[0], Sorted(key, s[1..]));
      assert s == [s[0]] + s[1..];
    }
  }

  /** Sorting keeps everything and puts it in order. */
  lemma SortedSorts<T>(key: T -> int, s: seq<T>)
    ensures Ascending(key, Sorted(key, s))
    ensures multiset(Sorted(key, s)) == multiset(s) && |Sorted(key, s)| == |s|
  {
    SortAscends(key, s);
    SortPermutes(key, s);
  }

  /** The sort is a stable one: equal keys keep their order. */
  lemma {:induction false} SortIsStable<T>(key: T -> int, s: seq<T>, k: int)
    ensures WithKey(key, Sorted(key, s), k) == WithKey(key, s, k)
  {
    if s != [] {
      SortIsStable(key, s[1..], k);
      InsertIsStable(key, s[0], Sorted(key, s[1..]), k);
      assert ([s[0]] + Sorted(key, s[1..]))[1..] == Sorted(key, s[1..]);
    }
  }

  lemma {:induction false} SortKeepsAscending<T>(key: T -> int, s: seq<T>)
    requires Ascending(key, s)
    ensures Sorted(key, s) == s
  {
    if s != [] {
      SortKeepsAscending(key, s[1..]);
      assert s == [s[0]] + s[1..];
    }
  }
}
