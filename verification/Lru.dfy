/**
 The part of `lru::LruCache` that the proxy relies on: a sequence of entries
 with distinct keys, the least recently used first.
 */
module Lru {
  import opened Common

  datatype Entry<K, V> = Entry(key: K, val: V)

  ghost predicate Distinct<K, V>(s: seq<Entry<K, V>>) {
    forall i, j | 0 <= i < j < |s| :: s[i].key != s[j].key
  }

  /** `peek`. */
  function Find<K(==), V>(s: seq<Entry<K, V>>, k: K): Option<V> {
    if s == [] then None
    else if s[|s|-1].key == k then Some(s[|s|-1].val)
    else Find(s[..|s|-1], k)
  }

  /** `pop`. */
  function Without<K(==), V>(s: seq<Entry<K, V>>, k: K): seq<Entry<K, V>> {
    if s == [] then []
    else Without(s[..|s|-1], k) + if s[|s|-1].key == k then [] else [s[|s|-1]]
  }

  /** The key is used: with this value it becomes the most recent. */
  function Used<K(==), V>(s: seq<Entry<K, V>>, k: K, v: V): seq<Entry<K, V>> {
    Without(s, k) + [Entry(k, v)]
  }

  /** `get` and `get_mut` promote a key that is there. */
  function Promoted<K(==), V>(s: seq<Entry<K, V>>, k: K): seq<Entry<K, V>> {
    match Find(s, k)
    case Some(v) => Used(s, k, v)
    case None => s
  }

  function Last<K, V>(s: seq<Entry<K, V>>, n: nat): seq<Entry<K, V>> {
    if |s| <= n then s else s[|s| - n..]
  }

  /** `put`: a new key takes the place of the least recent if there is no room. */
  function Put<K(==), V>(s: seq<Entry<K, V>>, cap: nat, k: K, v: V): seq<Entry<K, V>> {
    if Find(s, k).None? && |s| >= cap && s != [] then Used(s[1..], k, v) else Used(s, k, v)
  }

  /** `pop_lru`. */
  function PopLru<K, V>(s: seq<Entry<K, V>>): seq<Entry<K, V>> {
    if s == [] then [] else s[1..]
  }

  /** The entries used since the key was. */
  ghost function Since<K, V>(s: seq<Entry<K, V>>, k: K): seq<Entry<K, V>> {
    if s == [] || s[|s|-1].key == k then [] else Since(s[..|s|-1], k) + [s[|s|-1]]
  }

  ghost function Keys<K, V>(s: seq<Entry<K, V>>): set<K> {
    set e | e in s :: e.key
  }

  // ---- Laws ---------------------------------------------------------------------

  lemma DistinctParts<K, V>(s: seq<Entry<K, V>>, n: nat)
    requires Distinct(s) && n <= |s|
    ensures Distinct(s[n..]) && Distinct(s[..n])
  {
  }

  lemma {:induction false} FindIsMember<K, V>(s: seq<Entry<K, V>>, k: K)
    ensures Find(s, k).Some? <==> k in Keys(s)
    ensures Find(s, k).Some? ==> Entry(k, Find(s, k).value) in s
  {
    if s != [] {
      FindIsMember(s[..|s|-1], k);
      assert s == s[..|s|-1] + [s[|s|-1]];
    }
  }

  lemma MemberIsFound<K, V>(s: seq<Entry<K, V>>, e: Entry<K, V>)
    requires Distinct(s) && e in s
    ensures Find(s, e.key) == Some(e.val)
  {
    FindIsMember(s, e.key);
    assert e.key in Keys(s);
    var f := Entry(e.key, Find(s, e.key).value);
    var i :| 0 <= i < |s| && s[i] == e;
    var j :| 0 <= j < |s| && s[j] == f;
    assert !(s[i].key != s[j].key);
  }

  /** Removing a key removes its entry only, and keeps the order. */
  lemma {:induction false} WithoutMembers<K, V>(s: seq<Entry<K, V>>, k: K)
    ensures forall e | e in Without(s, k) :: e in s && e.key != k
    ensures forall e | e in s && e.key != k :: e in Without(s, k)
  {
    if s != [] {
      WithoutMembers(s[..|s|-1], k);
      assert s == s[..|s|-1] + [s[|s|-1]];
    }
  }

  lemma DistinctAppend<K, V>(s: seq<Entry<K, V>>, e: Entry<K, V>)
    requires Distinct(s) && forall f | f in s :: f.key != e.key
    ensures Distinct(s + [e])
  {
    assert forall i | 0 <= i < |s| :: s[i] in s;
  }

  lemma {:induction false} WithoutDistinct<K, V>(s: seq<Entry<K, V>>, k: K)
    requires Distinct(s)
    ensures Distinct(Without(s, k))
  {
    if s != [] {
      var front, last := s[..|s|-1], s[|s|-1];
      WithoutDistinct(front, k);
      WithoutMembers(front, k);
      forall f | f in Without(front, k) ensures f.key != last.key {
        var i :| 0 <= i < |front| && front[i] == f;
        assert s[i].key != s[|s|-1].key;
      }
      DistinctAppend(Without(front, k), last);
    }
  }

  lemma {:induction false} WithoutAbsent<K, V>(s: seq<Entry<K, V>>, k: K)
    requires k !in Keys(s)
    ensures Without(s, k) == s
  {
    if s != [] {
      assert s[|s|-1] in s && s == s[..|s|-1] + [s[|s|-1]];
      WithoutAbsent(s[..|s|-1], k);
    }
  }

  lemma {:induction false} WithoutSize<K, V>(s: seq<Entry<K, V>>, k: K)
    requires Distinct(s)
    ensures |Without(s, k)| == |s| - if Find(s, k).Some? then 1 else 0
  {
    if s != [] {
      var front, last := s[..|s|-1], s[|s|-1];
      if last.key == k {
        assert forall e | e in front :: e.key != k;
        WithoutAbsent(front, k);
      } else {
        WithoutSize(front, k);
      }
    }
  }

  lemma UsedDistinct<K, V>(s: seq<Entry<K, V>>, k: K, v: V)
    requires Distinct(s)
    ensures Distinct(Used(s, k, v))
    ensures |Used(s, k, v)| == |s| + if Find(s, k).Some? then 0 else 1
  {
    WithoutDistinct(s, k);
    WithoutMembers(s, k);
    WithoutSize(s, k);
    DistinctAppend(Without(s, k), Entry(k, v));
  }

  lemma {:induction false} FindWithout<K, V>(s: seq<Entry<K, V>>, k: K, j: K)
    ensures Find(Without(s, k), j) == if j == k then None else Find(s, j)
  {
    if s != [] {
      var front, last := s[..|s|-1], s[|s|-1];
      FindWithout(front, k, j);
      assert (Without(front, k) + [last])[..|Without(front, k)|] == Without(front, k);
      assert Without(front, k) + [] == Without(front, k);
    }
  }

  lemma FindUsed<K, V>(s: seq<Entry<K, V>>, k: K, v: V, j: K)
    ensures Find(Used(s, k, v), j) == if j == k then Some(v) else Find(s, j)
  {
    FindWithout(s, k, j);
    assert Used(s, k, v)[..|Without(s, k)|] == Without(s, k);
  }

  /** Dropping the oldest keeps a key if and only if fewer than the kept number were used since. */
  lemma {:induction false} FindSuffix<K, V>(s: seq<Entry<K, V>>, n: nat, k: K)
    requires Distinct(s) && n <= |s|
    ensures Find(s[n..], k) == if |Since(s, k)| < |s| - n then Find(s, k) else None
    ensures |Since(s, k)| < |s| - n ==> Since(s[n..], k) == Since(s, k)
  {
    if n < |s| {
      var front, last := s[..|s|-1], s[|s|-1];
      assert s[n..] == front[n..] + [last] && s[n..][..|s| - 1 - n] == front[n..];
      if last.key != k { FindSuffix(front, n, k); }
    }
  }

  lemma {:induction false} SinceBound<K, V>(s: seq<Entry<K, V>>, k: K)
    ensures |Since(s, k)| <= |s| && forall e | e in Since(s, k) :: e in s && e.key != k
    ensures |Since(s, k)| < |s| <==> Find(s, k).Some?
  {
    if s != [] && s[|s|-1].key != k {
      SinceBound(s[..|s|-1], k);
      assert s == s[..|s|-1] + [s[|s|-1]];
    }
  }

  lemma {:induction false} SinceDistinct<K, V>(s: seq<Entry<K, V>>, k: K)
    requires Distinct(s)
    ensures Distinct(Since(s, k))
  {
    if s != [] && s[|s|-1].key != k {
      var front, last := s[..|s|-1], s[|s|-1];
      SinceDistinct(front, k);
      SinceBound(front, k);
      forall f | f in Since(front, k) ensures f.key != last.key {
        var i :| 0 <= i < |front| && front[i] == f;
        assert s[i].key != s[|s|-1].key;
      }
      DistinctAppend(Since(front, k), last);
    }
  }

  lemma SinceAppend<K, V>(s: seq<Entry<K, V>>, e: Entry<K, V>, j: K)
    ensures Since(s + [e], j) == if e.key == j then [] else Since(s, j) + [e]
  {
    assert (s + [e])[..|s|] == s;
  }

  lemma {:induction false} SinceWithout<K, V>(s: seq<Entry<K, V>>, k: K, j: K)
    requires j != k
    ensures forall e | e in Since(Without(s, k), j) :: e in Since(s, j)
  {
    if s != [] {
      var front, last := s[..|s|-1], s[|s|-1];
      SinceWithout(front, k, j);
      SinceAppend(Without(front, k), last, j);
      if last.key == k { assert Without(s, k) == Without(front, k); }
    }
  }

  /** Using another key adds at most that key to those used since. */
  lemma SinceUsed<K, V>(s: seq<Entry<K, V>>, k: K, v: V, j: K)
    requires j != k
    ensures Keys(Since(Used(s, k, v), j)) <= Keys(Since(s, j)) + {k}
  {
    SinceWithout(s, k, j);
    SinceAppend(Without(s, k), Entry(k, v), j);
  }

  lemma {:induction false} KeysSize<K, V>(s: seq<Entry<K, V>>)
    requires Distinct(s)
    ensures |Keys(s)| == |s|
  {
    if s != [] {
      var front, last := s[..|s|-1], s[|s|-1];
      KeysSize(front);
      assert s == front + [last];
      assert Keys(s) == Keys(front) + {last.key} && last.key !in Keys(front);
    }
  }

  lemma SubsetSize<K>(a: set<K>, b: set<K>)
    requires a <= b
    ensures |a| <= |b|
  {
    assert b == a + (b - a);
  }

  /** At most as many were used since as there are keys that may have been. */
  lemma SinceSize<K, V>(s: seq<Entry<K, V>>, k: K, others: set<K>)
    requires Distinct(s) && Keys(Since(s, k)) <= others
    ensures |Since(s, k)| <= |others|
  {
    SinceDistinct(s, k);
    KeysSize(Since(s, k));
    SubsetSize(Keys(Since(s, k)), others);
  }
}
