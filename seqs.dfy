/** Query-set building blocks: filtering, key uniqueness and ordering of table rows. */
module Seqs {

  /** The rows of `s` that satisfy `f`, in their original order (a `.filter(...)`). */
  function Filter<T(!new)>(s: seq<T>, f: T -> bool): (r: seq<T>)
    ensures |r| <= |s|
    ensures forall x :: multiset(r)[x] == if f(x) then multiset(s)[x] else 0
    ensures forall x :: x in r <==> x in s && f(x)
  {
    if s == [] then []
    else
      assert s == [s[0]] + s[1..];
      (if f(s[0]) then [s[0]] else []) + Filter(s[1..], f)
  }

  /** Filtering a table with one row appended filters the row on its own. */
  lemma {:induction false} FilterSnoc<T(!new)>(s: seq<T>, x: T, f: T -> bool)
    ensures Filter(s + [x], f) == Filter(s, f) + (if f(x) then [x] else [])
  {
    if s == [] {
      assert [] + [x] == [x];
    } else {
      var t := s + [x];
      var head := if f(s[0]) then [s[0]] else [];
      var last := if f(x) then [x] else [];
      assert t[0] == s[0] && t[1..] == s[1..] + [x];
      FilterSnoc(s[1..], x, f);
      calc {
        Filter(t, f);
        head + Filter(s[1..] + [x], f);
        head + (Filter(s[1..], f) + last);
        { SeqAppendAssoc(head, Filter(s[1..], f), last); }
        (head + Filter(s[1..], f)) + last;
        Filter(s, f) + last;
      }
    }
  }

  lemma SeqAppendAssoc<T>(a: seq<T>, b: seq<T>, c: seq<T>)
    ensures a + (b + c) == (a + b) + c
  {
    assert forall k :: 0 <= k < |a| + |b| + |c| ==> (a + (b + c))[k] == ((a + b) + c)[k];
  }

  /** Filtering with two predicates that agree on every row gives the same rows. */
  lemma {:induction false} FilterCongruent<T(!new)>(s: seq<T>, f: T -> bool, g: T -> bool)
    requires forall x :: x in s ==> f(x) == g(x)
    ensures Filter(s, f) == Filter(s, g)
  {
    if s != [] {
      FilterCongruent(s[1..], f, g);
    }
  }

  /** No two rows of `s` share a key (a `unique=True` column or a primary key). */
  ghost predicate DistinctBy<T, K>(s: seq<T>, key: T -> K) {
    forall i, j :: 0 <= i < j < |s| ==> key(s[i]) != key(s[j])
  }

  /** Putting a row in front of distinct rows keeps them distinct when its key is new. */
  lemma DistinctCons<T, K>(x: T, t: seq<T>, key: T -> K)
    requires DistinctBy(t, key)
    requires forall y :: y in t ==> key(y) != key(x)
    ensures DistinctBy([x] + t, key)
  {
    var r := [x] + t;
    forall i, j | 0 <= i < j < |r| ensures key(r[i]) != key(r[j]) {
      assert r[j] == t[j - 1];
      if i > 0 {
        assert r[i] == t[i - 1];
      }
    }
  }

  /** Appending a row whose key is new keeps the keys distinct (an INSERT under a unique constraint). */
  lemma DistinctSnoc<T, K>(s: seq<T>, x: T, key: T -> K)
    requires DistinctBy(s, key)
    requires forall y :: y in s ==> key(y) != key(x)
    ensures DistinctBy(s + [x], key)
  {
    var r := s + [x];
    forall i, j | 0 <= i < j < |r| ensures key(r[i]) != key(r[j]) {
      assert r[i] == s[i];
      if j < |s| {
        assert r[j] == s[j];
      } else {
        assert s[i] in s;
      }
    }
  }

  /** In a table with distinct keys, two rows with the same key are the same row. */
  lemma DistinctKeyDetermines<T, K>(s: seq<T>, key: T -> K, x: T, y: T)
    requires DistinctBy(s, key)
    requires x in s && y in s && key(x) == key(y)
    ensures x == y
  {
    var i :| 0 <= i < |s| && s[i] == x;
    var j :| 0 <= j < |s| && s[j] == y;
    assert !(i < j) && !(j < i);
  }

  /** Overwriting a row with one of the same key keeps the keys distinct (an UPDATE). */
  lemma DistinctUpdate<T, K>(s: seq<T>, i: nat, x: T, key: T -> K)
    requires DistinctBy(s, key)
    requires i < |s| && key(x) == key(s[i])
    ensures DistinctBy(s[i := x], key)
  {
    var r := s[i := x];
    forall a, b | 0 <= a < b < |r| ensures key(r[a]) != key(r[b]) {
      assert key(r[a]) == key(s[a]) && key(r[b]) == key(s[b]);
    }
  }

  /** Deleting rows keeps every uniqueness constraint of the remaining rows. */
  lemma {:induction false} FilterDistinct<T(!new), K>(s: seq<T>, f: T -> bool, key: T -> K)
    requires DistinctBy(s, key)
    ensures DistinctBy(Filter(s, f), key)
  {
    if s != [] {
      var t := s[1..];
      assert DistinctBy(t, key) by {
        forall i, j | 0 <= i < j < |t| ensures key(t[i]) != key(t[j]) {
          assert t[i] == s[i + 1] && t[j] == s[j + 1];
        }
      }
      FilterDistinct(t, f, key);
      var rest := Filter(t, f);
      if f(s[0]) {
        forall y | y in rest ensures key(y) != key(s[0]) {
          var k :| 0 <= k < |t| && t[k] == y;
          assert s[k + 1] == y;
        }
        DistinctCons(s[0], rest, key);
        assert [s[0]] + rest == Filter(s, f);
      } else {
        assert rest == Filter(s, f);
      }
    }
  }

  /** `s` is ordered by ascending `key` (an `.order_by(...)`). */
  ghost predicate SortedBy<T>(s: seq<T>, key: T -> int) {
    forall i, j :: 0 <= i < j < |s| ==> key(s[i]) <= key(s[j])
  }

  /** A row whose key is at most every key of a sorted table can go in front of it. */
  lemma ConsSorted<T>(y: T, t: seq<T>, key: T -> int)
    requires SortedBy(t, key)
    requires forall z :: z in t ==> key(y) <= key(z)
    ensures SortedBy([y] + t, key)
  {
    var r := [y] + t;
    forall i, j | 0 <= i < j < |r| ensures key(r[i]) <= key(r[j]) {
      assert r[j] == t[j - 1];
      if i > 0 {
        assert r[i] == t[i - 1];
      }
    }
  }

  /** The tail of a sorted table is sorted, and no key in it is below the head's. */
  lemma SortedTail<T>(s: seq<T>, key: T -> int)
    requires SortedBy(s, key) && s != []
    ensures SortedBy(s[1..], key)
    ensures forall z :: z in s[1..] ==> key(s[0]) <= key(z)
  {
    var t := s[1..];
    forall i, j | 0 <= i < j < |t| ensures key(t[i]) <= key(t[j]) {
      assert t[i] == s[i + 1] && t[j] == s[j + 1];
    }
    forall z | z in t ensures key(s[0]) <= key(z) {
      var k :| 0 <= k < |t| && t[k] == z;
      assert s[k + 1] == z;
    }
  }

  /** Inserts `x` into the sorted `s` before the first row with a key not below its own. */
  function InsertBy<T>(x: T, s: seq<T>, key: T -> int): (r: seq<T>)
    requires SortedBy(s, key)
    ensures SortedBy(r, key)
    ensures multiset(r) == multiset(s) + multiset{x}
  {
    if s == [] then [x]
    else if key(x) <= key(s[0]) then
      SortedTail(s, key);
      ConsSorted(x, s, key);
      [x] + s
    else
      SortedTail(s, key);
      var tail := InsertBy(x, s[1..], key);
      assert s == [s[0]] + s[1..];
      InsertBound(x, s, tail, key);
      ConsSorted(s[0], tail, key);
      [s[0]] + tail
  }

  /** Every row of the tail `x` went into keys at least the head's, `x` itself included. */
  lemma InsertBound<T>(x: T, s: seq<T>, tail: seq<T>, key: T -> int)
    requires s != [] && key(s[0]) < key(x)
    requires forall z :: z in s[1..] ==> key(s[0]) <= key(z)
    requires multiset(tail) == multiset(s[1..]) + multiset{x}
    ensures forall z :: z in tail ==> key(s[0]) <= key(z)
  {
    forall z | z in tail ensures key(s[0]) <= key(z) {
      assert z in multiset(tail);
      if z != x {
        assert z in multiset(s[1..]);
      }
    }
  }

  /** The rows of `s` ordered by ascending `key`; rows with equal keys keep their table order. */
  function SortBy<T(!new)>(s: seq<T>, key: T -> int): (r: seq<T>)
    ensures SortedBy(r, key)
    ensures multiset(r) == multiset(s)
    ensures forall x :: x in r <==> x in s
  {
    if s == [] then []
    else
      assert s == [s[0]] + s[1..];
      var r := InsertBy(s[0], SortBy(s[1..], key), key);
      assert forall x :: x in r <==> x in multiset(r);
      r
  }
}
