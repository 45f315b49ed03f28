/** A stable sort by a real-valued key: the model of JavaScript's
    `Array.prototype.sort` with a numeric comparator and of Python's
    `list.sort(key=...)`, both of which are stable. */
module Sorting {

  /** Inserts x into s just before the first element whose key is greater
      than key(x), so that x lands after every element with an equal key. */
  function Insert<T>(x: T, s: seq<T>, key: T -> real): (r: seq<T>)
    ensures |r| == |s| + 1
  {
    if s == [] then [x]
    else if key(x) < key(s[0]) then [x] + s
    else
      assert s == [s[0]] + s[1..];
      [s[0]] + Insert(x, s[1..], key)
  }

  /** Insertion sort taking the elements of s from first to last. */
  function SortBy<T>(s: seq<T>, key: T -> real): (r: seq<T>)
    ensures |r| == |s|
    ensures multiset(r) == multiset(s)
  {
    if s == [] then []
    else
      assert s == s[..|s| - 1] + [s[|s| - 1]];
      InsertPermutes(s[|s| - 1], SortBy(s[..|s| - 1], key), key);
      Insert(s[|s| - 1], SortBy(s[..|s| - 1], key), key)
  }

  /** Insertion adds x and loses nothing. */
  lemma {:induction false} InsertPermutes<T>(x: T, s: seq<T>, key: T -> real)
    ensures multiset(Insert(x, s, key)) == multiset(s) + multiset{x}
  {
    if s != [] && key(s[0]) <= key(x) {
      assert s == [s[0]] + s[1..];
      InsertPermutes(x, s[1..], key);
    }
  }

  ghost predicate IsSortedBy<T>(s: seq<T>, key: T -> real)
  {
    forall i, j :: 0 <= i < j < |s| ==> key(s[i]) <= key(s[j])
  }

  /** The elements of s whose key is v, in their order in s. */
  function WithKey<T>(s: seq<T>, key: T -> real, v: real): seq<T>
  {
    if s == [] then []
    else (if key(s[0]) == v then [s[0]] else []) + WithKey(s[1..], key, v)
  }

  /** The sum of val over the elements of s. */
  function SumBy<T>(s: seq<T>, val: T -> real): real
  {
    if s == [] then 0.0 else val(s[0]) + SumBy(s[1..], val)
  }

  lemma {:induction false} InsertSorted<T>(x: T, s: seq<T>, key: T -> real)
    requires IsSortedBy(s, key)
    ensures IsSortedBy(Insert(x, s, key), key)
  {
    if s != [] && key(s[0]) <= key(x) {
      var tail := Insert(x, s[1..], key);
      InsertSorted(x, s[1..], key);
      InsertPermutes(x, s[1..], key);
      forall j | 0 <= j < |tail| ensures key(s[0]) <= key(tail[j]) {
        assert tail[j] in multiset(s[1..]) + multiset{x};
        if tail[j] in multiset(s[1..]) {
          var k :| 0 <= k < |s[1..]| && s[1..][k] == tail[j];
          assert s[k + 1] == tail[j];
        }
      }
    }
  }

  /** The result of SortBy is ordered by key. */
  lemma {:induction false} SortByIsSorted<T>(s: seq<T>, key: T -> real)
    ensures IsSortedBy(SortBy(s, key), key)
  {
    if s != [] {
      SortByIsSorted(s[..|s| - 1], key);
      InsertSorted(s[|s| - 1], SortBy(s[..|s| - 1], key), key);
    }
  }

  lemma {:induction false} WithKeyAppend<T>(a: seq<T>, b: seq<T>, key: T -> real, v: real)
    ensures WithKey(a + b, key, v) == WithKey(a, key, v) + WithKey(b, key, v)
  {
    if a == [] {
      assert a + b == b;
    } else {
      assert (a + b)[0] == a[0];
      assert (a + b)[1..] == a[1..] + b;
      WithKeyAppend(a[1..], b, key, v);
      assert WithKey(a + b, key, v) == (if key(a[0]) == v then [a[0]] else []) + WithKey(a[1..] + b, key, v);
      assert WithKey(a, key, v) == (if key(a[0]) == v then [a[0]] else []) + WithKey(a[1..], key, v);
    }
  }

  lemma {:induction false} WithKeyNone<T>(s: seq<T>, key: T -> real, v: real)
    requires forall i :: 0 <= i < |s| ==> key(s[i]) != v
    ensures WithKey(s, key, v) == []
  {
    if s != [] {
      WithKeyNone(s[1..], key, v);
    }
  }

  lemma {:induction false} InsertStable<T>(x: T, s: seq<T>, key: T -> real, v: real)
    requires IsSortedBy(s, key)
    ensures WithKey(Insert(x, s, key), key, v)
         == WithKey(s, key, v) + (if key(x) == v then [x] else [])
  {
    if s == [] {
      assert [x][1..] == [];
    } else if key(x) < key(s[0]) {
      var r := [x] + s;
      assert r[0] == x && r[1..] == s;
      assert WithKey(r, key, v) == (if key(x) == v then [x] else []) + WithKey(s, key, v);
      if key(x) == v {
        WithKeyNone(s, key, v);
      }
    } else {
      var tail := Insert(x, s[1..], key);
      var r := [s[0]] + tail;
      assert r[0] == s[0] && r[1..] == tail;
      assert WithKey(r, key, v) == (if key(s[0]) == v then [s[0]] else []) + WithKey(tail, key, v);
      InsertStable(x, s[1..], key, v);
    }
  }

  lemma WithKeySnoc<T>(init: seq<T>, last: T, key: T -> real, v: real)
    ensures WithKey(init + [last], key, v)
         == WithKey(init, key, v) + (if key(last) == v then [last] else [])
  {
    WithKeyAppend(init, [last], key, v);
    assert [last][1..] == [];
  }

  /** Stability: for every key, the elements carrying it keep their relative order. */
  lemma {:induction false} SortByIsStable<T>(s: seq<T>, key: T -> real, v: real)
    ensures WithKey(SortBy(s, key), key, v) == WithKey(s, key, v)
  {
    if s != [] {
      var init, last := s[..|s| - 1], s[|s| - 1];
      assert s == init + [last];
      SortByIsStable(init, key, v);
      SortByIsSorted(init, key);
      InsertStable(last, SortBy(init, key), key, v);
      WithKeySnoc(init, last, key, v);
    }
  }

  lemma {:induction false} SumByInsert<T>(x: T, s: seq<T>, key: T -> real, val: T -> real)
    ensures SumBy(Insert(x, s, key), val) == SumBy(s, val) + val(x)
  {
    if s == [] {
      assert [x][1..] == [];
    } else if key(x) < key(s[0]) {
      assert ([x] + s)[1..] == s;
    } else {
      var tail := Insert(x, s[1..], key);
      assert ([s[0]] + tail)[1..] == tail;
      SumByInsert(x, s[1..], key, val);
    }
  }

  lemma {:induction false} SumByAppend<T>(a: seq<T>, b: seq<T>, val: T -> real)
    ensures SumBy(a + b, val) == SumBy(a, val) + SumBy(b, val)
  {
    if a == [] {
      assert a + b == b;
    } else {
      assert (a + b)[0] == a[0];
      assert (a + b)[1..] == a[1..] + b;
      SumByAppend(a[1..], b, val);
    }
  }

  lemma SumBySnoc<T>(init: seq<T>, last: T, val: T -> real)
    ensures SumBy(init + [last], val) == SumBy(init, val) + val(last)
  {
    SumByAppend(init, [last], val);
    assert [last][1..] == [];
  }

  /** Sorting does not change a sum over the elements. */
  lemma {:induction false} SumBySort<T>(s: seq<T>, key: T -> real, val: T -> real)
    ensures SumBy(SortBy(s, key), val) == SumBy(s, val)
  {
    if s != [] {
      var init, last := s[..|s| - 1], s[|s| - 1];
      assert SortBy(s, key) == Insert(last, SortBy(init, key), key);
      SumBySort(init, key, val);
      SumByInsert(last, SortBy(init, key), key, val);
      assert s == init + [last];
      SumBySnoc(init, last, val);
    }
  }
}
