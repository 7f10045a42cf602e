/**
 * A stable sort, largest key first: the shape of `ORDER BY key DESC` (ties kept in row order)
 * and of `Array.prototype.sort` with a comparator that subtracts integer keys.
 */
module Sorting {

  predicate SortedDesc<T>(s: seq<T>, key: T -> int)
  {
    forall i, j :: 0 <= i < j < |s| ==> key(s[i]) >= key(s[j])
  }

  /** The elements of `s` whose key is `k`, in order. */
  function WithKey<T>(s: seq<T>, key: T -> int, k: int): (r: seq<T>)
    ensures |r| <= |s|
  {
    if s == [] then []
    else (if key(s[0]) == k then [s[0]] else []) + WithKey(s[1..], key, k)
  }

  /** Places `x` after every element whose key is at least its own. */
  function Insert<T>(x: T, s: seq<T>, key: T -> int): (r: seq<T>)
    ensures |r| == |s| + 1
    ensures multiset(r) == multiset(s) + multiset{x}
  {
    if s == [] then [x]
    else if key(s[0]) >= key(x) then
      assert s == [s[0]] + s[1..];
      [s[0]] + Insert(x, s[1..], key)
    else [x] + s
  }

  function SortDesc<T>(xs: seq<T>, key: T -> int): (r: seq<T>)
    ensures |r| == |xs|
    ensures multiset(r) == multiset(xs)
  {
    if xs == [] then []
    else
      var n := |xs| - 1;
      assert xs == xs[..n] + [xs[n]];
      Insert(xs[n], SortDesc(xs[..n], key), key)
  }

  lemma {:induction false} InsertKeepsSorted<T>(x: T, s: seq<T>, key: T -> int)
    requires SortedDesc(s, key)
    ensures SortedDesc(Insert(x, s, key), key)
    ensures s != [] && key(s[0]) >= key(x) ==> Insert(x, s, key)[0] == s[0]
  {
    if s != [] && key(s[0]) >= key(x) {
      InsertKeepsSorted(x, s[1..], key);
      var tail := Insert(x, s[1..], key);
      forall j | 0 <= j < |tail| ensures key(s[0]) >= key(tail[j]) {
        assert tail[j] in multiset(tail);
        if tail[j] != x {
          assert tail[j] in multiset(s[1..]);
          var q :| 0 <= q < |s[1..]| && s[1..][q] == tail[j];
          assert s[q + 1] == tail[j];
        }
      }
    }
  }

  lemma {:induction false} InsertStable<T>(x: T, s: seq<T>, key: T -> int, k: int)
    requires SortedDesc(s, key)
    ensures WithKey(Insert(x, s, key), key, k) == WithKey(s, key, k) + WithKey([x], key, k)
  {
    if s == [] {
    } else if key(s[0]) >= key(x) {
      InsertStable(x, s[1..], key, k);
      var r := Insert(x, s, key);
      assert r[0] == s[0] && r[1..] == Insert(x, s[1..], key);
    } else {
      var r := Insert(x, s, key);
      assert r[0] == x && r[1..] == s;
      if key(x) == k {
        NoneWithLargerKey(s, key, k);
      }
    }
  }

  /** In a list sorted largest first whose head key is below `k`, nothing has key `k`. */
  lemma {:induction false} NoneWithLargerKey<T>(s: seq<T>, key: T -> int, k: int)
    requires SortedDesc(s, key)
    requires s != [] ==> key(s[0]) < k
    ensures WithKey(s, key, k) == []
  {
    if s != [] {
      NoneWithLargerKey(s[1..], key, k);
    }
  }

  lemma {:induction false} WithKeyAppend<T>(a: seq<T>, b: seq<T>, key: T -> int, k: int)
    ensures WithKey(a + b, key, k) == WithKey(a, key, k) + WithKey(b, key, k)
  {
    if a == [] {
      assert a + b == b;
    } else {
      var head := if key(a[0]) == k then [a[0]] else [];
      assert (a + b)[0] == a[0];
      assert (a + b)[1..] == a[1..] + b;
      WithKeyAppend(a[1..], b, key, k);
      calc {
        WithKey(a + b, key, k);
        head + WithKey(a[1..] + b, key, k);
        head + (WithKey(a[1..], key, k) + WithKey(b, key, k));
        (head + WithKey(a[1..], key, k)) + WithKey(b, key, k);
      }
    }
  }

  /** The sort orders largest key first, keeps every element, and keeps equal keys in order. */
  lemma SortDescCorrect<T>(xs: seq<T>, key: T -> int)
    ensures SortedDesc(SortDesc(xs, key), key)
    ensures forall k :: WithKey(SortDesc(xs, key), key, k) == WithKey(xs, key, k)
  {
    SortDescSorted(xs, key);
    forall k ensures WithKey(SortDesc(xs, key), key, k) == WithKey(xs, key, k) {
      SortDescStable(xs, key, k);
    }
  }

  lemma {:induction false} SortDescSorted<T>(xs: seq<T>, key: T -> int)
    ensures SortedDesc(SortDesc(xs, key), key)
  {
    if xs != [] {
      var n := |xs| - 1;
      SortDescSorted(xs[..n], key);
      InsertKeepsSorted(xs[n], SortDesc(xs[..n], key), key);
    }
  }

  lemma {:induction false} SortDescStable<T>(xs: seq<T>, key: T -> int, k: int)
    ensures WithKey(SortDesc(xs, key), key, k) == WithKey(xs, key, k)
  {
    if xs != [] {
      var n := |xs| - 1;
      SortDescStable(xs[..n], key, k);
      SortDescSorted(xs[..n], key);
      InsertStable(xs[n], SortDesc(xs[..n], key), key, k);
      assert xs == xs[..n] + [xs[n]];
      WithKeyAppend(xs[..n], [xs[n]], key, k);
    }
  }

  /** The sort keeps exactly the elements it was given. */
  lemma SortDescMembers<T>(xs: seq<T>, key: T -> int)
    ensures forall x :: x in SortDesc(xs, key) <==> x in xs
  {
    var r := SortDesc(xs, key);
    assert forall x :: x in r <==> x in multiset(r);
    assert forall x :: x in xs <==> x in multiset(xs);
  }

  /** Inserting an element whose key is at most every other key appends it. */
  lemma {:induction false} InsertSmallest<T>(x: T, s: seq<T>, key: T -> int)
    requires forall i :: 0 <= i < |s| ==> key(s[i]) >= key(x)
    ensures Insert(x, s, key) == s + [x]
  {
    if s != [] {
      InsertSmallest(x, s[1..], key);
      assert s == [s[0]] + s[1..];
    }
  }

  /** A list already sorted largest first is left as it is. */
  lemma {:induction false} SortedIsFixed<T>(xs: seq<T>, key: T -> int)
    requires SortedDesc(xs, key)
    ensures SortDesc(xs, key) == xs
  {
    if xs != [] {
      var n := |xs| - 1;
      SortedIsFixed(xs[..n], key);
      InsertSmallest(xs[n], xs[..n], key);
      assert xs[..n] + [xs[n]] == xs;
    }
  }
}
