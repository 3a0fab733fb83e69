/**
 * `Array.prototype.sort` with a numeric comparator, as the dashboard uses it:
 * a stable sort, descending by a key. An ascending sort is the descending
 * sort by the negated key.
 */
module Sorting {

  predicate SortedDesc<T>(s: seq<T>, key: T -> real) {
    forall i, j :: 0 <= i < j < |s| ==> key(s[i]) >= key(s[j])
  }

  /** The elements of `s` whose key is `k`, in their order in `s`. */
  function WithKey<T>(s: seq<T>, key: T -> real, k: real): seq<T> {
    if s == [] then []
    else (if key(s[0]) == k then [s[0]] else []) + WithKey(s[1..], key, k)
  }

  /** Places `x` after every element whose key is at least its own, so that equal keys keep their order. */
  function Insert<T>(x: T, s: seq<T>, key: T -> real): (r: seq<T>)
    ensures multiset(r) == multiset(s) + multiset{x}
  {
    if s == [] then [x]
    else if key(s[0]) >= key(x) then
      assert s == [s[0]] + s[1..];
      [s[0]] + Insert(x, s[1..], key)
    else [x] + s
  }

  /** The stable descending sort, element by element in the order of `s`. */
  function SortDesc<T>(s: seq<T>, key: T -> real): (r: seq<T>)
    ensures multiset(r) == multiset(s)
  {
    if s == [] then []
    else
      assert s == s[..|s| - 1] + [s[|s| - 1]];
      Insert(s[|s| - 1], SortDesc(s[..|s| - 1], key), key)
  }

  lemma {:induction false} InsertSorted<T>(x: T, s: seq<T>, key: T -> real)
    requires SortedDesc(s, key)
    ensures SortedDesc(Insert(x, s, key), key)
  {
    if s != [] && key(s[0]) >= key(x) {
      var rest := Insert(x, s[1..], key);
      InsertSorted(x, s[1..], key);
      forall y | y in rest
        ensures key(s[0]) >= key(y)
      {
        assert y in multiset(rest);
        if y != x {
          assert y in multiset(s[1..]);
        }
      }
    }
  }

  /** The sort's result is ordered by descending key and holds the same elements. */
  lemma {:induction false} SortDescSorted<T>(s: seq<T>, key: T -> real)
    ensures SortedDesc(SortDesc(s, key), key)
    ensures multiset(SortDesc(s, key)) == multiset(s)
  {
    if s != [] {
      SortDescSorted(s[..|s| - 1], key);
      InsertSorted(s[|s| - 1], SortDesc(s[..|s| - 1], key), key);
    }
  }

  lemma {:induction false} WithKeyAppend<T>(a: seq<T>, b: seq<T>, key: T -> real, k: real)
    ensures WithKey(a + b, key, k) == WithKey(a, key, k) + WithKey(b, key, k)
  {
    if a != [] {
      assert (a + b)[1..] == a[1..] + b;
      WithKeyAppend(a[1..], b, key, k);
    } else {
      assert a + b == b;
    }
  }

  lemma {:induction false} WithKeyBelow<T>(s: seq<T>, key: T -> real, k: real)
    requires forall i :: 0 <= i < |s| ==> key(s[i]) < k
    ensures WithKey(s, key, k) == []
  {
    if s != [] {
      WithKeyBelow(s[1..], key, k);
    }
  }

  lemma WithKeyCons<T>(x: T, t: seq<T>, key: T -> real, k: real)
    ensures WithKey([x] + t, key, k) == WithKey([x], key, k) + WithKey(t, key, k)
  {
    assert ([x] + t)[1..] == t;
    assert [x][1..] == [];
  }

  lemma SortedTail<T>(s: seq<T>, key: T -> real)
    requires s != [] && SortedDesc(s, key)
    ensures SortedDesc(s[1..], key)
    ensures forall i :: 0 <= i < |s[1..]| ==> key(s[1..][i]) <= key(s[0])
  {
    forall i, j | 0 <= i < j < |s[1..]|
      ensures key(s[1..][i]) >= key(s[1..][j])
    {
      assert s[1..][i] == s[i + 1] && s[1..][j] == s[j + 1];
    }
  }

  lemma {:induction false} InsertStable<T>(x: T, s: seq<T>, key: T -> real, k: real)
    requires SortedDesc(s, key)
    ensures WithKey(Insert(x, s, key), key, k) == WithKey(s, key, k) + WithKey([x], key, k)
  {
    if s == [] {
      assert [x][1..] == [];
    } else if key(s[0]) >= key(x) {
      SortedTail(s, key);
      InsertStable(x, s[1..], key, k);
      InsertStableBehind(x, s, key, k);
    } else {
      InsertStableAhead(x, s, key, k);
    }
  }

  lemma InsertStableBehind<T>(x: T, s: seq<T>, key: T -> real, k: real)
    requires s != [] && key(s[0]) >= key(x)
    requires WithKey(Insert(x, s[1..], key), key, k) == WithKey(s[1..], key, k) + WithKey([x], key, k)
    ensures WithKey(Insert(x, s, key), key, k) == WithKey(s, key, k) + WithKey([x], key, k)
  {
    var rest := s[1..];
    assert Insert(x, s, key) == [s[0]] + Insert(x, rest, key);
    assert [s[0]] + rest == s;
    KeptBehind(s[0], rest, Insert(x, rest, key), x, key, k);
  }

  /** Putting the same element in front of two lists keeps the relation between their elements with key `k`. */
  lemma KeptBehind<T>(y: T, rest: seq<T>, inserted: seq<T>, x: T, key: T -> real, k: real)
    requires WithKey(inserted, key, k) == WithKey(rest, key, k) + WithKey([x], key, k)
    ensures WithKey([y] + inserted, key, k) == WithKey([y] + rest, key, k) + WithKey([x], key, k)
  {
    WithKeyCons(y, inserted, key, k);
    WithKeyCons(y, rest, key, k);
    var head, tail, added := WithKey([y], key, k), WithKey(rest, key, k), WithKey([x], key, k);
    assert head + (tail + added) == (head + tail) + added;
  }

  lemma InsertStableAhead<T>(x: T, s: seq<T>, key: T -> real, k: real)
    requires SortedDesc(s, key)
    requires s != [] && key(s[0]) < key(x)
    ensures WithKey(Insert(x, s, key), key, k) == WithKey(s, key, k) + WithKey([x], key, k)
  {
    WithKeyCons(x, s, key, k);
    if key(x) == k {
      WithKeyBelow(s, key, k);
    } else {
      assert [x][1..] == [];
    }
  }

  /** The sort is stable: for every key, the elements carrying it keep their relative order. */
  lemma {:induction false} SortDescStable<T>(s: seq<T>, key: T -> real, k: real)
    ensures WithKey(SortDesc(s, key), key, k) == WithKey(s, key, k)
  {
    if s != [] {
      var front := s[..|s| - 1];
      var x := s[|s| - 1];
      SortDescStable(front, key, k);
      SortDescSorted(front, key);
      InsertStable(x, SortDesc(front, key), key, k);
      WithKeyAppend(front, [x], key, k);
      assert front + [x] == s;
    }
  }

  predicate FirstWithKey<T>(s: seq<T>, key: T -> real, k: real, i: int) {
    0 <= i < |s| && key(s[i]) == k && forall j :: 0 <= j < i ==> key(s[j]) != k
  }

  lemma {:induction false} WithKeyFirst<T>(s: seq<T>, key: T -> real, k: real)
    requires WithKey(s, key, k) != []
    ensures exists i :: FirstWithKey(s, key, k, i) && s[i] == WithKey(s, key, k)[0]
  {
    if key(s[0]) != k {
      WithKeyFirst(s[1..], key, k);
      var i :| FirstWithKey(s[1..], key, k, i) && s[1..][i] == WithKey(s[1..], key, k)[0];
      assert s[i + 1] == s[1..][i];
      forall j | 0 <= j < i + 1
        ensures key(s[j]) != k
      {
        if j > 0 {
          assert s[j] == s[1..][j - 1];
        }
      }
      assert FirstWithKey(s, key, k, i + 1);
    } else {
      assert FirstWithKey(s, key, k, 0);
    }
  }

  /** `s[i]` has the largest key of `s`, and every element before it a strictly smaller one. */
  predicate IsFirstMax<T>(s: seq<T>, key: T -> real, i: int) {
    && 0 <= i < |s|
    && (forall j :: 0 <= j < |s| ==> key(s[j]) <= key(s[i]))
    && (forall j :: 0 <= j < i ==> key(s[j]) < key(s[i]))
  }

  /**
   * The head of the sorted copy is the first element, in the order of `s`,
   * whose key is the largest: every element's key is at most its key, and
   * every element before it has a strictly smaller key.
   */
  lemma HeadIsFirstMax<T>(s: seq<T>, key: T -> real)
    requires s != []
    ensures |SortDesc(s, key)| == |s|
    ensures exists i :: IsFirstMax(s, key, i) && s[i] == SortDesc(s, key)[0]
  {
    var r := SortDesc(s, key);
    SortDescSorted(s, key);
    assert |r| == |multiset(r)| == |multiset(s)| == |s|;
    var m := key(r[0]);
    forall j | 0 <= j < |s|
      ensures key(s[j]) <= m
    {
      assert s[j] in multiset(r);
      var t :| 0 <= t < |r| && r[t] == s[j];
    }
    SortDescStable(s, key, m);
    assert WithKey(r, key, m)[0] == r[0];
    WithKeyFirst(s, key, m);
  }
}
