/** Python's `sorted(xs, key=k, reverse=True)` and `list.sort(key=k, reverse=True)`:
    a stable sort into non-increasing key order. Modelled as insertion sort;
    what matters is the result, which is unique: the sorted permutation in
    which elements with equal keys keep their input order. */
module Sorting {

  /** Non-increasing by `key`. */
  predicate SortedDesc<T>(s: seq<T>, key: T -> real) {
    forall i, j :: 0 <= i < j < |s| ==> key(s[i]) >= key(s[j])
  }

  /** The elements whose key is exactly `v`, in order. */
  function WithKey<T>(s: seq<T>, key: T -> real, v: real): seq<T> {
    if s == [] then []
    else (if key(s[0]) == v then [s[0]] else []) + WithKey(s[1..], key, v)
  }

  /** Inserts `x` after every element whose key is strictly greater. */
  function Insert<T>(x: T, t: seq<T>, key: T -> real): seq<T> {
    if t == [] then [x]
    else if key(t[0]) > key(x) then [t[0]] + Insert(x, t[1..], key)
    else [x] + t
  }

  function SortDesc<T>(s: seq<T>, key: T -> real): (r: seq<T>)
    ensures |r| == |s|
  {
    if s == [] then []
    else
      InsertPermutes(s[0], SortDesc(s[1..], key), key);
      Insert(s[0], SortDesc(s[1..], key), key)
  }

  lemma {:induction false} InsertPermutes<T>(x: T, t: seq<T>, key: T -> real)
    ensures multiset(Insert(x, t, key)) == multiset{x} + multiset(t)
    ensures |Insert(x, t, key)| == |t| + 1
  {
    if t != [] && key(t[0]) > key(x) {
      InsertPermutes(x, t[1..], key);
      assert t == [t[0]] + t[1..];
    }
  }

  /** Every key in `s` is at most `b`. */
  predicate KeysAtMost<T>(s: seq<T>, key: T -> real, b: real) {
    forall i :: 0 <= i < |s| ==> key(s[i]) <= b
  }

  lemma {:induction false} InsertKeysAtMost<T>(x: T, t: seq<T>, key: T -> real, b: real)
    requires KeysAtMost(t, key, b) && key(x) <= b
    ensures KeysAtMost(Insert(x, t, key), key, b)
  {
    if t != [] && key(t[0]) > key(x) {
      InsertKeysAtMost(x, t[1..], key, b);
      var r := Insert(x, t[1..], key);
      assert forall i :: 1 <= i < |r| + 1 ==> ([t[0]] + r)[i] == r[i - 1];
    }
  }

  lemma ConsSorted<T>(a: T, r: seq<T>, key: T -> real)
    requires SortedDesc(r, key) && KeysAtMost(r, key, key(a))
    ensures SortedDesc([a] + r, key)
  {
    var s := [a] + r;
    forall i, j | 0 <= i < j < |s|
      ensures key(s[i]) >= key(s[j])
    {
      assert s[j] == r[j - 1];
      if i > 0 {
        assert s[i] == r[i - 1];
      }
    }
  }

  lemma {:induction false} InsertSorted<T>(x: T, t: seq<T>, key: T -> real)
    requires SortedDesc(t, key)
    ensures SortedDesc(Insert(x, t, key), key)
  {
    if t == [] {
    } else if key(t[0]) > key(x) {
      InsertSorted(x, t[1..], key);
      assert KeysAtMost(t[1..], key, key(t[0]));
      InsertKeysAtMost(x, t[1..], key, key(t[0]));
      ConsSorted(t[0], Insert(x, t[1..], key), key);
    } else {
      assert KeysAtMost(t, key, key(x));
      ConsSorted(x, t, key);
    }
  }

  lemma WithKeyCons<T>(a: T, s: seq<T>, key: T -> real, v: real)
    ensures WithKey([a] + s, key, v) == (if key(a) == v then [a] else []) + WithKey(s, key, v)
  {
    assert ([a] + s)[0] == a && ([a] + s)[1..] == s;
  }

  /** Inserting `x` puts it ahead of every element with its own key. */
  lemma {:induction false} InsertWithKey<T>(x: T, t: seq<T>, key: T -> real, v: real)
    ensures WithKey(Insert(x, t, key), key, v) ==
            (if key(x) == v then [x] else []) + WithKey(t, key, v)
  {
    if t == [] {
      WithKeyCons(x, [], key, v);
    } else if key(t[0]) > key(x) {
      var rest := Insert(x, t[1..], key);
      InsertWithKey(x, t[1..], key, v);
      WithKeyCons(t[0], rest, key, v);
      WithKeyCons(t[0], t[1..], key, v);
      assert t == [t[0]] + t[1..];
      if key(x) == v {
        assert key(t[0]) != v;
      }
    } else {
      WithKeyCons(x, t, key, v);
    }
  }

  /** The defining properties of a stable descending sort: same length, a
      permutation, non-increasing, and for every key value the elements
      carrying it appear in their input order. */
  lemma {:induction false} SortDescCorrect<T>(s: seq<T>, key: T -> real)
    ensures |SortDesc(s, key)| == |s|
    ensures multiset(SortDesc(s, key)) == multiset(s)
    ensures SortedDesc(SortDesc(s, key), key)
    ensures forall v :: WithKey(SortDesc(s, key), key, v) == WithKey(s, key, v)
  {
    if s != [] {
      var t := SortDesc(s[1..], key);
      SortDescCorrect(s[1..], key);
      InsertPermutes(s[0], t, key);
      InsertSorted(s[0], t, key);
      assert s == [s[0]] + s[1..];
      forall v
        ensures WithKey(SortDesc(s, key), key, v) == WithKey(s, key, v)
      {
        InsertWithKey(s[0], t, key, v);
      }
    }
  }

  /** Elements of the sorted sequence are exactly the input's elements. */
  lemma SortDescMembers<T>(s: seq<T>, key: T -> real)
    ensures forall x :: x in SortDesc(s, key) <==> x in s
  {
    SortDescCorrect(s, key);
    forall x
      ensures x in SortDesc(s, key) <==> x in s
    {
      assert x in SortDesc(s, key) <==> x in multiset(SortDesc(s, key));
      assert x in s <==> x in multiset(s);
    }
  }

  /** Cutting the sorted sequence keeps the best: an element left out scores
      no higher than any element kept. */
  lemma CutKeepsTheBest<T>(s: seq<T>, key: T -> real, n: nat, x: T, y: T)
    requires n <= |s|
    requires x in SortDesc(s, key)[..n] && y in s && y !in SortDesc(s, key)[..n]
    ensures key(y) <= key(x)
  {
    var sorted := SortDesc(s, key);
    SortDescCorrect(s, key);
    SortDescMembers(s, key);
    var i :| 0 <= i < n && sorted[..n][i] == x;
    var j :| 0 <= j < |sorted| && sorted[j] == y;
    assert sorted[i] == x;
  }

  /** A prefix of a sorted sequence is sorted. */
  lemma PrefixSorted<T>(s: seq<T>, key: T -> real, n: nat)
    requires SortedDesc(s, key) && n <= |s|
    ensures SortedDesc(s[..n], key)
  {
  }

  /** Taking a prefix keeps, for each key value, a prefix of the elements carrying it. */
  lemma {:induction false} WithKeyOfPrefix<T>(s: seq<T>, key: T -> real, v: real, n: nat)
    requires n <= |s|
    ensures |WithKey(s[..n], key, v)| <= |WithKey(s, key, v)|
    ensures WithKey(s[..n], key, v) == WithKey(s, key, v)[..|WithKey(s[..n], key, v)|]
  {
    if n > 0 {
      WithKeyOfPrefix(s[1..], key, v, n - 1);
      assert s[..n][0] == s[0] && s[..n][1..] == s[1..][..n - 1];
    }
  }
}
