/** Python's `sorted(xs, key=...)`: a stable sort by an integer key. A `reverse=True` sort
    is the same stable sort on the negated key, since Python keeps equal elements in their
    original order in both directions. */
module Sorting {

  /** `s` is in non-decreasing key order. */
  predicate SortedBy<T>(s: seq<T>, key: T -> int)
  {
    forall i, j :: 0 <= i < j < |s| ==> key(s[i]) <= key(s[j])
  }

  /** The elements of `s` whose key is `k`, in their order in `s`. */
  function WithKey<T>(s: seq<T>, key: T -> int, k: int): seq<T>
  {
    if s == [] then []
    else if key(s[0]) == k then [s[0]] + WithKey(s[1..], key, k)
    else WithKey(s[1..], key, k)
  }

  /** Puts `x` in front of the first element whose key is not smaller. */
  function InsertBy<T>(x: T, s: seq<T>, key: T -> int): seq<T>
  {
    if s == [] || key(x) <= key(s[0]) then [x] + s else [s[0]] + InsertBy(x, s[1..], key)
  }

  /** Inserting adds `x` to the elements and keeps a sorted list sorted. */
  lemma {:induction false} InsertByPermutes<T>(x: T, s: seq<T>, key: T -> int)
    ensures multiset(InsertBy(x, s, key)) == multiset(s) + multiset{x}
    ensures |InsertBy(x, s, key)| == |s| + 1
    ensures SortedBy(s, key) ==> SortedBy(InsertBy(x, s, key), key)
    decreases |s|
  {
    if !(s == [] || key(x) <= key(s[0])) {
      InsertByPermutes(x, s[1..], key);
      assert s == [s[0]] + s[1..];
      var r := InsertBy(x, s, key);
      if SortedBy(s, key) {
        forall j | 0 < j < |r|
          ensures key(r[0]) <= key(r[j])
        {
          assert r[j] in multiset(s[1..]) + multiset{x};
          HeadBelow(x, s, key, r[j]);
        }
      }
    }
  }

  /** The head of a sorted list has no greater key than any later element, nor than an
      `x` with a greater key. */
  lemma HeadBelow<T>(x: T, s: seq<T>, key: T -> int, e: T)
    requires SortedBy(s, key) && s != [] && key(s[0]) < key(x)
    requires e in multiset(s[1..]) + multiset{x}
    ensures key(s[0]) <= key(e)
  {
    if e != x {
      assert e in s[1..];
      var k :| 0 <= k < |s[1..]| && s[1..][k] == e;
      assert s[k + 1] == e;
    }
  }

  /** The stable sort: each element goes in front of the later elements with the same key. */
  function SortBy<T>(s: seq<T>, key: T -> int): (r: seq<T>)
  {
    if s == [] then [] else InsertBy(s[0], SortBy(s[1..], key), key)
  }

  /** The sort returns the same elements, in non-decreasing key order. */
  lemma {:induction false} SortByPermutes<T>(s: seq<T>, key: T -> int)
    ensures multiset(SortBy(s, key)) == multiset(s)
    ensures SortedBy(SortBy(s, key), key)
    ensures |SortBy(s, key)| == |s|
  {
    if s != [] {
      SortByPermutes(s[1..], key);
      InsertByPermutes(s[0], SortBy(s[1..], key), key);
      assert s == [s[0]] + s[1..];
    }
  }

  lemma {:induction false} InsertByWithKey<T>(x: T, s: seq<T>, key: T -> int, k: int)
    requires SortedBy(s, key)
    ensures WithKey(InsertBy(x, s, key), key, k)
         == if key(x) == k then [x] + WithKey(s, key, k) else WithKey(s, key, k)
  {
    if s == [] || key(x) <= key(s[0]) {
      assert ([x] + s)[1..] == s;
    } else {
      assert SortedBy(s[1..], key);
      InsertByWithKey(x, s[1..], key, k);
      assert ([s[0]] + InsertBy(x, s[1..], key))[1..] == InsertBy(x, s[1..], key);
      if key(x) == k {
        assert WithKey(s, key, k) == WithKey(s[1..], key, k);
      }
    }
  }

  /** Stability: the elements of each key keep their relative order. */
  lemma {:induction false} SortByStable<T>(s: seq<T>, key: T -> int, k: int)
    ensures WithKey(SortBy(s, key), key, k) == WithKey(s, key, k)
  {
    if s != [] {
      SortByStable(s[1..], key, k);
      SortByPermutes(s[1..], key);
      InsertByWithKey(s[0], SortBy(s[1..], key), key, k);
    }
  }
}
