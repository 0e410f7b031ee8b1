/** Python's `sorted(xs, key=k)`: a stable sort. `sorted(..., reverse=True)`
    is the same stable sort on the negated key, since Python keeps equal
    elements in their original order in both directions. */
module Sorting {
  import opened Seqs

  ghost predicate SortedBy<T>(s: seq<T>, key: T -> real)
  {
    forall i, j :: 0 <= i < j < |s| ==> key(s[i]) <= key(s[j])
  }

  function SameKey<T>(key: T -> real, k: real): T -> bool
  {
    x => key(x) == k
  }

  /** The elements of `s` whose key is `k`, in their order in `s`. */
  function KeyClass<T>(s: seq<T>, key: T -> real, k: real): seq<T>
  {
    Filter(s, SameKey(key, k))
  }

  /** Inserts `x` before the first element whose key is not smaller. */
  function InsertBy<T>(x: T, s: seq<T>, key: T -> real): seq<T>
  {
    if s == [] || key(x) <= key(s[0]) then [x] + s
    else [s[0]] + InsertBy(x, s[1..], key)
  }

  /** Insertion sort from the back, so earlier elements end up before later
      ones with the same key. */
  function SortBy<T>(xs: seq<T>, key: T -> real): seq<T>
  {
    if xs == [] then [] else InsertBy(xs[0], SortBy(xs[1..], key), key)
  }

  lemma {:induction false} InsertByPermutation<T>(x: T, s: seq<T>, key: T -> real)
    ensures multiset(InsertBy(x, s, key)) == multiset{x} + multiset(s)
    decreases |s|
  {
    if s != [] && key(x) > key(s[0]) {
      InsertByPermutation(x, s[1..], key);
      assert s == [s[0]] + s[1..];
    }
  }

  /** The sorted list holds exactly the elements of the input, as often. */
  lemma {:induction false} SortByPermutation<T>(xs: seq<T>, key: T -> real)
    ensures multiset(SortBy(xs, key)) == multiset(xs)
    ensures |SortBy(xs, key)| == |xs|
    decreases |xs|
  {
    if xs != [] {
      SortByPermutation(xs[1..], key);
      InsertByPermutation(xs[0], SortBy(xs[1..], key), key);
      assert xs == [xs[0]] + xs[1..];
    }
    assert |multiset(SortBy(xs, key))| == |multiset(xs)|;
  }

  lemma {:induction false} InsertBySorted<T>(x: T, s: seq<T>, key: T -> real)
    requires SortedBy(s, key)
    ensures SortedBy(InsertBy(x, s, key), key)
    decreases |s|
  {
    if s != [] && key(x) > key(s[0]) {
      var t := InsertBy(x, s[1..], key);
      InsertBySorted(x, s[1..], key);
      InsertByPermutation(x, s[1..], key);
      forall j | 0 <= j < |t| ensures key(s[0]) <= key(t[j]) {
        assert t[j] in multiset(t);
        if t[j] != x {
          assert t[j] in multiset(s[1..]);
          var m :| 0 <= m < |s[1..]| && s[1..][m] == t[j];
          assert s[m + 1] == t[j];
        }
      }
      var r := [s[0]] + t;
      forall i, j | 0 <= i < j < |r| ensures key(r[i]) <= key(r[j]) {
        if i > 0 {
          assert r[i] == t[i - 1] && r[j] == t[j - 1];
        } else {
          assert r[j] == t[j - 1];
        }
      }
    }
  }

  /** The sorted list is in non-decreasing key order. */
  lemma {:induction false} SortBySorted<T>(xs: seq<T>, key: T -> real)
    ensures SortedBy(SortBy(xs, key), key)
    decreases |xs|
  {
    if xs != [] {
      SortBySorted(xs[1..], key);
      InsertBySorted(xs[0], SortBy(xs[1..], key), key);
    }
  }

  lemma {:induction false} InsertByKeyClass<T>(x: T, s: seq<T>, key: T -> real, k: real)
    ensures KeyClass(InsertBy(x, s, key), key, k)
         == (if key(x) == k then [x] + KeyClass(s, key, k) else KeyClass(s, key, k))
    decreases |s|
  {
    var p := SameKey(key, k);
    if s == [] || key(x) <= key(s[0]) {
      FilterCons(x, s, p);
    } else {
      var rest := InsertBy(x, s[1..], key);
      assert InsertBy(x, s, key) == [s[0]] + rest;
      InsertByKeyClass(x, s[1..], key, k);
      FilterCons(s[0], rest, p);
      assert s == [s[0]] + s[1..];
      FilterCons(s[0], s[1..], p);
      if key(x) == k {
        // the head's key is smaller than `x`'s, so it is not in the class
        assert !p(s[0]);
      }
    }
  }

  /** Stability: for every key, the elements with that key appear in the
      sorted list in exactly the order they had in the input. */
  lemma {:induction false} SortByStable<T>(xs: seq<T>, key: T -> real, k: real)
    ensures KeyClass(SortBy(xs, key), key, k) == KeyClass(xs, key, k)
    decreases |xs|
  {
    if xs != [] {
      var p := SameKey(key, k);
      SortByStable(xs[1..], key, k);
      InsertByKeyClass(xs[0], SortBy(xs[1..], key), key, k);
      FilterAppend([xs[0]], xs[1..], p);
      assert xs == [xs[0]] + xs[1..];
      assert Filter([xs[0]], p) == (if key(xs[0]) == k then [xs[0]] else []) by {
        assert [xs[0]][..0] == [];
      }
    }
  }

  lemma KeyClassSplit<T>(s: seq<T>, key: T -> real, k: real)
    requires s != []
    ensures KeyClass(s, key, k)
         == (if key(s[0]) == k then [s[0]] else []) + KeyClass(s[1..], key, k)
  {
    assert s == [s[0]] + s[1..];
    FilterCons(s[0], s[1..], SameKey(key, k));
  }

  lemma SortedHeadIsLeast<T>(t: seq<T>, key: T -> real, x: T)
    requires SortedBy(t, key) && x in t
    ensures key(t[0]) <= key(x)
  {
    var i :| 0 <= i < |t| && t[i] == x;
    if i > 0 {
      assert key(t[0]) <= key(t[i]);
    }
  }

  lemma ClassesShareMembers<T>(t: seq<T>, u: seq<T>, key: T -> real, x: T)
    requires forall k :: KeyClass(t, key, k) == KeyClass(u, key, k)
    requires x in t
    ensures x in u
  {
    var i :| 0 <= i < |t| && t[i] == x;
    assert x in KeyClass(t, key, key(x));
    assert KeyClass(t, key, key(x)) == KeyClass(u, key, key(x));
    var j :| 0 <= j < |KeyClass(u, key, key(x))| && KeyClass(u, key, key(x))[j] == x;
  }

  lemma SortedTail<T>(t: seq<T>, key: T -> real)
    requires t != [] && SortedBy(t, key)
    ensures SortedBy(t[1..], key)
  {
    forall i, j | 0 <= i < j < |t| - 1 ensures key(t[1..][i]) <= key(t[1..][j]) {
      assert t[1..][i] == t[i + 1] && t[1..][j] == t[j + 1];
    }
  }

  lemma TailClassesAgree<T>(t: seq<T>, u: seq<T>, key: T -> real)
    requires t != [] && u != [] && t[0] == u[0]
    requires forall k :: KeyClass(t, key, k) == KeyClass(u, key, k)
    ensures forall k :: KeyClass(t[1..], key, k) == KeyClass(u[1..], key, k)
  {
    forall k ensures KeyClass(t[1..], key, k) == KeyClass(u[1..], key, k) {
      KeyClassSplit(t, key, k);
      KeyClassSplit(u, key, k);
      var pre: seq<T> := if key(t[0]) == k then [t[0]] else [];
      assert KeyClass(t[1..], key, k) == KeyClass(t, key, k)[|pre|..];
      assert KeyClass(u[1..], key, k) == KeyClass(u, key, k)[|pre|..];
    }
  }

  /** Two lists sorted by the same key whose key classes agree are equal. */
  lemma {:induction false} SortedClassesDetermine<T>(t: seq<T>, u: seq<T>, key: T -> real)
    requires SortedBy(t, key) && SortedBy(u, key)
    requires forall k :: KeyClass(t, key, k) == KeyClass(u, key, k)
    ensures t == u
    decreases |t|
  {
    if t != [] {
      ClassesShareMembers(t, u, key, t[0]);
    }
    if u != [] {
      ClassesShareMembers(u, t, key, u[0]);
    }
    if t != [] && u != [] {
      SortedHeadsAgree(t, u, key);
      TailClassesAgree(t, u, key);
      SortedTail(t, key);
      SortedTail(u, key);
      SortedClassesDetermine(t[1..], u[1..], key);
      assert t == [t[0]] + t[1..] && u == [u[0]] + u[1..];
    }
  }

  /** Two sorted lists whose key classes agree start with the same element. */
  lemma {:induction false} SortedHeadsAgree<T>(t: seq<T>, u: seq<T>, key: T -> real)
    requires t != [] && u != []
    requires SortedBy(t, key) && SortedBy(u, key)
    requires forall k :: KeyClass(t, key, k) == KeyClass(u, key, k)
    ensures t[0] == u[0]
  {
    var a, b := t[0], u[0];
    ClassesShareMembers(t, u, key, a);
    ClassesShareMembers(u, t, key, b);
    SortedHeadIsLeast(u, key, a);
    SortedHeadIsLeast(t, key, b);
    var k0 := key(a);
    assert key(b) == k0;
    KeyClassSplit(t, key, k0);
    KeyClassSplit(u, key, k0);
    assert KeyClass(t, key, k0) == KeyClass(u, key, k0);
    assert KeyClass(t, key, k0)[0] == a;
    assert KeyClass(u, key, k0)[0] == b;
  }

  /** Sorting neither adds nor drops an element. */
  lemma SortByMembers<T>(xs: seq<T>, key: T -> real)
    ensures |SortBy(xs, key)| == |xs|
    ensures forall i :: 0 <= i < |SortBy(xs, key)| ==> SortBy(xs, key)[i] in xs
    ensures forall i :: 0 <= i < |xs| ==> xs[i] in SortBy(xs, key)
  {
    var t := SortBy(xs, key);
    SortByPermutation(xs, key);
    forall i | 0 <= i < |t| ensures t[i] in xs {
      assert t[i] in multiset(t);
    }
    forall i | 0 <= i < |xs| ensures xs[i] in t {
      assert xs[i] in multiset(xs);
    }
  }

  /** Any stable sort of `xs` by `key` (Python's Timsort included) yields
      `SortBy(xs, key)`: sortedness and stability pin the result down. */
  lemma SortByIsTheStableSort<T>(xs: seq<T>, t: seq<T>, key: T -> real)
    requires SortedBy(t, key)
    requires forall k :: KeyClass(t, key, k) == KeyClass(xs, key, k)
    ensures t == SortBy(xs, key)
  {
    SortBySorted(xs, key);
    forall k ensures KeyClass(SortBy(xs, key), key, k) == KeyClass(xs, key, k) {
      SortByStable(xs, key, k);
    }
    SortedClassesDetermine(t, SortBy(xs, key), key);
  }
}
