/** Sequence operations that stand for list comprehensions, slices and the
    row-level effect of SQL statements on a table kept as a sequence of rows. */
module Seqs {
  import opened Outcomes

  /** `[x for x in s if p(x)]`. */
  function Filter<T>(s: seq<T>, p: T -> bool): (r: seq<T>)
    ensures |r| <= |s|
    ensures forall i :: 0 <= i < |r| ==> r[i] in s && p(r[i])
    ensures forall i :: 0 <= i < |s| && p(s[i]) ==> s[i] in r
    decreases |s|
  {
    if s == [] then []
    else Filter(s[..|s| - 1], p) + (if p(s[|s| - 1]) then [s[|s| - 1]] else [])
  }

  lemma {:induction false} FilterAppend<T>(s: seq<T>, t: seq<T>, p: T -> bool)
    ensures Filter(s + t, p) == Filter(s, p) + Filter(t, p)
    decreases |t|
  {
    if t == [] {
      assert s + t == s;
    } else {
      var st := s + t;
      assert st[..|st| - 1] == s + t[..|t| - 1];
      FilterAppend(s, t[..|t| - 1], p);
    }
  }

  /** Filtering a list with a first element `x`. */
  lemma {:induction false} FilterCons<T>(x: T, s: seq<T>, p: T -> bool)
    ensures Filter([x] + s, p) == (if p(x) then [x] else []) + Filter(s, p)
  {
    FilterAppend([x], s, p);
    assert [x][..0] == [];
  }

  /** Filtering by `p` and by its negation splits `s` into two parts that
      together hold every element of `s` exactly as often as `s` does. */
  lemma {:induction false} FilterPartition<T>(s: seq<T>, p: T -> bool, q: T -> bool)
    requires forall x :: q(x) == !p(x)
    ensures multiset(Filter(s, p)) + multiset(Filter(s, q)) == multiset(s)
    ensures |Filter(s, p)| + |Filter(s, q)| == |s|
    decreases |s|
  {
    if s != [] {
      var init, last := s[..|s| - 1], s[|s| - 1];
      assert s == init + [last];
      FilterPartition(init, p, q);
      FilterSnoc(init, last, p);
      FilterSnoc(init, last, q);
      assert multiset(s) == multiset(init) + multiset{last};
    }
    assert |multiset(Filter(s, p))| + |multiset(Filter(s, q))| == |multiset(s)|;
  }

  /** Two conditions that agree on every element of `s` filter it alike. */
  lemma {:induction false} FilterExt<T>(s: seq<T>, p: T -> bool, q: T -> bool)
    requires forall i :: 0 <= i < |s| ==> p(s[i]) == q(s[i])
    ensures Filter(s, p) == Filter(s, q)
    decreases |s|
  {
    if s != [] {
      FilterExt(s[..|s| - 1], p, q);
    }
  }

  /** `a` is `b` with some elements left out: the order of `b` is kept. */
  ghost predicate IsSubsequence<T>(a: seq<T>, b: seq<T>)
    decreases |b|
  {
    if a == [] then true
    else if b == [] then false
    else (a[|a| - 1] == b[|b| - 1] && IsSubsequence(a[..|a| - 1], b[..|b| - 1]))
         || IsSubsequence(a, b[..|b| - 1])
  }

  lemma {:induction false} SubsequenceOfItself<T>(s: seq<T>)
    ensures IsSubsequence(s, s)
    decreases |s|
  {
    if s != [] {
      SubsequenceOfItself(s[..|s| - 1]);
    }
  }

  /** A filter keeps the relative order of the elements it keeps. */
  lemma {:induction false} FilterIsSubsequence<T>(s: seq<T>, p: T -> bool)
    ensures IsSubsequence(Filter(s, p), s)
    decreases |s|
  {
    if s != [] {
      var init := s[..|s| - 1];
      FilterIsSubsequence(init, p);
      var f := Filter(s, p);
      if p(s[|s| - 1]) {
        assert f[..|f| - 1] == Filter(init, p);
      } else {
        assert f == Filter(init, p);
      }
    }
  }

  /** The table holds at most one row per key. */
  ghost predicate UniqueBy<T, K>(rows: seq<T>, key: T -> K)
  {
    forall i, j :: 0 <= i < j < |rows| ==> key(rows[i]) != key(rows[j])
  }

  predicate HasKey<T, K(==)>(rows: seq<T>, key: T -> K, k: K)
  {
    exists i :: 0 <= i < |rows| && key(rows[i]) == k
  }

  /** `WHERE <key> = k`. */
  function KeyEquals<T, K(==)>(key: T -> K, k: K): T -> bool
  {
    x => key(x) == k
  }

  /** With unique keys, a key selects one row if the table has it and none otherwise. */
  lemma {:induction false} UniqueKeyCount<T, K>(rows: seq<T>, key: T -> K, k: K)
    requires UniqueBy(rows, key)
    ensures |Filter(rows, KeyEquals(key, k))| == if HasKey(rows, key, k) then 1 else 0
    decreases |rows|
  {
    if rows != [] {
      var init := rows[..|rows| - 1];
      assert forall i :: 0 <= i < |init| ==> init[i] == rows[i];
      UniqueKeyCount(init, key, k);
      if key(rows[|rows| - 1]) == k {
        assert HasKey(rows, key, k);
      } else {
        if HasKey(rows, key, k) {
          var i :| 0 <= i < |rows| && key(rows[i]) == k;
          assert HasKey(init, key, k);
        }
      }
    }
  }

  /** `.one()` on a query result: the index of the first row that matches. */
  function FirstIndex<T>(rows: seq<T>, p: T -> bool): (r: Option<nat>)
    ensures r.Some? ==> r.value < |rows| && p(rows[r.value])
    ensures r.Some? ==> forall j :: 0 <= j < r.value ==> !p(rows[j])
    ensures r.None? ==> forall j :: 0 <= j < |rows| ==> !p(rows[j])
    decreases |rows|
  {
    if rows == [] then None
    else if p(rows[0]) then Some(0)
    else match FirstIndex(rows[1..], p)
      case None => None
      case Some(k) => Some(k + 1)
  }

  /** The first matching row itself. */
  function FirstMatch<T>(rows: seq<T>, p: T -> bool): (r: Option<T>)
    ensures r.Some? <==> exists i :: 0 <= i < |rows| && p(rows[i])
    ensures r.Some? ==> r.value in rows && p(r.value)
  {
    match FirstIndex(rows, p)
    case None => None
    case Some(i) => Some(rows[i])
  }

  /** `UPDATE ... SET ... WHERE p`: every matching row is rewritten by `f`,
      every other row is kept, and no row is added or removed. */
  function UpdateWhere<T>(rows: seq<T>, p: T -> bool, f: T -> T): (r: seq<T>)
    ensures |r| == |rows|
    ensures forall i :: 0 <= i < |rows| ==> r[i] == if p(rows[i]) then f(rows[i]) else rows[i]
  {
    seq(|rows|, i requires 0 <= i < |rows| => if p(rows[i]) then f(rows[i]) else rows[i])
  }

  /** An update that leaves the key alone keeps the keys unique. */
  lemma UpdateWhereKeepsUnique<T, K>(rows: seq<T>, key: T -> K, p: T -> bool, f: T -> T)
    requires UniqueBy(rows, key)
    requires forall x :: key(f(x)) == key(x)
    ensures UniqueBy(UpdateWhere(rows, p, f), key)
  {
    var r := UpdateWhere(rows, p, f);
    forall i, j | 0 <= i < j < |r| ensures key(r[i]) != key(r[j]) {
      assert key(r[i]) == key(rows[i]);
      assert key(r[j]) == key(rows[j]);
    }
  }

  /** `DELETE FROM ... WHERE p`. */
  function DeleteWhere<T>(rows: seq<T>, p: T -> bool): (r: seq<T>)
    ensures forall i :: 0 <= i < |r| ==> r[i] in rows && !p(r[i])
    ensures forall i :: 0 <= i < |rows| && !p(rows[i]) ==> rows[i] in r
  {
    Filter(rows, x => !p(x))
  }

  lemma {:induction false} FilterSnoc<T>(s: seq<T>, x: T, p: T -> bool)
    ensures Filter(s + [x], p) == Filter(s, p) + (if p(x) then [x] else [])
  {
    assert (s + [x])[..|s|] == s;
  }

  lemma {:induction false} DeleteWhereSnoc<T>(s: seq<T>, x: T, p: T -> bool)
    ensures DeleteWhere(s + [x], p) == DeleteWhere(s, p) + (if p(x) then [] else [x])
  {
    assert (s + [x])[..|s|] == s;
  }

  /** A delete and the rows it selects split the table. */
  lemma {:induction false} DeleteWhereSplits<T>(rows: seq<T>, p: T -> bool)
    ensures multiset(DeleteWhere(rows, p)) + multiset(Filter(rows, p)) == multiset(rows)
    ensures |DeleteWhere(rows, p)| + |Filter(rows, p)| == |rows|
    decreases |rows|
  {
    if rows != [] {
      var init := rows[..|rows| - 1];
      var last := rows[|rows| - 1];
      assert rows == init + [last];
      DeleteWhereSplits(init, p);
      DeleteWhereSnoc(init, last, p);
      FilterSnoc(init, last, p);
      assert multiset(rows) == multiset(init) + multiset{last};
    }
    assert |multiset(DeleteWhere(rows, p))| + |multiset(Filter(rows, p))| == |multiset(rows)|;
  }

  /** A delete keeps the keys unique. */
  lemma {:induction false} DeleteWhereKeepsUnique<T, K>(rows: seq<T>, key: T -> K, p: T -> bool)
    requires UniqueBy(rows, key)
    ensures UniqueBy(DeleteWhere(rows, p), key)
    decreases |rows|
  {
    if rows != [] {
      var init := rows[..|rows| - 1];
      var last := rows[|rows| - 1];
      assert forall i :: 0 <= i < |init| ==> init[i] == rows[i];
      DeleteWhereKeepsUnique(init, key, p);
      var d := DeleteWhere(init, p);
      assert DeleteWhere(rows, p) == d + (if p(last) then [] else [last]);
      forall i | 0 <= i < |d| ensures key(d[i]) != key(last) {
        var k :| 0 <= k < |init| && init[k] == d[i];
        assert key(rows[k]) != key(rows[|rows| - 1]);
      }
    }
  }

  /** `INSERT` of a row into a table with primary key `key`: a row with the same
      key is replaced, otherwise the row is appended. */
  function PutRow<T, K(==)>(rows: seq<T>, key: T -> K, row: T): (r: seq<T>)
    ensures row in r
    ensures forall i :: 0 <= i < |r| ==> r[i] == row || (r[i] in rows && key(r[i]) != key(row))
    ensures forall i :: 0 <= i < |rows| && key(rows[i]) != key(row) ==> rows[i] in r
    ensures !HasKey(rows, key, key(row)) ==> r == rows + [row]
    ensures UniqueBy(rows, key) ==> UniqueBy(r, key)
  {
    if HasKey(rows, key, key(row)) then
      var r := UpdateWhere(rows, x => key(x) == key(row), _ => row);
      assert forall i :: 0 <= i < |rows| ==> key(r[i]) == key(rows[i]);
      var i :| 0 <= i < |rows| && key(rows[i]) == key(row);
      assert r[i] == row;
      r
    else
      rows + [row]
  }

  /** Python's `s[:n]`, including a negative `n`, which drops the last `-n` elements. */
  function PrefixSlice<T>(s: seq<T>, n: int): (r: seq<T>)
    ensures |r| <= |s| && r == s[..|r|]
    ensures n >= 0 ==> |r| == if n < |s| then n else |s|
    ensures n < 0 ==> |r| == if |s| + n > 0 then |s| + n else 0
  {
    if n >= 0 then (if n < |s| then s[..n] else s)
    else if |s| + n > 0 then s[..|s| + n]
    else []
  }
}
