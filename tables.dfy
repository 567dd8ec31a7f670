/** Generic operations on a table stored as a sequence of rows, each row identified by a key. */
module Tables {
  import opened Common

  /** No two rows share a key (a primary key or a unique column). */
  ghost predicate UniqueKeys<T, K>(rows: seq<T>, key: T -> K) {
    forall i, j :: 0 <= i < j < |rows| ==> key(rows[i]) != key(rows[j])
  }

  /** Some row carries key `k`. */
  predicate HasKey<T, K(==)>(rows: seq<T>, key: T -> K, k: K) {
    exists i :: 0 <= i < |rows| && key(rows[i]) == k
  }

  /** `findUnique({ where: { key: k } })`: the first row whose key is `k`, if any. */
  function Find<T, K(==)>(rows: seq<T>, key: T -> K, k: K): (r: Option<T>)
    ensures r.None? <==> !HasKey(rows, key, k)
    ensures r.Some? ==> r.value in rows && key(r.value) == k
  {
    if rows == [] then None
    else if key(rows[0]) == k then Some(rows[0])
    else
      var r := Find(rows[1..], key, k);
      assert HasKey(rows, key, k) ==> key(rows[0]) == k || HasKey(rows[1..], key, k) by {
        if HasKey(rows, key, k) {
          var i :| 0 <= i < |rows| && key(rows[i]) == k;
          if i > 0 { assert key(rows[1..][i - 1]) == k; }
        }
      }
      r
  }

  /** When keys are unique, `Find` returns exactly the row at the index that carries the key. */
  lemma {:induction false} FindUnique<T, K>(rows: seq<T>, key: T -> K, i: nat)
    requires UniqueKeys(rows, key)
    requires i < |rows|
    ensures Find(rows, key, key(rows[i])) == Some(rows[i])
  {
    if i > 0 {
      assert key(rows[0]) != key(rows[i]);
      FindUnique(rows[1..], key, i - 1);
    }
  }

  /** Every row whose key is `k` is replaced by `v`; all other rows stay where they are. */
  function Replace<T, K(==)>(rows: seq<T>, key: T -> K, k: K, v: T): (r: seq<T>)
    ensures |r| == |rows|
    ensures forall i :: 0 <= i < |rows| ==> r[i] == if key(rows[i]) == k then v else rows[i]
  {
    if rows == [] then []
    else [if key(rows[0]) == k then v else rows[0]] + Replace(rows[1..], key, k, v)
  }

  /** The rows whose key is not `k`, in their original order. */
  function Remove<T, K(==)>(rows: seq<T>, key: T -> K, k: K): (r: seq<T>)
    ensures forall i :: 0 <= i < |r| ==> r[i] in rows && key(r[i]) != k
    ensures forall i :: 0 <= i < |rows| && key(rows[i]) != k ==> rows[i] in r
    ensures |r| <= |rows|
  {
    if rows == [] then []
    else if key(rows[0]) == k then Remove(rows[1..], key, k)
    else [rows[0]] + Remove(rows[1..], key, k)
  }

  /** Removing a key that is present, when keys are unique, drops exactly one row. */
  lemma {:induction false} RemoveOne<T, K>(rows: seq<T>, key: T -> K, k: K)
    requires UniqueKeys(rows, key)
    requires HasKey(rows, key, k)
    ensures |Remove(rows, key, k)| == |rows| - 1
  {
    var i :| 0 <= i < |rows| && key(rows[i]) == k;
    if i == 0 {
      forall j | 0 <= j < |rows[1..]| ensures key(rows[1..][j]) != k {
        assert key(rows[0]) != key(rows[j + 1]);
      }
      RemoveAbsent(rows[1..], key, k);
    } else {
      assert key(rows[1..][i - 1]) == k;
      RemoveOne(rows[1..], key, k);
    }
  }

  /** Removing a key that is absent changes nothing. */
  lemma {:induction false} RemoveAbsent<T, K>(rows: seq<T>, key: T -> K, k: K)
    requires forall j :: 0 <= j < |rows| ==> key(rows[j]) != k
    ensures Remove(rows, key, k) == rows
  {
    if rows != [] {
      RemoveAbsent(rows[1..], key, k);
    }
  }

  /** Unique keys survive removal. */
  lemma {:induction false} RemoveKeepsUnique<T, K>(rows: seq<T>, key: T -> K, k: K)
    requires UniqueKeys(rows, key)
    ensures UniqueKeys(Remove(rows, key, k), key)
  {
    if rows != [] {
      RemoveKeepsUnique(rows[1..], key, k);
      var rest := Remove(rows[1..], key, k);
      if key(rows[0]) != k {
        var r := [rows[0]] + rest;
        forall i, j | 0 <= i < j < |r| ensures key(r[i]) != key(r[j]) {
          if i == 0 {
            assert r[j] in rest;
            var m :| 0 <= m < |rows[1..]| && rows[1..][m] == r[j];
            assert key(rows[0]) != key(rows[m + 1]);
          }
        }
      }
    }
  }

  /** The rows satisfying `p`, in their original order (`findMany({ where })`). */
  function Filter<T>(rows: seq<T>, p: T -> bool): (r: seq<T>)
    ensures forall i :: 0 <= i < |r| ==> r[i] in rows && p(r[i])
    ensures forall i :: 0 <= i < |rows| && p(rows[i]) ==> rows[i] in r
    ensures |r| <= |rows|
  {
    if rows == [] then []
    else if p(rows[0]) then [rows[0]] + Filter(rows[1..], p)
    else Filter(rows[1..], p)
  }

  /** A filter that accepts every row keeps the table as it is. */
  lemma {:induction false} FilterAll<T>(rows: seq<T>, p: T -> bool)
    requires forall i :: 0 <= i < |rows| ==> p(rows[i])
    ensures Filter(rows, p) == rows
  {
    if rows != [] {
      FilterAll(rows[1..], p);
    }
  }

  /** Filtering keeps the multiplicity of each accepted row. */
  lemma {:induction false} FilterMultiset<T>(rows: seq<T>, p: T -> bool, x: T)
    ensures multiset(Filter(rows, p))[x] == if p(x) then multiset(rows)[x] else 0
  {
    if rows != [] {
      FilterMultiset(rows[1..], p, x);
      assert rows == [rows[0]] + rows[1..];
    }
  }
  /** After replacing the row keyed `k`, a lookup of `k` gives the new row and every other lookup is unchanged. */
  lemma {:induction false} FindAfterReplace<T, K>(rows: seq<T>, key: T -> K, k: K, v: T, other: K)
    requires key(v) == k
    ensures Find(Replace(rows, key, k, v), key, other) ==
      if other != k then Find(rows, key, other) else if HasKey(rows, key, k) then Some(v) else None
  {
    if rows != [] {
      FindAfterReplace(rows[1..], key, k, v, other);
    }
  }

  /** After removing the rows keyed `k`, `k` is gone and every other lookup is unchanged. */
  lemma {:induction false} FindAfterRemove<T, K>(rows: seq<T>, key: T -> K, k: K, other: K)
    ensures Find(Remove(rows, key, k), key, other) == if other == k then None else Find(rows, key, other)
  {
    if rows != [] {
      FindAfterRemove(rows[1..], key, k, other);
    }
  }

  /** After appending a row with a fresh key, that key finds it and every other lookup is unchanged. */
  lemma {:induction false} FindAfterAppend<T, K>(rows: seq<T>, key: T -> K, v: T, other: K)
    requires !HasKey(rows, key, key(v))
    ensures Find(rows + [v], key, other) == if other == key(v) then Some(v) else Find(rows, key, other)
  {
    if rows == [] {
    } else {
      assert (rows + [v])[1..] == rows[1..] + [v];
      if key(rows[0]) != other {
        FindAfterAppend(rows[1..], key, v, other);
      }
    }
  }
  /** Two tables of the same length with the same key at every position. */
  ghost predicate SameKeys<T, K>(a: seq<T>, b: seq<T>, key: T -> K) {
    |a| == |b| && forall i :: 0 <= i < |a| ==> key(a[i]) == key(b[i])
  }

  /** Replacing a row by one with the same key keeps every key in place. */
  lemma ReplaceSameKeys<T, K>(rows: seq<T>, key: T -> K, k: K, v: T)
    requires key(v) == k
    ensures SameKeys(rows, Replace(rows, key, k, v), key)
  {
  }

  /** Tables with the same keys agree on uniqueness and on which keys are present. */
  lemma SameKeysAgree<T, K>(a: seq<T>, b: seq<T>, key: T -> K)
    requires SameKeys(a, b, key)
    ensures UniqueKeys(a, key) ==> UniqueKeys(b, key)
    ensures forall o :: HasKey(a, key, o) <==> HasKey(b, key, o)
  {
    forall o | HasKey(a, key, o) ensures HasKey(b, key, o) {
      var i :| 0 <= i < |a| && key(a[i]) == o;
      assert key(b[i]) == o;
    }
    forall o | HasKey(b, key, o) ensures HasKey(a, key, o) {
      var i :| 0 <= i < |b| && key(b[i]) == o;
      assert key(a[i]) == o;
    }
  }
  /** Filters that agree on every row of the table select the same rows. */
  lemma {:induction false} FilterCongruent<T>(rows: seq<T>, p: T -> bool, q: T -> bool)
    requires forall x :: x in rows ==> p(x) == q(x)
    ensures Filter(rows, p) == Filter(rows, q)
  {
    if rows != [] {
      FilterCongruent(rows[1..], p, q);
    }
  }
}
