/** `orderBy: { key: 'desc' }`: ordering rows by an integer key, largest first. */
module Ordering {

  ghost predicate SortedDesc<T>(s: seq<T>, key: T -> int) {
    forall i, j :: 0 <= i < j < |s| ==> key(s[i]) >= key(s[j])
  }

  /** Every row of `s` has a key no larger than `bound`. */
  ghost predicate AllAtMost<T>(s: seq<T>, key: T -> int, bound: int) {
    forall i :: 0 <= i < |s| ==> key(s[i]) <= bound
  }

  /** A row no larger than `b` in front of rows no larger than `b`. */
  lemma ConsKeepsBound<T>(y: T, t: seq<T>, key: T -> int, b: int)
    requires key(y) <= b && AllAtMost(t, key, b)
    ensures AllAtMost([y] + t, key, b)
  {
    assert forall i :: 0 < i < |[y] + t| ==> ([y] + t)[i] == t[i - 1];
  }

  /** A row no smaller than any row of a descending sequence, put in front, keeps it descending. */
  lemma ConsKeepsSorted<T>(y: T, t: seq<T>, key: T -> int)
    requires SortedDesc(t, key) && AllAtMost(t, key, key(y))
    ensures SortedDesc([y] + t, key)
  {
    assert forall i :: 0 < i < |[y] + t| ==> ([y] + t)[i] == t[i - 1];
  }

  /** The recursive step of `Insert`: `x` goes into the tail, behind the head `s[0]`. */
  lemma InsertBehindHead<T>(x: T, s: seq<T>, t: seq<T>, key: T -> int)
    requires s != [] && key(x) < key(s[0])
    requires forall b :: AllAtMost(s[1..], key, b) && key(x) <= b ==> AllAtMost(t, key, b)
    requires SortedDesc(s[1..], key) ==> SortedDesc(t, key)
    ensures forall b :: AllAtMost(s, key, b) && key(x) <= b ==> AllAtMost([s[0]] + t, key, b)
    ensures SortedDesc(s, key) ==> SortedDesc([s[0]] + t, key)
  {
    forall b | AllAtMost(s, key, b) && key(x) <= b
      ensures AllAtMost([s[0]] + t, key, b)
    {
      assert AllAtMost(s[1..], key, b);
      ConsKeepsBound(s[0], t, key, b);
    }
    if SortedDesc(s, key) {
      assert AllAtMost(s[1..], key, key(s[0]));
      ConsKeepsSorted(s[0], t, key);
    }
  }

  /** Puts `x` in front of the first row whose key is less than or equal to its own. */
  function Insert<T>(x: T, s: seq<T>, key: T -> int): (r: seq<T>)
    ensures multiset(r) == multiset(s) + multiset{x}
    ensures |r| == |s| + 1
    ensures forall b :: AllAtMost(s, key, b) && key(x) <= b ==> AllAtMost(r, key, b)
    ensures SortedDesc(s, key) ==> SortedDesc(r, key)
  {
    if s == [] || key(x) >= key(s[0]) then
      [x] + s
    else
      var t := Insert(x, s[1..], key);
      assert s == [s[0]] + s[1..];
      InsertBehindHead(x, s, t, key);
      [s[0]] + t
  }

  /** Insertion sort: the rows of `s` ordered by descending key. */
  function SortDesc<T>(s: seq<T>, key: T -> int): (r: seq<T>)
    ensures multiset(r) == multiset(s)
    ensures |r| == |s|
    ensures SortedDesc(r, key)
  {
    if s == [] then []
    else
      assert s == [s[0]] + s[1..];
      Insert(s[0], SortDesc(s[1..], key), key)
  }

  /** A permutation has the same rows, so membership is preserved both ways. */
  lemma SortDescSameRows<T>(s: seq<T>, key: T -> int, x: T)
    ensures x in SortDesc(s, key) <==> x in s
  {
    assert x in SortDesc(s, key) <==> x in multiset(SortDesc(s, key));
  }
}
