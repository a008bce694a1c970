/**
 * `ORDER BY key DESC` over a sequence of rows: a stable insertion sort,
 * largest key first, and the facts the queries built on it need.
 */
module Sorting {

  predicate SortedDesc<T>(s: seq<T>, key: T -> int)
  {
    forall i, j :: 0 <= i < j < |s| ==> key(s[j]) <= key(s[i])
  }

  /** No value occurs twice. */
  predicate NoDuplicates<T(==)>(s: seq<T>)
  {
    forall i, j :: 0 <= i < j < |s| ==> s[i] != s[j]
  }

  /** Inserts `x` before the first element whose key is not larger than its own. */
  function InsertDesc<T>(x: T, s: seq<T>, key: T -> int): (r: seq<T>)
    requires SortedDesc(s, key)
    ensures SortedDesc(r, key)
    ensures multiset(r) == multiset(s) + multiset{x}
  {
    if s == [] || key(s[0]) <= key(x) then [x] + s
    else
      var rest := InsertDesc(x, s[1..], key);
      assert s == [s[0]] + s[1..];
      HeadBoundsTail(x, s, rest, key);
      [s[0]] + rest
  }

  lemma HeadBoundsTail<T>(x: T, s: seq<T>, rest: seq<T>, key: T -> int)
    requires s != [] && SortedDesc(s, key) && key(x) < key(s[0])
    requires SortedDesc(rest, key) && multiset(rest) == multiset(s[1..]) + multiset{x}
    ensures SortedDesc([s[0]] + rest, key)
  {
    var r := [s[0]] + rest;
    forall j | 0 <= j < |rest| ensures key(rest[j]) <= key(s[0]) {
      assert rest[j] in multiset(rest);
      if rest[j] != x {
        assert rest[j] in s[1..];
        var k :| 0 <= k < |s[1..]| && s[1..][k] == rest[j];
        assert s[k + 1] == rest[j];
      }
    }
    forall i, j | 0 <= i < j < |r| ensures key(r[j]) <= key(r[i]) {
      assert r[j] == rest[j - 1];
      if i > 0 {
        assert r[i] == rest[i - 1];
      }
    }
  }

  /** The rows of `s` ordered by key, largest first; rows with equal keys keep their order. */
  function SortDesc<T>(s: seq<T>, key: T -> int): (r: seq<T>)
    ensures SortedDesc(r, key)
    ensures multiset(r) == multiset(s)
    ensures |r| == |s|
  {
    if s == [] then []
    else
      assert s == [s[0]] + s[1..];
      InsertDesc(s[0], SortDesc(s[1..], key), key)
  }

  /** Every row left out of a prefix of a sorted sequence has a key no larger than any row kept. */
  lemma PrefixDominates<T>(s: seq<T>, k: nat, key: T -> int)
    requires SortedDesc(s, key) && k <= |s|
    ensures forall x, i :: x in multiset(s) - multiset(s[..k]) && 0 <= i < k ==> key(x) <= key(s[i])
  {
    assert s == s[..k] + s[k..];
    assert multiset(s) - multiset(s[..k]) == multiset(s[k..]);
    forall x, i | x in multiset(s) - multiset(s[..k]) && 0 <= i < k
      ensures key(x) <= key(s[i])
    {
      assert x in s[k..];
      var j :| k <= j < |s| && s[j] == x;
    }
  }

  lemma {:induction false} NoDuplicatesMultiplicity<T>(s: seq<T>)
    ensures NoDuplicates(s) <==> forall x :: multiset(s)[x] <= 1
  {
    if s != [] {
      NoDuplicatesMultiplicity(s[1..]);
      assert s == [s[0]] + s[1..];
      if NoDuplicates(s) {
        assert s[0] !in s[1..];
      }
    }
    if !NoDuplicates(s) {
      var i, j :| 0 <= i < j < |s| && s[i] == s[j];
      assert s == s[..j] + s[j..];
      assert s[i] in s[..j] && s[j] in s[j..];
      assert multiset(s)[s[i]] == multiset(s[..j])[s[i]] + multiset(s[j..])[s[i]];
    }
  }

  /** A permutation of a sequence without duplicates has none either. */
  lemma PermutationNoDuplicates<T>(a: seq<T>, b: seq<T>)
    requires multiset(a) == multiset(b) && NoDuplicates(a)
    ensures NoDuplicates(b)
  {
    NoDuplicatesMultiplicity(a);
    NoDuplicatesMultiplicity(b);
  }
}
