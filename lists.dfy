/**
 * The sequence operations the profile builder takes from the Java
 * collections library: Stream.distinct() and List.removeAll over object
 * identities (an object is identified here by its position in the list).
 */
module Lists {

  predicate NoDuplicates<T(==)>(s: seq<T>) {
    forall i, j :: 0 <= i < j < |s| ==> s[i] != s[j]
  }

  /** The position of the first occurrence of x in s. */
  function FirstIndex<T(==)>(s: seq<T>, x: T): (k: nat)
    requires x in s
    ensures k < |s| && s[k] == x && x !in s[..k]
  {
    if s[0] == x then 0
    else
      var k' := FirstIndex(s[1..], x);
      assert s[..k' + 1] == [s[0]] + s[1..][..k'];
      1 + k'
  }

  /** Any position holding x with no earlier x is the first index of x. */
  lemma FirstIndexUnique<T>(s: seq<T>, x: T, k: nat)
    requires k < |s| && s[k] == x && x !in s[..k]
    ensures FirstIndex(s, x) == k
  {
  }

  /**
   * Stream.distinct(): each element once, at its first occurrence.
   * The result holds exactly the elements of s, without repetition.
   */
  function Distinct<T(==,!new)>(s: seq<T>): (r: seq<T>)
    ensures forall x :: x in r <==> x in s
    ensures NoDuplicates(r)
  {
    if s == [] then []
    else
      var p, x := s[..|s| - 1], s[|s| - 1];
      assert s == p + [x];
      var d := Distinct(p);
      if x in d then d else d + [x]
  }

  /** Distinct keeps the elements in the order of their first occurrences. */
  lemma {:induction false} DistinctKeepsFirstOccurrenceOrder<T(!new)>(s: seq<T>)
    ensures forall i, j :: 0 <= i < j < |Distinct(s)| ==>
      FirstIndex(s, Distinct(s)[i]) < FirstIndex(s, Distinct(s)[j])
  {
    if s != [] {
      var p, x := s[..|s| - 1], s[|s| - 1];
      assert s == p + [x];
      var d := Distinct(p);
      DistinctKeepsFirstOccurrenceOrder(p);
      forall y | y in p
        ensures FirstIndex(s, y) == FirstIndex(p, y)
      {
        var k := FirstIndex(p, y);
        assert s[..k] == p[..k];
        FirstIndexUnique(s, y, k);
      }
      if x !in d {
        assert x !in s[..|s| - 1];
        FirstIndexUnique(s, x, |s| - 1);
        assert Distinct(s) == d + [x];
        forall i, j | 0 <= i < j < |Distinct(s)|
          ensures FirstIndex(s, Distinct(s)[i]) < FirstIndex(s, Distinct(s)[j])
        {
          assert Distinct(s)[i] == d[i] && d[i] in p;
          if j < |d| {
            assert Distinct(s)[j] == d[j];
          }
        }
      }
    }
  }

  /**
   * List.removeAll where the removed objects are named by position: the
   * elements at positions from `from` on that are not in `gone`, in order.
   */
  function RemoveAt<T(!new)>(s: seq<T>, gone: set<int>, from: nat): (r: seq<T>)
    requires from <= |s|
    ensures |r| <= |s| - from
    ensures forall x :: x in r ==> exists j :: from <= j < |s| && j !in gone && s[j] == x
    ensures forall j :: from <= j < |s| && j !in gone ==> s[j] in r
    decreases |s| - from
  {
    if from == |s| then []
    else (if from in gone then [] else [s[from]]) + RemoveAt(s, gone, from + 1)
  }

  /** The positions from `from` up to n that are not in gone, each once. */
  function Unmarked(n: nat, gone: set<int>, from: nat): (f: seq<int>)
    requires from <= n
    ensures forall k :: 0 <= k < |f| ==> from <= f[k] < n && f[k] !in gone
    ensures forall j :: from <= j < n && j !in gone ==> j in f
    decreases n - from
  {
    if from == n then [] else (if from in gone then [] else [from]) + Unmarked(n, gone, from + 1)
  }

  /** Each position is below every one after it. */
  predicate Increasing(f: seq<int>) {
    forall a, b :: 0 <= a < b < |f| ==> f[a] < f[b]
  }

  /** Unmarked lists the positions in increasing order. */
  lemma {:induction false} UnmarkedIncreasing(n: nat, gone: set<int>, from: nat)
    requires from <= n
    ensures Increasing(Unmarked(n, gone, from))
    decreases n - from
  {
    if from < n {
      UnmarkedIncreasing(n, gone, from + 1);
      var rest := Unmarked(n, gone, from + 1);
      if from in gone {
        assert Unmarked(n, gone, from) == rest;
      } else {
        assert Unmarked(n, gone, from) == [from] + rest;
        Ascending(from, rest);
      }
    }
  }

  /** Putting a position before larger increasing positions keeps them increasing. */
  lemma Ascending(x: int, rest: seq<int>)
    requires forall k :: 0 <= k < |rest| ==> x < rest[k]
    requires Increasing(rest)
    ensures Increasing([x] + rest)
  {
    var f := [x] + rest;
    forall a, b | 0 <= a < b < |f|
      ensures f[a] < f[b]
    {
      assert f[b] == rest[b - 1];
      if a > 0 {
        assert f[a] == rest[a - 1];
      }
    }
  }

  /** The elements of s at the positions f lists, in that order. */
  function Pick<T>(s: seq<T>, f: seq<int>): (r: seq<T>)
    requires forall k :: 0 <= k < |f| ==> 0 <= f[k] < |s|
    ensures |r| == |f|
    ensures forall k :: 0 <= k < |f| ==> r[k] == s[f[k]]
  {
    if f == [] then []
    else
      var rest := Pick(s, f[1..]);
      assert forall k :: 1 <= k < |f| ==> ([s[f[0]]] + rest)[k] == rest[k - 1] && f[1..][k - 1] == f[k];
      [s[f[0]]] + rest
  }

  /**
   * RemoveAt keeps order and count: it is exactly the elements at the
   * unmarked positions, one per position, in increasing position order.
   */
  lemma {:induction false} RemoveAtKeepsOrder<T(!new)>(s: seq<T>, gone: set<int>, from: nat)
    requires from <= |s|
    ensures RemoveAt(s, gone, from) == Pick(s, Unmarked(|s|, gone, from))
    decreases |s| - from
  {
    if from < |s| {
      RemoveAtKeepsOrder(s, gone, from + 1);
      var fs := Unmarked(|s|, gone, from + 1);
      if from !in gone {
        assert ([from] + fs)[1..] == fs;
      }
    }
  }
}
