/** pandas `sort_values` on one numeric key, with the default `na_position='last'`.
    The source's sorts are not stable, so clients rely only on `SortedBy` and on
    the result being a permutation; `Sort` is one admissible outcome. */
module Ordering {
  import opened Wrappers
  import opened Sequences

  datatype Direction = Ascending | Descending

  /** May a row keyed `a` stand before a row keyed `b`? Missing keys go last in both directions. */
  predicate Precedes(dir: Direction, a: Option<real>, b: Option<real>) {
    match a
    case None => b.None?
    case Some(x) =>
      match b
      case None => true
      case Some(y) => if dir == Ascending then x <= y else y <= x
  }

  predicate SortedBy<T>(s: seq<T>, key: T -> Option<real>, dir: Direction) {
    forall i, j :: 0 <= i < j < |s| ==> Precedes(dir, key(s[i]), key(s[j]))
  }

  /** Inserts `x` before the first element it may precede. */
  function Insert<T>(x: T, s: seq<T>, key: T -> Option<real>, dir: Direction): (r: seq<T>)
    requires SortedBy(s, key, dir)
    ensures |r| == |s| + 1
    ensures multiset(r) == multiset(s) + multiset{x}
    ensures forall y :: y in r ==> y == x || y in s
    ensures SortedBy(r, key, dir)
  {
    if |s| == 0 then [x]
    else if Precedes(dir, key(x), key(s[0])) then [x] + s
    else
      assert s == [s[0]] + s[1..];
      var tail := Insert(x, s[1..], key, dir);
      assert forall y :: y in tail ==> Precedes(dir, key(s[0]), key(y)) by {
        forall y | y in tail
          ensures Precedes(dir, key(s[0]), key(y))
        {
          if y != x {
            var j :| 1 <= j < |s| && s[j] == y;
          }
        }
      }
      [s[0]] + tail
  }

  /** Sorts by `key` in direction `dir`; missing keys last. */
  function Sort<T>(s: seq<T>, key: T -> Option<real>, dir: Direction): (r: seq<T>)
    ensures |r| == |s|
    ensures multiset(r) == multiset(s)
    ensures SortedBy(r, key, dir)
  {
    if |s| == 0 then []
    else
      assert s == [s[0]] + s[1..];
      Insert(s[0], Sort(s[1..], key, dir), key, dir)
  }

  /** A boolean mask applied to a sorted table leaves it sorted. */
  lemma {:induction false} FilterKeepsSorted<T>(s: seq<T>, p: T -> bool, key: T -> Option<real>, dir: Direction)
    requires SortedBy(s, key, dir)
    ensures SortedBy(Filter(s, p), key, dir)
    decreases |s|
  {
    if |s| > 0 {
      assert s == [s[0]] + s[1..];
      FilterKeepsSorted(s[1..], p, key, dir);
      var tail := Filter(s[1..], p);
      forall y | y in tail
        ensures Precedes(dir, key(s[0]), key(y))
      {
        var j :| 0 <= j < |s[1..]| && s[1..][j] == y;
        assert s[j + 1] == y;
      }
    }
  }

  lemma SortedPrefix<T>(s: seq<T>, key: T -> Option<real>, dir: Direction, n: nat)
    requires SortedBy(s, key, dir)
    requires n <= |s|
    ensures SortedBy(s[..n], key, dir)
  {
    forall i, j | 0 <= i < j < n
      ensures Precedes(dir, key(s[..n][i]), key(s[..n][j]))
    {
      assert s[..n][i] == s[i] && s[..n][j] == s[j];
    }
  }

  /** Cutting a sorted sequence in two: the front part stays sorted and comes entirely before the back part. */
  lemma SortedSplit<T>(s: seq<T>, key: T -> Option<real>, dir: Direction, n: nat)
    requires SortedBy(s, key, dir)
    requires n <= |s|
    ensures SortedBy(s[..n], key, dir)
    ensures forall i, j :: 0 <= i < n && 0 <= j < |s| - n ==> Precedes(dir, key(s[..n][i]), key(s[n..][j]))
  {
    forall i, j | 0 <= i < n && 0 <= j < |s| - n
      ensures Precedes(dir, key(s[..n][i]), key(s[n..][j]))
    {
      assert s[..n][i] == s[i] && s[n..][j] == s[n + j];
    }
  }

  /** The head of a non-empty sorted sequence comes no later than every element of it. */
  lemma SortedHeadLeads<T>(s: seq<T>, key: T -> Option<real>, dir: Direction, y: T)
    requires SortedBy(s, key, dir)
    requires y in s
    ensures Precedes(dir, key(s[0]), key(y))
  {
    var j :| 0 <= j < |s| && s[j] == y;
    if j > 0 {
      assert Precedes(dir, key(s[0]), key(s[j]));
    }
  }

  /** However ties were broken, two sorted permutations of one table have the same key at
      their head: the extreme key does not depend on the (unstable) sort. */
  lemma {:induction false} SortedHeadKeyUnique<T>(a: seq<T>, b: seq<T>, key: T -> Option<real>, dir: Direction)
    requires SortedBy(a, key, dir) && SortedBy(b, key, dir)
    requires multiset(a) == multiset(b)
    requires |a| > 0
    ensures key(a[0]) == key(b[0])
  {
    assert a[0] in multiset(b);
    assert b[0] in multiset(a) by {
      assert |b| > 0 by {
        assert |multiset(b)| == |multiset(a)| == |a|;
      }
    }
    SortedHeadLeads(b, key, dir, a[0]);
    SortedHeadLeads(a, key, dir, b[0]);
  }
}
