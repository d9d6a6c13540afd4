/** Sequence helpers shared by every figure script: pandas boolean masks, `head`, `next(...)`
    over a generator, and element-wise maps. */
module Sequences {
  import opened Wrappers

  function Min(a: int, b: int): int {
    if a <= b then a else b
  }

  /** Element-wise map, as a vectorised pandas column expression. */
  function MapSeq<T, U>(s: seq<T>, f: T -> U): (r: seq<U>)
    ensures |r| == |s|
    ensures forall i :: 0 <= i < |s| ==> r[i] == f(s[i])
  {
    seq(|s|, i requires 0 <= i < |s| => f(s[i]))
  }

  lemma MapConcat<T, U>(a: seq<T>, b: seq<T>, f: T -> U)
    ensures MapSeq(a + b, f) == MapSeq(a, f) + MapSeq(b, f)
  {
  }

  lemma MapMember<T, U>(s: seq<T>, f: T -> U, y: U)
    ensures y in MapSeq(s, f) <==> exists x :: x in s && y == f(x)
  {
    if y in MapSeq(s, f) {
      var i :| 0 <= i < |s| && MapSeq(s, f)[i] == y;
      assert s[i] in s;
    }
  }

  /** Mapping two permutations of one another gives two permutations of one another. */
  lemma {:induction false} MapRespectsPermutation<T, U>(a: seq<T>, b: seq<T>, f: T -> U)
    requires multiset(a) == multiset(b)
    ensures multiset(MapSeq(a, f)) == multiset(MapSeq(b, f))
    decreases |a|
  {
    if |a| == 0 {
      assert |multiset(b)| == 0;
    } else {
      assert a[0] in multiset(b);
      var k :| 0 <= k < |b| && b[k] == a[0];
      var rest := b[..k] + b[k + 1..];
      assert b == b[..k] + [b[k]] + b[k + 1..];
      assert a == [a[0]] + a[1..];
      assert multiset(b) == multiset(b[..k]) + multiset{b[k]} + multiset(b[k + 1..]);
      assert multiset(a) == multiset{a[0]} + multiset(a[1..]);
      assert multiset(rest) == multiset(b[..k]) + multiset(b[k + 1..]);
      assert multiset(a[1..]) == multiset(a) - multiset{a[0]};
      assert multiset(rest) == multiset(b) - multiset{a[0]};
      MapRespectsPermutation(a[1..], rest, f);
      MapConcat([a[0]], a[1..], f);
      MapConcat(b[..k], [b[k]], f);
      MapConcat(b[..k] + [b[k]], b[k + 1..], f);
      MapConcat(b[..k], b[k + 1..], f);
    }
  }

  /** Keeps, in their original order, the elements that satisfy `p` (a pandas boolean mask). */
  function Filter<T>(s: seq<T>, p: T -> bool): (r: seq<T>)
    ensures |r| <= |s|
    ensures forall x :: x in r ==> x in s && p(x)
    ensures forall x :: x in s && p(x) ==> x in r
    ensures forall i :: 0 <= i < |r| ==> p(r[i])
    ensures multiset(r) <= multiset(s)
  {
    if |s| == 0 then []
    else
      assert s == [s[0]] + s[1..];
      if p(s[0]) then [s[0]] + Filter(s[1..], p) else Filter(s[1..], p)
  }

  /** How often `x` survives a mask: as often as it occurs when it satisfies `p`, never otherwise. */
  lemma {:induction false} FilterMultiplicity<T>(s: seq<T>, p: T -> bool, x: T)
    ensures multiset(Filter(s, p))[x] == if p(x) then multiset(s)[x] else 0
    decreases |s|
  {
    if |s| > 0 {
      assert s == [s[0]] + s[1..];
      FilterMultiplicity(s[1..], p, x);
    }
  }

  /** Masking two permutations of one table gives two permutations of one another. */
  lemma FilterRespectsPermutation<T>(a: seq<T>, b: seq<T>, p: T -> bool)
    requires multiset(a) == multiset(b)
    ensures multiset(Filter(a, p)) == multiset(Filter(b, p))
  {
    forall x
      ensures multiset(Filter(a, p))[x] == multiset(Filter(b, p))[x]
    {
      FilterMultiplicity(a, p, x);
      FilterMultiplicity(b, p, x);
    }
  }

  lemma FilterCons<T>(s: seq<T>, p: T -> bool)
    requires |s| > 0
    ensures Filter(s, p) == (if p(s[0]) then [s[0]] else []) + Filter(s[1..], p)
  {
  }

  lemma MapCons<T, U>(s: seq<T>, f: T -> U)
    requires |s| > 0
    ensures MapSeq(s, f) == [f(s[0])] + MapSeq(s[1..], f)
  {
  }

  /** Filtering a concatenation filters each part. */
  lemma {:induction false} FilterConcat<T>(a: seq<T>, b: seq<T>, p: T -> bool)
    ensures Filter(a + b, p) == Filter(a, p) + Filter(b, p)
    decreases |a|
  {
    if |a| == 0 {
      assert a + b == b;
    } else {
      assert (a + b)[1..] == a[1..] + b;
      FilterConcat(a[1..], b, p);
    }
  }

  /** A mask every element passes keeps the whole sequence. */
  lemma {:induction false} FilterAll<T>(s: seq<T>, p: T -> bool)
    requires forall x :: x in s ==> p(x)
    ensures Filter(s, p) == s
    decreases |s|
  {
    if |s| > 0 {
      assert s == [s[0]] + s[1..];
      FilterAll(s[1..], p);
    }
  }

  /** A mask no element passes keeps nothing. */
  lemma FilterNone<T>(s: seq<T>, p: T -> bool)
    requires forall x :: x in s ==> !p(x)
    ensures Filter(s, p) == []
  {
    if |Filter(s, p)| > 0 {
      assert Filter(s, p)[0] in Filter(s, p);
    }
  }

  /** No element occurs twice. */
  predicate Distinct<T(==)>(s: seq<T>) {
    forall i, j :: 0 <= i < j < |s| ==> s[i] != s[j]
  }

  /** A mask over a sequence without repeats yields a sequence without repeats. */
  lemma {:induction false} FilterKeepsDistinct<T>(s: seq<T>, p: T -> bool)
    requires Distinct(s)
    ensures Distinct(Filter(s, p))
    decreases |s|
  {
    if |s| > 0 {
      FilterCons(s, p);
      assert Distinct(s[1..]);
      FilterKeepsDistinct(s[1..], p);
      var rest := Filter(s[1..], p);
      assert s[0] !in s[1..];
      assert s[0] !in rest;
    }
  }

  /** In a sequence without repeats every value occurs at most once. */
  lemma {:induction false} DistinctCount<T>(s: seq<T>, x: T)
    requires Distinct(s)
    ensures multiset(s)[x] <= 1
    decreases |s|
  {
    if |s| > 0 {
      assert s == [s[0]] + s[1..];
      assert Distinct(s[1..]);
      DistinctCount(s[1..], x);
      if x == s[0] {
        assert x !in s[1..];
      }
    }
  }

  /** A permutation of a sequence without repeats has none either. */
  lemma DistinctPermutation<T>(a: seq<T>, b: seq<T>)
    requires multiset(a) == multiset(b)
    requires Distinct(a)
    ensures Distinct(b)
  {
    forall i, j | 0 <= i < j < |b|
      ensures b[i] != b[j]
    {
      DistinctCount(a, b[i]);
      RepeatCount(b, i, j);
    }
  }

  lemma RepeatCount<T>(s: seq<T>, i: nat, j: nat)
    requires i < j < |s|
    ensures s[i] == s[j] ==> multiset(s)[s[i]] >= 2
  {
    assert s == s[..i] + [s[i]] + s[i + 1..j] + [s[j]] + s[j + 1..];
  }

  /** Position of the first element satisfying `p`, as `next(i for i, x in enumerate(s) if p(x))`. */
  function FirstIndex<T>(s: seq<T>, p: T -> bool): (r: Option<nat>)
    ensures r.Some? ==> r.value < |s| && p(s[r.value]) && forall j :: 0 <= j < r.value ==> !p(s[j])
    ensures r.None? ==> forall j :: 0 <= j < |s| ==> !p(s[j])
  {
    if |s| == 0 then None
    else if p(s[0]) then Some(0)
    else
      match FirstIndex(s[1..], p)
      case None => None
      case Some(k) => Some(k + 1)
  }

  /** `next((x for x in s if p(x)), None)`. */
  function First<T>(s: seq<T>, p: T -> bool): (r: Option<T>)
    ensures r.Some? ==> exists i :: 0 <= i < |s| && s[i] == r.value && p(s[i]) && forall j :: 0 <= j < i ==> !p(s[j])
    ensures r.None? <==> forall x :: x in s ==> !p(x)
  {
    match FirstIndex(s, p)
    case None => None
    case Some(i) => Some(s[i])
  }

  /** Python's `sub in s` for strings: `sub` occurs contiguously in `s`. */
  predicate IsInfix<T(==)>(sub: seq<T>, s: seq<T>) {
    exists i :: 0 <= i <= |s| && sub <= s[i..]
  }

  /** Number of `true` entries of a boolean mask. */
  function CountTrue(mask: seq<bool>): (n: nat)
    ensures n <= |mask|
  {
    if |mask| == 0 then 0 else (if mask[0] then 1 else 0) + CountTrue(mask[1..])
  }

  /** The elements whose mask entry is `true`, in order. */
  function Keep<T>(s: seq<T>, mask: seq<bool>): (r: seq<T>)
    requires |mask| == |s|
    ensures |r| == CountTrue(mask)
    ensures multiset(r) <= multiset(s)
  {
    if |s| == 0 then []
    else
      assert s == [s[0]] + s[1..];
      if mask[0] then [s[0]] + Keep(s[1..], mask[1..]) else Keep(s[1..], mask[1..])
  }

  /** How many of the first `i` mask entries are `true`: the position element `i` takes in
      `Keep(s, mask)` when it is kept. */
  function RankOf(mask: seq<bool>, i: nat): nat
    requires i <= |mask|
  {
    if i == 0 then 0 else (if mask[0] then 1 else 0) + RankOf(mask[1..], i - 1)
  }

  lemma {:induction false} RankOfCounts(mask: seq<bool>, i: nat)
    requires i <= |mask|
    ensures RankOf(mask, i) == CountTrue(mask[..i])
    decreases i
  {
    if i > 0 {
      RankOfCounts(mask[1..], i - 1);
      assert mask[..i][1..] == mask[1..][..i - 1];
    }
  }

  /** A kept element `i` sits in `Keep(s, mask)` at position `RankOf(mask, i)`, after the kept
      elements before it. */
  lemma {:induction false} KeepAt<T>(s: seq<T>, mask: seq<bool>, i: nat)
    requires |mask| == |s| && i < |s| && mask[i]
    ensures RankOf(mask, i) < |Keep(s, mask)|
    ensures Keep(s, mask)[RankOf(mask, i)] == s[i]
    decreases |s|
  {
    if i > 0 {
      KeepAt(s[1..], mask[1..], i - 1);
    }
  }

  /** Every position of `Keep(s, mask)` holds some kept element, so nothing else is there. */
  lemma {:induction false} KeepCovers<T>(s: seq<T>, mask: seq<bool>, m: nat)
    requires |mask| == |s| && m < |Keep(s, mask)|
    ensures exists i :: 0 <= i < |s| && mask[i] && RankOf(mask, i) == m
    decreases |s|
  {
    if mask[0] && m == 0 {
      assert RankOf(mask, 0) == 0;
    } else {
      var m' := if mask[0] then m - 1 else m;
      KeepCovers(s[1..], mask[1..], m');
      var i' :| 0 <= i' < |s[1..]| && mask[1..][i'] && RankOf(mask[1..], i') == m';
      assert mask[i' + 1] && RankOf(mask, i' + 1) == m;
    }
  }

  /** Kept elements keep their order: a kept element comes before every later one. */
  lemma {:induction false} RankOfGrows(mask: seq<bool>, i: nat, j: nat)
    requires i < j <= |mask| && mask[i]
    ensures RankOf(mask, i) < RankOf(mask, j)
    decreases i
  {
    if i > 0 {
      RankOfGrows(mask[1..], i - 1, j - 1);
    }
  }
}
