/**
 * Sequence helpers the client's aggregations share: removing repeats while keeping the first
 * occurrence (`[...new Set(xs)]`), and summing a numeric projection (`reduce((t, x) => t + f(x), 0)`).
 */
module Collections {

  ghost predicate NoDuplicates<T>(s: seq<T>) {
    forall i, j :: 0 <= i < j < |s| ==> s[i] != s[j]
  }

  /** The values of `s` in order of first appearance, each once. */
  function Distinct<T(==,!new)>(s: seq<T>): (r: seq<T>)
    ensures NoDuplicates(r)
    ensures forall x :: x in r <==> x in s
    ensures |r| <= |s|
    decreases |s|
  {
    if |s| == 0 then []
    else
      var rest := Distinct(s[..|s| - 1]);
      assert forall x :: x in s[..|s| - 1] ==> x in s;
      assert forall x :: x in s ==> x in s[..|s| - 1] || x == s[|s| - 1] by {
        assert s == s[..|s| - 1] + [s[|s| - 1]];
      }
      if s[|s| - 1] in rest then rest else rest + [s[|s| - 1]]
  }

  /** `f(s[0]) + f(s[1]) + ...`. */
  function SumBy<T>(s: seq<T>, f: T -> int): int {
    if |s| == 0 then 0 else f(s[0]) + SumBy(s[1..], f)
  }

  lemma {:induction false} SumByAppend<T>(a: seq<T>, b: seq<T>, f: T -> int)
    ensures SumBy(a + b, f) == SumBy(a, f) + SumBy(b, f)
    decreases |a|
  {
    if |a| == 0 {
      assert a + b == b;
    } else {
      assert (a + b)[1..] == a[1..] + b;
      SumByAppend(a[1..], b, f);
    }
  }

  /** Taking one element out of a sequence takes it out of its multiset. */
  lemma RemoveAtMultiset<T>(b: seq<T>, k: nat)
    requires k < |b|
    ensures multiset(b[..k] + b[k + 1..]) == multiset(b) - multiset{b[k]}
  {
    assert b == b[..k] + ([b[k]] + b[k + 1..]);
  }

  /** Taking one element out of a sequence takes it out of its sum. */
  lemma RemoveAtSum<T>(b: seq<T>, k: nat, f: T -> int)
    requires k < |b|
    ensures SumBy(b, f) == f(b[k]) + SumBy(b[..k] + b[k + 1..], f)
  {
    var x, rest := b[k], b[k + 1..];
    assert b == b[..k] + ([x] + rest);
    SumByAppend(b[..k], [x] + rest, f);
    SumByAppend(b[..k], rest, f);
    assert ([x] + rest)[1..] == rest;
  }

  /** Reordering does not change a sum: sums over permutations agree. */
  lemma {:induction false} SumByPermutation<T>(a: seq<T>, b: seq<T>, f: T -> int)
    requires multiset(a) == multiset(b)
    ensures SumBy(a, f) == SumBy(b, f)
    decreases |a|
  {
    if |a| == 0 {
      assert |b| == |multiset(b)| == 0;
    } else {
      var x := a[0];
      assert x in multiset(b);
      var k :| 0 <= k < |b| && b[k] == x;
      RemoveAtMultiset(b, k);
      RemoveAtSum(b, k, f);
      assert a == [x] + a[1..];
      assert multiset(a[1..]) == multiset(a) - multiset{x};
      SumByPermutation(a[1..], b[..k] + b[k + 1..], f);
    }
  }

  lemma MultisetHead<T>(s: seq<T>, x: T)
    requires |s| > 0
    ensures multiset(s)[x] == (if x == s[0] then 1 else 0) + multiset(s[1..])[x]
  {
    assert s == [s[0]] + s[1..];
  }

  /** In a sequence without repeats every value occurs at most once. */
  lemma {:induction false} NoDuplicatesCount<T>(a: seq<T>, x: T)
    requires NoDuplicates(a)
    ensures multiset(a)[x] == if x in a then 1 else 0
    decreases |a|
  {
    if |a| > 0 {
      var init := a[..|a| - 1];
      assert a == init + [a[|a| - 1]];
      assert NoDuplicates(init);
      NoDuplicatesCount(init, x);
    }
  }

  /** `s.map(f)`. */
  function Map<T, U>(s: seq<T>, f: T -> U): (r: seq<U>)
    ensures |r| == |s|
  {
    if |s| == 0 then [] else [f(s[0])] + Map(s[1..], f)
  }

  lemma {:induction false} MapIndex<T, U>(s: seq<T>, f: T -> U, i: nat)
    requires i < |s|
    ensures Map(s, f)[i] == f(s[i])
    decreases i
  {
    if i > 0 {
      MapIndex(s[1..], f, i - 1);
    }
  }

  lemma {:induction false} MapAppend<T, U>(a: seq<T>, b: seq<T>, f: T -> U)
    ensures Map(a + b, f) == Map(a, f) + Map(b, f)
    decreases |a|
  {
    if |a| == 0 {
      assert a + b == b;
    } else {
      assert (a + b)[1..] == a[1..] + b;
      MapAppend(a[1..], b, f);
    }
  }

  lemma MapCons<T, U>(x: T, s: seq<T>, f: T -> U)
    ensures Map([x] + s, f) == [f(x)] + Map(s, f)
  {
    assert ([x] + s)[1..] == s;
  }

  /** Mapping splits around any position. */
  lemma MapSplitAt<T, U>(b: seq<T>, k: nat, f: T -> U)
    requires k < |b|
    ensures Map(b, f) == Map(b[..k], f) + ([f(b[k])] + Map(b[k + 1..], f))
  {
    assert b == b[..k] + b[k..];
    MapAppend(b[..k], b[k..], f);
    assert b[k..] == [b[k]] + b[k + 1..];
    MapCons(b[k], b[k + 1..], f);
  }

  /** Taking one element out before mapping takes its image out of the mapped multiset. */
  lemma MapRemoveAt<T, U>(b: seq<T>, k: nat, f: T -> U)
    requires k < |b|
    ensures multiset(Map(b, f)) == multiset(Map(b[..k] + b[k + 1..], f)) + multiset{f(b[k])}
  {
    MapSplitAt(b, k, f);
    MapAppend(b[..k], b[k + 1..], f);
  }

  /** Mapping a permutation gives a permutation of the mapped values. */
  lemma {:induction false} MapPermutation<T, U>(a: seq<T>, b: seq<T>, f: T -> U)
    requires multiset(a) == multiset(b)
    ensures multiset(Map(a, f)) == multiset(Map(b, f))
    decreases |a|
  {
    if |a| == 0 {
      assert |b| == |multiset(b)| == 0;
    } else {
      var x := a[0];
      assert x in multiset(b);
      var k :| 0 <= k < |b| && b[k] == x;
      var rest := b[..k] + b[k + 1..];
      assert multiset(a[1..]) == multiset(rest) by {
        RemoveAtMultiset(b, k);
        assert a == [x] + a[1..];
      }
      MapPermutation(a[1..], rest, f);
      assert multiset(Map(a, f)) == multiset(Map(a[1..], f)) + multiset{f(x)} by {
        assert a == [x] + a[1..];
        MapCons(x, a[1..], f);
      }
      assert multiset(Map(b, f)) == multiset(Map(rest, f)) + multiset{f(x)} by {
        MapRemoveAt(b, k, f);
      }
    }
  }

  /** A value at two positions occurs at least twice. */
  lemma TwoPositions<T>(b: seq<T>, i: nat, j: nat)
    requires i < j < |b|
    ensures b[i] == b[j] ==> multiset(b)[b[i]] >= 2
  {
    assert b == b[..j] + [b[j]] + b[j + 1..];
    assert b[..j] == b[..i] + [b[i]] + b[i + 1..j];
  }

  /** Reordering a sequence without repeats leaves it without repeats. */
  lemma PermutationKeepsNoDuplicates<T>(a: seq<T>, b: seq<T>)
    requires multiset(a) == multiset(b) && NoDuplicates(a)
    ensures NoDuplicates(b)
  {
    forall i, j | 0 <= i < j < |b| ensures b[i] != b[j] {
      NoDuplicatesCount(a, b[i]);
      TwoPositions(b, i, j);
    }
  }

  /** `s.filter(p)`: the elements satisfying `p`, in order. */
  function Filter<T(!new)>(s: seq<T>, p: T -> bool): (r: seq<T>)
    ensures |r| <= |s|
    ensures forall x :: x in r <==> x in s && p(x)
    ensures forall i :: 0 <= i < |r| ==> p(r[i])
  {
    if |s| == 0 then []
    else
      assert s == [s[0]] + s[1..];
      (if p(s[0]) then [s[0]] else []) + Filter(s[1..], p)
  }

  /** Filtering works element by element, so the kept elements stay in input order. */
  lemma {:induction false} FilterAppend<T(!new)>(a: seq<T>, b: seq<T>, p: T -> bool)
    ensures Filter(a + b, p) == Filter(a, p) + Filter(b, p)
    decreases |a|
  {
    if |a| == 0 {
      assert a + b == b;
    } else {
      assert (a + b)[0] == a[0];
      assert (a + b)[1..] == a[1..] + b;
      FilterAppend(a[1..], b, p);
    }
  }

  /** One element is kept exactly when it passes. */
  lemma FilterOne<T(!new)>(x: T, p: T -> bool)
    ensures Filter([x], p) == if p(x) then [x] else []
  {
  }

  /** Filtering by a test and by its negation splits the sequence: together they hold every element exactly as often. */
  lemma FilterCons<T(!new)>(s: seq<T>, p: T -> bool)
    requires |s| > 0
    ensures multiset(Filter(s, p)) == (if p(s[0]) then multiset{s[0]} else multiset{}) + multiset(Filter(s[1..], p))
    ensures |Filter(s, p)| == (if p(s[0]) then 1 else 0) + |Filter(s[1..], p)|
  {
  }

  /** A value occurs in the filtered sequence as often as in the input when it passes, else never. */
  lemma {:induction false} FilterCount<T(!new)>(s: seq<T>, p: T -> bool, x: T)
    ensures multiset(Filter(s, p))[x] == if p(x) then multiset(s)[x] else 0
    decreases |s|
  {
    if |s| > 0 {
      FilterCount(s[1..], p, x);
      FilterCons(s, p);
      MultisetHead(s, x);
    } else {
      assert Filter(s, p) == [];
    }
  }

  lemma FilterPartition<T(!new)>(s: seq<T>, p: T -> bool, q: T -> bool)
    requires forall x :: q(x) == !p(x)
    ensures multiset(Filter(s, p)) + multiset(Filter(s, q)) == multiset(s)
    ensures |Filter(s, p)| + |Filter(s, q)| == |s|
  {
    var both := multiset(Filter(s, p)) + multiset(Filter(s, q));
    forall x
      ensures both[x] == multiset(s)[x]
    {
      FilterCount(s, p, x);
      FilterCount(s, q, x);
    }
    assert both == multiset(s);
    assert |both| == |multiset(s)|;
  }

  /** Filtering with a test every element passes gives the sequence back. */
  lemma {:induction false} FilterKeepsAllWhenAllPass<T(!new)>(s: seq<T>, p: T -> bool)
    requires forall i :: 0 <= i < |s| ==> p(s[i])
    ensures Filter(s, p) == s
    decreases |s|
  {
    if |s| > 0 {
      FilterKeepsAllWhenAllPass(s[1..], p);
      assert s == [s[0]] + s[1..];
    }
  }
}
