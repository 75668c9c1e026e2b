/**
  Generic helpers over in-memory tables, which are plain sequences of rows:
  row selection, sums and means, distinct values, minima and maxima, and the
  multiset facts the rollups need to survive a re-ordering.
 */
module Tables {

  datatype Option<+T> = None | Some(value: T)

  /** No value occurs twice in `s`. */
  predicate NoDups<T(==)>(s: seq<T>) {
    forall i, j :: 0 <= i < j < |s| ==> s[i] != s[j]
  }

  /** No two rows of `s` share a value of `f`. */
  predicate DistinctBy<T, K(==)>(s: seq<T>, f: T -> K) {
    forall i, j :: 0 <= i < j < |s| ==> f(s[i]) != f(s[j])
  }

  /** The rows of `s` that satisfy `p`, in their original order. */
  function Where<T(!new)>(s: seq<T>, p: T -> bool): (r: seq<T>)
    ensures |r| <= |s|
    ensures forall x :: x in r <==> x in s && p(x)
  {
    if |s| == 0 then []
    else (if p(s[0]) then [s[0]] else []) + Where(s[1..], p)
  }

  /** Selection keeps every chosen row as often as it occurs, and no other row. */
  lemma {:induction false} WhereMultiplicity<T(!new)>(s: seq<T>, p: T -> bool, x: T)
    ensures multiset(Where(s, p))[x] == if p(x) then multiset(s)[x] else 0
    decreases |s|
  {
    if |s| > 0 {
      assert s == [s[0]] + s[1..];
      WhereMultiplicity(s[1..], p, x);
    }
  }

  /** Selection only removes rows. */
  lemma WhereSubMultiset<T(!new)>(s: seq<T>, p: T -> bool)
    ensures multiset(Where(s, p)) <= multiset(s)
  {
    forall x ensures multiset(Where(s, p))[x] <= multiset(s)[x] {
      WhereMultiplicity(s, p, x);
    }
  }

  /** `a` can be obtained from `b` by deleting rows. */
  predicate IsSubsequence<T(==)>(a: seq<T>, b: seq<T>)
    decreases |b|
  {
    if |a| == 0 then true
    else if |b| == 0 then false
    else (a[0] == b[0] && IsSubsequence(a[1..], b[1..])) || IsSubsequence(a, b[1..])
  }

  lemma {:induction false} SubsequenceLength<T>(a: seq<T>, b: seq<T>)
    requires IsSubsequence(a, b)
    ensures |a| <= |b|
    decreases |b|
  {
    if |a| > 0 {
      if a[0] == b[0] && IsSubsequence(a[1..], b[1..]) {
        SubsequenceLength(a[1..], b[1..]);
      } else {
        SubsequenceLength(a, b[1..]);
      }
    }
  }

  /** Every row of a subsequence is a row of the table. */
  lemma {:induction false} SubsequenceMembers<T>(a: seq<T>, b: seq<T>)
    requires IsSubsequence(a, b)
    ensures forall x :: x in a ==> x in b
    decreases |b|
  {
    if |a| > 0 {
      if a[0] == b[0] && IsSubsequence(a[1..], b[1..]) {
        SubsequenceMembers(a[1..], b[1..]);
        assert forall x :: x in a ==> x == a[0] || x in a[1..];
      } else {
        SubsequenceMembers(a, b[1..]);
      }
    }
  }

  /** Deleting rows keeps pairwise distinct values of `f` pairwise distinct. */
  lemma {:induction false} SubsequenceDistinct<T, K>(a: seq<T>, b: seq<T>, f: T -> K)
    requires IsSubsequence(a, b) && DistinctBy(b, f)
    ensures DistinctBy(a, f)
    decreases |b|
  {
    if |a| > 0 {
      if a[0] == b[0] && IsSubsequence(a[1..], b[1..]) {
        SubsequenceDistinct(a[1..], b[1..], f);
        SubsequenceMembers(a[1..], b[1..]);
        forall j | 0 < j < |a| ensures f(a[0]) != f(a[j]) {
          assert a[1..][j - 1] in b[1..];
        }
      } else {
        SubsequenceDistinct(a, b[1..], f);
      }
    }
  }

  lemma {:induction false} WhereIsSubsequence<T(!new)>(s: seq<T>, p: T -> bool)
    ensures IsSubsequence(Where(s, p), s)
    decreases |s|
  {
    if |s| > 0 {
      WhereIsSubsequence(s[1..], p);
      if p(s[0]) {
        assert Where(s, p) == [s[0]] + Where(s[1..], p);
        assert Where(s, p)[1..] == Where(s[1..], p);
      } else {
        assert Where(s, p) == Where(s[1..], p);
      }
    }
  }

  /** Selecting twice with the same predicate selects nothing new. */
  lemma {:induction false} WhereIdempotent<T(!new)>(s: seq<T>, p: T -> bool)
    ensures Where(Where(s, p), p) == Where(s, p)
    decreases |s|
  {
    if |s| > 0 {
      var rest := Where(s[1..], p);
      WhereIdempotent(s[1..], p);
      if p(s[0]) {
        var w := [s[0]] + rest;
        assert Where(s, p) == w;
        assert w[0] == s[0] && w[1..] == rest;
        assert Where(w, p) == [s[0]] + Where(rest, p);
      } else {
        assert Where(s, p) == rest;
      }
    }
  }

  /** When the first `k` rows satisfy `p`, at least `k` rows are selected. */
  lemma {:induction false} WherePrefixCount<T(!new)>(s: seq<T>, p: T -> bool, k: nat)
    requires k <= |s| && forall i :: 0 <= i < k ==> p(s[i])
    ensures |Where(s, p)| >= k
    decreases |s|
  {
    if k > 0 {
      WherePrefixCount(s[1..], p, k - 1);
    }
  }

  /** When every row from index `k` on satisfies `p`, at least `|s| - k` rows
      are selected. */
  lemma {:induction false} WhereSuffixCount<T(!new)>(s: seq<T>, p: T -> bool, k: nat)
    requires k <= |s| && forall i :: k <= i < |s| ==> p(s[i])
    ensures |Where(s, p)| >= |s| - k
    decreases |s|
  {
    if |s| > 0 {
      if k > 0 {
        WhereSuffixCount(s[1..], p, k - 1);
      } else {
        WhereSuffixCount(s[1..], p, 0);
      }
    }
  }

  /** Re-ordering a table does not change how many rows a selection keeps. */
  lemma WherePermutationCount<T(!new)>(a: seq<T>, b: seq<T>, p: T -> bool)
    requires multiset(a) == multiset(b)
    ensures |Where(a, p)| == |Where(b, p)|
  {
    forall x ensures multiset(Where(a, p))[x] == multiset(Where(b, p))[x] {
      WhereMultiplicity(a, p, x);
      WhereMultiplicity(b, p, x);
    }
    assert multiset(Where(a, p)) == multiset(Where(b, p));
    assert |multiset(Where(a, p))| == |Where(a, p)|;
    assert |multiset(Where(b, p))| == |Where(b, p)|;
  }

  /** A predicate every row satisfies keeps the table unchanged. */
  lemma {:induction false} WhereAll<T(!new)>(s: seq<T>, p: T -> bool)
    requires forall i :: 0 <= i < |s| ==> p(s[i])
    ensures Where(s, p) == s
    decreases |s|
  {
    if |s| > 0 {
      WhereAll(s[1..], p);
      assert s == [s[0]] + s[1..];
    }
  }

  function SumOf<T(!new)>(s: seq<T>, f: T -> int): int {
    if |s| == 0 then 0 else f(s[0]) + SumOf(s[1..], f)
  }

  function SumReal<T(!new)>(s: seq<T>, f: T -> real): real {
    if |s| == 0 then 0.0 else f(s[0]) + SumReal(s[1..], f)
  }

  /** Summing whole numbers as reals gives the whole-number sum. */
  lemma {:induction false} SumRealOfInts<T(!new)>(s: seq<T>, f: T -> int, g: T -> real)
    requires forall i :: 0 <= i < |s| ==> g(s[i]) == f(s[i]) as real
    ensures SumReal(s, g) == SumOf(s, f) as real
    decreases |s|
  {
    if |s| > 0 {
      SumRealOfInts(s[1..], f, g);
    }
  }

  /** `m` is the mean of `count` values adding up to `total`. */
  predicate IsAverage(m: real, total: real, count: int) {
    count > 0 && m * (count as real) == total
  }

  /** Arithmetic mean of `f` over a non-empty table. */
  function Mean<T(!new)>(s: seq<T>, f: T -> real): (m: real)
    requires |s| > 0
    ensures IsAverage(m, SumReal(s, f), |s|)
  {
    SumReal(s, f) / (|s| as real)
  }

  /** Bounds on every row bound the sum. */
  lemma {:induction false} SumRealBounds<T(!new)>(s: seq<T>, f: T -> real, lo: real, hi: real)
    requires forall i :: 0 <= i < |s| ==> lo <= f(s[i]) <= hi
    ensures lo * (|s| as real) <= SumReal(s, f) <= hi * (|s| as real)
    decreases |s|
  {
    if |s| > 0 {
      SumRealBounds(s[1..], f, lo, hi);
      assert (|s| as real) == (|s[1..]| as real) + 1.0;
    }
  }

  /** The mean lies between any bounds on the rows. */
  lemma MeanBounds<T(!new)>(s: seq<T>, f: T -> real, lo: real, hi: real)
    requires |s| > 0
    requires forall i :: 0 <= i < |s| ==> lo <= f(s[i]) <= hi
    ensures lo <= Mean(s, f) <= hi
  {
    SumRealBounds(s, f, lo, hi);
  }

  /** A lower bound on every row bounds the sum from below. */
  lemma {:induction false} SumRealAtLeast<T(!new)>(s: seq<T>, f: T -> real, lo: real)
    requires forall i :: 0 <= i < |s| ==> lo <= f(s[i])
    ensures lo * (|s| as real) <= SumReal(s, f)
    decreases |s|
  {
    if |s| > 0 {
      SumRealAtLeast(s[1..], f, lo);
      assert (|s| as real) == (|s[1..]| as real) + 1.0;
    }
  }

  /** The mean is at least any lower bound on the rows. */
  lemma MeanAtLeast<T(!new)>(s: seq<T>, f: T -> real, lo: real)
    requires |s| > 0
    requires forall i :: 0 <= i < |s| ==> lo <= f(s[i])
    ensures lo <= Mean(s, f)
  {
    SumRealAtLeast(s, f, lo);
  }

  lemma {:induction false} SumRealNonNegative<T(!new)>(s: seq<T>, f: T -> real)
    requires forall i :: 0 <= i < |s| ==> f(s[i]) >= 0.0
    ensures SumReal(s, f) >= 0.0
    decreases |s|
  {
    if |s| > 0 {
      SumRealNonNegative(s[1..], f);
    }
  }

  /** `m` is the mean of `count` whole numbers adding up to `total`. */
  predicate IsMeanOf(m: real, total: int, count: int) {
    IsAverage(m, total as real, count)
  }

  /** The mean of whole numbers times their count is their sum. */
  lemma MeanOfCounts<T(!new)>(s: seq<T>, f: T -> int, g: T -> real)
    requires |s| > 0
    requires forall i :: 0 <= i < |s| ==> g(s[i]) == f(s[i]) as real
    ensures IsMeanOf(Mean(s, g), SumOf(s, f), |s|)
  {
    SumRealOfInts(s, f, g);
  }

  /** A mean of non-negative values is non-negative. */
  lemma MeanNonNegative<T(!new)>(s: seq<T>, f: T -> real)
    requires |s| > 0
    requires forall i :: 0 <= i < |s| ==> f(s[i]) >= 0.0
    ensures Mean(s, f) >= 0.0
  {
    SumRealNonNegative(s, f);
  }

  lemma {:induction false} SumOfNonNegative<T(!new)>(s: seq<T>, f: T -> int)
    requires forall i :: 0 <= i < |s| ==> f(s[i]) >= 0
    ensures SumOf(s, f) >= 0
    decreases |s|
  {
    if |s| > 0 {
      SumOfNonNegative(s[1..], f);
    }
  }

  lemma {:induction false} SumOfAppend<T(!new)>(a: seq<T>, b: seq<T>, f: T -> int)
    ensures SumOf(a + b, f) == SumOf(a, f) + SumOf(b, f)
    decreases |a|
  {
    if |a| == 0 {
      assert a + b == b;
    } else {
      assert (a + b)[0] == a[0];
      assert (a + b)[1..] == a[1..] + b;
      SumOfAppend(a[1..], b, f);
    }
  }

  /** Taking one row out of a table takes its value out of the sum. */
  lemma SumOfRemove<T(!new)>(b: seq<T>, i: nat, f: T -> int)
    requires i < |b|
    ensures SumOf(b, f) == f(b[i]) + SumOf(b[..i] + b[i+1..], f)
  {
    assert b == b[..i] + ([b[i]] + b[i+1..]);
    SumOfAppend(b[..i], [b[i]] + b[i+1..], f);
    SumOfAppend(b[..i], b[i+1..], f);
    assert ([b[i]] + b[i+1..])[1..] == b[i+1..];
  }

  lemma RemoveMultiset<T>(b: seq<T>, i: nat)
    requires i < |b|
    ensures multiset(b[..i] + b[i+1..]) == multiset(b) - multiset{b[i]}
  {
    assert b == b[..i] + [b[i]] + b[i+1..];
    assert multiset(b) == multiset(b[..i]) + multiset{b[i]} + multiset(b[i+1..]);
  }

  /** Sums do not depend on the order of the rows. */
  lemma {:induction false} SumOfPermutation<T(!new)>(a: seq<T>, b: seq<T>, f: T -> int)
    requires multiset(a) == multiset(b)
    ensures SumOf(a, f) == SumOf(b, f)
    decreases |a|
  {
    if |a| == 0 {
      assert |multiset(b)| == 0;
      assert b == [];
    } else {
      var i := PermutationStep(a, b);
      SumOfPermutation(a[1..], b[..i] + b[i+1..], f);
      SumOfRemove(b, i, f);
    }
  }

  /** The first row of `a` sits somewhere in its re-ordering `b`, and the
      rest of `a` re-orders `b` without it. */
  lemma PermutationStep<T>(a: seq<T>, b: seq<T>) returns (i: nat)
    requires multiset(a) == multiset(b) && |a| > 0
    ensures i < |b| && b[i] == a[0]
    ensures multiset(a[1..]) == multiset(b[..i] + b[i+1..])
  {
    assert a[0] in multiset(b);
    i :| 0 <= i < |b| && b[i] == a[0];
    assert a == [a[0]] + a[1..];
    RemoveMultiset(b, i);
  }

  /** Two tables of the same length whose rows agree pointwise under `f` and `g`
      have the same sums. */
  lemma {:induction false} SumOfPointwise<A(!new), B(!new)>(a: seq<A>, b: seq<B>, f: A -> int, g: B -> int)
    requires |a| == |b|
    requires forall i :: 0 <= i < |a| ==> f(a[i]) == g(b[i])
    ensures SumOf(a, f) == SumOf(b, g)
    decreases |a|
  {
    if |a| > 0 {
      SumOfPointwise(a[1..], b[1..], f, g);
    }
  }

  /** `f` applied to every row, in order. */
  function Map<A, B>(s: seq<A>, f: A --> B): (r: seq<B>)
    requires forall i :: 0 <= i < |s| ==> f.requires(s[i])
    ensures |r| == |s|
    ensures forall j :: 0 <= j < |r| ==> r[j] == f(s[j])
  {
    if |s| == 0 then [] else [f(s[0])] + Map(s[1..], f)
  }

  /** The distinct values `f` takes over the rows of `s` (a distinct count is |Image(s, f)|). */
  function Image<T(!new), K(!new)>(s: seq<T>, f: T -> K): (r: set<K>)
    ensures |r| <= |s|
    ensures |s| > 0 ==> |r| > 0
    ensures forall i :: 0 <= i < |s| ==> f(s[i]) in r
  {
    if |s| == 0 then {} else {f(s[0])} + Image(s[1..], f)
  }

  /** Rows whose keys are listed without repeats have distinct keys. */
  lemma KeysStayDistinct<T, K>(ks: seq<K>, s: seq<T>, f: T -> K)
    requires NoDups(ks)
    requires |s| == |ks| && forall j :: 0 <= j < |s| ==> f(s[j]) == ks[j]
    ensures DistinctBy(s, f)
  {
  }

  /** Rows whose values under `f` are the listed keys, in order, take every
      listed key. */
  lemma KeysCover<T(!new), K(!new)>(ks: seq<K>, s: seq<T>, f: T -> K)
    requires |s| == |ks| && forall j :: 0 <= j < |s| ==> f(s[j]) == ks[j]
    ensures forall k :: k in ks ==> k in Image(s, f)
  {
    forall k | k in ks ensures k in Image(s, f) {
      var j :| 0 <= j < |ks| && ks[j] == k;
      assert f(s[j]) == k;
    }
  }

  /** Every distinct value comes from some row. */
  lemma {:induction false} ImageWitness<T(!new), K(!new)>(s: seq<T>, f: T -> K, k: K) returns (i: nat)
    requires k in Image(s, f)
    ensures i < |s| && f(s[i]) == k
    decreases |s|
  {
    if f(s[0]) == k {
      i := 0;
    } else {
      var j := ImageWitness(s[1..], f, k);
      i := j + 1;
    }
  }

  /** When `f` separates the rows, it takes as many distinct values as there are rows. */
  lemma {:induction false} ImageOfInjective<T(!new), K(!new)>(s: seq<T>, f: T -> K)
    requires forall i, j :: 0 <= i < j < |s| ==> f(s[i]) != f(s[j])
    ensures |Image(s, f)| == |s|
    decreases |s|
  {
    if |s| > 0 {
      ImageOfInjective(s[1..], f);
      if f(s[0]) in Image(s[1..], f) {
        var j := ImageWitness(s[1..], f, f(s[0]));
        assert false;
      }
    }
  }

  /** Least value of `f` over a non-empty table. */
  function MinOf<T(!new)>(s: seq<T>, f: T -> int): (m: int)
    requires |s| > 0
    ensures forall i :: 0 <= i < |s| ==> m <= f(s[i])
    ensures exists i :: 0 <= i < |s| && f(s[i]) == m
  {
    if |s| == 1 then f(s[0])
    else
      var rest := MinOf(s[1..], f);
      assert exists i :: 0 < i < |s| && f(s[i]) == rest by {
        var j :| 0 <= j < |s[1..]| && f(s[1..][j]) == rest;
        assert f(s[j + 1]) == rest;
      }
      if f(s[0]) <= rest then f(s[0]) else rest
  }

  /** Greatest value of `f` over a non-empty table. */
  function MaxOf<T(!new)>(s: seq<T>, f: T -> int): (m: int)
    requires |s| > 0
    ensures forall i :: 0 <= i < |s| ==> f(s[i]) <= m
    ensures exists i :: 0 <= i < |s| && f(s[i]) == m
  {
    if |s| == 1 then f(s[0])
    else
      var rest := MaxOf(s[1..], f);
      assert exists i :: 0 < i < |s| && f(s[i]) == rest by {
        var j :| 0 <= j < |s[1..]| && f(s[1..][j]) == rest;
        assert f(s[j + 1]) == rest;
      }
      if f(s[0]) >= rest then f(s[0]) else rest
  }

  /** The first `n` rows (all of them when there are fewer). */
  function Head<T(!new)>(s: seq<T>, n: nat): (r: seq<T>)
    ensures |r| == if |s| < n then |s| else n
    ensures forall i :: 0 <= i < |r| ==> r[i] == s[i]
  {
    if |s| < n then s else s[..n]
  }

  /** The first rows are drawn from the table. */
  lemma HeadMultiset<T(!new)>(s: seq<T>, n: nat)
    ensures multiset(Head(s, n)) <= multiset(s)
  {
    if n <= |s| {
      assert s == s[..n] + s[n..];
    }
  }

  lemma {:induction false} NoDupsMultiplicity<T(!new)>(s: seq<T>, x: T)
    requires NoDups(s)
    ensures multiset(s)[x] <= 1
    decreases |s|
  {
    if |s| > 0 {
      assert s == [s[0]] + s[1..];
      NoDupsMultiplicity(s[1..], x);
      if x == s[0] {
        assert x !in s[1..];
      }
    }
  }

  /** A table drawn from the rows of a table without repeated rows (a
      re-ordering or a selection) has no repeated rows. */
  lemma PermutationNoDups<T(!new)>(a: seq<T>, b: seq<T>)
    requires multiset(b) <= multiset(a)
    requires NoDups(a)
    ensures NoDups(b)
  {
    forall i, j | 0 <= i < j < |b| ensures b[i] != b[j] {
      if b[i] == b[j] {
        assert b == b[..j] + b[j..];
        assert b[i] in b[..j];
        assert b[j] in b[j..];
        assert multiset(b)[b[i]] == multiset(b[..j])[b[i]] + multiset(b[j..])[b[i]];
        NoDupsMultiplicity(a, b[i]);
        assert false;
      }
    }
  }
}
