/**
  Ordering of tables on a sort key. The pages sort rollups by a metric
  (descending) or by a date, hour or week key (ascending); ties are left in
  whatever order the sort produces, so the model only speaks of the order on
  the key. `le(a, b)` reads "a may come before b".
 */
module Sorting {

  /** Any two rows can be placed relative to each other. */
  ghost predicate Total<T(!new)>(le: (T, T) -> bool) {
    forall a, b :: le(a, b) || le(b, a)
  }

  ghost predicate Transitive<T(!new)>(le: (T, T) -> bool) {
    forall a, b, c :: le(a, b) && le(b, c) ==> le(a, c)
  }

  /** Every row may come before its successor. */
  predicate SortedBy<T>(s: seq<T>, le: (T, T) -> bool) {
    forall i :: 0 < i < |s| ==> le(s[i - 1], s[i])
  }

  /** Places `x` before the first row it may precede. */
  function Insert<T(!new)>(x: T, s: seq<T>, le: (T, T) -> bool): (r: seq<T>)
    requires Total(le)
    ensures multiset(r) == multiset(s) + multiset{x}
    ensures |r| == |s| + 1
    ensures r[0] == x || (|s| > 0 && r[0] == s[0])
    ensures SortedBy(s, le) ==> SortedBy(r, le)
  {
    if |s| == 0 then [x]
    else if le(x, s[0]) then
      assert s == [s[0]] + s[1..];
      [x] + s
    else
      assert s == [s[0]] + s[1..];
      [s[0]] + Insert(x, s[1..], le)
  }

  /** Insertion sort: a re-ordering of `s` in which every row may precede its successor. */
  function SortBy<T(!new)>(s: seq<T>, le: (T, T) -> bool): (r: seq<T>)
    requires Total(le)
    ensures multiset(r) == multiset(s)
    ensures |r| == |s|
    ensures SortedBy(r, le)
  {
    if |s| == 0 then []
    else
      assert s == [s[0]] + s[1..];
      Insert(s[0], SortBy(s[1..], le), le)
  }

  /** With a transitive relation, adjacent order gives order between any two rows. */
  lemma {:induction false} SortedPairwise<T(!new)>(s: seq<T>, le: (T, T) -> bool, i: nat, j: nat)
    requires Transitive(le) && SortedBy(s, le)
    requires i < j < |s|
    ensures le(s[i], s[j])
    decreases j - i
  {
    if i + 1 < j {
      SortedPairwise(s, le, i + 1, j);
    }
  }

  /** Every row may come before every later row. */
  predicate Ordered<T>(s: seq<T>, le: (T, T) -> bool) {
    forall i, j :: 0 <= i < j < |s| ==> le(s[i], s[j])
  }

  lemma SortedOrdered<T(!new)>(s: seq<T>, le: (T, T) -> bool)
    requires Transitive(le) && SortedBy(s, le)
    ensures Ordered(s, le)
  {
    forall i, j | 0 <= i < j < |s| ensures le(s[i], s[j]) {
      SortedPairwise(s, le, i, j);
    }
  }

  /** The first `n` rows of an ordered table are the top `n`: every row left
      out may follow the last row kept. */
  lemma TopRows<T>(s: seq<T>, le: (T, T) -> bool, n: nat, x: T)
    requires Ordered(s, le)
    requires x in s && n > 0
    ensures x in s[..if |s| < n then |s| else n] || (n < |s| && le(s[n - 1], x))
  {
    var j :| 0 <= j < |s| && s[j] == x;
    if j < n {
      assert s[..if |s| < n then |s| else n][j] == x;
    }
  }
}
