/**
  Group-by: splitting a table into one group of rows per distinct key. Every
  rollup on the three pages is a group-by followed by a per-group summary,
  so the partition laws are proved once here, for any row and key type.
 */
module Grouping {
  import opened Tables

  /** The rows of a table that share one key. */
  datatype Group<T, K> = Group(key: K, rows: seq<T>)

  function Size<T, K>(g: Group<T, K>): int {
    |g.rows|
  }

  /** The rows whose key is `k`, in table order. */
  function Rows<T(!new), K(==, !new)>(t: seq<T>, key: T -> K, k: K): (r: seq<T>)
    ensures |r| <= |t|
    ensures forall x :: x in r <==> x in t && key(x) == k
  {
    if |t| == 0 then []
    else (if key(t[0]) == k then [t[0]] else []) + Rows(t[1..], key, k)
  }

  /** Selecting one key is selecting by any condition that holds exactly on
      the rows with that key. */
  lemma {:induction false} RowsAsWhere<T(!new), K(!new)>(t: seq<T>, key: T -> K, k: K, p: T -> bool)
    requires forall x :: p(x) == (key(x) == k)
    ensures Rows(t, key, k) == Where(t, p)
    decreases |t|
  {
    if |t| > 0 {
      RowsAsWhere(t[1..], key, k, p);
    }
  }

  /** Selecting by a finer key inside a coarser selection is selecting by the
      finer key alone. */
  lemma {:induction false} RowsNested<T(!new), K(!new), L(!new)>(t: seq<T>, coarse: T -> K, k: K, fine: T -> L, l: L)
    requires forall x :: fine(x) == l ==> coarse(x) == k
    ensures Rows(Rows(t, coarse, k), fine, l) == Rows(t, fine, l)
    decreases |t|
  {
    if |t| > 0 {
      RowsNested(t[1..], coarse, k, fine, l);
      var r := Rows(t, coarse, k);
      if coarse(t[0]) == k {
        assert r == [t[0]] + Rows(t[1..], coarse, k);
        assert r[0] == t[0] && r[1..] == Rows(t[1..], coarse, k);
        assert Rows(r, fine, l) == (if fine(t[0]) == l then [t[0]] else []) + Rows(r[1..], fine, l);
      } else {
        assert r == Rows(t[1..], coarse, k);
        assert fine(t[0]) != l;
      }
    }
  }

  lemma RowsIsSubsequence<T(!new), K(!new)>(t: seq<T>, key: T -> K, k: K)
    ensures IsSubsequence(Rows(t, key, k), t)
  {
    var p := (x: T) => key(x) == k;
    RowsAsWhere(t, key, k, p);
    WhereIsSubsequence(t, p);
  }

  /** `ks` lists each key of `t` exactly once, and nothing else. */
  ghost predicate ListsKeys<T(!new), K(!new)>(ks: seq<K>, t: seq<T>, key: T -> K) {
    && NoDups(ks)
    && (forall i :: 0 <= i < |t| ==> key(t[i]) in ks)
    && (forall j :: 0 <= j < |ks| ==> ks[j] in Image(t, key))
  }

  /** A key list holds as many keys as the table has distinct keys. */
  lemma ListsKeysCount<T(!new), K(!new)>(ks: seq<K>, t: seq<T>, key: T -> K)
    requires ListsKeys(ks, t, key)
    ensures |ks| == |Image(t, key)|
  {
    var image := Image(t, key);
    var id := (k: K) => k;
    ImageOfInjective(ks, id);
    var own := Image(ks, id);
    forall k | k in own ensures k in image {
      var j := ImageWitness(ks, id, k);
    }
    forall k | k in image ensures k in own {
      var i := ImageWitness(t, key, k);
      assert key(t[i]) in ks;
      var j :| 0 <= j < |ks| && ks[j] == k;
      assert id(ks[j]) in own;
    }
    assert own == image;
  }

  lemma DistinctKeysStep<T(!new), K(!new)>(t: seq<T>, key: T -> K, rest: seq<K>)
    requires |t| > 0 && ListsKeys(rest, t[1..], key)
    ensures key(t[0]) in rest ==> ListsKeys(rest, t, key)
    ensures key(t[0]) !in rest ==> ListsKeys([key(t[0])] + rest, t, key)
  {
    assert Image(t, key) == {key(t[0])} + Image(t[1..], key);
    forall i | 0 < i < |t| ensures key(t[i]) in rest {
      assert key(t[1..][i - 1]) in rest;
    }
  }

  /** Each key of the table once, in order of first appearance. */
  function DistinctKeys<T(!new), K(==, !new)>(t: seq<T>, key: T -> K): (ks: seq<K>)
    ensures ListsKeys(ks, t, key)
    ensures |ks| == |Image(t, key)|
  {
    if |t| == 0 then []
    else
      var rest := DistinctKeys(t[1..], key);
      DistinctKeysStep(t, key, rest);
      var ks := if key(t[0]) in rest then rest else [key(t[0])] + rest;
      ListsKeysCount(ks, t, key);
      ks
  }

  /** One group per key of `ks`, holding exactly the rows with that key. */
  function GroupsFor<T(!new), K(==, !new)>(t: seq<T>, key: T -> K, ks: seq<K>): (gs: seq<Group<T, K>>)
    ensures |gs| == |ks|
    ensures forall j :: 0 <= j < |gs| ==> gs[j] == Group(ks[j], Rows(t, key, ks[j]))
  {
    if |ks| == 0 then []
    else [Group(ks[0], Rows(t, key, ks[0]))] + GroupsFor(t, key, ks[1..])
  }

  /** How often `k` occurs in `ks`. */
  function Occurrences<K(==)>(ks: seq<K>, k: K): nat {
    if |ks| == 0 then 0 else (if ks[0] == k then 1 else 0) + Occurrences(ks[1..], k)
  }

  lemma {:induction false} OccurrencesOnce<K>(ks: seq<K>, k: K)
    requires NoDups(ks) && k in ks
    ensures Occurrences(ks, k) == 1
    decreases |ks|
  {
    if ks[0] == k {
      OccurrencesNone(ks[1..], k);
    } else {
      OccurrencesOnce(ks[1..], k);
    }
  }

  lemma {:induction false} OccurrencesNone<K>(ks: seq<K>, k: K)
    requires k !in ks
    ensures Occurrences(ks, k) == 0
    decreases |ks|
  {
    if |ks| > 0 {
      OccurrencesNone(ks[1..], k);
    }
  }

  /** Adding one row to the table adds it to the size of every group whose key matches. */
  lemma {:induction false} SizesStep<T(!new), K(!new)>(x: T, t: seq<T>, key: T -> K, ks: seq<K>)
    ensures SumOf(GroupsFor([x] + t, key, ks), Size) == SumOf(GroupsFor(t, key, ks), Size) + Occurrences(ks, key(x))
    decreases |ks|
  {
    if |ks| > 0 {
      assert ([x] + t)[1..] == t;
      assert Rows([x] + t, key, ks[0]) == (if key(x) == ks[0] then [x] else []) + Rows(t, key, ks[0]);
      SizesStep(x, t, key, ks[1..]);
    }
  }

  lemma {:induction false} SizesOfEmpty<T(!new), K(!new)>(key: T -> K, ks: seq<K>)
    ensures SumOf(GroupsFor([], key, ks), Size) == 0
    decreases |ks|
  {
    if |ks| > 0 {
      SizesOfEmpty(key, ks[1..]);
    }
  }

  /** Count conservation: when every row's key is listed exactly once, the group
      sizes add up to the number of rows. */
  lemma {:induction false} SizesAddUp<T(!new), K(!new)>(t: seq<T>, key: T -> K, ks: seq<K>)
    requires NoDups(ks)
    requires forall i :: 0 <= i < |t| ==> key(t[i]) in ks
    ensures SumOf(GroupsFor(t, key, ks), Size) == |t|
    decreases |t|
  {
    if |t| == 0 {
      SizesOfEmpty(key, ks);
    } else {
      assert t == [t[0]] + t[1..];
      SizesAddUp(t[1..], key, ks);
      SizesStep(t[0], t[1..], key, ks);
      OccurrencesOnce(ks, key(t[0]));
    }
  }

  /** The key of each group, in group order. */
  function KeysOf<T, K>(gs: seq<Group<T, K>>): (ks: seq<K>)
    ensures |ks| == |gs|
    ensures forall j :: 0 <= j < |gs| ==> ks[j] == gs[j].key
  {
    if |gs| == 0 then [] else [gs[0].key] + KeysOf(gs[1..])
  }

  /** `gs` splits `t` by `key`: one non-empty group per distinct key, each holding
      exactly the rows with its key, and no row lost or counted twice. */
  ghost predicate IsGrouping<T(!new), K(!new)>(gs: seq<Group<T, K>>, t: seq<T>, key: T -> K) {
    && (forall j :: 0 <= j < |gs| ==> gs[j].rows == Rows(t, key, gs[j].key) && |gs[j].rows| > 0)
    && NoDups(KeysOf(gs))
    && (forall i :: 0 <= i < |t| ==> key(t[i]) in KeysOf(gs))
    && |gs| == |Image(t, key)|
    && SumOf(gs, Size) == |t|
  }

  lemma GroupsForRows<T(!new), K(!new)>(t: seq<T>, key: T -> K, ks: seq<K>)
    requires ListsKeys(ks, t, key)
    ensures forall j :: 0 <= j < |ks| ==> |GroupsFor(t, key, ks)[j].rows| > 0
  {
    var gs := GroupsFor(t, key, ks);
    forall j | 0 <= j < |gs| ensures |gs[j].rows| > 0 {
      var i := ImageWitness(t, key, ks[j]);
      assert t[i] in gs[j].rows;
    }
  }

  lemma GroupsForIsGrouping<T(!new), K(!new)>(t: seq<T>, key: T -> K, ks: seq<K>)
    requires ListsKeys(ks, t, key)
    ensures IsGrouping(GroupsFor(t, key, ks), t, key)
  {
    SizesAddUp(t, key, ks);
    ListsKeysCount(ks, t, key);
    GroupsForRows(t, key, ks);
    var gs := GroupsFor(t, key, ks);
    assert KeysOf(gs) == ks;
  }

  function GroupBy<T(!new), K(==, !new)>(t: seq<T>, key: T -> K): (gs: seq<Group<T, K>>)
    ensures IsGrouping(gs, t, key)
  {
    var ks := DistinctKeys(t, key);
    GroupsForIsGrouping(t, key, ks);
    GroupsFor(t, key, ks)
  }

  /** Every key of a grouped table is a group key. */
  lemma KeysListed<T(!new), K(!new)>(t: seq<T>, gs: seq<Group<T, K>>, key: T -> K)
    requires IsGrouping(gs, t, key)
    ensures forall k :: k in Image(t, key) ==> k in KeysOf(gs)
  {
    forall k | k in Image(t, key) ensures k in KeysOf(gs) {
      var i := ImageWitness(t, key, k);
    }
  }
}
