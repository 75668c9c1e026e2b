/**
  Event rollups: group the filtered events by one column and summarise each
  group. `GroupStats` carries every column the dashboard and show pages
  compute per group (row count, watch-time sum, distinct users, mean
  completion, mean watch time); each chart reads the columns it needs.
 */
module Rollups {
  import opened Tables
  import opened Sorting
  import opened Grouping
  import opened Events

  datatype GroupStats<K> = GroupStats(
    key: K,
    views: nat,
    watchTime: int,
    uniqueUsers: nat,
    avgCompletion: real,
    avgWatchTime: real)

  function Views<K>(s: GroupStats<K>): int { s.views }

  /** The summary row of one group of events. */
  function Summarize<K>(g: Group<Event, K>): (s: GroupStats<K>)
    requires |g.rows| > 0
    ensures s.key == g.key && s.views == |g.rows|
    ensures 1 <= s.uniqueUsers <= s.views
    ensures s.watchTime >= 0 && s.avgCompletion >= 0.0 && s.avgWatchTime >= 0.0
  {
    SumOfNonNegative(g.rows, WatchOf);
    SumRealNonNegative(g.rows, CompletionOf);
    SumRealNonNegative(g.rows, WatchReal);
    GroupStats(
      g.key,
      |g.rows|,
      SumOf(g.rows, WatchOf),
      |Image(g.rows, UserOf)|,
      Mean(g.rows, CompletionOf),
      Mean(g.rows, WatchReal))
  }

  function Summaries<K>(gs: seq<Group<Event, K>>): (r: seq<GroupStats<K>>)
    requires forall j :: 0 <= j < |gs| ==> |gs[j].rows| > 0
    ensures |r| == |gs|
    ensures forall j :: 0 <= j < |r| ==> r[j] == Summarize(gs[j])
  {
    Map(gs, Summarize)
  }

  function KeyOf<K>(s: GroupStats<K>): K { s.key }

  /** The summary of the events whose key is `k`. */
  function SummaryOf<K(==, !new)>(t: seq<Event>, key: Event -> K, k: K): GroupStats<K>
    requires |Rows(t, key, k)| > 0
  {
    Summarize(Group(k, Rows(t, key, k)))
  }

  /** `r` holds one summary row per distinct key of `t`: each row summarises
      exactly the events with its key, no key is missing or repeated, and the
      row counts add up to the number of events. */
  ghost predicate IsRollup<K(!new)>(r: seq<GroupStats<K>>, t: seq<Event>, key: Event -> K) {
    && (forall j :: 0 <= j < |r| ==> |Rows(t, key, r[j].key)| > 0 && r[j] == SummaryOf(t, key, r[j].key))
    && DistinctBy(r, KeyOf)
    && (forall i :: 0 <= i < |t| ==> key(t[i]) in Image(r, KeyOf))
    && |r| == |Image(t, key)|
    && SumOf(r, Views) == |t|
  }

  /** Group by `key` and summarise each group (the library's group order). */
  function Rollup<K(==, !new)>(t: seq<Event>, key: Event -> K): (r: seq<GroupStats<K>>)
    ensures IsRollup(r, t, key)
    ensures forall j :: 0 <= j < |r| ==> 1 <= r[j].uniqueUsers <= r[j].views
  {
    var gs := GroupBy(t, key);
    var r := Summaries(gs);
    SummariesFormRollup(t, key, gs, r);
    r
  }

  lemma SummariesFormRollup<K(!new)>(t: seq<Event>, key: Event -> K, gs: seq<Group<Event, K>>, r: seq<GroupStats<K>>)
    requires IsGrouping(gs, t, key)
    requires |r| == |gs| && forall j :: 0 <= j < |r| ==> r[j] == Summarize(gs[j])
    ensures IsRollup(r, t, key)
  {
    SummaryRows(t, key, gs, r);
    SummaryKeys(t, key, gs, r);
    SumOfPointwise(r, gs, Views, Size);
  }

  lemma SummaryRows<K(!new)>(t: seq<Event>, key: Event -> K, gs: seq<Group<Event, K>>, r: seq<GroupStats<K>>)
    requires IsGrouping(gs, t, key)
    requires |r| == |gs| && forall j :: 0 <= j < |r| ==> r[j] == Summarize(gs[j])
    ensures forall j :: 0 <= j < |r| ==> |Rows(t, key, r[j].key)| > 0 && r[j] == SummaryOf(t, key, r[j].key)
  {
  }

  lemma SummaryKeys<K(!new)>(t: seq<Event>, key: Event -> K, gs: seq<Group<Event, K>>, r: seq<GroupStats<K>>)
    requires IsGrouping(gs, t, key)
    requires |r| == |gs| && forall j :: 0 <= j < |r| ==> r[j] == Summarize(gs[j])
    ensures DistinctBy(r, KeyOf)
    ensures forall i :: 0 <= i < |t| ==> key(t[i]) in Image(r, KeyOf)
  {
    KeysStayDistinct(KeysOf(gs), r, KeyOf);
    KeysCover(KeysOf(gs), r, KeyOf);
  }

  /** Re-ordering a rollup leaves it a rollup. */
  lemma RollupPermutation<K(!new)>(a: seq<GroupStats<K>>, b: seq<GroupStats<K>>, t: seq<Event>, key: Event -> K)
    requires IsRollup(a, t, key) && multiset(a) == multiset(b)
    ensures IsRollup(b, t, key)
  {
    assert |b| == |a| by {
      assert |multiset(a)| == |a| && |multiset(b)| == |b|;
    }
    forall j | 0 <= j < |b| ensures |Rows(t, key, b[j].key)| > 0 && b[j] == SummaryOf(t, key, b[j].key) {
      assert b[j] in multiset(a);
    }
    DistinctKeysDistinctRows(a);
    PermutationNoDups(a, b);
    SummariesDistinctKeys(b, t, key);
    forall i | 0 <= i < |t| ensures key(t[i]) in Image(b, KeyOf) {
      var j := ImageWitness(a, KeyOf, key(t[i]));
      assert a[j] in multiset(b);
      var j' :| 0 <= j' < |b| && b[j'] == a[j];
      assert KeyOf(b[j']) == key(t[i]);
    }
    SumOfPermutation(a, b, Views);
  }

  /** Rows with distinct keys are distinct rows. */
  lemma DistinctKeysDistinctRows<K>(r: seq<GroupStats<K>>)
    requires DistinctBy(r, KeyOf)
    ensures NoDups(r)
  {
  }

  /** Distinct summary rows of the same table have distinct keys, since a
      key determines its summary. */
  lemma SummariesDistinctKeys<K(!new)>(r: seq<GroupStats<K>>, t: seq<Event>, key: Event -> K)
    requires forall j :: 0 <= j < |r| ==> |Rows(t, key, r[j].key)| > 0 && r[j] == SummaryOf(t, key, r[j].key)
    requires NoDups(r)
    ensures DistinctBy(r, KeyOf)
  {
    forall i, j | 0 <= i < j < |r| ensures r[i].key != r[j].key {
      assert r[i] != r[j];
    }
  }

  /** Every rollup row's key is the key of some event. */
  lemma RollupKeyWitness<K(!new)>(r: seq<GroupStats<K>>, t: seq<Event>, key: Event -> K, j: nat) returns (x: Event)
    requires IsRollup(r, t, key) && j < |r|
    ensures x in t && key(x) == r[j].key
  {
    x := Rows(t, key, r[j].key)[0];
    assert x in Rows(t, key, r[j].key);
  }

  predicate ByViewsDesc<K>(a: GroupStats<K>, b: GroupStats<K>) { a.views >= b.views }
  predicate ByCompletionDesc<K>(a: GroupStats<K>, b: GroupStats<K>) { a.avgCompletion >= b.avgCompletion }
  predicate ByKeyAsc(a: GroupStats<int>, b: GroupStats<int>) { a.key <= b.key }

  /** Year-then-week order on calendar weeks. */
  predicate WeekLe(a: (int, nat), b: (int, nat)) { a.0 < b.0 || (a.0 == b.0 && a.1 <= b.1) }
  predicate WeekLess(a: (int, nat), b: (int, nat)) { a.0 < b.0 || (a.0 == b.0 && a.1 < b.1) }
  predicate ByWeekAsc(a: GroupStats<(int, nat)>, b: GroupStats<(int, nat)>) { WeekLe(a.key, b.key) }

  /** A rollup sorted by row count, largest first. */
  function RankedByViews<K(==, !new)>(t: seq<Event>, key: Event -> K): (r: seq<GroupStats<K>>)
    ensures IsRollup(r, t, key)
    ensures forall j :: 0 <= j < |r| ==> 1 <= r[j].uniqueUsers <= r[j].views
    ensures forall i, j :: 0 <= i < j < |r| ==> r[i].views >= r[j].views
  {
    var u := Rollup(t, key);
    var r := SortBy(u, ByViewsDesc);
    RollupPermutation(u, r, t, key);
    forall i, j | 0 <= i < j < |r| ensures r[i].views >= r[j].views {
      SortedPairwise(r, ByViewsDesc, i, j);
    }
    r
  }

  /** A rollup keyed by a number (a date or an hour), in strictly ascending key order. */
  function Ascending(t: seq<Event>, key: Event -> int): (r: seq<GroupStats<int>>)
    ensures IsRollup(r, t, key)
    ensures forall j :: 0 <= j < |r| ==> 1 <= r[j].uniqueUsers <= r[j].views
    ensures forall i, j :: 0 <= i < j < |r| ==> r[i].key < r[j].key
  {
    var u := Rollup(t, key);
    var r := SortBy(u, ByKeyAsc);
    RollupPermutation(u, r, t, key);
    AscendingKeys(r);
    r
  }

  lemma AscendingKeys(r: seq<GroupStats<int>>)
    requires SortedBy(r, ByKeyAsc) && DistinctBy(r, KeyOf)
    ensures forall i, j :: 0 <= i < j < |r| ==> r[i].key < r[j].key
  {
    forall i, j | 0 <= i < j < |r| ensures r[i].key < r[j].key {
      SortedPairwise(r, ByKeyAsc, i, j);
    }
  }

  /** The rollup by calendar week, in strictly ascending (year, week) order. */
  function Weekly(t: seq<Event>): (r: seq<GroupStats<(int, nat)>>)
    ensures IsRollup(r, t, WeekOf)
    ensures forall i, j :: 0 <= i < j < |r| ==> WeekLess(r[i].key, r[j].key)
  {
    var u := Rollup(t, WeekOf);
    var r := SortBy(u, ByWeekAsc);
    RollupPermutation(u, r, t, WeekOf);
    AscendingWeeks(r);
    r
  }

  lemma AscendingWeeks(r: seq<GroupStats<(int, nat)>>)
    requires SortedBy(r, ByWeekAsc) && DistinctBy(r, KeyOf)
    ensures forall i, j :: 0 <= i < j < |r| ==> WeekLess(r[i].key, r[j].key)
  {
    assert Transitive(ByWeekAsc);
    forall i: nat, j: nat | i < j < |r| ensures WeekLess(r[i].key, r[j].key) {
      SortedPairwise(r, ByWeekAsc, i, j);
    }
  }
}
