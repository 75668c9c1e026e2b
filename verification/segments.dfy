/**
  Second-level rollups over the per-user rows: the users grouped by state,
  by a ladder class or by cohort month, with a count and column means per
  group. `SegmentStats` carries every column those tables compute.
 */
module Segments {
  import opened Tables
  import opened Sorting
  import opened Grouping
  import opened Users
  import opened Ladders
  import opened Events

  datatype SegmentStats<K> = SegmentStats(
    key: K,
    userCount: nat,
    avgViews: real,
    avgCompletion: real,
    avgWatchHours: real,
    avgUniqueShows: real,
    avgDaysActive: real)

  // The user columns the segment tables average.
  function ViewsReal(m: UserMetrics): real { m.totalViews as real }
  function CompletionOfUser(m: UserMetrics): real { m.avgCompletionRate }
  function HoursOf(m: UserMetrics): real { m.totalWatchHours }
  function ShowsReal(m: UserMetrics): real { m.uniqueShows as real }
  function DaysReal(m: UserMetrics): real { m.daysActive as real }

  function UserCount<K>(s: SegmentStats<K>): int { s.userCount }
  function SegmentKey<K>(s: SegmentStats<K>): K { s.key }

  /** The summary row of one group of users. */
  function SummarizeSegment<K>(g: Group<UserMetrics, K>): (s: SegmentStats<K>)
    requires |g.rows| > 0
    ensures s.key == g.key && s.userCount == |g.rows|
  {
    SegmentStats(
      g.key,
      |g.rows|,
      Mean(g.rows, ViewsReal),
      Mean(g.rows, CompletionOfUser),
      Mean(g.rows, HoursOf),
      Mean(g.rows, ShowsReal),
      Mean(g.rows, DaysReal))
  }

  function SegmentSummaries<K>(gs: seq<Group<UserMetrics, K>>): (r: seq<SegmentStats<K>>)
    requires forall j :: 0 <= j < |gs| ==> |gs[j].rows| > 0
    ensures |r| == |gs|
    ensures forall j :: 0 <= j < |r| ==> r[j] == SummarizeSegment(gs[j])
  {
    Map(gs, SummarizeSegment)
  }

  /** The summary of the users whose key is `k`. */
  function SegmentOf<K(==, !new)>(us: seq<UserMetrics>, key: UserMetrics -> K, k: K): SegmentStats<K>
    requires |Rows(us, key, k)| > 0
  {
    SummarizeSegment(Group(k, Rows(us, key, k)))
  }

  /** `r` holds one summary row per distinct key among the users: each row
      summarises exactly the users with its key, no key is missing or
      repeated, and the counts add up to the number of users. */
  ghost predicate IsSegmentation<K(!new)>(r: seq<SegmentStats<K>>, us: seq<UserMetrics>, key: UserMetrics -> K) {
    && (forall j :: 0 <= j < |r| ==> |Rows(us, key, r[j].key)| > 0 && r[j] == SegmentOf(us, key, r[j].key))
    && DistinctBy(r, SegmentKey)
    && (forall i :: 0 <= i < |us| ==> key(us[i]) in Image(r, SegmentKey))
    && |r| == |Image(us, key)|
    && SumOf(r, UserCount) == |us|
  }

  /** Group the users by `key` and summarise each group. */
  function Segments<K(==, !new)>(us: seq<UserMetrics>, key: UserMetrics -> K): (r: seq<SegmentStats<K>>)
    ensures IsSegmentation(r, us, key)
  {
    var gs := GroupBy(us, key);
    var r := SegmentSummaries(gs);
    assert DistinctBy(r, SegmentKey) by {
      forall i, j | 0 <= i < j < |r| ensures r[i].key != r[j].key {
        assert KeysOf(gs)[i] != KeysOf(gs)[j];
      }
    }
    forall i | 0 <= i < |us| ensures key(us[i]) in Image(r, SegmentKey) {
      var j :| 0 <= j < |gs| && KeysOf(gs)[j] == key(us[i]);
      assert SegmentKey(r[j]) == key(us[i]);
    }
    SumOfPointwise(r, gs, UserCount, Size);
    r
  }

  /** Re-ordering a segmentation leaves it a segmentation. */
  lemma SegmentPermutation<K(!new)>(a: seq<SegmentStats<K>>, b: seq<SegmentStats<K>>, us: seq<UserMetrics>, key: UserMetrics -> K)
    requires IsSegmentation(a, us, key) && multiset(a) == multiset(b)
    ensures IsSegmentation(b, us, key)
  {
    assert |b| == |a| by {
      assert |multiset(a)| == |a| && |multiset(b)| == |b|;
    }
    forall j | 0 <= j < |b| ensures |Rows(us, key, b[j].key)| > 0 && b[j] == SegmentOf(us, key, b[j].key) {
      assert b[j] in multiset(a);
    }
    assert NoDups(a) by {
      forall i, j | 0 <= i < j < |a| ensures a[i] != a[j] {
        assert a[i].key != a[j].key;
      }
    }
    PermutationNoDups(a, b);
    forall i, j | 0 <= i < j < |b| ensures b[i].key != b[j].key {
      assert b[i] != b[j];
    }
    forall i | 0 <= i < |us| ensures key(us[i]) in Image(b, SegmentKey) {
      var j := ImageWitness(a, SegmentKey, key(us[i]));
      assert a[j] in multiset(b);
      var j' :| 0 <= j' < |b| && b[j'] == a[j];
      assert SegmentKey(b[j']) == key(us[i]);
    }
    SumOfPermutation(a, b, UserCount);
  }

  /** A segment's count is the number of users meeting any condition that
      singles out its key. */
  lemma SegmentCount<K(!new)>(r: seq<SegmentStats<K>>, us: seq<UserMetrics>, key: UserMetrics -> K, j: nat, p: UserMetrics -> bool)
    requires IsSegmentation(r, us, key) && j < |r|
    requires forall m :: p(m) == (key(m) == r[j].key)
    ensures r[j].userCount == |Where(us, p)|
  {
    RowsAsWhere(us, key, r[j].key, p);
  }

  /** A key with no row belongs to no user. */
  lemma AbsentKeyHasNoUsers<K(!new)>(r: seq<SegmentStats<K>>, us: seq<UserMetrics>, key: UserMetrics -> K, k: K, m: UserMetrics)
    requires IsSegmentation(r, us, key)
    requires k !in Image(r, SegmentKey) && m in us
    ensures key(m) != k
  {
    var i :| 0 <= i < |us| && us[i] == m;
  }

  predicate ByUserCountDesc<K>(a: SegmentStats<K>, b: SegmentStats<K>) { a.userCount >= b.userCount }
  predicate ByMonthAsc(a: SegmentStats<int>, b: SegmentStats<int>) { a.key <= b.key }

  // The keys the user page groups by.
  function UserStateOf(m: UserMetrics): string { m.userState }
  function EngagementKey(m: UserMetrics): Engagement { EngagementOf(m.totalViews) }
  function ViewerKey(m: UserMetrics): ViewerSegment { ViewerSegmentOf(m.totalViews) }
  function MatrixKey(m: UserMetrics): (ViewerSegment, CompletionSegment) {
    (ViewerSegmentOf(m.totalViews), CompletionSegmentOf(m.avgCompletionRate))
  }
  function LifecycleKey(m: UserMetrics): Lifecycle { LifecycleOf(m.daysActive) }

  /** Users per state, largest state first. */
  function UsersByState(us: seq<UserMetrics>): (r: seq<SegmentStats<string>>)
    ensures IsSegmentation(r, us, UserStateOf)
    ensures Ordered(r, ByUserCountDesc)
  {
    var s := Segments(us, UserStateOf);
    var r := SortBy(s, ByUserCountDesc);
    SegmentPermutation(s, r, us, UserStateOf);
    SortedOrdered(r, ByUserCountDesc);
    r
  }

  /** Users per engagement level. */
  function EngagementDistribution(us: seq<UserMetrics>): (r: seq<SegmentStats<Engagement>>)
    ensures IsSegmentation(r, us, EngagementKey)
    ensures |r| <= 3
  {
    var r := Segments(us, EngagementKey);
    LevelCount(us);
    r
  }

  lemma LevelCount(us: seq<UserMetrics>)
    ensures |Image(us, EngagementKey)| <= 3
  {
    assert Image(us, EngagementKey) <= {Low, Medium, High} by {
      forall e | e in Image(us, EngagementKey) ensures e in {Low, Medium, High} {
        match e
        case Low =>
        case Medium =>
        case High =>
      }
    }
    assert |{Low, Medium, High}| == 3;
    SubsetCard(Image(us, EngagementKey), {Low, Medium, High});
  }

  lemma SubsetCard<T>(a: set<T>, b: set<T>)
    requires a <= b
    ensures |a| <= |b|
  {
    assert b == a + (b - a);
  }

  /** The High row counts exactly the users with at least ten views, and
      the Medium row those with five to nine. */
  lemma EngagementCounts(us: seq<UserMetrics>, j: nat)
    requires j < |EngagementDistribution(us)|
    ensures var r := EngagementDistribution(us);
      && (r[j].key == High ==> r[j].userCount == |Where(us, (m: UserMetrics) => m.totalViews >= 10)|)
      && (r[j].key == Medium ==> r[j].userCount == |Where(us, (m: UserMetrics) => 5 <= m.totalViews < 10)|)
      && (r[j].key == Low ==> r[j].userCount == |Where(us, (m: UserMetrics) => m.totalViews < 5)|)
  {
    var r := EngagementDistribution(us);
    match r[j].key
    case High => SegmentCount(r, us, EngagementKey, j, (m: UserMetrics) => m.totalViews >= 10);
    case Medium => SegmentCount(r, us, EngagementKey, j, (m: UserMetrics) => 5 <= m.totalViews < 10);
    case Low => SegmentCount(r, us, EngagementKey, j, (m: UserMetrics) => m.totalViews < 5);
  }

  /** Users per (viewer segment, completion segment) cell; empty cells have no row. */
  function SegmentMatrix(us: seq<UserMetrics>): (r: seq<SegmentStats<(ViewerSegment, CompletionSegment)>>)
    ensures IsSegmentation(r, us, MatrixKey)
  {
    Segments(us, MatrixKey)
  }

  /** Users per viewer segment. */
  function ViewerSegments(us: seq<UserMetrics>): (r: seq<SegmentStats<ViewerSegment>>)
    ensures IsSegmentation(r, us, ViewerKey)
  {
    Segments(us, ViewerKey)
  }

  /** The matrix refines the viewer segments: the cells of one viewer
      segment's column add up to that segment's row. */
  lemma MatrixRefinesViewers(us: seq<UserMetrics>, j: nat)
    requires j < |ViewerSegments(us)|
    ensures var v := ViewerSegments(us)[j];
      SumOf(Where(SegmentMatrix(us), InColumn(v.key)), UserCount) == v.userCount
  {
    var v := ViewerSegments(us)[j];
    CoarserCount(SegmentMatrix(us), us, MatrixKey, ViewerOfCell, ViewerKey, v.key, InColumn(v.key));
  }

  function ViewerOfCell(c: (ViewerSegment, CompletionSegment)): ViewerSegment { c.0 }

  /** The matrix cells in one viewer segment's column. */
  function InColumn(k: ViewerSegment): SegmentStats<(ViewerSegment, CompletionSegment)> -> bool {
    (c: SegmentStats<(ViewerSegment, CompletionSegment)>) => c.key.0 == k
  }

  /** A finer segmentation refines a coarser one: the counts of the rows whose
      key `g` maps into class `k` add up to the number of users in class `k`. */
  lemma CoarserCount<K(!new), L(!new)>(
      r: seq<SegmentStats<K>>, us: seq<UserMetrics>, key: UserMetrics -> K,
      g: K -> L, coarse: UserMetrics -> L, k: L, inClass: SegmentStats<K> -> bool)
    requires IsSegmentation(r, us, key)
    requires forall m :: coarse(m) == g(key(m))
    requires forall s :: inClass(s) == (g(s.key) == k)
    ensures SumOf(Where(r, inClass), UserCount) == |Rows(us, coarse, k)|
  {
    var sub := Where(r, inClass);
    var cls := Rows(us, coarse, k);
    var ks := Map(sub, SegmentKey);
    ClassKeysListed(r, us, key, g, coarse, k, inClass);
    SizesAddUp(cls, key, ks);
    var gs := GroupsFor(cls, key, ks);
    forall j | 0 <= j < |sub| ensures UserCount(sub[j]) == Size(gs[j]) {
      assert sub[j] in r;
      RowsNested(us, coarse, k, key, sub[j].key);
    }
    SumOfPointwise(sub, gs, UserCount, Size);
  }

  /** The keys of a class's rows are listed once each and cover every user of the class. */
  lemma ClassKeysListed<K(!new), L(!new)>(
      r: seq<SegmentStats<K>>, us: seq<UserMetrics>, key: UserMetrics -> K,
      g: K -> L, coarse: UserMetrics -> L, k: L, inClass: SegmentStats<K> -> bool)
    requires IsSegmentation(r, us, key)
    requires forall m :: coarse(m) == g(key(m))
    requires forall s :: inClass(s) == (g(s.key) == k)
    ensures NoDups(Map(Where(r, inClass), SegmentKey))
    ensures forall i :: 0 <= i < |Rows(us, coarse, k)| ==> key(Rows(us, coarse, k)[i]) in Map(Where(r, inClass), SegmentKey)
  {
    var sub := Where(r, inClass);
    var cls := Rows(us, coarse, k);
    var ks := Map(sub, SegmentKey);
    WhereIsSubsequence(r, inClass);
    SubsequenceDistinct(sub, r, SegmentKey);
    forall i | 0 <= i < |cls| ensures key(cls[i]) in ks {
      var m := cls[i];
      assert m in cls;
      var j := ImageWitness(r, SegmentKey, key(m));
      assert inClass(r[j]);
      assert r[j] in sub;
      var j' :| 0 <= j' < |sub| && sub[j'] == r[j];
      assert ks[j'] == key(m);
    }
  }

  /** Users per lifecycle stage. */
  function LifecycleStats(us: seq<UserMetrics>): (r: seq<SegmentStats<Lifecycle>>)
    ensures IsSegmentation(r, us, LifecycleKey)
  {
    Segments(us, LifecycleKey)
  }

  /** A lifecycle row for a single day counts exactly the users whose first
      and last views fall on the same day. */
  lemma SingleDayCount(us: seq<UserMetrics>, j: nat)
    requires j < |LifecycleStats(us)| && LifecycleStats(us)[j].key == SingleDay
    ensures LifecycleStats(us)[j].userCount == |Where(us, (m: UserMetrics) => m.daysActive == 0)|
  {
    SegmentCount(LifecycleStats(us), us, LifecycleKey, j, (m: UserMetrics) => m.daysActive == 0);
  }

  /** Users grouped by the month of their first view, months in ascending
      order. `monthOf` stands for formatting a date as year and month; any
      month numbering that grows with the calendar works. */
  function Cohorts(us: seq<UserMetrics>, monthOf: Date -> int): (r: seq<SegmentStats<int>>)
    ensures IsSegmentation(r, us, (m: UserMetrics) => monthOf(m.firstViewDate))
    ensures forall i, j :: 0 <= i < j < |r| ==> r[i].key < r[j].key
  {
    var key := (m: UserMetrics) => monthOf(m.firstViewDate);
    var s := Segments(us, key);
    var r := SortBy(s, ByMonthAsc);
    SegmentPermutation(s, r, us, key);
    AscendingMonths(r);
    r
  }

  lemma AscendingMonths(r: seq<SegmentStats<int>>)
    requires SortedBy(r, ByMonthAsc) && DistinctBy(r, SegmentKey)
    ensures forall i, j :: 0 <= i < j < |r| ==> r[i].key < r[j].key
  {
    forall i, j | 0 <= i < j < |r| ensures r[i].key < r[j].key {
      SortedPairwise(r, ByMonthAsc, i, j);
    }
  }
}
