/**
  The detailed show page. After the shared filter the rows can be narrowed to
  one show. For a single show the page shows its details and the spread of its
  completion rates; for all shows it compares the shows. On either path it
  shows the views by hour, by state, by day and by calendar week.
 */
module Shows {
  import opened Tables
  import opened Sorting
  import opened Grouping
  import opened Events
  import opened Rollups

  /** The descriptive columns of a show. */
  datatype ShowInfo = ShowInfo(genre: string, showType: string, rating: string, description: string, duration: PositiveSeconds)

  function InfoOf(e: Event): ShowInfo {
    ShowInfo(e.genre, e.showType, e.rating, e.description, e.showDuration)
  }

  datatype ShowDetails = ShowDetails(info: ShowInfo, totalViews: nat, uniqueViewers: nat)

  /** The details panel appears when the distinct detail combinations of the
      remaining rows are not empty. It shows one of them (which one is up to
      the library) with the view and viewer counts. */
  function Details(f: seq<Event>): (r: Option<ShowDetails>)
    ensures r.Some? <==> |f| > 0
    ensures r.Some? ==> r.value.info in Image(f, InfoOf)
    ensures r.Some? ==> r.value.totalViews == |f| && r.value.uniqueViewers == |Image(f, UserOf)|
    ensures r.Some? ==> 1 <= r.value.uniqueViewers <= r.value.totalViews
  {
    if |Image(f, InfoOf)| == 0 then None
    else Some(ShowDetails(InfoOf(f[0]), |f|, |Image(f, UserOf)|))
  }

  /** The four completion figures of the single-show panel. */
  datatype CompletionStats = CompletionStats(mean: real, median: real, max: real, min: real)

  predicate RealLe(a: real, b: real) {
    a <= b
  }

  function AtMost(m: real): real -> bool { (x: real) => x <= m }
  function AtLeast(m: real): real -> bool { (x: real) => x >= m }

  /** `m` is a median of the column: at least half of its entries lie at or
      below `m`, and at least half at or above it. */
  predicate IsMedianOf(m: real, c: seq<real>) {
    && 2 * |Where(c, AtMost(m))| >= |c|
    && 2 * |Where(c, AtLeast(m))| >= |c|
  }

  /** The middle value of a sorted column; the mean of the two middle values
      when the length is even (for an odd length both indices are the middle). */
  function Median(s: seq<real>): (m: real)
    requires |s| > 0 && Ordered(s, RealLe)
    ensures s[0] <= m <= s[|s| - 1]
    ensures IsMedianOf(m, s)
  {
    var lo := (|s| - 1) / 2;
    var hi := |s| / 2;
    OrderedEnds(s, lo);
    OrderedEnds(s, hi);
    var m := (s[lo] + s[hi]) / 2.0;
    MiddleHalves(s, lo, hi, m);
    m
  }

  /** Everything up to the lower middle index lies at or below the mean of the
      two middle entries, and everything from the upper middle index on lies
      at or above it; each of those stretches is at least half the column. */
  lemma MiddleHalves(s: seq<real>, lo: nat, hi: nat, m: real)
    requires |s| > 0 && Ordered(s, RealLe)
    requires lo == (|s| - 1) / 2 && hi == |s| / 2 && m == (s[lo] + s[hi]) / 2.0
    ensures IsMedianOf(m, s)
  {
    assert s[lo] <= s[hi] by {
      if lo < hi {
        assert RealLe(s[lo], s[hi]);
      }
    }
    forall i | 0 <= i < lo + 1 ensures AtMost(m)(s[i]) {
      if i < lo {
        assert RealLe(s[i], s[lo]);
      }
    }
    WherePrefixCount(s, AtMost(m), lo + 1);
    forall i | hi <= i < |s| ensures AtLeast(m)(s[i]) {
      if hi < i {
        assert RealLe(s[hi], s[i]);
      }
    }
    WhereSuffixCount(s, AtLeast(m), hi);
  }

  /** Being a median depends only on the entries, not on their order. */
  lemma MedianOfReordered(s: seq<real>, c: seq<real>, m: real)
    requires multiset(s) == multiset(c) && IsMedianOf(m, s)
    ensures IsMedianOf(m, c)
  {
    assert |s| == |c| by {
      assert |multiset(s)| == |s| && |multiset(c)| == |c|;
    }
    WherePermutationCount(s, c, AtMost(m));
    WherePermutationCount(s, c, AtLeast(m));
  }

  /** In an ordered column the first entry is the least and the last the greatest. */
  lemma OrderedEnds(s: seq<real>, i: nat)
    requires Ordered(s, RealLe) && i < |s|
    ensures s[0] <= s[i] <= s[|s| - 1]
  {
    assert i == 0 || RealLe(s[0], s[i]);
    assert i == |s| - 1 || RealLe(s[i], s[|s| - 1]);
  }

  /** The ends of a sorted copy of a column bound the column and occur in it. */
  lemma SortedBounds(c: seq<real>, s: seq<real>)
    requires |c| > 0 && multiset(s) == multiset(c) && Ordered(s, RealLe)
    ensures |s| == |c|
    ensures forall i :: 0 <= i < |c| ==> s[0] <= c[i] <= s[|s| - 1]
    ensures s[0] in c && s[|s| - 1] in c
  {
    assert |s| == |c| by {
      assert |multiset(s)| == |s| && |multiset(c)| == |c|;
    }
    forall i | 0 <= i < |c| ensures s[0] <= c[i] <= s[|s| - 1] {
      assert c[i] in multiset(s);
      var k :| 0 <= k < |s| && s[k] == c[i];
      OrderedEnds(s, k);
    }
    assert s[0] in multiset(c);
    assert s[|s| - 1] in multiset(c);
  }

  /** The statistics panel as the page computes it: each figure of an empty
      column is absent. */
  datatype StatsPanel = StatsPanel(mean: Option<real>, median: Option<real>, max: Option<real>, min: Option<real>)

  function StatsAsWritten(f: seq<Event>): (p: StatsPanel)
    ensures p.mean.None? <==> |f| == 0
    ensures p.median.None? <==> |f| == 0
    ensures p.max.None? <==> |f| == 0
    ensures p.min.None? <==> |f| == 0
  {
    match CompletionSpread(f)
    case None => StatsPanel(None, None, None, None)
    case Some(c) => StatsPanel(Some(c.mean), Some(c.median), Some(c.max), Some(c.min))
  }

  /** A show whose rows are all filtered away leaves the panel without a
      mean to display. */
  lemma FilteredShowBreaksStats(t: seq<Event>, sel: Selection, selected: string)
    requires selected != AllShows && sel.states == {}
    ensures !Displayable(StatsAsWritten(ShowFilter(BaseFilter(t, sel), selected)).mean)
  {
    EmptySelectionKeepsNothing(t, sel);
    assert BaseFilter(t, sel) == [];
  }

  /** The completion figures of the remaining rows, present exactly when a
      row remains (the guard the details panel already has). */
  function CompletionSpread(f: seq<Event>): (r: Option<CompletionStats>)
    ensures r.Some? <==> |f| > 0
    ensures r.Some? ==> r.value.mean == Mean(f, CompletionOf)
    ensures r.Some? ==> forall i :: 0 <= i < |f| ==> r.value.min <= CompletionOf(f[i]) <= r.value.max
    ensures r.Some? ==> r.value.min in Completions(f) && r.value.max in Completions(f)
    ensures r.Some? ==> r.value.min <= r.value.median <= r.value.max
    ensures r.Some? ==> IsMedianOf(r.value.median, Completions(f))
    ensures r.Some? ==> r.value.min <= r.value.mean <= r.value.max
  {
    if |f| == 0 then None
    else
      var s := SortBy(Completions(f), RealLe);
      SortedOrdered(s, RealLe);
      SpreadOfSorted(f, s);
      MedianOfReordered(s, Completions(f), Median(s));
      Some(CompletionStats(Mean(f, CompletionOf), Median(s), s[|s| - 1], s[0]))
  }

  /** The figures taken from a sorted copy of the completion column. */
  lemma SpreadOfSorted(f: seq<Event>, s: seq<real>)
    requires |f| > 0 && multiset(s) == multiset(Completions(f)) && Ordered(s, RealLe)
    ensures |s| == |f|
    ensures forall i :: 0 <= i < |f| ==> s[0] <= CompletionOf(f[i]) <= s[|s| - 1]
    ensures s[0] in Completions(f) && s[|s| - 1] in Completions(f)
    ensures s[0] <= Mean(f, CompletionOf) <= s[|s| - 1]
  {
    var c := Completions(f);
    SortedBounds(c, s);
    assert forall i :: 0 <= i < |f| ==> s[0] <= CompletionOf(f[i]) <= s[|s| - 1] by {
      forall i | 0 <= i < |f| ensures s[0] <= CompletionOf(f[i]) <= s[|s| - 1] {
        assert c[i] == CompletionOf(f[i]);
      }
    }
    MeanBounds(f, CompletionOf, s[0], s[|s| - 1]);
  }

  /** Views, viewers, mean completion and mean watch time per show, most viewed first. */
  function ShowMetrics(f: seq<Event>): (r: seq<GroupStats<string>>)
    ensures IsRollup(r, f, ShowOf)
    ensures forall j :: 0 <= j < |r| ==> 1 <= r[j].uniqueUsers <= r[j].views
    ensures forall i, j :: 0 <= i < j < |r| ==> r[i].views >= r[j].views
  {
    RankedByViews(f, ShowOf)
  }

  /** Views and mean completion per hour of the day, earliest hour first. */
  function HourlyViews(f: seq<Event>): (r: seq<GroupStats<int>>)
    ensures IsRollup(r, f, HourOf)
    ensures forall i, j :: 0 <= i < j < |r| ==> r[i].key < r[j].key
    ensures forall j :: 0 <= j < |r| ==> 0 <= r[j].key < 24
  {
    var r := Ascending(f, HourOf);
    forall j | 0 <= j < |r| ensures 0 <= r[j].key < 24 {
      var x := RollupKeyWitness(r, f, HourOf, j);
    }
    r
  }

  /** Views, viewers and mean completion per state, most viewed first. */
  function GeoStats(f: seq<Event>): (r: seq<GroupStats<string>>)
    ensures IsRollup(r, f, StateOf)
    ensures forall j :: 0 <= j < |r| ==> 1 <= r[j].uniqueUsers <= r[j].views
    ensures forall i, j :: 0 <= i < j < |r| ==> r[i].views >= r[j].views
  {
    RankedByViews(f, StateOf)
  }

  /** Views, viewers and mean completion per day, earliest first. */
  function DailyTrends(f: seq<Event>): (r: seq<GroupStats<int>>)
    ensures IsRollup(r, f, DateOf)
    ensures forall j :: 0 <= j < |r| ==> 1 <= r[j].uniqueUsers <= r[j].views
    ensures forall i, j :: 0 <= i < j < |r| ==> r[i].key < r[j].key
  {
    Ascending(f, DateOf)
  }

  /** Views and mean completion per calendar week, in (year, week) order. */
  function WeeklyTrends(f: seq<Event>): (r: seq<GroupStats<(int, nat)>>)
    ensures IsRollup(r, f, WeekOf)
    ensures forall i, j :: 0 <= i < j < |r| ==> WeekLess(r[i].key, r[j].key)
  {
    Weekly(f)
  }

  /** The charts shown on both paths. */
  datatype Trends = Trends(
    hourly: seq<GroupStats<int>>,
    geo: seq<GroupStats<string>>,
    daily: seq<GroupStats<int>>,
    weekly: seq<GroupStats<(int, nat)>>,
    showWeekly: bool)

  /** The trend charts over the remaining rows `f`: each partitions the rows,
      and the weekly charts appear only when the rows span two weeks or more. */
  function TrendPanels(f: seq<Event>): (v: Trends)
    ensures SumOf(v.hourly, Views) == |f| && SumOf(v.geo, Views) == |f|
    ensures SumOf(v.daily, Views) == |f| && SumOf(v.weekly, Views) == |f|
    ensures v.showWeekly <==> |Image(f, WeekOf)| > 1
  {
    var weekly := WeeklyTrends(f);
    Trends(HourlyViews(f), GeoStats(f), DailyTrends(f), weekly, |weekly| > 1)
  }

  datatype ShowsView = ShowsView(
    details: Option<ShowDetails>,
    stats: Option<CompletionStats>,
    comparison: seq<GroupStats<string>>,
    trends: Trends)

  /** The whole page for one entry of the show picker, over the rows `base`
      that the common filter (`BaseFilter`) keeps. */
  function DetailedAnalysis(base: seq<Event>, selected: string): (v: ShowsView)
    ensures selected == AllShows ==> v.details.None? && v.stats.None?
    ensures selected == AllShows ==> SumOf(v.comparison, Views) == SumOf(v.trends.daily, Views) == |base|
    ensures selected != AllShows ==> v.comparison == [] && SumOf(v.trends.daily, Views) == |Rows(base, ShowOf, selected)|
    ensures selected != AllShows ==> (v.details.Some? <==> |Rows(base, ShowOf, selected)| > 0)
    ensures selected != AllShows ==> (v.details.Some? <==> v.stats.Some?)
    ensures selected != AllShows && v.details.Some? ==> v.details.value.totalViews == SumOf(v.trends.daily, Views)
  {
    var f := ShowFilter(base, selected);
    if selected == AllShows then AllShowsPage(f)
    else
      assert f == Rows(base, ShowOf, selected);
      OneShowPage(f)
  }

  /** With every show picked: the comparison table and the trends, which
      both partition the rows. */
  function AllShowsPage(f: seq<Event>): (v: ShowsView)
    ensures v.details.None? && v.stats.None?
    ensures SumOf(v.comparison, Views) == |f| && SumOf(v.trends.daily, Views) == |f|
  {
    ShowsView(None, None, ShowMetrics(f), TrendPanels(f))
  }

  /** With one show picked: its details and completion figures, both present
      exactly when it has rows, and its trends. */
  function OneShowPage(f: seq<Event>): (v: ShowsView)
    ensures v.comparison == [] && SumOf(v.trends.daily, Views) == |f|
    ensures v.details.Some? <==> |f| > 0
    ensures v.details.Some? <==> v.stats.Some?
    ensures v.details.Some? ==> v.details.value.totalViews == |f|
  {
    ShowsView(Details(f), CompletionSpread(f), [], TrendPanels(f))
  }
}
