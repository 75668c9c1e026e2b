/**
  The overview page: after the shared filter it shows the daily activity, the
  views by genre and by state, the completion rate of every view, the ten
  best-completed shows among those with at least five views, the completion by
  show type, and four headline totals.
 */
module Dashboard {
  import opened Tables
  import opened Sorting
  import opened Grouping
  import opened Events
  import opened Rollups

  /** Shows with fewer views are left out of the completion ranking. */
  const MinShowViews := 5

  /** Length of the completion ranking. */
  const TopShowCount := 10

  /** One row per day with views, earliest first. */
  function DailyViews(f: seq<Event>): (r: seq<GroupStats<int>>)
    ensures IsRollup(r, f, DateOf)
    ensures forall j :: 0 <= j < |r| ==> 1 <= r[j].uniqueUsers <= r[j].views
    ensures forall i, j :: 0 <= i < j < |r| ==> r[i].key < r[j].key
  {
    Ascending(f, DateOf)
  }

  /** Views per genre, most viewed first. */
  function GenreStats(f: seq<Event>): (r: seq<GroupStats<string>>)
    ensures IsRollup(r, f, GenreOf)
    ensures forall i, j :: 0 <= i < j < |r| ==> r[i].views >= r[j].views
  {
    RankedByViews(f, GenreOf)
  }

  /** Views and distinct users per state, most viewed first. */
  function StateStats(f: seq<Event>): (r: seq<GroupStats<string>>)
    ensures IsRollup(r, f, StateOf)
    ensures forall j :: 0 <= j < |r| ==> 1 <= r[j].uniqueUsers <= r[j].views
    ensures forall i, j :: 0 <= i < j < |r| ==> r[i].views >= r[j].views
  {
    RankedByViews(f, StateOf)
  }

  /** Mean completion and views per show type, in no particular order. */
  function TypeCompletion(f: seq<Event>): (r: seq<GroupStats<string>>)
    ensures IsRollup(r, f, TypeOf)
    ensures forall j :: 0 <= j < |r| ==> r[j].avgCompletion >= 0.0
  {
    Rollup(f, TypeOf)
  }

  predicate Eligible(s: GroupStats<string>) {
    s.views >= MinShowViews
  }

  /** The shows with enough views, best mean completion first. */
  function RankedShows(f: seq<Event>): (r: seq<GroupStats<string>>)
    ensures forall j :: 0 <= j < |r| ==> r[j].views >= MinShowViews
    ensures forall j :: 0 <= j < |r| ==> |Rows(f, ShowOf, r[j].key)| > 0 && r[j] == SummaryOf(f, ShowOf, r[j].key)
    ensures DistinctBy(r, KeyOf)
    ensures forall s :: s in Image(f, ShowOf) && |Rows(f, ShowOf, s)| >= MinShowViews ==> SummaryOf(f, ShowOf, s) in r
    ensures Ordered(r, ByCompletionDesc)
  {
    var u := Rollup(f, ShowOf);
    var r := SortBy(Where(u, Eligible), ByCompletionDesc);
    EligibleRows(f, u, r);
    SortedOrdered(r, ByCompletionDesc);
    r
  }

  /** Any re-ordering of the eligible rows of the show rollup holds one
      summary per show with enough views, and nothing else. */
  lemma EligibleRows(f: seq<Event>, u: seq<GroupStats<string>>, r: seq<GroupStats<string>>)
    requires IsRollup(u, f, ShowOf)
    requires multiset(r) == multiset(Where(u, Eligible))
    ensures forall j :: 0 <= j < |r| ==> r[j].views >= MinShowViews
    ensures forall j :: 0 <= j < |r| ==> |Rows(f, ShowOf, r[j].key)| > 0 && r[j] == SummaryOf(f, ShowOf, r[j].key)
    ensures DistinctBy(r, KeyOf)
    ensures forall s :: s in Image(f, ShowOf) && |Rows(f, ShowOf, s)| >= MinShowViews ==> SummaryOf(f, ShowOf, s) in r
  {
    EligibleRowsKept(f, u, r);
    EligibleRowsDistinct(f, u, r);
    EligibleRowsComplete(f, u, r);
  }

  lemma EligibleRowsKept(f: seq<Event>, u: seq<GroupStats<string>>, r: seq<GroupStats<string>>)
    requires IsRollup(u, f, ShowOf)
    requires multiset(r) == multiset(Where(u, Eligible))
    ensures forall j :: 0 <= j < |r| ==> r[j].views >= MinShowViews
    ensures forall j :: 0 <= j < |r| ==> |Rows(f, ShowOf, r[j].key)| > 0 && r[j] == SummaryOf(f, ShowOf, r[j].key)
  {
    forall j | 0 <= j < |r| ensures r[j] in u && Eligible(r[j]) {
      assert r[j] in multiset(Where(u, Eligible));
    }
  }

  lemma EligibleRowsDistinct(f: seq<Event>, u: seq<GroupStats<string>>, r: seq<GroupStats<string>>)
    requires IsRollup(u, f, ShowOf)
    requires multiset(r) == multiset(Where(u, Eligible))
    ensures DistinctBy(r, KeyOf)
  {
    EligibleRowsKept(f, u, r);
    DistinctKeysDistinctRows(u);
    WhereSubMultiset(u, Eligible);
    PermutationNoDups(u, r);
    SummariesDistinctKeys(r, f, ShowOf);
  }

  lemma EligibleRowsComplete(f: seq<Event>, u: seq<GroupStats<string>>, r: seq<GroupStats<string>>)
    requires IsRollup(u, f, ShowOf)
    requires multiset(r) == multiset(Where(u, Eligible))
    ensures forall s :: s in Image(f, ShowOf) && |Rows(f, ShowOf, s)| >= MinShowViews ==> SummaryOf(f, ShowOf, s) in r
  {
    forall s | s in Image(f, ShowOf) && |Rows(f, ShowOf, s)| >= MinShowViews ensures SummaryOf(f, ShowOf, s) in r {
      var i := ImageWitness(f, ShowOf, s);
      var j := ImageWitness(u, KeyOf, s);
      assert u[j] in Where(u, Eligible);
      assert u[j] in multiset(r);
    }
  }

  /** The ten best-completed shows among those with at least five views. */
  function TopShows(f: seq<Event>): (r: seq<GroupStats<string>>)
    ensures |r| <= TopShowCount
    ensures forall j :: 0 <= j < |r| ==> r[j].views >= MinShowViews
    ensures forall j :: 0 <= j < |r| ==> |Rows(f, ShowOf, r[j].key)| > 0 && r[j] == SummaryOf(f, ShowOf, r[j].key)
    ensures DistinctBy(r, KeyOf)
    ensures forall i, j :: 0 <= i < j < |r| ==> r[i].avgCompletion >= r[j].avgCompletion
  {
    var ranked := RankedShows(f);
    var r := Head(ranked, TopShowCount);
    PrefixOfRanking(f, ranked, r);
    r
  }

  /** A prefix of the ranking keeps its properties. */
  lemma PrefixOfRanking(f: seq<Event>, ranked: seq<GroupStats<string>>, r: seq<GroupStats<string>>)
    requires forall j :: 0 <= j < |ranked| ==> ranked[j].views >= MinShowViews
    requires forall j :: 0 <= j < |ranked| ==> |Rows(f, ShowOf, ranked[j].key)| > 0 && ranked[j] == SummaryOf(f, ShowOf, ranked[j].key)
    requires DistinctBy(ranked, KeyOf) && Ordered(ranked, ByCompletionDesc)
    requires |r| <= |ranked| && forall i :: 0 <= i < |r| ==> r[i] == ranked[i]
    ensures forall j :: 0 <= j < |r| ==> r[j].views >= MinShowViews
    ensures forall j :: 0 <= j < |r| ==> |Rows(f, ShowOf, r[j].key)| > 0 && r[j] == SummaryOf(f, ShowOf, r[j].key)
    ensures DistinctBy(r, KeyOf)
    ensures forall i, j :: 0 <= i < j < |r| ==> r[i].avgCompletion >= r[j].avgCompletion
  {
    assert forall i, j :: 0 <= i < j < |r| ==> ByCompletionDesc(ranked[i], ranked[j]);
  }

  /** A show with enough views that is not in the top ten completes no better
      than the tenth show. */
  lemma TopShowsComplete(f: seq<Event>, s: string)
    requires s in Image(f, ShowOf) && |Rows(f, ShowOf, s)| >= MinShowViews
    ensures s in Image(TopShows(f), KeyOf) ||
      (|TopShows(f)| == TopShowCount && TopShows(f)[TopShowCount - 1].avgCompletion >= SummaryOf(f, ShowOf, s).avgCompletion)
  {
    var ranked := RankedShows(f);
    var x := SummaryOf(f, ShowOf, s);
    TopRows(ranked, ByCompletionDesc, TopShowCount, x);
    var r := TopShows(f);
    if x in r {
      var i :| 0 <= i < |r| && r[i] == x;
      assert KeyOf(r[i]) == s;
    }
  }

  /** The four headline figures. */
  datatype Totals = Totals(totalViews: nat, uniqueUsers: nat, avgCompletion: real, totalWatchHours: real)

  /** The mean completion as the page computes it: the mean of an empty
      column is absent. */
  function AvgCompletionAsWritten(f: seq<Event>): (m: Option<real>)
    ensures m.None? <==> |f| == 0
    ensures m.Some? ==> IsAverage(m.value, SumReal(f, CompletionOf), |f|)
  {
    if |f| == 0 then None else Some(Mean(f, CompletionOf))
  }

  /** Filtering every row away leaves the headline mean without a value to display. */
  lemma EmptyFilterBreaksAverage(t: seq<Event>, sel: Selection)
    requires sel.states == {}
    ensures !Displayable(AvgCompletionAsWritten(BaseFilter(t, sel)))
  {
    EmptySelectionKeepsNothing(t, sel);
  }

  /** The mean completion, 0 when no rows remain (as the user page does). */
  function AvgCompletion(f: seq<Event>): (m: real)
    ensures m >= 0.0
    ensures |f| == 0 ==> m == 0.0
    ensures AvgCompletionAsWritten(f).Some? ==> m == AvgCompletionAsWritten(f).value
  {
    if |f| == 0 then 0.0
    else
      SumRealNonNegative(f, CompletionOf);
      Mean(f, CompletionOf)
  }

  /** The four headline figures of the rows `f`: their number, their
      distinct users, their mean completion rate (0 when there is none) and
      their watch seconds in hours. */
  predicate DescribesTotals(m: Totals, f: seq<Event>) {
    && m.totalViews == |f|
    && m.uniqueUsers == |Image(f, UserOf)|
    && (|f| > 0 ==> IsAverage(m.avgCompletion, SumReal(f, CompletionOf), |f|))
    && (|f| == 0 ==> m.avgCompletion == 0.0)
    && m.totalWatchHours * 3600.0 == SumOf(f, WatchOf) as real
  }

  function Metrics(f: seq<Event>): (m: Totals)
    ensures DescribesTotals(m, f)
    ensures m.uniqueUsers <= m.totalViews && (|f| > 0 ==> m.uniqueUsers >= 1)
    ensures m.totalWatchHours >= 0.0
  {
    SumOfNonNegative(f, WatchOf);
    Totals(|f|, |Image(f, UserOf)|, AvgCompletion(f), (SumOf(f, WatchOf) as real) / 3600.0)
  }

  datatype DashboardView = DashboardView(
    daily: seq<GroupStats<int>>,
    genres: seq<GroupStats<string>>,
    states: seq<GroupStats<string>>,
    completions: seq<real>,
    topShows: seq<GroupStats<string>>,
    types: seq<GroupStats<string>>,
    totals: Totals)

  /** The whole page for one filter selection. */
  function Overview(t: seq<Event>, sel: Selection): (v: DashboardView)
    ensures DescribesTotals(v.totals, BaseFilter(t, sel))
    ensures SumOf(v.daily, Views) == v.totals.totalViews
    ensures SumOf(v.genres, Views) == v.totals.totalViews
    ensures SumOf(v.states, Views) == v.totals.totalViews
    ensures SumOf(v.types, Views) == v.totals.totalViews
    ensures |v.completions| == v.totals.totalViews
    ensures |v.daily| <= v.totals.totalViews && |v.topShows| <= TopShowCount
    ensures DaysWithin(v.daily, sel.range)
  {
    var f := BaseFilter(t, sel);
    DailyWithinRange(t, sel);
    DashboardView(DailyViews(f), GenreStats(f), StateStats(f), Completions(f), TopShows(f), TypeCompletion(f), Metrics(f))
  }

  /** Every day listed in `r` lies in `range`. */
  predicate DaysWithin(r: seq<GroupStats<int>>, range: DateRange) {
    forall j :: 0 <= j < |r| ==> range.start <= r[j].key <= range.end
  }

  /** The daily table only lists days inside the selected date range. */
  lemma DailyWithinRange(t: seq<Event>, sel: Selection)
    ensures DaysWithin(DailyViews(BaseFilter(t, sel)), sel.range)
  {
    var f := BaseFilter(t, sel);
    var daily := DailyViews(f);
    forall j | 0 <= j < |daily| ensures sel.range.start <= daily[j].key <= sel.range.end {
      var x := RollupKeyWitness(daily, f, DateOf, j);
    }
  }
}
