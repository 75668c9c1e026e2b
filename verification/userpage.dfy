/**
  The user page as a whole: the headline figures of the selected users, and
  — only when at least one user is selected — the tables of the other tabs
  and the most active users. The selected users are the rollup rows that
  pass the advanced filter; the hourly activity and the cohorts are built
  from the filtered events, so they ignore the advanced filter.
 */
module UserPage {
  import opened Tables
  import opened Sorting
  import opened Events
  import opened Users
  import opened Ladders
  import opened Segments
  import opened Activity

  /** The four headline figures of the overview tab. */
  datatype UserOverview = UserOverview(totalUsers: nat, avgViews: real, avgCompletion: real, avgWatchHours: real)

  /** Users, and the mean views, completion and watch hours per user; every
      mean is 0 when no user is selected. */
  function Overview(us: seq<UserMetrics>): (o: UserOverview)
    ensures o.totalUsers == |us|
    ensures |us| == 0 ==> o.avgViews == 0.0 && o.avgCompletion == 0.0 && o.avgWatchHours == 0.0
    ensures |us| > 0 ==> IsMeanOf(o.avgViews, SumOf(us, TotalViewsOf), |us|)
    ensures |us| > 0 ==> IsAverage(o.avgCompletion, SumReal(us, CompletionOfUser), |us|)
    ensures |us| > 0 ==> IsAverage(o.avgWatchHours, SumReal(us, HoursOf), |us|)
  {
    if |us| == 0 then UserOverview(0, 0.0, 0.0, 0.0)
    else
      MeanOfCounts(us, TotalViewsOf, ViewsReal);
      UserOverview(|us|, Mean(us, ViewsReal), Mean(us, CompletionOfUser), Mean(us, HoursOf))
  }

  /** Over every user of the filtered events, the mean views per user is the
      number of events over the number of distinct users. */
  lemma RollupOverview(f: seq<Event>)
    requires |f| > 0
    ensures IsMeanOf(Overview(UserRollup(f)).avgViews, |f|, |Image(f, UserOf)|)
  {
    var us := UserRollup(f);
    assert f[0].userId in Image(us, IdOf);
  }

  /** The means of the selected users obey the thresholds that selected
      them: each threshold bounds every selected row, hence their mean. */
  lemma OverviewWithinThresholds(us: seq<UserMetrics>, th: Thresholds)
    requires |AdvancedFilter(us, th)| > 0
    ensures var o := Overview(AdvancedFilter(us, th));
      && o.avgViews >= th.minViews as real
      && th.minCompletion <= o.avgCompletion <= th.maxCompletion
      && o.avgWatchHours >= th.minWatchHours
  {
    var fu := AdvancedFilter(us, th);
    forall i | 0 <= i < |fu|
      ensures th.minViews as real <= ViewsReal(fu[i])
      ensures th.minCompletion <= CompletionOfUser(fu[i]) <= th.maxCompletion
      ensures th.minWatchHours <= HoursOf(fu[i])
    {
      assert fu[i] in fu;
    }
    MeanAtLeast(fu, ViewsReal, th.minViews as real);
    MeanBounds(fu, CompletionOfUser, th.minCompletion, th.maxCompletion);
    MeanAtLeast(fu, HoursOf, th.minWatchHours);
  }

  /** Every rollup row has a view, so any selection of them averages at
      least one view per user, whatever the view threshold. */
  lemma SelectedAverageAtLeastOne(f: seq<Event>, th: Thresholds)
    requires |AdvancedFilter(UserRollup(f), th)| > 0
    ensures Overview(AdvancedFilter(UserRollup(f), th)).avgViews >= 1.0
  {
    var fu := AdvancedFilter(UserRollup(f), th);
    forall i | 0 <= i < |fu| ensures 1.0 <= ViewsReal(fu[i]) {
      assert fu[i] in fu;
      RollupRowBounds(f, fu[i]);
    }
    MeanAtLeast(fu, ViewsReal, 1.0);
  }

  /** Rows of the top-users table. */
  const TopUserCount := 20

  predicate ByTotalViewsDesc(a: UserMetrics, b: UserMetrics) { a.totalViews >= b.totalViews }

  /** The twenty users with the most views, most views first. */
  function TopUsers(us: seq<UserMetrics>): (r: seq<UserMetrics>)
    ensures |r| == if |us| < TopUserCount then |us| else TopUserCount
    ensures multiset(r) <= multiset(us)
    ensures Ordered(r, ByTotalViewsDesc)
  {
    var sorted := SortBy(us, ByTotalViewsDesc);
    SortedOrdered(sorted, ByTotalViewsDesc);
    HeadMultiset(sorted, TopUserCount);
    Head(sorted, TopUserCount)
  }

  /** A user left out of the top table has no more views than its last row. */
  lemma TopUsersComplete(us: seq<UserMetrics>, m: UserMetrics)
    requires m in us
    ensures m in TopUsers(us) ||
      (|TopUsers(us)| == TopUserCount && TopUsers(us)[TopUserCount - 1].totalViews >= m.totalViews)
  {
    var sorted := SortBy(us, ByTotalViewsDesc);
    SortedOrdered(sorted, ByTotalViewsDesc);
    assert m in multiset(sorted);
    TopRows(sorted, ByTotalViewsDesc, TopUserCount, m);
  }

  /** The tables shown once at least one user is selected. */
  datatype UserDetails = UserDetails(
    byState: seq<SegmentStats<string>>,
    engagement: seq<SegmentStats<Engagement>>,
    hourly: seq<HourActivity>,
    matrix: seq<SegmentStats<(ViewerSegment, CompletionSegment)>>,
    viewers: seq<SegmentStats<ViewerSegment>>,
    cohorts: seq<SegmentStats<int>>,
    lifecycle: seq<SegmentStats<Lifecycle>>,
    topUsers: seq<UserMetrics>)

  /** The detail tables for the filtered events `f`, their users `us` and
      the selected users `fu`. */
  function Details(f: seq<Event>, us: seq<UserMetrics>, fu: seq<UserMetrics>, monthOf: Date -> int): (d: UserDetails)
    ensures SumOf(d.byState, UserCount) == |fu| && SumOf(d.engagement, UserCount) == |fu|
    ensures SumOf(d.matrix, UserCount) == |fu| && SumOf(d.viewers, UserCount) == |fu|
    ensures SumOf(d.lifecycle, UserCount) == |fu|
    ensures SumOf(d.hourly, ActiveUsers) == |Image(f, UserHourOf)|
    ensures SumOf(d.cohorts, UserCount) == |us|
    ensures |d.topUsers| == if |fu| < TopUserCount then |fu| else TopUserCount
  {
    UserDetails(
      UsersByState(fu),
      EngagementDistribution(fu),
      HourlyActivity(f),
      SegmentMatrix(fu),
      ViewerSegments(fu),
      Cohorts(us, monthOf),
      LifecycleStats(fu),
      TopUsers(fu))
  }

  /** What the page shows. */
  datatype UserView = UserView(overview: UserOverview, details: Option<UserDetails>)

  /** The whole page for one selection and one set of thresholds. The page
      stops right after the overview figures when no user passes the
      thresholds. */
  function UserAnalysis(t: seq<Event>, sel: Selection, th: Thresholds, monthOf: Date -> int): (v: UserView)
    ensures v.overview == Overview(AdvancedFilter(UserRollup(BaseFilter(t, sel)), th))
    ensures v.details.None? <==> v.overview.totalUsers == 0
    ensures v.overview.totalUsers <= |Image(BaseFilter(t, sel), UserOf)|
    ensures v.details.Some? ==>
      && SumOf(v.details.value.byState, UserCount) == v.overview.totalUsers
      && SumOf(v.details.value.cohorts, UserCount) == |Image(BaseFilter(t, sel), UserOf)|
  {
    var f := BaseFilter(t, sel);
    PageFor(f, UserRollup(f), th, monthOf)
  }

  /** The page for the filtered events `f` and their users `us`. */
  function PageFor(f: seq<Event>, us: seq<UserMetrics>, th: Thresholds, monthOf: Date -> int): (v: UserView)
    ensures v.overview == Overview(AdvancedFilter(us, th))
    ensures v.details.None? <==> v.overview.totalUsers == 0
    ensures v.overview.totalUsers <= |us|
    ensures v.details.Some? ==>
      && SumOf(v.details.value.byState, UserCount) == v.overview.totalUsers
      && SumOf(v.details.value.cohorts, UserCount) == |us|
  {
    var fu := AdvancedFilter(us, th);
    SubsequenceLength(fu, us);
    var o := Overview(fu);
    if |fu| == 0 then UserView(o, None)
    else UserView(o, Some(Details(f, us, fu, monthOf)))
  }
}
