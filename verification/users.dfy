/**
  The user page. The filtered events are rolled up into one metrics row per
  user; a second filter on those rows (minimum views, completion range,
  minimum watch hours) selects the users the rest of the page describes:
  averages, segments, lifecycle stages and the most active users. The hourly
  activity and the cohorts are computed from the filtered events instead.
 */
module Users {
  import opened Tables
  import opened Grouping
  import opened Events

  /** The per-user row. Watch hours and days active are derived from the
      watch-time total and the first and last view dates. */
  datatype UserMetrics = UserMetrics(
    userId: string,
    totalViews: nat,
    totalWatchTime: int,
    avgCompletionRate: real,
    uniqueShows: nat,
    uniqueGenres: nat,
    firstViewDate: Date,
    lastViewDate: Date,
    userState: string,
    totalWatchHours: real,
    daysActive: int)

  function IdOf(m: UserMetrics): string { m.userId }
  function TotalViewsOf(m: UserMetrics): int { m.totalViews }

  /** The metrics of one user's events. The state is the one on the user's
      first event in table order; the remaining facts are in `UserSummaryFacts`. */
  function UserSummary(g: Group<Event, string>): (m: UserMetrics)
    requires |g.rows| > 0
    ensures m.userId == g.key && m.totalViews == |g.rows|
    ensures 1 <= m.uniqueShows <= m.totalViews && 1 <= m.uniqueGenres <= m.totalViews
    ensures m.daysActive == m.lastViewDate - m.firstViewDate && m.daysActive >= 0
    ensures m.userState == g.rows[0].state
  {
    var first := MinOf(g.rows, DateOf);
    var last := MaxOf(g.rows, DateOf);
    var watch := SumOf(g.rows, WatchOf);
    UserMetrics(
      g.key,
      |g.rows|,
      watch,
      Mean(g.rows, CompletionOf),
      |Image(g.rows, ShowOf)|,
      |Image(g.rows, GenreOf)|,
      first,
      last,
      g.rows[0].state,
      (watch as real) / 3600.0,
      last - first)
  }

  /** The first and last view dates are the earliest and latest dates of the
      user's events; watch hours are the watch-time total in hours; the
      completion rate is the mean over the user's views. */
  lemma UserSummaryFacts(g: Group<Event, string>)
    requires |g.rows| > 0
    ensures var m := UserSummary(g);
      && (forall i :: 0 <= i < |g.rows| ==> m.firstViewDate <= g.rows[i].date <= m.lastViewDate)
      && m.firstViewDate in Image(g.rows, DateOf) && m.lastViewDate in Image(g.rows, DateOf)
      && m.totalWatchTime == SumOf(g.rows, WatchOf) && m.totalWatchTime >= 0
      && m.totalWatchHours * 3600.0 == SumOf(g.rows, WatchOf) as real
      && m.avgCompletionRate >= 0.0
      && IsAverage(m.avgCompletionRate, SumReal(g.rows, CompletionOf), |g.rows|)
  {
    DatesOccur(g.rows, MinOf(g.rows, DateOf), MaxOf(g.rows, DateOf));
    SumOfNonNegative(g.rows, WatchOf);
    MeanNonNegative(g.rows, CompletionOf);
  }

  lemma DatesOccur(rows: seq<Event>, first: Date, last: Date)
    requires (exists i :: 0 <= i < |rows| && DateOf(rows[i]) == first)
    requires (exists i :: 0 <= i < |rows| && DateOf(rows[i]) == last)
    ensures first in Image(rows, DateOf) && last in Image(rows, DateOf)
  {
    var i :| 0 <= i < |rows| && DateOf(rows[i]) == first;
    var j :| 0 <= j < |rows| && DateOf(rows[j]) == last;
  }

  /** The metrics row of user `u`. */
  function MetricsOf(f: seq<Event>, u: string): UserMetrics
    requires |Rows(f, UserOf, u)| > 0
  {
    UserSummary(Group(u, Rows(f, UserOf, u)))
  }

  /** `us` holds one metrics row per distinct user of `f`, and the users' view
      counts add up to the number of events. */
  ghost predicate IsUserRollup(us: seq<UserMetrics>, f: seq<Event>) {
    && (forall j :: 0 <= j < |us| ==> |Rows(f, UserOf, us[j].userId)| > 0 && us[j] == MetricsOf(f, us[j].userId))
    && DistinctBy(us, IdOf)
    && (forall i :: 0 <= i < |f| ==> f[i].userId in Image(us, IdOf))
    && |us| == |Image(f, UserOf)|
    && SumOf(us, TotalViewsOf) == |f|
  }

  function UserSummaries(gs: seq<Group<Event, string>>): (r: seq<UserMetrics>)
    requires forall j :: 0 <= j < |gs| ==> |gs[j].rows| > 0
    ensures |r| == |gs|
    ensures forall j :: 0 <= j < |r| ==> r[j] == UserSummary(gs[j])
  {
    Map(gs, UserSummary)
  }

  /** One metrics row per user of the filtered events. */
  function UserRollup(f: seq<Event>): (us: seq<UserMetrics>)
    ensures IsUserRollup(us, f)
  {
    var gs := GroupBy(f, UserOf);
    var us := UserSummaries(gs);
    UserRollupFacts(f, gs, us);
    us
  }

  lemma UserRollupFacts(f: seq<Event>, gs: seq<Group<Event, string>>, us: seq<UserMetrics>)
    requires IsGrouping(gs, f, UserOf)
    requires |us| == |gs| && forall j :: 0 <= j < |us| ==> us[j] == UserSummary(gs[j])
    ensures IsUserRollup(us, f)
  {
    UserRowsAreMetrics(f, gs, us);
    UserIdsDistinct(f, gs, us);
    EveryUserListed(f, gs, us);
    SumOfPointwise(us, gs, TotalViewsOf, Size);
  }

  lemma UserRowsAreMetrics(f: seq<Event>, gs: seq<Group<Event, string>>, us: seq<UserMetrics>)
    requires IsGrouping(gs, f, UserOf)
    requires |us| == |gs| && forall j :: 0 <= j < |us| ==> us[j] == UserSummary(gs[j])
    ensures forall j :: 0 <= j < |us| ==> |Rows(f, UserOf, us[j].userId)| > 0 && us[j] == MetricsOf(f, us[j].userId)
  {
    forall j | 0 <= j < |us| ensures |Rows(f, UserOf, us[j].userId)| > 0 && us[j] == MetricsOf(f, us[j].userId) {
      assert gs[j] == Group(gs[j].key, Rows(f, UserOf, gs[j].key));
    }
  }

  lemma UserIdsDistinct(f: seq<Event>, gs: seq<Group<Event, string>>, us: seq<UserMetrics>)
    requires IsGrouping(gs, f, UserOf)
    requires |us| == |gs| && forall j :: 0 <= j < |us| ==> us[j] == UserSummary(gs[j])
    ensures DistinctBy(us, IdOf)
  {
    forall i, j | 0 <= i < j < |us| ensures us[i].userId != us[j].userId {
      assert KeysOf(gs)[i] != KeysOf(gs)[j];
    }
  }

  lemma EveryUserListed(f: seq<Event>, gs: seq<Group<Event, string>>, us: seq<UserMetrics>)
    requires IsGrouping(gs, f, UserOf)
    requires |us| == |gs| && forall j :: 0 <= j < |us| ==> us[j] == UserSummary(gs[j])
    ensures forall i :: 0 <= i < |f| ==> f[i].userId in Image(us, IdOf)
  {
    KeysCover(KeysOf(gs), us, IdOf);
  }

  /** The thresholds of the advanced user filter. */
  datatype Thresholds = Thresholds(minViews: int, minCompletion: real, maxCompletion: real, minWatchHours: real)

  /** The sliders' starting positions. */
  const DefaultThresholds := Thresholds(1, 0.0, 100.0, 0.0)

  predicate Passes(th: Thresholds, m: UserMetrics) {
    && m.totalViews >= th.minViews
    && th.minCompletion <= m.avgCompletionRate
    && m.avgCompletionRate <= th.maxCompletion
    && m.totalWatchHours >= th.minWatchHours
  }

  /** The users meeting every threshold, in rollup order. */
  function AdvancedFilter(us: seq<UserMetrics>, th: Thresholds): (r: seq<UserMetrics>)
    ensures forall m :: m in r <==>
      && m in us
      && m.totalViews >= th.minViews
      && th.minCompletion <= m.avgCompletionRate <= th.maxCompletion
      && m.totalWatchHours >= th.minWatchHours
    ensures IsSubsequence(r, us)
  {
    var p := (m: UserMetrics) => Passes(th, m);
    WhereIsSubsequence(us, p);
    Where(us, p)
  }

  /** With the sliders untouched, a user of the rollup is kept exactly when
      their mean completion is at most 100: rates are not clamped, so users
      who watch past the end are dropped. */
  lemma DefaultThresholdsKeep(f: seq<Event>, m: UserMetrics)
    requires m in UserRollup(f)
    ensures m in AdvancedFilter(UserRollup(f), DefaultThresholds) <==> m.avgCompletionRate <= 100.0
  {
    RollupRowBounds(f, m);
  }

  /** Every rollup row has a view, and non-negative completion and watch hours. */
  lemma RollupRowBounds(f: seq<Event>, m: UserMetrics)
    requires m in UserRollup(f)
    ensures m.totalViews >= 1 && m.avgCompletionRate >= 0.0 && m.totalWatchHours >= 0.0
  {
    var us := UserRollup(f);
    var j :| 0 <= j < |us| && us[j] == m;
    assert m == UserSummary(Group(m.userId, Rows(f, UserOf, m.userId)));
    UserSummaryFacts(Group(m.userId, Rows(f, UserOf, m.userId)));
  }
}
