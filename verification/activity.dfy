/**
  Active users by hour of day. The page groups the filtered events by
  (user, hour) and counts them, then groups those counts by hour: an hour's
  active users are the distinct users among its (user, hour) rows, and its
  views per user are the mean of their counts.
 */
module Activity {
  import opened Tables
  import opened Sorting
  import opened Grouping
  import opened Events

  /** How often one user watched in one hour of the day. */
  datatype UserHour = UserHour(user: string, hour: int, views: nat)

  function UserHourOf(e: Event): (string, int) { (e.userId, e.hour) }
  function PairOf(p: UserHour): (string, int) { (p.user, p.hour) }
  function PairViews(p: UserHour): int { p.views }
  function PairViewsReal(p: UserHour): real { p.views as real }
  function PairHour(p: UserHour): int { p.hour }
  function PairUser(p: UserHour): string { p.user }

  function CountPair(g: Group<Event, (string, int)>): (p: UserHour)
    requires |g.rows| > 0
    ensures PairOf(p) == g.key && p.views == |g.rows|
  {
    UserHour(g.key.0, g.key.1, |g.rows|)
  }

  function CountPairs(gs: seq<Group<Event, (string, int)>>): (ps: seq<UserHour>)
    requires forall j :: 0 <= j < |gs| ==> |gs[j].rows| > 0
    ensures |ps| == |gs|
    ensures forall j :: 0 <= j < |ps| ==> ps[j] == CountPair(gs[j])
  {
    Map(gs, CountPair)
  }

  /** `ps` counts the events of each (user, hour) pair of `f` once, and the
      counts add up to the number of events. */
  ghost predicate IsPairCount(ps: seq<UserHour>, f: seq<Event>) {
    && (forall j :: 0 <= j < |ps| ==> ps[j].views == |Rows(f, UserHourOf, PairOf(ps[j]))| && ps[j].views > 0)
    && DistinctBy(ps, PairOf)
    && (forall i :: 0 <= i < |f| ==> UserHourOf(f[i]) in Image(ps, PairOf))
    && |ps| == |Image(f, UserHourOf)|
    && SumOf(ps, PairViews) == |f|
  }

  /** The first group-by: views per user and hour. */
  function PairCounts(f: seq<Event>): (ps: seq<UserHour>)
    ensures IsPairCount(ps, f)
  {
    var gs := GroupBy(f, UserHourOf);
    var ps := CountPairs(gs);
    PairCountFacts(f, gs, ps);
    ps
  }

  lemma PairCountFacts(f: seq<Event>, gs: seq<Group<Event, (string, int)>>, ps: seq<UserHour>)
    requires IsGrouping(gs, f, UserHourOf)
    requires |ps| == |gs| && forall j :: 0 <= j < |ps| ==> ps[j] == CountPair(gs[j])
    ensures IsPairCount(ps, f)
  {
    forall i, j | 0 <= i < j < |ps| ensures PairOf(ps[i]) != PairOf(ps[j]) {
      assert KeysOf(gs)[i] != KeysOf(gs)[j];
    }
    KeysListed(f, gs, UserHourOf);
    KeysCover(KeysOf(gs), ps, PairOf);
    SumOfPointwise(ps, gs, PairViews, Size);
  }

  /** One hour's row of the activity table. */
  datatype HourActivity = HourActivity(hour: int, avgViewsPerUser: real, activeUsers: nat)

  function HourKey(a: HourActivity): int { a.hour }
  function ActiveUsers(a: HourActivity): int { a.activeUsers }

  /** The second group-by's summary of the (user, hour) rows of one hour. */
  function SummarizeHour(g: Group<UserHour, int>): (a: HourActivity)
    requires |g.rows| > 0
    ensures a.hour == g.key
  {
    HourActivity(g.key, Mean(g.rows, PairViewsReal), |Image(g.rows, PairUser)|)
  }

  function HourSummaries(gs: seq<Group<UserHour, int>>): (r: seq<HourActivity>)
    requires forall j :: 0 <= j < |gs| ==> |gs[j].rows| > 0
    ensures |r| == |gs|
    ensures forall j :: 0 <= j < |r| ==> r[j] == SummarizeHour(gs[j])
  {
    Map(gs, SummarizeHour)
  }

  /** What an hour's row says about the events: the hour occurs, its active
      users are the distinct users who watched in that hour, each of them
      watched at least once, and views per user times users is the hour's
      number of events. */
  ghost predicate DescribesHour(a: HourActivity, f: seq<Event>) {
    && 0 <= a.hour < 24
    && |Rows(f, HourOf, a.hour)| > 0
    && a.activeUsers == |Image(Rows(f, HourOf, a.hour), UserOf)|
    && a.activeUsers >= 1
    && a.avgViewsPerUser >= 1.0
    && IsMeanOf(a.avgViewsPerUser, |Rows(f, HourOf, a.hour)|, a.activeUsers)
  }

  /** Within one hour the (user, hour) rows have distinct users, and they are
      exactly the users with an event in that hour. */
  lemma HourUsers(ps: seq<UserHour>, f: seq<Event>, h: int)
    requires IsPairCount(ps, f)
    ensures |Image(Rows(ps, PairHour, h), PairUser)| == |Rows(ps, PairHour, h)|
    ensures Image(Rows(ps, PairHour, h), PairUser) == Image(Rows(f, HourOf, h), UserOf)
  {
    HourUsersDistinct(ps, f, h);
    HourUsersHaveEvents(ps, f, h);
    HourEventsHaveUsers(ps, f, h);
  }

  lemma HourUsersDistinct(ps: seq<UserHour>, f: seq<Event>, h: int)
    requires IsPairCount(ps, f)
    ensures |Image(Rows(ps, PairHour, h), PairUser)| == |Rows(ps, PairHour, h)|
  {
    var rows := Rows(ps, PairHour, h);
    RowsIsSubsequence(ps, PairHour, h);
    SubsequenceDistinct(rows, ps, PairOf);
    forall i, j | 0 <= i < j < |rows| ensures PairUser(rows[i]) != PairUser(rows[j]) {
      assert rows[i] in rows && rows[j] in rows;
      assert PairOf(rows[i]) != PairOf(rows[j]);
    }
    ImageOfInjective(rows, PairUser);
  }

  lemma HourUsersHaveEvents(ps: seq<UserHour>, f: seq<Event>, h: int)
    requires IsPairCount(ps, f)
    ensures Image(Rows(ps, PairHour, h), PairUser) <= Image(Rows(f, HourOf, h), UserOf)
  {
    var rows := Rows(ps, PairHour, h);
    forall u | u in Image(rows, PairUser) ensures u in Image(Rows(f, HourOf, h), UserOf) {
      var i := ImageWitness(rows, PairUser, u);
      PairHasEvent(ps, f, rows[i]);
    }
  }

  lemma HourEventsHaveUsers(ps: seq<UserHour>, f: seq<Event>, h: int)
    requires IsPairCount(ps, f)
    ensures Image(Rows(f, HourOf, h), UserOf) <= Image(Rows(ps, PairHour, h), PairUser)
  {
    var rows := Rows(ps, PairHour, h);
    forall u | u in Image(Rows(f, HourOf, h), UserOf) ensures u in Image(rows, PairUser) {
      var i := ImageWitness(Rows(f, HourOf, h), UserOf, u);
      var e := Rows(f, HourOf, h)[i];
      assert e in Rows(f, HourOf, h);
      var k :| 0 <= k < |f| && f[k] == e;
      var j := ImageWitness(ps, PairOf, UserHourOf(f[k]));
      assert ps[j] in rows;
      var j' :| 0 <= j' < |rows| && rows[j'] == ps[j];
      assert PairUser(rows[j']) == u;
    }
  }

  /** A counted pair comes from an event of that user in that hour. */
  lemma PairHasEvent(ps: seq<UserHour>, f: seq<Event>, p: UserHour)
    requires IsPairCount(ps, f) && p in ps
    ensures p.user in Image(Rows(f, HourOf, p.hour), UserOf)
  {
    var j :| 0 <= j < |ps| && ps[j] == p;
    var e := Rows(f, UserHourOf, PairOf(p))[0];
    assert e in Rows(f, UserHourOf, PairOf(p));
    assert e in Rows(f, HourOf, p.hour);
    var i :| 0 <= i < |Rows(f, HourOf, p.hour)| && Rows(f, HourOf, p.hour)[i] == e;
    assert UserOf(Rows(f, HourOf, p.hour)[i]) == p.user;
  }

  /** The counts of one hour's (user, hour) rows add up to the hour's events. */
  lemma HourViews(ps: seq<UserHour>, f: seq<Event>, h: int)
    requires IsPairCount(ps, f)
    ensures SumOf(Rows(ps, PairHour, h), PairViews) == |Rows(f, HourOf, h)|
  {
    var rows := Rows(ps, PairHour, h);
    var g := Rows(f, HourOf, h);
    var ks := Map(rows, PairOf);
    RowsIsSubsequence(ps, PairHour, h);
    SubsequenceDistinct(rows, ps, PairOf);
    HourKeysListed(ps, f, h, ks);
    SizesAddUp(g, UserHourOf, ks);
    var gs := GroupsFor(g, UserHourOf, ks);
    forall j | 0 <= j < |rows| ensures PairViews(rows[j]) == Size(gs[j]) {
      assert rows[j] in rows;
      RowsNested(f, HourOf, h, UserHourOf, ks[j]);
    }
    SumOfPointwise(rows, gs, PairViews, Size);
  }

  /** Every event of hour `h` has its (user, hour) pair among the hour's rows. */
  lemma HourKeysListed(ps: seq<UserHour>, f: seq<Event>, h: int, ks: seq<(string, int)>)
    requires IsPairCount(ps, f)
    requires |ks| == |Rows(ps, PairHour, h)|
    requires forall j :: 0 <= j < |ks| ==> ks[j] == PairOf(Rows(ps, PairHour, h)[j])
    ensures forall i :: 0 <= i < |Rows(f, HourOf, h)| ==> UserHourOf(Rows(f, HourOf, h)[i]) in ks
  {
    var rows := Rows(ps, PairHour, h);
    var g := Rows(f, HourOf, h);
    forall i | 0 <= i < |g| ensures UserHourOf(g[i]) in ks {
      assert g[i] in g;
      var k :| 0 <= k < |f| && f[k] == g[i];
      var j := ImageWitness(ps, PairOf, UserHourOf(f[k]));
      assert ps[j] in rows;
      var j' :| 0 <= j' < |rows| && rows[j'] == ps[j];
      assert ks[j'] == UserHourOf(g[i]);
    }
  }

  /** Every (user, hour) row has at least one view, so an hour's mean is at least 1. */
  lemma HourMean(ps: seq<UserHour>, f: seq<Event>, h: int)
    requires IsPairCount(ps, f) && |Rows(ps, PairHour, h)| > 0
    ensures Mean(Rows(ps, PairHour, h), PairViewsReal) >= 1.0
  {
    var rows := Rows(ps, PairHour, h);
    forall i | 0 <= i < |rows| ensures 1.0 <= PairViewsReal(rows[i]) {
      assert rows[i] in rows;
    }
    MeanAtLeast(rows, PairViewsReal, 1.0);
  }

  /** An hour's mean count times its number of (user, hour) rows is the
      hour's number of events. */
  lemma HourProduct(ps: seq<UserHour>, f: seq<Event>, h: int)
    requires IsPairCount(ps, f) && |Rows(ps, PairHour, h)| > 0
    ensures IsMeanOf(Mean(Rows(ps, PairHour, h), PairViewsReal), |Rows(f, HourOf, h)|, |Rows(ps, PairHour, h)|)
  {
    HourViews(ps, f, h);
    CountsProduct(Rows(ps, PairHour, h), |Rows(f, HourOf, h)|);
  }

  /** Counts adding up to `n` have a mean that times their number is `n`. */
  lemma CountsProduct(rows: seq<UserHour>, n: int)
    requires |rows| > 0 && SumOf(rows, PairViews) == n
    ensures IsMeanOf(Mean(rows, PairViewsReal), n, |rows|)
  {
    MeanOfCounts(rows, PairViews, PairViewsReal);
  }

  /** An hour's summary describes the hour's events. */
  lemma SummaryDescribesHour(ps: seq<UserHour>, f: seq<Event>, h: int)
    requires IsPairCount(ps, f) && |Rows(ps, PairHour, h)| > 0
    requires 0 <= h < 24
    ensures DescribesHour(SummarizeHour(Group(h, Rows(ps, PairHour, h))), f)
    ensures SummarizeHour(Group(h, Rows(ps, PairHour, h))).activeUsers == |Rows(ps, PairHour, h)|
  {
    HourUsers(ps, f, h);
    HourMean(ps, f, h);
    var rows := Rows(ps, PairHour, h);
    HourProduct(ps, f, h);
    assert rows[0] in rows;
    PairHasEvent(ps, f, rows[0]);
  }

  predicate ByHourAsc(a: HourActivity, b: HourActivity) { a.hour <= b.hour }

  /** Active users and views per user for every hour with views, earliest
      hour first. */
  function HourlyActivity(f: seq<Event>): (r: seq<HourActivity>)
    ensures forall j :: 0 <= j < |r| ==> DescribesHour(r[j], f)
    ensures forall i :: 0 <= i < |f| ==> f[i].hour in Image(r, HourKey)
    ensures forall i, j :: 0 <= i < j < |r| ==> r[i].hour < r[j].hour
    ensures SumOf(r, ActiveUsers) == |Image(f, UserHourOf)|
  {
    var ps := PairCounts(f);
    var gs := GroupBy(ps, PairHour);
    var u := HourSummaries(gs);
    HourRows(f, ps, gs, u);
    var r := SortBy(u, ByHourAsc);
    HourPermutation(u, r, f);
    r
  }

  /** The unsorted hour summaries: one per hour, each describing its hour,
      with distinct hours, and active users adding up to the (user, hour)
      pairs. */
  lemma HourRows(f: seq<Event>, ps: seq<UserHour>, gs: seq<Group<UserHour, int>>, u: seq<HourActivity>)
    requires IsPairCount(ps, f) && IsGrouping(gs, ps, PairHour)
    requires |u| == |gs| && forall j :: 0 <= j < |u| ==> u[j] == SummarizeHour(gs[j])
    ensures forall j :: 0 <= j < |u| ==> DescribesHour(u[j], f)
    ensures forall i, j :: 0 <= i < j < |u| ==> u[i].hour != u[j].hour
    ensures forall i :: 0 <= i < |f| ==> f[i].hour in Image(u, HourKey)
    ensures SumOf(u, ActiveUsers) == |Image(f, UserHourOf)|
  {
    forall j | 0 <= j < |u| ensures DescribesHour(u[j], f) && u[j].activeUsers == Size(gs[j]) {
      HourInRange(ps, f, gs, j);
      SummaryDescribesHour(ps, f, gs[j].key);
    }
    forall i, j | 0 <= i < j < |u| ensures u[i].hour != u[j].hour {
      assert KeysOf(gs)[i] != KeysOf(gs)[j];
    }
    HoursCovered(f, ps, gs, u);
    SumOfPointwise(u, gs, ActiveUsers, Size);
  }

  lemma HourInRange(ps: seq<UserHour>, f: seq<Event>, gs: seq<Group<UserHour, int>>, j: nat)
    requires IsPairCount(ps, f) && IsGrouping(gs, ps, PairHour) && j < |gs|
    ensures 0 <= gs[j].key < 24
  {
    var p := gs[j].rows[0];
    assert p in Rows(ps, PairHour, gs[j].key);
    PairHasEvent(ps, f, p);
    var i := ImageWitness(Rows(f, HourOf, p.hour), UserOf, p.user);
    assert Rows(f, HourOf, p.hour)[i] in Rows(f, HourOf, p.hour);
  }

  lemma HoursCovered(f: seq<Event>, ps: seq<UserHour>, gs: seq<Group<UserHour, int>>, u: seq<HourActivity>)
    requires IsPairCount(ps, f) && IsGrouping(gs, ps, PairHour)
    requires |u| == |gs| && forall j :: 0 <= j < |u| ==> u[j].hour == gs[j].key
    ensures forall i :: 0 <= i < |f| ==> f[i].hour in Image(u, HourKey)
  {
    EventHoursPaired(f, ps);
    KeysListed(ps, gs, PairHour);
    KeysCover(KeysOf(gs), u, HourKey);
  }

  /** Every event's hour is the hour of a counted pair. */
  lemma EventHoursPaired(f: seq<Event>, ps: seq<UserHour>)
    requires IsPairCount(ps, f)
    ensures forall i :: 0 <= i < |f| ==> f[i].hour in Image(ps, PairHour)
  {
    forall i | 0 <= i < |f| ensures f[i].hour in Image(ps, PairHour) {
      var k := ImageWitness(ps, PairOf, UserHourOf(f[i]));
      assert PairHour(ps[k]) == f[i].hour;
    }
  }

  /** Sorting keeps every property of the hour rows except their order, and
      sorting by distinct hours orders them strictly. */
  lemma HourPermutation(u: seq<HourActivity>, r: seq<HourActivity>, f: seq<Event>)
    requires forall j :: 0 <= j < |u| ==> DescribesHour(u[j], f)
    requires forall i, j :: 0 <= i < j < |u| ==> u[i].hour != u[j].hour
    requires forall i :: 0 <= i < |f| ==> f[i].hour in Image(u, HourKey)
    requires multiset(r) == multiset(u) && SortedBy(r, ByHourAsc)
    ensures forall j :: 0 <= j < |r| ==> DescribesHour(r[j], f)
    ensures forall i :: 0 <= i < |f| ==> f[i].hour in Image(r, HourKey)
    ensures forall i, j :: 0 <= i < j < |r| ==> r[i].hour < r[j].hour
    ensures SumOf(r, ActiveUsers) == SumOf(u, ActiveUsers)
  {
    forall j | 0 <= j < |r| ensures DescribesHour(r[j], f) {
      assert r[j] in multiset(u);
    }
    assert NoDups(u) by {
      forall i, j | 0 <= i < j < |u| ensures u[i] != u[j] {
        assert u[i].hour != u[j].hour;
      }
    }
    PermutationNoDups(u, r);
    forall i, j | 0 <= i < j < |r| ensures r[i].hour < r[j].hour {
      SortedPairwise(r, ByHourAsc, i, j);
      assert r[i] != r[j];
      assert r[i] in multiset(u) && r[j] in multiset(u);
      var a :| 0 <= a < |u| && u[a] == r[i];
      var b :| 0 <= b < |u| && u[b] == r[j];
    }
    forall i | 0 <= i < |f| ensures f[i].hour in Image(r, HourKey) {
      var j := ImageWitness(u, HourKey, f[i].hour);
      assert u[j] in multiset(r);
      var j' :| 0 <= j' < |r| && r[j'] == u[j];
      assert HourKey(r[j']) == f[i].hour;
    }
    SumOfPermutation(u, r, ActiveUsers);
  }
}
