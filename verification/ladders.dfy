/**
  The threshold ladders of the user page. Each ladder tests its conditions
  top down and the first one that holds names the class, so the classes are
  the intervals between consecutive thresholds.
 */
module Ladders {

  /** Engagement level by view count: 10 and up, 5 to 9, below 5. */
  datatype Engagement = Low | Medium | High

  function EngagementOf(views: int): (e: Engagement)
    ensures e == High <==> views >= 10
    ensures e == Medium <==> 5 <= views < 10
    ensures e == Low <==> views < 5
  {
    if views >= 10 then High
    else if views >= 5 then Medium
    else Low
  }

  /** The levels from lowest to highest. */
  function EngagementRank(e: Engagement): nat {
    match e
    case Low => 0
    case Medium => 1
    case High => 2
  }

  /** More views never lower the engagement level. */
  lemma EngagementMonotone(a: int, b: int)
    requires a <= b
    ensures EngagementRank(EngagementOf(a)) <= EngagementRank(EngagementOf(b))
  {
  }

  /** Viewer segment by view count: 20 and up, 10 to 19, 5 to 9, below 5. */
  datatype ViewerSegment = Light | Casual | Regular | Heavy

  function ViewerSegmentOf(views: int): (s: ViewerSegment)
    ensures s == Heavy <==> views >= 20
    ensures s == Regular <==> 10 <= views < 20
    ensures s == Casual <==> 5 <= views < 10
    ensures s == Light <==> views < 5
  {
    if views >= 20 then Heavy
    else if views >= 10 then Regular
    else if views >= 5 then Casual
    else Light
  }

  function ViewerRank(s: ViewerSegment): nat {
    match s
    case Light => 0
    case Casual => 1
    case Regular => 2
    case Heavy => 3
  }

  lemma ViewerSegmentMonotone(a: int, b: int)
    requires a <= b
    ensures ViewerRank(ViewerSegmentOf(a)) <= ViewerRank(ViewerSegmentOf(b))
  {
  }

  /** The two view-count ladders share the thresholds 5 and 10: the viewer
      segment refines the engagement level, splitting High at 20. */
  lemma SegmentRefinesEngagement(views: int)
    ensures EngagementOf(views) == High <==> ViewerSegmentOf(views) in {Regular, Heavy}
    ensures EngagementOf(views) == Medium <==> ViewerSegmentOf(views) == Casual
    ensures EngagementOf(views) == Low <==> ViewerSegmentOf(views) == Light
  {
  }

  /** Completion segment by mean completion percentage: 80 and up, 60 up to
      80, 40 up to 60, below 40. */
  datatype CompletionSegment = Browser | Selective | Engaged | Completionist

  function CompletionSegmentOf(rate: real): (s: CompletionSegment)
    ensures s == Completionist <==> rate >= 80.0
    ensures s == Engaged <==> 60.0 <= rate < 80.0
    ensures s == Selective <==> 40.0 <= rate < 60.0
    ensures s == Browser <==> rate < 40.0
  {
    if rate >= 80.0 then Completionist
    else if rate >= 60.0 then Engaged
    else if rate >= 40.0 then Selective
    else Browser
  }

  function CompletionRank(s: CompletionSegment): nat {
    match s
    case Browser => 0
    case Selective => 1
    case Engaged => 2
    case Completionist => 3
  }

  lemma CompletionSegmentMonotone(a: real, b: real)
    requires a <= b
    ensures CompletionRank(CompletionSegmentOf(a)) <= CompletionRank(CompletionSegmentOf(b))
  {
  }

  /** Lifecycle stage by days between first and last view. The first test is
      for exactly zero, so the "1 Week" stage also takes any negative span. */
  datatype Lifecycle = SingleDay | OneWeek | OneMonth | ThreeMonths | Longer

  function LifecycleOf(days: int): (s: Lifecycle)
    ensures s == SingleDay <==> days == 0
    ensures s == OneWeek <==> days != 0 && days <= 7
    ensures s == OneMonth <==> 7 < days <= 30
    ensures s == ThreeMonths <==> 30 < days <= 90
    ensures s == Longer <==> days > 90
  {
    if days == 0 then SingleDay
    else if days <= 7 then OneWeek
    else if days <= 30 then OneMonth
    else if days <= 90 then ThreeMonths
    else Longer
  }

  function LifecycleRank(s: Lifecycle): nat {
    match s
    case SingleDay => 0
    case OneWeek => 1
    case OneMonth => 2
    case ThreeMonths => 3
    case Longer => 4
  }

  /** On the spans a user can have (never negative) a longer span never gives
      an earlier stage. */
  lemma LifecycleMonotone(a: int, b: int)
    requires 0 <= a <= b
    ensures LifecycleRank(LifecycleOf(a)) <= LifecycleRank(LifecycleOf(b))
  {
  }

  /** Without the lower bound the ladder is not monotone: a negative span
      lands after the single-day stage. */
  lemma NegativeSpanIsOneWeek()
    ensures LifecycleOf(-1) == OneWeek && LifecycleRank(LifecycleOf(-1)) > LifecycleRank(LifecycleOf(0))
  {
  }
}
