/**
  The viewing event, the completion-rate formula, and the filters every page
  applies before it aggregates: an inclusive date range together with
  membership of the event's state, genre and show type in the selected sets,
  and, on the show page, an optional single show.

  Dates, hours and calendar weeks arrive already extracted from the
  timestamps: a date is a day number, so later days are larger.
 */
module Events {
  import opened Tables
  import opened Grouping

  type Date = int

  /** Hour of the day. */
  type Hour = h: int | 0 <= h < 24

  /** Show runtimes are positive; the completion rate divides by them. */
  type PositiveSeconds = x: int | x > 0 witness 1

  datatype Event = Event(
    userId: string,
    showName: string,
    genre: string,
    showType: string,
    rating: string,
    description: string,
    showDuration: PositiveSeconds,
    watchDuration: nat,
    state: string,
    date: Date,
    hour: Hour,
    year: int,
    week: nat)

  // The columns the rollups group by or add up.
  function UserOf(e: Event): string { e.userId }
  function ShowOf(e: Event): string { e.showName }
  function GenreOf(e: Event): string { e.genre }
  function TypeOf(e: Event): string { e.showType }
  function StateOf(e: Event): string { e.state }
  function DateOf(e: Event): int { e.date }
  function HourOf(e: Event): int { e.hour }
  function WeekOf(e: Event): (int, nat) { (e.year, e.week) }
  function WatchOf(e: Event): int { e.watchDuration }
  function WatchReal(e: Event): real { e.watchDuration as real }

  /** Percentage of a show's runtime that was watched. Watching past the end
      (rewinds, repeats) gives more than 100: the rate is not clamped. */
  function CompletionRate(watch: int, duration: int): (r: real)
    requires duration > 0
    ensures r * (duration as real) == (watch as real) * 100.0
    ensures watch >= 0 ==> r >= 0.0
    ensures r > 100.0 <==> watch > duration
    ensures r == 100.0 <==> watch == duration
  {
    var r := (watch as real) / (duration as real) * 100.0;
    RatioAgainstHundred(watch as real, duration as real, r);
    r
  }

  lemma RatioAgainstHundred(w: real, d: real, r: real)
    requires d > 0.0 && r == w / d * 100.0
    ensures r * d == w * 100.0
    ensures r > 100.0 <==> w > d
    ensures r == 100.0 <==> w == d
  {
    assert r * d == w * 100.0;
    if w > d {
      assert r * d > d * 100.0;
    } else if w == d {
      assert r * d == d * 100.0;
    } else {
      assert r * d < d * 100.0;
    }
  }

  function CompletionOf(e: Event): real {
    CompletionRate(e.watchDuration, e.showDuration)
  }

  /** The completion percentage of every view, in row order. */
  function Completions(f: seq<Event>): (r: seq<real>)
    ensures |r| == |f|
    ensures forall i :: 0 <= i < |f| ==> r[i] == CompletionOf(f[i])
  {
    if |f| == 0 then [] else [CompletionOf(f[0])] + Completions(f[1..])
  }

  /** The percentage display needs a number; an absent mean cannot be shown. */
  predicate Displayable(m: Option<real>) {
    m.Some?
  }

  /** The date picker yields one day, or a tuple of days while a range is being picked. */
  datatype DateInput = OneDay(day: Date) | Picked(days: seq<Date>)

  /** Inclusive bounds on the event date. */
  datatype DateRange = DateRange(start: Date, end: Date)

  /** A picked pair gives the range; a single day gives the one-day range. A
      tuple of any other length has no range. */
  function NormalizeDates(input: DateInput): (r: Option<DateRange>)
    ensures input.OneDay? ==> r.Some? && r.value.start == r.value.end == input.day
    ensures input.Picked? ==> (r.Some? <==> |input.days| == 2)
    ensures r.Some? && input.Picked? ==> r.value.start == input.days[0] && r.value.end == input.days[1]
  {
    match input
    case OneDay(d) => Some(DateRange(d, d))
    case Picked(days) => if |days| == 2 then Some(DateRange(days[0], days[1])) else None
  }

  /** The filter choices shared by all three pages. */
  datatype Selection = Selection(range: DateRange, states: set<string>, genres: set<string>, types: set<string>)

  /** The conjunction the pages filter on. */
  predicate Keeps(sel: Selection, e: Event) {
    && sel.range.start <= e.date
    && e.date <= sel.range.end
    && e.state in sel.states
    && e.genre in sel.genres
    && e.showType in sel.types
  }

  /** The rows in the selected date range whose state, genre and show type
      are all selected, in table order and with their multiplicities. */
  function BaseFilter(t: seq<Event>, sel: Selection): (r: seq<Event>)
    ensures forall e :: e in r <==> e in t && Keeps(sel, e)
    ensures forall e :: multiset(r)[e] == if Keeps(sel, e) then multiset(t)[e] else 0
    ensures IsSubsequence(r, t)
  {
    var p := (e: Event) => Keeps(sel, e);
    WhereIsSubsequence(t, p);
    assert forall e :: multiset(Where(t, p))[e] == if Keeps(sel, e) then multiset(t)[e] else 0 by {
      forall e ensures multiset(Where(t, p))[e] == if Keeps(sel, e) then multiset(t)[e] else 0 {
        WhereMultiplicity(t, p, e);
      }
    }
    Where(t, p)
  }

  /** Deselecting every state, genre or show type empties the result rather
      than lifting the filter. */
  lemma EmptySelectionKeepsNothing(t: seq<Event>, sel: Selection)
    requires sel.states == {} || sel.genres == {} || sel.types == {}
    ensures BaseFilter(t, sel) == []
  {
  }

  /** The range is not reordered: a start after the end keeps nothing. */
  lemma InvertedRangeKeepsNothing(t: seq<Event>, sel: Selection)
    requires sel.range.start > sel.range.end
    ensures BaseFilter(t, sel) == []
  {
  }

  /** Picking one day keeps exactly the selected rows of that day. */
  lemma OneDayKeepsThatDay(t: seq<Event>, d: Date, states: set<string>, genres: set<string>, types: set<string>, e: Event)
    ensures e in BaseFilter(t, Selection(NormalizeDates(OneDay(d)).value, states, genres, types)) <==>
      e in t && e.date == d && e.state in states && e.genre in genres && e.showType in types
  {
  }

  /** Filtering an already filtered table with the same choices changes nothing. */
  lemma BaseFilterIdempotent(t: seq<Event>, sel: Selection)
    ensures BaseFilter(BaseFilter(t, sel), sel) == BaseFilter(t, sel)
  {
    WhereIdempotent(t, (e: Event) => Keeps(sel, e));
  }

  /** Selecting the whole date span and every state, genre and show type that
      occurs keeps the table as it is. */
  lemma FullSelectionKeepsAll(t: seq<Event>, sel: Selection)
    requires forall i :: 0 <= i < |t| ==> sel.range.start <= t[i].date <= sel.range.end
    requires forall i :: 0 <= i < |t| ==> t[i].state in sel.states && t[i].genre in sel.genres && t[i].showType in sel.types
    ensures BaseFilter(t, sel) == t
  {
    WhereAll(t, (e: Event) => Keeps(sel, e));
  }

  /** The show picker's first entry, which means no show filter. */
  const AllShows := "All Shows"

  /** "All Shows" keeps the table; any other name keeps exactly that show's
      rows, each as often as it occurs and in table order. */
  function ShowFilter(t: seq<Event>, selected: string): (r: seq<Event>)
    ensures selected == AllShows ==> r == t
    ensures selected != AllShows ==> r == Rows(t, ShowOf, selected)
    ensures forall e :: multiset(r)[e] == if selected == AllShows || e.showName == selected then multiset(t)[e] else 0
    ensures IsSubsequence(r, t)
  {
    if selected == AllShows then
      assert IsSubsequence(t, t) by { SubsequenceOfItself(t); }
      t
    else
      var p := (e: Event) => e.showName == selected;
      WhereIsSubsequence(t, p);
      RowsAsWhere(t, ShowOf, selected, p);
      var r := Where(t, p);
      assert forall e :: multiset(r)[e] == if e.showName == selected then multiset(t)[e] else 0 by {
        forall e ensures multiset(r)[e] == if e.showName == selected then multiset(t)[e] else 0 {
          WhereMultiplicity(t, p, e);
        }
      }
      r
  }

  lemma {:induction false} SubsequenceOfItself<T>(s: seq<T>)
    ensures IsSubsequence(s, s)
    decreases |s|
  {
    if |s| > 0 {
      SubsequenceOfItself(s[1..]);
    }
  }
}
