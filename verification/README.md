# Streaming analysis pages: a Dafny model

A Streamlit app reads a table of viewing events into Polars. Each event holds:

- a user;
- a show, with its genre, type, rating, description and runtime;
- the seconds watched;
- the viewer's state;
- a date and an hour.

Three pages filter that table and aggregate it:

- **Overview dashboard.** Daily activity, views by genre and by state, completion by show and by show type, and four headline totals.
- **Show page.** Details of one show and the spread of its completion rates, or a comparison of all shows. Either way it also shows trends by hour, state, day and calendar week.
- **User page.** The events are rolled up into one metrics row per user. A second filter selects users by thresholds. The page then shows:
  - averages over the selected users;
  - segments: by state, by engagement level, by viewer and completion ladder, and by lifecycle stage;
  - cohorts by first-view month;
  - hourly activity;
  - the most active users.

This project models that filter-and-aggregate logic as pure Dafny functions over sequences and proves what the tables mean.

The files and modules:

| file | module | what it holds |
|---|---|---|
| `tables.dfy` | `Tables` | Generic sequence tools: filtering, sums, means, images, sub-sequences, permutations. |
| `sorting.dfy` | `Sorting` | A stable insertion sort and its order laws. |
| `grouping.dfy` | `Grouping` | Polars `group_by`: one group per distinct key, each holding exactly the rows with that key; group sizes add up to the table size. |
| `rollups.dfy` | `Rollups` | The event rollups: views, distinct users and mean completion per key. |
| `events.dfy` | `Events` | The event, the completion formula, date-input handling and the shared filters. |
| `dashboard.dfy` | `Dashboard` | The overview dashboard. |
| `shows.dfy` | `Shows` | The show page. |
| `users.dfy` | `Users` | The user page's per-user rollup and threshold filter. |
| `ladders.dfy` | `Ladders` | The `when/then/otherwise` classification ladders of the user page. |
| `segments.dfy` | `Segments` | User segments, cohorts and lifecycle tables. |
| `activity.dfy` | `Activity` | Active users by hour. |
| `userpage.dfy` | `UserPage` | The user page as a whole. |

Two central notions carry most of the proofs:

- **`IsRollup(r, t, key)`.** `r` has one row per distinct key. Each row is the summary of exactly the events with that key. No key is missing or repeated. The row counts add up to `|t|`.
- **`IsSegmentation`.** The same notion over user rows.

Most tables on the three pages are shown to satisfy one of them, so each such table is a partition of its source rows and its counts add up:
- **Rollups** of the filtered events: the dashboard's daily, genre, state and type tables, and the show page's comparison, hourly, state, daily and weekly tables.
- **Segmentations** of the selected users: by state, by engagement level, the viewer segments, the segment matrix and the lifecycle stages.
- **Segmentation** of all users of the filtered events: the cohorts.

The other tables have their own contracts:
- The top-shows ranking is filtered and truncated.
- The top-users table is a truncated sort.
- The hourly activity table's active users add up to the distinct (user, hour) pairs, not to the events.
- The completion column and the show details are not groupings.

## Model

| member | source | states |
|---|---|---|
| Events.CompletionRate | pages/user_analysis.py:27 | The rate times the runtime is 100 times the seconds watched. It is non-negative for non-negative watch time. It exceeds 100 exactly when the watch time exceeds the runtime and equals 100 exactly when they are equal, so rewinds give rates above 100. |
| Events.Completions | pages/dashboard.py:183-185 | The completion column has one entry per view, in row order, and each entry is that view's completion rate. |
| Events.NormalizeDates | pages/user_analysis.py:83-86 | A picked pair gives the range from its first to its second date. A single day gives a one-day range. A picked tuple of any other length gives no range. |
| Events.BaseFilter | pages/user_analysis.py:89-95 | An event is kept exactly when it lies in the inclusive date range and its state, genre and show type are all selected. Kept events keep their multiplicity and table order. |
| Events.EmptySelectionKeepsNothing | pages/dashboard.py:88-94 | Deselecting every state, genre or show type empties the table instead of lifting that filter. |
| Events.InvertedRangeKeepsNothing | pages/dashboard.py:81-94 | A range whose start is after its end is not reordered, and it keeps nothing. |
| Events.OneDayKeepsThatDay | pages/shows_analysis.py:97-110 | Picking a single day keeps exactly the selected events of that day. |
| Events.BaseFilterIdempotent | pages/shows_analysis.py:104-110 | Applying the same filter to an already filtered table changes nothing. |
| Events.FullSelectionKeepsAll | pages/user_analysis.py:89-95 | When the range spans every date and every occurring state, genre and type is selected, the table is kept whole. |
| Events.ShowFilter | pages/shows_analysis.py:113-114 | "All Shows" keeps the table. Any other name keeps exactly the rows with that show name: each as often as it occurs, in table order, and no other row. |
| Rollups.RollupPermutation | pages/dashboard.py:106-115 | Re-ordering a rollup (the sort after a group-by) leaves it a rollup of the same events. |
| Dashboard.DailyViews | pages/dashboard.py:106-115 | One row per day with views, with strictly ascending dates. Each row counts exactly that day's events and has between one and that many distinct users. The counts add up to the number of events. |
| Dashboard.GenreStats | pages/dashboard.py:134-142 | A partition of the events by genre, with views non-increasing down the table. |
| Dashboard.StateStats | pages/dashboard.py:158-166 | A partition of the events by state, with views non-increasing and between one and that many distinct users per state. |
| Dashboard.TypeCompletion | pages/dashboard.py:231-238 | A partition of the events by show type whose mean completions are non-negative. |
| Dashboard.RankedShows | pages/dashboard.py:204-212 | Exactly the shows with at least five views, each summarised from its own events and listed once, best mean completion first. |
| Dashboard.TopShows | pages/dashboard.py:204-214 | At most ten shows. Each has at least five views and its own summary, no show appears twice, and mean completion is non-increasing down the table. |
| Dashboard.TopShowsComplete | pages/dashboard.py:211-213 | An eligible show missing from the top table completes no better than the tenth row, and the table is then full. |
| Dashboard.AvgCompletionAsWritten | pages/dashboard.py:274-278 | As written, the mean completion is absent exactly when no row remains. Otherwise it is the mean of the completion rates. |
| Dashboard.EmptyFilterBreaksAverage | pages/dashboard.py:274-278 | With no state selected, the headline mean has no value to display. |
| Dashboard.AvgCompletion | pages/dashboard.py:272-278 | The corrected mean: 0 on an empty table, otherwise equal to the as-written mean, and never negative. |
| Dashboard.Metrics | pages/dashboard.py:258-286 | Total views are the number of rows. Unique users are the distinct users: at most the views, and at least one when a row remains. The completion figure is the mean rate. Watch hours are the watch seconds over 3600 and never negative. The completion figure uses the corrected mean of "## Findings": 0 when no row remains. |
| Dashboard.Overview | pages/dashboard.py:88-286 | The daily, genre, state and type tables and the completion column each account for every filtered event. Every daily row's date lies in the selected range. The top table has at most ten rows. The headline totals are those of `Dashboard.Metrics`: the distinct users, the watch seconds over 3600 and the mean rate, with the corrected mean of 0 when no row remains. |
| Dashboard.DailyWithinRange | pages/dashboard.py:88-115 | Every day the daily table lists lies between the start and the end of the picked date range, because the table is built from the events that the range filter kept. |
| Shows.Details | pages/shows_analysis.py:116-143 | The panel appears exactly when the show has rows. It shows one of the show's detail combinations with the row count and the distinct viewers, who number at least one and at most the views. |
| Shows.Median | pages/shows_analysis.py:173 | The median of a sorted non-empty column lies between its first and last entries. At least half of the entries lie at or below it, and at least half at or above it. |
| Shows.CompletionSpread | pages/shows_analysis.py:154-180 | The corrected panel is present exactly when a row remains. Its mean is the mean rate. Its min and max are rates that occur and bound every rate. The median and the mean lie between them. At least half of the show's rates lie at or below the median, and at least half at or above it. |
| Shows.StatsAsWritten | pages/shows_analysis.py:170-180 | As written, each of the four figures is absent exactly when the show has no rows. |
| Shows.FilteredShowBreaksStats | pages/shows_analysis.py:154-180 | A picked show whose rows are all filtered away leaves the panel without a mean to display. |
| Shows.ShowMetrics | pages/shows_analysis.py:184-197 | A partition of the events by show with views non-increasing and between one and that many distinct viewers per show. |
| Shows.HourlyViews | pages/shows_analysis.py:239-250 | A partition of the events by hour, with strictly ascending hours, each in 0..23. |
| Shows.GeoStats | pages/shows_analysis.py:282-291 | A partition of the events by state with views non-increasing. |
| Shows.DailyTrends | pages/shows_analysis.py:331-340 | A partition of the events by day with strictly ascending dates. |
| Shows.WeeklyTrends | pages/shows_analysis.py:382-394 | A partition of the events by (year, week) in strictly ascending year-then-week order. |
| Shows.TrendPanels | pages/shows_analysis.py:382-396 | The hourly, state, daily and weekly charts each account for every row. The weekly charts appear exactly when the rows span more than one week. |
| Shows.AllShowsPage | pages/shows_analysis.py:182-197 | With every show picked there is no details or stats panel, and the comparison and the daily trend both account for every row. |
| Shows.OneShowPage | pages/shows_analysis.py:116-180 | With one show picked there is no comparison table. The details panel and the corrected stats panel of "## Findings" appear together, both only when the show has rows. The details' view count equals the daily trend's total. |
| Shows.DetailedAnalysis | pages/shows_analysis.py:113-197 | On "All Shows", the comparison and the daily trend account for every base-filtered row. On a single show there is no comparison, and the daily trend counts exactly that show's base-filtered rows. The details and the corrected stats panel of "## Findings" appear together, exactly when that show has base-filtered rows, and the details' count equals the trend's total. |
| Users.UserSummary | pages/user_analysis.py:136-153 | A user's row carries their id and their number of events. Distinct shows and genres lie between one and the views. Days active is the last date minus the first and is never negative. The state is that of the user's first event. |
| Users.UserSummaryFacts | pages/user_analysis.py:139-151 | First and last view dates occur among the user's events and bound all of them. The watch time is the sum of the user's watch seconds, and the watch hours are that sum over 3600. The completion figure is the non-negative mean of the user's rates. |
| Users.UserRollup | pages/user_analysis.py:136-153 | One row per distinct user, each summarising exactly that user's events. No user has two rows, and the view counts add up to the number of events. |
| Users.AdvancedFilter | pages/user_analysis.py:156-162 | A user row is kept exactly when it meets the view minimum, the inclusive completion range and the watch-hours minimum. Rollup order is preserved. |
| Users.DefaultThresholdsKeep | pages/user_analysis.py:103-130 | With the sliders at their starting positions, a user is kept exactly when their mean completion is at most 100. |
| Users.RollupRowBounds | pages/user_analysis.py:139-151 | Every rollup row has at least one view and non-negative completion and watch hours. |
| Ladders.EngagementOf | pages/user_analysis.py:281-283 | High exactly from 10 views, Medium exactly from 5 to 9, Low exactly below 5. |
| Ladders.EngagementMonotone | pages/user_analysis.py:281-283 | More views never give a lower engagement level. |
| Ladders.ViewerSegmentOf | pages/user_analysis.py:386-389 | Heavy from 20 views, Regular from 10 to 19, Casual from 5 to 9, Light below 5, each as an if-and-only-if. |
| Ladders.ViewerSegmentMonotone | pages/user_analysis.py:386-389 | More views never give a lower viewer segment. |
| Ladders.SegmentRefinesEngagement | pages/user_analysis.py:281-389 | The viewer segment refines the engagement level: High is Regular or Heavy, Medium is Casual, Low is Light. |
| Ladders.CompletionSegmentOf | pages/user_analysis.py:392-395 | Completionist from 80, Engaged from 60 below 80, Selective from 40 below 60, Browser below 40, each as an if-and-only-if. |
| Ladders.CompletionSegmentMonotone | pages/user_analysis.py:392-395 | A higher mean completion never gives a lower completion segment. |
| Ladders.LifecycleOf | pages/user_analysis.py:500-504 | Single Day exactly at 0 days. 1 Week for any other span up to 7, negative spans included. 1 Month for 8 to 30, 3 Months for 31 to 90, 3+ Months above. |
| Ladders.LifecycleMonotone | pages/user_analysis.py:500-504 | On non-negative spans, a longer span never gives an earlier stage. |
| Ladders.NegativeSpanIsOneWeek | pages/user_analysis.py:500-501 | A negative span falls into the 1 Week stage, so the ladder alone is not monotone. |
| Segments.Segments | pages/user_analysis.py:235-243 | Grouping user rows by any key gives one summary per distinct key. Each summary covers exactly the users with that key, and the user counts add up to the number of users. |
| Segments.SegmentPermutation | pages/user_analysis.py:243 | Sorting a segment table keeps it a segmentation of the same users. |
| Segments.SegmentCount | pages/user_analysis.py:239 | A segment's count is the number of users satisfying any condition that singles out its key. |
| Segments.AbsentKeyHasNoUsers | pages/user_analysis.py:235-243 | A key with no row in a segment table belongs to no user. |
| Segments.UsersByState | pages/user_analysis.py:235-244 | A segmentation of the selected users by state, largest state first. |
| Segments.EngagementDistribution | pages/user_analysis.py:288-296 | A segmentation of the selected users by engagement level, with at most three rows. |
| Segments.EngagementCounts | pages/user_analysis.py:278-296 | The High row counts exactly the users with at least 10 views, Medium those with 5 to 9, and Low those with fewer than 5. |
| Segments.SegmentMatrix | pages/user_analysis.py:400-408 | A segmentation of the selected users by (viewer segment, completion segment). Empty cells have no row. |
| Segments.ViewerSegments | pages/user_analysis.py:427-436 | A segmentation of the selected users by viewer segment. |
| Segments.MatrixRefinesViewers | pages/user_analysis.py:400-436 | The matrix refines the viewer segments: the user counts of the matrix cells in one viewer segment's column add up to that segment's row. |
| Segments.CoarserCount | pages/user_analysis.py:400-408 | For any segmentation and any coarser classification of its keys, the counts of the rows in one class add up to the number of users in that class. |
| Segments.LifecycleStats | pages/user_analysis.py:497-512 | A segmentation of the selected users by lifecycle stage. |
| Segments.SingleDayCount | pages/user_analysis.py:500-512 | The Single Day row counts exactly the users whose first and last views fall on the same day. |
| Segments.Cohorts | pages/user_analysis.py:473-494 | A segmentation of the users by the month of their first view, with months strictly ascending. |
| Activity.PairCounts | pages/user_analysis.py:337-338 | One count per distinct (user, hour) pair, equal to that pair's number of events. The counts add up to the number of events. |
| Activity.SummaryDescribesHour | pages/user_analysis.py:339-343 | An hour's row describes it. Its active users are the distinct users with an event in that hour, at least one. Views per user is at least one, and that hour's events over its active users. |
| Activity.HourlyActivity | pages/user_analysis.py:331-345 | One row per hour with events, in strictly ascending hours. Each row describes its hour, and every event's hour has a row. The active users add up to the number of distinct (user, hour) pairs. |
| UserPage.Overview | pages/user_analysis.py:173-187 | The user count is the number of selected users. Every mean is 0 when none is selected. Otherwise each of the three means is the selected users' total of that column over their number: views, mean completion and watch hours. |
| UserPage.RollupOverview | pages/user_analysis.py:136-180 | Over the whole rollup, the mean views per user is the number of filtered events over the number of distinct users. |
| UserPage.OverviewWithinThresholds | pages/user_analysis.py:156-180 | The headline means of the selected users obey the thresholds that selected them. |
| UserPage.SelectedAverageAtLeastOne | pages/user_analysis.py:136-180 | Any non-empty selection of rollup rows averages at least one view per user, whatever the thresholds. |
| UserPage.TopUsers | pages/user_analysis.py:559-562 | Twenty rows, or every selected user when there are fewer. They are drawn from the selected users and ordered by views, most first. |
| UserPage.TopUsersComplete | pages/user_analysis.py:559-562 | A selected user missing from the top table has no more views than its twentieth row, and the table is then full. |
| UserPage.Details | pages/user_analysis.py:235-562 | The state, engagement, matrix, viewer and lifecycle tables each count every selected user once. The hourly table's active users add up to the (user, hour) pairs. The cohorts count every user of the filtered events. The top table has min(20, users) rows. |
| UserPage.PageFor | pages/user_analysis.py:156-206 | The overview is that of the users who pass the thresholds. The tables after the overview are absent exactly when no user passes them, which is the early return. The selected users are at most all users. The state table counts exactly the selected users. The cohorts count all users. |
| UserPage.UserAnalysis | pages/user_analysis.py:89-206 | For one selection and set of thresholds, the same as `PageFor`: the overview is that of the rollup rows of the filtered events that pass the thresholds, and "all users" are the distinct users of the filtered events. |

## Left out

- Loading and caching the JSON file, the sidebar widgets, tabs, charts, metric formatting and `main.py`'s page routing are not modelled. They are I/O and display.
- Parsing timestamps, extracting hours, ISO weeks and years, and formatting a date as year and month are not modelled.
  - Each event carries its date as a day number, its hour, and its year and week.
  - The cohort month is a parameter `monthOf`.
- Rounding is not modelled: `.round(2)` of the completion rate and of the watch hours on the user page. The model uses exact rationals. The dashboard's own completion rate is unrounded.
- Users.DefaultThresholdsKeep: with rounding, a user whose mean rate is above 100 but rounds to 100.00 would also be kept. The model, with exact rates, drops them.
- The sample of at most 1000 rows for the scatter chart (`pages/shows_analysis.py:263`) is random and feeds only a chart.
- The pivot of the segment matrix into a heat-map grid and the column renames are display-only. Their zero-filled cells are the absent rows of `Segments.SegmentMatrix`.
- The exception fallback (`pages/user_analysis.py:163-165`) is not modelled. The threshold comparison cannot raise on the values the model admits.
- Two orders are not modelled: the order of groups from an unsorted group-by, and the order of rows that tie under a sort key. The contracts state those orders only up to ties and the group tables only up to permutation.
- Rows keep table order within a group (`Grouping.Rows`). `Users.UserSummary` relies on this for the user's state, which is the state on the user's first event in table order (`pl.col("state").first()`).
- Shows.Details: which detail combination the page shows is up to Polars' `unique()`. The model shows the one on the first row and states only that it occurs.
- A date input of a length other than one day or two picked days gives no range (`None`). In the program such a value reaches the filter unchanged; that is a transient state of the widget.
- An inverted range is not swapped; the model follows the code. It keeps nothing (`Events.InvertedRangeKeepsNothing`).
- A real show named "All Shows" would collide with the picker's sentinel. The model shares this behaviour.
- Show runtimes are assumed positive and watch durations non-negative (`Events.PositiveSeconds`, `nat`). An event with a zero runtime is not modelled: the program divides by it (`pages/dashboard.py:184`, `pages/shows_analysis.py:156`, `pages/user_analysis.py:27`), and the resulting infinite or undefined rate would enter every mean.
- The sliders bound the thresholds (views 1 to 50, completion 0 to 100, hours 0 to 100). The model accepts any thresholds.
- Segments.Cohorts: the program computes the cohorts from a second per-user group-by with only the first and last dates. The model takes the rows of `Users.UserRollup`, whose first and last dates are the same minima and maxima (`Users.UserSummaryFacts`).
- Shows.DetailedAnalysis: it takes the rows the common filter kept. `Events.BaseFilter` states that step separately.
- Shows.DetailedAnalysis, Shows.OneShowPage: when the picked show has no rows left, the program fails formatting the empty statistics (see "## Findings"). The model uses the corrected panel, which is then absent.
- Dashboard.Metrics, Dashboard.Overview: when no row remains, the program fails formatting the empty mean (see "## Findings"). The model uses the corrected mean of 0.
- The per-group means (watch time per genre, unique shows per segment and the like) are defined as the means of exactly the group's rows, through `IsRollup` and `IsSegmentation`. Their contracts add only non-negativity; the mean of a column over a group is the definition itself.

## Findings

| source | as written | input that shows it | evidently intended | confidence | as-written member | corrected member |
|---|---|---|---|---|---|---|
| pages/dashboard.py:274-278 | The headline mean completion is the mean of an empty column when the filters keep no row. That mean is null, and the percentage format cannot display it. | Deselect every state: `BaseFilter` keeps nothing, so the mean has no value. | Show 0 when no row remains, as the user page does for its own averages. | not executed | Dashboard.AvgCompletionAsWritten, Dashboard.EmptyFilterBreaksAverage | Dashboard.AvgCompletion |
| pages/shows_analysis.py:172-180 | The single-show statistics take the mean, median, max and min of the show's completion rates without checking that rows remain. The details panel above has that check (line 124). | Pick a show and deselect every state: the show filter leaves no rows, and the four figures have no value to format. | Show the figures only when the show has rows, the guard the details panel uses. | not executed | Shows.StatsAsWritten, Shows.FilteredShowBreaksStats | Shows.CompletionSpread |
