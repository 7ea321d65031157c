# Namu time tracking, modelled in Dafny

Namu is the time-tracking part of the portfolio site. A logged-in user picks
a category and runs a stopwatch. The entries are stored by a Flask API over
MySQL, and they can be reviewed and corrected later. This project models the
logic of the Namu pages and the API's write endpoints:

- **The weekly calendar** (`DaySegments`, `ColumnPacking`, `WeekLayout`, with
  `StableSort` and `Clock`):
  - clipping an entry to one local day and placing it in the day's column;
  - sorting a day's segments and marking the ones that intersect;
  - packing the marked ones into two columns;
  - building the seven day starts and bucketing entries by their start day.
- **The dashboard** (`Dashboard`, `Breakdown`, `Charts`, `Entries`):
  - the Monday-based week window, its navigation and the week filter;
  - the statistics cards;
  - the per-category breakdown shared by the dashboard, the bar chart, the
    pie chart and the demo page;
  - the pie chart's total, labels and tooltip percentages;
  - the `Xh Ym` duration text.
- **The demo dashboard** (`Demo`, `DemoEntries`): the same metrics over its
  twenty hard-coded entries.
- **The timer page** (`Timer`): the `hh:mm:ss` clock text and the
  idle/running/stopped state machine, with its typed-in start and end, its
  validity rule and its submission.
- **The manage page** (`Manage`):
  - the compact duration text;
  - the duration preview and the Save/Create button rules;
  - the guard chains of the update, create and category handlers;
  - the form toggles.
- **The Flask API** (`Server`):
  - the validation chains of `register_user`, `create_category`,
    `create_time_entry` and `update_time_entry`;
  - their effect on an abstract database of users, categories and entries,
    including category idempotence and the ownership check.

How the model represents things:

- **Time.** Instants are integer milliseconds of local wall-clock time. A day
  is 86 400 000 ms. Midnight is the instant rounded down to a multiple of a
  day, which is what `stripTime` and `setHours(0, 0, 0, 0)` compute here.
- **JavaScript arithmetic.** `Math.floor(a / b)`, the truncating `%` and
  `Math.round` are written out in `JsNumbers`.
- **Percentages and hours** are `real`.
- **Pages with state** are classes (`TimerPage`, `ManagePage`,
  `EntriesPage`, `Store`). Their handlers are methods that update the fields
  as the React setters do.
- **Inputs from outside the page** are parameters:
  - what a request came back with;
  - the token's user;
  - the parse of typed date-time text (`None` for NaN);
  - the formatted text of "now".
- **JSON bodies** are `Option<map<string, string>>`.
- **Python's `datetime.fromisoformat`** is a parameter that answers
  malformed, naive, or an instant in UTC.

Where the code and its own documentation disagree, the model follows the
code:

- The docstring of `update_time_entry` lists 403 for a caller who does not
  own the entry. The code answers 404 "Entry not found or access denied"
  (flask-server/app.py:476-477), and so does `Server.Store.UpdateTimeEntry`.
- A zero-length segment is not always free of intersections under the
  strict test of `assignColumns` (next-version/components/entries/WeeklyCalendar.tsx:58-60).
  It intersects any longer segment that strictly contains its instant.
  Only two zero-length segments never intersect. `ColumnPacking.ZeroLengthOverlap`
  states exactly this.

## Model

| member | source | states |
|---|---|---|
| JsNumbers.FloorDiv | next-version/app/namu/user/entries/page.tsx:133 | `Math.floor(a / b)` is the quotient q with q·b ≤ a < q·b + b |
| JsNumbers.Rem | next-version/app/namu/user/timer/page.tsx:27 | JavaScript's `%`: for a ≥ 0 it lies in [0, b) and equals a − ⌊a/b⌋·b; for a < 0 it lies in (−b, 0] and keeps the dividend's sign |
| JsNumbers.Round | next-version/components/entries/WeeklyCalendar.tsx:119 | `Math.round(x)` is within half a unit of x, and halves round up |
| JsNumbers.RoundWhole | next-version/components/entries/WeeklyCalendar.tsx:119 | rounding a whole number gives it back |
| JsNumbers.MaxReal | next-version/components/entries/WeeklyCalendar.tsx:41 | `Math.max(a, b)` is one of its arguments and at least both |
| Text.NatToDecimal | next-version/app/namu/user/timer/page.tsx:28 | `String(n)` of a natural number: digits only, one digit exactly below 10, no leading zero |
| Text.IntToDecimal | next-version/app/namu/user/manage/page.tsx:30-32 | a negative number prints as `-` followed by the digits of its magnitude |
| Text.DecimalRoundTrip | next-version/app/namu/user/timer/page.tsx:28 | reading back the decimal text of n gives n |
| Text.PadStart2 | next-version/app/namu/user/timer/page.tsx:28 | `padStart(2, "0")` keeps the text as its suffix and adds only zeros, up to length 2 |
| Text.PaddedDecimal | next-version/app/namu/user/timer/page.tsx:28 | a padded number has at least two digits, exactly two below 100, and reads back as the number |
| Text.Strip | flask-server/app.py:188 | `strip()` removes only leading and trailing whitespace; the result is a slice of the input with no whitespace at either end |
| Text.StripIdempotent | flask-server/app.py:297 | stripping twice is stripping once |
| Clock.Midnight | next-version/components/entries/WeeklyCalendar.tsx:116-118 | `stripTime(t)` is a midnight, at most t and less than a day before it |
| Clock.MidnightUnique | next-version/components/entries/WeeklyCalendar.tsx:116-118 | the only midnight within the day up to t is `stripTime(t)` |
| Clock.MinutesOfDay | next-version/components/entries/WeeklyCalendar.tsx:33 | `getHours()·60 + getMinutes()` is in [0, 1440) and counts the whole minutes since midnight |
| Clock.Weekday | next-version/app/namu/user/entries/page.tsx:20 | `getDay()` is in [0, 7) |
| Clock.WeekdayShift | next-version/app/namu/user/entries/page.tsx:21-23 | moving n days moves the weekday n steps modulo 7 |
| Clock.MidnightShift | next-version/app/namu/user/entries/page.tsx:28-31 | moving n days moves midnight by n days |
| Entries.Durations | next-version/app/namu/user/entries/page.tsx:112 | `map((e) => e.duration_seconds)` keeps length and order |
| Entries.SumDurations | next-version/app/namu/user/entries/page.tsx:103-105 | the `reduce` total is not negative when no duration is; `Entries.SumDurationsAppend` gives its additivity |
| Entries.SumDurationsAppend | next-version/app/namu/user/entries/page.tsx:104 | the `reduce` total of a concatenation is the sum of the totals |
| Entries.SpreadMax | next-version/app/namu/user/entries/page.tsx:112 | `Math.max(...xs)` is −∞ exactly for no arguments, otherwise an element that is at least every element |
| DaySegments.DayEnd | next-version/components/entries/WeeklyCalendar.tsx:25-26 | `dayEnd` is the last millisecond of the day of `dayStart` |
| DaySegments.GetSegment | next-version/components/entries/WeeklyCalendar.tsx:21-43 | null exactly when the entry ends before the day or starts after it; otherwise the segment is max(start, dayStart)..min(end, dayEnd), inside the day, lasting (segEnd − segStart)/1000 s; topPct is the minutes since midnight of segStart as a share of 1440, in [0, 100); heightPct is the duration as a percentage of 86 400 s, raised to 0.8 when smaller |
| DaySegments.InsideDayUnchanged | next-version/components/entries/WeeklyCalendar.tsx:30-31 | an entry wholly inside the day comes back unclipped |
| DaySegments.SegmentIgnoresStoredDuration | next-version/components/entries/WeeklyCalendar.tsx:34 | the segment does not depend on `duration_seconds` |
| DaySegments.EndingAtDayStart | next-version/components/entries/WeeklyCalendar.tsx:28 | an entry ending exactly at the day's first millisecond still gets a zero-length segment drawn 0.8% high |
| DaySegments.CrossingMidnightIsClipped | next-version/components/entries/WeeklyCalendar.tsx:30-31 | an entry running past the day is cut at 23:59:59.999; one starting before it is cut at 00:00 |
| StableSort.SortFacts | next-version/components/entries/WeeklyCalendar.tsx:49 | the numeric-comparator sort orders by key, permutes its input and is stable: the elements of each key keep their input order |
| StableSort.Sort | next-version/components/entries/WeeklyCalendar.tsx:49 | the sort keeps the length; `StableSort.SortFacts` gives order, permutation and stability |
| StableSort.InsertLast | next-version/components/entries/WeeklyCalendar.tsx:49 | one insertion step adds exactly one element |
| StableSort.InsertLastStable | next-version/components/entries/WeeklyCalendar.tsx:49 | inserting one element keeps, for every key, the earlier elements of that key ahead of it |
| StableSort.InsertLastPermutes | next-version/components/entries/WeeklyCalendar.tsx:49 | inserting one element adds exactly that element to the multiset |
| StableSort.InsertLastSorted | next-version/components/entries/WeeklyCalendar.tsx:49 | inserting into a sorted sequence keeps it sorted |
| StableSort.SortSortedIsIdentity | next-version/components/entries/WeeklyCalendar.tsx:214-218 | sorting an already sorted sequence changes nothing |
| ColumnPacking.WithSegments | next-version/components/entries/WeeklyCalendar.tsx:46-48 | after `map` and `filter`, there are no more items than entries and each item carries its entry's own segment |
| ColumnPacking.WithSegmentsAppend | next-version/components/entries/WeeklyCalendar.tsx:46-48 | the map and filter work entry by entry: the items of a concatenation are the items of its parts, in input order |
| ColumnPacking.WithSegmentsSingle | next-version/components/entries/WeeklyCalendar.tsx:46-48 | one entry yields one item with its segment when it has one on the day, and nothing otherwise |
| ColumnPacking.WithSegmentsCount | next-version/components/entries/WeeklyCalendar.tsx:46-48 | an entry with a segment yields its item exactly as often as it occurs in the input; no other item is produced |
| ColumnPacking.WithSegmentsMembers | next-version/components/entries/WeeklyCalendar.tsx:46-48 | the items are exactly the input entries that have a segment on the day, each with its own segment |
| ColumnPacking.SortedSegments | next-version/components/entries/WeeklyCalendar.tsx:46-49 | the day's segments after the `sort` are ordered by start |
| ColumnPacking.SortedSegmentsFacts | next-version/components/entries/WeeklyCalendar.tsx:46-49 | the sorted segments are ordered by start, are a permutation of the mapped and filtered items, and hold each input entry with a segment exactly as often as the input does, with its segment |
| ColumnPacking.TiesKeepInputOrder | next-version/components/entries/WeeklyCalendar.tsx:46-49 | among segments with the same start, those of entries earlier in the input come first |
| ColumnPacking.MarkOverlaps | next-version/components/entries/WeeklyCalendar.tsx:51-66 | despite the early `break`, `hasOverlap[i]` holds if and only if segment i strictly intersects some other segment |
| ColumnPacking.ScanLater | next-version/components/entries/WeeklyCalendar.tsx:56-65 | one inner loop flags every intersecting pair that starts at i and sets no flag without a witness |
| ColumnPacking.FlagPair | next-version/components/entries/WeeklyCalendar.tsx:61-64 | setting the flags of an intersecting pair keeps every set flag witnessed |
| ColumnPacking.ScanComplete | next-version/components/entries/WeeklyCalendar.tsx:57 | once the segments from the break point on start after segment i ends, all of i's pairs are flagged |
| ColumnPacking.ColumnDecision | next-version/components/entries/WeeklyCalendar.tsx:79-82 | the two-slot `colEnd` test picks column 1 exactly when some earlier column-0 event is still running |
| ColumnPacking.AppendKeepsChain | next-version/components/entries/WeeklyCalendar.tsx:79-83 | an event put in column 0 starts no earlier than the previous column-0 event ends |
| ColumnPacking.PackColumns | next-version/components/entries/WeeklyCalendar.tsx:68-87 | one packed event per segment, in order: unflagged ones full width with no column, flagged ones in column 1 exactly when a column-0 event is still running, otherwise column 0 |
| ColumnPacking.AssignColumns | next-version/components/entries/WeeklyCalendar.tsx:45-88 | `assignColumns` packs the sorted segments by that rule, with overlap flags equal to true intersection, and returns them in start order; it returns one event for each occurrence of an input entry that has a segment on the day, with that segment, and none for any other entry |
| ColumnPacking.Placed | next-version/components/entries/WeeklyCalendar.tsx:69-87 | the entry and segment of each packed event, one per event, in order |
| ColumnPacking.PlacedIsSegments | next-version/components/entries/WeeklyCalendar.tsx:69-87 | a packing that meets the packing rule carries exactly the sorted segments, in order |
| ColumnPacking.Column0NeverIntersects | next-version/components/entries/WeeklyCalendar.tsx:79-83 | no two column-0 events intersect: each ends by the time the next one starts |
| ColumnPacking.FirstFlaggedTakesColumn0 | next-version/components/entries/WeeklyCalendar.tsx:82 | the first flagged event of a day gets column 0 |
| ColumnPacking.TwoOverlappingUseBothColumns | next-version/components/entries/WeeklyCalendar.tsx:55-85 | two intersecting segments go to columns 0 and 1 |
| ColumnPacking.IsolatedIsFullWidth | next-version/components/entries/WeeklyCalendar.tsx:74-76 | a segment that intersects nothing gets no column and is not marked as overlapping |
| ColumnPacking.ThirdConcurrentEventSharesColumn1 | next-version/components/entries/WeeklyCalendar.tsx:79-83 | with three mutually intersecting segments, the second and third both go to column 1 and are drawn over each other |
| ColumnPacking.ZeroLengthOverlap | next-version/components/entries/WeeklyCalendar.tsx:58-60 | a zero-length segment intersects another exactly when it lies strictly inside it, and never intersects another zero-length one |
| WeekLayout.Days | next-version/components/entries/WeeklyCalendar.tsx:103-112 | seven midnights, the first that of `weekStart`, each a day after the previous |
| WeekLayout.DaysAt | next-version/components/entries/WeeklyCalendar.tsx:105-109 | day i starts i days after the week's midnight |
| WeekLayout.DaysRunMondayToSunday | next-version/components/entries/WeeklyCalendar.tsx:105-109 | for a week starting on Monday, the columns run Monday to Sunday |
| WeekLayout.DayIndex | next-version/components/entries/WeeklyCalendar.tsx:116-119 | `Math.round` of the midnight difference is the exact number of days between the two midnights |
| WeekLayout.BucketByDay | next-version/components/entries/WeeklyCalendar.tsx:114-123 | seven buckets, bucket d holding the entries whose start day is day d, in input order |
| WeekLayout.OnDayMembers | next-version/components/entries/WeeklyCalendar.tsx:117-120 | an entry is in bucket d if and only if it is an input entry whose start day is d |
| WeekLayout.OnDay | next-version/components/entries/WeeklyCalendar.tsx:114-123 | a bucket has no more entries than the input and holds only entries whose start day is its day |
| WeekLayout.OnDayAppend | next-version/components/entries/WeeklyCalendar.tsx:117-120 | bucketing keeps input order: the buckets of a concatenation are the concatenated buckets |
| WeekLayout.AtMostOneBucket | next-version/components/entries/WeeklyCalendar.tsx:119-120 | no entry lands in two buckets |
| WeekLayout.BucketedStartsThatDay | next-version/components/entries/WeeklyCalendar.tsx:118-120 | an entry of bucket d starts during day d |
| WeekLayout.InWeekIffBucketed | next-version/components/entries/WeeklyCalendar.tsx:119-120 | an entry is in some bucket exactly when it starts within the seven days |
| WeekLayout.CrossingEntryDrawnOnStartDayOnly | next-version/components/entries/WeeklyCalendar.tsx:114-127 | an entry crossing midnight is drawn only on its start day, from its start to 23:59:59.999 |
| WeekLayout.LayoutWeek | next-version/components/entries/WeeklyCalendar.tsx:125-129 | `packedByDay` holds, for each of the seven days, that day's bucket laid out by `assignColumns` against that day's start |
| WeekLayout.Layout | next-version/components/entries/WeeklyCalendar.tsx:220-229 | overlapping events are 38% wide, at left 10% in column 0 and at 52% otherwise; other events are 80% wide at left 10%; every box has right 10% and stays within 10%..90%; top is the segment's topPct and height is max(heightPct, 0.8) |
| WeekLayout.ColumnsSideBySide | next-version/components/entries/WeeklyCalendar.tsx:220-226 | a column-0 and a column-1 event are drawn side by side without touching |
| WeekLayout.HeightFloorIdempotent | next-version/components/entries/WeeklyCalendar.tsx:229 | the render's second 0.8 floor changes no segment's height |
| WeekLayout.RenderDay | next-version/components/entries/WeeklyCalendar.tsx:214-219 | the render draws one box per packed event |
| WeekLayout.RenderKeepsPackedOrder | next-version/components/entries/WeeklyCalendar.tsx:214-218 | the render's in-place sort leaves a day's packed events in the order `assignColumns` returned |
| Breakdown.Categories | next-version/components/entries/CategoryChart.tsx:23-27 | the keys of `grouped` are the distinct categories of the entries, each once |
| Breakdown.CategoriesFollowFirstOccurrence | next-version/components/entries/CategoryChart.tsx:24-27 | the keys are inserted in the order in which their categories first occur |
| Breakdown.SecondsByCategory | next-version/components/entries/CategoryChart.tsx:23-27 | `grouped` has a key exactly for each category that occurs |
| Breakdown.AbsentCategorySeconds | next-version/components/entries/CategoryChart.tsx:25-26 | a category that does not occur accounts for no seconds |
| Breakdown.AppendEntry | next-version/components/entries/CategoryChart.tsx:25-26 | one more entry adds its category at the end if it is new, and adds its seconds to that category only |
| Breakdown.GroupStep | next-version/components/entries/CategoryChart.tsx:24-27 | one step of the grouping loop keeps `grouped` equal to the grouping of the entries seen so far |
| Breakdown.GroupByCategory | next-version/components/entries/CategoryChart.tsx:23-27 | the loop leaves the keys in first-occurrence order and each key's value equal to its category's summed seconds |
| Breakdown.SplitKeysPermutes | next-version/components/entries/CategoryChart.tsx:29 | array-index keys and named keys together are exactly the keys |
| Breakdown.EntriesOrderFacts | next-version/components/entries/CategoryChart.tsx:29 | `Object.entries` lists each key once, and in insertion order when no key looks like an array index |
| Breakdown.CategoryBreakdown | next-version/components/entries/CategoryChart.tsx:23-33 | the grouping loop followed by the `map` gives the breakdown rows |
| Breakdown.OrderFacts | next-version/components/entries/CategoryChart.tsx:29 | the listed keys are the entries' categories, each once |
| Breakdown.RowsFollowOrder | next-version/components/entries/CategoryChart.tsx:29-33 | row i is for the i-th key `Object.entries` lists |
| Breakdown.Rows | next-version/components/entries/CategoryChart.tsx:29-33 | one row per distinct category of the entries |
| Breakdown.RowsPerCategory | next-version/components/entries/CategoryChart.tsx:23-33 | every category of the entries has a row, every row names one of them, and no category has two rows |
| Breakdown.RowContents | next-version/components/entries/CategoryChart.tsx:29-33 | a row's hours are its category's summed seconds over 3600, and row i's fill is `palette[i % palette.length]` |
| Breakdown.RowsInFirstOccurrenceOrder | next-version/components/entries/CategoryChart.tsx:29 | without array-index category names, rows follow the first occurrence of their categories |
| Breakdown.NoEntriesNoRows | next-version/components/entries/CategoryChart.tsx:23-33 | no entries give no rows |
| Breakdown.SecondsOverPermutation | next-version/components/entries/CategoryChart.tsx:29 | a sum over categories does not depend on their order |
| Breakdown.CategoriesConserveSeconds | next-version/components/entries/CategoryChart.tsx:24-27 | the per-category sums add up to the sum over all entries |
| Breakdown.RowsConserveHours | next-version/components/entries/CategoryChart.tsx:24-33 | the rows' hours add up to the entries' total seconds over 3600 |
| Charts.Palette | next-version/components/entries/CategoryChart.tsx:21 | the dark palette is chosen exactly in dark mode, unless both palettes are the same |
| Charts.BarChartData | next-version/components/entries/CategoryChart.tsx:20-33 | the bar chart's `data` is the breakdown of its entries in the theme's palette |
| Charts.PieChartData | next-version/components/entries/CategoryPieChart.tsx:28-44 | the pie's `for`-of grouping and `map` give the same breakdown as the bar chart, and `totalHours` is the entries' total seconds over 3600 |
| Charts.ThemeColours | next-version/components/entries/CategoryChart.tsx:21-32 | in dark mode row k is `DARK_PALETTE[k % length]`, otherwise `LIGHT_PALETTE[k % length]` |
| Charts.TotalHours | next-version/components/entries/CategoryPieChart.tsx:44 | `totalHours` is not negative when no slice is |
| Charts.TotalHoursIsHoursSum | next-version/components/entries/CategoryPieChart.tsx:44 | the `reduce` over the slices equals the sum of the rows' hours |
| Charts.PieTotalIsEntriesTotal | next-version/components/entries/CategoryPieChart.tsx:31-44 | the pie's total is the entries' total seconds in hours |
| Charts.RenderLabel | next-version/components/entries/CategoryPieChart.tsx:55-65 | a label is shown exactly when the total is not 0, the slice is positive and its share is at least 3%; it shows that share |
| Charts.TooltipPercent | next-version/components/entries/CategoryPieChart.tsx:101 | the tooltip shows 0 when the total is not positive, otherwise the share p with p·total = value·100 |
| Charts.SliceAtMostTotal | next-version/components/entries/CategoryPieChart.tsx:44 | with no negative slice, no slice exceeds the total |
| Charts.LabelWithinRange | next-version/components/entries/CategoryPieChart.tsx:62-65 | a label shown for a slice of the pie reads between 3% and 100% |
| Charts.SharesAdd | next-version/components/entries/CategoryPieChart.tsx:101 | shares of one total add up |
| Charts.PercentSumIsShare | next-version/components/entries/CategoryPieChart.tsx:101 | the tooltip percentages of a list of slices add up to the share of their combined hours |
| Charts.TooltipPercentsSumTo100 | next-version/components/entries/CategoryPieChart.tsx:44-101 | whenever there is any time, the slices' tooltip percentages add up to 100 |
| Charts.EmptyPie | next-version/components/entries/CategoryPieChart.tsx:62-101 | with a zero total, no slice has a label and every tooltip reads 0% |
| Dashboard.AddDays | next-version/app/namu/user/entries/page.tsx:28-32 | `addDays(d, n)` keeps the time of day and moves midnight by n days |
| Dashboard.AddDaysRoundTrip | next-version/app/namu/user/entries/page.tsx:28-32 | `addDays(addDays(d, n), −n)` is d |
| Dashboard.MondayOf | next-version/app/namu/user/entries/page.tsx:19-26 | `getMondayOf(d)` is a Monday midnight, at most d and less than 7 days before it |
| Dashboard.SundayMapsSixDaysBack | next-version/app/namu/user/entries/page.tsx:21 | a Sunday maps to the Monday six days earlier |
| Dashboard.MondayUnique | next-version/app/namu/user/entries/page.tsx:19-26 | any Monday midnight within the 7 days up to d is `getMondayOf(d)` |
| Dashboard.MondayOfIdempotent | next-version/app/namu/user/entries/page.tsx:19-26 | `getMondayOf` of a Monday it returned gives that Monday back |
| Dashboard.WeeksKeepMonday | next-version/app/namu/user/entries/page.tsx:156-157 | moving a Monday midnight by whole weeks gives a Monday midnight |
| Dashboard.WeekFilterMembers | next-version/app/namu/user/entries/page.tsx:92-99 | an entry is in `filteredEntries` if and only if it starts in [weekStart, weekStart + 7 days], both ends included |
| Dashboard.WeekFilter | next-version/app/namu/user/entries/page.tsx:95-98 | the kept entries are no more than the input and all start in the window |
| Dashboard.FilteredEntries | next-version/app/namu/user/entries/page.tsx:92-99 | no entries before the data arrives; afterwards at most the data's entries, all starting in the window |
| Dashboard.Visible | next-version/app/namu/user/entries/page.tsx:101 | no entries before the data arrives; with show-all on, all the data's entries; otherwise only entries starting in the window |
| Dashboard.NextMondayMidnightInTwoWeeks | next-version/app/namu/user/entries/page.tsx:94-97 | an entry starting exactly at the next Monday 00:00 counts in both weeks |
| Dashboard.CalendarDrawsFilteredEntries | next-version/app/namu/user/entries/page.tsx:205-207 | the calendar draws every filtered entry except one starting exactly at the next Monday 00:00 |
| Dashboard.LongestSession | next-version/app/namu/user/entries/page.tsx:110-113 | 0 for no entries; otherwise the duration of some visible entry, and at least every visible duration |
| Dashboard.LongestAtMostTotal | next-version/app/namu/user/entries/page.tsx:103-113 | with no negative duration, the longest session is at most the total |
| Dashboard.StatsOf | next-version/app/namu/user/entries/page.tsx:103-113 | totalSeconds is the sum of the visible durations; sessionsCount is the number of visible entries; everything is 0 for none; longestSession is the duration of some visible entry and at least every visible duration |
| Dashboard.DashboardBreakdown | next-version/app/namu/user/entries/page.tsx:117-130 | no rows before the data arrives, then the breakdown of the visible entries in the theme's palette |
| Dashboard.CardsMatchChart | next-version/app/namu/user/entries/page.tsx:103-130 | the bar chart's hours add up to the total on the hours card |
| Dashboard.HoursMinutes | next-version/app/namu/user/entries/page.tsx:132-134 | for s ≥ 0, h·3600 + m·60 ≤ s < h·3600 + m·60 + 60 with m < 60; seconds are dropped |
| Dashboard.FormatDuration | next-version/app/namu/user/entries/page.tsx:132-136 | the text ends in `m`; `Dashboard.FormatDurationReadsBack` shows it reads back as the hours and minutes |
| Dashboard.FormatDurationReadsBack | next-version/app/namu/user/entries/page.tsx:132-136 | the text is `${h}h ${m}m`, and both numbers read back as ⌊s/3600⌋ and ⌊(s mod 3600)/60⌋ |
| Dashboard.EntriesPage.constructor | next-version/app/namu/user/entries/page.tsx:48-53 | the initial week is the Monday of now, loading, no data, show-all off |
| Dashboard.EntriesPage.FetchSucceeded | next-version/app/namu/user/entries/page.tsx:67-72 | the data is stored and loading ends |
| Dashboard.EntriesPage.FetchFailed | next-version/app/namu/user/entries/page.tsx:69-72 | the error is stored, the data is kept, and loading ends |
| Dashboard.EntriesPage.Prev | next-version/app/namu/user/entries/page.tsx:156 | the week moves back 7 days and stays a Monday midnight |
| Dashboard.EntriesPage.Next | next-version/app/namu/user/entries/page.tsx:157 | the week moves forward 7 days and stays a Monday midnight |
| Dashboard.EntriesPage.ToggleShowAll | next-version/app/namu/user/entries/page.tsx:158 | show-all flips and nothing else changes |
| Dashboard.NavigateForwardAndBack | next-version/app/namu/user/entries/page.tsx:156-157 | Next then Prev returns to the same week, which is its own `getMondayOf` |
| DemoEntries.DemoGrouping | next-version/app/demo/page.tsx:236-241 | the demo's categories in first-occurrence order are Exercise, Reading, Work, Study, with 39 180, 10 680, 67 140 and 73 800 seconds |
| Demo.DemoTotal | next-version/app/demo/page.tsx:220-222 | `totalSeconds` of the demo is 190 800 |
| Demo.DemoLongest | next-version/app/demo/page.tsx:227-229 | `Math.max` over the demo's durations is 14 400, entry 19's, and needs no emptiness guard |
| Demo.DemoStats | next-version/app/demo/page.tsx:220-229 | the cards show 190 800 seconds, 20 sessions and a longest session of 14 400 seconds |
| Demo.DemoBreakdown | next-version/app/demo/page.tsx:233-248 | the demo's breakdown in its own light or dark chart palette |
| Demo.DemoOrder | next-version/app/demo/page.tsx:243 | `Object.entries` lists the demo's categories in insertion order |
| Demo.DemoRows | next-version/app/demo/page.tsx:233-248 | four bars, Exercise, Reading, Work and Study, with their hours and the first four colours of the theme's palette |
| Demo.DemoDurationText | next-version/app/demo/page.tsx:250-254 | 14 400 s reads "4h 0m" and 39 180 s reads "10h 53m" |
| Timer.ElapsedParts | next-version/app/namu/user/timer/page.tsx:25-27 | for n ≥ 0 the parts are not negative, m and s are below 60, and 3600h + 60m + s = n |
| Timer.SecondsWithinHour | next-version/app/namu/user/timer/page.tsx:26-27 | `n % 60` is the seconds within the hour less its whole minutes |
| Timer.ElapsedRoundTrip | next-version/app/namu/user/timer/page.tsx:24-30 | reading back `formatElapsed(n)` as `hh:mm:ss` gives n, and the text is 8 characters below 100 hours |
| Timer.FormatElapsed | next-version/app/namu/user/timer/page.tsx:24-30 | the text has at least the 8 characters of `hh:mm:ss`; `Timer.ElapsedRoundTrip` shows it reads back as n |
| Timer.ClockReadsBack | next-version/app/namu/user/timer/page.tsx:29 | `${pad(h)}:${pad(m)}:${pad(s)}` reads back as 3600h + 60m + s |
| Timer.ClockLength | next-version/app/namu/user/timer/page.tsx:29 | the clock text of h < 100, m, s < 60 has 8 characters |
| Timer.PadFacts | next-version/app/namu/user/timer/page.tsx:28 | `pad(k)` has at least two digits, exactly two below 100, and reads back as k |
| Timer.DurationSeconds | next-version/app/namu/user/timer/page.tsx:136-139 | `null` unless both instants are set, otherwise the whole seconds d with 1000·d ≤ end − start < 1000·d + 1000 |
| Timer.PositiveDurationIffSecondApart | next-version/app/namu/user/timer/page.tsx:141-146 | the duration is positive exactly when the end is at least a second after the start |
| Timer.FindCategory | next-version/app/namu/user/timer/page.tsx:134 | `find` returns a category exactly when one has the selected id, and it is the first such |
| Timer.DisplaySeconds | next-version/app/namu/user/timer/page.tsx:259-265 | the clock shows elapsed while running, max(0, duration) when stopped, and 0 when idle |
| Timer.TimerPage.IsValid | next-version/app/namu/user/timer/page.tsx:141-146 | a valid form has both instants set, with the end at least a second after the start |
| Timer.TimerPage.Display | next-version/app/namu/user/timer/page.tsx:259-265 | the clock text has at least the 8 characters of `hh:mm:ss` |
| Timer.TimerPage.constructor | next-version/app/namu/user/timer/page.tsx:36-56 | idle, with no times, no inputs, no category and no submission |
| Timer.TimerPage.CategoriesLoaded | next-version/app/namu/user/timer/page.tsx:60-74 | the fetched categories replace the list and nothing else changes |
| Timer.TimerPage.SelectCategory | next-version/app/namu/user/timer/page.tsx:227-231 | the picker sets the selected id, or clears it for the empty choice |
| Timer.TimerPage.HandleStart | next-version/app/namu/user/timer/page.tsx:96-106 | from any state: running from now, end and end input cleared, elapsed 0, submission status reset |
| Timer.TimerPage.HandleStop | next-version/app/namu/user/timer/page.tsx:108-113 | stopped at now, start kept, duration ⌊(now − start)/1000⌋ |
| Timer.TimerPage.PressStartStop | next-version/app/namu/user/timer/page.tsx:270-286 | the button stops a running timer (end time and end field set to now, start, elapsed and submit status kept) and starts or restarts any other (start and start field set to now, end cleared, elapsed 0, submit status reset); categories and selection unchanged |
| Timer.TimerPage.Tick | next-version/app/namu/user/timer/page.tsx:78-92 | while running, elapsed becomes the whole seconds since the start; otherwise nothing changes |
| Timer.TimerPage.HandleStartInputChange | next-version/app/namu/user/timer/page.tsx:115-124 | the text is kept; a parsed value becomes the start and, while running, recomputes elapsed |
| Timer.TimerPage.HandleEndInputChange | next-version/app/namu/user/timer/page.tsx:126-130 | the text is kept; a parsed value becomes the end, otherwise the end is unchanged |
| Timer.TimerPage.HandleSubmit | next-version/app/namu/user/timer/page.tsx:150-193 | nothing unless valid; without a token, an error; otherwise sends the category name and both instants, a success resets the page to idle, and a failure changes only the status and message |
| Timer.SubmitSendsValidEntry | next-version/app/namu/user/timer/page.tsx:141-173 | a submitted entry names a listed category and spans at least one second |
| Manage.CompactDuration | next-version/app/namu/user/manage/page.tsx:26-33 | from an hour up the text ends in the minutes unit `m`, below an hour in the seconds unit `s` |
| Manage.CompactDurationHours | next-version/app/namu/user/manage/page.tsx:26-30 | from an hour up the text is `${h}h ${m}m` with m < 60 |
| Manage.CompactDurationMinutes | next-version/app/namu/user/manage/page.tsx:26-31 | from a minute to an hour the text is `${m}m ${s}s` with 1 ≤ m < 60 |
| Manage.CompactDurationSeconds | next-version/app/namu/user/manage/page.tsx:26-32 | under a minute the text is `${s}s` |
| Manage.NegativeDurationShowsSeconds | next-version/app/namu/user/manage/page.tsx:26-32 | a negative count falls through to the seconds form with the truncated remainder |
| Manage.PreviewOf | next-version/app/namu/user/manage/page.tsx:250-255 | no preview unless both fields hold text; NaN exactly when one does not parse; otherwise ⌊(end − start)/1000⌋ |
| Manage.PreviewText | next-version/app/namu/user/manage/page.tsx:589-599 | a positive preview shows the duration and a non-positive one the ordering error |
| Manage.SaveEnabledMeansPositiveSecond | next-version/app/namu/user/manage/page.tsx:602-610 | an enabled Save over parsed dates means the end is at least a second after the start |
| Manage.SubSecondGapDisablesSave | next-version/app/namu/user/manage/page.tsx:602-610 | an end less than a second after the start disables Save, although the handler's check would accept it |
| Manage.UnparsableLeavesSaveEnabled | next-version/app/namu/user/manage/page.tsx:604-610 | text that does not parse leaves Save enabled |
| Manage.PositivePreviewPassesChecks | next-version/app/namu/user/manage/page.tsx:120-133 | a positive preview means the handler's date checks pass |
| Manage.CreateEnabledBeforeStart | next-version/app/namu/user/manage/page.tsx:501-508 | Create stays enabled for an end before the start; the preview and the handler then report the ordering error |
| Manage.CheckDates | next-version/app/namu/user/manage/page.tsx:120-133 | passes exactly when both dates parse and the end is after the start; "Invalid date values." exactly when one does not parse |
| Manage.FirstWithId | next-version/app/namu/user/manage/page.tsx:248 | `find` returns a listed entry with that id, and none exactly when no entry has it |
| Manage.ManagePage.constructor | next-version/app/namu/user/manage/page.tsx:46-76 | empty lists, loading, and all three forms cleared and closed |
| Manage.ManagePage.SelectedEntry | next-version/app/namu/user/manage/page.tsx:248 | `selectedEntry` is a listed entry with the selected id, or none has it |
| Manage.ManagePage.FetchAll | next-version/app/namu/user/manage/page.tsx:78-100 | entries and then categories are replaced when their requests succeed; a failed entries request sets the error; loading ends |
| Manage.ManagePage.SelectEntry | next-version/app/namu/user/manage/page.tsx:106-113 | the entry's id, category and times go into the edit panel, and the status is cleared |
| Manage.ManagePage.HandleUpdate | next-version/app/namu/user/manage/page.tsx:115-159 | nothing for a falsy id (including 0); an error and no request for bad dates; otherwise sends the update, and its outcome sets the status, a success reloading the lists |
| Manage.ManagePage.HandleCreate | next-version/app/namu/user/manage/page.tsx:195-246 | nothing with an empty field; the same date errors; an error without a token; otherwise sends the entry, and a success clears the three fields and reloads |
| Manage.ManagePage.HandleCreateCategory | next-version/app/namu/user/manage/page.tsx:161-193 | nothing for a blank name; otherwise the trimmed name is sent, a 200 reports "already exists", and another success reports "created", clears the field and refreshes the list |
| Manage.ManagePage.ToggleEntryForm | next-version/app/namu/user/manage/page.tsx:270-279 | the New Entry form flips, its fields and status are cleared, and the selection is dropped |
| Manage.ManagePage.ToggleCategoryForm | next-version/app/namu/user/manage/page.tsx:284-290 | the New Category form flips and its name and status are cleared |
| Manage.ManagePage.CloseEntryForm | next-version/app/namu/user/manage/page.tsx:417-421 | the New Entry form closes with its status cleared and its fields kept |
| Manage.ManagePage.Deselect | next-version/app/namu/user/manage/page.tsx:537 | the selection is dropped |
| Manage.UpdateSendsOrderedInterval | next-version/app/namu/user/manage/page.tsx:115-145 | an update request has its end after its start, and an entry with id 0 is never sent |
| Server.CheckRegistration | flask-server/app.py:183-196 | passes exactly with both fields, a stripped username of 1–100 characters and a password of at least 6; a bad username is reported before the password; failures are 400 |
| Server.CheckCategoryName | flask-server/app.py:292-300 | passes exactly with a stripped name of 1–100 characters; failures are 400 |
| Server.CheckInterval | flask-server/app.py:356-369 | passes exactly when both timestamps carry an offset and the end is after the start; otherwise 400 for a malformed time, then for a missing offset, then for the order |
| Server.CheckNewEntry | flask-server/app.py:345-369 | passes exactly with all four fields and a good interval, yielding the stripped names; failures are 400 |
| Server.CheckChange | flask-server/app.py:436-461 | passes exactly with a body, a non-blank category, non-empty times and a good interval; failures are 400 |
| Server.Store.RegisterUser | flask-server/app.py:166-215 | 400 from the checks, 409 for a taken username, otherwise 201 and exactly one new user |
| Server.Store.CreateCategory | flask-server/app.py:276-319 | 400 from the checks, 200 with the existing id and no insert for a known name, otherwise 201 and one new category |
| Server.Store.CreateTimeEntry | flask-server/app.py:326-409 | 400 before any lookup, then 404 for an unknown user, then 404 for an unknown category; otherwise 201 and exactly one new entry |
| Server.Store.UpdateTimeEntry | flask-server/app.py:415-495 | 401 without a token identity, 400 from the checks, 404 unless the caller owns the entry, 404 for an unknown category; otherwise 200 and only that entry's category, start and end change |
| Server.Store.ApplyChange | flask-server/app.py:463-495 | the ownership join, then the category lookup, then the update of that one row |
| Server.CreateCategoryTwice | flask-server/app.py:302-319 | creating a category twice answers 200 the second time with the id of the first, and the table gains at most that one name |

## Left out

- Rounding to fixed decimals is not modelled:
  - the `toFixed(1)` and `toFixed(2)` of the hours cards;
  - the `toFixed(2)` of a row's hours;
  - the `toFixed(0)` of a pie label and the `toFixed(1)` of a tooltip.
  Hours and percentages are exact `real` quotients.
- Breakdown.Rows: a row's hours are seconds / 3600 exactly, not `+(seconds / 3600).toFixed(2)`. The pie's total and the 3% label threshold therefore use unrounded hours.
- The pie label's position (`Math.cos`/`Math.sin`) and the `typeof value` coercion of the label and tooltip value are not modelled. The value is taken to be the number it normally is.
- The light and dark palettes of `components/entries/colors` are parameters. That file is not part of this model. The demo page's own palettes are constants.
- Date handling is not modelled:
  - parsing date-time text (`new Date(text)`, `datetime.fromisoformat`);
  - formatting (`toISOString`, `toLocaleString`, `toLocalDatetimeValue`, `formatDate`);
  - time zones and DST.
  Instants are local integer milliseconds, a parse is a parameter, and every day has 86 400 000 ms.
- `fetch`, `await` and `useEffect` are not modelled. A request's outcome is a parameter of the handler that sends it. A handler's intermediate "loading" state is not observable in the model, because the model runs each handler to its end.
- The interval of the timer is not modelled. Each of its ticks is one `Timer.TimerPage.Tick` call with the current time.
- Timer.TimerPage.HandleStop: requires a running timer. The page offers Stop only then (next-version/app/namu/user/timer/page.tsx:270-286), so the stop of a stopped or idle timer is not modelled.
- The timer's validation hints and the manage page's list rendering are not modelled. Both are presentation only.
- bcrypt hashing and JWT creation and verification are not modelled. The token's identity is a parameter. The three 401 loaders (flask-server/app.py:502-512) are collapsed into one 401 reply, and the missing-token message is the one given.
- The 500 replies on database errors are not modelled. MySQL's case-insensitive name comparison is not modelled either: names compare exactly.
- A JSON value that is not a string is not modelled, nor the exception Python raises for one. Bodies map field names to strings.
- Flask's `request.get_json()` rejects a non-JSON or malformed body itself, with 415 or 400, before any handler runs. That rejection is not modelled. A `Server.Body` of `None` is a JSON body that is falsy to the handlers' `not data` test, such as `null` or `{}`.
- Text.Strip: removes only the six characters space, tab, line feed, vertical tab, form feed and carriage return. Python's `strip()` also removes the ASCII separators `\x1c`–`\x1f` and the other Unicode whitespace, and JavaScript's `trim()` removes other Unicode whitespace too.
- `login_user` and the GET endpoints only read data, and they rely on bcrypt and JWT. They are not modelled.
- `flask-server/seed.py` makes random data and HTTP calls. `flask_server/app.py` renders a template. Neither is modelled.
- The colour of a calendar event (`getDarkEventColor`) and the `WeekNavigator` component are not part of this model.
- Breakdown.Rows, Breakdown.RowsPerCategory, Breakdown.RowContents: `grouped` is a plain object literal, and the model treats every category name as an ordinary own key. A category named after an `Object.prototype` property is not modelled. In the source, "__proto__" gets no row, because the `__proto__` setter ignores the number. Names such as "constructor", "toString" or "valueOf" read an inherited function, so the sum becomes a string and the row's hours are NaN. The API accepts any name of 1–100 characters, so such names can occur.
- `Object.entries` puts array-index keys first, in numeric order. The model states first-occurrence order only for category names that are not array indices (`Breakdown.RowsInFirstOccurrenceOrder`).
