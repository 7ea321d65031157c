/** The entries dashboard: the Monday-based week window, the week
    navigation, the entries visible in the window, the three statistics
    cards, the category breakdown, and the `Xh Ym` duration text. */
module Dashboard {
  import opened Wrappers
  import opened Clock
  import opened JsNumbers
  import opened Text
  import opened Entries
  import opened Breakdown
  import opened Charts
  import opened WeekLayout

  /** `addDays(date, n)`: the same wall-clock time `n` days later. */
  function AddDays(t: int, n: int): (r: int)
    ensures Midnight(r) == Midnight(t) + n * DayMs
    ensures r - Midnight(r) == t - Midnight(t)
  {
    MidnightShift(t, n);
    t + n * DayMs
  }

  /** Going forward `n` days and back `n` days returns to the same instant. */
  lemma AddDaysRoundTrip(t: int, n: int)
    ensures AddDays(AddDays(t, n), -n) == t
  {
  }

  /** `getMondayOf(d)`: move back to Monday (six days back from a Sunday),
      then set the clock to 00:00. */
  function MondayOf(t: int): (m: int)
    ensures IsMidnight(m) && Weekday(m) == 1
    ensures m <= t < m + 7 * DayMs
  {
    var day := Weekday(t);
    var diff := (if day == 0 then -6 else 1) - day;
    var moved := AddDays(t, diff);
    WeekdayShift(t, diff);
    assert Weekday(Midnight(moved)) == Weekday(moved) by {
      assert Midnight(moved) / DayMs == moved / DayMs;
    }
    Midnight(moved)
  }

  /** A Sunday belongs to the week that began six days earlier. */
  lemma SundayMapsSixDaysBack(t: int)
    requires Weekday(t) == 0
    ensures MondayOf(t) == Midnight(t) - 6 * DayMs
  {
  }

  /** There is one Monday midnight within the seven days up to any instant:
      it is `MondayOf`. */
  lemma MondayUnique(m: int, t: int)
    requires IsMidnight(m) && Weekday(m) == 1 && m <= t < m + 7 * DayMs
    ensures m == MondayOf(t)
  {
    var r := MondayOf(t);
    var a, b := m / DayMs, r / DayMs;
    assert m == a * DayMs && r == b * DayMs;
    assert m - r == (a - b) * DayMs;
    WithinAWeek(a - b);
    SameWeekday(a + 4, b + 4);
  }

  /** Day counts less than seven days apart in milliseconds are less than
      seven apart. */
  lemma WithinAWeek(k: int)
    requires -7 * DayMs < k * DayMs < 7 * DayMs
    ensures -7 < k < 7
  {
  }

  /** Two day counts with the same weekday, less than a week apart, are the
      same day. */
  lemma SameWeekday(x: int, y: int)
    requires x % 7 == y % 7 && -7 < x - y < 7
    ensures x == y
  {
    assert x == (x / 7) * 7 + x % 7 && y == (y / 7) * 7 + y % 7;
    assert x - y == (x / 7 - y / 7) * 7;
    WithinAWeekOfSevens(x / 7 - y / 7);
  }

  lemma WithinAWeekOfSevens(q: int)
    requires -7 < q * 7 < 7
    ensures q == 0
  {
  }

  /** `getMondayOf` is idempotent. */
  lemma MondayOfIdempotent(t: int)
    ensures MondayOf(MondayOf(t)) == MondayOf(t)
  {
    MondayUnique(MondayOf(t), MondayOf(t));
  }

  /** Moving a Monday midnight by whole weeks gives a Monday midnight. */
  lemma WeeksKeepMonday(ws: int, n: int)
    requires IsMidnight(ws) && Weekday(ws) == 1
    ensures IsMidnight(AddDays(ws, 7 * n)) && Weekday(AddDays(ws, 7 * n)) == 1
  {
    WeekdayShift(ws, 7 * n);
    assert (1 + 7 * n) % 7 == 1;
    MidnightUnique(ws, ws);
  }

  /** The window test of `filteredEntries`: from `weekStart` up to and
      including the following Monday at 00:00. */
  predicate InWeek(e: Entry, weekStart: int) {
    weekStart <= e.start <= AddDays(AddDays(weekStart, 6), 1)
  }

  function WeekFilter(es: seq<Entry>, weekStart: int): (kept: seq<Entry>)
    ensures |kept| <= |es|
    ensures forall k :: 0 <= k < |kept| ==> InWeek(kept[k], weekStart)
  {
    if es == [] then []
    else
      var last := es[|es| - 1];
      WeekFilter(es[..|es| - 1], weekStart) + (if InWeek(last, weekStart) then [last] else [])
  }

  /** `filteredEntries`: no entries before the data has arrived, then the
      entries that start in the window, in their original order. */
  function FilteredEntries(data: Option<seq<Entry>>, weekStart: int): (kept: seq<Entry>)
    ensures data.None? ==> kept == []
    ensures data.Some? ==> |kept| <= |data.value|
    ensures forall k :: 0 <= k < |kept| ==> InWeek(kept[k], weekStart)
  {
    if data.None? then [] else WeekFilter(data.value, weekStart)
  }

  lemma {:induction false} WeekFilterMembers(es: seq<Entry>, weekStart: int, e: Entry)
    ensures e in WeekFilter(es, weekStart) <==> e in es && weekStart <= e.start <= weekStart + 7 * DayMs
  {
    if es != [] {
      var init := es[..|es| - 1];
      assert es == init + [es[|es| - 1]];
      WeekFilterMembers(init, weekStart, e);
    }
  }

  /** The window is closed at both ends: an entry that starts exactly at the
      next Monday's 00:00 is counted in this week and in the next one. */
  lemma NextMondayMidnightInTwoWeeks(es: seq<Entry>, weekStart: int, e: Entry)
    requires e in es && e.start == AddDays(weekStart, 7)
    ensures e in WeekFilter(es, weekStart) && e in WeekFilter(es, AddDays(weekStart, 7))
  {
    WeekFilterMembers(es, weekStart, e);
    WeekFilterMembers(es, AddDays(weekStart, 7), e);
  }

  /** The calendar of the dashboard receives the filtered entries: every one
      of them is drawn on some day of the week except one starting exactly at
      the next Monday's 00:00, which falls outside the seven day columns. */
  lemma CalendarDrawsFilteredEntries(data: Option<seq<Entry>>, weekStart: int, e: Entry)
    requires IsMidnight(weekStart)
    requires e in FilteredEntries(data, weekStart)
    ensures (exists d :: 0 <= d < DaysShown && e in OnDay(FilteredEntries(data, weekStart), weekStart, d))
            <==> e.start != weekStart + 7 * DayMs
  {
    WeekFilterMembers(data.value, weekStart, e);
    MidnightUnique(weekStart, weekStart);
    InWeekIffBucketed(FilteredEntries(data, weekStart), weekStart, e);
  }

  /** `visibleEntries`: every entry when "show all" is on, the week's
      entries otherwise. */
  function Visible(data: Option<seq<Entry>>, weekStart: int, showAll: bool): (shown: seq<Entry>)
    ensures data.None? ==> shown == []
    ensures showAll && data.Some? ==> shown == data.value
    ensures !showAll ==> forall k :: 0 <= k < |shown| ==> InWeek(shown[k], weekStart)
  {
    if showAll then (if data.None? then [] else data.value) else FilteredEntries(data, weekStart)
  }

  /** `longestSession`: 0 for no entries, otherwise `Math.max` over the
      durations, which is the largest of them. */
  function LongestSession(visible: seq<Entry>): (longest: int)
    ensures visible == [] ==> longest == 0
    ensures visible != [] ==> exists e :: e in visible && e.durationSeconds == longest
    ensures forall e :: e in visible ==> e.durationSeconds <= longest
  {
    if |visible| == 0 then 0
    else
      var ds := Durations(visible);
      var m := SpreadMax(ds);
      assert forall e :: e in visible ==> exists i :: 0 <= i < |visible| && visible[i] == e;
      assert exists i :: 0 <= i < |ds| && ds[i] == m.value;
      m.value
  }

  /** The longest session never exceeds the total when no duration is
      negative. */
  lemma {:induction false} LongestAtMostTotal(visible: seq<Entry>)
    requires forall e :: e in visible ==> e.durationSeconds >= 0
    ensures LongestSession(visible) <= SumDurations(visible)
  {
    if visible != [] {
      var init, last := visible[..|visible| - 1], visible[|visible| - 1];
      assert visible == init + [last];
      LongestAtMostTotal(init);
      SumDurationsAppend(init, [last]);
      assert SumDurations([last]) == last.durationSeconds;
      var longest := LongestSession(visible);
      assert exists e :: e in visible && e.durationSeconds == longest;
      var e :| e in visible && e.durationSeconds == longest;
      if e != last {
        assert e in init;
      }
    }
  }

  /** The statistics cards: the total of the durations, the number of
      entries, and the longest one. */
  datatype Stats = Stats(totalSeconds: int, sessionsCount: int, longestSession: int)

  function StatsOf(visible: seq<Entry>): (s: Stats)
    ensures s.sessionsCount == |visible|
    ensures s.totalSeconds == SumDurations(visible)
    ensures visible == [] ==> s.totalSeconds == 0 && s.longestSession == 0
    ensures visible != [] ==> exists e :: e in visible && e.durationSeconds == s.longestSession
    ensures forall e :: e in visible ==> e.durationSeconds <= s.longestSession
  {
    Stats(SumDurations(visible), |visible|, LongestSession(visible))
  }

  /** `categoryBreakdown`: nothing before the data has arrived, otherwise the
      breakdown of the visible entries in the theme's palette. */
  method DashboardBreakdown(data: Option<seq<Entry>>, visible: seq<Entry>, isDark: bool,
                            light: seq<string>, dark: seq<string>) returns (rows: seq<Row>)
    requires |light| > 0 && |dark| > 0
    ensures data.None? ==> rows == []
    ensures data.Some? ==> rows == Rows(visible, Palette(isDark, light, dark))
  {
    if data.None? {
      return [];
    }
    var palette := if isDark then dark else light;
    rows := CategoryBreakdown(visible, palette);
  }

  /** The hours card and the bar chart agree: the chart's bars add up to
      the total shown on the card, whatever the palette. */
  lemma CardsMatchChart(data: Option<seq<Entry>>, weekStart: int, showAll: bool, palette: seq<string>)
    requires |palette| > 0
    ensures var visible := Visible(data, weekStart, showAll);
      HoursSum(Rows(visible, palette)) == StatsOf(visible).totalSeconds as real / 3600.0
  {
    RowsConserveHours(Visible(data, weekStart, showAll), palette);
  }

  /** `h = Math.floor(seconds / 3600)` and
      `m = Math.floor((seconds % 3600) / 60)`, with JavaScript's truncating
      `%`. */
  function HoursMinutes(seconds: int): (hm: (int, int))
    ensures -60 <= hm.1 < 60
    ensures seconds >= 0 ==>
              (&& 0 <= hm.0 && 0 <= hm.1
               && hm.0 * 3600 + hm.1 * 60 <= seconds < hm.0 * 3600 + hm.1 * 60 + 60)
  {
    (FloorDiv(seconds, 3600), FloorDiv(Rem(seconds, 3600), 60))
  }

  /** `formatDuration(seconds)`: `${h}h ${m}m`, the seconds dropped. */
  function FormatDuration(seconds: int): (text: string)
    ensures |text| >= 4 && text[|text| - 1] == 'm'
  {
    var hm := HoursMinutes(seconds);
    IntToDecimal(hm.0) + "h " + IntToDecimal(hm.1) + "m"
  }

  /** For a non-negative duration the text is the decimal hours, "h ", the
      minutes in one or two digits, and "m"; both numbers read back as the
      whole hours and the leftover whole minutes. */
  lemma FormatDurationReadsBack(seconds: int)
    requires seconds >= 0
    ensures var hm := HoursMinutes(seconds);
      && FormatDuration(seconds) == NatToDecimal(hm.0) + "h " + NatToDecimal(hm.1) + "m"
      && DecimalValue(NatToDecimal(hm.0)) == seconds / 3600
      && DecimalValue(NatToDecimal(hm.1)) == (seconds % 3600) / 60
      && |NatToDecimal(hm.1)| <= 2
  {
    var hm := HoursMinutes(seconds);
    DecimalRoundTrip(hm.0);
    DecimalRoundTrip(hm.1);
    LengthBelow100(hm.1);
  }

  /** The dashboard's state: the fetched data (none until it arrives), the
      loading flag and error text, the selected week and "show all". */
  class EntriesPage {
    var data: Option<seq<Entry>>
    var loading: bool
    var error: Option<string>
    var weekStart: int
    var showAll: bool

    /** The selected week always starts on a Monday at 00:00. */
    ghost predicate Valid()
      reads this
    {
      IsMidnight(weekStart) && Weekday(weekStart) == 1
    }

    /** The initial state, with the week that contains `now`. */
    constructor(now: int)
      ensures Valid()
      ensures weekStart == MondayOf(now) && weekStart <= now < weekStart + 7 * DayMs
      ensures data == None && loading && error == None && !showAll
    {
      data := None;
      loading := true;
      error := None;
      weekStart := MondayOf(now);
      showAll := false;
    }

    /** `get_entries` when the response is OK. */
    method FetchSucceeded(entries: seq<Entry>)
      modifies this
      ensures data == Some(entries) && !loading
      ensures error == old(error) && weekStart == old(weekStart) && showAll == old(showAll)
    {
      data := Some(entries);
      loading := false;
    }

    /** `get_entries` when the request fails: the message is kept and the
      data stays as it was. */
    method FetchFailed(message: string)
      modifies this
      ensures error == Some(message) && !loading
      ensures data == old(data) && weekStart == old(weekStart) && showAll == old(showAll)
    {
      error := Some(message);
      loading := false;
    }

    /** `onPrev`: the week before. */
    method Prev()
      requires Valid()
      modifies this
      ensures Valid() && weekStart == AddDays(old(weekStart), -7)
      ensures data == old(data) && loading == old(loading) && error == old(error) && showAll == old(showAll)
    {
      WeeksKeepMonday(weekStart, -1);
      weekStart := AddDays(weekStart, -7);
    }

    /** `onNext`: the week after. */
    method Next()
      requires Valid()
      modifies this
      ensures Valid() && weekStart == AddDays(old(weekStart), 7)
      ensures data == old(data) && loading == old(loading) && error == old(error) && showAll == old(showAll)
    {
      WeeksKeepMonday(weekStart, 1);
      weekStart := AddDays(weekStart, 7);
    }

    /** `onToggleShowAll`. */
    method ToggleShowAll()
      modifies this
      ensures showAll == !old(showAll)
      ensures data == old(data) && loading == old(loading) && error == old(error) && weekStart == old(weekStart)
    {
      showAll := !showAll;
    }
  }

  /** Going to the next week and back returns to the week shown before, and
      each step keeps the week aligned with `getMondayOf`. */
  method NavigateForwardAndBack(page: EntriesPage)
    requires page.Valid()
    modifies page
    ensures page.Valid() && page.weekStart == old(page.weekStart)
    ensures page.weekStart == MondayOf(page.weekStart)
  {
    page.Next();
    page.Prev();
    MondayUnique(page.weekStart, page.weekStart);
  }
}
