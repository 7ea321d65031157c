/** `getSegment` of the weekly calendar: the part of one entry that falls on
    one local day, and where that part is drawn in the day's column (a top
    offset and a height, both percentages of the 24-hour column). */
module DaySegments {
  import opened Wrappers
  import opened Clock
  import opened JsNumbers
  import opened Entries

  /** A clipped entry: its instants on this day, its length in seconds (from
      the instants, never from `duration_seconds`), and its placement. */
  datatype Segment = Segment(segStart: int, segEnd: int, segDurationSeconds: real, topPct: real, heightPct: real)

  /** The smallest height a segment is drawn with, in percent of the day. */
  const MinHeightPct: real := 0.8

  /** `dayEnd.setHours(23, 59, 59, 999)` on a copy of `dayStart`: the last
      millisecond of the day that contains `dayStart`. */
  function DayEnd(dayStart: int): (e: int)
    ensures dayStart <= e && Midnight(e) == Midnight(dayStart)
    ensures IsMidnight(e + 1)
  {
    var m := Midnight(dayStart);
    MidnightUnique(m, m + DayMs - 1);
    m + DayMs - 1
  }

  /** The clipped segment of `entry` on the day starting at `dayStart`, or
      `None` when the entry ends before the day or starts after it. */
  function GetSegment(entry: Entry, dayStart: int): (r: Option<Segment>)
    ensures r == None <==> entry.end < dayStart || entry.start > DayEnd(dayStart)
    ensures r.Some? ==>
              && r.value.segStart == (if entry.start < dayStart then dayStart else entry.start)
              && r.value.segEnd == (if entry.end > DayEnd(dayStart) then DayEnd(dayStart) else entry.end)
    ensures r.Some? ==>
              && dayStart <= r.value.segStart <= DayEnd(dayStart)
              && dayStart <= r.value.segEnd <= DayEnd(dayStart)
    ensures r.Some? ==> r.value.segDurationSeconds * 1000.0 == (r.value.segEnd - r.value.segStart) as real
    ensures r.Some? ==> 0.0 <= r.value.topPct < 100.0 && r.value.heightPct >= MinHeightPct
    ensures r.Some? ==> r.value.topPct * 1440.0 == 100.0 * MinutesOfDay(r.value.segStart) as real
    ensures r.Some? ==>
              r.value.heightPct ==
              if r.value.segDurationSeconds / 864.0 >= MinHeightPct then r.value.segDurationSeconds / 864.0
              else MinHeightPct
  {
    var dayEnd := DayEnd(dayStart);
    if entry.end < dayStart || entry.start > dayEnd then None
    else
      var segStart := if entry.start < dayStart then dayStart else entry.start;
      var segEnd := if entry.end > dayEnd then dayEnd else entry.end;
      var minFromMidnight := MinutesOfDay(segStart);
      var segDurationSeconds := (segEnd - segStart) as real / 1000.0;
      Some(Segment(
             segStart,
             segEnd,
             segDurationSeconds,
             (minFromMidnight as real / 1440.0) * 100.0,
             MaxReal((segDurationSeconds / 86400.0) * 100.0, MinHeightPct)))
  }

  /** An entry that lies wholly inside the day comes back unclipped, and its
      segment lasts exactly as long as the entry's own instants say. */
  lemma InsideDayUnchanged(entry: Entry, dayStart: int)
    requires dayStart <= entry.start <= entry.end <= DayEnd(dayStart)
    ensures GetSegment(entry, dayStart).Some?
    ensures GetSegment(entry, dayStart).value.segStart == entry.start
    ensures GetSegment(entry, dayStart).value.segEnd == entry.end
    ensures GetSegment(entry, dayStart).value.segDurationSeconds == (entry.end - entry.start) as real / 1000.0
  {
  }

  /** The stored `duration_seconds` plays no part in the segment. */
  lemma SegmentIgnoresStoredDuration(entry: Entry, dayStart: int, seconds: int)
    ensures GetSegment(entry.(durationSeconds := seconds), dayStart) == GetSegment(entry, dayStart)
  {
  }

  /** An entry that ends exactly at the day's first millisecond still gets a
      segment: zero seconds long, drawn at the minimum height. */
  lemma EndingAtDayStart(entry: Entry, dayStart: int)
    requires entry.start <= entry.end == dayStart
    ensures GetSegment(entry, dayStart).Some?
    ensures GetSegment(entry, dayStart).value.segDurationSeconds == 0.0
    ensures GetSegment(entry, dayStart).value.heightPct == MinHeightPct
  {
  }

  /** An entry that runs past the end of the day is cut at 23:59:59.999; one
      that began on an earlier day starts at the top of the column. */
  lemma CrossingMidnightIsClipped(entry: Entry, dayStart: int)
    requires IsMidnight(dayStart)
    requires entry.start <= DayEnd(dayStart) && entry.end >= dayStart
    ensures entry.end > DayEnd(dayStart) ==> GetSegment(entry, dayStart).value.segEnd == dayStart + DayMs - 1
    ensures entry.start < dayStart ==>
              GetSegment(entry, dayStart).value.segStart == dayStart && GetSegment(entry, dayStart).value.topPct == 0.0
  {
    MidnightUnique(dayStart, dayStart);
  }
}
