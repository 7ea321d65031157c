/** The body of the weekly calendar: the seven day starts of the week, the
    bucketing of entries by the day they start on, the per-day column
    packing, and the mapping from a packed event to the box drawn for it. */
module WeekLayout {
  import opened Wrappers
  import opened Clock
  import opened JsNumbers
  import opened Entries
  import opened DaySegments
  import opened StableSort
  import opened ColumnPacking

  const DaysShown: int := 7

  /** `days`: a copy of `weekStart` moved by `i` days and set to 00:00. */
  function Days(weekStart: int): (ds: seq<int>)
    ensures |ds| == DaysShown
    ensures ds[0] == Midnight(weekStart)
    ensures forall i :: 0 <= i < DaysShown ==> IsMidnight(ds[i])
    ensures forall i :: 0 < i < DaysShown ==> ds[i] == ds[i - 1] + DayMs
  {
    seq(DaysShown, i requires 0 <= i < DaysShown => Midnight(weekStart + i * DayMs))
  }

  lemma DaysAt(weekStart: int, i: int)
    requires 0 <= i < DaysShown
    ensures Days(weekStart)[i] == Midnight(weekStart) + i * DayMs
  {
    MidnightShift(weekStart, i);
  }

  /** When the week starts on a Monday the columns run Monday to Sunday. */
  lemma DaysRunMondayToSunday(weekStart: int, i: int)
    requires Weekday(weekStart) == 1 && 0 <= i < DaysShown
    ensures Weekday(Days(weekStart)[i]) == (1 + i) % 7
  {
    DaysAt(weekStart, i);
    var m := Midnight(weekStart);
    assert Weekday(m) == Weekday(weekStart) by {
      assert m / DayMs == weekStart / DayMs;
    }
    WeekdayShift(m, i);
  }

  /** The bucket index of an entry starting at `t`:
      `Math.round((stripTime(start) - stripTime(weekStart)) / 86400000)`.
      Both midnights are whole days apart, so the rounding is exact. */
  function DayIndex(t: int, weekStart: int): (idx: int)
    ensures Midnight(t) == Midnight(weekStart) + idx * DayMs
  {
    var diff := Midnight(t) - Midnight(weekStart);
    var k := diff / DayMs;
    assert diff == k * DayMs by {
      assert Midnight(t) == (t / DayMs) * DayMs;
      assert Midnight(weekStart) == (weekStart / DayMs) * DayMs;
    }
    assert diff as real / DayMs as real == k as real;
    RoundWhole(k);
    Round(diff as real / DayMs as real)
  }

  /** The entries of bucket `d`, in input order. */
  function OnDay(entries: seq<Entry>, weekStart: int, d: int): (bucket: seq<Entry>)
    ensures |bucket| <= |entries|
    ensures forall k :: 0 <= k < |bucket| ==> DayIndex(bucket[k].start, weekStart) == d
  {
    if entries == [] then []
    else
      var init, last := entries[..|entries| - 1], entries[|entries| - 1];
      OnDay(init, weekStart, d) + (if DayIndex(last.start, weekStart) == d then [last] else [])
  }

  /** `entriesByDay`: seven empty buckets, then one pass over the entries
      that pushes each onto the bucket of its start day when that index is
      within the week. */
  method BucketByDay(entries: seq<Entry>, weekStart: int) returns (byDay: seq<seq<Entry>>)
    ensures |byDay| == DaysShown
    ensures forall d :: 0 <= d < DaysShown ==> byDay[d] == OnDay(entries, weekStart, d)
  {
    var buckets := new seq<Entry>[DaysShown](_ => []);
    for k := 0 to |entries|
      invariant forall d :: 0 <= d < DaysShown ==> buckets[d] == OnDay(entries[..k], weekStart, d)
    {
      var entry := entries[k];
      assert entries[..k + 1][..k] == entries[..k];
      var idx := DayIndex(entry.start, weekStart);
      if 0 <= idx < DaysShown {
        buckets[idx] := buckets[idx] + [entry];
      }
    }
    assert entries[..|entries|] == entries;
    byDay := buckets[..];
  }

  /** Bucket `d` holds exactly the entries whose start day is day `d`. */
  lemma {:induction false} OnDayMembers(entries: seq<Entry>, weekStart: int, d: int, e: Entry)
    ensures e in OnDay(entries, weekStart, d) <==> e in entries && DayIndex(e.start, weekStart) == d
  {
    if entries != [] {
      var init := entries[..|entries| - 1];
      assert entries == init + [entries[|entries| - 1]];
      OnDayMembers(init, weekStart, d, e);
    }
  }

  /** Bucketing keeps input order: the buckets of a concatenation are the
      concatenated buckets. */
  lemma {:induction false} OnDayAppend(a: seq<Entry>, b: seq<Entry>, weekStart: int, d: int)
    ensures OnDay(a + b, weekStart, d) == OnDay(a, weekStart, d) + OnDay(b, weekStart, d)
  {
    if b == [] {
      assert a + b == a;
    } else {
      var init := b[..|b| - 1];
      assert (a + b)[..|a + b| - 1] == a + init;
      OnDayAppend(a, init, weekStart, d);
    }
  }

  /** No entry is drawn on two days. */
  lemma AtMostOneBucket(entries: seq<Entry>, weekStart: int, e: Entry, d1: int, d2: int)
    requires e in OnDay(entries, weekStart, d1) && e in OnDay(entries, weekStart, d2)
    ensures d1 == d2
  {
    OnDayMembers(entries, weekStart, d1, e);
    OnDayMembers(entries, weekStart, d2, e);
  }

  /** An entry of bucket `d` starts during day `d` of the week. */
  lemma BucketedStartsThatDay(entries: seq<Entry>, weekStart: int, e: Entry, d: int)
    requires 0 <= d < DaysShown && e in OnDay(entries, weekStart, d)
    ensures Days(weekStart)[d] <= e.start < Days(weekStart)[d] + DayMs
  {
    OnDayMembers(entries, weekStart, d, e);
    DaysAt(weekStart, d);
  }

  /** An entry is in some bucket exactly when it starts within the seven
      days from the week's first midnight. */
  lemma InWeekIffBucketed(entries: seq<Entry>, weekStart: int, e: Entry)
    requires e in entries
    ensures (exists d :: 0 <= d < DaysShown && e in OnDay(entries, weekStart, d))
            <==> Midnight(weekStart) <= e.start < Midnight(weekStart) + DaysShown * DayMs
  {
    var idx := DayIndex(e.start, weekStart);
    OnDayMembers(entries, weekStart, idx, e);
    if exists d :: 0 <= d < DaysShown && e in OnDay(entries, weekStart, d) {
      var d :| 0 <= d < DaysShown && e in OnDay(entries, weekStart, d);
      BucketedStartsThatDay(entries, weekStart, e, d);
      DaysAt(weekStart, d);
    } else {
      assert !(0 <= idx < DaysShown);
      if idx < 0 {
        assert Midnight(e.start) <= Midnight(weekStart) - DayMs;
      } else {
        assert Midnight(e.start) >= Midnight(weekStart) + DaysShown * DayMs;
      }
    }
  }

  /** An entry running past midnight is drawn only on its start day, cut off
      at 23:59:59.999 of that day. */
  lemma CrossingEntryDrawnOnStartDayOnly(entries: seq<Entry>, weekStart: int, e: Entry, d: int)
    requires 0 <= d < DaysShown && e in OnDay(entries, weekStart, d)
    requires e.end > DayEnd(Days(weekStart)[d])
    ensures GetSegment(e, Days(weekStart)[d]).Some?
    ensures GetSegment(e, Days(weekStart)[d]).value.segStart == e.start
    ensures GetSegment(e, Days(weekStart)[d]).value.segEnd == DayEnd(Days(weekStart)[d])
    ensures forall d' :: 0 <= d' < DaysShown && d' != d ==> e !in OnDay(entries, weekStart, d')
  {
    BucketedStartsThatDay(entries, weekStart, e, d);
    forall d' | 0 <= d' < DaysShown && e in OnDay(entries, weekStart, d') ensures d' == d {
      AtMostOneBucket(entries, weekStart, e, d, d');
    }
  }

  /** The layout of one day: its sorted segments packed into columns, with
      the overlap flags of the scan, in start order. */
  ghost predicate DayLaidOut(entries: seq<Entry>, weekStart: int, d: int, packed: seq<PackedEvent>)
    requires 0 <= d < DaysShown
  {
    var segs := SortedSegments(OnDay(entries, weekStart, d), Days(weekStart)[d]);
    && PackingSpec(segs, packed)
    && (forall k :: 0 <= k < |segs| ==> packed[k].overlaps == HasOverlap(segs, k))
    && SortedBy(packed, PackedStart)
  }

  /** `packedByDay`: each day's bucket laid out against that day's start. */
  method LayoutWeek(entries: seq<Entry>, weekStart: int) returns (packedByDay: seq<seq<PackedEvent>>)
    ensures |packedByDay| == DaysShown
    ensures forall d :: 0 <= d < DaysShown ==> DayLaidOut(entries, weekStart, d, packedByDay[d])
  {
    var days := Days(weekStart);
    var byDay := BucketByDay(entries, weekStart);
    packedByDay := [];
    for d := 0 to DaysShown
      invariant |packedByDay| == d
      invariant forall i :: 0 <= i < d ==> DayLaidOut(entries, weekStart, i, packedByDay[i])
    {
      var packed := AssignColumns(byDay[d], days[d]);
      assert DayLaidOut(entries, weekStart, d, packed);
      assert forall i :: 0 <= i < d ==> (packedByDay + [packed])[i] == packedByDay[i];
      packedByDay := packedByDay + [packed];
    }
  }

  /** Where an event is drawn, in percent of the day column. */
  datatype Box = Box(top: real, height: real, left: real, width: real, right: real)

  /** The render's style for a packed event: half width on the left or the
      right for an overlapping event, the full 80% otherwise, and the height
      raised to the floor once more. */
  function Layout(p: PackedEvent): (b: Box)
    ensures b.top == p.seg.topPct && b.height >= MinHeightPct
    ensures 10.0 <= b.left && b.left + b.width <= 90.0 && b.right == 10.0
    ensures !p.overlaps <==> b.width == 80.0
    ensures p.overlaps ==> (b.left == 10.0 <==> p.col == Some(0))
    ensures p.overlaps ==> b.width == 38.0 && b.left == (if p.col == Some(0) then 10.0 else 52.0)
    ensures !p.overlaps ==> b.left == 10.0 && b.width == 80.0
    ensures b.height == (if p.seg.heightPct >= MinHeightPct then p.seg.heightPct else MinHeightPct)
  {
    var height := MaxReal(p.seg.heightPct, MinHeightPct);
    if p.overlaps then
      Box(p.seg.topPct, height, if p.col == Some(0) then 10.0 else 52.0, 38.0, 10.0)
    else
      Box(p.seg.topPct, height, 10.0, 80.0, 10.0)
  }

  /** Two overlapping events in different columns are drawn side by side
      with a gap between them, never on top of each other. */
  lemma ColumnsSideBySide(p: PackedEvent, q: PackedEvent)
    requires p.overlaps && q.overlaps && p.col == Some(0) && q.col == Some(1)
    ensures Layout(p).left + Layout(p).width < Layout(q).left
  {
  }

  /** The render's second `Math.max(heightPct, 0.8)` changes nothing: a
      segment's height already respects the floor. */
  lemma HeightFloorIdempotent(entry: Entry, dayStart: int, p: PackedEvent)
    requires GetSegment(entry, dayStart) == Some(p.seg)
    ensures Layout(p).height == p.seg.heightPct
  {
  }

  /** The boxes of one day, after the render's sort by start. */
  function RenderDay(packed: seq<PackedEvent>): (boxes: seq<Box>)
    ensures |boxes| == |packed|
  {
    var sorted := Sort(packed, PackedStart);
    SortFacts(packed, PackedStart);
    seq(|sorted|, i requires 0 <= i < |sorted| => Layout(sorted[i]))
  }

  /** The packing already returns events in start order, so the render's
      sort leaves them where they are: box `i` belongs to packed event `i`. */
  lemma RenderKeepsPackedOrder(entries: seq<Entry>, weekStart: int, d: int, packed: seq<PackedEvent>)
    requires 0 <= d < DaysShown && DayLaidOut(entries, weekStart, d, packed)
    ensures forall i :: 0 <= i < |packed| ==> RenderDay(packed)[i] == Layout(packed[i])
  {
    SortSortedIsIdentity(packed, PackedStart);
  }
}
