/** `assignColumns` of the weekly calendar: one day's entries become that
    day's segments, ordered by start; the segments that intersect another are
    flagged; the flagged ones are packed greedily into two side-by-side
    columns. */
module ColumnPacking {
  import opened Wrappers
  import opened Entries
  import opened DaySegments
  import opened StableSort

  /** An entry paired with its segment on the day being laid out. */
  datatype Item = Item(ev: Entry, seg: Segment)

  /** A column index, `0 | 1`. */
  type Column = c: nat | c < 2

  /** An entry ready to draw: its segment, its column (`None` for a full-width
      event) and whether it takes part in an overlap. */
  datatype PackedEvent = PackedEvent(ev: Entry, seg: Segment, col: Option<Column>, overlaps: bool)

  function StartOf(x: Item): int {
    x.seg.segStart
  }

  function PackedStart(p: PackedEvent): int {
    p.seg.segStart
  }

  /** `dayEntries.map(ev => ({ ev, seg: getSegment(ev, dayStart) }))`
      followed by the filter that drops the entries without a segment. */
  function WithSegments(dayEntries: seq<Entry>, dayStart: int): (r: seq<Item>)
    ensures |r| <= |dayEntries|
    ensures forall k :: 0 <= k < |r| ==> GetSegment(r[k].ev, dayStart) == Some(r[k].seg)
  {
    if dayEntries == [] then []
    else
      var init, last := dayEntries[..|dayEntries| - 1], dayEntries[|dayEntries| - 1];
      assert dayEntries == init + [last];
      match GetSegment(last, dayStart)
      case None => WithSegments(init, dayStart)
      case Some(seg) => WithSegments(init, dayStart) + [Item(last, seg)]
  }

  /** The map and the filter work entry by entry: the items of a
      concatenation are the items of its parts, in the same order. */
  lemma {:induction false} WithSegmentsAppend(a: seq<Entry>, b: seq<Entry>, dayStart: int)
    ensures WithSegments(a + b, dayStart) == WithSegments(a, dayStart) + WithSegments(b, dayStart)
    decreases |b|
  {
    if b == [] {
      assert a + b == a;
    } else {
      var ab, init, last := a + b, b[..|b| - 1], b[|b| - 1];
      assert ab[..|ab| - 1] == a + init;
      assert ab[|ab| - 1] == last;
      WithSegmentsAppend(a, init, dayStart);
      var tail := if GetSegment(last, dayStart).Some? then [Item(last, GetSegment(last, dayStart).value)] else [];
      assert WithSegments(ab, dayStart) == WithSegments(a + init, dayStart) + tail;
      assert WithSegments(b, dayStart) == WithSegments(init, dayStart) + tail;
    }
  }

  /** One entry gives one item, with its own segment, when it has a segment
      on the day, and nothing otherwise. */
  lemma WithSegmentsSingle(e: Entry, dayStart: int)
    ensures WithSegments([e], dayStart) ==
              if GetSegment(e, dayStart).Some? then [Item(e, GetSegment(e, dayStart).value)] else []
  {
    assert [e][..0] == [];
  }

  /** An entry with a segment yields its item exactly as often as it occurs
      in the input, and no other item is ever produced. */
  lemma {:induction false} WithSegmentsCount(dayEntries: seq<Entry>, dayStart: int, e: Entry, s: Segment)
    ensures multiset(WithSegments(dayEntries, dayStart))[Item(e, s)] ==
              if GetSegment(e, dayStart) == Some(s) then multiset(dayEntries)[e] else 0
    decreases |dayEntries|
  {
    if dayEntries != [] {
      var init, last := dayEntries[..|dayEntries| - 1], dayEntries[|dayEntries| - 1];
      assert dayEntries == init + [last];
      WithSegmentsCount(init, dayStart, e, s);
    }
  }

  /** The items are exactly the input entries that have a segment on the
      day, each paired with its own segment. */
  lemma WithSegmentsMembers(dayEntries: seq<Entry>, dayStart: int)
    ensures forall x :: x in WithSegments(dayEntries, dayStart) <==>
                        x.ev in dayEntries && GetSegment(x.ev, dayStart) == Some(x.seg)
  {
    var r := WithSegments(dayEntries, dayStart);
    forall x ensures x in r <==> x.ev in dayEntries && GetSegment(x.ev, dayStart) == Some(x.seg) {
      WithSegmentsCount(dayEntries, dayStart, x.ev, x.seg);
      assert x == Item(x.ev, x.seg);
      assert x in r <==> x in multiset(r);
      assert x.ev in dayEntries <==> x.ev in multiset(dayEntries);
    }
  }

  /** The day's segments after `.sort((a, b) => a.seg.segStart - b.seg.segStart)`. */
  function SortedSegments(dayEntries: seq<Entry>, dayStart: int): (segs: seq<Item>)
    ensures SortedBy(segs, StartOf)
  {
    SortFacts(WithSegments(dayEntries, dayStart), StartOf);
    Sort(WithSegments(dayEntries, dayStart), StartOf)
  }

  /** The sorted segments are ordered by start, hold exactly the entries that
      have a segment on this day, each as often as it occurs in the input,
      and keep input order among equal starts. */
  lemma SortedSegmentsFacts(dayEntries: seq<Entry>, dayStart: int)
    ensures var segs := SortedSegments(dayEntries, dayStart);
      && SortedBy(segs, StartOf)
      && multiset(segs) == multiset(WithSegments(dayEntries, dayStart))
      && (forall t :: WithKey(segs, StartOf, t) == WithKey(WithSegments(dayEntries, dayStart), StartOf, t))
      && (forall x :: x in segs <==> x.ev in dayEntries && GetSegment(x.ev, dayStart) == Some(x.seg))
      && (forall e, s :: multiset(segs)[Item(e, s)] ==
                         if GetSegment(e, dayStart) == Some(s) then multiset(dayEntries)[e] else 0)
  {
    var plain := WithSegments(dayEntries, dayStart);
    SortFacts(plain, StartOf);
    var segs := SortedSegments(dayEntries, dayStart);
    WithSegmentsMembers(dayEntries, dayStart);
    forall x ensures x in segs <==> x in plain {
      assert x in segs <==> x in multiset(segs);
    }
    forall e, s
      ensures multiset(segs)[Item(e, s)] == if GetSegment(e, dayStart) == Some(s) then multiset(dayEntries)[e] else 0
    {
      WithSegmentsCount(dayEntries, dayStart, e, s);
    }
  }

  /** Ties keep input order: among the segments that start at the same
      instant, those of entries earlier in the input come first. Cutting the
      input anywhere cuts each group of equal starts the same way. */
  lemma TiesKeepInputOrder(a: seq<Entry>, b: seq<Entry>, dayStart: int, t: int)
    ensures WithKey(SortedSegments(a + b, dayStart), StartOf, t) ==
              WithKey(WithSegments(a, dayStart), StartOf, t) + WithKey(WithSegments(b, dayStart), StartOf, t)
  {
    SortedSegmentsFacts(a + b, dayStart);
    WithSegmentsAppend(a, b, dayStart);
    WithKeyAppend(WithSegments(a, dayStart), WithSegments(b, dayStart), StartOf, t);
  }

  /** The strict intersection test of the source: each starts before the
      other ends. */
  predicate Overlaps(a: Segment, b: Segment) {
    a.segStart < b.segEnd && b.segStart < a.segEnd
  }

  /** Segment `i` intersects some other segment of the day. */
  predicate HasOverlap(segs: seq<Item>, i: int)
    requires 0 <= i < |segs|
  {
    exists j :: 0 <= j < |segs| && j != i && Overlaps(segs[i].seg, segs[j].seg)
  }

  /** Every intersecting pair whose first member is before `i` has both
      flags set. */
  ghost predicate PairsFlagged(segs: seq<Item>, flags: seq<bool>, i: int)
    requires |flags| == |segs|
  {
    forall a, b :: 0 <= a < i && a < b < |segs| && Overlaps(segs[a].seg, segs[b].seg) ==> flags[a] && flags[b]
  }

  /** Every flag that is set has an intersecting segment as its witness. */
  ghost predicate FlagsSound(segs: seq<Item>, flags: seq<bool>)
    requires |flags| == |segs|
  {
    forall k :: 0 <= k < |segs| && flags[k] ==> HasOverlap(segs, k)
  }

  lemma PairsFlaggedGrows(segs: seq<Item>, f: seq<bool>, g: seq<bool>, i: int)
    requires |f| == |g| == |segs|
    requires PairsFlagged(segs, f, i)
    requires forall k :: 0 <= k < |segs| && f[k] ==> g[k]
    ensures PairsFlagged(segs, g, i)
  {
  }

  /** The nested loops that fill `hasOverlap`. The inner loop stops at the
      first later segment that starts at or after segment `i`'s end; because
      the segments are ordered by start, no segment after that one can
      intersect segment `i`, so the early exit loses nothing: a flag is set
      exactly when its segment intersects another. */
  method MarkOverlaps(segs: seq<Item>) returns (flags: seq<bool>)
    requires SortedBy(segs, StartOf)
    ensures |flags| == |segs|
    ensures forall i :: 0 <= i < |segs| ==> (flags[i] <==> HasOverlap(segs, i))
  {
    var n := |segs|;
    var hasOverlap := new bool[n](_ => false);
    var i := 0;
    while i < n
      invariant 0 <= i <= n
      invariant PairsFlagged(segs, hasOverlap[..], i)
      invariant FlagsSound(segs, hasOverlap[..])
    {
      ScanLater(segs, hasOverlap, i);
      i := i + 1;
    }
    flags := hasOverlap[..];
    forall k | 0 <= k < n && HasOverlap(segs, k) ensures flags[k] {
      var j :| 0 <= j < n && j != k && Overlaps(segs[k].seg, segs[j].seg);
      if j < k {
        assert Overlaps(segs[j].seg, segs[k].seg);
      }
    }
  }

  /** One pass of the inner loop: compare segment `i` with the segments after
      it, until one starts at or after segment `i`'s end. */
  method ScanLater(segs: seq<Item>, hasOverlap: array<bool>, i: int)
    requires SortedBy(segs, StartOf)
    requires hasOverlap.Length == |segs| && 0 <= i < |segs|
    requires PairsFlagged(segs, hasOverlap[..], i)
    requires FlagsSound(segs, hasOverlap[..])
    modifies hasOverlap
    ensures PairsFlagged(segs, hasOverlap[..], i + 1)
    ensures FlagsSound(segs, hasOverlap[..])
  {
    var n := |segs|;
    var j := i + 1;
    while j < n
      invariant i + 1 <= j <= n
      invariant forall k :: 0 <= k < n && old(hasOverlap[k]) ==> hasOverlap[k]
      invariant forall b :: i < b < j && Overlaps(segs[i].seg, segs[b].seg) ==> hasOverlap[i] && hasOverlap[b]
      invariant FlagsSound(segs, hasOverlap[..])
    {
      label Step:
      if segs[j].seg.segStart >= segs[i].seg.segEnd {
        assert forall b :: j <= b < n ==> StartOf(segs[j]) <= StartOf(segs[b]);
        assert forall b :: j <= b < n ==> !Overlaps(segs[i].seg, segs[b].seg);
        break;
      }
      var overlap := segs[i].seg.segStart < segs[j].seg.segEnd && segs[j].seg.segStart < segs[i].seg.segEnd;
      if overlap {
        FlagPair(segs, hasOverlap[..], i, j);
        hasOverlap[i] := true;
        hasOverlap[j] := true;
        assert hasOverlap[..] == old@Step(hasOverlap[..])[i := true][j := true];
      }
      j := j + 1;
    }
    PairsFlaggedGrows(segs, old(hasOverlap[..]), hasOverlap[..], i);
    ScanComplete(segs, hasOverlap[..], i, j);
  }

  /** Once every later segment that could intersect segment `i` has been
      compared with it, the pairs starting at `i` are flagged too. */
  lemma ScanComplete(segs: seq<Item>, flags: seq<bool>, i: int, j: int)
    requires |flags| == |segs| && 0 <= i < j <= |segs|
    requires PairsFlagged(segs, flags, i)
    requires forall b :: i < b < j && Overlaps(segs[i].seg, segs[b].seg) ==> flags[i] && flags[b]
    requires forall b :: j <= b < |segs| ==> !Overlaps(segs[i].seg, segs[b].seg)
    ensures PairsFlagged(segs, flags, i + 1)
  {
  }

  /** Setting the flags of an intersecting pair keeps every set flag
      witnessed. */
  lemma FlagPair(segs: seq<Item>, flags: seq<bool>, i: int, j: int)
    requires |flags| == |segs| && 0 <= i < |segs| && 0 <= j < |segs| && i != j
    requires Overlaps(segs[i].seg, segs[j].seg)
    requires FlagsSound(segs, flags)
    ensures FlagsSound(segs, flags[i := true][j := true])
  {
    assert Overlaps(segs[j].seg, segs[i].seg);
    assert HasOverlap(segs, i) && HasOverlap(segs, j);
  }

  /** Event `k` follows the column rule: when flagged, it is in column 1
      exactly when an earlier column-0 event is still running at its start. */
  ghost predicate ColumnRuleAt(packed: seq<PackedEvent>, k: int)
    requires 0 <= k < |packed|
  {
    packed[k].overlaps ==>
      (packed[k].col == Some(1) <==>
         exists a :: 0 <= a < k && packed[a].col == Some(0) && packed[a].seg.segEnd > packed[k].seg.segStart)
  }

  /** What the packing loop produces, stated for the whole day: one packed
      event per segment in the same order; no column exactly for the events
      without an overlap; and a flagged event goes to column 1 exactly when an
      earlier column-0 event is still running at its start. */
  ghost predicate PackingSpec(segs: seq<Item>, packed: seq<PackedEvent>) {
    && |packed| == |segs|
    && (forall k :: 0 <= k < |segs| ==> packed[k].ev == segs[k].ev && packed[k].seg == segs[k].seg)
    && (forall k :: 0 <= k < |segs| ==> (packed[k].col == None <==> !packed[k].overlaps))
    && (forall k :: 0 <= k < |segs| ==> ColumnRuleAt(packed, k))
  }

  /** Column-0 events among the first `i` each end by the next one's start. */
  ghost predicate Column0Chain(packed: seq<PackedEvent>) {
    forall a, b :: 0 <= a < b < |packed| && packed[a].col == Some(0) && packed[b].col == Some(0) ==>
      packed[a].seg.segEnd <= packed[b].seg.segStart
  }

  /** `last0` is the most recent column-0 event, or -1 when there is none. */
  ghost predicate LastColumn0(packed: seq<PackedEvent>, last0: int) {
    && -1 <= last0 < |packed|
    && (last0 >= 0 ==> packed[last0].col == Some(0))
    && (forall a :: last0 < a < |packed| ==> packed[a].col != Some(0))
  }

  /** The decision the loop makes for an event starting at `start` (no earlier
      than any event so far) agrees with the column rule: some earlier
      column-0 event is still running exactly when the latest one is. */
  lemma ColumnDecision(packed: seq<PackedEvent>, last0: int, start: int)
    requires Column0Chain(packed) && LastColumn0(packed, last0)
    requires forall a :: 0 <= a < |packed| ==> packed[a].seg.segStart <= start
    ensures (exists a :: 0 <= a < |packed| && packed[a].col == Some(0) && packed[a].seg.segEnd > start)
            <==> (last0 >= 0 && packed[last0].seg.segEnd > start)
  {
    if exists a :: 0 <= a < |packed| && packed[a].col == Some(0) && packed[a].seg.segEnd > start {
      var a :| 0 <= a < |packed| && packed[a].col == Some(0) && packed[a].seg.segEnd > start;
      if a != last0 {
        assert packed[a].seg.segEnd <= packed[last0].seg.segStart;
      }
    }
  }

  lemma AppendKeepsRule(packed: seq<PackedEvent>, x: PackedEvent)
    requires forall k :: 0 <= k < |packed| ==> ColumnRuleAt(packed, k)
    requires ColumnRuleAt(packed + [x], |packed|)
    ensures forall k :: 0 <= k < |packed| + 1 ==> ColumnRuleAt(packed + [x], k)
  {
    var p := packed + [x];
    forall k | 0 <= k < |packed| ensures ColumnRuleAt(p, k) {
      assert forall a :: 0 <= a <= k ==> p[a] == packed[a];
      assert ColumnRuleAt(packed, k);
    }
  }

  /** An event placed in column 0 starts no earlier than every earlier
      column-0 event ends, so the chain of column-0 events grows by it. */
  lemma AppendKeepsChain(packed: seq<PackedEvent>, last0: int, x: PackedEvent)
    requires Column0Chain(packed) && LastColumn0(packed, last0)
    requires x.col == Some(0) ==>
               forall a :: 0 <= a < |packed| && packed[a].col == Some(0) ==> packed[a].seg.segEnd <= x.seg.segStart
    ensures Column0Chain(packed + [x])
    ensures LastColumn0(packed + [x], if x.col == Some(0) then |packed| else last0)
  {
    var p := packed + [x];
    assert forall a :: 0 <= a < |packed| ==> p[a] == packed[a];
  }

  /** The packing loop with its two-slot `colEnd` array. A slot whose
      occupant has ended by the current start is freed; the event then takes
      column 0 unless column 0 is still occupied, in which case it takes
      column 1 whatever occupies column 1. */
  method PackColumns(segs: seq<Item>, flags: seq<bool>) returns (packed: seq<PackedEvent>)
    requires |flags| == |segs|
    requires SortedBy(segs, StartOf)
    ensures PackingSpec(segs, packed)
    ensures forall k :: 0 <= k < |segs| ==> packed[k].overlaps == flags[k]
  {
    var n := |segs|;
    packed := [];
    var colEnd := new Option<int>[2](_ => None);
    ghost var last0 := -1;
    var i := 0;
    while i < n
      invariant 0 <= i <= n && |packed| == i
      invariant forall k :: 0 <= k < i ==>
                  packed[k].ev == segs[k].ev && packed[k].seg == segs[k].seg && packed[k].overlaps == flags[k]
      invariant forall k :: 0 <= k < i ==> (packed[k].col == None <==> !packed[k].overlaps)
      invariant forall k :: 0 <= k < i ==> ColumnRuleAt(packed, k)
      invariant Column0Chain(packed) && LastColumn0(packed, last0)
      invariant colEnd[0] == if last0 < 0 then None else Some(packed[last0].seg.segEnd)
    {
      var ev, seg := segs[i].ev, segs[i].seg;
      var x;
      if !flags[i] {
        x := PackedEvent(ev, seg, None, false);
      } else {
        assert forall a :: 0 <= a < i ==> packed[a].seg.segStart == StartOf(segs[a]) <= StartOf(segs[i]);
        ColumnDecision(packed, last0, seg.segStart);
        if colEnd[0].Some? && colEnd[0].value <= seg.segStart {
          colEnd[0] := None;
        }
        if colEnd[1].Some? && colEnd[1].value <= seg.segStart {
          colEnd[1] := None;
        }
        var col: Column := if colEnd[0].Some? && colEnd[0].value > seg.segStart then 1 else 0;
        colEnd[col] := Some(seg.segEnd);
        x := PackedEvent(ev, seg, Some(col), true);
      }
      assert forall a :: 0 <= a < i ==> (packed + [x])[a] == packed[a];
      assert ColumnRuleAt(packed + [x], i);
      AppendKeepsRule(packed, x);
      AppendKeepsChain(packed, last0, x);
      if x.col == Some(0) {
        last0 := i;
      }
      packed := packed + [x];
      i := i + 1;
    }
  }

  /** The entry and segment of each packed event, in order. */
  function Placed(packed: seq<PackedEvent>): (items: seq<Item>)
    ensures |items| == |packed|
    ensures forall k :: 0 <= k < |packed| ==> items[k] == Item(packed[k].ev, packed[k].seg)
  {
    seq(|packed|, k requires 0 <= k < |packed| => Item(packed[k].ev, packed[k].seg))
  }

  /** `assignColumns(dayEntries, dayStart)`: one packed event for each
      occurrence of an input entry that has a segment on the day, with that
      segment, and for no other entry. */
  method AssignColumns(dayEntries: seq<Entry>, dayStart: int) returns (packed: seq<PackedEvent>)
    ensures var segs := SortedSegments(dayEntries, dayStart);
      && PackingSpec(segs, packed)
      && (forall k :: 0 <= k < |segs| ==> packed[k].overlaps == HasOverlap(segs, k))
    ensures SortedBy(packed, PackedStart)
    ensures forall e, s :: multiset(Placed(packed))[Item(e, s)] ==
                           if GetSegment(e, dayStart) == Some(s) then multiset(dayEntries)[e] else 0
  {
    var segs := SortedSegments(dayEntries, dayStart);
    SortedSegmentsFacts(dayEntries, dayStart);
    var flags := MarkOverlaps(segs);
    packed := PackColumns(segs, flags);
    PlacedIsSegments(segs, packed);
  }

  lemma PlacedIsSegments(segs: seq<Item>, packed: seq<PackedEvent>)
    requires PackingSpec(segs, packed)
    ensures Placed(packed) == segs
  {
    forall k | 0 <= k < |segs|
      ensures Placed(packed)[k] == segs[k]
    {
      assert segs[k] == Item(segs[k].ev, segs[k].seg);
    }
  }

  /** No two column-0 events intersect: each one ends by the time the next
      one starts. */
  lemma Column0NeverIntersects(segs: seq<Item>, packed: seq<PackedEvent>, a: int, b: int)
    requires PackingSpec(segs, packed)
    requires 0 <= a < b < |packed| && packed[a].col == Some(0) && packed[b].col == Some(0)
    ensures packed[a].seg.segEnd <= packed[b].seg.segStart
    ensures !Overlaps(packed[a].seg, packed[b].seg)
  {
    assert packed[b].overlaps && ColumnRuleAt(packed, b);
  }

  /** The first flagged event of the day is placed in column 0. */
  lemma FirstFlaggedTakesColumn0(segs: seq<Item>, packed: seq<PackedEvent>, k: int)
    requires PackingSpec(segs, packed)
    requires 0 <= k < |packed| && packed[k].overlaps
    requires forall a :: 0 <= a < k ==> !packed[a].overlaps
    ensures packed[k].col == Some(0)
  {
    assert ColumnRuleAt(packed, k);
  }

  /** Two segments that intersect each other and nothing else are drawn side
      by side, one per column. */
  lemma TwoOverlappingUseBothColumns(segs: seq<Item>, packed: seq<PackedEvent>)
    requires |segs| == 2 && SortedBy(segs, StartOf)
    requires PackingSpec(segs, packed)
    requires forall k :: 0 <= k < 2 ==> packed[k].overlaps == HasOverlap(segs, k)
    requires Overlaps(segs[0].seg, segs[1].seg)
    ensures packed[0].col == Some(0) && packed[1].col == Some(1)
  {
    assert HasOverlap(segs, 0) && Overlaps(segs[1].seg, segs[0].seg);
    assert HasOverlap(segs, 1);
    assert ColumnRuleAt(packed, 0) && ColumnRuleAt(packed, 1);
  }

  /** Segments that intersect nothing are drawn full width. */
  lemma IsolatedIsFullWidth(segs: seq<Item>, packed: seq<PackedEvent>, k: int)
    requires PackingSpec(segs, packed)
    requires forall i :: 0 <= i < |segs| ==> packed[i].overlaps == HasOverlap(segs, i)
    requires 0 <= k < |segs|
    requires forall j :: 0 <= j < |segs| && j != k ==> !Overlaps(segs[k].seg, segs[j].seg)
    ensures packed[k].col == None && !packed[k].overlaps
  {
  }

  /** The documented limit of two columns: when three segments all intersect
      one another, the second and the third both go to column 1, where they
      are drawn on top of each other. */
  lemma ThirdConcurrentEventSharesColumn1(segs: seq<Item>, packed: seq<PackedEvent>)
    requires |segs| == 3 && SortedBy(segs, StartOf)
    requires PackingSpec(segs, packed)
    requires forall k :: 0 <= k < 3 ==> packed[k].overlaps == HasOverlap(segs, k)
    requires Overlaps(segs[0].seg, segs[1].seg) && Overlaps(segs[0].seg, segs[2].seg)
    requires Overlaps(segs[1].seg, segs[2].seg)
    ensures packed[0].col == Some(0) && packed[1].col == Some(1) && packed[2].col == Some(1)
    ensures Overlaps(packed[1].seg, packed[2].seg)
  {
    assert HasOverlap(segs, 0);
    assert Overlaps(segs[1].seg, segs[0].seg) && HasOverlap(segs, 1);
    assert Overlaps(segs[2].seg, segs[0].seg) && HasOverlap(segs, 2);
    FirstFlaggedTakesColumn0(segs, packed, 0);
    assert ColumnRuleAt(packed, 1) && ColumnRuleAt(packed, 2);
  }

  /** A zero-length segment intersects another exactly when it lies strictly
      inside it; in particular two zero-length segments never intersect. */
  lemma ZeroLengthOverlap(a: Segment, b: Segment)
    requires a.segStart == a.segEnd
    ensures Overlaps(a, b) <==> b.segStart < a.segStart < b.segEnd
    ensures b.segStart == b.segEnd ==> !Overlaps(a, b)
  {
  }
}
