/** The two chart components of the dashboard: the bar chart of hours per
    category and the pie chart, with the pie chart's total, its slice labels
    and its tooltip percentages. The light and dark palettes they import are
    parameters here. */
module Charts {
  import opened Wrappers
  import opened Entries
  import opened Breakdown

  /** `isDark ? DARK_PALETTE : LIGHT_PALETTE`. */
  function Palette(isDark: bool, light: seq<string>, dark: seq<string>): (p: seq<string>)
    ensures p == dark <==> isDark || light == dark
  {
    if isDark then dark else light
  }

  /** The bar chart's `data`: the category breakdown of `entries`, coloured
      from the palette of the current theme. */
  method BarChartData(entries: seq<Entry>, isDark: bool, light: seq<string>, dark: seq<string>)
    returns (data: seq<Row>)
    requires |light| > 0 && |dark| > 0
    ensures data == Rows(entries, Palette(isDark, light, dark))
  {
    var palette := if isDark then dark else light;
    data := CategoryBreakdown(entries, palette);
  }

  /** The pie chart's `data`, the same breakdown from its own grouping loop,
      and its `totalHours`, which is the entries' total time in hours. */
  method PieChartData(entries: seq<Entry>, isDark: bool, light: seq<string>, dark: seq<string>)
    returns (data: seq<Row>, totalHours: real)
    requires |light| > 0 && |dark| > 0
    ensures data == Rows(entries, Palette(isDark, light, dark))
    ensures totalHours == SumDurations(entries) as real / 3600.0
  {
    var palette := if isDark then dark else light;
    data := CategoryBreakdown(entries, palette);
    totalHours := 0.0;
    var i := 0;
    while i < |data|
      invariant 0 <= i <= |data|
      invariant totalHours == TotalHours(data[..i])
    {
      assert data[..i + 1][..i] == data[..i];
      totalHours := totalHours + data[i].hours;
      i := i + 1;
    }
    assert data[..i] == data;
    PieTotalIsEntriesTotal(entries, palette);
  }

  /** In either theme, row `k` of a chart is coloured with entry
      `k % length` of that theme's palette. */
  lemma ThemeColours(entries: seq<Entry>, isDark: bool, light: seq<string>, dark: seq<string>, k: int)
    requires |light| > 0 && |dark| > 0
    requires 0 <= k < |Rows(entries, Palette(isDark, light, dark))|
    ensures isDark ==> Rows(entries, Palette(isDark, light, dark))[k].fill == dark[k % |dark|]
    ensures !isDark ==> Rows(entries, Palette(isDark, light, dark))[k].fill == light[k % |light|]
  {
    RowContents(entries, Palette(isDark, light, dark), k);
  }

  /** `totalHours`: `data.reduce((sum, d) => sum + d.hours, 0)`. */
  function TotalHours(data: seq<Row>): (t: real)
    ensures (forall i :: 0 <= i < |data| ==> data[i].hours >= 0.0) ==> t >= 0.0
  {
    if data == [] then 0.0 else TotalHours(data[..|data| - 1]) + data[|data| - 1].hours
  }

  lemma {:induction false} TotalHoursIsHoursSum(data: seq<Row>)
    ensures TotalHours(data) == HoursSum(data)
  {
    if data != [] {
      TotalHoursIsHoursSum(data[..|data| - 1]);
    }
  }

  /** The pie's total is the total time of all entries, in hours. */
  lemma PieTotalIsEntriesTotal(entries: seq<Entry>, palette: seq<string>)
    requires |palette| > 0
    ensures TotalHours(Rows(entries, palette)) == SumDurations(entries) as real / 3600.0
  {
    TotalHoursIsHoursSum(Rows(entries, palette));
    RowsConserveHours(entries, palette);
  }

  /** `renderLabel`: no label when the total is zero or the slice is not
      positive, and none for a slice under 3% of the total; otherwise the
      label shows the slice's share in percent. */
  function RenderLabel(value: real, totalHours: real): (shown: Option<real>)
    ensures shown.Some? <==> totalHours != 0.0 && value > 0.0 && value / totalHours * 100.0 >= 3.0
    ensures shown.Some? ==> shown.value == value / totalHours * 100.0
  {
    if totalHours == 0.0 || value <= 0.0 then None
    else
      var percent := (value / totalHours) * 100.0;
      if percent < 3.0 then None else Some(percent)
  }

  /** `tooltipFormatter`'s percentage: the slice's share of the total, or 0
      when the total is not positive. */
  function TooltipPercent(value: real, totalHours: real): (pct: real)
    ensures totalHours <= 0.0 ==> pct == 0.0
    ensures totalHours > 0.0 ==> pct * totalHours == value * 100.0
  {
    if totalHours > 0.0 then (value / totalHours) * 100.0 else 0.0
  }

  /** A slice is never larger than the whole when no slice is negative. */
  lemma {:induction false} SliceAtMostTotal(data: seq<Row>, i: int)
    requires forall k :: 0 <= k < |data| ==> data[k].hours >= 0.0
    requires 0 <= i < |data|
    ensures data[i].hours <= TotalHours(data)
  {
    var init := data[..|data| - 1];
    if i < |data| - 1 {
      SliceAtMostTotal(init, i);
    }
  }

  /** With no negative slice, a label shown for a slice of the pie reads
      between 3% and 100%. */
  lemma LabelWithinRange(data: seq<Row>, i: int)
    requires forall k :: 0 <= k < |data| ==> data[k].hours >= 0.0
    requires 0 <= i < |data|
    requires RenderLabel(data[i].hours, TotalHours(data)).Some?
    ensures 3.0 <= RenderLabel(data[i].hours, TotalHours(data)).value <= 100.0
  {
    SliceAtMostTotal(data, i);
    ShareAtMostOne(data[i].hours, TotalHours(data));
  }

  lemma ShareAtMostOne(v: real, t: real)
    requires 0.0 <= v <= t && t > 0.0
    ensures v / t * 100.0 <= 100.0
  {
    var q := v / t;
    assert q * t == v;
    assert (1.0 - q) * t == t - v;
  }

  /** The tooltip percentages of the slices, added up. */
  function PercentSum(data: seq<Row>, totalHours: real): real {
    if data == [] then 0.0
    else PercentSum(data[..|data| - 1], totalHours) + TooltipPercent(data[|data| - 1].hours, totalHours)
  }

  /** Shares of one total add up: the share of `x` plus the share of `y` is
      the share of `x + y`. */
  lemma SharesAdd(x: real, y: real, t: real)
    ensures TooltipPercent(x, t) + TooltipPercent(y, t) == TooltipPercent(x + y, t)
  {
    if t > 0.0 {
      assert (x + y) / t == x / t + y / t;
    }
  }

  /** The percentages of a list of slices add up to the share of their
      combined hours. */
  lemma {:induction false} PercentSumIsShare(data: seq<Row>, totalHours: real)
    ensures PercentSum(data, totalHours) == TooltipPercent(TotalHours(data), totalHours)
  {
    if data != [] {
      var init, last := data[..|data| - 1], data[|data| - 1].hours;
      PercentSumIsShare(init, totalHours);
      SharesAdd(TotalHours(init), last, totalHours);
    }
  }

  /** The tooltip percentages of all slices add up to 100 whenever there is
      any time at all. */
  lemma TooltipPercentsSumTo100(data: seq<Row>)
    requires TotalHours(data) > 0.0
    ensures PercentSum(data, TotalHours(data)) == 100.0
  {
    PercentSumIsShare(data, TotalHours(data));
    WholeShare(TotalHours(data));
  }

  /** The whole is 100% of itself. */
  lemma WholeShare(t: real)
    requires t > 0.0
    ensures TooltipPercent(t, t) == 100.0
  {
    assert t / t == 1.0;
  }

  /** An empty pie has no labels and shows 0% in every tooltip. */
  lemma EmptyPie(data: seq<Row>, i: int)
    requires TotalHours(data) == 0.0 && 0 <= i < |data|
    ensures RenderLabel(data[i].hours, TotalHours(data)) == None
    ensures TooltipPercent(data[i].hours, TotalHours(data)) == 0.0
  {
  }
}
