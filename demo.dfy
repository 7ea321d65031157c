/** The static demo dashboard over its twenty hard-coded entries: its own two
    chart palettes, the statistics computed over all the entries, and the
    category breakdown. Instants are the entries' GMT timestamps in
    milliseconds. */
module Demo {
  import opened Wrappers
  import opened Text
  import opened Entries
  import opened Breakdown
  import opened Charts
  import opened Dashboard
  import opened DemoEntries

  const LightChartPalette: seq<string> := ["#a3b18a", "#9EA479", "#899063", "#354024", "#3A3D29"]

  const DarkChartPalette: seq<string> := [
      "#00111c", "#001523", "#001a2c", "#002137", "#00253e",
      "#002945", "#002e4e", "#003356", "#003a61", "#00406c"
    ]

  /** Seconds over a list of four categories. */
  lemma SecondsOverFour(a: string, b: string, c: string, d: string, es: seq<Entry>)
    ensures SecondsOver([a, b, c, d], es) ==
              CategorySeconds(es, a) + CategorySeconds(es, b) + CategorySeconds(es, c) + CategorySeconds(es, d)
  {
    var keys := [a, b, c, d];
    assert keys[..3] == [a, b, c] && [a, b, c][..2] == [a, b] && [a, b][..1] == [a] && [a][..0] == [];
    assert SecondsOver([a], es) == CategorySeconds(es, a);
    assert SecondsOver([a, b], es) == SecondsOver([a], es) + CategorySeconds(es, b);
    assert SecondsOver([a, b, c], es) == SecondsOver([a, b], es) + CategorySeconds(es, c);
  }

  /** `totalSeconds`: 190 800 seconds, that is 53 hours. */
  lemma DemoTotal()
    ensures SumDurations(DemoData) == 190800
  {
    DemoGrouping();
    CategoriesConserveSeconds(DemoData);
    SecondsOverFour("Exercise", "Reading", "Work", "Study", DemoData);
  }

  /** `longestSession`: `Math.max` over the durations is entry 19's 14 400
      seconds. `Math.max` is applied without an emptiness guard, which is
      safe because the data is not empty. */
  lemma DemoLongest()
    ensures SpreadMax(Durations(DemoData)) == Finite(14400)
    ensures DemoData[6].id == 19 && DemoData[6].durationSeconds == 14400
  {
    DemoDataShape();
    var ds := Durations(DemoData);
    assert ds[6] == 14400;
    forall i | 0 <= i < |ds| ensures ds[i] <= 14400 {
    }
  }

  /** The demo's cards: 190 800 seconds in twenty sessions, the longest of
      14 400 seconds. */
  lemma DemoStats()
    ensures StatsOf(DemoData) == Stats(190800, 20, 14400)
  {
    DemoTotal();
    DemoLongest();
  }

  /** `categoryBreakdown` of the demo, in the theme's palette. */
  method DemoBreakdown(isDark: bool) returns (rows: seq<Row>)
    ensures rows == Rows(DemoData, Palette(isDark, LightChartPalette, DarkChartPalette))
  {
    var palette := if isDark then DarkChartPalette else LightChartPalette;
    rows := CategoryBreakdown(DemoData, palette);
  }

  /** None of the demo's categories looks like an array index, so
      `Object.entries` lists them in insertion order. */
  lemma DemoOrder()
    ensures EntriesOrder(Categories(DemoData)) == ["Exercise", "Reading", "Work", "Study"]
  {
    DemoGrouping();
    var cats := Categories(DemoData);
    assert !IsDigit(cats[0][0]) && !IsDigit(cats[1][0]) && !IsDigit(cats[2][0]) && !IsDigit(cats[3][0]);
    assert forall k :: k in cats ==> !IsArrayIndex(k);
    EntriesOrderFacts(cats);
  }

  /** The rows for four listed categories. */
  lemma RowsOfFour(order: seq<string>, seconds: map<string, int>, palette: seq<string>)
    requires |order| == 4 && |palette| >= 4
    requires forall c :: c in order ==> c in seconds
    ensures RowsOf(order, seconds, palette) == [
              Row(order[0], seconds[order[0]] as real / 3600.0, palette[0]),
              Row(order[1], seconds[order[1]] as real / 3600.0, palette[1]),
              Row(order[2], seconds[order[2]] as real / 3600.0, palette[2]),
              Row(order[3], seconds[order[3]] as real / 3600.0, palette[3])
            ]
  {
  }

  /** The demo's four bars: Exercise, Reading, Work and Study in that order,
      with their hours, coloured by the first four entries of the palette of
      the theme. */
  lemma DemoRows(isDark: bool)
    ensures var palette := Palette(isDark, LightChartPalette, DarkChartPalette);
      Rows(DemoData, palette) == [
        Row("Exercise", 39180.0 / 3600.0, palette[0]),
        Row("Reading", 10680.0 / 3600.0, palette[1]),
        Row("Work", 67140.0 / 3600.0, palette[2]),
        Row("Study", 73800.0 / 3600.0, palette[3])
      ]
  {
    DemoGrouping();
    DemoOrder();
    var order := ["Exercise", "Reading", "Work", "Study"];
    var seconds := SecondsByCategory(DemoData);
    assert forall c :: c in order ==> c in Categories(DemoData);
    RowsOfFour(order, seconds, Palette(isDark, LightChartPalette, DarkChartPalette));
  }

  /** Examples of the duration text: four hours exactly, and the Exercise
      total of 10 h 53 min. */
  lemma DemoDurationText()
    ensures FormatDuration(14400) == "4h 0m"
    ensures FormatDuration(39180) == "10h 53m"
  {
  }
}
