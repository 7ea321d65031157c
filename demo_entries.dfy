/** The demo dashboard's twenty hard-coded entries and what grouping them
    by category yields. Instants are the entries' GMT timestamps in
    milliseconds. */
module DemoEntries {
  import opened Entries
  import opened Breakdown

  /** `DEMO_DATA.entries`, in the order written. */
  const DemoData: seq<Entry> := [
      Entry(17, "Exercise", 14100, 1771197459000, 1771211559000),
      Entry(12, "Reading", 7320, 1771238528000, 1771245848000),
      Entry(41, "Work", 10440, 1771238990000, 1771249430000),
      Entry(42, "Study", 10920, 1771250345000, 1771261265000),
      Entry(46, "Work", 9180, 1771305714000, 1771314894000),
      Entry(18, "Exercise", 10260, 1771311325000, 1771321585000),
      Entry(19, "Work", 14400, 1771427936000, 1771442336000),
      Entry(20, "Study", 13080, 1771446015000, 1771459095000),
      Entry(44, "Study", 13440, 1771455776000, 1771469216000),
      Entry(48, "Study", 10440, 1771475493000, 1771485933000),
      Entry(45, "Exercise", 9300, 1771495873000, 1771505173000),
      Entry(15, "Reading", 3360, 1771513024000, 1771516384000),
      Entry(43, "Exercise", 5520, 1771522090000, 1771527610000),
      Entry(49, "Work", 12720, 1771558604000, 1771571324000),
      Entry(14, "Work", 5400, 1771573975000, 1771579375000),
      Entry(50, "Study", 9840, 1771610837000, 1771620677000),
      Entry(47, "Study", 4500, 1771626531000, 1771631031000),
      Entry(13, "Work", 1800, 1771673475000, 1771675275000),
      Entry(16, "Work", 13200, 1771701331000, 1771714531000),
      Entry(11, "Study", 11580, 1771730109000, 1771741689000)
    ]

  /** After the first `k` entries of `es` the grouping has met the
      categories `cats`, in this order, with these seconds for the four demo
      categories. */
  ghost predicate GroupedAt(es: seq<Entry>, k: nat, cats: seq<string>,
                            exercise: int, reading: int, work: int, study: int)
    requires k <= |es|
  {
    var prefix := es[..k];
    && Categories(prefix) == cats
    && CategorySeconds(prefix, "Exercise") == exercise
    && CategorySeconds(prefix, "Reading") == reading
    && CategorySeconds(prefix, "Work") == work
    && CategorySeconds(prefix, "Study") == study
  }

  /** The grouping loop's body applied to entry `k` of `es`, whose category
      is `c` and whose duration is `d`. */
  lemma GroupingStep(es: seq<Entry>, k: nat, cats: seq<string>, exercise: int, reading: int, work: int, study: int,
                     c: string, d: int,
                     cats': seq<string>, exercise': int, reading': int, work': int, study': int)
    requires k < |es| && GroupedAt(es, k, cats, exercise, reading, work, study)
    requires es[k].category == c && es[k].durationSeconds == d
    requires cats' == if c in cats then cats else cats + [c]
    requires exercise' == exercise + (if c == "Exercise" then d else 0)
    requires reading' == reading + (if c == "Reading" then d else 0)
    requires work' == work + (if c == "Work" then d else 0)
    requires study' == study + (if c == "Study" then d else 0)
    ensures GroupedAt(es, k + 1, cats', exercise', reading', work', study')
  {
    PrefixStep(es, k);
    PrefixSeconds(es, k, "Exercise");
    PrefixSeconds(es, k, "Reading");
    PrefixSeconds(es, k, "Work");
    PrefixSeconds(es, k, "Study");
  }

  /** The category and duration of each of twenty entries, as in the demo
      data; the grouping below is worked out for any such sequence. */
  ghost predicate DemoShape(es: seq<Entry>) {
    && |es| == 20
    && es[0].category == "Exercise" && es[0].durationSeconds == 14100
    && es[1].category == "Reading" && es[1].durationSeconds == 7320
    && es[2].category == "Work" && es[2].durationSeconds == 10440
    && es[3].category == "Study" && es[3].durationSeconds == 10920
    && es[4].category == "Work" && es[4].durationSeconds == 9180
    && es[5].category == "Exercise" && es[5].durationSeconds == 10260
    && es[6].category == "Work" && es[6].durationSeconds == 14400
    && es[7].category == "Study" && es[7].durationSeconds == 13080
    && es[8].category == "Study" && es[8].durationSeconds == 13440
    && es[9].category == "Study" && es[9].durationSeconds == 10440
    && es[10].category == "Exercise" && es[10].durationSeconds == 9300
    && es[11].category == "Reading" && es[11].durationSeconds == 3360
    && es[12].category == "Exercise" && es[12].durationSeconds == 5520
    && es[13].category == "Work" && es[13].durationSeconds == 12720
    && es[14].category == "Work" && es[14].durationSeconds == 5400
    && es[15].category == "Study" && es[15].durationSeconds == 9840
    && es[16].category == "Study" && es[16].durationSeconds == 4500
    && es[17].category == "Work" && es[17].durationSeconds == 1800
    && es[18].category == "Work" && es[18].durationSeconds == 13200
    && es[19].category == "Study" && es[19].durationSeconds == 11580
  }

  /** The demo data has that shape. */
  lemma DemoDataShape()
    ensures DemoShape(DemoData)
  {
    DemoDataFirstHalf();
    DemoDataSecondHalf();
  }

  lemma DemoDataFirstHalf()
    ensures |DemoData| == 20
    ensures DemoData[0].category == "Exercise" && DemoData[0].durationSeconds == 14100
    ensures DemoData[1].category == "Reading" && DemoData[1].durationSeconds == 7320
    ensures DemoData[2].category == "Work" && DemoData[2].durationSeconds == 10440
    ensures DemoData[3].category == "Study" && DemoData[3].durationSeconds == 10920
    ensures DemoData[4].category == "Work" && DemoData[4].durationSeconds == 9180
    ensures DemoData[5].category == "Exercise" && DemoData[5].durationSeconds == 10260
    ensures DemoData[6].category == "Work" && DemoData[6].durationSeconds == 14400
    ensures DemoData[7].category == "Study" && DemoData[7].durationSeconds == 13080
    ensures DemoData[8].category == "Study" && DemoData[8].durationSeconds == 13440
    ensures DemoData[9].category == "Study" && DemoData[9].durationSeconds == 10440
  {
  }

  lemma DemoDataSecondHalf()
    ensures DemoData[10].category == "Exercise" && DemoData[10].durationSeconds == 9300
    ensures DemoData[11].category == "Reading" && DemoData[11].durationSeconds == 3360
    ensures DemoData[12].category == "Exercise" && DemoData[12].durationSeconds == 5520
    ensures DemoData[13].category == "Work" && DemoData[13].durationSeconds == 12720
    ensures DemoData[14].category == "Work" && DemoData[14].durationSeconds == 5400
    ensures DemoData[15].category == "Study" && DemoData[15].durationSeconds == 9840
    ensures DemoData[16].category == "Study" && DemoData[16].durationSeconds == 4500
    ensures DemoData[17].category == "Work" && DemoData[17].durationSeconds == 1800
    ensures DemoData[18].category == "Work" && DemoData[18].durationSeconds == 13200
    ensures DemoData[19].category == "Study" && DemoData[19].durationSeconds == 11580
  {
  }

  /** The grouping after each demo entry. */
  lemma DemoGroupedAfter1(es: seq<Entry>)
    requires DemoShape(es)
    ensures GroupedAt(es, 1, ["Exercise"], 14100, 0, 0, 0)
  {
    assert es[..0] == [];
    GroupingStep(es, 0, [], 0, 0, 0, 0, "Exercise", 14100,
                 ["Exercise"], 14100, 0, 0, 0);
  }

  lemma DemoGroupedAfter2(es: seq<Entry>)
    requires DemoShape(es)
    ensures GroupedAt(es, 2, ["Exercise", "Reading"], 14100, 7320, 0, 0)
  {
    DemoGroupedAfter1(es);
    GroupingStep(es, 1, ["Exercise"], 14100, 0, 0, 0, "Reading", 7320,
                 ["Exercise", "Reading"], 14100, 7320, 0, 0);
  }

  lemma DemoGroupedAfter3(es: seq<Entry>)
    requires DemoShape(es)
    ensures GroupedAt(es, 3, ["Exercise", "Reading", "Work"], 14100, 7320, 10440, 0)
  {
    DemoGroupedAfter2(es);
    GroupingStep(es, 2, ["Exercise", "Reading"], 14100, 7320, 0, 0, "Work", 10440,
                 ["Exercise", "Reading", "Work"], 14100, 7320, 10440, 0);
  }

  lemma DemoGroupedAfter4(es: seq<Entry>)
    requires DemoShape(es)
    ensures GroupedAt(es, 4, ["Exercise", "Reading", "Work", "Study"], 14100, 7320, 10440, 10920)
  {
    DemoGroupedAfter3(es);
    GroupingStep(es, 3, ["Exercise", "Reading", "Work"], 14100, 7320, 10440, 0, "Study", 10920,
                 ["Exercise", "Reading", "Work", "Study"], 14100, 7320, 10440, 10920);
  }

  lemma DemoGroupedAfter5(es: seq<Entry>)
    requires DemoShape(es)
    ensures GroupedAt(es, 5, ["Exercise", "Reading", "Work", "Study"], 14100, 7320, 19620, 10920)
  {
    DemoGroupedAfter4(es);
    GroupingStep(es, 4, ["Exercise", "Reading", "Work", "Study"], 14100, 7320, 10440, 10920, "Work", 9180,
                 ["Exercise", "Reading", "Work", "Study"], 14100, 7320, 19620, 10920);
  }

  lemma DemoGroupedAfter6(es: seq<Entry>)
    requires DemoShape(es)
    ensures GroupedAt(es, 6, ["Exercise", "Reading", "Work", "Study"], 24360, 7320, 19620, 10920)
  {
    DemoGroupedAfter5(es);
    GroupingStep(es, 5, ["Exercise", "Reading", "Work", "Study"], 14100, 7320, 19620, 10920, "Exercise", 10260,
                 ["Exercise", "Reading", "Work", "Study"], 24360, 7320, 19620, 10920);
  }

  lemma DemoGroupedAfter7(es: seq<Entry>)
    requires DemoShape(es)
    ensures GroupedAt(es, 7, ["Exercise", "Reading", "Work", "Study"], 24360, 7320, 34020, 10920)
  {
    DemoGroupedAfter6(es);
    GroupingStep(es, 6, ["Exercise", "Reading", "Work", "Study"], 24360, 7320, 19620, 10920, "Work", 14400,
                 ["Exercise", "Reading", "Work", "Study"], 24360, 7320, 34020, 10920);
  }

  lemma DemoGroupedAfter8(es: seq<Entry>)
    requires DemoShape(es)
    ensures GroupedAt(es, 8, ["Exercise", "Reading", "Work", "Study"], 24360, 7320, 34020, 24000)
  {
    DemoGroupedAfter7(es);
    GroupingStep(es, 7, ["Exercise", "Reading", "Work", "Study"], 24360, 7320, 34020, 10920, "Study", 13080,
                 ["Exercise", "Reading", "Work", "Study"], 24360, 7320, 34020, 24000);
  }

  lemma DemoGroupedAfter9(es: seq<Entry>)
    requires DemoShape(es)
    ensures GroupedAt(es, 9, ["Exercise", "Reading", "Work", "Study"], 24360, 7320, 34020, 37440)
  {
    DemoGroupedAfter8(es);
    GroupingStep(es, 8, ["Exercise", "Reading", "Work", "Study"], 24360, 7320, 34020, 24000, "Study", 13440,
                 ["Exercise", "Reading", "Work", "Study"], 24360, 7320, 34020, 37440);
  }

  lemma DemoGroupedAfter10(es: seq<Entry>)
    requires DemoShape(es)
    ensures GroupedAt(es, 10, ["Exercise", "Reading", "Work", "Study"], 24360, 7320, 34020, 47880)
  {
    DemoGroupedAfter9(es);
    GroupingStep(es, 9, ["Exercise", "Reading", "Work", "Study"], 24360, 7320, 34020, 37440, "Study", 10440,
                 ["Exercise", "Reading", "Work", "Study"], 24360, 7320, 34020, 47880);
  }

  lemma DemoGroupedAfter11(es: seq<Entry>)
    requires DemoShape(es)
    ensures GroupedAt(es, 11, ["Exercise", "Reading", "Work", "Study"], 33660, 7320, 34020, 47880)
  {
    DemoGroupedAfter10(es);
    GroupingStep(es, 10, ["Exercise", "Reading", "Work", "Study"], 24360, 7320, 34020, 47880, "Exercise", 9300,
                 ["Exercise", "Reading", "Work", "Study"], 33660, 7320, 34020, 47880);
  }

  lemma DemoGroupedAfter12(es: seq<Entry>)
    requires DemoShape(es)
    ensures GroupedAt(es, 12, ["Exercise", "Reading", "Work", "Study"], 33660, 10680, 34020, 47880)
  {
    DemoGroupedAfter11(es);
    GroupingStep(es, 11, ["Exercise", "Reading", "Work", "Study"], 33660, 7320, 34020, 47880, "Reading", 3360,
                 ["Exercise", "Reading", "Work", "Study"], 33660, 10680, 34020, 47880);
  }

  lemma DemoGroupedAfter13(es: seq<Entry>)
    requires DemoShape(es)
    ensures GroupedAt(es, 13, ["Exercise", "Reading", "Work", "Study"], 39180, 10680, 34020, 47880)
  {
    DemoGroupedAfter12(es);
    GroupingStep(es, 12, ["Exercise", "Reading", "Work", "Study"], 33660, 10680, 34020, 47880, "Exercise", 5520,
                 ["Exercise", "Reading", "Work", "Study"], 39180, 10680, 34020, 47880);
  }

  lemma DemoGroupedAfter14(es: seq<Entry>)
    requires DemoShape(es)
    ensures GroupedAt(es, 14, ["Exercise", "Reading", "Work", "Study"], 39180, 10680, 46740, 47880)
  {
    DemoGroupedAfter13(es);
    GroupingStep(es, 13, ["Exercise", "Reading", "Work", "Study"], 39180, 10680, 34020, 47880, "Work", 12720,
                 ["Exercise", "Reading", "Work", "Study"], 39180, 10680, 46740, 47880);
  }

  lemma DemoGroupedAfter15(es: seq<Entry>)
    requires DemoShape(es)
    ensures GroupedAt(es, 15, ["Exercise", "Reading", "Work", "Study"], 39180, 10680, 52140, 47880)
  {
    DemoGroupedAfter14(es);
    GroupingStep(es, 14, ["Exercise", "Reading", "Work", "Study"], 39180, 10680, 46740, 47880, "Work", 5400,
                 ["Exercise", "Reading", "Work", "Study"], 39180, 10680, 52140, 47880);
  }

  lemma DemoGroupedAfter16(es: seq<Entry>)
    requires DemoShape(es)
    ensures GroupedAt(es, 16, ["Exercise", "Reading", "Work", "Study"], 39180, 10680, 52140, 57720)
  {
    DemoGroupedAfter15(es);
    GroupingStep(es, 15, ["Exercise", "Reading", "Work", "Study"], 39180, 10680, 52140, 47880, "Study", 9840,
                 ["Exercise", "Reading", "Work", "Study"], 39180, 10680, 52140, 57720);
  }

  lemma DemoGroupedAfter17(es: seq<Entry>)
    requires DemoShape(es)
    ensures GroupedAt(es, 17, ["Exercise", "Reading", "Work", "Study"], 39180, 10680, 52140, 62220)
  {
    DemoGroupedAfter16(es);
    GroupingStep(es, 16, ["Exercise", "Reading", "Work", "Study"], 39180, 10680, 52140, 57720, "Study", 4500,
                 ["Exercise", "Reading", "Work", "Study"], 39180, 10680, 52140, 62220);
  }

  lemma DemoGroupedAfter18(es: seq<Entry>)
    requires DemoShape(es)
    ensures GroupedAt(es, 18, ["Exercise", "Reading", "Work", "Study"], 39180, 10680, 53940, 62220)
  {
    DemoGroupedAfter17(es);
    GroupingStep(es, 17, ["Exercise", "Reading", "Work", "Study"], 39180, 10680, 52140, 62220, "Work", 1800,
                 ["Exercise", "Reading", "Work", "Study"], 39180, 10680, 53940, 62220);
  }

  lemma DemoGroupedAfter19(es: seq<Entry>)
    requires DemoShape(es)
    ensures GroupedAt(es, 19, ["Exercise", "Reading", "Work", "Study"], 39180, 10680, 67140, 62220)
  {
    DemoGroupedAfter18(es);
    GroupingStep(es, 18, ["Exercise", "Reading", "Work", "Study"], 39180, 10680, 53940, 62220, "Work", 13200,
                 ["Exercise", "Reading", "Work", "Study"], 39180, 10680, 67140, 62220);
  }

  lemma DemoGroupedAfter20(es: seq<Entry>)
    requires DemoShape(es)
    ensures GroupedAt(es, 20, ["Exercise", "Reading", "Work", "Study"], 39180, 10680, 67140, 73800)
  {
    DemoGroupedAfter19(es);
    GroupingStep(es, 19, ["Exercise", "Reading", "Work", "Study"], 39180, 10680, 67140, 62220, "Study", 11580,
                 ["Exercise", "Reading", "Work", "Study"], 39180, 10680, 67140, 73800);
  }

  /** The categories of any sequence of that shape, in order of first
      occurrence, and the seconds of each. */
  lemma ShapedGrouping(es: seq<Entry>)
    requires DemoShape(es)
    ensures Categories(es) == ["Exercise", "Reading", "Work", "Study"]
    ensures CategorySeconds(es, "Exercise") == 39180
    ensures CategorySeconds(es, "Reading") == 10680
    ensures CategorySeconds(es, "Work") == 67140
    ensures CategorySeconds(es, "Study") == 73800
  {
    DemoGroupedAfter20(es);
    assert es[..20] == es;
  }

  /** The demo's categories, in order of first occurrence, and the seconds
      of each. */
  lemma DemoGrouping()
    ensures Categories(DemoData) == ["Exercise", "Reading", "Work", "Study"]
    ensures CategorySeconds(DemoData, "Exercise") == 39180
    ensures CategorySeconds(DemoData, "Reading") == 10680
    ensures CategorySeconds(DemoData, "Work") == 67140
    ensures CategorySeconds(DemoData, "Study") == 73800
  {
    DemoDataShape();
    ShapedGrouping(DemoData);
  }
}
