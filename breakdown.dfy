/** The category breakdown that the dashboard, the bar chart, the pie chart
    and the demo page each compute: group the entries by category into a
    plain object, summing `duration_seconds`, then turn `Object.entries` of
    that object into chart rows coloured by palette index. */
module Breakdown {
  import opened Entries
  import opened Text
  import opened StableSort

  /** No value occurs twice. */
  ghost predicate Distinct(s: seq<string>) {
    forall x :: multiset(s)[x] <= 1
  }

  lemma DistinctIndices(s: seq<string>, i: int, j: int)
    requires Distinct(s) && 0 <= i < j < |s|
    ensures s[i] != s[j]
  {
    var x := s[i];
    assert s == s[..j] + [s[j]] + s[j + 1..];
    assert s[..j][i] == x;
    assert multiset(s)[x] == multiset(s[..j])[x] + multiset([s[j]])[x] + multiset(s[j + 1..])[x];
    assert multiset(s)[x] >= 1 + (if s[j] == x then 1 else 0);
  }

  /** The category names that occur in `es`. */
  function CategorySet(es: seq<Entry>): set<string> {
    set e | e in es :: e.category
  }

  /** The distinct categories of `es` in the order they first occur: the
      insertion order of the keys of the `grouped` object. */
  function Categories(es: seq<Entry>): (cs: seq<string>)
    ensures Distinct(cs)
    ensures forall c :: c in cs <==> c in CategorySet(es)
  {
    if es == [] then []
    else
      var init, last := es[..|es| - 1], es[|es| - 1];
      assert es == init + [last];
      var cs := Categories(init);
      if last.category in cs then cs else cs + [last.category]
  }

  /** Seconds summed over the entries of category `c`. */
  function CategorySeconds(es: seq<Entry>, c: string): int {
    if es == [] then 0
    else
      var last := es[|es| - 1];
      CategorySeconds(es[..|es| - 1], c) + (if last.category == c then last.durationSeconds else 0)
  }

  /** A category that does not occur accounts for no seconds. */
  lemma {:induction false} AbsentCategorySeconds(es: seq<Entry>, c: string)
    requires c !in CategorySet(es)
    ensures CategorySeconds(es, c) == 0
  {
    if es != [] {
      var init := es[..|es| - 1];
      assert forall e :: e in init ==> e in es;
      AbsentCategorySeconds(init, c);
    }
  }

  /** Index of the first entry of category `c`. */
  function FirstIndex(es: seq<Entry>, c: string): (p: nat)
    requires c in CategorySet(es)
    ensures p < |es| && es[p].category == c
    ensures forall q :: 0 <= q < p ==> es[q].category != c
  {
    var init := es[..|es| - 1];
    if c in CategorySet(init) then
      var p := FirstIndex(init, c);
      p
    else
      assert forall q :: 0 <= q < |init| ==> init[q] in init;
      |es| - 1
  }

  /** The key order is the order of first occurrence. */
  lemma {:induction false} CategoriesFollowFirstOccurrence(es: seq<Entry>, i: int, j: int)
    requires 0 <= i < j < |Categories(es)|
    ensures FirstIndex(es, Categories(es)[i]) < FirstIndex(es, Categories(es)[j])
  {
    var init, last := es[..|es| - 1], es[|es| - 1];
    assert es == init + [last];
    var cs := Categories(init);
    var a, b := Categories(es)[i], Categories(es)[j];
    assert a in CategorySet(es) && b in CategorySet(es);
    if j < |cs| {
      CategoriesFollowFirstOccurrence(init, i, j);
      assert a == cs[i] && b == cs[j];
      assert a in CategorySet(init) && b in CategorySet(init);
    } else {
      assert a == cs[i] && a in CategorySet(init);
      assert b == last.category && b !in CategorySet(init);
    }
  }

  /** The seconds of every category that occurs. */
  function SecondsByCategory(es: seq<Entry>): (m: map<string, int>)
    ensures m.Keys == CategorySet(es)
  {
    map c | c in CategorySet(es) :: CategorySeconds(es, c)
  }

  /** What one more entry does to the categories and their sums. */
  lemma AppendEntry(es: seq<Entry>, e: Entry)
    ensures (es + [e])[..|es|] == es
    ensures Categories(es + [e]) ==
              if e.category in Categories(es) then Categories(es) else Categories(es) + [e.category]
    ensures CategorySet(es + [e]) == CategorySet(es) + {e.category}
    ensures forall c :: CategorySeconds(es + [e], c) ==
              CategorySeconds(es, c) + (if e.category == c then e.durationSeconds else 0)
  {
    var s := es + [e];
    assert s[..|s| - 1] == es;
    assert s[|s| - 1] == e;
    AppendCategorySet(es, e);
  }

  lemma AppendCategorySet(es: seq<Entry>, e: Entry)
    ensures CategorySet(es + [e]) == CategorySet(es) + {e.category}
  {
    forall c | c in CategorySet(es + [e])
      ensures c in CategorySet(es) + {e.category}
    {
      var x :| x in es + [e] && x.category == c;
      if x != e {
        assert x in es;
      }
    }
  }

  /** `AppendEntry` for the prefixes of one sequence: what entry `k` adds
      to the first `k`. */
  lemma PrefixStep(es: seq<Entry>, k: nat)
    requires k < |es|
    ensures Categories(es[..k + 1]) ==
              if es[k].category in Categories(es[..k]) then Categories(es[..k]) else Categories(es[..k]) + [es[k].category]
    ensures CategorySet(es[..k + 1]) == CategorySet(es[..k]) + {es[k].category}
  {
    assert es[..k + 1] == es[..k] + [es[k]];
    AppendEntry(es[..k], es[k]);
  }

  /** The seconds of category `c` after entry `k`. */
  lemma PrefixSeconds(es: seq<Entry>, k: nat, c: string)
    requires k < |es|
    ensures CategorySeconds(es[..k + 1], c) ==
              CategorySeconds(es[..k], c) + (if es[k].category == c then es[k].durationSeconds else 0)
  {
    assert es[..k + 1][..k] == es[..k];
  }

  /** The plain object `grouped`: its own keys in insertion order, and the
      number stored under each. */
  datatype Grouped = Grouped(keys: seq<string>, seconds: map<string, int>)

  /** `keys` and `seconds` are the object after grouping `es`. */
  ghost predicate GroupedSoFar(es: seq<Entry>, keys: seq<string>, seconds: map<string, int>) {
    && keys == Categories(es)
    && seconds.Keys == CategorySet(es)
    && forall c :: c in seconds ==> seconds[c] == CategorySeconds(es, c)
  }

  /** One step of the grouping loop keeps the object in step with the
      entries read so far: reading `entries[k]` into `keys` and `seconds`
      gives `keys'` and `seconds'`. */
  lemma GroupStep(entries: seq<Entry>, k: nat, keys: seq<string>, seconds: map<string, int>,
                  keys': seq<string>, seconds': map<string, int>)
    requires k < |entries| && GroupedSoFar(entries[..k], keys, seconds)
    requires keys' == if entries[k].category in seconds then keys else keys + [entries[k].category]
    requires seconds' == seconds[entries[k].category :=
                                   (if entries[k].category in seconds then seconds[entries[k].category] else 0)
                                   + entries[k].durationSeconds]
    ensures GroupedSoFar(entries[..k + 1], keys', seconds')
  {
    var e := entries[k];
    PrefixStep(entries, k);
    if e.category !in seconds {
      AbsentCategorySeconds(entries[..k], e.category);
    }
    forall c | c in seconds'
      ensures seconds'[c] == CategorySeconds(entries[..k + 1], c)
    {
      PrefixSeconds(entries, k, c);
      if c != e.category {
        assert seconds'[c] == seconds[c];
      }
    }
  }

  lemma GroupedIsSecondsByCategory(es: seq<Entry>, keys: seq<string>, seconds: map<string, int>)
    requires GroupedSoFar(es, keys, seconds)
    ensures seconds == SecondsByCategory(es)
  {
  }

  /** The grouping loop: `grouped[c] = (grouped[c] || 0) + duration_seconds`
      for each entry in turn. A key is added the first time its category is
      met; a stored 0 and a missing key both read as 0. */
  method GroupByCategory(entries: seq<Entry>) returns (grouped: Grouped)
    ensures grouped.keys == Categories(entries)
    ensures grouped.seconds == SecondsByCategory(entries)
  {
    var keys: seq<string> := [];
    var seconds: map<string, int> := map[];
    for k := 0 to |entries|
      invariant GroupedSoFar(entries[..k], keys, seconds)
    {
      var entry := entries[k];
      var previous := if entry.category in seconds then seconds[entry.category] else 0;
      var keys' := keys;
      if entry.category !in seconds {
        keys' := keys + [entry.category];
      }
      var seconds' := seconds[entry.category := previous + entry.durationSeconds];
      GroupStep(entries, k, keys, seconds, keys', seconds');
      keys, seconds := keys', seconds';
    }
    assert entries[..|entries|] == entries;
    GroupedIsSecondsByCategory(entries, keys, seconds);
    grouped := Grouped(keys, seconds);
  }

  /** A canonical array-index string: decimal digits without a leading zero,
      below 2^32 - 1. `Object.entries` lists such keys first, ascending. */
  predicate IsArrayIndex(s: string) {
    && |s| >= 1
    && (forall i :: 0 <= i < |s| ==> IsDigit(s[i]))
    && (|s| == 1 || s[0] != '0')
    && DecimalValue(s) < 0xFFFF_FFFF
  }

  /** The numeric value of an array-index key (0 for any other key). */
  function IndexValue(s: string): int {
    if IsArrayIndex(s) then DecimalValue(s) else 0
  }

  function IndexKeys(keys: seq<string>): (r: seq<string>)
    ensures forall k :: k in r ==> IsArrayIndex(k)
  {
    if keys == [] then []
    else
      var last := keys[|keys| - 1];
      IndexKeys(keys[..|keys| - 1]) + (if IsArrayIndex(last) then [last] else [])
  }

  function NamedKeys(keys: seq<string>): seq<string> {
    if keys == [] then []
    else
      var last := keys[|keys| - 1];
      NamedKeys(keys[..|keys| - 1]) + (if IsArrayIndex(last) then [] else [last])
  }

  lemma {:induction false} SplitKeysPermutes(keys: seq<string>)
    ensures multiset(IndexKeys(keys)) + multiset(NamedKeys(keys)) == multiset(keys)
  {
    if keys != [] {
      var init := keys[..|keys| - 1];
      assert keys == init + [keys[|keys| - 1]];
      SplitKeysPermutes(init);
    }
  }

  lemma {:induction false} NoIndexKeys(keys: seq<string>)
    requires forall k :: k in keys ==> !IsArrayIndex(k)
    ensures IndexKeys(keys) == [] && NamedKeys(keys) == keys
  {
    if keys != [] {
      var init := keys[..|keys| - 1];
      assert keys == init + [keys[|keys| - 1]];
      NoIndexKeys(init);
    }
  }

  /** The order in which `Object.entries` lists the own keys of an object
      whose keys were added in the order `keys`. */
  function EntriesOrder(keys: seq<string>): seq<string> {
    Sort(IndexKeys(keys), IndexValue) + NamedKeys(keys)
  }

  /** `Object.entries` lists every key once: a permutation of the insertion
      order, equal to it when no key looks like an array index. */
  lemma EntriesOrderFacts(keys: seq<string>)
    ensures multiset(EntriesOrder(keys)) == multiset(keys)
    ensures (forall k :: k in keys ==> !IsArrayIndex(k)) ==> EntriesOrder(keys) == keys
  {
    SortFacts(IndexKeys(keys), IndexValue);
    SplitKeysPermutes(keys);
    if forall k :: k in keys ==> !IsArrayIndex(k) {
      NoIndexKeys(keys);
    }
  }

  /** A chart row: `{ category, hours, fill }`. */
  datatype Row = Row(category: string, hours: real, fill: string)

  /** The rows the breakdown yields for `entries` with `palette`; hours are
      exact (the two-decimal rounding of `toFixed(2)` is not modelled). */
  function Rows(entries: seq<Entry>, palette: seq<string>): (rows: seq<Row>)
    requires |palette| > 0
    ensures |rows| == |Categories(entries)|
  {
    var cs := Categories(entries);
    EntriesOrderFacts(cs);
    assert forall c :: c in EntriesOrder(cs) ==> c in multiset(cs);
    RowsOf(EntriesOrder(cs), SecondsByCategory(entries), palette)
  }

  /** The `map` over the listed keys, row `i` coloured with palette entry
      `i % palette.length`. */
  function RowsOf(order: seq<string>, seconds: map<string, int>, palette: seq<string>): (rows: seq<Row>)
    requires |palette| > 0
    requires forall c :: c in order ==> c in seconds
    ensures |rows| == |order|
  {
    seq(|order|, i requires 0 <= i < |order| =>
      Row(order[i], seconds[order[i]] as real / 3600.0, palette[i % |palette|]))
  }

  /** The grouping loop followed by the `map` over `Object.entries(grouped)`. */
  method CategoryBreakdown(entries: seq<Entry>, palette: seq<string>) returns (rows: seq<Row>)
    requires |palette| > 0
    ensures rows == Rows(entries, palette)
  {
    var grouped := GroupByCategory(entries);
    EntriesOrderFacts(grouped.keys);
    assert forall c :: c in EntriesOrder(grouped.keys) ==> c in multiset(grouped.keys);
    rows := RowsOf(EntriesOrder(grouped.keys), grouped.seconds, palette);
  }

  /** The keys `Object.entries` lists are the categories of the entries,
      each once. */
  lemma OrderFacts(entries: seq<Entry>)
    ensures var order := EntriesOrder(Categories(entries));
      && Distinct(order)
      && (forall c :: c in order <==> c in CategorySet(entries))
  {
    var cs := Categories(entries);
    var order := EntriesOrder(cs);
    EntriesOrderFacts(cs);
    assert forall c :: c in order <==> c in multiset(cs);
    assert forall x :: multiset(order)[x] == multiset(cs)[x];
  }

  /** Row `i` is for the `i`-th key `Object.entries` lists. */
  lemma RowsFollowOrder(entries: seq<Entry>, palette: seq<string>)
    requires |palette| > 0
    ensures var rows, order := Rows(entries, palette), EntriesOrder(Categories(entries));
      && |rows| == |order|
      && forall i :: 0 <= i < |rows| ==> rows[i].category == order[i]
  {
  }

  /** One row per distinct category: every category of the entries has a
      row, every row names a category of the entries, and no category has
      two rows. */
  lemma RowsPerCategory(entries: seq<Entry>, palette: seq<string>)
    requires |palette| > 0
    ensures var rows := Rows(entries, palette);
      && (forall e :: e in entries ==> exists i :: 0 <= i < |rows| && rows[i].category == e.category)
      && (forall i :: 0 <= i < |rows| ==> rows[i].category in CategorySet(entries))
      && (forall i, j :: 0 <= i < j < |rows| ==> rows[i].category != rows[j].category)
  {
    EveryCategoryHasARow(entries, palette);
    RowsNameCategories(entries, palette);
    RowsDistinct(entries, palette);
  }

  lemma EveryCategoryHasARow(entries: seq<Entry>, palette: seq<string>)
    requires |palette| > 0
    ensures var rows := Rows(entries, palette);
      forall e :: e in entries ==> exists i :: 0 <= i < |rows| && rows[i].category == e.category
  {
    var rows := Rows(entries, palette);
    var order := EntriesOrder(Categories(entries));
    RowsFollowOrder(entries, palette);
    OrderFacts(entries);
    forall e | e in entries ensures exists i :: 0 <= i < |rows| && rows[i].category == e.category {
      assert e.category in CategorySet(entries);
      var i :| 0 <= i < |order| && order[i] == e.category;
      assert rows[i].category == e.category;
    }
  }

  lemma RowsNameCategories(entries: seq<Entry>, palette: seq<string>)
    requires |palette| > 0
    ensures var rows := Rows(entries, palette);
      forall i :: 0 <= i < |rows| ==> rows[i].category in CategorySet(entries)
  {
    RowsFollowOrder(entries, palette);
    OrderFacts(entries);
  }

  lemma RowsDistinct(entries: seq<Entry>, palette: seq<string>)
    requires |palette| > 0
    ensures var rows := Rows(entries, palette);
      forall i, j :: 0 <= i < j < |rows| ==> rows[i].category != rows[j].category
  {
    var order := EntriesOrder(Categories(entries));
    RowsFollowOrder(entries, palette);
    OrderFacts(entries);
    forall i, j | 0 <= i < j < |order| ensures order[i] != order[j] {
      DistinctIndices(order, i, j);
    }
  }

  /** A row's hours are its category's seconds over 3600, and row `i` is
      coloured `palette[i % palette.length]`. */
  lemma RowContents(entries: seq<Entry>, palette: seq<string>, i: int)
    requires |palette| > 0 && 0 <= i < |Rows(entries, palette)|
    ensures Rows(entries, palette)[i].hours == CategorySeconds(entries, Rows(entries, palette)[i].category) as real / 3600.0
    ensures Rows(entries, palette)[i].fill == palette[i % |palette|]
  {
    OrderFacts(entries);
  }

  /** When no category looks like an array index, rows come in the order the
      categories first occur in the entries. */
  lemma RowsInFirstOccurrenceOrder(entries: seq<Entry>, palette: seq<string>)
    requires |palette| > 0
    requires forall e :: e in entries ==> !IsArrayIndex(e.category)
    ensures var rows := Rows(entries, palette);
      && |rows| == |Categories(entries)|
      && (forall i :: 0 <= i < |rows| ==> rows[i].category == Categories(entries)[i])
      && (forall i, j :: 0 <= i < j < |rows| ==>
            FirstIndex(entries, rows[i].category) < FirstIndex(entries, rows[j].category))
  {
    var cs := Categories(entries);
    EntriesOrderFacts(cs);
    forall i, j | 0 <= i < j < |cs| ensures FirstIndex(entries, cs[i]) < FirstIndex(entries, cs[j]) {
      CategoriesFollowFirstOccurrence(entries, i, j);
    }
  }

  /** No entries, no rows. */
  lemma NoEntriesNoRows(palette: seq<string>)
    requires |palette| > 0
    ensures Rows([], palette) == []
  {
  }

  /** Sum of the rows' hours. */
  function HoursSum(rows: seq<Row>): real {
    if rows == [] then 0.0 else HoursSum(rows[..|rows| - 1]) + rows[|rows| - 1].hours
  }

  /** Seconds of the categories in `keys`, summed. */
  function SecondsOver(keys: seq<string>, es: seq<Entry>): int {
    if keys == [] then 0 else SecondsOver(keys[..|keys| - 1], es) + CategorySeconds(es, keys[|keys| - 1])
  }

  lemma {:induction false} SecondsOverAppend(a: seq<string>, b: seq<string>, es: seq<Entry>)
    ensures SecondsOver(a + b, es) == SecondsOver(a, es) + SecondsOver(b, es)
    decreases |b|
  {
    if b == [] {
      assert a + b == a;
    } else {
      assert (a + b)[..|a + b| - 1] == a + b[..|b| - 1];
      SecondsOverAppend(a, b[..|b| - 1], es);
    }
  }

  /** The sum does not depend on the order of the keys. */
  lemma {:induction false} SecondsOverPermutation(a: seq<string>, b: seq<string>, es: seq<Entry>)
    requires multiset(a) == multiset(b)
    ensures SecondsOver(a, es) == SecondsOver(b, es)
    decreases |a|
  {
    if a != [] {
      var init, x := a[..|a| - 1], a[|a| - 1];
      assert a == init + [x];
      assert x in multiset(b);
      var p :| 0 <= p < |b| && b[p] == x;
      var rest := b[..p] + b[p + 1..];
      assert b == b[..p] + [x] + b[p + 1..];
      assert multiset(b) == multiset(b[..p]) + multiset{x} + multiset(b[p + 1..]);
      assert multiset(a) == multiset(init) + multiset{x};
      assert multiset(rest) == multiset(b[..p]) + multiset(b[p + 1..]);
      assert multiset(init) == multiset(a) - multiset{x};
      assert multiset(rest) == multiset(b) - multiset{x};
      SecondsOverPermutation(init, rest, es);
      SecondsOverAppend(b[..p] + [x], b[p + 1..], es);
      SecondsOverAppend(b[..p], [x], es);
      SecondsOverAppend(b[..p], b[p + 1..], es);
      assert SecondsOver([x], es) == CategorySeconds(es, x);
    }
  }

  /** Adding one entry adds its seconds to its own category only. */
  lemma {:induction false} SecondsOverAddEntry(keys: seq<string>, init: seq<Entry>, last: Entry)
    requires Distinct(keys)
    ensures SecondsOver(keys, init + [last]) ==
            SecondsOver(keys, init) + (if last.category in keys then last.durationSeconds else 0)
    decreases |keys|
  {
    var es := init + [last];
    assert es[..|es| - 1] == init;
    if keys != [] {
      var front, k := keys[..|keys| - 1], keys[|keys| - 1];
      assert keys == front + [k];
      assert Distinct(front) by {
        forall x ensures multiset(front)[x] <= 1 {
          assert multiset(keys)[x] == multiset(front)[x] + multiset([k])[x];
        }
      }
      if k == last.category {
        assert multiset(keys)[k] == multiset(front)[k] + 1;
        assert k !in front;
      }
      SecondsOverAddEntry(front, init, last);
    }
  }

  /** Over the distinct categories, the per-category sums add up to the sum
      over all entries. */
  lemma {:induction false} CategoriesConserveSeconds(es: seq<Entry>)
    ensures SecondsOver(Categories(es), es) == SumDurations(es)
  {
    if es != [] {
      var init, last := es[..|es| - 1], es[|es| - 1];
      assert es == init + [last];
      var cs := Categories(init);
      CategoriesConserveSeconds(init);
      SecondsOverAddEntry(cs, init, last);
      if last.category !in cs {
        AbsentCategorySeconds(init, last.category);
        assert CategorySeconds(es, last.category) == last.durationSeconds;
        assert (cs + [last.category])[..|cs|] == cs;
      }
    }
  }

  lemma {:induction false} HoursSumOfOrder(order: seq<string>, entries: seq<Entry>, palette: seq<string>)
    requires |palette| > 0
    requires forall c :: c in order ==> c in CategorySet(entries)
    ensures HoursSum(RowsOf(order, SecondsByCategory(entries), palette)) == SecondsOver(order, entries) as real / 3600.0
    decreases |order|
  {
    if order != [] {
      var front := order[..|order| - 1];
      var rows := RowsOf(order, SecondsByCategory(entries), palette);
      assert rows[..|rows| - 1] == RowsOf(front, SecondsByCategory(entries), palette);
      HoursSumOfOrder(front, entries, palette);
    }
  }

  /** Conservation: the rows' hours add up to the total of all entries. */
  lemma RowsConserveHours(entries: seq<Entry>, palette: seq<string>)
    requires |palette| > 0
    ensures HoursSum(Rows(entries, palette)) == SumDurations(entries) as real / 3600.0
  {
    var cs := Categories(entries);
    EntriesOrderFacts(cs);
    assert forall c :: c in EntriesOrder(cs) ==> c in multiset(cs);
    HoursSumOfOrder(EntriesOrder(cs), entries, palette);
    SecondsOverPermutation(EntriesOrder(cs), cs, entries);
    CategoriesConserveSeconds(entries);
  }
}
