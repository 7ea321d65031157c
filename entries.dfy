/** The `Entry` record the time-tracking pages receive: an id, a category
    label, the stored `duration_seconds`, and the start and end instants
    (here already converted to local milliseconds). */
module Entries {

  datatype Entry = Entry(id: int, category: string, durationSeconds: int, start: int, end: int)

  /** `entries.reduce((acc, e) => acc + e.duration_seconds, 0)`. */
  function SumDurations(es: seq<Entry>): (total: int)
    ensures (forall i :: 0 <= i < |es| ==> es[i].durationSeconds >= 0) ==> total >= 0
  {
    if es == [] then 0 else SumDurations(es[..|es| - 1]) + es[|es| - 1].durationSeconds
  }

  /** `entries.map((e) => e.duration_seconds)`. */
  function Durations(es: seq<Entry>): (ds: seq<int>)
    ensures |ds| == |es|
    ensures forall i :: 0 <= i < |es| ==> ds[i] == es[i].durationSeconds
  {
    seq(|es|, i requires 0 <= i < |es| => es[i].durationSeconds)
  }

  /** The sum distributes over concatenation. */
  lemma {:induction false} SumDurationsAppend(a: seq<Entry>, b: seq<Entry>)
    ensures SumDurations(a + b) == SumDurations(a) + SumDurations(b)
    decreases |b|
  {
    if b == [] {
      assert a + b == a;
    } else {
      assert (a + b)[..|a + b| - 1] == a + b[..|b| - 1];
      SumDurationsAppend(a, b[..|b| - 1]);
    }
  }

  /** The result of JavaScript's `Math.max(...xs)`: minus infinity for no
      arguments, otherwise a number. */
  datatype MaxResult = NegativeInfinity | Finite(value: int)

  /** `Math.max(...xs)`: the largest element, or minus infinity when `xs` is
      empty. */
  function SpreadMax(xs: seq<int>): (r: MaxResult)
    ensures r == NegativeInfinity <==> xs == []
    ensures r.Finite? ==> r.value in xs && forall i :: 0 <= i < |xs| ==> xs[i] <= r.value
  {
    if xs == [] then NegativeInfinity
    else
      match SpreadMax(xs[..|xs| - 1])
      case NegativeInfinity => Finite(xs[|xs| - 1])
      case Finite(m) => if xs[|xs| - 1] > m then Finite(xs[|xs| - 1]) else Finite(m)
  }
}
