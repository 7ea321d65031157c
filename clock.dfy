/** Local wall-clock time as integer milliseconds. The browser's `Date` in
    local time becomes a plain count of milliseconds, a day is 86 400 000 ms,
    and daylight-saving shifts do not exist in this model. */
module Clock {

  const DayMs: int := 86_400_000
  const MinuteMs: int := 60_000

  predicate IsMidnight(t: int) {
    t % DayMs == 0
  }

  /** Midnight of the local day that contains `t` (the `stripTime` helper and
      `setHours(0, 0, 0, 0)`). */
  function Midnight(t: int): (m: int)
    ensures IsMidnight(m)
    ensures m <= t < m + DayMs
  {
    t - t % DayMs
  }

  /** There is one midnight per day: any midnight at most a day before `t`
      is `Midnight(t)`. */
  lemma MidnightUnique(m: int, t: int)
    requires IsMidnight(m) && m <= t < m + DayMs
    ensures m == Midnight(t)
  {
    var k := m / DayMs;
    assert m == k * DayMs;
    assert t / DayMs == k;
  }

  /** `getHours() * 60 + getMinutes()`: whole minutes since local midnight,
      seconds and milliseconds dropped. */
  function MinutesOfDay(t: int): (m: int)
    ensures 0 <= m < 1440
    ensures Midnight(t) + m * MinuteMs <= t < Midnight(t) + m * MinuteMs + MinuteMs
  {
    (t - Midnight(t)) / MinuteMs
  }

  /** `getDay()`: 0 for Sunday through 6 for Saturday. Day zero of the count,
      1 January 1970, was a Thursday. */
  function Weekday(t: int): (w: int)
    ensures 0 <= w < 7
  {
    (t / DayMs + 4) % 7
  }

  /** Moving by whole days moves the weekday the same number of steps. */
  lemma WeekdayShift(t: int, n: int)
    ensures Weekday(t + n * DayMs) == (Weekday(t) + n) % 7
  {
    assert (t + n * DayMs) / DayMs == t / DayMs + n;
  }

  /** Moving by whole days moves midnight by the same amount. */
  lemma MidnightShift(t: int, n: int)
    ensures Midnight(t + n * DayMs) == Midnight(t) + n * DayMs
  {
    var m := Midnight(t) + n * DayMs;
    assert m % DayMs == 0 by {
      assert Midnight(t) == (t / DayMs) * DayMs;
      assert m == (t / DayMs + n) * DayMs;
    }
    MidnightUnique(m, t + n * DayMs);
  }
}
