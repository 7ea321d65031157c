/** The timer page: a stopwatch with three states (idle, running, stopped),
    start and end instants that the user may also type in, a category
    picker, and the submission of the timed entry. Instants are integer
    milliseconds; parsing the typed text is a parameter (`None` when the
    text does not parse), and so is the formatted text of "now". */
module Timer {
  import opened Wrappers
  import opened JsNumbers
  import opened Text
  import opened Forms

  datatype TimerState = Idle | Running | Stopped

  datatype Category = Category(id: int, name: string)

  /** The body posted to `/api/entry`; the instants are sent as ISO text,
      which is not modelled. */
  datatype EntryRequest = EntryRequest(username: string, category: string, startTime: int, endTime: int)

  /** `formatElapsed`'s parts: `Math.floor(n / 3600)`,
      `Math.floor((n % 3600) / 60)` and `n % 60`, with JavaScript's
      truncating `%`. */
  function ElapsedParts(n: int): (hms: (int, int, int))
    ensures -60 <= hms.1 < 60 && -60 < hms.2 < 60
    ensures n >= 0 ==> 0 <= hms.0 && 0 <= hms.1 && 0 <= hms.2 && hms.0 * 3600 + hms.1 * 60 + hms.2 == n
  {
    var h := FloorDiv(n, 3600);
    var m := FloorDiv(Rem(n, 3600), 60);
    var s := Rem(n, 60);
    SecondsWithinHour(n);
    (h, m, s)
  }

  /** The seconds within the minute are the seconds within the hour less
      its whole minutes. */
  lemma SecondsWithinHour(n: int)
    ensures n >= 0 ==> Rem(n, 60) == Rem(n, 3600) - FloorDiv(Rem(n, 3600), 60) * 60
  {
    if n >= 0 {
      MinuteOfHour(n);
    }
  }

  /** Within a minute, a count and its remainder within the hour agree. */
  lemma MinuteOfHour(n: nat)
    ensures n % 60 == (n % 3600) % 60
  {
    var h, r := n / 3600, n % 3600;
    assert n == (h * 60 + r / 60) * 60 + r % 60;
  }

  /** `pad(n)`: `String(n).padStart(2, "0")`. */
  function Pad(n: int): string {
    PadStart2(IntToDecimal(n))
  }

  /** `formatElapsed(n)`: `hh:mm:ss`. */
  function FormatElapsed(n: int): (text: string)
    ensures |text| >= 8
  {
    var hms := ElapsedParts(n);
    Clock(hms.0, hms.1, hms.2)
  }

  /** The padded parts joined with colons. */
  function Clock(h: int, m: int, s: int): string {
    Pad(h) + ":" + Pad(m) + ":" + Pad(s)
  }

  predicate AllDigits(s: string) {
    forall i :: 0 <= i < |s| ==> IsDigit(s[i])
  }

  /** The value of a string of decimal digits, or `None` when one of its
      characters is not a digit. */
  function DigitsValue(s: string): Option<nat> {
    if s == [] then Some(0)
    else if !IsDigit(s[|s| - 1]) then None
    else match DigitsValue(s[..|s| - 1])
      case None => None
      case Some(k) => Some(k * 10 + DigitValue(s[|s| - 1]))
  }

  /** On digit strings the reader agrees with `DecimalValue`. */
  lemma {:induction false} DigitsValueOfDigits(s: string)
    requires AllDigits(s)
    ensures DigitsValue(s) == Some(DecimalValue(s))
  {
    if s != [] {
      DigitsValueOfDigits(s[..|s| - 1]);
    }
  }

  /** Reads `h:mm:ss` back: the hours are everything before the last six
      characters, then two digits of minutes and two of seconds. */
  function ParseElapsed(t: string): (n: Option<int>)
    ensures n.Some? ==> n.value >= 0
  {
    if |t| >= 8 && t[|t| - 6] == ':' && t[|t| - 3] == ':' then
      match (DigitsValue(t[..|t| - 6]), DigitsValue(t[|t| - 5..|t| - 3]), DigitsValue(t[|t| - 2..]))
      case (Some(h), Some(m), Some(s)) => Some(h * 3600 + m * 60 + s)
      case _ => None
    else None
  }

  /** The clock text of a non-negative count reads back as that count, and
      under 100 hours it is exactly `hh:mm:ss`. */
  lemma ElapsedRoundTrip(n: int)
    requires n >= 0
    ensures ParseElapsed(FormatElapsed(n)) == Some(n)
    ensures n < 360000 ==> |FormatElapsed(n)| == 8
  {
    var hms := ElapsedParts(n);
    ClockReadsBack(hms.0, hms.1, hms.2, n);
    if n < 360000 {
      ClockLength(hms.0, hms.1, hms.2);
    }
  }

  /** Hours, minutes and seconds on the clock read back as their count of
      seconds. */
  lemma ClockReadsBack(h: nat, m: nat, s: nat, n: int)
    requires m < 60 && s < 60 && n == h * 3600 + m * 60 + s
    ensures ParseElapsed(Clock(h, m, s)) == Some(n)
  {
    PadFacts(h);
    PadFacts(m);
    PadFacts(s);
    ClockSplits(h, m, s);
  }

  /** The clock of parts whose padded texts read back as the parts reads
      back as their count of seconds. */
  lemma ClockSplits(h: nat, m: nat, s: nat)
    requires |Pad(h)| >= 2 && |Pad(m)| == 2 && |Pad(s)| == 2
    requires DigitsValue(Pad(h)) == Some(h) && DigitsValue(Pad(m)) == Some(m) && DigitsValue(Pad(s)) == Some(s)
    ensures ParseElapsed(Clock(h, m, s)) == Some(h * 3600 + m * 60 + s)
  {
    ColonJoinReadsBack(Pad(h), Pad(m), Pad(s), h, m, s);
  }

  /** Below 100 hours the clock has 8 characters. */
  lemma ClockLength(h: nat, m: nat, s: nat)
    requires h < 100 && m < 60 && s < 60
    ensures |Clock(h, m, s)| == 8
  {
    PadFacts(h);
    PadFacts(m);
    PadFacts(s);
  }

  /** Digit strings `a`, `b`, `c`, the last two of two characters, joined as
      `a:b:c`, read back as `a` hours, `b` minutes and `c` seconds. */
  lemma ColonJoinReadsBack(a: string, b: string, c: string, h: nat, m: nat, s: nat)
    requires |a| >= 2 && |b| == 2 && |c| == 2
    requires DigitsValue(a) == Some(h) && DigitsValue(b) == Some(m) && DigitsValue(c) == Some(s)
    ensures ParseElapsed(a + ":" + b + ":" + c) == Some(h * 3600 + m * 60 + s)
  {
    ColonJoin(a, b, c);
  }

  /** `a:b:c` with two-character `b` and `c`: where each part sits. */
  lemma ColonJoin(a: string, b: string, c: string)
    requires |b| == 2 && |c| == 2
    ensures var t := a + ":" + b + ":" + c;
      && |t| == |a| + 6 && t[|t| - 6] == ':' && t[|t| - 3] == ':'
      && t[..|t| - 6] == a && t[|t| - 5..|t| - 3] == b && t[|t| - 2..] == c
  {
    var t := a + ":" + b + ":" + c;
    assert t[..|t| - 6] == a;
    assert t[|t| - 5..|t| - 3] == b;
    assert t[|t| - 2..] == c;
  }

  /** `pad(k)` of a natural number: at least two digits, exactly two below
      100, reading back as `k`. */
  lemma PadFacts(k: nat)
    ensures |Pad(k)| >= 2 && (k < 100 ==> |Pad(k)| == 2)
    ensures DigitsValue(Pad(k)) == Some(k)
  {
    PaddedDecimal(k);
    DigitsValueOfDigits(Pad(k));
  }

  /** `durationSeconds`: whole seconds from start to end, `null` unless both
      are set. */
  function DurationSeconds(startTime: Option<int>, endTime: Option<int>): (d: Option<int>)
    ensures d.Some? <==> startTime.Some? && endTime.Some?
    ensures d.Some? ==> d.value * 1000 <= endTime.value - startTime.value < d.value * 1000 + 1000
  {
    if startTime.Some? && endTime.Some? then Some(FloorDiv(endTime.value - startTime.value, 1000)) else None
  }

  /** A positive duration means the end is at least a whole second after
      the start, and conversely. */
  lemma PositiveDurationIffSecondApart(startTime: int, endTime: int)
    ensures DurationSeconds(Some(startTime), Some(endTime)).value > 0 <==> endTime - startTime >= 1000
  {
  }

  /** `categories.find((c) => c.id === categoryId)`: the first category with
      the selected id. */
  function FindCategory(categories: seq<Category>, categoryId: Option<int>): (found: Option<Category>)
    ensures found.Some? <==> categoryId.Some? && exists c :: c in categories && c.id == categoryId.value
    ensures found.Some? ==> found.value in categories && found.value.id == categoryId.value
    ensures found.Some? ==> exists i :: (0 <= i < |categories| && categories[i] == found.value &&
              forall j :: 0 <= j < i ==> categories[j].id != categoryId.value)
  {
    if categoryId.None? || categories == [] then None
    else if categories[0].id == categoryId.value then
      Some(categories[0])
    else
      var rest := FindCategory(categories[1..], categoryId);
      assert forall c :: c in categories && c != categories[0] ==> c in categories[1..];
      if rest.Some? then
        var i :| 0 <= i < |categories[1..]| && categories[1..][i] == rest.value &&
                 forall j :: 0 <= j < i ==> categories[1..][j].id != categoryId.value;
        assert categories[i + 1] == rest.value;
        assert forall j :: 0 <= j < i + 1 ==> categories[j].id != categoryId.value by {
          forall j | 0 < j < i + 1 ensures categories[j].id != categoryId.value {
            assert categories[j] == categories[1..][j - 1];
          }
        }
        rest
      else rest
  }

  /** The seconds the clock shows: the ticking count while running, the
      typed or timed duration (never negative) once stopped, 0 when idle. */
  function DisplaySeconds(state: TimerState, elapsed: int, duration: Option<int>): (n: int)
    ensures state == Running ==> n == elapsed
    ensures state == Stopped ==> n >= 0 && (duration.Some? && duration.value > 0 ==> n == duration.value)
    ensures state == Stopped && (duration.None? || duration.value <= 0) ==> n == 0
    ensures state == Idle ==> n == 0
  {
    match state
    case Running => elapsed
    case Stopped => if duration.GetOr(0) > 0 then duration.GetOr(0) else 0
    case Idle => 0
  }

  const CreateFailed: string := "Failed to create entry"
  const Submitted: string := "Entry submitted successfully!"

  class TimerPage {
    var categories: seq<Category>
    var categoryId: Option<int>
    var timerState: TimerState
    var startTime: Option<int>
    var endTime: Option<int>
    var elapsed: int
    var startInput: string
    var endInput: string
    var submitStatus: Status
    var submitMessage: Option<string>

    /** A running timer has a start, and a stopped one has both a start and
        an end. */
    ghost predicate Valid()
      reads this
    {
      && (timerState == Running ==> startTime.Some?)
      && (timerState == Stopped ==> startTime.Some? && endTime.Some?)
    }

    function SelectedCategory(): Option<Category>
      reads this
    {
      FindCategory(categories, categoryId)
    }

    function Duration(): Option<int>
      reads this
    {
      DurationSeconds(startTime, endTime)
    }

    /** `isValid`: a known category is selected, both instants are set and
        the duration is positive. */
    predicate IsValid()
      reads this
      ensures IsValid() ==> startTime.Some? && endTime.Some? && endTime.value - startTime.value >= 1000
    {
      && SelectedCategory().Some?
      && startTime.Some? && endTime.Some?
      && Duration().Some? && Duration().value > 0
    }

    /** The clock's text. */
    function Display(): (text: string)
      reads this
      ensures |text| >= 8
    {
      FormatElapsed(DisplaySeconds(timerState, elapsed, Duration()))
    }

    /** The initial state: idle, nothing entered, no categories yet. */
    constructor()
      ensures Valid()
      ensures timerState == Idle && startTime == None && endTime == None && elapsed == 0
      ensures startInput == "" && endInput == "" && categoryId == None && categories == []
      ensures submitStatus == NoRequest && submitMessage == None
    {
      categories := [];
      categoryId := None;
      timerState := Idle;
      startTime := None;
      endTime := None;
      elapsed := 0;
      startInput := "";
      endInput := "";
      submitStatus := NoRequest;
      submitMessage := None;
    }

    /** The categories fetched when the page loads. */
    method CategoriesLoaded(loaded: seq<Category>)
      modifies this
      ensures categories == loaded
      ensures categoryId == old(categoryId) && timerState == old(timerState)
      ensures startTime == old(startTime) && endTime == old(endTime) && elapsed == old(elapsed)
      ensures startInput == old(startInput) && endInput == old(endInput)
      ensures submitStatus == old(submitStatus) && submitMessage == old(submitMessage)
    {
      categories := loaded;
    }

    /** The category picker: an empty choice clears the selection. */
    method SelectCategory(choice: Option<int>)
      modifies this
      ensures categoryId == choice
      ensures categories == old(categories) && timerState == old(timerState)
      ensures startTime == old(startTime) && endTime == old(endTime) && elapsed == old(elapsed)
      ensures startInput == old(startInput) && endInput == old(endInput)
      ensures submitStatus == old(submitStatus) && submitMessage == old(submitMessage)
    {
      categoryId := choice;
    }

    /** `handleStart`, from any state: running from `now`, with no end, no
        elapsed time and the submission status cleared. */
    method HandleStart(now: int, nowText: string)
      modifies this
      ensures Valid()
      ensures timerState == Running && startTime == Some(now) && endTime == None && elapsed == 0
      ensures startInput == nowText && endInput == ""
      ensures submitStatus == NoRequest && submitMessage == None
      ensures categories == old(categories) && categoryId == old(categoryId)
    {
      startTime := Some(now);
      endTime := None;
      elapsed := 0;
      startInput := nowText;
      endInput := "";
      timerState := Running;
      submitStatus := NoRequest;
      submitMessage := None;
    }

    /** `handleStop`: stopped at `now`; the start is kept. */
    method HandleStop(now: int, nowText: string)
      requires Valid() && timerState == Running
      modifies this
      ensures Valid()
      ensures timerState == Stopped && endTime == Some(now) && endInput == nowText
      ensures startTime == old(startTime) && elapsed == old(elapsed) && startInput == old(startInput)
      ensures Duration() == Some(FloorDiv(now - old(startTime).value, 1000))
      ensures categories == old(categories) && categoryId == old(categoryId)
      ensures submitStatus == old(submitStatus) && submitMessage == old(submitMessage)
    {
      endTime := Some(now);
      endInput := nowText;
      timerState := Stopped;
    }

    /** The big button: Stop while running, otherwise Start (labelled
        Restart once stopped). */
    method PressStartStop(now: int, nowText: string)
      requires Valid()
      modifies this
      ensures Valid()
      ensures old(timerState) == Running ==> timerState == Stopped && endTime == Some(now) && startTime == old(startTime)
      ensures old(timerState) != Running ==> timerState == Running && startTime == Some(now) && endTime == None && elapsed == 0
      ensures old(timerState) == Running ==> endInput == nowText && startInput == old(startInput) && elapsed == old(elapsed)
      ensures old(timerState) == Running ==> submitStatus == old(submitStatus) && submitMessage == old(submitMessage)
      ensures old(timerState) != Running ==> startInput == nowText && endInput == ""
      ensures old(timerState) != Running ==> submitStatus == NoRequest && submitMessage == None
      ensures categories == old(categories) && categoryId == old(categoryId)
    {
      if timerState == Running {
        HandleStop(now, nowText);
      } else {
        HandleStart(now, nowText);
      }
    }

    /** One interval tick: while running, the whole seconds since the start. */
    method Tick(now: int)
      requires Valid()
      modifies this
      ensures Valid()
      ensures timerState == Running ==> elapsed == FloorDiv(now - startTime.value, 1000)
      ensures timerState != Running ==> elapsed == old(elapsed)
      ensures timerState == old(timerState) && startTime == old(startTime) && endTime == old(endTime)
      ensures startInput == old(startInput) && endInput == old(endInput)
      ensures categories == old(categories) && categoryId == old(categoryId)
      ensures submitStatus == old(submitStatus) && submitMessage == old(submitMessage)
    {
      if timerState == Running && startTime.Some? {
        elapsed := FloorDiv(now - startTime.value, 1000);
      }
    }

    /** `handleStartInputChange`: the text is always kept; a value that
        parses becomes the start, and while running the elapsed count is
        recomputed from it. */
    method HandleStartInputChange(value: string, parsed: Option<int>, now: int)
      requires Valid()
      modifies this
      ensures Valid()
      ensures startInput == value
      ensures parsed.Some? ==> startTime == parsed
      ensures parsed.None? ==> startTime == old(startTime)
      ensures parsed.Some? && timerState == Running ==> elapsed == FloorDiv(now - parsed.value, 1000)
      ensures parsed.None? || timerState != Running ==> elapsed == old(elapsed)
      ensures timerState == old(timerState) && endTime == old(endTime) && endInput == old(endInput)
      ensures categories == old(categories) && categoryId == old(categoryId)
      ensures submitStatus == old(submitStatus) && submitMessage == old(submitMessage)
    {
      startInput := value;
      if parsed.Some? {
        startTime := parsed;
        if timerState == Running {
          elapsed := FloorDiv(now - parsed.value, 1000);
        }
      }
    }

    /** `handleEndInputChange`: the text is always kept; a value that
        parses becomes the end. */
    method HandleEndInputChange(value: string, parsed: Option<int>)
      requires Valid()
      modifies this
      ensures Valid()
      ensures endInput == value
      ensures parsed.Some? ==> endTime == parsed
      ensures parsed.None? ==> endTime == old(endTime)
      ensures timerState == old(timerState) && startTime == old(startTime) && elapsed == old(elapsed)
      ensures startInput == old(startInput)
      ensures categories == old(categories) && categoryId == old(categoryId)
      ensures submitStatus == old(submitStatus) && submitMessage == old(submitMessage)
    {
      endInput := value;
      if parsed.Some? {
        endTime := parsed;
      }
    }

    /** `handleSubmit`. Nothing happens unless the form is valid. Otherwise
        the token's user (`None` when the token request fails) names the
        author of the request sent; a created entry resets the page to
        idle, and a failure only sets the error status and message. */
    method HandleSubmit(tokenUser: Option<string>, outcome: Outcome) returns (sent: Option<EntryRequest>)
      requires Valid()
      modifies this
      ensures Valid()
      ensures !old(IsValid()) ==> sent == None
      ensures !old(IsValid()) ==> submitStatus == old(submitStatus) && submitMessage == old(submitMessage)
      ensures old(IsValid()) && tokenUser.None? ==> sent == None && submitStatus == Failure && submitMessage == Some(NotAuthenticated)
      ensures old(IsValid()) && tokenUser.Some? ==>
                sent == Some(EntryRequest(tokenUser.value, old(SelectedCategory()).value.name,
                                          old(startTime).value, old(endTime).value))
      ensures old(IsValid()) && tokenUser.Some? && outcome.Accepted? ==>
                && submitStatus == Success && submitMessage == Some(Submitted)
                && timerState == Idle && startTime == None && endTime == None && elapsed == 0
                && startInput == "" && endInput == "" && categoryId == None
      ensures old(IsValid()) && tokenUser.Some? && outcome.Rejected? ==>
                submitStatus == Failure && submitMessage == Some(outcome.error.GetOr(CreateFailed))
      ensures !(old(IsValid()) && tokenUser.Some? && outcome.Accepted?) ==>
                && timerState == old(timerState) && startTime == old(startTime) && endTime == old(endTime)
                && elapsed == old(elapsed) && startInput == old(startInput) && endInput == old(endInput)
                && categoryId == old(categoryId)
      ensures categories == old(categories)
    {
      if !IsValid() {
        return None;
      }
      var selected := SelectedCategory().value;
      if tokenUser.None? {
        submitStatus := Failure;
        submitMessage := Some(NotAuthenticated);
        return None;
      }
      sent := Some(EntryRequest(tokenUser.value, selected.name, startTime.value, endTime.value));
      match outcome
      case Accepted(_) =>
        submitStatus := Success;
        submitMessage := Some(Submitted);
        timerState := Idle;
        startTime := None;
        endTime := None;
        elapsed := 0;
        startInput := "";
        endInput := "";
        categoryId := None;
      case Rejected(error) =>
        submitStatus := Failure;
        submitMessage := Some(error.GetOr(CreateFailed));
    }
  }

  /** A request the page sends always names a category of the list and
      spans at least one whole second. */
  method SubmitSendsValidEntry(page: TimerPage, tokenUser: Option<string>, outcome: Outcome)
    returns (sent: Option<EntryRequest>)
    requires page.Valid()
    modifies page
    ensures sent.Some? ==> sent.value.endTime - sent.value.startTime >= 1000
    ensures sent.Some? ==> exists c :: c in page.categories && c.name == sent.value.category
  {
    ghost var before := page.SelectedCategory();
    sent := page.HandleSubmit(tokenUser, outcome);
    if sent.Some? {
      assert before.value in page.categories;
    }
  }
}
