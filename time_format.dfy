/** The clock's time formatting (src/js/TimeFormatter.js): two-digit
    padding, the 24- to 12-hour conversion and minute-change detection.
    The current time is a parameter instead of a read of the clock. */
module TimeFormat {
  import opened Wrappers
  import opened Text

  /** `n.toString().padStart(2, "0")`, the body shared by formatHours,
      formatMinutes and formatSeconds. */
  function FormatTwoDigits(n: int): (s: string)
    ensures 0 <= n < 100 ==> |s| == 2 && AllDigits(s) && DecimalValue(s) == n
    ensures 0 <= n < 10 ==> s == "0" + IntToString(n)
    ensures n >= 10 ==> s == IntToString(n)
  {
    PaddingFacts(n);
    PadStart(IntToString(n), 2, '0')
  }

  lemma PaddingFacts(n: int)
    ensures var r := PadStart(IntToString(n), 2, '0');
      && (0 <= n < 100 ==> |r| == 2 && AllDigits(r) && DecimalValue(r) == n)
      && (0 <= n < 10 ==> r == "0" + IntToString(n))
      && (n >= 10 ==> r == IntToString(n))
  {
    var s := IntToString(n);
    if 0 <= n < 10 {
      NatToStringLength(n);
      assert |s| == 1;
      var r := PadStart(s, 2, '0');
      assert r == PadStart("0" + s, 2, '0') == "0" + s;
      DecimalRoundTrip(n);
      LeadingZero(s);
    } else if 10 <= n {
      NatToStringLength(n);
      assert |s| >= 2;
      if n < 100 {
        DecimalRoundTrip(n);
      }
    }
  }

  /** A leading zero does not change a decimal value. */
  lemma {:induction false} LeadingZero(s: string)
    requires AllDigits(s)
    ensures AllDigits("0" + s) && DecimalValue("0" + s) == DecimalValue(s)
  {
    if s != [] {
      assert ("0" + s)[..|"0" + s| - 1] == "0" + s[..|s| - 1];
      LeadingZero(s[..|s| - 1]);
    }
  }

  /** Two in-range values format to the same text only if they are equal. */
  lemma FormatTwoDigitsInjective(a: int, b: int)
    requires 0 <= a < 100 && 0 <= b < 100
    requires FormatTwoDigits(a) == FormatTwoDigits(b)
    ensures a == b
  {
  }

  /** JavaScript's `%`, which truncates toward zero. */
  function JsRemainder(a: int, m: int): (r: int)
    requires m > 0
    ensures a >= 0 ==> r == a % m
    ensures a < 0 ==> -m < r <= 0
  {
    if a >= 0 then a % m else -((-a) % m)
  }

  datatype TwelveHour = TwelveHour(hours: int, period: string, formatted: string)

  /** `hours % 12 || 12`: the hour shown on a 12-hour clock. */
  function DisplayHour(h: int): (display: int)
    ensures 0 <= h < 24 ==> 1 <= display <= 12 && display % 12 == h % 12
  {
    var rem := JsRemainder(h, 12);
    DisplayHourInRange(h, if rem == 0 then 12 else rem);
    if rem == 0 then 12 else rem
  }

  lemma DisplayHourInRange(h: int, display: int)
    requires display == if JsRemainder(h, 12) == 0 then 12 else JsRemainder(h, 12)
    ensures 0 <= h < 24 ==> 1 <= display <= 12 && display % 12 == h % 12
  {
    if 0 <= h < 12 {
      assert h % 12 == h;
    } else if 12 <= h < 24 {
      assert h % 12 == h - 12;
    }
  }

  /** Midnight and noon show 12; afternoon hours drop by twelve. */
  lemma DisplayHourValue(h: int)
    requires 0 <= h < 24
    ensures DisplayHour(h) == if h == 0 || h == 12 then 12 else if h > 12 then h - 12 else h
  {
    if h >= 12 {
      assert JsRemainder(h, 12) == h - 12;
    } else {
      assert JsRemainder(h, 12) == h;
    }
  }

  /** to12Hour: the 12-hour value, the AM/PM marker and the padded text. */
  function To12Hour(h: int): (t: TwelveHour)
    ensures t.period == "PM" <==> h >= 12
    ensures t.period == "AM" <==> h < 12
    ensures t.hours == DisplayHour(h)
    ensures 0 <= h < 24 ==> |t.formatted| == 2 && AllDigits(t.formatted) && DecimalValue(t.formatted) == t.hours
  {
    var display := DisplayHour(h);
    assert "AM"[0] != "PM"[0];
    TwelveHour(display, if h >= 12 then "PM" else "AM", FormatTwoDigits(display))
  }

  /** The 24-hour value a 12-hour reading denotes. */
  function From12Hour(t: TwelveHour): int {
    if t.period == "PM" then (if t.hours == 12 then 12 else t.hours + 12)
    else (if t.hours == 12 then 0 else t.hours)
  }

  /** No information is lost by the conversion on a real clock reading. */
  lemma To12HourRoundTrip(h: int)
    requires 0 <= h < 24
    ensures From12Hour(To12Hour(h)) == h
  {
    DisplayHourValue(h);
  }

  lemma MidnightAndNoonShowTwelve()
    ensures To12Hour(0) == TwelveHour(12, "AM", "12")
    ensures To12Hour(12) == TwelveHour(12, "PM", "12")
  {
    assert IntToString(12) == NatToString(1) + [DigitChar(2)] == "12";
    assert FormatTwoDigits(12) == "12";
  }

  datatype RawTime = RawTime(hours: int, minutes: int, seconds: int)

  /** The object built by getCurrentTime: padded fields beside the raw ones. */
  datatype TimeValue = TimeValue(hours: string, minutes: string, seconds: string, raw: RawTime)

  predicate IsClockReading(r: RawTime) {
    0 <= r.hours < 24 && 0 <= r.minutes < 60 && 0 <= r.seconds < 60
  }

  /** getCurrentTime with the clock reading `now` passed in. */
  function CurrentTime(now: RawTime): (t: TimeValue)
    ensures t.raw == now
    ensures IsClockReading(now) ==>
      && |t.hours| == 2 && AllDigits(t.hours) && DecimalValue(t.hours) == now.hours
      && |t.minutes| == 2 && AllDigits(t.minutes) && DecimalValue(t.minutes) == now.minutes
      && |t.seconds| == 2 && AllDigits(t.seconds) && DecimalValue(t.seconds) == now.seconds
  {
    TimeValue(FormatTwoDigits(now.hours), FormatTwoDigits(now.minutes), FormatTwoDigits(now.seconds), now)
  }

  /** hasMinuteChanged: a missing reading always counts as a change;
      otherwise only the raw minutes are compared. */
  function HasMinuteChanged(before: Option<TimeValue>, after: Option<TimeValue>): (changed: bool)
    ensures before.None? || after.None? ==> changed
    ensures before.Some? && after.Some? ==> (changed <==> before.value.raw.minutes != after.value.raw.minutes)
    ensures before == after && before.Some? ==> !changed
  {
    if before.None? || after.None? then true
    else before.value.raw.minutes != after.value.raw.minutes
  }

  lemma MinuteChangeSymmetric(a: Option<TimeValue>, b: Option<TimeValue>)
    ensures HasMinuteChanged(a, b) == HasMinuteChanged(b, a)
  {
  }

  /** On real clock readings, the check agrees with comparing the displayed
      minutes. */
  lemma MinuteChangeMatchesDisplay(a: RawTime, b: RawTime)
    requires IsClockReading(a) && IsClockReading(b)
    ensures HasMinuteChanged(Some(CurrentTime(a)), Some(CurrentTime(b)))
            <==> CurrentTime(a).minutes != CurrentTime(b).minutes
  {
    if CurrentTime(a).minutes == CurrentTime(b).minutes {
      FormatTwoDigitsInjective(a.minutes, b.minutes);
    }
  }

  /** The same minute of a different hour is not a change. */
  lemma SameMinuteOtherHourUnchanged()
    ensures !HasMinuteChanged(Some(CurrentTime(RawTime(9, 30, 0))), Some(CurrentTime(RawTime(10, 30, 5))))
  {
  }
}
