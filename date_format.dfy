/** The clock's date formatting (src/js/DateFormatter.js): the name tables,
    the English ordinal suffix, the three date texts and day-change
    detection. The current date is a parameter instead of a read of the
    clock. */
module DateFormat {
  import opened Wrappers
  import opened Text

  const DayNames: seq<string> :=
    ["Sunday", "Monday", "Tuesday", "Wednesday", "Thursday", "Friday", "Saturday"]

  const MonthNames: seq<string> :=
    ["January", "February", "March", "April", "May", "June",
     "July", "August", "September", "October", "November", "December"]

  const ShortMonthNames: seq<string> :=
    ["Jan", "Feb", "Mar", "Apr", "May", "Jun", "Jul", "Aug", "Sep", "Oct", "Nov", "Dec"]

  /** Seven day names, twelve month names, and every short month name is
      the first three letters of the full one. */
  lemma NameTables()
    ensures |DayNames| == 7 && |MonthNames| == 12 && |ShortMonthNames| == 12
    ensures forall m :: 0 <= m < 12 ==> |MonthNames[m]| >= 3 && ShortMonthNames[m] == MonthNames[m][..3]
  {
  }

  /** What `new Date()` reports: getDay(), getDate(), getMonth(), getFullYear(). */
  datatype CalendarReading = CalendarReading(dayOfWeek: int, dayOfMonth: int, month: int, year: int)

  predicate IsCalendarReading(now: CalendarReading) {
    0 <= now.dayOfWeek < 7 && 1 <= now.dayOfMonth <= 31 && 0 <= now.month < 12
  }

  /** The object built by getCurrentDate. */
  datatype DateInfo = DateInfo(
    dayOfWeek: int, dayOfMonth: int, month: int, year: int,
    dayName: string, monthName: string, shortMonthName: string)

  /** getCurrentDate with the calendar reading `now` passed in. */
  function CurrentDate(now: CalendarReading): (d: DateInfo)
    requires IsCalendarReading(now)
    ensures d.dayOfWeek == now.dayOfWeek && d.dayOfMonth == now.dayOfMonth
    ensures d.month == now.month && d.year == now.year
    ensures d.dayName == DayNames[now.dayOfWeek] && d.monthName == MonthNames[now.month]
    ensures d.shortMonthName == ShortMonthNames[now.month] && d.shortMonthName == d.monthName[..3]
    ensures now.year >= 0 ==> IsWellFormed(d)
  {
    NameTables();
    DateInfo(now.dayOfWeek, now.dayOfMonth, now.month, now.year,
             DayNames[now.dayOfWeek], MonthNames[now.month], ShortMonthNames[now.month])
  }

  /** getOrdinalSuffix: "th" for 4..20, otherwise chosen by the last digit
      (JavaScript's `%` truncates, so no negative day gets "st", "nd" or "rd"). */
  function OrdinalSuffix(day: int): (s: string)
    ensures s == "st" <==> day > 0 && !(4 <= day <= 20) && day % 10 == 1
    ensures s == "nd" <==> day > 0 && !(4 <= day <= 20) && day % 10 == 2
    ensures s == "rd" <==> day > 0 && !(4 <= day <= 20) && day % 10 == 3
    ensures s == "th" <==> day <= 0 || 4 <= day <= 20 || day % 10 !in {1, 2, 3}
  {
    assert "st"[0] != "nd"[0] && "st"[0] != "rd"[0] && "st"[0] != "th"[0];
    assert "nd"[0] != "rd"[0] && "nd"[0] != "th"[0] && "rd"[0] != "th"[0];
    if day > 3 && day < 21 then "th"
    else
      var lastDigit := if day >= 0 then day % 10 else -((-day) % 10);
      if lastDigit == 1 then "st"
      else if lastDigit == 2 then "nd"
      else if lastDigit == 3 then "rd"
      else "th"
  }

  /** The English rule, stated independently: 11, 12 and 13 (mod 100) take "th". */
  function EnglishOrdinalSuffix(n: nat): string {
    if 11 <= n % 100 <= 13 then "th"
    else if n % 10 == 1 then "st"
    else if n % 10 == 2 then "nd"
    else if n % 10 == 3 then "rd"
    else "th"
  }

  /** For every day a month can have, the source's rule is the English one. */
  lemma OrdinalSuffixIsEnglish(day: int)
    requires 1 <= day <= 31
    ensures OrdinalSuffix(day) == EnglishOrdinalSuffix(day)
  {
    assert day % 100 == day;
  }

  /** Outside days of the month the two rules part: 111 would read "111st". */
  lemma OrdinalSuffixBeyondMonths()
    ensures OrdinalSuffix(111) == "st" && EnglishOrdinalSuffix(111) == "th"
  {
  }

  /** formatLongDate: "Month D, YYYY". */
  function FormatLongDate(d: DateInfo): string {
    d.monthName + " " + IntToString(d.dayOfMonth) + ", " + IntToString(d.year)
  }

  /** formatShortDate: "Mon D, YYYY". */
  function FormatShortDate(d: DateInfo): string {
    d.shortMonthName + " " + IntToString(d.dayOfMonth) + ", " + IntToString(d.year)
  }

  /** formatOrdinalDate: "Month Dth, YYYY". */
  function FormatOrdinalDate(d: DateInfo): string {
    d.monthName + " " + IntToString(d.dayOfMonth) + OrdinalSuffix(d.dayOfMonth) + ", " + IntToString(d.year)
  }

  /** The ordinal text is the long text with the suffix put right after the
      day number; the short text differs from the long one only in the name. */
  lemma OrdinalDateExtendsLongDate(d: DateInfo)
    ensures var head := d.monthName + " " + IntToString(d.dayOfMonth);
      && FormatLongDate(d) == head + ", " + IntToString(d.year)
      && FormatOrdinalDate(d) == head + OrdinalSuffix(d.dayOfMonth) + ", " + IntToString(d.year)
      && FormatShortDate(d) == d.shortMonthName + FormatLongDate(d)[|d.monthName|..]
  {
    var tail := " " + IntToString(d.dayOfMonth) + ", " + IntToString(d.year);
    assert FormatLongDate(d) == d.monthName + tail;
    assert FormatShortDate(d) == d.shortMonthName + tail;
    assert (d.monthName + tail)[|d.monthName|..] == tail;
  }

  // Reading a date text back: the partner of the three formats.

  datatype DateParts = DateParts(month: nat, dayOfMonth: nat, year: nat)

  /** Index of the first `c` in `s`, or |s|. */
  function IndexOfChar(s: string, c: char): (i: nat)
    ensures i <= |s| && c !in s[..i]
    ensures i < |s| ==> s[i] == c
  {
    if s == [] then 0
    else if s[0] == c then 0
    else
      var i := 1 + IndexOfChar(s[1..], c);
      assert s[..i] == [s[0]] + s[1..][..i - 1];
      i
  }

  /** Length of the longest all-digit prefix of `s`. */
  function DigitPrefixLength(s: string): (n: nat)
    ensures n <= |s| && AllDigits(s[..n])
    ensures n < |s| ==> !IsDigit(s[n])
  {
    if s == [] || !IsDigit(s[0]) then 0
    else
      var n := 1 + DigitPrefixLength(s[1..]);
      assert s[..n] == [s[0]] + s[1..][..n - 1];
      n
  }

  function IndexOfName(names: seq<string>, name: string): (r: Option<nat>)
    ensures r.Some? ==> r.value < |names| && names[r.value] == name
    ensures r.None? ==> name !in names
  {
    if names == [] then None
    else if names[0] == name then Some(0)
    else match IndexOfName(names[1..], name)
      case None => None
      case Some(i) => Some(i + 1)
  }

  /** Reads "<name> <day><suffix>, <year>" where the suffix has `suffixLength`
      letters, the name is looked up in `names` and the year is unsigned. */
  function ParseDateText(s: string, names: seq<string>, suffixLength: nat): Option<DateParts> {
    var space := IndexOfChar(s, ' ');
    if space == |s| then None
    else
      match IndexOfName(names, s[..space])
      case None => None
      case Some(month) =>
        match ParseDayAndYear(s[space + 1..], suffixLength)
        case None => None
        case Some(dayAndYear) => Some(DateParts(month, dayAndYear.0, dayAndYear.1))
  }

  /** Reads "<day><suffix>, <year>". */
  function ParseDayAndYear(s: string, suffixLength: nat): Option<(nat, nat)> {
    var digits := DigitPrefixLength(s);
    if digits == 0 || |s| < digits + suffixLength + 2 then None
    else
      var tail := s[digits + suffixLength..];
      var yearText := tail[2..];
      if tail[..2] != ", " || yearText == [] || !AllDigits(yearText) then None
      else Some((DecimalValue(s[..digits]), DecimalValue(yearText)))
  }

  /** The date values a formatter can be given: names that match the
      numbers, a day of month, a year written without a sign. */
  predicate IsWellFormed(d: DateInfo) {
    && 0 <= d.month < 12 && 0 <= d.dayOfWeek < 7
    && d.dayName == DayNames[d.dayOfWeek]
    && d.monthName == MonthNames[d.month]
    && d.shortMonthName == ShortMonthNames[d.month]
    && 1 <= d.dayOfMonth <= 31 && d.year >= 0
  }

  lemma NamesHaveNoSpace(names: seq<string>, m: nat)
    requires names == MonthNames || names == ShortMonthNames
    requires m < 12
    ensures ' ' !in names[m]
  {
  }

  lemma {:induction false} NamesDistinct(names: seq<string>, m: nat)
    requires names == MonthNames || names == ShortMonthNames
    requires m < 12
    ensures IndexOfName(names, names[m]) == Some(m)
  {
    if names == MonthNames {
      NameIndexAt(MonthNames, m);
    } else {
      NameIndexAt(ShortMonthNames, m);
    }
  }

  lemma {:induction false} NameIndexAt(names: seq<string>, m: nat)
    requires m < |names|
    requires forall i, j :: 0 <= i < j < |names| ==> names[i] != names[j]
    ensures IndexOfName(names, names[m]) == Some(m)
    decreases m
  {
    if m > 0 {
      assert names[1..][m - 1] == names[m];
      NameIndexAt(names[1..], m - 1);
    }
  }

  /** Digits followed by something that is not a digit: the prefix is found. */
  lemma {:induction false} DigitPrefixOf(digits: string, rest: string)
    requires |digits| >= 1 && AllDigits(digits)
    requires rest != [] && !IsDigit(rest[0])
    ensures DigitPrefixLength(digits + rest) == |digits|
    decreases |digits|
  {
    if |digits| > 1 {
      assert (digits + rest)[1..] == digits[1..] + rest;
      DigitPrefixOf(digits[1..], rest);
    } else {
      assert (digits + rest)[1..] == rest;
    }
  }

  lemma {:induction false} FirstSpaceAfterName(name: string, rest: string)
    requires ' ' !in name
    ensures IndexOfChar(name + " " + rest, ' ') == |name|
    decreases |name|
  {
    if name != [] {
      assert (name + " " + rest)[1..] == name[1..] + " " + rest;
      FirstSpaceAfterName(name[1..], rest);
    }
  }

  lemma ParseDayAndYearFormatted(suffix: string, day: nat, year: nat)
    requires 1 <= day && (suffix == [] || !IsDigit(suffix[0]))
    ensures ParseDayAndYear(NatToString(day) + suffix + ", " + NatToString(year), |suffix|) == Some((day, year))
  {
    ParseDayAndYearLayout(NatToString(day), suffix, NatToString(year));
    DecimalRoundTrip(day);
    DecimalRoundTrip(year);
  }

  /** "<digits><suffix>, <digits>" reads back as its two numbers. */
  lemma ParseDayAndYearLayout(dayText: string, suffix: string, yearText: string)
    requires |dayText| >= 1 && AllDigits(dayText) && |yearText| >= 1 && AllDigits(yearText)
    requires suffix == [] || !IsDigit(suffix[0])
    ensures ParseDayAndYear(dayText + suffix + ", " + yearText, |suffix|)
            == Some((DecimalValue(dayText), DecimalValue(yearText)))
  {
    var tail := ", " + yearText;
    var after := suffix + ", " + yearText;
    RegroupConcat(dayText, suffix, ", ", yearText);
    var s := dayText + after;
    SplitConcat(suffix, tail);
    assert after[0] == if suffix == [] then ',' else suffix[0];
    DigitPrefixOf(dayText, after);
    SplitConcat(dayText, after);
    var d, k := |dayText|, |suffix|;
    assert s[d + k..] == after[k..];
    ParseDayAndYearAt(s, d, k, dayText, yearText);
  }

  /** ParseDayAndYear on a text laid out as `d` digits, `k` more
      characters, ", " and the digits of the year. */
  lemma ParseDayAndYearAt(s: string, d: nat, k: nat, dayText: string, yearText: string)
    requires d == DigitPrefixLength(s) >= 1 && d + k <= |s|
    requires s[..d] == dayText && s[d + k..] == ", " + yearText && yearText != []
    requires AllDigits(dayText) && AllDigits(yearText)
    ensures ParseDayAndYear(s, k) == Some((DecimalValue(dayText), DecimalValue(yearText)))
  {
    SplitConcat(", ", yearText);
  }

  lemma ParseFormatted(name: string, names: seq<string>, m: nat, suffix: string, day: nat, year: nat)
    requires m < |names| && names[m] == name && IndexOfName(names, name) == Some(m)
    requires ' ' !in name
    requires 1 <= day && (suffix == [] || !IsDigit(suffix[0]))
    ensures ParseDateText(name + " " + NatToString(day) + suffix + ", " + NatToString(year), names, |suffix|)
            == Some(DateParts(m, day, year))
  {
    var dayText, yearText := NatToString(day), NatToString(year);
    var rest := dayText + suffix + ", " + yearText;
    ParseDayAndYearFormatted(suffix, day, year);
    RegroupConcat5(name + " ", dayText, suffix, ", ", yearText);
    ParseAfterName(name + " " + dayText + suffix + ", " + yearText, name, names, m, rest, |suffix|);
  }

  /** A known month name and a space, then the day and year. */
  lemma ParseAfterName(s: string, name: string, names: seq<string>, m: nat, rest: string, k: nat)
    requires s == name + " " + rest
    requires IndexOfName(names, name) == Some(m)
    requires ' ' !in name
    requires ParseDayAndYear(rest, k).Some?
    ensures ParseDateText(s, names, k)
            == Some(DateParts(m, ParseDayAndYear(rest, k).value.0, ParseDayAndYear(rest, k).value.1))
  {
    FirstSpaceAfterName(name, rest);
    SplitConcat(name + " ", rest);
    SplitConcat(name, " ");
    assert s[..|name|] == (name + " ")[..|name|];
  }

  /** Each format can be read back into the month, day and year it shows. */
  lemma LongDateRoundTrip(d: DateInfo)
    requires IsWellFormed(d)
    ensures ParseDateText(FormatLongDate(d), MonthNames, 0) == Some(DateParts(d.month, d.dayOfMonth, d.year))
  {
    NamesHaveNoSpace(MonthNames, d.month);
    NamesDistinct(MonthNames, d.month);
    ParseFormatted(d.monthName, MonthNames, d.month, "", d.dayOfMonth, d.year);
    var head := d.monthName + " " + NatToString(d.dayOfMonth);
    assert IntToString(d.dayOfMonth) == NatToString(d.dayOfMonth);
    assert IntToString(d.year) == NatToString(d.year);
    assert head + "" == head;
  }

  /** What the clock shows for a reading reads back as that reading's
      month, day and year. */
  lemma CurrentDateRoundTrip(now: CalendarReading)
    requires IsCalendarReading(now) && now.year >= 0
    ensures ParseDateText(FormatLongDate(CurrentDate(now)), MonthNames, 0)
      == Some(DateParts(now.month, now.dayOfMonth, now.year))
  {
    LongDateRoundTrip(CurrentDate(now));
  }

  lemma ShortDateRoundTrip(d: DateInfo)
    requires IsWellFormed(d)
    ensures ParseDateText(FormatShortDate(d), ShortMonthNames, 0) == Some(DateParts(d.month, d.dayOfMonth, d.year))
  {
    NamesHaveNoSpace(ShortMonthNames, d.month);
    NamesDistinct(ShortMonthNames, d.month);
    ParseFormatted(d.shortMonthName, ShortMonthNames, d.month, "", d.dayOfMonth, d.year);
    var head := d.shortMonthName + " " + NatToString(d.dayOfMonth);
    assert IntToString(d.dayOfMonth) == NatToString(d.dayOfMonth);
    assert IntToString(d.year) == NatToString(d.year);
    assert head + "" == head;
  }

  lemma OrdinalDateRoundTrip(d: DateInfo)
    requires IsWellFormed(d)
    ensures ParseDateText(FormatOrdinalDate(d), MonthNames, 2) == Some(DateParts(d.month, d.dayOfMonth, d.year))
  {
    NamesHaveNoSpace(MonthNames, d.month);
    NamesDistinct(MonthNames, d.month);
    var suffix := OrdinalSuffix(d.dayOfMonth);
    assert |suffix| == 2 && !IsDigit(suffix[0]);
    ParseFormatted(d.monthName, MonthNames, d.month, suffix, d.dayOfMonth, d.year);
  }

  /** hasDayChanged: a missing date always counts as a change; otherwise
      only the weekday and the day of the month are compared. */
  function HasDayChanged(before: Option<DateInfo>, after: Option<DateInfo>): (changed: bool)
    ensures before.None? || after.None? ==> changed
    ensures before.Some? && after.Some? ==>
      (changed <==> (before.value.dayOfWeek, before.value.dayOfMonth) != (after.value.dayOfWeek, after.value.dayOfMonth))
    ensures before == after && before.Some? ==> !changed
  {
    if before.None? || after.None? then true
    else before.value.dayOfWeek != after.value.dayOfWeek || before.value.dayOfMonth != after.value.dayOfMonth
  }

  lemma DayChangeSymmetric(a: Option<DateInfo>, b: Option<DateInfo>)
    ensures HasDayChanged(a, b) == HasDayChanged(b, a)
  {
  }

  /** When no change is reported, the weekday name and the ordinal suffix
      shown stay the same. */
  lemma UnchangedDayKeepsNames(a: CalendarReading, b: CalendarReading)
    requires IsCalendarReading(a) && IsCalendarReading(b)
    requires !HasDayChanged(Some(CurrentDate(a)), Some(CurrentDate(b)))
    ensures CurrentDate(a).dayName == CurrentDate(b).dayName
    ensures OrdinalSuffix(CurrentDate(a).dayOfMonth) == OrdinalSuffix(CurrentDate(b).dayOfMonth)
  {
  }

  /** Month and year are ignored: Monday 1 January 2024 and Monday 1 April
      2024 count as the same day. */
  lemma MonthAndYearIgnored()
    ensures !HasDayChanged(Some(CurrentDate(CalendarReading(1, 1, 0, 2024))),
                           Some(CurrentDate(CalendarReading(1, 1, 3, 2024))))
  {
  }
}
