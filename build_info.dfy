/**
 * BuildInfo: the build year, the 12-hour build time and the day/month build
 * date, all computed by character arithmetic on the compiler's `__DATE__`
 * ("Mmm dd yyyy", day padded with a space) and `__TIME__` ("hh:mm:ss").
 */
module BuildInfo {
  import opened Text

  /** `c - '0'`: the value C's character arithmetic gives a digit. */
  function CharValue(c: char): int
  {
    c as int - '0' as int
  }

  lemma DigitCharValue(d: nat)
    requires d < 10
    ensures CharValue(DigitChar(d)) == d
  {
  }

  // ---------------------------------------------------------------------------
  // The strings the compiler supplies
  // ---------------------------------------------------------------------------

  /** The three-letter month abbreviations `__DATE__` uses. */
  function MonthName(m: nat): (r: string)
    requires 1 <= m <= 12
    ensures |r| == 3
  {
    ["Jan", "Feb", "Mar", "Apr", "May", "Jun", "Jul", "Aug", "Sep", "Oct", "Nov", "Dec"][m - 1]
  }

  /** `%2d`: a day of the month, padded on the left with a space below 10. */
  function PaddedDay(d: nat): (r: string)
    requires d < 100
    ensures |r| == 2
  {
    if d < 10 then [' ', DigitChar(d)] else TwoDigits(d)
  }

  /** `__DATE__` for a month, day and four-digit year. */
  function DateString(month: nat, day: nat, year: nat): (r: string)
    requires 1 <= month <= 12 && 1 <= day <= 31 && 1000 <= year <= 9999
    ensures |r| == 11
  {
    MonthName(month) + " " + PaddedDay(day) + " " + TwoDigits(year / 100) + TwoDigits(year % 100)
  }

  /** `__TIME__` for an hour, minute and second. */
  function TimeString(hour: nat, minute: nat, second: nat): (r: string)
    requires hour < 24 && minute < 60 && second < 60
    ensures |r| == 8
  {
    TwoDigits(hour) + ":" + TwoDigits(minute) + ":" + TwoDigits(second)
  }

  // ---------------------------------------------------------------------------
  // BUILD_YEAR
  // ---------------------------------------------------------------------------

  /** BUILD_YEAR: the four characters after "Mmm dd " read as decimal digits. */
  function BuildYear(date: string): (r: int)
    requires |date| >= 11
    ensures (forall i :: 7 <= i < 11 ==> IsDigit(date[i])) ==> r == DecimalValue(date[7..11])
  {
    var v := CharValue(date[7]) * 1000 + CharValue(date[8]) * 100 + CharValue(date[9]) * 10 + CharValue(date[10]);
    if forall i :: 7 <= i < 11 ==> IsDigit(date[i]) then FourDigits(date[7..11]); v else v
  }

  lemma FourDigits(s: string)
    requires |s| == 4 && forall i :: 0 <= i < 4 ==> IsDigit(s[i])
    ensures DecimalValue(s) == CharValue(s[0]) * 1000 + CharValue(s[1]) * 100 + CharValue(s[2]) * 10 + CharValue(s[3])
  {
    assert s[..1][..0] == [];
    assert DecimalValue(s[..1]) == CharValue(s[0]);
    assert s[..2][..1] == s[..1];
    assert DecimalValue(s[..2]) == DecimalValue(s[..1]) * 10 + CharValue(s[1]);
    assert s[..3][..2] == s[..2];
    assert DecimalValue(s[..3]) == DecimalValue(s[..2]) * 10 + CharValue(s[2]);
    assert s[..3] == s[..|s| - 1];
  }

  /** The year of a date the compiler formats is read back exactly. */
  lemma BuildYearOfDate(month: nat, day: nat, year: nat)
    requires 1 <= month <= 12 && 1 <= day <= 31 && 1000 <= year <= 9999
    ensures BuildYear(DateString(month, day, year)) == year
  {
    var d := DateString(month, day, year);
    var hi, lo := TwoDigits(year / 100), TwoDigits(year % 100);
    assert d[7..11] == hi + lo;
    assert d[7] == DigitChar(year / 100 / 10) && d[8] == DigitChar(year / 100 % 10);
    assert d[9] == DigitChar(year % 100 / 10) && d[10] == DigitChar(year % 100 % 10);
  }

  // ---------------------------------------------------------------------------
  // getBuildTime12Hour
  // ---------------------------------------------------------------------------

  datatype Period = AM | PM

  function PeriodText(p: Period): string
  {
    match p
    case AM => "AM"
    case PM => "PM"
  }

  /** PM from noon on. */
  function PeriodOf(hour: nat): (r: Period)
    ensures r == PM <==> hour >= 12
  {
    if hour >= 12 then PM else AM
  }

  /** The 12-hour clock hour: 0 becomes 12, hours after 12 lose 12, the rest are kept. */
  function Hour12(hour: nat): (r: nat)
    ensures hour == 0 ==> r == 12
    ensures 1 <= hour <= 12 ==> r == hour
    ensures hour > 12 ==> r == hour - 12
  {
    if hour == 0 then 12 else if hour > 12 then hour - 12 else hour
  }

  /** The 24-hour clock hour of a 12-hour clock reading. */
  function Hour24(h12: nat, p: Period): nat
  {
    match p
    case AM => if h12 == 12 then 0 else h12
    case PM => if h12 == 12 then 12 else h12 + 12
  }

  /** For a real hour of the day the 12-hour reading is in 1..12 and determines the hour. */
  lemma Hour12RoundTrip(hour: nat)
    requires hour < 24
    ensures 1 <= Hour12(hour) <= 12
    ensures Hour24(Hour12(hour), PeriodOf(hour)) == hour
  {
  }

  /** `__TIME__` as getBuildTime12Hour relies on it: digits where the hour and minute are read. */
  predicate TimeDigits(time: string)
  {
    |time| >= 5 && IsDigit(time[0]) && IsDigit(time[1]) && IsDigit(time[3]) && IsDigit(time[4])
  }

  /** The hour and minute getBuildTime12Hour reads from characters 0-1 and 3-4. */
  function TimeFields(time: string): (r: (nat, nat))
    requires TimeDigits(time)
    ensures r.0 < 100 && r.1 < 100
  {
    (CharValue(time[0]) * 10 + CharValue(time[1]), CharValue(time[3]) * 10 + CharValue(time[4]))
  }

  lemma TimeFieldsOfTime(hour: nat, minute: nat, second: nat)
    requires hour < 24 && minute < 60 && second < 60
    ensures TimeDigits(TimeString(hour, minute, second))
    ensures TimeFields(TimeString(hour, minute, second)) == (hour, minute)
  {
    var t := TimeString(hour, minute, second);
    assert t[0] == DigitChar(hour / 10) && t[1] == DigitChar(hour % 10);
    assert t[3] == DigitChar(minute / 10) && t[4] == DigitChar(minute % 10);
  }

  /** getBuildTime12Hour: "%d:%02d %s" of the 12-hour hour, the minute and AM/PM. */
  function BuildTime12Hour(time: string): (r: string)
    requires TimeDigits(time)
    ensures EndsWith(r, " " + PeriodText(PeriodOf(TimeFields(time).0)))
  {
    var (hour, minute) := TimeFields(time);
    var r := NatToString(Hour12(hour)) + ":" + TwoDigits(minute) + " " + PeriodText(PeriodOf(hour));
    assert r[|r| - 3..] == " " + PeriodText(PeriodOf(hour));
    r
  }

  /** The text reads back as the build time: its hour field and period give the hour, its minute field the minute. */
  lemma BuildTime12HourReadsBack(hour: nat, minute: nat, second: nat)
    requires hour < 24 && minute < 60 && second < 60
    ensures TimeDigits(TimeString(hour, minute, second))
    ensures var r := BuildTime12Hour(TimeString(hour, minute, second));
      exists n :: 1 <= n <= 2 && n + 3 <= |r| &&
        (forall i :: 0 <= i < n ==> IsDigit(r[i])) && r[n] == ':' &&
        IsDigit(r[n + 1]) && IsDigit(r[n + 2]) &&
        Hour24(DecimalValue(r[..n]), PeriodOf(hour)) == hour &&
        DecimalValue(r[n + 1..n + 3]) == minute
  {
    TimeFieldsOfTime(hour, minute, second);
    var r := BuildTime12Hour(TimeString(hour, minute, second));
    Hour12RoundTrip(hour);
    var hs := NatToString(Hour12(hour));
    var ms := TwoDigits(minute);
    assert r == hs + ":" + ms + " " + PeriodText(PeriodOf(hour));
    var n := |hs|;
    NatToStringLength(Hour12(hour));
    assert r[..n] == hs;
    assert r[n + 1..n + 3] == ms;
  }

  lemma NatToStringLength(h: nat)
    requires h < 100
    ensures |NatToString(h)| <= 2
  {
    if h >= 10 {
      assert NatToString(h) == NatToString(h / 10) + [DigitChar(h % 10)];
    }
  }

  // ---------------------------------------------------------------------------
  // getBuildDateDayMonth
  // ---------------------------------------------------------------------------

  /** The month number of a three-letter prefix; anything not in the table falls back to 1. */
  function MonthNumber(date: string): (r: nat)
    requires |date| >= 3
    ensures 1 <= r <= 12
    ensures r == 1 || MonthName(r) == date[..3]
    ensures (forall m :: 1 <= m <= 12 ==> MonthName(m) != date[..3]) ==> r == 1
  {
    var a, b, c := date[0], date[1], date[2];
    assert date[..3] == [a, b, c];
    if a == 'J' && b == 'a' && c == 'n' then 1
    else if a == 'F' && b == 'e' && c == 'b' then 2
    else if a == 'M' && b == 'a' && c == 'r' then 3
    else if a == 'A' && b == 'p' && c == 'r' then 4
    else if a == 'M' && b == 'a' && c == 'y' then 5
    else if a == 'J' && b == 'u' && c == 'n' then 6
    else if a == 'J' && b == 'u' && c == 'l' then 7
    else if a == 'A' && b == 'u' && c == 'g' then 8
    else if a == 'S' && b == 'e' && c == 'p' then 9
    else if a == 'O' && b == 'c' && c == 't' then 10
    else if a == 'N' && b == 'o' && c == 'v' then 11
    else if a == 'D' && b == 'e' && c == 'c' then 12
    else 1
  }

  /** Every abbreviation maps back to its own month. */
  lemma MonthNumberOfName(m: nat)
    requires 1 <= m <= 12
    ensures MonthNumber(MonthName(m)) == m
  {
  }

  /** The day: one digit at index 5 when index 4 is a space, otherwise two digits at 4-5. */
  function DayOfDate(date: string): int
    requires |date| >= 6
  {
    if date[4] == ' ' then CharValue(date[5]) else CharValue(date[4]) * 10 + CharValue(date[5])
  }

  /** The day of a date the compiler formats, padded or not, is read back exactly. */
  lemma DayOfDateString(month: nat, day: nat, year: nat)
    requires 1 <= month <= 12 && 1 <= day <= 31 && 1000 <= year <= 9999
    ensures DayOfDate(DateString(month, day, year)) == day
    ensures MonthNumber(DateString(month, day, year)) == month
  {
    var d := DateString(month, day, year);
    assert d[..3] == MonthName(month);
    assert d[4..6] == PaddedDay(day);
    MonthNumberOfName(month);
  }

  /** getBuildDateDayMonth: "%d/%d" of the day and the month number. */
  function BuildDateDayMonth(date: string): (r: string)
    requires |date| >= 6
    requires date[4] == ' ' || IsDigit(date[4])
    requires IsDigit(date[5])
  {
    NatToString(DayOfDate(date)) + "/" + NatToString(MonthNumber(date))
  }

  /** The day/month text of a compiler date holds the day, a slash and the month, nothing else. */
  lemma BuildDateDayMonthReadsBack(month: nat, day: nat, year: nat)
    requires 1 <= month <= 12 && 1 <= day <= 31 && 1000 <= year <= 9999
    ensures var date := DateString(month, day, year);
      (date[4] == ' ' || IsDigit(date[4])) && IsDigit(date[5]) &&
      BuildDateDayMonth(date) == NatToString(day) + "/" + NatToString(month)
  {
    var date := DateString(month, day, year);
    assert date[4..6] == PaddedDay(day);
    DayOfDateString(month, day, year);
  }

  /** getBuildTimeAndDate: the two texts separated by four spaces. */
  function BuildTimeAndDate(time: string, date: string): (r: string)
    requires TimeDigits(time)
    requires |date| >= 6 && (date[4] == ' ' || IsDigit(date[4])) && IsDigit(date[5])
    ensures StartsWith(r, BuildTime12Hour(time) + "    ")
    ensures EndsWith(r, BuildDateDayMonth(date))
  {
    var t := BuildTime12Hour(time);
    var dm := BuildDateDayMonth(date);
    var r := t + "    " + dm;
    assert r[..|t| + 4] == t + "    ";
    assert r[|r| - |dm|..] == dm;
    r
  }
}
