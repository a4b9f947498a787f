/**
 * Calendar arithmetic of JavaScript's `Date`, as section 21.4.1 of
 * ECMA-262 defines it, on day numbers (days since 1970-01-01, UTC): every
 * date the routes build is a UTC midnight, so a time value is its day number
 * times 86 400 000 ms and comparing or subtracting dates is comparing or
 * subtracting day numbers. Also the two string forms the routes use: the
 * date-only forms of the Date Time String Format (section 21.4.1.32), which
 * `new Date(s + "T00:00:00Z")` reads, and the date part of `toISOString()`.
 */
module Dates {

  import opened Wrappers
  import opened JsText

  /** DayFromYear(y): the day number of January 1 of year y. Dafny's `/` by
      a positive constant rounds down, as the standard's floor does. */
  function DayFromYear(y: int): int {
    365 * (y - 1970) + (y - 1969) / 4 - (y - 1901) / 100 + (y - 1601) / 400
  }

  predicate IsLeap(y: int) {
    y % 4 == 0 && (y % 100 != 0 || y % 400 == 0)
  }

  function DaysInYear(y: int): int {
    if IsLeap(y) then 366 else 365
  }

  /** Length of month `m` (0 = January) of year `y`. */
  function DaysInMonth(y: int, m: int): (n: int)
    ensures 28 <= n <= 31
  {
    if m == 1 then (if IsLeap(y) then 29 else 28)
    else if m == 3 || m == 5 || m == 8 || m == 10 then 30
    else 31
  }

  /** Days of year `y` before the first of month `m` (0 = January). From
      March on, the months from March have the lengths 31, 30, 31, 30, 31,
      31, 30, 31, 30, 31, which the rounded-down (153 k + 2) / 5 adds up. */
  function DaysBeforeMonth(y: int, m: int): (n: int)
    ensures n >= 0
  {
    if m <= 0 then 0
    else if m == 1 then 31
    else 59 + (153 * (m - 2) + 2) / 5 + (if IsLeap(y) then 1 else 0)
  }

  /** MakeDay(year, month, date) on integer arguments: months beyond 0..11
      carry into the year, and days beyond the month's length run on into
      the following months (or back into earlier ones). */
  function MakeDay(year: int, month: int, date: int): int {
    var ym := year + month / 12;
    var mn := month % 12;
    DayFromYear(ym) + DaysBeforeMonth(ym, mn) + date - 1
  }

  /** A calendar date with a 1-based month, as the strings write it. */
  datatype Civil = Civil(year: int, month: int, day: int)

  predicate Valid(c: Civil) {
    1 <= c.month <= 12 && 1 <= c.day <= DaysInMonth(c.year, c.month - 1)
  }

  /** The day number of a calendar date: `Date.UTC(year, month - 1, day)`. */
  function DayNumber(c: Civil): int {
    MakeDay(c.year, c.month - 1, c.day)
  }

  /** ToIntegerOrInfinity on a finite number: truncation toward zero. */
  function Trunc(x: real): (r: int)
    ensures x >= 0.0 ==> r >= 0
    ensures x > -1.0 ==> r >= 0
  {
    if x >= 0.0 then x.Floor else -((-x).Floor)
  }

  /** The year `Date.UTC` uses: 0 to 99 stand for 1900 to 1999. */
  function UtcYear(y: int): (r: int)
    ensures r >= y
    ensures r < 0 || r >= 100
  {
    if 0 <= y <= 99 then 1900 + y else y
  }

  /** `Date.UTC(year, month, date)` on integer arguments, as a day number. */
  function DateUtc(year: int, month: int, date: int): int {
    MakeDay(UtcYear(year), month, date)
  }

  // ---------------------------------------------------------------------
  // Facts about the day arithmetic

  /** A year is as long as the distance to the next year's first day. */
  lemma NextYear(y: int)
    ensures DayFromYear(y + 1) == DayFromYear(y) + DaysInYear(y)
  {
    Step4(y);
    Step100(y);
    Step400(y);
    Divisors(y);
  }

  lemma Divisors(y: int)
    ensures y % 100 == 0 ==> y % 4 == 0
    ensures y % 400 == 0 ==> y % 100 == 0
  {
    if y % 100 == 0 {
      assert y == 4 * (25 * (y / 100));
    }
    if y % 400 == 0 {
      assert y == 100 * (4 * (y / 400));
    }
  }

  // The three rounded-down quotients of DayFromYear grow by one exactly in
  // the years divisible by 4, 100 and 400.
  lemma Step4(y: int)
    ensures (y + 1 - 1969) / 4 == (y - 1969) / 4 + (if y % 4 == 0 then 1 else 0)
  {
  }

  lemma Step100(y: int)
    ensures (y + 1 - 1901) / 100 == (y - 1901) / 100 + (if y % 100 == 0 then 1 else 0)
  {
  }

  lemma Step400(y: int)
    ensures (y + 1 - 1601) / 400 == (y - 1601) / 400 + (if y % 400 == 0 then 1 else 0)
  {
  }

  /** Later years start later: at least 365 days per year in between. */
  lemma {:induction false} DayFromYearGrows(a: int, b: int)
    requires a <= b
    ensures DayFromYear(a) + 365 * (b - a) <= DayFromYear(b)
    decreases b - a
  {
    if a < b {
      DayFromYearGrows(a, b - 1);
      NextYear(b - 1);
    }
  }

  /** The months of a year fill it exactly. */
  lemma MonthsFillYear(y: int, m: int)
    requires 0 <= m < 12
    ensures m < 11 ==> DaysBeforeMonth(y, m + 1) == DaysBeforeMonth(y, m) + DaysInMonth(y, m)
    ensures m == 11 ==> DaysBeforeMonth(y, m) + DaysInMonth(y, m) == DaysInYear(y)
  {
  }

  /** `Date.UTC(y, m - 1, d)` of a valid date falls in year `UtcYear(y)`:
      even February 29 of a year 0..99 that maps to a common year only
      runs on to March 1. So that year is what `getUTCFullYear` reads. */
  lemma DateUtcWithinYear(c: Civil)
    requires Valid(c)
    ensures DayFromYear(UtcYear(c.year)) <= DateUtc(c.year, c.month - 1, c.day) < DayFromYear(UtcYear(c.year) + 1)
  {
    var y := UtcYear(c.year);
    DaysBeforeMonthBound(y, c.month - 1);
    assert DaysBeforeMonth(y, c.month - 1) + c.day <= DaysInYear(y);
    InYear(y, c.month - 1, c.day);
  }

  /** A day of month m that does not run past the end of year y. */
  lemma InYear(y: int, m: int, d: int)
    requires 0 <= m < 12 && 1 <= d && DaysBeforeMonth(y, m) + d <= DaysInYear(y)
    ensures DayFromYear(y) <= MakeDay(y, m, d) < DayFromYear(y + 1)
  {
    MakeDayInYear(y, m, d);
    NextYear(y);
  }

  lemma MakeDayInYear(y: int, m: int, d: int)
    requires 0 <= m < 12
    ensures MakeDay(y, m, d) == DayFromYear(y) + DaysBeforeMonth(y, m) + d - 1
  {
    assert m / 12 == 0 && m % 12 == m;
  }

  /** `Date.UTC(y + 1, month, date)`, y being the `Date.UTC` year of a valid
      date c, for a month index and day that are not negative: never earlier
      than c itself. */
  function NextYearDate(c: Civil, month: int, date: int): (r: int)
    ensures Valid(c) && month >= 0 && date >= 0 ==> r >= DateUtc(c.year, c.month - 1, c.day)
  {
    var y := UtcYear(c.year);
    if Valid(c) && month >= 0 && date >= 0 then
      DateUtcWithinYear(c);
      MakeDayFloor(UtcYear(y + 1), month, date);
      DayFromYearGrows(y + 1, UtcYear(y + 1));
      DateUtc(y + 1, month, date)
    else DateUtc(y + 1, month, date)
  }

  lemma DaysBeforeMonthBound(y: int, m: int)
    requires 0 <= m < 12
    ensures DaysBeforeMonth(y, m) + DaysInMonth(y, m) <= DaysInYear(y)
  {
  }

  /** MakeDay with a month index and day that are not negative is never
      earlier than the last day before the year starts. */
  lemma MakeDayFloor(year: int, month: int, date: int)
    requires month >= 0 && date >= 0
    ensures MakeDay(year, month, date) >= DayFromYear(year) - 1
  {
    DayFromYearGrows(year, year + month / 12);
  }

  /** One more month index adds the length of the month passed over. */
  lemma MonthStep(year: int, month: int, date: int)
    ensures MakeDay(year, month + 1, date) ==
      MakeDay(year, month, date) + DaysInMonth(year + month / 12, month % 12)
  {
    var ym := year + month / 12;
    var mn := month % 12;
    if mn < 11 {
      assert (month + 1) / 12 == month / 12 && (month + 1) % 12 == mn + 1;
      MonthsFillYear(ym, mn);
    } else {
      assert (month + 1) / 12 == month / 12 + 1 && (month + 1) % 12 == 0;
      NextYear(ym);
    }
  }

  /** `d.setUTCMonth(month)` on a valid date: the same day of the month in
      the new month, running on into the next month when that month is too
      short (March 31 moved to February is March 2 or 3). */
  function SetUtcMonth(c: Civil, month: int): (r: Civil)
    requires Valid(c)
    ensures Valid(r) && DayNumber(r) == MakeDay(c.year, month, c.day)
  {
    var ym := c.year + month / 12;
    var mn := month % 12;
    var len := DaysInMonth(ym, mn);
    MakeDayCarry(c.year, month, c.day);
    if c.day <= len then
      Civil(ym, mn + 1, c.day)
    else
      MonthOverflow(ym, mn, c.day);
      Civil(ym, mn + 2, c.day - len)
  }

  /** MakeDay carries whole years out of the month index. */
  lemma MakeDayCarry(year: int, month: int, date: int)
    ensures MakeDay(year, month, date) == MakeDay(year + month / 12, month % 12, date)
  {
    var mn := month % 12;
    assert mn / 12 == 0 && mn % 12 == mn;
  }

  /** A day past the end of a month is an early day of the next month of the
      same year. */
  lemma MonthOverflow(y: int, m: int, d: int)
    requires 0 <= m < 12 && DaysInMonth(y, m) < d <= 31
    ensures m < 11 && 1 <= d - DaysInMonth(y, m) <= DaysInMonth(y, m + 1)
    ensures MakeDay(y, m + 1, d - DaysInMonth(y, m)) == MakeDay(y, m, d)
  {
    MonthsFillYear(y, m);
    MakeDayInYear(y, m, d);
    MakeDayInYear(y, m + 1, d - DaysInMonth(y, m));
  }

  // ---------------------------------------------------------------------
  // `toISOString().slice(0, 10)`

  /** `String(n).padStart(2, "0")`. */
  function Pad2(n: nat): string {
    PadStart(NatToString(n), 2, '0')
  }

  /** The year field of `toISOString`: four digits for 0..9999, otherwise a
      sign and six digits. */
  function YearField(y: int): (s: string)
    ensures |s| >= 4
  {
    if 0 <= y <= 9999 then PadStart(NatToString(y), 4, '0')
    else (if y < 0 then "-" else "+") + PadStart(NatToString(if y < 0 then -y else y), 6, '0')
  }

  /** `toISOString()` of the UTC midnight of a date. */
  function IsoString(c: Civil): (s: string)
    requires Valid(c)
    ensures |s| >= 10
  {
    YearField(c.year) + "-" + Pad2(c.month) + "-" + Pad2(c.day) + "T00:00:00.000Z"
  }

  /** `toISOString().slice(0, 10)`. */
  function IsoDate(c: Civil): (s: string)
    requires Valid(c)
    ensures |s| == 10
  {
    IsoString(c)[..10]
  }

  // ---------------------------------------------------------------------
  // `new Date(s + "T00:00:00Z")`

  /** The date `new Date(s + "T00:00:00Z")` denotes, or None for an Invalid
      Date. With the time part fixed, the whole string is in the Date Time
      String Format exactly when `s` is one of its date-only forms: YYYY,
      YYYY-MM or YYYY-MM-DD, the year possibly written as a sign and six
      digits (but not -000000). A month outside 01-12 or a day outside the
      month is an illegal value and makes the date invalid. */
  function ParseDateForm(s: string): (r: Option<Civil>)
    ensures r.Some? ==> Valid(r.value)
  {
    if |s| >= 1 && (s[0] == '+' || s[0] == '-') then
      if |s| < 7 || !AllDigits(s[1..7]) then None
      else
        var v := DigitsValue(s[1..7]);
        if s[0] == '-' && v == 0 then None
        else ParseMonthDay(if s[0] == '-' then 0 - v else v, s[7..])
    else if |s| < 4 || !AllDigits(s[..4]) then None
    else ParseMonthDay(DigitsValue(s[..4]), s[4..])
  }

  /** The part after the year: nothing, "-MM" or "-MM-DD". */
  function ParseMonthDay(y: int, rest: string): (r: Option<Civil>)
    ensures r.Some? ==> Valid(r.value) && r.value.year == y
  {
    if rest == [] then Some(Civil(y, 1, 1))
    else if |rest| < 3 || rest[0] != '-' || !AllDigits(rest[1..3]) then None
    else
      var m := DigitsValue(rest[1..3]);
      if !(1 <= m <= 12) then None
      else if |rest| == 3 then Some(Civil(y, m, 1))
      else if |rest| != 6 || rest[3] != '-' || !AllDigits(rest[4..6]) then None
      else
        var d := DigitsValue(rest[4..6]);
        if 1 <= d <= DaysInMonth(y, m - 1) then Some(Civil(y, m, d)) else None
  }

  /** A number below 10^k takes at most k digits. */
  lemma {:induction false} NatToStringLength(n: nat, k: nat)
    requires k >= 1 && n < Pow10(k)
    ensures |NatToString(n)| <= k
  {
    if n >= 10 {
      assert k >= 2 && n / 10 < Pow10(k - 1) by {
        assert Pow10(k) == 10 * Pow10(k - 1);
        assert Pow10(1) == 10;
      }
      NatToStringLength(n / 10, k - 1);
      assert NatToString(n) == NatToString(n / 10) + [DigitChar(n % 10)];
    }
  }

  /** A zero-padded number is all digits and reads back as the number. */
  lemma PaddedDigits(n: nat, width: nat)
    ensures AllDigits(PadStart(NatToString(n), width, '0'))
    ensures DigitsValue(PadStart(NatToString(n), width, '0')) == n
  {
    var ds := NatToString(n);
    var p := PadStart(ds, width, '0');
    var k := |p| - |ds|;
    var zs := seq(k, _ => '0') + ds;
    forall i | 0 <= i < |p| ensures p[i] == zs[i] {
      if i >= k {
        assert p[i] == p[k..][i - k];
      }
    }
    assert p == zs;
    DigitsValueLeadingZeros(k, ds);
  }

  /** A four-digit year followed by `rest` is read as that year. */
  lemma ParseFourDigitYear(y: string, rest: string)
    requires |y| == 4 && AllDigits(y)
    ensures ParseDateForm(y + rest) == ParseMonthDay(DigitsValue(y), rest)
  {
    var s := y + rest;
    assert IsDigit(s[0]) && s[..4] == y && s[4..] == rest;
  }

  /** "-MM-DD" of a valid month and day is read as that month and day. */
  lemma ParseMonthAndDay(c: Civil, mm: string, dd: string)
    requires Valid(c)
    requires |mm| == 2 && AllDigits(mm) && DigitsValue(mm) == c.month
    requires |dd| == 2 && AllDigits(dd) && DigitsValue(dd) == c.day
    ensures ParseMonthDay(c.year, "-" + mm + "-" + dd) == Some(c)
  {
    DashFields(mm, dd);
  }

  lemma DashFields(mm: string, dd: string)
    requires |mm| == 2 && |dd| == 2
    ensures var rest := "-" + mm + "-" + dd;
            |rest| == 6 && rest[0] == '-' && rest[1..3] == mm && rest[3] == '-' && rest[4..6] == dd
  {
    var rest := "-" + mm + "-" + dd;
    assert rest[1..3] == mm;
    assert rest[4..6] == dd;
  }

  /** A number below 10^k, padded to k digits: k digits that read back as it. */
  lemma PaddedField(n: nat, k: nat)
    requires k >= 1 && n < Pow10(k)
    ensures |PadStart(NatToString(n), k, '0')| == k
    ensures AllDigits(PadStart(NatToString(n), k, '0'))
    ensures DigitsValue(PadStart(NatToString(n), k, '0')) == n
  {
    NatToStringLength(n, k);
    PaddedDigits(n, k);
  }

  /** The first ten characters of `toISOString` for the years 0 to 9999:
      the four-digit year, the month and the day, joined by '-'. */
  lemma IsoDateText(c: Civil)
    requires Valid(c) && 0 <= c.year <= 9999
    ensures IsoDate(c) == PadStart(NatToString(c.year), 4, '0') + ("-" + Pad2(c.month) + "-" + Pad2(c.day))
  {
    var y := PadStart(NatToString(c.year), 4, '0');
    var tail := "-" + Pad2(c.month) + "-" + Pad2(c.day);
    var head := y + "-" + Pad2(c.month) + "-" + Pad2(c.day);
    FourDigitYear(c.year);
    TwoDigits(c.month);
    TwoDigits(c.day);
    assert |head| == 10;
    PrefixOfAppend(head, "T00:00:00.000Z");
    AppendAssoc(y, "-", Pad2(c.month));
    AppendAssoc(y, "-" + Pad2(c.month), "-");
    AppendAssoc(y, "-" + Pad2(c.month) + "-", Pad2(c.day));
  }

  lemma FourDigitYear(y: int)
    requires 0 <= y <= 9999
    ensures YearField(y) == PadStart(NatToString(y), 4, '0')
    ensures |YearField(y)| == 4
  {
    NatToStringLength(y, 4);
  }

  lemma TwoDigits(n: nat)
    requires n < 100
    ensures |Pad2(n)| == 2
  {
    NatToStringLength(n, 2);
  }

  lemma PrefixOfAppend(a: string, b: string)
    ensures (a + b)[..|a|] == a
  {
  }

  lemma AppendAssoc(a: string, b: string, c: string)
    ensures (a + b) + c == a + (b + c)
  {
  }

  /** Reading back the date part of `toISOString` gives the date again, for
      the years 0 to 9999 that it writes with four digits. */
  lemma IsoDateRoundTrip(c: Civil)
    requires Valid(c) && 0 <= c.year <= 9999
    ensures ParseDateForm(IsoDate(c)) == Some(c)
  {
    var y := PadStart(NatToString(c.year), 4, '0');
    var mm := Pad2(c.month);
    var dd := Pad2(c.day);
    IsoDateText(c);
    PaddedField(c.year, 4);
    PaddedField(c.month, 2);
    PaddedField(c.day, 2);
    ParseFourDigitYear(y, "-" + mm + "-" + dd);
    ParseMonthAndDay(c, mm, dd);
  }
}
