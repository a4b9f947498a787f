/** The small computations the tool-call cards make before rendering: the
    overdue day count of a payable, the days left to a birthday and its
    label, a customer's initials, and which cards take the full width. */
module ToolCallHelpers {

  import opened Wrappers
  import opened JsText
  import opened Dates
  import opened Birthdays
  import opened ClientFunctions

  const MsPerDay: int := 1000 * 60 * 60 * 24

  // Overdue payables

  /** `Math.max(0, x)` on an integer. */
  function Max0(x: int): int {
    if x < 0 then 0 else x
  }

  /** `daysBetween(d1, d2)` on time values in milliseconds, None being NaN:
      the whole days from `d2` to `d1`, never negative. */
  function DaysBetween(d1: Option<int>, d2: Option<int>): (r: Option<int>)
    ensures r.Some? <==> d1.Some? && d2.Some?
    ensures r.Some? ==> r.value >= 0
    ensures r.Some? ==> (r.value == 0 <==> d1.value - d2.value < MsPerDay)
    ensures r.Some? && r.value > 0 ==>
              r.value * MsPerDay <= d1.value - d2.value < (r.value + 1) * MsPerDay
  {
    if d1.Some? && d2.Some? then Some(Max0((d1.value - d2.value) / MsPerDay)) else None
  }

  /** The time value of a date at midnight UTC, None for an Invalid Date. */
  function TimeOf(date: Option<Civil>): Option<int> {
    if date.Some? then Some(DayNumber(date.value) * MsPerDay) else None
  }

  /** `new Date(s + "T00:00:00Z")`. */
  function DateAt(s: string): Option<int> {
    TimeOf(ParseDateForm(s))
  }

  /** `asOfDate`: the reported date when there is one, else the clock's
      current time value `now`. */
  function AsOfDate(asOf: Option<string>, now: int): Option<int> {
    if Truthy(asOf) then DateAt(asOf.value) else Some(now)
  }

  /** `overdueDays`: undefined without a due date; otherwise a number, NaN
      (None) when a date is invalid, since a Date object is always truthy. */
  datatype Overdue = NoDueDate | Days(n: Option<int>)

  function OverdueDays(dueDate: Option<string>, asOfDate: Option<int>): (r: Overdue)
    ensures r.NoDueDate? <==> !Truthy(dueDate)
  {
    if Truthy(dueDate) then Days(DaysBetween(asOfDate, DateAt(dueDate.value))) else NoDueDate
  }

  /** Between two midnights the count is the difference of the day numbers,
      or 0 when the first is not later. */
  lemma MidnightDays(a: Civil, b: Civil)
    ensures DaysBetween(TimeOf(Some(a)), TimeOf(Some(b))) == Some(Max0(DayNumber(a) - DayNumber(b)))
  {
    var k := DayNumber(a) - DayNumber(b);
    assert DayNumber(a) * MsPerDay - DayNumber(b) * MsPerDay == k * MsPerDay;
    assert (k * MsPerDay) / MsPerDay == k;
  }

  /** A payable with a valid due date, seen on a valid report date, is
      overdue by the days from the due date to the report date, and by 0
      days when it is not yet due. */
  lemma OverdueOfDates(dueDate: string, asOf: string)
    requires dueDate != "" && asOf != ""
    requires ParseDateForm(dueDate).Some? && ParseDateForm(asOf).Some?
    ensures OverdueDays(Some(dueDate), AsOfDate(Some(asOf), 0)) ==
              Days(Some(Max0(DayNumber(ParseDateForm(asOf).value) - DayNumber(ParseDateForm(dueDate).value))))
  {
    MidnightDays(ParseDateForm(asOf).value, ParseDateForm(dueDate).value);
  }

  // Birthdays

  /** `remaining`: the days to the next birthday (`daysUntilBirthday`, the
      same computation as the birthdays route with `today` the current local
      date), undefined without a birth date. The card as written counts with
      `AsWritten`, which has the route's month and day mix-up. */
  function Remaining(birthDate: string, today: Civil, count: Count): (r: Option<int>)
    requires Valid(today)
    ensures r.Some? ==> r.value >= 0
  {
    if birthDate != "" then Some(CountDays(count, birthDate, today)) else None
  }

  /** The text beside the birthday. */
  function RemainingLabel(remaining: int): (s: string)
    ensures s == "Hoje" <==> remaining == 0
  {
    if remaining == 0 then "Hoje" else "Faltam " + IntToString(remaining) + " dias"
  }

  /** "Hoje" is shown exactly when the chosen count is 0. */
  lemma HojeOnTheDay(birthDate: string, today: Civil, count: Count)
    requires Valid(today) && birthDate != ""
    ensures RemainingLabel(Remaining(birthDate, today, count).value) == "Hoje"
            <==> CountDays(count, birthDate, today) == 0
  {
  }

  /** With the intended count, "Hoje" is shown on the birthday itself: for a
      "YYYY-MM-DD" birth date whose month and day are today's. */
  lemma HojeOnTheBirthday(birthDate: string, y: string, mm: string, dd: string, today: Civil)
    requires IsoFieldsAre(birthDate, y, mm, dd)
    requires Valid(today) && DigitsValue(mm) == today.month && DigitsValue(dd) == today.day
    ensures RemainingLabel(Remaining(birthDate, today, Corrected).value) == "Hoje"
  {
    BirthdayIsToday(birthDate, y, mm, dd, today);
  }

  /** The card as written does not show "Hoje" on a birthday: born on
      5 July 1990, on 5 July 2025 it counts more than 60000 days. */
  lemma CardMissesBirthday()
    ensures RemainingLabel(Remaining("1990-07-05", Civil(2025, 7, 5), AsWritten).value) != "Hoje"
  {
    BirthdayMonthDayMixUp();
  }

  // Initials

  /** `p[0]` of a word, joined as text: nothing for an empty word. */
  function FirstChar(p: string): (r: string)
    ensures |r| <= 1 && (p != [] ==> r == [p[0]])
  {
    if p == [] then [] else [p[0]]
  }

  /** The first characters of the first two space-separated words, before
      upper-casing. */
  function Picked(name: string): (r: string)
    ensures |r| <= 2
  {
    var words := Split(name, ' ');
    FirstChar(words[0]) + (if |words| > 1 then FirstChar(words[1]) else [])
  }

  /** `name.split(" ").map(p => p[0]).slice(0, 2).join("").toUpperCase()`. */
  function Initials(name: string): (r: string)
    ensures |r| >= |Picked(name)|
  {
    ToUpper(Picked(name))
  }

  /** The initials are at most two characters unless one of them is 'ß',
      which upper-cases to "SS"; at most four in any case. */
  lemma InitialsLength(name: string)
    ensures |Initials(name)| <= 4
    ensures 'ß' !in Picked(name) ==> |Initials(name)| <= 2
  {
    var p := Picked(name);
    if |p| == 0 {
    } else if |p| == 1 {
      assert ToUpper(p) == UpperChar(p[0]) + ToUpper([]);
    } else {
      assert p[1..] == [p[1]];
      assert ToUpper(p) == UpperChar(p[0]) + UpperChar(p[1]) + ToUpper([]);
    }
  }

  /** A name that starts with a word and a space takes its first initial
      from that word and its second from the next word. */
  lemma InitialsOf(w: string, rest: string)
    requires ' ' !in w
    ensures Initials(w + " " + rest) == ToUpper(FirstChar(w) + FirstChar(Split(rest, ' ')[0]))
  {
    SplitAt(w, ' ', rest);
    assert w + " " + rest == w + [' '] + rest;
  }

  // Card width

  const FullWidthNames: seq<string> := [
    "get_top_selling_products", "get_products_without_sales_since", "get_weekly_sales_comparison",
    "get_overdue_payables", "get_upcoming_payables_next_7_days", "get_birthdays_by_month"
  ]

  /** `isFullWidthTable`: a function call to one of the six table functions
      that has produced output. */
  predicate IsFullWidthTable(toolType: string, name: string, output: Option<string>) {
    toolType == "function_call" && name in FullWidthNames && Truthy(output)
  }

  /** Every full-width card belongs to a function the client registers. */
  lemma FullWidthRegistered(toolType: string, name: string, output: Option<string>)
    requires IsFullWidthTable(toolType, name, output)
    ensures name in Registry && name != "get_weather"
  {
  }
}
