/** The birthdays route: it reads a month as a number or a Portuguese month
    name, keeps the mock customers born in that month, and orders them by a
    day count computed from their birth date and today's date. */
module Birthdays {

  import opened Wrappers
  import opened JsText
  import opened Http
  import opened SeqUtil
  import opened Dates

  const MissingMonth := "Missing required query param \"month\""
  const InvalidMonth := "Invalid month. Use 1-12 or pt-BR month name."

  const PtMonths: seq<string> := [
    "janeiro", "fevereiro", "março", "abril", "maio", "junho",
    "julho", "agosto", "setembro", "outubro", "novembro", "dezembro"]

  /** `normalizeMonth`: the input lower-cased and trimmed; its numeric value
      when that lies in [1, 12] (fractions included), otherwise the 1-based
      position of an exact month name, otherwise null (None). */
  function NormalizeMonth(input: string): (r: Option<real>)
  {
    MonthIn(PtMonths, input)
  }

  /** The same against any table of twelve month names. */
  function MonthIn(names: seq<string>, input: string): (r: Option<real>)
    requires |names| == 12
    ensures r.Some? ==> 1.0 <= r.value <= 12.0
    ensures var lower := Trim(ToLower(input));
            var num := Number(lower);
            && (num.Some? && 1.0 <= num.value <= 12.0 ==> r == num)
            && (!(num.Some? && 1.0 <= num.value <= 12.0) ==> (r.None? <==> IndexOf(names, lower) < 0))
  {
    var lower := Trim(ToLower(input));
    var num := Number(lower);
    if num.Some? && 1.0 <= num.value <= 12.0 then num
    else
      var idx := IndexOf(names, lower);
      if idx >= 0 then Some((idx + 1) as real) else None
  }

  /** Lower-case letters of Portuguese month names. */
  predicate LowerWord(w: string) {
    |w| > 0 && forall k :: 0 <= k < |w| ==> 'a' <= w[k] <= 'z' || w[k] == 'ç'
  }

  /** A lower-case word is left as it is by `toLowerCase().trim()`, and is
      not a number. */
  lemma LowerWordKept(w: string)
    requires LowerWord(w)
    ensures Trim(ToLower(w)) == w && Number(w) == None
  {
    LowerFixed(w);
    assert !IsSpace(w[0]) && !IsSpace(w[|w| - 1]);
    TrimUnchanged(w);
    NumberOfWord(w);
  }

  lemma MonthNamesAreWords()
    ensures forall i :: 0 <= i < 12 ==> LowerWord(PtMonths[i])
  {
    FirstHalfWords();
    SecondHalfWords();
  }

  lemma FirstHalfWords()
    ensures LowerWord("janeiro") && LowerWord("fevereiro") && LowerWord("março")
    ensures LowerWord("abril") && LowerWord("maio") && LowerWord("junho")
  {
  }

  lemma SecondHalfWords()
    ensures LowerWord("julho") && LowerWord("agosto") && LowerWord("setembro")
    ensures LowerWord("outubro") && LowerWord("novembro") && LowerWord("dezembro")
  {
  }

  lemma MonthNamesDistinct()
    ensures forall a, b :: 0 <= a < b < 12 ==> PtMonths[a] != PtMonths[b]
  {
  }

  /** Each month name, exactly as listed, is its month number. */
  lemma MonthNames(i: nat)
    requires i < 12
    ensures NormalizeMonth(PtMonths[i]) == Some((i + 1) as real)
  {
    MonthNamesAreWords();
    IndexOfMonth(i);
    LowerWordKept(PtMonths[i]);
    NamedMonth(PtMonths, PtMonths[i], PtMonths[i], i);
  }

  /** Input that lower-cases and trims to the name at position i. */
  lemma NamedMonth(names: seq<string>, input: string, w: string, i: int)
    requires |names| == 12
    requires Trim(ToLower(input)) == w && LowerWord(w) && 0 <= i && IndexOf(names, w) == i
    ensures MonthIn(names, input) == Some((i + 1) as real)
  {
    LowerWordKept(w);
    var lower := Trim(ToLower(input));
    assert lower == w && Number(lower) == None;
  }

  lemma IndexOfMonth(i: nat)
    requires i < 12
    ensures IndexOf(PtMonths, PtMonths[i]) == i
  {
    MonthNamesDistinct();
    var r := IndexOf(PtMonths, PtMonths[i]);
    assert PtMonths[i] in PtMonths;
    assert PtMonths[r] == PtMonths[i];
  }

  /** Capitals and surrounding white space do not matter: any input that
      lower-cases and trims to a month name is that month. */
  lemma AnyCaseMonthName(input: string, i: nat)
    requires i < 12 && Trim(ToLower(input)) == PtMonths[i]
    ensures NormalizeMonth(input) == Some((i + 1) as real)
  {
    MonthNamesAreWords();
    IndexOfMonth(i);
    NamedMonth(PtMonths, input, PtMonths[i], i);
  }

  /** The accent matters: "marco" is not a month. */
  lemma UnaccentedMonth()
    ensures NormalizeMonth("marco") == None
  {
    assert LowerWord("marco");
    LowerWordKept("marco");
    MarcoNotAMonth();
  }

  lemma MarcoNotAMonth()
    ensures IndexOf(PtMonths, "marco") < 0
  {
    assert "marco" !in PtMonths;
  }

  lemma EmptyNotAMonth()
    ensures |PtMonths| == 12 && IndexOf(PtMonths, []) < 0
  {
    MonthNamesAreWords();
    assert "" !in PtMonths;
  }

  /** A month written as digits (leading zeros allowed) is that month. */
  lemma NumericMonths(ds: string)
    requires |ds| > 0 && AllDigits(ds) && 1 <= DigitsValue(ds) <= 12
    ensures NormalizeMonth(ds) == Some(DigitsValue(ds) as real)
  {
    DigitsNumber(ds);
    NumericIn(PtMonths, ds, DigitsValue(ds) as real);
  }

  /** Input that reads as a number in [1, 12] is that number, whatever the
      names. */
  lemma NumericIn(names: seq<string>, input: string, v: real)
    requires |names| == 12 && Number(Trim(ToLower(input))) == Some(v) && 1.0 <= v <= 12.0
    ensures MonthIn(names, input) == Some(v)
  {
  }

  /** Fractions in range are accepted as they are. */
  lemma FractionalMonth()
    ensures NormalizeMonth("7.5") == Some(7.5)
  {
    LowerFixed("7.5");
    SevenAndAHalfNumber();
    NumericIn(PtMonths, "7.5", 7.5);
  }

  lemma SevenAndAHalfNumber()
    ensures Trim("7.5") == "7.5" && Number("7.5") == Some(7.5)
  {
    var s := "7.5";
    TrimUnchanged(s);
    assert SignFree(s) == s;
    SevenAndAHalf();
  }

  lemma SevenAndAHalf()
    ensures UnsignedDecimal("7.5") == Some(7.5)
  {
    assert DigitPrefix("7.5") == "7";
    assert "7.5"[1..] == ".5" && ".5"[1..] == "5";
    assert DigitPrefix("5") == "5";
    assert DigitsValue("7") == 7 && DigitsValue("5") == 5;
  }

  /** Blank input is neither a number in range nor a name. */
  lemma BlankRejected(s: string)
    requires forall i :: 0 <= i < |s| ==> IsSpace(s[i])
    ensures NormalizeMonth(s) == None
  {
    BlankTrims(s);
    EmptyNotAMonth();
    EmptyRejected(PtMonths, s);
  }

  /** Input that trims to nothing reads as the number 0, out of range. */
  lemma EmptyRejected(names: seq<string>, input: string)
    requires |names| == 12 && Trim(ToLower(input)) == [] && IndexOf(names, []) < 0
    ensures MonthIn(names, input) == None
  {
    assert Number([]) == Some(0.0);
  }

  lemma BlankTrims(s: string)
    requires forall i :: 0 <= i < |s| ==> IsSpace(s[i])
    ensures Trim(ToLower(s)) == []
  {
    forall i | 0 <= i < |s| ensures LowerChar(s[i]) == s[i] {
      SpaceLower(s[i]);
    }
    LowerFixed(s);
    TrimBlank(s);
  }

  lemma SpaceLower(c: char)
    requires IsSpace(c)
    ensures LowerChar(c) == c
  {
  }

  datatype Customer = Customer(customerId: string, name: string, birthDate: string)

  /** A customer with the computed `_days`, which the reply keeps. */
  datatype Dated = Dated(customer: Customer, days: int)

  datatype BirthdayPage = BirthdayPage(items: seq<Dated>, month: real)

  const Customers: seq<Customer> := [
    Customer("C001", "Alice Costa", "1990-07-05"),
    Customer("C002", "Bruno Dias", "1988-07-21"),
    Customer("C003", "Carla Souza", "1995-08-10"),
    Customer("C004", "Diego Lima", "1992-07-30"),
    Customer("C005", "Eduarda Nunes", "1991-12-12"),
    Customer("C006", "Felipe Andrade", "1987-09-03"),
    Customer("C007", "Gabriela Teixeira", "1993-09-19"),
    Customer("C008", "Henrique Souza", "1985-09-27"),
    Customer("C009", "Isabela Martins", "1999-09-12")]

  /** `new Date(birth + "T00:00:00Z").getUTCMonth() + 1 === month`; an
      Invalid Date gives NaN, which equals nothing. */
  function InMonth(month: real): Customer -> bool {
    (c: Customer) => match ParseDateForm(c.birthDate)
         case Some(d) => d.month as real == month
         case None => false
  }

  /** `x || 1` for the result of `Number` (None is NaN or a missing field). */
  function OrOne(x: Option<real>): (r: real)
    ensures x.None? || x.value >= 0.0 ==> r > 0.0
  {
    if x.None? || x.value == 0.0 then 1.0 else x.value
  }

  /** The month index and day `daysUntil` passes to `Date.UTC`: built from
      the first two '-'-separated fields of the birth date, which in
      "YYYY-MM-DD" are the year and the month. */
  function BirthdayArgs(iso: string): (r: (int, int))
    ensures r.0 >= 0 && r.1 >= 0
  {
    var parts := Split(iso, '-');
    NumberNoMinus(parts[0]);
    var d := if |parts| > 1 then (NumberNoMinus(parts[1]); Number(parts[1])) else None;
    ArgsFrom(Number(parts[0]), d)
  }

  /** `Date.UTC`'s month index `(m || 1) - 1` and day `d || 1`, truncated. */
  function ArgsFrom(m: Option<real>, d: Option<real>): (r: (int, int))
    ensures m.None? || m.value >= 0.0 ==> r.0 >= 0
    ensures d.None? || d.value >= 0.0 ==> r.1 >= 0
  {
    (Trunc(OrOne(m) - 1.0), Trunc(OrOne(d)))
  }

  /** For "YYYY-MM-DD" the year less one becomes the month index and the
      month becomes the day of the month. */
  lemma BirthdayArgsOfIsoDate(y: string, mm: string, dd: string)
    requires |y| == 4 && |mm| == 2 && |dd| == 2 && AllDigits(y) && AllDigits(mm) && AllDigits(dd)
    ensures BirthdayArgs(y + "-" + mm + "-" + dd).0 == (if DigitsValue(y) == 0 then 0 else DigitsValue(y) - 1)
    ensures BirthdayArgs(y + "-" + mm + "-" + dd).1 == (if DigitsValue(mm) == 0 then 1 else DigitsValue(mm))
  {
    IsoFields(y, mm, dd);
    ArgsOfDigitFields(y + "-" + mm + "-" + dd, y, mm);
  }

  /** Two leading fields of digits give their values as the arguments. */
  lemma ArgsOfDigitFields(iso: string, y: string, mm: string)
    requires |y| > 0 && |mm| > 0 && AllDigits(y) && AllDigits(mm)
    requires var parts := Split(iso, '-'); |parts| > 1 && parts[0] == y && parts[1] == mm
    ensures BirthdayArgs(iso) ==
      (if DigitsValue(y) == 0 then 0 else DigitsValue(y) - 1, if DigitsValue(mm) == 0 then 1 else DigitsValue(mm))
  {
    ArgsOfFields(iso);
    NumberOfDigits(y);
    NumberOfDigits(mm);
    ArgsOfNumbers(DigitsValue(y), DigitsValue(mm));
  }

  lemma ArgsOfFields(iso: string)
    requires |Split(iso, '-')| > 1
    ensures BirthdayArgs(iso) == ArgsFrom(Number(Split(iso, '-')[0]), Number(Split(iso, '-')[1]))
  {
  }

  /** Whole numbers: zero falls back to 1, and the month index is one less. */
  lemma ArgsOfNumbers(a: nat, b: nat)
    ensures ArgsFrom(Some(a as real), Some(b as real)) == (if a == 0 then 0 else a - 1, if b == 0 then 1 else b)
  {
    var m := if a == 0 then 0 else a - 1;
    var d := if b == 0 then 1 else b;
    assert OrOne(Some(a as real)) - 1.0 == m as real;
    assert OrOne(Some(b as real)) == d as real;
    TruncOfInt(m);
    TruncOfInt(d);
  }

  lemma TruncOfInt(n: int)
    ensures Trunc(n as real) == n
  {
  }

  /** The fields of "YYYY-MM-DD": the year, the month and, when the day is
      digits too, the day, and nothing more. */
  lemma IsoFields(y: string, mm: string, dd: string)
    requires |y| > 0 && |mm| > 0 && AllDigits(y) && AllDigits(mm)
    ensures var parts := Split(y + "-" + mm + "-" + dd, '-');
            |parts| > 1 && parts[0] == y && parts[1] == mm &&
            (AllDigits(dd) ==> |parts| == 3 && parts[2] == dd)
  {
    NoDash(y);
    NoDash(mm);
    assert y + "-" + mm + "-" + dd == y + ['-'] + (mm + ['-'] + dd);
    SplitAt(y, '-', mm + ['-'] + dd);
    SplitAt(mm, '-', dd);
    if AllDigits(dd) {
      NoDash(dd);
      SplitNoSeparator(dd, '-');
    }
  }

  lemma NoDash(p: string)
    requires AllDigits(p)
    ensures '-' !in p
  {
    forall i | 0 <= i < |p| ensures p[i] != '-' {
      assert IsDigit(p[i]);
    }
  }

  /** `daysUntil(birth)` as the route writes it, `today` being the current
      UTC date: `next` is `Date.UTC(Y, month, day)` of the arguments above
      (the year and the month of the birth date), `Y` being the year of
      today's UTC midnight, moved to `Y + 1` when it is earlier than today.
      All the dates are UTC midnights, so the floor of the millisecond
      difference over a day is the difference of day numbers. */
  function DaysUntilAsWritten(iso: string, today: Civil): (d: int)
    requires Valid(today)
    ensures d >= 0
  {
    var args := BirthdayArgs(iso);
    DaysFrom(today, args.0, args.1)
  }

  /** The month index and day of a "YYYY-MM-DD" birth date: its second and
      third '-'-separated fields, with the same `|| 1` fallbacks. */
  function MonthDayArgs(iso: string): (r: (int, int))
    ensures r.0 >= 0 && r.1 >= 0
  {
    var parts := Split(iso, '-');
    var m := if |parts| > 1 then (NumberNoMinus(parts[1]); Number(parts[1])) else None;
    var d := if |parts| > 2 then (NumberNoMinus(parts[2]); Number(parts[2])) else None;
    ArgsFrom(m, d)
  }

  /** The days from today to the next birthday: the same count as
      `DaysUntilAsWritten`, on the birth date's month and day. */
  function DaysUntil(iso: string, today: Civil): (d: int)
    requires Valid(today)
    ensures d >= 0
  {
    var args := MonthDayArgs(iso);
    DaysFrom(today, args.0, args.1)
  }

  /** For "YYYY-MM-DD" the month less one is the month index and the day is
      the day of the month. */
  lemma MonthDayArgsOfIsoDate(y: string, mm: string, dd: string)
    requires |y| > 0 && |mm| > 0 && |dd| > 0 && AllDigits(y) && AllDigits(mm) && AllDigits(dd)
    ensures MonthDayArgs(y + "-" + mm + "-" + dd) ==
      (if DigitsValue(mm) == 0 then 0 else DigitsValue(mm) - 1, if DigitsValue(dd) == 0 then 1 else DigitsValue(dd))
  {
    IsoFields(y, mm, dd);
    MonthDayOfDigitFields(y + "-" + mm + "-" + dd, mm, dd);
  }

  /** Second and third fields of digits give their values as the arguments. */
  lemma MonthDayOfDigitFields(iso: string, mm: string, dd: string)
    requires |mm| > 0 && |dd| > 0 && AllDigits(mm) && AllDigits(dd)
    requires var parts := Split(iso, '-'); |parts| > 2 && parts[1] == mm && parts[2] == dd
    ensures MonthDayArgs(iso) ==
      (if DigitsValue(mm) == 0 then 0 else DigitsValue(mm) - 1, if DigitsValue(dd) == 0 then 1 else DigitsValue(dd))
  {
    MonthDayOfFields(iso);
    NumberOfDigits(mm);
    NumberOfDigits(dd);
    ArgsOfNumbers(DigitsValue(mm), DigitsValue(dd));
  }

  lemma MonthDayOfFields(iso: string)
    requires |Split(iso, '-')| > 2
    ensures MonthDayArgs(iso) == ArgsFrom(Number(Split(iso, '-')[1]), Number(Split(iso, '-')[2]))
  {
  }

  /** A birth date of three '-'-separated digit fields: the year, the month
      and the day of "YYYY-MM-DD". */
  predicate IsoFieldsAre(iso: string, y: string, mm: string, dd: string) {
    Split(iso, '-') == [y, mm, dd] &&
    |y| > 0 && |mm| > 0 && |dd| > 0 && AllDigits(y) && AllDigits(mm) && AllDigits(dd)
  }

  /** On the birthday itself the count is 0, whatever the birth year. */
  lemma BirthdayIsToday(iso: string, y: string, mm: string, dd: string, today: Civil)
    requires IsoFieldsAre(iso, y, mm, dd)
    requires Valid(today) && DigitsValue(mm) == today.month && DigitsValue(dd) == today.day
    ensures DaysUntil(iso, today) == 0
  {
    MonthDayOfDigitFields(iso, mm, dd);
    assert MonthDayArgs(iso) == (today.month - 1, today.day);
    TodayArgs(iso, today);
  }

  /** A birth date whose month index and day are today's counts 0 days. */
  lemma TodayArgs(iso: string, today: Civil)
    requires Valid(today) && MonthDayArgs(iso) == (today.month - 1, today.day)
    ensures DaysUntil(iso, today) == 0
  {
    DaysUntilOfArgs(iso, today, today.month - 1, today.day);
    SameDayCount(today);
  }

  lemma DaysUntilOfArgs(iso: string, today: Civil, month: int, date: int)
    requires Valid(today) && MonthDayArgs(iso) == (month, date)
    ensures month >= 0 && date >= 0 && DaysUntil(iso, today) == DaysFrom(today, month, date)
  {
  }

  /** Today's own month index and day count 0 days. */
  lemma SameDayCount(today: Civil)
    requires Valid(today)
    ensures DaysFrom(today, today.month - 1, today.day) == 0
  {
    assert UtcYear(UtcYear(today.year)) == UtcYear(today.year);
  }

  /** Conversely, for a day of the month of at least 1, a count of 0 means
      the birthday falls on today's date this year: the date moved on a year
      is always later than today. */
  lemma ZeroIsToday(iso: string, today: Civil)
    requires Valid(today) && MonthDayArgs(iso).1 >= 1 && DaysUntil(iso, today) == 0
    ensures DateUtc(UtcYear(today.year), MonthDayArgs(iso).0, MonthDayArgs(iso).1) ==
            DateUtc(today.year, today.month - 1, today.day)
  {
    var args := MonthDayArgs(iso);
    NextYearLater(today, args.0, args.1);
  }

  /** The date a year on, with a day of at least 1, is later than today. */
  lemma NextYearLater(today: Civil, month: int, date: int)
    requires Valid(today) && month >= 0 && date >= 1
    ensures NextYearDate(today, month, date) > DateUtc(today.year, today.month - 1, today.day)
  {
    var y := UtcYear(today.year);
    var y1 := UtcYear(y + 1);
    DateUtcWithinYear(today);
    NextYearDateIs(today, month, date);
    MakeDayNextDate(y1, month, date);
    MakeDayFloor(y1, month, date - 1);
    DayFromYearGrows(y + 1, y1);
  }

  lemma NextYearDateIs(c: Civil, month: int, date: int)
    requires Valid(c) && month >= 0 && date >= 0
    ensures NextYearDate(c, month, date) == MakeDay(UtcYear(UtcYear(c.year) + 1), month, date)
  {
  }

  lemma MakeDayNextDate(year: int, month: int, date: int)
    ensures MakeDay(year, month, date) == MakeDay(year, month, date - 1) + 1
  {
  }


  /** Born on 5 July 1990, on 5 July 2025: the birthday is today, but the
      count as written runs to `Date.UTC(2025, 1989, 7)`, in October 2190. */
  lemma BirthdayMonthDayMixUp()
    ensures DaysUntil("1990-07-05", Civil(2025, 7, 5)) == 0
    ensures DaysUntilAsWritten("1990-07-05", Civil(2025, 7, 5)) > 60000
  {
    CorrectedOnSample();
    AsWrittenOnSample();
  }

  lemma CorrectedOnSample()
    ensures DaysUntil("1990-07-05", Civil(2025, 7, 5)) == 0
  {
    SampleDigits();
    SampleFields();
    BirthdayIsToday("1990-07-05", "1990", "07", "05", Civil(2025, 7, 5));
  }

  lemma AsWrittenOnSample()
    ensures DaysUntilAsWritten("1990-07-05", Civil(2025, 7, 5)) > 60000
  {
    SampleDigits();
    SampleFields();
    ArgsOfDigitFields("1990-07-05", "1990", "07");
    AsWrittenOfArgs("1990-07-05", Civil(2025, 7, 5), 1989, 7);
    FarFuture();
  }

  lemma SampleFields()
    ensures IsoFieldsAre("1990-07-05", "1990", "07", "05")
  {
    SampleDigits();
    assert "1990-07-05" == "1990" + "-" + "07" + "-" + "05";
    IsoFields("1990", "07", "05");
  }

  lemma SampleDigits()
    ensures AllDigits("1990") && AllDigits("07") && AllDigits("05")
    ensures DigitsValue("1990") == 1990 && DigitsValue("07") == 7 && DigitsValue("05") == 5
  {
    assert "1990"[..3] == "199" && "199"[..2] == "19" && "19"[..1] == "1" && "1"[..0] == "";
    assert "07"[..1] == "0" && "05"[..1] == "0" && "0"[..0] == "";
  }

  /** Month index 1989 of 2025 is October 2190. */
  lemma FarFuture()
    ensures DaysFrom(Civil(2025, 7, 5), 1989, 7) > 60000
  {
    assert DayFromYear(2190) == 80354 && DaysBeforeMonth(2190, 9) == 273;
    assert DayFromYear(2025) == 20089 && DaysBeforeMonth(2025, 6) == 181;
    assert DateUtc(2025, 1989, 7) == 80633 by {
      MakeDayCarry(2025, 1989, 7);
    }
    assert DateUtc(2025, 6, 5) == 20274 by {
      MakeDayInYear(2025, 6, 5);
    }
    ForwardNotPast(80633, NextYearDate(Civil(2025, 7, 5), 1989, 7), 20274);
  }

  lemma ForwardNotPast(next: int, later: int, base: int)
    requires next >= base
    ensures Forward(next, later, base) == next - base
  {
  }

  lemma AsWrittenOfArgs(iso: string, today: Civil, month: int, date: int)
    requires Valid(today) && BirthdayArgs(iso) == (month, date)
    ensures month >= 0 && date >= 0 && DaysUntilAsWritten(iso, today) == DaysFrom(today, month, date)
  {
  }


  /** The day count from today to `Date.UTC(Y, month, date)`, or to the same
      with `Y + 1` when that is earlier than today. It is never negative: the
      date moved a year forward is never earlier than today. */
  function DaysFrom(today: Civil, month: int, date: int): (d: int)
    requires Valid(today) && month >= 0 && date >= 0
    ensures d >= 0
  {
    Forward(DateUtc(UtcYear(today.year), month, date), NextYearDate(today, month, date),
            DateUtc(today.year, today.month - 1, today.day))
  }

  /** Days from `base` to `next`, or to `later` when `next` is already past. */
  function Forward(next: int, later: int, base: int): (d: int)
    ensures later >= base ==> d >= 0
    ensures d == next - base || d == later - base
  {
    if next < base then later - base else next - base
  }

  /** Which day count is computed: the one the code writes, which reads the
      year and the month of a birth date as its month and day, or the
      intended one on the month and the day. */
  datatype Count = AsWritten | Corrected

  function CountDays(count: Count, iso: string, today: Civil): (d: int)
    requires Valid(today)
    ensures d >= 0
  {
    match count
    case AsWritten => DaysUntilAsWritten(iso, today)
    case Corrected => DaysUntil(iso, today)
  }

  function WithDays(cs: seq<Customer>, today: Civil, count: Count): (r: seq<Dated>)
    requires Valid(today)
    ensures |r| == |cs|
    ensures forall i :: 0 <= i < |cs| ==> r[i] == Dated(cs[i], CountDays(count, cs[i].birthDate, today))
  {
    seq(|cs|, i requires 0 <= i < |cs| => Dated(cs[i], CountDays(count, cs[i].birthDate, today)))
  }

  /** Stable insertion by day count: after every entry with a smaller count
      and before the first with an equal or greater one. */
  function Insert(x: Dated, s: seq<Dated>): (r: seq<Dated>)
    ensures multiset(r) == multiset(s) + multiset{x}
  {
    if s == [] then [x]
    else if x.days <= s[0].days then [x] + s
    else
      assert s == [s[0]] + s[1..];
      [s[0]] + Insert(x, s[1..])
  }

  /** `.sort((a, b) => a._days - b._days)`, a stable sort. */
  function SortByDays(s: seq<Dated>): (r: seq<Dated>) {
    if s == [] then [] else Insert(s[0], SortByDays(s[1..]))
  }

  predicate SortedByDays(s: seq<Dated>) {
    forall i, j :: 0 <= i < j < |s| ==> s[i].days <= s[j].days
  }

  /** No entry has a count below `d`. */
  predicate AtLeast(s: seq<Dated>, d: int) {
    forall i :: 0 <= i < |s| ==> d <= s[i].days
  }

  /** The entries with count `k`, in order. */
  function OfDays(s: seq<Dated>, k: int): seq<Dated> {
    if s == [] then [] else (if s[0].days == k then [s[0]] else []) + OfDays(s[1..], k)
  }

  lemma {:induction false} InsertAtLeast(x: Dated, s: seq<Dated>, d: int)
    requires AtLeast(s, d) && d <= x.days
    ensures AtLeast(Insert(x, s), d)
  {
    if s != [] && x.days > s[0].days {
      assert AtLeast(s[1..], d) by {
        forall i | 0 <= i < |s[1..]| ensures d <= s[1..][i].days {
          assert s[1..][i] == s[i + 1];
        }
      }
      InsertAtLeast(x, s[1..], d);
    }
  }

  lemma ConsSorted(a: Dated, r: seq<Dated>)
    requires AtLeast(r, a.days) && SortedByDays(r)
    ensures SortedByDays([a] + r)
  {
    var s := [a] + r;
    forall i, j | 0 <= i < j < |s| ensures s[i].days <= s[j].days {
      assert s[j] == r[j - 1];
      if i > 0 {
        assert s[i] == r[i - 1];
      }
    }
  }

  lemma SortedTail(s: seq<Dated>)
    requires s != [] && SortedByDays(s)
    ensures SortedByDays(s[1..]) && AtLeast(s[1..], s[0].days)
  {
    forall i | 0 <= i < |s[1..]| ensures s[0].days <= s[1..][i].days {
      assert s[1..][i] == s[i + 1];
    }
    forall i, j | 0 <= i < j < |s[1..]| ensures s[1..][i].days <= s[1..][j].days {
      assert s[1..][i] == s[i + 1] && s[1..][j] == s[j + 1];
    }
  }

  lemma {:induction false} InsertSorted(x: Dated, s: seq<Dated>)
    requires SortedByDays(s)
    ensures SortedByDays(Insert(x, s))
  {
    if s == [] {
    } else if x.days <= s[0].days {
      assert AtLeast(s, x.days);
      ConsSorted(x, s);
    } else {
      SortedTail(s);
      InsertSorted(x, s[1..]);
      InsertAtLeast(x, s[1..], s[0].days);
      ConsSorted(s[0], Insert(x, s[1..]));
    }
  }

  /** Inserting adds the entry in front of the entries of the same count. */
  lemma {:induction false} InsertStable(x: Dated, s: seq<Dated>, k: int)
    ensures OfDays(Insert(x, s), k) == (if x.days == k then [x] else []) + OfDays(s, k)
  {
    if s == [] {
    } else if x.days <= s[0].days {
      OfDaysCons(x, s, k);
    } else {
      InsertStable(x, s[1..], k);
      OfDaysCons(s[0], Insert(x, s[1..]), k);
      OfDaysCons(s[0], s[1..], k);
      assert [s[0]] + s[1..] == s;
      SwapEmpty(if s[0].days == k then [s[0]] else [], if x.days == k then [x] else [], OfDays(s[1..], k));
    }
  }

  lemma OfDaysCons(a: Dated, s: seq<Dated>, k: int)
    ensures OfDays([a] + s, k) == (if a.days == k then [a] else []) + OfDays(s, k)
  {
    assert ([a] + s)[1..] == s;
  }

  lemma SwapEmpty<T>(a: seq<T>, b: seq<T>, t: seq<T>)
    requires a == [] || b == []
    ensures a + (b + t) == b + (a + t)
  {
  }

  /** The sort orders by day count, keeps every entry, and keeps the order
      of entries with equal counts. */
  lemma {:induction false} SortByDaysSpec(s: seq<Dated>)
    ensures SortedByDays(SortByDays(s))
    ensures multiset(SortByDays(s)) == multiset(s)
    ensures forall k :: OfDays(SortByDays(s), k) == OfDays(s, k)
  {
    if s != [] {
      SortByDaysSpec(s[1..]);
      InsertSorted(s[0], SortByDays(s[1..]));
      assert s == [s[0]] + s[1..];
      forall k ensures OfDays(SortByDays(s), k) == OfDays(s, k) {
        InsertStable(s[0], SortByDays(s[1..]), k);
      }
    }
  }

  /** The customers of a month, with their day counts, in the route's order. */
  function BirthdaysOf(cs: seq<Customer>, month: real, today: Civil, count: Count): seq<Dated>
    requires Valid(today)
  {
    SortByDays(WithDays(Filter(cs, InMonth(month)), today, count))
  }

  /** Every returned customer is one of the input born in the requested
      month, with a non-negative day count; the list is sorted by that count
      and holds each such customer, ties in input order; a month that is
      not a whole number returns nobody. This holds for either day count. */
  lemma BirthdaysOfSpec(cs: seq<Customer>, month: real, today: Civil, count: Count)
    requires Valid(today)
    ensures var r := BirthdaysOf(cs, month, today, count);
            && SortedByDays(r)
            && multiset(r) == multiset(WithDays(Filter(cs, InMonth(month)), today, count))
            && (forall k :: OfDays(r, k) == OfDays(WithDays(Filter(cs, InMonth(month)), today, count), k))
            && (forall i :: 0 <= i < |r| ==>
                  && r[i].customer in cs
                  && ParseDateForm(r[i].customer.birthDate).Some?
                  && ParseDateForm(r[i].customer.birthDate).value.month as real == month
                  && r[i].days == CountDays(count, r[i].customer.birthDate, today)
                  && r[i].days >= 0)
            && (month != month.Floor as real ==> r == [])
  {
    var kept := Filter(cs, InMonth(month));
    var dated := WithDays(kept, today, count);
    var r := SortByDays(dated);
    SortByDaysSpec(dated);
    forall i | 0 <= i < |r|
      ensures r[i].customer in cs
      ensures ParseDateForm(r[i].customer.birthDate).Some?
      ensures ParseDateForm(r[i].customer.birthDate).value.month as real == month
      ensures r[i].days == CountDays(count, r[i].customer.birthDate, today) && r[i].days >= 0
    {
      assert r[i] in multiset(dated);
      var j :| 0 <= j < |dated| && dated[j] == r[i];
      assert InMonth(month)(kept[j]);
    }
  }

  /** `GET`, with today's UTC date as a parameter and the day count chosen. */
  function BirthdaysCounting(q: Query, today: Civil, count: Count): Reply<BirthdayPage>
    requires Valid(today)
  {
    var param := Param(q, "month");
    if !Truthy(param) then Reply(400, Error(MissingMonth))
    else
      match NormalizeMonth(param.value)
      case None => Reply(400, Error(InvalidMonth))
      case Some(month) => Reply(200, Payload(BirthdayPage(BirthdaysOf(Customers, month, today, count), month)))
  }

  /** `GET` as the route writes it: `_days` is the year-and-month count. */
  function Birthdays(q: Query, today: Civil): Reply<BirthdayPage>
    requires Valid(today)
  {
    BirthdaysCounting(q, today, AsWritten)
  }

  /** `GET` with the intended count on the birth date's month and day. */
  function BirthdaysCorrected(q: Query, today: Civil): Reply<BirthdayPage>
    requires Valid(today)
  {
    BirthdaysCounting(q, today, Corrected)
  }

  /** A missing or empty month, or one that is neither a number in range nor
      a month name, gives 400; otherwise the reply echoes the month read and
      lists that month's customers with the chosen day count. */
  lemma BirthdaysReply(q: Query, today: Civil, count: Count)
    requires Valid(today)
    ensures var r := BirthdaysCounting(q, today, count);
            && (!Truthy(Param(q, "month")) ==> r == Reply(400, Error(MissingMonth)))
            && (Truthy(Param(q, "month")) && NormalizeMonth(Param(q, "month").value).None? ==>
                  r == Reply(400, Error(InvalidMonth)))
            && (Truthy(Param(q, "month")) && NormalizeMonth(Param(q, "month").value).Some? ==>
                  && r.status == 200
                  && r.body.value.month == NormalizeMonth(Param(q, "month").value).value
                  && r.body.value.items ==
                       BirthdaysOf(Customers, NormalizeMonth(Param(q, "month").value).value, today, count))
  {
  }
}
