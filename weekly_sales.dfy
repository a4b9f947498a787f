/** The weekly sales comparison route: it reads a period (a named range
    ending today, or an explicit "start:end") and a comma list of metrics,
    and answers six fixed mock weeks with the requested integer metrics and
    the average ticket. */
module WeeklySales {

  import opened Wrappers
  import opened JsText
  import opened Http
  import opened Dates

  const DefaultMetrics := "revenue,orders,avg_ticket"
  const Currency := "BRL"

  datatype Period = Period(start: string, end: string)

  /** One mock week: its ISO week name and first and last days. */
  datatype Week = Week(week: string, start: string, end: string)

  /** One answered row; a metric that was not requested has no field. */
  datatype WeekRow = WeekRow(
    week: string, start: string, end: string,
    revenue: Option<int>, orders: Option<int>, avgTicket: Option<real>)

  datatype WeeklyPage = WeeklyPage(period: Period, metrics: seq<string>, weeks: seq<WeekRow>, currency: string)

  const Weeks: seq<Week> := [
    Week("2025-W26", "2025-06-23", "2025-06-29"),
    Week("2025-W27", "2025-06-30", "2025-07-06"),
    Week("2025-W28", "2025-07-07", "2025-07-13"),
    Week("2025-W29", "2025-07-14", "2025-07-20"),
    Week("2025-W30", "2025-07-21", "2025-07-27"),
    Week("2025-W31", "2025-07-28", "2025-08-03")]

  // ---------------------------------------------------------------------
  // `parsePeriod`

  /** The date `months` months before `today`, as `setUTCMonth` on a copy of
      today's UTC midnight moves it. */
  function MonthsBefore(today: Civil, months: int): (r: Civil)
    requires Valid(today)
    ensures Valid(r) && DayNumber(r) == MakeDay(today.year, today.month - 1 - months, today.day)
  {
    SetUtcMonth(today, today.month - 1 - months)
  }

  /** `parsePeriod(period)`, `today` being the date of `end`, the UTC
      midnight `Date.UTC` builds from the clock (a clock year 0-99 reads as
      1900-1999 there, so `today` is that later year): absent,
      empty or "last_month" is the month up to today, "last_3_months" the
      three months up to today, text that splits on ':' into two parts is
      those parts, anything else is today alone. */
  function ParsePeriod(period: Option<string>, today: Civil): Period
    requires Valid(today)
  {
    var end := IsoDate(today);
    if !Truthy(period) || period.value == "last_month" then
      Period(IsoDate(MonthsBefore(today, 1)), end)
    else if period.value == "last_3_months" then
      Period(IsoDate(MonthsBefore(today, 3)), end)
    else
      var parts := Split(period.value, ':');
      if |parts| == 2 then Period(parts[0], parts[1]) else Period(end, end)
  }

  /** Calendar order of dates. */
  predicate Earlier(a: Civil, b: Civil) {
    a.year < b.year || (a.year == b.year && (a.month < b.month || (a.month == b.month && a.day < b.day)))
  }

  /** Moving back one to eleven months gives an earlier date, even when the
      day runs on past the end of a short month. */
  lemma MonthsBeforeEarlier(today: Civil, months: int)
    requires Valid(today) && 1 <= months <= 11
    ensures Earlier(MonthsBefore(today, months), today)
  {
    var month := today.month - 1 - months;
    assert -12 < month < 11;
    var ym := today.year + month / 12;
    var mn := month % 12;
    if month < 0 {
      assert month / 12 == -1;
    } else {
      assert month / 12 == 0 && mn == month;
    }
  }

  /** With no period, an empty one or "last_month" the range ends today and
      starts on the date that `Date.UTC` gives for today's day in the
      previous month, an earlier date; both ends read back as those dates
      (for the years that `toISOString` writes with four digits). */
  lemma LastMonthPeriod(period: Option<string>, today: Civil)
    requires Valid(today) && 1 <= today.year <= 9999
    requires !Truthy(period) || period.value == "last_month"
    ensures var p := ParsePeriod(period, today);
            var start := MonthsBefore(today, 1);
            && ParseDateForm(p.end) == Some(today)
            && ParseDateForm(p.start) == Some(start)
            && Earlier(start, today)
  {
    var start := MonthsBefore(today, 1);
    MonthsBeforeEarlier(today, 1);
    RangeReadsBack(today, start);
  }

  /** "last_3_months": the range ends today and starts on today's day three
      months earlier, as `Date.UTC` places it. */
  lemma LastThreeMonthsPeriod(period: string, today: Civil)
    requires Valid(today) && 1 <= today.year <= 9999 && period == "last_3_months"
    ensures var p := ParsePeriod(Some(period), today);
            var start := MonthsBefore(today, 3);
            && ParseDateForm(p.end) == Some(today)
            && ParseDateForm(p.start) == Some(start)
            && Earlier(start, today)
  {
    var start := MonthsBefore(today, 3);
    ThreeMonthsRange(period, today);
    MonthsBeforeEarlier(today, 3);
    RangeReadsBack(today, start);
  }

  lemma ThreeMonthsRange(period: string, today: Civil)
    requires Valid(today) && period == "last_3_months"
    ensures ParsePeriod(Some(period), today) == Period(IsoDate(MonthsBefore(today, 3)), IsoDate(today))
  {
    assert Truthy(Some(period));
    assert period != "last_month";
  }

  /** Both ends of a named range read back as their dates. */
  lemma RangeReadsBack(today: Civil, start: Civil)
    requires Valid(today) && Valid(start) && 1 <= today.year <= 9999
    requires Earlier(start, today) && start.year >= today.year - 1
    ensures ParseDateForm(IsoDate(today)) == Some(today)
    ensures ParseDateForm(IsoDate(start)) == Some(start)
  {
    IsoDateRoundTrip(today);
    IsoDateRoundTrip(start);
  }

  /** Any other period of exactly one ':' is returned as written, without
      checking that its two sides are dates. */
  lemma CustomPeriod(p: string, today: Civil)
    requires Valid(today) && p != "last_month" && p != "last_3_months" && |Split(p, ':')| == 2
    ensures var r := ParsePeriod(Some(p), today);
            && r.start + ":" + r.end == p
            && ':' !in r.start && ':' !in r.end
  {
    var parts := Split(p, ':');
    assert Some(p) != Some("last_month") && Some(p) != Some("last_3_months");
    JoinSplit(p, ':');
    assert Join(parts[1..], ':') == parts[1];
  }

  /** Every other period falls back to today alone. */
  lemma FallbackPeriod(p: string, today: Civil)
    requires Valid(today) && p != "" && p != "last_month" && p != "last_3_months" && |Split(p, ':')| != 2
    ensures ParsePeriod(Some(p), today) == Period(IsoDate(today), IsoDate(today))
  {
    assert Some(p) != Some("last_month") && Some(p) != Some("last_3_months");
  }

  // ---------------------------------------------------------------------
  // Rows

  /** Mock revenue of row i. */
  function Revenue(i: nat): int {
    20000 + i * 2500 + (if i % 2 != 0 then 1200 else 800)
  }

  /** Mock order count of row i. */
  function Orders(i: nat): int {
    300 + i * 20 + (if i % 2 != 0 then 10 else 0)
  }

  /** Row i of a week for the requested metrics: `avg_ticket` divides the
      row's revenue and orders, or 25000 and 350 for those not requested. */
  function Row(w: Week, i: nat, metrics: seq<string>): WeekRow {
    var revenue := if "revenue" in metrics then Some(Revenue(i)) else None;
    var orders := if "orders" in metrics then Some(Orders(i)) else None;
    var avg :=
      if "avg_ticket" in metrics then Some((revenue.GetOr(25000) as real) / (orders.GetOr(350) as real))
      else None;
    WeekRow(w.week, w.start, w.end, revenue, orders, avg)
  }

  /** The row object of the route, built field by field. */
  method BuildRow(w: Week, i: nat, metrics: seq<string>) returns (row: WeekRow)
    ensures row == Row(w, i, metrics)
  {
    row := WeekRow(w.week, w.start, w.end, None, None, None);
    if "revenue" in metrics {
      row := row.(revenue := Some(20000 + i * 2500 + (if i % 2 != 0 then 1200 else 800)));
    }
    if "orders" in metrics {
      row := row.(orders := Some(300 + i * 20 + (if i % 2 != 0 then 10 else 0)));
    }
    if "avg_ticket" in metrics {
      var rev := if row.revenue.Some? then row.revenue.value else 25000;
      var ord := if row.orders.Some? then row.orders.value else 350;
      row := row.(avgTicket := Some(rev as real / ord as real));
    }
  }

  /** A row carries the week as listed, and a metric's field exactly when
      the metric was requested; revenue and orders follow the mock
      formulas, and the average ticket is revenue over orders when both
      were requested. */
  lemma RowSpec(w: Week, i: nat, metrics: seq<string>)
    ensures var r := Row(w, i, metrics);
            && r.week == w.week && r.start == w.start && r.end == w.end
            && (r.revenue.Some? <==> "revenue" in metrics)
            && (r.orders.Some? <==> "orders" in metrics)
            && (r.avgTicket.Some? <==> "avg_ticket" in metrics)
            && (r.revenue.Some? ==> r.revenue.value == Revenue(i))
            && (r.orders.Some? ==> r.orders.value == Orders(i))
            && (r.avgTicket.Some? && r.revenue.Some? && r.orders.Some? ==>
                  r.avgTicket.value * (r.orders.value as real) == r.revenue.value as real)
  {
  }

  /** Later weeks have strictly more revenue and more orders. */
  lemma {:induction false} MetricsGrow(i: nat, j: nat)
    requires i < j
    ensures Revenue(i) < Revenue(j) && Orders(i) < Orders(j)
  {
    if j > i + 1 {
      MetricsGrow(i, j - 1);
    }
  }

  /** The rows for a list of metrics: one per mock week, in order. */
  function Rows(metrics: seq<string>): (r: seq<WeekRow>)
  {
    seq(|Weeks|, i requires 0 <= i < |Weeks| => Row(Weeks[i], i, metrics))
  }

  // ---------------------------------------------------------------------
  // `GET`

  /** The metrics of a query: the comma list of the parameter, or of the
      default list when it is absent or empty. */
  function Metrics(q: Query): seq<string> {
    CommaList(OrElse(Param(q, "metrics"), DefaultMetrics))
  }

  /** `GET`, with today's UTC date as a parameter. */
  function WeeklySales(q: Query, today: Civil): Reply<WeeklyPage>
    requires Valid(today)
  {
    var period := OrElse(Param(q, "period"), "last_month");
    var metrics := Metrics(q);
    Reply(200, Payload(WeeklyPage(ParsePeriod(Some(period), today), metrics, Rows(metrics), Currency)))
  }

  /** The reply is always 200 with the six mock weeks in order, whatever the
      period; a row has a metric's field exactly when some comma-separated
      piece of the metrics parameter trims to that metric's name; the list
      is the comma list of the parameter, ordered and with repeats as
      `CommaListSpec` states. */
  lemma WeeklySalesSpec(q: Query, today: Civil, name: string)
    requires Valid(today)
    requires name == "revenue" || name == "orders" || name == "avg_ticket"
    ensures var r := WeeklySales(q, today);
            && r.status == 200
            && r.body.value.period == ParsePeriod(Some(OrElse(Param(q, "period"), "last_month")), today)
            && r.body.value.currency == Currency
            && |r.body.value.weeks| == 6
            && (forall i :: 0 <= i < 6 ==>
                  && r.body.value.weeks[i].week == Weeks[i].week
                  && r.body.value.weeks[i].start == Weeks[i].start
                  && r.body.value.weeks[i].end == Weeks[i].end)
            && r.body.value.metrics == CommaList(OrElse(Param(q, "metrics"), DefaultMetrics))
            && (name in r.body.value.metrics <==> TrimsTo(Split(OrElse(Param(q, "metrics"), DefaultMetrics), ','), name))
  {
    InCommaList(OrElse(Param(q, "metrics"), DefaultMetrics), name);
  }

  /** Two requests with the same metrics answer the same weeks, whatever
      their periods and dates. */
  lemma WeeksIgnorePeriod(q: Query, q': Query, today: Civil, today': Civil)
    requires Valid(today) && Valid(today')
    requires Param(q, "metrics") == Param(q', "metrics")
    ensures WeeklySales(q, today).body.value.weeks == WeeklySales(q', today').body.value.weeks
  {
  }

  /** Without a metrics parameter the list is revenue, orders, avg_ticket. */
  lemma DefaultMetricList()
    ensures CommaList(DefaultMetrics) == ["revenue", "orders", "avg_ticket"]
  {
    var a, b, c := "revenue", "orders", "avg_ticket";
    assert DefaultMetrics == a + [','] + (b + [','] + c);
    PlainWord(a);
    PlainWord(b);
    PlainWord(c);
    ThreeNames(a, b, c);
  }

  /** A word of lower-case letters and '_' has no comma and no white space. */
  lemma PlainWord(w: string)
    requires |w| > 0 && forall i :: 0 <= i < |w| ==> 'a' <= w[i] <= 'z' || w[i] == '_'
    ensures ',' !in w && !IsSpace(w[0]) && !IsSpace(w[|w| - 1])
  {
  }

  /** Three comma-free words without surrounding white space, joined by
      commas, are the comma list of those three words. */
  lemma ThreeNames(a: string, b: string, c: string)
    requires a != [] && b != [] && c != []
    requires ',' !in a && ',' !in b && ',' !in c
    requires !IsSpace(a[0]) && !IsSpace(a[|a| - 1]) && !IsSpace(b[0]) && !IsSpace(b[|b| - 1])
    requires !IsSpace(c[0]) && !IsSpace(c[|c| - 1])
    ensures CommaList(a + [','] + (b + [','] + c)) == [a, b, c]
  {
    SplitAt(a, ',', b + [','] + c);
    SplitAt(b, ',', c);
    SplitNoSeparator(c, ',');
    TrimUnchanged(a);
    TrimUnchanged(b);
    TrimUnchanged(c);
    var parts := [a, b, c];
    assert Split(a + [','] + (b + [','] + c), ',') == parts;
    assert TrimAll(parts) == parts;
    assert DropEmpty(parts[2..]) == [c];
    assert DropEmpty(parts[1..]) == [b, c];
  }
}
