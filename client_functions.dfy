/** The browser-side tool-call functions: the query strings they build for
    the routes, the two input-request functions with their defaults, and the
    `functionsMap` registry the chat looks tool calls up in. */
module ClientFunctions {

  import opened Wrappers
  import opened JsText
  import opened Http

  // URLSearchParams

  /** `params.set(name, value)` on a list of pairs: the first pair with that
      name gets the value and later ones go; with no such pair, the new pair
      is appended. */
  function SetParam(ps: Query, name: string, value: string): Query {
    if HasName(ps, name) then Replace(ps, name, value) else ps + [(name, value)]
  }

  predicate HasName(ps: Query, name: string) {
    exists k :: 0 <= k < |ps| && ps[k].0 == name
  }

  function Replace(ps: Query, name: string, value: string): Query {
    if ps == [] then []
    else if ps[0].0 == name then [(name, value)] + Without(ps[1..], name)
    else [ps[0]] + Replace(ps[1..], name, value)
  }

  /** The pairs whose name is not `name`. */
  function Without(ps: Query, name: string): (r: Query)
    ensures forall k :: 0 <= k < |r| ==> r[k].0 != name
    ensures forall m :: m != name ==> Param(r, m) == Param(ps, m)
  {
    if ps == [] then []
    else if ps[0].0 == name then Without(ps[1..], name)
    else [ps[0]] + Without(ps[1..], name)
  }

  /** Replacing keeps every other name's value and gives `name` the new one. */
  lemma {:induction false} ReplaceSpec(ps: Query, name: string, value: string)
    requires HasName(ps, name)
    ensures Param(Replace(ps, name, value), name) == Some(value)
    ensures forall m :: m != name ==> Param(Replace(ps, name, value), m) == Param(ps, m)
  {
    if ps[0].0 != name {
      assert HasName(ps[1..], name) by {
        var k :| 0 <= k < |ps| && ps[k].0 == name;
        assert ps[1..][k - 1].0 == name;
      }
      ReplaceSpec(ps[1..], name, value);
    }
  }

  /** Appending a pair leaves the earlier names' values alone. */
  lemma {:induction false} ParamAppend(ps: Query, name: string, value: string, m: string)
    ensures Param(ps + [(name, value)], m) ==
              if Param(ps, m).Some? then Param(ps, m) else if m == name then Some(value) else None
  {
    if ps != [] {
      assert (ps + [(name, value)])[1..] == ps[1..] + [(name, value)];
      ParamAppend(ps[1..], name, value, m);
    }
  }

  /** After `set`, the name has the new value and no other name changes. */
  lemma SetParamSpec(ps: Query, name: string, value: string, m: string)
    ensures Param(SetParam(ps, name, value), name) == Some(value)
    ensures m != name ==> Param(SetParam(ps, name, value), m) == Param(ps, m)
  {
    if HasName(ps, name) {
      ReplaceSpec(ps, name, value);
    } else {
      var k := ParamSpec(ps, name);
      ParamAppend(ps, name, value, name);
      ParamAppend(ps, name, value, m);
    }
  }

  /** `params.toString()`: the pairs as name=value joined by '&' (the
      percent-encoding of the urlencoded serializer is not modelled). */
  function Serialize(ps: Query): (s: string)
    ensures s == "" <==> ps == []
  {
    if ps == [] then ""
    else if |ps| == 1 then ps[0].0 + "=" + ps[0].1
    else ps[0].0 + "=" + ps[0].1 + "&" + Serialize(ps[1..])
  }

  /** A `URLSearchParams` object: its list of name-value pairs. */
  class SearchParams {
    var pairs: Query

    /** `new URLSearchParams()`. */
    constructor Empty()
      ensures pairs == []
    {
      pairs := [];
    }

    /** `new URLSearchParams(record)`: one pair per property, in order. */
    constructor FromRecord(record: Query)
      ensures pairs == record
    {
      pairs := record;
    }

    method Set(name: string, value: string)
      modifies this
      ensures pairs == SetParam(old(pairs), name, value)
    {
      pairs := SetParam(pairs, name, value);
    }

    function ToString(): string
      reads this
    {
      Serialize(pairs)
    }
  }

  /** A relative route address, with `?query` only when the query is not
      empty. */
  function WithQuery(path: string, ps: Query): (url: string)
    ensures ps == [] ==> url == path
    ensures ps != [] ==> url == path + "?" + Serialize(ps)
  {
    var s := Serialize(ps);
    path + (if s != "" then "?" + s else "")
  }

  // Conditional parameters

  /** A pair when there is a value, nothing otherwise. */
  function Entry(name: string, v: Option<string>): Query {
    if v.Some? then [(name, v.value)] else []
  }

  /** `if (v) params.set(name, v)` and its variants: `set` only when there
      is a value. */
  function SetIf(ps: Query, name: string, v: Option<string>): Query {
    if v.Some? then SetParam(ps, name, v.value) else ps
  }

  /** No pair carries the name. */
  predicate Lacks(ps: Query, name: string) {
    forall k :: 0 <= k < |ps| ==> ps[k].0 != name
  }

  /** A name no pair carries has no value. */
  lemma ParamLacks(ps: Query, name: string)
    requires Lacks(ps, name)
    ensures Param(ps, name) == None
  {
    var k := ParamSpec(ps, name);
  }

  /** The first pair of the joined lists with a name is in the first list
      when that has one, else in the second. */
  lemma {:induction false} ParamConcat(p: Query, q: Query, m: string)
    ensures Param(p + q, m) == if Param(p, m).Some? then Param(p, m) else Param(q, m)
  {
    if p != [] {
      assert (p + q)[1..] == p[1..] + q;
      ParamConcat(p[1..], q, m);
    } else {
      assert p + q == q;
    }
  }

  /** `set` of a name no pair carries appends its entry. */
  lemma SetAppends(ps: Query, name: string, v: Option<string>)
    requires Lacks(ps, name)
    ensures SetIf(ps, name, v) == ps + Entry(name, v)
    ensures forall m :: Lacks(ps, m) && m != name ==> Lacks(ps + Entry(name, v), m)
  {
    assert !HasName(ps, name);
  }

  /** Three conditional `set`s of distinct new names append their entries in
      order. */
  lemma ThreeSets(pre: Query, n1: string, n2: string, n3: string,
                  v1: Option<string>, v2: Option<string>, v3: Option<string>)
    requires n1 != n2 && n1 != n3 && n2 != n3
    requires Lacks(pre, n1) && Lacks(pre, n2) && Lacks(pre, n3)
    ensures SetIf(SetIf(SetIf(pre, n1, v1), n2, v2), n3, v3)
            == pre + Entry(n1, v1) + Entry(n2, v2) + Entry(n3, v3)
  {
    SetAppends(pre, n1, v1);
    SetAppends(pre + Entry(n1, v1), n2, v2);
    SetAppends(pre + Entry(n1, v1) + Entry(n2, v2), n3, v3);
  }

  /** In such a query each of the three names has its own value: an absent
      value leaves the name out. */
  lemma ParamOfThree(pre: Query, n1: string, n2: string, n3: string,
                     v1: Option<string>, v2: Option<string>, v3: Option<string>)
    requires n1 != n2 && n1 != n3 && n2 != n3
    requires Lacks(pre, n1) && Lacks(pre, n2) && Lacks(pre, n3)
    ensures var q := pre + Entry(n1, v1) + Entry(n2, v2) + Entry(n3, v3);
            Param(q, n1) == v1 && Param(q, n2) == v2 && Param(q, n3) == v3
  {
    var p1 := pre + Entry(n1, v1);
    var p2 := p1 + Entry(n2, v2);
    forall m | m == n1 || m == n2 || m == n3
      ensures Param(p2 + Entry(n3, v3), m) == if m == n1 then v1 else if m == n2 then v2 else v3
    {
      ParamLacks(pre, m);
      ParamConcat(pre, Entry(n1, v1), m);
      ParamConcat(p1, Entry(n2, v2), m);
      ParamConcat(p2, Entry(n3, v3), m);
    }
  }

  // get_top_selling_products

  const TopSellingPath := "/api/functions/get_top_selling_products"

  /** The tool-call arguments; None for an argument the model left out. */
  datatype TopSellingArgs = TopSellingArgs(
    periodicidade: Option<string>, considerarFaturamento: Option<bool>,
    dataInicial: Option<string>, dataFinal: Option<string>)

  /** The value when it is a non-empty string. */
  function IfTruthy(s: Option<string>): Option<string> {
    if Truthy(s) then s else None
  }

  /** `String(b)` whenever the value is a boolean, `false` included. */
  function BoolParam(b: Option<bool>): Option<string> {
    if b.None? then None else if b.value then Some("true") else Some("false")
  }

  /** The query of `get_top_selling_products`: the truthy strings and the
      flag whenever it is a boolean, in this order. */
  function TopSellingQuery(a: TopSellingArgs): Query {
    Entry("periodicidade", IfTruthy(a.periodicidade))
    + Entry("considerarFaturamento", BoolParam(a.considerarFaturamento))
    + Entry("dataInicial", IfTruthy(a.dataInicial))
    + Entry("dataFinal", IfTruthy(a.dataFinal))
  }

  /** The address `get_top_selling_products` fetches. */
  method TopSellingUrl(a: TopSellingArgs) returns (url: string)
    ensures url == WithQuery(TopSellingPath, TopSellingQuery(a))
  {
    var params := new SearchParams.Empty();
    if Truthy(a.periodicidade) {
      params.Set("periodicidade", a.periodicidade.value);
    }
    ghost var first := params.pairs;
    if a.considerarFaturamento.Some? {
      params.Set("considerarFaturamento", if a.considerarFaturamento.value then "true" else "false");
    }
    if Truthy(a.dataInicial) {
      params.Set("dataInicial", a.dataInicial.value);
    }
    if Truthy(a.dataFinal) {
      params.Set("dataFinal", a.dataFinal.value);
    }
    TopSellingNames(a, first);
    var s := params.ToString();
    url := TopSellingPath + (if s != "" then "?" + s else "");
  }

  /** The three `set`s after the first one append their entries. */
  lemma TopSellingNames(a: TopSellingArgs, first: Query)
    requires first == Entry("periodicidade", IfTruthy(a.periodicidade))
    ensures SetIf(SetIf(SetIf(first, "considerarFaturamento", BoolParam(a.considerarFaturamento)),
                        "dataInicial", IfTruthy(a.dataInicial)), "dataFinal", IfTruthy(a.dataFinal))
            == TopSellingQuery(a)
  {
    ThreeSets(first, "considerarFaturamento", "dataInicial", "dataFinal",
              BoolParam(a.considerarFaturamento), IfTruthy(a.dataInicial), IfTruthy(a.dataFinal));
  }

  /** Each argument reaches the query exactly when it is set: a string when
      it is non-empty, the flag whenever it is a boolean, `false` included. */
  lemma TopSellingQuerySpec(a: TopSellingArgs)
    ensures Param(TopSellingQuery(a), "periodicidade") == IfTruthy(a.periodicidade)
    ensures Param(TopSellingQuery(a), "considerarFaturamento") == BoolParam(a.considerarFaturamento)
    ensures a.considerarFaturamento == Some(false) ==>
              Param(TopSellingQuery(a), "considerarFaturamento") == Some("false")
    ensures Param(TopSellingQuery(a), "dataInicial") == IfTruthy(a.dataInicial)
    ensures Param(TopSellingQuery(a), "dataFinal") == IfTruthy(a.dataFinal)
  {
    var first := Entry("periodicidade", IfTruthy(a.periodicidade));
    ParamOfThree(first, "considerarFaturamento", "dataInicial", "dataFinal",
                 BoolParam(a.considerarFaturamento), IfTruthy(a.dataInicial), IfTruthy(a.dataFinal));
    var rest := TopSellingQuery(a)[|first|..];
    assert TopSellingQuery(a) == first + rest;
    ParamConcat(first, rest, "periodicidade");
    if IfTruthy(a.periodicidade).None? {
      assert Lacks(rest, "periodicidade");
      ParamLacks(rest, "periodicidade");
    }
  }

  // get_sales_details_by_product

  const SalesDetailsPath := "/api/functions/get_sales_details_by_product"

  /** `page` and `size` are None when they are not numbers; only integral
      numbers are modelled. */
  datatype SalesDetailsArgs = SalesDetailsArgs(
    idProdutoEmpresa: string, nomeProduto: Option<string>,
    dataInicial: string, dataFinal: string, page: Option<int>, size: Option<int>)

  /** `String(n)` whenever the value is a number, 0 included. */
  function NumParam(n: Option<int>): Option<string> {
    if n.Some? then Some(IntToString(n.value)) else None
  }

  /** The record the parameters start from. */
  function Required(a: SalesDetailsArgs): Query {
    [("idProdutoEmpresa", a.idProdutoEmpresa), ("dataInicial", a.dataInicial), ("dataFinal", a.dataFinal)]
  }

  /** The query of `get_sales_details_by_product`: the three required
      fields first, then the name when truthy and the page and size whenever
      they are numbers. */
  function SalesDetailsQuery(a: SalesDetailsArgs): Query {
    Required(a) + Entry("nomeProduto", IfTruthy(a.nomeProduto))
    + Entry("page", NumParam(a.page)) + Entry("size", NumParam(a.size))
  }

  /** The address `get_sales_details_by_product` fetches. */
  method SalesDetailsUrl(a: SalesDetailsArgs) returns (url: string)
    ensures url == SalesDetailsPath + "?" + Serialize(SalesDetailsQuery(a))
  {
    var params := new SearchParams.FromRecord(
      [("idProdutoEmpresa", a.idProdutoEmpresa), ("dataInicial", a.dataInicial), ("dataFinal", a.dataFinal)]);
    if Truthy(a.nomeProduto) {
      params.Set("nomeProduto", a.nomeProduto.value);
    }
    if a.page.Some? {
      params.Set("page", IntToString(a.page.value));
    }
    if a.size.Some? {
      params.Set("size", IntToString(a.size.value));
    }
    SalesDetailsNames(a);
    url := SalesDetailsPath + "?" + params.ToString();
  }

  /** The three optional `set`s append their entries to the record. */
  lemma SalesDetailsNames(a: SalesDetailsArgs)
    ensures SetIf(SetIf(SetIf(Required(a), "nomeProduto", IfTruthy(a.nomeProduto)),
                        "page", NumParam(a.page)), "size", NumParam(a.size))
            == SalesDetailsQuery(a)
  {
    RequiredLacks(a);
    ThreeSets(Required(a), "nomeProduto", "page", "size",
              IfTruthy(a.nomeProduto), NumParam(a.page), NumParam(a.size));
  }

  lemma RequiredLacks(a: SalesDetailsArgs)
    ensures Lacks(Required(a), "nomeProduto") && Lacks(Required(a), "page") && Lacks(Required(a), "size")
  {
  }

  /** The three required fields lead the query in order; the optional ones
      are present exactly when set, a page or size of 0 included. */
  lemma SalesDetailsQuerySpec(a: SalesDetailsArgs)
    ensures SalesDetailsQuery(a)[..3] == Required(a)
    ensures Param(SalesDetailsQuery(a), "nomeProduto") == IfTruthy(a.nomeProduto)
    ensures Param(SalesDetailsQuery(a), "page") == NumParam(a.page)
    ensures Param(SalesDetailsQuery(a), "size") == NumParam(a.size)
  {
    RequiredLacks(a);
    ParamOfThree(Required(a), "nomeProduto", "page", "size",
                 IfTruthy(a.nomeProduto), NumParam(a.page), NumParam(a.size));
  }

  // request_date_input and request_month_input

  /** The object an input-request function returns for the chat to render. */
  datatype InputRequest = InputRequest(kind: string, prompt: string, placeholder: string)

  const DatePrompt := "Selecione uma data:"
  const DatePlaceholder := "YYYY-MM-DD"
  const MonthPrompt := "Selecione um mês:"
  const MonthPlaceholder := "YYYY-MM"

  /** `request_date_input`: missing or empty texts take the defaults. */
  function RequestDateInput(prompt: Option<string>, placeholder: Option<string>): (r: InputRequest)
    ensures r.kind == "date_input_request"
    ensures r.prompt != "" && r.placeholder != ""
    ensures r.prompt == (if Truthy(prompt) then prompt.value else DatePrompt)
    ensures r.placeholder == (if Truthy(placeholder) then placeholder.value else DatePlaceholder)
  {
    InputRequest("date_input_request", OrElse(prompt, DatePrompt), OrElse(placeholder, DatePlaceholder))
  }

  /** `request_month_input`: missing or empty texts take the defaults. */
  function RequestMonthInput(prompt: Option<string>, placeholder: Option<string>): (r: InputRequest)
    ensures r.kind == "month_input_request"
    ensures r.prompt != "" && r.placeholder != ""
    ensures r.prompt == (if Truthy(prompt) then prompt.value else MonthPrompt)
    ensures r.placeholder == (if Truthy(placeholder) then placeholder.value else MonthPlaceholder)
  {
    InputRequest("month_input_request", OrElse(prompt, MonthPrompt), OrElse(placeholder, MonthPlaceholder))
  }

  // functionsMap

  /** The client functions a tool call can reach. */
  datatype Handler =
    | GetWeather | GetTopSellingProducts | GetProductsWithoutSalesSince | RequestDateInputFn
    | GetWeeklySalesComparison | GetOverduePayables | GetUpcomingPayablesNext7Days
    | GetBirthdaysByMonth | RequestMonthInputFn | GetSalesDetailsByProduct

  /** The map once the module has loaded: the literal's entry and the nine
      `Object.assign` registrations. */
  const Registry: map<string, Handler> := map[
    "get_weather" := GetWeather,
    "get_top_selling_products" := GetTopSellingProducts,
    "get_products_without_sales_since" := GetProductsWithoutSalesSince,
    "request_date_input" := RequestDateInputFn,
    "get_weekly_sales_comparison" := GetWeeklySalesComparison,
    "get_overdue_payables" := GetOverduePayables,
    "get_upcoming_payables_next_7_days" := GetUpcomingPayablesNext7Days,
    "get_birthdays_by_month" := GetBirthdaysByMonth,
    "request_month_input" := RequestMonthInputFn,
    "get_sales_details_by_product" := GetSalesDetailsByProduct
  ]

  /** The `functionsMap` object: tool name to client function. */
  class FunctionsMap {
    var handlers: map<string, Handler>

    /** The literal `{ get_weather: get_weather }`. */
    constructor ()
      ensures handlers == map["get_weather" := GetWeather]
    {
      handlers := map["get_weather" := GetWeather];
    }

    /** `Object.assign(functionsMap, { name: h })`. */
    method Assign(name: string, h: Handler)
      modifies this
      ensures handlers == old(handlers)[name := h]
    {
      handlers := handlers[name := h];
    }
  }

  /** The map as it stands once the module has loaded. */
  method LoadFunctionsMap() returns (m: FunctionsMap)
    ensures fresh(m) && m.handlers == Registry
  {
    m := new FunctionsMap();
    m.Assign("get_top_selling_products", GetTopSellingProducts);
    m.Assign("get_products_without_sales_since", GetProductsWithoutSalesSince);
    m.Assign("request_date_input", RequestDateInputFn);
    m.Assign("get_weekly_sales_comparison", GetWeeklySalesComparison);
    m.Assign("get_overdue_payables", GetOverduePayables);
    m.Assign("get_upcoming_payables_next_7_days", GetUpcomingPayablesNext7Days);
    m.Assign("get_birthdays_by_month", GetBirthdaysByMonth);
    m.Assign("request_month_input", RequestMonthInputFn);
    m.Assign("get_sales_details_by_product", GetSalesDetailsByProduct);
  }

  /** Every client function is registered under its own name, and the map
      holds ten entries. */
  lemma RegistrySpec()
    ensures |Registry| == 10
    ensures Registry["get_weather"] == GetWeather
    ensures Registry["get_top_selling_products"] == GetTopSellingProducts
    ensures Registry["get_products_without_sales_since"] == GetProductsWithoutSalesSince
    ensures Registry["request_date_input"] == RequestDateInputFn
    ensures Registry["get_weekly_sales_comparison"] == GetWeeklySalesComparison
    ensures Registry["get_overdue_payables"] == GetOverduePayables
    ensures Registry["get_upcoming_payables_next_7_days"] == GetUpcomingPayablesNext7Days
    ensures Registry["get_birthdays_by_month"] == GetBirthdaysByMonth
    ensures Registry["request_month_input"] == RequestMonthInputFn
    ensures Registry["get_sales_details_by_product"] == GetSalesDetailsByProduct
  {
  }

  /** No client function is registered under two names. */
  lemma RegistryInjective(a: string, b: string)
    requires a in Registry && b in Registry && Registry[a] == Registry[b]
    ensures a == b
  {
  }
}
