/** The sales-details route: it validates the query, asks the ERP for one page
    of sales notes of a product, keeps ten fields of each note, counts the
    notes per hour of sale into a 24-slot histogram, picks the peak hours and
    copies the paging fields, with fallbacks, from the ERP's answer. */
module SalesDetails {

  import opened Wrappers
  import opened JsText
  import opened JsValue
  import opened Http
  import opened SeqUtil

  const MissingParams := "Parâmetros obrigatórios: idProdutoEmpresa, dataInicial (YYYY-MM-DD), dataFinal (YYYY-MM-DD)"
  const MissingToken := "Token WAYBE_ERP_TOKEN não configurado no ambiente."
  const UpstreamFailed := "Falha ao consultar API WAYBE"
  const Crashed := "Error getting sales details by product"
  const DefaultBaseUrl := "https://api.waybe.com.br"

  /** The two environment variables the route reads. */
  datatype Env = Env(token: Option<string>, baseUrl: Option<string>)

  /** The GET request sent to the ERP: address, query pairs in order, and the
      value of the Authorization header (the content type is always JSON). */
  datatype Request = Request(url: string, query: Query, authorization: string)

  /** What the ERP call yields: the fetch throws, a non-ok status with the
      body text ("" when reading it fails), an ok body that is not JSON, or
      the parsed JSON body. */
  datatype Upstream =
    | NetworkError
    | Failure(status: int, text: string)
    | Unparsable
    | Ok(json: Value)

  /** The ten fields kept of each sales note. */
  datatype Note = Note(
    idNota: Value, idEmpresa: Value, nomeEmpresa: Value, status: Value,
    dataVenda: Value, horaVenda: Value, valorSubtotal: Value,
    valorFrete: Value, valorTotalServico: Value, valorTotal: Value)

  datatype Bucket = Bucket(hour: string, count: nat)

  datatype SalesPage = SalesPage(
    items: seq<Note>,
    page: Value, size: Value, totalElements: Value, totalPages: Value,
    first: Value, last: Value,
    hourlyHistogram: seq<Bucket>, peakHours: seq<Bucket>)

  /** `s.replace(/\/$/, "")`: one '/' at the very end is removed. */
  function StripTrailingSlash(s: string): (r: string)
    ensures |s| > 0 && s[|s| - 1] == '/' ==> r + "/" == s
    ensures !(|s| > 0 && s[|s| - 1] == '/') ==> r == s
  {
    if |s| > 0 && s[|s| - 1] == '/' then s[..|s| - 1] else s
  }

  /** The ERP request for validated parameters and a token. */
  function ErpRequest(id: string, from: string, to: string, page: string, size: string,
                      token: string, baseUrl: Option<string>): Request
  {
    Request(StripTrailingSlash(OrElse(baseUrl, DefaultBaseUrl)) + "/vendas/nota",
            [("idProdutoEmpresa", id), ("dataInicial", from), ("dataFinal", to),
             ("page", page), ("size", size)],
            "Bearer " + token)
  }

  /** `json?.content` when it is an array, otherwise no notes. */
  function Content(json: Value): (r: seq<Value>)
    ensures Get(json, "content").Arr? ==> r == Get(json, "content").elems
    ensures !Get(json, "content").Arr? ==> r == []
  {
    var c := Get(json, "content");
    if c.Arr? then c.elems else []
  }

  /** The ten-field record of one note; reading a field of `null` or
      `undefined` throws, which is None here. */
  function Project(n: Value): (r: Option<Note>)
    ensures r.None? <==> IsNullish(n)
    ensures r.Some? ==> r.value.horaVenda == Get(n, "horaVenda") && r.value.idNota == Get(n, "idNota")
    ensures r.Some? ==>
              && r.value.idEmpresa == Get(n, "idEmpresa") && r.value.nomeEmpresa == Get(n, "nomeEmpresa")
              && r.value.status == Get(n, "status") && r.value.dataVenda == Get(n, "dataVenda")
              && r.value.valorSubtotal == Get(n, "valorSubtotal") && r.value.valorFrete == Get(n, "valorFrete")
              && r.value.valorTotalServico == Get(n, "valorTotalServico")
              && r.value.valorTotal == Get(n, "valorTotal")
  {
    if IsNullish(n) then None
    else Some(Note(Get(n, "idNota"), Get(n, "idEmpresa"), Get(n, "nomeEmpresa"), Get(n, "status"),
                   Get(n, "dataVenda"), Get(n, "horaVenda"), Get(n, "valorSubtotal"),
                   Get(n, "valorFrete"), Get(n, "valorTotalServico"), Get(n, "valorTotal")))
  }

  /** `content.map(project)`: None as soon as one note cannot be projected. */
  function ProjectAll(content: seq<Value>): (r: Option<seq<Note>>)
    ensures r.None? <==> exists i :: 0 <= i < |content| && IsNullish(content[i])
    ensures r.Some? ==> |r.value| == |content|
    ensures r.Some? ==> forall i :: 0 <= i < |content| ==> Project(content[i]) == Some(r.value[i])
  {
    if content == [] then Some([])
    else
      match (Project(content[0]), ProjectAll(content[1..]))
      case (Some(n), Some(rest)) =>
        assert forall i :: 1 <= i < |content| ==> content[i] == content[1..][i - 1];
        Some([n] + rest)
      case (None, _) => None
      case (_, None) =>
        assert forall i :: 0 <= i < |content[1..]| ==> content[1..][i] == content[i + 1];
        None
  }

  /** The hour a note is counted under: `horaVenda` must be a string with a
      ':', and `parseInt` of the text before the first ':' must be 0..23. */
  function HourOf(horaVenda: Value): (r: Option<nat>)
    ensures r.Some? ==> r.value < 24
    ensures r.Some? ==> horaVenda.Str? && ':' in horaVenda.s
  {
    if horaVenda.Str? && ':' in horaVenda.s then
      match ParseInt(Split(horaVenda.s, ':')[0])
      case Some(h) => if 0 <= h <= 23 then Some(h) else None
      case None => None
    else None
  }

  /** A string note time is counted under the `parseInt` value of the text
      before its first ':', when that value is an hour of the day. */
  lemma HourOfText(s: string, i: nat)
    requires i < |s| && s[i] == ':' && ':' !in s[..i]
    ensures HourOf(Str(s)).Some? <==> ParseInt(s[..i]).Some? && 0 <= ParseInt(s[..i]).value <= 23
    ensures HourOf(Str(s)).Some? ==> HourOf(Str(s)).value == ParseInt(s[..i]).value
  {
    SplitFirst(s, ':', i);
  }

  /** `String(h).padStart(2, "0")`. */
  function HourLabel(h: nat): string {
    PadStart(NatToString(h), 2, '0')
  }

  /** The labels are the two-digit hours "00" to "23", and `parseInt`
      reads each back as its hour. */
  lemma HourLabels(h: nat)
    requires h < 24
    ensures h < 10 ==> HourLabel(h) == ['0', DigitChar(h)]
    ensures h >= 10 ==> HourLabel(h) == [DigitChar(h / 10), DigitChar(h % 10)]
    ensures ParseInt(HourLabel(h)) == Some(h)
  {
    ParseIntPadded(h, 2);
    if h < 10 {
      OneDigitLabel(h);
    } else {
      TwoDigitLabel(h);
    }
  }

  lemma OneDigitLabel(h: nat)
    requires h < 10
    ensures HourLabel(h) == ['0', DigitChar(h)]
  {
    assert NatToString(h) == [DigitChar(h)];
  }

  lemma TwoDigitLabel(h: nat)
    requires 10 <= h < 100
    ensures HourLabel(h) == [DigitChar(h / 10), DigitChar(h % 10)]
  {
    assert NatToString(h / 10) == [DigitChar(h / 10)];
    assert NatToString(h) == NatToString(h / 10) + [DigitChar(h % 10)];
  }

  /** The notes counted under hour `h`. */
  function CountAt(items: seq<Note>, h: nat): (n: nat)
    ensures n <= |items|
  {
    if items == [] then 0
    else CountAt(items[..|items| - 1], h) + (if HourOf(items[|items| - 1].horaVenda) == Some(h) then 1 else 0)
  }

  /** The first `k` buckets of the histogram. */
  function Buckets(items: seq<Note>, k: nat): (r: seq<Bucket>)
    ensures |r| == k
  {
    seq(k, h requires 0 <= h < k => Bucket(HourLabel(h), CountAt(items, h)))
  }

  /** The 24-slot histogram the loop builds. */
  function Histogram(items: seq<Note>): (r: seq<Bucket>)
    ensures |r| == 24
  {
    Buckets(items, 24)
  }

  /** The histogram loop: one bucket per hour, counted in place. */
  method TallyHours(items: seq<Note>) returns (hist: seq<Bucket>)
    ensures hist == Histogram(items)
  {
    var buckets := new Bucket[24](h => Bucket(HourLabel(h), 0));
    for i := 0 to |items|
      invariant forall h :: 0 <= h < 24 ==> buckets[h] == Bucket(HourLabel(h), CountAt(items[..i], h))
    {
      assert items[..i + 1][..i] == items[..i];
      var hour := HourOf(items[i].horaVenda);
      if hour.Some? {
        var h := hour.value;
        buckets[h] := buckets[h].(count := buckets[h].count + 1);
      }
    }
    assert items[..|items|] == items;
    hist := buckets[..];
    assert forall h :: 0 <= h < 24 ==> hist[h] == Histogram(items)[h];
  }

  /** `hist.reduce((m, b) => Math.max(m, b.count), 0)`. */
  function MaxCount(hist: seq<Bucket>): (m: nat)
    ensures forall i :: 0 <= i < |hist| ==> hist[i].count <= m
    ensures m == 0 || exists i :: 0 <= i < |hist| && hist[i].count == m
  {
    if hist == [] then 0
    else
      var init := hist[..|hist| - 1];
      var prev := MaxCount(init);
      var last := hist[|hist| - 1].count;
      assert forall i :: 0 <= i < |init| ==> init[i] == hist[i];
      if prev < last then last else prev
  }

  /** The buckets whose count is the maximum, when the maximum is not 0. */
  function PeakHours(hist: seq<Bucket>): seq<Bucket> {
    var m := MaxCount(hist);
    Filter(hist, (b: Bucket) => b.count == m && m > 0)
  }

  /** No peak exactly when nothing was counted; otherwise the peaks are the
      buckets holding the maximum, in histogram order. */
  lemma PeakHoursSpec(hist: seq<Bucket>)
    ensures PeakHours(hist) == [] <==> forall i :: 0 <= i < |hist| ==> hist[i].count == 0
    ensures forall b :: b in PeakHours(hist) <==> b in hist && b.count == MaxCount(hist) && MaxCount(hist) > 0
    ensures IsSubsequence(PeakHours(hist), hist)
  {
    var m := MaxCount(hist);
    var keep := (b: Bucket) => b.count == m && m > 0;
    var p := Filter(hist, keep);
    FilterIsSubsequence(hist, keep);
    if p != [] {
      assert keep(p[0]);
      assert p[0] in hist;
    }
    if exists i :: 0 <= i < |hist| && hist[i].count != 0 {
      var i :| 0 <= i < |hist| && hist[i].count != 0;
      assert m > 0;
      var j :| 0 <= j < |hist| && hist[j].count == m;
      assert keep(hist[j]);
      assert hist[j] in p;
    }
  }

  /** The hour a bucket is labelled with, -1 for a label that is not a number. */
  function HourNumber(b: Bucket): int {
    match ParseInt(b.hour)
    case Some(h) => h
    case None => -1
  }

  /** The histogram has 24 buckets labelled "00".."23" in ascending order,
      bucket h holding the notes of hour h; the peak hours ascend too. */
  lemma HistogramShape(items: seq<Note>)
    ensures forall h :: 0 <= h < 24 ==> HourNumber(Histogram(items)[h]) == h
    ensures forall h :: 0 <= h < 24 ==> Histogram(items)[h].count == CountAt(items, h)
    ensures StrictlyIncreasing(Histogram(items), HourNumber)
    ensures StrictlyIncreasing(PeakHours(Histogram(items)), HourNumber)
  {
    var hist := Histogram(items);
    forall h | 0 <= h < 24 ensures HourNumber(hist[h]) == h {
      HourLabels(h);
    }
    var m := MaxCount(hist);
    var keep := (b: Bucket) => b.count == m && m > 0;
    FilterIsSubsequence(hist, keep);
    SubsequenceIncreasing(PeakHours(hist), hist, HourNumber);
  }

  /** Notes counted under an hour below `k`. */
  function CountBelow(items: seq<Note>, k: nat): nat {
    if items == [] then 0
    else
      var hour := HourOf(items[|items| - 1].horaVenda);
      CountBelow(items[..|items| - 1], k) + (if hour.Some? && hour.value < k then 1 else 0)
  }

  /** Notes counted at all: those with a usable `horaVenda`. */
  function Timed(items: seq<Note>): (n: nat)
    ensures n <= |items|
  {
    if items == [] then 0
    else Timed(items[..|items| - 1]) + (if HourOf(items[|items| - 1].horaVenda).Some? then 1 else 0)
  }

  /** The sum of the counts of a list of buckets. */
  function TotalCount(hist: seq<Bucket>): nat {
    if hist == [] then 0 else TotalCount(hist[..|hist| - 1]) + hist[|hist| - 1].count
  }

  lemma {:induction false} CountBelowStep(items: seq<Note>, k: nat)
    ensures CountBelow(items, k + 1) == CountBelow(items, k) + CountAt(items, k)
  {
    if items != [] {
      CountBelowStep(items[..|items| - 1], k);
    }
  }

  lemma {:induction false} TotalOfBuckets(items: seq<Note>, k: nat)
    ensures TotalCount(Buckets(items, k)) == CountBelow(items, k)
  {
    if k == 0 {
      CountBelowZero(items);
    } else {
      assert Buckets(items, k)[..k - 1] == Buckets(items, k - 1);
      TotalOfBuckets(items, k - 1);
      CountBelowStep(items, k - 1);
    }
  }

  lemma {:induction false} CountBelowZero(items: seq<Note>)
    ensures CountBelow(items, 0) == 0
  {
    if items != [] {
      CountBelowZero(items[..|items| - 1]);
    }
  }

  lemma {:induction false} CountBelowAll(items: seq<Note>)
    ensures CountBelow(items, 24) == Timed(items)
  {
    if items != [] {
      CountBelowAll(items[..|items| - 1]);
    }
  }

  /** Every note counts at most once: the counts add up to the number of
      notes with a usable time, which is at most the number of notes. */
  lemma HistogramTotal(items: seq<Note>)
    ensures TotalCount(Histogram(items)) == Timed(items) <= |items|
  {
    TotalOfBuckets(items, 24);
    CountBelowAll(items);
  }

  /** One more note raises exactly the bucket of its hour, by one, when it
      has a usable time, and leaves every other bucket as it was. */
  lemma OneNoteOneBucket(items: seq<Note>, x: Note)
    ensures forall h :: 0 <= h < 24 ==>
      Histogram(items + [x])[h].count == Histogram(items)[h].count + (if HourOf(x.horaVenda) == Some(h) then 1 else 0)
    ensures TotalCount(Histogram(items + [x])) == TotalCount(Histogram(items)) + (if HourOf(x.horaVenda).Some? then 1 else 0)
  {
    assert (items + [x])[..|items|] == items;
    HistogramTotal(items);
    HistogramTotal(items + [x]);
  }

  /** The reply body for the notes of an ok answer. */
  function Page(json: Value, items: seq<Note>, hist: seq<Bucket>): SalesPage {
    var n := Num(|items| as real);
    SalesPage(items,
              Coalesce(Get(json, "number"), Num(0.0)),
              Coalesce(Get(json, "size"), n),
              Coalesce(Get(json, "totalElements"), n),
              Coalesce(Get(json, "totalPages"), Num(1.0)),
              Coalesce(Get(json, "first"), Bool(true)),
              Coalesce(Get(json, "last"), Bool(true)),
              hist, PeakHours(hist))
  }

  /** The parameters are valid when the three required ones are non-empty. */
  predicate ValidQuery(q: Query) {
    Truthy(Param(q, "idProdutoEmpresa")) && Truthy(Param(q, "dataInicial")) && Truthy(Param(q, "dataFinal"))
  }

  /** The ERP request of a valid query. */
  function RequestFor(q: Query, env: Env): Request
    requires ValidQuery(q) && Truthy(env.token)
  {
    ErpRequest(Param(q, "idProdutoEmpresa").value, Param(q, "dataInicial").value,
               Param(q, "dataFinal").value, OrElse(Param(q, "page"), "0"),
               OrElse(Param(q, "size"), "2000"), env.token.value, env.baseUrl)
  }

  /** The route as a function of the query, the environment and the ERP. */
  function SalesDetails(q: Query, env: Env, erp: Request -> Upstream): Reply<SalesPage> {
    if !ValidQuery(q) then Reply(400, Error(MissingParams))
    else if !Truthy(env.token) then Reply(500, Error(MissingToken))
    else
      match erp(RequestFor(q, env))
      case NetworkError => Failed(Crashed)
      case Failure(status, text) => Reply(502, UpstreamError(UpstreamFailed, status, text))
      case Unparsable => Failed(Crashed)
      case Ok(json) =>
        match ProjectAll(Content(json))
        case None => Failed(Crashed)
        case Some(items) => Reply(200, Payload(Page(json, items, Histogram(items))))
  }

  /** `GET`: the route, with the histogram counted by the loop. */
  method HandleGet(q: Query, env: Env, erp: Request -> Upstream) returns (r: Reply<SalesPage>)
    ensures r == SalesDetails(q, env, erp)
  {
    if !ValidQuery(q) {
      return Reply(400, Error(MissingParams));
    }
    if !Truthy(env.token) {
      return Reply(500, Error(MissingToken));
    }
    var answer := erp(RequestFor(q, env));
    if answer.NetworkError? || answer.Unparsable? {
      return Failed(Crashed);
    }
    if answer.Failure? {
      return Reply(502, UpstreamError(UpstreamFailed, answer.status, answer.text));
    }
    var projected := ProjectAll(Content(answer.json));
    if projected.None? {
      return Failed(Crashed);
    }
    var items := projected.value;
    var hist := TallyHours(items);
    r := Reply(200, Payload(Page(answer.json, items, hist)));
  }

  /** A missing or empty required parameter gives 400 whatever the token and
      the ERP would have done: the check comes first. */
  lemma ValidationFirst(q: Query, env: Env, erp: Request -> Upstream, erp': Request -> Upstream)
    requires !ValidQuery(q)
    ensures SalesDetails(q, env, erp) == SalesDetails(q, Env(None, None), erp') == Reply(400, Error(MissingParams))
  {
  }

  /** Without a token the reply is 500 and the ERP is not asked. */
  lemma TokenRequired(q: Query, env: Env, erp: Request -> Upstream, erp': Request -> Upstream)
    requires ValidQuery(q) && !Truthy(env.token)
    ensures SalesDetails(q, env, erp) == SalesDetails(q, env, erp') == Reply(500, Error(MissingToken))
  {
  }

  /** The request: the base URL without one trailing '/', the five pairs in
      order with `page` "0" and `size` "2000" for absent or empty values, and
      the bearer token. */
  lemma RequestShape(q: Query, env: Env)
    requires ValidQuery(q) && Truthy(env.token)
    ensures RequestFor(q, env).url == StripTrailingSlash(OrElse(env.baseUrl, DefaultBaseUrl)) + "/vendas/nota"
    ensures |RequestFor(q, env).query| == 5
    ensures RequestFor(q, env).query[0] == ("idProdutoEmpresa", Param(q, "idProdutoEmpresa").value)
    ensures RequestFor(q, env).query[1] == ("dataInicial", Param(q, "dataInicial").value)
    ensures RequestFor(q, env).query[2] == ("dataFinal", Param(q, "dataFinal").value)
    ensures RequestFor(q, env).query[3] == ("page", if Truthy(Param(q, "page")) then Param(q, "page").value else "0")
    ensures RequestFor(q, env).query[4] == ("size", if Truthy(Param(q, "size")) then Param(q, "size").value else "2000")
    ensures RequestFor(q, env).authorization == "Bearer " + env.token.value
  {
  }

  /** A non-ok ERP answer gives 502 with the ERP's status and body text. */
  lemma UpstreamFailureReply(q: Query, env: Env, erp: Request -> Upstream)
    requires ValidQuery(q) && Truthy(env.token) && erp(RequestFor(q, env)).Failure?
    ensures SalesDetails(q, env, erp).status == 502
    ensures SalesDetails(q, env, erp).body ==
      UpstreamError(UpstreamFailed, erp(RequestFor(q, env)).status, erp(RequestFor(q, env)).text)
  {
  }

  /** An ok answer whose notes are all objects gives 200; the items follow
      `content` one for one (none when it is not an array), and the paging
      fields fall back only when the ERP's value is null or undefined. */
  lemma OkReply(q: Query, env: Env, erp: Request -> Upstream)
    requires ValidQuery(q) && Truthy(env.token) && erp(RequestFor(q, env)).Ok?
    requires forall v :: v in Content(erp(RequestFor(q, env)).json) ==> !IsNullish(v)
    ensures SalesDetails(q, env, erp).status == 200
    ensures var json := erp(RequestFor(q, env)).json;
            var p := SalesDetails(q, env, erp).body.value;
            && |p.items| == |Content(json)|
            && (forall i :: 0 <= i < |p.items| ==> Project(Content(json)[i]) == Some(p.items[i]))
            && (!Get(json, "content").Arr? ==> p.items == [])
            && p.hourlyHistogram == Histogram(p.items)
            && p.peakHours == PeakHours(p.hourlyHistogram)
            && (IsNullish(Get(json, "number")) ==> p.page == Num(0.0))
            && (!IsNullish(Get(json, "number")) ==> p.page == Get(json, "number"))
            && (IsNullish(Get(json, "size")) ==> p.size == Num(|p.items| as real))
            && (!IsNullish(Get(json, "size")) ==> p.size == Get(json, "size"))
            && (IsNullish(Get(json, "totalElements")) ==> p.totalElements == Num(|p.items| as real))
            && (!IsNullish(Get(json, "totalElements")) ==> p.totalElements == Get(json, "totalElements"))
            && (IsNullish(Get(json, "totalPages")) ==> p.totalPages == Num(1.0))
            && (!IsNullish(Get(json, "totalPages")) ==> p.totalPages == Get(json, "totalPages"))
            && (IsNullish(Get(json, "first")) ==> p.first == Bool(true))
            && (!IsNullish(Get(json, "first")) ==> p.first == Get(json, "first"))
            && (IsNullish(Get(json, "last")) ==> p.last == Bool(true))
            && (!IsNullish(Get(json, "last")) ==> p.last == Get(json, "last"))
  {
    var json := erp(RequestFor(q, env)).json;
    var c := Content(json);
    if exists i :: 0 <= i < |c| && IsNullish(c[i]) {
      var i :| 0 <= i < |c| && IsNullish(c[i]);
      assert c[i] in c;
    }
  }

  /** A note that is `null` or `undefined` makes the projection throw: 500. */
  lemma NullNoteFails(q: Query, env: Env, erp: Request -> Upstream, i: nat)
    requires ValidQuery(q) && Truthy(env.token) && erp(RequestFor(q, env)).Ok?
    requires i < |Content(erp(RequestFor(q, env)).json)| && IsNullish(Content(erp(RequestFor(q, env)).json)[i])
    ensures SalesDetails(q, env, erp) == Failed(Crashed)
  {
  }
}
