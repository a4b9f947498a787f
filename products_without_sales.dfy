/** The products-without-sales route: it requires a `since` date and keeps,
    from a fixed catalogue and in catalogue order, the products whose last
    sale is unknown or falls strictly before that date. */
module ProductsWithoutSales {

  import opened Wrappers
  import opened Dates
  import opened Http
  import opened SeqUtil

  const MissingSince := "Missing required query param \"since\" (YYYY-MM-DD)"
  const Crashed := "Error getting products without sales since"

  /** A catalogue entry; `lastSaleDate` is None for a JSON null. */
  datatype Product = Product(productId: string, name: string, lastSaleDate: Option<string>)

  datatype Listing = Listing(items: seq<Product>, since: string)

  /** The static catalogue the route filters. */
  const Catalogue: seq<Product> := [
    Product("P011", "Produto K", None),
    Product("P012", "Produto L", Some("2023-10-01")),
    Product("P013", "Produto M", Some("2023-09-15")),
    Product("P014", "Produto N", Some("2025-08-12")),
    Product("P015", "Produto O", Some("2025-07-20")),
    Product("P016", "Produto P", Some("2024-12-01")),
    Product("P017", "Produto Q", Some("2025-02-10"))
  ]

  /** `!p.last_sale_date`: null and the empty string are falsy. */
  predicate NoDate(p: Product) {
    p.lastSaleDate.None? || p.lastSaleDate.value == ""
  }

  /** `last < sinceDate` on the two parsed dates. An Invalid Date has the
      time value NaN, and every comparison with NaN is false. Both dates are
      at midnight UTC, so their order is the order of their day numbers. */
  predicate Before(last: Option<Civil>, since: Option<Civil>) {
    last.Some? && since.Some? && DayNumber(last.value) < DayNumber(since.value)
  }

  /** The filter callback, with `sinceDate` already parsed. */
  predicate Kept(sinceDate: Option<Civil>, p: Product) {
    NoDate(p) || Before(ParseDateForm(p.lastSaleDate.value), sinceDate)
  }

  /** `allItems.filter(...)` for a given `since` string. */
  function Unsold(since: string): seq<Product> {
    var sinceDate := ParseDateForm(since);
    Filter(Catalogue, (p: Product) => Kept(sinceDate, p))
  }

  /** `GET`: 400 without a `since` value, otherwise the filtered catalogue
      with `since` echoed as given. */
  function ProductsWithoutSales(q: Query): (r: Reply<Listing>)
    ensures r.status == 400 <==> Param(q, "since").None? || Param(q, "since").value == ""
    ensures r.status == 400 ==> r.body == Error(MissingSince)
    ensures r.status != 400 ==>
              r.status == 200 && r.body.Payload? && r.body.value.since == Param(q, "since").value
  {
    var since := Param(q, "since");
    if since.None? || since.value == "" then Reply(400, Error(MissingSince))
    else Reply(200, Payload(Listing(Unsold(since.value), since.value)))
  }

  /** A product is listed exactly when it is in the catalogue and either has
      no last-sale date or one that parses to a day strictly before `since`. */
  lemma UnsoldSpec(since: string, p: Product)
    ensures p in Unsold(since) <==>
              p in Catalogue &&
              (NoDate(p) || Before(ParseDateForm(p.lastSaleDate.value), ParseDateForm(since)))
  {
  }

  /** The listing keeps the catalogue's order: it is a subsequence. */
  lemma UnsoldInOrder(since: string)
    ensures IsSubsequence(Unsold(since), Catalogue)
  {
    var sinceDate := ParseDateForm(since);
    FilterIsSubsequence(Catalogue, (p: Product) => Kept(sinceDate, p));
  }

  /** A product last sold on the `since` day itself is not listed: the
      comparison is strict. */
  lemma SameDayExcluded(since: string, p: Product)
    requires p.lastSaleDate == Some(since) && since != ""
    ensures p !in Unsold(since)
  {
    UnsoldSpec(since, p);
  }

  /** When `since` is not a valid date every comparison fails, so only
      products without a last-sale date remain. */
  lemma InvalidSinceKeepsUndated(since: string)
    requires ParseDateForm(since).None?
    ensures forall p :: p in Unsold(since) <==> p in Catalogue && NoDate(p)
  {
    forall p ensures p in Unsold(since) <==> p in Catalogue && NoDate(p) {
      UnsoldSpec(since, p);
    }
  }

  /** A later `since` lists every product an earlier one lists. */
  lemma LaterSinceListsMore(a: string, b: string, p: Product)
    requires ParseDateForm(a).Some? && ParseDateForm(b).Some?
    requires DayNumber(ParseDateForm(a).value) <= DayNumber(ParseDateForm(b).value)
    requires p in Unsold(a)
    ensures p in Unsold(b)
  {
    UnsoldSpec(a, p);
    UnsoldSpec(b, p);
  }

  /** A request with a non-empty `since` lists the catalogue filtered by it. */
  lemma ListedReply(q: Query, since: string)
    requires Param(q, "since") == Some(since) && since != ""
    ensures ProductsWithoutSales(q) == Reply(200, Payload(Listing(Unsold(since), since)))
  {
  }
}
