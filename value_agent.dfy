/** The value validator's price lookup: `lookup_market_price` finds the
    market price entry for a product, by exact name first and otherwise by
    the first entry whose name and the product name contain one another,
    ignoring ASCII case. */
module ValueAgent {
  import opened Wrappers
  import opened Seqs
  import opened Text
  import opened Documents

  /** The partial-match test: either lower-cased name occurs in the other. */
  predicate NamesOverlap(entryName: string, productLower: string) {
    Contains(productLower, Lower(entryName)) || Contains(Lower(entryName), productLower)
  }

  function OverlapsWith(productLower: string): ((string, Record)) -> bool {
    (e: (string, Record)) => NamesOverlap(e.0, productLower)
  }

  /** The price entry the lookup settles on: the exact entry when it is
      present and non-empty, else the entry of the first partial match. */
  function PriceDataFor(prices: Table<Record>, productName: string): (r: Option<Record>)
    ensures Lookup(prices, productName).Some? && Lookup(prices, productName).value != map[] ==> r == Lookup(prices, productName)
    ensures r.None? <==> (Lookup(prices, productName).None? || Lookup(prices, productName).value == map[])
                         && forall j :: 0 <= j < |prices| ==> !NamesOverlap(prices[j].0, Lower(productName))
  {
    var exact := Lookup(prices, productName);
    if exact.Some? && exact.value != map[] then exact
    else match FirstMatch(prices, OverlapsWith(Lower(productName)))
      case Some(i) => Some(prices[i].1)
      case None => None
  }

  /** The answer of `lookup_market_price`. */
  datatype PriceLookup =
    | PriceNotFound(productName: string)
    | PriceFound(productName: string, category: Option<Value>, priceRange: Option<Value>,
                 currency: Option<Value>, lastUpdated: Option<Value>)

  function Report(productName: string, data: Record): PriceLookup {
    PriceFound(productName, Get(data, "category"), Get(data, "typical_price_range"),
      Get(data, "currency"), Get(data, "last_updated"))
  }

  /** `lookup_market_price`. An entry that is an empty object counts as no
      data, both as an exact match and as the partial match found. */
  method LookupMarketPrice(prices: Table<Record>, productName: string) returns (r: PriceLookup)
    ensures r.PriceNotFound? <==> PriceDataFor(prices, productName).None? || PriceDataFor(prices, productName).value == map[]
    ensures r.PriceFound? ==> r == Report(productName, PriceDataFor(prices, productName).value)
    ensures r.productName == productName
  {
    var priceData := Lookup(prices, productName);
    if priceData.None? || priceData.value == map[] {
      var productLower := Lower(productName);
      ghost var at, found := 0, false;
      for i := 0 to |prices|
        invariant forall j :: 0 <= j < i ==> !NamesOverlap(prices[j].0, productLower)
        invariant priceData.None? || priceData.value == map[]
        invariant !found
      {
        var (prodName, data) := prices[i];
        if Contains(productLower, Lower(prodName)) || Contains(Lower(prodName), productLower) {
          priceData := Some(data);
          at, found := i, true;
          break;
        }
      }
      if found {
        assert FirstMatch(prices, OverlapsWith(productLower)) == Some(at);
      }
    }
    if priceData.None? || priceData.value == map[] {
      r := PriceNotFound(productName);
    } else {
      r := Report(productName, priceData.value);
    }
  }

  /** An exact, non-empty entry always wins over partial matches. */
  lemma ExactNameWins(prices: Table<Record>, productName: string, data: Record)
    requires DistinctKeys(prices) && (productName, data) in prices && data != map[]
    ensures PriceDataFor(prices, productName) == Some(data)
  {
    LookupExact(prices, productName, data);
  }

  /** Without a non-empty exact entry, an entry whose name equals the
      product name up to ASCII case always gives the lookup an entry, itself
      or an earlier partial match. */
  lemma CaseVariantFound(prices: Table<Record>, productName: string, i: int)
    requires 0 <= i < |prices| && Lower(prices[i].0) == Lower(productName)
    requires Lookup(prices, productName).None? || Lookup(prices, productName).value == map[]
    ensures PriceDataFor(prices, productName).Some?
    ensures exists j :: 0 <= j <= i && PriceDataFor(prices, productName) == Some(prices[j].1)
                        && NamesOverlap(prices[j].0, Lower(productName))
  {
    var pl := Lower(productName);
    assert OccursAt(pl, Lower(prices[i].0), 0);
    assert OverlapsWith(pl)(prices[i]);
  }

  /** An entry matches only if its name and the product name overlap. */
  lemma FoundDataOverlaps(prices: Table<Record>, productName: string)
    requires Lookup(prices, productName).None? || Lookup(prices, productName).value == map[]
    requires PriceDataFor(prices, productName).Some?
    ensures exists j :: 0 <= j < |prices| && PriceDataFor(prices, productName) == Some(prices[j].1)
                        && NamesOverlap(prices[j].0, Lower(productName))
                        && forall k :: 0 <= k < j ==> !NamesOverlap(prices[k].0, Lower(productName))
  {
  }
}
