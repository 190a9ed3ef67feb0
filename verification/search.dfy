/**
 * The search command's own logic: shaping an offer for JSON output, checking the result limit,
 * filtering the API's results by retailer and rendering them as text.
 *
 * Prices are JSON numbers that the API always sends finite, so they are `real`s here; the
 * float and clock computations (`toFixed`, the rounded percentage, the ISO day of a date, the
 * days left until a date) are the oracles of an `Env`.
 */
module Search {
  import opened Wrappers
  import opened Strings
  import opened Sequences

  const DEFAULT_LIMIT: nat := 10
  const FILTER_FETCH_LIMIT: nat := 100
  const SUMMARY_RETAILERS: nat := 5
  const UNKNOWN_RETAILER: string := "Unknown"
  const LIMIT_MESSAGE: string := "Limit must be a positive number."
  const NO_OFFERS_MESSAGE: string := "No offers found."

  // ---------------------------------------------------------------- data

  /** One entry of `validityDates`. */
  datatype Validity = Validity(from: string, to: string)

  /**
   * `Offer` as the API sends it. A `null` field is `None`; `externalUrl` is `None` whether it is
   * `null` or absent, which every use of it treats alike. `brand` and `unit` hold the one field
   * of the object that is read.
   */
  datatype Offer = Offer(
    price: real,
    oldPrice: Option<real>,
    description: string,
    externalUrl: Option<string>,
    productName: string,
    brand: Option<string>,
    advertisers: seq<string>,
    validityDates: seq<Validity>,
    referencePrice: real,
    unit: Option<string>,
    volume: Option<real>)

  /** One entry of `filters.retailers`. */
  datatype RetailerCount = RetailerCount(name: string, resultsCount: int)

  /** `SearchResult`, with the one filter list that is read. */
  datatype SearchResult = SearchResult(totalResults: int, results: seq<Offer>, retailers: seq<RetailerCount>)

  /** `SimpleOffer`: `discountPercent` is `null` as `None`, an undefined `externalUrl` as `None`. */
  datatype SimpleOffer = SimpleOffer(
    title: string,
    price: real,
    retailer: string,
    expires: string,
    discountPercent: Option<int>,
    externalUrl: Option<string>)

  /**
   * The float and clock computations, left uninterpreted:
   * `formatPrice` is `` `€${price.toFixed(2)}` ``; `roundPercent(price, oldPrice)` is
   * `Math.round((1 - price / oldPrice) * 100)`; `isoDay(to)` is the date part of
   * `new Date(to).toISOString()`; `formatValidity` renders the days left until the first date.
   */
  datatype Env = Env(
    formatPrice: real -> string,
    roundPercent: (real, real) -> int,
    isoDay: string -> string,
    formatValidity: seq<Validity> -> string)

  // ---------------------------------------------------------------- simplifyOffer

  /** `brand?.name`, with a missing brand as the empty string: both are falsy. */
  function BrandName(offer: Offer): string {
    match offer.brand case Some(b) => b case None => []
  }

  /** `Boolean` on a string: a string is truthy exactly when it is non-empty. */
  predicate Truthy(s: string) {
    s != []
  }

  /** `[brand?.name, product.name, description].filter(Boolean)`: the non-empty ones, in that order. */
  function TitleParts(offer: Offer): (parts: seq<string>)
    ensures parts == Keep([BrandName(offer), offer.productName, offer.description], Truthy)
    ensures forall k :: 0 <= k < |parts| ==> parts[k] != []
    ensures |parts| <= 3
  {
    var last := [offer.description];
    assert Keep(last, Truthy) == (if Truthy(offer.description) then last else []) by {
      assert last[1..] == [];
    }
    var tail := [offer.productName] + last;
    assert Keep(tail, Truthy) == (if Truthy(offer.productName) then [offer.productName] else []) + Keep(last, Truthy) by {
      assert tail[0] == offer.productName && tail[1..] == last;
    }
    var fields := [BrandName(offer)] + tail;
    assert Keep(fields, Truthy) == (if Truthy(BrandName(offer)) then [BrandName(offer)] else []) + Keep(tail, Truthy) by {
      assert fields[0] == BrandName(offer) && fields[1..] == tail;
    }
    assert fields == [BrandName(offer), offer.productName, offer.description];
    (match offer.brand case Some(b) => (if b != [] then [b] else []) case None => [])
    + (if offer.productName != [] then [offer.productName] else [])
    + (if offer.description != [] then [offer.description] else [])
  }

  /** A truthy old price above the current one: the condition for a discount. */
  predicate HasDiscount(price: real, oldPrice: Option<real>) {
    oldPrice.Some? && oldPrice.value != 0.0 && oldPrice.value > price
  }

  /** `advertisers[0]?.name || "Unknown"` */
  function RetailerName(advertisers: seq<string>): (name: string)
    ensures name != []
    ensures |advertisers| > 0 && advertisers[0] != [] ==> name == advertisers[0]
    ensures (|advertisers| == 0 || advertisers[0] == []) ==> name == UNKNOWN_RETAILER
  {
    if |advertisers| > 0 && advertisers[0] != [] then advertisers[0] else UNKNOWN_RETAILER
  }

  /** The expiry day: the ISO day of the first validity's end, or empty when there is none. */
  function Expires(dates: seq<Validity>, env: Env): (day: string)
    ensures (|dates| == 0 || dates[0].to == []) ==> day == []
    ensures |dates| > 0 && dates[0].to != [] ==> day == env.isoDay(dates[0].to)
  {
    if |dates| > 0 && dates[0].to != [] then env.isoDay(dates[0].to) else []
  }

  /** `simplifyOffer` */
  function SimplifyOffer(offer: Offer, env: Env): (s: SimpleOffer)
    ensures s.title == Join(TitleParts(offer), " - ")
    ensures s.price == offer.price
    ensures s.retailer == RetailerName(offer.advertisers) && s.retailer != []
    ensures s.expires == Expires(offer.validityDates, env)
    ensures s.discountPercent.Some? <==> HasDiscount(offer.price, offer.oldPrice)
    ensures s.discountPercent.Some? ==> s.discountPercent.value == env.roundPercent(offer.price, offer.oldPrice.value)
    ensures s.externalUrl == offer.externalUrl
  {
    var discount := if HasDiscount(offer.price, offer.oldPrice) then Some(env.roundPercent(offer.price, offer.oldPrice.value)) else None;
    SimpleOffer(
      Join(TitleParts(offer), " - "),
      offer.price,
      RetailerName(offer.advertisers),
      Expires(offer.validityDates, env),
      discount,
      offer.externalUrl)
  }

  /**
   * The title is empty exactly when brand, product name and description are all empty, and
   * with only a product name it is the product name.
   */
  lemma TitleFacts(offer: Offer)
    ensures Join(TitleParts(offer), " - ") == [] <==>
      (offer.brand.None? || offer.brand.value == []) && offer.productName == [] && offer.description == []
    ensures (offer.brand.None? || offer.brand.value == []) && offer.description == [] ==>
      Join(TitleParts(offer), " - ") == offer.productName
  {
    var parts := TitleParts(offer);
    if |parts| > 1 {
      assert Join(parts, " - ") == parts[0] + " - " + Join(parts[1..], " - ");
    }
  }

  // ---------------------------------------------------------------- normalizeLimit

  /** A JavaScript number. */
  datatype Number = Finite(value: real) | NaN | PositiveInfinity | NegativeInfinity

  /**
   * `normalizeLimit`: no limit means 10; a limit that is not finite or not positive is an
   * error; otherwise the limit rounded down.
   */
  function NormalizeLimit(limit: Option<Number>): (r: Result<int, string>)
    ensures limit.None? ==> r == Success(DEFAULT_LIMIT)
    ensures r.Failure? <==> limit.Some? && (!limit.value.Finite? || limit.value.value <= 0.0)
    ensures r.Failure? ==> r.error == LIMIT_MESSAGE
    ensures r.Success? && limit.Some? ==> 0 <= r.value && r.value as real <= limit.value.value < r.value as real + 1.0
  {
    match limit
    case None => Success(DEFAULT_LIMIT)
    case Some(n) =>
      if !n.Finite? || n.value <= 0.0 then Failure(LIMIT_MESSAGE)
      else Success(n.value.Floor)
  }

  /** A limit of one or more results stays what it is when it is a whole number. */
  lemma WholeLimitKept(n: nat)
    requires n > 0
    ensures NormalizeLimit(Some(Finite(n as real))) == Success(n)
  {
  }

  // ---------------------------------------------------------------- the retailer filter

  /** `options.retailer` is truthy: given and not empty. */
  predicate Filtering(retailer: Option<string>) {
    retailer.Some? && retailer.value != []
  }

  /** Some advertiser's lower-cased name contains `needle`. */
  predicate MatchesRetailer(offer: Offer, needle: string) {
    exists k :: 0 <= k < |offer.advertisers| && Contains(Lower(offer.advertisers[k]), needle)
  }

  /** `results.filter(...)`: the offers some advertiser of which matches, in their order. */
  function FilterByRetailer(offers: seq<Offer>, needle: string): seq<Offer> {
    Keep(offers, offer => MatchesRetailer(offer, needle))
  }

  /** The filter keeps exactly the matching offers. */
  lemma FilterMembership(offers: seq<Offer>, needle: string)
    ensures forall o :: o in FilterByRetailer(offers, needle) <==> o in offers && MatchesRetailer(o, needle)
    ensures |FilterByRetailer(offers, needle)| <= |offers|
  {
    KeepMembership(offers, offer => MatchesRetailer(offer, needle));
  }

  /** The filter works offer by offer, so it keeps the input order. */
  lemma FilterAppend(a: seq<Offer>, b: seq<Offer>, needle: string)
    ensures FilterByRetailer(a + b, needle) == FilterByRetailer(a, needle) + FilterByRetailer(b, needle)
  {
    KeepAppend(a, b, offer => MatchesRetailer(offer, needle));
  }

  /** `list.slice(0, n)` for `n >= 0`. */
  function Take<T>(xs: seq<T>, n: nat): (r: seq<T>)
    ensures |r| == if n < |xs| then n else |xs|
    ensures r <= xs
  {
    if n < |xs| then xs[..n] else xs
  }

  /** `fetchLimit`: at least 100 results are asked for when they will be filtered locally. */
  function FetchLimit(limit: nat, retailer: Option<string>): (n: nat)
    ensures n >= limit
    ensures Filtering(retailer) ==> n >= FILTER_FETCH_LIMIT && (n == limit || n == FILTER_FETCH_LIMIT)
    ensures !Filtering(retailer) ==> n == limit
  {
    if Filtering(retailer) then (if limit > FILTER_FETCH_LIMIT then limit else FILTER_FETCH_LIMIT) else limit
  }

  /** What `runSearch` goes on to print: the offers kept and the total reported. */
  datatype Shaped = Shaped(offers: seq<Offer>, total: int)

  /** The filtering, slicing and total bookkeeping of `runSearch`. */
  function ShapeResults(result: SearchResult, retailer: Option<string>, limit: nat): (r: Shaped)
    ensures |r.offers| <= limit && |r.offers| <= |result.results|
    ensures Filtering(retailer) ==> r.total == |r.offers|
    ensures Filtering(retailer) ==> r.offers == Take(FilterByRetailer(result.results, Lower(retailer.value)), limit)
    ensures !Filtering(retailer) ==> r == Shaped(Take(result.results, limit), result.totalResults)
  {
    if Filtering(retailer) then
      FilterMembership(result.results, Lower(retailer.value));
      var kept := Take(FilterByRetailer(result.results, Lower(retailer.value)), limit);
      Shaped(kept, |kept|)
    else
      Shaped(Take(result.results, limit), result.totalResults)
  }

  /**
   * With a retailer filter every offer kept matches it case-insensitively, in the order the
   * API listed them, and every matching offer is kept unless the limit was reached first.
   */
  lemma FilteredFacts(result: SearchResult, retailer: string, limit: nat)
    requires retailer != []
    ensures var r := ShapeResults(result, Some(retailer), limit);
      forall o :: o in r.offers ==> o in result.results && MatchesRetailer(o, Lower(retailer))
    ensures var r := ShapeResults(result, Some(retailer), limit);
      |r.offers| < limit ==> forall o :: o in result.results && MatchesRetailer(o, Lower(retailer)) ==> o in r.offers
  {
    var needle := Lower(retailer);
    var f := FilterByRetailer(result.results, needle);
    FilterMembership(result.results, needle);
    var r := ShapeResults(result, Some(retailer), limit);
    forall o | o in r.offers ensures o in f {
      var k :| 0 <= k < |r.offers| && r.offers[k] == o;
      assert f[k] == o;
    }
  }

  // ---------------------------------------------------------------- formatOfferText

  /** `formatDiscount(price, oldPrice)`: `-N%` for a real discount, empty otherwise. */
  function FormatDiscount(price: real, oldPrice: Option<real>, env: Env): (r: string)
    ensures r != [] <==> HasDiscount(price, oldPrice)
  {
    if !HasDiscount(price, oldPrice) then ""
    else "-" + IntToString(env.roundPercent(price, oldPrice.value)) + "%"
  }

  /** A discount reads `-N%` with `N` the rounded percentage, and is the same number `simplifyOffer` reports. */
  lemma DiscountShape(offer: Offer, env: Env)
    requires HasDiscount(offer.price, offer.oldPrice)
    ensures var r := FormatDiscount(offer.price, offer.oldPrice, env);
      r[0] == '-' && r[|r| - 1] == '%' &&
      r[1..|r| - 1] == IntToString(SimplifyOffer(offer, env).discountPercent.value)
  {
    var r := FormatDiscount(offer.price, offer.oldPrice, env);
    assert r == "-" + IntToString(env.roundPercent(offer.price, offer.oldPrice.value)) + "%";
  }

  /** The `💰` line: the price, with the old price and discount when discounted, then the unit price if any. */
  function PriceLine(offer: Offer, env: Env): string {
    var discount := FormatDiscount(offer.price, offer.oldPrice, env);
    var priceInfo :=
      if discount != [] then env.formatPrice(offer.price) + " (was " + env.formatPrice(offer.oldPrice.value) + ") " + discount
      else env.formatPrice(offer.price);
    var unitInfo :=
      if offer.volume.Some? && offer.volume.value != 0.0 && offer.unit.Some? then
        " · " + env.formatPrice(offer.referencePrice) + "/" + offer.unit.value
      else "";
    "  💰 " + priceInfo + unitInfo
  }

  /** The first line: the product name, then `[brand]` when the offer has a brand name, trimmed. */
  function NameLine(offer: Offer): string {
    var brand := if offer.brand.Some? && offer.brand.value != [] then "[" + offer.brand.value + "]" else "";
    Trim(offer.productName + " " + brand)
  }

  /**
   * The first line ends in `[brand]` when the offer has a brand name; without one it is the
   * trimmed product name alone.
   */
  lemma NameLineFacts(offer: Offer)
    ensures offer.brand.Some? && offer.brand.value != [] ==>
      var suffix := "[" + offer.brand.value + "]";
      |NameLine(offer)| >= |suffix| && NameLine(offer)[|NameLine(offer)| - |suffix|..] == suffix
    ensures offer.brand.None? || offer.brand.value == [] ==> NameLine(offer) == Trim(offer.productName)
  {
    if offer.brand.Some? && offer.brand.value != [] {
      var suffix := "[" + offer.brand.value + "]";
      var s := offer.productName + " " + suffix;
      var k := |offer.productName| + 1;
      assert s[k] == '[' && s[|s| - 1] == ']' && s[k..] == suffix;
      TrimKeepsEnd(s, k);
    } else {
      assert offer.productName + " " + "" == offer.productName + " ";
      TrimTrailingSpace(offer.productName);
    }
  }

  /** The lines of `formatOfferText`, in the order it pushes them. */
  function OfferLines(offer: Offer, env: Env): (lines: seq<string>)
    ensures 3 <= |lines| <= 5
    ensures lines[0] == NameLine(offer) && lines[1] == PriceLine(offer, env)
  {
    [NameLine(offer), PriceLine(offer, env)]
    + (if offer.description != [] then [DescriptionLine(offer)] else [])
    + [RetailerLine(offer, env)]
    + (if HasLink(offer) then [LinkLine(offer)] else [])
  }

  /** Whether the offer has a truthy `externalUrl`. */
  predicate HasLink(offer: Offer) {
    offer.externalUrl.Some? && offer.externalUrl.value != []
  }

  function DescriptionLine(offer: Offer): string {
    "  📦 " + offer.description
  }

  function LinkLine(offer: Offer): string
    requires HasLink(offer)
  {
    "  🔗 " + offer.externalUrl.value
  }

  function RetailerLine(offer: Offer, env: Env): string {
    "  🏪 " + RetailerName(offer.advertisers) + " · " + env.formatValidity(offer.validityDates)
  }

  /** What `formatOfferText` returns: the offer's lines joined by newlines. */
  function OfferText(offer: Offer, env: Env): string {
    Join(OfferLines(offer, env), "\n")
  }

  /** `formatOfferText`: push the lines one by one, the optional ones only when present, then join them. */
  method FormatOfferText(offer: Offer, env: Env) returns (text: string)
    ensures text == OfferText(offer, env)
  {
    var lines: seq<string> := [NameLine(offer)];
    lines := lines + [PriceLine(offer, env)];
    if offer.description != [] {
      lines := lines + [DescriptionLine(offer)];
    }
    lines := lines + [RetailerLine(offer, env)];
    if HasLink(offer) {
      lines := lines + [LinkLine(offer)];
    }
    assert lines == OfferLines(offer, env);
    text := Join(lines, "\n");
  }

  /** Joining with a separator, one part at a time from the right. */
  lemma {:induction false} JoinSnoc(parts: seq<string>, p: string, sep: string)
    requires parts != []
    ensures Join(parts + [p], sep) == Join(parts, sep) + sep + p
  {
    if |parts| == 1 {
      assert Join(parts + [p], sep) == parts[0] + sep + Join([p], sep);
    } else {
      JoinSnoc(parts[1..], p, sep);
      assert (parts + [p])[1..] == parts[1..] + [p];
    }
  }

  /** Joining the lines of an offer, with its two optional lines present or not. */
  lemma JoinOfferShape(name: string, price: string, description: Option<string>, retailer: string, link: Option<string>)
    ensures Join([name, price] + (if description.Some? then [description.value] else []) + [retailer]
                 + (if link.Some? then [link.value] else []), "\n")
         == name + "\n" + price + (if description.Some? then "\n" + description.value else "")
            + "\n" + retailer + (if link.Some? then "\n" + link.value else "")
  {
    var l0 := [name, price];
    assert Join(l0, "\n") == name + "\n" + price by {
      assert l0[1..] == [price];
    }
    var l1 := l0 + (if description.Some? then [description.value] else []);
    if description.Some? {
      JoinSnoc(l0, description.value, "\n");
    }
    var t1 := name + "\n" + price + (if description.Some? then "\n" + description.value else "");
    assert Join(l1, "\n") == t1;
    var l2 := l1 + [retailer];
    JoinSnoc(l1, retailer, "\n");
    assert Join(l2, "\n") == t1 + "\n" + retailer;
    if link.Some? {
      JoinSnoc(l2, link.value, "\n");
      assert Join(l2 + [link.value], "\n") == t1 + "\n" + retailer + "\n" + link.value;
    } else {
      assert l2 + [] == l2;
    }
  }

  /** The offer text written out: the name and price lines, then each optional line only when present. */
  lemma OfferTextShape(offer: Offer, env: Env)
    ensures OfferText(offer, env) ==
      NameLine(offer) + "\n" + PriceLine(offer, env)
      + (if offer.description != [] then "\n" + DescriptionLine(offer) else "")
      + "\n" + RetailerLine(offer, env)
      + (if HasLink(offer) then "\n" + LinkLine(offer) else "")
  {
    var description := if offer.description != [] then Some(DescriptionLine(offer)) else None;
    var link := if HasLink(offer) then Some(LinkLine(offer)) else None;
    JoinOfferShape(NameLine(offer), PriceLine(offer, env), description, RetailerLine(offer, env), link);
  }

  /**
   * The `🔗` line is there exactly when the offer has a non-empty external URL, and the
   * description line exactly when it has a description; the last line is the link if there is
   * one and the retailer line otherwise.
   */
  lemma OfferLinesFacts(offer: Offer, env: Env)
    ensures var lines := OfferLines(offer, env);
      |lines| == 3 + (if offer.description != [] then 1 else 0) + (if HasLink(offer) then 1 else 0)
    ensures var lines := OfferLines(offer, env);
      HasLink(offer) ==> lines[|lines| - 1] == "  🔗 " + offer.externalUrl.value
    ensures var lines := OfferLines(offer, env);
      !HasLink(offer) ==> lines[|lines| - 1] == RetailerLine(offer, env)
    ensures var lines := OfferLines(offer, env);
      offer.description != [] ==> lines[2] == DescriptionLine(offer)
  {
  }

  /** A string joined from lines contains each of them. */
  lemma {:induction false} JoinContains(lines: seq<string>, sep: string, k: nat)
    requires k < |lines|
    ensures Contains(Join(lines, sep), lines[k])
  {
    var j := Join(lines, sep);
    if |lines| == 1 {
      assert OccursAt(j, lines[k], 0);
    } else if k == 0 {
      assert j == lines[0] + sep + Join(lines[1..], sep);
      assert OccursAt(j, lines[0], 0);
    } else {
      var rest := Join(lines[1..], sep);
      JoinContains(lines[1..], sep, k - 1);
      var i :| 0 <= i <= |rest| - |lines[k]| && OccursAt(rest, lines[k], i);
      var off := |lines[0] + sep|;
      assert j == (lines[0] + sep) + rest;
      assert j[off + i..off + i + |lines[k]|] == rest[i..i + |lines[k]|];
      assert OccursAt(j, lines[k], off + i);
    }
  }

  /** What a line contains, the joined string contains. */
  lemma JoinContainsPart(lines: seq<string>, sep: string, k: nat, sub: string)
    requires k < |lines| && Contains(lines[k], sub)
    ensures Contains(Join(lines, sep), sub)
  {
    JoinContains(lines, sep, k);
    var i :| 0 <= i <= |lines[k]| - |sub| && OccursAt(lines[k], sub, i);
    ContainsTransitive(Join(lines, sep), lines[k], sub, i);
  }

  /** An offer with an external URL shows it. */
  lemma OfferTextShowsLink(offer: Offer, env: Env)
    requires HasLink(offer)
    ensures Contains(OfferText(offer, env), offer.externalUrl.value)
  {
    var lines := OfferLines(offer, env);
    OfferLinesFacts(offer, env);
    JoinContains(lines, "\n", |lines| - 1);
    var prefix := "  🔗 ";
    assert lines[|lines| - 1] == prefix + offer.externalUrl.value;
    assert (prefix + offer.externalUrl.value)[|prefix|..|prefix| + |offer.externalUrl.value|] == offer.externalUrl.value;
    ContainsTransitive(OfferText(offer, env), lines[|lines| - 1], offer.externalUrl.value, |prefix|);
  }

  /** Containment carries through: `sub` at offset `d` of a string contained in `s` is contained in `s`. */
  lemma ContainsTransitive(s: string, mid: string, sub: string, d: nat)
    requires Contains(s, mid) && d + |sub| <= |mid| && mid[d..d + |sub|] == sub
    ensures Contains(s, sub)
  {
    var i :| 0 <= i <= |s| - |mid| && OccursAt(s, mid, i);
    assert s[i..i + |mid|] == mid;
    forall t | 0 <= t < |sub|
      ensures s[i + d + t] == sub[t]
    {
      assert s[i + d + t] == s[i..i + |mid|][d + t] == mid[d + t];
    }
    assert s[i + d..i + d + |sub|] == sub;
    assert OccursAt(s, sub, i + d);
  }

  // ---------------------------------------------------------------- formatResultsText

  /** The first line: `Found N offers for "query":` followed by an empty line. */
  function Header(total: int, query: string): string {
    "Found " + IntToString(total) + " offers for " + [DOUBLE_QUOTE] + query + [DOUBLE_QUOTE] + ":\n"
  }

  /** `name (count)` */
  function RetailerEntry(r: RetailerCount): string {
    r.name + " (" + IntToString(r.resultsCount) + ")"
  }

  function RetailerEntries(rs: seq<RetailerCount>): (entries: seq<string>)
    ensures |entries| == |rs|
    ensures forall k :: 0 <= k < |rs| ==> entries[k] == RetailerEntry(rs[k])
  {
    if rs == [] then [] else [RetailerEntry(rs[0])] + RetailerEntries(rs[1..])
  }

  /** The `📍` summary of the first five retailers. */
  function RetailerSummary(rs: seq<RetailerCount>): string {
    "📍 Retailers: " + Join(RetailerEntries(Take(rs, SUMMARY_RETAILERS)), ", ")
  }

  /** `formatOfferText` as a function value, for mapping over the offers. */
  function OfferFormatter(env: Env): Offer -> string {
    offer => OfferText(offer, env)
  }

  /** Each text followed by an empty line. */
  function Blocks(texts: seq<string>): (lines: seq<string>)
    ensures |lines| == 2 * |texts|
  {
    if texts == [] then [] else [texts[0], ""] + Blocks(texts[1..])
  }

  lemma {:induction false} BlocksAt(texts: seq<string>, k: nat)
    requires k < |texts|
    ensures Blocks(texts)[2 * k] == texts[k] && Blocks(texts)[2 * k + 1] == []
  {
    if k > 0 {
      BlocksAt(texts[1..], k - 1);
      assert Blocks(texts)[2 * k] == Blocks(texts[1..])[2 * (k - 1)];
      assert Blocks(texts)[2 * k + 1] == Blocks(texts[1..])[2 * (k - 1) + 1];
    }
  }

  lemma {:induction false} BlocksSnoc(texts: seq<string>, t: string)
    ensures Blocks(texts + [t]) == Blocks(texts) + [t, ""]
  {
    if texts != [] {
      BlocksSnoc(texts[1..], t);
      assert (texts + [t])[1..] == texts[1..] + [t];
    }
  }

  /** The summary line, present only when the API listed retailers. */
  function SummaryLines(rs: seq<RetailerCount>): (lines: seq<string>)
    ensures |lines| <= 1
  {
    if |rs| > 0 then [RetailerSummary(rs)] else []
  }

  /** The lines of `formatResultsText`, in the order it pushes them. */
  function ResultLines(result: SearchResult, query: string, env: Env): seq<string> {
    if |result.results| == 0 then [Header(result.totalResults, query), NO_OFFERS_MESSAGE]
    else [Header(result.totalResults, query)] + Blocks(Map(result.results, OfferFormatter(env))) + SummaryLines(result.retailers)
  }

  /**
   * The two shapes of the text: with no offers the header and "No offers found." only;
   * otherwise the header, then each offer's text followed by an empty line in order, then the
   * retailer summary exactly when there are retailers.
   */
  lemma ResultLinesFacts(result: SearchResult, query: string, env: Env)
    ensures var lines := ResultLines(result, query, env);
      |result.results| == 0 ==> lines == [Header(result.totalResults, query), NO_OFFERS_MESSAGE]
    ensures var lines := ResultLines(result, query, env);
      |result.results| > 0 ==>
        |lines| == 1 + 2 * |result.results| + (if |result.retailers| > 0 then 1 else 0) &&
        lines[0] == Header(result.totalResults, query) &&
        (forall k :: 0 <= k < |result.results| ==>
          lines[1 + 2 * k] == OfferText(result.results[k], env) && |lines[2 + 2 * k]| == 0) &&
        (|result.retailers| > 0 ==> lines[|lines| - 1] == RetailerSummary(result.retailers))
  {
    if |result.results| > 0 {
      var texts := Map(result.results, OfferFormatter(env));
      var lines := ResultLines(result, query, env);
      LayoutFacts(Header(result.totalResults, query), texts, SummaryLines(result.retailers));
      forall k | 0 <= k < |result.results|
        ensures lines[1 + 2 * k] == OfferText(result.results[k], env) && |lines[2 + 2 * k]| == 0
      {
        LayoutAt(Header(result.totalResults, query), texts, SummaryLines(result.retailers), k);
        MapAt(result.results, OfferFormatter(env), k);
      }
    }
  }

  /** Where the header and the trailing lines sit when a header, blocks of texts and trailing lines are put together. */
  lemma LayoutFacts(header: string, texts: seq<string>, trailer: seq<string>)
    ensures var lines := [header] + Blocks(texts) + trailer;
      |lines| == 1 + 2 * |texts| + |trailer| && lines[0] == header &&
      (trailer != [] ==> lines[|lines| - 1] == trailer[|trailer| - 1])
  {
  }

  /** Where the block of the `k`-th text sits: the text, then an empty line. */
  lemma LayoutAt(header: string, texts: seq<string>, trailer: seq<string>, k: nat)
    requires k < |texts|
    ensures ([header] + Blocks(texts) + trailer)[1 + 2 * k] == texts[k]
    ensures |([header] + Blocks(texts) + trailer)[2 + 2 * k]| == 0
  {
    BlocksAt(texts, k);
  }

  /** The summary names at most five retailers, the first five, in order. */
  lemma SummaryFacts(rs: seq<RetailerCount>)
    ensures |RetailerEntries(Take(rs, SUMMARY_RETAILERS))| <= SUMMARY_RETAILERS
    ensures forall k :: 0 <= k < |RetailerEntries(Take(rs, SUMMARY_RETAILERS))| ==>
      RetailerEntries(Take(rs, SUMMARY_RETAILERS))[k] == RetailerEntry(rs[k])
  {
  }

  /** `formatResultsText`: the header, then one block per offer, then the summary. */
  method FormatResultsText(result: SearchResult, query: string, env: Env) returns (text: string)
    ensures text == Join(ResultLines(result, query, env), "\n")
  {
    var lines: seq<string> := [Header(result.totalResults, query)];
    if |result.results| == 0 {
      lines := lines + [NO_OFFERS_MESSAGE];
      return Join(lines, "\n");
    }
    lines := PushOfferBlocks(lines, result.results, env);
    if |result.retailers| > 0 {
      lines := lines + [RetailerSummary(result.retailers)];
    }
    assert lines == [Header(result.totalResults, query)] + Blocks(Map(result.results, OfferFormatter(env)))
      + SummaryLines(result.retailers);
    text := Join(lines, "\n");
  }

  /** One more offer formatted: the lines grow by its text and an empty line. */
  lemma BlocksPrefixSnoc(lines: seq<string>, offers: seq<Offer>, i: nat, format: Offer -> string)
    requires i < |offers|
    ensures lines + Blocks(Map(offers[..i + 1], format)) == lines + Blocks(Map(offers[..i], format)) + [format(offers[i])] + [""]
  {
    var done := Map(offers[..i], format);
    MapPrefixSnoc(offers, i, format);
    BlocksSnoc(done, format(offers[i]));
  }

  /** The loop of `formatResultsText`: push each offer's text, then an empty line. */
  method PushOfferBlocks(lines: seq<string>, offers: seq<Offer>, env: Env) returns (pushed: seq<string>)
    ensures pushed == lines + Blocks(Map(offers, OfferFormatter(env)))
  {
    pushed := lines;
    ghost var format := OfferFormatter(env);
    for i := 0 to |offers|
      invariant pushed == lines + Blocks(Map(offers[..i], format))
    {
      var offerText := FormatOfferText(offers[i], env);
      BlocksPrefixSnoc(lines, offers, i, format);
      pushed := pushed + [offerText];
      pushed := pushed + [""];
    }
    assert offers[..|offers|] == offers;
  }

  /**
   * Every link of an offer shown appears in the text (the external-URL case of the output
   * test).
   */
  lemma ResultsTextShowsLinks(result: SearchResult, query: string, env: Env, k: nat)
    requires k < |result.results|
    requires HasLink(result.results[k])
    ensures Contains(Join(ResultLines(result, query, env), "\n"), result.results[k].externalUrl.value)
  {
    var offer := result.results[k];
    ResultLinesFacts(result, query, env);
    OfferTextShowsLink(offer, env);
    JoinContainsPart(ResultLines(result, query, env), "\n", 1 + 2 * k, offer.externalUrl.value);
  }
}
