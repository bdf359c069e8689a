/**
 * `get_ticker_metadata`: start from fixed defaults and overwrite each entry
 * for which the ticker-details reply carries the matching attribute.
 */
module TickerMetadata {
  import opened Common
  import opened Text

  /**
   * The `type` attribute of a reply: missing, present but `None` (so that
   * `.lower()` raises), or a type code.
   */
  datatype TypeAttr = TypeMissing | TypeNone | TypeCode(code: string)

  /**
   * The attributes of a ticker-details reply that the program reads; `None`
   * stands for an attribute the reply does not have.
   */
  datatype Details = Details(
    kind: TypeAttr,
    primaryExchange: Option<string>,
    currencyName: Option<string>,
    name: Option<string>,
    market: Option<string>)

  type Metadata = map<string, string>

  /** The entries every metadata dictionary has. */
  const MetadataKeys: set<string> := {"asset_type", "exchange", "currency", "name", "market"}

  /** The metadata before any attribute is read: the ticker is its own name. */
  function Defaults(ticker: string): (m: Metadata)
    ensures m.Keys == MetadataKeys
  {
    map["asset_type" := "stocks", "exchange" := "NASDAQ", "currency" := "USD", "name" := ticker, "market" := "stocks"]
  }

  /** The asset class for a lower-cased type code; unknown codes pass through. */
  function AssetClass(lowered: string): string
  {
    if lowered == "cs" || lowered == "common_stock" then "stocks"
    else if lowered == "etf" then "etfs"
    else if lowered == "crypto" then "crypto"
    else if lowered == "fx" then "forex"
    else lowered
  }

  /** The value an attribute gives an entry: the attribute if present, else what was there. */
  function Overwrite(current: string, attribute: Option<string>): string
  {
    match attribute
    case None => current
    case Some(v) => v
  }

  /**
   * The metadata for `ticker` given the details reply, `None` when the details
   * call raised. A `None` type code raises before any entry is written, so the
   * handler returns the defaults then too.
   */
  function Normalised(ticker: string, details: Option<Details>): (m: Metadata)
    ensures m.Keys == MetadataKeys
  {
    var d := Defaults(ticker);
    match details
    case None => d
    case Some(r) =>
      if r.kind.TypeNone? then d
      else
      d["asset_type" := if r.kind.TypeCode? then AssetClass(Lower(r.kind.code)) else d["asset_type"]]
       ["exchange" := Overwrite(d["exchange"], r.primaryExchange)]
       ["currency" := Overwrite(d["currency"], r.currencyName)]
       ["name" := Overwrite(d["name"], r.name)]
       ["market" := Overwrite(d["market"], r.market)]
  }

  /** `get_ticker_metadata`: the dictionary is filled in place, one attribute at a time. */
  method GetTickerMetadata(ticker: string, details: Option<Details>) returns (metadata: Metadata)
    ensures metadata == Normalised(ticker, details)
    ensures metadata.Keys == MetadataKeys
  {
    metadata := map["asset_type" := "stocks", "exchange" := "NASDAQ", "currency" := "USD",
                    "name" := ticker, "market" := "stocks"];
    if details.None? {
      return;
    }
    var r := details.value;
    ghost var d := Defaults(ticker);
    if r.kind.TypeNone? {
      return;
    }
    if r.kind.TypeCode? {
      var assetType := Lower(r.kind.code);
      if assetType == "cs" || assetType == "common_stock" {
        metadata := metadata["asset_type" := "stocks"];
      } else if assetType == "etf" {
        metadata := metadata["asset_type" := "etfs"];
      } else if assetType == "crypto" {
        metadata := metadata["asset_type" := "crypto"];
      } else if assetType == "fx" {
        metadata := metadata["asset_type" := "forex"];
      } else {
        metadata := metadata["asset_type" := assetType];
      }
    }
    ghost var m1 := d["asset_type" := if r.kind.TypeCode? then AssetClass(Lower(r.kind.code)) else d["asset_type"]];
    assert metadata == m1;
    if r.primaryExchange.Some? {
      metadata := metadata["exchange" := r.primaryExchange.value];
    }
    ghost var m2 := m1["exchange" := Overwrite(d["exchange"], r.primaryExchange)];
    assert metadata == m2;
    if r.currencyName.Some? {
      metadata := metadata["currency" := r.currencyName.value];
    }
    ghost var m3 := m2["currency" := Overwrite(d["currency"], r.currencyName)];
    assert metadata == m3;
    if r.name.Some? {
      metadata := metadata["name" := r.name.value];
    }
    ghost var m4 := m3["name" := Overwrite(d["name"], r.name)];
    assert metadata == m4;
    if r.market.Some? {
      metadata := metadata["market" := r.market.value];
    }
    assert metadata == m4["market" := Overwrite(d["market"], r.market)];
  }

  /**
   * A failed details call, a reply whose type is `None` whatever else it
   * carries, or a reply with no attributes, leaves every default in place.
   */
  lemma NoAttributesKeepsDefaults(ticker: string, details: Option<Details>)
    requires details.None? || details.value.kind.TypeNone?
      || details.value == Details(TypeMissing, None, None, None, None)
    ensures Normalised(ticker, details) == Defaults(ticker)
  {
  }

  /** Each entry comes from its own attribute when present and keeps its default otherwise. */
  lemma EntriesFromAttributes(ticker: string, r: Details)
    requires !r.kind.TypeNone?
    ensures var m := Normalised(ticker, Some(r));
      && m["asset_type"] == (if r.kind.TypeCode? then AssetClass(Lower(r.kind.code)) else "stocks")
      && m["exchange"] == Overwrite("NASDAQ", r.primaryExchange)
      && m["currency"] == Overwrite("USD", r.currencyName)
      && m["name"] == Overwrite(ticker, r.name)
      && m["market"] == Overwrite("stocks", r.market)
  {
  }

  /**
   * The type code is read without regard to ASCII case: replies whose codes
   * differ only in case, such as `CS`, `Cs` and `cs`, give the same metadata.
   */
  lemma AssetClassIgnoresCase(ticker: string, r: Details, a: string, b: string)
    requires SameUpToAsciiCase(a, b)
    ensures Normalised(ticker, Some(r.(kind := TypeCode(a)))) == Normalised(ticker, Some(r.(kind := TypeCode(b))))
  {
    assert Lower(a) == Lower(b);
  }

  /** Normalising an asset class that normalisation produced gives it back unchanged. */
  lemma AssetClassIdempotent(kind: string)
    ensures AssetClass(Lower(AssetClass(Lower(kind)))) == AssetClass(Lower(kind))
  {
    var k := Lower(kind);
    LowerIdempotent(kind);
    if k == "cs" || k == "common_stock" {
      assert Lower("stocks") == "stocks";
    } else if k == "etf" {
      assert Lower("etfs") == "etfs";
    } else if k == "crypto" {
      assert Lower("crypto") == "crypto";
    } else if k == "fx" {
      assert Lower("forex") == "forex";
    }
  }
}
