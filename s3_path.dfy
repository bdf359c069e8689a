/**
 * `generate_s3_path`: the object key `asset_type/ticker/source/timeframe/YYYY/MM/DD/HH`
 * and the date-time strings it was built from. The clock reading is a parameter.
 */
module S3Path {
  import opened Text

  /** A clock reading, as `datetime.now()` returns it (seconds and below are not used). */
  datatype DateTime = DateTime(year: nat, month: nat, day: nat, hour: nat, minute: nat)

  /** The ranges a `datetime` keeps its fields in. */
  predicate ValidDateTime(t: DateTime)
  {
    1 <= t.year <= 9999 && 1 <= t.month <= 12 && 1 <= t.day <= 31 && t.hour < 24 && t.minute < 60
  }

  /** The formatted pieces returned beside the key. */
  datatype Components = Components(dateStr: string, year: string, month: string, day: string, hour: string,
                                   datetimeStr: string)

  /** The `strftime` fields of one clock reading: `%Y` is four digits, the others two, all zero-padded. */
  function FormatDateTime(t: DateTime): (c: Components)
  {
    var year := PadDecimal(t.year, 4);
    var month := PadDecimal(t.month, 2);
    var day := PadDecimal(t.day, 2);
    var hour := PadDecimal(t.hour, 2);
    var minute := PadDecimal(t.minute, 2);
    Components(year + "-" + month + "-" + day, year, month, day, hour, year + month + day + hour + minute)
  }

  /** `metadata.get('asset_type', 'stocks')`. */
  function AssetTypeOf(metadata: map<string, string>): string
  {
    if "asset_type" in metadata then metadata["asset_type"] else "stocks"
  }

  /** The eight key segments, in order. */
  function KeySegments(ticker: string, metadata: map<string, string>, source: string, timeframe: string,
                       c: Components): seq<string>
  {
    [AssetTypeOf(metadata), ticker, source, timeframe, c.year, c.month, c.day, c.hour]
  }

  /** The key and its components; every date-time piece comes from the one reading `now`. */
  function GenerateS3Path(ticker: string, metadata: map<string, string>, now: DateTime,
                          source: string := "polygon", timeframe: string := "1min"): (r: (string, Components))
    requires ValidDateTime(now)
    ensures r.1 == FormatDateTime(now)
    ensures |r.1.year| == 4 && |r.1.month| == 2 && |r.1.day| == 2 && |r.1.hour| == 2
    ensures ParseDecimal(r.1.year) == now.year && ParseDecimal(r.1.month) == now.month
    ensures ParseDecimal(r.1.day) == now.day && ParseDecimal(r.1.hour) == now.hour
    ensures |r.1.datetimeStr| == 12
    ensures r.1.dateStr == r.1.year + "-" + r.1.month + "-" + r.1.day
    ensures r.1.datetimeStr[..10] == r.1.year + r.1.month + r.1.day + r.1.hour
  {
    var c := FormatDateTime(now);
    PadDecimalValue(now.year, 4);
    assert Pow10(2) == 100;
    PadDecimalValue(now.month, 2);
    PadDecimalValue(now.day, 2);
    PadDecimalValue(now.hour, 2);
    (Join(KeySegments(ticker, metadata, source, timeframe, c), '/'), c)
  }

  /** The key reads back as its eight segments, in order, when the text parts hold no `/`. */
  lemma KeyReadsBack(ticker: string, metadata: map<string, string>, now: DateTime, source: string,
                     timeframe: string)
    requires ValidDateTime(now)
    requires '/' !in AssetTypeOf(metadata) && '/' !in ticker && '/' !in source && '/' !in timeframe
    ensures var r := GenerateS3Path(ticker, metadata, now, source, timeframe);
      Split(r.0, '/') == [AssetTypeOf(metadata), ticker, source, timeframe, r.1.year, r.1.month, r.1.day, r.1.hour]
  {
    var c := FormatDateTime(now);
    var parts := KeySegments(ticker, metadata, source, timeframe, c);
    forall k | 0 <= k < |parts|
      ensures '/' !in parts[k]
    {
      if k >= 4 {
        assert IsDigits(parts[k]);
      }
    }
    SplitJoin(parts, '/');
  }

  /** Without an asset type, a source or a timeframe, the key starts `stocks/<ticker>/polygon/1min`. */
  lemma DefaultSegments(ticker: string, now: DateTime)
    requires ValidDateTime(now) && '/' !in ticker
    ensures var r := GenerateS3Path(ticker, map[], now);
      |Split(r.0, '/')| == 8 && Split(r.0, '/')[..4] == ["stocks", ticker, "polygon", "1min"]
  {
    KeyReadsBack(ticker, map[], now, "polygon", "1min");
  }
}
