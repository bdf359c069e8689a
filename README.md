# Polygon historical-bar fetcher, modelled in Dafny

This project models the core of a small market-data fetcher. For each
ticker, the fetcher reads the ticker's metadata. It then downloads the hourly,
daily and per-minute aggregate bars between two dates. Every record is
appended to a CSV file as soon as it arrives. The fetcher compresses that
file with `lzop` and uploads it to an object store. A companion script
decompresses such files and summarises their date range. A third helper
builds the dated object key.

The model is organised as follows:

- `common.dfy`: `Common`, the `Option` and `Result` wrappers.
- `text.dfy`: `Text`, the Python string operations the program relies on.
  These are `x in s`, `str.replace(pat, '')`, `sep.join`, `os.path.basename`,
  `os.path.join`, ASCII `str.lower` and zero-padded decimal formatting.
  `Split` is included only as the reference against which joined strings are
  read back.
- `historical_fetch.dfy`: `HistoricalFetch`, the fetch loop of
  `get_historical_data` as an imperative method.
  - The client's `list_aggs` is a script `client: nat -> Attempt`. Its `i`-th
    call delivers `client(i).records` and then either finishes or raises a
    message.
  - The output file is a sequence of lines: the header, or one record.
  - The method is proved against reference functions: `Calls` (how many
    calls are made), `Delivered` (every record delivered by those calls),
    `CsvLines` (the file those records produce), `Schedule` (the pre-jitter
    waits) and `FetchResult` (the returned path or the raised message).
- `ticker_metadata.dfy`: `TickerMetadata`, the function `get_ticker_metadata`.
  The dictionary starts at its defaults and is overwritten attribute by
  attribute.
- `upload.dfy`: `Upload`, covering `compress_and_upload_to_s3`. It models
  the `.lzo` path, the tag string, and how the outcome depends on the
  compression and upload results.
- `pipeline.dfy`: `Pipeline`, covering `main` and `fetch_from_polygon`.
  Each ticker is fetched by hour, then by day, then by minute. The first
  error that is raised ends the run.
- `date_range.dfy`: `DateRange`, covering `decompress_lzo` and
  `analyze_date_range`.
- `s3_path.dfy`: `S3Path`, covering `generate_s3_path`. The clock reading is
  a parameter.

Several behaviours of the code are modelled exactly as written:

- A restart after a 429 re-runs `list_aggs` from the beginning. Neither the
  file nor the row counter is reset, so records delivered before the error are
  written again (`RestartAppendsAgain`).
- A run that writes no rows raises "No data returned for T.". The outer
  handler then rewraps that message like any other error. A ticker whose name
  contains `429` therefore gets the rate-limit message.
- The outer handler chooses its message by searching the error text for
  `429`. It does not distinguish whether the retries ran out.
- `str.replace('.lzo', '')` removes every `.lzo` in the base name, not only a
  trailing one.
- The frequency label is found by a substring search over the whole path,
  with `day` checked before `hour` and `hour` before `min`.

What the code does not do, and the model therefore does not either:

- There is no month chunking: one `list_aggs` call covers the whole date range.
- There are no continuation tokens: the client library pages internally.
- A retry does not resume where it failed: it restarts the whole iteration,
  so the same record can be written more than once.
- Only errors whose text contains `429` are retried; other transient errors
  are not.
- Zero rows is not a separate outcome: it is raised as an error.
- The upload tags are built and logged, but they are not passed to the upload.

## Model

| member | source | states |
|---|---|---|
| HistoricalFetch.GetHistoricalData | src/main.py:46-141 | The number of `list_aggs` calls is `Calls(client)`. The file holds one header and then every delivered record in delivery order. The row counter equals the number of delivered records. The waits are the doubling schedule, one per retry. The result is the output path or the rewrapped error given by `FetchResult`. |
| HistoricalFetch.TryOnce | src/main.py:70-125 | One attempt writes exactly the records that this call delivers, after those already written. The attempt is retried if and only if it raised an error containing 429 while fewer than five retries had been used. |
| HistoricalFetch.AppendRecords | src/main.py:71-94 | The inner loop appends each record in order. The header is written only before the first record of the whole run. The counter grows by the number of records. |
| HistoricalFetch.BackoffIncreasing | src/main.py:104 | The pre-jitter wait `15 * 2^(k-1)` strictly increases with the retry number. |
| HistoricalFetch.ScheduleAt | src/main.py:101-114 | After `n` retries, exactly `n` waits have been slept, and the `k`-th of them is the backoff for retry `k + 1`. |
| HistoricalFetch.CallsFrom | src/main.py:66-125 | Counted from retry count `i`, the run makes at least one more call and never goes past the sixth call. |
| HistoricalFetch.Calls | src/main.py:63-125 | A run calls `list_aggs` at least once and at most `max_retries + 1` = 6 times. |
| HistoricalFetch.CallsFromFirstEnd | src/main.py:69-125 | The run stops at the first attempt that finishes, raises an error without 429, or raises 429 at the retry ceiling. |
| HistoricalFetch.CallsCharacterised | src/main.py:99-125 | Every call before the last was retried, and the last call ends the run. |
| HistoricalFetch.RetriedOnlyOnRateLimit | src/main.py:99-125 | Every call but the last raised an error containing 429 while fewer than five retries had been used. The last call finished, raised another error, or was the sixth. |
| HistoricalFetch.LastCall | src/main.py:96-125 | Once an attempt ends the run, it is the last call, and its error, if any, is the one that propagates. |
| HistoricalFetch.FirstOtherErrorStops | src/main.py:123-141 | An error without 429 on the first call means one call, no wait, only that call's records written, and "Failed to fetch data for T: e". |
| HistoricalFetch.PersistentRateLimit | src/main.py:101-138 | If every call raises a 429, the run makes six calls and waits 15, 30, 60, 120 and 240 seconds before jitter. It then raises "Rate limit hit for T. Please wait before retrying.". |
| HistoricalFetch.DeliveredGrows | src/main.py:84-90 | Rows already written are never removed. What was written after `m` calls is a prefix of what is written after `n` ≥ `m` calls. |
| HistoricalFetch.RestartAppendsAgain | src/main.py:69-125 | Suppose a 429 occurs after one record and the restart delivers that record again plus another. The file then holds the header and three data lines, the first record twice. The run returns the output path. |
| HistoricalFetch.DataLinesAt | src/main.py:84-85 | Data line `i` is record `i`. |
| HistoricalFetch.CsvLinesShape | src/main.py:84-88 | The header is line 0 and no other line, and line `i + 1` is record `i`. |
| HistoricalFetch.CsvLinesSnoc | src/main.py:85-88 | Appending a record adds the header and the record when the file is empty, and only the record otherwise. |
| HistoricalFetch.FetchResultCases | src/main.py:127-141 | The run returns the output path if and only if its last call finished and at least one row was written. Any other outcome of the loop raises either the rate-limit message or a message starting "Failed to fetch data for ". This assumes the output file could be opened (see "Left out"). |
| HistoricalFetch.EndpointReadsBack | src/main.py:47 | When the ticker, the timespan and both dates contain no `/`, the endpoint string splits on `/` back into `aggs`, ticker, `range`, multiplier, timespan, from date and to date. |
| HistoricalFetch.OutputFilename | src/main.py:48 | The output path is never empty. The `else` branch of `fetch_from_polygon` is therefore never taken. |
| HistoricalFetch.OutputFilenameShape | src/main.py:48 | For a ticker that does not start with `/`, the output file is `output/<ticker>_<timespan>_historical.csv`. |
| TickerMetadata.Defaults | src/main.py:248 | The defaults have exactly the five keys. |
| TickerMetadata.Normalised | src/main.py:242-288 | Whatever the reply, the metadata has exactly the five keys. |
| TickerMetadata.GetTickerMetadata | src/main.py:242-288 | The in-place updates produce `Normalised(ticker, details)`, which has exactly the five keys. |
| TickerMetadata.NoAttributesKeepsDefaults | src/main.py:250-288 | A failed details call leaves the defaults in place. So does a `None` type, whose `.lower()` raises before any entry is written, and so does a reply without attributes. |
| TickerMetadata.EntriesFromAttributes | src/main.py:254-282 | When the type attribute is not `None`, each entry takes its own attribute when that attribute is present and keeps its default otherwise. The type code is mapped through the asset-class table. |
| TickerMetadata.AssetClassIgnoresCase | src/main.py:255-266 | Two replies whose type codes differ only in the ASCII case of their letters give the same metadata. |
| TickerMetadata.AssetClassIdempotent | src/main.py:256-266 | Normalising an asset class that was itself produced by normalisation returns it unchanged. |
| Upload.CompressedPath | src/main.py:154 | The compressed path is the input path followed by `.lzo`. |
| Upload.BuildTags | src/main.py:169-176 | The tags are `symbol`, `source`, `timeframe` and `quality` joined by `&`, with `&name=<name>` appended exactly when the metadata has a name. |
| Upload.TagsReadBack | src/main.py:169-176 | When no value contains `&`, the tag string splits back into its parts. |
| Upload.CompressAndUpload | src/main.py:144-188 | The upload of the `.lzo` path under the key is issued if and only if `lzop` exits with status 0, whether or not the upload then fails. No error is raised if and only if `lzop` and the upload both succeed. Every error carries the function's prefix. A non-zero exit adds "Error compressing file: " and `lzop`'s stderr. When `subprocess.run` itself raises, the message is that exception's text. |
| Pipeline.TickerCalls | src/main.py:228-230 | Each ticker gets three calls, each with multiplier 1 and its own key. |
| Pipeline.Plan | src/main.py:225-230 | A run that completes makes three calls per ticker. |
| Pipeline.PlanPrefix | src/main.py:225-230 | The calls for the first `i` tickers come before all later calls. |
| Pipeline.PlanOrder | src/main.py:225-230 | Calls `3i`, `3i+1` and `3i+2` fetch ticker `i` by hour, by day and by minute, under the hour, day and minute keys. |
| Pipeline.ProcessTickers | src/main.py:225-240 | Outcomes are a script indexed by call position, so a repeated call may fail where an earlier identical one succeeded. The calls made are a prefix of the plan, and every call but the last succeeded. The run completes the plan if and only if nothing failed. A stopped run stopped on the call that failed. |
| DateRange.DecompressLzo | src/date_range.py:7-26 | The output path is returned if and only if `lzop` succeeds. It starts with the output directory and ends with the base name, which has every `.lzo` removed and contains no `/`. |
| DateRange.RemoveLzoOccurrence | src/date_range.py:10 | Every `.lzo` is removed, and the text between occurrences is kept. |
| DateRange.DecompressUndoesCompress | src/date_range.py:10-11 | Decompressing `Upload.CompressedPath(path)` gives the original base name under the output directory, provided that name has no `.lzo` inside it. |
| DateRange.FrequencyPrecedence | src/date_range.py:53-60 | Each label is chosen if and only if its word occurs in the path and no earlier word does. |
| DateRange.DailyAnywhere | src/date_range.py:53-54 | `day` anywhere in the path makes the file daily, whatever surrounds it. |
| DateRange.DayBeatsMin | src/date_range.py:53-54 | Every path containing both `min` and `day` is labelled daily. |
| DateRange.MinOf | src/date_range.py:46 | The result occurs in the column and is at most every element. |
| DateRange.MaxOf | src/date_range.py:47 | The result occurs in the column and is at least every element. |
| DateRange.AnalyzeDateRange | src/date_range.py:29-75 | There is no analysis if and only if reading failed or the `timestamp` column is missing. Otherwise the file name, the row count and the frequency label string are reported. The first and last timestamps are members of the column that bound it, and they are absent for an empty file. |
| S3Path.GenerateS3Path | src/generateS3PathUtils.py:4-42 | All date-time pieces come from the same clock reading. They are zero-padded to 4 or 2 digits and read back as the reading's fields. The date string is `YYYY-MM-DD`, and the date-time string is 12 digits beginning `YYYYMMDDHH`. |
| S3Path.KeyReadsBack | src/generateS3PathUtils.py:29-32 | When the asset type, the ticker, the source and the timeframe contain no `/`, the key splits on `/` into asset type, ticker, source, timeframe, year, month, day and hour. |
| S3Path.DefaultSegments | src/generateS3PathUtils.py:4-32 | With no asset type and the default arguments, the key starts `stocks/<ticker>/polygon/1min`. |
| Text.ContainsWithin | src/date_range.py:53 | A substring stays a substring when text is added around it. |
| Text.RemoveAllAbsent | src/date_range.py:10 | `replace` of a pattern that does not occur changes nothing. |
| Text.BasenameAppend | src/date_range.py:10 | Appending text without `/` to a path appends it to the base name. |
| Text.Basename | src/date_range.py:10 | The base name contains no `/` and ends the path. |
| Text.PathJoin | src/main.py:48 | An absolute second part replaces the first. Otherwise the joined path is the first part, then a `/` exactly when the first part is non-empty and does not end in `/`, then the second part. |
| Text.Lower | src/main.py:256 | The result equals the input up to ASCII case, and it contains no upper-case ASCII letter. |
| Text.LowerIdempotent | src/main.py:256 | Lower-casing twice is the same as lower-casing once. |
| Text.SplitJoin | src/main.py:176 | Joining parts that do not contain the separator and then splitting gives the parts back. |
| Text.PadDecimal | src/generateS3PathUtils.py:21-26 | The padded form has exactly the requested width and is all digits. |
| Text.PadDecimalValue | src/generateS3PathUtils.py:21-26 | A value that fits in the width reads back from its padded form. |
| Text.IntToString | src/main.py:47 | The decimal text of a number has no `/`, and for a non-negative number it reads back as that number. |
| Text.NatToStringValue | src/main.py:47 | The decimal text of a natural number reads back as that number. |

## Left out

- HistoricalFetch.GetHistoricalData: the model assumes that opening the output file at src/main.py:56 succeeds. In the code, a failing `open` skips the loop, so no `list_aggs` call is made, and the outer handler rewraps the error. One input that makes it fail is a ticker containing `/`, such as `A/B`, whose directory `output/A` does not exist. If the error text contains `429`, the handler reads `max_retries` before line 63 has assigned it, so Python raises `UnboundLocalError` rather than either rewrapped message. Neither consequence is modelled.

- Random jitter: the `(1 + random() * 0.2)` factor and `time.sleep` are not modelled. `waits` records the pre-jitter durations.
- Logging: logging, handler flushing, the progress log every 5000 rows and the `data_fetch_started` flag are not modelled, since they only affect log text.
- `Rewrap`, `NoDataMessage`: the log lines printed beside the raised messages are not modelled.
- The client: the `RESTClient` internals (paging inside `list_aggs`, the `limit=50000` page size, HTTP) are not modelled. The client is a script of attempts. Its arguments (ticker, multiplier, timespan, dates) are not passed to the script.
- pandas: `DataFrame`/`to_csv` rendering is abstracted. A record is an opaque `Agg`, and the file is a list of header and data lines, not text.
- `analyze_date_range`: `read_csv` is a parameter, either the columns and the timestamp column or a failure. Timestamps stay as milliseconds: `to_datetime` conversion and its overflow failures, non-numeric columns and NaN values are not modelled.
- File system: creating the output directory, truncating the output file, running `lzop`, the S3 upload and `os.remove` are modelled only by their outcomes. Only the `lzop` failure `CalledProcessError` is a modelled failure for `decompress_lzo`.
- `Upload.CompressAndUpload`: a failure of `os.remove` after a successful upload is folded into `uploadError`, since both are wrapped the same way.
- Configuration: command-line parsing, `.env` loading, the API-key check, the bucket name from the environment and loading `tickers.csv` are not modelled.
- `date_range.main`: the hard-coded file list, the temporary directory and the printed table are not modelled.
- `S3Path.GenerateS3Path`: `datetime.now()` is a parameter. `%Y` is modelled as four zero-padded digits, which is what glibc prints for years 1000 and later; for smaller years the padding depends on the platform.
- `TickerMetadata.Normalised`: only three cases are modelled for an attribute: missing, present as a string, and, for `type` only, `None`. An `exchange`, `currency`, `name` or `market` attribute that is present with value `None` would store `None`, and the model does not have that case.
- `Text.Lower`: only ASCII letters are lower-cased. Unicode case mapping is not modelled.
- Integers: Python integers are unbounded, and so are the model's. No width is involved.
