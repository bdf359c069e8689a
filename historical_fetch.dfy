/**
 * `get_historical_data`: fetch every aggregate for one ticker and timespan,
 * appending each record to a CSV file as it arrives, and retrying the whole
 * iteration after a rate-limit error.
 *
 * The client's `list_aggs` is a script: its `i`-th call (counting from 0)
 * delivers `client(i).records` in order and then either finishes or raises
 * `client(i).ending.message`. The output file is a sequence of lines.
 */
module HistoricalFetch {
  import opened Common
  import opened Text

  /** One aggregate as the client hands it over, kept opaque: its rendered CSV cells. */
  datatype Agg = Agg(cells: seq<string>)

  /** How one iteration of `list_aggs` ends after delivering its records. */
  datatype Ending = Exhausted | Raised(message: string)

  /** What one call of `list_aggs` does. */
  datatype Attempt = Attempt(records: seq<Agg>, ending: Ending)

  /** A line of the output CSV: the column header, or one record. */
  datatype Line = Header | Data(row: Agg)

  const MaxRetries: nat := 5
  const BaseWaitSeconds: nat := 15
  const OutputDir: string := "output"
  const RateLimitMarker: string := "429"

  function Pow2(n: nat): (r: nat)
    ensures r >= 1
  {
    if n == 0 then 1 else 2 * Pow2(n - 1)
  }

  /** The wait before the `k`-th retry, before the random jitter factor is applied. */
  function Backoff(k: nat): nat
    requires k >= 1
  {
    BaseWaitSeconds * Pow2(k - 1)
  }

  /** Each retry waits strictly longer than every earlier one. */
  lemma {:induction false} BackoffIncreasing(j: nat, k: nat)
    requires 1 <= j < k
    ensures Backoff(j) < Backoff(k)
    decreases k - j
  {
    if j + 1 < k {
      BackoffIncreasing(j + 1, k);
    }
  }

  /** The pre-jitter waits of the first `n` retries, in order. */
  function Schedule(n: nat): seq<nat>
  {
    if n == 0 then [] else Schedule(n - 1) + [Backoff(n)]
  }

  /** The schedule has one wait per retry, and the `k`-th entry is the wait before retry `k + 1`. */
  lemma {:induction false} ScheduleAt(n: nat)
    ensures |Schedule(n)| == n
    ensures forall k :: 0 <= k < n ==> Schedule(n)[k] == Backoff(k + 1)
    decreases n
  {
    if n > 0 {
      ScheduleAt(n - 1);
    }
  }

  /** The seven path segments of the f-string `aggs/{ticker}/range/{multiplier}/{timespan}/{from_date}/{to_date}`. */
  function EndpointSegments(ticker: string, fromDate: string, toDate: string, multiplier: int, timespan: string): seq<string>
  {
    ["aggs", ticker, "range", IntToString(multiplier), timespan, fromDate, toDate]
  }

  /** The endpoint the run logs: its segments joined by `/`. */
  function Endpoint(ticker: string, fromDate: string, toDate: string, multiplier: int, timespan: string): string
  {
    Join(EndpointSegments(ticker, fromDate, toDate, multiplier, timespan), '/')
  }

  /** The endpoint reads back as its seven segments, in order, when the inputs hold no `/`. */
  lemma EndpointReadsBack(ticker: string, fromDate: string, toDate: string, multiplier: int, timespan: string)
    requires '/' !in ticker && '/' !in fromDate && '/' !in toDate && '/' !in timespan
    ensures Split(Endpoint(ticker, fromDate, toDate, multiplier, timespan), '/')
         == ["aggs", ticker, "range", IntToString(multiplier), timespan, fromDate, toDate]
  {
    SplitJoin(EndpointSegments(ticker, fromDate, toDate, multiplier, timespan), '/');
  }

  /** `os.path.join(output_dir, f"{ticker}_{timespan}_historical.csv")`. */
  function OutputFilename(ticker: string, timespan: string): (r: string)
    ensures |r| >= 1
  {
    PathJoin(OutputDir, ticker + "_" + timespan + "_historical.csv")
  }

  /** For a ticker that does not start with `/`, the file is under `output/` and named after ticker and timespan. */
  lemma OutputFilenameShape(ticker: string, timespan: string)
    requires |ticker| == 0 || ticker[0] != '/'
    ensures OutputFilename(ticker, timespan) == "output/" + ticker + "_" + timespan + "_historical.csv"
  {
  }

  /** The message of the `RuntimeError` raised when no row was written. */
  function NoDataMessage(ticker: string): string
  {
    "No data returned for " + ticker + "."
  }

  /** The outer handler: every error leaves as one of two messages, chosen by whether its text mentions 429. */
  function Rewrap(ticker: string, error: string): string
  {
    if Contains(error, RateLimitMarker) then "Rate limit hit for " + ticker + ". Please wait before retrying."
    else "Failed to fetch data for " + ticker + ": " + error
  }

  /** A failed attempt made while `retryCount` retries have already been used is retried. */
  predicate Retryable(error: string, retryCount: nat)
  {
    Contains(error, RateLimitMarker) && retryCount < MaxRetries
  }

  /** The attempt made at retry count `i` is the last one. */
  predicate EndsRun(a: Attempt, i: nat)
  {
    a.ending.Exhausted? || !Retryable(a.ending.message, i)
  }

  /** How many times `list_aggs` is called, counting from the call made at retry count `i`. */
  function CallsFrom(client: nat -> Attempt, i: nat): (r: nat)
    requires i <= MaxRetries
    ensures i < r <= MaxRetries + 1
    decreases MaxRetries - i
  {
    if EndsRun(client(i), i) then i + 1 else CallsFrom(client, i + 1)
  }

  /** How many times `list_aggs` is called in one run. */
  function Calls(client: nat -> Attempt): (r: nat)
    ensures 1 <= r <= MaxRetries + 1
  {
    CallsFrom(client, 0)
  }

  /** The run stops at the first attempt that ends it. */
  lemma {:induction false} CallsFromFirstEnd(client: nat -> Attempt, i: nat, n: nat)
    requires i <= n <= MaxRetries
    requires forall j :: i <= j < n ==> !EndsRun(client(j), j)
    requires EndsRun(client(n), n)
    ensures CallsFrom(client, i) == n + 1
    decreases n - i
  {
    if i < n {
      CallsFromFirstEnd(client, i + 1, n);
    }
  }

  /** Every call but the last is retried, and the last one ends the run. */
  lemma {:induction false} CallsCharacterised(client: nat -> Attempt, i: nat)
    requires i <= MaxRetries
    ensures forall j :: i <= j < CallsFrom(client, i) - 1 ==> !EndsRun(client(j), j)
    ensures EndsRun(client(CallsFrom(client, i) - 1), CallsFrom(client, i) - 1)
    decreases MaxRetries - i
  {
    if !EndsRun(client(i), i) {
      CallsCharacterised(client, i + 1);
    }
  }

  /** The records the first `n` calls deliver, in delivery order. */
  function Delivered(client: nat -> Attempt, n: nat): (r: seq<Agg>)
  {
    if n == 0 then [] else Delivered(client, n - 1) + client(n - 1).records
  }

  /** One data line per record, in order. */
  function DataLines(rows: seq<Agg>): (r: seq<Line>)
    ensures |r| == |rows|
  {
    if rows == [] then [] else DataLines(rows[..|rows| - 1]) + [Data(rows[|rows| - 1])]
  }

  /** The CSV text of `rows` written one record at a time with a header before the first. */
  function CsvLines(rows: seq<Agg>): (r: seq<Line>)
    ensures |r| == if rows == [] then 0 else |rows| + 1
  {
    if rows == [] then [] else [Header] + DataLines(rows)
  }

  /** Data line `i` is record `i`, and no data line is a header. */
  lemma {:induction false} DataLinesAt(rows: seq<Agg>)
    ensures forall i :: 0 <= i < |rows| ==> DataLines(rows)[i] == Data(rows[i])
    decreases |rows|
  {
    if rows != [] {
      DataLinesAt(rows[..|rows| - 1]);
    }
  }

  /** The header is the first line and no other line, and line `i + 1` is record `i`. */
  lemma CsvLinesShape(rows: seq<Agg>)
    ensures forall i :: 0 <= i < |CsvLines(rows)| ==> (CsvLines(rows)[i] == Header <==> i == 0)
    ensures forall i :: 0 <= i < |rows| ==> CsvLines(rows)[i + 1] == Data(rows[i])
  {
    DataLinesAt(rows);
  }

  /** Appending one record: a header only if nothing was written yet, then the record. */
  lemma CsvLinesSnoc(rows: seq<Agg>, a: Agg)
    ensures rows == [] ==> CsvLines(rows + [a]) == [Header, Data(a)]
    ensures rows != [] ==> CsvLines(rows + [a]) == CsvLines(rows) + [Data(a)]
  {
    assert (rows + [a])[..|rows|] == rows;
  }

  /**
   * What the run raises or returns once the loop is left: the error that ended
   * it, or else the output path if any row was written.
   */
  function Outcome(ticker: string, timespan: string, error: Option<string>, rowCount: nat): Result<string>
  {
    match error
    case Some(e) => Failure(Rewrap(ticker, e))
    case None =>
      if rowCount > 0 then Success(OutputFilename(ticker, timespan))
      else Failure(Rewrap(ticker, NoDataMessage(ticker)))
  }

  /** The error raised by the last call of a run, if it raised one. */
  function LastError(client: nat -> Attempt): Option<string>
  {
    ErrorOf(client(Calls(client) - 1))
  }

  /** What the run raises or returns, stated on the script alone. */
  function FetchResult(ticker: string, timespan: string, client: nat -> Attempt): Result<string>
  {
    Outcome(ticker, timespan, LastError(client), |Delivered(client, Calls(client))|)
  }

  /** Writing record `j` of an attempt extends the file by one line, or by header and line if it is the first. */
  lemma AppendStep(written: seq<Agg>, records: seq<Agg>, j: nat)
    requires j < |records|
    ensures |written| + j == 0 ==> CsvLines(written + records[..j + 1]) == [Header, Data(records[j])]
    ensures |written| + j > 0 ==>
      CsvLines(written + records[..j + 1]) == CsvLines(written + records[..j]) + [Data(records[j])]
  {
    assert written + records[..j + 1] == (written + records[..j]) + [records[j]];
    CsvLinesSnoc(written + records[..j], records[j]);
  }

  /**
   * The inner `for` loop of one attempt: each record is written as it arrives,
   * with the header only while no record has been written yet, and counted.
   */
  method AppendRecords(file: seq<Line>, rowCount: nat, firstRecord: bool, records: seq<Agg>, ghost written: seq<Agg>)
    returns (file': seq<Line>, rowCount': nat, firstRecord': bool)
    requires file == CsvLines(written) && rowCount == |written|
    requires firstRecord <==> rowCount == 0
    ensures file' == CsvLines(written + records)
    ensures rowCount' == |written + records|
    ensures firstRecord' <==> rowCount' == 0
  {
    file', rowCount', firstRecord' := file, rowCount, firstRecord;
    var j := 0;
    assert written + records[..0] == written;
    while j < |records|
      invariant 0 <= j <= |records|
      invariant file' == CsvLines(written + records[..j])
      invariant rowCount' == |written| + j
      invariant firstRecord' <==> rowCount' == 0
    {
      var a := records[j];
      AppendStep(written, records, j);
      if firstRecord' {
        file' := file' + [Header, Data(a)];
      } else {
        file' := file' + [Data(a)];
      }
      firstRecord' := false;
      rowCount' := rowCount' + 1;
      j := j + 1;
    }
    assert records[..j] == records;
  }

  /** Once the attempt at retry count `r` ends the run, it is the last call and its error is the run's. */
  lemma LastCall(client: nat -> Attempt, r: nat)
    requires r <= MaxRetries && Calls(client) == CallsFrom(client, r)
    requires EndsRun(client(r), r)
    ensures Calls(client) == r + 1
    ensures LastError(client) == ErrorOf(client(r))
  {
  }

  /** The error the attempt raised, if it raised one. */
  function ErrorOf(a: Attempt): Option<string>
  {
    if a.ending.Raised? then Some(a.ending.message) else None
  }

  /**
   * One pass of the `try` block at retry count `retryCount`: call `list_aggs`,
   * write what it delivers, and decide in the `except` clause whether the
   * error it raised is retried.
   */
  method TryOnce(client: nat -> Attempt, retryCount: nat, file: seq<Line>, rowCount: nat, firstRecord: bool)
    returns (file': seq<Line>, rowCount': nat, firstRecord': bool, retry: bool, error: Option<string>)
    requires file == CsvLines(Delivered(client, retryCount)) && rowCount == |Delivered(client, retryCount)|
    requires firstRecord <==> rowCount == 0
    ensures file' == CsvLines(Delivered(client, retryCount + 1))
    ensures rowCount' == |Delivered(client, retryCount + 1)|
    ensures firstRecord' <==> rowCount' == 0
    ensures retry <==> !EndsRun(client(retryCount), retryCount)
    ensures error == ErrorOf(client(retryCount))
  {
    var attempt := client(retryCount);
    ghost var before := Delivered(client, retryCount);
    file', rowCount', firstRecord' := AppendRecords(file, rowCount, firstRecord, attempt.records, before);
    assert Delivered(client, retryCount + 1) == before + attempt.records;
    match attempt.ending
    case Exhausted =>
      retry, error := false, None;
    case Raised(e) =>
      retry := Contains(e, RateLimitMarker) && retryCount < MaxRetries;
      error := Some(e);
  }

  /**
   * The fetch loop. Returns the result, the lines of the output file, the row
   * counter, how many times `list_aggs` was called and the pre-jitter waits
   * slept between calls.
   */
  method GetHistoricalData(ticker: string, fromDate: string, toDate: string, multiplier: int, timespan: string,
                           client: nat -> Attempt)
    returns (result: Result<string>, file: seq<Line>, rowCount: nat, calls: nat, waits: seq<nat>)
    ensures calls == Calls(client)
    ensures file == CsvLines(Delivered(client, calls))
    ensures rowCount == |Delivered(client, calls)|
    ensures waits == Schedule(calls - 1)
    ensures result == FetchResult(ticker, timespan, client)
  {
    file := [];
    rowCount := 0;
    var firstRecord := true;
    var retryCount: nat := 0;
    calls := 0;
    waits := [];
    var failure: Option<string> := None;
    var done := false;

    while !done
      invariant retryCount <= MaxRetries
      invariant Calls(client) == CallsFrom(client, retryCount)
      invariant calls == if done then retryCount + 1 else retryCount
      invariant file == CsvLines(Delivered(client, calls))
      invariant rowCount == |Delivered(client, calls)|
      invariant firstRecord <==> rowCount == 0
      invariant waits == Schedule(retryCount)
      invariant done ==> EndsRun(client(retryCount), retryCount) && failure == ErrorOf(client(retryCount))
      decreases MaxRetries - retryCount, if done then 0 else 1
    {
      var retry, error;
      file, rowCount, firstRecord, retry, error := TryOnce(client, retryCount, file, rowCount, firstRecord);
      calls := calls + 1;
      if retry {
        retryCount := retryCount + 1;
        waits := waits + [Backoff(retryCount)];
      } else {
        failure := error;
        done := true;
      }
    }
    LastCall(client, retryCount);
    // The endpoint of line 47 only appears in log lines; it is bound here, where the messages are chosen.
    var endpoint := Endpoint(ticker, fromDate, toDate, multiplier, timespan);

    if failure.Some? {
      result := Failure(Rewrap(ticker, failure.value));
    } else if rowCount > 0 {
      result := Success(OutputFilename(ticker, timespan));
    } else {
      result := Failure(Rewrap(ticker, NoDataMessage(ticker)));
    }
  }

  /**
   * Every call but the last raised an error mentioning 429 while fewer than
   * five retries had been used; the last call finished, raised some other
   * error, or raised a 429 at the ceiling.
   */
  lemma {:induction false} RetriedOnlyOnRateLimit(client: nat -> Attempt)
    ensures forall j :: 0 <= j < Calls(client) - 1 ==>
      client(j).ending.Raised? && Contains(client(j).ending.message, RateLimitMarker) && j < MaxRetries
    ensures var last := client(Calls(client) - 1);
      last.ending.Exhausted? || !Contains(last.ending.message, RateLimitMarker) || Calls(client) == MaxRetries + 1
  {
    CallsCharacterised(client, 0);
  }

  /** An error without 429 on the first call stops the run at once: one call, no wait. */
  lemma FirstOtherErrorStops(ticker: string, timespan: string, client: nat -> Attempt)
    requires client(0).ending.Raised? && !Contains(client(0).ending.message, RateLimitMarker)
    ensures Calls(client) == 1 && Schedule(Calls(client) - 1) == []
    ensures Delivered(client, Calls(client)) == client(0).records
    ensures FetchResult(ticker, timespan, client)
         == Failure("Failed to fetch data for " + ticker + ": " + client(0).ending.message)
  {
  }

  /** A client that answers every call with a 429 is called six times, with waits 15, 30, 60, 120 and 240 seconds. */
  lemma {:induction false} PersistentRateLimit(ticker: string, timespan: string, client: nat -> Attempt)
    requires forall i :: client(i).ending.Raised? && Contains(client(i).ending.message, RateLimitMarker)
    ensures Calls(client) == MaxRetries + 1
    ensures Schedule(Calls(client) - 1) == [15, 30, 60, 120, 240]
    ensures FetchResult(ticker, timespan, client)
         == Failure("Rate limit hit for " + ticker + ". Please wait before retrying.")
  {
    CallsFromFirstEnd(client, 0, MaxRetries);
    assert Pow2(4) == 16;
  }

  /** Rows written by an earlier call are never taken back: they stay a prefix of everything written. */
  lemma {:induction false} DeliveredGrows(client: nat -> Attempt, m: nat, n: nat)
    requires m <= n
    ensures Delivered(client, m) <= Delivered(client, n)
    decreases n - m
  {
    if m < n {
      DeliveredGrows(client, m, n - 1);
    }
  }

  /**
   * A restart after a mid-stream 429 does not rewind the file: the records
   * delivered before the error and the ones the new iteration delivers again
   * are all written and all counted.
   */
  lemma RestartAppendsAgain(ticker: string, timespan: string, client: nat -> Attempt, x: Agg, y: Agg)
    requires client(0) == Attempt([x], Raised("429 Too Many Requests"))
    requires client(1) == Attempt([x, y], Exhausted)
    ensures Calls(client) == 2
    ensures CsvLines(Delivered(client, Calls(client))) == [Header, Data(x), Data(x), Data(y)]
    ensures |Delivered(client, Calls(client))| == 3
    ensures FetchResult(ticker, timespan, client) == Success(OutputFilename(ticker, timespan))
  {
    var message := "429 Too Many Requests";
    assert message[0..3] == RateLimitMarker;
    assert OccursAt(message, RateLimitMarker, 0);
    assert !EndsRun(client(0), 0);
    assert EndsRun(client(1), 1);
    CallsFromFirstEnd(client, 0, 1);
    assert Delivered(client, 1) == [x];
    var rows := Delivered(client, 2);
    assert rows == [x, x, y];
    assert rows[..2] == [x, x] && rows[..2][..1] == [x] && rows[..2][..1][..0] == [];
    assert DataLines([x]) == [Data(x)];
    assert DataLines([x, x]) == [Data(x), Data(x)];
    assert DataLines(rows) == [Data(x), Data(x), Data(y)];
  }

  /** The run returns the output path exactly when its last call finished and at least one row was written. */
  lemma FetchResultCases(ticker: string, timespan: string, client: nat -> Attempt)
    ensures var n := Calls(client);
      FetchResult(ticker, timespan, client).Success? <==>
        client(n - 1).ending.Exhausted? && |Delivered(client, n)| > 0
    ensures FetchResult(ticker, timespan, client).Success? ==>
      FetchResult(ticker, timespan, client).value == OutputFilename(ticker, timespan)
    ensures FetchResult(ticker, timespan, client).Failure? ==>
      var m := FetchResult(ticker, timespan, client).message;
      m == "Rate limit hit for " + ticker + ". Please wait before retrying."
      || m[..|"Failed to fetch data for "|] == "Failed to fetch data for "
  {
  }
}
