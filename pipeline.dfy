/**
 * `main` and `fetch_from_polygon`: for each ticker in turn, look up its
 * metadata, then fetch and upload the hourly, the daily and the per-minute
 * history. Nothing catches an error raised by a fetch or an upload, so the
 * first one ends the whole run. Whether each fetch-and-upload succeeds is a
 * script indexed by the position of the call in the run.
 */
module Pipeline {

  /** One `fetch_from_polygon` call: the ticker, the bar size and the key its file is uploaded under. */
  datatype FetchCall = FetchCall(ticker: string, multiplier: int, timespan: string, s3Key: string)

  /** The three calls made for one ticker: hour, then day, then minute, each with its own key. */
  function TickerCalls(ticker: string, keyMin: string, keyHour: string, keyDay: string): (r: seq<FetchCall>)
    ensures |r| == 3
  {
    [FetchCall(ticker, 1, "hour", keyHour), FetchCall(ticker, 1, "day", keyDay), FetchCall(ticker, 1, "minute", keyMin)]
  }

  /** Every call the run makes when nothing fails, in order. */
  function Plan(tickers: seq<string>, keyMin: string, keyHour: string, keyDay: string): (r: seq<FetchCall>)
    ensures |r| == 3 * |tickers|
  {
    if tickers == [] then []
    else Plan(tickers[..|tickers| - 1], keyMin, keyHour, keyDay)
         + TickerCalls(tickers[|tickers| - 1], keyMin, keyHour, keyDay)
  }

  /** The plan for the first tickers is the start of the plan for all of them. */
  lemma {:induction false} PlanPrefix(tickers: seq<string>, i: nat, keyMin: string, keyHour: string, keyDay: string)
    requires i <= |tickers|
    ensures Plan(tickers[..i], keyMin, keyHour, keyDay) <= Plan(tickers, keyMin, keyHour, keyDay)
    decreases |tickers| - i
  {
    if i < |tickers| {
      var n := |tickers|;
      assert tickers[..n][..n - 1] == tickers[..n - 1];
      PlanPrefix(tickers[..n - 1], i, keyMin, keyHour, keyDay);
      assert tickers[..n - 1][..i] == tickers[..i];
      assert tickers[..n] == tickers;
    } else {
      assert tickers[..i] == tickers;
    }
  }

  /** Calls `3i`, `3i + 1` and `3i + 2` fetch ticker `i` by hour, by day and by minute. */
  lemma {:induction false} PlanOrder(tickers: seq<string>, keyMin: string, keyHour: string, keyDay: string, i: nat)
    requires i < |tickers|
    ensures Plan(tickers, keyMin, keyHour, keyDay)[3 * i] == FetchCall(tickers[i], 1, "hour", keyHour)
    ensures Plan(tickers, keyMin, keyHour, keyDay)[3 * i + 1] == FetchCall(tickers[i], 1, "day", keyDay)
    ensures Plan(tickers, keyMin, keyHour, keyDay)[3 * i + 2] == FetchCall(tickers[i], 1, "minute", keyMin)
    decreases |tickers|
  {
    var n := |tickers|;
    if i < n - 1 {
      PlanOrder(tickers[..n - 1], keyMin, keyHour, keyDay, i);
    }
  }

  /**
   * The per-ticker loop. `succeeds(k)` says whether the `k`-th fetch-and-upload
   * of the run (counting from 0) succeeds. Returns the calls made, in order,
   * and whether the run stopped on a failure.
   */
  method ProcessTickers(tickers: seq<string>, keyMin: string, keyHour: string, keyDay: string,
                        succeeds: nat -> bool)
    returns (made: seq<FetchCall>, aborted: bool)
    ensures made <= Plan(tickers, keyMin, keyHour, keyDay)
    ensures forall k :: 0 <= k < |made| - 1 ==> succeeds(k)
    ensures !aborted <==> made == Plan(tickers, keyMin, keyHour, keyDay) && forall k :: 0 <= k < |made| ==> succeeds(k)
    ensures aborted ==> |made| > 0 && !succeeds(|made| - 1)
  {
    made := [];
    aborted := false;
    var i := 0;
    while i < |tickers|
      invariant 0 <= i <= |tickers|
      invariant made == Plan(tickers[..i], keyMin, keyHour, keyDay)
      invariant forall k :: 0 <= k < |made| ==> succeeds(k)
    {
      PlanPrefix(tickers, i + 1, keyMin, keyHour, keyDay);
      assert tickers[..i + 1][..i] == tickers[..i];
      var calls := TickerCalls(tickers[i], keyMin, keyHour, keyDay);
      var j := 0;
      while j < 3
        invariant 0 <= j <= 3
        invariant made == Plan(tickers[..i], keyMin, keyHour, keyDay) + calls[..j]
        invariant forall k :: 0 <= k < |made| ==> succeeds(k)
      {
        var position := |made|;
        made := made + [calls[j]];
        assert calls[..j + 1] == calls[..j] + [calls[j]];
        if !succeeds(position) {
          aborted := true;
          assert !succeeds(|made| - 1);
          assert made <= Plan(tickers[..i + 1], keyMin, keyHour, keyDay);
          assert |made| <= 3 * |tickers[..i + 1]|;
          return;
        }
        j := j + 1;
      }
      assert calls[..3] == calls;
      i := i + 1;
    }
    assert tickers[..i] == tickers;
  }
}
