/**
 * The helpers of the date-range report: the name a `.lzo` file decompresses
 * to, and the summary of one decompressed CSV (first and last timestamp, row
 * count, and a bar size guessed from the file name). The `lzop` run and the
 * CSV reading are parameters.
 */
module DateRange {
  import opened Common
  import opened Text
  import Upload

  const LzoSuffix: string := ".lzo"

  /** `os.path.join(output_dir, os.path.basename(lzo_file).replace('.lzo', ''))`. */
  function DecompressedPath(lzoFile: string, outputDir: string): string
  {
    PathJoin(outputDir, RemoveAll(Basename(lzoFile), LzoSuffix))
  }

  /** `decompress_lzo`: the output path when `lzop` exits with status 0, `None` when it fails. */
  function DecompressLzo(lzoFile: string, outputDir: string, lzopSucceeded: bool): (r: Option<string>)
    ensures r.Some? <==> lzopSucceeded
    ensures r.Some? ==> r.value == DecompressedPath(lzoFile, outputDir)
    ensures r.Some? ==>
      var name := RemoveAll(Basename(lzoFile), LzoSuffix);
      && '/' !in name
      && |r.value| >= |outputDir| + |name|
      && r.value[..|outputDir|] == outputDir
      && r.value[|r.value| - |name|..] == name
  {
    if lzopSucceeded then Some(DecompressedPath(lzoFile, outputDir)) else None
  }

  /**
   * Every `.lzo` goes, not only a trailing one: text without `.lzo` before an
   * occurrence is kept, the occurrence is dropped, and the scan goes on after it.
   */
  lemma {:induction false} RemoveLzoOccurrence(b: string, rest: string)
    requires !Contains(b, LzoSuffix)
    ensures RemoveAll(b + LzoSuffix + rest, LzoSuffix) == b + RemoveAll(rest, LzoSuffix)
    decreases |b|
  {
    var s := b + LzoSuffix + rest;
    if |b| == 0 {
      assert s[..4] == LzoSuffix;
      assert s[4..] == rest;
    } else {
      if |b| >= 4 {
        assert s[..4] == b[..4];
        assert !OccursAt(b, LzoSuffix, 0);
      } else {
        assert s[..4][|b|] == '.';
        assert LzoSuffix[|b|] != '.';
      }
      assert s[..4] != LzoSuffix;
      if Contains(b[1..], LzoSuffix) {
        ContainsTail(b, LzoSuffix);
        assert false;
      }
      RemoveLzoOccurrence(b[1..], rest);
      assert s[1..] == b[1..] + LzoSuffix + rest;
      assert [b[0]] + b[1..] == b;
    }
  }

  /** Decompressing a file compressed as `<path>.lzo` gives its original name under the output directory. */
  lemma DecompressUndoesCompress(path: string, outputDir: string)
    requires !Contains(Basename(path), LzoSuffix)
    ensures DecompressedPath(Upload.CompressedPath(path), outputDir) == PathJoin(outputDir, Basename(path))
  {
    assert Upload.CompressedPath(path) == path + LzoSuffix;
    var b := Basename(path);
    BasenameAppend(path, LzoSuffix);
    assert Basename(path + LzoSuffix) == b + LzoSuffix;
    RemoveLzoOccurrence(b, "");
    assert b + LzoSuffix + "" == b + LzoSuffix;
    assert RemoveAll("", LzoSuffix) == "";
    assert RemoveAll(b + LzoSuffix, LzoSuffix) == b;
  }

  /** The bar size a file name suggests. */
  datatype Frequency = Daily | Hourly | Minute | Unknown
  {
    function Label(): string
    {
      match this
      case Daily => "Daily"
      case Hourly => "Hourly"
      case Minute => "Minute"
      case Unknown => "Unknown"
    }
  }

  /** Substring tests on the whole path, `day` before `hour` before `min`. */
  function FrequencyOf(csvFile: string): Frequency
  {
    if Contains(csvFile, "day") then Daily
    else if Contains(csvFile, "hour") then Hourly
    else if Contains(csvFile, "min") then Minute
    else Unknown
  }

  /** Each label is chosen exactly when its word occurs and no earlier word does. */
  lemma FrequencyPrecedence(csvFile: string)
    ensures FrequencyOf(csvFile) == Daily <==> Contains(csvFile, "day")
    ensures FrequencyOf(csvFile) == Hourly <==> !Contains(csvFile, "day") && Contains(csvFile, "hour")
    ensures FrequencyOf(csvFile) == Minute <==>
      !Contains(csvFile, "day") && !Contains(csvFile, "hour") && Contains(csvFile, "min")
    ensures FrequencyOf(csvFile) == Unknown <==>
      !Contains(csvFile, "day") && !Contains(csvFile, "hour") && !Contains(csvFile, "min")
  {
  }

  /** A daily file stays daily wherever it is placed, since the whole path is searched. */
  lemma DailyAnywhere(prefix: string, csvFile: string, suffix: string)
    requires FrequencyOf(csvFile) == Daily
    ensures FrequencyOf(prefix + csvFile + suffix) == Daily
  {
    ContainsWithin(prefix, csvFile, suffix, "day");
  }

  /** A name with both `day` and `min` counts as daily. */
  lemma DayBeatsMin(csvFile: string)
    requires Contains(csvFile, "day") && Contains(csvFile, "min")
    ensures FrequencyOf(csvFile) == Daily
  {
  }

  /** The smallest element of a non-empty column. */
  function MinOf(s: seq<int>): (r: int)
    requires |s| > 0
    ensures r in s
    ensures forall x :: x in s ==> r <= x
  {
    if |s| == 1 then s[0]
    else
      var m := MinOf(s[1..]);
      assert forall x :: x in s ==> x == s[0] || x in s[1..];
      if s[0] <= m then s[0] else m
  }

  /** The largest element of a non-empty column. */
  function MaxOf(s: seq<int>): (r: int)
    requires |s| > 0
    ensures r in s
    ensures forall x :: x in s ==> x <= r
  {
    if |s| == 1 then s[0]
    else
      var m := MaxOf(s[1..]);
      assert forall x :: x in s ==> x == s[0] || x in s[1..];
      if s[0] >= m then s[0] else m
  }

  /**
   * A CSV as the reader returns it: its column names, and the values of its
   * `timestamp` column (milliseconds since the epoch, one per row) when it has one.
   */
  datatype Frame = Frame(columns: seq<string>, timestamp: seq<int>)

  /** The summary of one file; the dates are `None` (NaT) for a file without rows. */
  datatype Analysis = Analysis(file: string, minDate: Option<int>, maxDate: Option<int>, rowCount: nat,
                               frequency: string)

  /**
   * `analyze_date_range`. `frame` is `None` when reading the file raised; the
   * result is `None` when reading raised or there is no `timestamp` column.
   */
  function AnalyzeDateRange(csvFile: string, frame: Option<Frame>): (r: Option<Analysis>)
    ensures r.None? <==> frame.None? || "timestamp" !in frame.value.columns
    ensures r.Some? ==> r.value.file == csvFile && r.value.rowCount == |frame.value.timestamp|
                        && r.value.frequency == FrequencyOf(csvFile).Label()
    ensures r.Some? && |frame.value.timestamp| == 0 ==> r.value.minDate.None? && r.value.maxDate.None?
    ensures r.Some? && |frame.value.timestamp| > 0 ==>
      var ts := frame.value.timestamp;
      && r.value.minDate.Some? && r.value.maxDate.Some?
      && r.value.minDate.value in ts && r.value.maxDate.value in ts
      && r.value.minDate.value <= r.value.maxDate.value
      && forall x :: x in ts ==> r.value.minDate.value <= x <= r.value.maxDate.value
  {
    match frame
    case None => None
    case Some(f) =>
      if "timestamp" !in f.columns then None
      else
        var ts := f.timestamp;
        var lo := if |ts| == 0 then None else Some(MinOf(ts));
        var hi := if |ts| == 0 then None else Some(MaxOf(ts));
        Some(Analysis(csvFile, lo, hi, |ts|, FrequencyOf(csvFile).Label()))
  }
}
