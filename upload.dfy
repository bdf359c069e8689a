/**
 * `compress_and_upload_to_s3`: compress the CSV next to itself as `<path>.lzo`,
 * build the tag string, upload the compressed file under the given key, and
 * turn any failure into one error message. The `lzop` run and the upload are
 * parameters: the error text each produced, or `None` when it succeeded.
 */
module Upload {
  import opened Common
  import opened Text

  /** The path `lzop` writes: the input path with `.lzo` added. */
  function CompressedPath(filePath: string): (r: string)
    ensures |r| == |filePath| + 4 && r[..|filePath|] == filePath && r[|filePath|..] == ".lzo"
  {
    filePath + ".lzo"
  }

  /** The `key=value` parts of the tag string, in the order they are listed. */
  function TagParts(ticker: string, metadata: map<string, string>, source: string, timeframe: string,
                    quality: string): seq<string>
  {
    ["symbol=" + ticker, "source=" + source, "timeframe=" + timeframe, "quality=" + quality]
      + (if "name" in metadata then ["name=" + metadata["name"]] else [])
  }

  /** The tag string: a list of parts, `name` appended last when the metadata has it, joined by `&`. */
  method BuildTags(ticker: string, metadata: map<string, string>, source: string, timeframe: string,
                   quality: string) returns (tags: string)
    ensures tags == Join(TagParts(ticker, metadata, source, timeframe, quality), '&')
    ensures "name" in metadata ==>
      var base := Join(TagParts(ticker, map[], source, timeframe, quality), '&');
      tags == base + "&name=" + metadata["name"]
    ensures "name" !in metadata ==>
      tags == Join(TagParts(ticker, map[], source, timeframe, quality), '&')
  {
    var tagParts := ["symbol=" + ticker, "source=" + source, "timeframe=" + timeframe, "quality=" + quality];
    ghost var base := tagParts;
    assert base == TagParts(ticker, map[], source, timeframe, quality);
    if "name" in metadata {
      var nameTag := "name=" + metadata["name"];
      tagParts := tagParts + [nameTag];
      JoinSnoc(base, nameTag, '&');
      assert Join(base, '&') + ['&'] + nameTag == Join(base, '&') + "&name=" + metadata["name"];
    }
    assert tagParts == TagParts(ticker, metadata, source, timeframe, quality);
    tags := Join(tagParts, '&');
  }

  /** The tag string reads back as its parts when no value holds an `&`. */
  lemma TagsReadBack(ticker: string, metadata: map<string, string>, source: string, timeframe: string,
                     quality: string)
    requires '&' !in ticker && '&' !in source && '&' !in timeframe && '&' !in quality
    requires "name" in metadata ==> '&' !in metadata["name"]
    ensures Split(Join(TagParts(ticker, metadata, source, timeframe, quality), '&'), '&')
         == TagParts(ticker, metadata, source, timeframe, quality)
  {
    var parts := TagParts(ticker, metadata, source, timeframe, quality);
    forall k | 0 <= k < |parts|
      ensures '&' !in parts[k]
    {
    }
    SplitJoin(parts, '&');
  }

  /** What is handed to the object store: the compressed file and the key. */
  datatype UploadRequest = UploadRequest(localPath: string, key: string)

  /**
   * How the `lzop` run ends: exit status 0, a non-zero status with its
   * stderr, or `subprocess.run` itself raising (for instance when `lzop`
   * cannot be started) with that exception's text.
   */
  datatype LzopRun = Compressed | ExitedNonZero(stderr: string) | NotStarted(message: string)

  /** The upload handed to the object store, if one was, and the error raised, if any. */
  datatype UploadOutcome = UploadOutcome(issued: Option<UploadRequest>, error: Option<string>)

  const ErrorPrefix: string := "Error in compress_and_upload_to_s3: "

  /**
   * One compress-and-upload. `uploadError` is the text of the exception raised
   * by the upload or by removing the compressed file, if either raised. The
   * tag string only appears in a log line, so it does not reach the outcome.
   */
  function CompressAndUpload(lzop: LzopRun, uploadError: Option<string>, filePath: string, s3Key: string)
    : (r: UploadOutcome)
    ensures r.issued.Some? <==> lzop.Compressed?
    ensures r.issued.Some? ==> r.issued.value == UploadRequest(CompressedPath(filePath), s3Key)
    ensures r.error.None? <==> lzop.Compressed? && uploadError.None?
    ensures lzop.ExitedNonZero? ==> r.error == Some(ErrorPrefix + "Error compressing file: " + lzop.stderr)
    ensures lzop.NotStarted? ==> r.error == Some(ErrorPrefix + lzop.message)
    ensures lzop.Compressed? && uploadError.Some? ==> r.error == Some(ErrorPrefix + uploadError.value)
  {
    match lzop
    case NotStarted(e) => UploadOutcome(None, Some(ErrorPrefix + e))
    case ExitedNonZero(stderr) => UploadOutcome(None, Some(ErrorPrefix + "Error compressing file: " + stderr))
    case Compressed =>
      var request := UploadRequest(CompressedPath(filePath), s3Key);
      match uploadError
      case Some(e) => UploadOutcome(Some(request), Some(ErrorPrefix + e))
      case None => UploadOutcome(Some(request), None)
  }
}
