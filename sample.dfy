/** `download_and_process_image_with_retry`: one row of a shard, from its
    fetch attempts to the sample handed to the writer, with the metadata
    dictionary, the per-call counters and the release of the permit that the
    row's producer acquired. The resizer, the hash functions and the EXIF
    reader are parameters. */
module Sample {
  import opened Common
  import opened Keys
  import opened Fetch
  import opened Retry

  /** The permit counter that bounds how many fetched rows wait for
      resizing. Blocking is not modelled: acquiring needs a free permit. */
  class Semaphore {
    var permits: int

    constructor(n: int)
      ensures permits == n
    {
      permits := n;
    }

    method Acquire()
      requires permits > 0
      modifies this
      ensures permits == old(permits) - 1
    {
      permits := permits - 1;
    }

    method Release()
      modifies this
      ensures permits == old(permits) + 1
    {
      permits := permits + 1;
    }
  }

  /** What the resizer does with a stream: an image with its new and original
      dimensions, an error text, or an exception. */
  datatype ResizeOutcome =
    | Resized(img: seq<byte>, width: int, height: int, originalWidth: int, originalHeight: int)
    | ResizeError(message: string)
    | ResizeRaises

  /** The calls the processor makes into code outside the model:
      `resize(stream, bbox_list, crop)`; `digest(name, stream)`, the hex
      digest of `getattr(hashlib, name)`, `None` when that raises (no such
      algorithm); `exif(stream)`, the JSON text of the EXIF tags, `None` when
      reading them raises. */
  datatype Foreign = Foreign(
    resize: (seq<byte>, Value, Value) -> ResizeOutcome,
    digest: (string, seq<byte>) -> Option<string>,
    exif: seq<byte> -> Option<string>)

  /** The arguments the shard loop passes for every row of a shard. The
      indexes are positions in `columns`. */
  datatype Config = Config(
    shardId: nat,
    oomSamplePerShard: nat,
    oomShardCount: nat,
    columns: seq<string>,
    bboxIndex: Option<nat>,
    captionIndex: Option<nat>,
    cropIndex: Option<nat>,
    hashIndex: Option<nat>,
    extractExif: bool,
    computeHash: Option<string>,
    verifyHashType: Option<string>)

  /** A key of the metadata dictionary: one of the fields the processor
      sets itself, or any other name (a column, the computed-hash field). */
  datatype Field = Key | Status | ErrorMessage | Width | Height | OriginalWidth | OriginalHeight | Exif
                 | Named(name: string)

  /** The names of the fields the processor sets itself. */
  const Reserved: set<string> := {"key", "status", "error_message", "width", "height", "original_width", "original_height", "exif"}

  /** The dictionary key a field stands for. */
  function FieldName(fd: Field): string
  {
    match fd
    case Key => "key"
    case Status => "status"
    case ErrorMessage => "error_message"
    case Width => "width"
    case Height => "height"
    case OriginalWidth => "original_width"
    case OriginalHeight => "original_height"
    case Exif => "exif"
    case Named(n) => n
  }

  /** The field a dictionary key stands for: a column or computed-hash field
      named like a fixed field is that field. */
  function FieldOf(name: string): (fd: Field)
    ensures FieldName(fd) == name
    ensures fd.Named? <==> name !in Reserved
  {
    if name == "key" then Key
    else if name == "status" then Status
    else if name == "error_message" then ErrorMessage
    else if name == "width" then Width
    else if name == "height" then Height
    else if name == "original_width" then OriginalWidth
    else if name == "original_height" then OriginalHeight
    else if name == "exif" then Exif
    else Named(name)
  }

  /** Names and fields correspond one to one. */
  lemma FieldOfName(fd: Field)
    requires fd.Named? ==> fd.name !in Reserved
    ensures FieldOf(FieldName(fd)) == fd
  {
  }

  /** `(img, str_key, caption, meta)`, the arguments of the writer. */
  datatype Sample = Sample(image: Option<seq<byte>>, key: string, caption: Value, meta: map<Field, Value>)

  /** `(sample, error_message, successes, failed_to_download, failed_to_resize)`. */
  datatype Processed = Processed(
    sample: Option<Sample>,
    errorMessage: Option<string>,
    successes: nat,
    failedToDownload: nat,
    failedToResize: nat)

  const FailedToDownload: string := "failed_to_download"
  const FailedToResize: string := "failed_to_resize"
  const Success: string := "success"
  const HashMismatch: string := "hash mismatch"

  /** `sample_data[i]` for an optional index: `Some(Null)` without an index,
      `None` when the index is past the end (Python raises `IndexError`). */
  function Cell(data: seq<Value>, i: Option<nat>): (c: Option<Value>)
    ensures i.None? ==> c == Some(Null)
    ensures i.Some? ==> (c.Some? <==> i.value < |data|)
    ensures i.Some? && c.Some? ==> c.value == data[i.value]
  {
    match i
    case None => Some(Null)
    case Some(k) => if k < |data| then Some(data[k]) else None
  }

  /** Column `i` exists and is not the verification hash column. */
  predicate Kept(columns: seq<string>, hashIndex: Option<nat>, i: int)
  {
    0 <= i < |columns| && hashIndex != Some(i)
  }

  /** Every kept column has a cell in `data`, so the comprehension over the
      columns reads no cell past the row's end. The verification hash column
      is never read there, so a row may lack that cell alone. */
  predicate Covers(columns: seq<string>, hashIndex: Option<nat>, data: seq<Value>)
  {
    forall i | 0 <= i < |columns| :: Kept(columns, hashIndex, i) ==> i < |data|
  }

  /** A row that covers the columns covers every prefix of them. */
  lemma CoversPrefix(columns: seq<string>, hashIndex: Option<nat>, data: seq<Value>, n: nat)
    requires Covers(columns, hashIndex, data) && n <= |columns|
    ensures Covers(columns[..n], hashIndex, data)
  {
    forall i | 0 <= i < n && Kept(columns[..n], hashIndex, i) ensures i < |data| {
      assert Kept(columns, hashIndex, i);
    }
  }

  /** Column `i` is the last kept column of its name, so its value is the one
      the dictionary keeps. */
  predicate LastOfName(columns: seq<string>, hashIndex: Option<nat>, i: nat)
    requires i < |columns|
  {
    forall j :: i < j < |columns| && Kept(columns, hashIndex, j) ==> columns[j] != columns[i]
  }

  /** `{column_list[i]: sample_data[i] for i in range(len(column_list)) if
      i != hash_indice}`: every column but the verification hash column, a
      later column of the same name overriding an earlier one. */
  function ColumnMeta(columns: seq<string>, data: seq<Value>, hashIndex: Option<nat>): map<Field, Value>
    requires Covers(columns, hashIndex, data)
  {
    if columns == [] then map[]
    else
      var n := |columns| - 1;
      CoversPrefix(columns, hashIndex, data, n);
      var m := ColumnMeta(columns[..n], data, hashIndex);
      if hashIndex == Some(n) then m
      else
        assert Kept(columns, hashIndex, n);
        m[FieldOf(columns[n]) := data[n]]
  }

  /** The column part of the metadata has a key for each kept column and
      no other key. */
  lemma {:induction false} ColumnMetaKeys(columns: seq<string>, data: seq<Value>, hashIndex: Option<nat>)
    requires Covers(columns, hashIndex, data)
    ensures forall k :: k in ColumnMeta(columns, data, hashIndex) <==> exists i :: Kept(columns, hashIndex, i) && FieldOf(columns[i]) == k
  {
    if columns != [] {
      var n := |columns| - 1;
      var init := columns[..n];
      CoversPrefix(columns, hashIndex, data, n);
      ColumnMetaKeys(init, data, hashIndex);
      forall k ensures k in ColumnMeta(columns, data, hashIndex) <==> exists i :: Kept(columns, hashIndex, i) && FieldOf(columns[i]) == k {
        if k in ColumnMeta(init, data, hashIndex) {
          var i :| Kept(init, hashIndex, i) && FieldOf(init[i]) == k;
          assert Kept(columns, hashIndex, i) && FieldOf(columns[i]) == k;
        }
        if exists i :: Kept(columns, hashIndex, i) && FieldOf(columns[i]) == k {
          var i :| Kept(columns, hashIndex, i) && FieldOf(columns[i]) == k;
          if i < n {
            assert Kept(init, hashIndex, i) && FieldOf(init[i]) == k;
          }
        }
      }
    }
  }

  /** The value of a column in the metadata is that of the last kept column
      of that name. */
  lemma {:induction false} ColumnMetaValues(columns: seq<string>, data: seq<Value>, hashIndex: Option<nat>, i: nat)
    requires Covers(columns, hashIndex, data)
    requires Kept(columns, hashIndex, i) && LastOfName(columns, hashIndex, i)
    ensures FieldOf(columns[i]) in ColumnMeta(columns, data, hashIndex)
    ensures ColumnMeta(columns, data, hashIndex)[FieldOf(columns[i])] == data[i]
  {
    var n := |columns| - 1;
    var init := columns[..n];
    if i < n {
      assert Kept(init, hashIndex, i) && init[i] == columns[i];
      assert LastOfName(init, hashIndex, i) by {
        forall j | i < j < |init| && Kept(init, hashIndex, j) ensures init[j] != init[i] {
          assert Kept(columns, hashIndex, j);
        }
      }
      CoversPrefix(columns, hashIndex, data, n);
      ColumnMetaValues(init, data, hashIndex, i);
      if hashIndex != Some(n) {
        assert Kept(columns, hashIndex, n);
        assert FieldOf(columns[n]) != FieldOf(columns[i]) by {
          assert FieldName(FieldOf(columns[n])) != FieldName(FieldOf(columns[i]));
        }
      }
    }
  }

  /** The metadata before the outcome is known: the columns, then `key`, a
      `None` status, the download error, four `None` dimensions, then `exif`
      when EXIF is extracted and the computed-hash field when one is asked
      for, both `None`. */
  function InitialMeta(cfg: Config, data: seq<Value>, strKey: string, err: Option<string>): (m: map<Field, Value>)
    requires Covers(cfg.columns, cfg.hashIndex, data)
  {
    var m := ColumnMeta(cfg.columns, data, cfg.hashIndex)[Key := Str(strKey)][Status := Null]
      [ErrorMessage := OptStr(err)][Width := Null][Height := Null]
      [OriginalWidth := Null][OriginalHeight := Null];
    var m := if cfg.extractExif then m[Exif := Null] else m;
    if cfg.computeHash.Some? then m[FieldOf(cfg.computeHash.value) := Null] else m
  }

  /** How a row ends once its cells are in hand: the download failed, the
      stream failed verification, the resizer reported an error, the image
      was resized (with the EXIF text and the computed hash when asked for),
      or an exception left the `try` with the error text and success count
      it had then. */
  datatype Verdict =
    | DownloadFailed(error: string)
    | HashMismatched
    | ResizeFailed(message: string)
    | Succeeded(img: seq<byte>, width: int, height: int, originalWidth: int, originalHeight: int,
                exif: Option<string>, hash: Option<string>)
    | Raises(raisedError: Option<string>, raisedSuccesses: nat)

  /** The checks after the download, in the order the processor makes them:
      the verification hash (when the row has one), the bounding box cell,
      the resizer, then the EXIF text and the computed hash. */
  function Decide(cfg: Config, f: Foreign, data: seq<Value>, crop: Value, fetched: FetchOutcome): Verdict
  {
    if fetched.Failed? then DownloadFailed(fetched.error)
    else
      var stream := fetched.stream;
      var testHash := if cfg.verifyHashType.Some? then f.digest(cfg.verifyHashType.value, stream) else None;
      var expected := Cell(data, cfg.hashIndex);
      if cfg.hashIndex.Some? && (testHash.None? || expected.None?) then Raises(None, 0)
      else if cfg.hashIndex.Some? && Str(testHash.value) != expected.value then HashMismatched
      else
        var bbox := Cell(data, cfg.bboxIndex);
        if bbox.None? then Raises(None, 0)
        else
          match f.resize(stream, bbox.value, crop)
          case ResizeRaises => Raises(None, 0)
          case ResizeError(msg) => ResizeFailed(msg)
          case Resized(img, w, h, ow, oh) =>
            var hash := if cfg.computeHash.Some? then f.digest(cfg.computeHash.value, stream) else None;
            if cfg.computeHash.Some? && hash.None? then Raises(None, 1)
            else Succeeded(img, w, h, ow, oh, if cfg.extractExif then f.exif(stream) else None, hash)
  }

  /** The error text a verdict returns. */
  function ErrorOf(v: Verdict): (e: Option<string>)
    ensures v.Succeeded? ==> e.None?
  {
    match v
    case DownloadFailed(err) => Some(err)
    case HashMismatched => Some(HashMismatch)
    case ResizeFailed(msg) => Some(msg)
    case Succeeded(_, _, _, _, _, _, _) => None
    case Raises(err, _) => err
  }

  /** The status a verdict records. */
  function StatusOf(v: Verdict): string
  {
    if v.Succeeded? then Success else if v.ResizeFailed? then FailedToResize else FailedToDownload
  }

  /** The counters `(successes, failed_to_download, failed_to_resize)` as a
      verdict leaves them. */
  function CountersOf(v: Verdict): (nat, nat, nat)
  {
    match v
    case DownloadFailed(_) => (0, 1, 0)
    case HashMismatched => (0, 1, 0)
    case ResizeFailed(_) => (0, 0, 1)
    case Succeeded(_, _, _, _, _, _, _) => (1, 0, 0)
    case Raises(_, s) => (s, 0, 0)
  }

  /** The metadata a verdict other than an exception leaves: the rejections
      set the status and the error text; a success sets the EXIF text, the
      computed hash, the status and the four dimensions. */
  function FinalMeta(cfg: Config, meta: map<Field, Value>, v: Verdict): map<Field, Value>
    requires !v.Raises?
  {
    if v.Succeeded? then
      var m := if cfg.extractExif then meta[Exif := OptStr(v.exif)] else meta;
      var m := if cfg.computeHash.Some? && v.hash.Some? then m[FieldOf(cfg.computeHash.value) := Str(v.hash.value)] else m;
      m[Status := Str(Success)][Width := Int(v.width)][Height := Int(v.height)]
        [OriginalWidth := Int(v.originalWidth)][OriginalHeight := Int(v.originalHeight)]
    else
      meta[Status := Str(StatusOf(v))][ErrorMessage := Str(ErrorOf(v).value)]
  }

  /** The returned tuple for a verdict: the sample (or none when an exception
      was raised, including a missing caption cell), the error text and the
      counters. */
  function Build(cfg: Config, key: nat, data: seq<Value>, err: Option<string>, v: Verdict): (p: Processed)
    requires Covers(cfg.columns, cfg.hashIndex, data)
  {
    var (s, d, r) := CountersOf(v);
    if v.Raises? then Processed(None, v.raisedError, s, d, r)
    else
      var caption := Cell(data, cfg.captionIndex);
      if caption.None? then Processed(None, ErrorOf(v), s, d, r)
      else
        var strKey := ComputeKey(key, cfg.shardId, cfg.oomSamplePerShard, cfg.oomShardCount);
        var meta := FinalMeta(cfg, InitialMeta(cfg, data, strKey, err), v);
        var image := if v.Succeeded? then Some(v.img) else None;
        Processed(Some(Sample(image, strKey, caption.value, meta)), ErrorOf(v), s, d, r)
  }

  /** The processor after the fetch, for the outcome `fetched` of the retry
      loop, with every exception inside the `try` turned into a result
      without a sample. */
  function Process(cfg: Config, f: Foreign, key: nat, rows: seq<seq<Value>>, fetched: FetchOutcome): Processed
  {
    var err := if fetched.Failed? then Some(fetched.error) else None;
    if key >= |rows| || !Covers(cfg.columns, cfg.hashIndex, rows[key]) || Cell(rows[key], cfg.cropIndex).None? then
      Processed(None, err, 0, 0, 0)
    else
      var data := rows[key];
      Build(cfg, key, data, err, Decide(cfg, f, data, Cell(data, cfg.cropIndex).value, fetched))
  }

  /** `download_and_process_image_with_retry(row, ...)` for the row `key`,
      whose `retries + 1` permitted fetches give `attempts`: the retry loop,
      then the processor, step by step, releasing the permit exactly once on
      every path. */
  method DownloadAndProcess(cfg: Config, f: Foreign, key: nat, rows: seq<seq<Value>>,
                            attempts: seq<FetchOutcome>, retries: nat, semaphore: Semaphore)
    returns (out: Processed)
    requires retries < |attempts|
    modifies semaphore
    ensures semaphore.permits == old(semaphore.permits) + 1
    ensures out == Process(cfg, f, key, rows, RetryResult(attempts[..retries + 1]))
  {
    var fetched, _, _ := DownloadImageWithRetry(attempts, retries);
    out := ProcessFetched(cfg, f, key, rows, fetched, semaphore);
  }

  /** The processor once the retry loop gave `fetched`. */
  method ProcessFetched(cfg: Config, f: Foreign, key: nat, rows: seq<seq<Value>>, fetched: FetchOutcome,
                        semaphore: Semaphore)
    returns (out: Processed)
    modifies semaphore
    ensures semaphore.permits == old(semaphore.permits) + 1
    ensures out == Process(cfg, f, key, rows, fetched)
  {
    var errorMessage := if fetched.Failed? then Some(fetched.error) else None;
    var successes, failedToDownload, failedToResize := 0, 0, 0;
    var sample: Option<Sample> := None;
    label body: {
      if key >= |rows| || !Covers(cfg.columns, cfg.hashIndex, rows[key]) {
        break body;
      }
      var data := rows[key];
      var strKey := ComputeKey(key, cfg.shardId, cfg.oomSamplePerShard, cfg.oomShardCount);
      var meta := InitialMeta(cfg, data, strKey, errorMessage);
      var crop := Cell(data, cfg.cropIndex);
      if crop.None? {
        break body;
      }
      ghost var v := Decide(cfg, f, data, crop.value, fetched);
      assert Process(cfg, f, key, rows, fetched) == Build(cfg, key, data, errorMessage, v);
      if fetched.Failed? {
        failedToDownload := failedToDownload + 1;
        var caption := Cell(data, cfg.captionIndex);
        if caption.None? {
          break body;
        }
        meta := meta[Status := Str(FailedToDownload)][ErrorMessage := Str(fetched.error)];
        sample := Some(Sample(None, strKey, caption.value, meta));
        semaphore.Release();
        return Processed(sample, errorMessage, successes, failedToDownload, failedToResize);
      }
      var stream := fetched.stream;
      if cfg.hashIndex.Some? {
        if cfg.verifyHashType.None? {
          break body;
        }
        var testHash := f.digest(cfg.verifyHashType.value, stream);
        var expected := Cell(data, cfg.hashIndex);
        if testHash.None? || expected.None? {
          assert v == Raises(None, 0);
          break body;
        }
        if Str(testHash.value) != expected.value {
          assert v == HashMismatched;
          failedToDownload := failedToDownload + 1;
          errorMessage := Some(HashMismatch);
          var caption := Cell(data, cfg.captionIndex);
          if caption.None? {
            break body;
          }
          meta := meta[Status := Str(FailedToDownload)][ErrorMessage := Str(HashMismatch)];
          sample := Some(Sample(None, strKey, caption.value, meta));
          semaphore.Release();
          return Processed(sample, errorMessage, successes, failedToDownload, failedToResize);
        }
      }
      var bbox := Cell(data, cfg.bboxIndex);
      if bbox.None? {
        break body;
      }
      var resized := f.resize(stream, bbox.value, crop.value);
      if resized.ResizeRaises? {
        break body;
      }
      if resized.ResizeError? {
        assert v == ResizeFailed(resized.message);
        errorMessage := Some(resized.message);
        failedToResize := failedToResize + 1;
        var caption := Cell(data, cfg.captionIndex);
        if caption.None? {
          break body;
        }
        meta := meta[Status := Str(FailedToResize)][ErrorMessage := Str(resized.message)];
        sample := Some(Sample(None, strKey, caption.value, meta));
        semaphore.Release();
        return Processed(sample, errorMessage, successes, failedToDownload, failedToResize);
      }
      errorMessage := None;
      successes := successes + 1;
      var hashed;
      meta, hashed := RecordSuccess(cfg, f, stream, meta, resized);
      if !hashed {
        break body;
      }
      var caption := Cell(data, cfg.captionIndex);
      if caption.None? {
        break body;
      }
      sample := Some(Sample(Some(resized.img), strKey, caption.value, meta));
    }
    semaphore.Release();
    return Processed(sample, errorMessage, successes, failedToDownload, failedToResize);
  }

  /** The end of a successful resize: the EXIF text, the computed hash (its
      function raising leaves `hashed` false), then the status and the four
      dimensions. */
  method RecordSuccess(cfg: Config, f: Foreign, stream: seq<byte>, meta0: map<Field, Value>, resized: ResizeOutcome)
    returns (meta: map<Field, Value>, hashed: bool)
    requires resized.Resized?
    ensures var hash := if cfg.computeHash.Some? then f.digest(cfg.computeHash.value, stream) else None;
      && (hashed <==> cfg.computeHash.None? || hash.Some?)
      && (hashed ==> meta == FinalMeta(cfg, meta0, Succeeded(resized.img, resized.width, resized.height,
             resized.originalWidth, resized.originalHeight, if cfg.extractExif then f.exif(stream) else None, hash)))
  {
    meta := meta0;
    if cfg.extractExif {
      meta := meta[Exif := OptStr(f.exif(stream))];
    }
    if cfg.computeHash.Some? {
      var hash := f.digest(cfg.computeHash.value, stream);
      if hash.None? {
        return meta, false;
      }
      meta := meta[FieldOf(cfg.computeHash.value) := Str(hash.value)];
    }
    meta := meta[Status := Str(Success)][Width := Int(resized.width)][Height := Int(resized.height)]
      [OriginalWidth := Int(resized.originalWidth)][OriginalHeight := Int(resized.originalHeight)];
    hashed := true;
  }

  /** The row exists, has a cell for every kept column, and the bounding-box,
      caption and crop indexes point at cells of the row, as the shard loop
      arranges: then no lookup before the hash check raises. */
  predicate InRange(cfg: Config, key: nat, rows: seq<seq<Value>>)
  {
    && key < |rows| && Covers(cfg.columns, cfg.hashIndex, rows[key])
    && (cfg.bboxIndex.Some? ==> cfg.bboxIndex.value < |rows[key]|)
    && (cfg.captionIndex.Some? ==> cfg.captionIndex.value < |rows[key]|)
    && (cfg.cropIndex.Some? ==> cfg.cropIndex.value < |rows[key]|)
  }

  /** The stream fails verification: its digest differs from the row's
      verification hash. */
  predicate HashMismatches(cfg: Config, f: Foreign, data: seq<Value>, stream: seq<byte>)
  {
    && cfg.hashIndex.Some? && cfg.verifyHashType.Some?
    && f.digest(cfg.verifyHashType.value, stream).Some?
    && cfg.hashIndex.value < |data|
    && Str(f.digest(cfg.verifyHashType.value, stream).value) != data[cfg.hashIndex.value]
  }

  /** The stream passes verification, or no verification is asked for. */
  predicate HashAccepted(cfg: Config, f: Foreign, data: seq<Value>, stream: seq<byte>)
  {
    || cfg.hashIndex.None?
    || (&& cfg.verifyHashType.Some?
        && f.digest(cfg.verifyHashType.value, stream).Some?
        && cfg.hashIndex.value < |data|
        && Str(f.digest(cfg.verifyHashType.value, stream).value) == data[cfg.hashIndex.value])
  }

  /** The sample of a verdict other than an exception, when the caption cell
      exists, carries the verdict's status and error text, and no image
      unless the verdict is a success. */
  lemma BuildStatus(cfg: Config, key: nat, data: seq<Value>, err: Option<string>, v: Verdict)
    requires Covers(cfg.columns, cfg.hashIndex, data) && !v.Raises? && Cell(data, cfg.captionIndex).Some?
    ensures var p := Build(cfg, key, data, err, v);
      && p.sample.Some?
      && p.sample.value.meta[Status] == Str(StatusOf(v))
      && (!v.Succeeded? ==> p.sample.value.meta[ErrorMessage] == Str(ErrorOf(v).value))
      && (p.sample.value.image.Some? <==> v.Succeeded?)
      && p.errorMessage == ErrorOf(v)
      && (p.successes, p.failedToDownload, p.failedToResize) == CountersOf(v)
  {
  }

  /** The comprehension skips the verification hash column before reading
      its cell, so a row that lacks only that cell still gives its
      `failed_to_download` sample. */
  lemma MissingHashCellExample(f: Foreign)
    ensures var cfg := Config(0, 1, 1, ["url", "md5"], None, None, Some(0), Some(1), false, None, Some("md5"));
      var p := Process(cfg, f, 0, [[Str("u")]], Failed("e"));
      && p.sample.Some? && p.sample.value.meta[Status] == Str(FailedToDownload)
      && p.errorMessage == Some("e")
      && (p.successes, p.failedToDownload, p.failedToResize) == (0, 1, 0)
  {
    var cfg := Config(0, 1, 1, ["url", "md5"], None, None, Some(0), Some(1), false, None, Some("md5"));
    DownloadFailure(cfg, f, 0, [[Str("u")]], Failed("e"));
  }

  /** A download error gives `failed_to_download` with the error text copied
      verbatim, and no image. */
  lemma DownloadFailure(cfg: Config, f: Foreign, key: nat, rows: seq<seq<Value>>, fetched: FetchOutcome)
    requires InRange(cfg, key, rows) && fetched.Failed?
    ensures var p := Process(cfg, f, key, rows, fetched);
      && p.sample.Some? && p.sample.value.image.None?
      && p.sample.value.meta[Status] == Str(FailedToDownload)
      && p.sample.value.meta[ErrorMessage] == Str(fetched.error)
      && p.errorMessage == Some(fetched.error)
      && (p.successes, p.failedToDownload, p.failedToResize) == (0, 1, 0)
  {
    var data := rows[key];
    BuildStatus(cfg, key, data, Some(fetched.error), DownloadFailed(fetched.error));
  }

  /** A stream whose digest differs from the row's verification hash gives
      `failed_to_download` with `"hash mismatch"`, and the resizer is never
      called: any other resizer gives the same result. */
  lemma HashMismatchOutcome(cfg: Config, f: Foreign, key: nat, rows: seq<seq<Value>>, stream: seq<byte>,
                            resize: (seq<byte>, Value, Value) -> ResizeOutcome)
    requires InRange(cfg, key, rows) && HashMismatches(cfg, f, rows[key], stream)
    ensures var p := Process(cfg, f, key, rows, Fetched(stream));
      && p.sample.Some? && p.sample.value.image.None?
      && p.sample.value.meta[Status] == Str(FailedToDownload)
      && p.sample.value.meta[ErrorMessage] == Str(HashMismatch)
      && p.errorMessage == Some(HashMismatch)
      && (p.successes, p.failedToDownload, p.failedToResize) == (0, 1, 0)
    ensures Process(cfg, f.(resize := resize), key, rows, Fetched(stream)) == Process(cfg, f, key, rows, Fetched(stream))
  {
    var data := rows[key];
    var crop := Cell(data, cfg.cropIndex).value;
    assert Decide(cfg, f, data, crop, Fetched(stream)) == HashMismatched;
    assert Decide(cfg, f.(resize := resize), data, crop, Fetched(stream)) == HashMismatched;
    BuildStatus(cfg, key, data, None, HashMismatched);
  }

  /** A resizer error, after the stream passed verification, gives
      `failed_to_resize` with the resizer's error text. */
  lemma ResizeFailure(cfg: Config, f: Foreign, key: nat, rows: seq<seq<Value>>, stream: seq<byte>, msg: string)
    requires InRange(cfg, key, rows) && HashAccepted(cfg, f, rows[key], stream)
    requires f.resize(stream, Cell(rows[key], cfg.bboxIndex).value, Cell(rows[key], cfg.cropIndex).value) == ResizeError(msg)
    ensures var p := Process(cfg, f, key, rows, Fetched(stream));
      && p.sample.Some? && p.sample.value.image.None?
      && p.sample.value.meta[Status] == Str(FailedToResize)
      && p.sample.value.meta[ErrorMessage] == Str(msg)
      && p.errorMessage == Some(msg)
      && (p.successes, p.failedToDownload, p.failedToResize) == (0, 0, 1)
  {
    var data := rows[key];
    var crop := Cell(data, cfg.cropIndex).value;
    assert Decide(cfg, f, data, crop, Fetched(stream)) == ResizeFailed(msg);
    BuildStatus(cfg, key, data, None, ResizeFailed(msg));
  }

  /** The verdict for a stream that passed verification and that the resizer
      resized. */
  lemma DecideResized(cfg: Config, f: Foreign, data: seq<Value>, crop: Value, stream: seq<byte>,
                      img: seq<byte>, w: int, h: int, ow: int, oh: int)
    requires HashAccepted(cfg, f, data, stream)
    requires cfg.bboxIndex.Some? ==> cfg.bboxIndex.value < |data|
    requires f.resize(stream, Cell(data, cfg.bboxIndex).value, crop) == Resized(img, w, h, ow, oh)
    requires cfg.computeHash.Some? ==> f.digest(cfg.computeHash.value, stream).Some?
    ensures var v := Decide(cfg, f, data, crop, Fetched(stream));
      v.Succeeded? && v.img == img && v.width == w && v.height == h && v.originalWidth == ow && v.originalHeight == oh
  {
  }

  /** A resized image, after the stream passed verification and with the
      computed hash available when one is asked for, gives `success`, the
      image, and the dimensions the resizer reported. */
  lemma ResizeSuccess(cfg: Config, f: Foreign, key: nat, rows: seq<seq<Value>>, stream: seq<byte>,
                      img: seq<byte>, w: int, h: int, ow: int, oh: int)
    requires InRange(cfg, key, rows) && HashAccepted(cfg, f, rows[key], stream)
    requires f.resize(stream, Cell(rows[key], cfg.bboxIndex).value, Cell(rows[key], cfg.cropIndex).value) == Resized(img, w, h, ow, oh)
    requires cfg.computeHash.Some? ==> f.digest(cfg.computeHash.value, stream).Some?
    ensures var p := Process(cfg, f, key, rows, Fetched(stream));
      && p.sample.Some? && p.sample.value.image == Some(img)
      && p.sample.value.meta[Status] == Str(Success)
      && p.sample.value.meta[Width] == Int(w) && p.sample.value.meta[Height] == Int(h)
      && p.sample.value.meta[OriginalWidth] == Int(ow) && p.sample.value.meta[OriginalHeight] == Int(oh)
      && p.errorMessage.None?
      && (p.successes, p.failedToDownload, p.failedToResize) == (1, 0, 0)
  {
    var data := rows[key];
    var crop := Cell(data, cfg.cropIndex).value;
    DecideResized(cfg, f, data, crop, stream, img, w, h, ow, oh);
    BuildStatus(cfg, key, data, None, Decide(cfg, f, data, crop, Fetched(stream)));
  }

  /** Each call adds at most one to the three counters together, exactly one
      when it returns a sample, and the success counter exactly when the
      sample has an image. */
  lemma Counters(cfg: Config, f: Foreign, key: nat, rows: seq<seq<Value>>, fetched: FetchOutcome)
    ensures var p := Process(cfg, f, key, rows, fetched);
      && p.successes + p.failedToDownload + p.failedToResize <= 1
      && (p.sample.Some? ==> p.successes + p.failedToDownload + p.failedToResize == 1
                             && (p.successes == 1 <==> p.sample.value.image.Some?))
  {
  }

  /** With the lookups before the hash check in range, the only way to get
      no sample is an exception after a successful download (a missing
      verification hash cell or function, a hash function or the resizer
      raising), and then the error text is always `None`. */
  lemma NoSampleNoError(cfg: Config, f: Foreign, key: nat, rows: seq<seq<Value>>, fetched: FetchOutcome)
    requires InRange(cfg, key, rows)
    ensures var p := Process(cfg, f, key, rows, fetched);
      p.sample.None? ==> p.errorMessage.None? && fetched.Fetched?
  {
  }

  /** The keys of the metadata of every returned sample. */
  ghost predicate MetaKey(cfg: Config, k: Field)
  {
    || (exists i :: Kept(cfg.columns, cfg.hashIndex, i) && FieldOf(cfg.columns[i]) == k)
    || k in {Key, Status, ErrorMessage, Width, Height, OriginalWidth, OriginalHeight}
    || (cfg.extractExif && k == Exif)
    || (cfg.computeHash.Some? && k == FieldOf(cfg.computeHash.value))
  }

  lemma InitialMetaKeys(cfg: Config, data: seq<Value>, strKey: string, err: Option<string>)
    requires Covers(cfg.columns, cfg.hashIndex, data)
    ensures forall k :: k in InitialMeta(cfg, data, strKey, err) <==> MetaKey(cfg, k)
  {
    ColumnMetaKeys(cfg.columns, data, cfg.hashIndex);
  }

  /** The outcome adds no key to the metadata and removes none. */
  lemma FinalMetaKeys(cfg: Config, meta: map<Field, Value>, v: Verdict)
    requires !v.Raises?
    requires Status in meta && ErrorMessage in meta && Width in meta && Height in meta
    requires OriginalWidth in meta && OriginalHeight in meta
    requires cfg.extractExif ==> Exif in meta
    requires cfg.computeHash.Some? ==> FieldOf(cfg.computeHash.value) in meta
    ensures FinalMeta(cfg, meta, v).Keys == meta.Keys
  {
  }

  /** The metadata of a returned sample holds every kept column, the seven
      fixed fields, `exif` exactly when EXIF is extracted and the
      computed-hash field exactly when one is asked for, and nothing else. */
  lemma MetaKeys(cfg: Config, f: Foreign, key: nat, rows: seq<seq<Value>>, fetched: FetchOutcome)
    ensures var p := Process(cfg, f, key, rows, fetched);
      p.sample.Some? ==> forall k :: k in p.sample.value.meta <==> MetaKey(cfg, k)
  {
    var p := Process(cfg, f, key, rows, fetched);
    if p.sample.Some? {
      var data := rows[key];
      var err := if fetched.Failed? then Some(fetched.error) else None;
      var strKey := ComputeKey(key, cfg.shardId, cfg.oomSamplePerShard, cfg.oomShardCount);
      var v := Decide(cfg, f, data, Cell(data, cfg.cropIndex).value, fetched);
      InitialMetaKeys(cfg, data, strKey, err);
      FinalMetaKeys(cfg, InitialMeta(cfg, data, strKey, err), v);
    }
  }

  /** A returned sample is built from the row's verdict, its metadata from
      the initial metadata. */
  lemma ProcessSample(cfg: Config, f: Foreign, key: nat, rows: seq<seq<Value>>, fetched: FetchOutcome)
    ensures var p := Process(cfg, f, key, rows, fetched);
      p.sample.Some? ==>
        && key < |rows| && Covers(cfg.columns, cfg.hashIndex, rows[key]) && Cell(rows[key], cfg.cropIndex).Some?
        && var err := if fetched.Failed? then Some(fetched.error) else None;
           var v := Decide(cfg, f, rows[key], Cell(rows[key], cfg.cropIndex).value, fetched);
           var strKey := ComputeKey(key, cfg.shardId, cfg.oomSamplePerShard, cfg.oomShardCount);
           && !v.Raises?
           && Cell(rows[key], cfg.captionIndex) == Some(p.sample.value.caption)
           && p.sample.value.key == strKey
           && (p.sample.value.image.Some? <==> v.Succeeded?)
           && p.sample.value.meta == FinalMeta(cfg, InitialMeta(cfg, rows[key], strKey, err), v)
  {
  }

  /** A returned sample carries the key computed from its row index, as its
      key and, unless the computed-hash field is named `key` and overwrites
      it, under `key` in its metadata; and the row's caption cell. */
  lemma SampleKey(cfg: Config, f: Foreign, key: nat, rows: seq<seq<Value>>, fetched: FetchOutcome)
    ensures var p := Process(cfg, f, key, rows, fetched);
      p.sample.Some? ==>
        && key < |rows|
        && p.sample.value.key == ComputeKey(key, cfg.shardId, cfg.oomSamplePerShard, cfg.oomShardCount)
        && (cfg.computeHash != Some("key") ==> p.sample.value.meta[Key] == Str(p.sample.value.key))
        && Cell(rows[key], cfg.captionIndex) == Some(p.sample.value.caption)
  {
    ProcessSample(cfg, f, key, rows, fetched);
    if cfg.computeHash.Some? && cfg.computeHash.value != "key" {
      assert FieldOf(cfg.computeHash.value) != Key by {
        assert FieldName(FieldOf(cfg.computeHash.value)) != FieldName(Key);
      }
    }
  }

  /** A kept column whose name is not one of the fixed fields nor the
      computed-hash field keeps the row's value, that of the last kept
      column of the name. */
  lemma ColumnValue(cfg: Config, f: Foreign, key: nat, rows: seq<seq<Value>>, fetched: FetchOutcome, i: nat)
    requires Kept(cfg.columns, cfg.hashIndex, i) && LastOfName(cfg.columns, cfg.hashIndex, i)
    requires cfg.columns[i] !in Reserved
    requires cfg.computeHash.Some? ==> cfg.columns[i] != cfg.computeHash.value
    ensures var p := Process(cfg, f, key, rows, fetched);
      p.sample.Some? ==>
        && key < |rows| && Named(cfg.columns[i]) in p.sample.value.meta
        && p.sample.value.meta[Named(cfg.columns[i])] == rows[key][i]
  {
    var p := Process(cfg, f, key, rows, fetched);
    ProcessSample(cfg, f, key, rows, fetched);
    if p.sample.Some? {
      var data := rows[key];
      ColumnMetaValues(cfg.columns, data, cfg.hashIndex, i);
      if cfg.computeHash.Some? {
        assert FieldOf(cfg.computeHash.value) != Named(cfg.columns[i]) by {
          assert FieldName(FieldOf(cfg.computeHash.value)) != FieldName(Named(cfg.columns[i]));
        }
      }
    }
  }

  /** Every rejection leaves the four dimensions `None`. */
  lemma RejectionDimensions(cfg: Config, f: Foreign, key: nat, rows: seq<seq<Value>>, fetched: FetchOutcome)
    ensures var p := Process(cfg, f, key, rows, fetched);
      p.sample.Some? && p.sample.value.image.None? ==>
        && p.sample.value.meta[Width] == Null && p.sample.value.meta[Height] == Null
        && p.sample.value.meta[OriginalWidth] == Null && p.sample.value.meta[OriginalHeight] == Null
  {
    ProcessSample(cfg, f, key, rows, fetched);
  }

  /** A success records the EXIF text of the downloaded stream when EXIF is
      extracted, and the computed digest of the stream under the field of
      the hash's own name when one is asked for and that name is not a
      fixed field. */
  lemma SuccessExtras(cfg: Config, f: Foreign, key: nat, rows: seq<seq<Value>>, stream: seq<byte>)
    requires cfg.computeHash.Some? ==> cfg.computeHash.value !in Reserved
    ensures var p := Process(cfg, f, key, rows, Fetched(stream));
      p.sample.Some? && p.sample.value.image.Some? ==>
        && (cfg.extractExif ==> p.sample.value.meta[Exif] == OptStr(f.exif(stream)))
        && (cfg.computeHash.Some? ==>
              && f.digest(cfg.computeHash.value, stream).Some?
              && p.sample.value.meta[Named(cfg.computeHash.value)] == Str(f.digest(cfg.computeHash.value, stream).value))
  {
    ProcessSample(cfg, f, key, rows, Fetched(stream));
  }
}
