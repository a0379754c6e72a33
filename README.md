# img2dataset downloader and single-process distributor, in Dafny

img2dataset turns tables of image URLs into image datasets. The input is cut
into shards, and each shard is handed to a `Downloader`. For every row of its
shard, the downloader fetches the URL, retrying rate-limited requests with an
exponential back-off. It honours the `X-Robots-Tag` usage policy of the
response headers. It checks the image against the row's verification hash
when there is one, resizes it, and hands the image, its synthetic key, its
caption and a metadata dictionary to a sample writer. Per-shard statistics go
to a statistics file. The distributor runs the downloader over every shard
and retries the shards that failed, up to a fixed number of times.

This project models that core:

- `common.dfy` (`Common`): optional values, bytes and the dynamically typed
  cells of rows and metadata.
- `text.dfy` (`Text`): Python's `strip`, `lower`, `split`, `split(sep, 1)` and
  substring `in`, as the downloader uses them.
- `keys.dfy` (`Keys`): `compute_key`, and `math.ceil(math.log10(n))` in exact
  arithmetic.
- `fetch.dfy` (`Fetch`): `is_disallowed`, the user-agent string, and the
  verdict `download_image` reaches once the HTTP exchange is over.
- `retry.dfy` (`Retry`): `is_rate_limit_error` and the attempt loop of
  `download_image_with_retry`, as a method proved against reference
  functions.
- `sample.dfy` (`Sample`): `download_and_process_image_with_retry`. It is a
  reference function `Process`, and a step-by-step method `ProcessFetched`
  proved equal to it. The method releases the permit of a `Semaphore` class
  exactly once.
- `shard.dfy` (`Shard`): `Downloader.__init__`, the setup of `download_shard`
  and its result loop (a method over the semaphore, proved against a trace of
  effects), and `Downloader.__call__`.
- `distributor.dfy` (`Distributor`): `run` and `retrier` of the
  single-process distributor, and the pyspark distributor's `batcher`.

The network, the resizer, the hash functions and the EXIF reader are
parameters:

- `Network` gives the response to the n-th request for a row's URL.
- `Foreign` holds the resizer, `hashlib` digests and the EXIF reader.

The shard file is an input value. Opening the writer, writing samples,
closing the writer, writing the statistics and removing the shard file are
recorded as a sequence of `Effect`s.

## Model

| member | source | states |
|---|---|---|
| Text.TrimLeft | img2dataset/downloader.py:25 | The result is a suffix of the input. Everything dropped is white space, and the result does not start with white space. |
| Text.TrimRight | img2dataset/downloader.py:25 | The result is a prefix of the input. Everything dropped is white space, and the result does not end with white space. |
| Text.Strip | img2dataset/downloader.py:25 | `strip()` returns the infix that remains once only white space is removed at both ends. The result has no white space at either end. |
| Text.StripTrimmed | img2dataset/downloader.py:291 | A string without white space at either end is its own `strip()`. |
| Text.Lower | img2dataset/downloader.py:25-26 | `lower()` keeps the length and lowers code point by code point. |
| Text.LowerIdempotent | img2dataset/downloader.py:291 | Lowering twice is lowering once, and lowering neither creates nor removes white space. |
| Text.LowerOfLower | img2dataset/downloader.py:25 | Text without capitals is its own `lower()`. |
| Text.SplitOn | img2dataset/downloader.py:25 | `split(",")` gives at least one piece. No piece holds the separator, and joining the pieces with it restores the input. |
| Text.SplitFirst | img2dataset/downloader.py:24 | `split(":", 1)` gives two parts exactly when a colon is present. The head has no colon, and head, colon and tail rebuild the input. |
| Text.SplitFirstAt | img2dataset/downloader.py:24 | Splitting `h + ":" + t` with a colon-free `h` gives back `h` and `t`. |
| Text.Contains | img2dataset/downloader.py:38 | `pat in s` holds exactly when `pat` occurs at some index of `s`. |
| Keys.ToDecimal | img2dataset/downloader.py:248-250 | `%d` of a natural number is a digit string with no leading zero, unless the number is zero. |
| Keys.ParseToDecimal | img2dataset/downloader.py:248-250 | Reading back the decimal text of `n` gives `n`. |
| Keys.DecimalLength | img2dataset/downloader.py:247-250 | `n` fits in `w` digits exactly when `n < 10^w`. |
| Keys.ZeroPad | img2dataset/downloader.py:248 | The `0{width}` padding: the input behind exactly enough zeros to reach the width, and never truncated. |
| Keys.ParseLeadingZeros | img2dataset/downloader.py:248 | Leading zeros do not change a decimal string's value. |
| Keys.KeyValue | img2dataset/downloader.py:245-251 | The key is all digits, its value is `10^P * shard_id + key`, and it is at least `P + S` characters long. |
| Keys.KeyWidth | img2dataset/downloader.py:245-251 | With `key < 10^P` and `shard_id < 10^S` the key is exactly `P + S` characters long (1 when `P + S` is 0). |
| Keys.SplitComputeKey | img2dataset/downloader.py:245-251 | With `key < 10^P`, dividing the key's value by `10^P` gives back the shard id and the row index. |
| Keys.KeyInjective | img2dataset/downloader.py:245-251 | Distinct (row index, shard id) pairs with row indexes below `10^P` give distinct keys. |
| Keys.KeyInjectiveInShard | img2dataset/downloader.py:245-251 | Within one shard, distinct row indexes give distinct keys, whatever their size. |
| Keys.OrderOfMagnitude | img2dataset/downloader.py:379 | `ceil(log10(n))`: none where `log10` raises (`n <= 0`), otherwise the least `P` with `n <= 10^P`. |
| Fetch.RobotsTagValues | img2dataset/downloader.py:22 | `get_all("X-Robots-Tag", [])` gives exactly the values of the headers with that name in any case, and no more values than headers. |
| Fetch.Scope | img2dataset/downloader.py:24-26 | The agent token is the lowered text before the first colon, and is absent exactly when there is no colon. |
| Fetch.Directives | img2dataset/downloader.py:24-25 | The directives are the pieces of the text after the first colon (or of the whole value) split on commas, each stripped and lowered. |
| Fetch.ScanValues | img2dataset/downloader.py:22-34 | The loop answers true exactly when some value blocks. |
| Fetch.IsDisallowedMeaning | img2dataset/downloader.py:20-34 | `is_disallowed` holds exactly when some `X-Robots-Tag` header has a decoded value, unscoped or scoped to the caller's token, naming a disallowed directive. It is false with no such header, with no disallowed directive, or when every value is scoped to other agents. |
| Fetch.DecodedOnly | img2dataset/downloader.py:31-33 | Exactly the decoded values are kept. |
| Fetch.UndecodableSkipped | img2dataset/downloader.py:23-33 | A value that raises in the `try` never changes the answer: dropping such values gives the same verdict. |
| Fetch.UserAgent | img2dataset/downloader.py:45-47 | The browser string is a prefix of the user agent. It is the whole user agent exactly when the token is absent or empty; otherwise the user agent contains `; token;`. |
| Fetch.DownloadImage | img2dataset/downloader.py:41-66 | A request error gives its text. A response fails exactly when the disallowed set is given, non-empty and the headers disallow use, and then with the fixed policy message. Otherwise the body is the stream. |
| Fetch.NoindexExample | img2dataset/downloader.py:20-34 | `X-Robots-Tag: noindex` blocks when `noindex` is disallowed, and not when nothing is. |
| Fetch.OtherAgentExample | img2dataset/downloader.py:26-27 | `X-Robots-Tag: otherbot: noindex` does not block the agent `mybot`. |
| Retry.IsRateLimitError | img2dataset/downloader.py:37-38 | True exactly when `HTTP Error 429` occurs in the error text. |
| Retry.RateLimitedIndicesMeaning | img2dataset/downloader.py:73 | The listed attempts are exactly the rate-limited ones, strictly increasing. |
| Retry.AttemptsMade | img2dataset/downloader.py:71-80 | Between 1 and `retries + 1` attempts are made. All but the last made one failed, and the last made one yields a stream unless all were used. |
| Retry.AttemptsMadeUnique | img2dataset/downloader.py:71-80 | Any count with those properties is `AttemptsMade`: the stopping point is unique. |
| Retry.RetryResult | img2dataset/downloader.py:71-80 | A stream is returned exactly when some permitted attempt yields one, and it is the first attempt's stream that does. Otherwise the result is the last attempt's error. |
| Retry.SleepsForMeaning | img2dataset/downloader.py:74-76 | The k-th sleep follows the k-th listed attempt and lasts `2^(k+1)` timeouts. |
| Retry.BackoffsMeaning | img2dataset/downloader.py:70-77 | One sleep after each rate-limited attempt made and after no other, in attempt order, of 2, 4, 8, ... timeouts. |
| Retry.DownloadImageWithRetry | img2dataset/downloader.py:69-80 | The loop makes `AttemptsMade` attempts, returns `RetryResult` and sleeps `Backoffs`. |
| Retry.SameAsSpec | img2dataset/downloader.py:69-80 | A loop exit after `made` attempts agrees with the reference functions. |
| Retry.ThreeLimitedIndices | img2dataset/downloader.py:73 | Three rate-limited attempts, then one that is not, list attempts 0, 1 and 2. |
| Retry.BackoffScenario | img2dataset/downloader.py:69-80 | Three 429s, then a success, with three retries: four attempts, the fourth's stream, and sleeps of 2, 4 and 8 timeouts. |
| Sample.Semaphore.constructor | img2dataset/downloader.py:361 | The semaphore starts with the given number of permits. |
| Sample.Semaphore.Acquire | img2dataset/downloader.py:365 | Acquiring takes one free permit. |
| Sample.Semaphore.Release | img2dataset/downloader.py:148 | Releasing returns one permit. |
| Sample.FieldOf | img2dataset/downloader.py:114-133 | A dictionary key maps to a field with that name, which is a fixed field exactly when the name is reserved. |
| Sample.FieldOfName | img2dataset/downloader.py:114-133 | Field and name correspond one to one. |
| Sample.Cell | img2dataset/downloader.py:135 | An absent index gives `None`; an index past the row raises (none); otherwise the cell. |
| Sample.ColumnMetaKeys | img2dataset/downloader.py:116-120 | For a row with a cell for each kept column, the column part of the metadata has a key for each column other than the verification-hash column, and no other key. |
| Sample.ColumnMetaValues | img2dataset/downloader.py:116-120 | A column's metadata value is the row's cell of the last kept column with that name. |
| Sample.ErrorOf | img2dataset/downloader.py:137-242 | A success returns no error text. |
| Sample.ProcessFetched | img2dataset/downloader.py:111-242 | The step-by-step processor returns `Process` of the fetch outcome, and releases the semaphore exactly once on every path. |
| Sample.RecordSuccess | img2dataset/downloader.py:198-227 | The success branch records EXIF, the computed hash, the status and the dimensions. It reports whether the hash function existed. |
| Sample.DownloadAndProcess | img2dataset/downloader.py:83-242 | The retry loop and then the processor give `Process` of `RetryResult`, with one permit released. |
| Sample.BuildStatus | img2dataset/downloader.py:137-236 | A verdict other than an exception yields a sample that carries its status and error text, has an image only for success, and returns its counters. |
| Sample.DownloadFailure | img2dataset/downloader.py:137-149 | A download error gives `failed_to_download` with that error verbatim, no image, and counters (0, 1, 0). |
| Sample.MissingHashCellExample | img2dataset/downloader.py:114-149 | The comprehension skips the verification hash column before reading it, so a row that lacks only that cell still gives `failed_to_download` with counters (0, 1, 0). |
| Sample.HashMismatchOutcome | img2dataset/downloader.py:151-171 | A digest that differs from the row's hash gives `failed_to_download` with `hash mismatch` and counters (0, 1, 0), and the resizer is never consulted. |
| Sample.ResizeFailure | img2dataset/downloader.py:173-197 | A resizer error after verification gives `failed_to_resize` with the resizer's text and counters (0, 0, 1). |
| Sample.DecideResized | img2dataset/downloader.py:173-199 | A verified stream that the resizer resizes, with the hash available, is a success with the resizer's image and dimensions. |
| Sample.ResizeSuccess | img2dataset/downloader.py:198-236 | Such a row gives `success`, the image, the four dimensions, no error and counters (1, 0, 0). |
| Sample.Counters | img2dataset/downloader.py:104-242 | The counters add up to at most one, and to exactly one when a sample is returned. Successes count exactly the samples with an image. |
| Sample.NoSampleNoError | img2dataset/downloader.py:237-242 | With the bounding-box, caption and crop lookups in range, no sample means an exception after a successful download, and then the error text is `None`. |
| Sample.InitialMetaKeys | img2dataset/downloader.py:114-133 | The initial metadata has exactly the keys of `MetaKey`. |
| Sample.FinalMetaKeys | img2dataset/downloader.py:140-227 | The outcome adds no key and removes none. |
| Sample.MetaKeys | img2dataset/downloader.py:114-227 | A sample's metadata has the kept columns, the seven fixed fields, `exif` when extracted and the computed-hash field when asked for, and nothing else. |
| Sample.ProcessSample | img2dataset/downloader.py:111-236 | A returned sample comes from the row's non-exception verdict. It carries the row's caption cell and its computed key, and has an image exactly on success. |
| Sample.SampleKey | img2dataset/downloader.py:113-121 | A sample carries `compute_key` of its row index as its key. It carries that key under `key` too, unless the computed-hash field is named `key`. It also carries its row's caption. |
| Sample.ColumnValue | img2dataset/downloader.py:116-120 | A kept, non-reserved column keeps its row's value in the metadata. |
| Sample.RejectionDimensions | img2dataset/downloader.py:124-127 | Every sample without an image has the four dimensions `None`. |
| Sample.SuccessExtras | img2dataset/downloader.py:201-221 | A success records the EXIF text of the stream and the stream's digest under the hash's own name. |
| Shard.Normalize | img2dataset/downloader.py:291 | `strip().lower()` has no white space at either end. |
| Shard.NormalizeIdempotent | img2dataset/downloader.py:291-296 | Normalizing twice is normalizing once. |
| Shard.NormalizeAll | img2dataset/downloader.py:295 | The set holds exactly the normalized directives. |
| Shard.NewDownloader | img2dataset/downloader.py:257-297 | The token and each directive are stripped and lowered, `None` stays `None`, and every other modelled setting is kept. |
| Shard.NewDownloaderNormalized | img2dataset/downloader.py:291-296 | A downloader's token and directives are already normalized. |
| Shard.IndexOf | img2dataset/downloader.py:350-356 | `list.index`: none (`ValueError`) exactly when the element is absent; otherwise its first position. |
| Shard.Select | img2dataset/downloader.py:339 | `select` fails exactly when a requested name is missing or ambiguous. Otherwise it returns one column per name, in request order, each with a column of that name's values. |
| Shard.Zip | img2dataset/downloader.py:340 | `zip(*cols)` has as many rows as the shortest column, each row with one cell per column, and row k's cell j is column j's k-th value. |
| Shard.OutputSchema | img2dataset/downloader.py:323-337 | The schema is the table's columns, then the seven fixed fields, then `exif` when extracted, then the computed-hash field unless already present, and nothing else: its length is exact and the appended field comes last. |
| Shard.ResolveIndices | img2dataset/downloader.py:350-356 | Setup raises exactly when `url` is missing, or the bounding-box column is named but missing. Otherwise each index is that name's first position, or absent. |
| Shard.ResultsFromAt | img2dataset/downloader.py:382-411 | Result j is row j's. |
| Shard.Consumed | img2dataset/downloader.py:382-420 | The loop takes results up to and including the first without a sample, whose write raises. Everything before it has a sample. |
| Shard.ConsumedStops | img2dataset/downloader.py:417-420 | The first result without a sample ends the loop right after it. |
| Shard.ConsumedAll | img2dataset/downloader.py:382-417 | With every sample present, the loop takes every row. |
| Shard.DownloadShard | img2dataset/downloader.py:311-440 | `download_shard` raises before the writer, raises after opening it, or runs the loop, as `ShardRun` says. |
| Shard.ProcessRow | img2dataset/downloader.py:389-409 | Row k's processing gives the k-th result and releases one permit. |
| Shard.TakeRow | img2dataset/downloader.py:363-416 | One turn acquires and releases a permit, gives row k's result and adds it to the tally. |
| Shard.ShardLoop | img2dataset/downloader.py:361-440 | Open, the loop, close, statistics and removal give exactly `ReadyEffects`. |
| Shard.RowLoop | img2dataset/downloader.py:380-420 | The loop consumes `Consumed` results, tallies and writes exactly those, and leaves the permits as it found them. |
| Shard.Call | img2dataset/downloader.py:299-309 | `__call__` returns `(True, row)` exactly when the run does not raise, with `row` itself in both cases. The shard file is removed exactly when the call succeeds. |
| Shard.ShardEffects | img2dataset/downloader.py:311-440 | The writer is opened first. A run that returns writes samples only, then closes, writes statistics and removes the shard. A run that raises at most opens the writer, never closes it, and never removes the shard. |
| Shard.RunEffectsShape | img2dataset/downloader.py:371-440 | The effects of any loop follow that order. |
| Shard.PlanInRange | img2dataset/downloader.py:339-356 | Every row handed to the processor exists and has exactly one cell per column, the verification-hash index points at a column, and the bounding-box, caption and crop indexes point at cells: no lookup raises. |
| Shard.SchemaCoversMeta | img2dataset/downloader.py:323-337 | Every metadata field of every sample is a column of the writer's schema. |
| Shard.WritesAllSampled | img2dataset/downloader.py:417 | Results that all have samples are written one for one, in order. |
| Shard.TallySums | img2dataset/downloader.py:412-416 | When each result adds one to a counter, the counters add up to the result count, with one status per result. |
| Shard.DoneWrites | img2dataset/downloader.py:382-420 | The writes are the samples of the first results in order. The result that ended the loop is not written. |
| Shard.RowResult | img2dataset/downloader.py:389-409 | Row k's result is the processor applied to the outcome of its retried fetches. |
| Shard.RowKey | img2dataset/downloader.py:113 | Row k's sample carries row k's key. |
| Shard.RowCounters | img2dataset/downloader.py:412-414 | Row k's sampled result adds one to exactly one counter. |
| Shard.RowRaisedNoError | img2dataset/downloader.py:237-242 | A row without a sample returns no error text. |
| Shard.WrittenKeys | img2dataset/downloader.py:382-417 | The i-th write carries row i's key, so no two writes of a shard share a key. |
| Shard.KeysInOrder | img2dataset/downloader.py:417 | Results keyed by their own rows are written with the keys of rows 0, 1, ... in turn, all distinct. |
| Shard.CompleteRun | img2dataset/downloader.py:382-439 | With no row raising, every sample is written in key order, and the statistics count every row once. The three counters add up to the row count, with one status per row. |
| Shard.AbortedRun | img2dataset/downloader.py:382-439 | When row k's processing raises, the rows before k are written and none after. The statistics count rows 0..k, and row k is counted under `success`. |
| Distributor.Run | img2dataset/distributor.py:27-33 | `run` collects exactly the shards whose status is `False`, in order. |
| Distributor.FailedMeaning | img2dataset/distributor.py:27-33 | A shard is kept as often as it was given if it fails, and not at all if it succeeds. |
| Distributor.Retrier | img2dataset/distributor.py:10-21 | The retrier leaves the shards of `Retried` failed after the number of passes that `RetryPasses` gives. |
| Distributor.RetriesBounded | img2dataset/distributor.py:12-16 | At most `max_shard_retry` passes. Fewer only when nothing is left failed. |
| Distributor.RetriedStillFailing | img2dataset/distributor.py:10-21 | A shard still failed after the retries was failed before them and failed in every retry pass made. It is never more frequent than before. |
| Distributor.SingleProcess | img2dataset/distributor.py:24-37 | One pass over the reader, then the retrier over its failures. |
| Distributor.SingleProcessFailures | img2dataset/distributor.py:24-37 | A shard left failed came from the reader and failed the first pass and every retry pass. |
| Distributor.Batches | img2dataset/distributor.py:66-69 | The batcher raises exactly when there are items and the batch size is below 1. |
| Distributor.ChunksFlatten | img2dataset/distributor.py:66-69 | The batches, concatenated, are the items in order. |
| Distributor.ChunksSizes | img2dataset/distributor.py:66-69 | Every batch has 1 to `size` items, and every batch but the last has exactly `size`. |
| Distributor.ChunksCount | img2dataset/distributor.py:66-69 | There are the fewest batches of `size` that hold every item: ceil(n / size). |
| Distributor.Batcher | img2dataset/distributor.py:66-69 | The generator's batches are `Batches`. |

## Left out

- Fetching (`urllib` requests, timeouts, `r.read()`) is not modelled. The response to each request is the input `Network`; the user-agent header is `Fetch.UserAgent`, but the request that carries it is not.
- `remote_pdb.set_trace()` in the disallowed branch of `download_image` is a debugging breakpoint. The model returns the policy message straight away.
- Printed messages, tracebacks and `tqdm` progress bars (`retrier`'s messages, the error reports) are not modelled.
- `time.sleep` is not executed: the sleeps are returned as `Retry.Sleep` records, each as a multiple of `timeout`.
- Thread pools and `imap_unordered`: the model processes rows one after another in key order. Completion order, and the blocking of the semaphore, are left out. `Sample.Semaphore.Acquire` requires a free permit instead of waiting.
- `multiprocessing_distributor`, `pyspark_distributor`'s Spark session and jobs, and `ray_distributor` are left out. Only the pyspark `batcher` is modelled.
- The sample writer class, `write_stats` and `fsspec` are recorded as effects, and their own failures are left out. So are the start and end times.
- The Arrow table is given as a list of named columns. `pa.ipc` reading, Arrow types and the schema's field types are left out; the schema is a list of names.
- `CappedCounter` is a multiset of status texts, without its cap.
- The resizer, `hashlib`, `exifread` and `json.dumps` are parameters in `Sample.Foreign`. A hash function named by an unknown algorithm is one that returns `None`.
- `Text.Lower`: lowering is modelled for Latin-1, the range of header text as Python's HTTP client decodes it, and for names the caller supplies. Other Unicode case mappings are left out.
- `Keys.OrderOfMagnitude`: computes `ceil(log10(n))` exactly. Floating-point rounding of `math.log10` is left out.
- Retries, shard ids, row indexes and `oom_shard_count` are natural numbers. Negative values of these are left out.
- `Distributor.Run`: the downloader returns the shard it was given as the row to retry (as `Shard.Call` proves). So a downloader is a status per shard, and returning some other row is not modelled.
- `Shard.NewDownloader`: the `sample_writer_class`, `save_caption`, `output_folder`, `timeout` and `encode_format` settings are not fields of the model's `Downloader`: they only reach the writer, `urllib`, the length of a sleep (recorded as a multiple of `timeout`) and `write_stats`, which are left out above.
- `Distributor.Retrier`: `max_shard_retry` is a natural number.
