/** The shard downloader: its configuration (`Downloader.__init__`), the
    bookkeeping of `download_shard` (output schema, column selection, column
    indexes, the loop that tallies and writes every row's result) and the
    success/failure wrapper `__call__`. Reading the shard file, the writer,
    the statistics file and removing the shard are recorded as effects. */
module Shard {
  import opened Common
  import opened Text
  import opened Keys
  import opened Fetch
  import opened Retry
  import opened Sample

  /** The configuration a `Downloader` keeps. The resizer, the hash
      functions and the EXIF reader are in `foreign`. */
  datatype Downloader = Downloader(
    threadCount: int,
    extractExif: bool,
    columns: seq<string>,
    numberSamplePerShard: int,
    oomShardCount: nat,
    computeHash: Option<string>,
    verifyHashType: Option<string>,
    retries: nat,
    userAgentToken: Option<string>,
    disallowed: Option<set<string>>,
    blurringBboxCol: Option<string>,
    foreign: Foreign)

  /** `s.strip().lower()`. */
  function Normalize(s: string): (r: string)
    ensures r == [] || (!IsSpace(r[0]) && !IsSpace(r[|r| - 1]))
  {
    var t := Strip(s);
    LowerIdempotent(t);
    Lower(t)
  }

  /** Normalizing twice is normalizing once. */
  lemma NormalizeIdempotent(s: string)
    ensures Normalize(Normalize(s)) == Normalize(s)
  {
    var n := Normalize(s);
    StripTrimmed(n);
    LowerIdempotent(Strip(s));
  }

  /** `{d.strip().lower() for d in ds}`. */
  function NormalizeAll(ds: seq<string>): (r: set<string>)
    ensures forall x :: x in r <==> exists i :: 0 <= i < |ds| && x == Normalize(ds[i])
  {
    set i | 0 <= i < |ds| :: Normalize(ds[i])
  }

  /** `Downloader.__init__`: the user-agent token and every disallowed
      directive are stripped and lowered; `None` stays `None`. */
  function NewDownloader(
    threadCount: int, extractExif: bool, columns: seq<string>, numberSamplePerShard: int,
    oomShardCount: nat, computeHash: Option<string>, verifyHashType: Option<string>, retries: nat,
    userAgentToken: Option<string>, disallowed: Option<seq<string>>, blurringBboxCol: Option<string>,
    foreign: Foreign): (d: Downloader)
    ensures d.userAgentToken.None? <==> userAgentToken.None?
    ensures userAgentToken.Some? ==> d.userAgentToken.value == Normalize(userAgentToken.value)
    ensures d.disallowed.None? <==> disallowed.None?
    ensures disallowed.Some? ==> forall x :: x in d.disallowed.value <==>
      exists i :: 0 <= i < |disallowed.value| && x == Normalize(disallowed.value[i])
    ensures (d.threadCount, d.extractExif, d.columns, d.numberSamplePerShard, d.oomShardCount) ==
      (threadCount, extractExif, columns, numberSamplePerShard, oomShardCount)
    ensures (d.computeHash, d.verifyHashType, d.retries, d.blurringBboxCol, d.foreign) ==
      (computeHash, verifyHashType, retries, blurringBboxCol, foreign)
  {
    Downloader(threadCount, extractExif, columns, numberSamplePerShard, oomShardCount, computeHash,
      verifyHashType, retries,
      if userAgentToken.None? then None else Some(Normalize(userAgentToken.value)),
      if disallowed.None? then None else Some(NormalizeAll(disallowed.value)),
      blurringBboxCol, foreign)
  }

  /** A downloader's token and directives are already normalized: the
      matching in `is_disallowed` sees them unchanged. */
  lemma NewDownloaderNormalized(
    threadCount: int, extractExif: bool, columns: seq<string>, numberSamplePerShard: int,
    oomShardCount: nat, computeHash: Option<string>, verifyHashType: Option<string>, retries: nat,
    userAgentToken: Option<string>, disallowed: Option<seq<string>>, blurringBboxCol: Option<string>,
    foreign: Foreign)
    ensures var d := NewDownloader(threadCount, extractExif, columns, numberSamplePerShard, oomShardCount,
      computeHash, verifyHashType, retries, userAgentToken, disallowed, blurringBboxCol, foreign);
      && (d.userAgentToken.Some? ==> Normalize(d.userAgentToken.value) == d.userAgentToken.value)
      && (d.disallowed.Some? ==> forall x :: x in d.disallowed.value ==> Normalize(x) == x)
  {
    if userAgentToken.Some? {
      NormalizeIdempotent(userAgentToken.value);
    }
    if disallowed.Some? {
      forall x | x in NormalizeAll(disallowed.value) ensures Normalize(x) == x {
        var i :| 0 <= i < |disallowed.value| && x == Normalize(disallowed.value[i]);
        NormalizeIdempotent(disallowed.value[i]);
      }
    }
  }

  // ---------------------------------------------------------------- the table

  /** A column of the input shard, read from its Arrow file. */
  datatype Column = Column(name: string, values: seq<Value>)

  /** The shard file: unreadable (the open or the Arrow reader raises) or a
      table. */
  datatype ShardFile = Unreadable | Table(columns: seq<Column>)

  function Names(cols: seq<Column>): (ns: seq<string>)
    ensures |ns| == |cols|
    ensures forall i :: 0 <= i < |cols| ==> ns[i] == cols[i].name
  {
    seq(|cols|, i requires 0 <= i < |cols| => cols[i].name)
  }

  /** `xs.index(x)`, `None` where Python raises `ValueError`. */
  function IndexOf(xs: seq<string>, x: string): (r: Option<nat>)
    ensures r.None? <==> x !in xs
    ensures r.Some? ==> r.value < |xs| && xs[r.value] == x && x !in xs[..r.value]
  {
    if x !in xs then None
    else if xs[0] == x then Some(0)
    else
      var r := IndexOf(xs[1..], x).value;
      assert xs[..r + 1] == [xs[0]] + xs[1..][..r];
      Some(r + 1)
  }

  /** The name occurs once among `xs`. */
  predicate Unique(xs: seq<string>, x: string)
  {
    x in xs && x !in xs[IndexOf(xs, x).value + 1..]
  }

  /** `table.select(names)`: the values of the column of each name, in the
      order of `names`; `None` (Arrow raises `KeyError`) when a name is not
      a column of the table, or is the name of two of them. */
  function Select(cols: seq<Column>, names: seq<string>): (r: Option<seq<seq<Value>>>)
    ensures r.None? <==> exists j :: 0 <= j < |names| && !Unique(Names(cols), names[j])
    ensures r.Some? ==> |r.value| == |names| && forall j :: 0 <= j < |names| ==>
      && names[j] in Names(cols)
      && exists i :: 0 <= i < |cols| && cols[i].name == names[j] && r.value[j] == cols[i].values
  {
    var ns := Names(cols);
    if exists j :: 0 <= j < |names| && !Unique(ns, names[j]) then None
    else Some(seq(|names|, j requires 0 <= j < |names| => cols[IndexOf(ns, names[j]).value].values))
  }

  function MinLength(cols: seq<seq<Value>>): (n: nat)
    ensures forall j :: 0 <= j < |cols| ==> n <= |cols[j]|
    ensures cols != [] ==> exists j :: 0 <= j < |cols| && n == |cols[j]|
  {
    if cols == [] then 0
    else if |cols| == 1 then |cols[0]|
    else
      var m := MinLength(cols[1..]);
      if |cols[0]| <= m then |cols[0]| else m
  }

  /** `list(zip(*cols))`: the rows, as long as the shortest column, each with
      one cell per column. */
  function Zip(cols: seq<seq<Value>>): (rows: seq<seq<Value>>)
    ensures |rows| == MinLength(cols)
    ensures forall k :: 0 <= k < |rows| ==> |rows[k]| == |cols|
    ensures forall k, j :: 0 <= k < |rows| && 0 <= j < |cols| ==> rows[k][j] == cols[j][k]
  {
    seq(MinLength(cols), k requires 0 <= k < MinLength(cols) =>
      seq(|cols|, j requires 0 <= j < |cols| => cols[j][k]))
  }

  // --------------------------------------------------------------- the schema

  const FixedFields: seq<string> := ["key", "status", "error_message", "width", "height", "original_width", "original_height"]

  /** The writer's schema: the table's columns, the seven fields the
      processor sets, `exif` when EXIF is extracted, and the computed-hash
      field unless a column of that name is already there. */
  function OutputSchema(names: seq<string>, extractExif: bool, computeHash: Option<string>): (schema: seq<string>)
    ensures |schema| >= |names| + 7
    ensures schema[..|names|] == names
    ensures schema[|names|..|names| + 7] == FixedFields
    ensures extractExif ==> |schema| > |names| + 7 && schema[|names| + 7] == "exif"
    ensures forall x :: x in schema <==>
      x in names || x in FixedFields || (extractExif && x == "exif") || (computeHash.Some? && x == computeHash.value)
    ensures var appended := computeHash.Some? && computeHash.value !in names && computeHash.value !in FixedFields
                              && !(extractExif && computeHash.value == "exif");
      && |schema| == |names| + 7 + (if extractExif then 1 else 0) + (if appended then 1 else 0)
      && (appended ==> schema[|schema| - 1] == computeHash.value)
  {
    var s := names + FixedFields;
    assert s[..|names|] == names && s[|names|..] == FixedFields;
    var s := if extractExif then s + ["exif"] else s;
    assert s[..|names| + 7] == names + FixedFields;
    assert computeHash.Some? ==>
      (computeHash.value in s <==> computeHash.value in names || computeHash.value in FixedFields
                                   || (extractExif && computeHash.value == "exif"));
    if computeHash.Some? && computeHash.value !in s then s + [computeHash.value] else s
  }

  /** The positions the loop hands every row: `url`, and `caption`, `crop`,
      the verification hash column and the bounding box column when there. */
  datatype Indices = Indices(url: nat, caption: Option<nat>, crop: Option<nat>, hash: Option<nat>, bbox: Option<nat>)

  /** The column indexes, or `None` where `list.index` raises: no `url`
      column, or a bounding box column that is not in the list. */
  function ResolveIndices(columns: seq<string>, verifyHashType: Option<string>, bboxCol: Option<string>): (r: Option<Indices>)
    ensures r.None? <==> "url" !in columns || (bboxCol.Some? && bboxCol.value !in columns)
    ensures r.Some? ==> r.value.url == IndexOf(columns, "url").value
    ensures r.Some? ==> r.value.caption == IndexOf(columns, "caption") && r.value.crop == IndexOf(columns, "crop")
    ensures r.Some? ==> r.value.hash == (if verifyHashType.Some? then IndexOf(columns, verifyHashType.value) else None)
    ensures r.Some? ==> r.value.bbox == (if bboxCol.Some? then IndexOf(columns, bboxCol.value) else None)
  {
    var url := IndexOf(columns, "url");
    var bbox := if bboxCol.Some? then IndexOf(columns, bboxCol.value) else None;
    if url.None? || (bboxCol.Some? && bbox.None?) then None
    else
      Some(Indices(url.value, IndexOf(columns, "caption"), IndexOf(columns, "crop"),
        if verifyHashType.Some? then IndexOf(columns, verifyHashType.value) else None, bbox))
  }

  // ------------------------------------------------------------ the shard loop

  /** What the shard run does outside the model's state. */
  datatype Effect =
    | OpenWriter(shardId: nat, schema: seq<string>)
    | Write(sample: Sample)
    | CloseWriter
    | WriteStats(stats: Stats)
    | RemoveShard

  /** The figures `write_stats` records: the row count, the three counters
      and how many results had each status. */
  datatype Stats = Stats(count: nat, successes: nat, failedToDownload: nat, failedToResize: nat, statuses: multiset<string>)

  /** The setup before the loop: everything the loop needs, or where it
      raises. */
  datatype Plan = Plan(schema: seq<string>, rows: seq<seq<Value>>, cfg: Config)
  datatype Stage = FailsBeforeWriter | FailsAfterWriter(schema: seq<string>) | Ready(plan: Plan)

  function RowConfig(d: Downloader, shardId: nat, p: nat, ix: Indices): Config
  {
    Config(shardId, p, d.oomShardCount, d.columns, ix.bbox, ix.caption, ix.crop, ix.hash,
      d.extractExif, d.computeHash, d.verifyHashType)
  }

  /** The setup of `download_shard`, in its order: reading the table, the
      schema, selecting the columns, the indexes and the semaphore
      (`Semaphore` raises on a negative count) come before the writer is
      opened; `log10` of a count that is not positive and a thread pool of
      no threads raise after it. */
  function PlanShard(d: Downloader, shardId: nat, file: ShardFile): Stage
  {
    match file
    case Unreadable => FailsBeforeWriter
    case Table(cols) =>
      var schema := OutputSchema(Names(cols), d.extractExif, d.computeHash);
      var selected := Select(cols, d.columns);
      var ix := ResolveIndices(d.columns, d.verifyHashType, d.blurringBboxCol);
      if selected.None? || ix.None? || d.threadCount < 0 then FailsBeforeWriter
      else
        var p := OrderOfMagnitude(d.numberSamplePerShard);
        if p.None? || d.threadCount == 0 then FailsAfterWriter(schema)
        else Ready(Plan(schema, Zip(selected.value), RowConfig(d, shardId, p.value, ix.value)))
  }

  /** The responses of the network: `net(key, url, attempt)`. */
  type Network = (nat, Value, nat) -> Response

  /** The URL cell of row `k`. */
  function Url(d: Downloader, plan: Plan, k: nat): Value
  {
    var u := IndexOf(d.columns, "url");
    if k < |plan.rows| && u.Some? && u.value < |plan.rows[k]| then plan.rows[k][u.value] else Null
  }

  /** The responses to the first `n` requests for row `k`, whose URL is
      `url`. */
  function Responses(net: Network, k: nat, url: Value, n: nat): (rs: seq<Response>)
    ensures |rs| == n
  {
    if n == 0 then [] else Responses(net, k, url, n - 1) + [net(k, url, n - 1)]
  }

  /** The `retries + 1` fetches row `k` is allowed, as `download_image`
      judges them. */
  function RowAttempts(d: Downloader, plan: Plan, net: Network, k: nat): (os: seq<FetchOutcome>)
    ensures |os| == d.retries + 1
  {
    Attempts(Responses(net, k, Url(d, plan, k), d.retries + 1), d.userAgentToken, d.disallowed)
  }

  /** The result of row `k`. */
  function RowOutcome(d: Downloader, plan: Plan, net: Network, k: nat): Processed
  {
    Process(plan.cfg, d.foreign, k, plan.rows, RetryResult(RowAttempts(d, plan, net, k)))
  }

  /** Row `k`'s result, as a function of `k`. */
  function RowResults(d: Downloader, plan: Plan, net: Network): nat -> Processed
  {
    (k: nat) => RowOutcome(d, plan, net, k)
  }

  /** The results `row(k), ..., row(n - 1)`, in key order. */
  function ResultsFrom(row: nat -> Processed, k: nat, n: nat): (rs: seq<Processed>)
    ensures |rs| == if k <= n then n - k else 0
    decreases n - k, 1
  {
    if k >= n then [] else ResultsFromRow(row, k, n)
  }

  /** The results from an existing row `k` on: its own, then the later
      rows'. */
  function ResultsFromRow(row: nat -> Processed, k: nat, n: nat): (rs: seq<Processed>)
    requires k < n
    ensures |rs| == n - k
    decreases n - k, 0
  {
    [row(k)] + ResultsFrom(row, k + 1, n)
  }

  /** The result of every row, in key order. */
  function Results(d: Downloader, plan: Plan, net: Network): (rs: seq<Processed>)
    ensures |rs| == |plan.rows|
  {
    ResultsFrom(RowResults(d, plan, net), 0, |plan.rows|)
  }

  lemma {:induction false} ResultsFromAt(row: nat -> Processed, k: nat, j: nat, n: nat)
    requires k <= j < n
    ensures ResultsFrom(row, k, n)[j - k] == row(j)
    decreases j - k
  {
    assert ResultsFrom(row, k, n) == ResultsFromRow(row, k, n);
    if k < j {
      ResultsFromAt(row, k + 1, j, n);
    }
  }

  /** How many results the loop takes: up to and including the first one
      without a sample, whose write raises and ends the loop. */
  function Consumed(rs: seq<Processed>): (n: nat)
    ensures n <= |rs|
    ensures forall j :: 0 <= j < n - 1 ==> rs[j].sample.Some?
    ensures n < |rs| ==> 1 <= n && rs[n - 1].sample.None?
    ensures n == |rs| && n > 0 && rs[n - 1].sample.Some? ==> forall j :: 0 <= j < n ==> rs[j].sample.Some?
  {
    if rs == [] then 0
    else if rs[0].sample.None? then 1
    else 1 + Consumed(rs[1..])
  }

  /** The status a result is counted under. */
  function StatusKey(p: Processed): string
  {
    if p.errorMessage.Some? then p.errorMessage.value else Success
  }

  /** The counters and the status counts after one more result. */
  function Count(t: Stats, p: Processed): Stats
  {
    Stats(t.count, t.successes + p.successes, t.failedToDownload + p.failedToDownload,
      t.failedToResize + p.failedToResize, t.statuses + multiset{StatusKey(p)})
  }

  /** The counters and the status counts over `rs`. */
  function Tally(count: nat, rs: seq<Processed>): (st: Stats)
    ensures st.count == count
  {
    if rs == [] then Stats(count, 0, 0, 0, multiset{})
    else Count(Tally(count, rs[..|rs| - 1]), rs[|rs| - 1])
  }

  /** The writes for `rs`: one per result with a sample, in order. */
  function Writes(rs: seq<Processed>): (ws: seq<Effect>)
    ensures |ws| <= |rs|
    ensures forall i :: 0 <= i < |ws| ==> ws[i].Write?
  {
    if rs == [] then []
    else
      var p := rs[|rs| - 1];
      Writes(rs[..|rs| - 1]) + (if p.sample.Some? then [Write(p.sample.value)] else [])
  }

  /** The effects of a run that gets through the setup: the writer opened,
      the consumed results' samples written, then the writer closed, the
      statistics written and the shard removed. */
  function ReadyEffects(d: Downloader, shardId: nat, plan: Plan, net: Network): seq<Effect>
  {
    RunEffects(shardId, plan.schema, |plan.rows|, Results(d, plan, net))
  }

  /** The effects of a loop over `count` rows whose results are `rs`. */
  function RunEffects(shardId: nat, schema: seq<string>, count: nat, rs: seq<Processed>): seq<Effect>
  {
    var done := rs[..Consumed(rs)];
    [OpenWriter(shardId, schema)] + Writes(done)
      + [CloseWriter, WriteStats(Tally(count, done)), RemoveShard]
  }

  /** The outcome of `download_shard`: whether it raised, and its effects. */
  datatype ShardOutcome = ShardOutcome(raised: bool, effects: seq<Effect>)

  /** `download_shard(row)` for `row == (shardId, file)`. */
  function ShardRun(d: Downloader, shardId: nat, file: ShardFile, net: Network): ShardOutcome
  {
    StageRun(d, shardId, PlanShard(d, shardId, file), net)
  }

  /** The outcome of the run once the setup has come to `stage`. */
  function StageRun(d: Downloader, shardId: nat, stage: Stage, net: Network): ShardOutcome
  {
    match stage
    case FailsBeforeWriter => ShardOutcome(true, [])
    case FailsAfterWriter(schema) => ShardOutcome(true, [OpenWriter(shardId, schema)])
    case Ready(plan) => ShardOutcome(false, ReadyEffects(d, shardId, plan, net))
  }

  /** Every result in `rs` has a sample. */
  predicate AllSampled(rs: seq<Processed>)
  {
    rs == [] || (AllSampled(rs[..|rs| - 1]) && rs[|rs| - 1].sample.Some?)
  }

  lemma {:induction false} AllSampledMeaning(rs: seq<Processed>)
    ensures AllSampled(rs) <==> forall j :: 0 <= j < |rs| ==> rs[j].sample.Some?
  {
    if rs != [] {
      AllSampledMeaning(rs[..|rs| - 1]);
    }
  }

  /** One more result: its counters and status join the tally, its sample,
      when it has one, the writes. */
  lemma PrefixStep(count: nat, rs: seq<Processed>, k: nat)
    requires k < |rs|
    ensures Tally(count, rs[..k + 1]) == Count(Tally(count, rs[..k]), rs[k])
    ensures Writes(rs[..k + 1]) == Writes(rs[..k]) + (if rs[k].sample.Some? then [Write(rs[k].sample.value)] else [])
    ensures AllSampled(rs[..k + 1]) <==> AllSampled(rs[..k]) && rs[k].sample.Some?
  {
    assert rs[..k + 1][..k] == rs[..k];
  }

  /** The loop stops right after the first result without a sample. */
  lemma ConsumedStops(rs: seq<Processed>, k: nat)
    requires k < |rs| && rs[k].sample.None?
    requires AllSampled(rs[..k])
    ensures Consumed(rs) == k + 1
  {
    AllSampledMeaning(rs[..k]);
    assert forall j :: 0 <= j < k ==> rs[..k][j] == rs[j];
  }

  /** The loop takes every row when every result has a sample. */
  lemma ConsumedAll(rs: seq<Processed>)
    requires AllSampled(rs)
    ensures Consumed(rs) == |rs|
  {
    AllSampledMeaning(rs);
  }

  /** `download_shard(row)`: the setup, then the loop. */
  method DownloadShard(d: Downloader, shardId: nat, file: ShardFile, net: Network) returns (out: ShardOutcome)
    ensures out == ShardRun(d, shardId, file, net)
  {
    var stage := PlanShard(d, shardId, file);
    match stage
    case FailsBeforeWriter =>
      out := ShardOutcome(true, []);
    case FailsAfterWriter(schema) =>
      out := ShardOutcome(true, [OpenWriter(shardId, schema)]);
    case Ready(plan) =>
      assert d.threadCount >= 1;
      var effects := ShardLoop(d, shardId, plan, net);
      out := ShardOutcome(false, effects);
  }

  /** Row `k` downloaded and processed: `download_and_process_image_with_retry`
      for it. */
  method ProcessRow(d: Downloader, plan: Plan, net: Network, k: nat, semaphore: Semaphore) returns (result: Processed)
    requires k < |plan.rows|
    modifies semaphore
    ensures semaphore.permits == old(semaphore.permits) + 1
    ensures result == Results(d, plan, net)[k]
  {
    result := DownloadAndProcess(plan.cfg, d.foreign, k, plan.rows, RowAttempts(d, plan, net, k), d.retries, semaphore);
    assert RowAttempts(d, plan, net, k)[..d.retries + 1] == RowAttempts(d, plan, net, k);
    ResultsFromAt(RowResults(d, plan, net), 0, k, |plan.rows|);
  }

  /** One turn of the loop: a permit acquired, the row downloaded and
      processed (releasing it), its result tallied; when `rs` are the rows'
      results, the result is row `k`'s. */
  method TakeRow(d: Downloader, plan: Plan, net: Network, semaphore: Semaphore, ghost rs: seq<Processed>, k: nat, tally: Stats)
    returns (result: Processed, tally': Stats)
    requires k < |plan.rows| && semaphore.permits >= 1
    modifies semaphore
    ensures semaphore.permits == old(semaphore.permits)
    ensures rs == Results(d, plan, net) ==> result == rs[k]
    ensures tally' == Count(tally, result)
  {
    semaphore.Acquire();
    result := ProcessRow(d, plan, net, k, semaphore);
    tally' := Count(tally, result);
  }

  /** The writer's part of `download_shard`: opened with the schema, fed by
      the loop, then closed; the statistics written and the shard removed. */
  method ShardLoop(d: Downloader, shardId: nat, plan: Plan, net: Network) returns (effects: seq<Effect>)
    requires d.threadCount >= 1
    ensures effects == ReadyEffects(d, shardId, plan, net)
  {
    var semaphore := new Semaphore(d.threadCount * 2);
    ghost var rs := Results(d, plan, net);
    var k, tally, writes := RowLoop(d, plan, net, semaphore, rs);
    effects := [OpenWriter(shardId, plan.schema)] + writes + [CloseWriter, WriteStats(tally), RemoveShard];
  }

  /** The loop of `download_shard`, step by step: each row acquires a permit
      of the semaphore, is downloaded and processed (which releases it), is
      tallied, and its sample written; a result without a sample makes the
      write raise, which ends the loop. `rs` are the rows' results. */
  method RowLoop(d: Downloader, plan: Plan, net: Network, semaphore: Semaphore, ghost rs: seq<Processed>)
    returns (k: nat, tally: Stats, writes: seq<Effect>)
    requires semaphore.permits >= 1
    requires rs == Results(d, plan, net)
    modifies semaphore
    ensures semaphore.permits == old(semaphore.permits)
    ensures k == Consumed(rs)
    ensures tally == Tally(|plan.rows|, rs[..k])
    ensures writes == Writes(rs[..k])
  {
    tally := Stats(|plan.rows|, 0, 0, 0, multiset{});
    writes := [];
    k := 0;
    ghost var aborted := false;
    assert rs[..k] == [];
    while k < |plan.rows|
      invariant k <= |plan.rows| && !aborted
      invariant semaphore.permits == old(semaphore.permits)
      invariant AllSampled(rs[..k])
      invariant tally == Tally(|plan.rows|, rs[..k])
      invariant writes == Writes(rs[..k])
    {
      var result;
      result, tally := TakeRow(d, plan, net, semaphore, rs, k, tally);
      PrefixStep(|plan.rows|, rs, k);
      if result.sample.None? {
        ConsumedStops(rs, k);
        k := k + 1;
        aborted := true;
        break;
      }
      writes := writes + [Write(result.sample.value)];
      k := k + 1;
    }
    if !aborted {
      assert rs[..k] == rs;
      ConsumedAll(rs);
    }
  }

  /** `Downloader.__call__(row)`: `(True, row)` when the shard run returns,
      `(False, row)` when it raises; the shard file is removed exactly when
      the run succeeds. */
  method Call(d: Downloader, shardId: nat, file: ShardFile, net: Network)
    returns (ok: bool, row: (nat, ShardFile), effects: seq<Effect>)
    ensures row == (shardId, file)
    ensures ok == !ShardRun(d, shardId, file, net).raised && effects == ShardRun(d, shardId, file, net).effects
    ensures ok <==> RemoveShard in effects
  {
    var out := DownloadShard(d, shardId, file, net);
    ShardEffects(d, shardId, PlanShard(d, shardId, file), net);
    ok, row, effects := !out.raised, (shardId, file), out.effects;
  }

  // ------------------------------------------------------------- properties

  /** The writer is opened first; a run that returns then writes samples
      only, then closes the writer, writes the statistics and removes the
      shard, in that order; a run that raises does at most open the writer.
      This holds whatever stage the setup reaches, so for every shard file. */
  lemma ShardEffects(d: Downloader, shardId: nat, stage: Stage, net: Network)
    ensures var o := StageRun(d, shardId, stage, net);
      && (o.effects != [] ==> o.effects[0].OpenWriter? && o.effects[0].shardId == shardId)
      && (!o.raised ==>
           && |o.effects| >= 4
           && (forall i :: 1 <= i < |o.effects| - 3 ==> o.effects[i].Write?)
           && o.effects[|o.effects| - 3] == CloseWriter
           && o.effects[|o.effects| - 2].WriteStats?
           && o.effects[|o.effects| - 1] == RemoveShard)
      && (o.raised ==> |o.effects| <= 1 && RemoveShard !in o.effects && CloseWriter !in o.effects)
  {
    match stage
    case FailsBeforeWriter =>
    case FailsAfterWriter(_) =>
    case Ready(plan) =>
      RunEffectsShape(shardId, plan.schema, |plan.rows|, Results(d, plan, net));
  }

  /** The shape of a loop's effects, whatever the results. */
  lemma RunEffectsShape(shardId: nat, schema: seq<string>, count: nat, rs: seq<Processed>)
    ensures var e := RunEffects(shardId, schema, count, rs);
      && |e| >= 4
      && e[0] == OpenWriter(shardId, schema)
      && (forall i :: 1 <= i < |e| - 3 ==> e[i].Write?)
      && e[|e| - 3] == CloseWriter
      && e[|e| - 2].WriteStats?
      && e[|e| - 1] == RemoveShard
  {
  }

  /** Every row the loop hands the processor exists, has a cell for every
      column, and every index the processor uses points at a column: no
      lookup in the processor raises. */
  lemma PlanInRange(d: Downloader, shardId: nat, file: ShardFile, plan: Plan)
    requires PlanShard(d, shardId, file) == Ready(plan)
    ensures plan.cfg.columns == d.columns && plan.cfg.shardId == shardId
    ensures plan.cfg.oomShardCount == d.oomShardCount && plan.cfg.computeHash == d.computeHash
    ensures forall k :: 0 <= k < |plan.rows| ==> |plan.rows[k]| == |plan.cfg.columns|
    ensures plan.cfg.hashIndex.Some? ==> plan.cfg.hashIndex.value < |plan.cfg.columns|
    ensures forall k :: 0 <= k < |plan.rows| ==> InRange(plan.cfg, k, plan.rows)
  {
    var cols := file.columns;
    var selected := Select(cols, d.columns).value;
    var ix := ResolveIndices(d.columns, d.verifyHashType, d.blurringBboxCol).value;
    assert plan.rows == Zip(selected) && |selected| == |d.columns|;
    assert plan.cfg == RowConfig(d, shardId, plan.cfg.oomSamplePerShard, ix);
    forall k | 0 <= k < |plan.rows|
      ensures InRange(plan.cfg, k, plan.rows)
    {
      assert |plan.rows[k]| == |d.columns|;
    }
  }

  /** Every metadata field of every sample the processor returns is a column
      of the schema the writer was opened with. */
  lemma SchemaCoversMeta(d: Downloader, shardId: nat, file: ShardFile, plan: Plan, fd: Field)
    requires PlanShard(d, shardId, file) == Ready(plan)
    requires MetaKey(plan.cfg, fd)
    ensures FieldName(fd) in plan.schema
  {
    var cols := file.columns;
    var selected := Select(cols, d.columns);
    if exists i :: Kept(plan.cfg.columns, plan.cfg.hashIndex, i) && FieldOf(plan.cfg.columns[i]) == fd {
      var i :| Kept(plan.cfg.columns, plan.cfg.hashIndex, i) && FieldOf(plan.cfg.columns[i]) == fd;
      assert d.columns[i] in Names(cols);
    }
  }

  /** Results that all have a sample are written one for one, in order. */
  lemma {:induction false} WritesAllSampled(rs: seq<Processed>)
    requires forall j :: 0 <= j < |rs| ==> rs[j].sample.Some?
    ensures |Writes(rs)| == |rs|
    ensures forall i :: 0 <= i < |rs| ==> Writes(rs)[i] == Write(rs[i].sample.value)
  {
    if rs != [] {
      WritesAllSampled(rs[..|rs| - 1]);
    }
  }

  /** Over results that all have a sample, the three counters add up to one
      per result; in any case there is one status per result. */
  lemma {:induction false} TallySums(count: nat, rs: seq<Processed>)
    requires forall j :: 0 <= j < |rs| ==> rs[j].successes + rs[j].failedToDownload + rs[j].failedToResize == 1
    ensures var st := Tally(count, rs);
      st.successes + st.failedToDownload + st.failedToResize == |rs| && |st.statuses| == |rs|
  {
    if rs != [] {
      TallySums(count, rs[..|rs| - 1]);
    }
  }

  /** The results the loop takes and writes: the samples of the first
      results, in order, one per row, up to the first result without a
      sample, which is taken but not written. */
  lemma DoneWrites(rs: seq<Processed>)
    ensures var c := Consumed(rs);
      && (c > 0 && rs[c - 1].sample.None? ==> |Writes(rs[..c])| == c - 1)
      && (c == 0 || rs[c - 1].sample.Some? ==> c == |rs| && |Writes(rs[..c])| == c)
      && forall i :: 0 <= i < |Writes(rs[..c])| ==> rs[i].sample.Some? && Writes(rs[..c])[i] == Write(rs[i].sample.value)
  {
    var c := Consumed(rs);
    if c > 0 && rs[c - 1].sample.None? {
      var before := rs[..c - 1];
      assert forall j :: 0 <= j < |before| ==> before[j].sample.Some?;
      WritesAllSampled(before);
      assert rs[..c][..c - 1] == before;
    } else {
      assert forall j :: 0 <= j < c ==> rs[..c][j].sample.Some?;
      WritesAllSampled(rs[..c]);
    }
  }

  /** Row `k`'s result: the processor on the outcome of its fetches. */
  lemma RowResult(d: Downloader, plan: Plan, net: Network, k: nat)
    requires k < |plan.rows|
    ensures Results(d, plan, net)[k]
      == Process(plan.cfg, d.foreign, k, plan.rows, RetryResult(RowAttempts(d, plan, net, k)))
  {
    ResultsFromAt(RowResults(d, plan, net), 0, k, |plan.rows|);
  }

  /** The key of row `k` of the shard the plan is for. */
  function RowKeyOf(plan: Plan, k: nat): string
  {
    ComputeKey(k, plan.cfg.shardId, plan.cfg.oomSamplePerShard, plan.cfg.oomShardCount)
  }

  /** Row `k`'s sample, when there is one, carries row `k`'s key. */
  lemma RowKey(d: Downloader, net: Network, plan: Plan, k: nat)
    requires k < |plan.rows|
    ensures Results(d, plan, net)[k].sample.Some? ==>
      Results(d, plan, net)[k].sample.value.key == RowKeyOf(plan, k)
  {
    RowResult(d, plan, net, k);
    SampleKey(plan.cfg, d.foreign, k, plan.rows, RetryResult(RowAttempts(d, plan, net, k)));
  }

  /** Row `k`'s result, when it has a sample, adds one to exactly one of the
      three counters. */
  lemma RowCounters(d: Downloader, plan: Plan, net: Network, k: nat)
    requires k < |plan.rows|
    ensures var p := Results(d, plan, net)[k];
      p.sample.Some? ==> p.successes + p.failedToDownload + p.failedToResize == 1
  {
    RowResult(d, plan, net, k);
    Counters(plan.cfg, d.foreign, k, plan.rows, RetryResult(RowAttempts(d, plan, net, k)));
  }

  /** Row `k`'s result without a sample (its processing raised) has no
      error text. */
  lemma RowRaisedNoError(d: Downloader, net: Network, plan: Plan, k: nat)
    requires InRange(plan.cfg, k, plan.rows)
    ensures var p := Results(d, plan, net)[k];
      p.sample.None? ==> p.errorMessage.None?
  {
    RowResult(d, plan, net, k);
    NoSampleNoError(plan.cfg, d.foreign, k, plan.rows, RetryResult(RowAttempts(d, plan, net, k)));
  }

  /** The samples are written in key order: the `i`-th write carries the key
      of row `i`, so no two writes of a shard carry the same key. */
  lemma WrittenKeys(d: Downloader, shardId: nat, net: Network, plan: Plan)
    ensures var e := ReadyEffects(d, shardId, plan, net);
      forall i :: 1 <= i < |e| - 3 ==> e[i].Write? && e[i].sample.key == RowKeyOf(plan, i - 1)
    ensures var e := ReadyEffects(d, shardId, plan, net);
      forall i, j :: 1 <= i < j < |e| - 3 ==> e[i].sample.key != e[j].sample.key
  {
    var rs := Results(d, plan, net);
    forall k | 0 <= k < |rs| && rs[k].sample.Some?
      ensures rs[k].sample.value.key == RowKeyOf(plan, k)
    {
      RowKey(d, net, plan, k);
    }
    KeysInOrder(plan, rs);
    var w := Writes(rs[..Consumed(rs)]);
    var e := ReadyEffects(d, shardId, plan, net);
    assert e == [OpenWriter(shardId, plan.schema)] + w + e[|e| - 3..];
    assert forall i :: 1 <= i < |e| - 3 ==> e[i] == w[i - 1];
  }

  /** Results whose samples carry their own row's key are written with the
      keys of rows `0, 1, ...` in turn, so with distinct keys. */
  lemma KeysInOrder(plan: Plan, rs: seq<Processed>)
    requires forall k :: 0 <= k < |rs| && rs[k].sample.Some? ==> rs[k].sample.value.key == RowKeyOf(plan, k)
    ensures var w := Writes(rs[..Consumed(rs)]);
      forall i :: 0 <= i < |w| ==> w[i].Write? && w[i].sample.key == RowKeyOf(plan, i)
    ensures var w := Writes(rs[..Consumed(rs)]);
      forall i, j :: 0 <= i < j < |w| ==> w[i].sample.key != w[j].sample.key
  {
    DoneWrites(rs);
    var w := Writes(rs[..Consumed(rs)]);
    forall i, j | 0 <= i < j < |w|
      ensures w[i].sample.key != w[j].sample.key
    {
      KeyInjectiveInShard(i, j, plan.cfg.shardId, plan.cfg.oomSamplePerShard, plan.cfg.oomShardCount);
    }
  }

  /** When no row's processing raises, every row's sample is written, in
      key order, and the statistics count every row once: the three counters
      add up to the row count, with one status per row. */
  lemma CompleteRun(d: Downloader, shardId: nat, net: Network, plan: Plan)
    requires forall k :: 0 <= k < |plan.rows| ==> Results(d, plan, net)[k].sample.Some?
    ensures var e := ReadyEffects(d, shardId, plan, net); var rs := Results(d, plan, net);
      && |e| == |plan.rows| + 4
      && (forall i :: 0 <= i < |plan.rows| ==> e[i + 1] == Write(rs[i].sample.value))
      && e[|e| - 2] == WriteStats(Tally(|plan.rows|, rs))
    ensures var st := Tally(|plan.rows|, Results(d, plan, net));
      && st.count == |plan.rows|
      && st.successes + st.failedToDownload + st.failedToResize == |plan.rows|
      && |st.statuses| == |plan.rows|
  {
    var rs := Results(d, plan, net);
    DoneWrites(rs);
    assert Consumed(rs) == |rs|;
    assert rs[..|rs|] == rs;
    forall k | 0 <= k < |rs|
      ensures rs[k].successes + rs[k].failedToDownload + rs[k].failedToResize == 1
    {
      RowCounters(d, plan, net, k);
    }
    TallySums(|plan.rows|, rs);
  }

  /** When the processing of row `k` raises (the earlier rows' did not),
      the rows before it are written, in key order, and nothing after it;
      the statistics then count the rows up to `k`, and count row `k`, whose
      exception was never recorded, under the status "success". */
  lemma AbortedRun(d: Downloader, shardId: nat, net: Network, plan: Plan, k: nat)
    requires InRange(plan.cfg, k, plan.rows) && Results(d, plan, net)[k].sample.None?
    requires forall j :: 0 <= j < k ==> Results(d, plan, net)[j].sample.Some?
    ensures var e := ReadyEffects(d, shardId, plan, net); var rs := Results(d, plan, net);
      && |e| == k + 4
      && (forall i :: 0 <= i < k ==> e[i + 1] == Write(rs[i].sample.value))
      && e[|e| - 2] == WriteStats(Tally(|plan.rows|, rs[..k + 1]))
    ensures StatusKey(Results(d, plan, net)[k]) == Success
  {
    var rs := Results(d, plan, net);
    assert forall j :: 0 <= j < k ==> rs[..k][j].sample.Some?;
    AllSampledMeaning(rs[..k]);
    ConsumedStops(rs, k);
    DoneWrites(rs);
    RowRaisedNoError(d, net, plan, k);
  }
}
