/** The single-process distributor: a pass of the downloader over the shards,
    collecting the ones that failed, then at most `max_shard_retry` further
    passes over the failed ones; and the batcher that cuts the shards into
    sub-jobs for the pyspark distributor. The downloader is a parameter: for
    every shard it returns a status, and the shard itself as the row to
    retry (as `Shard.Call` does). */
module Distributor {
  import opened Common

  /** A downloader's status for each shard. */
  type Download<!T> = T -> bool

  /** The shards the downloader fails on, in their order. */
  function Failed<T>(items: seq<T>, dl: Download<T>): (failed: seq<T>)
    ensures |failed| <= |items|
  {
    if items == [] then []
    else
      var rest := Failed(items[..|items| - 1], dl);
      var x := items[|items| - 1];
      if dl(x) then rest else rest + [x]
  }

  /** `run(gen)`: every shard through the downloader, appending the row of
      each one whose status is `False`. */
  method Run<T>(items: seq<T>, dl: Download<T>) returns (failed: seq<T>)
    ensures failed == Failed(items, dl)
  {
    failed := [];
    var i := 0;
    while i < |items|
      invariant i <= |items|
      invariant failed == Failed(items[..i], dl)
    {
      assert items[..i + 1][..i] == items[..i];
      var status := dl(items[i]);
      if !status {
        failed := failed + [items[i]];
      }
      i := i + 1;
    }
    assert items[..i] == items;
  }

  /** A pass keeps exactly the shards it fails on: a shard is among them as
      often as it is among the input if it fails, and not at all if it
      succeeds. */
  lemma {:induction false} FailedMeaning<T>(items: seq<T>, dl: Download<T>, x: T)
    ensures multiset(Failed(items, dl))[x] == if dl(x) then 0 else multiset(items)[x]
  {
    if items != [] {
      var init := items[..|items| - 1];
      FailedMeaning(init, dl, x);
      assert items == init + [items[|items| - 1]];
    }
  }

  /** The shards left after the retries, starting from `failed` with `i`
      passes done, when `rounds(j)` is the downloader of pass `j` (pass 0 is
      the first, over the reader; pass `j + 1` is the retry `j`). */
  function Retried<T>(failed: seq<T>, rounds: nat -> Download<T>, i: nat, maxRetry: nat): seq<T>
    decreases maxRetry - i
  {
    if i >= maxRetry || failed == [] then failed
    else Retried(Failed(failed, rounds(i + 1)), rounds, i + 1, maxRetry)
  }

  /** The number of retry passes made from `failed` with `i` done. */
  function RetryPasses<T>(failed: seq<T>, rounds: nat -> Download<T>, i: nat, maxRetry: nat): (n: nat)
    decreases maxRetry - i
  {
    if i >= maxRetry || failed == [] then i
    else RetryPasses(Failed(failed, rounds(i + 1)), rounds, i + 1, maxRetry)
  }

  /** `retrier(run, failed_shards, max_shard_retry)`: at most `maxRetry`
      passes of the downloader over the shards still failed, stopping early
      once none is left. Returns what is still failed afterwards (what the
      final message reports) and the number of passes made. */
  method Retrier<T>(failed0: seq<T>, rounds: nat -> Download<T>, maxRetry: nat) returns (failed: seq<T>, passes: nat)
    ensures failed == Retried(failed0, rounds, 0, maxRetry)
    ensures passes == RetryPasses(failed0, rounds, 0, maxRetry)
  {
    failed := failed0;
    var i := 0;
    while i < maxRetry
      invariant i <= maxRetry
      invariant Retried(failed, rounds, i, maxRetry) == Retried(failed0, rounds, 0, maxRetry)
      invariant RetryPasses(failed, rounds, i, maxRetry) == RetryPasses(failed0, rounds, 0, maxRetry)
    {
      if |failed| == 0 {
        break;
      }
      failed := Run(failed, rounds(i + 1));
      i := i + 1;
    }
    passes := i;
  }

  /** The retries stop as soon as nothing is left to retry, and otherwise
      make all `maxRetry` passes. */
  lemma {:induction false} RetriesBounded<T>(failed: seq<T>, rounds: nat -> Download<T>, i: nat, maxRetry: nat)
    requires i <= maxRetry
    ensures var n := RetryPasses(failed, rounds, i, maxRetry);
      && i <= n <= maxRetry
      && (n < maxRetry ==> Retried(failed, rounds, i, maxRetry) == [])
    decreases maxRetry - i
  {
    if i < maxRetry && failed != [] {
      var next := Failed(failed, rounds(i + 1));
      assert RetryPasses(failed, rounds, i, maxRetry) == RetryPasses(next, rounds, i + 1, maxRetry);
      assert Retried(failed, rounds, i, maxRetry) == Retried(next, rounds, i + 1, maxRetry);
      RetriesBounded(next, rounds, i + 1, maxRetry);
    }
  }

  /** A shard is still failed after the retries only if it was failed
      before them and every retry pass made failed it; and never more often
      than before. */
  lemma {:induction false} RetriedStillFailing<T>(failed: seq<T>, rounds: nat -> Download<T>, i: nat, maxRetry: nat, x: T)
    requires x in Retried(failed, rounds, i, maxRetry)
    ensures x in failed
    ensures forall j :: i < j <= RetryPasses(failed, rounds, i, maxRetry) ==> !rounds(j)(x)
    ensures multiset(Retried(failed, rounds, i, maxRetry))[x] <= multiset(failed)[x]
    decreases maxRetry - i
  {
    if i < maxRetry && failed != [] {
      var next := Failed(failed, rounds(i + 1));
      var n := RetryPasses(next, rounds, i + 1, maxRetry);
      assert Retried(failed, rounds, i, maxRetry) == Retried(next, rounds, i + 1, maxRetry);
      assert RetryPasses(failed, rounds, i, maxRetry) == n;
      RetriedStillFailing(next, rounds, i + 1, maxRetry, x);
      FailedMeaning(failed, rounds(i + 1), x);
      assert multiset(next)[x] > 0;
      forall j | i < j <= n
        ensures !rounds(j)(x)
      {
        if j == i + 1 {
          assert !rounds(i + 1)(x);
        }
      }
    }
  }

  /** `single_process_distributor`: a first pass over the reader's shards,
      then the retries over those that failed. */
  method SingleProcess<T>(reader: seq<T>, rounds: nat -> Download<T>, maxRetry: nat) returns (failed: seq<T>, passes: nat)
    ensures failed == Retried(Failed(reader, rounds(0)), rounds, 0, maxRetry)
    ensures passes == RetryPasses(Failed(reader, rounds(0)), rounds, 0, maxRetry)
  {
    var first := Run(reader, rounds(0));
    failed, passes := Retrier(first, rounds, maxRetry);
  }

  /** After the single-process distributor, a shard is still failed only if
      the reader gave it and the first pass and every retry pass failed it. */
  lemma SingleProcessFailures<T>(reader: seq<T>, rounds: nat -> Download<T>, maxRetry: nat, x: T)
    requires x in Retried(Failed(reader, rounds(0)), rounds, 0, maxRetry)
    ensures x in reader
    ensures forall j :: 0 <= j <= RetryPasses(Failed(reader, rounds(0)), rounds, 0, maxRetry) ==> !rounds(j)(x)
  {
    var first := Failed(reader, rounds(0));
    RetriedStillFailing(first, rounds, 0, maxRetry, x);
    FailedMeaning(reader, rounds(0), x);
  }

  // ------------------------------------------------------------------ batcher

  /** The batches of `items` of size `size`, the last one possibly shorter. */
  function Chunks<T>(items: seq<T>, size: nat): (bs: seq<seq<T>>)
    requires size >= 1
    decreases |items|
  {
    if items == [] then []
    else if |items| <= size then [items]
    else [items[..size]] + Chunks(items[size..], size)
  }

  /** The items of the batches, in order. */
  function Flatten<T>(bs: seq<seq<T>>): seq<T>
  {
    if bs == [] then [] else bs[0] + Flatten(bs[1..])
  }

  /** `batcher(iterable, batch_size)`, consumed in full: `None` where
      `islice` raises for a negative stop (a size below 1 with at least one
      item; with no item, the loop never asks for a batch). */
  function Batches<T>(items: seq<T>, size: int): (r: Option<seq<seq<T>>>)
    ensures r.None? <==> items != [] && size < 1
  {
    if items == [] then Some([])
    else if size < 1 then None
    else Some(Chunks(items, size))
  }

  /** The batches give back the items, in order. */
  lemma {:induction false} ChunksFlatten<T>(items: seq<T>, size: nat)
    requires size >= 1
    ensures Flatten(Chunks(items, size)) == items
    decreases |items|
  {
    if |items| > size {
      var rest := items[size..];
      ChunksFlatten(rest, size);
      var bs := Chunks(items, size);
      assert bs[1..] == Chunks(rest, size);
      assert items[..size] + rest == items;
    }
  }

  /** Each batch is non-empty and at most `size` long, all but the last
      exactly `size`. */
  lemma {:induction false} ChunksSizes<T>(items: seq<T>, size: nat)
    requires size >= 1
    ensures var bs := Chunks(items, size);
      && (forall i :: 0 <= i < |bs| ==> 1 <= |bs[i]| <= size)
      && (forall i :: 0 <= i < |bs| - 1 ==> |bs[i]| == size)
    decreases |items|
  {
    if |items| > size {
      var rest := items[size..];
      ChunksSizes(rest, size);
      var bs := Chunks(items, size);
      assert forall i :: 1 <= i < |bs| ==> bs[i] == Chunks(rest, size)[i - 1];
    }
  }

  /** There are `|items| / size` batches, rounded up: the fewest batches of
      `size` that hold every item. */
  lemma {:induction false} ChunksCount<T>(items: seq<T>, size: nat)
    requires size >= 1
    ensures var n := |Chunks(items, size)|;
      |items| <= n * size && (n == 0 || (n - 1) * size < |items|)
    decreases |items|
  {
    if |items| > size {
      var rest := items[size..];
      ChunksCount(rest, size);
      var m := |Chunks(rest, size)|;
      assert |Chunks(items, size)| == m + 1;
      assert (m + 1) * size == m * size + size;
      assert m >= 1;
      assert m * size == (m - 1) * size + size;
    }
  }

  /** The batcher as the generator runs it: each batch is the next item and
      up to `size - 1` more. */
  method Batcher<T>(items: seq<T>, size: int) returns (r: Option<seq<seq<T>>>)
    ensures r == Batches(items, size)
  {
    if items == [] {
      return Some([]);
    }
    if size < 1 {
      return None;
    }
    var bs: seq<seq<T>> := [];
    var i := 0;
    assert items[i..] == items;
    while i < |items|
      invariant i <= |items|
      invariant bs + Chunks(items[i..], size) == Chunks(items, size)
      decreases |items| - i
    {
      var rest := items[i..];
      if |rest| <= size {
        bs := bs + [rest];
        i := |items|;
      } else {
        bs := bs + [rest[..size]];
        i := i + size;
        assert items[i..] == rest[size..];
      }
    }
    assert Chunks(items[i..], size) == [];
    assert bs == Chunks(items, size);
    return Some(bs);
  }
}
