/** `download_image_with_retry`: up to `retries + 1` attempts, stopping at the
    first one that yields a stream, with an exponential sleep after every
    rate-limited attempt. The HTTP exchanges are an input sequence, one per
    attempt, and the sleeps are an output sequence. */
module Retry {
  import opened Common
  import opened Text
  import opened Fetch

  /** How urllib words the HTTP status 429 Too Many Requests (section 4 of
      RFC 6585) in the text of the error it raises. */
  const RateLimitText: string := "HTTP Error 429"

  /** `is_rate_limit_error(err)`: the error text mentions status 429. */
  function IsRateLimitError(err: string): (r: bool)
    ensures r <==> exists i: nat :: OccursAt(err, RateLimitText, i)
    ensures r ==> |err| >= |RateLimitText|
  {
    Contains(err, RateLimitText)
  }

  /** An attempt that failed with a rate-limit error. */
  predicate RateLimited(o: FetchOutcome)
  {
    o.Failed? && IsRateLimitError(o.error)
  }

  /** A recorded `time.sleep(exponential_backoff * timeout)`: after which
      attempt (counting from 0) it happened, and its length as the multiple
      `exponential_backoff` of the per-attempt `timeout`. */
  datatype Sleep = Sleep(afterAttempt: nat, timeouts: nat)

  function Pow2(n: nat): (r: nat)
    ensures r >= 1
  {
    if n == 0 then 1 else 2 * Pow2(n - 1)
  }

  /** The outcome of every attempt, had each been made. */
  function Attempts(responses: seq<Response>, token: Option<string>, disallowed: Option<set<string>>): (os: seq<FetchOutcome>)
    ensures |os| == |responses|
    ensures forall i :: 0 <= i < |os| ==> os[i] == DownloadImage(responses[i], token, disallowed)
  {
    seq(|responses|, i requires 0 <= i < |responses| => DownloadImage(responses[i], token, disallowed))
  }

  /** The indexes of the rate-limited attempts among `os`, in increasing order. */
  function RateLimitedIndices(os: seq<FetchOutcome>): seq<nat>
  {
    if os == [] then []
    else if RateLimited(os[|os| - 1]) then RateLimitedIndices(os[..|os| - 1]) + [|os| - 1]
    else RateLimitedIndices(os[..|os| - 1])
  }

  /** `RateLimitedIndices(os)` lists every rate-limited attempt of `os`, and
      only those, each once and in increasing order. */
  lemma {:induction false} RateLimitedIndicesMeaning(os: seq<FetchOutcome>)
    ensures var idx := RateLimitedIndices(os);
      && |idx| <= |os|
      && (forall k :: 0 <= k < |idx| ==> idx[k] < |os| && RateLimited(os[idx[k]]))
      && (forall k, l :: 0 <= k < l < |idx| ==> idx[k] < idx[l])
      && (forall i :: 0 <= i < |os| && RateLimited(os[i]) ==> i in idx)
  {
    if os != [] {
      var init := os[..|os| - 1];
      RateLimitedIndicesMeaning(init);
      assert forall i :: 0 <= i < |init| ==> init[i] == os[i];
    }
  }

  /** One more attempt adds its index when it is rate-limited. */
  lemma RateLimitedIndicesStep(os: seq<FetchOutcome>, i: nat)
    requires i < |os|
    ensures RateLimitedIndices(os[..i + 1]) ==
      if RateLimited(os[i]) then RateLimitedIndices(os[..i]) + [i] else RateLimitedIndices(os[..i])
  {
    assert os[..i + 1][..i] == os[..i];
  }

  /** The number of attempts the loop makes over the outcomes `os` of its
      `retries + 1` permitted attempts: up to and including the first one that
      yields a stream, or all of them. */
  function AttemptsMade(os: seq<FetchOutcome>): (n: nat)
    requires |os| >= 1
    ensures 1 <= n <= |os|
    ensures forall i :: 0 <= i < n - 1 ==> os[i].Failed?
    ensures n < |os| ==> os[n - 1].Fetched?
  {
    if |os| == 1 || os[0].Fetched? then 1
    else
      var n := AttemptsMade(os[1..]);
      assert forall i :: 1 <= i < n ==> os[i] == os[1..][i - 1];
      1 + n
  }

  /** Any count of attempts with only failures before its last one, and a
      stream at its last one unless it uses them all, is `AttemptsMade`. */
  lemma AttemptsMadeUnique(os: seq<FetchOutcome>, m: nat)
    requires 1 <= m <= |os|
    requires forall i :: 0 <= i < m - 1 ==> os[i].Failed?
    requires m < |os| ==> os[m - 1].Fetched?
    ensures m == AttemptsMade(os)
  {
  }

  /** What the loop returns: the stream of the first successful attempt, or
      the error of the last attempt when none succeeds. */
  function RetryResult(os: seq<FetchOutcome>): (r: FetchOutcome)
    requires |os| >= 1
    ensures r.Fetched? <==> exists i :: 0 <= i < |os| && os[i].Fetched?
    ensures forall i :: 0 <= i < |os| && os[i].Fetched? && (forall j :: 0 <= j < i ==> os[j].Failed?) ==> r == os[i]
    ensures r.Failed? ==> r == os[|os| - 1]
  {
    os[AttemptsMade(os) - 1]
  }

  /** The sleeps after the attempts `idx`: the k-th (from 0) for `2^(k+1)`
      timeouts. */
  function SleepsFor(idx: seq<nat>): (ss: seq<Sleep>)
    ensures |ss| == |idx|
  {
    if idx == [] then [] else SleepsFor(idx[..|idx| - 1]) + [Sleep(idx[|idx| - 1], Pow2(|idx|))]
  }

  lemma SleepsForSnoc(idx: seq<nat>, i: nat)
    ensures SleepsFor(idx + [i]) == SleepsFor(idx) + [Sleep(i, Pow2(|idx| + 1))]
  {
    assert (idx + [i])[..|idx|] == idx;
  }

  lemma {:induction false} SleepsForMeaning(idx: seq<nat>)
    ensures forall k :: 0 <= k < |idx| ==> SleepsFor(idx)[k] == Sleep(idx[k], Pow2(k + 1))
  {
    if idx != [] {
      SleepsForMeaning(idx[..|idx| - 1]);
    }
  }

  /** The sleeps the loop makes over the outcomes `os`. */
  function Backoffs(os: seq<FetchOutcome>): seq<Sleep>
    requires |os| >= 1
  {
    SleepsFor(RateLimitedIndices(os[..AttemptsMade(os)]))
  }

  /** The loop sleeps once after each rate-limited attempt it makes and after
      no other attempt, in the order of the attempts, the k-th time (from 0)
      for `2^(k+1)` timeouts: 2, 4, 8 and so on. */
  lemma BackoffsMeaning(os: seq<FetchOutcome>)
    requires |os| >= 1
    ensures var ss := Backoffs(os);
      && (forall k :: 0 <= k < |ss| ==>
            ss[k].timeouts == Pow2(k + 1) && ss[k].afterAttempt < AttemptsMade(os) && RateLimited(os[ss[k].afterAttempt]))
      && (forall k, l :: 0 <= k < l < |ss| ==> ss[k].afterAttempt < ss[l].afterAttempt)
      && (forall i :: 0 <= i < AttemptsMade(os) && RateLimited(os[i]) ==> exists k :: 0 <= k < |ss| && ss[k].afterAttempt == i)
  {
    var made := AttemptsMade(os);
    var idx := RateLimitedIndices(os[..made]);
    RateLimitedIndicesMeaning(os[..made]);
    SleepsForMeaning(idx);
    var ss := Backoffs(os);
    forall k | 0 <= k < |ss| ensures RateLimited(os[ss[k].afterAttempt]) {
      assert os[..made][idx[k]] == os[idx[k]];
    }
    forall i | 0 <= i < made && RateLimited(os[i]) ensures exists k :: 0 <= k < |ss| && ss[k].afterAttempt == i {
      assert os[..made][i] == os[i];
      assert ss[IndexIn(idx, i)].afterAttempt == i;
    }
  }

  /** The position of `x` in `xs`. */
  function IndexIn(xs: seq<nat>, x: nat): (k: nat)
    requires x in xs
    ensures k < |xs| && xs[k] == x
  {
    if xs[0] == x then 0 else 1 + IndexIn(xs[1..], x)
  }

  /** The attempt loop, where `attempts[i]` is what `download_image` gives on
      the i-th call and `retries + 1` attempts are permitted. It makes
      `AttemptsMade` attempts, returns `RetryResult` (the stream of the first
      successful attempt, or the error of the last attempt) and sleeps
      `Backoffs`. */
  method DownloadImageWithRetry(attempts: seq<FetchOutcome>, retries: nat)
    returns (result: FetchOutcome, made: nat, sleeps: seq<Sleep>)
    requires retries < |attempts|
    ensures var os := attempts[..retries + 1];
      made == AttemptsMade(os) && result == RetryResult(os) && sleeps == Backoffs(os)
  {
    var exponentialBackoff: nat := 2;
    sleeps := [];
    result := Failed([]);  // overwritten by the first of at least one attempt
    var i := 0;
    while i < retries + 1
      invariant 0 <= i <= retries + 1
      invariant forall j :: 0 <= j < i ==> attempts[j].Failed?
      invariant i > 0 ==> result == attempts[i - 1]
      invariant exponentialBackoff == Pow2(|sleeps| + 1)
      invariant sleeps == SleepsFor(RateLimitedIndices(attempts[..i]))
    {
      var outcome := attempts[i];
      RateLimitedIndicesStep(attempts, i);
      if outcome.Failed? && IsRateLimitError(outcome.error) {
        SleepsForSnoc(RateLimitedIndices(attempts[..i]), i);
        sleeps := sleeps + [Sleep(i, exponentialBackoff)];
        exponentialBackoff := exponentialBackoff * 2;
        result := outcome;
        i := i + 1;
        continue;
      }
      if outcome.Fetched? {
        result, made := outcome, i + 1;
        SameAsSpec(attempts, retries, made);
        return;
      }
      result := outcome;
      i := i + 1;
    }
    made := retries + 1;
    SameAsSpec(attempts, retries, made);
  }

  /** A count of attempts with only failures before its last one, and a
      stream at its last one unless it uses them all, is the count
      `AttemptsMade` and sees the same attempts. */
  lemma SameAsSpec(attempts: seq<FetchOutcome>, retries: nat, made: nat)
    requires retries < |attempts| && 1 <= made <= retries + 1
    requires forall i :: 0 <= i < made - 1 ==> attempts[i].Failed?
    requires made < retries + 1 ==> attempts[made - 1].Fetched?
    ensures var os := attempts[..retries + 1];
      && made == AttemptsMade(os)
      && RetryResult(os) == attempts[made - 1]
      && Backoffs(os) == SleepsFor(RateLimitedIndices(attempts[..made]))
  {
    var os := attempts[..retries + 1];
    AttemptsMadeUnique(os, made);
    assert os[..made] == attempts[..made];
  }

  /** The indexes of the rate-limited attempts among three rate-limited
      attempts and a fourth that is not. */
  lemma ThreeLimitedIndices(os: seq<FetchOutcome>)
    requires |os| == 4 && RateLimited(os[0]) && RateLimited(os[1]) && RateLimited(os[2]) && !RateLimited(os[3])
    ensures RateLimitedIndices(os) == [0, 1, 2]
  {
    RateLimitedIndicesStep(os, 0);
    RateLimitedIndicesStep(os, 1);
    RateLimitedIndicesStep(os, 2);
    RateLimitedIndicesStep(os, 3);
    assert os[..0] == [] && os[..4] == os;
  }

  /** Three rate-limited attempts and then a success, with three retries: four
      attempts, the stream of the fourth, and sleeps of 2, 4 and 8 timeouts. */
  method BackoffScenario(body: seq<byte>) returns (result: FetchOutcome, made: nat, sleeps: seq<Sleep>)
    ensures result == Fetched(body) && made == 4
    ensures sleeps == [Sleep(0, 2), Sleep(1, 4), Sleep(2, 8)]
  {
    var limited := Failed("HTTP Error 429: Too Many Requests");
    assert OccursAt(limited.error, RateLimitText, 0);
    var os := [limited, limited, limited, Fetched(body)];
    result, made, sleeps := DownloadImageWithRetry(os, 3);
    assert AttemptsMade(os) == 4;
    ThreeLimitedIndices(os);
    assert os[..4] == os;
    SleepsForMeaning([0, 1, 2]);
  }
}
