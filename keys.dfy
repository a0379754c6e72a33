/** The synthetic sample key: shard id and row index packed into one integer
    and written as a zero-padded decimal string (`compute_key`), and the
    width of the row-index part (`math.ceil(math.log10(number_sample_per_shard))`). */
module Keys {
  import opened Common

  function Pow10(n: nat): (r: nat)
    ensures r >= 1
  {
    if n == 0 then 1 else 10 * Pow10(n - 1)
  }

  lemma {:induction false} Pow10Add(a: nat, b: nat)
    ensures Pow10(a + b) == Pow10(a) * Pow10(b)
  {
    if a > 0 { Pow10Add(a - 1, b); }
  }

  predicate IsDigit(c: char)
  {
    '0' <= c <= '9'
  }

  predicate IsDigits(s: string)
  {
    forall i :: 0 <= i < |s| ==> IsDigit(s[i])
  }

  function DigitChar(d: nat): (c: char)
    requires d < 10
    ensures IsDigit(c)
  {
    ('0' as int + d) as char
  }

  function DigitValue(c: char): (d: nat)
    requires IsDigit(c)
    ensures d < 10
  {
    c as int - '0' as int
  }

  /** `"%d" % n` for a non-negative integer: decimal digits, most significant
      first, without a leading zero except for zero itself. */
  function ToDecimal(n: nat): (r: string)
    ensures |r| >= 1 && IsDigits(r)
    ensures |r| > 1 ==> r[0] != '0'
  {
    if n < 10 then [DigitChar(n)] else ToDecimal(n / 10) + [DigitChar(n % 10)]
  }

  /** The value of a string of decimal digits (`int(s)`, with `int("") == 0`). */
  function ParseDecimal(s: string): nat
    requires IsDigits(s)
  {
    if s == [] then 0 else 10 * ParseDecimal(s[..|s| - 1]) + DigitValue(s[|s| - 1])
  }

  /** Reading back the decimal text of `n` gives `n`. */
  lemma {:induction false} ParseToDecimal(n: nat)
    ensures ParseDecimal(ToDecimal(n)) == n
  {
    if n >= 10 {
      ParseToDecimal(n / 10);
      var s := ToDecimal(n);
      assert s[..|s| - 1] == ToDecimal(n / 10);
    }
  }

  /** `n` needs at most `w` digits exactly when it is below `10^w`. */
  lemma {:induction false} DecimalLength(n: nat, w: nat)
    requires w >= 1
    ensures |ToDecimal(n)| <= w <==> n < Pow10(w)
  {
    if n >= 10 {
      if w == 1 {
        assert |ToDecimal(n)| >= 2;
      } else {
        DecimalLength(n / 10, w - 1);
      }
    }
  }

  /** `c * k`: `k` copies of the character `c`. */
  function Repeat(c: char, k: nat): (r: string)
    ensures |r| == k && forall i :: 0 <= i < k ==> r[i] == c
  {
    if k == 0 then [] else [c] + Repeat(c, k - 1)
  }

  /** `s.rjust(width, "0")`: `s` with zeros in front, up to `width` characters. */
  function ZeroPad(s: string, width: nat): (r: string)
    ensures |r| == if |s| < width then width else |s|
    ensures r == Repeat('0', |r| - |s|) + s
  {
    if |s| < width then Repeat('0', width - |s|) + s else Repeat('0', 0) + s
  }

  /** Leading zeros do not change the value of a decimal string. */
  lemma {:induction false} ParseLeadingZeros(k: nat, s: string)
    requires IsDigits(s)
    ensures IsDigits(Repeat('0', k) + s)
    ensures ParseDecimal(Repeat('0', k) + s) == ParseDecimal(s)
  {
    var z := Repeat('0', k) + s;
    if s == [] {
      if k > 0 {
        assert z[..|z| - 1] == Repeat('0', k - 1) + s;
        ParseLeadingZeros(k - 1, s);
      }
    } else {
      var init := s[..|s| - 1];
      assert z[..|z| - 1] == Repeat('0', k) + init;
      ParseLeadingZeros(k, init);
    }
  }

  /** The integer the key encodes: `10**P * shard_id + key`. */
  function TrueKey(key: nat, shardId: nat, oomSamplePerShard: nat): nat
  {
    Pow10(oomSamplePerShard) * shardId + key
  }

  /** `compute_key`: `10**P * shard_id + key` formatted with `"{:0{P+S}d}"`,
      where `P` is `oom_sample_per_shard` and `S` is `oom_shard_count`. */
  function ComputeKey(key: nat, shardId: nat, oomSamplePerShard: nat, oomShardCount: nat): string
  {
    ZeroPad(ToDecimal(TrueKey(key, shardId, oomSamplePerShard)), oomSamplePerShard + oomShardCount)
  }

  /** The key is a string of decimal digits whose value is `10^P * shard_id +
      key`, and it is never shorter than `P + S` characters. */
  lemma KeyValue(key: nat, shardId: nat, p: nat, s: nat)
    ensures IsDigits(ComputeKey(key, shardId, p, s))
    ensures ParseDecimal(ComputeKey(key, shardId, p, s)) == TrueKey(key, shardId, p)
    ensures |ComputeKey(key, shardId, p, s)| >= p + s
  {
    var n := TrueKey(key, shardId, p);
    var d := ToDecimal(n);
    ParseToDecimal(n);
    ParseLeadingZeros(|ZeroPad(d, p + s)| - |d|, d);
  }

  lemma MulStep(q: int, x: int)
    ensures q * (x + 1) == q * x + q
  {
  }

  /** Multiplying by a non-negative number keeps the order. */
  lemma {:induction false} MulMono(q: nat, x: int, y: int)
    requires x <= y
    ensures q * x <= q * y
    decreases y - x
  {
    if x < y {
      MulMono(q, x + 1, y);
      MulStep(q, x);
    }
  }

  /** A number written with a "digit" below `b` over a "digit" below `a`, in
      base `a`, stays below `a * b`. */
  lemma BelowProduct(a: nat, b: int, hi: int, lo: int)
    requires hi < b && lo < a
    ensures a * hi + lo < a * b
  {
    MulStep(a, hi);
    MulMono(a, hi + 1, b);
  }

  /** Quotient and remainder in base `q` are unique. */
  lemma DivMod(q: int, a: int, b: int)
    requires q >= 1 && 0 <= b < q
    ensures (q * a + b) / q == a && (q * a + b) % q == b
  {
    var v := q * a + b;
    var d, m := v / q, v % q;
    assert v == q * d + m && 0 <= m < q;
    if a < d {
      BelowProduct(q, d, a, b);
      assert false;
    } else if d < a {
      BelowProduct(q, a, d, m);
      assert false;
    }
  }

  /** Within range (`key < 10^P`, `shard_id < 10^S`) the key has the fixed
      width `P + S`; the formatting never produces an empty string, so with
      `P + S == 0` the only in-range key, `"0"`, has one character. */
  lemma KeyWidth(key: nat, shardId: nat, p: nat, s: nat)
    requires key < Pow10(p) && shardId < Pow10(s)
    ensures |ComputeKey(key, shardId, p, s)| == if p + s == 0 then 1 else p + s
  {
    var n := TrueKey(key, shardId, p);
    Pow10Add(p, s);
    BelowProduct(Pow10(p), Pow10(s), shardId, key);
    if p + s >= 1 { DecimalLength(n, p + s); }
  }

  /** The shard id and row index read back from a key string. */
  function SplitKey(k: string, oomSamplePerShard: nat): (int, int)
    requires IsDigits(k)
  {
    var v := ParseDecimal(k);
    (v / Pow10(oomSamplePerShard), v % Pow10(oomSamplePerShard))
  }

  /** Decoding a key gives back its shard id and row index, whenever the row
      index fits in its `P` digits. */
  lemma SplitComputeKey(key: nat, shardId: nat, p: nat, s: nat)
    requires key < Pow10(p)
    ensures IsDigits(ComputeKey(key, shardId, p, s))
    ensures SplitKey(ComputeKey(key, shardId, p, s), p) == (shardId, key)
  {
    KeyValue(key, shardId, p, s);
    DivMod(Pow10(p), shardId, key);
  }

  /** Distinct (shard id, row index) pairs give distinct keys, for row indexes
      below `10^P`. */
  lemma KeyInjective(k1: nat, s1: nat, k2: nat, s2: nat, p: nat, s: nat)
    requires k1 < Pow10(p) && k2 < Pow10(p)
    requires (k1, s1) != (k2, s2)
    ensures ComputeKey(k1, s1, p, s) != ComputeKey(k2, s2, p, s)
  {
    SplitComputeKey(k1, s1, p, s);
    SplitComputeKey(k2, s2, p, s);
  }

  /** Within one shard distinct row indexes give distinct keys, whatever their
      size. */
  lemma KeyInjectiveInShard(k1: nat, k2: nat, shardId: nat, p: nat, s: nat)
    requires k1 != k2
    ensures ComputeKey(k1, shardId, p, s) != ComputeKey(k2, shardId, p, s)
  {
    KeyValue(k1, shardId, p, s);
    KeyValue(k2, shardId, p, s);
  }

  /** `math.ceil(math.log10(n))` in exact arithmetic: `None` where `log10`
      raises (`n <= 0`), otherwise the least `P` with `10^P >= n`. */
  function OrderOfMagnitude(n: int): (r: Option<nat>)
    ensures r.None? <==> n <= 0
    ensures r.Some? ==> n <= Pow10(r.value) && (r.value == 0 || Pow10(r.value - 1) < n)
    decreases n
  {
    if n <= 0 then None
    else if n == 1 then Some(0)
    else
      var q := OrderOfMagnitude((n + 9) / 10);
      Some(1 + q.value)
  }
}
