/**
 Retry delays: normalizeRetry (internal/service/campaign/service.go), the millisecond truncation in
 TriggerCall, and computeNextAttempt (internal/worker/call/worker.go). Durations are int64 nanoseconds.
 The jitter product is taken over the reals; its truncation to an integer is kept.
 */
module Backoff {
  const MIN64 := -0x8000_0000_0000_0000
  const MAX64 := 0x7fff_ffff_ffff_ffff
  const MS := 1_000_000
  const SECOND := 1_000_000_000

  predicate IsInt64(x: int) {
    MIN64 <= x <= MAX64
  }

  /** Two's complement wrap-around. */
  function Wrap(x: int): (r: int)
    ensures IsInt64(r)
    ensures IsInt64(x) ==> r == x
  {
    (x - MIN64) % 0x1_0000_0000_0000_0000 + MIN64
  }

  function Pow2(k: nat): nat {
    if k == 0 then 1 else 2 * Pow2(k - 1)
  }

  function Min(a: int, b: int): int {
    if a <= b then a else b
  }

  // ---------- Policies ----------

  datatype Policy = Policy(maxAttempts: int, base: int, max: int, jitter: real)

  function NormalizeRetry(p: Policy): Policy {
    var base := if p.base <= 0 then 2 * SECOND else p.base;
    var max := if p.max <= 0 then 120 * SECOND else p.max;
    Policy(if p.maxAttempts <= 0 then 5 else p.maxAttempts, base, if max < base then base else max, p.jitter)
  }

  /** Fields that are given are kept, but for a maximum below the base; missing ones are 5 attempts, 2 s and 2 min. */
  lemma NormalizeKeeps(p: Policy)
    ensures var q := NormalizeRetry(p);
      && q.jitter == p.jitter
      && (p.maxAttempts > 0 ==> q.maxAttempts == p.maxAttempts)
      && (p.maxAttempts <= 0 ==> q.maxAttempts == 5)
      && (p.base > 0 ==> q.base == p.base)
      && (p.base <= 0 ==> q.base == 2_000_000_000)
      && (p.max > 0 && p.max >= q.base ==> q.max == p.max)
      && (p.max <= 0 && q.base <= 120_000_000_000 ==> q.max == 120_000_000_000)
      && ((if p.max > 0 then p.max else 120_000_000_000) < q.base ==> q.max == q.base)
  {
  }

  predicate Normalized(p: Policy) {
    0 < p.base <= p.max && 0 < p.maxAttempts
  }

  lemma NormalizeIsNormal(p: Policy)
    ensures Normalized(NormalizeRetry(p))
    ensures NormalizeRetry(p) == p <==> Normalized(p)
    ensures NormalizeRetry(NormalizeRetry(p)) == NormalizeRetry(p)
  {
  }

  /** time.Duration.Milliseconds: what is stored and sent. */
  function StoredMs(d: int): int {
    if d >= 0 then d / MS else -(-d / MS)
  }

  // ---------- The delay ----------

  function WorkerBase(baseMs: int): int {
    var base := Wrap(baseMs * MS);
    if base <= 0 then 2 * SECOND else base
  }

  function WorkerMax(maxMs: int): int {
    var max := Wrap(maxMs * MS);
    if max <= 0 then 120 * SECOND else max
  }

  /** base doubled k times. */
  function Scaled(base: int, k: nat): int {
    if k == 0 then base else 2 * Scaled(base, k - 1)
  }

  lemma {:induction false} ScaledIsProduct(base: int, k: nat)
    ensures Scaled(base, k) == Pow2(k) * base
  {
    if k > 0 {
      ScaledIsProduct(base, k - 1);
      assert Pow2(k) * base == 2 * (Pow2(k - 1) * base);
    }
  }

  /** time.Duration(math.Pow(2, attempt-1)) * base before wrap-around. From 2^63 on the conversion of the power
      to an integer depends on the machine: `huge`. */
  function Product(base: int, attempt: int, huge: int): int {
    if attempt < 1 then 0 else if attempt <= 63 then Scaled(base, attempt - 1) else huge * base
  }

  /** The capped exponential, as int64 arithmetic gives it. */
  function Unjittered(base: int, max: int, attempt: int, huge: int): int {
    var delay := Wrap(Product(base, attempt, huge));
    if delay > max then max else delay
  }

  /** Conversion of a float to an integer: towards zero. */
  function Truncate(x: real): int {
    if x >= 0.0 then x.Floor else -((-x).Floor)
  }

  /** The jitter of a delay, before it is cut to whole nanoseconds. */
  function Share(delay: int, jitter: real, u: real): real {
    delay as real * (u * jitter - jitter / 2.0)
  }

  /** The jitter step; u is the random number in [0, 1). */
  function Jittered(delay: int, base: int, jitter: real, u: real): int {
    if jitter <= 0.0 then delay
    else
      var moved := Wrap(delay + Truncate(Share(delay, jitter, u)));
      if moved < base then base else moved
  }

  /** The delay that a failed attempt waits. */
  function Delay(baseMs: int, maxMs: int, jitter: real, attempt: int, huge: int, u: real): int {
    var base := WorkerBase(baseMs);
    Jittered(Unjittered(base, WorkerMax(maxMs), attempt, huge), base, jitter, u)
  }

  /** computeNextAttempt. */
  method ComputeNextAttempt(baseMs: int, maxMs: int, jitter: real, attempt: int, now: int, u: real, huge: int)
    returns (next: int)
    ensures next == now + Delay(baseMs, maxMs, jitter, attempt, huge, u)
  {
    var base := Wrap(baseMs * MS);
    if base <= 0 {
      base := 2 * SECOND;
    }
    var maxDelay := Wrap(maxMs * MS);
    if maxDelay <= 0 {
      maxDelay := 120 * SECOND;
    }
    var delay := Exponential(base, attempt, huge);
    if delay > maxDelay {
      delay := maxDelay;
    }
    if jitter > 0.0 {
      delay := Jitter(delay, base, jitter, u);
    }
    return now + delay;
  }

  /** The product of the power and the base, before the cap. */
  method Exponential(base: int, attempt: int, huge: int) returns (delay: int)
    ensures delay == Wrap(Product(base, attempt, huge))
  {
    var exponent := huge;
    if attempt < 1 {
      exponent := 0;
    } else if attempt <= 63 {
      exponent := PowerOfTwo(attempt - 1);
      ScaledIsProduct(base, attempt - 1);
    }
    delay := Wrap(exponent * base);
  }

  method Jitter(capped: int, base: int, jitter: real, u: real) returns (delay: int)
    requires jitter > 0.0
    ensures delay == Jittered(capped, base, jitter, u)
  {
    delay := capped + Truncate(capped as real * (u * jitter - jitter / 2.0));
    delay := Wrap(delay);
    if delay < base {
      delay := base;
    }
  }

  method PowerOfTwo(k: nat) returns (r: nat)
    ensures r == Pow2(k)
  {
    r := 1;
    for i := 0 to k
      invariant r == Pow2(i)
    {
      r := 2 * r;
    }
  }

  // ---------- Exactness ----------

  lemma {:induction false} ScaledGrows(base: int, a: nat, b: nat)
    requires 0 < base && a <= b
    ensures base <= Scaled(base, a) <= Scaled(base, b)
    decreases b
  {
    if a < b {
      ScaledGrows(base, a, b - 1);
    } else if a > 0 {
      ScaledGrows(base, a - 1, b - 1);
    }
  }

  lemma {:induction false} ScaledBelow(less: int, base: int, k: nat)
    requires 0 <= less <= base
    ensures 0 <= Scaled(less, k) <= Scaled(base, k)
  {
    if k > 0 {
      ScaledBelow(less, base, k - 1);
    }
  }

  lemma {:induction false} Pow2Add(a: nat, b: nat)
    ensures Pow2(a + b) == Pow2(a) * Pow2(b)
    decreases a
  {
    if a > 0 {
      Pow2Add(a - 1, b);
      assert Pow2(a + b) == 2 * Pow2(a - 1 + b);
    }
  }

  lemma Pow2Of63()
    ensures Pow2(63) == 0x8000_0000_0000_0000
  {
    assert Pow2(7) == 128;
    Pow2Add(7, 7);
    Pow2Add(14, 14);
    Pow2Add(28, 28);
    Pow2Add(56, 7);
  }

  /** Past attempt 63 the doubled base is over the int64 range, whatever the base. */
  lemma LateOverflows(base: int, attempt: nat)
    requires 0 < base && attempt > 63
    ensures Scaled(base, attempt - 1) > MAX64
  {
    ScaledGrows(base, 63, attempt - 1);
    ScaledBelow(1, base, 63);
    ScaledIsProduct(1, 63);
    Pow2Of63();
  }

  /** One attempt's delay is the capped exponential exactly when the doubled base fits in 63 bits, or the product
      has wrapped to a value that the cap replaces all the same. See PolicyIsExact for all attempts of a policy. */
  lemma UnjitteredExactly(base: int, max: int, attempt: int, huge: int)
    requires 0 < base <= max <= MAX64 && 1 <= attempt
    ensures var exact := Scaled(base, attempt - 1);
      Unjittered(base, max, attempt, huge) == Min(exact, max)
      <==> exact <= MAX64 || Wrap(Product(base, attempt, huge)) >= max
  {
    ScaledGrows(base, 0, attempt - 1);
    if attempt > 63 {
      LateOverflows(base, attempt);
    }
  }

  /** The first doubling that leaves the int64 range. */
  lemma {:induction false} FirstOverflow(base: int, n: nat) returns (k: nat)
    requires 2 <= base <= MAX64 && Scaled(base, n) > MAX64
    ensures 0 < k <= n && k <= 62 && MAX64 < Scaled(base, k) <= 2 * MAX64
    decreases n
  {
    if Scaled(base, n - 1) > MAX64 {
      k := FirstOverflow(base, n - 1);
    } else {
      k := n;
      if n > 62 {
        ScaledGrows(base, 62, n - 1);
        ScaledBelow(2, base, 62);
        ScaledIsProduct(2, 62);
        Pow2Of63();
        assert Pow2(62) * 2 == Pow2(63);
      }
    }
  }

  /** The first delay that overflows is negative. */
  lemma FirstOverflowIsNegative(base: int, max: int, k: nat, huge: int)
    requires 0 < base <= max <= MAX64 && 0 < k <= 62 && MAX64 < Scaled(base, k) <= 2 * MAX64
    ensures Unjittered(base, max, k + 1, huge) < 0
  {
    WrapOnce(Scaled(base, k));
  }

  lemma WrapOnce(x: int)
    requires MAX64 < x <= 2 * MAX64
    ensures Wrap(x) == x - 0x1_0000_0000_0000_0000
  {
  }

  /** A policy's first n delays are all as they should be exactly if the last doubled base fits in an int64. */
  lemma PolicyIsExact(base: int, max: int, n: nat, huge: int)
    requires 2 <= base <= max <= MAX64 && n > 0
    ensures (forall a :: 1 <= a <= n ==> Unjittered(base, max, a, huge) == Min(Scaled(base, a - 1), max))
       <==> Scaled(base, n - 1) <= MAX64
  {
    if Scaled(base, n - 1) <= MAX64 {
      forall a | 1 <= a <= n ensures Unjittered(base, max, a, huge) == Min(Scaled(base, a - 1), max) {
        ScaledGrows(base, a - 1, n - 1);
        UnjitteredExactly(base, max, a, huge);
      }
    } else {
      var k := FirstOverflow(base, n - 1);
      FirstOverflowIsNegative(base, max, k, huge);
      assert Unjittered(base, max, k + 1, huge) != Min(Scaled(base, k + 1 - 1), max);
    }
  }

  /** While the doubled base fits, the delay lies between base and max. */
  lemma UnjitteredBounds(base: int, max: int, attempt: int, huge: int)
    requires 0 < base <= max <= MAX64 && 1 <= attempt
    requires Scaled(base, attempt - 1) <= MAX64
    ensures base <= Unjittered(base, max, attempt, huge) <= max
  {
    UnjitteredExactly(base, max, attempt, huge);
    ScaledGrows(base, 0, attempt - 1);
  }

  /** And it does not shrink from one attempt to a later one. */
  lemma UnjitteredMonotone(base: int, max: int, a: int, b: int, huge: int)
    requires 0 < base <= max <= MAX64 && 1 <= a <= b
    requires Scaled(base, b - 1) <= MAX64
    ensures Unjittered(base, max, a, huge) <= Unjittered(base, max, b, huge)
  {
    ScaledGrows(base, a - 1, b - 1);
    UnjitteredExactly(base, max, a, huge);
    UnjitteredExactly(base, max, b, huge);
  }

  /** From attempt 59 until the conversion overflows too, a base of 1 ms gives no delay at all, whatever the cap. A
      call gets there only if its budget survives the retry topic: see CallWorker.LiteralRetryWaitsBase. */
  lemma OverflowGivesNoDelay(max: int, attempt: int, huge: int)
    requires MS <= max <= MAX64 && 59 <= attempt <= 63
    ensures Unjittered(MS, max, attempt, huge) == 0
    ensures Delay(1, 1, 0.0, attempt, huge, 0.0) == 0
  {
    var turns := ScaledInTurns(attempt - 1);
    WholeTurns(turns);
  }

  /** 1 ms doubled 58 times or more is a multiple of 2^64. */
  lemma {:induction false} ScaledInTurns(k: nat) returns (turns: int)
    requires k >= 58
    ensures Scaled(MS, k) == turns * 0x1_0000_0000_0000_0000
    decreases k
  {
    if k == 58 {
      Pow2Of63();
      Pow2Add(58, 5);
      assert Pow2(5) == 32;
      assert Pow2(58) * 32 == 0x8000_0000_0000_0000;
      ScaledIsProduct(MS, 58);
      turns := 15_625;
    } else {
      var half := ScaledInTurns(k - 1);
      turns := 2 * half;
    }
  }

  /** Where the conversion of 2^63 and above gives the least int64, every attempt after the 63rd of a policy in
      whole milliseconds is retried at once. */
  lemma NoDelayAfterSixtyThree(ms: nat, max: int, attempt: int)
    requires attempt > 63 && 0 <= max
    ensures Unjittered(ms * MS, max, attempt, MIN64) == 0
  {
    var turns := ms * 500_000;
    assert MIN64 * (ms * MS) == -(turns * 0x1_0000_0000_0000_0000);
    WholeTurns(-turns);
  }

  lemma WholeTurns(turns: int)
    ensures Wrap(turns * 0x1_0000_0000_0000_0000) == 0
  {
  }

  // ---------- Jitter ----------

  lemma TruncateBelow(x: real, y: real)
    requires x <= y && 0.0 <= y
    ensures Truncate(x) as real <= y
  {
  }

  /** Half the jitter's share of a delay: the most it can add or take away. */
  function HalfShare(delay: int, jitter: real): real {
    delay as real * (jitter / 2.0)
  }

  /** The largest delay that jitter can make of a capped one: delay * (1 + J/2). */
  function Stretched(delay: int, jitter: real): (r: real)
    ensures r == delay as real * (1.0 + jitter / 2.0)
  {
    delay as real + HalfShare(delay, jitter)
  }

  lemma NotNegative(a: real, b: real)
    requires a >= 0.0 && b >= 0.0
    ensures a * b >= 0.0
  {
  }

  lemma ShareBounds(delay: int, jitter: real, u: real)
    requires 0 < delay && jitter > 0.0 && 0.0 <= u < 1.0
    ensures 0.0 <= HalfShare(delay, jitter)
    ensures -HalfShare(delay, jitter) <= Share(delay, jitter, u) <= HalfShare(delay, jitter)
  {
    var d, h := delay as real, jitter / 2.0;
    NotNegative(d, h);
    NotNegative(u, jitter);
    NotNegative(1.0 - u, jitter);
    var f := u * jitter - h;
    assert -h <= f <= h;
    NotNegative(d, h - f);
    NotNegative(d, f + h);
  }

  /** A shift by at most half, where the sum stays below the int64 maximum, does not wrap. */
  lemma ShiftFits(delay: int, x: real, half: real)
    requires 0 < delay && 0.0 <= half && -half <= x <= half && delay as real + half <= MAX64 as real
    ensures Wrap(delay + Truncate(x)) == delay + Truncate(x)
    ensures Truncate(x) as real <= half
  {
    TruncateBelow(x, half);
    TruncateBelow(-x, half);
    assert Truncate(-x) == -Truncate(x);
    assert IsInt64(delay + Truncate(x));
  }

  /** With jitter J the delay lies in [base, delay * (1 + J/2)], as long as that range fits in int64. It may
      exceed the policy's max: the cap is taken before the jitter. */
  lemma JitterBounds(delay: int, base: int, jitter: real, u: real)
    requires 0 < base <= delay && jitter > 0.0 && 0.0 <= u < 1.0
    requires Stretched(delay, jitter) <= MAX64 as real
    ensures base <= Jittered(delay, base, jitter, u)
    ensures Jittered(delay, base, jitter, u) as real <= Stretched(delay, jitter)
  {
    ShareBounds(delay, jitter, u);
    ShiftFits(delay, Share(delay, jitter, u), HalfShare(delay, jitter));
  }

  /** The jittered delay is the stretched or shrunk one to within a nanosecond, towards the delay; or the base, if that
      is more. */
  lemma JitterExactly(delay: int, base: int, jitter: real, u: real)
    requires 0 < base <= delay && jitter > 0.0 && 0.0 <= u < 1.0
    requires Stretched(delay, jitter) <= MAX64 as real
    ensures var exact := delay as real * (1.0 + (u * jitter - jitter / 2.0));
      var d := Jittered(delay, base, jitter, u);
      && d >= base
      && (d == base ==> exact < base as real + 1.0)
      && (d > base ==> -1.0 < d as real - exact < 1.0)
  {
    ShareBounds(delay, jitter, u);
    ShiftFits(delay, Share(delay, jitter, u), HalfShare(delay, jitter));
    assert delay as real * (1.0 + (u * jitter - jitter / 2.0)) == delay as real + Share(delay, jitter, u);
    TruncateNear(Share(delay, jitter, u));
  }

  lemma TruncateNear(x: real)
    ensures -1.0 < Truncate(x) as real - x < 1.0
  {
  }

  // ---------- Sums ----------

  /** The total unjittered delay of n attempts. */
  function DelaySum(base: int, max: int, n: nat, huge: int): int {
    if n == 0 then 0 else DelaySum(base, max, n - 1, huge) + Unjittered(base, max, n, huge)
  }

  /** base + 2 base + 4 base + ..., k terms. */
  function Doubling(base: int, k: nat): int {
    if k == 0 then 0 else Doubling(base, k - 1) + Scaled(base, k - 1)
  }

  lemma {:induction false} DoublingIs(base: int, k: nat)
    ensures Doubling(base, k) == (Pow2(k) - 1) * base
  {
    if k > 0 {
      DoublingIs(base, k - 1);
      ScaledIsProduct(base, k - 1);
      OneDoubled(Pow2(k - 1), base);
    }
  }

  lemma OneDoubled(p: int, b: int)
    ensures (p - 1) * b + p * b == (2 * p - 1) * b
  {
  }

  function Repeated(x: int, times: nat): int {
    if times == 0 then 0 else Repeated(x, times - 1) + x
  }

  lemma {:induction false} RepeatedIs(x: int, times: nat)
    ensures Repeated(x, times) == times * x
  {
    if times > 0 {
      RepeatedIs(x, times - 1);
      assert times * x == (times - 1) * x + x;
    }
  }

  lemma {:induction false} DelaySumParts(base: int, max: int, n: nat, k: nat, huge: int)
    requires 0 < base <= max <= MAX64 && k <= n
    requires n > 0 ==> Scaled(base, n - 1) <= MAX64
    requires k > 0 ==> Scaled(base, k - 1) <= max
    requires k < n ==> max <= Scaled(base, k)
    ensures DelaySum(base, max, n, huge) == Doubling(base, k) + Repeated(max, n - k)
    decreases n
  {
    if n > 0 {
      UnjitteredExactly(base, max, n, huge);
      if n > 1 {
        ScaledGrows(base, n - 2, n - 1);
      }
      if k < n {
        ScaledGrows(base, k, n - 1);
        DelaySumParts(base, max, n - 1, k, huge);
      } else {
        DelaySumParts(base, max, n - 1, k - 1, huge);
      }
    }
  }

  /** Geometric until the cap, then flat: k attempts double, the other n - k wait the maximum. */
  lemma DelaySumClosed(base: int, max: int, n: nat, k: nat, huge: int)
    requires 0 < base <= max <= MAX64 && k <= n
    requires n > 0 ==> Scaled(base, n - 1) <= MAX64
    requires k > 0 ==> Scaled(base, k - 1) <= max
    requires k < n ==> max <= Scaled(base, k)
    ensures DelaySum(base, max, n, huge) == (Pow2(k) - 1) * base + (n - k) * max
  {
    DelaySumParts(base, max, n, k, huge);
    DoublingIs(base, k);
    RepeatedIs(max, n - k);
  }

  // ---------- From the campaign's policy to the worker ----------

  /** Whatever the message says, the worker's base is one that PolicyIsExact speaks of. */
  lemma WorkerBaseIsEnough(baseMs: int)
    ensures WorkerBase(baseMs) >= 2
  {
    EvenWraps(baseMs * 500_000);
    assert baseMs * MS == 2 * (baseMs * 500_000);
  }

  lemma TurnsAside(q: int, rest: int)
    requires 0 <= rest < 0x1_0000_0000_0000_0000
    ensures (q * 0x1_0000_0000_0000_0000 + rest) % 0x1_0000_0000_0000_0000 == rest
  {
  }

  /** An even number wraps to an even one. */
  lemma EvenWraps(z: int)
    ensures Wrap(2 * z) % 2 == 0
  {
    var w := z + 0x4000_0000_0000_0000;
    var q, r := w / 0x8000_0000_0000_0000, w % 0x8000_0000_0000_0000;
    assert 2 * z - MIN64 == q * 0x1_0000_0000_0000_0000 + 2 * r;
    TurnsAside(q, 2 * r);
  }

  /** The worker gets back the policy's durations, cut to whole milliseconds, exactly when they are at least
      a millisecond; a shorter base becomes two seconds, a shorter max two minutes. */
  lemma PolicyReachesWorker(p: Policy)
    requires Normalized(p) && p.max <= MAX64
    ensures WorkerBase(StoredMs(p.base)) == (if p.base >= MS then p.base / MS * MS else 2 * SECOND)
    ensures WorkerMax(StoredMs(p.max)) == (if p.max >= MS then p.max / MS * MS else 120 * SECOND)
    ensures WorkerBase(StoredMs(p.base)) <= p.base <==> p.base >= MS
    ensures WorkerBase(StoredMs(p.base)) <= WorkerMax(StoredMs(p.max))
         <==> p.base >= MS || p.max < MS || p.max >= 2 * SECOND
  {
    assert p.base / MS * MS <= p.base;
    assert p.max / MS * MS <= p.max;
    if p.base >= MS {
      assert p.base / MS <= p.max / MS;
    }
  }

  lemma StretchedGrows(a: int, b: int, jitter: real)
    requires 0 <= a <= b && jitter > 0.0
    ensures Stretched(a, jitter) <= Stretched(b, jitter)
  {
    NotNegative((b - a) as real, 1.0 + jitter / 2.0);
  }

  lemma PolicyPlainDelay(p: Policy, attempt: int, huge: int)
    requires Normalized(p) && MS <= p.base && p.max <= MAX64
    requires 1 <= attempt && Scaled(p.base, attempt - 1) <= MAX64
    ensures var base, max := p.base / MS * MS, p.max / MS * MS;
      var plain := Min(Scaled(base, attempt - 1), max);
      && 0 < base <= plain <= max <= p.max
      && WorkerBase(StoredMs(p.base)) == base && WorkerMax(StoredMs(p.max)) == max
      && Unjittered(base, max, attempt, huge) == plain
  {
    PolicyReachesWorker(p);
    var base, max := p.base / MS * MS, p.max / MS * MS;
    assert 0 < base <= p.base && base <= max <= p.max;
    ScaledBelow(base, p.base, attempt - 1);
    UnjitteredBounds(base, max, attempt, huge);
    UnjitteredExactly(base, max, attempt, huge);
  }

  /** End to end: a normalised policy of at least a millisecond gives every attempt before overflow a delay
      between its (truncated) base and max, and with jitter J at most J/2 above that. */
  lemma PolicyDelayBounds(p: Policy, attempt: int, huge: int, u: real)
    requires Normalized(p) && MS <= p.base && p.max <= MAX64
    requires 1 <= attempt && Scaled(p.base, attempt - 1) <= MAX64
    requires p.jitter > 0.0 ==> 0.0 <= u < 1.0 && Stretched(p.max, p.jitter) <= MAX64 as real
    ensures var base, max := p.base / MS * MS, p.max / MS * MS;
      var d := Delay(StoredMs(p.base), StoredMs(p.max), p.jitter, attempt, huge, u);
      var plain := Min(Scaled(base, attempt - 1), max);
      && base <= plain <= max
      && base <= d
      && (p.jitter <= 0.0 ==> d == plain)
      && (p.jitter > 0.0 ==> d as real <= Stretched(plain, p.jitter))
  {
    PolicyPlainDelay(p, attempt, huge);
    if p.jitter > 0.0 {
      var plain := Min(Scaled(p.base / MS * MS, attempt - 1), p.max / MS * MS);
      StretchedGrows(plain, p.max, p.jitter);
      JitterBounds(plain, p.base / MS * MS, p.jitter, u);
    }
  }
}
