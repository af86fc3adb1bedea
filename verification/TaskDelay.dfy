/** Retry delays on 64-bit nanosecond durations. */
module TaskDelay {

  /** `time.Duration`: a signed 64-bit count of nanoseconds. */
  newtype Duration = x: int | -0x8000_0000_0000_0000 <= x < 0x8000_0000_0000_0000

  const MILLISECOND: Duration := 1_000_000
  /** Thirty days. */
  const MAXIMUM_RETRY_DELAY: Duration := 2_592_000_000_000_000
  /** One day. */
  const MAXIMUM_LEASE: Duration := 86_400_000_000_000
  const DEFAULT_LEASE: Duration := 30_000_000_000
  const MAXIMUM_ATTEMPTS: Duration := 100
  const MAXIMUM_DURATION: Duration := 0x7FFF_FFFF_FFFF_FFFF

  datatype Backoff = Fixed | Linear | Exponential

  datatype Retry = Retry(delay: Duration, maximum: Duration, backoff: Backoff)

  predicate WholeMilliseconds(d: Duration) {
    d % MILLISECOND == 0
  }

  /** What a task definition must say about retries before it is registered. */
  predicate Validated(r: Retry) {
    && WholeMilliseconds(r.delay) && WholeMilliseconds(r.maximum)
    && MILLISECOND <= r.delay <= r.maximum <= MAXIMUM_RETRY_DELAY
  }

  function Pow2(n: nat): (p: nat)
    ensures p >= 1
  {
    if n == 0 then 1 else 2 * Pow2(n - 1)
  }

  function Min(a: int, b: int): int {
    if a <= b then a else b
  }

  /** The delay before the attempt after attempt `n`, as the definition promises it. */
  function Promised(r: Retry, n: nat): int
    requires n >= 1
  {
    match r.backoff
    case Fixed => r.delay as int
    case Linear => Min(r.delay as int * n, r.maximum as int)
    case Exponential => Min(r.delay as int * Pow2(n - 1), r.maximum as int)
  }

  /** The last duration of whole milliseconds; rounding up beyond it overflows. */
  const LAST_WHOLE: Duration := 9_223_372_036_854_000_000

  /** Two's complement wrap-around of 64-bit arithmetic. */
  function Wrapped(x: int): Duration {
    ((x + 0x8000_0000_0000_0000) % 0x1_0000_0000_0000_0000 - 0x8000_0000_0000_0000) as Duration
  }

  lemma WrapsOnce(x: int)
    requires 0 <= x < 0x8000_0000_0000_0000 + 1_000_000
    ensures Wrapped(x) as int == if x < 0x8000_0000_0000_0000 then x else x - 0x1_0000_0000_0000_0000
  {
  }

  method CeilMilliseconds(d: Duration) returns (ceiled: Duration)
    ensures d <= 0 ==> ceiled == d
    ensures 0 < d <= LAST_WHOLE ==>
              WholeMilliseconds(ceiled) && d <= ceiled && (ceiled as int) < d as int + MILLISECOND as int
    ensures d > LAST_WHOLE ==> ceiled < 0
  {
    hide Wrapped;
    if d <= 0 { return d; }
    if d % MILLISECOND == 0 {
      WholeIsRepresentable(d);
      return d;
    }
    CeilIsWhole(d);
    var up := d as int + MILLISECOND as int - (d % MILLISECOND) as int;
    WrapsOnce(up);
    ceiled := Wrapped(up);
  }

  lemma WholeIsRepresentable(d: Duration)
    requires WholeMilliseconds(d)
    ensures d <= LAST_WHOLE
  {
    var q := d as int / 1_000_000;
    assert d as int == q * 1_000_000;
  }

  lemma CeilIsWhole(d: Duration)
    requires d > 0 && d % MILLISECOND != 0
    ensures var up := d as int + MILLISECOND as int - (d % MILLISECOND) as int;
            && up % 1_000_000 == 0 && (d as int) < up < d as int + 1_000_000
            && (d <= LAST_WHOLE ==> up <= LAST_WHOLE as int)
            && (d > LAST_WHOLE ==> up == LAST_WHOLE as int + 1_000_000)
  {
    var q := d as int / 1_000_000;
    assert d as int + 1_000_000 - d as int % 1_000_000 == (q + 1) * 1_000_000;
  }

  lemma WholeIsPositive(d: Duration)
    requires d > 0 && WholeMilliseconds(d)
    ensures d >= MILLISECOND
  {
  }

  /** Within validated bounds the overflow guard of linear backoff never fires. */
  lemma LinearFits(delay: int, attempts: int)
    requires 0 < delay <= 2_592_000_000_000_000 && 1 <= attempts <= 100
    ensures 0 <= delay * attempts < 0x8000_0000_0000_0000
    ensures delay <= 0x7FFF_FFFF_FFFF_FFFF / attempts
  {
    ProductBound(delay, attempts);
    Quotient(0x7FFF_FFFF_FFFF_FFFF, attempts, delay);
  }

  lemma ProductBound(delay: int, attempts: int)
    requires 0 < delay <= 2_592_000_000_000_000 && 1 <= attempts <= 100
    ensures 0 <= delay * attempts <= 259_200_000_000_000_000
  {
    assert delay * attempts <= delay * 100;
  }

  lemma Quotient(n: int, d: int, q: int)
    requires d > 0 && q * d <= n
    ensures q <= n / d
  {
    assert q * d <= n < (n / d + 1) * d;
    Cancel(q, n / d + 1, d);
  }

  lemma Cancel(a: int, b: int, d: int)
    requires d > 0 && a * d < b * d
    ensures a < b
  {
    assert (b - a) * d > 0;
  }

  lemma Doubled(base: int, n: int)
    requires n >= 1
    ensures base * Pow2(n) == 2 * (base * Pow2(n - 1))
  {
  }

  lemma {:induction false} StaysCapped(base: int, maximum: int, a: nat, b: nat)
    requires base > 0 && 1 <= a <= b && base * Pow2(a - 1) >= maximum
    ensures base * Pow2(b - 1) >= maximum
    decreases b - a
  {
    if a < b {
      Doubled(base, a);
      assert base * Pow2(a - 1) >= 0;
      StaysCapped(base, maximum, a + 1, b);
    }
  }

  lemma Multiple(a: int, k: int)
    requires a % 1_000_000 == 0
    ensures (a * k) % 1_000_000 == 0
  {
    var q := a / 1_000_000;
    assert a * k == (q * k) * 1_000_000;
  }

  /** Every promised delay is whole milliseconds, at least the base and at most the maximum. */
  lemma PromisedIsWhole(r: Retry, n: nat)
    requires Validated(r) && n >= 1
    ensures r.delay as int <= Promised(r, n) <= r.maximum as int
    ensures Promised(r, n) % 1_000_000 == 0
  {
    Multiple(r.delay as int, n);
    Multiple(r.delay as int, Pow2(n - 1));
    Grows(r.delay as int, n);
    Grows(r.delay as int, Pow2(n - 1));
  }

  lemma Grows(a: int, k: int)
    requires a > 0 && k >= 1
    ensures a <= a * k
  {
  }

  lemma ProductGrows(a: int, n: int, m: int)
    requires a > 0 && n <= m
    ensures a * n <= a * m
  {
    assert a * (m - n) >= 0;
  }

  /** A later attempt never waits less. */
  lemma PromisedIsMonotone(r: Retry, n: nat, m: nat)
    requires Validated(r) && 1 <= n <= m
    ensures Promised(r, n) <= Promised(r, m)
  {
    match r.backoff
    case Fixed =>
    case Linear => ProductGrows(r.delay as int, n, m);
    case Exponential => StaysCapped(r.delay as int, Promised(r, n), n, m);
  }

  /** Doubling until the maximum is reached, without ever doubling past it. */
  method Doubling(base: Duration, maximum: Duration, attempts: Duration) returns (delay: Duration)
    requires 0 < base <= maximum <= MAXIMUM_RETRY_DELAY && 1 <= attempts
    ensures delay as int == Min(base as int * Pow2(attempts as int - 1), maximum as int)
  {
    delay := base;
    var attempt: Duration := 1;
    while attempt < attempts && delay < maximum
      invariant 1 <= attempt <= attempts && base <= delay <= maximum
      invariant delay as int == Min(base as int * Pow2(attempt as int - 1), maximum as int)
      decreases attempts - attempt
    {
      Doubled(base as int, attempt as int);
      attempt := attempt + 1;
      if delay > maximum / 2 {
        delay := maximum;
        break;
      }
      delay := delay * 2;
    }
    if delay == maximum {
      StaysCapped(base as int, maximum as int, attempt as int, attempts as int);
    }
  }

  /**
   * The delay to persist: an override is rounded up and capped; otherwise the definition's
   * backoff, never above its maximum. No intermediate product leaves 64 bits.
   */
  method RetryDelay(r: Retry, attempts: Duration, override: Duration) returns (delay: Duration)
    requires Validated(r) && 1 <= attempts <= MAXIMUM_ATTEMPTS
    ensures override <= 0 ==> delay as int == Promised(r, attempts as int)
    ensures override > 0 ==> Min(override as int, r.maximum as int) <= delay as int
                             && (delay < r.maximum ==> delay < override + MILLISECOND)
    ensures MILLISECOND <= delay <= r.maximum && WholeMilliseconds(delay)
  {
    if override > 0 {
      if override > r.maximum { return r.maximum; }
      var ceiled := CeilMilliseconds(override);
      WholeIsPositive(ceiled);
      return if ceiled <= r.maximum then ceiled else r.maximum;
    }
    delay := r.delay;
    match r.backoff {
      case Fixed =>
      case Linear =>
        LinearFits(delay as int, attempts as int);
        if attempts > 1 && delay <= MAXIMUM_DURATION / attempts { delay := delay * attempts; }
      case Exponential =>
        delay := Doubling(delay, r.maximum, attempts);
    }
    if delay > r.maximum { delay := r.maximum; }
    PromisedIsWhole(r, attempts as int);
  }
}
