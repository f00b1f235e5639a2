/** The 64-bit delay arithmetic of rest/client/middleware.go: `backoff` and
    `parseRetryAfter`, over mathematical integers with every wrap-around written out. */
module RestDelay {
  import opened Wrappers

  const MAX64: int := 0x7FFF_FFFF_FFFF_FFFF
  const MIN64: int := -0x8000_0000_0000_0000
  const SECOND: int := 1_000_000_000

  /** The value a signed 64-bit register holds for `x`. */
  function Wrap64(x: int): int {
    (x - MIN64) % 0x1_0000_0000_0000_0000 + MIN64
  }

  function Pow2(n: nat): (p: nat)
    ensures p > 0
  {
    if n == 0 then 1 else 2 * Pow2(n - 1)
  }

  /** A right shift of a non-negative value. A shift by 63 or more gives 0. */
  function Shr(x: nat, shift: nat): int { x / Pow2(shift) }

  function Shl64(x: nat, shift: nat): int { Wrap64(x * Pow2(shift)) }

  /** The settings of the client that delays depend on, as Validate accepts them once
      SetDefaults has replaced zeros. */
  datatype Backoff = Backoff(base: int, max: int)

  predicate Validated(c: Backoff) { 0 < c.base <= c.max <= MAX64 }

  /** The bound of the jitter before retry `n`, as backoff computes it. */
  function Cap(c: Backoff, n: nat): int
    requires Validated(c) && n >= 1
  {
    if c.base <= Shr(c.max, n - 1) then Shl64(c.base, n - 1) else c.max
  }

  lemma ShiftTest(base: nat, max: nat, p: nat)
    requires p > 0
    ensures base <= max / p <==> base * p <= max
  {
    var q := max / p;
    assert q * p <= max < q * p + p;
    if base <= q {
      MulMonotone(base, q, p);
    } else {
      MulMonotone(q + 1, base, p);
      assert (q + 1) * p == q * p + p;
    }
  }

  lemma MulMonotone(a: nat, b: nat, p: nat)
    requires a <= b
    ensures a * p <= b * p && p * a <= p * b
  {
  }

  lemma WrapIsIdentity(x: int)
    requires MIN64 <= x <= MAX64
    ensures Wrap64(x) == x
  {
  }

  /** For every validated setting and every retry, the bound is the smaller of the maximum
      and base * 2^(n-1) over the integers, it is positive, and nothing overflowed. */
  lemma CapIsMin(c: Backoff, n: nat)
    requires Validated(c) && n >= 1
    ensures Cap(c, n) == Min(c.max, c.base * Pow2(n - 1))
    ensures 0 < Cap(c, n) <= c.max
  {
    var p := Pow2(n - 1);
    hide Pow2;
    ShiftTest(c.base, c.max, p);
    MulMonotone(1, p, c.base);
    assert c.base <= c.base * p;
    if c.base * p <= c.max {
      WrapIsIdentity(c.base * p);
    }
  }

  lemma {:induction false} Pow2Grows(m: nat, n: nat)
    requires m <= n
    ensures Pow2(m) <= Pow2(n)
  {
    if m < n { Pow2Grows(m, n - 1); }
  }

  /** Waiting never gets shorter bounds: the bound grows with the retry. */
  lemma CapIsMonotone(c: Backoff, m: nat, n: nat)
    requires Validated(c) && 1 <= m <= n
    ensures Cap(c, m) <= Cap(c, n)
  {
    hide Cap;
    hide Pow2;
    CapIsMin(c, m);
    CapIsMin(c, n);
    Pow2Grows(m - 1, n - 1);
    MulMonotone(Pow2(m - 1), Pow2(n - 1), c.base);
  }

  /** The bound starts at the base, or at the maximum, and doubles up to the maximum. */
  lemma CapDoubles(c: Backoff, n: nat)
    requires Validated(c) && n >= 1
    ensures Cap(c, 1) == c.base
    ensures Cap(c, n + 1) == if 2 * Cap(c, n) < c.max then 2 * Cap(c, n) else c.max
  {
    CapIsMin(c, 1);
    CapIsMin(c, n);
    CapIsMin(c, n + 1);
    assert Pow2(0) == 1 && Pow2(n) == 2 * Pow2(n - 1);
    var p := Pow2(n - 1);
    hide Cap, Pow2;
    Doubles(c.base, p);
    MulMonotone(1, p, c.base);
  }

  lemma Doubles(a: int, p: int)
    ensures a * (2 * p) == 2 * (a * p)
  {
  }

  // ---------------------------------------------------------------- Retry-After

  /** A Retry-After value: a run of digits with an optional sign, an HTTP date, or neither. */
  datatype RetryAfter = Absent | Seconds(value: int) | Date(at: int)

  const MAX_RETRY_AFTER_SECONDS: int := MAX64 / SECOND

  /** strconv.Atoi: a value out of range comes back as the nearest 64-bit integer. */
  function Atoi(v: int): int {
    if v > MAX64 then MAX64 else if v < MIN64 then MIN64 else v
  }

  datatype Delay = NoDelay | Delay(nanos: int)

  function ParseRetryAfter(h: RetryAfter, now: int): Delay {
    match h
    case Absent => NoDelay
    case Seconds(v) =>
      if Atoi(v) < 0 then NoDelay
      else Delay(Wrap64(Min(Atoi(v), MAX_RETRY_AFTER_SECONDS) * SECOND))
    case Date(at) => Delay(if at > now then at - now else 0)
  }

  /** Seconds of any size convert to nanoseconds without overflow, and below the clamp of
      9_223_372_036 exactly. */
  lemma SecondsConvert(v: int, now: int)
    ensures v >= 0 ==>
              ParseRetryAfter(Seconds(v), now) ==
              Delay((if v < 9_223_372_036 then v else 9_223_372_036) * 1_000_000_000)
    ensures v < 0 <==> ParseRetryAfter(Seconds(v), now).NoDelay?
    ensures v >= 0 ==> ParseRetryAfter(Seconds(v), now) == Delay(Min(v, MAX_RETRY_AFTER_SECONDS) * SECOND)
    ensures v >= 0 ==> 0 <= ParseRetryAfter(Seconds(v), now).nanos <= MAX64
  {
    if v >= 0 {
      var k := Min(Atoi(v), MAX_RETRY_AFTER_SECONDS);
      assert k == Min(v, MAX_RETRY_AFTER_SECONDS);
      assert 0 <= k * SECOND <= MAX64;
      WrapIsIdentity(k * SECOND);
    }
  }

  /** A date means the time until then, or no time when it has passed; a value of neither
      form means nothing. */
  lemma DatesConvert(at: int, now: int)
    ensures at > now ==> ParseRetryAfter(Date(at), now) == Delay(at - now)
    ensures at <= now ==> ParseRetryAfter(Date(at), now) == Delay(0)
    ensures ParseRetryAfter(Absent, now) == NoDelay
  {
  }

  lemma SecondsAreMonotone(v: int, v': int, now: int)
    requires 0 <= v <= v'
    ensures ParseRetryAfter(Seconds(v), now).nanos <= ParseRetryAfter(Seconds(v'), now).nanos
  {
    SecondsConvert(v, now);
    SecondsConvert(v', now);
  }

  /** The comparison with any limit below the clamp is the comparison over the integers. */
  lemma SecondsCompare(v: int, limit: int, now: int)
    requires v >= 0 && limit < MAX_RETRY_AFTER_SECONDS * SECOND
    ensures ParseRetryAfter(Seconds(v), now).nanos > limit <==> v * SECOND > limit
  {
    SecondsConvert(v, now);
  }
}
