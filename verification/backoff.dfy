/**
 * `Backoff<min_ms, max_ms>(attempts)`: the exponential retry delay of the MQTT
 * client. The delay is `kMinBackoffLatency << attempts` in `TickType_t` ticks,
 * and `attempts` is bumped only while it is below
 * `floor(log2(kMaxBackoffLatency / kMinBackoffLatency))`.
 *
 * `TickType_t` is a 32-bit unsigned integer on the target, so the shift wraps
 * modulo 2^32, and a shift by 32 or more is undefined behaviour; `ShiftLeft`
 * returns `None` there.
 */
module Backoff {
  import opened Wrappers

  /** Width of `TickType_t`. */
  const TickBits: nat := 32
  const TickModulus: nat := 0x1_0000_0000

  function Pow2(n: nat): (p: nat)
    ensures p >= 1
  {
    if n == 0 then 1 else 2 * Pow2(n - 1)
  }

  lemma {:induction false} Pow2Monotone(a: nat, b: nat)
    requires a <= b
    ensures Pow2(a) <= Pow2(b)
    decreases b
  {
    if a < b {
      Pow2Monotone(a, b - 1);
    }
  }

  /** The largest `k` with `2^k <= n`: what `std::log(n) / std::log(2)` truncates to. */
  function FloorLog2(n: nat): (k: nat)
    requires n >= 1
    ensures Pow2(k) <= n < Pow2(k + 1)
    decreases n
  {
    if n == 1 then 0
    else
      var k := FloorLog2(n / 2);
      assert Pow2(k + 1) == 2 * Pow2(k);
      assert Pow2(k + 2) == 2 * Pow2(k + 1);
      1 + k
  }

  /** `kMaxReconnectAttemptsToCount`: the largest value `attempts` is bumped to. */
  function AttemptCap(minTicks: nat, maxTicks: nat): (cap: nat)
    requires 0 < minTicks <= maxTicks
    ensures Pow2(cap) <= maxTicks / minTicks < Pow2(cap + 1)
  {
    FloorLog2(maxTicks / minTicks)
  }

  /** `x << n` on `TickType_t`: wraps modulo 2^32; `None` when `n` is at least the width. */
  function ShiftLeft(x: nat, n: nat): (r: Option<nat>)
    requires x < TickModulus
    ensures r.None? <==> n >= TickBits
    ensures r.Some? ==> r.value < TickModulus
    ensures r.Some? && x * Pow2(n) < TickModulus ==> r.value == x * Pow2(n)
  {
    if n >= TickBits then None else Some((x * Pow2(n)) % TickModulus)
  }

  /** One call of `Backoff`: the delay for the current count, and the count it
    * leaves in the caller's variable. Below the cap, the delay is never more
    * than the maximum and the count never passes the cap. */
  method Backoff(minTicks: nat, maxTicks: nat, attempts: nat) returns (delay: Option<nat>, next: nat)
    requires 0 < minTicks <= maxTicks < TickModulus
    ensures delay == ShiftLeft(minTicks, attempts)
    ensures next == if attempts < AttemptCap(minTicks, maxTicks) then attempts + 1 else attempts
    ensures attempts <= AttemptCap(minTicks, maxTicks) ==>
              next <= AttemptCap(minTicks, maxTicks) &&
              delay == Some(minTicks * Pow2(attempts)) && minTicks * Pow2(attempts) <= maxTicks
  {
    delay := ShiftLeft(minTicks, attempts);
    next := attempts;
    if attempts < AttemptCap(minTicks, maxTicks) {
      next := attempts + 1;
    }
    if attempts <= AttemptCap(minTicks, maxTicks) {
      CappedDelayFits(minTicks, maxTicks, attempts);
    }
  }

  /** Up to the cap, `min << attempts` does not wrap and stays within `max`. */
  lemma CappedDelayFits(minTicks: nat, maxTicks: nat, attempts: nat)
    requires 0 < minTicks <= maxTicks < TickModulus
    requires attempts <= AttemptCap(minTicks, maxTicks)
    ensures attempts < TickBits
    ensures minTicks * Pow2(attempts) <= maxTicks
    ensures ShiftLeft(minTicks, attempts) == Some(minTicks * Pow2(attempts))
  {
    var q := maxTicks / minTicks;
    var cap := AttemptCap(minTicks, maxTicks);
    Pow2Monotone(attempts, cap);
    MulMonotone(minTicks, Pow2(attempts), q);
    QuotientBounds(minTicks, maxTicks);
    MulMonotone(minTicks, 1, Pow2(attempts));
    if attempts >= TickBits {
      Pow2Monotone(TickBits, attempts);
      Pow2Of32();
      assert false;
    }
  }

  lemma MulMonotone(a: nat, b: nat, c: nat)
    requires b <= c
    ensures a * b <= a * c
  {
  }

  /** `min * (max / min) <= max < min * (max / min + 1)`. */
  lemma QuotientBounds(minTicks: nat, maxTicks: nat)
    requires 0 < minTicks
    ensures minTicks * (maxTicks / minTicks) <= maxTicks < minTicks * (maxTicks / minTicks + 1)
  {
    var q, r := maxTicks / minTicks, maxTicks % minTicks;
    assert maxTicks == minTicks * q + r;
  }

  lemma Pow2Of32()
    ensures Pow2(32) == TickModulus
  {
    assert Pow2(8) == 256;
    assert Pow2(16) == 65536 by {
      Pow2Add(8, 8);
    }
    Pow2Add(16, 16);
  }

  lemma {:induction false} Pow2Add(a: nat, b: nat)
    ensures Pow2(a + b) == Pow2(a) * Pow2(b)
    decreases b
  {
    if b > 0 {
      Pow2Add(a, b - 1);
      assert Pow2(a + b) == 2 * Pow2(a + b - 1);
    }
  }

  /** The cap is the exponent of the largest `min * 2^k` that does not exceed `max`:
    * once `attempts` reaches it, the delay stays at that value. */
  lemma CapIsLargestExponent(minTicks: nat, maxTicks: nat)
    requires 0 < minTicks <= maxTicks
    ensures minTicks * Pow2(AttemptCap(minTicks, maxTicks)) <= maxTicks
    ensures maxTicks < minTicks * Pow2(AttemptCap(minTicks, maxTicks) + 1)
  {
    var q := maxTicks / minTicks;
    var k := AttemptCap(minTicks, maxTicks);
    QuotientBounds(minTicks, maxTicks);
    MulMonotone(minTicks, Pow2(k), q);
    MulMonotone(minTicks, q + 1, Pow2(k + 1));
  }

  /** Each call below the cap doubles the delay of the next call. */
  lemma DelayDoublesBelowCap(minTicks: nat, maxTicks: nat, attempts: nat)
    requires 0 < minTicks <= maxTicks < TickModulus
    requires attempts < AttemptCap(minTicks, maxTicks)
    ensures ShiftLeft(minTicks, attempts).Some?
    ensures ShiftLeft(minTicks, attempts + 1) == Some(2 * ShiftLeft(minTicks, attempts).value)
  {
    CappedDelayFits(minTicks, maxTicks, attempts);
    CappedDelayFits(minTicks, maxTicks, attempts + 1);
    assert Pow2(attempts + 1) == 2 * Pow2(attempts);
    DoubleProduct(minTicks, Pow2(attempts));
  }

  lemma DoubleProduct(a: nat, p: nat)
    ensures a * (2 * p) == 2 * (a * p)
  {
  }

  /** Ticks for the client's `Backoff<250, 5000>`, at one tick per millisecond. */
  const MinBackoffTicks: nat := 250
  const MaxBackoffTicks: nat := 5000

  /** The client's cap is 4: delays run 250, 500, 1000, 2000, 4000 ticks and then stay at 4000. */
  lemma ClientSchedule()
    ensures AttemptCap(MinBackoffTicks, MaxBackoffTicks) == 4
    ensures ShiftLeft(MinBackoffTicks, 0) == Some(250)
    ensures ShiftLeft(MinBackoffTicks, 4) == Some(4000)
  {
    FloorLog2Of20();
    assert Pow2(4) == 16;
  }

  lemma FloorLog2Of20()
    ensures FloorLog2(20) == 4
  {
    assert FloorLog2(2) == 1 + FloorLog2(1);
    assert FloorLog2(5) == 1 + FloorLog2(2);
    assert FloorLog2(10) == 1 + FloorLog2(5);
    assert FloorLog2(20) == 1 + FloorLog2(10);
  }

  /** `StartTransition` bumps `failed_requests` without the cap, so a count that
    * has passed 31 turns the next shift into undefined behaviour. */
  lemma UncappedCountOverflowsShift(minTicks: nat, attempts: nat)
    requires 0 < minTicks < TickModulus
    requires attempts >= TickBits
    ensures ShiftLeft(minTicks, attempts).None?
  {
  }
}
