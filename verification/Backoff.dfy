/** The retry timing of acquire_lock: doubling waits with a cap and jitter, clipped to the deadline
    (src/lock/lock.c:308-336, src/waitlock.h:91-93). Times are real milliseconds. */
module Backoff {

  const INITIAL_WAIT := 10
  const MAX_WAIT := 1000
  const TIMEOUT_FACTOR := 0.9

  function Min(a: int, b: int): int {
    if a < b then a else b
  }

  /** The sleep before the next pass when a deadline is set: at most nine tenths of the remaining time
      in whole milliseconds, and at least one. */
  function SleepMs(timeout: real, elapsed: real, wait: nat): (ms: nat)
    requires elapsed < timeout
    ensures 1 <= ms
  {
    var allowed := ((timeout - elapsed) * TIMEOUT_FACTOR).Floor;
    var clipped := Min(allowed, wait);
    if clipped < 1 then 1 else clipped
  }

  /** Doubling, capping, then up to a tenth of jitter. `random` stands for rand(). */
  function NextWait(wait: nat, random: nat): nat {
    var doubled := Min(2 * wait, MAX_WAIT);
    doubled + random % (doubled / 10 + 1)
  }

  /** The sleep is one, or within both the wait and nine tenths of the remaining time, and no whole number
      of milliseconds k within both is longer. */
  lemma SleepIsExact(timeout: real, elapsed: real, wait: nat, k: nat)
    requires elapsed < timeout
    ensures var ms := SleepMs(timeout, elapsed, wait);
            ms == 1 || (ms <= wait && ms as real <= (timeout - elapsed) * 0.9)
    ensures k <= wait && k as real <= (timeout - elapsed) * 0.9 ==> k <= SleepMs(timeout, elapsed, wait)
  {}

  lemma Remainder(x: nat, n: nat)
    requires n > 0
    ensures 0 <= x % n < n
    ensures x < n ==> x % n == x
  {}

  function Doubled(wait: nat): nat {
    if wait < 500 then 2 * wait else 1000
  }

  /** The waits that can follow a wait are exactly the doubled and capped one and up to a tenth more. */
  lemma JitterIsExact(wait: nat, next: nat)
    ensures (exists random: nat :: next == NextWait(wait, random)) <==>
      Doubled(wait) <= next <= Doubled(wait) + Doubled(wait) / 10
  {
    var doubled := Doubled(wait);
    if doubled <= next <= doubled + doubled / 10 {
      var random: nat := next - doubled;
      Remainder(random, doubled / 10 + 1);
      assert next == NextWait(wait, random);
    }
    if random: nat :| next == NextWait(wait, random) {
      Remainder(random, doubled / 10 + 1);
    }
  }

  /** One sleep of the loop: the clock at the deadline check and wait_ms. */
  datatype Nap = Nap(elapsed: real, wait: nat)

  /** The sleeps of one call with a deadline. A sleep may end late and a pass may take any time; the
      clock never runs backwards. */
  ghost predicate Schedule(timeout: real, naps: seq<Nap>) {
    && (naps != [] ==> naps[0].wait == INITIAL_WAIT && naps[0].elapsed >= 0.0)
    && (forall i | 0 <= i < |naps| :: naps[i].elapsed < timeout)
    && (forall i | 0 < i < |naps| :: Follows(timeout, naps[i - 1], naps[i]))
  }

  ghost predicate Follows(timeout: real, nap: Nap, next: Nap) {
    && nap.elapsed < timeout
    && next.elapsed >= nap.elapsed + SleepMs(timeout, nap.elapsed, nap.wait) as real
    && exists random: nat :: next.wait == NextWait(nap.wait, random)
  }

  // ---------------------------------------------------------------------------------------------
  // The waits
  // ---------------------------------------------------------------------------------------------

  /** min(10 * 2^k, 1000): what wait_ms is without jitter. */
  function Ramp(k: nat): (w: nat)
    ensures INITIAL_WAIT <= w <= MAX_WAIT
  {
    if k == 0 then INITIAL_WAIT else Min(2 * Ramp(k - 1), MAX_WAIT)
  }

  lemma NextWaitInRange(wait: nat, random: nat)
    ensures Min(2 * wait, MAX_WAIT) <= NextWait(wait, random) <= 1100
  {}

  /** After k sleeps wait_ms is at least min(10 * 2^k, 1000), and it never exceeds 1100. */
  lemma {:induction false} WaitsGrow(timeout: real, naps: seq<Nap>, k: nat)
    requires Schedule(timeout, naps) && k < |naps|
    ensures Ramp(k) <= naps[k].wait <= 1100
  {
    if k > 0 {
      WaitsGrow(timeout, naps, k - 1);
      assert Follows(timeout, naps[k - 1], naps[k]);
      var random: nat :| naps[k].wait == NextWait(naps[k - 1].wait, random);
      NextWaitInRange(naps[k - 1].wait, random);
    }
  }

  lemma RampTops()
    ensures Ramp(7) == MAX_WAIT
  {
    assert Ramp(3) == 80;
    assert Ramp(6) == 640;
  }

  lemma {:induction false} RampStays(k: nat)
    requires k >= 7
    ensures Ramp(k) == MAX_WAIT
  {
    RampTops();
    if k > 7 { RampStays(k - 1); }
  }

  // ---------------------------------------------------------------------------------------------
  // How many sleeps fit before the deadline
  // ---------------------------------------------------------------------------------------------

  /** Clipped sleeps take nine tenths of what remains: few of them fit. */
  function ClippedSleeps(remaining: real): nat {
    if remaining <= 0.0 then 0
    else if remaining <= 1.0 then 1
    else if remaining <= 2.0 then 2
    else if remaining <= 10.0 then 3
    else if remaining <= 90.0 then 4
    else if remaining <= 890.0 then 5
    else 6
  }

  predicate Clipped(timeout: real, nap: Nap) {
    nap.elapsed < timeout && (timeout - nap.elapsed) * TIMEOUT_FACTOR < nap.wait as real
  }

  lemma ClippedSleepIsLong(timeout: real, nap: Nap, next: Nap)
    requires Clipped(timeout, nap) && Follows(timeout, nap, next)
    ensures timeout - next.elapsed <= 0.1 * (timeout - nap.elapsed) + 1.0
    ensures timeout - next.elapsed <= timeout - nap.elapsed - 1.0
  {}

  /** Once a sleep is clipped all later ones are: the remaining time shrinks faster than the wait. */
  lemma ClippingLasts(timeout: real, nap: Nap, next: Nap)
    requires Clipped(timeout, nap) && nap.wait >= INITIAL_WAIT && nap.wait <= 1100
    requires Follows(timeout, nap, next) && next.elapsed < timeout
    ensures Clipped(timeout, next) && next.wait >= INITIAL_WAIT
  {
    ClippedSleepIsLong(timeout, nap, next);
    var random: nat :| next.wait == NextWait(nap.wait, random);
    NextWaitInRange(nap.wait, random);
  }

  lemma ClippedStep(timeout: real, nap: Nap, next: Nap)
    requires Clipped(timeout, nap) && nap.wait <= 1100 && Follows(timeout, nap, next) && next.elapsed < timeout
    ensures ClippedSleeps(timeout - next.elapsed) + 1 <= ClippedSleeps(timeout - nap.elapsed)
  {
    ClippedSleepIsLong(timeout, nap, next);
  }

  lemma {:induction false} ClippedTail(timeout: real, naps: seq<Nap>, k: nat)
    requires Schedule(timeout, naps) && k < |naps| && Clipped(timeout, naps[k])
    ensures |naps| - k <= ClippedSleeps(timeout - naps[k].elapsed)
    decreases |naps| - k
  {
    WaitsGrow(timeout, naps, k);
    if k + 1 < |naps| {
      assert Follows(timeout, naps[k + 1 - 1], naps[k + 1]);
      ClippingLasts(timeout, naps[k], naps[k + 1]);
      ClippedStep(timeout, naps[k], naps[k + 1]);
      ClippedTail(timeout, naps, k + 1);
    }
  }

  /** Unclipped sleeps: at most seven short ones, then each takes at least a second off. */
  lemma {:induction false} SleepsFrom(timeout: real, naps: seq<Nap>, k: nat)
    requires Schedule(timeout, naps) && k < |naps|
    ensures (|naps| - k) as real <= 6.0 + (if k < 7 then 7 - k else 0) as real + (timeout - naps[k].elapsed) / 1000.0
    decreases |naps| - k
  {
    if Clipped(timeout, naps[k]) {
      ClippedTail(timeout, naps, k);
    } else if k + 1 < |naps| {
      WaitsGrow(timeout, naps, k);
      if k >= 7 { RampStays(k); }
      assert Follows(timeout, naps[k + 1 - 1], naps[k + 1]);
      SleepsFrom(timeout, naps, k + 1);
    }
  }

  /** The retry bound: a call with timeout T sleeps at most T / 1000 ms + 13 times, however late its
      sleeps end. */
  lemma SleepsAreBounded(timeout: real, naps: seq<Nap>)
    requires timeout >= 0.0 && Schedule(timeout, naps)
    ensures |naps| as real <= timeout / 1000.0 + 13.0
  {
    if naps != [] {
      SleepsFrom(timeout, naps, 0);
    }
  }

  /** A sleep that ends on time oversteps the deadline by less than a millisecond. */
  lemma SleepStaysNearDeadline(timeout: real, elapsed: real, wait: nat)
    requires elapsed < timeout
    ensures elapsed + SleepMs(timeout, elapsed, wait) as real < timeout + 1.0
  {}
}
