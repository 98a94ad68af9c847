/**
 * The millisecond helpers of delay.c. `millis` reads the scheduler's tick
 * count; `elapsed_millis` subtracts a start time from it in 32-bit unsigned
 * arithmetic, correcting for one wrap of the counter; `delay` polls
 * `elapsed_millis` until it reaches the requested time.
 */
module Delay {
  import opened Types
  import opened SoftTimer

  /** millis: the scheduler's millisecond count, timer_millis(). */
  function Millis(sched: Scheduler): (ms: Uint32)
    reads sched
    ensures ms == sched.ticks
  {
    sched.Millis()
  }

  /**
   * elapsed_millis(start) as written, with `current` the value millis()
   * returns inside it. When the counter has wrapped (`current < start`) the
   * result is `UINT32_MAX - start + current`.
   */
  function ElapsedMillis(start: Uint32, current: Uint32): (e: Uint32)
    ensures current >= start ==> e == current - start
    ensures current < start ==> e < UINT32_MAX
  {
    if current < start then UINT32_MAX - start + current else current - start
  }

  /** The elapsed time as the counter's modular difference, which is what the wrap correction is for. */
  function ElapsedModular(start: Uint32, current: Uint32): (e: Uint32)
    ensures e == ToUint32(current - start)
  {
    if current < start then UINT32_MAX - start + current + 1 else current - start
  }

  /** Read with no tick in between, a start time has zero elapsed time. */
  lemma ElapsedSinceNow(start: Uint32)
    ensures ElapsedMillis(start, start) == 0
    ensures ElapsedModular(start, start) == 0
  {
  }

  /**
   * Read n milliseconds after `start`, the as-written result is n when the
   * counter did not wrap in between and n - 1 when it did.
   */
  lemma ElapsedAfter(start: Uint32, n: nat)
    requires n <= UINT32_MAX
    ensures start + n <= UINT32_MAX ==> ElapsedMillis(start, ToUint32(start + n)) == n
    ensures start + n > UINT32_MAX ==> ElapsedMillis(start, ToUint32(start + n)) == n - 1
  {
    if start + n > UINT32_MAX {
      assert ToUint32(start + n) == start + n - 0x1_0000_0000;
    }
  }

  /** Read n milliseconds after `start` (n below 2^32), the modular difference is n, wrap or not. */
  lemma ElapsedModularAfter(start: Uint32, n: nat)
    requires n <= UINT32_MAX
    ensures ElapsedModular(start, ToUint32(start + n)) == n
  {
    if start + n > UINT32_MAX {
      assert ToUint32(start + n) == start + n - 0x1_0000_0000;
    }
  }

  /** Three milliseconds after 0xFFFFFFFD the counter reads 0, and the as-written result is 2. */
  lemma ElapsedAcrossWrap()
    ensures ToUint32(0xFFFF_FFFD + 3) == 0
    ensures ElapsedMillis(0xFFFF_FFFD, 0) == 2
    ensures ElapsedModular(0xFFFF_FFFD, 0) == 3
  {
  }

  /** The test that ends delay(msec): the elapsed time is no longer below msec. */
  predicate DelayDone(start: Uint32, current: Uint32, msec: Uint32) {
    !(ElapsedMillis(start, current) < msec)
  }

  /** delay(0) returns at its first poll, whatever the clock reads. */
  lemma DelayZero(start: Uint32, current: Uint32)
    ensures DelayDone(start, current, 0)
  {
  }

  /**
   * delay(UINT32_MAX) started at any time other than 0 never returns: the
   * as-written elapsed time never reaches UINT32_MAX from such a start.
   */
  lemma DelayMaxNeverReturns(start: Uint32, current: Uint32)
    requires start != 0
    ensures !DelayDone(start, current, UINT32_MAX)
  {
  }

  /**
   * delay(msec) against a supply of successive millis() readings, the first
   * being the start time taken on entry: the number of readings used when
   * the loop exits, or all of them when the exit test never held among them.
   */
  method Delay(msec: Uint32, readings: seq<Uint32>) returns (n: nat)
    requires readings != []
    ensures 1 <= n <= |readings|
    ensures forall i :: 1 <= i < n ==> !DelayDone(readings[0], readings[i], msec)
    ensures n < |readings| ==> DelayDone(readings[0], readings[n], msec)
  {
    var start := readings[0];
    n := 1;
    while n < |readings| && ElapsedMillis(start, readings[n]) < msec
      invariant 1 <= n <= |readings|
      invariant forall i :: 1 <= i < n ==> !DelayDone(start, readings[i], msec)
      decreases |readings| - n
    {
      n := n + 1;
    }
  }
}
