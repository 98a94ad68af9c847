/**
 * The system tick of systick.c: a client of the software-timer scheduler
 * that registers one periodic timer whose callback counts `_system_ticks`
 * and forwards to an optional user callback.
 */
module Systick {
  import opened Types
  import opened SoftTimer

  /** The identity of `systick_handler` when it is stored as a timer callback. */
  const SYSTICK_HANDLER: Callback := Callback(0)

  /** The statics of systick.c: the tick count, the interval variable, the user callback and `_systick_timer`. */
  class Systick {
    var systemTicks: Uint32
    /** `_system_tick_interval_ms`: declared, but no statement ever assigns it. */
    var tickIntervalMs: int
    var callback: Callback
    const timer: Timer

    /** The user callbacks the handler has called, in call order. */
    ghost var ClientCalls: seq<Callback>

    /** The statics at power-up: everything zero, the timer record included. */
    constructor ()
      ensures systemTicks == 0 && tickIntervalMs == 0 && callback == NoCallback && ClientCalls == []
      ensures fresh(timer)
      ensures timer.mode == 0 && timer.periodMsec == 0 && timer.callback == NoCallback && timer.user == 0
      ensures timer.ticksRemaining == 0 && timer.next == null
    {
      systemTicks := 0;
      tickIntervalMs := 0;
      callback := NoCallback;
      timer := new Timer(0, 0, NoCallback, 0);
      ClientCalls := [];
    }

    /**
     * systick_init: clear the count, store the user callback, fill in the
     * timer record as a periodic timer calling `systick_handler`, and start
     * it. When the timer is already registered timer_start does nothing, so
     * its countdown is not reloaded and it is not added twice. Always 1.
     */
    method Init(sched: Scheduler, intervalMs: int, cb: Callback) returns (r: int)
      requires sched.Valid()
      modifies this`systemTicks, this`callback, timer, sched`head, sched`List, sched.List`next
      ensures r == 1
      ensures systemTicks == 0 && callback == cb && tickIntervalMs == old(tickIntervalMs)
      ensures timer.mode == TIMER_MODE_PERIODIC && timer.periodMsec == intervalMs
      ensures timer.callback == SYSTICK_HANDLER && timer.user == 0
      ensures sched.Valid()
      ensures old(timer in sched.List) ==>
                sched.List == old(sched.List) && timer.ticksRemaining == old(timer.ticksRemaining)
      ensures old(timer !in sched.List) ==>
                sched.List == old(sched.List) + [timer] && timer.ticksRemaining == intervalMs && timer.next == null
    {
      systemTicks := 0;
      callback := cb;
      timer.mode := TIMER_MODE_PERIODIC;
      timer.periodMsec := intervalMs;
      timer.callback := SYSTICK_HANDLER;
      timer.user := 0;
      sched.Start(timer);
      return 1;
    }

    /** systick_handler: count one tick (modulo 2^32), then call the user callback unless it is NULL. */
    method Handler()
      modifies this`systemTicks, this`ClientCalls
      ensures systemTicks == Inc32(old(systemTicks))
      ensures ClientCalls == old(ClientCalls) + (if callback != NoCallback then [callback] else [])
    {
      systemTicks := Inc32(systemTicks);
      if callback != NoCallback {
        ClientCalls := ClientCalls + [callback];
      }
    }
  }

  /**
   * Started with interval P >= 1 and visited on every scheduler tick (as
   * the corrected walk visits every periodic timer; see
   * SoftTimer.PeriodicOnSweep), the systick timer expires once per P ticks.
   * Counting one Handler run per expiry, after `rounds * P` scheduler ticks
   * the count has grown by `rounds` modulo 2^32.
   */
  lemma SystemTicksPerPeriod(p: int, rounds: nat, s0: Uint32)
    requires p >= 1
    ensures PeriodicRun(p, p, rounds * p).1 == rounds
    ensures Advance(s0, PeriodicRun(p, p, rounds * p).1) == ToUint32(s0 + rounds)
  {
    PeriodicFiresOncePerPeriod(p, rounds);
    AdvanceWraps(s0, rounds);
  }
}
