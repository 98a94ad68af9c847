# MSP430 support library: verified model of the stateful core

This project models, in Dafny, the parts of a small MSP430 support library
that keep state:

- **Receive byte FIFO** (`fifo.dfy`, module `ByteFifo`). The FIFO is a
  128-slot ring with read and write cursors. One slot always stays free,
  so it holds at most 127 bytes. Push drops a byte when the ring is full.
  Pop returns `EOF` converted to `uint8_t` (0xFF) when the ring is empty.
  The `Fifo_t` record is a class holding the byte array and the two
  cursors, plus a ghost sequence of the queued bytes. The query macros of
  `fifo.h` are functions over that class.
- **Software-timer scheduler** (`timer.dfy`, module `SoftTimer`).
  Caller-owned `timer_t` records are linked through their `next` fields
  into one list. `timer_start`, `timer_stop` and `timer_reset` manage the
  list. The TimerA interrupt handler counts ticks and walks the list: it
  counts each timer down, calls back the expired ones, then reloads them
  (periodic) or unlinks them (one-shot). A ghost sequence mirrors the
  `next` chain, and a ghost log records every callback call. The handler
  is modelled as written, including a walk that stops early. A corrected
  version of the handler is modelled beside it.
- **System tick** (`systick.dfy`, module `Systick`). This client of the
  scheduler registers one periodic timer. Its callback counts
  `_system_ticks` and forwards the tick to an optional user callback.
- **Millisecond arithmetic** (`delay.dfy`, module `Delay`). It covers
  `millis`, `elapsed_millis` with its single-wrap correction, and the
  polling loop of `delay`.
- **Clock system** (`clock.dfy`, module `Clock`). Three oscillators (XT1,
  XT2 and the DCO) feed three clock rails (ACLK, MCLK and SMCLK) through
  bit fields of BCSCTL1 and BCSCTL2, which are modelled as `bv8` fields.
  `clock_set` encodes a rail's source and divider into those fields, and
  `clock_get` decodes them back into a frequency.
- **Small helpers.** `checksum.dfy` (module `Checksum`) is the 8-bit
  additive checksum. `pin_map.dfy` (module `PinMap`) holds the pin
  encoding `0x100 * port + bit` and its two decoding macros.

`types.dfy` (module `Types`) holds the fixed-width integer types and the
C conversions between them, written out as reductions modulo 2^8 and 2^32.

## Model

| member | source | states |
|---|---|---|
| Types.ToUint8 | fifo.c:19-28 | Conversion to `uint8_t` keeps a value that fits and otherwise reduces it modulo 256 |
| Types.EofAsUint8 | types.h:11 | `EOF` (-1) returned as `uint8_t` is 0xFF, the same value as a real data byte 0xFF |
| Types.SignedCharRoundTrip | fifo.c:24-27 | A byte passed through the signed `char` local of `Fifo_pop` comes back unchanged |
| Types.ToUint32 | timer.c:78 | Conversion to a 32-bit unsigned type keeps a value that fits and otherwise reduces it modulo 2^32 |
| Types.Inc32Wraps | timer.c:157 | The tick counter's `++` adds 1 modulo 2^32: it adds 1 below UINT32_MAX and wraps UINT32_MAX to 0 |
| Types.AdvanceWraps | systick.c:30 | n increments of a 32-bit counter add n modulo 2^32 |
| ByteFifo.RingContents | fifo.c:30-33 | The queue a ring represents has exactly `Fifo_size`'s length `(wpos + 128 - rpos) % 128`, at most 127 bytes, and its k-th byte is slot `(rpos + k) % 128` |
| ByteFifo.RingEmpty | fifo.c:21 | The pop test `rpos == wpos` holds exactly when the queue is empty |
| ByteFifo.RingFull | fifo.c:12 | The push test `(wpos + 1) % 128 == rpos` holds exactly when 127 bytes are queued |
| ByteFifo.RingPush | fifo.c:15-16 | Writing slot `wpos` and advancing `wpos` appends the byte to the queue |
| ByteFifo.RingPop | fifo.c:24-25 | Slot `rpos` holds the oldest byte, and advancing `rpos` removes exactly that byte |
| ByteFifo.EnqueueAllKeepsOldest | fifo.c:10-17 | A burst of pushes with no pop keeps the oldest bytes up to the capacity of 127, in order, and drops every later byte |
| ByteFifo.Fifo.constructor | fifo.h:16-21 | A statically allocated FIFO starts with both cursors at 0 and an empty queue |
| ByteFifo.Fifo.Init | fifo.c:4-8 | `Fifo_init` puts both cursors at 0, so the queue is empty and the size is 0 |
| ByteFifo.Fifo.Push | fifo.c:10-17 | When the ring is full, nothing changes. Otherwise the byte is written at `wpos`, `wpos` advances modulo 128, `rpos` and the other slots are unchanged, and the byte is appended to the queue |
| ByteFifo.Fifo.Pop | fifo.c:19-28 | An empty FIFO returns 0xFF and stays unchanged. Otherwise Pop returns the oldest byte, removes it from the queue and advances `rpos` modulo 128 |
| ByteFifo.Fifo.Size | fifo.c:30-33 | `Fifo_size` is the number of queued bytes, between 0 and 127 |
| ByteFifo.Fifo.Available | fifo.h:56 | `Fifo_available` is the number of queued bytes, the same as `Fifo_size` |
| ByteFifo.Fifo.EmptyAsWritten | fifo.h:50 | `Fifo_empty` as written is true exactly when the FIFO is NOT empty |
| ByteFifo.Fifo.FullAsWritten | fifo.h:53 | `Fifo_full` as written is true in every state |
| ByteFifo.Fifo.IsEmpty | fifo.h:49-50 | Empty as documented: true exactly when the queue is empty, which is exactly when the cursors are equal |
| ByteFifo.Fifo.IsFull | fifo.h:52-53 | Full as documented: true exactly when 127 bytes are queued, which is exactly when Push would drop the byte |
| SoftTimer.Timer.constructor | timer.h:61-71 | A caller-built record holds the given mode, period, callback and user value, with a zero countdown and no successor |
| SoftTimer.ReloadTicks | timer.c:60 | The reloaded countdown `period_msec / TIMER_RESOLUTION_MSEC` is the period, because the resolution is 1 ms |
| SoftTimer.CountdownStep | timer.c:161-173 | One handler visit leaves a running timer at one tick less and still positive. It reloads an expired periodic timer from its period, and leaves an expired one-shot timer at or below 0 |
| SoftTimer.PeriodicRunSplit | timer.c:159-179 | Running a periodic timer for a + b ticks is running it for a ticks and then b more, and the expiries add up |
| SoftTimer.PeriodicRunCountdown | timer.c:161-162 | A periodic timer with t >= 1 ticks to go does not expire on the next t - 1 ticks, and does expire and reload on the t-th tick |
| SoftTimer.PeriodicFiresOncePerPeriod | timer.c:170-173 | A periodic timer (re)loaded with period P >= 1 and visited on every tick, as the corrected walk visits it (see `PeriodicOnSweep`), expires exactly once every P ticks and is back at P after each period |
| SoftTimer.SurvivorsKeep | timer.c:170-177 | A timer that a tick does not unlink is still in the list after the tick |
| SoftTimer.CalledBackCount | timer.c:162-168 | In a list without duplicates, a tick calls each timer back once if its countdown expires and its callback is not NULL, and otherwise not at all |
| SoftTimer.PeriodicVisit | timer.c:161-173 | One handler visit of a periodic timer is one step of `PeriodicRun`: the same new countdown, and one expiry exactly when the countdown reaches 0 or less |
| SoftTimer.PeriodicOnSweep | timer.c:159-179 | Under the corrected walk, one tick is one `PeriodicRun` step for every periodic timer with a callback: the timer stays listed, its new countdown is `PeriodicRun`'s, and the number of times it is called back equals `PeriodicRun`'s expiry count |
| SoftTimer.LinkedIsAcyclic | timer.c:85 | No `next` field in the active list points back to the same or an earlier timer, so every walk along it reaches NULL |
| SoftTimer.LinkedUnique | timer.c:7 | The head and the `next` fields determine the active list: two lists that both match them are equal |
| SoftTimer.RemoveRelinks | timer.c:109-123 | Pointing the head, or the predecessor's `next`, at the removed timer's successor leaves a linked, duplicate-free list of the other timers |
| SoftTimer.FirstUnlinked | timer.c:170-177 | Names the first timer a tick unlinks: every timer before it stays linked, and it is a one-shot timer that expires on this tick |
| SoftTimer.Scheduler.constructor | timer.c:7-8 | At power-up the active list is empty and the tick count is 0 |
| SoftTimer.Scheduler.Exists | timer.c:81-92 | `timer_list_exists` returns true exactly when the timer is in the active list |
| SoftTimer.Scheduler.FindPrevious | timer.c:125-136 | Returns the timer just before t in the list, or NULL when t is the head or is not in the list |
| SoftTimer.Scheduler.FindLast | timer.c:138-149 | Returns the last timer of the list, or NULL when the list is empty |
| SoftTimer.Scheduler.Add | timer.c:94-107 | Appends an unlisted timer at the tail, and the list stays acyclic and duplicate-free |
| SoftTimer.Scheduler.Remove | timer.c:109-123 | Removes exactly that timer, keeps the others in their order, clears its `next`, and the list stays linked and duplicate-free |
| SoftTimer.Scheduler.Start | timer.c:54-63 | For a registered timer nothing changes: no second entry and no reload. Otherwise `next` is cleared, the countdown is loaded from the period and the timer is appended, so list order is start order |
| SoftTimer.Scheduler.Stop | timer.c:65-69 | For NULL or an unregistered timer nothing changes. A registered timer is removed as in `timer_list_remove` |
| SoftTimer.Scheduler.Reset | timer.c:71-74 | Reloads the countdown from the period and changes nothing else |
| SoftTimer.Scheduler.Millis | timer.c:76-79 | `timer_millis` is the tick count, because the resolution is 1 ms |
| SoftTimer.Scheduler.Visit | timer.c:161-177 | For one timer, the handler decrements the countdown. On expiry it calls back a non-NULL callback, then reloads the timer if periodic, or unlinks it and clears its `next` if one-shot. Timers outside the list keep their `next` fields (a list timer's `next` may change when the unlinked timer is bypassed) |
| SoftTimer.Scheduler.WalkStep | timer.c:159 | One turn of the handler's loop visits the current timer and then follows its `next` as the visit left it |
| SoftTimer.Scheduler.Walk | timer.c:159-179 | The as-written loop visits the timers up to and including the first one it unlinks, and visits none after it. It counts those timers down, calls back the expired ones in list order, and removes only that one |
| SoftTimer.Scheduler.WalkEnds | timer.c:159 | When the as-written loop reaches NULL, it has visited exactly the timers up to the first one it unlinks, or all of them if there is none |
| SoftTimer.Scheduler.Tick | timer.c:151-180 | The handler adds 1 to the tick count modulo 2^32 and runs the as-written walk, with the effects listed for `Walk` |
| SoftTimer.WalkStopsEarly | timer.c:176 | With a one-shot timer due now followed by a periodic timer due now, the as-written walk calls back only the first timer. The corrected walk calls back both and keeps the periodic one |
| SoftTimer.WalksAgree | timer.c:159-179 | On a tick where no one-shot timer expires, the as-written walk visits every timer and unlinks none, just as the corrected walk does |
| SoftTimer.Scheduler.SweepStep | timer.c:159-179 | One turn of the corrected loop reads the successor before visiting the current timer |
| SoftTimer.Scheduler.Sweep | timer.c:159-179 | The corrected loop counts down every active timer and calls back every expired one in list order. It unlinks exactly the expiring one-shot timers, clears their `next`, and keeps the rest in order |
| SoftTimer.Scheduler.SweepEnds | timer.c:159-179 | When the corrected loop reaches NULL it has visited every timer of the list the tick started with |
| SoftTimer.Scheduler.TickCapturingNext | timer.c:151-180 | The corrected handler adds 1 to the tick count modulo 2^32 and runs the corrected walk |
| Systick.Systick.constructor | systick.c:5-9 | The statics start at zero: tick count, interval, callback and timer record |
| Systick.Systick.Init | systick.c:13-26 | `systick_init` clears the count, stores the callback and fills in the timer as periodic, with the given period, callback `systick_handler` and a NULL user value. It starts the timer without a duplicate or a reload when the timer is already registered, leaves the interval variable unassigned, and returns 1 |
| Systick.Systick.Handler | systick.c:28-34 | `systick_handler` adds 1 to the count modulo 2^32 and calls the user callback only when it is not NULL |
| Systick.SystemTicksPerPeriod | systick.c:19-23 | With interval P >= 1 and the systick timer visited on every tick (as under `SoftTimer.Scheduler.TickCapturingNext`), it expires `rounds` times in `rounds * P` scheduler ticks. Counting one `Handler` run per expiry, the count grows by `rounds` modulo 2^32 |
| Delay.Millis | delay.c:5-9 | `millis` is `timer_millis`, which is the scheduler's tick count |
| Delay.ElapsedMillis | delay.c:11-22 | Without a wrap, `elapsed_millis` is `current - start`. With a wrap, the result stays below UINT32_MAX |
| Delay.ElapsedModular | delay.c:16-17 | The elapsed time the wrap correction aims at: the difference modulo 2^32 |
| Delay.ElapsedSinceNow | delay.c:18-19 | A start time read again with no tick in between has 0 ms elapsed |
| Delay.ElapsedAfter | delay.c:16-19 | n ms after `start`, `elapsed_millis` gives n when the counter did not wrap, and n - 1 when it did |
| Delay.ElapsedModularAfter | delay.c:16-17 | n ms after `start` (n < 2^32), the modular difference is n whether or not the counter wrapped |
| Delay.ElapsedAcrossWrap | delay.c:17 | 3 ms after 0xFFFFFFFD the counter reads 0. The as-written result is 2, and the modular difference is 3 |
| Delay.DelayZero | delay.c:27 | `delay(0)` returns at its first poll |
| Delay.DelayMaxNeverReturns | delay.c:27 | `delay(UINT32_MAX)` started at any time other than 0 never meets its exit test |
| Delay.Delay | delay.c:24-28 | `delay` polls until `elapsed_millis(start) >= msec`. Every earlier poll failed the test, and the poll it stops at passes it |
| Clock.EffectiveDivider | clock.c:128-135 | A divider of 1, 2, 4 or 8 is used as given, and any other value acts as 1 |
| Clock.Scaled | clock.c:199-206 | The getters' divider switch never raises a frequency |
| Clock.ScaledDivBits | clock.c:128-135 | Encoding a divider into a field and decoding that field divides by the effective divider |
| Clock.AclkFreq | clock.c:194-209 | `clock_getACLK` is XT1 divided by the DIVA field, so never more than XT1 |
| Clock.MclkFreq | clock.c:211-235 | `clock_getMCLK` is the oscillator SELM selects (XT2, XT1, or the DCO otherwise), divided by DIVM, so never more than that oscillator |
| Clock.SmclkFreq | clock.c:237-255 | `clock_getSMCLK` is XT2 when SELS is set and the DCO otherwise, divided by DIVS, so never more than that oscillator |
| Clock.AclkBitsKeep | clock.c:137-138 | Configuring ACLK keeps every BCSCTL1 bit outside the DIVA field, so XT2OFF, XTS and RSEL survive |
| Clock.AclkRoundTrip | clock.c:124-139 | After `clock_configACLK(d)`, ACLK reads back as XT1 divided by the effective divider, whatever BCSCTL1 held before |
| Clock.MclkRoundTrip | clock.c:141-167 | After `clock_configMCLK(s, d)`, MCLK reads back as the frequency of `s` (the DCO for an unknown source) divided by the effective divider |
| Clock.SmclkRoundTrip | clock.c:169-192 | After `clock_configSMCLK(s, d)`, SMCLK reads back as XT2 or the DCO when `s` names one of them, and as the previously selected oscillator for any other `s`, divided by the effective divider |
| Clock.MclkKeepsSmclk | clock.c:152-166 | Configuring MCLK leaves the SMCLK frequency unchanged |
| Clock.SmclkKeepsMclk | clock.c:171-191 | Configuring SMCLK leaves the MCLK frequency unchanged |
| Clock.TrimFor | clock.c:41-83 | Only DCO_OFF stops the DCO. Every other frequency gets a trim with RSEL between 4 and 7, and a frequency outside the table gets the 750 kHz trim |
| Clock.InitBits | clock.c:31-39 | `clock_init` sets XT2OFF exactly when the XT2 frequency is 0, sets XTS for an XT1 of 450 kHz or more, never clears XTS, keeps the ACLK divider, and ors in the trim's RSEL unless the DCO is off |
| Clock.ClockSystem.constructor | clock.c:14-16 | The stored frequencies start at 0, and the registers hold whatever the hardware has |
| Clock.ClockSystem.Init | clock.c:25-84 | `clock_init` stores the three frequencies as given (the DCO value even when it is not in the table) and updates BCSCTL1 as `InitBits` describes. BCSCTL2 is untouched. The DCO is stopped for DCO_OFF and trimmed otherwise |
| Clock.ClockSystem.Get | clock.c:109-122 | `clock_get` of a value that names no rail is 0 |
| Clock.ClockSystem.ConfigACLK | clock.c:124-139 | Replaces the DIVA field of BCSCTL1 and keeps every other bit |
| Clock.ClockSystem.ConfigMCLK | clock.c:141-167 | Replaces the SELM and DIVM fields of BCSCTL2 and keeps the SMCLK bits |
| Clock.ClockSystem.ConfigSMCLK | clock.c:169-192 | Sets SELS for XT2, clears it for the DCO, leaves it alone otherwise, and replaces DIVS |
| Clock.ClockSystem.Set | clock.c:86-107 | The configured rail reads back as its source divided by the effective divider (XT1 for ACLK whatever the source). The configured rail's register becomes its `Config*` encoding of the old value, so the other bits survive: XT2OFF, XTS and RSEL under ACLK, and the other rail's fields under MCLK or SMCLK. The other register is unchanged. Every other rail keeps its frequency, and a value that names no rail changes no register |
| Checksum.CalculateChecksum | checksum.c:4-12 | The result is the sum of the first `size` bytes modulo 256, and 0 when `size <= 0` |
| Checksum.ChecksumAppend | checksum.c:10 | One more byte adds its value to the checksum modulo 256 |
| Checksum.SumRemove | checksum.c:10 | Taking one byte out of a sequence takes its value out of the sum |
| Checksum.SumPermutation | checksum.c:9-10 | The checksum does not depend on the order of the bytes: sequences with equal multisets have equal sums and checksums |
| PinMap.MapPinToPort | pin_map.h:56 | For a 16-bit pin number, `mapPinToPort` is the high byte |
| PinMap.MapPinToBit | pin_map.h:56-59 | For a 16-bit pin number, the port and the bit decoded from it encode back to the same pin number |
| PinMap.PinRoundTrip | pin_map.h:56-59 | Decoding `0x100 * port + bit` gives back the port and the bit, for any port and bit that fit in a byte |
| PinMap.PinCodeInjective | pin_map.h:5-53 | Different (port, bit) pairs give different pin numbers |
| PinMap.PinConstantsDecode | pin_map.h:5-53 | Each of the 48 constants `Px_y` decodes to port x and bit y, so no two of them are equal |

## Left out

- Concurrency is not modelled. That covers interrupt preemption, `volatile` and the producer/consumer race on the FIFO cursors. The tick handler, the FIFO operations and the clock calls are atomic method calls.
- Callbacks are opaque identities. The scheduler records each call in the ghost log `Fired` (and Systick in `ClientCalls`). A callback that itself starts or stops timers is not modelled.
- The 16-bit `int` of `mode`, `period_msec` and `ticks_remaining` is modelled as an unbounded integer, so a countdown decremented below -32768 does not wrap.
- `timer_init` and `timer_uninit` (timer.c:16-52) only program TimerA's registers and are not part of this model.
- The `WAIT_CRYSTAL` oscillator-fault polling at the end of `clock_set` (clock.c:4-12, 106) waits on hardware and is not modelled. SCG0 in the status register is a boolean field.
- The DCO trim values of `clock_init` are kept as the constants the code writes. What they do to the oscillator is hardware behaviour and is not modelled.
- Delay.Delay: the loop runs over a finite supply of successive `millis()` readings instead of a counter that an interrupt advances, so the model does not show that `delay` terminates. It states the exit test and which poll passes it.
- SoftTimer.Scheduler.Start: takes a non-null timer. `timer_start(NULL)` dereferences NULL (timer.c:59), and that undefined behaviour is not modelled. The same holds for SoftTimer.Scheduler.Reset.
- PinMap.PinConstantsDecode: distinctness of the 48 constants follows from each one decoding to its own port and bit. It is not stated pair by pair. `P5_3` is defined twice in pin_map.h with the same value and is modelled once.
- Systick.SystemTicksPerPeriod: callbacks are opaque identities, so the dispatch from a logged expiry of the systick timer to a `Handler` run is not modelled. The lemma counts expiries of a timer visited on every tick. That holds under the corrected walk (`SoftTimer.PeriodicOnSweep`), but not under the as-written walk behind an expiring one-shot timer (`SoftTimer.WalkStopsEarly`).
- SoftTimer.PeriodicFiresOncePerPeriod: likewise assumes a visit on every tick, which the as-written walk does not guarantee.
- serial.c, spi.c and gpio.c (USART and port register I/O) are not part of this model.

## Findings

| source | as written | input that shows it | evidently intended | confidence | as-written member | corrected member |
|---|---|---|---|---|---|---|
| fifo.h:50 | `Fifo_empty` is `Fifo_size(fifo) != 0` | A FIFO holding one byte gives 1, and an empty FIFO gives 0 | 1 exactly when the FIFO is empty, as its comment says | high (not executed) | ByteFifo.Fifo.EmptyAsWritten | ByteFifo.Fifo.IsEmpty |
| fifo.h:53 | `Fifo_full` is `Fifo_size(fifo) != 128`, but the size never exceeds 127 | A FIFO holding 127 bytes gives 1, and so does an empty FIFO | 1 exactly when Push would drop the byte (127 bytes queued) | high (not executed) | ByteFifo.Fifo.FullAsWritten | ByteFifo.Fifo.IsFull |
| delay.c:17 | After a wrap, `elapsed_millis` is `UINT32_MAX - start + current`, one less than the elapsed time. So `delay(UINT32_MAX)` never returns unless it started at 0 | start = 0xFFFFFFFD and current = 0 (3 ms later) give 2 | The difference modulo 2^32, which would give 3 | high (not executed) | Delay.ElapsedAcrossWrap | Delay.ElapsedModular |
| timer.c:159-176 | The loop advances with `it = it->next` after `timer_list_remove(it)` has cleared `it->next` | A one-shot timer due now followed by a periodic timer due now: the periodic timer is neither counted down nor called back on that tick | Read the successor before the visit, so every active timer is visited on every tick | high (not executed) | SoftTimer.WalkStopsEarly | SoftTimer.Scheduler.TickCapturingNext |

The model keeps `delay` and the handler as written, so `Delay.Delay` uses `ElapsedMillis` and `SoftTimer.Scheduler.Tick` stops early. `Delay.ElapsedModular` (with `Delay.ElapsedModularAfter`) and `SoftTimer.Scheduler.TickCapturingNext` (with `SoftTimer.Scheduler.Sweep` and `SoftTimer.WalksAgree`) state and prove the intended behaviour.
