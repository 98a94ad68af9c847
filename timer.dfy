/**
 * The software-timer scheduler of timer.c (record layout and constants from
 * timer.h).
 *
 * Caller-owned `timer_t` records are threaded through their `next` fields
 * into one singly-linked active list. `timer_start` appends, `timer_stop`
 * unlinks, `timer_reset` reloads a countdown, and the TimerA interrupt
 * handler counts ticks and walks the list, counting every timer down,
 * calling back expired ones and then reloading (periodic) or unlinking
 * (one-shot) them. The ghost `List` mirrors the `next` chain; callbacks are
 * opaque identities and each call is recorded in the ghost log `Fired`.
 */
module SoftTimer {
  import opened Types

  const TIMER_MODE_PERIODIC: int := 0
  const TIMER_MODE_ONESHOT: int := 1
  const TIMER_RESOLUTION_MSEC: int := 1

  /** A callback (a C function address): NULL, or the identity of some function. */
  datatype Callback = NoCallback | Callback(id: nat)

  /** A `timer_t` record. `mode`, `periodMsec`, `callback` and `user` belong to the caller. */
  class Timer {
    var mode: int
    var periodMsec: int
    var callback: Callback
    var user: int
    var ticksRemaining: int
    var next: Timer?

    /** A record the caller has zero-initialised and then filled in. */
    constructor (mode: int, periodMsec: int, callback: Callback, user: int)
      ensures this.mode == mode && this.periodMsec == periodMsec
      ensures this.callback == callback && this.user == user
      ensures ticksRemaining == 0 && next == null
    {
      this.mode := mode;
      this.periodMsec := periodMsec;
      this.callback := callback;
      this.user := user;
      ticksRemaining := 0;
      next := null;
    }
  }

  /**
   * The countdown loaded by timer_start and timer_reset:
   * `period_msec / TIMER_RESOLUTION_MSEC`. The divisor is 1, so C's
   * truncating division and Dafny's agree and the countdown is the period.
   */
  function ReloadTicks(periodMsec: int): (t: int)
    ensures t == periodMsec
  {
    periodMsec / TIMER_RESOLUTION_MSEC
  }

  /** Whether the handler's `ticks_remaining--` leaves the countdown at or below zero. */
  predicate ExpiresOnTick(ticksRemaining: int) {
    ticksRemaining - 1 <= 0
  }

  /** `ticks_remaining` after the handler has visited a timer. */
  function CountdownStep(mode: int, periodMsec: int, ticksRemaining: int): (t: int)
    ensures !ExpiresOnTick(ticksRemaining) ==> t == ticksRemaining - 1 && t > 0
    ensures ExpiresOnTick(ticksRemaining) && mode == TIMER_MODE_PERIODIC ==> t == periodMsec
    ensures ExpiresOnTick(ticksRemaining) && mode != TIMER_MODE_PERIODIC ==> t == ticksRemaining - 1 && t <= 0
  {
    if ExpiresOnTick(ticksRemaining) && mode == TIMER_MODE_PERIODIC then ReloadTicks(periodMsec)
    else ticksRemaining - 1
  }

  /** The countdown of a periodic timer after `n` handler visits, and how many of them expired it. */
  function PeriodicRun(periodMsec: int, ticksRemaining: int, n: nat): (int, nat)
  {
    if n == 0 then (ticksRemaining, 0)
    else
      var (t, fired) := PeriodicRun(periodMsec, ticksRemaining, n - 1);
      (CountdownStep(TIMER_MODE_PERIODIC, periodMsec, t), if ExpiresOnTick(t) then fired + 1 else fired)
  }

  /** Running a periodic timer for a + b visits is running it for a visits, then for b more. */
  lemma {:induction false} PeriodicRunSplit(p: int, t: int, a: nat, b: nat)
    ensures var (t1, f1) := PeriodicRun(p, t, a);
            PeriodicRun(p, t, a + b) == (PeriodicRun(p, t1, b).0, f1 + PeriodicRun(p, t1, b).1)
    decreases b
  {
    if b > 0 {
      PeriodicRunSplit(p, t, a, b - 1);
    }
  }

  /** With t >= 1 ticks to go, a periodic timer does not expire on the next t - 1 visits and does on the t-th, which reloads it. */
  lemma {:induction false} PeriodicRunCountdown(p: int, t: int, n: nat)
    requires 1 <= t && n <= t
    ensures n < t ==> PeriodicRun(p, t, n) == (t - n, 0)
    ensures n == t ==> PeriodicRun(p, t, n) == (p, 1)
    decreases n
  {
    if n > 0 {
      PeriodicRunCountdown(p, t, n - 1);
    }
  }

  /** Started (or just reloaded) with period P >= 1 and visited on every tick, a periodic timer expires once per P ticks. */
  lemma {:induction false} PeriodicFiresOncePerPeriod(p: int, rounds: nat)
    requires p >= 1
    ensures PeriodicRun(p, p, rounds * p) == (p, rounds)
  {
    if rounds > 0 {
      PeriodicFiresOncePerPeriod(p, rounds - 1);
      assert rounds * p == (rounds - 1) * p + p;
      PeriodicRunSplit(p, p, (rounds - 1) * p, p);
      PeriodicRunCountdown(p, p, p);
    }
  }

  /** No timer occurs twice in L. */
  ghost predicate Distinct(L: seq<Timer>) {
    forall i, j :: 0 <= i < j < |L| ==> At(L, i) != At(L, j)
  }

  /**
   * L[i]. Distinctness is stated on this name rather than on `L[i]`, so that
   * it is used only where a proof mentions `At` and does not multiply with
   * every sequence index in a loop.
   */
  function At(L: seq<Timer>, i: int): Timer
    requires 0 <= i < |L|
  {
    L[i]
  }

  /** A slice of a list without repetitions has none either. */
  lemma DistinctSlice(L: seq<Timer>, a: nat, b: nat)
    requires Distinct(L) && a <= b <= |L|
    ensures Distinct(L[a..b])
  {
    forall i, j | 0 <= i < j < b - a
      ensures At(L[a..b], i) != At(L[a..b], j)
    {
      assert At(L, a + i) != At(L, a + j);
    }
  }

  /** `head` and the `next` fields spell out exactly the list L, which ends in NULL and repeats no timer. */
  ghost predicate Linked(head: Timer?, L: seq<Timer>)
    reads L`next
  {
    && head == (if L == [] then null else L[0])
    && (forall i {:trigger L[i].next} :: 0 <= i < |L| ==> L[i].next == Successor(L, i))
    && Distinct(L)
  }

  /** The timer after position i of L, or NULL at the end. */
  function Successor(L: seq<Timer>, i: int): Timer?
    requires 0 <= i < |L|
  {
    if i + 1 < |L| then L[i + 1] else null
  }

  /** No `next` field of a linked list points back to the same or an earlier timer: the list is acyclic. */
  lemma LinkedIsAcyclic(head: Timer?, L: seq<Timer>)
    requires Linked(head, L)
    ensures forall i, j :: 0 <= j <= i < |L| ==> L[i].next != L[j]
  {
    forall i, j | 0 <= j <= i < |L|
      ensures L[i].next != L[j]
    {
      if i + 1 < |L| {
        assert At(L, j) != At(L, i + 1);
      }
    }
  }

  /** The chain from `head` determines the list: the ghost mirror cannot disagree with the `next` fields. */
  lemma {:induction false} LinkedUnique(head: Timer?, L1: seq<Timer>, L2: seq<Timer>)
    requires Linked(head, L1) && Linked(head, L2)
    ensures L1 == L2
    decreases |L1|
  {
    if L1 != [] {
      assert L2 != [] && L1[0] == L2[0];
      var h := L1[0].next;
      DistinctSlice(L1, 1, |L1|);
      DistinctSlice(L2, 1, |L2|);
      assert L1[1..|L1|] == L1[1..] && L2[1..|L2|] == L2[1..];
      assert Linked(h, L1[1..]);
      assert Linked(h, L2[1..]);
      LinkedUnique(h, L1[1..], L2[1..]);
      assert L1 == [L1[0]] + L1[1..];
      assert L2 == [L2[0]] + L2[1..];
    } else {
      assert L2 == [];
    }
  }

  /**
   * Bypassing position i (the predecessor's `next`, or the head, now points
   * at i's successor) leaves a linked list of the other timers.
   */
  lemma RemoveRelinks(L: seq<Timer>, i: nat, head: Timer?)
    requires Distinct(L) && i < |L|
    requires forall a {:trigger L[a].next} :: 0 <= a < |L| && a != i && a + 1 != i ==> L[a].next == Successor(L, a)
    requires i > 0 ==> L[i - 1].next == Successor(L, i) && head == L[0]
    requires i == 0 ==> head == Successor(L, 0)
    ensures Linked(head, RemoveAt(L, i))
  {
    var R := RemoveAt(L, i);
    forall a | 0 <= a < |R|
      ensures R[a].next == Successor(R, a)
    {
      var a' := if a < i then a else a + 1;
      if a' == i - 1 {
        assert R[a].next == Successor(L, i);
      } else {
        assert L[a'].next == Successor(L, a');
      }
    }
    forall a, b | 0 <= a < b < |R|
      ensures At(R, a) != At(R, b)
    {
      var a', b' := if a < i then a else a + 1, if b < i then b else b + 1;
      assert At(L, a') != At(L, b');
    }
  }

  /** The position of a timer in a list (its first occurrence). */
  function IndexOf(L: seq<Timer>, t: Timer): (i: nat)
    requires t in L
    ensures i < |L| && L[i] == t
    ensures forall j :: 0 <= j < i ==> L[j] != t
  {
    if L[0] == t then 0 else 1 + IndexOf(L[1..], t)
  }

  /** The list with position i taken out. */
  function RemoveAt(L: seq<Timer>, i: nat): (r: seq<Timer>)
    requires i < |L|
    ensures |r| == |L| - 1
    ensures forall j :: 0 <= j < i ==> r[j] == L[j]
    ensures forall j :: i <= j < |r| ==> r[j] == L[j + 1]
  {
    seq(|L| - 1, j requires 0 <= j < |L| - 1 => if j < i then L[j] else L[j + 1])
  }

  /** What the handler reads of one timer: its mode, period, callback and countdown at the start of a tick. */
  datatype TimerView = TimerView(mode: int, periodMsec: int, callback: Callback, ticksRemaining: int)

  ghost function View(t: Timer): TimerView
    reads t
  {
    TimerView(t.mode, t.periodMsec, t.callback, t.ticksRemaining)
  }

  /** The views of the timers of L in the current state. */
  ghost function Views(L: seq<Timer>): (vs: seq<TimerView>)
    reads L
    ensures |vs| == |L| && forall i {:trigger vs[i]} :: 0 <= i < |L| ==> vs[i] == View(L[i])
  {
    seq(|L|, i reads L requires 0 <= i < |L| => View(L[i]))
  }

  /** This tick expires the timer while it is one-shot, so the handler unlinks it. */
  predicate Unlinks(v: TimerView) {
    ExpiresOnTick(v.ticksRemaining) && v.mode != TIMER_MODE_PERIODIC
  }

  /** This tick expires the timer and its callback is not NULL, so the handler calls it. */
  predicate Calls(v: TimerView) {
    ExpiresOnTick(v.ticksRemaining) && v.callback != NoCallback
  }

  /** The countdown of a timer once the handler has visited it. */
  function After(v: TimerView): int {
    CountdownStep(v.mode, v.periodMsec, v.ticksRemaining)
  }

  /** The position of the first timer from i on that this tick unlinks, or |V| when there is none. */
  function FirstUnlinked(V: seq<TimerView>, i: nat): (k: nat)
    requires i <= |V|
    ensures i <= k <= |V|
    ensures forall m :: i <= m < k ==> !Unlinks(V[m])
    ensures k < |V| ==> Unlinks(V[k])
    decreases |V| - i
  {
    if i == |V| then i else if Unlinks(V[i]) then i else FirstUnlinked(V, i + 1)
  }

  /** Of the first n timers of L (whose views are V), those whose callbacks a tick calls, in list order. */
  function CalledBack(L: seq<Timer>, V: seq<TimerView>, n: nat): (r: seq<Timer>)
    requires |V| == |L| && n <= |L|
    ensures |r| <= n
  {
    if n == 0 then [] else CalledBack(L, V, n - 1) + (if Calls(V[n - 1]) then [L[n - 1]] else [])
  }

  /** Of the first n timers of L (whose views are V), those a tick leaves linked, in list order. */
  function Survivors(L: seq<Timer>, V: seq<TimerView>, n: nat): (r: seq<Timer>)
    requires |V| == |L| && n <= |L|
    ensures |r| <= n
  {
    if n == 0 then [] else Survivors(L, V, n - 1) + (if Unlinks(V[n - 1]) then [] else [L[n - 1]])
  }

  /** Survivors keeps only timers of the prefix. */
  lemma {:induction false} SurvivorsSubset(L: seq<Timer>, V: seq<TimerView>, n: nat)
    requires |V| == |L| && n <= |L|
    ensures forall x :: x in Survivors(L, V, n) ==> x in L[..n]
  {
    if n > 0 {
      SurvivorsSubset(L, V, n - 1);
      assert forall x :: x in L[..n - 1] ==> x in L[..n];
    }
  }

  /** When none of the first n timers is unlinked, all of them survive. */
  lemma {:induction false} SurvivorsAll(L: seq<Timer>, V: seq<TimerView>, n: nat)
    requires |V| == |L| && n <= |L|
    requires forall i :: 0 <= i < n ==> !Unlinks(V[i])
    ensures Survivors(L, V, n) == L[..n]
  {
    if n > 0 {
      SurvivorsAll(L, V, n - 1);
      assert L[..n] == L[..n - 1] + [L[n - 1]];
    }
  }

  /** A timer among the first n that a tick does not unlink stays in the list. */
  lemma {:induction false} SurvivorsKeep(L: seq<Timer>, V: seq<TimerView>, n: nat, i: nat)
    requires |V| == |L| && i < n <= |L| && !Unlinks(V[i])
    ensures L[i] in Survivors(L, V, n)
  {
    if i < n - 1 {
      SurvivorsKeep(L, V, n - 1, i);
    }
  }

  /** In a list without duplicates, a tick calls a timer among the first n back once if it calls it at all. */
  lemma CalledBackCount(L: seq<Timer>, V: seq<TimerView>, n: nat, i: nat)
    requires |V| == |L| && n <= |L| && i < |L| && Distinct(L)
    ensures multiset(CalledBack(L, V, n))[L[i]] == if i < n && Calls(V[i]) then 1 else 0
  {
    forall j | 0 <= j < |L| && j != i
      ensures At(L, j) != At(L, i)
    {
      if j < i { assert At(L, j) != At(L, i); } else { assert At(L, i) != At(L, j); }
    }
    if i < n {
      CountFrom(L, V, n, i);
    } else {
      CountBefore(L, V, n, i);
    }
  }

  /** One more timer adds one occurrence of x to the calls exactly when it is x and the tick calls it. */
  lemma CalledBackStep(L: seq<Timer>, V: seq<TimerView>, n: nat, x: Timer)
    requires |V| == |L| && 0 < n <= |L|
    ensures multiset(CalledBack(L, V, n))[x]
         == multiset(CalledBack(L, V, n - 1))[x] + (if Calls(V[n - 1]) && L[n - 1] == x then 1 else 0)
  {
    var prev := CalledBack(L, V, n - 1);
    var last := if Calls(V[n - 1]) then [L[n - 1]] else [];
    assert CalledBack(L, V, n) == prev + last;
    assert multiset(prev + last) == multiset(prev) + multiset(last);
  }

  /** Before position i, a tick has not called L[i] back: no earlier position holds it. */
  lemma {:induction false} CountBefore(L: seq<Timer>, V: seq<TimerView>, n: nat, i: nat)
    requires |V| == |L| && n <= i < |L|
    requires forall j {:trigger At(L, j)} :: 0 <= j < i ==> At(L, j) != At(L, i)
    ensures multiset(CalledBack(L, V, n))[L[i]] == 0
  {
    if n > 0 {
      CalledBackStep(L, V, n, L[i]);
      CountBefore(L, V, n - 1, i);
      assert At(L, n - 1) != At(L, i);
    }
  }

  /** From position i on, a tick has called L[i] back once if it calls it at all: no later position holds it. */
  lemma {:induction false} CountFrom(L: seq<Timer>, V: seq<TimerView>, n: nat, i: nat)
    requires |V| == |L| && i < n <= |L|
    requires forall j {:trigger At(L, j)} :: 0 <= j < |L| && j != i ==> At(L, j) != At(L, i)
    ensures multiset(CalledBack(L, V, n))[L[i]] == if Calls(V[i]) then 1 else 0
  {
    CalledBackStep(L, V, n, L[i]);
    if n - 1 == i {
      CountBefore(L, V, i, i);
    } else {
      CountFrom(L, V, n - 1, i);
      assert At(L, n - 1) != At(L, i);
    }
  }

  /** One handler visit of a periodic timer is one step of PeriodicRun. */
  lemma PeriodicVisit(p: int, t: int, cb: Callback)
    ensures PeriodicRun(p, t, 1)
         == (After(TimerView(TIMER_MODE_PERIODIC, p, cb, t)), if ExpiresOnTick(t) then 1 else 0)
  {
  }

  /**
   * Under the corrected walk (Survivors, CalledBack), a tick is one step of
   * PeriodicRun for every periodic timer with a callback: the timer stays
   * in the list, its new countdown is PeriodicRun's, and the walk calls it
   * back as many times as PeriodicRun counts an expiry.
   */
  lemma PeriodicOnSweep(L: seq<Timer>, V: seq<TimerView>, i: nat)
    requires |V| == |L| && i < |L| && Distinct(L)
    requires V[i].mode == TIMER_MODE_PERIODIC && V[i].callback != NoCallback
    ensures L[i] in Survivors(L, V, |L|)
    ensures PeriodicRun(V[i].periodMsec, V[i].ticksRemaining, 1)
         == (After(V[i]), multiset(CalledBack(L, V, |L|))[L[i]])
  {
    SurvivorsKeep(L, V, |L|, i);
    CalledBackCount(L, V, |L|, i);
    PeriodicVisit(V[i].periodMsec, V[i].ticksRemaining, V[i].callback);
  }

  /** The process-wide scheduler state of timer.c: `_timer_list_head` and `_timer_ticks`. */
  class Scheduler {
    var head: Timer?
    var ticks: Uint32

    /** The active timers, in list order. */
    ghost var List: seq<Timer>
    /** Every timer whose callback the handler has called, in call order. */
    ghost var Fired: seq<Timer>

    ghost predicate Valid()
      reads this`head, this`List, List`next
    {
      Linked(head, List)
    }

    /** The statics at power-up: an empty list and a zero tick count. */
    constructor ()
      ensures Valid() && List == [] && Fired == [] && ticks == 0
    {
      head := null;
      ticks := 0;
      List := [];
      Fired := [];
    }

    /** timer_list_exists: a walk along the list looking for the timer. */
    method Exists(t: Timer) returns (found: bool)
      requires Valid()
      ensures found <==> t in List
    {
      var it := head;
      ghost var k := 0;
      while it != null
        invariant 0 <= k <= |List|
        invariant it == (if k < |List| then List[k] else null)
        invariant t !in List[..k]
        decreases |List| - k
      {
        if it == t {
          return true;
        }
        assert List[..k + 1] == List[..k] + [List[k]];
        it := it.next;
        k := k + 1;
      }
      assert List[..k] == List;
      return false;
    }

    /** timer_list_find_previous: the timer whose `next` is t, or NULL (also when t is the head or absent). */
    method FindPrevious(t: Timer) returns (prev: Timer?)
      requires Valid()
      ensures t in List && t != List[0] ==> prev == List[IndexOf(List, t) - 1]
      ensures !(t in List && t != List[0]) ==> prev == null
    {
      var it := head;
      ghost var k := 0;
      while it != null
        invariant 0 <= k <= |List|
        invariant it == (if k < |List| then List[k] else null)
        invariant forall i :: 1 <= i <= k && i < |List| ==> List[i] != t
        decreases |List| - k
      {
        if it.next == t {
          assert k + 1 < |List| && List[k + 1] == t;
          assert At(List, 0) != At(List, k + 1);
          assert IndexOf(List, t) == k + 1;
          return it;
        }
        it := it.next;
        k := k + 1;
      }
      return null;
    }

    /** timer_list_find_last: the timer whose `next` is NULL, or NULL for an empty list. */
    method FindLast() returns (last: Timer?)
      requires Valid()
      ensures last == (if List == [] then null else List[|List| - 1])
    {
      var it := head;
      ghost var k := 0;
      while it != null
        invariant 0 <= k <= |List|
        invariant it == (if k < |List| then List[k] else null)
        invariant List != [] ==> k < |List|
        decreases |List| - k
      {
        if it.next == null {
          return it;
        }
        it := it.next;
        k := k + 1;
      }
      return null;
    }

    /** timer_list_add: link t behind the last timer, or make it the head of an empty list. */
    method Add(t: Timer)
      requires Valid()
      requires t !in List && t.next == null
      modifies this`head, this`List, List`next
      ensures Valid()
      ensures List == old(List) + [t]
    {
      ghost var L := List;
      if head == null {
        head := t;
      } else {
        var last := FindLast();
        last.next := t;
      }
      List := List + [t];
      forall i | 0 <= i < |List|
        ensures List[i].next == Successor(List, i)
      {
        if i < |L| - 1 {
          assert At(L, i) != At(L, |L| - 1);
        }
      }
      forall a, b | 0 <= a < b < |List|
        ensures At(List, a) != At(List, b)
      {
        if b < |L| {
          assert At(L, a) != At(L, b);
        }
      }
    }

    /** timer_list_remove: unlink t from the head or from behind its predecessor, and clear its `next`. */
    method Remove(t: Timer)
      requires Valid()
      requires t in List
      modifies this`head, this`List, List`next
      ensures Valid()
      ensures List == RemoveAt(old(List), IndexOf(old(List), t))
      ensures t.next == null
    {
      ghost var L := List;
      ghost var i := IndexOf(List, t);
      if head == t {
        head := t.next;
        t.next := null;
      } else {
        var prev := FindPrevious(t);
        prev.next := t.next;
        t.next := null;
      }
      List := RemoveAt(L, i);
      forall a | 0 <= a < |L| && a != i && a + 1 != i
        ensures L[a].next == Successor(L, a)
      {
        assert At(L, a) != At(L, i);
        if i > 0 {
          assert At(L, a) != At(L, i - 1);
        }
      }
      RemoveRelinks(L, i, head);
    }

    /** timer_start: a no-op for a registered timer; otherwise clear `next`, load the countdown and append. */
    method Start(t: Timer)
      requires Valid()
      modifies this`head, this`List, List`next, t`next, t`ticksRemaining
      ensures Valid()
      ensures old(t in List) ==> List == old(List) && t.ticksRemaining == old(t.ticksRemaining)
      ensures old(t !in List) ==>
                List == old(List) + [t] && t.ticksRemaining == ReloadTicks(t.periodMsec) && t.next == null
    {
      var registered := Exists(t);
      if registered {
        return;
      }
      t.next := null;
      t.ticksRemaining := ReloadTicks(t.periodMsec);
      Add(t);
    }

    /** timer_stop: unlink the timer if it is registered; NULL and unregistered timers change nothing. */
    method Stop(t: Timer?)
      requires Valid()
      modifies this`head, this`List, List`next
      ensures Valid()
      ensures t != null && old(t in List) ==>
                List == RemoveAt(old(List), IndexOf(old(List), t)) && t.next == null
      ensures !(t != null && old(t in List)) ==> List == old(List)
    {
      if t != null {
        var registered := Exists(t);
        if registered {
          Remove(t);
        }
      }
    }

    /** timer_reset: reload the countdown; list membership is untouched. */
    method Reset(t: Timer)
      modifies t`ticksRemaining
      ensures t.ticksRemaining == ReloadTicks(t.periodMsec)
    {
      t.ticksRemaining := ReloadTicks(t.periodMsec);
    }

    /** timer_millis: the tick count times the resolution, in 32-bit arithmetic. */
    function Millis(): (ms: Uint32)
      reads this
      ensures ms == ticks
    {
      ToUint32(ticks * TIMER_RESOLUTION_MSEC)
    }

    /**
     * The body of the handler's loop for one active timer: count it down;
     * when it expires, call its callback if there is one, then reload it
     * (periodic) or unlink it, which clears its `next` (one-shot). `Universe`
     * is any sequence of timers covering the list; it only names the `next`
     * fields the unlinking may write.
     */
    method Visit(t: Timer, ghost Universe: seq<Timer>)
      requires Valid() && t in List
      requires forall i :: 0 <= i < |List| ==> List[i] in Universe
      modifies this`head, this`List, this`Fired, Universe`next, t`ticksRemaining
      ensures Valid()
      ensures t.ticksRemaining == CountdownStep(t.mode, t.periodMsec, old(t.ticksRemaining))
      ensures Fired == old(Fired) + (if Calls(old(View(t))) then [t] else [])
      ensures Unlinks(old(View(t))) ==> List == RemoveAt(old(List), IndexOf(old(List), t)) && t.next == null
      ensures !Unlinks(old(View(t))) ==> List == old(List)
      ensures forall i :: 0 <= i < |Universe| && Universe[i] !in old(List) ==> Universe[i].next == old(Universe[i].next)
    {
      t.ticksRemaining := t.ticksRemaining - 1;
      if t.ticksRemaining <= 0 {
        if t.callback != NoCallback {
          Fired := Fired + [t];
        }
        if t.mode == TIMER_MODE_PERIODIC {
          Reset(t);
        } else {
          Remove(t);
        }
      }
    }

    /**
     * How far the as-written walk has got: it has visited the first j timers
     * of the list L the tick started with (whose views were V), and `it` is
     * where it goes next.
     */
    ghost predicate Walked(L: seq<Timer>, V: seq<TimerView>, F0: seq<Timer>, j: nat, it: Timer?)
      reads this`List, this`Fired, L
    {
      var k := FirstUnlinked(V, 0);
      && |V| == |L| && Distinct(L) && j <= |L| && j <= k + 1
      && (forall i {:trigger V[i]} :: 0 <= i < |L| ==>
            L[i].mode == V[i].mode && L[i].periodMsec == V[i].periodMsec && L[i].callback == V[i].callback)
      && (j <= k ==> List == L && it == (if j < |L| then L[j] else null))
      && (k < j ==> j == k + 1 && it == null && List == RemoveAt(L, k) && L[k].next == null)
      && (forall i {:trigger V[i]} :: j <= i < |L| ==> L[i].ticksRemaining == V[i].ticksRemaining)
      && (forall i {:trigger V[i]} :: 0 <= i < j ==> L[i].ticksRemaining == After(V[i]))
      && Fired == F0 + CalledBack(L, V, j)
    }

    /** One turn of the as-written walk: visit `it`, then follow its `next` as it is afterwards. */
    method WalkStep(it: Timer, ghost L: seq<Timer>, ghost V: seq<TimerView>, ghost F0: seq<Timer>, ghost j: nat)
        returns (following: Timer?)
      requires Valid() && Walked(L, V, F0, j, it)
      modifies this`head, this`List, this`Fired, L`next, L`ticksRemaining
      ensures Valid() && Walked(L, V, F0, j + 1, following)
    {
      OthersDiffer(L, j);
      IndexOfDistinct(L, j);
      assert View(it) == V[j];
      Visit(it, L);
      following := it.next;
      WalkAdvances(L, V, F0, j, following);
    }

    /** The state after the as-written walk has visited L[j], read off the effects of one visit. */
    lemma WalkAdvances(L: seq<Timer>, V: seq<TimerView>, F0: seq<Timer>, j: nat, following: Timer?)
      requires |V| == |L| && Distinct(L) && j < |L| && j <= FirstUnlinked(V, 0)
      requires forall i :: 0 <= i < |L| ==>
                 L[i].mode == V[i].mode && L[i].periodMsec == V[i].periodMsec && L[i].callback == V[i].callback
      requires Unlinks(V[j]) ==> List == RemoveAt(L, j) && L[j].next == null && following == null
      requires !Unlinks(V[j]) ==> List == L && following == (if j + 1 < |L| then L[j + 1] else null)
      requires forall i :: j < i < |L| ==> L[i].ticksRemaining == V[i].ticksRemaining
      requires forall i :: 0 <= i <= j ==> L[i].ticksRemaining == After(V[i])
      requires Fired == F0 + CalledBack(L, V, j) + (if Calls(V[j]) then [L[j]] else [])
      ensures Walked(L, V, F0, j + 1, following)
    {
    }

    /**
     * TIMERA_IRQHandler, as written. Unlinking an expired one-shot timer
     * clears its `next`, and the walk continues through that field, so the
     * walk ends at the first one-shot timer that expires: timers behind it
     * are neither counted down nor called back on this tick.
     */
    method Tick()
      requires Valid()
      modifies this, List`next, List`ticksRemaining
      ensures Valid()
      ensures ticks == Inc32(old(ticks))
      ensures var L, V := old(List), old(Views(List));
              var k := FirstUnlinked(V, 0);
        && List == (if k < |L| then RemoveAt(L, k) else L)
        && (k < |L| ==> L[k].next == null)
        && (forall i {:trigger V[i]} :: 0 <= i < |L| ==> L[i].ticksRemaining == if i <= k then After(V[i]) else V[i].ticksRemaining)
        && Fired == old(Fired) + CalledBack(L, V, Min(k + 1, |L|))
    {
      ticks := Inc32(ticks);
      Walk(List, Views(List), Fired);
    }

    /** The loop of TIMERA_IRQHandler, as written. */
    method Walk(ghost L: seq<Timer>, ghost V: seq<TimerView>, ghost F0: seq<Timer>)
      requires Valid() && L == List && V == Views(L) && F0 == Fired
      modifies this`head, this`List, this`Fired, L`next, L`ticksRemaining
      ensures Valid()
      ensures var k := FirstUnlinked(V, 0);
        && List == (if k < |L| then RemoveAt(L, k) else L)
        && (k < |L| ==> L[k].next == null)
        && (forall i {:trigger V[i]} :: 0 <= i < |L| ==> L[i].ticksRemaining == if i <= k then After(V[i]) else V[i].ticksRemaining)
        && Fired == F0 + CalledBack(L, V, Min(k + 1, |L|))
    {
      ghost var j := 0;
      var it := head;
      WalkBegins(L, V);
      while it != null
        invariant Valid() && Walked(L, V, F0, j, it)
        decreases |L| - j
      {
        it := WalkStep(it, L, V, F0, j);
        j := j + 1;
      }
      WalkEnds(L, V, F0, j);
    }

    /** Before the first turn of the as-written walk nothing has been visited. */
    lemma WalkBegins(L: seq<Timer>, V: seq<TimerView>)
      requires Valid() && L == List && V == Views(List)
      ensures Walked(L, V, Fired, 0, head)
    {
    }

    /** When the as-written walk reaches NULL it has visited the timers up to and including the first one it unlinks. */
    lemma WalkEnds(L: seq<Timer>, V: seq<TimerView>, F0: seq<Timer>, j: nat)
      requires Walked(L, V, F0, j, null)
      ensures var k := FirstUnlinked(V, 0);
        && j == Min(k + 1, |L|)
        && List == (if k < |L| then RemoveAt(L, k) else L)
        && (k < |L| ==> L[k].next == null)
        && (forall i {:trigger V[i]} :: 0 <= i < |L| ==> L[i].ticksRemaining == if i <= k then After(V[i]) else V[i].ticksRemaining)
        && Fired == F0 + CalledBack(L, V, Min(k + 1, |L|))
    {
    }

    /**
     * How far the corrected walk has got: it has visited the first j timers
     * of the list L the tick started with (whose views were V); the list is
     * the survivors among those followed by the rest of L, and `it` is L[j].
     */
    ghost predicate Swept(L: seq<Timer>, V: seq<TimerView>, F0: seq<Timer>, j: nat, it: Timer?)
      reads this`List, this`Fired, L
    {
      && |V| == |L| && Distinct(L) && j <= |L|
      && (forall i {:trigger V[i]} :: 0 <= i < |L| ==>
            L[i].mode == V[i].mode && L[i].periodMsec == V[i].periodMsec && L[i].callback == V[i].callback)
      && it == (if j < |L| then L[j] else null)
      && List == Survivors(L, V, j) + L[j..]
      && (forall i {:trigger V[i]} :: 0 <= i < j && Unlinks(V[i]) ==> L[i].next == null)
      && (forall i {:trigger V[i]} :: j <= i < |L| ==> L[i].ticksRemaining == V[i].ticksRemaining)
      && (forall i {:trigger V[i]} :: 0 <= i < j ==> L[i].ticksRemaining == After(V[i]))
      && Fired == F0 + CalledBack(L, V, j)
    }

    /** One turn of the corrected walk: read `it.next` first, then visit `it`. */
    method SweepStep(it: Timer, ghost L: seq<Timer>, ghost V: seq<TimerView>, ghost F0: seq<Timer>, ghost j: nat)
        returns (following: Timer?)
      requires Valid() && Swept(L, V, F0, j, it)
      modifies this`head, this`List, this`Fired, L`next, L`ticksRemaining
      ensures Valid() && Swept(L, V, F0, j + 1, following)
    {
      ghost var kept := Survivors(L, V, j);
      SurvivorsListIn(L, V, j, List);
      JoinAt(kept, L, j);
      IndexOfDistinct(List, |kept|);
      OthersDiffer(L, j);
      UnlinkedAreOut(L, V, j);
      following := it.next;
      assert View(it) == V[j];
      Visit(it, L);
      SweepAdvances(L, V, F0, j, following);
    }

    /** The state after the corrected walk has visited L[j], read off the effects of one visit. */
    lemma SweepAdvances(L: seq<Timer>, V: seq<TimerView>, F0: seq<Timer>, j: nat, following: Timer?)
      requires |V| == |L| && Distinct(L) && j < |L|
      requires forall i :: 0 <= i < |L| ==>
                 L[i].mode == V[i].mode && L[i].periodMsec == V[i].periodMsec && L[i].callback == V[i].callback
      requires following == (if j + 1 < |L| then L[j + 1] else null)
      requires Unlinks(V[j]) ==> List == Survivors(L, V, j) + L[j + 1..]
      requires !Unlinks(V[j]) ==> List == Survivors(L, V, j) + L[j..]
      requires forall i :: 0 <= i <= j && Unlinks(V[i]) ==> L[i].next == null
      requires forall i :: j < i < |L| ==> L[i].ticksRemaining == V[i].ticksRemaining
      requires forall i :: 0 <= i <= j ==> L[i].ticksRemaining == After(V[i])
      requires Fired == F0 + CalledBack(L, V, j) + (if Calls(V[j]) then [L[j]] else [])
      ensures Swept(L, V, F0, j + 1, following)
    {
      if !Unlinks(V[j]) {
        assert Survivors(L, V, j) + L[j..] == Survivors(L, V, j + 1) + L[j + 1..];
      }
    }

    /**
     * The corrected handler: the successor is read before the timer is
     * processed, so every active timer is visited on every tick, and every
     * expiring one-shot timer is unlinked.
     */
    method TickCapturingNext()
      requires Valid()
      modifies this, List`next, List`ticksRemaining
      ensures Valid()
      ensures ticks == Inc32(old(ticks))
      ensures var L, V := old(List), old(Views(List));
        && List == Survivors(L, V, |L|)
        && (forall i {:trigger V[i]} :: 0 <= i < |L| ==> L[i].ticksRemaining == After(V[i]))
        && (forall i {:trigger V[i]} :: 0 <= i < |L| && Unlinks(V[i]) ==> L[i].next == null)
        && Fired == old(Fired) + CalledBack(L, V, |L|)
    {
      ticks := Inc32(ticks);
      Sweep(List, Views(List), Fired);
    }

    /** The loop of the corrected handler: `next` is read before the visit. */
    method Sweep(ghost L: seq<Timer>, ghost V: seq<TimerView>, ghost F0: seq<Timer>)
      requires Valid() && L == List && V == Views(L) && F0 == Fired
      modifies this`head, this`List, this`Fired, L`next, L`ticksRemaining
      ensures Valid()
      ensures List == Survivors(L, V, |L|)
      ensures forall i {:trigger V[i]} :: 0 <= i < |L| ==> L[i].ticksRemaining == After(V[i])
      ensures forall i {:trigger V[i]} :: 0 <= i < |L| && Unlinks(V[i]) ==> L[i].next == null
      ensures Fired == F0 + CalledBack(L, V, |L|)
    {
      ghost var j := 0;
      var it := head;
      SweepBegins(L, V);
      while it != null
        invariant Valid() && Swept(L, V, F0, j, it)
        decreases |L| - j
      {
        it := SweepStep(it, L, V, F0, j);
        j := j + 1;
      }
      SweepEnds(L, V, F0, j);
    }

    /** Before the first turn of the corrected walk nothing has been visited. */
    lemma SweepBegins(L: seq<Timer>, V: seq<TimerView>)
      requires Valid() && L == List && V == Views(List)
      ensures Swept(L, V, Fired, 0, head)
    {
      assert Survivors(L, V, 0) + L[0..] == L;
    }

    /** When the corrected walk reaches NULL it has visited every timer. */
    lemma SweepEnds(L: seq<Timer>, V: seq<TimerView>, F0: seq<Timer>, j: nat)
      requires Swept(L, V, F0, j, null)
      ensures j == |L|
      ensures List == Survivors(L, V, |L|)
      ensures forall i {:trigger V[i]} :: 0 <= i < |L| ==> L[i].ticksRemaining == After(V[i])
      ensures forall i {:trigger V[i]} :: 0 <= i < |L| && Unlinks(V[i]) ==> L[i].next == null
      ensures Fired == F0 + CalledBack(L, V, |L|)
    {
      assert L[j..] == [];
    }
  }

  /** In a list without repetitions, the position of the timer at i is i. */
  lemma IndexOfDistinct(S: seq<Timer>, i: nat)
    requires Distinct(S) && i < |S|
    ensures IndexOf(S, S[i]) == i
  {
    forall m | 0 <= m < i
      ensures S[m] != S[i]
    {
      assert At(S, m) != At(S, i);
    }
  }

  /** In a list without repetitions, every position other than j holds another timer. */
  lemma OthersDiffer(L: seq<Timer>, j: nat)
    requires Distinct(L) && j < |L|
    ensures forall i :: 0 <= i < |L| && i != j ==> L[i] != L[j]
  {
    forall i | 0 <= i < |L| && i != j
      ensures L[i] != L[j]
    {
      if i < j {
        assert At(L, i) != At(L, j);
      } else {
        assert At(L, j) != At(L, i);
      }
    }
  }

  /** In a list without repetitions, a timer before position j is not in the suffix from j. */
  lemma NotInSuffix(L: seq<Timer>, i: nat, j: nat)
    requires Distinct(L) && i < j <= |L|
    ensures L[i] !in L[j..]
  {
    forall m | 0 <= m < |L| - j
      ensures L[j..][m] != L[i]
    {
      assert At(L, i) != At(L, j + m);
    }
  }


  /** The list partway through the corrected walk (survivors, then the unvisited rest) holds only timers of L. */
  lemma SurvivorsListIn(L: seq<Timer>, V: seq<TimerView>, j: nat, S: seq<Timer>)
    requires |V| == |L| && j <= |L| && S == Survivors(L, V, j) + L[j..]
    ensures forall i :: 0 <= i < |S| ==> S[i] in L
  {
    var F := Survivors(L, V, j);
    SurvivorsSubset(L, V, j);
    forall i | 0 <= i < |F + L[j..]|
      ensures (F + L[j..])[i] in L
    {
      if i < |F| {
        assert F[i] in F;
        assert F[i] in L[..j];
      } else {
        assert (F + L[j..])[i] == L[j + i - |F|];
      }
    }
  }

  /** In a list without repetitions, a timer among the first n that a tick unlinks is not among the survivors. */
  lemma {:induction false} SurvivorsDrop(L: seq<Timer>, V: seq<TimerView>, n: nat, i: nat)
    requires |V| == |L| && n <= |L| && Distinct(L) && i < n && Unlinks(V[i])
    ensures L[i] !in Survivors(L, V, n)
  {
    if i < n - 1 {
      SurvivorsDrop(L, V, n - 1, i);
      assert At(L, i) != At(L, n - 1);
    } else {
      SurvivorsSubset(L, V, n - 1);
      var p := L[..n - 1];
      forall m | 0 <= m < |p|
        ensures p[m] != L[i]
      {
        assert At(L, m) != At(L, i);
      }
    }
  }

  /** Partway through the corrected walk, no timer it has unlinked is still in the list. */
  lemma UnlinkedAreOut(L: seq<Timer>, V: seq<TimerView>, j: nat)
    requires Distinct(L) && |V| == |L| && j <= |L|
    ensures forall i :: 0 <= i < j && Unlinks(V[i]) ==> L[i] !in Survivors(L, V, j) + L[j..]
  {
    forall i | 0 <= i < j && Unlinks(V[i])
      ensures L[i] !in Survivors(L, V, j) + L[j..]
    {
      SurvivorsDrop(L, V, j, i);
      NotInSuffix(L, i, j);
    }
  }

  /** Taking out the first unvisited timer: what the corrected walk's list becomes when a timer is unlinked. */
  lemma JoinAt(F: seq<Timer>, L: seq<Timer>, j: nat)
    requires j < |L|
    ensures (F + L[j..])[|F|] == L[j]
    ensures |F| + 1 < |F + L[j..]| ==> (F + L[j..])[|F| + 1] == L[j + 1]
    ensures RemoveAt(F + L[j..], |F|) == F + L[j + 1..]
    ensures F + L[j..] == (F + [L[j]]) + L[j + 1..]
  {
    var S := F + L[j..];
    assert S[..|F|] == F;
    assert S[|F| + 1..] == L[j + 1..];
  }

  /**
   * The as-written walk misses timers: a one-shot timer due now, followed by
   * a periodic one also due now. Unlinking the first ends the walk, so the
   * periodic timer is neither counted down nor called back on this tick,
   * while the corrected walk calls back both and keeps only the periodic one.
   */
  lemma WalkStopsEarly(a: Timer, b: Timer)
    ensures var L := [a, b];
            var V := [TimerView(TIMER_MODE_ONESHOT, 5, Callback(1), 1), TimerView(TIMER_MODE_PERIODIC, 5, Callback(2), 1)];
            var k := FirstUnlinked(V, 0);
      && k == 0
      && Min(k + 1, |L|) == 1
      && CalledBack(L, V, Min(k + 1, |L|)) == [a]
      && CalledBack(L, V, |L|) == [a, b]
      && Survivors(L, V, |L|) == [b]
  {
    var V := [TimerView(TIMER_MODE_ONESHOT, 5, Callback(1), 1), TimerView(TIMER_MODE_PERIODIC, 5, Callback(2), 1)];
    assert Unlinks(V[0]) && !Unlinks(V[1]);
  }

  /**
   * On a tick where no one-shot timer expires the two walks agree: the
   * as-written one visits every timer and unlinks none, which is what the
   * corrected one does.
   */
  lemma WalksAgree(L: seq<Timer>, V: seq<TimerView>)
    requires |V| == |L| && FirstUnlinked(V, 0) == |L|
    ensures Min(FirstUnlinked(V, 0) + 1, |L|) == |L|
    ensures Survivors(L, V, |L|) == L
  {
    SurvivorsAll(L, V, |L|);
    assert L[..|L|] == L;
  }
}
