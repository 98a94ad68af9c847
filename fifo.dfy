/**
 * The receive byte FIFO of fifo.c and the query macros of fifo.h.
 *
 * A `Fifo_t` is a ring of FIFO_BUFFER_SIZE byte slots with a write cursor
 * `wpos` (advanced by the producer, the UART receive interrupt) and a read
 * cursor `rpos` (advanced by the consumer). `rpos == wpos` means empty, so
 * one slot always stays free and at most FIFO_BUFFER_SIZE - 1 bytes are
 * queued. The class keeps the source's array and cursors; the ghost
 * `Contents` is the queue they represent.
 */
module ByteFifo {
  import opened Types

  const FIFO_BUFFER_SIZE: int := 128

  /** Usable capacity: the push test `(wpos + 1) % size == rpos` keeps one slot free. */
  const CAPACITY: int := FIFO_BUFFER_SIZE - 1

  predicate IsCursor(p: int) {
    0 <= p < FIFO_BUFFER_SIZE
  }

  /** The bytes a ring holds, oldest first: the slots from `rpos` up to (not including) `wpos`, wrapping. */
  function RingContents(buf: seq<Uint8>, rpos: int, wpos: int): (q: seq<Uint8>)
    requires |buf| == FIFO_BUFFER_SIZE && IsCursor(rpos) && IsCursor(wpos)
    ensures |q| == (wpos + FIFO_BUFFER_SIZE - rpos) % FIFO_BUFFER_SIZE
    ensures |q| <= CAPACITY
    ensures forall k :: 0 <= k < |q| ==> q[k] == buf[(rpos + k) % FIFO_BUFFER_SIZE]
  {
    if rpos <= wpos then buf[rpos..wpos] else buf[rpos..] + buf[..wpos]
  }

  /** The ring is empty exactly when the cursors meet (the test of Fifo_pop). */
  lemma RingEmpty(buf: seq<Uint8>, rpos: int, wpos: int)
    requires |buf| == FIFO_BUFFER_SIZE && IsCursor(rpos) && IsCursor(wpos)
    ensures RingContents(buf, rpos, wpos) == [] <==> rpos == wpos
  {
    var q := RingContents(buf, rpos, wpos);
    if rpos != wpos {
      assert |q| == (wpos + FIFO_BUFFER_SIZE - rpos) % FIFO_BUFFER_SIZE;
    }
  }

  /** The push test `(wpos + 1) % size == rpos` holds exactly when CAPACITY bytes are queued. */
  lemma RingFull(buf: seq<Uint8>, rpos: int, wpos: int)
    requires |buf| == FIFO_BUFFER_SIZE && IsCursor(rpos) && IsCursor(wpos)
    ensures (wpos + 1) % FIFO_BUFFER_SIZE == rpos <==> |RingContents(buf, rpos, wpos)| == CAPACITY
  {
    var n := |RingContents(buf, rpos, wpos)|;
    if rpos <= wpos {
      assert n == wpos - rpos;
    } else {
      assert n == wpos + FIFO_BUFFER_SIZE - rpos;
    }
  }

  /** A sum of two cursors wraps at most once. */
  lemma WrapOnce(x: int)
    requires 0 <= x < 2 * FIFO_BUFFER_SIZE
    ensures x % FIFO_BUFFER_SIZE == if x < FIFO_BUFFER_SIZE then x else x - FIFO_BUFFER_SIZE
  {
  }

  /** Writing slot `wpos` and advancing `wpos` appends the byte, when the ring is not full. */
  lemma RingPush(buf: seq<Uint8>, rpos: int, wpos: int, b: Uint8)
    requires |buf| == FIFO_BUFFER_SIZE && IsCursor(rpos) && IsCursor(wpos)
    requires (wpos + 1) % FIFO_BUFFER_SIZE != rpos
    ensures RingContents(buf[wpos := b], rpos, (wpos + 1) % FIFO_BUFFER_SIZE)
         == RingContents(buf, rpos, wpos) + [b]
  {
    var q := RingContents(buf, rpos, wpos);
    var q' := RingContents(buf[wpos := b], rpos, (wpos + 1) % FIFO_BUFFER_SIZE);
    RingFull(buf, rpos, wpos);
    assert |q'| == |q| + 1;
    // Slot `rpos + k` (wrapped) is `wpos` exactly for k == |q|.
    assert |q| == if rpos <= wpos then wpos - rpos else wpos + FIFO_BUFFER_SIZE - rpos;
    forall k | 0 <= k < |q'|
      ensures q'[k] == (q + [b])[k]
    {
      WrapOnce(rpos + k);
      if k < |q| {
        assert (rpos + k) % FIFO_BUFFER_SIZE != wpos;
      } else {
        assert (rpos + k) % FIFO_BUFFER_SIZE == wpos;
      }
    }
  }

  /** Reading slot `rpos` and advancing `rpos` removes the oldest byte, when the ring is not empty. */
  lemma RingPop(buf: seq<Uint8>, rpos: int, wpos: int)
    requires |buf| == FIFO_BUFFER_SIZE && IsCursor(rpos) && IsCursor(wpos)
    requires rpos != wpos
    ensures RingContents(buf, rpos, wpos) != []
    ensures RingContents(buf, rpos, wpos)[0] == buf[rpos]
    ensures RingContents(buf, (rpos + 1) % FIFO_BUFFER_SIZE, wpos) == RingContents(buf, rpos, wpos)[1..]
  {
    var q := RingContents(buf, rpos, wpos);
    var r1 := (rpos + 1) % FIFO_BUFFER_SIZE;
    var q' := RingContents(buf, r1, wpos);
    RingEmpty(buf, rpos, wpos);
    WrapOnce(rpos + 1);
    WrapOnce(rpos);
    WrapOnce(wpos + FIFO_BUFFER_SIZE - rpos);
    WrapOnce(wpos + FIFO_BUFFER_SIZE - r1);
    assert |q'| == |q| - 1;
    forall k | 0 <= k < |q'|
      ensures q'[k] == q[1..][k]
    {
      WrapOnce(r1 + k);
      WrapOnce(rpos + (k + 1));
      assert (r1 + k) % FIFO_BUFFER_SIZE == (rpos + (k + 1)) % FIFO_BUFFER_SIZE;
    }
  }

  /** The queue after one Fifo_push: the byte is appended, or silently dropped when the ring is full. */
  function Enqueue(q: seq<Uint8>, b: Uint8): seq<Uint8> {
    if |q| >= CAPACITY then q else q + [b]
  }

  /** The queue after pushing `bs` one byte at a time with no pop in between. */
  function EnqueueAll(q: seq<Uint8>, bs: seq<Uint8>): seq<Uint8>
    decreases |bs|
  {
    if bs == [] then q else EnqueueAll(Enqueue(q, bs[0]), bs[1..])
  }

  /**
   * A burst of pushes keeps the oldest bytes: of `q + bs` the first CAPACITY
   * bytes stay queued in order and every later (newer) byte is dropped.
   */
  lemma {:induction false} EnqueueAllKeepsOldest(q: seq<Uint8>, bs: seq<Uint8>)
    requires |q| <= CAPACITY
    ensures EnqueueAll(q, bs) == (q + bs)[..Min(|q| + |bs|, CAPACITY)]
    decreases |bs|
  {
    if bs != [] {
      var q1 := Enqueue(q, bs[0]);
      EnqueueAllKeepsOldest(q1, bs[1..]);
      if |q| >= CAPACITY {
        assert (q1 + bs[1..])[..CAPACITY] == q == (q + bs)[..CAPACITY];
      } else {
        assert q1 + bs[1..] == q + bs;
      }
    }
  }

  /** A `Fifo_t`: the byte array and the two cursors. */
  class Fifo {
    const buffer: array<Uint8>
    var wpos: Uint16
    var rpos: Uint16

    /** The queued bytes, oldest first. */
    ghost var Contents: seq<Uint8>

    ghost predicate Valid()
      reads this, buffer
    {
      && buffer.Length == FIFO_BUFFER_SIZE
      && IsCursor(rpos) && IsCursor(wpos)
      && Contents == RingContents(buffer[..], rpos, wpos)
    }

    /** A `Fifo_t` with static storage: every byte and both cursors start at zero. */
    constructor ()
      ensures Valid() && fresh(buffer)
      ensures rpos == 0 && wpos == 0 && Contents == []
    {
      buffer := new Uint8[FIFO_BUFFER_SIZE](_ => 0);
      rpos, wpos := 0, 0;
      Contents := [];
    }

    /** Fifo_init: both cursors to zero, whatever they held; the slots are left as they are. */
    method Init()
      requires buffer.Length == FIFO_BUFFER_SIZE
      modifies this`rpos, this`wpos, this`Contents
      ensures Valid()
      ensures rpos == 0 && wpos == 0 && Contents == []
      ensures Size() == 0
    {
      rpos := 0;
      wpos := 0;
      Contents := [];
    }

    /** Fifo_push: store the byte at `wpos` and advance `wpos`, unless the ring is full. */
    method Push(b: Uint8)
      requires Valid()
      modifies this`wpos, this`Contents, buffer
      ensures Valid()
      ensures Contents == Enqueue(old(Contents), b)
      ensures rpos == old(rpos)
      ensures (old(wpos) + 1) % FIFO_BUFFER_SIZE == rpos ==>
                wpos == old(wpos) && buffer[..] == old(buffer[..])
      ensures (old(wpos) + 1) % FIFO_BUFFER_SIZE != rpos ==>
                wpos == (old(wpos) + 1) % FIFO_BUFFER_SIZE && buffer[..] == old(buffer[..])[old(wpos) := b]
    {
      RingFull(buffer[..], rpos, wpos);
      if (wpos + 1) % FIFO_BUFFER_SIZE == rpos {
        return;
      }
      RingPush(buffer[..], rpos, wpos, b);
      buffer[wpos] := b;
      wpos := (wpos + 1) % FIFO_BUFFER_SIZE;
      Contents := Contents + [b];
    }

    /**
     * Fifo_pop: the oldest byte, or `EOF` converted to `uint8_t` (0xFF) when
     * empty. The byte passes through a signed `char` local on its way out,
     * which does not change its value.
     */
    method Pop() returns (r: Uint8)
      requires Valid()
      modifies this`rpos, this`Contents
      ensures Valid()
      ensures old(Contents) == [] ==> r == ToUint8(EOF) && rpos == old(rpos) && Contents == old(Contents)
      ensures old(Contents) != [] ==>
                r == old(Contents)[0] && Contents == old(Contents)[1..]
                && rpos == (old(rpos) + 1) % FIFO_BUFFER_SIZE
    {
      RingEmpty(buffer[..], rpos, wpos);
      if rpos == wpos {
        return ToUint8(EOF);
      }
      var slot: int := buffer[rpos];
      var ch: int := if slot < 0x80 then slot else slot - 0x100;
      SignedCharRoundTrip(slot);
      RingPop(buffer[..], rpos, wpos);
      rpos := (rpos + 1) % FIFO_BUFFER_SIZE;
      Contents := Contents[1..];
      return ToUint8(ch);
    }

    /** Fifo_size: the number of queued bytes, never more than CAPACITY. */
    function Size(): (n: int)
      reads this, buffer
      requires Valid()
      ensures n == |Contents| && 0 <= n <= CAPACITY
    {
      (wpos + FIFO_BUFFER_SIZE - rpos) % FIFO_BUFFER_SIZE
    }

    /** The Fifo_available macro: the number of queued bytes. */
    function Available(): (n: int)
      reads this, buffer
      requires Valid()
      ensures n == |Contents|
    {
      Size()
    }

    /** The Fifo_empty macro as written, `Fifo_size(fifo) != 0`: true when bytes ARE queued. */
    function EmptyAsWritten(): (r: bool)
      reads this, buffer
      requires Valid()
      ensures r <==> Contents != []
    {
      Size() != 0
    }

    /** The Fifo_full macro as written, `Fifo_size(fifo) != 128`: true in every state. */
    function FullAsWritten(): (r: bool)
      reads this, buffer
      requires Valid()
      ensures r
    {
      Size() != 128
    }

    /** Fifo_empty as its comment describes it: true exactly when Fifo_pop would return EOF. */
    function IsEmpty(): (r: bool)
      reads this, buffer
      requires Valid()
      ensures r <==> Contents == []
      ensures r <==> rpos == wpos
    {
      RingEmpty(buffer[..], rpos, wpos);
      Size() == 0
    }

    /** Fifo_full as its comment describes it: true exactly when Fifo_push would drop the byte. */
    function IsFull(): (r: bool)
      reads this, buffer
      requires Valid()
      ensures r <==> |Contents| == CAPACITY
      ensures r <==> (wpos + 1) % FIFO_BUFFER_SIZE == rpos
    {
      RingFull(buffer[..], rpos, wpos);
      Size() == CAPACITY
    }
  }
}
