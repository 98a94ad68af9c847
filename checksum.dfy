/** The 8-bit additive checksum of checksum.c. */
module Checksum {
  import opened Types

  /** The plain integer sum of a byte sequence. */
  function Sum(bs: seq<Uint8>): nat {
    if bs == [] then 0 else Sum(bs[..|bs| - 1]) + bs[|bs| - 1]
  }

  /** The checksum of a byte sequence: its sum reduced to 8 bits. */
  function ChecksumOf(bs: seq<Uint8>): Uint8 {
    Sum(bs) % 0x100
  }

  /**
   * calculate_checksum: add the first `size` bytes into an 8-bit
   * accumulator, which wraps modulo 256 at every step. A `size` of zero or
   * less gives 0. The caller must supply at least `size` bytes.
   */
  method CalculateChecksum(buffer: array<Uint8>, size: int) returns (checksum: Uint8)
    requires size <= buffer.Length
    ensures size <= 0 ==> checksum == 0
    ensures size > 0 ==> checksum == ChecksumOf(buffer[..size])
  {
    checksum := 0;
    var i := 0;
    while i < size
      invariant 0 <= i && (i <= size || i == 0)
      invariant checksum == ChecksumOf(buffer[..i])
      decreases size - i
    {
      assert buffer[..i + 1][..i] == buffer[..i];
      checksum := (checksum + buffer[i]) % 0x100;
      i := i + 1;
    }
  }

  /** Appending a byte adds it to the checksum modulo 256. */
  lemma ChecksumAppend(bs: seq<Uint8>, x: Uint8)
    ensures ChecksumOf(bs + [x]) == (ChecksumOf(bs) + x) % 0x100
  {
    assert (bs + [x])[..|bs|] == bs;
  }

  /** Taking one byte out of a sequence takes its value out of the sum. */
  lemma {:induction false} SumRemove(s: seq<Uint8>, i: nat)
    requires i < |s|
    ensures Sum(s) == Sum(s[..i] + s[i + 1..]) + s[i]
    decreases |s|
  {
    var r := s[..i] + s[i + 1..];
    if i == |s| - 1 {
      assert r == s[..|s| - 1];
    } else {
      var t := s[..|s| - 1];
      SumRemove(t, i);
      assert t[..i] + t[i + 1..] == r[..|r| - 1];
      assert r[|r| - 1] == s[|s| - 1];
    }
  }

  /** Taking the same byte out of two sequences with equal multisets leaves equal multisets. */
  lemma MultisetCancel(a: seq<Uint8>, b1: seq<Uint8>, b2: seq<Uint8>, x: Uint8)
    requires multiset(a + [x]) == multiset(b1 + [x] + b2)
    ensures multiset(a) == multiset(b1 + b2)
  {
    assert multiset(a + [x]) == multiset(a) + multiset{x};
    assert multiset(b1 + [x] + b2) == multiset(b1) + multiset{x} + multiset(b2);
    forall y
      ensures multiset(a)[y] == multiset(b1 + b2)[y]
    {
      assert multiset(a + [x])[y] == multiset(a)[y] + multiset{x}[y];
      assert multiset(b1 + [x] + b2)[y] == multiset(b1)[y] + multiset{x}[y] + multiset(b2)[y];
    }
  }

  /** The sum, and so the checksum, does not depend on the order of the bytes. */
  lemma {:induction false} SumPermutation(a: seq<Uint8>, b: seq<Uint8>)
    requires multiset(a) == multiset(b)
    ensures Sum(a) == Sum(b)
    ensures ChecksumOf(a) == ChecksumOf(b)
    decreases |a|
  {
    if a != [] {
      var x := a[|a| - 1];
      assert x in multiset(b);
      var i :| 0 <= i < |b| && b[i] == x;
      var a' := a[..|a| - 1];
      var b' := b[..i] + b[i + 1..];
      assert a == a' + [x];
      assert b == b[..i] + [x] + b[i + 1..];
      MultisetCancel(a', b[..i], b[i + 1..], x);
      SumPermutation(a', b');
      SumRemove(b, i);
    } else {
      assert |b| == |multiset(b)| == 0;
    }
  }
}
