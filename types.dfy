/**
 * Fixed-width integer types and the constants of types.h.
 *
 * The target is a 16-bit MSP430: `uint8_t`, `uint16_t` and the 32-bit
 * `unsigned long` / `uint32_t` are modelled as ranges of `int`, and every
 * conversion that truncates is written out as a `%`.
 */
module Types {

  type Uint8 = x: int | 0 <= x < 0x100
  type Uint16 = x: int | 0 <= x < 0x1_0000
  type Uint32 = x: int | 0 <= x < 0x1_0000_0000

  const UINT32_MAX: Uint32 := 0xFFFF_FFFF

  /** `EOF` as types.h defines it: the `int` value -1. */
  const EOF: int := -1

  /** C's conversion of an integer to `uint8_t` (reduction modulo 2^8). */
  function ToUint8(x: int): (r: Uint8)
    ensures 0 <= x < 0x100 ==> r == x
    ensures (r - x) % 0x100 == 0
  {
    x % 0x100
  }

  /** C's conversion of an integer to a 32-bit unsigned type (reduction modulo 2^32). */
  function ToUint32(x: int): (r: Uint32)
    ensures 0 <= x <= UINT32_MAX ==> r == x
    ensures (r - x) % 0x1_0000_0000 == 0
  {
    x % 0x1_0000_0000
  }

  /** `x + 1` on a 32-bit unsigned counter: UINT32_MAX wraps round to 0. */
  function Inc32(x: Uint32): Uint32 {
    if x == UINT32_MAX then 0 else x + 1
  }

  /** Inc32 is the C increment: the sum reduced modulo 2^32. */
  lemma Inc32Wraps(x: Uint32)
    ensures Inc32(x) == ToUint32(x + 1)
    ensures x < UINT32_MAX ==> Inc32(x) == x + 1
    ensures x == UINT32_MAX ==> Inc32(x) == 0
  {
  }

  /** A 32-bit counter after n increments. */
  function Advance(x: Uint32, n: nat): Uint32 {
    if n == 0 then x else Inc32(Advance(x, n - 1))
  }

  /** n increments of a 32-bit counter add n modulo 2^32. */
  lemma {:induction false} AdvanceWraps(x: Uint32, n: nat)
    ensures Advance(x, n) == ToUint32(x + n)
  {
    if n > 0 {
      AdvanceWraps(x, n - 1);
      Inc32Wraps(Advance(x, n - 1));
    }
  }

  function Min(a: int, b: int): int {
    if a <= b then a else b
  }

  /** A byte stored in a signed `char` and converted back to `uint8_t` is unchanged. */
  lemma SignedCharRoundTrip(b: Uint8)
    ensures ToUint8(if b < 0x80 then b else b - 0x100) == b
  {
  }

  /** `EOF` returned through a `uint8_t` result becomes 0xFF, a valid data byte. */
  lemma EofAsUint8()
    ensures ToUint8(EOF) == 0xFF
  {
  }
}
