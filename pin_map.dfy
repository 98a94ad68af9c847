/**
 * The GPIO pin encoding of pin_map.h: pin Px_y is the number 0x100 * x + y,
 * the port in the high byte and the bit in the low byte, and two macros take
 * a pin apart again. Pins travel as C `int`; `>>` on them is an arithmetic
 * shift, which for every `int` is floor division by 256.
 */
module PinMap {
  import opened Types

  const P1_0: int := 0x0100
  const P1_1: int := 0x0101
  const P1_2: int := 0x0102
  const P1_3: int := 0x0103
  const P1_4: int := 0x0104
  const P1_5: int := 0x0105
  const P1_6: int := 0x0106
  const P1_7: int := 0x0107

  const P2_0: int := 0x0200
  const P2_1: int := 0x0201
  const P2_2: int := 0x0202
  const P2_3: int := 0x0203
  const P2_4: int := 0x0204
  const P2_5: int := 0x0205
  const P2_6: int := 0x0206
  const P2_7: int := 0x0207

  const P3_0: int := 0x0300
  const P3_1: int := 0x0301
  const P3_2: int := 0x0302
  const P3_3: int := 0x0303
  const P3_4: int := 0x0304
  const P3_5: int := 0x0305
  const P3_6: int := 0x0306
  const P3_7: int := 0x0307

  const P4_0: int := 0x0400
  const P4_1: int := 0x0401
  const P4_2: int := 0x0402
  const P4_3: int := 0x0403
  const P4_4: int := 0x0404
  const P4_5: int := 0x0405
  const P4_6: int := 0x0406
  const P4_7: int := 0x0407

  const P5_0: int := 0x0500
  const P5_1: int := 0x0501
  const P5_2: int := 0x0502
  const P5_3: int := 0x0503
  const P5_4: int := 0x0504
  const P5_5: int := 0x0505
  const P5_6: int := 0x0506
  const P5_7: int := 0x0507

  const P6_0: int := 0x0600
  const P6_1: int := 0x0601
  const P6_2: int := 0x0602
  const P6_3: int := 0x0603
  const P6_4: int := 0x0604
  const P6_5: int := 0x0605
  const P6_6: int := 0x0606
  const P6_7: int := 0x0607

  /** The number of a pin: port in the high byte, bit in the low byte. */
  function PinCode(port: int, bit: int): int {
    0x100 * port + bit
  }

  /** mapPinToPort: `(unsigned char)(pin >> 8)`. */
  function MapPinToPort(pin: int): (port: Uint8)
    ensures 0 <= pin < 0x1_0000 ==> port == pin / 0x100
  {
    (pin / 0x100) % 0x100
  }

  /** mapPinToBit: `(unsigned char)pin`. */
  function MapPinToBit(pin: int): (bit: Uint8)
    ensures 0 <= pin ==> bit == pin % 0x100
    ensures 0 <= pin < 0x1_0000 ==> pin == PinCode(MapPinToPort(pin), bit)
  {
    pin % 0x100
  }

  /** Decoding takes any port and bit that fit in a byte back out of the pin number. */
  lemma PinRoundTrip(port: int, bit: int)
    requires 0 <= port < 0x100 && 0 <= bit < 0x100
    ensures MapPinToPort(PinCode(port, bit)) == port
    ensures MapPinToBit(PinCode(port, bit)) == bit
  {
  }

  /** Different ports or bits give different pin numbers. */
  lemma PinCodeInjective(p1: int, b1: int, p2: int, b2: int)
    requires 0 <= b1 < 0x100 && 0 <= b2 < 0x100
    requires PinCode(p1, b1) == PinCode(p2, b2)
    ensures p1 == p2 && b1 == b2
  {
    PinRoundTrip2(p1, b1);
    PinRoundTrip2(p2, b2);
  }

  /** For any port, the pin number's quotient and remainder by 256 are the port and the bit. */
  lemma PinRoundTrip2(port: int, bit: int)
    requires 0 <= bit < 0x100
    ensures PinCode(port, bit) / 0x100 == port && PinCode(port, bit) % 0x100 == bit
  {
  }

  /** Every constant of the header decodes to the port and bit in its name. */
  lemma PinConstantsDecode()
    ensures MapPinToPort(P1_0) == 1 && MapPinToBit(P1_0) == 0
    ensures MapPinToPort(P1_1) == 1 && MapPinToBit(P1_1) == 1
    ensures MapPinToPort(P1_2) == 1 && MapPinToBit(P1_2) == 2
    ensures MapPinToPort(P1_3) == 1 && MapPinToBit(P1_3) == 3
    ensures MapPinToPort(P1_4) == 1 && MapPinToBit(P1_4) == 4
    ensures MapPinToPort(P1_5) == 1 && MapPinToBit(P1_5) == 5
    ensures MapPinToPort(P1_6) == 1 && MapPinToBit(P1_6) == 6
    ensures MapPinToPort(P1_7) == 1 && MapPinToBit(P1_7) == 7
    ensures MapPinToPort(P2_0) == 2 && MapPinToBit(P2_0) == 0
    ensures MapPinToPort(P2_1) == 2 && MapPinToBit(P2_1) == 1
    ensures MapPinToPort(P2_2) == 2 && MapPinToBit(P2_2) == 2
    ensures MapPinToPort(P2_3) == 2 && MapPinToBit(P2_3) == 3
    ensures MapPinToPort(P2_4) == 2 && MapPinToBit(P2_4) == 4
    ensures MapPinToPort(P2_5) == 2 && MapPinToBit(P2_5) == 5
    ensures MapPinToPort(P2_6) == 2 && MapPinToBit(P2_6) == 6
    ensures MapPinToPort(P2_7) == 2 && MapPinToBit(P2_7) == 7
    ensures MapPinToPort(P3_0) == 3 && MapPinToBit(P3_0) == 0
    ensures MapPinToPort(P3_1) == 3 && MapPinToBit(P3_1) == 1
    ensures MapPinToPort(P3_2) == 3 && MapPinToBit(P3_2) == 2
    ensures MapPinToPort(P3_3) == 3 && MapPinToBit(P3_3) == 3
    ensures MapPinToPort(P3_4) == 3 && MapPinToBit(P3_4) == 4
    ensures MapPinToPort(P3_5) == 3 && MapPinToBit(P3_5) == 5
    ensures MapPinToPort(P3_6) == 3 && MapPinToBit(P3_6) == 6
    ensures MapPinToPort(P3_7) == 3 && MapPinToBit(P3_7) == 7
    ensures MapPinToPort(P4_0) == 4 && MapPinToBit(P4_0) == 0
    ensures MapPinToPort(P4_1) == 4 && MapPinToBit(P4_1) == 1
    ensures MapPinToPort(P4_2) == 4 && MapPinToBit(P4_2) == 2
    ensures MapPinToPort(P4_3) == 4 && MapPinToBit(P4_3) == 3
    ensures MapPinToPort(P4_4) == 4 && MapPinToBit(P4_4) == 4
    ensures MapPinToPort(P4_5) == 4 && MapPinToBit(P4_5) == 5
    ensures MapPinToPort(P4_6) == 4 && MapPinToBit(P4_6) == 6
    ensures MapPinToPort(P4_7) == 4 && MapPinToBit(P4_7) == 7
    ensures MapPinToPort(P5_0) == 5 && MapPinToBit(P5_0) == 0
    ensures MapPinToPort(P5_1) == 5 && MapPinToBit(P5_1) == 1
    ensures MapPinToPort(P5_2) == 5 && MapPinToBit(P5_2) == 2
    ensures MapPinToPort(P5_3) == 5 && MapPinToBit(P5_3) == 3
    ensures MapPinToPort(P5_4) == 5 && MapPinToBit(P5_4) == 4
    ensures MapPinToPort(P5_5) == 5 && MapPinToBit(P5_5) == 5
    ensures MapPinToPort(P5_6) == 5 && MapPinToBit(P5_6) == 6
    ensures MapPinToPort(P5_7) == 5 && MapPinToBit(P5_7) == 7
    ensures MapPinToPort(P6_0) == 6 && MapPinToBit(P6_0) == 0
    ensures MapPinToPort(P6_1) == 6 && MapPinToBit(P6_1) == 1
    ensures MapPinToPort(P6_2) == 6 && MapPinToBit(P6_2) == 2
    ensures MapPinToPort(P6_3) == 6 && MapPinToBit(P6_3) == 3
    ensures MapPinToPort(P6_4) == 6 && MapPinToBit(P6_4) == 4
    ensures MapPinToPort(P6_5) == 6 && MapPinToBit(P6_5) == 5
    ensures MapPinToPort(P6_6) == 6 && MapPinToBit(P6_6) == 6
    ensures MapPinToPort(P6_7) == 6 && MapPinToBit(P6_7) == 7
  {
    forall p, b | 1 <= p <= 6 && 0 <= b < 8
      ensures MapPinToPort(PinCode(p, b)) == p && MapPinToBit(PinCode(p, b)) == b
    {
      PinRoundTrip(p, b);
    }
  }
}
