/** Fixed-width integers of the ATmega328 target (avr-gcc: `int` is 16 bits) and
    the C conversions between them, written out over Dafny's unbounded `int`. */
module Fixed {

  /** `unsigned char` / `uint8_t` */
  type u8 = x: int | 0 <= x < 0x100
  /** `unsigned int` (16 bits on this target) */
  type u16 = x: int | 0 <= x < 0x1_0000
  /** `signed char` / `int8_t` */
  type i8 = x: int | -0x80 <= x < 0x80
  /** `int` / `int16_t` (16 bits on this target) */
  type i16 = x: int | -0x8000 <= x < 0x8000

  /** A voice number: an index into the four-element arrays below. */
  type Voice = v: int | 0 <= v < 4

  /** The four-element arrays indexed by voice. */
  type U8x4 = s: seq<u8> | |s| == 4 witness [0, 0, 0, 0]
  type U16x4 = s: seq<u16> | |s| == 4 witness [0, 0, 0, 0]
  type I8x4 = s: seq<i8> | |s| == 4 witness [0, 0, 0, 0]
  type I16x4 = s: seq<i16> | |s| == 4 witness [0, 0, 0, 0]

  /** Two integers that differ by a multiple of `m` leave the same remainder. */
  lemma {:induction false} SameRemainder(a: int, b: int, m: int)
    requires m > 0
    requires (a - b) % m == 0
    ensures a % m == b % m
  {
    var k := (a - b) / m;
    assert a - b == m * k;
    var j := a / m - b / m - k;
    assert m * j == b % m - a % m;
  }

  /** Reducing the left summand first does not change the 16-bit remainder of a sum. */
  lemma ReduceLeft(a: int, b: int)
    ensures (a % 0x1_0000 + b) % 0x1_0000 == (a + b) % 0x1_0000
  {
    var q := a / 0x1_0000;
    assert a == 0x1_0000 * q + a % 0x1_0000;
    assert (a % 0x1_0000 + b) - (a + b) == 0x1_0000 * (-q);
    SameRemainder(a % 0x1_0000 + b, a + b, 0x1_0000);
  }

  /** Conversion of any integer to `unsigned char`: reduction modulo 2^8. */
  function ToU8(x: int): (r: u8)
    ensures (x - r) % 0x100 == 0
    ensures 0 <= x < 0x100 ==> r == x
  {
    x % 0x100
  }

  /** Conversion of any integer to `unsigned int`: reduction modulo 2^16. */
  function ToU16(x: int): (r: u16)
    ensures (x - r) % 0x1_0000 == 0
    ensures 0 <= x < 0x1_0000 ==> r == x
  {
    x % 0x1_0000
  }

  /** Narrowing to `int8_t`: the two's-complement wrap-around avr-gcc performs. */
  function ToI8(x: int): (r: i8)
    ensures (x - r) % 0x100 == 0
    ensures -0x80 <= x < 0x80 ==> r == x
  {
    (x + 0x80) % 0x100 - 0x80
  }

  /** Narrowing to `int16_t` (and 16-bit `int` overflow): two's-complement wrap-around. */
  function ToI16(x: int): (r: i16)
    ensures (x - r) % 0x1_0000 == 0
    ensures -0x8000 <= x < 0x8000 ==> r == x
  {
    (x + 0x8000) % 0x1_0000 - 0x8000
  }

  /** The upper byte of a 16-bit word, which the source reads through
      `((unsigned char*)&w)[1]` on the little-endian target. */
  function HighByte(w: u16): (r: u8)
    ensures 0x100 * r <= w < 0x100 * r + 0x100
  {
    w / 0x100
  }

  /** The lower byte of a 16-bit word. */
  function LowByte(w: u16): (r: u8)
    ensures 0x100 * HighByte(w) + r == w
  {
    w % 0x100
  }
}
