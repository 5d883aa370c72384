// Sixteen-bit sensor words: two register bytes assembled low byte first and
// read as a two's-complement `i16`.
module Words {
  /** `(lo as i16) | ((hi as i16) << 8)` as a 16-bit pattern: the low byte
      and the high byte can be read back. */
  function Le16(lo: bv8, hi: bv8): (v: bv16)
    ensures (v & 0xFF) as bv8 == lo && (v >> 8) as bv8 == hi
  {
    (lo as bv16) | ((hi as bv16) << 8)
  }

  /** Every 16-bit pattern is the assembly of its own two bytes. */
  lemma Le16Inverse(v: bv16)
    ensures Le16((v & 0xFF) as bv8, (v >> 8) as bv8) == v
  {
  }

  /** The unsigned value of a 16-bit pattern: the sum of its set bits'
      place values. */
  function Unsigned16(v: bv16): (n: int)
    ensures 0 <= n < 0x1_0000
    ensures n < 0x8000 <==> v & 0x8000 == 0
  {
    Place(v, 0x0001, 0x0001) + Place(v, 0x0002, 0x0002) + Place(v, 0x0004, 0x0004)
    + Place(v, 0x0008, 0x0008) + Place(v, 0x0010, 0x0010) + Place(v, 0x0020, 0x0020)
    + Place(v, 0x0040, 0x0040) + Place(v, 0x0080, 0x0080) + Place(v, 0x0100, 0x0100)
    + Place(v, 0x0200, 0x0200) + Place(v, 0x0400, 0x0400) + Place(v, 0x0800, 0x0800)
    + Place(v, 0x1000, 0x1000) + Place(v, 0x2000, 0x2000) + Place(v, 0x4000, 0x4000)
    + Place(v, 0x8000, 0x8000)
  }

  /** The place value `bit` contributes when it is set in `v`. */
  function Place(v: bv16, bit: bv16, value: int): int {
    if v & bit == 0 then 0 else value
  }

  /** The pattern read as an `i16`: negative exactly when bit 15 is set. */
  function Signed16(v: bv16): (x: int)
    ensures -0x8000 <= x < 0x8000
    ensures x < 0 <==> v & 0x8000 != 0
  {
    if v & 0x8000 == 0 then Unsigned16(v) else Unsigned16(v) - 0x1_0000
  }

  /** The unsigned value of a byte: the sum of its set bits' place values. */
  function U8(b: bv8): (n: int)
    ensures 0 <= n < 0x100
    ensures n < 0x80 <==> b & 0x80 == 0
  {
    Place8(b, 0x01, 0x01) + Place8(b, 0x02, 0x02) + Place8(b, 0x04, 0x04) + Place8(b, 0x08, 0x08)
    + Place8(b, 0x10, 0x10) + Place8(b, 0x20, 0x20) + Place8(b, 0x40, 0x40) + Place8(b, 0x80, 0x80)
  }

  /** The place-value sum is the byte's numeric value. */
  lemma U8IsValue(b: bv8)
    ensures U8(b) == b as int
  {
  }

  function Place8(b: bv8, bit: bv8, value: int): int {
    if b & bit == 0 then 0 else value
  }

  /** The little-endian signed value of a byte pair: the low byte plus 256
      times the high byte, less 2^16 when the high byte's sign bit is set. */
  function I16Value(lo: bv8, hi: bv8): (x: int)
    ensures -0x8000 <= x < 0x8000
  {
    U8(lo) + 0x100 * U8(hi) - (if hi & 0x80 != 0 then 0x1_0000 else 0)
  }

  /** A bit of the low byte contributes its place value to the assembled
      word exactly when it is set in the byte. */
  lemma PlaceLow(lo: bv8, hi: bv8, m: bv8, m16: bv16, value: int)
    requires m16 == m as bv16
    ensures Place(Le16(lo, hi), m16, value) == Place8(lo, m, value)
  {
  }

  /** A bit of the high byte, eight places up in the word, contributes 256
      times its place value in the byte. */
  lemma PlaceHigh(lo: bv8, hi: bv8, m: bv8, m16: bv16, value: int)
    requires m16 == (m as bv16) << 8
    ensures Place(Le16(lo, hi), m16, 0x100 * value) == 0x100 * Place8(hi, m, value)
  {
  }

  /** The assembled word's unsigned value is the low byte plus 256 times the
      high byte. */
  lemma {:induction false} Le16Value(lo: bv8, hi: bv8)
    ensures Unsigned16(Le16(lo, hi)) == U8(lo) + 0x100 * U8(hi)
  {
    PlaceLow(lo, hi, 0x01, 0x0001, 0x01); PlaceLow(lo, hi, 0x02, 0x0002, 0x02);
    PlaceLow(lo, hi, 0x04, 0x0004, 0x04); PlaceLow(lo, hi, 0x08, 0x0008, 0x08);
    PlaceLow(lo, hi, 0x10, 0x0010, 0x10); PlaceLow(lo, hi, 0x20, 0x0020, 0x20);
    PlaceLow(lo, hi, 0x40, 0x0040, 0x40); PlaceLow(lo, hi, 0x80, 0x0080, 0x80);
    PlaceHigh(lo, hi, 0x01, 0x0100, 0x01); PlaceHigh(lo, hi, 0x02, 0x0200, 0x02);
    PlaceHigh(lo, hi, 0x04, 0x0400, 0x04); PlaceHigh(lo, hi, 0x08, 0x0800, 0x08);
    PlaceHigh(lo, hi, 0x10, 0x1000, 0x10); PlaceHigh(lo, hi, 0x20, 0x2000, 0x20);
    PlaceHigh(lo, hi, 0x40, 0x4000, 0x40); PlaceHigh(lo, hi, 0x80, 0x8000, 0x80);
  }

  /** `(lo as i16) | ((hi as i16) << 8)` is the little-endian signed value of
      the pair. */
  lemma {:induction false} Le16Signed(lo: bv8, hi: bv8)
    ensures Signed16(Le16(lo, hi)) == I16Value(lo, hi)
  {
    Le16Value(lo, hi);
    PlaceHigh(lo, hi, 0x80, 0x8000, 0x80);
  }
}
