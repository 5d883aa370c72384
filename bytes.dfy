// Byte-level helpers shared by the drivers and the bus code: single bits,
// Rust's `reverse_bits`, `copy_from_slice` and the 32-bit big-endian and
// two's-complement conversions.
module Bytes {

  /** The outcome of `<[u8]>::copy_from_slice`: it panics when the two
      slices differ in length. */
  datatype CopyResult = Copied(buf: seq<byte>) | LengthMismatch(dst: nat, src: nat)

  /** The byte with only bit `i` set (`1u8 << i`). */
  function Mask(i: nat): (m: bv8)
    requires i < 8
  {
    if i == 0 then 0x01 else if i == 1 then 0x02 else if i == 2 then 0x04
    else if i == 3 then 0x08 else if i == 4 then 0x10 else if i == 5 then 0x20
    else if i == 6 then 0x40 else 0x80
  }

  /** Bit `i` of `b`, as `bitfield::Bit::bit` reads it. */
  predicate Bit(b: bv8, i: nat)
    requires i < 8
  {
    b & Mask(i) != 0
  }

  /** Distinct bit positions have disjoint masks, and a mask has one bit. */
  lemma MaskFacts(i: nat, j: nat)
    requires i < 8 && j < 8
    ensures i != j ==> Mask(i) & Mask(j) == 0
    ensures Mask(i) != 0
  {
  }

  /** `b` with the bits of `m` set (`v`) or cleared (`!v`). */
  function Put(b: bv8, m: bv8, v: bool): bv8 {
    if v then b | m else b & !m
  }

  lemma PutOwn(b: bv8, i: nat, v: bool)
    requires i < 8
    ensures Bit(Put(b, Mask(i), v), i) == v
  {
    MaskFacts(i, i);
    SetClearOwn(b, Mask(i));
  }

  lemma PutOther(b: bv8, i: nat, j: nat, v: bool)
    requires i < 8 && j < 8 && i != j
    ensures Bit(Put(b, Mask(i), v), j) == Bit(b, j)
  {
    MaskFacts(i, j);
    SetClearOther(b, Mask(i), Mask(j));
  }

  /** `b.set_bit(i, v)`: bit `i` becomes `v`, the other seven bits stay. */
  function SetBit(b: bv8, i: nat, v: bool): (r: bv8)
    requires i < 8
    ensures Bit(r, i) == v
    ensures forall j :: 0 <= j < 8 && j != i ==> Bit(r, j) == Bit(b, j)
  {
    PutOwn(b, i, v);
    forall j | 0 <= j < 8 && j != i
      ensures Bit(Put(b, Mask(i), v), j) == Bit(b, j)
    {
      PutOther(b, i, j, v);
    }
    Put(b, Mask(i), v)
  }

  /** The value `SetBit` computes. */
  lemma SetBitValue(b: bv8, i: nat, v: bool)
    requires i < 8
    ensures SetBit(b, i, v) == if v then b | Mask(i) else b & !Mask(i)
  {
  }

  /** `SetBit` is the store of `v` under the bit's mask. */
  lemma SetBitIsPut(b: bv8, i: nat, v: bool)
    requires i < 8
    ensures SetBit(b, i, v) == Put(b, Mask(i), v)
  {
  }

  /** Clearing the mask and or-ing in the mask or nothing is the same store. */
  lemma MergeIsPut(b: bv8, m: bv8, v: bool)
    ensures (b & !m) | (if v then m else 0) == Put(b, m, v)
  {
  }

  /** Storing the same value twice is storing it once. */
  lemma PutTwice(b: bv8, m: bv8, v: bool)
    ensures Put(Put(b, m, v), m, v) == Put(b, m, v)
  {
  }

  lemma SetClearOwn(b: bv8, m: bv8)
    requires m != 0
    ensures (b | m) & m != 0 && (b & !m) & m == 0
  {
  }

  lemma SetClearOther(b: bv8, m: bv8, n: bv8)
    requires m & n == 0
    ensures (b | m) & n == b & n && (b & !m) & n == b & n
  {
  }

  /** `u8::reverse_bits`: bit `i` moves to bit `7 - i`. */
  function ReverseBits(b: bv8): (r: bv8)
    ensures forall i :: 0 <= i < 8 ==> Bit(r, 7 - i) == Bit(b, i)
  {
    ((b & 0x01) << 7) | ((b & 0x02) << 5) | ((b & 0x04) << 3) | ((b & 0x08) << 1)
    | ((b & 0x10) >> 1) | ((b & 0x20) >> 3) | ((b & 0x40) >> 5) | ((b & 0x80) >> 7)
  }

  /** `dst[lo..hi].copy_from_slice(src)`. */
  function CopyFromSlice(dst: seq<byte>, lo: nat, hi: nat, src: seq<byte>): (r: CopyResult)
    requires lo <= hi <= |dst|
    ensures r.Copied? <==> hi - lo == |src|
    ensures r.Copied? ==> |r.buf| == |dst| && r.buf[lo..hi] == src
                          && r.buf[..lo] == dst[..lo] && r.buf[hi..] == dst[hi..]
    ensures r.LengthMismatch? ==> r.dst == hi - lo && r.src == |src|
  {
    if hi - lo == |src| then Copied(dst[..lo] + src + dst[hi..])
    else LengthMismatch(hi - lo, |src|)
  }

  // ---- Bus payload bytes and 32-bit integers ---------------------------

  /** A payload byte (`u8`) as a number. */
  newtype byte = x: int | 0 <= x < 0x100

  const TWO_32: int := 0x1_0000_0000
  const TWO_31: int := 0x8000_0000

  predicate IsI32(x: int) { -TWO_31 <= x < TWO_31 }

  /** The two's-complement reading of a 32-bit pattern `u` (Rust's `u as i32`). */
  function WrapI32(u: int): (x: int)
    ensures IsI32(x)
    ensures (x - u) % TWO_32 == 0
  {
    var m := u % TWO_32;
    if m < TWO_31 then m else m - TWO_32
  }

  /** The unsigned value of four bytes read most significant first. */
  function BeU32(b: seq<byte>): (u: int)
    requires |b| == 4
    ensures 0 <= u < TWO_32
  {
    ((b[0] as int * 0x100 + b[1] as int) * 0x100 + b[2] as int) * 0x100 + b[3] as int
  }

  /** `x.to_be_bytes()` for an i32 or u32 `x`: the four base-256 digits of
      `x` modulo 2^32, most significant first. */
  function BeBytes32(x: int): (b: seq<byte>)
    ensures |b| == 4
  {
    var u := x % TWO_32;
    var q1 := u / 0x100;
    var q2 := q1 / 0x100;
    var q3 := q2 / 0x100;
    [q3 as byte, (q2 % 0x100) as byte, (q1 % 0x100) as byte, (u % 0x100) as byte]
  }

  /** One base-256 digit step: `q * 256 + d` splits back into `q` and `d`. */
  lemma DigitStep(q: int, d: int)
    requires 0 <= d < 0x100
    ensures (q * 0x100 + d) / 0x100 == q && (q * 0x100 + d) % 0x100 == d
  {
  }

  /** Reading back the bytes `BeBytes32` produced gives the value modulo 2^32. */
  lemma {:induction false} BeU32OfBeBytes32(x: int)
    ensures BeU32(BeBytes32(x)) == x % TWO_32
  {
    var u := x % TWO_32;
    var q1 := u / 0x100;
    var q2 := q1 / 0x100;
    var q3 := q2 / 0x100;
    assert u == q1 * 0x100 + u % 0x100;
    assert q1 == q2 * 0x100 + q1 % 0x100;
    assert q2 == q3 * 0x100 + q2 % 0x100;
  }

  /** Encoding the value of four bytes gives the same four bytes back. */
  lemma {:induction false} BeBytes32OfBeU32(b: seq<byte>)
    requires |b| == 4
    ensures BeBytes32(BeU32(b)) == b
  {
    var q2 := b[0] as int * 0x100 + b[1] as int;
    var q1 := q2 * 0x100 + b[2] as int;
    var u := q1 * 0x100 + b[3] as int;
    DigitStep(q1, b[3] as int);
    DigitStep(q2, b[2] as int);
    DigitStep(b[0] as int, b[1] as int);
    assert u % TWO_32 == u;
  }
}
