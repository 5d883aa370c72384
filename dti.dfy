// The motor-controller adapter (`dti_handler`): a frame with standard
// identifier 0x416 carries the electrical RPM as a big-endian signed 32-bit
// number in its first four bytes; the task stores the derived speed in a
// shared register.
module Dti {
  import opened Bytes
  import opened Can

  const ERPM_ID: int := 0x416
  /** The divisor applied to the eRPM before the float conversion. */
  const POLE_PAIRS: int := 10

  /** `(d as i32) << 24`: the shift of a byte into the top of an i32 wraps. */
  function Shl24(d: byte): (x: int)
    ensures IsI32(x)
    ensures x % 0x100_0000 == 0
  {
    assert (d as int * 0x100_0000) % 0x100_0000 == 0;
    WrapI32(d as int * 0x100_0000)
  }

  /** The sum of the four shifted bytes, added left to right as the source
      does. Every partial sum stays in the i32 range, so the additions
      neither overflow nor wrap. */
  function DecodeErpm(data: seq<byte>): (erpm: int)
    requires |data| >= 4
    ensures IsI32(erpm)
    ensures erpm == WrapI32(BeU32(data[..4]))
  {
    var s1 := Shl24(data[0]) + data[1] as int * 0x1_0000;
    var s2 := s1 + data[2] as int * 0x100;
    var s3 := s2 + data[3] as int;
    assert IsI32(s1) && IsI32(s2) && IsI32(s3) by { Shl24Headroom(data[0]); }
    assert s3 == WrapI32(BeU32(data[..4])) by { Shl24Value(data[0]); }
    s3
  }

  /** The top term is a multiple of 2^24, so adding anything below 2^24 to
      it stays in range. */
  lemma Shl24Headroom(d: byte)
    ensures Shl24(d) <= TWO_31 - 0x100_0000
  {
  }

  lemma Shl24Value(d: byte)
    ensures d < 0x80 ==> Shl24(d) == d as int * 0x100_0000
    ensures d >= 0x80 ==> Shl24(d) == d as int * 0x100_0000 - TWO_32
  {
  }

  /** No `+` in the decode overflows an i32, whatever the bytes. */
  lemma PartialSumsInRange(d0: byte, d1: byte, d2: byte, d3: byte)
    ensures IsI32(Shl24(d0) + d1 as int * 0x1_0000)
    ensures IsI32(Shl24(d0) + d1 as int * 0x1_0000 + d2 as int * 0x100)
    ensures IsI32(Shl24(d0) + d1 as int * 0x1_0000 + d2 as int * 0x100 + d3 as int)
  {
    Shl24Headroom(d0);
  }

  /** The terms occupy disjoint bytes: encoding the decoded value gives the
      four payload bytes back. */
  lemma {:induction false} EncodeDecodedErpm(data: seq<byte>)
    requires |data| >= 4
    ensures BeBytes32(DecodeErpm(data)) == data[..4]
  {
    var u := BeU32(data[..4]);
    assert (WrapI32(u) - u) % TWO_32 == 0;
    assert WrapI32(u) % TWO_32 == u;
    BeBytes32OfBeU32(data[..4]);
  }

  /** Decoding the big-endian bytes of any i32 gives it back. */
  lemma {:induction false} DecodeEncodedErpm(x: int, rest: seq<byte>)
    requires IsI32(x)
    ensures DecodeErpm(BeBytes32(x) + rest) == x
  {
    var b := BeBytes32(x) + rest;
    assert b[..4] == BeBytes32(x);
    BeU32OfBeBytes32(x);
  }

  /** Only the first four bytes matter. */
  lemma PrefixOnly(a: seq<byte>, b: seq<byte>)
    requires |a| >= 4 && |b| >= 4 && a[..4] == b[..4]
    ensures DecodeErpm(a) == DecodeErpm(b)
  {
  }

  /** Rust's `/` on integers: the quotient rounds toward zero, so the
      remainder has the dividend's sign and is smaller than the divisor. */
  function TruncDiv(a: int, d: int): (q: int)
    requires d > 0
    ensures a >= 0 ==> 0 <= a - q * d < d
    ensures a < 0 ==> -d < a - q * d <= 0
  {
    if a >= 0 then a / d else -((-a) / d)
  }

  /** Truncation agrees with Dafny's Euclidean `/` except on a negative
      dividend that the divisor does not divide, where it is one larger. */
  lemma {:induction false} TruncDivOfNegative(a: int, d: int)
    requires d > 0
    ensures TruncDiv(a, d) == if a < 0 && a % d != 0 then a / d + 1 else a / d
  {
    if a < 0 {
      var q := (-a) / d;
      var r := (-a) % d;
      assert -a == q * d + r && 0 <= r < d;
      if r == 0 {
        assert a == (-q) * d + 0;
        EuclidUnique(a, d, -q, 0);
      } else {
        assert a == (-q - 1) * d + (d - r);
        EuclidUnique(a, d, -q - 1, d - r);
      }
    }
  }

  /** Euclidean division is determined by a quotient and a remainder in
      0..d-1. */
  lemma {:induction false} EuclidUnique(a: int, d: int, q: int, r: int)
    requires d > 0 && 0 <= r < d && a == q * d + r
    ensures a / d == q && a % d == r
  {
    var q0 := a / d;
    var r0 := a % d;
    assert a == q0 * d + r0 && 0 <= r0 < d;
    assert (q - q0) * d == r0 - r;
    if q > q0 {
      MulAtLeast(q - q0, d);
    } else if q < q0 {
      MulAtLeast(q0 - q, d);
    }
  }

  lemma MulAtLeast(k: int, d: int)
    requires k >= 1 && d > 0
    ensures k * d >= d
  {
    assert k * d == (k - 1) * d + d;
  }

  function Abs(x: int): int { if x < 0 then -x else x }

  /** `erpm / 10` on an i32 eRPM stays an i32, and its magnitude is at most
      a tenth of the eRPM's, so the division cannot overflow. */
  lemma {:induction false} ErpmDivInRange(erpm: int)
    requires IsI32(erpm)
    ensures IsI32(TruncDiv(erpm, POLE_PAIRS))
    ensures POLE_PAIRS * Abs(TruncDiv(erpm, POLE_PAIRS)) <= Abs(erpm)
  {
    var q := TruncDiv(erpm, POLE_PAIRS);
    if erpm >= 0 {
      assert 0 <= erpm - q * POLE_PAIRS;
      assert q >= 0;
    } else {
      assert erpm - q * POLE_PAIRS <= 0;
      assert q <= 0;
    }
  }

  /** The task's state: the shared speed register and whether the firmware
      has stopped (an out-of-bounds index panics). */
  class DtiHandler {
    var speed: int
    var halted: bool

    constructor (initialSpeed: int)
      ensures speed == initialSpeed && !halted
    {
      speed := initialSpeed;
      halted := false;
    }

    /** One received frame. `toSpeed` stands for the float conversion from
        `erpm / 10` to the stored value. */
    method Handle(f: Frame, toSpeed: int -> int)
      requires !halted
      modifies this
      ensures halted <==> f.id == Standard(ERPM_ID) && |f.data| < 4
      ensures speed == if f.id == Standard(ERPM_ID) && |f.data| >= 4
                       then toSpeed(TruncDiv(DecodeErpm(f.data), POLE_PAIRS))
                       else old(speed)
    {
      match f.id {
        case Standard(raw) =>
          if raw == ERPM_ID {
            if |f.data| < 4 {
              halted := true;
              return;
            }
            var erpm := DecodeErpm(f.data);
            speed := toSpeed(TruncDiv(erpm, POLE_PAIRS));
          }
        case Extended(_) =>
      }
    }
  }
}
