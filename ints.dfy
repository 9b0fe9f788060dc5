/**
 * Fixed-width unsigned integers and their big-endian byte encodings, as Rust's
 * `to_be_bytes` / `from_be_bytes` define them.  The content store keeps a u64
 * microsecond timestamp as two u32 columns cut out of its eight big-endian bytes.
 */
module Ints {

  const TWO_8: nat := 0x100
  const TWO_16: nat := 0x1_0000
  const TWO_24: nat := 0x100_0000
  const TWO_32: nat := 0x1_0000_0000
  const TWO_40: nat := 0x100_0000_0000
  const TWO_48: nat := 0x1_0000_0000_0000
  const TWO_56: nat := 0x100_0000_0000_0000
  const TWO_64: nat := 0x1_0000_0000_0000_0000

  type byte = x: int | 0 <= x < 0x100
  type u16 = x: int | 0 <= x < 0x1_0000
  type u32 = x: int | 0 <= x < 0x1_0000_0000
  type u64 = x: int | 0 <= x < 0x1_0000_0000_0000_0000
  type i32 = x: int | -0x8000_0000 <= x < 0x8000_0000

  /** `u64::to_be_bytes`: most significant byte first. */
  function U64ToBeBytes(t: u64): (b: seq<byte>)
    ensures |b| == 8
  {
    [ (t / TWO_56) % 256, (t / TWO_48) % 256, (t / TWO_40) % 256, (t / TWO_32) % 256,
      (t / TWO_24) % 256, (t / TWO_16) % 256, (t / TWO_8) % 256, t % 256 ]
  }

  /** `u32::to_be_bytes`. */
  function U32ToBeBytes(x: u32): (b: seq<byte>)
    ensures |b| == 4
  {
    [ (x / TWO_24) % 256, (x / TWO_16) % 256, (x / TWO_8) % 256, x % 256 ]
  }

  /** `u32::from_be_bytes`. */
  function U32FromBeBytes(b: seq<byte>): u32
    requires |b| == 4
  {
    b[0] * TWO_24 + b[1] * TWO_16 + b[2] * TWO_8 + b[3]
  }

  /** `u64::from_be_bytes`. */
  function U64FromBeBytes(b: seq<byte>): u64
    requires |b| == 8
  {
    U32FromBeBytes(b[..4]) * TWO_32 + U32FromBeBytes(b[4..])
  }

  /**
   * The two halves of a timestamp as the store and the cursor parser compute
   * them: the first and the last four of its big-endian bytes, each read back
   * as a u32.
   */
  function SplitU64(t: u64): (halves: (u32, u32))
    ensures halves.0 == t / TWO_32 && halves.1 == t % TWO_32
  {
    var bytes := U64ToBeBytes(t);
    HighBytesAreQuotient(t);
    LowBytesAreRemainder(t);
    (U32FromBeBytes(bytes[..4]), U32FromBeBytes(bytes[4..]))
  }

  /** Rebuilding a u64 from its two u32 halves through their big-endian bytes. */
  function JoinU64(high: u32, low: u32): (t: u64)
    ensures t == high * TWO_32 + low
  {
    U32RoundTrip(high);
    U32RoundTrip(low);
    U64FromBeBytes(U32ToBeBytes(high) + U32ToBeBytes(low))
  }

  /** Reading back the bytes of a u32 gives the u32. */
  lemma U32RoundTrip(x: u32)
    ensures U32FromBeBytes(U32ToBeBytes(x)) == x
  {
    var q1 := x / TWO_8;
    var q2 := x / TWO_16;
    var q3 := x / TWO_24;
    assert q2 == q1 / TWO_8;
    assert q3 == q2 / TWO_8;
    assert x == q1 * TWO_8 + x % 256;
    assert q1 == q2 * TWO_8 + q1 % 256;
    assert q2 == q3 * TWO_8 + q2 % 256;
  }

  /** The first four big-endian bytes of `t` spell `t / 2^32`. */
  lemma HighBytesAreQuotient(t: u64)
    ensures U32FromBeBytes(U64ToBeBytes(t)[..4]) == t / TWO_32
  {
    var h := t / TWO_32;
    assert t / TWO_40 == h / TWO_8;
    assert t / TWO_48 == h / TWO_16;
    assert t / TWO_56 == h / TWO_24;
    U32RoundTrip(h);
    assert U64ToBeBytes(t)[..4] == U32ToBeBytes(h);
  }

  /** Adding a multiple of 256 leaves the low byte alone. */
  lemma LowByteOfShift(a: nat, x: nat)
    ensures (a * 256 + x) % 256 == x % 256
  {
  }

  /** Shifting `h * 2^32 + l` right by 8, 16 or 24 bits shifts `l` and keeps `h` above it. */
  lemma ShiftOfSplit(h: nat, l: nat)
    requires l < TWO_32
    ensures (h * TWO_32 + l) / TWO_8 == (h * TWO_16) * 256 + l / TWO_8
    ensures (h * TWO_32 + l) / TWO_16 == (h * 256) * 256 + l / TWO_16
    ensures (h * TWO_32 + l) / TWO_24 == h * 256 + l / TWO_24
  {
  }

  /** The last four big-endian bytes of `t` spell `t % 2^32`. */
  lemma LowBytesAreRemainder(t: u64)
    ensures U32FromBeBytes(U64ToBeBytes(t)[4..]) == t % TWO_32
  {
    var h, l := t / TWO_32, t % TWO_32;
    assert t == h * TWO_32 + l;
    ShiftOfSplit(h, l);
    LowByteOfShift(h, l / TWO_24);
    LowByteOfShift(h * 256, l / TWO_16);
    LowByteOfShift(h * TWO_16, l / TWO_8);
    LowByteOfShift(h * TWO_24, l);
    assert (t / TWO_24) % 256 == (l / TWO_24) % 256;
    assert (t / TWO_16) % 256 == (l / TWO_16) % 256;
    assert (t / TWO_8) % 256 == (l / TWO_8) % 256;
    assert t % 256 == l % 256;
    U32RoundTrip(l);
    assert U64ToBeBytes(t)[4..] == U32ToBeBytes(l);
  }

  /** Splitting then joining gives back every u64, 0 and 2^64-1 included. */
  lemma {:induction false} U64JoinOfSplit(t: u64)
    ensures JoinU64(SplitU64(t).0, SplitU64(t).1) == t
  {
  }

  /** Joining then splitting gives back both halves. */
  lemma {:induction false} U64SplitOfJoin(high: u32, low: u32)
    ensures SplitU64(JoinU64(high, low)) == (high, low)
  {
    var t := JoinU64(high, low);
    assert t / TWO_32 == high;
    assert t % TWO_32 == low;
  }

  /**
   * Comparing the halves lexicographically is comparing the timestamps: the
   * order of the two stored columns is the order of time.
   */
  lemma {:induction false} SplitPreservesOrder(s: u64, t: u64)
    ensures s < t <==> (SplitU64(s).0 < SplitU64(t).0 ||
                        (SplitU64(s).0 == SplitU64(t).0 && SplitU64(s).1 < SplitU64(t).1))
  {
  }
}
