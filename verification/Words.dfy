/** Machine words: bytes, 64-bit words, their arithmetic, and little-endian layout. */
module Words {

  datatype Option<+T> = None | Some(value: T)

  const TWO32 := 0x1_0000_0000
  const TWO64 := 0x1_0000_0000_0000_0000

  type u8 = x: int | 0 <= x < 0x100
  type u64 = x: int | 0 <= x < 0x1_0000_0000_0000_0000

  /** Reduction modulo 2^64: what a 64-bit register keeps of an integer. */
  function Wrap(x: int): u64 { x % TWO64 }

  function Pow2(k: nat): (r: nat)
    ensures r >= 1
  {
    if k == 0 then 1 else 2 * Pow2(k - 1)
  }

  /** Bitwise operations, one binary digit at a time. */
  function BitAnd(x: nat, y: nat): (r: nat)
    ensures r <= x && r <= y
  {
    if x == 0 || y == 0 then 0
    else (if x % 2 == 1 && y % 2 == 1 then 1 else 0) + 2 * BitAnd(x / 2, y / 2)
  }

  function BitOr(x: nat, y: nat): (r: nat)
    ensures x == 0 ==> r == y
    ensures y == 0 ==> r == x
    decreases x + y
  {
    if x == 0 then y
    else if y == 0 then x
    else (if x % 2 == 1 || y % 2 == 1 then 1 else 0) + 2 * BitOr(x / 2, y / 2)
  }

  lemma {:induction false} BitOrBound(x: nat, y: nat, k: nat)
    requires x < Pow2(k) && y < Pow2(k)
    ensures BitOr(x, y) < Pow2(k)
    decreases k
  {
    if x != 0 && y != 0 {
      BitOrBound(x / 2, y / 2, k - 1);
    }
  }

  lemma Pow2Of64()
    ensures Pow2(64) == TWO64
  {
    assert Pow2(8) == 256;
    assert Pow2(16) == 65536;
    assert Pow2(24) == 16777216;
    assert Pow2(32) == 4294967296;
    assert Pow2(40) == 1099511627776;
    assert Pow2(48) == 281474976710656;
    assert Pow2(56) == 72057594037927936;
  }

  function Or64(x: u64, y: u64): u64 {
    Pow2Of64();
    BitOrBound(x, y, 64);
    BitOr(x, y)
  }

  /** The four bytes of an integer modulo 2^32, least significant first. A negative integer gives its
      two's complement form. */
  function LE32(v: int): (b: seq<u8>)
    ensures |b| == 4
  {
    [v % 256, v / 256 % 256, v / 65536 % 256, v / 16777216 % 256]
  }

  function LE64(v: u64): (b: seq<u8>)
    ensures |b| == 8
  {
    LE32(v % TWO32) + LE32(v / TWO32)
  }

  function From32(b: seq<u8>): (v: int)
    requires |b| == 4
    ensures 0 <= v < TWO32
  {
    var b0: int, b1: int, b2: int, b3: int := b[0], b[1], b[2], b[3];
    b0 + 256 * b1 + 65536 * b2 + 16777216 * b3
  }

  function From64(b: seq<u8>): u64
    requires |b| == 8
  {
    From32(b[..4]) + TWO32 * From32(b[4..])
  }

  function Signed32(v: int): int { if v < 0x8000_0000 then v else v - TWO32 }

  function Signed8(v: u8): int { if v < 128 then v else v - 256 }

  lemma From32OfLE32(v: int)
    ensures From32(LE32(v)) == v % TWO32
    ensures 0 <= v < TWO32 ==> From32(LE32(v)) == v
  {
    var q1, r1 := v / 256, v % 256;
    var q2, r2 := q1 / 256, q1 % 256;
    var q3, r3 := q2 / 256, q2 % 256;
    assert v / 65536 == q2 && v / 16777216 == q3;
    assert v == TWO32 * (q3 / 256) + (r1 + 256 * r2 + 65536 * r3 + 16777216 * (q3 % 256));
  }

  lemma SignedOfLE32(v: int)
    requires -0x8000_0000 <= v < 0x8000_0000
    ensures Signed32(From32(LE32(v))) == v
  {
    From32OfLE32(v);
  }

  lemma HalvesOfLE64(v: u64)
    ensures LE64(v)[..4] == LE32(v % TWO32)
    ensures LE64(v)[4..] == LE32(v / TWO32)
  {
  }

  lemma From64OfLE64(v: u64)
    ensures From64(LE64(v)) == v
  {
    hide LE32, From32;
    var lo, hi := v % TWO32, v / TWO32;
    From32OfLE32(lo);
    From32OfLE32(hi);
    HalvesOfLE64(v);
  }

  lemma LowHigh(lo: int, hi: int)
    requires 0 <= lo < TWO32 && 0 <= hi < TWO32
    ensures (lo + TWO32 * hi) % TWO32 == lo && (lo + TWO32 * hi) / TWO32 == hi
  {
  }

  lemma {:induction false} LE64OfFrom64(b: seq<u8>)
    requires |b| == 8
    ensures LE64(From64(b)) == b
  {
    LE32OfFrom32(b[..4]);
    LE32OfFrom32(b[4..]);
    var lo, hi := From32(b[..4]), From32(b[4..]);
    LowHigh(lo, hi);
    assert b == b[..4] + b[4..];
  }

  lemma LE32OfFrom32(b: seq<u8>)
    requires |b| == 4
    ensures LE32(From32(b)) == b
  {
    var v := From32(b);
    var b0: int, b1: int, b2: int, b3: int := b[0], b[1], b[2], b[3];
    assert v / 256 == b1 + 256 * b2 + 65536 * b3;
    assert v / 65536 == b2 + 256 * b3;
  }
}
