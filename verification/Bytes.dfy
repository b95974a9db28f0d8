// Machine integers, and the little-endian form in which the capture files hold them.
module Bytes {
  const TWO8 := 0x100
  const TWO16 := 0x1_0000
  const TWO32 := 0x1_0000_0000
  const TWO63 := 0x8000_0000_0000_0000
  const TWO64 := 0x1_0000_0000_0000_0000

  type U8 = x: int | 0 <= x < TWO8
  type U16 = x: int | 0 <= x < TWO16
  type U32 = x: int | 0 <= x < TWO32
  type U64 = x: int | 0 <= x < TWO64

  function Le4(v: U32): (b: seq<U8>)
    ensures |b| == 4
  {
    [v % TWO8, v / TWO8 % TWO8, v / TWO16 % TWO8, v / 0x100_0000]
  }

  function FromLe4(b: seq<U8>): U32
    requires |b| == 4
  {
    var b0: int, b1: int, b2: int, b3: int := b[0], b[1], b[2], b[3];
    b0 + TWO8 * b1 + TWO16 * b2 + 0x100_0000 * b3
  }

  function Le8(v: U64): (b: seq<U8>)
    ensures |b| == 8
  {
    Le4(v % TWO32) + Le4(v / TWO32)
  }

  function FromLe8(b: seq<U8>): U64
    requires |b| == 8
  {
    FromLe4(b[..4]) + TWO32 * FromLe4(b[4..])
  }

  /** The bytes come lowest first, and only these four bytes are read as their number. */
  lemma LowestFirst(b: seq<U8>)
    requires |b| == 4
    ensures var b0: int, b1: int, b2: int, b3: int := b[0], b[1], b[2], b[3];
            FromLe4(b) == b0 + 0x100 * b1 + 0x1_0000 * b2 + 0x100_0000 * b3
    ensures Le4(FromLe4(b)) == b
  {
    var b1: int, b2: int, b3: int := b[1], b[2], b[3];
    var v := FromLe4(b);
    assert v / 0x100_0000 == b3;
    assert v / 0x1_0000 == b2 + 0x100 * b3;
    assert v / 0x100 == b1 + 0x100 * b2 + 0x1_0000 * b3;
  }

  lemma Le4ReadsBack(v: U32)
    ensures FromLe4(Le4(v)) == v
  {
    assert v / TWO16 == v / TWO8 / TWO8 && v / 0x100_0000 == v / TWO8 / TWO8 / TWO8;
  }

  /** So do the eight bytes of a 64-bit number: its low half, lowest byte first, and then its high half. */
  lemma LowestFirst8(b: seq<U8>)
    requires |b| == 8
    ensures FromLe8(b) == FromLe4(b[..4]) + 0x1_0000_0000 * FromLe4(b[4..])
    ensures Le8(FromLe8(b)) == b
  {
    TwoHalves(FromLe4(b[..4]), FromLe4(b[4..]));
    LowestFirst(b[..4]);
    LowestFirst(b[4..]);
    assert b == b[..4] + b[4..];
  }

  lemma TwoHalves(low: U32, high: U32)
    ensures Le8(low + TWO32 * high) == Le4(low) + Le4(high)
  {
    assert (low + TWO32 * high) % TWO32 == low && (low + TWO32 * high) / TWO32 == high;
  }

  lemma Le8ReadsBack(v: U64)
    ensures FromLe8(Le8(v)) == v
  {
    var low, high := Le4(v % TWO32), Le4(v / TWO32);
    assert (low + high)[..4] == low && (low + high)[4..] == high;
    Le4ReadsBack(v % TWO32);
    Le4ReadsBack(v / TWO32);
  }
}
