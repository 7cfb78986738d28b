/** Raw bytes of an STL file and the little-endian 32-bit fields read from them. */
module Bytes {

  /** One byte of the file, read as an unsigned char. */
  type Byte = b: int | 0 <= b < 0x100

  /** An unsigned 32-bit value: the triangle count of the binary header, or the
      bit pattern of one IEEE-754 single-precision float. */
  type Bits32 = x: int | 0 <= x < 0x1_0000_0000

  /** The value of four bytes read as a little-endian 32-bit word, as a
      little-endian host sees them when it copies them into a uint32_t or a float. */
  function Le32(s: seq<Byte>): Bits32
    requires |s| == 4
  {
    var b0, b1, b2, b3: int := s[0], s[1], s[2], s[3];
    b0 + 0x100 * b1 + 0x1_0000 * b2 + 0x100_0000 * b3
  }

  /** The four bytes a little-endian host stores for the word x. */
  function ToLe32(x: Bits32): (s: seq<Byte>)
    ensures |s| == 4
  {
    [x % 0x100, (x / 0x100) % 0x100, (x / 0x1_0000) % 0x100, x / 0x100_0000]
  }

  /** Reading back the bytes stored for a word gives the word. */
  lemma Le32OfToLe32(x: Bits32)
    ensures Le32(ToLe32(x)) == x
  {
    var q1 := x / 0x100;
    var q2 := q1 / 0x100;
    var q3 := q2 / 0x100;
    var b0, b1, b2 := x % 0x100, q1 % 0x100, q2 % 0x100;
    assert x == b0 + 0x100 * q1;
    assert q1 == b1 + 0x100 * q2;
    assert q2 == b2 + 0x100 * q3;
    assert x == (b0 + 0x100 * b1) + 0x1_0000 * q2;
    SplitHalf(b0 + 0x100 * b1, q2);
    assert x == (b0 + 0x100 * b1 + 0x1_0000 * b2) + 0x100_0000 * q3;
    SplitTop(b0 + 0x100 * b1 + 0x1_0000 * b2, q3);
    assert ToLe32(x) == [b0, b1, b2, q3];
  }

  /** Every four bytes are the stored form of the word they read as. */
  lemma ToLe32OfLe32(s: seq<Byte>)
    requires |s| == 4
    ensures ToLe32(Le32(s)) == s
  {
    var b0, b1, b2, b3: int := s[0], s[1], s[2], s[3];
    var hi2 := b2 + 0x100 * b3;
    var hi1 := b1 + 0x100 * hi2;
    assert Le32(s) == b0 + 0x100 * hi1;
    SplitByte(b0, hi1);
    SplitByte(b1, hi2);
    SplitByte(b2, b3);
    SplitHalf(b0 + 0x100 * b1, hi2);
    SplitTop(b0 + 0x100 * b1 + 0x1_0000 * b2, b3);
  }

  /** Splitting a number into its lowest byte and the rest. */
  lemma SplitByte(lo: int, hi: int)
    requires 0 <= lo < 0x100 && 0 <= hi
    ensures (lo + 0x100 * hi) % 0x100 == lo && (lo + 0x100 * hi) / 0x100 == hi
  {
  }

  lemma SplitHalf(lo: int, hi: int)
    requires 0 <= lo < 0x1_0000 && 0 <= hi
    ensures (lo + 0x1_0000 * hi) / 0x1_0000 == hi
  {
  }

  lemma SplitTop(lo: int, hi: int)
    requires 0 <= lo < 0x100_0000 && 0 <= hi
    ensures (lo + 0x100_0000 * hi) / 0x100_0000 == hi
  {
  }
}
