/** The bytewise CRC of stack-comm.c and what it computes.

    The C function shifts a 16-bit register a whole byte at a time.  Here it is related to
    two independent descriptions: a register fed one message bit at a time, and schoolbook
    long division by the generator x^16 + x^12 + x^5 + 1 (the polynomial of ITU-T
    Recommendation V.41, section 2).  The register preset 0xFFFF is the program's own choice.
 */
module Crc {

  type Bytes = seq<bv8>
  type Bits = seq<bv1>

  const PRESET: bv16 := 0xFFFF

  // ---------------------------------------------------------------- the program's CRC

  /** The body of the loop of stk_crc16. */
  function ByteStep(crc: bv16, b: bv8): bv16 {
    var x: bv8 := ((crc >> 8) as bv8) ^ b;
    var y: bv8 := x ^ (x >> 4);
    (crc << 8) ^ ((y as bv16) << 12) ^ ((y as bv16) << 5) ^ (y as bv16)
  }

  /** The register after the bytes of `data`, in order. */
  function CrcFrom(crc: bv16, data: Bytes): bv16 {
    if data == [] then crc
    else ByteStep(CrcFrom(crc, data[..|data| - 1]), data[|data| - 1])
  }

  lemma CrcAppend(crc: bv16, data: Bytes, b: bv8)
    ensures CrcFrom(crc, data + [b]) == ByteStep(CrcFrom(crc, data), b)
  {
    hide ByteStep;
    assert (data + [b])[..|data|] == data;
  }

  /** stk_crc16: the cursor walks the buffer while the length counts down. */
  method Crc16(data: array<bv8>, length: nat) returns (crc: bv16)
    requires length <= data.Length && length < 0x1_0000
    ensures crc == CrcFrom(PRESET, data[..length])
  {
    hide ByteStep;
    crc := PRESET;
    var cursor, left := 0, length;
    while left != 0
      invariant left + cursor == length
      invariant crc == CrcFrom(PRESET, data[..cursor])
      decreases left
    {
      left := left - 1;
      CrcAppend(PRESET, data[..cursor], data[cursor]);
      assert data[..cursor + 1] == data[..cursor] + [data[cursor]];
      crc := ByteStep(crc, data[cursor]);
      cursor := cursor + 1;
    }
  }

  // ---------------------------------------------------------------- one bit at a time

  /** Shifts one message bit into the register; the bit leaving the top, combined with the
      message bit, decides whether the generator is subtracted. */
  function BitStep(crc: bv16, bit: bv1): bv16 {
    var f := (crc >> 15) ^ (bit as bv16);
    (crc << 1) ^ (f << 12) ^ (f << 5) ^ f
  }

  function CrcBits(crc: bv16, bits: Bits): bv16 {
    if bits == [] then crc
    else BitStep(CrcBits(crc, bits[..|bits| - 1]), bits[|bits| - 1])
  }

  function BitOf(b: bv8, k: nat): bv1
    requires k < 8
  {
    ((b >> k) & 1) as bv1
  }

  /** The bits of a byte, most significant first. */
  function ByteBits(b: bv8): (r: Bits)
    ensures |r| == 8
  {
    [BitOf(b, 7), BitOf(b, 6), BitOf(b, 5), BitOf(b, 4), BitOf(b, 3), BitOf(b, 2), BitOf(b, 1), BitOf(b, 0)]
  }

  lemma ByteBitsAt(b: bv8, i: nat)
    requires i < 8
    ensures ByteBits(b)[i] == BitOf(b, 7 - i)
  {
    hide BitOf;
    match i {
      case 0 =>
      case 1 =>
      case 2 =>
      case 3 =>
      case 4 =>
      case 5 =>
      case 6 =>
      case _ => assert i == 7;
    }
  }

  function MessageBits(data: Bytes): (r: Bits)
    ensures |r| == 8 * |data|
  {
    if data == [] then [] else MessageBits(data[..|data| - 1]) + ByteBits(data[|data| - 1])
  }

  lemma CrcBitsAppend(c: bv16, bits: Bits, bit: bv1)
    ensures CrcBits(c, bits + [bit]) == BitStep(CrcBits(c, bits), bit)
  {
    hide BitStep;
    assert (bits + [bit])[..|bits|] == bits;
  }

  lemma {:induction false} CrcBitsConcat(c: bv16, a: Bits, b: Bits)
    ensures CrcBits(c, a + b) == CrcBits(CrcBits(c, a), b)
  {
    hide BitStep;
    if b == [] {
      assert a + b == a;
    } else {
      var front := b[..|b| - 1];
      assert (a + b)[..|a + b| - 1] == a + front;
      CrcBitsConcat(c, a, front);
    }
  }

  // ------------------------------------------------- a byte is two nibbles, a nibble four bits

  /** Four bit steps at once; half of ByteStep. */
  function NibbleStep(crc: bv16, n: bv8): bv16 {
    var x := (crc >> 12) ^ (n as bv16);
    (crc << 4) ^ (x << 12) ^ (x << 5) ^ x
  }

  /** t is `shifted` plus the multiple x of the generator. */
  predicate Reduced(shifted: bv16, x: bv16, t: bv16) {
    t == shifted ^ (x << 12) ^ (x << 5) ^ x
  }

  /** u is the register c after both nibbles of b, written without intermediate values. */
  predicate TwoNibbles(c: bv16, b: bv8, u: bv16) {
    var x := (c >> 12) ^ ((b >> 4) as bv16);
    var t := (c << 4) ^ (x << 12) ^ (x << 5) ^ x;
    var z := (t >> 12) ^ ((b & 15) as bv16);
    u == (t << 4) ^ (z << 12) ^ (z << 5) ^ z
  }

  /** t is the register c after the nibble n. */
  predicate AfterNibble(c: bv16, n: bv8, t: bv16) {
    var x := (c >> 12) ^ (n as bv16);
    t == (c << 4) ^ (x << 12) ^ (x << 5) ^ x
  }

  lemma NibbleStepIsAfterNibble(c: bv16, n: bv8)
    ensures AfterNibble(c, n, NibbleStep(c, n))
  {
  }

  lemma SecondNibble(c: bv16, b: bv8, t: bv16)
    requires AfterNibble(c, b >> 4, t)
    ensures TwoNibbles(c, b, NibbleStep(t, b & 15))
  {
  }

  lemma TwoNibblesAreTheByte(c: bv16, b: bv8, u: bv16)
    requires TwoNibbles(c, b, u)
    ensures u == ByteStep(c, b)
  {
  }

  lemma ByteStepIsTwoNibbles(c: bv16, b: bv8)
    ensures ByteStep(c, b) == NibbleStep(NibbleStep(c, b >> 4), b & 15)
  {
    hide *;
    NibbleStepIsAfterNibble(c, b >> 4);
    SecondNibble(c, b, NibbleStep(c, b >> 4));
    TwoNibblesAreTheByte(c, b, NibbleStep(NibbleStep(c, b >> 4), b & 15));
  }

  lemma FirstBit(c: bv16, n: bv8)
    requires n < 16
    ensures Reduced(c << 1, (c >> 15) ^ ((n >> 3) as bv16), BitStep(c, BitOf(n, 3)))
  {
  }

  lemma SecondBit(c: bv16, n: bv8, t: bv16)
    requires n < 16 && Reduced(c << 1, (c >> 15) ^ ((n >> 3) as bv16), t)
    ensures Reduced(c << 2, (c >> 14) ^ ((n >> 2) as bv16), BitStep(t, BitOf(n, 2)))
  {
  }

  lemma ThirdBit(c: bv16, n: bv8, t: bv16)
    requires n < 16 && Reduced(c << 2, (c >> 14) ^ ((n >> 2) as bv16), t)
    ensures Reduced(c << 3, (c >> 13) ^ ((n >> 1) as bv16), BitStep(t, BitOf(n, 1)))
  {
  }

  lemma FourthBit(c: bv16, n: bv8, t: bv16)
    requires n < 16 && Reduced(c << 3, (c >> 13) ^ ((n >> 1) as bv16), t)
    ensures AfterNibble(c, n, BitStep(t, BitOf(n, 0)))
  {
  }

  lemma AfterNibbleIsUnique(c: bv16, n: bv8, t: bv16)
    requires AfterNibble(c, n, t)
    ensures t == NibbleStep(c, n)
  {
  }

  lemma NibbleIsFourBits(c: bv16, n: bv8)
    requires n < 16
    ensures NibbleStep(c, n) == BitStep(BitStep(BitStep(BitStep(c, BitOf(n, 3)), BitOf(n, 2)), BitOf(n, 1)), BitOf(n, 0))
  {
    hide *;
    var c1 := BitStep(c, BitOf(n, 3));
    var c2 := BitStep(c1, BitOf(n, 2));
    var c3 := BitStep(c2, BitOf(n, 1));
    FirstBit(c, n);
    SecondBit(c, n, c1);
    ThirdBit(c, n, c2);
    FourthBit(c, n, c3);
    AfterNibbleIsUnique(c, n, BitStep(c3, BitOf(n, 0)));
  }

  lemma NibbleBits(b: bv8)
    ensures b >> 4 < 16 && b & 15 < 16
    ensures BitOf(b >> 4, 3) == BitOf(b, 7) && BitOf(b >> 4, 2) == BitOf(b, 6)
    ensures BitOf(b >> 4, 1) == BitOf(b, 5) && BitOf(b >> 4, 0) == BitOf(b, 4)
    ensures BitOf(b & 15, 3) == BitOf(b, 3) && BitOf(b & 15, 2) == BitOf(b, 2)
    ensures BitOf(b & 15, 1) == BitOf(b, 1) && BitOf(b & 15, 0) == BitOf(b, 0)
  {
  }

  lemma CrcBitsOfPair(c: bv16, x: bv1, y: bv1)
    ensures CrcBits(c, [x, y]) == BitStep(BitStep(c, x), y)
  {
    hide BitStep;
    assert [x, y] == ([] + [x]) + [y];
    CrcBitsAppend(c, [], x);
    CrcBitsAppend(c, [] + [x], y);
  }

  lemma CrcBitsOfFour(c: bv16, w: bv1, x: bv1, y: bv1, z: bv1)
    ensures CrcBits(c, [w, x, y, z]) == BitStep(BitStep(BitStep(BitStep(c, w), x), y), z)
  {
    hide BitStep, CrcBits;
    CrcBitsOfPair(c, w, x);
    CrcBitsOfPair(CrcBits(c, [w, x]), y, z);
    assert [w, x, y, z] == [w, x] + [y, z];
    CrcBitsConcat(c, [w, x], [y, z]);
  }

  lemma CrcBitsOfEight(c: bv16, s: bv1, t: bv1, u: bv1, v: bv1, w: bv1, x: bv1, y: bv1, z: bv1)
    ensures CrcBits(c, [s, t, u, v, w, x, y, z]) ==
            BitStep(BitStep(BitStep(BitStep(BitStep(BitStep(BitStep(BitStep(c, s), t), u), v), w), x), y), z)
  {
    hide *;
    EightAreTwiceFour(s, t, u, v, w, x, y, z);
    CrcBitsConcat(c, [s, t, u, v], [w, x, y, z]);
    CrcBitsOfFour(c, s, t, u, v);
    CrcBitsOfFour(CrcBits(c, [s, t, u, v]), w, x, y, z);
  }

  lemma EightAreTwiceFour(s: bv1, t: bv1, u: bv1, v: bv1, w: bv1, x: bv1, y: bv1, z: bv1)
    ensures [s, t, u, v, w, x, y, z] == [s, t, u, v] + [w, x, y, z]
  {
  }

  /** The byte step is eight bit steps, most significant bit first. */
  lemma ByteStepIsEightBitSteps(c: bv16, b: bv8)
    ensures ByteStep(c, b) == CrcBits(c, ByteBits(b))
  {
    hide BitOf, BitStep, ByteStep, NibbleStep, CrcBits;
    NibbleBits(b);
    ByteStepIsTwoNibbles(c, b);
    NibbleIsFourBits(c, b >> 4);
    NibbleIsFourBits(NibbleStep(c, b >> 4), b & 15);
    assert CrcBits(c, ByteBits(b)) ==
           CrcBits(c, [BitOf(b, 7), BitOf(b, 6), BitOf(b, 5), BitOf(b, 4),
                       BitOf(b, 3), BitOf(b, 2), BitOf(b, 1), BitOf(b, 0)]);
    CrcBitsOfEight(c, BitOf(b, 7), BitOf(b, 6), BitOf(b, 5), BitOf(b, 4),
                   BitOf(b, 3), BitOf(b, 2), BitOf(b, 1), BitOf(b, 0));
  }

  /** The bytewise register equals the bitwise one, for every message and every preset. */
  lemma {:induction false} CrcIsBitwise(c: bv16, data: Bytes)
    ensures CrcFrom(c, data) == CrcBits(c, MessageBits(data))
  {
    hide ByteStep, BitStep, ByteBits;
    if data != [] {
      var front, last := data[..|data| - 1], data[|data| - 1];
      CrcIsBitwise(c, front);
      ByteStepIsEightBitSteps(CrcBits(c, MessageBits(front)), last);
      CrcBitsConcat(c, MessageBits(front), ByteBits(last));
    }
  }
}
