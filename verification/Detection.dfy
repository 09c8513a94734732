/** Which changes of a message the CRC notices.  The register is linear over exclusive or, so
    everything comes down to the patterns the register, started at zero, maps to zero. */
module Detection {

  import opened Crc
  import opened LongDivision

  // ---------------------------------------------------------------- linearity

  lemma BitStepLinear(c: bv16, d: bv16, x: bv1, y: bv1)
    ensures BitStep(c ^ d, x ^ y) == BitStep(c, x) ^ BitStep(d, y)
  {
  }

  predicate Sum(p: bv16, q: bv16, r: bv16) { r == p ^ q }

  predicate BitSum(x: bv1, y: bv1, z: bv1) { z == x ^ y }

  lemma BitStepOfSum(p: bv16, q: bv16, r: bv16, x: bv1, y: bv1, z: bv1)
    requires Sum(p, q, r) && BitSum(x, y, z)
    ensures Sum(BitStep(p, x), BitStep(q, y), BitStep(r, z))
  {
    BitStepLinear(p, q, x, y);
  }

  lemma BitSumOf(x: bv1, y: bv1)
    ensures BitSum(x, y, x ^ y)
  {
  }

  /** The register is linear: registers and messages add up bit by bit. */
  lemma {:induction false} CrcBitsLinear(p: bv16, q: bv16, r: bv16, a: Bits, b: Bits)
    requires |a| == |b| && Sum(p, q, r)
    ensures Sum(CrcBits(p, a), CrcBits(q, b), CrcBits(r, Xor(a, b)))
    decreases |a|
  {
    hide BitStep, Sum, BitSum;
    if a != [] {
      var k := |a| - 1;
      CrcBitsLinear(p, q, r, a[..k], b[..k]);
      assert Xor(a, b)[..k] == Xor(a[..k], b[..k]);
      BitSumOf(a[k], b[k]);
      BitStepOfSum(CrcBits(p, a[..k]), CrcBits(q, b[..k]), CrcBits(r, Xor(a[..k], b[..k])), a[k], b[k], Xor(a, b)[k]);
    }
  }

  /** Bytewise exclusive or of equally long messages. */
  function ZeroBytes(n: nat): (r: Bytes)
    ensures |r| == n && forall k :: 0 <= k < n ==> r[k] == 0
  {
    seq(n, _ => 0)
  }

  function XorBytes(x: Bytes, y: Bytes): (r: Bytes)
    requires |x| == |y|
    ensures |r| == |x| && forall i :: 0 <= i < |x| ==> r[i] == x[i] ^ y[i]
  {
    seq(|x|, i requires 0 <= i < |x| => x[i] ^ y[i])
  }

  lemma XorWithZero(b: bv8)
    ensures b ^ 0 == b
  {
  }

  lemma ZeroNoise(p: Bytes)
    ensures XorBytes(p, ZeroBytes(|p|)) == p
  {
    forall i | 0 <= i < |p|
      ensures XorBytes(p, ZeroBytes(|p|))[i] == p[i]
    {
      XorWithZero(p[i]);
    }
  }

  lemma BitsOfXor(x: bv8, y: bv8)
    ensures BitOf(x ^ y, 7) == BitOf(x, 7) ^ BitOf(y, 7) && BitOf(x ^ y, 6) == BitOf(x, 6) ^ BitOf(y, 6)
    ensures BitOf(x ^ y, 5) == BitOf(x, 5) ^ BitOf(y, 5) && BitOf(x ^ y, 4) == BitOf(x, 4) ^ BitOf(y, 4)
    ensures BitOf(x ^ y, 3) == BitOf(x, 3) ^ BitOf(y, 3) && BitOf(x ^ y, 2) == BitOf(x, 2) ^ BitOf(y, 2)
    ensures BitOf(x ^ y, 1) == BitOf(x, 1) ^ BitOf(y, 1) && BitOf(x ^ y, 0) == BitOf(x, 0) ^ BitOf(y, 0)
  {
  }

  lemma BitOfXor(x: bv8, y: bv8, k: nat)
    requires k < 8
    ensures BitOf(x ^ y, k) == BitOf(x, k) ^ BitOf(y, k)
  {
    BitsOfXor(x, y);
    hide *;
    match k {
      case 0 =>
      case 1 =>
      case 2 =>
      case 3 =>
      case 4 =>
      case 5 =>
      case 6 =>
      case _ => assert k == 7;
    }
  }

  lemma ByteBitsXor(x: bv8, y: bv8)
    ensures ByteBits(x ^ y) == Xor(ByteBits(x), ByteBits(y))
  {
    hide *;
    forall i | 0 <= i < 8
      ensures ByteBits(x ^ y)[i] == ByteBits(x)[i] ^ ByteBits(y)[i]
    {
      BitOfXor(x, y, 7 - i);
      ByteBitsAt(x, i);
      ByteBitsAt(y, i);
      ByteBitsAt(x ^ y, i);
    }
  }

  lemma XorOfConcat(a: Bits, b: Bits, c: Bits, d: Bits)
    requires |a| == |c| && |b| == |d|
    ensures Xor(a + b, c + d) == Xor(a, c) + Xor(b, d)
  {
  }

  lemma {:induction false} MessageBitsXor(x: Bytes, y: Bytes)
    requires |x| == |y|
    ensures MessageBits(XorBytes(x, y)) == Xor(MessageBits(x), MessageBits(y))
    decreases |x|
  {
    hide ByteBits, Xor;
    if x == [] {
      assert Xor([], []) == [];
    } else {
      var k := |x| - 1;
      MessageBitsXor(x[..k], y[..k]);
      assert XorBytes(x, y)[..k] == XorBytes(x[..k], y[..k]);
      ByteBitsXor(x[k], y[k]);
      XorOfConcat(MessageBits(x[..k]), ByteBits(x[k]), MessageBits(y[..k]), ByteBits(y[k]));
    }
  }

  /** The CRC is affine: changing a message by n changes its register by the register of n
      started at zero, whatever the message and the preset. */
  lemma CrcAffine(c: bv16, data: Bytes, n: Bytes)
    requires |data| == |n|
    ensures CrcFrom(c, XorBytes(data, n)) == CrcFrom(c, data) ^ CrcFrom(0, n)
  {
    CrcOfSum(c, data, n);
  }

  lemma CrcOfSum(c: bv16, data: Bytes, n: Bytes)
    requires |data| == |n|
    ensures Sum(CrcFrom(c, data), CrcFrom(0, n), CrcFrom(c, XorBytes(data, n)))
  {
    assert Sum(c, 0, c);
    hide *;
    CrcIsBitwise(c, data);
    CrcIsBitwise(0, n);
    CrcIsBitwise(c, XorBytes(data, n));
    MessageBitsXor(data, n);
    CrcBitsLinear(c, 0, c, MessageBits(data), MessageBits(n));
  }

  // ---------------------------------------------------------------- runs of zeros

  lemma BitStepZero(c: bv16)
    ensures BitStep(c, 0) == 0 <==> c == 0
  {
  }

  lemma {:induction false} ZeroRun(c: bv16, n: nat)
    ensures CrcBits(c, Zeros(n)) == 0 <==> c == 0
  {
    hide BitStep;
    if n > 0 {
      assert Zeros(n) == Zeros(n - 1) + [0];
      CrcBitsAppend(c, Zeros(n - 1), 0);
      ZeroRun(c, n - 1);
      BitStepZero(CrcBits(c, Zeros(n - 1)));
    }
  }

  /** Zeros around a pattern change nothing: only the pattern decides. */
  lemma Surrounded(a: nat, w: Bits, b: nat)
    ensures CrcBits(0, Zeros(a) + w + Zeros(b)) == 0 <==> CrcBits(0, w) == 0
  {
    hide BitStep, Zeros;
    ZeroRun(0, a);
    CrcBitsConcat(0, Zeros(a), w);
    CrcBitsConcat(0, Zeros(a) + w, Zeros(b));
    ZeroRun(CrcBits(0, w), b);
  }

  // ---------------------------------------------------------------- odd patterns

  /** The number of flipped bits. */
  function Weight(e: Bits): nat {
    if e == [] then 0 else Weight(e[..|e| - 1]) + (if e[|e| - 1] == 1 then 1 else 0)
  }

  function Parity(r: bv16): bv1 {
    var a := r ^ (r >> 8);
    var b := a ^ (a >> 4);
    var c := b ^ (b >> 2);
    ((c ^ (c >> 1)) & 1) as bv1
  }

  /** The generator has an even number of terms, so a bit step changes the parity of the
      register exactly by the bit fed in. */
  lemma BitStepParity(r: bv16, b: bv1)
    ensures Parity(BitStep(r, b)) == Parity(r) ^ b
  {
    hide *;
    BitStepIsShifted(r, b);
    ParityFolds(r);
    ShiftedParity(r, b, BitStep(r, b), Parity(r));
  }

  lemma BitStepIsShifted(r: bv16, b: bv1)
    ensures var f := (r >> 15) ^ (b as bv16);
      BitStep(r, b) == (r << 1) ^ (f << 12) ^ (f << 5) ^ f
  {
  }

  lemma ParityFolds(r: bv16)
    ensures var x := r ^ (r >> 8); var y := x ^ (x >> 4); var z := y ^ (y >> 2);
      Parity(r) == ((z ^ (z >> 1)) & 1) as bv1
  {
  }

  lemma ShiftedParity(r: bv16, b: bv1, t: bv16, p: bv1)
    requires var f := (r >> 15) ^ (b as bv16);
      t == (r << 1) ^ (f << 12) ^ (f << 5) ^ f
    requires var x := r ^ (r >> 8); var y := x ^ (x >> 4); var z := y ^ (y >> 2);
      p == ((z ^ (z >> 1)) & 1) as bv1
    ensures Parity(t) == p ^ b
  {
  }

  lemma ParityOfZero()
    ensures Parity(0) == 0
  {
  }

  lemma {:induction false} CrcParity(e: Bits)
    ensures Parity(CrcBits(0, e)) == if Weight(e) % 2 == 1 then 1 else 0
    decreases |e|
  {
    hide BitStep, Parity;
    if e == [] {
      ParityOfZero();
    } else {
      var k := |e| - 1;
      CrcParity(e[..k]);
      BitStepParity(CrcBits(0, e[..k]), e[k]);
      BitPlus(Parity(CrcBits(0, e[..k])), e[k]);
    }
  }

  lemma BitPlus(x: bv1, y: bv1)
    ensures (x == 0 || x == 1) && (y == 0 || y == 1)
    ensures x ^ y == if x == y then 0 else 1
  {
  }

  /** Any odd number of flipped bits is noticed, in messages of any length. */
  lemma OddPatternDetected(e: Bits)
    requires Weight(e) % 2 == 1
    ensures CrcBits(0, e) != 0
  {
    hide BitStep, Parity, CrcBits;
    CrcParity(e);
    ParityOfZero();
  }

  // ---------------------------------------------------------------- two bits

  /** Shifting zeros into r does not produce 0x8000 within n steps. */
  predicate NoReturn(r: bv16, n: nat)
    decreases n
  {
    r != 0x8000 && (n == 0 || NoReturn(BitStep(r, 0), n - 1))
  }

  /** Every tenth value of the register after a single one bit. */
  lemma GeneratorDoesNotReturn()
    ensures NoReturn(0x1021, 150)
  {
    assert NoReturn(0xF2FF, 10);
    assert NoReturn(0x4388, 20);
    assert NoReturn(0xA824, 30);
    assert NoReturn(0x2BBF, 40);
    assert NoReturn(0x16B4, 50);
    assert NoReturn(0x0DD4, 60);
    assert NoReturn(0xD849, 70);
    assert NoReturn(0x5FD9, 80);
    assert NoReturn(0x3DB4, 90);
    assert NoReturn(0xC1C6, 100);
    assert NoReturn(0x45A0, 110);
    assert NoReturn(0x6E9C, 120);
    assert NoReturn(0x4363, 130);
    assert NoReturn(0xCCC4, 140);
  }

  lemma {:induction false} NoReturnAt(r: bv16, n: nat, k: nat)
    requires NoReturn(r, n) && k <= n
    ensures CrcBits(r, Zeros(k)) != 0x8000
    decreases k
  {
    hide BitStep;
    if k > 0 {
      NoReturnAt(BitStep(r, 0), n - 1, k - 1);
      assert Zeros(k) == [0] + Zeros(k - 1);
      CrcBitsConcat(r, [0], Zeros(k - 1));
      assert [0] == [] + [0];
      CrcBitsAppend(r, [], 0);
    }
  }

  lemma OneBit(c: bv16)
    ensures BitStep(0, 1) == 0x1021
    ensures BitStep(c, 1) == 0 <==> c == 0x8000
  {
  }

  lemma TwoOnes(d: nat)
    requires d <= 150
    ensures CrcBits(0, [1] + Zeros(d) + [1]) != 0
  {
    hide BitStep, NoReturn, Zeros;
    CrcBitsAppend(0, [1] + Zeros(d), 1);
    CrcBitsConcat(0, [1], Zeros(d));
    assert [1] == [] + [1];
    CrcBitsAppend(0, [], 1);
    OneBit(CrcBits(0x1021, Zeros(d)));
    GeneratorDoesNotReturn();
    NoReturnAt(0x1021, 150, d);
  }

  /** Exactly two flipped bits at most 151 positions apart are noticed; a packet has 152. */
  lemma DoubleFlipDetected(e: Bits, i: nat, j: nat)
    requires i < j < |e| && j - i <= 151
    requires forall k :: 0 <= k < |e| ==> (e[k] == 1 <==> k == i || k == j)
    ensures CrcBits(0, e) != 0
  {
    hide BitStep, CrcBits;
    var w := [1] + Zeros(j - i - 1) + [1];
    forall k | 0 <= k < |e|
      ensures e[k] == (Zeros(i) + w + Zeros(|e| - j - 1))[k]
    {
      BitPlus(e[k], e[k]);
    }
    assert e == Zeros(i) + w + Zeros(|e| - j - 1);
    Surrounded(i, w, |e| - j - 1);
    TwoOnes(j - i - 1);
  }

  // ---------------------------------------------------------------- bursts

  /** The register whose coefficients are the sixteen given bits. */
  function Pack(w: Bits): bv16
    requires |w| == 16
  {
    ((w[0] as bv16) << 15) ^ ((w[1] as bv16) << 14) ^ ((w[2] as bv16) << 13) ^ ((w[3] as bv16) << 12) ^
    ((w[4] as bv16) << 11) ^ ((w[5] as bv16) << 10) ^ ((w[6] as bv16) << 9) ^ ((w[7] as bv16) << 8) ^
    ((w[8] as bv16) << 7) ^ ((w[9] as bv16) << 6) ^ ((w[10] as bv16) << 5) ^ ((w[11] as bv16) << 4) ^
    ((w[12] as bv16) << 3) ^ ((w[13] as bv16) << 2) ^ ((w[14] as bv16) << 1) ^ (w[15] as bv16)
  }

  lemma PackCoefficients(w: Bits)
    requires |w| == 16
    ensures Coefficient(Pack(w), 15) == w[0] && Coefficient(Pack(w), 14) == w[1]
    ensures Coefficient(Pack(w), 13) == w[2] && Coefficient(Pack(w), 12) == w[3]
    ensures Coefficient(Pack(w), 11) == w[4] && Coefficient(Pack(w), 10) == w[5]
    ensures Coefficient(Pack(w), 9) == w[6] && Coefficient(Pack(w), 8) == w[7]
    ensures Coefficient(Pack(w), 7) == w[8] && Coefficient(Pack(w), 6) == w[9]
    ensures Coefficient(Pack(w), 5) == w[10] && Coefficient(Pack(w), 4) == w[11]
    ensures Coefficient(Pack(w), 3) == w[12] && Coefficient(Pack(w), 2) == w[13]
    ensures Coefficient(Pack(w), 1) == w[14] && Coefficient(Pack(w), 0) == w[15]
  {
  }

  lemma PackCoefficient(w: Bits, k: nat)
    requires |w| == 16 && k < 16
    ensures Coefficient(Pack(w), 15 - k) == w[k]
  {
    PackCoefficients(w);
    hide *;
    match k {
      case 0 =>
      case 1 =>
      case 2 =>
      case 3 =>
      case 4 =>
      case 5 =>
      case 6 =>
      case 7 =>
      case 8 =>
      case 9 =>
      case 10 =>
      case 11 =>
      case 12 =>
      case 13 =>
      case 14 =>
      case _ => assert k == 15;
    }
  }

  lemma {:induction false} RemainderOfZeros(n: nat)
    requires n >= 16
    ensures Remainder(Zeros(n)) == Zeros(16)
  {
    if n > 16 {
      assert CancelLead(Zeros(n)) == Zeros(n - 1);
      RemainderOfZeros(n - 1);
    }
  }

  lemma CoefficientOfZero(k: nat)
    requires k < 16
    ensures Coefficient(0, k) == 0
  {
  }

  lemma ZeroCoefficients(c: bv16)
    requires Coefficient(c, 0) == 0 && Coefficient(c, 1) == 0 && Coefficient(c, 2) == 0 && Coefficient(c, 3) == 0
    requires Coefficient(c, 4) == 0 && Coefficient(c, 5) == 0 && Coefficient(c, 6) == 0 && Coefficient(c, 7) == 0
    requires Coefficient(c, 8) == 0 && Coefficient(c, 9) == 0 && Coefficient(c, 10) == 0 && Coefficient(c, 11) == 0
    requires Coefficient(c, 12) == 0 && Coefficient(c, 13) == 0 && Coefficient(c, 14) == 0 && Coefficient(c, 15) == 0
    ensures c == 0
  {
  }

  lemma ZeroRegister(c: bv16)
    requires RegisterBits(c) == Zeros(16)
    ensures c == 0
  {
    forall k | 0 <= k < 16
      ensures Coefficient(c, k) == 0
    {
      assert RegisterBits(c)[15 - k] == Coefficient(c, k);
    }
    hide *;
    ZeroCoefficients(c);
  }

  /** A register fed its own sixteen bits is emptied. */
  lemma OwnBitsEmptyTheRegister(w: Bits)
    requires |w| == 16
    ensures CrcBits(Pack(w), w) == 0
  {
    hide BitStep, Pack, Coefficient, CrcBits, Remainder;
    forall k | 0 <= k < 16
      ensures Coefficient(Pack(w), 15 - k) == w[k]
    {
      PackCoefficient(w, k);
    }
    forall k | 0 <= k < 32
      ensures Dividend(Pack(w), w)[k] == 0
    {
    }
    assert Dividend(Pack(w), w) == Zeros(32);
    RegisterIsRemainder(Pack(w), w);
    RemainderOfZeros(32);
    ZeroRegister(CrcBits(Pack(w), w));
  }

  lemma BlockDetected(w: Bits, k: nat)
    requires |w| == 16 && k < 16 && w[k] == 1
    ensures CrcBits(0, w) != 0
  {
    var p := Pack(w);
    assert p != 0 by {
      hide *;
      PackCoefficient(w, k);
      CoefficientOfZero(15 - k);
    }
    assert Sum(p, p, 0);
    assert Xor(w, Zeros(16)) == w;
    hide BitStep, Pack, CrcBits;
    OwnBitsEmptyTheRegister(w);
    ZeroRun(p, 16);
    CrcBitsLinear(p, p, 0, w, Zeros(16));
  }

  /** Any flips confined to sixteen consecutive positions are noticed, wherever they lie and
      however long the message. */
  lemma BurstDetected(e: Bits, i: nat, k: nat)
    requires k < |e| && e[k] == 1
    requires forall j :: 0 <= j < |e| && e[j] == 1 ==> i <= j < i + 16
    ensures CrcBits(0, e) != 0
  {
    hide BitStep, CrcBits;
    if |e| < 16 {
      var w := Zeros(16 - |e|) + e;
      BlockDetected(w, k + 16 - |e|);
      assert Zeros(16 - |e|) + e + Zeros(0) == w;
      Surrounded(16 - |e|, e, 0);
    } else {
      var a := if i + 16 <= |e| then i else |e| - 16;
      var w := e[a..a + 16];
      BlockDetected(w, k - a);
      assert e == Zeros(a) + w + Zeros(|e| - a - 16) by {
        forall j | 0 <= j < |e|
          ensures e[j] == (Zeros(a) + w + Zeros(|e| - a - 16))[j]
        {
          BitPlus(e[j], e[j]);
        }
      }
      Surrounded(a, w, |e| - a - 16);
    }
  }

  // ---------------------------------------------------------------- sets of flipped bits

  /** e flips exactly the positions of s. */
  predicate Flips(e: Bits, s: set<nat>) {
    && (forall k :: k in s ==> k < |e|)
    && (forall k :: 0 <= k < |e| ==> (e[k] == 1 <==> k in s))
  }

  lemma {:induction false} WeightOfFlips(e: Bits, s: set<nat>)
    requires Flips(e, s)
    ensures Weight(e) == |s|
    decreases |e|
  {
    if e == [] {
      assert s == {};
    } else {
      var k := |e| - 1;
      WeightOfFlips(e[..k], s - {k});
    }
  }

  /** A packet of 152 bits: one, two, three or any odd number of distinct flipped bits. */
  lemma FlipsDetected(e: Bits, s: set<nat>)
    requires |e| <= 152 && Flips(e, s)
    requires |s| % 2 == 1 || |s| == 2
    ensures CrcBits(0, e) != 0
  {
    hide CrcBits, BitStep;
    WeightOfFlips(e, s);
    if |s| % 2 == 1 {
      OddPatternDetected(e);
    } else {
      var i :| i in s;
      assert |s - {i}| == 1;
      var j :| j in s - {i};
      assert |s - {i} - {j}| == 0;
      assert s == {i, j};
      DoubleFlipDetected(e, if i < j then i else j, if i < j then j else i);
    }
  }
}
