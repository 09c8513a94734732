/** Schoolbook division of polynomials over GF(2), and the proof that the register of
    stack-comm.c holds the remainder.  A polynomial is the sequence of its coefficients,
    highest power first. */
module LongDivision {

  import opened Crc

  /** x^16 + x^12 + x^5 + 1 */
  const GENERATOR: Bits := [1, 0, 0, 0, 1, 0, 0, 0, 0, 0, 0, 1, 0, 0, 0, 0, 1]

  function Zeros(n: nat): (r: Bits)
    ensures |r| == n && forall i :: 0 <= i < n ==> r[i] == 0
  {
    seq(n, _ => 0)
  }

  /** Addition of polynomials of the same length. */
  function Xor(a: Bits, b: Bits): (r: Bits)
    requires |a| == |b|
    ensures |r| == |a| && forall i :: 0 <= i < |a| ==> r[i] == a[i] ^ b[i]
  {
    seq(|a|, i requires 0 <= i < |a| => a[i] ^ b[i])
  }

  function Scale(c: bv1, p: Bits): (r: Bits)
    ensures |r| == |p|
    ensures forall i :: 0 <= i < |p| ==> r[i] == if c == 1 then p[i] else 0
  {
    if c == 1 then p else Zeros(|p|)
  }

  /** One line of a long division: subtract the generator under the leading coefficient,
      which becomes zero and is dropped. */
  function CancelLead(d: Bits): (r: Bits)
    requires |d| > 16
    ensures |r| == |d| - 1
  {
    Xor(d, Scale(d[0], GENERATOR) + Zeros(|d| - 17))[1..]
  }

  function Remainder(d: Bits): (r: Bits)
    requires |d| >= 16
    ensures |r| == 16
    decreases |d|
  {
    if |d| == 16 then d else Remainder(CancelLead(d))
  }

  function Quotient(d: Bits): (q: Bits)
    requires |d| >= 16
    ensures |q| == |d| - 16
    decreases |d|
  {
    if |d| == 16 then [] else [d[0]] + Quotient(CancelLead(d))
  }

  /** The product of q and the generator. */
  function Times(q: Bits): (r: Bits)
    ensures |r| == |q| + 16
  {
    if q == [] then Zeros(16)
    else Xor(Scale(q[0], GENERATOR) + Zeros(|q| - 1), [0] + Times(q[1..]))
  }

  /** q * generator + r */
  function Compose(q: Bits, r: Bits): (d: Bits)
    requires |r| == 16
    ensures |d| == |q| + 16
  {
    Xor(Times(q), Zeros(|q|) + r)
  }

  /** Dropping the leading coefficient of q * generator + r removes q's leading term. */
  lemma ComposeStep(q: Bits, r: Bits)
    requires |r| == 16 && q != []
    ensures Compose(q, r) == Xor(Scale(q[0], GENERATOR) + Zeros(|q| - 1), [0] + Compose(q[1..], r))
  {
    var lead := Scale(q[0], GENERATOR) + Zeros(|q| - 1);
    var d := Compose(q, r);
    var e := Xor(lead, [0] + Compose(q[1..], r));
    forall i | 0 <= i < |d|
      ensures d[i] == e[i]
    {
      if i > 0 {
        assert Compose(q[1..], r)[i - 1] == Times(q[1..])[i - 1] ^ (Zeros(|q| - 1) + r)[i - 1];
        assert (Zeros(|q|) + r)[i] == (Zeros(|q| - 1) + r)[i - 1];
      }
    }
  }

  /** Long division really divides. */
  lemma {:induction false} DivisionIdentity(d: Bits)
    requires |d| >= 16
    ensures d == Compose(Quotient(d), Remainder(d))
    decreases |d|
  {
    if |d| == 16 {
      assert d == Xor(Zeros(16), Zeros(0) + d);
    } else {
      DivisionIdentity(CancelLead(d));
      var q := Quotient(d);
      ComposeStep(q, Remainder(d));
      assert q[1..] == Quotient(CancelLead(d));
      var lead := Scale(d[0], GENERATOR) + Zeros(|d| - 17);
      var e := Xor(lead, [0] + CancelLead(d));
      forall i | 0 <= i < |d|
        ensures d[i] == e[i]
      {
        if i > 0 {
          assert CancelLead(d)[i - 1] == d[i] ^ lead[i];
        }
      }
    }
  }

  /** ... and its remainder is the only one. */
  lemma {:induction false} RemainderIsUnique(q: Bits, r: Bits)
    requires |r| == 16
    ensures Remainder(Compose(q, r)) == r
    decreases |q|
  {
    var d := Compose(q, r);
    if q == [] {
      assert d == r;
    } else {
      ComposeStep(q, r);
      var lead := Scale(q[0], GENERATOR) + Zeros(|q| - 1);
      assert d[0] == q[0];
      assert CancelLead(d) == Compose(q[1..], r);
      RemainderIsUnique(q[1..], r);
    }
  }

  // ---------------------------------------------------------------- the register is a remainder

  function Coefficient(c: bv16, k: nat): bv1
    requires k < 16
  {
    ((c >> k) & 1) as bv1
  }

  /** The register as a polynomial of degree at most 15. */
  function RegisterBits(c: bv16): (r: Bits)
    ensures |r| == 16
    ensures forall i :: 0 <= i < 16 ==> r[i] == Coefficient(c, 15 - i)
  {
    seq(16, i requires 0 <= i < 16 => Coefficient(c, 15 - i))
  }

  /** The message followed by sixteen zeros, its first sixteen coefficients changed by the
      preset: what the register divides. */
  function Dividend(c: bv16, w: Bits): (d: Bits)
    ensures |d| == |w| + 16
  {
    Xor(w + Zeros(16), RegisterBits(c) + Zeros(|w|))
  }

  lemma StepCoefficients(c: bv16, b: bv1)
    ensures var f := Coefficient(c, 15) ^ b; var d := BitStep(c, b);
      && Coefficient(d, 0) == f
      && Coefficient(d, 1) == Coefficient(c, 0)
      && Coefficient(d, 2) == Coefficient(c, 1)
      && Coefficient(d, 3) == Coefficient(c, 2)
      && Coefficient(d, 4) == Coefficient(c, 3)
      && Coefficient(d, 5) == Coefficient(c, 4) ^ f
      && Coefficient(d, 6) == Coefficient(c, 5)
      && Coefficient(d, 7) == Coefficient(c, 6)
      && Coefficient(d, 8) == Coefficient(c, 7)
      && Coefficient(d, 9) == Coefficient(c, 8)
      && Coefficient(d, 10) == Coefficient(c, 9)
      && Coefficient(d, 11) == Coefficient(c, 10)
      && Coefficient(d, 12) == Coefficient(c, 11) ^ f
      && Coefficient(d, 13) == Coefficient(c, 12)
      && Coefficient(d, 14) == Coefficient(c, 13)
      && Coefficient(d, 15) == Coefficient(c, 14)
  {
  }

  /** The same for coefficient k: a shift, and the generator subtracted if the lead is 1. */
  lemma StepCoefficient(c: bv16, b: bv1, k: nat)
    requires k < 16
    ensures var f := Coefficient(c, 15) ^ b;
      Coefficient(BitStep(c, b), k) ==
      if k == 0 then f else if k == 5 || k == 12 then Coefficient(c, k - 1) ^ f else Coefficient(c, k - 1)
  {
    hide *;
    StepCoefficients(c, b);
    match k {
      case 0 =>
      case 1 =>
      case 2 =>
      case 3 =>
      case 4 =>
      case 5 =>
      case 6 =>
      case 7 =>
      case 8 =>
      case 9 =>
      case 10 =>
      case 11 =>
      case 12 =>
      case 13 =>
      case 14 =>
      case _ => assert k == 15;
    }
  }

  lemma GeneratorAt(k: nat)
    requires k < 17
    ensures GENERATOR[k] == if k == 0 || k == 4 || k == 11 || k == 16 then 1 else 0
  {
  }

  lemma StepBits(c: bv16, b: bv1, i: nat)
    requires i < 16
    ensures var f := RegisterBits(c)[0] ^ b;
      RegisterBits(BitStep(c, b))[i] == (if i < 15 then RegisterBits(c)[i + 1] else 0) ^ (if f == 1 then GENERATOR[i + 1] else 0)
  {
    hide BitStep, Coefficient, GENERATOR;
    StepCoefficient(c, b, 15 - i);
    GeneratorAt(i + 1);
  }

  /** One bit step is one line of the long division. */
  lemma BitStepCancelsLead(c: bv16, w: Bits)
    requires w != []
    ensures CancelLead(Dividend(c, w)) == Dividend(BitStep(c, w[0]), w[1..])
  {
    hide BitStep, Coefficient;
    var d, e := Dividend(c, w), Dividend(BitStep(c, w[0]), w[1..]);
    var lead := Scale(d[0], GENERATOR) + Zeros(|d| - 17);
    forall i | 0 <= i < |e|
      ensures CancelLead(d)[i] == e[i]
    {
      assert CancelLead(d)[i] == d[i + 1] ^ lead[i + 1];
      assert (w + Zeros(16))[i + 1] == (w[1..] + Zeros(16))[i];
      if i < 16 {
        StepBits(c, w[0], i);
      }
    }
  }

  /** What stk_crc16's register holds after any message, of any length, from any preset: the
      remainder of the preset message, shifted by x^16, divided by the generator. */
  lemma {:induction false} RegisterIsRemainder(c: bv16, w: Bits)
    ensures RegisterBits(CrcBits(c, w)) == Remainder(Dividend(c, w))
    decreases |w|
  {
    hide BitStep, Coefficient, CancelLead;
    if w == [] {
      assert Dividend(c, w) == RegisterBits(c);
    } else {
      BitStepCancelsLead(c, w);
      RegisterIsRemainder(BitStep(c, w[0]), w[1..]);
      assert w == [w[0]] + w[1..];
      CrcBitsConcat(c, [w[0]], w[1..]);
      assert [w[0]] == [] + [w[0]];
      CrcBitsAppend(c, [], w[0]);
    }
  }

  /** p with its first sixteen coefficients complemented. */
  function LeadComplemented(p: Bits): (r: Bits)
    requires |p| >= 16
    ensures |r| == |p|
    ensures forall i :: 0 <= i < |p| ==> r[i] == if i < 16 then 1 - p[i] else p[i]
  {
    seq(|p|, i requires 0 <= i < |p| => if i < 16 then 1 - p[i] else p[i])
  }

  lemma PresetIsOnes(k: nat)
    requires k < 16
    ensures Coefficient(PRESET, k) == 1
  {
  }

  lemma XorWithBit(b: bv1)
    ensures b ^ 1 == 1 - b && b ^ 0 == b
  {
  }

  lemma PresetComplements(w: Bits)
    ensures Dividend(PRESET, w) == LeadComplemented(w + Zeros(16))
  {
    hide Coefficient;
    var p, d := w + Zeros(16), Dividend(PRESET, w);
    forall i | 0 <= i < |d|
      ensures d[i] == LeadComplemented(p)[i]
    {
      XorWithBit(p[i]);
      if i < 16 { PresetIsOnes(15 - i); }
    }
  }

  /** stk_crc16: the remainder of the message followed by sixteen zeros, of which the first sixteen
      bits are complemented: the register is preset to sixteen ones. */
  lemma CrcIsRemainder(data: Bytes)
    ensures RegisterBits(CrcFrom(PRESET, data)) == Remainder(LeadComplemented(MessageBits(data) + Zeros(16)))
  {
    hide *;
    CrcIsBitwise(PRESET, data);
    RegisterIsRemainder(PRESET, MessageBits(data));
    PresetComplements(MessageBits(data));
  }
}
