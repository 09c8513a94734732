/** The corruption model of env-core.c: which bits wl_pack_break flips, and what the receiver's
    check makes of it.

    rand_r is an oracle: `script` is what it will return, in order.  The two loops that draw until
    they like what they get need not end; a script says when they do. */
module Corruption {

  import opened Crc
  import opened Detection
  import opened Packet
  import opened Radio

  const RAND_MAX := 0x7FFF_FFFF

  /** Bits of a packet as wl_pack_break counts them; one more can be drawn. */
  const PACK_BITS := 152

  /** The build options CONFIG_WL_*. */
  datatype Options = Options(losePackets: bool, loseScore: nat, errData: bool, firstScore: nat, multipScore: nat)

  type Script = seq<nat>

  /** b_rand */
  predicate Likely(r: nat, score: nat) { r / (RAND_MAX / 100) < score }

  /** rand_pack_bit */
  function BitDrawn(r: nat): nat { r / (RAND_MAX / PACK_BITS) }

  /** A value drawn and what is left to draw. */
  datatype Drawn<+T> = Drawn(value: T, rest: Script)

  // ---------------------------------------------------------------- flipping

  /** A byte with bit k changed. */
  function Toggled(b: bv8, k: nat): bv8
    requires k < 8
  {
    b ^ (1 << k)
  }

  /** wl_pack_bit_flip: bit b is bit b % 8, least significant first, of byte b / 8. */
  function Flip(p: Bytes, bit: nat): (q: Bytes)
    requires bit / 8 < |p|
    ensures |q| == |p|
  {
    p[bit / 8 := Toggled(p[bit / 8], bit % 8)]
  }

  function FlipAll(p: Bytes, flips: seq<nat>): (q: Bytes)
    requires forall k :: 0 <= k < |flips| ==> flips[k] / 8 < |p|
    ensures |q| == |p|
  {
    if flips == [] then p else Flip(FlipAll(p, flips[..|flips| - 1]), flips[|flips| - 1])
  }

  // ---------------------------------------------------------------- drawing

  /** The do-while loop: draw until the bit differs from `avoid`. */
  function DrawOther(script: Script, avoid: nat): Option<Drawn<nat>> {
    if script == [] then None
    else if BitDrawn(script[0]) == avoid then DrawOther(script[1..], avoid)
    else Some(Drawn(BitDrawn(script[0]), script[1..]))
  }

  /** The while loop: the further bits, none equal to the first.  The program compares with the
      first bit only, so later ones may repeat. */
  function DrawMore(script: Script, first: nat, o: Options): Option<Drawn<seq<nat>>>
    decreases |script|
  {
    if script == [] then None
    else if !Likely(script[0], o.multipScore) then Some(Drawn([], script[1..]))
    else
      match DrawOther(script[1..], first)
      case None => None
      case Some(d) =>
        DrawOtherShortens(script[1..], first);
        match DrawMore(d.rest, first, o)
        case None => None
        case Some(e) => Some(Drawn([d.value] + e.value, e.rest))
  }

  lemma {:induction false} DrawOtherShortens(script: Script, avoid: nat)
    ensures var d := DrawOther(script, avoid); d.Some? ==> |d.value.rest| < |script| && d.value.value != avoid
  {
    if script != [] && BitDrawn(script[0]) == avoid { DrawOtherShortens(script[1..], avoid); }
  }

  /** All bits flipped in one delivery, in order. */
  function Plan(script: Script, o: Options): Option<Drawn<seq<nat>>> {
    if !o.errData then Some(Drawn([], script))
    else if script == [] then None
    else if !Likely(script[0], o.firstScore) then Some(Drawn([], script[1..]))
    else if |script| == 1 then None
    else
      match DrawMore(script[2..], BitDrawn(script[1]), o)
      case None => None
      case Some(e) => Some(Drawn([BitDrawn(script[1])] + e.value, e.rest))
  }

  /** A hundredth of the range for each point of a score. */
  function Share(score: nat): nat { score * (RAND_MAX / 100) }

  /** b_rand is true exactly below the score's share of the range. */
  lemma LikelyIff(r: nat, score: nat)
    ensures Likely(r, score) <==> r < Share(score)
  {
    var unit := RAND_MAX / 100;
    assert unit == 21_474_836;
    if r / unit < score {
      assert r < (r / unit + 1) * unit <= score * unit;
    } else {
      assert score * unit <= r / unit * unit <= r;
    }
  }

  /** Score 0 never happens, score 101 always. */
  lemma LikelyEnds(r: nat)
    requires r <= RAND_MAX
    ensures !Likely(r, 0) && Likely(r, 101)
  {
  }

  /** Each of the bits 0 to 152 can be drawn, and no other. */
  lemma BitsDrawn(bit: nat)
    ensures (exists r :: 0 <= r <= RAND_MAX && BitDrawn(r) == bit) <==> bit <= 152
  {
    if bit <= 152 {
      var r := bit * 14_128_181;
      assert RAND_MAX / PACK_BITS == 14_128_181;
      assert 0 <= r <= RAND_MAX && BitDrawn(r) == bit;
    } else {
      forall r | 0 <= r <= RAND_MAX
        ensures BitDrawn(r) != bit
      {
        BitDrawnRange(r);
      }
    }
  }

  /** What rand_r can return. */
  predicate InRange(script: Script) {
    forall k :: 0 <= k < |script| ==> script[k] <= RAND_MAX
  }

  lemma BitDrawnRange(r: nat)
    requires r <= RAND_MAX
    ensures BitDrawn(r) <= PACK_BITS
  {
  }

  lemma {:induction false} DrawOtherInRange(script: Script, avoid: nat)
    requires InRange(script)
    ensures var d := DrawOther(script, avoid);
      d.Some? ==> d.value.value <= PACK_BITS && InRange(d.value.rest)
  {
    hide BitDrawn;
    if script != [] {
      BitDrawnRange(script[0]);
      if BitDrawn(script[0]) == avoid { DrawOtherInRange(script[1..], avoid); }
    }
  }

  lemma {:induction false} DrawMoreShape(script: Script, first: nat, o: Options)
    requires InRange(script)
    ensures var d := DrawMore(script, first, o);
      d.Some? ==> forall k :: 0 <= k < |d.value.value| ==> d.value.value[k] != first && d.value.value[k] <= PACK_BITS
    decreases |script|
  {
    hide Likely, BitDrawn, DrawOther;
    if script != [] && Likely(script[0], o.multipScore) {
      DrawOtherShortens(script[1..], first);
      DrawOtherInRange(script[1..], first);
      var d := DrawOther(script[1..], first);
      if d.Some? { DrawMoreShape(d.value.rest, first, o); }
    }
  }

  /** The first bit is never flipped again, and at most bit 152, one past the packet, is drawn. */
  lemma PlanShape(script: Script, o: Options)
    requires InRange(script) && Plan(script, o).Some?
    ensures var flips := Plan(script, o).value.value;
      && (forall k :: 0 <= k < |flips| ==> flips[k] <= PACK_BITS)
      && (forall k :: 0 < k < |flips| ==> flips[k] != flips[0])
  {
    hide Likely, BitDrawn, DrawMore;
    if o.errData && Likely(script[0], o.firstScore) {
      BitDrawnRange(script[1]);
      DrawMoreShape(script[2..], BitDrawn(script[1]), o);
    }
  }

  /** The inner loop takes the first drawn bit that differs. */
  lemma {:induction false} DrawOtherIsFirst(script: Script, avoid: nat) returns (k: nat)
    requires DrawOther(script, avoid).Some?
    ensures var d := DrawOther(script, avoid).value;
      && k < |script| && d == Drawn(BitDrawn(script[k]), script[k + 1..]) && d.value != avoid
      && forall j :: 0 <= j < k ==> BitDrawn(script[j]) == avoid
  {
    hide BitDrawn;
    if BitDrawn(script[0]) == avoid {
      k := DrawOtherIsFirst(script[1..], avoid);
      k := k + 1;
    } else {
      k := 0;
    }
  }

  /** When wl_pack_break flips bits, and when more than one: the option is on and the first number is
      below the first score's share; the third number is below the further score's share.
      Without the option no number is drawn, without a first bit a single one. */
  lemma PlanIff(script: Script, o: Options)
    requires Plan(script, o).Some?
    ensures var d := Plan(script, o).value;
      && (!o.errData ==> d == Drawn([], script))
      && (o.errData ==> script != [])
      && (d.value != [] <==> o.errData && script[0] < Share(o.firstScore))
      && (o.errData && d.value == [] ==> d.rest == script[1..])
      && (d.value != [] ==> |script| > 2 && d.value[0] == BitDrawn(script[1]))
      && (|d.value| > 1 <==> d.value != [] && script[2] < Share(o.multipScore))
  {
    hide Likely, BitDrawn, DrawOther, Share;
    if script != [] { LikelyIff(script[0], o.firstScore); }
    if |script| > 2 { LikelyIff(script[2], o.multipScore); }
  }

  /** A further score of 101 never lets the loop end. */
  lemma {:induction false} EndlessScore(script: Script, first: nat, o: Options)
    requires InRange(script) && o.multipScore >= 101
    ensures DrawMore(script, first, o).None?
    decreases |script|
  {
    hide BitDrawn, DrawOther;
    if script != [] {
      LikelyIff(script[0], o.multipScore);
      LikelyIff(script[0], 101);
      LikelyEnds(script[0]);
      DrawOtherShortens(script[1..], first);
      DrawOtherInRange(script[1..], first);
      var d := DrawOther(script[1..], first);
      if d.Some? { EndlessScore(d.value.rest, first, o); }
    }
  }

  // ---------------------------------------------------------------- what flips do to the message

  lemma {:induction false} FlipAllConcat(p: Bytes, a: seq<nat>, b: seq<nat>)
    requires forall k :: 0 <= k < |a| ==> a[k] / 8 < |p|
    requires forall k :: 0 <= k < |b| ==> b[k] / 8 < |p|
    ensures FlipAll(p, a + b) == FlipAll(FlipAll(p, a), b)
    decreases |b|
  {
    hide Flip;
    if b == [] {
      assert a + b == a;
    } else {
      var front := b[..|b| - 1];
      assert (a + b)[..|a + b| - 1] == a + front;
      FlipAllConcat(p, a, front);
    }
  }

  lemma XorAssociates(x: bv8, y: bv8, z: bv8)
    ensures (x ^ y) ^ z == x ^ (y ^ z)
  {
  }

  lemma FlipOfSum(p: Bytes, n: Bytes, bit: nat)
    requires |p| == |n| && bit / 8 < |p|
    ensures Flip(XorBytes(p, n), bit) == XorBytes(p, Flip(n, bit))
  {
    XorAssociates(p[bit / 8], n[bit / 8], 1 << (bit % 8));
  }

  /** Flipping is adding a pattern that does not depend on the packet. */
  lemma {:induction false} FlipAllIsNoise(p: Bytes, flips: seq<nat>)
    requires forall k :: 0 <= k < |flips| ==> flips[k] / 8 < |p|
    ensures FlipAll(p, flips) == XorBytes(p, FlipAll(ZeroBytes(|p|), flips))
    decreases |flips|
  {
    hide Flip;
    if flips == [] {
      ZeroNoise(p);
    } else {
      var k := |flips| - 1;
      FlipAllIsNoise(p, flips[..k]);
      FlipOfSum(p, FlipAll(ZeroBytes(|p|), flips[..k]), flips[k]);
    }
  }

  lemma {:induction false} MessageBitsAt(data: Bytes, i: nat, t: nat)
    requires i < |data| && t < 8
    ensures MessageBits(data)[8 * i + t] == ByteBits(data[i])[t]
    decreases |data|
  {
    hide ByteBits;
    if i < |data| - 1 { MessageBitsAt(data[..|data| - 1], i, t); }
  }

  /** Where bit `bit` of a packet stands in CRC order. */
  function Position(bit: nat): nat { 8 * (bit / 8) + 7 - bit % 8 }

  lemma ToggledBits0(b: bv8)
    ensures BitOf(Toggled(b, 0), 0) == 1 <==> BitOf(b, 0) != 1
    ensures BitOf(Toggled(b, 0), 1) == 1 <==> BitOf(b, 1) == 1
    ensures BitOf(Toggled(b, 0), 2) == 1 <==> BitOf(b, 2) == 1
    ensures BitOf(Toggled(b, 0), 3) == 1 <==> BitOf(b, 3) == 1
    ensures BitOf(Toggled(b, 0), 4) == 1 <==> BitOf(b, 4) == 1
    ensures BitOf(Toggled(b, 0), 5) == 1 <==> BitOf(b, 5) == 1
    ensures BitOf(Toggled(b, 0), 6) == 1 <==> BitOf(b, 6) == 1
    ensures BitOf(Toggled(b, 0), 7) == 1 <==> BitOf(b, 7) == 1
  {
  }

  lemma ToggledBits1(b: bv8)
    ensures BitOf(Toggled(b, 1), 0) == 1 <==> BitOf(b, 0) == 1
    ensures BitOf(Toggled(b, 1), 1) == 1 <==> BitOf(b, 1) != 1
    ensures BitOf(Toggled(b, 1), 2) == 1 <==> BitOf(b, 2) == 1
    ensures BitOf(Toggled(b, 1), 3) == 1 <==> BitOf(b, 3) == 1
    ensures BitOf(Toggled(b, 1), 4) == 1 <==> BitOf(b, 4) == 1
    ensures BitOf(Toggled(b, 1), 5) == 1 <==> BitOf(b, 5) == 1
    ensures BitOf(Toggled(b, 1), 6) == 1 <==> BitOf(b, 6) == 1
    ensures BitOf(Toggled(b, 1), 7) == 1 <==> BitOf(b, 7) == 1
  {
  }

  lemma ToggledBits2(b: bv8)
    ensures BitOf(Toggled(b, 2), 0) == 1 <==> BitOf(b, 0) == 1
    ensures BitOf(Toggled(b, 2), 1) == 1 <==> BitOf(b, 1) == 1
    ensures BitOf(Toggled(b, 2), 2) == 1 <==> BitOf(b, 2) != 1
    ensures BitOf(Toggled(b, 2), 3) == 1 <==> BitOf(b, 3) == 1
    ensures BitOf(Toggled(b, 2), 4) == 1 <==> BitOf(b, 4) == 1
    ensures BitOf(Toggled(b, 2), 5) == 1 <==> BitOf(b, 5) == 1
    ensures BitOf(Toggled(b, 2), 6) == 1 <==> BitOf(b, 6) == 1
    ensures BitOf(Toggled(b, 2), 7) == 1 <==> BitOf(b, 7) == 1
  {
  }

  lemma ToggledBits3(b: bv8)
    ensures BitOf(Toggled(b, 3), 0) == 1 <==> BitOf(b, 0) == 1
    ensures BitOf(Toggled(b, 3), 1) == 1 <==> BitOf(b, 1) == 1
    ensures BitOf(Toggled(b, 3), 2) == 1 <==> BitOf(b, 2) == 1
    ensures BitOf(Toggled(b, 3), 3) == 1 <==> BitOf(b, 3) != 1
    ensures BitOf(Toggled(b, 3), 4) == 1 <==> BitOf(b, 4) == 1
    ensures BitOf(Toggled(b, 3), 5) == 1 <==> BitOf(b, 5) == 1
    ensures BitOf(Toggled(b, 3), 6) == 1 <==> BitOf(b, 6) == 1
    ensures BitOf(Toggled(b, 3), 7) == 1 <==> BitOf(b, 7) == 1
  {
  }

  lemma ToggledBits4(b: bv8)
    ensures BitOf(Toggled(b, 4), 0) == 1 <==> BitOf(b, 0) == 1
    ensures BitOf(Toggled(b, 4), 1) == 1 <==> BitOf(b, 1) == 1
    ensures BitOf(Toggled(b, 4), 2) == 1 <==> BitOf(b, 2) == 1
    ensures BitOf(Toggled(b, 4), 3) == 1 <==> BitOf(b, 3) == 1
    ensures BitOf(Toggled(b, 4), 4) == 1 <==> BitOf(b, 4) != 1
    ensures BitOf(Toggled(b, 4), 5) == 1 <==> BitOf(b, 5) == 1
    ensures BitOf(Toggled(b, 4), 6) == 1 <==> BitOf(b, 6) == 1
    ensures BitOf(Toggled(b, 4), 7) == 1 <==> BitOf(b, 7) == 1
  {
  }

  lemma ToggledBits5(b: bv8)
    ensures BitOf(Toggled(b, 5), 0) == 1 <==> BitOf(b, 0) == 1
    ensures BitOf(Toggled(b, 5), 1) == 1 <==> BitOf(b, 1) == 1
    ensures BitOf(Toggled(b, 5), 2) == 1 <==> BitOf(b, 2) == 1
    ensures BitOf(Toggled(b, 5), 3) == 1 <==> BitOf(b, 3) == 1
    ensures BitOf(Toggled(b, 5), 4) == 1 <==> BitOf(b, 4) == 1
    ensures BitOf(Toggled(b, 5), 5) == 1 <==> BitOf(b, 5) != 1
    ensures BitOf(Toggled(b, 5), 6) == 1 <==> BitOf(b, 6) == 1
    ensures BitOf(Toggled(b, 5), 7) == 1 <==> BitOf(b, 7) == 1
  {
  }

  lemma ToggledBits6(b: bv8)
    ensures BitOf(Toggled(b, 6), 0) == 1 <==> BitOf(b, 0) == 1
    ensures BitOf(Toggled(b, 6), 1) == 1 <==> BitOf(b, 1) == 1
    ensures BitOf(Toggled(b, 6), 2) == 1 <==> BitOf(b, 2) == 1
    ensures BitOf(Toggled(b, 6), 3) == 1 <==> BitOf(b, 3) == 1
    ensures BitOf(Toggled(b, 6), 4) == 1 <==> BitOf(b, 4) == 1
    ensures BitOf(Toggled(b, 6), 5) == 1 <==> BitOf(b, 5) == 1
    ensures BitOf(Toggled(b, 6), 6) == 1 <==> BitOf(b, 6) != 1
    ensures BitOf(Toggled(b, 6), 7) == 1 <==> BitOf(b, 7) == 1
  {
  }

  lemma ToggledBits7(b: bv8)
    ensures BitOf(Toggled(b, 7), 0) == 1 <==> BitOf(b, 0) == 1
    ensures BitOf(Toggled(b, 7), 1) == 1 <==> BitOf(b, 1) == 1
    ensures BitOf(Toggled(b, 7), 2) == 1 <==> BitOf(b, 2) == 1
    ensures BitOf(Toggled(b, 7), 3) == 1 <==> BitOf(b, 3) == 1
    ensures BitOf(Toggled(b, 7), 4) == 1 <==> BitOf(b, 4) == 1
    ensures BitOf(Toggled(b, 7), 5) == 1 <==> BitOf(b, 5) == 1
    ensures BitOf(Toggled(b, 7), 6) == 1 <==> BitOf(b, 6) == 1
    ensures BitOf(Toggled(b, 7), 7) == 1 <==> BitOf(b, 7) != 1
  {
  }

  lemma ToggledBits(b: bv8, k: nat)
    requires k < 8
    ensures BitOf(Toggled(b, k), 0) == 1 <==> ((BitOf(b, 0) == 1) != (k == 0))
    ensures BitOf(Toggled(b, k), 1) == 1 <==> ((BitOf(b, 1) == 1) != (k == 1))
    ensures BitOf(Toggled(b, k), 2) == 1 <==> ((BitOf(b, 2) == 1) != (k == 2))
    ensures BitOf(Toggled(b, k), 3) == 1 <==> ((BitOf(b, 3) == 1) != (k == 3))
    ensures BitOf(Toggled(b, k), 4) == 1 <==> ((BitOf(b, 4) == 1) != (k == 4))
    ensures BitOf(Toggled(b, k), 5) == 1 <==> ((BitOf(b, 5) == 1) != (k == 5))
    ensures BitOf(Toggled(b, k), 6) == 1 <==> ((BitOf(b, 6) == 1) != (k == 6))
    ensures BitOf(Toggled(b, k), 7) == 1 <==> ((BitOf(b, 7) == 1) != (k == 7))
  {
    hide *;
    match k {
      case 0 => ToggledBits0(b);
      case 1 => ToggledBits1(b);
      case 2 => ToggledBits2(b);
      case 3 => ToggledBits3(b);
      case 4 => ToggledBits4(b);
      case 5 => ToggledBits5(b);
      case 6 => ToggledBits6(b);
      case _ => assert k == 7; ToggledBits7(b);
    }
  }

  lemma ToggledBit(b: bv8, k: nat, j: nat)
    requires k < 8 && j < 8
    ensures BitOf(Toggled(b, k), j) == 1 <==> ((BitOf(b, j) == 1) != (k == j))
  {
    hide *;
    ToggledBits(b, k);
    match j {
      case 0 =>
      case 1 =>
      case 2 =>
      case 3 =>
      case 4 =>
      case 5 =>
      case 6 =>
      case _ => assert j == 7;
    }
  }

  lemma FlipTogglesAt(p: Bytes, bit: nat, i: nat, t: nat)
    requires bit / 8 < |p| && i < |p| && t < 8
    ensures MessageBits(Flip(p, bit))[8 * i + t] == 1 <==>
            ((MessageBits(p)[8 * i + t] == 1) != (i == bit / 8 && 7 - t == bit % 8))
  {
    hide ByteBits, BitOf, MessageBits, Toggled;
    MessageBitsAt(p, i, t);
    MessageBitsAt(Flip(p, bit), i, t);
    ByteBitsAt(p[i], t);
    ByteBitsAt(Flip(p, bit)[i], t);
    if i == bit / 8 {
      ToggledBit(p[i], bit % 8, 7 - t);
    }
  }

  /** A flip changes exactly one bit of the message. */
  lemma FlipTogglesOne(p: Bytes, bit: nat, j: nat)
    requires bit / 8 < |p| && j < 8 * |p|
    ensures MessageBits(Flip(p, bit))[j] == 1 <==> ((MessageBits(p)[j] == 1) != (j == Position(bit)))
  {
    hide MessageBits, Flip;
    FlipTogglesAt(p, bit, j / 8, j % 8);
    assert 8 * (j / 8) + j % 8 == j;
  }

  lemma {:induction false} WeightToggles(e: Bits, g: Bits, k: nat)
    requires |e| == |g| && k < |e| && (e[k] == 1 <==> g[k] != 1)
    requires forall j :: 0 <= j < |e| && j != k ==> (e[j] == 1 <==> g[j] == 1)
    ensures Weight(e) % 2 != Weight(g) % 2
    decreases |e|
  {
    var last := |e| - 1;
    if k == last {
      SameOnesSameWeight(e[..last], g[..last]);
    } else {
      WeightToggles(e[..last], g[..last], k);
    }
  }

  lemma {:induction false} SameOnesSameWeight(e: Bits, g: Bits)
    requires |e| == |g| && forall j :: 0 <= j < |e| ==> (e[j] == 1 <==> g[j] == 1)
    ensures Weight(e) == Weight(g)
    decreases |e|
  {
    if e != [] { SameOnesSameWeight(e[..|e| - 1], g[..|g| - 1]); }
  }

  lemma {:induction false} WeightOfZeros(n: nat)
    ensures Weight(MessageBits(ZeroBytes(n))) == 0
  {
    forall j | 0 <= j < 8 * n
      ensures MessageBits(ZeroBytes(n))[j] == 0
    {
      ZeroMessageBit(n, j);
    }
    WeightZero(MessageBits(ZeroBytes(n)));
  }

  lemma ZeroBit(k: nat)
    requires k < 8
    ensures BitOf(0, k) == 0
  {
  }

  lemma ZeroMessageBit(n: nat, j: nat)
    requires j < 8 * n
    ensures MessageBits(ZeroBytes(n))[j] == 0
  {
    hide BitOf, ByteBits;
    MessageBitsAt(ZeroBytes(n), j / 8, j % 8);
    ByteBitsAt(0, j % 8);
    ZeroBit(7 - j % 8);
  }

  lemma {:induction false} WeightZero(e: Bits)
    requires forall j :: 0 <= j < |e| ==> e[j] == 0
    ensures Weight(e) == 0
    decreases |e|
  {
    if e != [] { WeightZero(e[..|e| - 1]); }
  }

  /** Repeated bits cancel in pairs, so the weight of the pattern has the parity of the count. */
  lemma {:induction false} WeightOfFlipAll(n: nat, flips: seq<nat>)
    requires forall k :: 0 <= k < |flips| ==> flips[k] / 8 < n
    ensures Weight(MessageBits(FlipAll(ZeroBytes(n), flips))) % 2 == |flips| % 2
    decreases |flips|
  {
    hide Flip, MessageBits;
    if flips == [] {
      WeightOfZeros(n);
    } else {
      var k := |flips| - 1;
      var p := FlipAll(ZeroBytes(n), flips[..k]);
      WeightOfFlipAll(n, flips[..k]);
      var e, g := MessageBits(p), MessageBits(Flip(p, flips[k]));
      forall j | 0 <= j < 8 * n
        ensures g[j] == 1 <==> ((e[j] == 1) != (j == Position(flips[k])))
      {
        FlipTogglesOne(p, flips[k], j);
      }
      WeightToggles(e, g, Position(flips[k]));
    }
  }

  // ---------------------------------------------------------------- the receiver notices

  /** All flips fall inside the packet. */
  predicate Inside(flips: seq<nat>) {
    forall k :: 0 <= k < |flips| ==> flips[k] < PACK_BITS
  }

  lemma OddFlipsNoticed(flips: seq<nat>)
    requires Inside(flips) && |flips| % 2 == 1
    ensures CrcFrom(0, FlipAll(ZeroBytes(PACK_LEN), flips)) != 0
  {
    hide CrcFrom, MessageBits, Flip;
    var n := FlipAll(ZeroBytes(PACK_LEN), flips);
    WeightOfFlipAll(PACK_LEN, flips);
    OddPatternDetected(MessageBits(n));
    CrcIsBitwise(0, n);
  }

  lemma TwoFlipsNoticed(a: nat, b: nat)
    requires a < PACK_BITS && b < PACK_BITS && a != b
    ensures CrcFrom(0, FlipAll(ZeroBytes(PACK_LEN), [a, b])) != 0
  {
    hide CrcFrom, MessageBits, Flip;
    var z := ZeroBytes(PACK_LEN);
    var p := Flip(z, a);
    var n := Flip(p, b);
    assert FlipAll(z, [a, b]) == n by {
      var one: seq<nat> := [a];
      assert [a, b][..1] == one && one[..0] == [];
      assert FlipAll(z, []) == z && FlipAll(z, one) == p;
    }
    var i, j := Position(a), Position(b);
    var e := MessageBits(n);
    forall k | 0 <= k < |e|
      ensures e[k] == 1 <==> k == i || k == j
    {
      ZeroMessageBit(PACK_LEN, k);
      FlipTogglesOne(z, a, k);
      FlipTogglesOne(p, b, k);
    }
    CrcIsBitwise(0, n);
    DoubleFlipDetected(e, if i < j then i else j, if i < j then j else i);
  }

  /** Corruption the program reports as an odd number of bits, or as exactly two, all of them
      inside the packet, makes the receiver's check fail, although the further bits may repeat. */
  lemma ReportedCorruptionNoticed(p: Frame, script: Script, o: Options)
    requires Checks(p) && InRange(script) && Plan(script, o).Some?
    requires var flips := Plan(script, o).value.value; Inside(flips) && (|flips| % 2 == 1 || |flips| == 2)
    ensures !Checks(FlipAll(p, Plan(script, o).value.value))
  {
    hide Checks, CrcFrom, Flip, FlipAll, XorBytes;
    var flips := Plan(script, o).value.value;
    PlanShape(script, o);
    hide Plan;
    if |flips| % 2 == 1 {
      OddFlipsNoticed(flips);
    } else {
      TwoFlipsNoticed(flips[0], flips[1]);
      assert flips == [flips[0], flips[1]];
    }
    FlipAllIsNoise(p, flips);
    NoiseUndetectedIff(p, FlipAll(ZeroBytes(PACK_LEN), flips));
  }

  lemma {:induction false} FirstFlipStays(p: Bytes, flips: seq<nat>)
    requires flips != [] && forall k :: 0 <= k < |flips| ==> flips[k] / 8 < |p|
    requires forall k :: 0 < k < |flips| ==> flips[k] != flips[0]
    ensures MessageBits(FlipAll(p, flips))[Position(flips[0])] == 1 <==> MessageBits(p)[Position(flips[0])] != 1
    decreases |flips|
  {
    hide Flip, MessageBits;
    var k := |flips| - 1;
    FlipTogglesOne(FlipAll(p, flips[..k]), flips[k], Position(flips[0]));
    if k > 0 {
      FirstFlipStays(p, flips[..k]);
      assert Position(flips[k]) != Position(flips[0]);
    }
  }

  /** Flips never cancel altogether: if any bit was flipped, the buffer has changed.  (A comment
      in the program fears that flipping a bit twice may leave no error; the first bit is safe.) */
  lemma CorruptionNeverCancels(p: Bytes, script: Script, o: Options)
    requires InRange(script) && Plan(script, o).Some? && Plan(script, o).value.value != []
    requires |p| > PACK_LEN
    ensures var flips := Plan(script, o).value.value;
      && (forall k :: 0 <= k < |flips| ==> flips[k] / 8 < |p|)
      && FlipAll(p, flips) != p
  {
    hide Flip, FlipAll, MessageBits;
    PlanShape(script, o);
    FirstFlipStays(p, Plan(script, o).value.value);
  }

  lemma {:induction false} CrcOfZeroBytes(n: nat)
    ensures CrcFrom(0, ZeroBytes(n)) == 0
  {
    if n > 0 {
      ByteStepOfZero();
      CrcOfZeroBytes(n - 1);
      hide ByteStep;
      assert ZeroBytes(n)[..n - 1] == ZeroBytes(n - 1);
    }
  }

  lemma ByteStepOfZero()
    ensures ByteStep(0, 0) == 0
  {
  }

  lemma GeneratorSteps()
    ensures ByteStep(0, 0x01) == 0x1021 && ByteStep(0x1021, 0x10) == 0x2100 && ByteStep(0x2100, 0x21) == 0
    ensures Toggled(0, 0) == 0x01 && Toggled(0, 4) == 0x10 && Toggled(0, 5) == 0x20 && Toggled(0x20, 0) == 0x21
  {
  }

  /** The generator itself, at the end of a packet. */
  lemma GeneratorFlips()
    ensures FlipAll(ZeroBytes(PACK_LEN), [128, 140, 149, 144]) == ZeroBytes(16) + [0x01, 0x10, 0x21]
  {
    hide Toggled;
    GeneratorSteps();
    var z := ZeroBytes(PACK_LEN);
    var flips: seq<nat> := [128, 140, 149, 144];
    assert flips[..3] == [128, 140, 149] && flips[..3][..2] == [128, 140] && flips[..3][..2][..1] == [128] && flips[..3][..2][..1][..0] == [];
    assert FlipAll(z, flips[..3][..2][..1][..0]) == z;
    assert FlipAll(z, flips[..3][..2][..1]) == ZeroBytes(16) + [0x01, 0, 0];
    assert FlipAll(z, flips[..3][..2]) == ZeroBytes(16) + [0x01, 0x10, 0];
    assert FlipAll(z, flips[..3]) == ZeroBytes(16) + [0x01, 0x10, 0x20];
  }

  lemma GeneratorPasses()
    ensures CrcFrom(0, ZeroBytes(16) + [0x01, 0x10, 0x21]) == 0
  {
    hide ByteStep, CrcFrom;
    GeneratorSteps();
    var z: Bytes := ZeroBytes(16);
    CrcOfZeroBytes(16);
    CrcAppend(0, z, 0x01);
    CrcAppend(0, z + [0x01], 0x10);
    CrcAppend(0, z + [0x01] + [0x10], 0x21);
    assert ZeroBytes(16) + [0x01, 0x10, 0x21] == z + [0x01] + [0x10] + [0x21];
  }

  /** Some corruption passes: in every packet there are four distinct bits whose flips spell the
      generator, and those the check cannot see. */
  lemma FourFlipsCanPass(p: Frame)
    requires Checks(p)
    ensures Checks(FlipAll(p, [128, 140, 149, 144]))
  {
    hide Checks, CrcFrom, Flip, FlipAll, XorBytes;
    var flips: seq<nat> := [128, 140, 149, 144];
    var n := FlipAll(ZeroBytes(PACK_LEN), flips);
    FlipAllIsNoise(p, flips);
    GeneratorFlips();
    GeneratorPasses();
    assert CrcFrom(0, n) == 0;
    NoiseUndetectedIff(p, n);
  }
}
