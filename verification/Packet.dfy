/** The 19-byte packet of stack-comm.c: header, payload, checksum. */
module Packet {

  import opened Crc
  import opened Detection

  const PACK_LEN := 19
  const PAYLOAD_LEN := 16
  const P_HEADER := 0
  const P_PAYLOAD := 1
  const P_CRC_LO := 17
  const P_CRC_HI := 18

  const TYPE_INTERNAL: bv8 := 0
  const TYPE_SINGLE: bv8 := 1
  const TYPE_MULT: bv8 := 2

  type Frame = p: Bytes | |p| == PACK_LEN witness seq(19, _ => 0)
  type Payload = p: Bytes | |p| == PAYLOAD_LEN witness seq(16, _ => 0)

  // ---------------------------------------------------------------- header

  /** Bits 0-1 of the header byte. */
  function TypeOf(p: Frame): bv8 { p[P_HEADER] & 3 }

  /** Bits 2-3: the transaction id. */
  function IdOf(p: Frame): bv8 { (p[P_HEADER] >> 2) & 3 }

  /** stk_is_reset_pack: an internal packet with bit 4 set. */
  predicate IsReset(p: Frame) {
    TypeOf(p) == TYPE_INTERNAL && (p[P_HEADER] >> 4) & 1 == 1
  }

  /** stk_get_payload_len */
  function PayloadLength(p: Frame): bv8 {
    if TypeOf(p) == TYPE_SINGLE then (p[P_HEADER] >> 4) + 1
    else if TypeOf(p) == TYPE_MULT then 16
    else 0
  }

  /** The header of a single packet; every field is cut to its width. */
  function SingleHeader(transId: bv8, len: bv16): bv8 {
    TYPE_SINGLE | ((transId & 3) << 2) | ((((len - 1) & 15) as bv8) << 4)
  }

  /** A packet buffer after stk_llc_single_prepare: all sixteen payload bytes are copied,
      whatever the length, and the checksum bytes are left alone. */
  function Prepared(old_: Frame, transId: bv8, payload: Payload, len: bv16): (p: Frame) {
    [SingleHeader(transId, len)] + payload + old_[P_CRC_LO..]
  }

  /** stk_llc_single_prepare; the two requirements on len are its pr_assert conditions. */
  method SinglePrepare(pack: array<bv8>, transId: bv8, payload: array<bv8>, len: bv16)
    requires pack.Length == PACK_LEN && payload.Length >= PAYLOAD_LEN && pack != payload
    requires 0 < len <= 16
    modifies pack
    ensures pack[..] == Prepared(old(pack[..]), transId, payload[..PAYLOAD_LEN], len)
  {
    hide SingleHeader;
    pack[P_HEADER] := SingleHeader(transId, len);
    for i := 0 to PAYLOAD_LEN
      invariant pack[P_HEADER] == SingleHeader(transId, len)
      invariant forall k :: 0 <= k < i ==> pack[P_PAYLOAD + k] == payload[k]
      invariant pack[P_CRC_LO] == old(pack[P_CRC_LO]) && pack[P_CRC_HI] == old(pack[P_CRC_HI])
    {
      pack[P_PAYLOAD + i] := payload[i];
    }
  }

  // ---------------------------------------------------------------- checksum

  /** On a little-endian machine the field called `lo` is the high-order byte of the sum. */
  function SumLo(sum: bv16): bv8 { (sum >> 8) as bv8 }

  function SumHi(sum: bv16): bv8 { (sum & 0xFF) as bv8 }

  function Sum17(p: Frame): bv16 { CrcFrom(PRESET, p[..PACK_LEN - 2]) }

  function WithChecksum(p: Frame): (q: Frame) {
    p[..P_CRC_LO] + [SumLo(Sum17(p)), SumHi(Sum17(p))]
  }

  predicate Checks(p: Frame) {
    p[P_CRC_LO] == SumLo(Sum17(p)) && p[P_CRC_HI] == SumHi(Sum17(p))
  }

  /** stk_set_pack_checksumm */
  method SetPackChecksumm(pack: array<bv8>)
    requires pack.Length == PACK_LEN
    modifies pack
    ensures pack[..] == WithChecksum(old(pack[..]))
  {
    hide SumLo, SumHi;
    var sum := Crc16(pack, PACK_LEN - 2);
    assert pack[..PACK_LEN - 2] == pack[..][..PACK_LEN - 2];
    pack[P_CRC_LO] := SumLo(sum);
    pack[P_CRC_HI] := SumHi(sum);
  }

  /** stk_test_pack_checksumm */
  method TestPackChecksumm(pack: array<bv8>) returns (ok: bool)
    requires pack.Length == PACK_LEN
    ensures ok == Checks(pack[..])
  {
    hide SumLo, SumHi;
    var sum := Crc16(pack, PACK_LEN - 2);
    assert pack[..PACK_LEN - 2] == pack[..][..PACK_LEN - 2];
    ok := pack[P_CRC_LO] == SumLo(sum) && pack[P_CRC_HI] == SumHi(sum);
  }

  // ---------------------------------------------------------------- what the check means

  /** The register empties exactly on its own two bytes, high-order byte first. */
  lemma OwnBytesEmptyTheRegister(c: bv16, h: bv8, l: bv8)
    ensures ByteStep(ByteStep(c, h), l) == 0 <==> h == SumLo(c) && l == SumHi(c)
  {
    hide *;
    ByteStepHigh(c, h, l);
    ByteStepToZero(ByteStep(c, h), l);
  }

  lemma ByteStepToZero(t: bv16, l: bv8)
    ensures ByteStep(t, l) == 0 <==> t == (l as bv16) << 8
  {
  }

  /** The multiple of the generator that ByteStep adds for x to the shifted register. */
  function Fed(shifted: bv16, x: bv8): bv16 {
    var y: bv8 := x ^ (x >> 4);
    shifted ^ ((y as bv16) << 12) ^ ((y as bv16) << 5) ^ (y as bv16)
  }

  lemma ByteStepFeeds(c: bv16, b: bv8)
    ensures ByteStep(c, b) == Fed(c << 8, ((c >> 8) as bv8) ^ b)
  {
  }

  lemma FedNothing(shifted: bv16)
    ensures Fed(shifted, 0) == shifted
  {
  }

  /** Whatever is fed shows in the low-order byte. */
  lemma FedShows(c: bv16, x: bv8, l: bv8)
    requires Fed(c << 8, x) == (l as bv16) << 8
    ensures x == 0
  {
  }

  lemma XorIsZero(c: bv16, b: bv8)
    ensures ((c >> 8) as bv8) ^ b == 0 <==> b == SumLo(c)
  {
  }

  lemma LowByteMoves(c: bv16, l: bv8)
    ensures c << 8 == (l as bv16) << 8 <==> l == SumHi(c)
  {
  }

  lemma ByteStepHigh(c: bv16, h: bv8, l: bv8)
    ensures ByteStep(c, h) == (l as bv16) << 8 <==> h == SumLo(c) && l == SumHi(c)
  {
    hide *;
    ByteStepFeeds(c, h);
    XorIsZero(c, h);
    LowByteMoves(c, l);
    FedNothing(c << 8);
    if ByteStep(c, h) == (l as bv16) << 8 {
      FedShows(c, ((c >> 8) as bv8) ^ h, l);
    }
  }

  /** The check passes exactly when the CRC over the whole packet, checksum included, is zero. */
  lemma CheckIsZeroRegister(p: Frame)
    ensures Checks(p) <==> CrcFrom(PRESET, p) == 0
  {
    hide ByteStep, SumLo, SumHi;
    var c := Sum17(p);
    assert p[..18][..17] == p[..17];
    assert p[..PACK_LEN - 1] == p[..18];
    OwnBytesEmptyTheRegister(c, p[17], p[18]);
  }

  /** Zeros leave a register empty only if it was. */
  lemma {:induction false} ZerosEmptyNothing(c: bv16, n: nat)
    ensures CrcFrom(c, ZeroBytes(n)) == 0 <==> c == 0
  {
    hide ByteStep;
    if n > 0 {
      ZerosEmptyNothing(c, n - 1);
      assert ZeroBytes(n)[..n - 1] == ZeroBytes(n - 1);
      ByteStepToZero(CrcFrom(c, ZeroBytes(n - 1)), 0);
    }
  }

  /** What the preset is for: a dead line, all zeros, is not a good packet. */
  lemma ZerosRejected()
    ensures !Checks(ZeroBytes(PACK_LEN))
  {
    hide CrcFrom, Checks;
    CheckIsZeroRegister(ZeroBytes(PACK_LEN));
    ZerosEmptyNothing(PRESET, PACK_LEN);
  }

  lemma WithChecksumChecks(p: Frame)
    ensures Checks(WithChecksum(p))
  {
    hide CrcFrom, SumLo, SumHi;
    assert WithChecksum(p)[..17] == p[..17];
  }

  /** Setting the checksum twice changes nothing: a resent packet is byte for byte the first one. */
  lemma ChecksumIdempotent(p: Frame)
    ensures WithChecksum(WithChecksum(p)) == WithChecksum(p)
  {
    hide CrcFrom, SumLo, SumHi;
    assert WithChecksum(p)[..17] == p[..17];
  }

  /** Exact error detection: a packet that passes, changed by the pattern n, passes again
      exactly when the register, started at zero and fed n, ends at zero. */
  lemma NoiseUndetectedIff(p: Frame, n: Frame)
    requires Checks(p)
    ensures Checks(XorBytes(p, n)) <==> CrcFrom(0, n) == 0
  {
    hide Checks, CrcFrom, XorBytes;
    CheckIsZeroRegister(p);
    CheckIsZeroRegister(XorBytes(p, n));
    CrcAffine(PRESET, p, n);
    ZeroPlus(CrcFrom(0, n));
  }

  lemma ZeroPlus(r: bv16)
    ensures 0 ^ r == r
  {
  }

  /** The receiver rejects a good packet in which any set of distinct bits, one, two, three or any
      odd number of them, was flipped. */
  lemma DistinctFlipsRejected(p: Frame, n: Frame, s: set<nat>)
    requires Checks(p) && Flips(MessageBits(n), s) && (|s| % 2 == 1 || |s| == 2)
    ensures !Checks(XorBytes(p, n))
  {
    hide Checks, CrcFrom, XorBytes, MessageBits;
    FlipsDetected(MessageBits(n), s);
    CrcIsBitwise(0, n);
    NoiseUndetectedIff(p, n);
  }

  /** ... or any non-empty pattern within sixteen consecutive bits in CRC order. */
  lemma BurstRejected(p: Frame, n: Frame, i: nat, k: nat)
    requires Checks(p) && k < 152 && MessageBits(n)[k] == 1
    requires forall j :: 0 <= j < 152 && MessageBits(n)[j] == 1 ==> i <= j < i + 16
    ensures !Checks(XorBytes(p, n))
  {
    hide Checks, CrcFrom, XorBytes, MessageBits;
    BurstDetected(MessageBits(n), i, k);
    CrcIsBitwise(0, n);
    NoiseUndetectedIff(p, n);
  }

  // ---------------------------------------------------------------- round trip

  lemma HeaderFields(id: bv8, len: bv16)
    requires id < 4 && 0 < len <= 16
    ensures SingleHeader(id, len) & 3 == TYPE_SINGLE
    ensures (SingleHeader(id, len) >> 2) & 3 == id
    ensures (SingleHeader(id, len) >> 4) + 1 == len as bv8
  {
  }

  /** The layout of the header byte, in numbers: the type in its two low bits, then two bits of id,
      then the length less one. */
  lemma HeaderLayout(id: bv8, len: bv16)
    requires id < 4 && 0 < len <= 16
    ensures SingleHeader(id, len) as int == 1 + 4 * id as int + 16 * (len as int - 1)
  {
    HeaderHasNoOverlap(id, len - 1);
    assert SingleHeader(id, len) == 1 + 4 * id + 16 * ((len - 1) as bv8);
  }

  lemma HeaderHasNoOverlap(id: bv8, n: bv16)
    requires id < 4 && n < 16
    ensures TYPE_SINGLE | ((id & 3) << 2) | (((n & 15) as bv8) << 4) == 1 + 4 * id + 16 * (n as bv8)
  {
  }

  lemma ByteInFields(b: bv8)
    ensures b == (b & 3) + 4 * ((b >> 2) & 3) + 16 * (b >> 4) && b & 3 < 4 && (b >> 2) & 3 < 4 && b >> 4 < 16
    ensures b as int == (b & 3) as int + 4 * ((b >> 2) & 3) as int + 16 * (b >> 4) as int
    ensures ((b >> 4) & 1) as int == (b >> 4) as int % 2
  {
  }

  /** The decoders, in numbers, for every packet: a multi-packet has the full length and other types
      none; a reset is an internal packet with bit 4 set. */
  lemma HeaderDecoded(p: Frame)
    ensures var h := p[P_HEADER] as int;
      && TypeOf(p) as int == h % 4 && IdOf(p) as int == h / 4 % 4
      && PayloadLength(p) as int == (if h % 4 == 1 then h / 16 + 1 else if h % 4 == 2 then 16 else 0)
      && (IsReset(p) <==> h % 4 == 0 && h / 16 % 2 == 1)
  {
    var b := p[P_HEADER];
    ByteInFields(b);
    FieldsOf(b as int, (b & 3) as int, ((b >> 2) & 3) as int, (b >> 4) as int);
    LengthOf(b);
  }

  lemma FieldsOf(h: nat, t: nat, i: nat, n: nat)
    requires h == t + 4 * i + 16 * n && t < 4 && i < 4
    ensures t == h % 4 && i == h / 4 % 4 && n == h / 16
  {
    LowField(h, i + 4 * n, t);
    LowField(i + 4 * n, n, i);
    HighField(h, n, t + 4 * i);
  }

  lemma LowField(h: nat, rest: nat, t: nat)
    requires h == 4 * rest + t && t < 4
    ensures h % 4 == t && h / 4 == rest
  {
  }

  lemma HighField(h: nat, n: nat, low: nat)
    requires h == 16 * n + low && low < 16
    ensures h / 16 == n
  {
  }

  lemma LengthOf(b: bv8)
    ensures ((b >> 4) + 1) as int == (b >> 4) as int + 1
    ensures (b & 3 == 0 <==> (b & 3) as int == 0) && (b & 3 == 1 <==> (b & 3) as int == 1) && (b & 3 == 2 <==> (b & 3) as int == 2)
    ensures (b >> 4) & 1 == 1 <==> ((b >> 4) & 1) as int == 1
  {
  }

  /** What the receiver decodes from an uncorrupted packet is what the sender prepared,
      whatever the packet buffer held before. */
  lemma RoundTrip(old_: Frame, id: bv8, payload: Payload, len: bv16)
    requires id < 4 && 0 < len <= 16
    ensures var p := WithChecksum(Prepared(old_, id, payload, len));
      && Checks(p)
      && TypeOf(p) == TYPE_SINGLE && !IsReset(p)
      && IdOf(p) == id
      && PayloadLength(p) == len as bv8
      && p[P_PAYLOAD..P_CRC_LO] == payload
  {
    hide SingleHeader, SumLo, SumHi, CrcFrom, Checks;
    var q := Prepared(old_, id, payload, len);
    var p := WithChecksum(q);
    WithChecksumChecks(q);
    HeaderFields(id, len);
    assert p[..17] == q[..17];
    assert p[0] == q[0] == SingleHeader(id, len);
    assert p[1..17] == q[1..17] == payload;
  }

  /** The buffer a packet is prepared in leaves no trace in what is sent. */
  lemma BufferLeavesNoTrace(a: Frame, b: Frame, id: bv8, payload: Payload, len: bv16)
    ensures WithChecksum(Prepared(a, id, payload, len)) == WithChecksum(Prepared(b, id, payload, len))
  {
    hide CrcFrom, SumLo, SumHi, SingleHeader;
    assert Prepared(a, id, payload, len)[..17] == Prepared(b, id, payload, len)[..17];
  }

  // ---------------------------------------------------------------- the demonstration traffic

  /** The payload both sides send: the first sixteen bytes of send_data. */
  const SEND_DATA: Payload := [1, 2, 3, 4, 5, 6, 7, 8, 9, 10, 11, 12, 13, 14, 15, 16]

  /** The packet put on the air for transaction id `id`. */
  function FrameOf(id: bv8): Frame {
    WithChecksum(Prepared(ZeroBytes(PACK_LEN), id, SEND_DATA, 16))
  }

  /** What both sides prepare, in whatever buffer. */
  lemma PreparedFrame(old_: Frame, id: bv8)
    ensures WithChecksum(Prepared(old_, id, SEND_DATA, 16)) == FrameOf(id)
  {
    hide WithChecksum, Prepared, SEND_DATA;
    BufferLeavesNoTrace(old_, ZeroBytes(PACK_LEN), id, SEND_DATA, 16);
  }

  /** Its bytes: the header of a full single packet, and the numbers 1 to 16. */
  lemma FrameBytes(id: bv8, i: nat)
    requires id < 4 && i < P_CRC_LO
    ensures FrameOf(id)[i] as int == if i == 0 then 241 + 4 * id as int else i
  {
    hide CrcFrom, SumLo, SumHi, SingleHeader, SEND_DATA;
    HeaderLayout(id, 16);
    if i > 0 { SendDataAt(i - 1); }
  }

  lemma SendDataAt(i: nat)
    requires i < 16
    ensures SEND_DATA[i] as int == i + 1
  {
  }

  lemma FrameFacts(id: bv8)
    requires id < 4
    ensures Checks(FrameOf(id)) && WithChecksum(FrameOf(id)) == FrameOf(id)
    ensures TypeOf(FrameOf(id)) == TYPE_SINGLE && !IsReset(FrameOf(id)) && IdOf(FrameOf(id)) == id
  {
    hide Checks, WithChecksum, TypeOf, IsReset, IdOf, PayloadLength, CrcFrom;
    var blank: Frame := ZeroBytes(PACK_LEN);
    RoundTrip(blank, id, SEND_DATA, 16);
    ChecksumIdempotent(Prepared(blank, id, SEND_DATA, 16));
  }
}
