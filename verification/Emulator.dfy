/** The static record of env-core.c as objects changed in place, section by section.

    Each method is one piece of code run under the lock.  Its effect on the record, seen through
    View, is the corresponding function of Radio. */
module Emulator {

  import opened Crc
  import opened Detection
  import opened Packet
  import opened Radio
  import opened Corruption
  import opened Timer

  /** MAX_WL_DATA_LEN */
  const MAX_DATA := 256

  // ---------------------------------------------------------------- buffers

  /** wl_pack_copy */
  method PackCopy(len: nat, dst: array<bv8>, src: array<bv8>)
    requires len <= dst.Length && len <= src.Length && dst != src
    modifies dst
    ensures dst[..len] == src[..len] && dst[len..] == old(dst[len..])
  {
    for i := 0 to len
      invariant dst[..i] == src[..i] && dst[len..] == old(dst[len..])
    {
      dst[i] := src[i];
    }
  }

  /** wl_pack_bit_flip */
  method PackBitFlip(bit: nat, pack: array<bv8>)
    requires bit / 8 < pack.Length
    modifies pack
    ensures pack[..] == Flip(old(pack[..]), bit)
  {
    hide Toggled;
    var byteN, bitN := bit / 8, bit % 8;
    pack[byteN] := Toggled(pack[byteN], bitN);
  }

  /** wl_pack_break, from the random numbers in script.  The report is a uint32_t. */
  method PackBreak(pack: array<bv8>, script: Script, o: Options) returns (ret: nat, rest: Script)
    requires pack.Length == MAX_DATA && InRange(script) && Plan(script, o).Some?
    modifies pack
    ensures var plan := Plan(script, o).value;
      && rest == plan.rest
      && ret == |plan.value| % UINT32
      && (forall k :: 0 <= k < |plan.value| ==> plan.value[k] / 8 < MAX_DATA)
      && pack[..] == FlipAll(old(pack[..]), plan.value)
    ensures !o.errData ==> pack[..] == old(pack[..]) && ret == 0 && rest == script
    ensures o.errData ==> script != [] && (pack[..] != old(pack[..]) <==> script[0] < Share(o.firstScore))
  {
    hide Flip, FlipAll, Likely, BitDrawn, DrawMore, Share;
    PlanShape(script, o);
    PlanIff(script, o);
    if Plan(script, o).value.value != [] { CorruptionNeverCancels(pack[..], script, o); }
    ghost var before := pack[..];
    FlipsNothing(before);
    if !o.errData {
      return 0, script;
    }
    if !Likely(script[0], o.firstScore) {
      return 0, script[1..];
    }
    var first := BitDrawn(script[1]);
    rest := script[2..];
    ghost var more := DrawMore(rest, first, o).value.value;
    assert Plan(script, o).value.value == [first] + more;
    assert forall k :: 0 <= k < |more| ==> more[k] == ([first] + more)[k + 1];
    FlipsOneFirst(before, first, more);
    PackBitFlip(first, pack);
    ret := 1;
    ret, rest := BreakMore(pack, rest, first, o, ret);
  }

  lemma FlipsNothing(p: Bytes)
    ensures FlipAll(p, []) == p
  {
  }

  lemma FlipAllStep(p: Bytes, flips: seq<nat>, bit: nat)
    requires bit / 8 < |p| && forall k :: 0 <= k < |flips| ==> flips[k] / 8 < |p|
    ensures FlipAll(p, flips + [bit]) == Flip(FlipAll(p, flips), bit)
  {
    hide Flip;
    assert (flips + [bit])[..|flips|] == flips;
  }

  lemma FlipsOneFirst(p: Bytes, first: nat, more: seq<nat>)
    requires first / 8 < |p| && forall k :: 0 <= k < |more| ==> more[k] / 8 < |p|
    ensures FlipAll(p, [first] + more) == FlipAll(Flip(p, first), more)
  {
    hide Flip;
    FlipAllConcat(p, [first], more);
    assert [first][..0] == [];
  }

  /** Its outer loop, with the count so far. */
  method BreakMore(pack: array<bv8>, script: Script, first: nat, o: Options, count: nat) returns (ret: nat, rest: Script)
    requires DrawMore(script, first, o).Some? && count < UINT32
    requires forall bit :: bit in DrawMore(script, first, o).value.value ==> bit / 8 < pack.Length
    modifies pack
    ensures var more := DrawMore(script, first, o).value;
      && rest == more.rest && ret == (count + |more.value|) % UINT32
      && (forall k :: 0 <= k < |more.value| ==> more.value[k] / 8 < pack.Length)
      && pack[..] == FlipAll(old(pack[..]), more.value)
  {
    hide Flip, FlipAll, Likely, BitDrawn, DrawOther, DrawMore, Remaining;
    ghost var before := pack[..];
    FlipsNothing(before);
    ghost var all := DrawMore(script, first, o).value;
    ghost var flips: seq<nat> := [];
    StartsRemaining(script, first, o);
    ret, rest := count, script;
    while true
      invariant flips <= all.value && ret == (count + |flips|) % UINT32
      invariant forall k :: 0 <= k < |flips| ==> flips[k] in all.value && flips[k] / 8 < |before|
      invariant pack[..] == FlipAll(before, flips)
      invariant Remaining(rest, first, o, flips, all)
      decreases |rest|
    {
      RemainingIs(rest, first, o, flips, all);
      var again := Likely(rest[0], o.multipScore);
      ghost var at := rest;
      rest := rest[1..];
      if !again {
        return;
      }
      DrawOtherShortens(rest, first);
      var bit;
      bit, rest := DrawAnother(rest, first);
      RemainingStep(at, first, o, flips, all, bit, rest);
      assert bit == (flips + [bit])[|flips|] == all.value[|flips|];
      assert bit in all.value;
      FlipAllStep(before, flips, bit);
      PackBitFlip(bit, pack);
      flips := flips + [bit];
      ret := (ret + 1) % UINT32;
    }
  }

  /** The flips done so far and those the rest of the script will add are all. */
  ghost predicate Remaining(rest: Script, first: nat, o: Options, flips: seq<nat>, all: Drawn<seq<nat>>) {
    var e := DrawMore(rest, first, o);
    e.Some? && all == Drawn(flips + e.value.value, e.value.rest)
  }

  lemma StartsRemaining(script: Script, first: nat, o: Options)
    requires DrawMore(script, first, o).Some?
    ensures Remaining(script, first, o, [], DrawMore(script, first, o).value)
  {
    hide DrawMore;
    var d := DrawMore(script, first, o).value;
    assert [] + d.value == d.value;
  }

  /** The next number says whether there is a further bit, and then one can be drawn. */
  lemma RemainingIs(rest: Script, first: nat, o: Options, flips: seq<nat>, all: Drawn<seq<nat>>)
    requires Remaining(rest, first, o, flips, all)
    ensures rest != []
    ensures if Likely(rest[0], o.multipScore) then DrawOther(rest[1..], first).Some? else all == Drawn(flips, rest[1..])
  {
    hide Likely, DrawOther;
    var e := DrawMore(rest, first, o);
    assert e.Some? && rest != [];
    if Likely(rest[0], o.multipScore) {
      assert DrawOther(rest[1..], first).Some?;
    } else {
      assert e.value == Drawn([], rest[1..]);
      assert flips + e.value.value == flips;
    }
  }

  lemma RemainingStep(at: Script, first: nat, o: Options, flips: seq<nat>, all: Drawn<seq<nat>>, bit: nat, rest: Script)
    requires Remaining(at, first, o, flips, all) && at != [] && Likely(at[0], o.multipScore)
    requires DrawOther(at[1..], first) == Some(Drawn(bit, rest))
    ensures Remaining(rest, first, o, flips + [bit], all) && flips + [bit] <= all.value
  {
    hide Likely, DrawOther;
    var e := DrawMore(rest, first, o).value.value;
    assert flips + ([bit] + e) == (flips + [bit]) + e;
  }

  /** The do-while loop of wl_pack_break. */
  method DrawAnother(script: Script, avoid: nat) returns (bit: nat, rest: Script)
    requires DrawOther(script, avoid).Some?
    ensures DrawOther(script, avoid) == Some(Drawn(bit, rest))
  {
    hide BitDrawn;
    bit, rest := BitDrawn(script[0]), script[1..];
    while bit == avoid
      invariant if bit == avoid then DrawOther(rest, avoid) == DrawOther(script, avoid)
                else DrawOther(script, avoid) == Some(Drawn(bit, rest))
      decreases bit == avoid, |rest|
    {
      bit, rest := BitDrawn(rest[0]), rest[1..];
    }
  }

  // ---------------------------------------------------------------- what a delivery draws

  /** wl_is_packet_lost and then wl_pack_break: None if the packet is lost, else the bits flipped. */
  function Outcome(script: Script, o: Options): Option<Drawn<Option<seq<nat>>>> {
    if o.losePackets && script == [] then None
    else if o.losePackets && Likely(script[0], o.loseScore) then Some(Drawn(None, script[1..]))
    else
      match Plan(if o.losePackets then script[1..] else script, o)
      case None => None
      case Some(d) => Some(Drawn(Some(d.value), d.rest))
  }

  /** The script is long enough for one delivery: the program's drawing loops end. */
  predicate Drawable(script: Script, o: Options) {
    InRange(script) && Outcome(script, o).Some?
  }

  /** What the delivery drawn from script does to the packet. */
  function FateOf(script: Script, o: Options): Fate
    requires Drawable(script, o)
  {
    match Outcome(script, o).value.value
    case None => Lost
    case Some(flips) =>
      OutcomeInRange(script, o);
      Arrives(NoiseOf(flips))
  }

  /** A packet is lost exactly when losses are on and the first number is below the score's share;
      without that option no number is drawn for it. */
  lemma LostIff(script: Script, o: Options)
    requires Drawable(script, o)
    ensures o.losePackets ==> script != []
    ensures FateOf(script, o) == Lost <==> o.losePackets && script[0] < Share(o.loseScore)
    ensures FateOf(script, o) == Lost ==> Outcome(script, o).value.rest == script[1..]
  {
    hide Likely, Plan, NoiseOf;
    if script != [] { LikelyIff(script[0], o.loseScore); }
  }

  /** With both options off every packet arrives as it was sent and no number is drawn; with only
      losses on, one that is not lost arrives so. */
  lemma SilentUnlessOn(script: Script, o: Options)
    requires Drawable(script, o) && !o.errData && FateOf(script, o) != Lost
    ensures FateOf(script, o) == Arrives(ZeroBytes(PACK_LEN))
    ensures Outcome(script, o).value.rest == if o.losePackets then script[1..] else script
  {
    hide Likely;
    PlanIff(if o.losePackets then script[1..] else script, o);
    assert FlipAll(ZeroBytes(MAX_DATA), []) == ZeroBytes(MAX_DATA);
  }

  lemma OutcomeInRange(script: Script, o: Options)
    requires Drawable(script, o)
    ensures var v := Outcome(script, o).value.value;
      v.Some? ==> forall k :: 0 <= k < |v.value| ==> v.value[k] / 8 < MAX_DATA
  {
    hide Likely, Plan;
    var d := Outcome(script, o).value;
    if d.value.Some? {
      PlanShape(if o.losePackets then script[1..] else script, o);
    }
  }

  /** The pattern the flips leave on the packet itself; a flip of bit 152 leaves none. */
  function NoiseOf(flips: seq<nat>): Frame
    requires forall k :: 0 <= k < |flips| ==> flips[k] / 8 < MAX_DATA
  {
    FlipAll(ZeroBytes(MAX_DATA), flips)[..PACK_LEN]
  }

  /** The packet part of a broken buffer is the packet plus the noise. */
  lemma BrokenPrefix(data: Bytes, flips: seq<nat>)
    requires |data| == MAX_DATA && forall k :: 0 <= k < |flips| ==> flips[k] / 8 < MAX_DATA
    ensures FlipAll(data, flips)[..PACK_LEN] == XorBytes(data[..PACK_LEN], NoiseOf(flips))
  {
    hide Flip, FlipAll;
    FlipAllIsNoise(data, flips);
  }

  // ---------------------------------------------------------------- the record

  /** struct wl_emul_side_client: an input and an output buffer. */
  class Client {
    const recvData: array<bv8>
    var isReceived: bool
    const sendData: array<bv8>
    var sendTime: Timeval
    var isSend: bool

    /** As wl_emul_env_init leaves it. */
    constructor ()
      ensures fresh(recvData) && fresh(sendData) && recvData != sendData
      ensures recvData.Length == sendData.Length == MAX_DATA
      ensures isSend && !isReceived && sendTime.Normal()
    {
      recvData := new bv8[MAX_DATA](_ => 0);
      sendData := new bv8[MAX_DATA](_ => 0);
      isReceived := false;
      isSend := true;
      sendTime := Timeval(0, 0);
    }
  }

  /** struct wl_emul_global.  seed holds what rand_r will still return from each seed; errs is
      the error statistic before it is cut to 32 bits. */
  class Emulator {
    const m: Client
    const s: Client
    var seedM: Script
    var seedS: Script
    var err: nat
    ghost var errs: nat

    constructor (seedM: Script, seedS: Script)
      ensures Valid() && fresh(m) && fresh(s)
      ensures View().err == 0 && View().mOut.isSend && View().sOut.isSend
      ensures !View().mIn.isReceived && !View().sIn.isReceived
    {
      m := new Client();
      s := new Client();
      this.seedM := seedM;
      this.seedS := seedS;
      err := 0;
      errs := 0;
    }

    ghost predicate Valid()
      reads this, m, s
    {
      && m != s
      && m.recvData.Length == m.sendData.Length == s.recvData.Length == s.sendData.Length == MAX_DATA
      && m.recvData != m.sendData && s.recvData != s.sendData
      && m.recvData != s.recvData && m.recvData != s.sendData
      && m.sendData != s.recvData && m.sendData != s.sendData
      && m.sendTime.Normal() && s.sendTime.Normal()
      && err == errs % UINT32
    }

    /** The record as Radio sees it. */
    ghost function View(): Devs
      requires Valid()
      reads this, m, s, m.recvData, m.sendData, s.recvData, s.sendData
    {
      Devs(In(m.isReceived, m.recvData[..PACK_LEN]), Out(m.isSend, m.sendTime.Micros(), m.sendData[..PACK_LEN]),
           In(s.isReceived, s.recvData[..PACK_LEN]), Out(s.isSend, s.sendTime.Micros(), s.sendData[..PACK_LEN]),
           errs)
    }

    function Of(id: Side): Client { if id == M then m else s }

    function SeedOf(id: Side): Script
      reads this
    {
      if id == M then seedM else seedS
    }

    /** devs.err++ */
    method CountError()
      requires Valid()
      modifies this`err, this`errs
      ensures Valid() && View() == old(View()).(err := old(View()).err + 1)
    {
      err := (err + 1) % UINT32;
      errs := errs + 1;
    }

    /** wl_shadow_worker_chanel_check */
    method ChanelCheck()
      requires Valid()
      modifies this`err, this`errs
      ensures Valid() && View() == ChannelCheck(old(View()))
    {
      if !m.isSend && !s.isSend {
        CountError();
      }
    }

    /** The part of wl_sendPacketTimeout under the lock. */
    method CommitSend(id: Side, payload: array<bv8>, now: Timeval)
      requires Valid() && now.Normal() && payload.Length >= PACK_LEN && payload != Of(id).sendData
      modifies Of(id), Of(id).sendData
      ensures Valid() && View() == Commit(old(View()), id, now.Micros(), payload[..PACK_LEN])
      ensures payload[..] == old(payload[..])
    {
      var c := Of(id);
      c.sendTime := now;
      PackCopy(PACK_LEN, c.sendData, payload);
      c.isSend := false;
    }

    /** The part of wl_receivePacketTimeout under the lock. */
    method TakeReceived(id: Side, payload: array<bv8>)
      requires Valid() && payload.Length >= PACK_LEN
      requires payload !in {m.recvData, m.sendData, s.recvData, s.sendData}
      modifies Of(id), payload
      ensures Valid() && View() == Take(old(View()), id)
      ensures payload[..PACK_LEN] == old(View()).InOf(id).data
    {
      PackCopy(PACK_LEN, payload, Of(id).recvData);
      Of(id).isReceived := false;
    }

    /** wl_shadow_worker_targ, drawing from the sender's seed. */
    method ShadowWorkerTarg(src: Side, now: Timeval, o: Options)
      requires Valid() && now.Normal() && Drawable(SeedOf(src), o)
      modifies this, Of(src), Of(Peer(src)), Of(src).sendData, Of(Peer(src)).recvData
      ensures Valid() && View() == Targ(old(View()), src, now.Micros(), FateOf(old(SeedOf(src)), o))
      ensures SeedOf(Peer(src)) == old(SeedOf(Peer(src)))
      ensures SeedOf(src) == if Due(old(View()).OutOf(src), now.Micros()) then Outcome(old(SeedOf(src)), o).value.rest
                             else old(SeedOf(src))
      ensures !o.losePackets && !o.errData ==>
                && View() == Targ(old(View()), src, now.Micros(), Arrives(ZeroBytes(PACK_LEN)))
                && SeedOf(src) == old(SeedOf(src))
      ensures Due(old(View()).OutOf(src), now.Micros()) && o.losePackets && old(SeedOf(src))[0] < Share(o.loseScore) ==>
                View() == old(View()).WithOut(src, old(View()).OutOf(src).(isSend := true))
    {
      hide XorBytes, Drawable, FateOf, Outcome;
      LostIff(SeedOf(src), o);
      if !o.losePackets && !o.errData { SilentUnlessOn(SeedOf(src), o); }
      var a := Of(src);
      if a.isSend {
        return;
      }
      ElapsedExact(a.sendTime, TOA_MS, now);
      if TimerLeq(TimerAdd(a.sendTime, Interval(TOA_MS)), now) {
        FinishSending(src, o);
      }
    }

    /** The rest of it, once the time on air has passed: what happens at that very moment. */
    method FinishSending(src: Side, o: Options)
      requires Valid() && Drawable(SeedOf(src), o) && !Of(src).isSend
      modifies this, Of(src), Of(Peer(src)), Of(src).sendData, Of(Peer(src)).recvData
      ensures Valid()
      ensures View() == Targ(old(View()), src, old(View()).OutOf(src).sendTime + TOA, FateOf(old(SeedOf(src)), o))
      ensures SeedOf(Peer(src)) == old(SeedOf(Peer(src))) && SeedOf(src) == Outcome(old(SeedOf(src)), o).value.rest
    {
      hide XorBytes, Likely, Share, Plan, FlipAll, NoiseOf, ZeroBytes;
      Of(src).isSend := true;
      var script := SeedOf(src);
      OutcomeInRange(script, o);
      if o.losePackets {
        var r := script[0];
        script := script[1..];
        SetSeed(src, script);
        if Likely(r, o.loseScore) {
          return;
        }
      }
      BreakAndDeliver(src, script, o);
    }

    /** A packet that is not lost is broken, and then dropped on a full slot or delivered. */
    method BreakAndDeliver(src: Side, script: Script, o: Options)
      requires Valid() && InRange(script) && Plan(script, o).Some? && Of(src).isSend
      requires forall k :: 0 <= k < |Plan(script, o).value.value| ==> Plan(script, o).value.value[k] / 8 < MAX_DATA
      modifies this, Of(src).sendData, Of(Peer(src)), Of(Peer(src)).recvData
      ensures Valid() && SeedOf(Peer(src)) == old(SeedOf(Peer(src))) && SeedOf(src) == Plan(script, o).value.rest
      ensures var d := old(View());
        var broken := XorBytes(d.OutOf(src).data, NoiseOf(Plan(script, o).value.value));
        var sent := d.WithOut(src, d.OutOf(src).(data := broken));
        View() == if d.InOf(Peer(src)).isReceived then sent.(err := d.err + 1) else sent.WithIn(Peer(src), In(true, broken))
    {
      hide XorBytes, Likely, Share, Plan, FlipAll, NoiseOf, ZeroBytes, InRange;
      var a, b := Of(src), Of(Peer(src));
      BrokenPrefix(a.sendData[..], Plan(script, o).value.value);
      var bits, rest := PackBreak(a.sendData, script, o);
      SetSeed(src, rest);
      assert a.sendData[..PACK_LEN] == a.sendData[..][..PACK_LEN];
      if b.isReceived {
        err := (err + 1) % UINT32;
        errs := errs + 1;
        return;
      }
      PackCopy(MAX_DATA, b.recvData, a.sendData);
      assert b.recvData[..PACK_LEN] == b.recvData[..MAX_DATA][..PACK_LEN];
      b.isReceived := true;
    }

    method SetSeed(id: Side, script: Script)
      modifies this`seedM, this`seedS
      ensures SeedOf(id) == script && SeedOf(Peer(id)) == old(SeedOf(Peer(id)))
    {
      if id == M {
        seedM := script;
      } else {
        seedS := script;
      }
    }

    /** wl_shadow_worker: both directions, each with its own reading of the clock, then the collision
        check, all under one lock. */
    method ShadowWorker(now: Timeval, later: Timeval, o: Options)
      requires Valid() && now.Normal() && later.Normal() && Drawable(seedM, o) && Drawable(seedS, o)
      modifies this, m, s, m.sendData, m.recvData, s.sendData, s.recvData
      ensures Valid()
      ensures View() == Radio.ShadowWorker(old(View()), now.Micros(), later.Micros(), FateOf(old(seedM), o), FateOf(old(seedS), o))
    {
      hide Drawable, FateOf, Outcome, Targ, ChannelCheck;
      ShadowWorkerTarg(M, now, o);
      ShadowWorkerTarg(S, later, o);
      ChanelCheck();
    }
  }
}
