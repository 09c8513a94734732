/** The link-control state machines of stack-comm.c, one switch case at a time, as functions
    of what a transmitter holds.  The class Transmitter is proved against these functions and
    the protocol is built from them. */
module Llc {

  import opened Packet

  /** STK_PACKET_POOL_SIZE */
  const POOL_SIZE := 10

  const TRANS_ID_START: bv8 := 0
  const TRANS_ID_MAX: bv8 := 3
  const TRANS_ID_NONE: bv8 := 4

  /** CONFIG_WL_STD_TIME_ON_AIR_MS * 3, in microseconds. */
  const LLC_TIMEOUT := 300_000

  datatype MState = MIdle | MReceivedAll | MSendAll | MResend

  datatype SState = SIdle | SReceivedAll | SSendAll | SResend

  /** A transmitter as its link control sees it.  The queues hold packet contents; a packet to
      be sent counts with its checksum set, as it will go on the air.  sendFree and recvFree
      are the lengths of the two packet pools. */
  datatype Tsm = Tsm(
    transId: bv8,
    testTransId: bv8,
    retries: nat,
    timerStart: int,
    sendQ: seq<Frame>,
    recvQ: seq<Frame>,
    resend: seq<Frame>,
    sendFree: int,
    recvFree: int)

  // ---------------------------------------------------------------- what the MAC worker does to it

  /** stk_mac_mark_as_send */
  function Sent(t: Tsm): Tsm
    requires t.sendQ != []
  {
    t.(sendQ := t.sendQ[1..])
  }

  /** stk_get_recv_packholder: a pack for the reception leaves the pool. */
  function PackTaken(t: Tsm): Tsm { t.(recvFree := t.recvFree - 1) }

  /** stk_put_recv_packholder: it goes back unused. */
  function PackPutBack(t: Tsm): Tsm { t.(recvFree := t.recvFree + 1) }

  /** stk_mac_pack_commit */
  function Received(t: Tsm, p: Frame): Tsm { t.(recvQ := t.recvQ + [p]) }

  // ---------------------------------------------------------------- the switch cases

  datatype MRun = MRun(t: Tsm, st: MState)

  datatype SRun = SRun(t: Tsm, st: SState)

  /** stk_m_prep_trans_id */
  function NextTransId(id: bv8): bv8 {
    if id + 1 > TRANS_ID_MAX then TRANS_ID_START else id + 1
  }

  predicate Expired(t: Tsm, now: int) {
    t.timerStart + LLC_TIMEOUT <= now
  }

  /** stk_llc_resend_clear_all: what was kept returns to the pool. */
  function Cleared(t: Tsm): Tsm { t.(resend := [], sendFree := t.sendFree + |t.resend|) }

  /** stk_llc_mark_as_received: the first received packet returns to the pool. */
  function Consumed(t: Tsm): Tsm
    requires t.recvQ != []
  {
    t.(recvQ := t.recvQ[1..], recvFree := t.recvFree + 1)
  }

  /** Allocating a packet, preparing it, committing it and keeping it for resending. */
  function Launch(t: Tsm): Tsm {
    var p := FrameOf(t.transId);
    t.(sendQ := t.sendQ + [p], resend := t.resend + [p], sendFree := t.sendFree - 1)
  }

  /** Committing the kept packet once more. */
  function Relaunch(t: Tsm): Tsm
    requires t.resend != []
  {
    t.(sendQ := t.sendQ + [t.resend[0]], retries := (t.retries + 1) % 256)
  }

  /** One case of stk_m_llc_worker_v3. */
  function MasterCase(t: Tsm, st: MState, now: int): MRun
    requires st == MResend ==> t.resend != []
  {
    match st {
      case MIdle =>
        var next := Cleared(t).(retries := 0, transId := NextTransId(t.transId));
        MRun(Launch(next).(timerStart := now), MSendAll)
      case MSendAll =>
        if t.recvQ != [] then MRun(Consumed(t).(testTransId := IdOf(t.recvQ[0])), MReceivedAll)
        else if Expired(t, now) then MRun(t, MResend)
        else MRun(t, MSendAll)
      case MReceivedAll => MRun(t, MIdle)
      case MResend => MRun(Relaunch(t).(timerStart := now), MSendAll)
    }
  }

  /** One case of stk_s_llc_worker_v3. */
  function SlaveCase(t: Tsm, st: SState): SRun
    requires st == SResend ==> t.resend != []
  {
    match st {
      case SIdle =>
        if t.recvQ == [] then SRun(t, SIdle)
        else
          var p, rest := t.recvQ[0], Consumed(t);
          if IsReset(p) then SRun(rest, SIdle)
          else if IdOf(p) == t.transId then SRun(rest, if TypeOf(p) == TYPE_SINGLE then SResend else SIdle)
          else if TypeOf(p) == TYPE_SINGLE then
            SRun(Cleared(rest).(retries := 0, transId := IdOf(p)), SReceivedAll)
          else SRun(Cleared(rest).(retries := 0), SIdle)
      case SReceivedAll => SRun(Launch(t), SSendAll)
      case SSendAll => SRun(t, SIdle)
      case SResend => SRun(Relaunch(t), SIdle)
    }
  }

  // ---------------------------------------------------------------- the pr_assert conditions

  /** Every condition asserted in the master's case for st; a packet is allocated after the kept one
      has returned to the pool. */
  predicate MasterAsserts(t: Tsm, st: MState) {
    match st {
      case MIdle => t.sendFree + |t.resend| > 0 && t.sendQ == []
      case MSendAll =>
        t.recvQ != [] ==> TypeOf(t.recvQ[0]) == TYPE_SINGLE && IdOf(t.recvQ[0]) == t.transId
      case MReceivedAll => t.transId == t.testTransId
      case MResend => t.resend != [] && t.sendQ == []
    }
  }

  /** Every condition asserted in the slave's case for st. */
  predicate SlaveAsserts(t: Tsm, st: SState) {
    match st {
      case SIdle => t.recvQ != [] ==> !IsReset(t.recvQ[0]) && TypeOf(t.recvQ[0]) == TYPE_SINGLE
      case SReceivedAll => t.sendFree > 0 && t.sendQ == []
      case SSendAll => true
      case SResend => t.resend != [] && t.sendQ == []
    }
  }

  // ---------------------------------------------------------------- the respin loops

  /** Outside the MAC worker every pack is in its pool, kept for resending, or received. */
  predicate Pooled(t: Tsm) {
    t.sendFree + |t.resend| == POOL_SIZE && t.recvFree + |t.recvQ| == POOL_SIZE
  }

  /** States from which the master's cases meet their assertions until `limit`. */
  predicate MasterEntry(t: Tsm, st: MState, limit: int) {
    && Pooled(t) && |t.resend| <= 1
    && match st {
         case MIdle => t.sendQ == [] && t.recvQ == []
         case MSendAll =>
           && |t.sendQ| + |t.recvQ| <= 1 && t.resend != []
           && (t.sendQ != [] ==> !Expired(t, limit))
           && (t.recvQ != [] ==> TypeOf(t.recvQ[0]) == TYPE_SINGLE && IdOf(t.recvQ[0]) == t.transId)
         case MReceivedAll => t.sendQ == [] && t.recvQ == [] && t.testTransId == t.transId
         case MResend => t.sendQ == [] && t.recvQ == [] && t.resend != []
       }
  }

  /** The same for the slave, which keeps its last reply from its first transaction on. */
  predicate SlaveEntry(t: Tsm, st: SState) {
    && Pooled(t) && |t.resend| <= 1
    && match st {
         case SIdle =>
           && |t.sendQ| + |t.recvQ| <= 1
           && (t.recvQ != [] ==> !IsReset(t.recvQ[0]) && TypeOf(t.recvQ[0]) == TYPE_SINGLE)
         case SReceivedAll => t.sendQ == [] && t.recvQ == [] && t.resend == []
         case SSendAll => |t.sendQ| == 1 && t.recvQ == []
         case SResend => t.sendQ == [] && t.recvQ == [] && t.resend != []
       }
    && (st != SReceivedAll && t.transId != TRANS_ID_NONE ==> t.resend != [])
  }

  function SlaveRank(st: SState): nat {
    match st case SReceivedAll => 3 case SSendAll => 2 case SResend => 2 case SIdle => 1
  }

  function MasterRank(st: MState): nat {
    match st case MReceivedAll => 3 case MIdle => 2 case MSendAll => 1 case MResend => 0
  }

  /** A resend is due or can still become due before `limit`. */
  function Pending(t: Tsm, st: MState, limit: int): nat {
    if st == MResend || Expired(t, limit) then 1 else 0
  }

  /** The slave's loop: no case fails an assertion, and each one that changes the state uses up a
      received packet or lowers the rank, so the loop ends, idle with nothing received. */
  lemma SlaveRespin(t: Tsm, st: SState)
    requires SlaveEntry(t, st)
    ensures SlaveAsserts(t, st) && (st == SReceivedAll ==> t.resend == [])
    ensures st == SIdle && t.recvQ != [] ==> t.sendQ == []
    ensures var r := SlaveCase(t, st);
      && SlaveEntry(r.t, r.st)
      && (r.st != st ==> |r.t.recvQ| < |t.recvQ| || (|r.t.recvQ| == |t.recvQ| && SlaveRank(r.st) < SlaveRank(st)))
      && (r.st == st ==> st == SIdle && t.recvQ == [] && r.t == t)
  {
    if t.recvQ != [] { IdIsTwoBits(t.recvQ[0]); }
    hide IsReset, TypeOf, IdOf, FrameOf;
  }

  lemma IdIsTwoBits(p: Frame)
    ensures IdOf(p) <= TRANS_ID_MAX && IdOf(p) != TRANS_ID_NONE
  {
  }

  /** The master's loop, given that a timer started in it does not expire before `limit`, by
      which the worker has returned. */
  lemma MasterRespin(t: Tsm, st: MState, now: int, limit: int)
    requires MasterEntry(t, st, limit) && now <= limit < now + LLC_TIMEOUT
    ensures MasterAsserts(t, st) && (st == MResend ==> t.resend != [])
    ensures var r := MasterCase(t, st, now);
      && MasterEntry(r.t, r.st, limit)
      && (r.st != st ==>
            || |r.t.recvQ| < |t.recvQ|
            || (|r.t.recvQ| == |t.recvQ| && Pending(r.t, r.st, limit) < Pending(t, st, limit))
            || (|r.t.recvQ| == |t.recvQ| && Pending(r.t, r.st, limit) == Pending(t, st, limit) && MasterRank(r.st) < MasterRank(st)))
      && (r.st == st ==> st == MSendAll && t.recvQ == [] && !Expired(t, now) && r.t == t)
  {
    hide IsReset, TypeOf, IdOf, FrameOf, NextTransId;
  }
}
