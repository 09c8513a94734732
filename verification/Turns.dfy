/** What whole calls of the link-control workers and of the MAC worker do to a transmitter, and what
    turns of the communication loops add up to.  The class Transmitter is proved against this. */
module Turns {

  import opened Packet
  import opened Llc
  import opened Radio
  import Protocol

  /** STK_SEND_TIMEOUT, in milliseconds. */
  const SEND_TIMEOUT := TOA_MS * 2

  // ---------------------------------------------------------------- the MAC worker

  /** A call of the radio, with the side that makes it: the bytes handed over, or what came back. */
  datatype RadioCall =
    | Sends(side: Side, p: Frame, sendTimeout: nat)
    | Listens(side: Side, timeout: nat, got: Option<Frame>)

  /** The one call a MAC worker makes. */
  function MacCall(t: Tsm, side: Side, timeout: nat, got: Option<Frame>): RadioCall {
    if t.sendQ != [] then Sends(side, t.sendQ[0], SEND_TIMEOUT) else Listens(side, timeout, got)
  }

  /** What it does to the transmitter. */
  function MacTurn(t: Tsm, got: Option<Frame>): Tsm {
    if t.sendQ != [] then Sent(t)
    else if got.Some? && Checks(got.value) then Received(PackTaken(t), got.value)
    else t
  }

  /** What a good packet is to a side: a single one, with the master's own id at the master. */
  predicate Expected(p: Frame, wanted: Option<bv8>) {
    !IsReset(p) && TypeOf(p) == TYPE_SINGLE && (wanted.Some? ==> IdOf(p) == wanted.value)
  }

  predicate GotExpected(got: Option<Frame>, wanted: Option<bv8>) {
    got.Some? && Checks(got.value) ==> Expected(got.value, wanted)
  }

  /** The transition system of Protocol makes the same of the two ends of the MAC worker. */
  lemma MacTurnIsProtocol(t: Tsm, got: Option<Frame>)
    ensures MacTurn(t, got) == Protocol.MacEnd(Protocol.MacStarted(t), if t.sendQ != [] then SendDone else RecvDone(got))
  {
    hide Checks;
  }

  /** ... and of the call: a send with a timeout, so blocking, or a receive call. */
  lemma MacCallIsProtocol(t: Tsm, side: Side, timeout: nat, got: Option<Frame>)
    ensures Protocol.MacStart(t, timeout) ==
            match MacCall(t, side, timeout, got)
            case Sends(_, p, sendTimeout) => SendEnter(p, sendTimeout > 0)
            case Listens(_, listenTimeout, _) => RecvEnter(listenTimeout)
  {
  }

  // ---------------------------------------------------------------- the master's worker

  /** The master's cases at the given times; None if one of them would read an empty resend list. */
  function MasterRun(t: Tsm, st: MState, times: seq<int>): Option<MRun> {
    if times == [] then Some(MRun(t, st))
    else
      match MasterRun(t, st, times[..|times| - 1])
      case None => None
      case Some(r) =>
        if r.st == MResend && r.t.resend == [] then None
        else Some(MasterCase(r.t, r.st, times[|times| - 1]))
  }

  /** The first k of them. */
  function MasterAfter(t: Tsm, st: MState, times: seq<int>, k: nat): Option<MRun>
    requires k <= |times|
  {
    MasterRun(t, st, times[..k])
  }

  /** Case k changes the state. */
  predicate MasterSpins(t: Tsm, st: MState, times: seq<int>, k: nat)
    requires k < |times|
  {
    var r, q := MasterAfter(t, st, times, k), MasterAfter(t, st, times, k + 1);
    r.Some? && q.Some? && r.value.st != q.value.st
  }

  /** The worker's loop: at least one case is run, all but the last change the state, the last does not. */
  predicate MasterComplete(t: Tsm, st: MState, times: seq<int>) {
    && times != [] && MasterRun(t, st, times).Some?
    && (forall k: nat :: k < |times| - 1 ==> MasterSpins(t, st, times, k))
    && !MasterSpins(t, st, times, |times| - 1)
  }

  lemma MasterRunStep(t: Tsm, st: MState, times: seq<int>, now: int)
    requires MasterRun(t, st, times).Some?
    ensures var r := MasterRun(t, st, times).value;
      MasterRun(t, st, times + [now]) ==
      if r.st == MResend && r.t.resend == [] then None else Some(MasterCase(r.t, r.st, now))
  {
    hide MasterCase;
    assert (times + [now])[..|times|] == times;
  }

  lemma NoMasterCase(t: Tsm, st: MState)
    ensures MasterRun(t, st, []) == Some(MRun(t, st))
  {
  }

  /** The loop goes on: what was run stays as it was. */
  lemma MasterSpinsOn(t: Tsm, st: MState, times: seq<int>, now: int)
    requires forall k: nat :: k < |times| ==> MasterSpins(t, st, times, k)
    requires MasterRun(t, st, times).Some? && MasterRun(t, st, times + [now]).Some?
    ensures forall k: nat :: k < |times| ==> MasterSpins(t, st, times + [now], k)
    ensures MasterSpins(t, st, times + [now], |times|) <==>
            MasterRun(t, st, times).value.st != MasterRun(t, st, times + [now]).value.st
  {
    hide MasterRun;
    var on := times + [now];
    assert on[..|times|] == times && on[..|times| + 1] == on;
    forall k: nat | k < |times|
      ensures MasterSpins(t, st, on, k)
    {
      assert on[..k] == times[..k] && on[..k + 1] == times[..k + 1];
      assert MasterSpins(t, st, times, k);
    }
  }

  /** Case k of a complete worker; only the last leaves the state. */
  lemma MasterCaseAt(t: Tsm, st: MState, times: seq<int>, k: nat)
    requires MasterComplete(t, st, times) && k < |times| && MasterAfter(t, st, times, k).Some?
    ensures var r := MasterAfter(t, st, times, k).value;
      && (r.st == MResend ==> r.t.resend != [])
      && MasterAfter(t, st, times, k + 1) == Some(MasterCase(r.t, r.st, times[k]))
      && (MasterCase(r.t, r.st, times[k]).st != r.st <==> k < |times| - 1)
  {
    hide MasterCase;
    assert times[..k + 1][..k] == times[..k];
    if k < |times| - 1 {
      assert MasterSpins(t, st, times, k);
    } else {
      assert times[..k + 1] == times;
    }
  }

  // ---------------------------------------------------------------- what it comes to

  /** A transaction was opened with the next id: one packet to send, kept for resending. */
  predicate Opened(t: Tsm, r: Tsm, from: int) {
    && r.transId == NextTransId(t.transId) && r.sendQ == [FrameOf(r.transId)] && r.resend == [FrameOf(r.transId)]
    && r.recvQ == [] && r.retries == 0 && from <= r.timerStart
  }

  /** The kept packet was queued again. */
  predicate Resent(t: Tsm, r: Tsm, from: int) {
    && t.resend != [] && r.sendQ == [t.resend[0]] && r.resend == t.resend && r.transId == t.transId
    && r.recvQ == [] && r.retries == (t.retries + 1) % 256 && from <= r.timerStart
  }

  /** The master's worker, called at now and back by limit: waiting with nothing received, it resends if
      the timer has expired, and does nothing if it has not; else it closes what is to be closed
      and opens the next transaction. */
  predicate MasterOutcome(t: Tsm, st: MState, r: Tsm, now: int, limit: int) {
    if st == MSendAll && t.recvQ == [] then
      && (Expired(t, now) ==> Resent(t, r, now))
      && (!Expired(t, limit) ==> r == t)
      && (r == t || Resent(t, r, now))
    else if st == MResend then Resent(t, r, now)
    else Opened(t, r, now)
  }

  /** The times lie within the call, which returns before a timer started in it expires. */
  predicate Within(times: seq<int>, now: int, limit: int) {
    limit < now + LLC_TIMEOUT && forall i :: 0 <= i < |times| ==> now <= times[i] <= limit
  }

  /** From the state of resending on: two cases. */
  lemma ResendsFrom(t: Tsm, st: MState, times: seq<int>, k: nat, now: int, limit: int)
    requires MasterComplete(t, st, times) && Within(times, now, limit) && k < |times|
    requires var r := MasterAfter(t, st, times, k); r.Some? && r.value.st == MResend && |r.value.t.sendQ| == 0 && r.value.t.recvQ == []
    ensures |times| == k + 2
    ensures var r, q := MasterAfter(t, st, times, k).value, MasterRun(t, st, times).value;
      q.st == MSendAll && Resent(r.t, q.t, now) && !Expired(q.t, times[|times| - 1])
  {
    hide MasterRun, MasterComplete, FrameOf, IdOf;
    MasterCaseAt(t, st, times, k);
    MasterLengths(t, st, times);
    MasterCaseAt(t, st, times, k + 1);
    assert times[..|times|] == times;
  }

  lemma MasterLengths(t: Tsm, st: MState, times: seq<int>)
    requires MasterComplete(t, st, times)
    ensures times != []
  {
  }

  /** From the idle state on: two cases. */
  lemma OpensFrom(t: Tsm, st: MState, times: seq<int>, k: nat, now: int, limit: int)
    requires MasterComplete(t, st, times) && Within(times, now, limit) && k < |times|
    requires var r := MasterAfter(t, st, times, k); r.Some? && r.value.st == MIdle && |r.value.t.sendQ| == 0 && r.value.t.recvQ == []
    ensures |times| == k + 2
    ensures var r, q := MasterAfter(t, st, times, k).value, MasterRun(t, st, times).value;
      q.st == MSendAll && Opened(r.t, q.t, now) && !Expired(q.t, times[|times| - 1])
  {
    hide MasterRun, MasterComplete, FrameOf, IdOf, NextTransId;
    MasterCaseAt(t, st, times, k);
    MasterCaseAt(t, st, times, k + 1);
    assert times[..|times|] == times;
  }

  lemma MasterOutcomeOf(t: Tsm, st: MState, times: seq<int>, now: int, limit: int)
    requires MasterEntry(t, st, limit) && MasterComplete(t, st, times) && Within(times, now, limit)
    ensures var q := MasterRun(t, st, times).value;
      q.st == MSendAll && MasterOutcome(t, st, q.t, now, limit) && !Expired(q.t, times[|times| - 1])
  {
    hide MasterRun, MasterComplete, FrameOf, IdOf, TypeOf, IsReset, NextTransId, Opened, Resent;
    MasterStarts(t, st, times);
    MasterCaseAt(t, st, times, 0);
    assert times[..|times|] == times;
    match st {
      case MIdle => OpensFrom(t, st, times, 0, now, limit);
      case MResend => ResendsFrom(t, st, times, 0, now, limit);
      case MReceivedAll => OpensFrom(t, st, times, 1, now, limit);
      case MSendAll =>
        if t.recvQ != [] {
          MasterCaseAt(t, st, times, 1);
          OpensFrom(t, st, times, 2, now, limit);
          OpenedAfterReceiving(t, MasterAfter(t, st, times, 2).value.t, MasterRun(t, st, times).value.t, now);
        } else if Expired(t, times[0]) {
          ResendsFrom(t, st, times, 1, now, limit);
        }
    }
  }

  lemma MasterStarts(t: Tsm, st: MState, times: seq<int>)
    requires MasterComplete(t, st, times)
    ensures times != [] && MasterAfter(t, st, times, 0) == Some(MRun(t, st)) && MasterRun(t, st, times).Some?
  {
  }

  lemma OpenedAfterReceiving(t: Tsm, u: Tsm, r: Tsm, now: int)
    requires Opened(u, r, now) && u.transId == t.transId
    ensures Opened(t, r, now)
  {
  }

  // ---------------------------------------------------------------- the slave's worker

  /** n cases of the slave's switch; None if one of them would read an empty resend list. */
  function SlaveRun(t: Tsm, st: SState, n: nat): Option<SRun> {
    if n == 0 then Some(SRun(t, st))
    else
      match SlaveRun(t, st, n - 1)
      case None => None
      case Some(r) => if r.st == SResend && r.t.resend == [] then None else Some(SlaveCase(r.t, r.st))
  }

  predicate SlaveSpins(t: Tsm, st: SState, k: nat) {
    var r, q := SlaveRun(t, st, k), SlaveRun(t, st, k + 1);
    r.Some? && q.Some? && r.value.st != q.value.st
  }

  /** The worker's loop, likewise. */
  predicate SlaveComplete(t: Tsm, st: SState, n: nat) {
    && n > 0 && SlaveRun(t, st, n).Some?
    && (forall k: nat :: k < n - 1 ==> SlaveSpins(t, st, k))
    && !SlaveSpins(t, st, n - 1)
  }

  lemma SlaveCaseAt(t: Tsm, st: SState, n: nat, k: nat)
    requires SlaveComplete(t, st, n) && k < n && SlaveRun(t, st, k).Some?
    ensures var r := SlaveRun(t, st, k).value;
      && (r.st == SResend ==> r.t.resend != [])
      && SlaveRun(t, st, k + 1) == Some(SlaveCase(r.t, r.st))
      && (SlaveCase(r.t, r.st).st != r.st <==> k < n - 1)
  {
    hide SlaveCase;
    if k < n - 1 { assert SlaveSpins(t, st, k); }
  }

  /** The reply to transaction id is queued and kept. */
  predicate Answered(r: Tsm, id: bv8) {
    r.transId == id && r.sendQ == [FrameOf(id)] && r.resend == [FrameOf(id)] && r.recvQ == []
  }

  /** The kept reply was queued again. */
  predicate Repeated(t: Tsm, r: Tsm) {
    && t.resend != [] && r.sendQ == [t.resend[0]] && r.resend == t.resend && r.transId == t.transId
    && r.recvQ == [] && r.retries == (t.retries + 1) % 256
  }

  /** The slave's worker, called idle: with nothing received it does nothing; a packet with its own id
      makes it repeat its reply, one with another id is accepted and answered. */
  predicate SlaveOutcome(t: Tsm, r: Tsm) {
    if t.recvQ == [] then r == t
    else if IdOf(t.recvQ[0]) == t.transId then Repeated(t, r)
    else Answered(r, IdOf(t.recvQ[0])) && r.retries == 0
  }

  lemma SlaveOutcomeOf(t: Tsm, n: nat)
    requires SlaveEntry(t, SIdle) && SlaveComplete(t, SIdle, n)
    ensures var q := SlaveRun(t, SIdle, n).value; q.st == SIdle && SlaveOutcome(t, q.t)
  {
    hide SlaveRun, SlaveComplete, FrameOf, IdOf, TypeOf, IsReset;
    SlaveStarts(t, SIdle, n);
    SlaveCaseAt(t, SIdle, n, 0);
    if t.recvQ != [] {
      IdIsTwoBits(t.recvQ[0]);
      SlaveCaseAt(t, SIdle, n, 1);
      SlaveCaseAt(t, SIdle, n, 2);
      if IdOf(t.recvQ[0]) != t.transId { SlaveCaseAt(t, SIdle, n, 3); }
    }
  }

  lemma SlaveStarts(t: Tsm, st: SState, n: nat)
    requires SlaveComplete(t, st, n)
    ensures n > 0 && SlaveRun(t, st, 0) == Some(SRun(t, st)) && SlaveRun(t, st, n).Some?
  {
  }

  // ---------------------------------------------------------------- turns of the loops

  /** One turn of a communication loop: the times of the master's cases, or their number for the
      slave, and what the MAC worker received. */
  datatype MasterTurn = MasterTurn(times: seq<int>, got: Option<Frame>)

  datatype SlaveTurn = SlaveTurn(cases: nat, got: Option<Frame>)

  /** The master after its worker, which runs to its end. */
  function MasterWorked(r: MRun, turn: MasterTurn): Option<MRun> {
    if MasterComplete(r.t, r.st, turn.times) then MasterRun(r.t, r.st, turn.times) else None
  }

  /** The master after the given turns. */
  function MasterTurns(t: Tsm, turns: seq<MasterTurn>): Option<MRun> {
    if turns == [] then Some(MRun(t, MIdle))
    else
      match MasterTurns(t, turns[..|turns| - 1])
      case None => None
      case Some(r) => AfterMasterTurn(r, turns[|turns| - 1])
  }

  function AfterMasterTurn(r: MRun, turn: MasterTurn): Option<MRun> {
    match MasterWorked(r, turn)
    case None => None
    case Some(q) => Some(MRun(MacTurn(q.t, turn.got), q.st))
  }

  /** The calls of the radio in these turns, one a turn. */
  function MasterCalls(t: Tsm, turns: seq<MasterTurn>): seq<RadioCall>
    requires MasterTurns(t, turns).Some?
  {
    if turns == [] then []
    else
      var last := turns[|turns| - 1];
      var q := MasterWorked(MasterTurns(t, turns[..|turns| - 1]).value, last).value;
      MasterCalls(t, turns[..|turns| - 1]) + [MacCall(q.t, M, Protocol.MASTER_TIMEOUT, last.got)]
  }

  function SlaveWorked(r: SRun, turn: SlaveTurn): Option<SRun> {
    if SlaveComplete(r.t, r.st, turn.cases) then SlaveRun(r.t, r.st, turn.cases) else None
  }

  /** The slave after the given turns. */
  function SlaveTurns(t: Tsm, turns: seq<SlaveTurn>): Option<SRun> {
    if turns == [] then Some(SRun(t, SIdle))
    else
      match SlaveTurns(t, turns[..|turns| - 1])
      case None => None
      case Some(r) => AfterSlaveTurn(r, turns[|turns| - 1])
  }

  function AfterSlaveTurn(r: SRun, turn: SlaveTurn): Option<SRun> {
    match SlaveWorked(r, turn)
    case None => None
    case Some(q) => Some(SRun(MacTurn(q.t, turn.got), q.st))
  }

  function SlaveCalls(t: Tsm, turns: seq<SlaveTurn>): seq<RadioCall>
    requires SlaveTurns(t, turns).Some?
  {
    if turns == [] then []
    else
      var last := turns[|turns| - 1];
      var q := SlaveWorked(SlaveTurns(t, turns[..|turns| - 1]).value, last).value;
      SlaveCalls(t, turns[..|turns| - 1]) + [MacCall(q.t, S, Protocol.SLAVE_TIMEOUT, last.got)]
  }

  lemma MasterTurnsStep(t: Tsm, turns: seq<MasterTurn>, turn: MasterTurn)
    requires MasterTurns(t, turns).Some?
    ensures MasterTurns(t, turns + [turn]) == AfterMasterTurn(MasterTurns(t, turns).value, turn)
    ensures MasterWorked(MasterTurns(t, turns).value, turn).Some? ==>
              MasterCalls(t, turns + [turn]) ==
              MasterCalls(t, turns)
              + [MacCall(MasterWorked(MasterTurns(t, turns).value, turn).value.t, M, Protocol.MASTER_TIMEOUT, turn.got)]
  {
    hide MasterWorked, MacTurn, MacCall;
    assert (turns + [turn])[..|turns|] == turns;
  }

  lemma SlaveTurnsStep(t: Tsm, turns: seq<SlaveTurn>, turn: SlaveTurn)
    requires SlaveTurns(t, turns).Some?
    ensures SlaveTurns(t, turns + [turn]) == AfterSlaveTurn(SlaveTurns(t, turns).value, turn)
    ensures SlaveWorked(SlaveTurns(t, turns).value, turn).Some? ==>
              SlaveCalls(t, turns + [turn]) ==
              SlaveCalls(t, turns)
              + [MacCall(SlaveWorked(SlaveTurns(t, turns).value, turn).value.t, S, Protocol.SLAVE_TIMEOUT, turn.got)]
  {
    hide SlaveWorked, MacTurn, MacCall;
    assert (turns + [turn])[..|turns|] == turns;
  }

  /** After its MAC worker a side is where its link control may be entered again, at any time. */
  lemma MasterTurnEntry(t: Tsm, got: Option<Frame>, before: int, after: int)
    requires MasterEntry(t, MSendAll, before) && t.recvQ == [] && GotExpected(got, Some(t.transId))
    ensures MasterEntry(MacTurn(t, got), MSendAll, after) && MacTurn(t, got).transId == t.transId
  {
    hide Checks, IsReset, TypeOf, IdOf;
  }

  lemma SlaveTurnEntry(t: Tsm, got: Option<Frame>)
    requires SlaveEntry(t, SIdle) && t.recvQ == [] && GotExpected(got, None)
    ensures SlaveEntry(MacTurn(t, got), SIdle)
  {
    hide Checks, IsReset, TypeOf, IdOf;
  }

  // ---------------------------------------------------------------- what goes on the air

  /** All that is queued or kept is the packet of the own transaction. */
  predicate OwnPackets(t: Tsm) {
    && (t.sendQ != [] || t.resend != [] ==> t.transId <= TRANS_ID_MAX)
    && (forall i :: 0 <= i < |t.sendQ| ==> t.sendQ[i] == FrameOf(t.transId))
    && (forall i :: 0 <= i < |t.resend| ==> t.resend[i] == FrameOf(t.transId))
  }

  lemma MasterKeepsOwn(t: Tsm, st: MState, r: Tsm, now: int, limit: int)
    requires OwnPackets(t) && MasterOutcome(t, st, r, now, limit)
    ensures OwnPackets(r)
  {
    hide FrameOf;
  }

  lemma SlaveKeepsOwn(t: Tsm, r: Tsm)
    requires OwnPackets(t) && SlaveOutcome(t, r)
    ensures OwnPackets(r)
  {
    hide FrameOf, IdOf;
    if t.recvQ != [] { IdIsTwoBits(t.recvQ[0]); }
  }

  lemma MacKeepsOwn(t: Tsm, got: Option<Frame>)
    requires OwnPackets(t)
    ensures OwnPackets(MacTurn(t, got))
  {
    hide FrameOf, Checks;
  }

  /** Some transaction's packet. */
  predicate IsOurs(p: Frame) { p == FrameOf(0) || p == FrameOf(1) || p == FrameOf(2) || p == FrameOf(3) }

  /** A call that sends, sends a packet of ours. */
  predicate SendsOurs(c: RadioCall) { c.Sends? ==> IsOurs(c.p) }

  lemma OwnIsOurs(t: Tsm, side: Side, timeout: nat, got: Option<Frame>)
    requires OwnPackets(t)
    ensures SendsOurs(MacCall(t, side, timeout, got))
  {
    hide FrameOf;
    if t.sendQ != [] { TwoBits(t.transId); }
  }

  lemma TwoBits(id: bv8)
    requires id <= TRANS_ID_MAX
    ensures id == 0 || id == 1 || id == 2 || id == 3
  {
  }
}
