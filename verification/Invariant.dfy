/** The inductive invariant of the protocol: what every state of every run satisfies, as long
    as the run meets its latencies. */
module Invariant {

  import opened Packet
  import opened Radio
  import opened Llc
  import opened Protocol

  // ---------------------------------------------------------------- transaction ids

  /** The 2-bit id of transaction k. */
  function IdFor(k: nat): bv8 {
    if k % 4 == 0 then 0 else if k % 4 == 1 then 1 else if k % 4 == 2 then 2 else 3
  }

  /** The packet of transaction k, the same in both directions. */
  function F(k: nat): Frame { FrameOf(IdFor(k)) }

  lemma IdFacts(k: nat)
    ensures NextTransId(IdFor(k)) == IdFor(k + 1)
    ensures IdFor(k) != IdFor(k + 1) && IdFor(k) != TRANS_ID_NONE
    ensures IdFor(0) == TRANS_ID_START
  {
  }

  lemma FrameOfK(k: nat)
    ensures Checks(F(k)) && TypeOf(F(k)) == TYPE_SINGLE && !IsReset(F(k)) && IdOf(F(k)) == IdFor(k)
    ensures F(k) == FrameOf(IdFor(k))
  {
    hide Checks, TypeOf, IsReset, IdOf, FrameOf;
    FrameFacts(IdFor(k));
  }

  // ---------------------------------------------------------------- the clauses

  /** Queues and automaton of the master: at link-control entry nothing waits to be sent and at
      most one packet was received; at MAC entry nothing is received and at most one waits. */
  predicate MasterShape(s: Sys) {
    && |s.m.sendQ| <= 1 && |s.m.recvQ| <= 1
    && (s.mst != MSendAll ==> s.mpc.Outside? && s.mAt && s.m.sendQ == [] && s.m.recvQ == [])
    && (s.m.recvQ != [] ==> s.mpc.Outside? && s.mAt && s.m.sendQ == [])
    && (s.mpc.PreCommit() || s.mpc.PostCommit() ==> s.m.sendQ != [])
    && (s.mpc.Listening() || s.mpc.RecvAudit? || s.mpc.RecvDone? ==> s.m.sendQ == [])
    && (s.mst == MReceivedAll ==> s.m.testTransId == s.m.transId)
  }

  predicate SlaveShape(s: Sys) {
    && |s.s.sendQ| <= 1 && |s.s.recvQ| <= 1
    && (s.sst != SIdle ==> s.spc.Outside? && s.sAt && s.s.recvQ == [])
    && (s.sst == SReceivedAll || s.sst == SResend ==> s.s.sendQ == [])
    && (s.sst == SSendAll ==> s.s.sendQ != [])
    && (s.s.recvQ != [] ==> s.spc.Outside? && s.sAt && s.s.sendQ == [])
    && (s.spc.PreCommit() || s.spc.PostCommit() ==> s.s.sendQ != [])
    && (s.spc.Listening() || s.spc.RecvAudit? || s.spc.RecvDone? ==> s.s.sendQ == [])
  }

  /** The thread is inside the calls its MAC worker makes, with their arguments. */
  predicate InCall(t: Tsm, pc: Pc, timeout: nat) {
    && (pc.SendEnter? || pc.SendProbe? || pc.SendFault? || pc.SendCommit? ==>
          t.sendQ == [pc.p] && pc.blocking && !pc.SendFault?)
    && (pc.RecvEnter? || pc.PollTest? || pc.PollWorker? || pc.PollRead? || pc.PollAudit? || pc.PollNap? ==>
          pc.timeout == timeout)
    && !pc.RecvFault?
  }

  /** Transaction ids and numbers. */
  predicate Numbers(s: Sys) {
    && s.m.transId == IdFor(s.h.k)
    && s.s.transId == (if s.h.j == 0 then TRANS_ID_NONE else IdFor(s.h.j))
    && s.h.j <= s.h.k <= s.h.j + 1
    && (s.h.k == 0 ==> s.mst == MIdle)
    && (s.mst == MIdle || s.mst == MReceivedAll ==> s.h.j == s.h.k)
    && (s.sst != SIdle ==> s.h.j == s.h.k >= 1)
    && (s.s.sendQ != [] && !s.spc.PostCommit() ==> s.h.j == s.h.k >= 1)
    && (!s.d.sOut.isSend || s.d.mIn.isReceived || s.m.recvQ != [] || s.mpc.Holding() ==> s.h.j == s.h.k)
    && (s.spc.Holding() || s.s.recvQ != [] || s.d.sIn.isReceived || !s.d.mOut.isSend ==> s.h.k >= 1)
  }

  /** What is kept, queued and in the radio is the packet of the current transaction, or
      something the checksum rejects. */
  predicate Contents(s: Sys) {
    && s.m.resend == (if s.h.k == 0 then [] else [F(s.h.k)])
    && s.s.resend == (if s.h.j == 0 || s.sst == SReceivedAll then [] else [F(s.h.j)])
    && (s.m.sendQ != [] ==> s.m.sendQ == [F(s.h.k)])
    && (s.m.recvQ != [] ==> s.m.recvQ == [F(s.h.k)])
    && (s.s.sendQ != [] ==> s.h.j >= 1 && (!s.spc.PostCommit() ==> s.s.sendQ == [F(s.h.j)]))
    && (s.s.recvQ != [] ==> s.s.recvQ == [F(s.h.k)])
  }

  predicate OnAir(s: Sys) {
    && (!s.d.mOut.isSend ==> s.d.mOut.data == F(s.h.k))
    && (!s.d.sOut.isSend ==> s.d.sOut.data == F(s.h.k))
    && (s.d.sIn.isReceived && Checks(s.d.sIn.data) ==> s.d.sIn.data == F(s.h.k))
    && (s.d.mIn.isReceived && Checks(s.d.mIn.data) ==> s.d.mIn.data == F(s.h.k))
    && (s.mpc.Holding() && Checks(s.mpc.Held()) ==> s.mpc.Held() == F(s.h.k))
    && (s.spc.Holding() && Checks(s.spc.Held()) ==> s.spc.Held() == F(s.h.k))
  }

  /** A pending packet is being slept on by its sender; a thread about to read saw its slot full. */
  predicate Slots(o: Out, i: In, pc: Pc, now: int) {
    && (!o.isSend ==> pc.SendNap? || pc.SendWorker?)
    && (!o.isSend && pc.SendNap? ==> pc.wake == o.sendTime + TOA)
    && (!o.isSend && pc.SendWorker? ==> o.sendTime + TOA <= now)
    && (pc.RecvCopy? || (pc.PollAudit? && pc.ready) ==> i.isReceived)
  }

  predicate OneToken(s: Sys) {
    && Tokens(s) <= 1
    && (s.mst == MResend ==> Tokens(s) == 0)
    && s.d.err == 0
  }

  predicate Timing(c: Config, s: Sys) {
    && s.h.deliveredAt <= s.now && s.h.listenFrom <= s.now
    && (!s.d.sOut.isSend ==> s.d.sOut.sendTime <= s.h.deliveredAt + c.sr)
    && (s.mpc.Listening() ==> s.h.deliveredAt <= s.h.listenFrom)
  }

  /** The poll loop has slept at least what it counts. */
  predicate Polling(s: Sys) {
    && (s.mpc.PollTest? || s.mpc.PollWorker? || s.mpc.PollRead? || s.mpc.PollAudit? ==>
          s.mpc.slept % 10 == 0 && s.mpc.slept <= 300 && s.h.listenFrom + s.mpc.slept * 1000 <= s.now)
    && (s.mpc.PollWorker? || s.mpc.PollRead? || s.mpc.PollAudit? || s.mpc.PollNap? ==> s.mpc.slept <= 290)
    && (s.mpc.PollNap? ==>
          s.mpc.slept % 10 == 0 && s.h.listenFrom + s.mpc.slept * 1000 + GRANULARITY <= s.mpc.wake)
  }

  /** After the last look into its slot, and before any resend, the master is alone: nothing of
      the transaction is left anywhere. */
  predicate Alone(s: Sys) {
    && (s.mpc.PollRead? && s.mpc.slept == 290 ==> Tokens(s) == 0 || s.d.mIn.isReceived)
    && ((s.mpc.PollAudit? && s.mpc.slept == 290 && !s.mpc.ready)
        || (s.mpc.PollNap? && s.mpc.slept == 290)
        || (s.mpc.PollTest? && s.mpc.slept == 300)
        || (s.mpc.RecvDone? && s.mpc.result.None?)
        || (s.mpc.Holding() && !Checks(s.mpc.Held()))
        || (s.mpc.Outside? && s.mAt && s.mst == MSendAll && s.m.sendQ == [] && s.m.recvQ == [] && s.h.checked)
        ==> Tokens(s) == 0)
    && (s.m.sendQ != [] ==> !s.h.checked && s.h.listens == 0)
    && (s.mst == MSendAll ==>
          && (!s.h.checked ==> s.h.listens == 0)
          && (s.mpc.Outside? && !s.mAt && s.m.sendQ == [] ==> s.h.checked)
          && (s.h.listens >= 2 || (s.mpc.Outside? && !s.mAt && s.h.listens == 1) ==> Tokens(s) == 0))
  }

  /** A damaged packet that has not been read yet. */
  predicate Doomed(s: Sys) {
    || (s.d.sIn.isReceived && !Checks(s.d.sIn.data))
    || (s.d.mIn.isReceived && !Checks(s.d.mIn.data))
  }

  /** A packet of this transaction waits for its commit. */
  predicate Waiting(s: Sys) {
    s.m.sendQ != [] && !s.mpc.PostCommit()
  }

  /** Every transmission is either still alive or was lost or damaged. */
  predicate Counts(s: Sys) {
    && (s.h.k >= 1 ==> s.h.tx + B(Waiting(s)) + B(Doomed(s)) == s.h.faults + Tokens(s))
    && (s.h.k >= 1 ==> s.h.tx + B(Waiting(s)) >= 1 && s.m.retries == (s.h.tx + B(Waiting(s)) - 1) % 256)
  }

  /** 1, 2, ..., n */
  predicate UpTo(q: seq<nat>, n: int) {
    |q| == n && forall i :: 0 <= i < n ==> q[i] == i + 1
  }

  predicate Logs(s: Sys) {
    && UpTo(s.h.accepted, s.h.j)
    && UpTo(s.h.completed, if s.mst == MIdle then s.h.k else s.h.k - 1)
  }

  predicate Inv(c: Config, s: Sys) {
    && MasterShape(s) && SlaveShape(s)
    && InCall(s.m, s.mpc, MASTER_TIMEOUT) && InCall(s.s, s.spc, SLAVE_TIMEOUT)
    && Numbers(s) && Contents(s) && OnAir(s)
    && Slots(s.d.mOut, s.d.mIn, s.mpc, s.now) && Slots(s.d.sOut, s.d.sIn, s.spc, s.now)
    && OneToken(s) && Timing(c, s) && Polling(s) && Alone(s)
    && Counts(s) && Logs(s)
  }

  lemma InitInv(c: Config, s: Sys)
    requires c.Valid() && Init(s)
    ensures Inv(c, s)
  {
    hide F, Checks;
    assert IdFor(0) == TRANS_ID_START by { IdFacts(0); }
  }

  /** Time passing moves nothing. */
  lemma TickKeepsTokens(s: Sys, now: int)
    ensures var t := s.(now := now); Tokens(t) == Tokens(s) && Doomed(t) == Doomed(s) && Waiting(t) == Waiting(s)
  {
    hide Checks;
  }

  lemma TickInv(c: Config, s: Sys, dt: nat)
    requires Inv(c, s)
    ensures Inv(c, s.(now := s.now + dt))
  {
    hide F, Checks, IdFor, Tokens, Doomed, Waiting, AtMaster, AtSlave, UpTo;
    TickKeepsTokens(s, s.now + dt);
  }
}
