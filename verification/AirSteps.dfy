/** The channel finishing a transmission, and the threads moving through the radio API, keep
    the invariant. */
module AirSteps {

  import opened Crc
  import opened Packet
  import opened Detection
  import opened Radio
  import opened Llc
  import opened Protocol
  import opened Invariant

  lemma SilenceKeeps(p: Frame)
    ensures XorBytes(p, Silence()) == p
  {
    ZeroNoise(p);
  }

  /** A good packet arrives intact or so that the receiver rejects it. */
  lemma Arrival(p: Frame, f: Fate)
    requires Checks(p) && f.Arrives? && Detectable(f)
    ensures XorBytes(p, f.noise) == p || !Checks(XorBytes(p, f.noise))
  {
    hide Checks, CrcFrom;
    if f.noise == Silence() {
      SilenceKeeps(p);
    } else {
      NoiseUndetectedIff(p, f.noise);
    }
  }

  // ---------------------------------------------------------------- wl_shadow_worker

  lemma CarryMaster(c: Config, s: Sys, f: Fate)
    requires Inv(c, s) && Detectable(f)
    ensures Inv(c, Carry(s, M, f)) && !Due(Carry(s, M, f).d.mOut, s.now)
  {
    hide F, Checks, IdFor, XorBytes, CrcFrom;
    if Due(s.d.mOut, s.now) {
      FrameOfK(s.h.k);
      if f.Arrives? { Arrival(s.d.mOut.data, f); }
    }
  }

  lemma CarrySlave(c: Config, s: Sys, f: Fate)
    requires Inv(c, s) && Detectable(f)
    ensures Inv(c, Carry(s, S, f)) && !Due(Carry(s, S, f).d.sOut, s.now)
  {
    hide F, Checks, IdFor, XorBytes, CrcFrom;
    if Due(s.d.sOut, s.now) {
      FrameOfK(s.h.k);
      if f.Arrives? { Arrival(s.d.sOut.data, f); }
    }
  }

  /** The two sides never transmit at the same time. */
  lemma NoCollision(c: Config, s: Sys)
    requires Inv(c, s)
    ensures ChannelCheck(s.d) == s.d
  {
    hide F, Checks, IdFor, XorBytes, CrcFrom;
  }

  /** When the worker has run, a packet whose sender woke to see it off is no longer pending, nor is
      one of the slave's that is due now; nothing else the threads know changes but the time. */
  predicate Settled(s: Sys, t: Sys) {
    && t.now >= s.now && t.m == s.m && t.mst == s.mst && t.mAt == s.mAt && t.mpc == s.mpc
    && t.s == s.s && t.sst == s.sst && t.sAt == s.sAt && t.spc == s.spc
    && t.h == s.h.(deliveredAt := t.h.deliveredAt, faults := t.h.faults)
    && (s.mpc.SendWorker? ==> t.d.mOut.isSend) && (s.spc.SendWorker? ==> t.d.sOut.isSend)
    && !Due(t.d.sOut, t.now)
  }

  lemma WorkedInv(c: Config, s: Sys, fm: Fate, fs: Fate, gap: nat)
    requires Inv(c, s) && Detectable(fm) && Detectable(fs)
    ensures Inv(c, Worked(s, fm, fs, gap)) && Settled(s, Worked(s, fm, fs, gap))
  {
    hide Inv, Detectable, XorBytes, Checks, CrcFrom;
    CarryMaster(c, s, fm);
    var t := Carry(s, M, fm);
    TickInv(c, t, gap);
    var u := t.(now := t.now + gap);
    CarrySlave(c, u, fs);
    NoCollision(c, Carry(u, S, fs));
    WokenIsDue(c, s);
    WokenIsDue(c, u);
  }

  /** A sender that has slept its time finds its packet due, if it is still pending. */
  lemma WokenIsDue(c: Config, s: Sys)
    requires Inv(c, s)
    ensures s.mpc.SendWorker? && !s.d.mOut.isSend ==> Due(s.d.mOut, s.now)
    ensures s.spc.SendWorker? && !s.d.sOut.isSend ==> Due(s.d.sOut, s.now)
  {
    hide MasterShape, SlaveShape, InCall, Numbers, Contents, OnAir, OneToken, Timing, Polling, Alone, Counts, Logs;
  }

  // ---------------------------------------------------------------- where a thread stands

  /** A move inside the radio that neither commits nor reads leaves the token where it is. */
  predicate SameHold(p: Pc, q: Pc) {
    p.PostCommit() == q.PostCommit() && p.Holding() == q.Holding() && (p.Holding() ==> p.Held() == q.Held())
  }

  predicate SameTurns(s: Sys, t: Sys) {
    && t.d == s.d && SameHold(s.mpc, t.mpc) && SameHold(s.spc, t.spc)
    && t.m.sendQ == s.m.sendQ && t.m.recvQ == s.m.recvQ && t.s.sendQ == s.s.sendQ && t.s.recvQ == s.s.recvQ
    && (t.mst == MIdle || t.mst == MReceivedAll) == (s.mst == MIdle || s.mst == MReceivedAll)
    && (t.sst == SReceivedAll || t.sst == SResend) == (s.sst == SReceivedAll || s.sst == SResend)
  }

  predicate SameTokens(s: Sys, t: Sys) {
    Tokens(t) == Tokens(s) && Doomed(t) == Doomed(s) && Waiting(t) == Waiting(s)
  }

  lemma TurnsKeepTokens(s: Sys, t: Sys)
    requires SameTurns(s, t)
    ensures SameTokens(s, t)
  {
    hide Checks;
  }

  /** The clauses of the invariant that do not follow the slave's thread through the radio. */
  predicate InvButSlave(c: Config, s: Sys) {
    && MasterShape(s) && InCall(s.m, s.mpc, MASTER_TIMEOUT) && Numbers(s) && Contents(s) && OnAir(s)
    && Slots(s.d.mOut, s.d.mIn, s.mpc, s.now) && OneToken(s) && Timing(c, s) && Polling(s) && Alone(s) && Counts(s) && Logs(s)
  }

  /** The clauses that do not follow the master's. */
  predicate InvButMaster(c: Config, s: Sys) {
    && SlaveShape(s) && InCall(s.s, s.spc, SLAVE_TIMEOUT) && Numbers(s) && Contents(s) && OnAir(s)
    && Slots(s.d.sOut, s.d.sIn, s.spc, s.now) && OneToken(s) && Counts(s) && Logs(s)
  }

  lemma SlaveMoved(c: Config, s: Sys, pc: Pc)
    requires Inv(c, s) && SameHold(s.spc, pc)
    ensures InvButSlave(c, s.(spc := pc))
  {
    hide F, Checks, IdFor, UpTo, Tokens, Doomed, Waiting, AtMaster, AtSlave, SlaveShape, InCall, Slots;
    TurnsKeepTokens(s, s.(spc := pc));
  }

  lemma MasterMoved(c: Config, s: Sys, pc: Pc)
    requires Inv(c, s) && SameHold(s.mpc, pc)
    ensures InvButMaster(c, s.(mpc := pc))
  {
    hide F, Checks, IdFor, UpTo, Tokens, Doomed, Waiting, AtMaster, AtSlave, MasterShape, InCall, Slots, Timing,
      Polling, Alone;
    TurnsKeepTokens(s, s.(mpc := pc));
  }

  // ---------------------------------------------------------------- the master in the radio

  lemma MasterLeavesWorkerSending(c: Config, s: Sys)
    requires Inv(c, s) && (s.mpc.SendEnter? || s.mpc.SendWorker?)
    requires s.mpc.SendWorker? ==> s.d.mOut.isSend
    ensures Inv(c, s.(mpc := NextPc(s.d, s.mpc, M, s.now)))
  {
    hide SlaveShape, Numbers, Contents, OnAir, OneToken, Counts, Logs, Tokens, Checks;
    MasterMoved(c, s, NextPc(s.d, s.mpc, M, s.now));
    TurnsKeepTokens(s, s.(mpc := NextPc(s.d, s.mpc, M, s.now)));
  }

  /** When the worker of the last look has run and delivered nothing, nothing can still come. */
  lemma LastLookAlone(c: Config, s: Sys)
    requires c.Valid() && Inv(c, s) && Meets(c, s) && s.mpc.PollWorker? && s.mpc.slept == 290
    requires !Due(s.d.sOut, s.now)
    ensures Tokens(s) == 0 || s.d.mIn.isReceived
  {
    hide F, Checks, IdFor, UpTo, Numbers, Contents, OnAir, Counts, Logs, Alone, SlaveShape, AtSlave;
  }

  lemma MasterLeavesWorkerListening(c: Config, s: Sys)
    requires c.Valid() && Inv(c, s) && Meets(c, s) && (s.mpc.RecvEnter? || s.mpc.PollWorker?)
    requires !Due(s.d.sOut, s.now)
    ensures Inv(c, s.(mpc := NextPc(s.d, s.mpc, M, s.now)))
  {
    hide F, Checks, IdFor, UpTo, Tokens, Doomed, Waiting, AtMaster, AtSlave, Meets;
    if s.mpc.PollWorker? && s.mpc.slept == 290 { LastLookAlone(c, s); }
    TurnsKeepTokens(s, s.(mpc := NextPc(s.d, s.mpc, M, s.now)));
  }

  lemma MasterProbesSlot(c: Config, s: Sys, fm: Fate, fs: Fate, gap: nat)
    requires Inv(c, s) && (s.mpc.SendProbe? || s.mpc.SendFault?)
    ensures Inv(c, MasterStep(s, fm, fs, gap))
  {
    hide F, Checks, IdFor, UpTo;
  }

  lemma MasterMovesOn(c: Config, s: Sys, fm: Fate, fs: Fate, gap: nat)
    requires Inv(c, s) && Awake(s.mpc, s.now) && (s.mpc.SendNap? || s.mpc.SendAudit?)
    ensures Inv(c, MasterStep(s, fm, fs, gap))
  {
    hide SlaveShape, Numbers, Contents, OnAir, OneToken, Counts, Logs, Tokens, Checks;
    MasterMoved(c, s, NextPc(s.d, s.mpc, M, s.now));
    TurnsKeepTokens(s, s.(mpc := NextPc(s.d, s.mpc, M, s.now)));
  }

  lemma MasterTestsPoll(c: Config, s: Sys, fm: Fate, fs: Fate, gap: nat)
    requires Inv(c, s) && Awake(s.mpc, s.now) && s.mpc.PollTest?
    ensures Inv(c, MasterStep(s, fm, fs, gap))
  {
    hide SlaveShape, Numbers, Contents, OnAir, OneToken, Counts, Logs, Tokens, Checks;
    MasterMoved(c, s, NextPc(s.d, s.mpc, M, s.now));
    TurnsKeepTokens(s, s.(mpc := NextPc(s.d, s.mpc, M, s.now)));
  }

  lemma MasterReadsSlot(c: Config, s: Sys, fm: Fate, fs: Fate, gap: nat)
    requires Inv(c, s) && Awake(s.mpc, s.now) && s.mpc.PollRead?
    ensures Inv(c, MasterStep(s, fm, fs, gap))
  {
    hide SlaveShape, Numbers, Contents, OnAir, OneToken, Counts, Logs, Tokens, Checks;
    MasterMoved(c, s, NextPc(s.d, s.mpc, M, s.now));
    TurnsKeepTokens(s, s.(mpc := NextPc(s.d, s.mpc, M, s.now)));
  }

  lemma MasterWakes(c: Config, s: Sys, fm: Fate, fs: Fate, gap: nat)
    requires Inv(c, s) && Awake(s.mpc, s.now) && s.mpc.PollNap?
    ensures Inv(c, MasterStep(s, fm, fs, gap))
  {
    hide SlaveShape, Numbers, Contents, OnAir, OneToken, Counts, Logs, Tokens, Checks;
    MasterMoved(c, s, NextPc(s.d, s.mpc, M, s.now));
    TurnsKeepTokens(s, s.(mpc := NextPc(s.d, s.mpc, M, s.now)));
  }

  lemma MasterAuditsPoll(c: Config, s: Sys, fm: Fate, fs: Fate, gap: nat)
    requires Inv(c, s) && s.mpc.PollAudit?
    ensures Inv(c, MasterStep(s, fm, fs, gap))
  {
    hide SlaveShape, Numbers, Contents, OnAir, OneToken, Counts, Logs, Tokens, Checks;
    MasterMoved(c, s, NextPc(s.d, s.mpc, M, s.now));
    TurnsKeepTokens(s, s.(mpc := NextPc(s.d, s.mpc, M, s.now)));
  }

  lemma MasterLeavesReceive(c: Config, s: Sys, fm: Fate, fs: Fate, gap: nat)
    requires Inv(c, s) && (s.mpc.RecvFault? || s.mpc.RecvAudit?)
    ensures Inv(c, MasterStep(s, fm, fs, gap))
  {
    hide F, Checks, IdFor, UpTo;
  }

  lemma MasterCommits(c: Config, s: Sys, fm: Fate, fs: Fate, gap: nat)
    requires c.Valid() && Inv(c, s) && s.mpc.SendCommit?
    ensures Inv(c, MasterStep(s, fm, fs, gap))
  {
    hide F, Checks, IdFor, UpTo;
  }

  lemma MasterCopies(c: Config, s: Sys, fm: Fate, fs: Fate, gap: nat)
    requires c.Valid() && Inv(c, s) && s.mpc.RecvCopy?
    ensures Inv(c, MasterStep(s, fm, fs, gap))
  {
    hide F, Checks, IdFor, UpTo;
  }

  lemma SlaveLeavesWorkerSending(c: Config, s: Sys)
    requires Inv(c, s) && (s.spc.SendEnter? || s.spc.SendWorker?)
    requires s.spc.SendWorker? ==> s.d.sOut.isSend
    ensures Inv(c, s.(spc := NextPc(s.d, s.spc, S, s.now)))
  {
    hide MasterShape, Numbers, Contents, OnAir, OneToken, Timing, Polling, Alone, Counts, Logs;
    SlaveMoved(c, s, NextPc(s.d, s.spc, S, s.now));
  }

  lemma SlaveLeavesWorkerListening(c: Config, s: Sys)
    requires c.Valid() && Inv(c, s) && (s.spc.RecvEnter? || s.spc.PollWorker?)
    ensures Inv(c, s.(spc := NextPc(s.d, s.spc, S, s.now)))
  {
    hide MasterShape, Numbers, Contents, OnAir, OneToken, Timing, Polling, Alone, Counts, Logs;
    SlaveMoved(c, s, NextPc(s.d, s.spc, S, s.now));
  }

  lemma SlaveProbesSlot(c: Config, s: Sys, fm: Fate, fs: Fate, gap: nat)
    requires Inv(c, s) && (s.spc.SendProbe? || s.spc.SendFault?)
    ensures Inv(c, SlaveStep(s, fm, fs, gap))
  {
    hide F, Checks, IdFor, UpTo;
  }

  lemma SlaveMovesOn(c: Config, s: Sys, fm: Fate, fs: Fate, gap: nat)
    requires Inv(c, s) && Awake(s.spc, s.now) && (s.spc.SendNap? || s.spc.SendAudit?)
    ensures Inv(c, SlaveStep(s, fm, fs, gap))
  {
    hide MasterShape, Numbers, Contents, OnAir, OneToken, Timing, Polling, Alone, Counts, Logs;
    SlaveMoved(c, s, NextPc(s.d, s.spc, S, s.now));
  }

  lemma SlaveTestsPoll(c: Config, s: Sys, fm: Fate, fs: Fate, gap: nat)
    requires Inv(c, s) && Awake(s.spc, s.now) && s.spc.PollTest?
    ensures Inv(c, SlaveStep(s, fm, fs, gap))
  {
    hide MasterShape, Numbers, Contents, OnAir, OneToken, Timing, Polling, Alone, Counts, Logs;
    SlaveMoved(c, s, NextPc(s.d, s.spc, S, s.now));
  }

  lemma SlaveReadsSlot(c: Config, s: Sys, fm: Fate, fs: Fate, gap: nat)
    requires Inv(c, s) && Awake(s.spc, s.now) && s.spc.PollRead?
    ensures Inv(c, SlaveStep(s, fm, fs, gap))
  {
    hide MasterShape, Numbers, Contents, OnAir, OneToken, Timing, Polling, Alone, Counts, Logs;
    SlaveMoved(c, s, NextPc(s.d, s.spc, S, s.now));
  }

  lemma SlaveWakes(c: Config, s: Sys, fm: Fate, fs: Fate, gap: nat)
    requires Inv(c, s) && Awake(s.spc, s.now) && s.spc.PollNap?
    ensures Inv(c, SlaveStep(s, fm, fs, gap))
  {
    hide MasterShape, Numbers, Contents, OnAir, OneToken, Timing, Polling, Alone, Counts, Logs;
    SlaveMoved(c, s, NextPc(s.d, s.spc, S, s.now));
  }

  lemma SlaveAuditsPoll(c: Config, s: Sys, fm: Fate, fs: Fate, gap: nat)
    requires Inv(c, s) && s.spc.PollAudit?
    ensures Inv(c, SlaveStep(s, fm, fs, gap))
  {
    hide MasterShape, Numbers, Contents, OnAir, OneToken, Timing, Polling, Alone, Counts, Logs;
    SlaveMoved(c, s, NextPc(s.d, s.spc, S, s.now));
  }

  lemma SlaveLeavesReceive(c: Config, s: Sys, fm: Fate, fs: Fate, gap: nat)
    requires Inv(c, s) && (s.spc.RecvFault? || s.spc.RecvAudit?)
    ensures Inv(c, SlaveStep(s, fm, fs, gap))
  {
    hide F, Checks, IdFor, UpTo;
  }

  lemma SlaveCommits(c: Config, s: Sys, fm: Fate, fs: Fate, gap: nat)
    requires c.Valid() && Inv(c, s) && Meets(c, s) && s.spc.SendCommit?
    ensures Inv(c, SlaveStep(s, fm, fs, gap))
  {
    hide F, Checks, IdFor, UpTo;
  }

  lemma SlaveCopies(c: Config, s: Sys, fm: Fate, fs: Fate, gap: nat)
    requires c.Valid() && Inv(c, s) && s.spc.RecvCopy?
    ensures Inv(c, SlaveStep(s, fm, fs, gap))
  {
    hide F, Checks, IdFor, UpTo;
  }
}
