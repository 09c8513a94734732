/** The link-control machines and the ends of the MAC worker keep the invariant. */
module LlcSteps {

  import opened Packet
  import opened Radio
  import opened Llc
  import opened Protocol
  import opened Invariant
  import AirSteps

  // ---------------------------------------------------------------- the master

  lemma MasterOpens(c: Config, s: Sys)
    requires c.Valid() && Inv(c, s) && s.mst == MIdle
    ensures Inv(c, MasterLlc(s))
  {
    hide F, Checks, IdFor, FrameOf, NextTransId;
    IdFacts(s.h.k);
    FrameOfK(s.h.k + 1);
  }

  lemma MasterReceives(c: Config, s: Sys)
    requires c.Valid() && Inv(c, s) && s.mst == MSendAll && s.mpc.Outside? && s.mAt && s.m.recvQ != []
    ensures Inv(c, MasterLlc(s))
  {
    hide F, Checks, IdFor, FrameOf, NextTransId, IdOf;
    FrameOfK(s.h.k);
  }

  lemma ExpiredAlone(c: Config, s: Sys)
    requires c.Valid() && Inv(c, s) && Meets(c, s)
    requires s.mst == MSendAll && s.mpc.Outside? && s.mAt && s.m.recvQ == [] && Expired(s.m, s.now)
    ensures Tokens(s) == 0 && s.m.sendQ == []
  {
    hide F, Checks, IdFor, UpTo, Numbers, Contents, OnAir, Counts, Logs, SlaveShape, AtSlave, AtMaster, Tokens,
      OneToken, Timing, Polling;
  }

  /** The master gives up waiting only when nothing of the transaction is left. */
  lemma MasterLooksAtTimer(c: Config, s: Sys)
    requires c.Valid() && Inv(c, s) && Meets(c, s)
    requires s.mst == MSendAll && s.mpc.Outside? && s.mAt && s.m.recvQ == []
    ensures Inv(c, MasterLlc(s))
  {
    hide F, Checks, IdFor, FrameOf, NextTransId, IdOf, UpTo, Tokens, Doomed, Waiting, AtMaster, AtSlave, Meets,
      Config.Valid;
    if Expired(s.m, s.now) { ExpiredAlone(c, s); }
    AirSteps.TurnsKeepTokens(s, MasterLlc(s));
  }

  lemma MasterCompletes(c: Config, s: Sys)
    requires c.Valid() && Inv(c, s) && s.mst == MReceivedAll
    ensures Inv(c, MasterLlc(s))
  {
    hide F, Checks, IdFor, FrameOf, NextTransId, IdOf;
  }

  /** The turn is the master's again: everything else of the transaction is gone. */
  lemma ResendTokens(c: Config, s: Sys)
    requires Inv(c, s) && s.mst == MResend && s.m.resend != []
    ensures var t := MasterLlc(s);
      Tokens(s) == 0 && Tokens(t) == 1 && Doomed(t) == Doomed(s) && Waiting(t) && !Waiting(s)
  {
    hide F, Checks, IdFor, Numbers, Contents, OnAir, InCall, Slots, Timing, Polling, Alone, Counts, Logs;
  }

  /** retries_num is a uint8_t. */
  lemma RetriesBump(n: nat)
    ensures (n % 256 + 1) % 256 == (n + 1) % 256
  {
  }

  lemma MasterResends(c: Config, s: Sys)
    requires c.Valid() && Inv(c, s) && s.mst == MResend && s.m.resend != []
    ensures Inv(c, MasterLlc(s))
  {
    hide F, Checks, IdFor, FrameOf, NextTransId, IdOf, Tokens, Doomed, Waiting, AtMaster, AtSlave, UpTo;
    ResendTokens(c, s);
    if s.h.k >= 1 { RetriesBump(s.h.tx + B(Waiting(s)) - 1); }
  }

  /** Entering the MAC worker leaves alone what does not follow the master's thread. */
  lemma MasterEntersMac(c: Config, s: Sys, pc: Pc, t: Tsm, h: History)
    requires Inv(c, s) && AirSteps.SameHold(s.mpc, pc) && t == s.m.(recvFree := t.recvFree)
    requires h == s.h.(listenFrom := h.listenFrom, listens := h.listens)
    ensures AirSteps.InvButMaster(c, s.(mpc := pc, m := t, h := h))
  {
    hide F, Checks, IdFor, UpTo, Tokens, Doomed, Waiting, AtMaster, AtSlave, MasterShape, InCall, Slots, Timing, Polling, Alone;
    AirSteps.TurnsKeepTokens(s, s.(mpc := pc, m := t, h := h));
  }

  lemma MasterStartsMac(c: Config, s: Sys, fm: Fate, fs: Fate, gap: nat)
    requires c.Valid() && Inv(c, s) && s.mpc.Outside? && !s.mAt
    ensures Inv(c, MasterStep(s, fm, fs, gap))
  {
    hide SlaveShape, Numbers, Contents, OnAir, OneToken, Counts, Logs, Tokens, Checks;
    MasterEntersMac(c, s, MacStart(s.m, MASTER_TIMEOUT), MacStarted(s.m), MasterStep(s, fm, fs, gap).h);
    AirSteps.TurnsKeepTokens(s, MasterStep(s, fm, fs, gap));
  }

  /** What was in hand is received, and what was sent leaves the queue: the turn stays. */
  lemma MasterEndTokens(c: Config, s: Sys, fm: Fate, fs: Fate, gap: nat)
    requires Inv(c, s) && (s.mpc.SendDone? || s.mpc.RecvDone?) && MasterCan(s)
    ensures AirSteps.SameTokens(s, MasterStep(s, fm, fs, gap))
  {
    hide F, Checks, IdFor, UpTo, Numbers, Contents, OnAir, Counts, Logs, SlaveShape, OneToken, Timing, Polling,
      Alone, Slots;
  }

  lemma MasterEndsMac(c: Config, s: Sys, fm: Fate, fs: Fate, gap: nat)
    requires c.Valid() && Inv(c, s) && (s.mpc.SendDone? || s.mpc.RecvDone?) && MasterCan(s)
    ensures Inv(c, MasterStep(s, fm, fs, gap))
  {
    hide F, Checks, IdFor, Tokens, Doomed, Waiting, AtMaster, AtSlave, UpTo;
    MasterEndTokens(c, s, fm, fs, gap);
  }

  // ---------------------------------------------------------------- the slave

  lemma SlaveAccepts(c: Config, s: Sys)
    requires c.Valid() && Inv(c, s) && s.sst == SIdle && s.spc.Outside? && s.sAt
    requires s.s.recvQ != [] && s.h.j < s.h.k
    ensures Inv(c, SlaveLlc(s))
  {
    hide F, Checks, FrameOf, IdFor, IdOf, TypeOf, IsReset;
    FrameOfK(s.h.k);
    IdFacts(s.h.j);
  }

  lemma SlaveRecognises(c: Config, s: Sys)
    requires c.Valid() && Inv(c, s) && s.sst == SIdle && s.spc.Outside? && s.sAt
    requires s.s.recvQ != [] && s.h.j == s.h.k
    ensures Inv(c, SlaveLlc(s))
  {
    hide F, Checks, FrameOf, IdFor, IdOf, TypeOf, IsReset;
    FrameOfK(s.h.k);
  }

  lemma SlaveIdles(c: Config, s: Sys)
    requires c.Valid() && Inv(c, s) && s.sst == SIdle && s.spc.Outside? && s.sAt && s.s.recvQ == []
    ensures Inv(c, SlaveLlc(s))
  {
    hide F, Checks, FrameOf, IdFor, IdOf, TypeOf, IsReset, UpTo, Tokens, Doomed, Waiting, AtMaster, AtSlave;
    AirSteps.TurnsKeepTokens(s, SlaveLlc(s));
  }

  lemma SlaveReplies(c: Config, s: Sys)
    requires c.Valid() && Inv(c, s) && s.sst == SReceivedAll
    ensures Inv(c, SlaveLlc(s))
  {
    hide F, Checks, FrameOf, IdFor, IdOf, TypeOf, IsReset;
    FrameOfK(s.h.j);
  }

  lemma SlaveSent(c: Config, s: Sys)
    requires c.Valid() && Inv(c, s) && s.sst == SSendAll
    ensures Inv(c, SlaveLlc(s))
  {
    hide F, Checks, FrameOf, IdFor, IdOf, TypeOf, IsReset;
  }

  lemma SlaveResends(c: Config, s: Sys)
    requires c.Valid() && Inv(c, s) && s.sst == SResend && s.s.resend != []
    ensures Inv(c, SlaveLlc(s))
  {
    hide F, Checks, FrameOf, IdFor, IdOf, TypeOf, IsReset;
  }

  /** Entering the MAC worker leaves alone what does not follow the slave's thread. */
  lemma SlaveEntersMac(c: Config, s: Sys, pc: Pc, t: Tsm)
    requires Inv(c, s) && AirSteps.SameHold(s.spc, pc) && t == s.s.(recvFree := t.recvFree)
    ensures AirSteps.InvButSlave(c, s.(spc := pc, s := t))
  {
    hide F, Checks, IdFor, UpTo, Tokens, Doomed, Waiting, AtMaster, AtSlave, SlaveShape, InCall, Slots;
    AirSteps.TurnsKeepTokens(s, s.(spc := pc, s := t));
  }

  lemma SlaveStartsMac(c: Config, s: Sys, fm: Fate, fs: Fate, gap: nat)
    requires c.Valid() && Inv(c, s) && s.spc.Outside? && !s.sAt
    ensures Inv(c, SlaveStep(s, fm, fs, gap))
  {
    hide MasterShape, Numbers, Contents, OnAir, OneToken, Timing, Polling, Alone, Counts, Logs;
    SlaveEntersMac(c, s, MacStart(s.s, SLAVE_TIMEOUT), MacStarted(s.s));
  }

  lemma SlaveEndTokens(c: Config, s: Sys, fm: Fate, fs: Fate, gap: nat)
    requires Inv(c, s) && (s.spc.SendDone? || s.spc.RecvDone?) && SlaveCan(s)
    ensures AirSteps.SameTokens(s, SlaveStep(s, fm, fs, gap))
  {
    hide F, Checks, IdFor, UpTo, Numbers, Contents, OnAir, Counts, Logs, MasterShape, OneToken, Timing, Polling,
      Alone, Slots;
  }

  lemma SlaveEndsSending(c: Config, s: Sys, fm: Fate, fs: Fate, gap: nat)
    requires c.Valid() && Inv(c, s) && s.spc.SendDone? && SlaveCan(s)
    ensures Inv(c, SlaveStep(s, fm, fs, gap))
  {
    hide F, Checks, IdFor, Tokens, Doomed, Waiting, AtMaster, AtSlave, UpTo;
    SlaveEndTokens(c, s, fm, fs, gap);
  }

  lemma SlaveEndsReceiving(c: Config, s: Sys, fm: Fate, fs: Fate, gap: nat)
    requires c.Valid() && Inv(c, s) && s.spc.RecvDone?
    ensures Inv(c, SlaveStep(s, fm, fs, gap))
  {
    hide F, Checks, IdFor, Tokens, Doomed, Waiting, AtMaster, AtSlave, UpTo;
    SlaveEndTokens(c, s, fm, fs, gap);
  }
}
