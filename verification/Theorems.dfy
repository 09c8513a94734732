/** What holds over whole runs of the two communication loops. */
module Theorems {

  import opened Packet
  import opened Radio
  import opened Llc
  import opened Protocol
  import opened Invariant
  import AirSteps
  import LlcSteps
  import Timer

  // ---------------------------------------------------------------- every step keeps the invariant

  lemma MasterStepInv(c: Config, s: Sys, fm: Fate, fs: Fate, gap: nat)
    requires c.Valid() && Inv(c, s) && Meets(c, s) && Enabled(s, Master(fm, fs, gap))
    requires Meets(c, MasterStep(s, fm, fs, gap))
    ensures Inv(c, MasterStep(s, fm, fs, gap))
  {
    hide Inv, Meets, Detectable, Checks, F;
    match s.mpc {
      case Outside =>
        if !s.mAt { LlcSteps.MasterStartsMac(c, s, fm, fs, gap); }
        else { MasterLlcInv(c, s); }
      case SendEnter(_, _) => MasterWorks(c, s, fm, fs, gap);
      case SendWorker => MasterWorks(c, s, fm, fs, gap);
      case RecvEnter(_) => MasterWorks(c, s, fm, fs, gap);
      case PollWorker(_, _) => MasterWorks(c, s, fm, fs, gap);
      case SendProbe(_, _) => AirSteps.MasterProbesSlot(c, s, fm, fs, gap);
      case SendFault(_, _) => AirSteps.MasterProbesSlot(c, s, fm, fs, gap);
      case SendNap(_) => AirSteps.MasterMovesOn(c, s, fm, fs, gap);
      case SendAudit => AirSteps.MasterMovesOn(c, s, fm, fs, gap);
      case SendCommit(_, _, _) => AirSteps.MasterCommits(c, s, fm, fs, gap);
      case PollTest(_, _) => AirSteps.MasterTestsPoll(c, s, fm, fs, gap);
      case PollRead(_, _) => AirSteps.MasterReadsSlot(c, s, fm, fs, gap);
      case PollNap(_, _, _) => AirSteps.MasterWakes(c, s, fm, fs, gap);
      case PollAudit(_, _, _) => AirSteps.MasterAuditsPoll(c, s, fm, fs, gap);
      case RecvFault => AirSteps.MasterLeavesReceive(c, s, fm, fs, gap);
      case RecvAudit(_) => AirSteps.MasterLeavesReceive(c, s, fm, fs, gap);
      case RecvCopy => AirSteps.MasterCopies(c, s, fm, fs, gap);
      case SendDone => LlcSteps.MasterEndsMac(c, s, fm, fs, gap);
      case RecvDone(_) => LlcSteps.MasterEndsMac(c, s, fm, fs, gap);
    }
  }

  lemma MasterLlcInv(c: Config, s: Sys)
    requires c.Valid() && Inv(c, s) && Meets(c, s) && MasterCan(s) && s.mpc.Outside? && s.mAt
    ensures Inv(c, MasterLlc(s))
  {
    hide Inv, Meets, MasterLlc;
    match s.mst {
      case MIdle => LlcSteps.MasterOpens(c, s);
      case MReceivedAll => LlcSteps.MasterCompletes(c, s);
      case MResend => LlcSteps.MasterResends(c, s);
      case MSendAll =>
        if s.m.recvQ != [] { LlcSteps.MasterReceives(c, s); } else { LlcSteps.MasterLooksAtTimer(c, s); }
    }
  }

  /** The latencies do not ask where the master's thread is in the radio. */
  lemma MeetsAnywhere(c: Config, s: Sys, pc: Pc)
    ensures Meets(c, s.(mpc := pc)) <==> Meets(c, s)
  {
    hide Checks;
  }

  lemma MasterWorks(c: Config, s: Sys, fm: Fate, fs: Fate, gap: nat)
    requires c.Valid() && Inv(c, s) && Detectable(fm) && Detectable(fs) && RunsWorker(s.mpc)
    requires Meets(c, MasterStep(s, fm, fs, gap))
    ensures Inv(c, MasterStep(s, fm, fs, gap))
  {
    hide Inv, Meets, Detectable, Worked, Checks, F;
    AirSteps.WorkedInv(c, s, fm, fs, gap);
    var t := Worked(s, fm, fs, gap);
    MeetsAnywhere(c, t, NextPc(s.d, s.mpc, M, s.now));
    if s.mpc.SendEnter? || s.mpc.SendWorker? {
      AirSteps.MasterLeavesWorkerSending(c, t);
    } else {
      AirSteps.MasterLeavesWorkerListening(c, t);
    }
  }

  lemma NumbersInOrder(c: Config, s: Sys)
    requires Inv(c, s)
    ensures s.h.j <= s.h.k
  {
    hide F, Checks, IdFor;
  }

  lemma SlaveStepInv(c: Config, s: Sys, fm: Fate, fs: Fate, gap: nat)
    requires c.Valid() && Inv(c, s) && Meets(c, s) && Enabled(s, Slave(fm, fs, gap))
    ensures Inv(c, SlaveStep(s, fm, fs, gap))
  {
    hide Inv, Meets, Detectable, Checks, F;
    match s.spc {
      case Outside =>
        if !s.sAt { LlcSteps.SlaveStartsMac(c, s, fm, fs, gap); }
        else {
          match s.sst {
            case SIdle =>
              if s.s.recvQ == [] { LlcSteps.SlaveIdles(c, s); }
              else if s.h.j < s.h.k { LlcSteps.SlaveAccepts(c, s); }
              else { NumbersInOrder(c, s); LlcSteps.SlaveRecognises(c, s); }
            case SReceivedAll => LlcSteps.SlaveReplies(c, s);
            case SSendAll => LlcSteps.SlaveSent(c, s);
            case SResend => LlcSteps.SlaveResends(c, s);
          }
        }
      case SendEnter(_, _) => SlaveWorks(c, s, fm, fs, gap);
      case SendWorker => SlaveWorks(c, s, fm, fs, gap);
      case RecvEnter(_) => SlaveWorks(c, s, fm, fs, gap);
      case PollWorker(_, _) => SlaveWorks(c, s, fm, fs, gap);
      case SendProbe(_, _) => AirSteps.SlaveProbesSlot(c, s, fm, fs, gap);
      case SendFault(_, _) => AirSteps.SlaveProbesSlot(c, s, fm, fs, gap);
      case SendNap(_) => AirSteps.SlaveMovesOn(c, s, fm, fs, gap);
      case SendAudit => AirSteps.SlaveMovesOn(c, s, fm, fs, gap);
      case SendCommit(_, _, _) => AirSteps.SlaveCommits(c, s, fm, fs, gap);
      case PollTest(_, _) => AirSteps.SlaveTestsPoll(c, s, fm, fs, gap);
      case PollRead(_, _) => AirSteps.SlaveReadsSlot(c, s, fm, fs, gap);
      case PollNap(_, _, _) => AirSteps.SlaveWakes(c, s, fm, fs, gap);
      case PollAudit(_, _, _) => AirSteps.SlaveAuditsPoll(c, s, fm, fs, gap);
      case RecvFault => AirSteps.SlaveLeavesReceive(c, s, fm, fs, gap);
      case RecvAudit(_) => AirSteps.SlaveLeavesReceive(c, s, fm, fs, gap);
      case RecvCopy => AirSteps.SlaveCopies(c, s, fm, fs, gap);
      case SendDone => LlcSteps.SlaveEndsSending(c, s, fm, fs, gap);
      case RecvDone(_) => LlcSteps.SlaveEndsReceiving(c, s, fm, fs, gap);
    }
  }

  lemma SlaveWorks(c: Config, s: Sys, fm: Fate, fs: Fate, gap: nat)
    requires c.Valid() && Inv(c, s) && Detectable(fm) && Detectable(fs) && RunsWorker(s.spc)
    ensures Inv(c, SlaveStep(s, fm, fs, gap))
  {
    hide Inv, Meets, Detectable, Worked, Checks, F;
    AirSteps.WorkedInv(c, s, fm, fs, gap);
    var t := Worked(s, fm, fs, gap);
    if s.spc.SendEnter? || s.spc.SendWorker? {
      AirSteps.SlaveLeavesWorkerSending(c, t);
    } else {
      AirSteps.SlaveLeavesWorkerListening(c, t);
    }
  }

  lemma StepInv(c: Config, s: Sys, a: Action)
    requires c.Valid() && Inv(c, s) && Meets(c, s) && Enabled(s, a) && Meets(c, Apply(s, a))
    ensures Inv(c, Apply(s, a))
  {
    hide Inv, Meets, Detectable, MasterStep, SlaveStep;
    match a {
      case Tick(dt) => TickInv(c, s, dt);
      case Master(fm, fs, gap) => MasterStepInv(c, s, fm, fs, gap);
      case Slave(fm, fs, gap) => SlaveStepInv(c, s, fm, fs, gap);
    }
  }

  // ---------------------------------------------------------------- runs

  /** A run: it starts as the program starts, each state follows from the one before, the
      corruption on the air is the detectable kind, and the latencies are met throughout. */
  predicate IsRun(c: Config, run: seq<Sys>, acts: seq<Action>) {
    && |run| == |acts| + 1
    && Init(run[0])
    && (forall i :: 0 <= i < |acts| ==> Enabled(run[i], acts[i]) && run[i + 1] == Apply(run[i], acts[i]))
    && (forall i :: 0 <= i < |run| ==> Meets(c, run[i]))
  }

  lemma {:induction false} RunInv(c: Config, run: seq<Sys>, acts: seq<Action>, i: nat)
    requires c.Valid() && IsRun(c, run, acts) && i < |run|
    ensures Inv(c, run[i])
  {
    hide Inv, Meets, Enabled, Apply, Init;
    if i == 0 {
      InitInv(c, run[0]);
    } else {
      RunInv(c, run, acts, i - 1);
      assert run[i - 1 + 1] == Apply(run[i - 1], acts[i - 1]);
      StepInv(c, run[i - 1], acts[i - 1]);
    }
  }

  // ---------------------------------------------------------------- the packet pools

  /** The ten send packs are in the pool or kept for resending; the ten receive packs are in the
      pool, received, or in the hands of the MAC worker's reception. */
  predicate Stock(t: Tsm, pc: Pc) {
    && t.sendFree + |t.resend| == POOL_SIZE
    && t.recvFree + |t.recvQ| + B(pc.Listening() || pc.RecvAudit? || pc.RecvDone?) == POOL_SIZE
  }

  lemma LlcStock(s: Sys)
    ensures Stock(s.m, Outside) && (s.mst == MResend ==> s.m.resend != []) ==> Stock(MasterLlc(s).m, Outside)
    ensures Stock(s.s, Outside) && (s.sst == SResend ==> s.s.resend != []) ==> Stock(SlaveLlc(s).s, Outside)
  {
    hide IdOf, TypeOf, IsReset, FrameOf, NextTransId;
  }

  /** The worker changes neither threads nor queues. */
  lemma WorkedKeepsThreads(s: Sys, fm: Fate, fs: Fate, gap: nat)
    ensures var t := Worked(s, fm, fs, gap); t.m == s.m && t.mpc == s.mpc && t.s == s.s && t.spc == s.spc
  {
    hide Targ, ChannelCheck, Observe;
  }

  lemma MasterStock(s: Sys, fm: Fate, fs: Fate, gap: nat)
    requires Stock(s.m, s.mpc) && MasterCan(s)
    ensures var t := MasterStep(s, fm, fs, gap); Stock(t.m, t.mpc) && t.s == s.s && t.spc == s.spc
  {
    hide Checks, Worked, MasterCase, Move;
    LlcStock(s);
    WorkedKeepsThreads(s, fm, fs, gap);
  }

  lemma SlaveStock(s: Sys, fm: Fate, fs: Fate, gap: nat)
    requires Stock(s.s, s.spc) && SlaveCan(s)
    ensures var t := SlaveStep(s, fm, fs, gap); Stock(t.s, t.spc) && t.m == s.m && t.mpc == s.mpc
  {
    hide Checks, Worked, SlaveCase, Move;
    LlcStock(s);
    WorkedKeepsThreads(s, fm, fs, gap);
  }

  lemma StepStock(s: Sys, a: Action)
    requires Stock(s.m, s.mpc) && Stock(s.s, s.spc) && Enabled(s, a)
    ensures Stock(Apply(s, a).m, Apply(s, a).mpc) && Stock(Apply(s, a).s, Apply(s, a).spc)
  {
    hide Stock, MasterStep, SlaveStep, Detectable, MasterCan, SlaveCan;
    match a {
      case Tick(_) =>
      case Master(fm, fs, gap) => MasterStock(s, fm, fs, gap);
      case Slave(fm, fs, gap) => SlaveStock(s, fm, fs, gap);
    }
  }

  lemma {:induction false} RunStock(c: Config, run: seq<Sys>, acts: seq<Action>, i: nat)
    requires IsRun(c, run, acts) && i < |run|
    ensures Stock(run[i].m, run[i].mpc) && Stock(run[i].s, run[i].spc)
  {
    hide Meets, Enabled, Apply;
    if i > 0 {
      hide Stock, Init;
      RunStock(c, run, acts, i - 1);
      StepStock(run[i - 1], acts[i - 1]);
    }
  }

  // ---------------------------------------------------------------- the slave's replies

  /** A reply is queued and not yet on the air. */
  predicate ReplyWaits(s: Sys) { s.s.sendQ != [] && !s.spc.PostCommit() }

  /** The slave's retries_num counts its replies but the first, modulo 256. */
  predicate RepliesCounted(s: Sys) {
    s.h.j >= 1 ==>
      if s.sst == SReceivedAll then s.h.replies == 0 && s.s.retries == 0
      else AllButOne(s.s.retries, s.h.replies + B(ReplyWaits(s)))
  }

  predicate AllButOne(retries: nat, n: nat) { n >= 1 && retries == (n - 1) % 256 }

  lemma OnlyOne()
    ensures AllButOne(0, 1)
  {
  }

  lemma OneMore(retries: nat, n: nat)
    requires AllButOne(retries, n)
    ensures AllButOne((retries + 1) % 256, n + 1)
  {
  }

  lemma SlaveCaseReplies(c: Config, s: Sys)
    requires Inv(c, s) && RepliesCounted(s) && s.spc.Outside? && s.sAt && SlaveCan(s)
    ensures RepliesCounted(SlaveLlc(s))
  {
    hide F, Checks, IdFor, IdOf, TypeOf, IsReset, FrameOf, MasterShape, InCall, Numbers, OnAir, Slots, OneToken, Timing, Polling,
      Alone, Counts, Logs, AllButOne;
    FrameOfK(s.h.k);
    if s.sst == SReceivedAll { OnlyOne(); }
    if s.sst == SResend { OneMore(s.s.retries, s.h.replies); }
  }

  /** Inside the radio a reply stops waiting when it is committed. */
  lemma SlaveMoveReplies(c: Config, s: Sys, fm: Fate, fs: Fate, gap: nat)
    requires Inv(c, s) && RepliesCounted(s) && SlaveCan(s) && !(s.spc.Outside? && s.sAt)
    ensures RepliesCounted(SlaveStep(s, fm, fs, gap))
  {
    hide F, Checks, IdFor, MasterShape, Numbers, Contents, OnAir, Slots, OneToken, Timing, Polling, Alone, Counts, Logs, Worked, Move;
    if RunsWorker(s.spc) { WorkedKeepsReplies(s, fm, fs, gap); }
  }

  lemma WorkedKeepsReplies(s: Sys, fm: Fate, fs: Fate, gap: nat)
    ensures var t := Worked(s, fm, fs, gap);
      t.s == s.s && t.sst == s.sst && t.spc == s.spc && t.h.replies == s.h.replies && t.h.j == s.h.j
  {
    hide Targ, ChannelCheck, Checks;
  }

  lemma OthersLeaveReplies(s: Sys, a: Action)
    requires Enabled(s, a) && !a.Slave? && RepliesCounted(s)
    ensures RepliesCounted(Apply(s, a))
  {
    hide Checks, Worked, MasterCase, Move, Detectable, AllButOne;
    if a.Master? { WorkedKeepsReplies(s, a.fm, a.fs, a.gap); }
  }

  lemma StepReplies(c: Config, s: Sys, a: Action)
    requires Inv(c, s) && RepliesCounted(s) && Enabled(s, a)
    ensures RepliesCounted(Apply(s, a))
  {
    hide Inv, RepliesCounted, SlaveLlc, Detectable, SlaveCan, MasterCan, MasterStep, Worked, Move;
    if !a.Slave? { OthersLeaveReplies(s, a); }
    else if s.spc.Outside? && s.sAt { SlaveCaseReplies(c, s); }
    else { SlaveMoveReplies(c, s, a.fm, a.fs, a.gap); }
  }

  lemma {:induction false} RunReplies(c: Config, run: seq<Sys>, acts: seq<Action>, i: nat)
    requires c.Valid() && IsRun(c, run, acts) && i < |run|
    ensures RepliesCounted(run[i])
  {
    hide Meets, Enabled, Apply, Inv;
    if i > 0 {
      hide RepliesCounted, Init;
      RunReplies(c, run, acts, i - 1);
      RunInv(c, run, acts, i - 1);
      StepReplies(c, run[i - 1], acts[i - 1]);
    }
  }

  // ---------------------------------------------------------------- the protocol's promises

  lemma IdIsRemainder(k: nat)
    ensures IdFor(k) as int == k % 4
  {
  }

  /** Transactions happen exactly once and in order: the slave accepts 1, 2, 3, ... without gap or
      repetition, each while the master is in that very transaction; the master finishes 1, 2,
      3, ..., each after the slave has accepted it; the ids are the numbers modulo 4. */
  lemma ExactlyOnce(c: Config, run: seq<Sys>, acts: seq<Action>, i: nat)
    requires c.Valid() && IsRun(c, run, acts) && i < |run|
    ensures var s := run[i];
      && s.h.k - 1 <= s.h.j <= s.h.k
      && |s.h.accepted| == s.h.j && (forall n :: 0 <= n < s.h.j ==> s.h.accepted[n] == n + 1)
      && s.h.k - 1 <= |s.h.completed| <= s.h.j
      && (forall n :: 0 <= n < |s.h.completed| ==> s.h.completed[n] == n + 1)
      && s.m.transId as int == s.h.k % 4
      && (if s.h.j == 0 then s.s.transId == TRANS_ID_NONE else s.s.transId as int == s.h.j % 4)
  {
    hide F, Checks, IdFor, Meets, Init, Enabled, Apply, Tokens, AtMaster, AtSlave;
    RunInv(c, run, acts, i);
    IdIsRemainder(run[i].h.k);
    IdIsRemainder(run[i].h.j);
  }

  /** The turn is in one place at a time, so the radio never counts an error: the two sides are
      never both transmitting, nothing reaches a full input slot, nothing is sent over an
      unsent packet. */
  lemma NoChannelError(c: Config, run: seq<Sys>, acts: seq<Action>, i: nat)
    requires c.Valid() && IsRun(c, run, acts) && i < |run|
    ensures var s := run[i];
      && s.d.err == 0
      && Tokens(s) <= 1
      && (s.d.mOut.isSend || s.d.sOut.isSend)
      && (!s.d.mOut.isSend ==> !s.d.sIn.isReceived)
      && (!s.d.sOut.isSend ==> !s.d.mIn.isReceived)
      && (s.mpc.PreCommit() ==> s.d.mOut.isSend)
      && (s.spc.PreCommit() ==> s.d.sOut.isSend)
  {
    hide F, Checks, IdFor, Meets, Init, Enabled, Apply, AtMaster, AtSlave;
    RunInv(c, run, acts, i);
  }

  /** Every condition under pr_assert that a thread is about to evaluate holds: those of the two
      link-control machines, the two packet pools not being empty where a pack is allocated,
      the empty queue at each commit, and the non-empty queue when the sent packet is taken
      off it.  In particular the workers are entered as Llc.MasterRespin,
      Llc.SlaveRespin and the methods of Transmitters require. */
  lemma AssertionsHold(c: Config, run: seq<Sys>, acts: seq<Action>, i: nat)
    requires c.Valid() && IsRun(c, run, acts) && i < |run|
    ensures var s := run[i];
      && (s.mpc.Outside? && s.mAt ==> MasterAsserts(s.m, s.mst) && MasterEntry(s.m, s.mst, s.now))
      && (s.spc.Outside? && s.sAt ==> SlaveAsserts(s.s, s.sst) && SlaveEntry(s.s, s.sst))
      && (s.mpc.PreCommit() || s.mpc.PostCommit() ==> |s.m.sendQ| == 1)
      && (s.spc.PreCommit() || s.spc.PostCommit() ==> |s.s.sendQ| == 1)
      && (s.mpc.Outside? && !s.mAt && s.m.sendQ == [] ==> s.m.recvFree > 0)
      && (s.spc.Outside? && !s.sAt && s.s.sendQ == [] ==> s.s.recvFree > 0)
      && (s.mpc.RecvDone? ==> s.m.recvQ == [])
      && (s.spc.RecvDone? ==> s.s.recvQ == [])
  {
    RunInv(c, run, acts, i);
    RunStock(c, run, acts, i);
    if run[i].mpc.Outside? && run[i].mAt { MasterAssertionsHold(c, run[i]); }
    if run[i].spc.Outside? && run[i].sAt { SlaveAssertionsHold(c, run[i]); }
    hide F, Checks, IdFor, IdOf, TypeOf, IsReset, Init, Enabled, Apply, FrameOf, Numbers, Contents, OnAir, Slots, OneToken, Timing,
      Polling, Counts, Logs, Alone, MasterAsserts, SlaveAsserts, MasterEntry, SlaveEntry;
  }

  lemma MasterAssertionsHold(c: Config, s: Sys)
    requires c.Valid() && Inv(c, s) && Meets(c, s) && Stock(s.m, s.mpc) && s.mpc.Outside? && s.mAt
    ensures MasterAsserts(s.m, s.mst) && MasterEntry(s.m, s.mst, s.now)
  {
    FrameOfK(s.h.k);
    hide F, Checks, IdFor, IdOf, TypeOf, IsReset, FrameOf, OnAir, Slots, Timing, Polling, Counts, Logs, AtMaster, AtSlave, Tokens,
      SlaveShape, InCall;
    assert s.mst == MResend ==> s.h.k >= 1;
  }

  lemma SlaveAssertionsHold(c: Config, s: Sys)
    requires Inv(c, s) && Stock(s.s, s.spc) && s.spc.Outside? && s.sAt
    ensures SlaveAsserts(s.s, s.sst) && SlaveEntry(s.s, s.sst)
  {
    IdFacts(s.h.k);
    FrameOfK(s.h.k);
    hide F, Checks, IdFor, IdOf, TypeOf, IsReset, FrameOf, OnAir, Slots, Timing, Polling, Counts, Logs, Alone, AtMaster, AtSlave, Tokens,
      MasterShape, InCall;
    assert s.sst == SResend ==> s.h.j >= 1;
  }

  /** No thread is ever stuck for want of a packet: a thread that is awake can move. */
  lemma NeverStuck(c: Config, run: seq<Sys>, acts: seq<Action>, i: nat)
    requires c.Valid() && IsRun(c, run, acts) && i < |run|
    ensures MasterCan(run[i]) <==> Awake(run[i].mpc, run[i].now)
    ensures SlaveCan(run[i]) <==> Awake(run[i].spc, run[i].now)
  {
    hide F, Checks, IdFor, Meets, Init, Enabled, Apply, Tokens, AtMaster, AtSlave;
    RunInv(c, run, acts, i);
  }

  /** All transmissions of a transaction, and all its replies, are the same bytes: the packet of
      id k mod 4 with its checksum. */
  lemma SameBytes(c: Config, run: seq<Sys>, acts: seq<Action>, i: nat)
    requires c.Valid() && IsRun(c, run, acts) && i < |run|
    ensures var s := run[i];
      && (s.mpc.SendCommit? ==> s.mpc.p == FrameOf(s.m.transId))
      && (s.spc.SendCommit? ==> s.spc.p == FrameOf(s.m.transId))
      && (s.mpc.RecvDone? && s.mpc.Holding() && Checks(s.mpc.Held()) ==> s.mpc.Held() == FrameOf(s.m.transId))
      && (s.spc.RecvDone? && s.spc.Holding() && Checks(s.spc.Held()) ==> s.spc.Held() == FrameOf(s.m.transId))
  {
    hide F, Checks, IdFor, Meets, Init, Enabled, Apply, FrameOf;
    RunInv(c, run, acts, i);
    FrameOfK(run[i].h.k);
  }

  /** Each packet lost or damaged, either way, costs exactly one more transmission; when the
      reply is in hand retries_num is the number of transmissions minus one, modulo 256. */
  lemma OneResendPerFault(c: Config, run: seq<Sys>, acts: seq<Action>, i: nat)
    requires c.Valid() && IsRun(c, run, acts) && i < |run|
    ensures var s := run[i];
      && (s.h.k >= 1 ==> s.h.tx <= s.h.faults + 1)
      && (s.mst == MReceivedAll ==> s.h.tx == s.h.faults + 1 && s.m.retries == (s.h.tx - 1) % 256)
  {
    hide F, Checks, IdFor, Meets, Init, Enabled, Apply;
    RunInv(c, run, acts, i);
  }

  /** At the slave, whenever no reply waits to be sent, retries_num is the number of replies it put on
      the air in its transaction minus one, modulo 256: the repeated answers. */
  lemma RepeatedAnswersCounted(c: Config, run: seq<Sys>, acts: seq<Action>, i: nat)
    requires c.Valid() && IsRun(c, run, acts) && i < |run|
    ensures var s := run[i];
      s.h.j >= 1 && s.sst == SIdle && !ReplyWaits(s) ==> s.h.replies >= 1 && s.s.retries == (s.h.replies - 1) % 256
  {
    hide IsRun;
    RunReplies(c, run, acts, i);
  }

  /** The master's receive calls last 300 ms, thirty looks; the slave's 100 s, ten thousand. */
  lemma ListeningTimes(c: Config, run: seq<Sys>, acts: seq<Action>, i: nat)
    requires c.Valid() && IsRun(c, run, acts) && i < |run|
    ensures var s := run[i];
      && (s.mpc.RecvEnter? || s.mpc.PollTest? || s.mpc.PollWorker? || s.mpc.PollRead? || s.mpc.PollAudit? || s.mpc.PollNap? ==>
            s.mpc.timeout == 300 && Timer.Looks(s.mpc.timeout) == 30)
      && (s.spc.RecvEnter? || s.spc.PollTest? || s.spc.PollWorker? || s.spc.PollRead? || s.spc.PollAudit? || s.spc.PollNap? ==>
            s.spc.timeout == 100_000 && Timer.Looks(s.spc.timeout) == 10_000)
  {
    hide MasterShape, SlaveShape, Numbers, Contents, OnAir, Slots, OneToken, Timing, Polling, Alone, Counts, Logs, Meets, Init, Enabled, Apply;
    RunInv(c, run, acts, i);
  }

  /** The history apart, the worker of a run does to the record what one locked section does. */
  lemma WorkedIsShadowWorker(s: Sys, fm: Fate, fs: Fate, gap: nat)
    ensures Worked(s, fm, fs, gap).d == ShadowWorker(s.d, s.now, s.now + gap, fm, fs)
  {
    hide Targ, ChannelCheck, Observe;
  }

  /** The master decides to resend only when nothing of the transaction is left: no packet or reply
      in flight, in a slot or in a thread's hands. */
  lemma TimeoutMeansAlone(c: Config, run: seq<Sys>, acts: seq<Action>, i: nat)
    requires c.Valid() && IsRun(c, run, acts) && i < |run|
    ensures var s := run[i];
      s.mst == MResend ==>
        && s.d.mOut.isSend && !s.d.sIn.isReceived && s.d.sOut.isSend && !s.d.mIn.isReceived
        && !AtSlave(s) && s.m.recvQ == [] && s.m.sendQ == []
  {
    hide F, Checks, IdFor, Meets, Init, Enabled, Apply, AtMaster, AtSlave;
    RunInv(c, run, acts, i);
  }

  /** The last look of the listening window decides: if the slot was empty then, nothing of the
      transaction is left, so the window is long enough. */
  lemma LastLookDecides(c: Config, run: seq<Sys>, acts: seq<Action>, i: nat)
    requires c.Valid() && IsRun(c, run, acts) && i < |run|
    ensures var s := run[i];
      s.mpc.PollAudit? && s.mpc.slept == 290 ==> (s.mpc.ready <==> Tokens(s) == 1)
  {
    hide F, Checks, IdFor, Meets, Init, Enabled, Apply, AtMaster, AtSlave;
    RunInv(c, run, acts, i);
  }

  /** Two bits are enough: when the slave has a packet in hand, its id differs from the slave's own
      exactly if the transaction is one the slave has not accepted. */
  lemma IdTellsNewFromOld(c: Config, run: seq<Sys>, acts: seq<Action>, i: nat)
    requires c.Valid() && IsRun(c, run, acts) && i < |run|
    ensures var s := run[i];
      s.s.recvQ != [] ==> (IdOf(s.s.recvQ[0]) != s.s.transId <==> s.h.j < s.h.k)
  {
    hide F, Checks, IdFor, IdOf, TypeOf, IsReset, Meets, Init, Enabled, Apply, FrameOf, Tokens;
    RunInv(c, run, acts, i);
    FrameOfK(run[i].h.k);
    IdFacts(run[i].h.j);
  }
}
