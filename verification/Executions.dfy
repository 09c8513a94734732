/** Executions of the protocol, from any start.  Runs within any latency bounds exist and complete
    transactions, so the theorems speak of something; and the bounds of Protocol.Config are
    exact: beyond them there are runs, with nothing lost or damaged, that end in a channel error. */
module Executions {

  import opened Crc
  import opened Packet
  import opened Detection
  import opened Radio
  import opened Llc
  import opened Protocol
  import opened Theorems
  import AirSteps

  // ---------------------------------------------------------------- executions

  /** t is reached from s in n steps, and every state on the way meets the latencies. */
  ghost predicate Reaches(c: Config, s: Sys, t: Sys, n: nat)
    decreases n
  {
    && Meets(c, t)
    && if n == 0 then s == t else exists u, a :: Reaches(c, s, u, n - 1) && StepsTo(u, a, t)
  }

  predicate StepsTo(s: Sys, a: Action, t: Sys) {
    Enabled(s, a) && t == Apply(s, a)
  }

  lemma Extend(c: Config, s: Sys, t: Sys, n: nat, a: Action)
    requires Reaches(c, s, t, n) && Enabled(t, a) && Meets(c, Apply(t, a))
    ensures Reaches(c, s, Apply(t, a), n + 1)
  {
    hide Enabled, Apply, Meets;
    assert StepsTo(t, a, Apply(t, a));
  }

  /** An execution within a configuration is a run. */
  lemma {:induction false} ReachedByRun(c: Config, s: Sys, t: Sys, n: nat) returns (run: seq<Sys>, acts: seq<Action>)
    requires Init(s) && Reaches(c, s, t, n)
    ensures IsRun(c, run, acts) && run[0] == s && run[|run| - 1] == t
    decreases n
  {
    hide Enabled, Apply, Meets, Init;
    if n == 0 {
      run, acts := [s], [];
    } else {
      var u, a :| Reaches(c, s, u, n - 1) && StepsTo(u, a, t);
      run, acts := ReachedByRun(c, s, u, n - 1);
      run, acts := run + [t], acts + [a];
    }
  }

  /** The thread named runs; what is due is delivered intact. */
  function GoM(): Action { Master(Arrives(Silence()), Arrives(Silence()), 0) }

  function GoS(): Action { Slave(Arrives(Silence()), Arrives(Silence()), 0) }

  // ---------------------------------------------------------------- single steps

  /** Nothing is due, and at most one side transmits. */
  predicate Calm(s: Sys) {
    !Due(s.d.mOut, s.now) && !Due(s.d.sOut, s.now) && (s.d.mOut.isSend || s.d.sOut.isSend)
  }

  /** Moves that leave a calm radio as it is. */
  predicate Plain(pc: Pc) {
    pc.Busy() && !pc.SendCommit? && !pc.RecvCopy? && !pc.SendFault? && !pc.RecvFault?
  }

  lemma MasterPlain(s: Sys)
    requires Calm(s) && Plain(s.mpc) && Awake(s.mpc, s.now)
    ensures Enabled(s, GoM()) && Apply(s, GoM()) == s.(mpc := NextPc(s.d, s.mpc, M, s.now))
  {
    hide XorBytes, Checks, Silence, CrcFrom;
  }

  lemma SlavePlain(s: Sys)
    requires Calm(s) && Plain(s.spc) && Awake(s.spc, s.now)
    ensures Enabled(s, GoS()) && Apply(s, GoS()) == s.(spc := NextPc(s.d, s.spc, S, s.now))
  {
    hide XorBytes, Checks, Silence, CrcFrom;
  }

  lemma MasterCommits(s: Sys)
    requires s.mpc.SendCommit? && s.mpc.blocking
    ensures Enabled(s, GoM())
    ensures Apply(s, GoM()) == s.(d := Commit(s.d, M, s.now, s.mpc.p), mpc := SendNap(s.now + TOA), h := s.h.(tx := s.h.tx + 1))
  {
    hide XorBytes, Checks, Silence, CrcFrom;
  }

  lemma SlaveCommits(s: Sys)
    requires s.spc.SendCommit? && s.spc.blocking
    ensures Enabled(s, GoS())
    ensures Apply(s, GoS()) == s.(d := Commit(s.d, S, s.now, s.spc.p), spc := SendNap(s.now + TOA), h := s.h.(replies := s.h.replies + 1))
  {
    hide XorBytes, Checks, Silence, CrcFrom;
  }

  lemma MasterTakes(s: Sys)
    requires s.mpc.RecvCopy?
    ensures Enabled(s, GoM()) && Apply(s, GoM()) == s.(d := Take(s.d, M), mpc := RecvAudit(s.d.mIn.data))
  {
    hide XorBytes, Checks, Silence, CrcFrom;
  }

  lemma SlaveTakes(s: Sys)
    requires s.spc.RecvCopy?
    ensures Enabled(s, GoS()) && Apply(s, GoS()) == s.(d := Take(s.d, S), spc := RecvAudit(s.d.sIn.data))
  {
    hide XorBytes, Checks, Silence, CrcFrom;
  }

  lemma TickIs(s: Sys, dt: nat)
    ensures Enabled(s, Tick(dt)) && Apply(s, Tick(dt)) == s.(now := s.now + dt)
  {
  }

  lemma MasterStartsMac(s: Sys)
    requires s.mpc == Outside && !s.mAt
    ensures Enabled(s, GoM())
    ensures s.m.sendQ != [] ==> Apply(s, GoM()) == s.(mpc := SendEnter(s.m.sendQ[0], true))
    ensures s.m.sendQ == [] ==>
              Apply(s, GoM()) == s.(mpc := RecvEnter(300), m := PackTaken(s.m), h := s.h.(listenFrom := s.now, listens := s.h.listens + 1))
  {
    hide XorBytes, Checks, Silence, CrcFrom;
  }

  lemma SlaveStartsMac(s: Sys)
    requires s.spc == Outside && !s.sAt
    ensures Enabled(s, GoS())
    ensures Apply(s, GoS()) == if s.s.sendQ != [] then s.(spc := SendEnter(s.s.sendQ[0], true))
                               else s.(spc := RecvEnter(100_000), s := PackTaken(s.s))
  {
    hide XorBytes, Checks, Silence, CrcFrom;
  }

  /** The master's own worker delivers its packet: into a free slot, or an error is counted. */
  lemma MasterDelivers(s: Sys)
    requires s.mpc == SendWorker && Due(s.d.mOut, s.now) && s.d.sOut.isSend && Checks(s.d.mOut.data)
    ensures Enabled(s, GoM())
    ensures var sent := s.d.(mOut := s.d.mOut.(isSend := true));
      Apply(s, GoM()) ==
      if s.d.sIn.isReceived then s.(d := sent.(err := s.d.err + 1), mpc := SendAudit, h := s.h.(deliveredAt := s.now))
      else s.(d := sent.(sIn := In(true, s.d.mOut.data)), mpc := SendAudit, h := s.h.(deliveredAt := s.now))
  {
    hide XorBytes, Checks, Silence, CrcFrom;
    AirSteps.SilenceKeeps(s.d.mOut.data);
  }

  /** The master, beginning to listen, delivers the slave's packet to itself. */
  lemma MasterFetches(s: Sys)
    requires s.mpc.RecvEnter? && s.d.mOut.isSend && Due(s.d.sOut, s.now) && !s.d.mIn.isReceived && Checks(s.d.sOut.data)
    ensures Enabled(s, GoM())
    ensures Apply(s, GoM()) ==
            s.(d := s.d.(sOut := s.d.sOut.(isSend := true), mIn := In(true, s.d.sOut.data)), mpc := PollTest(s.mpc.timeout, 0))
  {
    hide XorBytes, Checks, Silence, CrcFrom;
    AirSteps.SilenceKeeps(s.d.sOut.data);
  }

  /** The slave's own worker delivers its reply: into a free slot, or an error is counted. */
  lemma SlaveDelivers(s: Sys)
    requires s.spc == SendWorker && Due(s.d.sOut, s.now) && s.d.mOut.isSend && Checks(s.d.sOut.data)
    ensures Enabled(s, GoS())
    ensures var sent := s.d.(sOut := s.d.sOut.(isSend := true));
      Apply(s, GoS()) ==
      if s.d.mIn.isReceived then s.(d := sent.(err := s.d.err + 1), spc := SendAudit)
      else s.(d := sent.(mIn := In(true, s.d.sOut.data)), spc := SendAudit)
  {
    hide XorBytes, Checks, Silence, CrcFrom;
    AirSteps.SilenceKeeps(s.d.sOut.data);
  }

  lemma MasterReturns(s: Sys)
    requires (s.mpc == SendDone && s.m.sendQ != []) || s.mpc.RecvDone?
    ensures Enabled(s, GoM()) && Apply(s, GoM()) == s.(mpc := Outside, mAt := true, m := MacEnd(s.m, s.mpc))
  {
    hide XorBytes, Checks, Silence, CrcFrom;
  }

  lemma SlaveReturns(s: Sys)
    requires (s.spc == SendDone && s.s.sendQ != []) || s.spc.RecvDone?
    ensures Enabled(s, GoS()) && Apply(s, GoS()) == s.(spc := Outside, sAt := true, s := MacEnd(s.s, s.spc))
  {
    hide XorBytes, Checks, Silence, CrcFrom;
  }

  lemma MasterWakes(s: Sys)
    requires (s.mpc.SendNap? || s.mpc.PollNap?) && s.mpc.wake <= s.now
    ensures Enabled(s, GoM()) && Apply(s, GoM()) == s.(mpc := NextPc(s.d, s.mpc, M, s.now))
  {
    hide XorBytes, Checks, Silence, CrcFrom;
  }

  lemma SlaveWakes(s: Sys)
    requires s.spc.SendNap? && s.spc.wake <= s.now
    ensures Enabled(s, GoS()) && Apply(s, GoS()) == s.(spc := SendWorker)
  {
    hide XorBytes, Checks, Silence, CrcFrom;
  }

  lemma MasterRunsCase(s: Sys)
    requires s.mpc == Outside && s.mAt && (s.mst == MResend ==> s.m.resend != [])
    ensures Enabled(s, GoM()) && Apply(s, GoM()) == MasterLlc(s)
  {
    hide XorBytes, Checks, Silence, CrcFrom, MasterLlc;
  }

  lemma SlaveRunsCase(s: Sys)
    requires s.spc == Outside && s.sAt && (s.sst == SResend ==> s.s.resend != [])
    ensures Enabled(s, GoS()) && Apply(s, GoS()) == SlaveLlc(s)
  {
    hide XorBytes, Checks, Silence, CrcFrom, SlaveLlc;
  }

  // ---------------------------------------------------------------- time

  /** Time passes. */
  lemma Waits(c: Config, s0: Sys, s: Sys, n: nat, dt: nat) returns (t: Sys)
    requires Reaches(c, s0, s, n) && Meets(c, s.(now := s.now + dt))
    ensures Reaches(c, s0, t, n + 1) && t == s.(now := s.now + dt)
  {
    hide Reaches, Enabled, Apply, Meets;
    TickIs(s, dt);
    t := s.(now := s.now + dt);
    Extend(c, s0, s, n, Tick(dt));
  }

  lemma ReachedMeets(c: Config, s0: Sys, s: Sys, n: nat)
    requires Reaches(c, s0, s, n)
    ensures Meets(c, s)
  {
    hide Meets, StepsTo;
  }

  /** The slave is within its latency whatever it does now, and so is the master. */
  predicate InTime(c: Config, s: Sys) {
    && s.now <= s.h.deliveredAt + c.sr
    && (s.mst == MSendAll && !s.h.checked ==> s.now <= s.m.timerStart + TOA + c.lm)
  }

  lemma InTimeMeets(c: Config, s: Sys)
    requires InTime(c, s)
    ensures Meets(c, s)
  {
    hide AtSlave;
  }

  predicate SameForMaster(s: Sys, t: Sys) {
    t.now == s.now && t.mst == s.mst && t.m.timerStart == s.m.timerStart && t.h.checked == s.h.checked
  }

  predicate SameForSlave(s: Sys, t: Sys) {
    && t.s == s.s && t.sst == s.sst && t.spc == s.spc
    && t.d.sIn.isReceived == s.d.sIn.isReceived && t.h.deliveredAt == s.h.deliveredAt
  }

  lemma SameMeets(c: Config, s: Sys, t: Sys)
    requires Meets(c, s) && SameForMaster(s, t) && SameForSlave(s, t)
    ensures Meets(c, t)
  {
    hide Checks;
  }

  /** A move of the master that the latencies do not notice. */
  lemma Goes(c: Config, s0: Sys, s: Sys, n: nat, t: Sys)
    requires Reaches(c, s0, s, n) && Enabled(s, GoM()) && t == Apply(s, GoM())
    requires SameForMaster(s, t) && SameForSlave(s, t)
    ensures Reaches(c, s0, t, n + 1)
  {
    hide Reaches, Enabled, Apply, Meets;
    ReachedMeets(c, s0, s, n);
    SameMeets(c, s, t);
    Extend(c, s0, s, n, GoM());
  }

  lemma DeliveryMeets(c: Config, s: Sys, t: Sys)
    requires c.Bounds() && Meets(c, s) && SameForMaster(s, t) && t.h.deliveredAt == t.now
    ensures InTime(c, t) && Meets(c, t)
  {
    hide AtSlave;
  }

  // ---------------------------------------------------------------- the master transmits

  /** From the MAC worker to the sleep. */
  lemma BeginsSending(c: Config, s0: Sys, s: Sys, n: nat) returns (t: Sys)
    requires Reaches(c, s0, s, n)
    requires s.mpc == Outside && !s.mAt && s.m.sendQ != [] && s.d.mOut.isSend && s.d.sOut.isSend
    ensures Reaches(c, s0, t, n + 4)
    ensures t == s.(d := Commit(s.d, M, s.now, s.m.sendQ[0]), mpc := SendNap(s.now + TOA), h := s.h.(tx := s.h.tx + 1))
  {
    hide Reaches, Enabled, Apply, Checks, Meets;
    MasterStartsMac(s);
    var s1 := s.(mpc := SendEnter(s.m.sendQ[0], true));
    Goes(c, s0, s, n, s1);
    MasterPlain(s1);
    var s2 := s1.(mpc := SendProbe(s.m.sendQ[0], true));
    Goes(c, s0, s1, n + 1, s2);
    MasterPlain(s2);
    var s3 := s2.(mpc := SendCommit(s.m.sendQ[0], true, false));
    Goes(c, s0, s2, n + 2, s3);
    MasterCommits(s3);
    t := s3.(d := Commit(s.d, M, s.now, s.m.sendQ[0]), mpc := SendNap(s.now + TOA), h := s.h.(tx := s.h.tx + 1));
    Goes(c, s0, s3, n + 3, t);
  }

  /** The master's sleep ends: its worker delivers the packet, or counts an error at a full slot. */
  lemma PacketArrives(c: Config, s0: Sys, s: Sys, n: nat) returns (t: Sys)
    requires Reaches(c, s0, s, n) && c.Bounds()
    requires s.mpc.SendNap? && s.mpc.wake <= s.now && Due(s.d.mOut, s.now) && s.d.sOut.isSend && Checks(s.d.mOut.data)
    ensures Reaches(c, s0, t, n + 2) && t == s.(mpc := SendAudit, d := t.d, h := s.h.(deliveredAt := s.now))
    ensures var sent := s.d.(mOut := s.d.mOut.(isSend := true));
      t.d == if s.d.sIn.isReceived then sent.(err := s.d.err + 1) else sent.(sIn := In(true, s.d.mOut.data))
  {
    hide Reaches, Enabled, Apply, Meets, Checks;
    ReachedMeets(c, s0, s, n);
    MasterWakes(s);
    var s1 := s.(mpc := SendWorker);
    MasterDelivers(s1);
    t := Apply(s1, GoM());
    SameMeets(c, s, s1);
    DeliveryMeets(c, s, t);
    Extend(c, s0, s, n, GoM());
    Extend(c, s0, s1, n + 1, GoM());
  }

  /** The master returns to its link control. */
  lemma MasterFinishes(c: Config, s0: Sys, s: Sys, n: nat) returns (t: Sys)
    requires Reaches(c, s0, s, n) && s.mpc == SendAudit && s.m.sendQ != [] && s.d.mOut.isSend && s.d.sOut.isSend
    ensures Reaches(c, s0, t, n + 2) && t == s.(mpc := Outside, mAt := true, m := Sent(s.m))
  {
    hide Reaches, Enabled, Apply, Meets, Checks;
    MasterPlain(s);
    var s1 := s.(mpc := SendDone);
    Goes(c, s0, s, n, s1);
    MasterReturns(s1);
    t := s1.(mpc := Outside, mAt := true, m := Sent(s.m));
    Goes(c, s0, s1, n + 1, t);
  }

  /** A transmission: it takes the time on air. */
  lemma Transmits(c: Config, s0: Sys, s: Sys, n: nat) returns (t: Sys)
    requires Reaches(c, s0, s, n) && c.Bounds() && Meets(c, s.(now := s.now + TOA))
    requires s.mpc == Outside && !s.mAt && |s.m.sendQ| == 1 && Checks(s.m.sendQ[0]) && s.d.mOut.isSend && s.d.sOut.isSend
    ensures Reaches(c, s0, t, n + 9) && SentFrom(s, t)
  {
    hide Reaches, Enabled, Apply, Meets, Checks;
    var t1 := BeginsSending(c, s0, s, n);
    SameMeets(c, s.(now := s.now + TOA), t1.(now := s.now + TOA));
    var t2 := Waits(c, s0, t1, n + 4, TOA);
    var t3 := PacketArrives(c, s0, t2, n + 5);
    t := MasterFinishes(c, s0, t3, n + 7);
  }

  /** t has transmitted what s had queued: the packet is in the slave's slot, or an error is counted
      because the slot was full. */
  predicate SentFrom(s: Sys, t: Sys) {
    && s.m.sendQ != []
    && t == s.(now := s.now + TOA, mpc := Outside, mAt := true, m := Sent(s.m), d := t.d,
               h := s.h.(deliveredAt := s.now + TOA, tx := s.h.tx + 1))
    && t.d.mOut.isSend && t.d.sOut == s.d.sOut && t.d.mIn == s.d.mIn && t.d.sIn.isReceived
    && (if s.d.sIn.isReceived then t.d.err == s.d.err + 1 else t.d.err == s.d.err && t.d.sIn.data == s.m.sendQ[0])
  }

  // ---------------------------------------------------------------- the slave answers

  /** The slave's thread, idle, begins to listen and looks into its slot. */
  lemma SlaveLooks(c: Config, s0: Sys, s: Sys, n: nat) returns (t: Sys)
    requires Reaches(c, s0, s, n) && InTime(c, s)
    requires s.spc == Outside && s.sAt && s.sst == SIdle && s.s.recvQ == [] && s.s.sendQ == [] && Calm(s)
    ensures Reaches(c, s0, t, n + 5)
    ensures t == s.(sAt := false, spc := PollRead(100_000, 0), s := PackTaken(s.s))
  {
    hide Reaches, Enabled, Apply, Meets, Checks;
    SlaveRunsCase(s);
    var s1 := s.(sAt := false);
    SlaveStartsMac(s1);
    var s2 := s1.(spc := RecvEnter(100_000), s := PackTaken(s.s));
    SlavePlain(s2);
    var s3 := s2.(spc := PollTest(100_000, 0));
    SlavePlain(s3);
    var s4 := s3.(spc := PollWorker(100_000, 0));
    SlavePlain(s4);
    t := s4.(spc := PollRead(100_000, 0));
    InTimeMeets(c, s1);
    InTimeMeets(c, s2);
    InTimeMeets(c, s3);
    InTimeMeets(c, s4);
    InTimeMeets(c, t);
    Extend(c, s0, s, n, GoS());
    Extend(c, s0, s1, n + 1, GoS());
    Extend(c, s0, s2, n + 2, GoS());
    Extend(c, s0, s3, n + 3, GoS());
    Extend(c, s0, s4, n + 4, GoS());
  }

  /** It finds a good packet and takes it to the link control. */
  lemma SlaveReads(c: Config, s0: Sys, s: Sys, n: nat) returns (t: Sys)
    requires Reaches(c, s0, s, n) && InTime(c, s)
    requires s.spc == PollRead(100_000, 0) && s.d.sIn.isReceived && Checks(s.d.sIn.data) && Calm(s)
    ensures Reaches(c, s0, t, n + 5)
    ensures t == s.(d := Take(s.d, S), spc := Outside, sAt := true, s := Received(s.s, s.d.sIn.data))
  {
    hide Reaches, Enabled, Apply, Meets, Checks;
    SlavePlain(s);
    var s1 := s.(spc := PollAudit(100_000, 0, true));
    SlavePlain(s1);
    var s2 := s1.(spc := RecvCopy);
    SlaveTakes(s2);
    var s3 := s2.(d := Take(s.d, S), spc := RecvAudit(s.d.sIn.data));
    SlavePlain(s3);
    var s4 := s3.(spc := RecvDone(Some(s.d.sIn.data)));
    SlaveReturns(s4);
    t := Apply(s4, GoS());
    InTimeMeets(c, s1);
    InTimeMeets(c, s2);
    InTimeMeets(c, s3);
    InTimeMeets(c, s4);
    InTimeMeets(c, t);
    Extend(c, s0, s, n, GoS());
    Extend(c, s0, s1, n + 1, GoS());
    Extend(c, s0, s2, n + 2, GoS());
    Extend(c, s0, s3, n + 3, GoS());
    Extend(c, s0, s4, n + 4, GoS());
  }

  /** The reply p is queued and kept. */
  predicate Answered(t: Tsm, id: bv8, p: Frame) {
    t.transId == id && t.sendQ == [p] && t.resend == [p] && t.recvQ == []
  }

  /** A packet of a new transaction: it is accepted and the reply is queued. */
  lemma SlaveAnswers(c: Config, s0: Sys, s: Sys, n: nat) returns (t: Sys)
    requires Reaches(c, s0, s, n) && InTime(c, s)
    requires s.spc == Outside && s.sAt && s.sst == SIdle && |s.s.recvQ| == 1 && s.s.sendQ == []
    requires var p := s.s.recvQ[0]; !IsReset(p) && TypeOf(p) == TYPE_SINGLE && IdOf(p) != s.s.transId
    ensures Reaches(c, s0, t, n + 4)
    ensures t == s.(sAt := false, s := t.s, h := s.h.(j := s.h.j + 1, replies := 0, accepted := s.h.accepted + [s.h.k]))
    ensures Answered(t.s, IdOf(s.s.recvQ[0]), FrameOf(IdOf(s.s.recvQ[0])))
  {
    hide Reaches, Enabled, Apply, Meets, Checks, FrameOf, IdOf, TypeOf, IsReset;
    SlaveRunsCase(s);
    var s1 := SlaveLlc(s);
    SlaveRunsCase(s1);
    var s2 := SlaveLlc(s1);
    SlaveRunsCase(s2);
    var s3 := SlaveLlc(s2);
    SlaveRunsCase(s3);
    t := SlaveLlc(s3);
    InTimeMeets(c, s1);
    InTimeMeets(c, s2);
    InTimeMeets(c, s3);
    InTimeMeets(c, t);
    Extend(c, s0, s, n, GoS());
    Extend(c, s0, s1, n + 1, GoS());
    Extend(c, s0, s2, n + 2, GoS());
    Extend(c, s0, s3, n + 3, GoS());
  }

  /** A packet of the slave's own transaction: the kept reply is queued again. */
  lemma SlaveRepeats(c: Config, s0: Sys, s: Sys, n: nat) returns (t: Sys)
    requires Reaches(c, s0, s, n) && InTime(c, s)
    requires s.spc == Outside && s.sAt && s.sst == SIdle && |s.s.recvQ| == 1 && s.s.sendQ == [] && s.s.resend != []
    requires var p := s.s.recvQ[0]; !IsReset(p) && TypeOf(p) == TYPE_SINGLE && IdOf(p) == s.s.transId
    ensures Reaches(c, s0, t, n + 3)
    ensures t == s.(sAt := false, s := t.s) && t.s.sendQ == [s.s.resend[0]] && t.s.recvQ == []
  {
    hide Reaches, Enabled, Apply, Meets, Checks, FrameOf, IdOf, TypeOf, IsReset;
    SlaveRunsCase(s);
    var s1 := SlaveLlc(s);
    SlaveRunsCase(s1);
    var s2 := SlaveLlc(s1);
    SlaveRunsCase(s2);
    t := SlaveLlc(s2);
    InTimeMeets(c, s1);
    InTimeMeets(c, s2);
    InTimeMeets(c, t);
    Extend(c, s0, s, n, GoS());
    Extend(c, s0, s1, n + 1, GoS());
    Extend(c, s0, s2, n + 2, GoS());
  }

  /** The reply goes on the air. */
  lemma SlaveSends(c: Config, s0: Sys, s: Sys, n: nat) returns (t: Sys)
    requires Reaches(c, s0, s, n) && InTime(c, s)
    requires s.spc == Outside && !s.sAt && s.s.sendQ != [] && s.d.mOut.isSend && s.d.sOut.isSend
    ensures Reaches(c, s0, t, n + 4)
    ensures t == s.(d := Commit(s.d, S, s.now, s.s.sendQ[0]), spc := SendNap(s.now + TOA), h := s.h.(replies := s.h.replies + 1))
  {
    hide Reaches, Enabled, Apply, Meets, Checks;
    SlaveStartsMac(s);
    var s1 := s.(spc := SendEnter(s.s.sendQ[0], true));
    SlavePlain(s1);
    var s2 := s1.(spc := SendProbe(s.s.sendQ[0], true));
    SlavePlain(s2);
    var s3 := s2.(spc := SendCommit(s.s.sendQ[0], true, false));
    SlaveCommits(s3);
    t := s3.(d := Commit(s.d, S, s.now, s.s.sendQ[0]), spc := SendNap(s.now + TOA), h := s.h.(replies := s.h.replies + 1));
    InTimeMeets(c, s1);
    InTimeMeets(c, s2);
    InTimeMeets(c, s3);
    InTimeMeets(c, t);
    Extend(c, s0, s, n, GoS());
    Extend(c, s0, s1, n + 1, GoS());
    Extend(c, s0, s2, n + 2, GoS());
    Extend(c, s0, s3, n + 3, GoS());
  }

  /** Nothing is at the slave, and the master is within its latency. */
  predicate SlaveClear(c: Config, s: Sys) {
    && !s.d.sIn.isReceived && s.sst == SIdle && s.s.recvQ == [] && |s.s.sendQ| == 1 && s.spc.PostCommit()
    && (s.mst == MSendAll && !s.h.checked ==> s.now <= s.m.timerStart + TOA + c.lm)
  }

  lemma ClearMeets(c: Config, s: Sys)
    requires SlaveClear(c, s)
    ensures Meets(c, s) && Meets(c, s.(spc := Outside, sAt := true, s := Sent(s.s)))
  {
    hide Checks;
  }

  /** The slave's sleep ends: its worker delivers the reply, or counts an error at a full slot. */
  lemma ReplyArrives(c: Config, s0: Sys, s: Sys, n: nat) returns (t: Sys)
    requires Reaches(c, s0, s, n) && SlaveClear(c, s)
    requires s.spc.SendNap? && s.spc.wake <= s.now && Due(s.d.sOut, s.now) && s.d.mOut.isSend && Checks(s.d.sOut.data)
    ensures Reaches(c, s0, t, n + 2) && t == s.(spc := SendAudit, d := t.d)
    ensures var sent := s.d.(sOut := s.d.sOut.(isSend := true));
      t.d == if s.d.mIn.isReceived then sent.(err := s.d.err + 1) else sent.(mIn := In(true, s.d.sOut.data))
  {
    hide Reaches, Enabled, Apply, Meets, Checks;
    SlaveWakes(s);
    var s1 := s.(spc := SendWorker);
    SlaveDelivers(s1);
    t := Apply(s1, GoS());
    ClearMeets(c, s1);
    ClearMeets(c, t);
    Extend(c, s0, s, n, GoS());
    Extend(c, s0, s1, n + 1, GoS());
  }

  /** The slave returns to its link control. */
  lemma SlaveFinishes(c: Config, s0: Sys, s: Sys, n: nat) returns (t: Sys)
    requires Reaches(c, s0, s, n) && SlaveClear(c, s) && s.spc == SendAudit && s.d.mOut.isSend && s.d.sOut.isSend
    ensures Reaches(c, s0, t, n + 2) && t == s.(spc := Outside, sAt := true, s := Sent(s.s))
  {
    hide Reaches, Enabled, Apply, Meets, Checks;
    SlavePlain(s);
    var s1 := s.(spc := SendDone);
    SlaveReturns(s1);
    t := s1.(spc := Outside, sAt := true, s := Sent(s.s));
    ClearMeets(c, s1);
    Extend(c, s0, s, n, GoS());
    Extend(c, s0, s1, n + 1, GoS());
  }

  // ---------------------------------------------------------------- the master's link control

  /** The master's part of the latencies once the timer was looked at or restarted. */
  predicate MasterInTime(c: Config, s: Sys) {
    s.mst == MSendAll && !s.h.checked ==> s.now <= s.m.timerStart + TOA + c.lm
  }

  /** The slave's thread rests in its idle state, its input slot and queues empty. */
  predicate SlaveRests(s: Sys) {
    && s.spc == Outside && s.sAt && s.sst == SIdle && s.s.sendQ == [] && s.s.recvQ == []
    && !s.d.sIn.isReceived
  }

  lemma RestMeets(c: Config, s: Sys)
    requires SlaveRests(s) && MasterInTime(c, s)
    ensures Meets(c, s)
  {
  }

  /** The master opens a transaction and looks at its timer at once. */
  lemma Opens(c: Config, s0: Sys, s: Sys, n: nat) returns (t: Sys)
    requires Reaches(c, s0, s, n) && c.Bounds() && SlaveRests(s)
    requires s.mpc == Outside && s.mAt && s.mst == MIdle && s.m.sendQ == [] && s.m.recvQ == []
    ensures Reaches(c, s0, t, n + 2) && t == s.(mAt := false, mst := MSendAll, m := t.m, h := t.h)
    ensures Answered(t.m, NextTransId(s.m.transId), FrameOf(NextTransId(s.m.transId))) && t.m.timerStart == s.now
    ensures t.h == s.h.(k := s.h.k + 1, tx := 0, faults := 0, checked := false, listens := 0)
  {
    hide Reaches, Enabled, Apply, Meets, Checks, FrameOf, NextTransId, IdOf;
    MasterRunsCase(s);
    var s1 := MasterLlc(s);
    MasterRunsCase(s1);
    t := MasterLlc(s1);
    RestMeets(c, s1);
    RestMeets(c, t);
    Extend(c, s0, s, n, GoM());
    Extend(c, s0, s1, n + 1, GoM());
  }

  /** Its packet sent, the master looks at its timer and begins to listen. */
  lemma MasterListens(c: Config, s0: Sys, s: Sys, n: nat) returns (t: Sys)
    requires Reaches(c, s0, s, n) && InTime(c, s)
    requires s.mpc == Outside && s.mAt && s.mst == MSendAll && s.m.sendQ == [] && s.m.recvQ == [] && !Expired(s.m, s.now)
    ensures Reaches(c, s0, t, n + 2)
    ensures t == s.(mAt := false, mpc := RecvEnter(300), m := PackTaken(s.m),
                    h := s.h.(checked := true, listenFrom := s.now, listens := s.h.listens + 1))
  {
    hide Reaches, Enabled, Apply, Meets, Checks, IdOf;
    MasterRunsCase(s);
    var s1 := MasterLlc(s);
    MasterStartsMac(s1);
    t := s1.(mpc := RecvEnter(300), m := PackTaken(s.m), h := s1.h.(listenFrom := s.now, listens := s.h.listens + 1));
    InTimeMeets(c, s1);
    InTimeMeets(c, t);
    Extend(c, s0, s, n, GoM());
    Extend(c, s0, s1, n + 1, GoM());
  }

  /** The timer is found expired: the kept packet is queued again. */
  lemma TimesOut(c: Config, s0: Sys, s: Sys, n: nat) returns (t: Sys)
    requires Reaches(c, s0, s, n) && c.Bounds() && SlaveRests(s) && s.m.resend != []
    requires s.mpc == Outside && s.mAt && s.mst == MSendAll && s.m.sendQ == [] && s.m.recvQ == [] && Expired(s.m, s.now)
    ensures Reaches(c, s0, t, n + 3) && t == s.(mAt := false, m := t.m, h := s.h.(checked := false, listens := 0))
    ensures t.m.sendQ == [s.m.resend[0]] && t.m.recvQ == [] && t.m.timerStart == s.now
  {
    hide Reaches, Enabled, Apply, Meets, Checks, IdOf;
    MasterRunsCase(s);
    var s1 := MasterLlc(s);
    MasterRunsCase(s1);
    var s2 := MasterLlc(s1);
    MasterRunsCase(s2);
    t := MasterLlc(s2);
    RestMeets(c, s1);
    RestMeets(c, s2);
    RestMeets(c, t);
    Extend(c, s0, s, n, GoM());
    Extend(c, s0, s1, n + 1, GoM());
    Extend(c, s0, s2, n + 2, GoM());
  }

  // ---------------------------------------------------------------- the master receives

  /** The master delivers the due reply to itself and sees it. */
  lemma MasterSees(c: Config, s0: Sys, s: Sys, n: nat) returns (t: Sys)
    requires Reaches(c, s0, s, n)
    requires s.mpc == RecvEnter(300) && s.d.mOut.isSend && Due(s.d.sOut, s.now) && !s.d.mIn.isReceived && Checks(s.d.sOut.data)
    ensures Reaches(c, s0, t, n + 5)
    ensures t == s.(mpc := RecvCopy, d := s.d.(sOut := s.d.sOut.(isSend := true), mIn := In(true, s.d.sOut.data)))
  {
    hide Reaches, Enabled, Apply, Meets, Checks;
    MasterFetches(s);
    var s1 := s.(mpc := PollTest(300, 0), d := s.d.(sOut := s.d.sOut.(isSend := true), mIn := In(true, s.d.sOut.data)));
    Goes(c, s0, s, n, s1);
    var s3 := MasterPolls(c, s0, s1, n + 1);
    t := MasterFinds(c, s0, s3, n + 3);
  }

  /** From the loop condition to the look into the slot. */
  lemma MasterPolls(c: Config, s0: Sys, s: Sys, n: nat) returns (t: Sys)
    requires Reaches(c, s0, s, n) && s.mpc.PollTest? && s.mpc.slept < s.mpc.timeout && Calm(s)
    ensures Reaches(c, s0, t, n + 2) && t == s.(mpc := PollRead(s.mpc.timeout, s.mpc.slept))
  {
    hide Reaches, Enabled, Apply, Meets, Checks;
    MasterPlain(s);
    var s1 := s.(mpc := PollWorker(s.mpc.timeout, s.mpc.slept));
    Goes(c, s0, s, n, s1);
    MasterPlain(s1);
    t := s1.(mpc := PollRead(s.mpc.timeout, s.mpc.slept));
    Goes(c, s0, s1, n + 1, t);
  }

  /** It finds the slot full, or goes to sleep. */
  lemma MasterFinds(c: Config, s0: Sys, s: Sys, n: nat) returns (t: Sys)
    requires Reaches(c, s0, s, n) && s.mpc.PollRead? && s.mpc.timeout > 0 && Calm(s)
    ensures Reaches(c, s0, t, n + 2)
    ensures t == s.(mpc := if s.d.mIn.isReceived then RecvCopy else PollNap(s.mpc.timeout, s.mpc.slept, s.now + GRANULARITY))
  {
    hide Reaches, Enabled, Apply, Meets, Checks;
    MasterPlain(s);
    var s1 := s.(mpc := PollAudit(s.mpc.timeout, s.mpc.slept, s.d.mIn.isReceived));
    Goes(c, s0, s, n, s1);
    MasterPlain(s1);
    t := s1.(mpc := if s.d.mIn.isReceived then RecvCopy else PollNap(s.mpc.timeout, s.mpc.slept, s.now + GRANULARITY));
    Goes(c, s0, s1, n + 1, t);
  }

  /** It takes the reply and closes the transaction. */
  lemma MasterCloses(c: Config, s0: Sys, s: Sys, n: nat) returns (t: Sys)
    requires Reaches(c, s0, s, n)
    requires s.mpc == RecvCopy && s.mst == MSendAll && s.m.recvQ == [] && Checks(s.d.mIn.data) && Calm(s)
    ensures Reaches(c, s0, t, n + 5)
    ensures t.mst == MIdle && t.now == s.now && t.h == s.h.(completed := s.h.completed + [s.h.j])
  {
    hide Reaches, Enabled, Apply, Meets, Checks, IdOf;
    var s3 := MasterReceives(c, s0, s, n);
    ReachedMeets(c, s0, s3, n + 3);
    MasterRunsCase(s3);
    var s4 := MasterLlc(s3);
    MasterRunsCase(s4);
    t := MasterLlc(s4);
    LeavingMeets(c, s3, s4);
    LeavingMeets(c, s3, t);
    Extend(c, s0, s3, n + 3, GoM());
    Extend(c, s0, s4, n + 4, GoM());
  }

  lemma LeavingMeets(c: Config, s: Sys, t: Sys)
    requires Meets(c, s) && t.mst != MSendAll && t.now == s.now && SameForSlave(s, t)
    ensures Meets(c, t)
  {
    hide Checks;
  }

  lemma MasterReceives(c: Config, s0: Sys, s: Sys, n: nat) returns (t: Sys)
    requires Reaches(c, s0, s, n) && s.mpc == RecvCopy && Checks(s.d.mIn.data) && Calm(s)
    ensures Reaches(c, s0, t, n + 3)
    ensures t == s.(d := Take(s.d, M), mpc := Outside, mAt := true, m := Received(s.m, s.d.mIn.data))
  {
    hide Reaches, Enabled, Apply, Meets, Checks, IdOf;
    MasterTakes(s);
    var s1 := s.(d := Take(s.d, M), mpc := RecvAudit(s.d.mIn.data));
    Goes(c, s0, s, n, s1);
    MasterPlain(s1);
    var s2 := s1.(mpc := RecvDone(Some(s.d.mIn.data)));
    Goes(c, s0, s1, n + 1, s2);
    MasterReturns(s2);
    t := s2.(mpc := Outside, mAt := true, m := Received(s.m, s.d.mIn.data));
    Goes(c, s0, s2, n + 2, t);
  }

  // ---------------------------------------------------------------- the first transaction

  /** The packet of the first transaction. */
  function FirstFrame(s: Sys): Frame { FrameOf(NextTransId(s.m.transId)) }

  /** A good packet that the slave takes for a new transaction and answers with the same packet. */
  predicate Renews(p: Frame, t: Tsm) {
    Checks(p) && !IsReset(p) && TypeOf(p) == TYPE_SINGLE && IdOf(p) != t.transId && FrameOf(IdOf(p)) == p
  }

  lemma FirstFrameRenews(s: Sys)
    requires Init(s)
    ensures Checks(FirstFrame(s)) && Renews(FirstFrame(s), s.s)
  {
    hide Checks, FrameOf, TypeOf, IdOf, IsReset;
    FrameFacts(NextTransId(s.m.transId));
  }

  /** From the start s, t has opened the first transaction and is about to transmit. */
  predicate OpenedFrom(s: Sys, t: Sys) {
    && SlaveRests(t) && t.mpc == Outside && !t.mAt && t.mst == MSendAll
    && t.m.sendQ == [FirstFrame(s)] && t.m.resend == [FirstFrame(s)] && t.m.recvQ == []
    && t.s == s.s && t.now == t.m.timerStart == s.now
    && t.d.mOut.isSend && t.d.sOut.isSend && !t.d.mIn.isReceived && t.d.err == 0
    && t.h.k == 1 && t.h.j == 0 && t.h.accepted == [] && t.h.completed == [] && t.h.tx == 0 && t.h.faults == 0
  }

  /** ..., the first packet is in the slave's slot, and the slave has not run. */
  predicate DeliveredFrom(s: Sys, t: Sys) {
    && t.mst == MSendAll && t.m.sendQ == [] && t.m.recvQ == [] && t.m.resend == [FirstFrame(s)]
    && t.m.timerStart == s.now && t.h.deliveredAt == s.now + TOA
    && t.s == s.s && t.sst == SIdle && t.sAt && t.spc == Outside && t.s.sendQ == [] && t.s.recvQ == []
    && t.d.mOut.isSend && t.d.sOut.isSend && !t.d.mIn.isReceived && t.d.sIn == In(true, FirstFrame(s))
    && t.h.k == 1 && t.h.j == 0 && t.h.accepted == [] && t.h.completed == [] && t.h.tx == 1 && t.h.faults == 0
  }

  /** What the slave's acceptance leaves behind at both link controls. */
  predicate AcceptedFrom(s: Sys, t: Sys) {
    && t.mst == MSendAll && t.m.sendQ == [] && t.m.recvQ == [] && t.m.resend == [FirstFrame(s)] && t.m.timerStart == s.now
    && t.sst == SIdle && t.s.recvQ == [] && t.s.resend == [FirstFrame(s)] && t.s.transId == IdOf(FirstFrame(s))
    && t.d.mOut.isSend && !t.d.sIn.isReceived
    && t.h.k == 1 && t.h.j == 1 && t.h.accepted == [1] && t.h.completed == [] && t.h.tx == 1 && t.h.faults == 0
  }

  /** ..., the slave has accepted and its reply is on the air. */
  predicate ReplyOut(s: Sys, t: Sys) {
    && AcceptedFrom(s, t) && t.s.sendQ == [FirstFrame(s)] && t.spc == SendNap(t.d.sOut.sendTime + TOA)
    && !t.d.sOut.isSend && t.d.sOut.data == FirstFrame(s) && !t.d.mIn.isReceived
  }

  /** ..., the reply is in the master's slot. */
  predicate ReplyIn(s: Sys, t: Sys) {
    AcceptedFrom(s, t) && SlaveRests(t) && t.d.sOut.isSend && t.d.mIn.isReceived
  }

  /** The position of the master's thread and the time, apart from which the predicates above hold. */
  predicate SamePlace(s: Sys, t: Sys) {
    t.now == s.now && t.mpc == s.mpc && t.mAt == s.mAt && t.h.checked == s.h.checked
  }

  lemma Begins(c: Config, s: Sys)
    requires Init(s) && c.Bounds()
    ensures Reaches(c, s, s, 0)
  {
    RestMeets(c, s);
  }

  lemma FirstOpened(c: Config, s: Sys) returns (t: Sys)
    requires Init(s) && c.Bounds()
    ensures Reaches(c, s, t, 2) && OpenedFrom(s, t) && !t.h.checked
  {
    hide Reaches, Meets, Checks, FrameOf, NextTransId, Enabled, Apply;
    Begins(c, s);
    t := Opens(c, s, s, 0);
  }

  lemma FirstPacketArrives(c: Config, s: Sys) returns (t: Sys)
    requires Init(s) && c.Bounds()
    ensures Reaches(c, s, t, 11) && DeliveredFrom(s, t) && t.mpc == Outside && t.mAt && t.now == s.now + TOA && InTime(c, t)
  {
    hide FirstFrame, Init, Reaches, Meets, Checks, Renews, Enabled, Apply;
    FirstFrameRenews(s);
    var t1 := FirstOpened(c, s);
    RestMeets(c, t1.(now := t1.now + TOA));
    t := Transmits(c, s, t1, 2);
  }

  /** ... and the master, at its timer in time, listens. */
  lemma FirstPacketAwaited(c: Config, s: Sys) returns (t: Sys)
    requires Init(s) && c.Bounds()
    ensures Reaches(c, s, t, 13) && DeliveredFrom(s, t) && t.mpc == RecvEnter(300) && t.h.checked && t.now == s.now + TOA
  {
    hide FirstFrame, Init, Reaches, Meets, Checks, Enabled, Apply;
    var t1 := FirstPacketArrives(c, s);
    t := MasterListens(c, s, t1, 11);
  }

  /** t1 is t after the slave accepted its first packet. */
  predicate Accepts(t: Sys, t1: Sys) {
    && t1 == t.(sAt := false, d := Take(t.d, S), s := t1.s, h := t.h.(j := t.h.j + 1, replies := 0, accepted := t.h.accepted + [t.h.k]))
    && Answered(t1.s, IdOf(t.d.sIn.data), t.d.sIn.data)
  }

  /** The slave reads the packet and queues its reply. */
  lemma SlaveTurns(c: Config, s0: Sys, s: Sys, n: nat) returns (t: Sys)
    requires Reaches(c, s0, s, n) && InTime(c, s)
    requires s.spc == Outside && s.sAt && s.sst == SIdle && s.s.recvQ == [] && s.s.sendQ == [] && Calm(s)
    requires s.d.sIn.isReceived && Renews(s.d.sIn.data, s.s)
    ensures Reaches(c, s0, t, n + 14)
    ensures Accepts(s, t)
  {
    hide Reaches, Meets, Checks, FrameOf, TypeOf, IdOf, IsReset, Enabled, Apply;
    var t1 := SlaveLooks(c, s0, s, n);
    var t2 := SlaveReads(c, s0, t1, n + 5);
    t := SlaveAnswers(c, s0, t2, n + 10);
  }

  lemma AcceptsFirst(s: Sys, t: Sys, t1: Sys)
    requires DeliveredFrom(s, t) && Accepts(t, t1)
    ensures AcceptedFrom(s, t1) && t1.s.sendQ == [FirstFrame(s)] && t1.d.sOut.isSend && !t1.d.mIn.isReceived
    ensures SamePlace(t, t1) && t1.spc == Outside && !t1.sAt && t1.h.deliveredAt == t.h.deliveredAt
  {
    hide FirstFrame, IdOf;
    assert t.h.accepted + [t.h.k] == [1];
  }

  lemma SendsFirst(s: Sys, t: Sys, u: Sys)
    requires AcceptedFrom(s, t) && t.s.sendQ == [FirstFrame(s)] && !t.d.mIn.isReceived
    requires u == t.(d := Commit(t.d, S, t.now, t.s.sendQ[0]), spc := SendNap(t.now + TOA), h := t.h.(replies := t.h.replies + 1))
    ensures ReplyOut(s, u) && SamePlace(t, u) && u.d.sOut.sendTime == t.now
  {
    hide FirstFrame, IdOf;
  }

  /** The slave accepts the first packet and sends its reply. */
  lemma Replies(c: Config, s: Sys, t: Sys, n: nat) returns (u: Sys)
    requires Init(s) && Reaches(c, s, t, n) && DeliveredFrom(s, t) && InTime(c, t)
    ensures Reaches(c, s, u, n + 18) && ReplyOut(s, u) && SamePlace(t, u) && u.d.sOut.sendTime == t.now
  {
    hide FirstFrame, Init, Reaches, Meets, Checks, Renews, IdOf, Enabled, Apply, AcceptedFrom, ReplyOut;
    FirstFrameRenews(s);
    var t1 := SlaveTurns(c, s, t, n);
    AcceptsFirst(s, t, t1);
    u := SlaveSends(c, s, t1, n + 14);
    SendsFirst(s, t1, u);
  }

  lemma ReplyOutMeets(c: Config, s: Sys, t: Sys)
    requires ReplyOut(s, t) && MasterInTime(c, t)
    ensures SlaveClear(c, t) && Meets(c, t)
  {
    hide FirstFrame, Meets, IdOf;
    ClearMeets(c, t);
  }

  /** The reply has been on the air long enough: the slave delivers it and rests. */
  lemma Lands(c: Config, s: Sys, t: Sys, n: nat) returns (u: Sys)
    requires Init(s) && Reaches(c, s, t, n) && ReplyOut(s, t) && MasterInTime(c, t) && t.d.sOut.sendTime + TOA <= t.now
    ensures Reaches(c, s, u, n + 4) && ReplyIn(s, u) && SamePlace(t, u)
  {
    hide FirstFrame, Init, Reaches, Meets, Checks, Renews, IdOf, Enabled, Apply;
    FirstFrameRenews(s);
    ReplyOutMeets(c, s, t);
    var t1 := ReplyArrives(c, s, t, n);
    u := SlaveFinishes(c, s, t1, n + 2);
  }

  /** From the start s, t has completed the first transaction with one transmission. */
  predicate CompletedFrom(s: Sys, t: Sys) {
    t.h.accepted == [1] && t.h.completed == [1] && t.h.tx == 1 && t.now == s.now + 2 * TOA
  }

  /** Runs that meet any given latencies exist and do what the protocol is for: from every start
      there is one in which the first transaction completes, after two times on air, with a
      single transmission. */
  lemma TransactionCanComplete(c: Config, s: Sys) returns (run: seq<Sys>, acts: seq<Action>)
    requires c.Bounds() && Init(s)
    ensures IsRun(c, run, acts) && run[0] == s && CompletedFrom(s, run[|run| - 1])
  {
    hide FirstFrame, Reaches, Meets, Checks, Renews, Enabled, Apply, IdOf;
    FirstFrameRenews(s);
    var t1 := FirstPacketAwaited(c, s);
    var t2 := Replies(c, s, t1, 13);
    ReplyOutMeets(c, s, t2.(now := t2.now + TOA));
    var t3 := Waits(c, s, t2, 31, TOA);
    var t4 := MasterSees(c, s, t3, 32);
    var t5 := MasterCloses(c, s, t4, 37);
    run, acts := ReachedByRun(c, s, t5, 42);
  }

  // ---------------------------------------------------------------- a reply that is never read

  /** The master's thread looked at its timer too late for the reply in its slot. */
  predicate Stale(s: Sys, t: Sys) {
    ReplyIn(s, t) && t.mpc == Outside && t.mAt && Expired(t.m, t.now)
  }

  lemma EarlierMeets(c: Config, s: Sys, early: nat, late: nat)
    requires early <= late && Meets(c, s.(now := s.now + late))
    ensures Meets(c, s.(now := s.now + early))
  {
    hide Checks;
  }

  /** One turn of the poll loop that finds the slot empty. */
  lemma PollTurn(c: Config, s0: Sys, s: Sys, n: nat) returns (t: Sys)
    requires Reaches(c, s0, s, n) && Meets(c, s.(now := s.now + GRANULARITY))
    requires s.mpc.PollTest? && s.mpc.timeout == 300 && s.mpc.slept <= 290 && !s.d.mIn.isReceived && Calm(s)
    ensures Reaches(c, s0, t, n + 6)
    ensures t == s.(now := s.now + GRANULARITY, mpc := PollTest(300, s.mpc.slept + 10))
  {
    hide Reaches, Enabled, Apply, Meets, Checks;
    var t1 := MasterPolls(c, s0, s, n);
    var t2 := MasterFinds(c, s0, t1, n + 2);
    SameMeets(c, s.(now := s.now + GRANULARITY), t2.(now := s.now + GRANULARITY));
    var t3 := Waits(c, s0, t2, n + 4, GRANULARITY);
    t := Wakes(c, s0, t3, n + 5);
  }

  lemma Wakes(c: Config, s0: Sys, s: Sys, n: nat) returns (t: Sys)
    requires Reaches(c, s0, s, n) && s.mpc.PollNap? && s.mpc.wake <= s.now && s.mpc.slept <= 290
    ensures Reaches(c, s0, t, n + 1) && t == s.(mpc := PollTest(s.mpc.timeout, s.mpc.slept + 10))
  {
    hide Reaches, Enabled, Apply, Meets, Checks;
    MasterWakes(s);
    t := s.(mpc := PollTest(s.mpc.timeout, s.mpc.slept + 10));
    Goes(c, s0, s, n, t);
  }

  /** k turns, while nothing is due and the latencies are met to the end. */
  lemma {:induction false} PollTurns(c: Config, s0: Sys, s: Sys, n: nat, k: nat) returns (t: Sys)
    requires Reaches(c, s0, s, n) && Meets(c, s.(now := s.now + k * GRANULARITY))
    requires s.mpc.PollTest? && s.mpc.timeout == 300 && s.mpc.slept + 10 * k <= 300 && !s.d.mIn.isReceived
    requires s.d.mOut.isSend && !Due(s.d.sOut, s.now + k * GRANULARITY)
    ensures Reaches(c, s0, t, n + 6 * k)
    ensures t == s.(now := s.now + k * GRANULARITY, mpc := PollTest(300, s.mpc.slept + 10 * k))
    decreases k
  {
    hide Reaches, Enabled, Apply, Meets, Checks;
    if k == 0 {
      t := s;
    } else {
      EarlierMeets(c, s, GRANULARITY, k * GRANULARITY);
      var t1 := PollTurn(c, s0, s, n);
      SameMeets(c, s.(now := s.now + k * GRANULARITY), t1.(now := s.now + k * GRANULARITY));
      t := PollTurns(c, s0, t1, n + 6, k - 1);
    }
  }

  /** The last look of a turn, up to its sleep. */
  lemma LooksInVain(c: Config, s0: Sys, s: Sys, n: nat) returns (t: Sys)
    requires Reaches(c, s0, s, n)
    requires s.mpc.PollTest? && s.mpc.timeout == 300 && s.mpc.slept <= 290 && !s.d.mIn.isReceived && Calm(s)
    ensures Reaches(c, s0, t, n + 4) && t == s.(mpc := PollNap(300, s.mpc.slept, s.now + GRANULARITY))
  {
    hide Reaches, Enabled, Apply, Meets, Checks;
    var t1 := MasterPolls(c, s0, s, n);
    t := MasterFinds(c, s0, t1, n + 2);
  }

  /** The master begins its window and polls for 190 ms; the slave has not run. */
  lemma PollsBeforeReply(c: Config, s: Sys) returns (t: Sys)
    requires Init(s) && c.Bounds() && c.sr > 190_000
    ensures Reaches(c, s, t, 133) && DeliveredFrom(s, t) && t.h.checked
    ensures t.now == s.now + TOA + 190_001 && t.mpc == PollNap(300, 190, s.now + TOA + 200_000)
  {
    hide FirstFrame, Reaches, Meets, Checks, Enabled, Apply, Init;
    var t1 := FirstPacketAwaited(c, s);
    MasterPlain(t1);
    var t2 := t1.(mpc := PollTest(300, 0));
    Goes(c, s, t1, 13, t2);
    InTimeMeets(c, t2.(now := t2.now + 19 * GRANULARITY));
    var t3 := PollTurns(c, s, t2, 14, 19);
    var t4 := LooksInVain(c, s, t3, 128);
    InTimeMeets(c, t4.(now := t4.now + 1));
    t := Waits(c, s, t4, 132, 1);
  }

  /** The slave replies a microsecond later than it may; the master's last look comes a microsecond
      before the reply. */
  lemma PollsBeforeArrival(c: Config, s: Sys) returns (t: Sys)
    requires Init(s) && c.Bounds() && c.sr > 190_000
    ensures Reaches(c, s, t, 212) && ReplyOut(s, t) && t.h.checked && t.d.sOut.sendTime + TOA == t.now
    ensures t.now == s.now + TOA + 290_001 && t.mpc == PollNap(300, 290, s.now + TOA + 300_000)
  {
    hide FirstFrame, Reaches, Meets, Checks, Enabled, Apply, Init, IdOf;
    var t0 := PollsBeforeReply(c, s);
    var t1 := Replies(c, s, t0, 133);
    ReplyOutMeets(c, s, t1.(now := t1.now + 9_999));
    var t2 := Waits(c, s, t1, 151, 9_999);
    var t3 := Wakes(c, s, t2, 152);
    ReplyOutMeets(c, s, t3.(now := t3.now + 9 * GRANULARITY));
    var t4 := PollTurns(c, s, t3, 153, 9);
    var t5 := LooksInVain(c, s, t4, 207);
    ReplyOutMeets(c, s, t5.(now := t5.now + 1));
    t := Waits(c, s, t5, 211, 1);
  }

  /** A slave latency beyond 190 ms lets the reply miss the listening window. */
  lemma LateReplyIsStale(c: Config, s: Sys) returns (t: Sys)
    requires Init(s) && c.Bounds() && c.sr > 190_000
    ensures Reaches(c, s, t, 220) && Stale(s, t)
  {
    hide FirstFrame, Reaches, Meets, Checks, Enabled, Apply, Init, IdOf;
    var t0 := PollsBeforeArrival(c, s);
    var t1 := Lands(c, s, t0, 212);
    RestMeets(c, t1.(now := t1.now + 9_999));
    var t2 := Waits(c, s, t1, 216, 9_999);
    var t3 := Wakes(c, s, t2, 217);
    MasterPlain(t3);
    var t4 := t3.(mpc := RecvDone(None));
    Goes(c, s, t3, 218, t4);
    MasterReturns(t4);
    t := t4.(mpc := Outside, mAt := true, m := PackPutBack(t4.m));
    Goes(c, s, t4, 219, t);
  }

  /** A master held up for 200 ms finds its timer expired with the reply in its slot. */
  lemma LateLookIsStale(c: Config, s: Sys) returns (t: Sys)
    requires Init(s) && c.Bounds() && TOA + c.lm >= LLC_TIMEOUT
    ensures Reaches(c, s, t, 35) && Stale(s, t)
  {
    hide FirstFrame, Reaches, Meets, Checks, Enabled, Apply, Init, IdOf;
    var t0 := FirstPacketArrives(c, s);
    var t1 := Replies(c, s, t0, 11);
    ReplyOutMeets(c, s, t1.(now := t1.now + TOA));
    var t2 := Waits(c, s, t1, 29, TOA);
    var t3 := Lands(c, s, t2, 30);
    RestMeets(c, t3.(now := t3.now + TOA));
    t := Waits(c, s, t3, 34, TOA);
  }

  /** From a stale state the master has resent, and both input slots are full. */
  predicate BothFull(s: Sys, t: Sys) {
    && t.mst == MSendAll && t.s.resend == [FirstFrame(s)] && t.s.transId == IdOf(FirstFrame(s))
    && t.spc == Outside && t.sAt && t.sst == SIdle && t.s.recvQ == [] && t.s.sendQ == []
    && t.d.sIn == In(true, FirstFrame(s)) && t.d.mIn.isReceived && t.d.mOut.isSend && t.d.sOut.isSend
    && t.h.k == 1 && t.h.faults == 0
  }

  lemma StaleResends(c: Config, s: Sys, t: Sys, n: nat) returns (u: Sys)
    requires Init(s) && c.Bounds() && Reaches(c, s, t, n) && Stale(s, t)
    ensures Reaches(c, s, u, n + 14) && BothFull(s, u) && InTime(c, u) && u.h.checked && u.h.deliveredAt == u.now
  {
    hide FirstFrame, Reaches, Meets, Checks, Renews, Enabled, Apply, Init, IdOf;
    FirstFrameRenews(s);
    var t1 := TimesOut(c, s, t, n);
    RestMeets(c, t1.(now := t1.now + TOA));
    var t2 := Transmits(c, s, t1, n + 3);
    u := MasterListens(c, s, t2, n + 12);
  }

  /** The slave recognises the packet and repeats its reply. */
  lemma RepeatsReply(c: Config, s: Sys, t: Sys, n: nat) returns (u: Sys)
    requires Init(s) && Reaches(c, s, t, n) && BothFull(s, t) && InTime(c, t)
    ensures Reaches(c, s, u, n + 17) && SlaveRepeated(s, u) && SamePlace(t, u) && u.d.sOut.sendTime == t.now
  {
    hide FirstFrame, Reaches, Meets, Checks, FrameOf, TypeOf, IdOf, IsReset, Enabled, Apply, Init;
    FirstFrameRenews(s);
    var t1 := SlaveLooks(c, s, t, n);
    var t2 := SlaveReads(c, s, t1, n + 5);
    var t3 := SlaveRepeats(c, s, t2, n + 10);
    u := SlaveSends(c, s, t3, n + 13);
  }

  /** The repeated reply is on the air, and the master's slot is still full. */
  predicate SlaveRepeated(s: Sys, t: Sys) {
    && t.spc == SendNap(t.d.sOut.sendTime + TOA) && !t.d.sOut.isSend && t.d.sOut.data == FirstFrame(s)
    && t.sst == SIdle && t.s.recvQ == [] && |t.s.sendQ| == 1 && !t.d.sIn.isReceived && t.d.mOut.isSend
    && t.d.mIn.isReceived && t.h.k == 1 && t.h.faults == 0
  }

  /** It reaches a full slot. */
  lemma StaleBreaks(c: Config, s: Sys, t: Sys, n: nat) returns (u: Sys, m: nat)
    requires Init(s) && c.Bounds() && Reaches(c, s, t, n) && Stale(s, t)
    ensures Reaches(c, s, u, m) && u.d.err > 0 && u.h.k == 1 && u.h.faults == 0
  {
    hide FirstFrame, Reaches, Meets, Checks, Renews, Enabled, Apply, Init, IdOf, BothFull, Stale;
    FirstFrameRenews(s);
    var t1 := StaleResends(c, s, t, n);
    var t2 := RepeatsReply(c, s, t1, n + 14);
    ClearMeets(c, t2.(now := t2.now + TOA));
    var t3 := Waits(c, s, t2, n + 31, TOA);
    u := ReplyArrives(c, s, t3, n + 32);
    m := n + 34;
  }

  // ---------------------------------------------------------------- the latencies are exact

  /** From every start, latencies beyond the bounds allow a run in which a packet reaches a full input
      slot, in the first transaction and without a packet lost or damaged. */
  lemma DelaysAloneBreakTheRadio(c: Config, s: Sys) returns (run: seq<Sys>, acts: seq<Action>)
    requires Init(s) && c.Bounds() && !c.Valid()
    ensures IsRun(c, run, acts) && run[0] == s
    ensures run[|run| - 1].d.err > 0 && run[|run| - 1].h.k == 1 && run[|run| - 1].h.faults == 0
  {
    hide Reaches, Meets, Enabled, Apply, Init, Stale;
    var t, n;
    if c.sr > 190_000 {
      t := LateReplyIsStale(c, s);
      n := 220;
    } else {
      t := LateLookIsStale(c, s);
      n := 35;
    }
    var u, m := StaleBreaks(c, s, t, n);
    run, acts := ReachedByRun(c, s, u, m);
  }

  /** No run that meets the latencies makes the radio count an error. */
  ghost predicate Safe(c: Config) {
    forall run: seq<Sys>, acts: seq<Action>, i: nat :: IsRun(c, run, acts) && i < |run| ==> run[i].d.err == 0
  }

  /** A start of the program, with buffers of zeros. */
  function Start(): Sys {
    var i, o := In(false, Silence()), Out(true, 0, Silence());
    Sys(0, Devs(i, o, i, o, 0),
        Tsm(TRANS_ID_START, 0, 0, 0, [], [], [], POOL_SIZE, POOL_SIZE), MIdle, true, Outside,
        Tsm(TRANS_ID_NONE, 0, 0, 0, [], [], [], POOL_SIZE, POOL_SIZE), SIdle, true, Outside,
        History(0, 0, 0, 0, 0, 0, true, 0, 0, [], []))
  }

  lemma StartIsInit()
    ensures Init(Start())
  {
    hide Silence;
  }

  /** The bounds on the latencies are exact: the radio stays free of errors in every run that meets
      them if and only if the slave's latency and the time on air fit into 290 ms, and the
      master's latency and the time on air stay below the timer's 300 ms. */
  lemma LatenciesExact(c: Config)
    requires c.Bounds()
    ensures c.Valid() <==> Safe(c)
  {
    hide IsRun, Init;
    if c.Valid() {
      forall run: seq<Sys>, acts: seq<Action>, i: nat | IsRun(c, run, acts) && i < |run|
        ensures run[i].d.err == 0
      {
        NoChannelError(c, run, acts, i);
      }
    } else {
      StartIsInit();
      var run, acts := DelaysAloneBreakTheRadio(c, Start());
      RunIsNotEmpty(c, run, acts);
    }
  }

  lemma RunIsNotEmpty(c: Config, run: seq<Sys>, acts: seq<Action>)
    requires IsRun(c, run, acts)
    ensures |run| > 0
  {
  }
}
