/** Scheduled runs exist: from every start, for every delta, there is one past any given time in which
    nothing is lost or damaged.  So no promise about scheduled runs is empty. */
module Continuation {

  import opened Detection
  import opened Packet
  import opened Radio
  import opened Llc
  import opened Protocol
  import opened Invariant
  import opened Theorems
  import opened Progress
  import opened Scheduling
  import opened Executions
  import AirSteps

  // ---------------------------------------------------------------- clean states

  /** Nothing damaged is anywhere. */
  predicate Clean(s: Sys) {
    && (s.d.mIn.isReceived ==> Checks(s.d.mIn.data)) && (s.d.sIn.isReceived ==> Checks(s.d.sIn.data))
    && (s.mpc.Holding() ==> Checks(s.mpc.Held())) && (s.spc.Holding() ==> Checks(s.spc.Held()))
    && s.h.faults == 0
  }

  lemma CarryClean(c: Config, s: Sys, src: Side)
    requires Inv(c, s) && Clean(s)
    ensures Clean(Carry(s, src, Arrives(Silence())))
  {
    hide F, Checks, XorBytes, Silence, MasterShape, SlaveShape, InCall, Numbers, Contents, Slots, OneToken, Timing,
      Polling, Alone, Counts, Logs;
    AirSteps.SilenceKeeps(s.d.OutOf(src).data);
    FrameOfK(s.h.k);
  }

  lemma WorkedClean(c: Config, s: Sys)
    requires Inv(c, s) && Clean(s)
    ensures Clean(Worked(s, Arrives(Silence()), Arrives(Silence()), 0))
  {
    hide Inv, Clean, Carry, Detectable, ChannelCheck;
    SilenceIsDetectable();
    CarryClean(c, s, M);
    var t := Carry(s, M, Arrives(Silence()));
    AirSteps.CarryMaster(c, s, Arrives(Silence()));
    assert t.(now := t.now + 0) == t;
    CarryClean(c, t, S);
    CheckClean(Carry(t, S, Arrives(Silence())));
  }

  lemma SilenceIsDetectable()
    ensures Detectable(Arrives(Silence()))
  {
  }

  lemma CheckClean(s: Sys)
    ensures Clean(s) ==> Clean(s.(d := ChannelCheck(s.d)))
  {
    hide Checks;
  }

  lemma MasterClean(c: Config, s: Sys)
    requires Inv(c, s) && Clean(s) && Enabled(s, GoM())
    ensures Clean(Apply(s, GoM()))
  {
    hide F, Checks, Silence, Detectable, Worked, MasterCase, MasterShape, SlaveShape, InCall, Numbers, Contents,
      OnAir, OneToken, Timing, Polling, Alone, Counts, Logs;
    if RunsWorker(s.mpc) { WorkedClean(c, s); WorkedKeepsThreads(s, Arrives(Silence()), Arrives(Silence()), 0); }
  }

  lemma SlaveClean(c: Config, s: Sys)
    requires Inv(c, s) && Clean(s) && Enabled(s, GoS())
    ensures Clean(Apply(s, GoS()))
  {
    hide F, Checks, Silence, Detectable, Worked, SlaveCase, MasterShape, SlaveShape, InCall, Numbers, Contents,
      OnAir, OneToken, Timing, Polling, Alone, Counts, Logs;
    if RunsWorker(s.spc) { WorkedClean(c, s); WorkedKeepsThreads(s, Arrives(Silence()), Arrives(Silence()), 0); }
  }

  // ---------------------------------------------------------------- how far to the next sleep

  function PollRank(pc: Pc): nat {
    match pc {
      case SendEnter(_, _) => 4
      case SendProbe(_, _) => 3
      case SendFault(_, _) => 2
      case SendCommit(_, _, _) => 1
      case SendNap(_) => 23
      case SendWorker => 22
      case SendAudit => 21
      case SendDone => 20
      case RecvEnter(_) => 17
      case PollTest(t, slept) => if t > slept then 16 else 21
      case PollWorker(_, _) => 15
      case PollRead(_, _) => 14
      case PollAudit(_, _, _) => 13
      case PollNap(_, _, _) => 22
      case RecvFault => 21
      case RecvCopy => 12
      case RecvAudit(_) => 11
      case RecvDone(result) => if result.Some? then 10 else 20
      case Outside => 0
    }
  }

  predicate Asleep(pc: Pc, now: int) { (pc.SendNap? || pc.PollNap?) && now < pc.wake }

  /** How many moves the master makes at most before it sleeps. */
  function MasterMoves(s: Sys): nat {
    if Asleep(s.mpc, s.now) then 0
    else if !s.mpc.Outside? then PollRank(s.mpc)
    else if s.m.recvQ != [] && s.mst == MSendAll then 9
    else if s.mst == MReceivedAll then 8
    else if s.mst == MIdle || s.mst == MResend then 7
    else if s.m.sendQ != [] then (if s.mAt then 6 else 5)
    else if s.mAt then 19 else 18
  }

  function SlaveMoves(s: Sys): nat {
    if Asleep(s.spc, s.now) then 0
    else if !s.spc.Outside? then PollRank(s.spc)
    else if s.sst == SReceivedAll then 8
    else if s.sst == SSendAll || s.sst == SResend then 7
    else if s.s.recvQ != [] then 9
    else if s.s.sendQ != [] then (if s.sAt then 6 else 5)
    else if s.sAt then 19 else 18
  }

  lemma SlaveMovesDrop(c: Config, s: Sys)
    requires Inv(c, s) && Clean(s) && Enabled(s, GoS())
    ensures var t := Apply(s, GoS()); t.now == s.now && SlaveMoves(t) < SlaveMoves(s)
  {
    hide F, Checks, Silence, Detectable, Worked, FrameOf, IdFor, IdOf, TypeOf, IsReset, MasterShape, Numbers, OnAir,
      OneToken, Timing, Polling, Alone, Counts, Logs;
    FrameOfK(s.h.k);
    if RunsWorker(s.spc) { StillWorks(s); }
  }

  lemma StillWorks(s: Sys)
    ensures var t := Worked(s, Arrives(Silence()), Arrives(Silence()), 0);
      && t.now == s.now && t.m == s.m && t.mst == s.mst && t.mAt == s.mAt && t.mpc == s.mpc
      && t.s == s.s && t.sst == s.sst && t.sAt == s.sAt && t.spc == s.spc
  {
    hide Targ, ChannelCheck, Observe;
  }

  lemma MasterMovesDrop(c: Config, s: Sys)
    requires c.Valid() && Inv(c, s) && Meets(c, s) && Clean(s) && Enabled(s, GoM())
    ensures var t := Apply(s, GoM()); t.now == s.now && MasterMoves(t) < MasterMoves(s)
  {
    hide F, Checks, Silence, Detectable, Worked, FrameOf, IdFor, IdOf, TypeOf, IsReset, NextTransId, SlaveShape,
      Numbers, Contents, OnAir, OneToken, Timing, Polling, Counts, Logs, AtMaster, AtSlave, Tokens;
    if RunsWorker(s.mpc) { StillWorks(s); }
  }

  lemma MasterLeavesSlaveMoves(s: Sys)
    requires Enabled(s, GoM())
    ensures SlaveMoves(Apply(s, GoM())) == SlaveMoves(s)
  {
    hide Checks, Silence, Detectable, Worked, PollRank, MasterCase;
    StillWorks(s);
  }

  lemma SlaveLeavesMasterMoves(s: Sys)
    requires Enabled(s, GoS())
    ensures MasterMoves(Apply(s, GoS())) == MasterMoves(s)
  {
    hide Checks, Silence, Detectable, Worked, PollRank, SlaveCase;
    StillWorks(s);
  }

  // ---------------------------------------------------------------- one more step

  /** A thread that does not sleep can move. */
  lemma CanMove(c: Config, s: Sys)
    requires Inv(c, s)
    ensures !Asleep(s.mpc, s.now) ==> Enabled(s, GoM())
    ensures !Asleep(s.spc, s.now) ==> Enabled(s, GoS())
  {
    hide F, Checks, IdFor, InCall, OnAir, Slots, OneToken, Timing, Polling, Alone, Counts, Logs, Detectable;
    SilenceIsDetectable();
  }

  /** Who moves next: a thread that can, the master first; else time passes to the earlier waking. */
  function Next(s: Sys): Action {
    if !Asleep(s.mpc, s.now) then GoM()
    else if !Asleep(s.spc, s.now) then GoS()
    else Tick((if s.mpc.wake <= s.spc.wake then s.mpc.wake else s.spc.wake) - s.now)
  }

  /** The time to go, and the moves before time must pass. */
  function Ahead(s: Sys, end: int): nat { if s.now < end then end - s.now else 0 }

  function Moves(s: Sys): nat { MasterMoves(s) + SlaveMoves(s) }

  lemma MasterGoes(delta: nat, s: Sys, k: Clocks)
    requires Enabled(s, GoM()) && BothPrompt(delta, s, k) && Apply(s, GoM()).now == s.now
    ensures BothPrompt(delta, Apply(s, GoM()), AdvanceBoth(s, k, GoM()))
  {
    hide Checks, Silence, Detectable, Worked, MasterLlc;
    StillWorks(s);
    LlcKeepsPlaces(s);
  }

  lemma SlaveGoes(delta: nat, s: Sys, k: Clocks)
    requires Enabled(s, GoS()) && BothPrompt(delta, s, k) && Apply(s, GoS()).now == s.now
    ensures BothPrompt(delta, Apply(s, GoS()), AdvanceBoth(s, k, GoS()))
  {
    hide Checks, Silence, Detectable, Worked, SlaveLlc;
    StillWorks(s);
    LlcKeepsPlaces(s);
  }

  lemma LlcKeepsPlaces(s: Sys)
    ensures (s.mst == MResend ==> s.m.resend != []) ==>
              MasterLlc(s).mpc == s.mpc && MasterLlc(s).spc == s.spc && MasterLlc(s).now == s.now
    ensures (s.sst == SResend ==> s.s.resend != []) ==>
              SlaveLlc(s).mpc == s.mpc && SlaveLlc(s).spc == s.spc && SlaveLlc(s).now == s.now
  {
    hide MasterCase, SlaveCase;
  }

  /** The next step is possible, on schedule, keeps the state clean, and uses up moves or time. */
  lemma NextGoes(delta: nat, s: Sys, k: Clocks, end: int)
    requires delta <= MAX_DELTA && Keeps(delta, s, k) && BothPrompt(delta, s, k) && Clean(s) && s.now < end
    ensures Enabled(s, Next(s))
    ensures var t := Apply(s, Next(s));
      && BothPrompt(delta, t, AdvanceBoth(s, k, Next(s))) && Clean(t)
      && (Ahead(t, end) < Ahead(s, end) || (Ahead(t, end) == Ahead(s, end) && Moves(t) < Moves(s)))
  {
    hide Inv, Meets, OnTime, OnSchedule, SlaveOnTime, Clean, Enabled, Apply, MasterMoves, SlaveMoves, BothPrompt,
      AdvanceBoth, GoM, GoS, Latencies;
    var c := Latencies(delta);
    LatenciesValid(delta);
    CanMove(c, s);
    if !Asleep(s.mpc, s.now) {
      MasterMovesDrop(c, s);
      MasterLeavesSlaveMoves(s);
      MasterClean(c, s);
      MasterGoes(delta, s, k);
    } else if !Asleep(s.spc, s.now) {
      SlaveMovesDrop(c, s);
      SlaveLeavesMasterMoves(s);
      SlaveClean(c, s);
      SlaveGoes(delta, s, k);
    } else {
      TimeGoes(delta, s, k);
    }
  }

  lemma TimeGoes(delta: nat, s: Sys, k: Clocks)
    requires Asleep(s.mpc, s.now) && Asleep(s.spc, s.now) && BothPrompt(delta, s, k) && Clean(s)
    ensures Enabled(s, Next(s)) && BothPrompt(delta, Apply(s, Next(s)), AdvanceBoth(s, k, Next(s)))
    ensures Clean(Apply(s, Next(s))) && Apply(s, Next(s)).now > s.now
  {
    hide Checks;
  }

  // ---------------------------------------------------------------- runs without end

  lemma Appended(delta: nat, run: seq<Sys>, acts: seq<Action>, clocks: seq<Clocks>, a: Action)
    requires IsScheduledRun(delta, run, acts, clocks) && Enabled(run[|acts|], a)
    requires BothPrompt(delta, Apply(run[|acts|], a), AdvanceBoth(run[|acts|], clocks[|acts|], a))
    ensures IsScheduledRun(delta, run + [Apply(run[|acts|], a)], acts + [a], clocks + [AdvanceBoth(run[|acts|], clocks[|acts|], a)])
  {
    hide Enabled, Apply, BothPrompt, AdvanceBoth, Init;
  }

  predicate AllClean(run: seq<Sys>) {
    forall i :: 0 <= i < |run| ==> Clean(run[i])
  }

  /** Any scheduled run whose states are clean goes on, past any time, without a loss. */
  lemma {:induction false} GoesOn(delta: nat, run: seq<Sys>, acts: seq<Action>, clocks: seq<Clocks>, end: int)
      returns (run2: seq<Sys>, acts2: seq<Action>, clocks2: seq<Clocks>)
    requires delta <= MAX_DELTA && IsScheduledRun(delta, run, acts, clocks) && AllClean(run)
    ensures IsScheduledRun(delta, run2, acts2, clocks2) && run <= run2 && AllClean(run2) && end <= run2[|acts2|].now
    decreases Ahead(run[|acts|], end), Moves(run[|acts|])
  {
    hide IsScheduledRun, Clean, Keeps, BothPrompt, Enabled, Apply, AdvanceBoth, Moves, Next;
    LengthsOf(delta, run, acts, clocks);
    var s := run[|acts|];
    if end <= s.now {
      run2, acts2, clocks2 := run, acts, clocks;
    } else {
      LastOnSchedule(delta, run, acts, clocks);
      NextGoes(delta, s, clocks[|acts|], end);
      Appended(delta, run, acts, clocks, Next(s));
      var t, l := Apply(s, Next(s)), AdvanceBoth(s, clocks[|acts|], Next(s));
      run2, acts2, clocks2 := GoesOn(delta, run + [t], acts + [Next(s)], clocks + [l], end);
      LengthsOf(delta, run2, acts2, clocks2);
    }
  }

  lemma LengthsOf(delta: nat, run: seq<Sys>, acts: seq<Action>, clocks: seq<Clocks>)
    requires IsScheduledRun(delta, run, acts, clocks)
    ensures |run| == |clocks| == |acts| + 1
  {
  }

  lemma LastOnSchedule(delta: nat, run: seq<Sys>, acts: seq<Action>, clocks: seq<Clocks>)
    requires delta <= MAX_DELTA && IsScheduledRun(delta, run, acts, clocks)
    ensures Keeps(delta, run[|acts|], clocks[|acts|]) && BothPrompt(delta, run[|acts|], clocks[|acts|])
  {
    hide Keeps, BothPrompt, Enabled, Apply, AdvanceBoth, Init;
    ScheduledKeeps(delta, run, acts, clocks, |acts|);
  }

  /** From every start and for every delta there is a scheduled run past any time in which nothing is
      lost or damaged. */
  lemma ScheduledRunsExist(delta: nat, s: Sys, end: int) returns (run: seq<Sys>, acts: seq<Action>, clocks: seq<Clocks>)
    requires delta <= MAX_DELTA && Init(s)
    ensures IsScheduledRun(delta, run, acts, clocks) && run[0] == s
    ensures end <= run[|acts|].now && forall i :: 0 <= i < |run| ==> run[i].h.faults == 0
  {
    hide Init, Moves;
    FirstIsScheduled(delta, s);
    var k := Clocks(Watch(s.now, s.now), s.now);
    run, acts, clocks := GoesOn(delta, [s], [], [k], end);
    assert [s] <= run;
  }

  lemma FirstIsScheduled(delta: nat, s: Sys)
    requires Init(s)
    ensures IsScheduledRun(delta, [s], [], [Clocks(Watch(s.now, s.now), s.now)]) && Clean(s)
  {
  }

  /** ... and any number of transactions is completed in one of them. */
  lemma AnyNumberCompletes(delta: nat, s: Sys, m: nat) returns (run: seq<Sys>, acts: seq<Action>, clocks: seq<Clocks>)
    requires delta <= MAX_DELTA && Init(s)
    ensures IsScheduledRun(delta, run, acts, clocks) && run[0] == s && |run[|acts|].h.completed| >= m
  {
    hide IsScheduledRun, Init, Period;
    var p := Period(delta, 0);
    run, acts, clocks := ScheduledRunsExist(delta, s, s.now + (m + 1) * p + delta);
    LengthsOf(delta, run, acts, clocks);
    Throughput(delta, run, acts, clocks, |acts|, 0);
    PeriodPositive(delta);
    if run[|acts|].h.k < m + 1 { Product(run[|acts|].h.k, m, p); }
  }

  lemma PeriodPositive(delta: nat)
    ensures Period(delta, 0) > 0
  {
  }

  lemma Product(k: nat, m: nat, p: nat)
    requires k <= m && p > 0
    ensures k * p < (m + 1) * p
  {
    assert (m + 1 - k) * p > 0;
  }
}
