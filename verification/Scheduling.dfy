/** The latencies derived: if both threads are scheduled within delta of being able to move, and delta
    is at most 4 090 microseconds, every run meets latencies under which the protocol is safe. */
module Scheduling {

  import opened Packet
  import opened Radio
  import opened Llc
  import opened Protocol
  import opened Invariant
  import opened Theorems
  import opened Progress

  /** The largest delta, in microseconds. */
  const MAX_DELTA := 4_090

  /** The master's watch, and when the slave's thread made the move to its present position. */
  datatype Clocks = Clocks(w: Watch, since: int)

  function AdvanceBoth(s: Sys, k: Clocks, a: Action): Clocks {
    Clocks(Advance(s, k.w, a), if a.Slave? then s.now else k.since)
  }

  /** The slave's thread is scheduled within delta of being able to move. */
  predicate SlavePrompt(delta: nat, s: Sys, since: int) {
    s.now <= (if s.spc.SendNap? || s.spc.PollNap? then s.spc.wake else since) + delta
  }

  predicate BothPrompt(delta: nat, s: Sys, k: Clocks) {
    Prompt(delta, s, k.w) && SlavePrompt(delta, s, k.since)
  }

  // ---------------------------------------------------------------- the slave's latency

  /** How long the slave can take from its position to the commit of a reply, if a packet waits for it:
      once around its poll loop, through both link-control machines, or out of a sleep. */
  function Left(delta: nat, s: Sys): nat {
    match s.spc {
      case Outside =>
        if s.sst == SReceivedAll then 7 * delta
        else if s.sst == SSendAll || s.sst == SResend then 6 * delta
        else if s.s.recvQ != [] then 8 * delta
        else if s.s.sendQ != [] then (if s.sAt then 5 * delta else 4 * delta)
        else if s.sAt then 18 * delta else 17 * delta
      case SendEnter(_, _) => 3 * delta
      case SendProbe(_, _) => 2 * delta
      case SendFault(_, _) => 2 * delta
      case SendCommit(_, _, _) => delta
      case SendNap(_) => TOA + 22 * delta
      case SendWorker => 21 * delta
      case SendAudit => 20 * delta
      case SendDone => 19 * delta
      case RecvEnter(_) => 16 * delta
      case PollTest(t, slept) => if t > slept then 15 * delta else 20 * delta
      case PollWorker(_, _) => 14 * delta
      case PollRead(_, _) => 13 * delta
      case PollAudit(_, _, ready) => if ready then 12 * delta else GRANULARITY + 22 * delta
      case PollNap(_, _, _) => GRANULARITY + 21 * delta
      case RecvFault => 20 * delta
      case RecvCopy => 11 * delta
      case RecvAudit(data) => if Checks(data) then 10 * delta else 20 * delta
      case RecvDone(result) => if result.Some? && Checks(result.value) then 9 * delta else 19 * delta
    }
  }

  /** The longest of them: the slave has just begun to send. */
  function Slack(delta: nat): nat { TOA + 22 * delta }

  predicate Urgent(s: Sys) { s.d.sIn.isReceived || AtSlave(s) }

  predicate SlaveOnTime(delta: nat, s: Sys, since: int) {
    && since <= s.now
    && (s.spc.SendNap? ==> s.spc.wake == since + TOA)
    && (s.spc.PollNap? ==> s.spc.wake == since + GRANULARITY)
    && (Urgent(s) ==> since + Left(delta, s) <= s.h.deliveredAt + Slack(delta))
  }

  lemma LeftWithinSlack(delta: nat, s: Sys)
    ensures Left(delta, s) <= Slack(delta)
  {
    hide Checks;
  }

  // ---------------------------------------------------------------- the slave keeps time

  /** The link control: every case but the last leads on to the reply. */
  lemma SlaveLlcOnTime(delta: nat, c: Config, s: Sys, since: int)
    requires Inv(c, s) && SlaveOnTime(delta, s, since) && SlavePrompt(delta, s, since)
    requires s.spc.Outside? && s.sAt && SlaveCan(s)
    ensures SlaveOnTime(delta, SlaveLlc(s), s.now)
  {
    hide F, Checks, IdFor, IdOf, TypeOf, IsReset, FrameOf, MasterShape, InCall, Numbers, OnAir, Slots, OneToken,
      Timing, Polling, Alone, Counts, Logs;
    FrameOfK(s.h.k);
  }

  /** Going into the MAC worker and coming out of it. */
  lemma SlaveMacOnTime(delta: nat, c: Config, s: Sys, since: int, a: Action)
    requires Inv(c, s) && SlaveOnTime(delta, s, since) && SlavePrompt(delta, s, since)
    requires a.Slave? && Enabled(s, a) && !s.spc.Busy() && !(s.spc.Outside? && s.sAt)
    ensures SlaveOnTime(delta, Apply(s, a), s.now)
  {
    hide F, Checks, IdFor, MasterShape, InCall, Numbers, Contents, OnAir, Slots, OneToken, Timing, Polling, Alone,
      Counts, Logs;
  }

  /** Inside the radio, apart from the worker. */
  lemma SlaveRadioOnTime(delta: nat, c: Config, s: Sys, since: int, a: Action)
    requires Inv(c, s) && SlaveOnTime(delta, s, since) && SlavePrompt(delta, s, since)
    requires a.Slave? && Enabled(s, a) && s.spc.Busy() && !RunsWorker(s.spc)
    ensures SlaveOnTime(delta, Apply(s, a), s.now)
  {
    hide F, Checks, IdFor, MasterShape, Numbers, Contents, OnAir, Timing, Polling, Alone, Counts, Logs;
  }

  /** The worker, run by the slave: a packet delivered now leaves the slave all its slack. */
  lemma SlaveWorkOnTime(delta: nat, c: Config, s: Sys, since: int, a: Action)
    requires Inv(c, s) && SlaveOnTime(delta, s, since) && SlavePrompt(delta, s, since)
    requires a.Slave? && Enabled(s, a) && RunsWorker(s.spc)
    ensures SlaveOnTime(delta, Apply(s, a), s.now)
  {
    hide Inv, Checks, Worked, Slack;
    InvShapeOfSlave(c, s);
    WorkedLeavesSlave(s, a.fm, a.fs, a.gap);
    LeftWithinSlack(delta, Apply(s, a));
  }

  lemma InvShapeOfSlave(c: Config, s: Sys)
    requires Inv(c, s)
    ensures SlaveShape(s) && InCall(s.s, s.spc, SLAVE_TIMEOUT)
  {
    hide SlaveShape, InCall;
  }

  /** The worker leaves the slave where it is; if a packet newly waits for it, it came no earlier than
      the worker ran. */
  lemma WorkedLeavesSlave(s: Sys, fm: Fate, fs: Fate, gap: nat)
    ensures var t := Worked(s, fm, fs, gap);
      && t.now >= s.now && t.s == s.s && t.sst == s.sst && t.sAt == s.sAt && t.spc == s.spc
      && (t.h.deliveredAt == s.now || (t.h.deliveredAt == s.h.deliveredAt && t.d.sIn.isReceived == s.d.sIn.isReceived))
  {
    hide Checks;
  }

  // ---------------------------------------------------------------- the rest of the system

  lemma OthersLeaveSlave(s: Sys, a: Action)
    requires Enabled(s, a) && !a.Slave?
    ensures var t := Apply(s, a);
      && t.now >= s.now && t.s == s.s && t.sst == s.sst && t.sAt == s.sAt && t.spc == s.spc
      && (t.h.deliveredAt == s.now || (t.h.deliveredAt == s.h.deliveredAt && t.d.sIn.isReceived == s.d.sIn.isReceived))
  {
    hide Checks, Worked, MasterCase, Detectable;
    if a.Master? { WorkedLeavesSlave(s, a.fm, a.fs, a.gap); }
  }

  lemma OthersOnTime(delta: nat, s: Sys, since: int, a: Action)
    requires SlaveOnTime(delta, s, since) && Enabled(s, a) && !a.Slave?
    ensures SlaveOnTime(delta, Apply(s, a), since)
  {
    hide Checks, Apply, Enabled, Slack;
    OthersLeaveSlave(s, a);
    LeftWithinSlack(delta, Apply(s, a));
  }

  lemma SlaveStepOnTime(delta: nat, c: Config, s: Sys, since: int, a: Action)
    requires Inv(c, s) && SlaveOnTime(delta, s, since) && SlavePrompt(delta, s, since) && Enabled(s, a)
    ensures SlaveOnTime(delta, Apply(s, a), if a.Slave? then s.now else since)
  {
    hide Inv, SlaveOnTime, SlavePrompt, SlaveStep, SlaveLlc, Detectable, MasterStep;
    if !a.Slave? { OthersOnTime(delta, s, since, a); }
    else if RunsWorker(s.spc) { SlaveWorkOnTime(delta, c, s, since, a); }
    else if s.spc.Busy() { SlaveRadioOnTime(delta, c, s, since, a); }
    else if s.spc.Outside? && s.sAt { LlcStepIs(s, a); SlaveLlcOnTime(delta, c, s, since); }
    else { SlaveMacOnTime(delta, c, s, since, a); }
  }

  lemma LlcStepIs(s: Sys, a: Action)
    requires a.Slave? && Enabled(s, a) && s.spc.Outside? && s.sAt
    ensures Apply(s, a) == SlaveLlc(s)
  {
    hide SlaveLlc, Worked, Detectable;
  }

  // ---------------------------------------------------------------- both latencies

  /** The latencies that scheduling within delta gives. */
  function Latencies(delta: nat): Config { Config(Slack(delta), 10 * delta) }

  lemma LatenciesValid(delta: nat)
    ensures Latencies(delta).Valid() <==> delta <= MAX_DELTA
  {
  }

  lemma SlaveMeets(delta: nat, s: Sys, since: int)
    requires SlaveOnTime(delta, s, since) && SlavePrompt(delta, s, since) && Urgent(s)
    ensures s.now <= s.h.deliveredAt + Slack(delta)
  {
    hide Checks, AtSlave;
  }

  lemma MasterMeets(delta: nat, s: Sys, w: Watch)
    requires OnTime(delta, s, w) && Prompt(delta, s, w)
    requires s.mst == MSendAll && !s.h.checked && Unchecked(s)
    ensures s.now <= s.m.timerStart + TOA + 10 * delta
  {
    hide Turns, Turn, Listen;
  }

  /** Before its first look at the timer the master sends; it does not listen. */
  predicate Unchecked(s: Sys) {
    s.h.listens == 0 && (s.mpc.Outside? || s.mpc.PreCommit() || s.mpc.PostCommit()) && !s.mpc.SendFault?
    && (s.mpc.Outside? && !s.mAt ==> s.m.sendQ != [])
  }

  lemma StaysUnchecked(delta: nat, c: Config, s: Sys, a: Action, w: Watch)
    requires Inv(c, s) && Enabled(s, a) && OnTime(delta, Apply(s, a), w)
    requires Apply(s, a).mst == MSendAll && !Apply(s, a).h.checked
    ensures Unchecked(Apply(s, a))
  {
    hide F, Checks, IdFor, IdOf, FrameOf, NextTransId, SlaveShape, Numbers, Contents, OnAir, OneToken, Timing, Polling, Counts, Logs,
      Worked, Latest, Detectable, SlaveStep;
    if a.Master? && RunsWorker(s.mpc) { WorkedKeepsMaster(s, a.fm, a.fs, a.gap); }
    if a.Slave? { SlaveLeavesMasterUnchecked(s, a); }
  }

  lemma SlaveLeavesMasterUnchecked(s: Sys, a: Action)
    requires Enabled(s, a) && a.Slave?
    ensures var t := Apply(s, a);
      t.m == s.m && t.mst == s.mst && t.mAt == s.mAt && t.mpc == s.mpc && t.h.checked == s.h.checked && t.h.listens == s.h.listens
  {
    hide Checks, Worked, SlaveCase, Detectable;
    WorkedKeepsMaster(s, a.fm, a.fs, a.gap);
  }

  /** Keeping time means meeting the latencies. */
  lemma OnTimeMeets(delta: nat, s: Sys, k: Clocks)
    requires OnTime(delta, s, k.w) && SlaveOnTime(delta, s, k.since) && BothPrompt(delta, s, k)
    requires s.mst == MSendAll && !s.h.checked ==> Unchecked(s)
    ensures Meets(Latencies(delta), s)
  {
    hide OnTime, SlaveOnTime, Prompt, SlavePrompt, AtSlave, Slack, Unchecked;
    if s.d.sIn.isReceived || AtSlave(s) { SlaveMeets(delta, s, k.since); }
    if s.mst == MSendAll && !s.h.checked { MasterMeets(delta, s, k.w); }
  }

  // ---------------------------------------------------------------- runs

  /** A run whose threads are both scheduled within delta; nothing is said of latencies. */
  predicate IsScheduledRun(delta: nat, run: seq<Sys>, acts: seq<Action>, clocks: seq<Clocks>) {
    && |run| == |acts| + 1 == |clocks|
    && Init(run[0]) && clocks[0] == Clocks(Watch(run[0].now, run[0].now), run[0].now)
    && (forall i :: 0 <= i < |acts| ==>
          Enabled(run[i], acts[i]) && run[i + 1] == Apply(run[i], acts[i]) && clocks[i + 1] == AdvanceBoth(run[i], clocks[i], acts[i]))
    && (forall i :: 0 <= i < |run| ==> BothPrompt(delta, run[i], clocks[i]))
  }

  /** What is known of each of its states. */
  predicate Keeps(delta: nat, s: Sys, k: Clocks) {
    && Inv(Latencies(delta), s) && Meets(Latencies(delta), s)
    && OnTime(delta, s, k.w) && OnSchedule(delta, s, k.w) && SlaveOnTime(delta, s, k.since)
  }

  lemma InitKeeps(delta: nat, s: Sys)
    requires delta <= MAX_DELTA && Init(s)
    ensures Keeps(delta, s, Clocks(Watch(s.now, s.now), s.now))
  {
    hide Inv, OnTime, OnSchedule, Left, Slack;
    LatenciesValid(delta);
    InitInv(Latencies(delta), s);
    InitOnTime(delta, s);
  }

  lemma StepKeeps(delta: nat, s: Sys, k: Clocks, a: Action)
    requires delta <= MAX_DELTA && Keeps(delta, s, k) && BothPrompt(delta, s, k) && Enabled(s, a)
    requires BothPrompt(delta, Apply(s, a), AdvanceBoth(s, k, a))
    ensures Keeps(delta, Apply(s, a), AdvanceBoth(s, k, a))
  {
    hide Inv, OnTime, OnSchedule, SlaveOnTime, Meets, Apply, Enabled, Prompt, SlavePrompt, Unchecked, Advance,
      Latencies;
    LatenciesValid(delta);
    var c, t, l := Latencies(delta), Apply(s, a), AdvanceBoth(s, k, a);
    if a.Master? { MasterOnTime(delta, c, s, k.w, a); } else { OtherOnTime(delta, c, s, k.w, a); }
    SlaveStepOnTime(delta, c, s, k.since, a);
    if t.mst == MSendAll && !t.h.checked { StaysUnchecked(delta, c, s, a, l.w); }
    OnTimeMeets(delta, t, l);
    StepInv(c, s, a);
  }

  lemma {:induction false} ScheduledKeeps(delta: nat, run: seq<Sys>, acts: seq<Action>, clocks: seq<Clocks>, i: nat)
    requires delta <= MAX_DELTA && IsScheduledRun(delta, run, acts, clocks) && i < |run|
    ensures Keeps(delta, run[i], clocks[i])
  {
    hide Keeps, BothPrompt, Apply, Enabled, AdvanceBoth, Init;
    if i == 0 {
      InitKeeps(delta, run[0]);
    } else {
      ScheduledKeeps(delta, run, acts, clocks, i - 1);
      assert run[i - 1 + 1] == Apply(run[i - 1], acts[i - 1]);
      StepKeeps(delta, run[i - 1], clocks[i - 1], acts[i - 1]);
    }
  }

  function Watches(clocks: seq<Clocks>): (r: seq<Watch>)
    ensures |r| == |clocks| && forall i :: 0 <= i < |r| ==> r[i] == clocks[i].w
  {
    seq(|clocks|, i requires 0 <= i < |clocks| => clocks[i].w)
  }

  /** Scheduling alone is enough: with both threads scheduled within 4.09 ms every run meets safe
      latencies, so everything proved of runs holds, the bound on progress included. */
  lemma ScheduledRunsAreRuns(delta: nat, run: seq<Sys>, acts: seq<Action>, clocks: seq<Clocks>)
    requires delta <= MAX_DELTA && IsScheduledRun(delta, run, acts, clocks)
    ensures Latencies(delta).Valid()
    ensures IsRun(Latencies(delta), run, acts) && IsPromptRun(delta, Latencies(delta), run, acts, Watches(clocks))
  {
    hide Inv, OnTime, OnSchedule, SlaveOnTime, Meets, Apply, Enabled, Prompt, SlavePrompt, Advance, Init, Latencies;
    LatenciesValid(delta);
    forall i | 0 <= i < |run|
      ensures Meets(Latencies(delta), run[i])
    {
      ScheduledKeeps(delta, run, acts, clocks, i);
    }
  }

  /** With both threads scheduled within 4.09 ms no run makes the radio count an error, and a
      transaction of which at most n packets are spoiled has been left n + 1 windows after it was
      opened. */
  lemma ScheduledRunsDeliver(delta: nat, run: seq<Sys>, acts: seq<Action>, clocks: seq<Clocks>, i: nat, n: nat)
    requires delta <= MAX_DELTA && IsScheduledRun(delta, run, acts, clocks) && i < |run|
    ensures run[i].d.err == 0
    ensures run[i].h.k >= 1 && run[i].h.faults <= n && run[i].now > clocks[i].w.openedAt + (n + 1) * Window(delta) ==> run[i].mst == MIdle
  {
    hide IsScheduledRun, IsRun, IsPromptRun, Window, Latencies;
    ScheduledRunsAreRuns(delta, run, acts, clocks);
    RunLengths(delta, run, acts, clocks);
    NoChannelError(Latencies(delta), run, acts, i);
    if run[i].h.k >= 1 && run[i].h.faults <= n {
      BoundedProgress(delta, Latencies(delta), run, acts, Watches(clocks), i, n);
    }
  }

  lemma RunLengths(delta: nat, run: seq<Sys>, acts: seq<Action>, clocks: seq<Clocks>)
    requires IsScheduledRun(delta, run, acts, clocks)
    ensures |clocks| == |run|
  {
  }

  // ---------------------------------------------------------------- throughput

  /** The longest from the opening of one transaction to the opening of the next, if at most n of its
      packets are spoiled. */
  function Period(delta: nat, n: nat): nat { (n + 1) * Window(delta) + delta }

  /** Transactions are opened and left at least at that pace. */
  predicate Paced(delta: nat, n: nat, start: int, s: Sys, w: Watch) {
    if s.mst == MIdle then w.entered <= start + Turns(s.h.k, Period(delta, n))
    else s.h.k >= 1 && w.openedAt <= start + Turns(s.h.k - 1, Period(delta, n)) + delta
  }

  /** The master has not been in its transaction for more than n + 1 windows. */
  predicate WithinWindows(delta: nat, n: nat, s: Sys, w: Watch) {
    s.mst != MIdle ==> s.now <= w.openedAt + (n + 1) * Window(delta)
  }

  lemma PaceKept(delta: nat, n: nat, start: int, c: Config, s: Sys, w: Watch, a: Action)
    requires Inv(c, s) && Enabled(s, a) && Prompt(delta, s, w)
    requires Paced(delta, n, start, s, w) && WithinWindows(delta, n, s, w)
    ensures Paced(delta, n, start, Apply(s, a), Advance(s, w, a))
  {
    hide Apply, Enabled, Window;
    var t := Apply(s, a);
    InvShape(c, s);
    if a.Master? { MasterPaces(s, a); } else { SlaveLeavesMaster(s, a); }
  }

  /** How a step of the master changes its state and the number of its transaction. */
  lemma MasterPaces(s: Sys, a: Action)
    requires a.Master? && Enabled(s, a)
    ensures var t := Apply(s, a);
      if s.mpc.Outside? && s.mAt && s.mst == MIdle then t.mst == MSendAll && t.h.k == s.h.k + 1
      else t.h.k == s.h.k && (t.mst == MIdle ==> s.mst == MIdle || s.mst == MReceivedAll)
  {
    hide Checks, Worked, Detectable, Move;
    WorkedKeepsMaster(s, a.fm, a.fs, a.gap);
  }

  lemma RunWithinWindows(delta: nat, run: seq<Sys>, acts: seq<Action>, clocks: seq<Clocks>, i: nat, n: nat)
    requires delta <= MAX_DELTA && IsScheduledRun(delta, run, acts, clocks) && i < |run| && run[i].h.faults <= n
    ensures |clocks| == |run| && WithinWindows(delta, n, run[i], clocks[i].w)
  {
    hide Inv, Meets, OnTime, OnSchedule, SlaveOnTime, Window, IsScheduledRun;
    RunLengths(delta, run, acts, clocks);
    ScheduledKeeps(delta, run, acts, clocks, i);
    if run[i].mst != MIdle {
      InvNumber(Latencies(delta), run[i]);
      ScheduledRunsDeliver(delta, run, acts, clocks, i, n);
    }
  }

  lemma InvNumber(c: Config, s: Sys)
    requires Inv(c, s) && s.mst != MIdle
    ensures s.h.k >= 1
  {
    hide F, Checks, IdFor, UpTo, Tokens;
  }

  lemma {:induction false} RunPaced(delta: nat, run: seq<Sys>, acts: seq<Action>, clocks: seq<Clocks>, i: nat, n: nat)
    requires delta <= MAX_DELTA && IsScheduledRun(delta, run, acts, clocks) && i < |run|
    requires forall j :: 0 <= j <= i ==> run[j].h.faults <= n
    ensures |clocks| == |run| && Paced(delta, n, run[0].now, run[i], clocks[i].w)
  {
    hide Inv, Meets, OnTime, OnSchedule, SlaveOnTime, Paced, WithinWindows, Prompt, SlavePrompt, Apply, Enabled,
      Advance, Init;
    if i == 0 {
      FirstPaced(delta, n, run[0]);
    } else {
      RunPaced(delta, run, acts, clocks, i - 1, n);
      RunWithinWindows(delta, run, acts, clocks, i - 1, n);
      ScheduledKeeps(delta, run, acts, clocks, i - 1);
      assert run[i - 1 + 1] == Apply(run[i - 1], acts[i - 1]);
      PaceKept(delta, n, run[0].now, Latencies(delta), run[i - 1], clocks[i - 1].w, acts[i - 1]);
    }
  }

  lemma FirstPaced(delta: nat, n: nat, s: Sys)
    requires Init(s)
    ensures Paced(delta, n, s.now, s, Watch(s.now, s.now))
  {
    hide Window;
  }

  /** What the pace says of the present. */
  lemma PacedNow(delta: nat, n: nat, start: int, c: Config, s: Sys, w: Watch)
    requires Inv(c, s) && Prompt(delta, s, w) && Paced(delta, n, start, s, w) && WithinWindows(delta, n, s, w)
    ensures s.now <= start + s.h.k * Period(delta, n) + delta
  {
    hide Window;
    InvShape(c, s);
    TurnsIsProduct(s.h.k, Period(delta, n));
  }

  /** Throughput: with both threads scheduled within 4.09 ms and at most n packets of each transaction
      spoiled, the transactions opened grow with time, one a period at least, and all but the last
      are completed. */
  lemma Throughput(delta: nat, run: seq<Sys>, acts: seq<Action>, clocks: seq<Clocks>, i: nat, n: nat)
    requires delta <= MAX_DELTA && IsScheduledRun(delta, run, acts, clocks) && i < |run|
    requires forall j :: 0 <= j <= i ==> run[j].h.faults <= n
    ensures run[i].now <= run[0].now + run[i].h.k * Period(delta, n) + delta
    ensures |run[i].h.completed| >= run[i].h.k - 1
  {
    hide Inv, Meets, OnTime, OnSchedule, SlaveOnTime, Paced, WithinWindows, Prompt, SlavePrompt, Apply, Enabled,
      Init, Latencies, Period, IsRun, IsPromptRun;
    RunPaced(delta, run, acts, clocks, i, n);
    RunWithinWindows(delta, run, acts, clocks, i, n);
    ScheduledKeeps(delta, run, acts, clocks, i);
    PacedNow(delta, n, run[0].now, Latencies(delta), run[i], clocks[i].w);
    ScheduledRunsAreRuns(delta, run, acts, clocks);
    ExactlyOnce(Latencies(delta), run, acts, i);
  }
}
