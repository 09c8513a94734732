/** Bounded progress: how long the master can stay in one transaction. */
module Progress {

  import opened Crc
  import opened Packet
  import opened Detection
  import opened Radio
  import opened Llc
  import opened Protocol
  import opened Invariant
  import opened Theorems
  import AirSteps

  /** openedAt: when the current transaction was opened; entered: when the master's thread made the
      move to its present position. */
  datatype Watch = Watch(openedAt: int, entered: int)

  function Advance(s: Sys, w: Watch, a: Action): Watch {
    if !a.Master? then w
    else Watch(if s.mst == MIdle then s.now else w.openedAt, s.now)
  }

  /** The master's thread is scheduled within delta of being able to move. */
  predicate Prompt(delta: nat, s: Sys, w: Watch) {
    s.now <= (if s.mpc.SendNap? || s.mpc.PollNap? then s.mpc.wake else w.entered) + delta
  }

  /** One turn of the poll loop, one call of the receive function, one transmission with the
      two receive calls that can follow it: the longest they take. */
  function Turn(delta: nat): nat { 5 * delta + GRANULARITY }

  function Listen(delta: nat): nat { 5 * delta + 30 * Turn(delta) }

  function Window(delta: nat): nat { 11 * delta + TOA + 2 * Listen(delta) }

  /** The latest the master can reach its position, counted from the start of its timer.  A
      poll loop that has slept n times has made n turns. */
  function Latest(delta: nat, s: Sys, turns: nat): int {
    var base := 11 * delta + TOA + if s.h.listens == 2 then Listen(delta) else 0;
    match s.mpc {
      case Outside =>
        if s.mst == MResend || s.mst == MReceivedAll then base + 4 * delta + 30 * Turn(delta)
        else if s.m.sendQ != [] then (if s.mAt then 0 else delta)
        else if s.h.listens == 0 then (if s.mAt then 9 * delta + TOA else 10 * delta + TOA)
        else base + 30 * Turn(delta) + (if s.mAt then 3 * delta else 4 * delta)
      case SendEnter(_, _) => 2 * delta
      case SendProbe(_, _) => 3 * delta
      case SendFault(_, _) => 3 * delta
      case SendCommit(_, _, _) => 4 * delta
      case SendNap(_) => 5 * delta
      case SendWorker => 6 * delta + TOA
      case SendAudit => 7 * delta + TOA
      case SendDone => 8 * delta + TOA
      case RecvEnter(_) => base
      case PollTest(_, _) => base + delta + turns
      case PollWorker(_, _) => base + 2 * delta + turns
      case PollRead(_, _) => base + 3 * delta + turns
      case PollAudit(_, _, _) => base + 4 * delta + turns
      case PollNap(_, _, _) => base + 5 * delta + turns
      case RecvFault => base
      case RecvCopy => base + 30 * Turn(delta)
      case RecvAudit(_) => base + delta + 30 * Turn(delta)
      case RecvDone(_) => base + 2 * delta + 30 * Turn(delta)
    }
  }

  /** n times t, for the poll loop's count. */
  function Turns(n: nat, t: nat): nat { if n == 0 then 0 else t + Turns(n - 1, t) }

  lemma {:induction false} TurnsMonotone(n: nat, m: nat, t: nat)
    requires n <= m
    ensures Turns(n, t) <= Turns(m, t)
  {
    if n < m { TurnsMonotone(n, m - 1, t); }
  }

  lemma {:induction false} TurnsIsProduct(n: nat, t: nat)
    ensures Turns(n, t) == n * t
  {
    if n > 0 { TurnsIsProduct(n - 1, t); }
  }

  function Slept(pc: Pc): nat {
    if pc.PollTest? || pc.PollWorker? || pc.PollRead? || pc.PollAudit? || pc.PollNap? then pc.slept / 10 else 0
  }

  /** The transmissions of this transaction that have begun. */
  function Begun(s: Sys): nat { s.h.tx + B(Waiting(s)) }

  /** Where the master is and since when. */
  predicate OnTime(delta: nat, s: Sys, w: Watch) {
    && w.entered <= s.now
    && (s.mst != MIdle ==> s.m.timerStart <= s.now)
    && (s.mpc.SendNap? ==> s.mpc.wake == w.entered + TOA)
    && (s.mpc.PollNap? ==> s.mpc.wake == w.entered + GRANULARITY)
    && (s.mst != MIdle ==>
          && w.entered <= s.m.timerStart + Latest(delta, s, Turns(Slept(s.mpc), Turn(delta)))
          && s.h.listens <= 2
          && (s.mpc.Listening() || s.mpc.RecvAudit? || s.mpc.RecvDone? ==> 1 <= s.h.listens)
          && (s.h.listens >= 1 ==> s.m.timerStart <= s.h.listenFrom)
          && (s.mpc.Outside? && !s.mAt ==> s.h.listens <= 1)
          && (s.mpc.RecvDone? && s.mpc.result.None? ==> s.h.listenFrom + LLC_TIMEOUT <= s.now)
          && (s.h.listens == 2 && s.mst == MSendAll ==>
                && !s.mpc.Holding()
                && (s.mpc.Outside? && s.mAt ==> s.m.recvQ == [] && s.m.timerStart + LLC_TIMEOUT <= s.now)))
  }

  /** Each transmission began at most one window after the one before. */
  predicate OnSchedule(delta: nat, s: Sys, w: Watch) {
    s.mst != MIdle ==> Begun(s) >= 1 && s.m.timerStart <= w.openedAt + Turns(Begun(s) - 1, Window(delta))
  }

  // ---------------------------------------------------------------- keeping time

  /** The steps of one poll loop never take longer than its turns. */
  lemma PollTurns(n: nat, t: nat)
    requires n <= 30
    ensures n <= 29 ==> Turns(n, t) + t <= 30 * t
    ensures n == 30 ==> Turns(n, t) == 30 * t
  {
    TurnsIsProduct(30, t);
    if n <= 29 { TurnsMonotone(n + 1, 30, t); }
  }

  lemma LlcOnTime(delta: nat, c: Config, s: Sys, w: Watch, a: Action)
    requires Inv(c, s) && OnTime(delta, s, w) && Prompt(delta, s, w)
    requires a.Master? && Enabled(s, a) && s.mpc.Outside? && s.mAt
    ensures OnTime(delta, Apply(s, a), Advance(s, w, a))
  {
    hide F, Checks, IdFor, IdOf, NextTransId, FrameOf, Counts, Logs, Numbers, Contents, OnAir, SlaveShape, AtSlave,
      Detectable;
  }

  lemma MacOnTime(delta: nat, c: Config, s: Sys, w: Watch, a: Action)
    requires Inv(c, s) && OnTime(delta, s, w) && Prompt(delta, s, w)
    requires a.Master? && Enabled(s, a) && !s.mpc.Busy() && !(s.mpc.Outside? && s.mAt)
    ensures OnTime(delta, Apply(s, a), Advance(s, w, a))
  {
    hide F, Checks, IdFor, IdOf, NextTransId, FrameOf, Counts, Logs, Numbers, Contents, OnAir, SlaveShape, AtSlave,
      Detectable;
  }

  lemma SendingOnTime(delta: nat, c: Config, s: Sys, w: Watch, a: Action)
    requires Inv(c, s) && OnTime(delta, s, w) && Prompt(delta, s, w)
    requires a.Master? && Enabled(s, a) && (s.mpc.SendProbe? || s.mpc.SendFault? || s.mpc.SendCommit? || s.mpc.SendNap? || s.mpc.SendAudit?)
    ensures OnTime(delta, Apply(s, a), Advance(s, w, a))
  {
    hide F, Checks, IdFor, IdOf, NextTransId, FrameOf, Counts, Logs, Numbers, Contents, OnAir, SlaveShape, AtSlave,
      Detectable, Turns, Tokens, Timing, Polling;
  }

  lemma PollTestOnTime(delta: nat, c: Config, s: Sys, w: Watch, a: Action)
    requires Inv(c, s) && OnTime(delta, s, w) && Prompt(delta, s, w)
    requires a.Master? && Enabled(s, a) && s.mpc.PollTest?
    ensures OnTime(delta, Apply(s, a), Advance(s, w, a))
  {
    hide F, Checks, IdFor, IdOf, NextTransId, FrameOf, Counts, Logs, Numbers, Contents, OnAir, SlaveShape, AtSlave,
      Detectable, Turns;
    PollTurns(Slept(s.mpc), Turn(delta));
  }

  lemma PollReadOnTime(delta: nat, c: Config, s: Sys, w: Watch, a: Action)
    requires Inv(c, s) && OnTime(delta, s, w) && Prompt(delta, s, w)
    requires a.Master? && Enabled(s, a) && (s.mpc.PollRead? || s.mpc.PollAudit?)
    ensures OnTime(delta, Apply(s, a), Advance(s, w, a))
  {
    hide F, Checks, IdFor, IdOf, NextTransId, FrameOf, Counts, Logs, Numbers, Contents, OnAir, SlaveShape, AtSlave,
      Detectable, Turns;
    PollTurns(Slept(s.mpc), Turn(delta));
  }

  lemma PollNapOnTime(delta: nat, c: Config, s: Sys, w: Watch, a: Action)
    requires Inv(c, s) && OnTime(delta, s, w) && Prompt(delta, s, w)
    requires a.Master? && Enabled(s, a) && s.mpc.PollNap?
    ensures OnTime(delta, Apply(s, a), Advance(s, w, a))
  {
    hide F, Checks, IdFor, IdOf, NextTransId, FrameOf, Counts, Logs, Numbers, Contents, OnAir, SlaveShape, AtSlave,
      Detectable;
  }

  lemma CopyOnTime(delta: nat, c: Config, s: Sys, w: Watch, a: Action)
    requires Inv(c, s) && OnTime(delta, s, w) && Prompt(delta, s, w)
    requires a.Master? && Enabled(s, a) && (s.mpc.RecvFault? || s.mpc.RecvCopy? || s.mpc.RecvAudit?)
    ensures OnTime(delta, Apply(s, a), Advance(s, w, a))
  {
    hide F, Checks, IdFor, IdOf, NextTransId, FrameOf, Counts, Logs, Numbers, Contents, OnAir, SlaveShape, AtSlave,
      Detectable, Turns, Polling;
  }

  lemma InvShape(c: Config, s: Sys)
    requires Inv(c, s)
    ensures MasterShape(s)
  {
  }

  /** Running the channel from the master's thread changes nothing the master keeps. */
  lemma WorkerKeepsMaster(c: Config, s: Sys, a: Action)
    requires Inv(c, s) && a.Master? && Enabled(s, a) && RunsWorker(s.mpc)
    ensures var t := Apply(s, a);
      && t.now >= s.now && t.m == s.m && t.mst == s.mst && t.mAt == s.mAt
      && t.mpc == NextPc(s.d, s.mpc, M, s.now)
      && t.h == s.h.(deliveredAt := t.h.deliveredAt, faults := t.h.faults)
  {
    hide Inv, Detectable, Worked, CrcFrom;
    AirSteps.WorkedInv(c, s, a.fm, a.fs, a.gap);
  }

  lemma WorkOnTime(delta: nat, c: Config, s: Sys, w: Watch, a: Action)
    requires Inv(c, s) && OnTime(delta, s, w) && Prompt(delta, s, w)
    requires a.Master? && Enabled(s, a) && RunsWorker(s.mpc)
    ensures OnTime(delta, Apply(s, a), Advance(s, w, a))
  {
    hide Inv, Turns, Apply, Enabled;
    InvShape(c, s);
    WorkerKeepsMaster(c, s, a);
  }

  lemma OtherOnTime(delta: nat, c: Config, s: Sys, w: Watch, a: Action)
    requires Inv(c, s) && OnTime(delta, s, w) && OnSchedule(delta, s, w) && Enabled(s, a) && !a.Master?
    ensures OnTime(delta, Apply(s, a), Advance(s, w, a)) && OnSchedule(delta, Apply(s, a), Advance(s, w, a))
  {
    hide Inv, Apply, Enabled, Turns, Turn, Listen, Window;
    SlaveLeavesMaster(s, a);
  }

  lemma WorkedKeepsMaster(s: Sys, fm: Fate, fs: Fate, gap: nat)
    ensures var t := Worked(s, fm, fs, gap);
      t.now >= s.now && t == s.(now := t.now, d := t.d, h := s.h.(deliveredAt := t.h.deliveredAt, faults := t.h.faults))
  {
    hide Checks, Targ, ChannelCheck, XorBytes;
  }

  /** The slave and the clock do not touch what the master's schedule depends on. */
  lemma SlaveLeavesMaster(s: Sys, a: Action)
    requires Enabled(s, a) && !a.Master?
    ensures var t := Apply(s, a);
      && t.m == s.m && t.mst == s.mst && t.mAt == s.mAt && t.mpc == s.mpc && t.now >= s.now
      && t.h.tx == s.h.tx && t.h.listens == s.h.listens && t.h.listenFrom == s.h.listenFrom && t.h.k == s.h.k
  {
    hide Checks, Worked, Move, NextPc, SlaveCase, Detectable;
    if a.Slave? { WorkedKeepsMaster(s, a.fm, a.fs, a.gap); }
  }

  /** Transmissions begin on schedule. */
  lemma LlcOnSchedule(delta: nat, c: Config, s: Sys, w: Watch, a: Action)
    requires Inv(c, s) && OnTime(delta, s, w) && OnSchedule(delta, s, w) && Prompt(delta, s, w)
    requires a.Master? && Enabled(s, a) && s.mpc.Outside? && s.mAt
    ensures OnSchedule(delta, Apply(s, a), Advance(s, w, a))
  {
    hide F, Checks, IdFor, IdOf, NextTransId, FrameOf, Logs, Numbers, Contents, OnAir, SlaveShape, AtSlave, Detectable;
  }

  lemma RestOnSchedule(delta: nat, c: Config, s: Sys, w: Watch, a: Action)
    requires Inv(c, s) && OnSchedule(delta, s, w)
    requires a.Master? && Enabled(s, a) && !(s.mpc.Outside? && s.mAt) && !RunsWorker(s.mpc)
    ensures OnSchedule(delta, Apply(s, a), Advance(s, w, a))
  {
    hide F, Checks, IdFor, IdOf, NextTransId, FrameOf, Logs, Numbers, Contents, OnAir, SlaveShape, AtSlave,
      Detectable, Turns, Worked, Tokens, Timing, Polling, Alone, OneToken, Counts;
  }

  lemma WorkOnSchedule(delta: nat, c: Config, s: Sys, w: Watch, a: Action)
    requires Inv(c, s) && OnSchedule(delta, s, w)
    requires a.Master? && Enabled(s, a) && RunsWorker(s.mpc)
    ensures OnSchedule(delta, Apply(s, a), Advance(s, w, a))
  {
    hide Inv, Turns, Apply, Enabled;
    InvShape(c, s);
    WorkerKeepsMaster(c, s, a);
  }

  lemma MasterOnTime(delta: nat, c: Config, s: Sys, w: Watch, a: Action)
    requires Inv(c, s) && OnTime(delta, s, w) && OnSchedule(delta, s, w) && Prompt(delta, s, w)
    requires a.Master? && Enabled(s, a)
    ensures OnTime(delta, Apply(s, a), Advance(s, w, a)) && OnSchedule(delta, Apply(s, a), Advance(s, w, a))
  {
    hide Inv, OnTime, OnSchedule, Prompt, Apply, Enabled;
    if s.mpc.Outside? && s.mAt {
      LlcOnTime(delta, c, s, w, a);
      LlcOnSchedule(delta, c, s, w, a);
    } else if RunsWorker(s.mpc) {
      WorkOnTime(delta, c, s, w, a);
      WorkOnSchedule(delta, c, s, w, a);
    } else {
      RestOnSchedule(delta, c, s, w, a);
      match s.mpc {
        case PollTest(_, _) => PollTestOnTime(delta, c, s, w, a);
        case PollRead(_, _) => PollReadOnTime(delta, c, s, w, a);
        case PollAudit(_, _, _) => PollReadOnTime(delta, c, s, w, a);
        case PollNap(_, _, _) => PollNapOnTime(delta, c, s, w, a);
        case RecvFault => CopyOnTime(delta, c, s, w, a);
        case RecvCopy => CopyOnTime(delta, c, s, w, a);
        case RecvAudit(_) => CopyOnTime(delta, c, s, w, a);
        case Outside => MacOnTime(delta, c, s, w, a);
        case SendDone => MacOnTime(delta, c, s, w, a);
        case RecvDone(_) => MacOnTime(delta, c, s, w, a);
        case _ => SendingOnTime(delta, c, s, w, a);
      }
    }
  }

  // ---------------------------------------------------------------- the bound

  /** A run whose master is scheduled within delta, with the times the bound speaks of. */
  predicate IsPromptRun(delta: nat, c: Config, run: seq<Sys>, acts: seq<Action>, watch: seq<Watch>) {
    && IsRun(c, run, acts)
    && |watch| == |run|
    && watch[0] == Watch(run[0].now, run[0].now)
    && (forall i :: 0 <= i < |acts| ==> watch[i + 1] == Advance(run[i], watch[i], acts[i]))
    && (forall i :: 0 <= i < |run| ==> Prompt(delta, run[i], watch[i]))
  }

  lemma InitOnTime(delta: nat, s: Sys)
    requires Init(s)
    ensures OnTime(delta, s, Watch(s.now, s.now)) && OnSchedule(delta, s, Watch(s.now, s.now))
  {
  }

  lemma {:induction false} RunOnTime(delta: nat, c: Config, run: seq<Sys>, acts: seq<Action>, watch: seq<Watch>, i: nat)
    requires c.Valid() && IsPromptRun(delta, c, run, acts, watch) && i < |run|
    ensures OnTime(delta, run[i], watch[i]) && OnSchedule(delta, run[i], watch[i])
  {
    hide Inv, OnTime, OnSchedule, Prompt, Apply, Enabled, Advance, Init, Meets;
    if i == 0 {
      InitOnTime(delta, run[0]);
    } else {
      RunOnTime(delta, c, run, acts, watch, i - 1);
      RunInv(c, run, acts, i - 1);
      if acts[i - 1].Master? {
        MasterOnTime(delta, c, run[i - 1], watch[i - 1], acts[i - 1]);
      } else {
        OtherOnTime(delta, c, run[i - 1], watch[i - 1], acts[i - 1]);
      }
    }
  }

  lemma OnTimeWithinWindow(delta: nat, c: Config, s: Sys, w: Watch)
    requires Inv(c, s) && OnTime(delta, s, w) && Prompt(delta, s, w) && s.mst != MIdle
    ensures s.now <= s.m.timerStart + Window(delta)
  {
    hide F, Checks, IdFor, IdOf, NextTransId, FrameOf, Logs, Numbers, Contents, OnAir, SlaveShape, AtSlave,
      Detectable, Turns, Tokens, Timing, OneToken, Counts;
    PollTurns(Slept(s.mpc), Turn(delta));
  }

  /** In every run the master reaches its reply, or its next transmission, within one window of
      starting its timer. */
  lemma WithinWindow(delta: nat, c: Config, run: seq<Sys>, acts: seq<Action>, watch: seq<Watch>, i: nat)
    requires c.Valid() && IsPromptRun(delta, c, run, acts, watch) && i < |run| && run[i].mst != MIdle
    ensures run[i].now <= run[i].m.timerStart + Window(delta)
  {
    hide Inv, OnTime, OnSchedule, Prompt, IsRun, Window;
    RunInv(c, run, acts, i);
    RunOnTime(delta, c, run, acts, watch, i);
    OnTimeWithinWindow(delta, c, run[i], watch[i]);
  }

  /** Every transmission but one was called for by a fault. */
  lemma BegunBound(c: Config, s: Sys, n: nat)
    requires Inv(c, s) && s.h.faults <= n && s.h.k >= 1
    ensures s.h.tx <= Begun(s) <= n + 1
  {
    hide F, Checks, IdFor, Logs, Numbers, Contents, OnAir, SlaveShape, MasterShape, AtSlave, AtMaster, Tokens,
      Timing, Polling, Alone;
  }

  /** Bounded progress.  If at most n packets of the current transaction were lost or damaged on
      the air, either way, the master has put at most n + 1 packets of it on the air, and it
      cannot still be in the transaction n + 1 windows after opening it. */
  lemma BoundedProgress(delta: nat, c: Config, run: seq<Sys>, acts: seq<Action>, watch: seq<Watch>, i: nat, n: nat)
    requires c.Valid() && IsPromptRun(delta, c, run, acts, watch) && i < |run|
    requires run[i].h.faults <= n && run[i].h.k >= 1
    ensures run[i].h.tx <= n + 1
    ensures run[i].now > watch[i].openedAt + (n + 1) * Window(delta) ==> run[i].mst == MIdle
  {
    hide Inv, OnTime, Prompt, IsRun, Window, Begun;
    var s, w := run[i], watch[i];
    RunInv(c, run, acts, i);
    BegunBound(c, s, n);
    RunOnTime(delta, c, run, acts, watch, i);
    if s.mst != MIdle {
      OnTimeWithinWindow(delta, c, s, w);
      TurnsMonotone(Begun(s), n + 1, Window(delta));
      TurnsIsProduct(n + 1, Window(delta));
    }
  }
}
