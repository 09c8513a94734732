/** Any two client threads on the radio: where every counted error comes from, and what each call has
    done when it returns. */
module Accounting {

  import opened Packet
  import opened Detection
  import opened Radio
  import opened Conservation
  import Timer

  // ---------------------------------------------------------------- where every error comes from

  function Dropped(ends: seq<End>): nat { Count(ends, (e: End) => e.WasDropped?) }

  /** A check made while both sides were transmitting. */
  predicate Collision(n: Net, a: Action, next: Net) {
    a.Go? && LooksForCollision(n.ThreadOf(a.id).pc) && !next.d.mOut.isSend && !next.d.sOut.isSend
  }

  /** A send over a packet not yet sent. */
  predicate Oversend(n: Net, a: Action, next: Net) {
    a.Go? && n.ThreadOf(a.id).pc.SendProbe? && !n.d.OutOf(a.id).isSend
  }

  /** A receive call without timeout that finds nothing. */
  predicate EmptyRead(n: Net, a: Action, next: Net) {
    a.Go? && n.ThreadOf(a.id).pc.PollAudit? && n.ThreadOf(a.id).pc.timeout == 0 && !n.ThreadOf(a.id).pc.ready
  }

  /** How many of the first i steps are of a kind. */
  function Steps(run: seq<Net>, acts: seq<Action>, i: nat, kind: (Net, Action, Net) -> bool): nat
    requires |run| == |acts| + 1 && i <= |acts|
  {
    if i == 0 then 0
    else Steps(run, acts, i - 1, kind) + if kind(run[i - 1], acts[i - 1], run[i]) then 1 else 0
  }

  /** An error the thread has met and is about to count. */
  function Owed(t: Thread): nat { if t.pc.SendFault? || t.pc.RecvFault? then 1 else 0 }

  /** The errors counted, and those about to be, that are not dropped packets. */
  function Bill(n: Net): int {
    n.d.err + Owed(n.m) + Owed(n.s) - Dropped(n.mDir.ends) - Dropped(n.sDir.ends)
  }

  function Cost(n: Net, a: Action, next: Net): nat {
    (if Collision(n, a, next) then 1 else 0) + (if Oversend(n, a, next) then 1 else 0) + (if EmptyRead(n, a, next) then 1 else 0)
  }

  lemma DroppedStep(ends: seq<End>, e: End)
    ensures Dropped(ends + [e]) == Dropped(ends) + if e.WasDropped? then 1 else 0
  {
    assert (ends + [e])[..|ends|] == ends;
  }

  lemma CarryBill(n: Net, src: Side, f: Fate)
    ensures Bill(Carry(n, src, f)) == Bill(n)
  {
    hide XorBytes, Dropped;
    if Due(n.d.OutOf(src), n.now) {
      var x := n.DirOf(src);
      DroppedStep(x.ends, Carry(n, src, f).DirOf(src).ends[|x.ends|]);
    }
  }

  lemma WorkedBill(n: Net, fm: Fate, fs: Fate, gap: nat)
    ensures var t := Worked(n, fm, fs, gap); Bill(t) == Bill(n) + if !t.d.mOut.isSend && !t.d.sOut.isSend then 1 else 0
  {
    hide Carry, Dropped;
    CarryBill(n, M, fm);
    var first := Carry(n, M, fm);
    CarryBill(first.(now := first.now + gap), S, fs);
  }

  lemma MovedBill(n: Net, id: Side, fm: Fate, fs: Fate, gap: nat)
    requires n.ThreadOf(id).pc.Busy()
    ensures var t := Moved(n, id, fm, fs, gap); Bill(t) == Bill(n) + Cost(n, Go(id, fm, fs, gap), t)
  {
    hide Worked, Dropped;
    if RunsWorker(n.ThreadOf(id).pc) {
      WorkedBill(n, fm, fs, gap);
      WorkedKeepsThreads(n, fm, fs, gap);
    }
    DroppedStep(n.DirOf(id).ends, WasOverwritten);
  }

  lemma StepBill(n: Net, a: Action)
    requires Enabled(n, a)
    ensures Bill(Apply(n, a)) == Bill(n) + Cost(n, a, Apply(n, a))
  {
    hide Moved, Dropped;
    if a.Go? { MovedBill(n, a.id, a.fm, a.fs, a.gap); }
  }

  /** Exact accounting, in every interleaving: the errors counted, with those a thread is about to count,
      are the packets dropped on a full slot, the checks made while both sides were
      transmitting, the sends over an unsent packet and the empty reads without timeout. */
  lemma {:induction false} ErrorsAccounted(run: seq<Net>, acts: seq<Action>, i: nat)
    requires IsRun(run, acts) && i < |run|
    ensures run[i].d.err + Owed(run[i].m) + Owed(run[i].s) ==
            Dropped(run[i].mDir.ends) + Dropped(run[i].sDir.ends)
            + Steps(run, acts, i, Collision) + Steps(run, acts, i, Oversend) + Steps(run, acts, i, EmptyRead)
  {
    hide Enabled, Apply, Collision, Oversend, EmptyRead, Dropped;
    if i > 0 {
      hide Init;
      ErrorsAccounted(run, acts, i - 1);
      StepBill(run[i - 1], acts[i - 1]);
    } else {
      NothingDropped();
    }
  }

  lemma NothingDropped()
    ensures Dropped([]) == 0
  {
  }

  lemma {:induction false} StepsGrow(run: seq<Net>, acts: seq<Action>, j: nat, i: nat, kind: (Net, Action, Net) -> bool)
    requires |run| == |acts| + 1 && j < i <= |acts| && kind(run[j], acts[j], run[j + 1])
    ensures Steps(run, acts, i, kind) >= 1
  {
    if j < i - 1 { StepsGrow(run, acts, j, i - 1, kind); }
  }

  /** Two overlapping transmissions do not go unnoticed: once a side has made one of its checks while
      both packets are on the air, the error count is not zero. */
  lemma CollisionNoticed(run: seq<Net>, acts: seq<Action>, j: nat, i: nat)
    requires IsRun(run, acts) && j < i < |run| && Collision(run[j], acts[j], run[j + 1])
    ensures run[j + 1].d.err > run[j].d.err && run[i].d.err >= 1
  {
    hide Init, Dropped, Steps;
    CollisionCounts(run[j], acts[j]);
    ErrNeverFalls(run, acts, j + 1, i);
  }

  lemma CollisionCounts(n: Net, a: Action)
    requires Enabled(n, a) && Collision(n, a, Apply(n, a))
    ensures Apply(n, a).d.err > n.d.err
  {
    hide XorBytes;
  }

  lemma ErrGrows(n: Net, a: Action)
    requires Enabled(n, a)
    ensures Apply(n, a).d.err >= n.d.err
  {
    hide XorBytes;
  }

  lemma {:induction false} ErrNeverFalls(run: seq<Net>, acts: seq<Action>, j: nat, i: nat)
    requires IsRun(run, acts) && j <= i < |run|
    ensures run[i].d.err >= run[j].d.err
  {
    hide Enabled, Apply, Init;
    if j < i {
      ErrNeverFalls(run, acts, j, i - 1);
      ErrGrows(run[i - 1], acts[i - 1]);
    }
  }

  // ---------------------------------------------------------------- what a call does

  /** The poll loop has run n turns and goes on: a call without timeout looks once. */
  predicate Goes(timeout: nat, slept: nat, n: nat) {
    && slept == Timer.SleptAfter(n)
    && (timeout == 0 ==> n == 0)
    && forall k :: 0 <= k < n ==> Timer.SleptAfter(k) < timeout
  }

  /** ... and has passed its condition. */
  predicate Looks(timeout: nat, slept: nat, n: nat) {
    Goes(timeout, slept, n) && (timeout == 0 || slept < timeout)
  }

  /** Where a thread stands says what its call has done so far. */
  predicate Ledger(t: Thread) {
    match t.pc {
      case Outside => true
      case SendEnter(p, b) => t.call == Send(p, b) && t.checks == 0
      case SendProbe(p, b) => t.call == Send(p, b) && t.checks == 1
      case SendFault(p, b) => t.call == Send(p, b) && t.checks == 1
      case SendCommit(p, b, _) => t.call == Send(p, b) && t.checks == 1
      case SendNap(_) => t.call.Send? && t.call.blocking && t.checks == 1
      case SendWorker => t.call.Send? && t.call.blocking && t.checks == 1
      case SendAudit => t.call.Send? && t.checks == (if t.call.blocking then 2 else 1)
      case SendDone => t.call.Send? && t.checks == (if t.call.blocking then 3 else 2)
      case RecvEnter(timeout) => t.call == Receive(timeout) && t.looks == 0 && !t.found && t.checks == 0
      case PollTest(timeout, slept) =>
        t.call == Receive(timeout) && Goes(timeout, slept, t.looks) && !t.found && t.checks == 1 + 2 * t.looks
      case PollWorker(timeout, slept) =>
        t.call == Receive(timeout) && Looks(timeout, slept, t.looks) && !t.found && t.checks == 1 + 2 * t.looks
      case PollRead(timeout, slept) =>
        t.call == Receive(timeout) && Looks(timeout, slept, t.looks) && !t.found && t.checks == 2 + 2 * t.looks
      case PollAudit(timeout, slept, ready) =>
        && t.call == Receive(timeout) && t.looks > 0 && Looks(timeout, slept, t.looks - 1)
        && t.found == ready && t.checks == 2 * t.looks
      case PollNap(timeout, slept, _) =>
        && t.call == Receive(timeout) && t.looks > 0 && timeout > 0 && Looks(timeout, slept, t.looks - 1)
        && !t.found && t.checks == 1 + 2 * t.looks
      case RecvFault => t.call == Receive(0) && t.looks == 1 && !t.found && t.checks == 3
      case RecvCopy => t.call.Receive? && t.found && t.checks == 1 + 2 * t.looks && EndsBy(t)
      case RecvAudit(_) => t.call.Receive? && t.found && t.checks == 1 + 2 * t.looks && EndsBy(t)
      case RecvDone(result) =>
        && t.call.Receive? && t.found == result.Some?
        && t.checks == 1 + 2 * t.looks + (if result.Some? then 1 else 0)
        && (if result.Some? then EndsBy(t) else EndsAt(t))
    }
  }

  /** The look that found the slot full was made within the loop. */
  predicate EndsBy(t: Thread)
    requires t.call.Receive?
  {
    t.looks > 0 && Looks(t.call.timeout, Timer.SleptAfter(t.looks - 1), t.looks - 1)
  }

  /** The loop has ended without one. */
  predicate EndsAt(t: Thread)
    requires t.call.Receive?
  {
    if t.call.timeout == 0 then t.looks == 1
    else Goes(t.call.timeout, Timer.SleptAfter(t.looks), t.looks) && t.call.timeout <= Timer.SleptAfter(t.looks)
  }

  lemma OnwardLedger(t: Thread, d: Devs, id: Side, now: int)
    requires t.pc.Busy() && Ledger(t)
    ensures Ledger(Onward(t, d, id, now))
  {
    hide Timer.SleptAfter;
    Timer.SleptStep(if t.looks > 0 then t.looks - 1 else 0);
  }

  lemma StepLedger(n: Net, a: Action)
    requires Ledger(n.m) && Ledger(n.s) && Enabled(n, a)
    ensures Ledger(Apply(n, a).m) && Ledger(Apply(n, a).s)
  {
    hide Worked, Onward, Ledger, Move;
    match a {
      case Tick(_) =>
      case Begin(id, call) => BegunLedger(n.ThreadOf(id), call);
      case Go(id, fm, fs, gap) =>
        WorkedKeepsThreads(n, fm, fs, gap);
        var t := n.ThreadOf(id);
        SeenLedger(t, n.d.InOf(id).data);
        OnwardLedger(t, n.d, id, n.now);
        OnwardLedger(t.(seen := n.d.InOf(id).data), n.d, id, n.now);
    }
  }

  lemma SeenLedger(t: Thread, seen: Frame)
    ensures Ledger(t) ==> Ledger(t.(seen := seen))
  {
    hide Timer.SleptAfter;
  }

  lemma BegunLedger(t: Thread, call: Call)
    ensures Ledger(Begun(t, call))
  {
  }

  lemma {:induction false} RunLedger(run: seq<Net>, acts: seq<Action>, i: nat)
    requires IsRun(run, acts) && i < |run|
    ensures Ledger(run[i].m) && Ledger(run[i].s)
  {
    hide Enabled, Apply;
    if i > 0 {
      hide Ledger, Init;
      RunLedger(run, acts, i - 1);
      StepLedger(run[i - 1], acts[i - 1]);
    }
  }

  /** What a receive call has done when it returns: with nothing, it has made exactly the looks that
      its timeout asks for, one without a timeout, and all found the slot empty; with a packet,
      it stopped at the first look that found one, within these.  It checked for a
      collision once at the start, once before and once after each look, and after reading. */
  predicate ReceiveDone(t: Thread) {
    t.pc.RecvDone? ==>
      && t.call.Receive? && t.found == t.pc.result.Some? && t.looks > 0
      && (t.pc.result.None? ==> t.call.timeout <= 0xFFFF_FFFE && t.looks == Timer.Looks(t.call.timeout))
      && (t.pc.result.Some? && t.call.timeout <= 0xFFFF_FFFE ==> t.looks <= Timer.Looks(t.call.timeout))
      && t.checks == 1 + 2 * t.looks + (if t.pc.result.Some? then 1 else 0)
  }

  /** A send call has checked at its start and at its end, and, if blocking, after its sleep. */
  predicate SendDone(t: Thread) {
    t.pc.SendDone? ==> t.call.Send? && t.checks == if t.call.blocking then 3 else 2
  }

  lemma ReturnsDone(t: Thread)
    requires Ledger(t)
    ensures ReceiveDone(t) && SendDone(t)
  {
    hide Timer.SleptAfter, Timer.Looks;
    if t.pc.RecvDone? {
      var timeout := t.call.timeout;
      if timeout == 0 {
        LooksWithoutTimeout();
      } else if t.pc.result.None? {
        Timer.LooksUnique(timeout, t.looks);
        Timer.SleptStep(0);
        assert t.looks > 0;
      } else if timeout <= 0xFFFF_FFFE {
        Timer.LooksEnd(timeout);
      }
    }
  }

  lemma LooksWithoutTimeout()
    ensures Timer.Looks(0) == 1
  {
  }

  /** In every interleaving of any two clients the calls do all they are to do. */
  lemma CallsComplete(run: seq<Net>, acts: seq<Action>, i: nat, id: Side)
    requires IsRun(run, acts) && i < |run|
    ensures ReceiveDone(run[i].ThreadOf(id)) && SendDone(run[i].ThreadOf(id))
  {
    hide Ledger, ReceiveDone, SendDone, Init, Enabled, Apply;
    RunLedger(run, acts, i);
    ReturnsDone(run[i].ThreadOf(id));
  }

  // ---------------------------------------------------------------- blocking sends

  /** A blocking send sleeps its packet's time on air, and then sees it off. */
  predicate SeesOff(t: Thread, o: Out, now: int) {
    && (t.pc.SendNap? && !o.isSend ==> t.pc.wake == o.sendTime + TOA)
    && (t.pc.SendWorker? && !o.isSend ==> o.sendTime + TOA <= now)
    && ((t.pc.SendAudit? || t.pc.SendDone?) && t.call.Send? && t.call.blocking ==> o.isSend)
  }

  predicate BothSeeOff(n: Net) { SeesOff(n.m, n.d.mOut, n.now) && SeesOff(n.s, n.d.sOut, n.now) }

  /** The worker ends due transmissions and begins none. */
  lemma WorkedOuts(n: Net, fm: Fate, fs: Fate, gap: nat)
    ensures var t := Worked(n, fm, fs, gap);
      && t.now >= n.now && t.m == n.m && t.s == n.s
      && (t.d.mOut == n.d.mOut || t.d.mOut.isSend) && (t.d.sOut == n.d.sOut || t.d.sOut.isSend)
      && (n.d.mOut.sendTime + TOA <= n.now ==> t.d.mOut.isSend) && (n.d.sOut.sendTime + TOA <= n.now ==> t.d.sOut.isSend)
  {
    hide XorBytes;
  }

  /** A thread about to commit does so for its call. */
  predicate CommitsCall(t: Thread) { t.pc.SendCommit? ==> t.call == Send(t.pc.p, t.pc.blocking) }

  lemma LedgerCommits(t: Thread)
    requires Ledger(t)
    ensures CommitsCall(t)
  {
    hide Goes, Looks, EndsBy, EndsAt;
  }

  lemma WorkSeesOff(n: Net, id: Side, fm: Fate, fs: Fate, gap: nat)
    requires BothSeeOff(n) && RunsWorker(n.ThreadOf(id).pc)
    ensures BothSeeOff(Moved(n, id, fm, fs, gap))
  {
    hide Worked;
    WorkedOuts(n, fm, fs, gap);
  }

  lemma RestSeesOff(n: Net, id: Side, fm: Fate, fs: Fate, gap: nat)
    requires BothSeeOff(n) && n.ThreadOf(id).pc.Busy() && !RunsWorker(n.ThreadOf(id).pc)
    requires Awake(n.ThreadOf(id).pc, n.now) && CommitsCall(n.ThreadOf(id))
    ensures BothSeeOff(Moved(n, id, fm, fs, gap))
  {
    hide Worked;
  }

  lemma StepSeesOff(n: Net, a: Action)
    requires BothSeeOff(n) && Ledger(n.m) && Ledger(n.s) && Enabled(n, a)
    ensures BothSeeOff(Apply(n, a))
  {
    hide Moved, Ledger, CommitsCall;
    LedgerCommits(n.m);
    LedgerCommits(n.s);
    if a.Go? {
      hide BothSeeOff;
      if RunsWorker(n.ThreadOf(a.id).pc) {
        WorkSeesOff(n, a.id, a.fm, a.fs, a.gap);
      } else {
        RestSeesOff(n, a.id, a.fm, a.fs, a.gap);
      }
    }
  }

  lemma {:induction false} RunSeesOff(run: seq<Net>, acts: seq<Action>, i: nat)
    requires IsRun(run, acts) && i < |run|
    ensures BothSeeOff(run[i])
  {
    hide Enabled, Apply, Ledger;
    if i > 0 {
      hide BothSeeOff, Init;
      RunSeesOff(run, acts, i - 1);
      RunLedger(run, acts, i - 1);
      StepSeesOff(run[i - 1], acts[i - 1]);
    }
  }

  /** When a blocking send returns its packet is no longer on the air. */
  lemma BlockingSendIsOver(run: seq<Net>, acts: seq<Action>, i: nat, id: Side)
    requires IsRun(run, acts) && i < |run|
    ensures var t := run[i].ThreadOf(id); t.pc.SendDone? && t.call.Send? && t.call.blocking ==> run[i].d.OutOf(id).isSend
  {
    hide Enabled, Apply, Init;
    RunSeesOff(run, acts, i);
  }
}
