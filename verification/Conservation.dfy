/** The radio under any two client threads: what each direction did with every packet.

    The clients call wl_sendPacketTimeout and wl_receivePacketTimeout in any order with any
    arguments; their critical sections, unlocked reads and sleeps interleave freely. */
module Conservation {

  import opened Packet
  import opened Detection
  import opened Radio

  // ---------------------------------------------------------------- histories

  /** How the radio was done with a committed packet. */
  datatype End = WasLost | WasDropped | WasOverwritten | WasDelivered(noise: Frame)

  /** One direction: the packets committed, in order; the ends of all but a pending one, in the
      same order; the packets its receiver read. */
  datatype Dir = Dir(committed: seq<Frame>, ends: seq<End>, taken: seq<Frame>)

  datatype Call = Send(p: Frame, blocking: bool) | Receive(timeout: nat)

  /** seen: the contents of the own input slot when the thread last looked at its flag.  call: the last
      call begun; since then, looks: how often the thread looked at its flag; found: it saw it
      set; checks: how often it checked for a collision. */
  datatype Thread = Thread(pc: Pc, seen: Frame, call: Call, looks: nat, found: bool, checks: nat)

  /** mDir is what M sends and S receives. */
  datatype Net = Net(now: int, d: Devs, m: Thread, s: Thread, mDir: Dir, sDir: Dir) {
    function ThreadOf(id: Side): Thread { if id == M then m else s }

    function DirOf(src: Side): Dir { if src == M then mDir else sDir }

    function WithThread(id: Side, t: Thread): Net { if id == M then this.(m := t) else this.(s := t) }

    function WithDir(src: Side, x: Dir): Net { if src == M then this.(mDir := x) else this.(sDir := x) }
  }

  datatype Action = Tick(dt: nat) | Begin(id: Side, call: Call) | Go(id: Side, fm: Fate, fs: Fate, gap: nat)

  // ---------------------------------------------------------------- steps

  /** After wl_emul_env_init, no thread inside the radio. */
  predicate Init(n: Net) {
    && n.d.mOut.isSend && n.d.sOut.isSend && !n.d.mIn.isReceived && !n.d.sIn.isReceived && n.d.err == 0
    && n.m.pc == Outside && n.s.pc == Outside
    && n.mDir == Dir([], [], []) && n.sDir == Dir([], [], [])
  }

  predicate Enabled(n: Net, a: Action) {
    match a {
      case Tick(_) => true
      case Begin(id, _) => !n.ThreadOf(id).pc.Busy()
      case Go(id, _, _, _) => n.ThreadOf(id).pc.Busy() && Awake(n.ThreadOf(id).pc, n.now)
    }
  }

  /** One direction of wl_shadow_worker, with its bookkeeping. */
  function Carry(n: Net, src: Side, f: Fate): Net {
    var o, x := n.d.OutOf(src), n.DirOf(src);
    var next := n.(d := Targ(n.d, src, n.now, f));
    if !Due(o, n.now) then next
    else next.WithDir(src, x.(ends := x.ends + [
      if f.Lost? then WasLost else if n.d.InOf(Peer(src)).isReceived then WasDropped else WasDelivered(f.noise)]))
  }

  /** wl_shadow_worker: between its two readings of the clock gap microseconds pass. */
  function Worked(n: Net, fm: Fate, fs: Fate, gap: nat): Net {
    var first := Carry(n, M, fm);
    var next := Carry(first.(now := first.now + gap), S, fs);
    next.(d := ChannelCheck(next.d))
  }

  /** The worker's bookkeeping apart, it does to the record what one locked section does. */
  lemma WorkedIsShadowWorker(n: Net, fm: Fate, fs: Fate, gap: nat)
    ensures Worked(n, fm, fs, gap).d == ShadowWorker(n.d, n.now, n.now + gap, fm, fs)
  {
    hide Targ, ChannelCheck;
  }

  /** The bookkeeping of a move that is not the worker. */
  function Note(n: Net, id: Side): Net {
    var t := n.ThreadOf(id);
    match t.pc {
      case SendCommit(p, _, _) =>
        var x := n.DirOf(id);
        n.WithDir(id, x.(committed := x.committed + [p],
                         ends := if n.d.OutOf(id).isSend then x.ends else x.ends + [WasOverwritten]))
      case RecvCopy =>
        var x := n.DirOf(Peer(id));
        n.WithDir(Peer(id), x.(taken := x.taken + [n.d.InOf(id).data]))
      case PollRead(_, _) => n.WithThread(id, t.(seen := n.d.InOf(id).data))
      case _ => n
    }
  }

  predicate LooksForCollision(pc: Pc) { RunsWorker(pc) || pc.SendAudit? || pc.PollAudit? || pc.RecvAudit? }

  /** The thread after its move. */
  function Onward(t: Thread, d: Devs, id: Side, now: int): Thread
    requires t.pc.Busy()
  {
    t.(pc := NextPc(d, t.pc, id, now),
       looks := if t.pc.PollRead? then t.looks + 1 else t.looks,
       found := t.found || (t.pc.PollRead? && d.InOf(id).isReceived),
       checks := if LooksForCollision(t.pc) then t.checks + 1 else t.checks)
  }

  function Begun(t: Thread, call: Call): Thread {
    t.(call := call, looks := 0, found := false, checks := 0,
       pc := match call case Send(p, blocking) => SendEnter(p, blocking) case Receive(timeout) => RecvEnter(timeout))
  }

  function Moved(n: Net, id: Side, fm: Fate, fs: Fate, gap: nat): Net
    requires n.ThreadOf(id).pc.Busy()
  {
    var pc := n.ThreadOf(id).pc;
    var next := if RunsWorker(pc) then Worked(n, fm, fs, gap) else Note(n, id).(d := Move(n.d, pc, id, n.now));
    next.WithThread(id, Onward(next.ThreadOf(id), n.d, id, n.now))
  }

  function Apply(n: Net, a: Action): Net
    requires Enabled(n, a)
  {
    match a {
      case Tick(dt) => n.(now := n.now + dt)
      case Begin(id, call) => n.WithThread(id, Begun(n.ThreadOf(id), call))
      case Go(id, fm, fs, gap) => Moved(n, id, fm, fs, gap)
    }
  }

  // ---------------------------------------------------------------- what is conserved

  /** The packets delivered among the first |ends| committed, as they arrived. */
  function Received(committed: seq<Frame>, ends: seq<End>): seq<Frame>
    requires |ends| <= |committed|
  {
    if ends == [] then []
    else
      var k := |ends| - 1;
      Received(committed, ends[..k])
      + if ends[k].WasDelivered? then [XorBytes(committed[k], ends[k].noise)] else []
  }

  /** How many packets ended with an error counted. */
  function Errors(ends: seq<End>): nat {
    if ends == [] then 0
    else Errors(ends[..|ends| - 1]) + if ends[|ends| - 1].WasDropped? || ends[|ends| - 1].WasOverwritten? then 1 else 0
  }

  /** One direction: every committed packet but a pending one has come to exactly one end, and
      what was read, with what waits in the input slot, is exactly what was delivered. */
  predicate Kept(x: Dir, o: Out, i: In) {
    && |x.committed| == |x.ends| + (if o.isSend then 0 else 1)
    && (!o.isSend ==> x.committed[|x.committed| - 1] == o.data)
    && x.taken + (if i.isReceived then [i.data] else []) == Received(x.committed, x.ends)
  }

  /** A thread that saw its slot full finds the same bytes there; one that did not count an
      error finds its output slot free. */
  predicate Trusts(t: Thread, o: Out, i: In) {
    && (t.pc.RecvCopy? || (t.pc.PollAudit? && t.pc.ready) ==> i.isReceived && i.data == t.seen)
    && (t.pc.SendCommit? && !t.pc.faulted ==> o.isSend)
  }

  /** A packet a thread holds is the one it read last. */
  predicate Holds(t: Thread, x: Dir) {
    t.pc.Holding() ==> x.taken != [] && t.pc.Held() == x.taken[|x.taken| - 1]
  }

  /** An error already counted for an overwrite that is about to happen. */
  function Credit(t: Thread): nat { if t.pc.SendCommit? && t.pc.faulted then 1 else 0 }

  predicate Inv(n: Net) {
    && Kept(n.mDir, n.d.mOut, n.d.sIn) && Kept(n.sDir, n.d.sOut, n.d.mIn)
    && Trusts(n.m, n.d.mOut, n.d.mIn) && Trusts(n.s, n.d.sOut, n.d.sIn)
    && Holds(n.m, n.sDir) && Holds(n.s, n.mDir)
    && Errors(n.mDir.ends) + Errors(n.sDir.ends) + Credit(n.m) + Credit(n.s) <= n.d.err
  }

  lemma {:induction false} ReceivedIgnoresLater(committed: seq<Frame>, p: Frame, ends: seq<End>)
    requires |ends| <= |committed|
    ensures Received(committed + [p], ends) == Received(committed, ends)
    decreases |ends|
  {
    hide XorBytes;
    if ends != [] { ReceivedIgnoresLater(committed, p, ends[..|ends| - 1]); }
  }

  lemma ReceivedStep(committed: seq<Frame>, ends: seq<End>, e: End)
    requires |ends| < |committed|
    ensures Received(committed, ends + [e]) ==
            Received(committed, ends) + if e.WasDelivered? then [XorBytes(committed[|ends|], e.noise)] else []
  {
    hide XorBytes;
    assert (ends + [e])[..|ends|] == ends;
  }

  lemma ErrorsStep(ends: seq<End>, e: End)
    ensures Errors(ends + [e]) == Errors(ends) + if e.WasDropped? || e.WasOverwritten? then 1 else 0
  {
    assert (ends + [e])[..|ends|] == ends;
  }

  // ---------------------------------------------------------------- every step conserves

  lemma CarryInv(n: Net, src: Side, f: Fate)
    requires Inv(n)
    ensures Inv(Carry(n, src, f))
  {
    hide XorBytes, Received, Errors;
    if Due(n.d.OutOf(src), n.now) {
      var x := n.DirOf(src);
      var e := Carry(n, src, f).DirOf(src).ends[|x.ends|];
      ReceivedStep(x.committed, x.ends, e);
      ErrorsStep(x.ends, e);
    }
  }

  lemma WorkedInv(n: Net, fm: Fate, fs: Fate, gap: nat)
    requires Inv(n)
    ensures Inv(Worked(n, fm, fs, gap))
  {
    hide Carry, XorBytes, Received, Errors, Kept;
    CarryInv(n, M, fm);
    var first := Carry(n, M, fm);
    CarryInv(first.(now := first.now + gap), S, fs);
    var next := Carry(first.(now := first.now + gap), S, fs);
  }

  /** Leaving the worker, a thread neither commits nor copies. */
  lemma LeavesWorkerInv(n: Net, id: Side, d: Devs, now: int)
    requires Inv(n) && RunsWorker(n.ThreadOf(id).pc)
    ensures Inv(n.WithThread(id, Onward(n.ThreadOf(id), d, id, now)))
  {
    hide Kept, Errors;
  }

  lemma WorkInv(n: Net, id: Side, fm: Fate, fs: Fate, gap: nat)
    requires Inv(n) && RunsWorker(n.ThreadOf(id).pc)
    ensures Inv(Moved(n, id, fm, fs, gap))
  {
    hide Worked, Inv, Onward, Note, Move;
    WorkedInv(n, fm, fs, gap);
    WorkedKeepsThreads(n, fm, fs, gap);
    LeavesWorkerInv(Worked(n, fm, fs, gap), id, n.d, n.now);
  }

  lemma WorkedKeepsThreads(n: Net, fm: Fate, fs: Fate, gap: nat)
    ensures Worked(n, fm, fs, gap).m == n.m && Worked(n, fm, fs, gap).s == n.s
  {
    hide XorBytes, Targ, ChannelCheck;
  }

  lemma CommitInv(n: Net, id: Side, fm: Fate, fs: Fate, gap: nat)
    requires Inv(n) && n.ThreadOf(id).pc.SendCommit?
    ensures Inv(Moved(n, id, fm, fs, gap))
  {
    hide XorBytes, Received, Errors;
    var x := n.DirOf(id);
    ReceivedIgnoresLater(x.committed, n.ThreadOf(id).pc.p, x.ends);
    if !n.d.OutOf(id).isSend {
      ReceivedStep(x.committed + [n.ThreadOf(id).pc.p], x.ends, WasOverwritten);
      ErrorsStep(x.ends, WasOverwritten);
    }
  }

  lemma CopyInv(n: Net, id: Side, fm: Fate, fs: Fate, gap: nat)
    requires Inv(n) && n.ThreadOf(id).pc.RecvCopy?
    ensures Inv(Moved(n, id, fm, fs, gap))
  {
    hide XorBytes, Received, Errors;
  }

  lemma RestInv(n: Net, id: Side, fm: Fate, fs: Fate, gap: nat)
    requires Inv(n) && n.ThreadOf(id).pc.Busy()
    requires !RunsWorker(n.ThreadOf(id).pc) && !n.ThreadOf(id).pc.SendCommit? && !n.ThreadOf(id).pc.RecvCopy?
    ensures Inv(Moved(n, id, fm, fs, gap))
  {
    hide XorBytes, Received, Errors;
  }

  lemma TickInv(n: Net, dt: nat)
    requires Inv(n)
    ensures Inv(n.(now := n.now + dt))
  {
    hide Kept, Errors;
  }

  lemma BeginInv(n: Net, id: Side, call: Call)
    requires Inv(n) && !n.ThreadOf(id).pc.Busy()
    ensures Inv(n.WithThread(id, Begun(n.ThreadOf(id), call)))
  {
    hide Kept, Errors;
  }

  lemma StepInv(n: Net, a: Action)
    requires Inv(n) && Enabled(n, a)
    ensures Inv(Apply(n, a))
  {
    hide Moved, Inv, Begun;
    match a {
      case Tick(dt) => TickInv(n, dt);
      case Begin(id, call) => BeginInv(n, id, call);
      case Go(id, fm, fs, gap) =>
        var pc := n.ThreadOf(id).pc;
        if RunsWorker(pc) { WorkInv(n, id, fm, fs, gap); }
        else if pc.SendCommit? { CommitInv(n, id, fm, fs, gap); }
        else if pc.RecvCopy? { CopyInv(n, id, fm, fs, gap); }
        else { RestInv(n, id, fm, fs, gap); }
    }
  }

  // ---------------------------------------------------------------- runs

  predicate IsRun(run: seq<Net>, acts: seq<Action>) {
    && |run| == |acts| + 1
    && Init(run[0])
    && (forall i :: 0 <= i < |acts| ==> Enabled(run[i], acts[i]) && run[i + 1] == Apply(run[i], acts[i]))
  }

  lemma {:induction false} RunInv(run: seq<Net>, acts: seq<Action>, i: nat)
    requires IsRun(run, acts) && i < |run|
    ensures Inv(run[i])
  {
    if i > 0 {
      hide Inv, Enabled, Apply, Init;
      RunInv(run, acts, i - 1);
      StepInv(run[i - 1], acts[i - 1]);
    }
  }

  // ---------------------------------------------------------------- what the radio promises

  function Count(ends: seq<End>, kind: End -> bool): nat {
    if ends == [] then 0 else Count(ends[..|ends| - 1], kind) + if kind(ends[|ends| - 1]) then 1 else 0
  }

  lemma {:induction false} EndsAddUp(ends: seq<End>)
    ensures |ends| == Count(ends, (e: End) => e.WasLost?) + Count(ends, (e: End) => e.WasDropped?)
                      + Count(ends, (e: End) => e.WasOverwritten?) + Count(ends, (e: End) => e.WasDelivered?)
    ensures Errors(ends) == Count(ends, (e: End) => e.WasDropped?) + Count(ends, (e: End) => e.WasOverwritten?)
  {
    if ends != [] { EndsAddUp(ends[..|ends| - 1]); }
  }

  lemma {:induction false} ReceivedCount(committed: seq<Frame>, ends: seq<End>)
    requires |ends| <= |committed|
    ensures |Received(committed, ends)| == Count(ends, (e: End) => e.WasDelivered?)
  {
    hide XorBytes;
    if ends != [] { ReceivedCount(committed, ends[..|ends| - 1]); }
  }

  /** Conservation, in each direction: sends committed = in flight + lost + dropped on a full slot
      + overwritten + delivered; delivered = read + waiting in the slot; and the packets dropped
      or overwritten are at most the errors counted. */
  lemma Conserved(run: seq<Net>, acts: seq<Action>, i: nat, src: Side)
    requires IsRun(run, acts) && i < |run|
    ensures var n := run[i]; var x := n.DirOf(src);
      && |x.committed| == (if n.d.OutOf(src).isSend then 0 else 1)
                          + Count(x.ends, (e: End) => e.WasLost?) + Count(x.ends, (e: End) => e.WasDropped?)
                          + Count(x.ends, (e: End) => e.WasOverwritten?) + Count(x.ends, (e: End) => e.WasDelivered?)
      && Count(x.ends, (e: End) => e.WasDelivered?) == |x.taken| + (if n.d.InOf(Peer(src)).isReceived then 1 else 0)
      && Count(x.ends, (e: End) => e.WasDropped?) + Count(x.ends, (e: End) => e.WasOverwritten?) <= n.d.err
  {
    hide Count, Errors, Received, Init, Enabled, Apply, Trusts;
    RunInv(run, acts, i);
    var n := run[i];
    EndsAddUp(n.mDir.ends);
    EndsAddUp(n.sDir.ends);
    ReceivedCount(n.mDir.committed, n.mDir.ends);
    ReceivedCount(n.sDir.committed, n.sDir.ends);
  }

  lemma {:induction false} AllDelivered(committed: seq<Frame>, ends: seq<End>, k: nat)
    requires |ends| <= |committed| && k < |ends|
    requires Errors(ends) == 0 && forall j :: 0 <= j < |ends| ==> !ends[j].WasLost?
    ensures |Received(committed, ends)| == |ends| && ends[k].WasDelivered?
    ensures Received(committed, ends)[k] == XorBytes(committed[k], ends[k].noise)
  {
    hide XorBytes;
    var last := |ends| - 1;
    if k < last {
      AllDelivered(committed, ends[..last], k);
    } else if last > 0 {
      AllDelivered(committed, ends[..last], last - 1);
    }
  }

  /** What the peer of src has read, and what waits in its slot. */
  function Arrived(n: Net, src: Side): seq<Frame> {
    var i := n.d.InOf(Peer(src));
    n.DirOf(src).taken + if i.isReceived then [i.data] else []
  }

  /** With no error counted and no packet lost at random, every committed packet that is not
      still in flight arrived exactly once and in order: the k-th one read, or waiting in the
      slot, is the k-th one sent, changed by that transmission's noise only. */
  lemma InOrder(run: seq<Net>, acts: seq<Action>, i: nat, src: Side, k: nat)
    requires IsRun(run, acts) && i < |run|
    requires run[i].d.err == 0 && forall j :: 0 <= j < |run[i].DirOf(src).ends| ==> !run[i].DirOf(src).ends[j].WasLost?
    requires k < |run[i].DirOf(src).ends|
    ensures var n := run[i]; var x := n.DirOf(src); var arrived := Arrived(n, src);
      && |x.committed| == |arrived| + (if n.d.OutOf(src).isSend then 0 else 1)
      && k < |arrived|
      && x.ends[k].WasDelivered? && arrived[k] == XorBytes(x.committed[k], x.ends[k].noise)
  {
    hide XorBytes, Errors, Received, Init, Enabled, Apply, Trusts;
    RunInv(run, acts, i);
    var x := run[i].DirOf(src);
    assert Errors(x.ends) == 0;
    AllDelivered(x.committed, x.ends, k);
  }

  /** Checking first and reading later needs no lock: what a thread copies out of its slot is what
      was there when it saw the flag, in every interleaving. */
  lemma CheckThenRead(run: seq<Net>, acts: seq<Action>, i: nat, id: Side)
    requires IsRun(run, acts) && i < |run| && run[i].ThreadOf(id).pc.RecvCopy?
    ensures run[i].d.InOf(id).isReceived && run[i].d.InOf(id).data == run[i].ThreadOf(id).seen
  {
    hide Kept, Errors, Init, Enabled, Apply;
    RunInv(run, acts, i);
  }

  /** What a receive call returns is the packet it copied out of the slot, the last one read. */
  lemma ReturnsLastTaken(run: seq<Net>, acts: seq<Action>, i: nat, id: Side)
    requires IsRun(run, acts) && i < |run|
    ensures var t, x := run[i].ThreadOf(id), run[i].DirOf(Peer(id));
      t.pc.RecvDone? && t.pc.result.Some? ==> x.taken != [] && t.pc.result.value == x.taken[|x.taken| - 1]
  {
    hide Kept, Errors, Init, Enabled, Apply, Trusts;
    RunInv(run, acts, i);
  }

  /** End to end, in every interleaving of any two clients: with no error counted and nothing lost at
      random, if the k-th packet one side committed was prepared and sealed by it and came through
      intact, then the k-th packet at the other side, read or waiting in its slot, passes the
      check and decodes to the same type, id, length and payload. */
  lemma EndToEnd(run: seq<Net>, acts: seq<Action>, i: nat, src: Side, k: nat, buffer: Frame, id: bv8, payload: Payload, len: bv16)
    requires IsRun(run, acts) && i < |run| && id < 4 && 0 < len <= 16
    requires run[i].d.err == 0 && forall j :: 0 <= j < |run[i].DirOf(src).ends| ==> !run[i].DirOf(src).ends[j].WasLost?
    requires var x := run[i].DirOf(src);
      && k < |x.ends| <= |x.committed| && x.committed[k] == WithChecksum(Prepared(buffer, id, payload, len))
      && x.ends[k] == WasDelivered(ZeroBytes(PACK_LEN))
    ensures k < |Arrived(run[i], src)| && Decodes(Arrived(run[i], src)[k], id, payload, len)
  {
    hide XorBytes, Checks, WithChecksum, Prepared, Decodes, Init, Enabled, Apply;
    InOrder(run, acts, i, src, k);
    ZeroNoise(WithChecksum(Prepared(buffer, id, payload, len)));
    SealedDecodes(buffer, id, payload, len);
  }

  predicate Decodes(p: Frame, id: bv8, payload: Payload, len: bv16)
    requires 0 < len <= 16
  {
    && Checks(p) && TypeOf(p) == TYPE_SINGLE && IdOf(p) == id
    && PayloadLength(p) == len as bv8 && p[P_PAYLOAD..P_CRC_LO] == payload
  }

  lemma SealedDecodes(buffer: Frame, id: bv8, payload: Payload, len: bv16)
    requires id < 4 && 0 < len <= 16
    ensures Decodes(WithChecksum(Prepared(buffer, id, payload, len)), id, payload, len)
  {
    hide WithChecksum, Prepared, Checks, TypeOf, IdOf, IsReset, PayloadLength;
    RoundTrip(buffer, id, payload, len);
  }

  /** Only the owner of an input slot empties it, and nobody overwrites a full one; only the owner
      of an output slot makes it pending, and while it is pending nobody else changes it. */
  lemma OthersKeepOut(n: Net, a: Action, id: Side)
    requires Enabled(n, a) && !(a.Go? && a.id == id)
    ensures n.d.InOf(id).isReceived ==> Apply(n, a).d.InOf(id) == n.d.InOf(id)
    ensures n.d.OutOf(id).isSend ==> Apply(n, a).d.OutOf(id).isSend
    ensures !Apply(n, a).d.OutOf(id).isSend ==> Apply(n, a).d.OutOf(id) == n.d.OutOf(id)
  {
    hide XorBytes, Onward, Begun;
  }
}
