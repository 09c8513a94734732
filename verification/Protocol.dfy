/** The two communication loops of stack-comm.c over the radio, as one timed transition system.

    A step is one switch case of a link-control machine, one local decision of a MAC worker, one
    critical section of the radio API, or the passing of time; the two threads and the clock
    interleave in any order. */
module Protocol {

  import opened Crc
  import opened Packet
  import opened Detection
  import opened Radio
  import opened Llc

  /** tsm->mac_recv_timeout, in milliseconds. */
  const MASTER_TIMEOUT := 300
  const SLAVE_TIMEOUT := 100_000

  /** The latencies a run is assumed to meet, in microseconds.
      sr: from the delivery of a packet to the slave until the slave commits its reply;
      lm: what the master adds to the time on air between starting its timer and its first
      look at the timer after sending. */
  datatype Config = Config(sr: int, lm: int) {
    /** No latency is negative. */
    predicate Bounds() { 0 <= sr && 0 <= lm }

    /** The bounds under which the protocol is safe; Executions.LatenciesExact shows there are no
        others. */
    predicate Valid() {
      Bounds() && sr <= 190_000 && lm < 200_000
    }
  }

  /** What happened so far; the program keeps none of this.
      k: the master's transaction number; j: how many transactions the slave accepted;
      tx: packets the master put on the air in transaction k; faults: packets lost or damaged
      on the air in transaction k, either way; deliveredAt: when the slave's input slot last
      received a packet; listenFrom: when the master last began to listen; checked: the master
      has looked at its timer since its last transmission; listens: how often it has begun to
      listen since then; replies: packets the slave put on the air in transaction j; accepted: the
      value of k at each acceptance; completed: the value of j each time the master finished
      a transaction. */
  datatype History = History(
    k: nat,
    j: nat,
    tx: nat,
    faults: nat,
    deliveredAt: int,
    listenFrom: int,
    checked: bool,
    listens: nat,
    replies: nat,
    accepted: seq<nat>,
    completed: seq<nat>)

  /** mAt: the master's thread, when outside the radio, is about to run the link control (else
      the MAC worker); sAt likewise for the slave. */
  datatype Sys = Sys(
    now: int,
    d: Devs,
    m: Tsm, mst: MState, mAt: bool, mpc: Pc,
    s: Tsm, sst: SState, sAt: bool, spc: Pc,
    h: History)

  // ---------------------------------------------------------------- initial states

  /** After wl_emul_env_init, stk_m_tsm_init and stk_s_tsm_init.  Buffers, timers and
      test_trans_id hold anything. */
  predicate Init(s: Sys) {
    && s.d.mOut.isSend && s.d.sOut.isSend && !s.d.mIn.isReceived && !s.d.sIn.isReceived
    && s.d.err == 0
    && s.m.sendFree == s.m.recvFree == s.s.sendFree == s.s.recvFree == POOL_SIZE
    && s.m.transId == TRANS_ID_START && s.m.sendQ == [] && s.m.recvQ == [] && s.m.resend == []
    && s.s.transId == TRANS_ID_NONE && s.s.sendQ == [] && s.s.recvQ == [] && s.s.resend == []
    && s.mst == MIdle && s.mAt && s.mpc == Outside
    && s.sst == SIdle && s.sAt && s.spc == Outside
    && s.h == History(0, 0, 0, 0, s.now, s.now, true, 0, 0, [], [])
  }

  // ---------------------------------------------------------------- steps

  /** The channel loses packets, delivers them intact, or damages them so that the CRC notices:
      the assumption on corruption, no weaker than what the check can see. */
  predicate Detectable(f: Fate) {
    f.Arrives? ==> f.noise == Silence() || CrcFrom(0, f.noise) != 0
  }

  function Silence(): Frame { ZeroBytes(PACK_LEN) }

  /** The history after finishing the transmission of src, if it is due. */
  function Observe(h: History, o: Out, src: Side, now: int, f: Fate): History {
    if !Due(o, now) then h
    else match f {
      case Lost => h.(faults := h.faults + 1)
      case Arrives(noise) =>
        h.(deliveredAt := if src == M then now else h.deliveredAt,
           faults := if Checks(XorBytes(o.data, noise)) then h.faults else h.faults + 1)
    }
  }

  function Carry(s: Sys, src: Side, f: Fate): Sys {
    s.(d := Targ(s.d, src, s.now, f), h := Observe(s.h, s.d.OutOf(src), src, s.now, f))
  }

  /** The state after wl_shadow_worker: both directions, then the check for collisions.  Between the
      two readings of the clock gap microseconds pass. */
  function Worked(s: Sys, fm: Fate, fs: Fate, gap: nat): Sys {
    var t := Carry(s, M, fm);
    var u := Carry(t.(now := t.now + gap), S, fs);
    u.(d := ChannelCheck(u.d))
  }

  function MasterLlc(s: Sys): Sys
    requires s.mst == MResend ==> s.m.resend != []
  {
    var r := MasterCase(s.m, s.mst, s.now);
    var h := match s.mst
      case MIdle => s.h.(k := s.h.k + 1, tx := 0, faults := 0, checked := false, listens := 0)
      case MSendAll => if s.m.recvQ == [] && s.m.sendQ == [] then s.h.(checked := true) else s.h
      case MReceivedAll => s.h.(completed := s.h.completed + [s.h.j])
      case MResend => s.h.(checked := false, listens := 0);
    s.(m := r.t, mst := r.st, mAt := r.st != s.mst, h := h)
  }

  function SlaveLlc(s: Sys): Sys
    requires s.sst == SResend ==> s.s.resend != []
  {
    var r := SlaveCase(s.s, s.sst);
    var h := if s.sst == SIdle && r.st == SReceivedAll
             then s.h.(j := s.h.j + 1, replies := 0, accepted := s.h.accepted + [s.h.k]) else s.h;
    s.(s := r.t, sst := r.st, sAt := r.st != s.sst, h := h)
  }

  /** stk_mac_worker: send if there is something to send, else listen. */
  function MacStart(t: Tsm, timeout: nat): Pc {
    if t.sendQ != [] then SendEnter(t.sendQ[0], true) else RecvEnter(timeout)
  }

  function MacStarted(t: Tsm): Tsm {
    if t.sendQ != [] then t else PackTaken(t)
  }

  /** The end of stk_mac_do_send and stk_mac_do_receive. */
  function MacEnd(t: Tsm, pc: Pc): Tsm
    requires pc.SendDone? || pc.RecvDone?
    requires pc.SendDone? ==> t.sendQ != []
  {
    if pc.SendDone? then Sent(t)
    else if pc.Holding() && Checks(pc.Held()) then Received(t, pc.Held())
    else PackPutBack(t)
  }

  /** The master's thread can take a step.  The conditions on the queues are proved of every
      reachable state: the program does not test them. */
  predicate MasterCan(s: Sys) {
    && Awake(s.mpc, s.now)
    && (s.mpc.Outside? && s.mAt && s.mst == MResend ==> s.m.resend != [])
    && (s.mpc.SendDone? ==> s.m.sendQ != [])
  }

  predicate SlaveCan(s: Sys) {
    && Awake(s.spc, s.now)
    && (s.spc.Outside? && s.sAt && s.sst == SResend ==> s.s.resend != [])
    && (s.spc.SendDone? ==> s.s.sendQ != [])
  }

  function MasterStep(s: Sys, fm: Fate, fs: Fate, gap: nat): Sys
    requires MasterCan(s)
  {
    if s.mpc.Outside? then
      if s.mAt then MasterLlc(s)
      else s.(mpc := MacStart(s.m, MASTER_TIMEOUT), m := MacStarted(s.m),
              h := if s.m.sendQ == [] then s.h.(listenFrom := s.now, listens := s.h.listens + 1) else s.h)
    else if s.mpc.Busy() then
      var s1 := if RunsWorker(s.mpc) then Worked(s, fm, fs, gap)
                else s.(d := Move(s.d, s.mpc, M, s.now),
                        h := if s.mpc.SendCommit? then s.h.(tx := s.h.tx + 1) else s.h);
      s1.(mpc := NextPc(s.d, s.mpc, M, s.now))
    else s.(m := MacEnd(s.m, s.mpc), mpc := Outside, mAt := true)
  }

  function SlaveStep(s: Sys, fm: Fate, fs: Fate, gap: nat): Sys
    requires SlaveCan(s)
  {
    if s.spc.Outside? then
      if s.sAt then SlaveLlc(s)
      else s.(spc := MacStart(s.s, SLAVE_TIMEOUT), s := MacStarted(s.s))
    else if s.spc.Busy() then
      var s1 := if RunsWorker(s.spc) then Worked(s, fm, fs, gap)
                else s.(d := Move(s.d, s.spc, S, s.now),
                        h := if s.spc.SendCommit? then s.h.(replies := s.h.replies + 1) else s.h);
      s1.(spc := NextPc(s.d, s.spc, S, s.now))
    else s.(s := MacEnd(s.s, s.spc), spc := Outside, sAt := true)
  }

  datatype Action = Tick(dt: nat) | Master(fm: Fate, fs: Fate, gap: nat) | Slave(fm: Fate, fs: Fate, gap: nat)

  predicate Enabled(s: Sys, a: Action) {
    match a {
      case Tick(_) => true
      case Master(fm, fs, _) => MasterCan(s) && Detectable(fm) && Detectable(fs)
      case Slave(fm, fs, _) => SlaveCan(s) && Detectable(fm) && Detectable(fs)
    }
  }

  function Apply(s: Sys, a: Action): Sys
    requires Enabled(s, a)
  {
    match a {
      case Tick(dt) => s.(now := s.now + dt)
      case Master(fm, fs, gap) => MasterStep(s, fm, fs, gap)
      case Slave(fm, fs, gap) => SlaveStep(s, fm, fs, gap)
    }
  }

  // ---------------------------------------------------------------- where the token can be

  function B(b: bool): nat { if b then 1 else 0 }

  /** The master holds the turn: it is about to open a transaction, has a packet to commit, or
      has a good reply in hand. */
  predicate AtMaster(s: Sys) {
    || s.mst == MIdle || s.mst == MReceivedAll
    || (s.m.sendQ != [] && !s.mpc.PostCommit())
    || s.m.recvQ != []
    || (s.mpc.Holding() && Checks(s.mpc.Held()))
  }

  /** The slave has a good packet in hand or a reply not yet committed. */
  predicate AtSlave(s: Sys) {
    || s.sst == SReceivedAll || s.sst == SResend
    || (s.s.sendQ != [] && !s.spc.PostCommit())
    || s.s.recvQ != []
    || (s.spc.Holding() && Checks(s.spc.Held()))
  }

  /** At the master, in flight to the slave, in the slave's slot, at the slave, in flight to the
      master, in the master's slot. */
  function Tokens(s: Sys): nat {
    B(AtMaster(s)) + B(!s.d.mOut.isSend) + B(s.d.sIn.isReceived)
    + B(AtSlave(s)) + B(!s.d.sOut.isSend) + B(s.d.mIn.isReceived)
  }

  /** The latencies assumed of a run, as a condition on each of its states. */
  predicate Meets(c: Config, s: Sys) {
    && (s.d.sIn.isReceived || AtSlave(s) ==> s.now <= s.h.deliveredAt + c.sr)
    && (s.mst == MSendAll && !s.h.checked ==> s.now <= s.m.timerStart + TOA + c.lm)
  }
}
