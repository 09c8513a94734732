/** The emulated radio of env-core.c as values: what each critical section under the lock does,
    and the position of a thread between two of them.

    Times are microseconds of one monotone clock.  A packet is its first 19 bytes: no function
    of the program reads the rest of the 256-byte buffers. */
module Radio {

  import opened Packet
  import opened Detection
  import Timer

  /** CONFIG_WL_STD_TIME_ON_AIR_MS */
  const TOA_MS := 100

  /** It and CONFIG_WL_SLEEP_GRANULARITY, in microseconds. */
  const TOA := TOA_MS * 1000
  const GRANULARITY := Timer.GRANULARITY_MS * 1000

  /** ID_0 is the master's transceiver, ID_1 the slave's. */
  datatype Side = M | S

  datatype Option<+T> = None | Some(value: T)

  datatype Out = Out(isSend: bool, sendTime: int, data: Frame)

  datatype In = In(isReceived: bool, data: Frame)

  /** The static record `devs`; err is the statistic as an unbounded count. */
  datatype Devs = Devs(mIn: In, mOut: Out, sIn: In, sOut: Out, err: nat) {
    function InOf(id: Side): In { if id == M then mIn else sIn }

    function OutOf(id: Side): Out { if id == M then mOut else sOut }

    function WithIn(id: Side, i: In): Devs { if id == M then this.(mIn := i) else this.(sIn := i) }

    function WithOut(id: Side, o: Out): Devs { if id == M then this.(mOut := o) else this.(sOut := o) }
  }

  function Peer(id: Side): Side { if id == M then S else M }

  /** What the random numbers drawn at delivery decide: loss, or the bits to flip. */
  datatype Fate = Lost | Arrives(noise: Frame)

  // ---------------------------------------------------------------- critical sections

  /** A packet is pending and its time on air has passed. */
  predicate Due(o: Out, now: int) {
    !o.isSend && o.sendTime + TOA <= now
  }

  /** wl_shadow_worker_targ: finishes the transmission of src, if it is due. */
  function Targ(d: Devs, src: Side, now: int, fate: Fate): Devs {
    var o := d.OutOf(src);
    if !Due(o, now) then d
    else match fate {
      case Lost => d.WithOut(src, o.(isSend := true))
      case Arrives(noise) =>
        var broken := XorBytes(o.data, noise);
        var sent := d.WithOut(src, o.(isSend := true, data := broken));
        if d.InOf(Peer(src)).isReceived then sent.(err := d.err + 1)
        else sent.WithIn(Peer(src), In(true, broken))
    }
  }

  /** wl_shadow_worker_chanel_check: both sides transmitting is an error. */
  function ChannelCheck(d: Devs): Devs {
    if !d.mOut.isSend && !d.sOut.isSend then d.(err := d.err + 1) else d
  }

  /** wl_shadow_worker; each direction reads the clock. */
  function ShadowWorker(d: Devs, now: int, later: int, fm: Fate, fs: Fate): Devs {
    ChannelCheck(Targ(Targ(d, M, now, fm), S, later, fs))
  }

  /** The commit inside wl_sendPacketTimeout. */
  function Commit(d: Devs, id: Side, now: int, p: Frame): Devs {
    d.WithOut(id, Out(false, now, p))
  }

  /** The copy inside wl_receivePacketTimeout. */
  function Take(d: Devs, id: Side): Devs {
    d.WithIn(id, d.InOf(id).(isReceived := false))
  }

  // ---------------------------------------------------------------- a thread inside the API

  /** Where a thread stands: the next critical section, unlocked read or sleep it will do. */
  datatype Pc =
    | Outside
      // wl_sendPacketTimeout(id, p, blocking ? timeout : 0)
    | SendEnter(p: Frame, blocking: bool)               // wl_shadow_worker
    | SendProbe(p: Frame, blocking: bool)               // unlocked read of is_send
    | SendFault(p: Frame, blocking: bool)               // err++
    | SendCommit(p: Frame, blocking: bool, faulted: bool)
    | SendNap(wake: int)                                // nanosleep of the time on air
    | SendWorker                                        // wl_shadow_worker
    | SendAudit                                         // wl_shadow_checker
    | SendDone
      // wl_receivePacketTimeout(id, timeout, payload), times in milliseconds
    | RecvEnter(timeout: nat)                           // wl_shadow_worker
    | PollTest(timeout: nat, slept: nat)                // loop condition of wl_availableData
    | PollWorker(timeout: nat, slept: nat)              // wl_is_data: wl_shadow_worker
    | PollRead(timeout: nat, slept: nat)                // wl_is_data: read is_recieved
    | PollAudit(timeout: nat, slept: nat, ready: bool)  // wl_is_data: wl_shadow_checker
    | PollNap(timeout: nat, slept: nat, wake: int)      // nanosleep of the granularity
    | RecvFault                                         // err++
    | RecvCopy                                          // copy and clear is_recieved
    | RecvAudit(data: Frame)                            // wl_shadow_checker
    | RecvDone(result: Option<Frame>)
  {
    /** Inside wl_sendPacketTimeout, before its packet is in the output slot. */
    predicate PreCommit() { SendEnter? || SendProbe? || SendFault? || SendCommit? }

    /** Inside wl_sendPacketTimeout, after that. */
    predicate PostCommit() { SendNap? || SendWorker? || SendAudit? || SendDone? }

    /** Inside wl_receivePacketTimeout, before the packet is taken. */
    predicate Listening() {
      RecvEnter? || PollTest? || PollWorker? || PollRead? || PollAudit? || PollNap? || RecvFault? || RecvCopy?
    }

    predicate Holding() { RecvAudit? || (RecvDone? && result.Some?) }

    function Held(): Frame requires Holding() { if RecvAudit? then data else result.value }

    predicate Busy() { !Outside? && !SendDone? && !RecvDone? }
  }

  /** The thread can move: nobody sleeps past its time, but never less. */
  predicate Awake(pc: Pc, now: int) {
    (pc.SendNap? || pc.PollNap?) ==> pc.wake <= now
  }

  /** Where the thread goes next, given the record it sees. */
  function NextPc(d: Devs, pc: Pc, id: Side, now: int): Pc
    requires pc.Busy()
  {
    match pc {
      case SendEnter(p, b) => SendProbe(p, b)
      case SendProbe(p, b) => if d.OutOf(id).isSend then SendCommit(p, b, false) else SendFault(p, b)
      case SendFault(p, b) => SendCommit(p, b, true)
      case SendCommit(p, b, _) => if b then SendNap(now + TOA) else SendAudit
      case SendNap(_) => SendWorker
      case SendWorker => SendAudit
      case SendAudit => SendDone
      case RecvEnter(t) => PollTest(t, 0)
      case PollTest(t, slept) => if t == 0 || t > slept then PollWorker(t, slept) else RecvDone(None)
      case PollWorker(t, slept) => PollRead(t, slept)
      case PollRead(t, slept) => PollAudit(t, slept, d.InOf(id).isReceived)
      case PollAudit(t, slept, ready) =>
        if ready then RecvCopy else if t == 0 then RecvFault else PollNap(t, slept, now + GRANULARITY)
      case PollNap(t, slept, _) => PollTest(t, (slept + Timer.GRANULARITY_MS) % 0x1_0000_0000)
      case RecvFault => RecvDone(None)
      case RecvCopy => RecvAudit(d.InOf(id).data)
      case RecvAudit(data) => RecvDone(Some(data))
    }
  }

  /** The move is a run of wl_shadow_worker. */
  predicate RunsWorker(pc: Pc) {
    pc.SendEnter? || pc.SendWorker? || pc.RecvEnter? || pc.PollWorker?
  }

  /** What any other move of the thread does to the record. */
  function Move(d: Devs, pc: Pc, id: Side, now: int): Devs
    requires pc.Busy() && !RunsWorker(pc)
  {
    match pc {
      case SendFault(_, _) => d.(err := d.err + 1)
      case RecvFault => d.(err := d.err + 1)
      case SendCommit(p, _, _) => Commit(d, id, now, p)
      case SendAudit => ChannelCheck(d)
      case PollAudit(_, _, _) => ChannelCheck(d)
      case RecvAudit(_) => ChannelCheck(d)
      case RecvCopy => Take(d, id)
      case _ => d
    }
  }
}
