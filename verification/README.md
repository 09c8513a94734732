# A verified model of the LoRa wireless bridge emulator

The program connects two threads, a master and a slave, by an emulated half-duplex radio. The
master opens numbered transactions and resends its packet until a reply arrives; the slave
accepts each transaction once, answers it, and repeats its last answer when it sees the same
2-bit transaction id again. The radio loses packets, flips bits in them, drops them on a full
input slot, and counts what it considers protocol errors.

This project models that program in Dafny and proves what it is for: over a lossy, corrupting
radio the two loops perform every transaction exactly once and in order, never provoke a radio
error, never fail one of their own assertions, and finish a transaction within a time that grows
only with the number of packets the radio spoils. The latencies under which this holds are found
exactly, and derived from a bound on how late the two threads are scheduled.

`dafny verify dfyconfig.toml` checks everything.

## How it is built

| file | what it holds |
|---|---|
| `Crc.dfy`, `LongDivision.dfy`, `Detection.dfy` | the CRC loop; bit-by-bit and long-division references; linearity and error detection |
| `Packet.dfy` | the 19-byte packet: header fields, payload, checksum |
| `Corruption.dfy` | which bits a delivery flips, and whether the receiver notices |
| `Timer.dfy` | times of day, the timer object, the poll loop |
| `Radio.dfy` | each critical section of the radio as a function, and a thread's position between sections |
| `Conservation.dfy` | any two client threads on the radio: every packet accounted for, in every interleaving |
| `Accounting.dfy` | any two client threads: where every counted error comes from, and what each call has done when it returns |
| `Emulator.dfy` | the radio's static record as objects changed in place, proved against `Radio.dfy` |
| `Sequences.dfy`, `Lists.dfy` | the intrusive circular list on the heap |
| `Llc.dfy` | the two link-control machines, one switch case at a time, their assertions, and why their loops end |
| `Turns.dfy` | what whole calls of the workers, and turns of the communication loops, come to |
| `Transmitter.dfy` | the transmitter as an object: pools, queues, workers and the two communication loops, proved against `Llc.dfy` and `Turns.dfy` |
| `Protocol.dfy` | both loops, both radio calls and the clock as one transition system |
| `Invariant.dfy`, `AirSteps.dfy`, `LlcSteps.dfy` | its inductive invariant and the proof for each kind of step |
| `Theorems.dfy` | what holds over every run |
| `Progress.dfy` | the bound on time and transmissions |
| `Executions.dfy` | from any start, runs that complete a transaction within any latencies, and runs that end in a radio error beyond the bounds: the bounds are exact |
| `Scheduling.dfy` | both latencies derived from one scheduling bound for the two threads; throughput |
| `Continuation.dfy` | scheduled runs exist and go on past any time |

**Steps.** A step of `Protocol` is one switch case of a link-control machine, one decision of a MAC
worker, one critical section, one unlocked read, the end of one sleep, or the passing of any
amount of time. Both threads and the clock interleave freely.

**Latencies.** The safety results need two bounds, given by `Protocol.Config` and required of each
state of a run by `Protocol.Meets`: `sr`, from a delivery to the slave until the slave commits its
reply, with `sr` plus the time on air at most 290 ms (the last look of a 300 ms poll loop is made
after 29 sleeps of 10 ms); and `lm`, what the master adds to the time on air between starting its
timer and its first look at it, with the sum below the 300 ms timer. `Executions.LatenciesExact`
shows that there are no others: no run within given latencies makes the radio count an error if and
only if the latencies satisfy both inequalities. A slave one microsecond too late can miss the last
look and leave its reply in the master's slot for the next one to collide with; so can a master held
up for 200 ms before its first look.

`Scheduling` replaces the latencies by an assumption on threads: if each makes its next move within
`delta` of being able to, and `delta` is at most 4.09 ms, every run meets safe latencies, so all the
results hold, and with at most `n` packets of a transaction spoiled transactions complete at a
steady pace. `Continuation` shows such runs exist from every start, for every `delta`, 0 included.

**Corruption.** A run may lose any packet and change packets by any pattern the CRC does not map to
zero, the weakest assumption the receiver's check allows (`Packet.NoiseUndetectedIff`). `Detection`
and `Corruption` show which patterns that includes, and that four flipped bits can lie outside it.

**Random numbers and time of day** are inputs: `rand_r` is a script of values, long enough for the
drawing loops of one delivery to end; `gettimeofday` is a parameter or any later time.

Three comments of the program say something else than its code, which the model follows.
`wl_pack_break` fears that flipping a bit twice may leave no error; the first bit is never flipped
again, so some error always remains. Its neighbour promises bits up to `CONFIG_WL_PACK_CONST_LEN * 8`;
that last bit, number 152, lies outside the packet. `list_cut_position` is documented for any head;
on an empty head it returns before initialising the other list.

## Model

| member | source | states |
|---|---|---|
| Theorems.ExactlyOnce | stack-comm.c:371-576 | in every state of every run the slave has accepted transactions 1, 2, ..., j, each while the master was in that transaction, the master has finished 1, 2, ... only after the slave accepted them, k-1 <= j <= k, and the ids are the numbers modulo 4 (none before the first) |
| Theorems.NoChannelError | env-core.c:224-373 | in every state of every run the radio's error count is 0, the turn is in at most one place, the two sides are never both transmitting, nothing is on its way to a full input slot and nothing is about to be sent over an unsent packet |
| Theorems.AssertionsHold | stack-comm.c:126-235 | every asserted condition a thread is about to evaluate holds: the reply-id match, the empty queue at commit, the kept packet at a resend, the non-empty pools where a pack is allocated; and both workers are entered with at most one packet received and none to send |
| Theorems.NeverStuck | stack-comm.c:459-476 | in every state of every run a thread that is not asleep can take a step; no queue it relies on is empty |
| Theorems.SameBytes | stack-comm.c:194-206 | all transmissions and replies of a transaction, and every packet that passes the check, are the same 19 bytes, determined by its id |
| Theorems.OneResendPerFault | stack-comm.c:520-567 | each packet lost or damaged, either way, costs exactly one more transmission, and retries_num at completion is transmissions minus one modulo 256 |
| Progress.BoundedProgress | stack-comm.c:491-595 | with at most n packets of the transaction spoiled, at most n+1 are put on the air and the master has left the transaction n+1 windows after opening it |
| Progress.WithinWindow | stack-comm.c:513-558 | in every run, while in a transaction the master reaches its reply, or its next transmission, within one window of starting its timer |
| Conservation.EndToEnd | env-core.c:224-465 | in every interleaving of any two clients, with no error counted and nothing lost at random: if the k-th packet committed was prepared and sealed and came through intact, the k-th packet read or waiting at the other side passes the check and decodes to the same type, id, length and payload |
| Conservation.ReturnsLastTaken | env-core.c:455-462 | in every interleaving, the packet a receive call returns is the one it copied out of the slot, the last one read |
| Theorems.StepInv | stack-comm.c:346-595 | every step of either thread and the clock, between states that meet the latencies, keeps the inductive invariant |
| Theorems.RunInv | stack-comm.c:459-595 | every state of every run satisfies the invariant |
| Executions.LatenciesExact | stack-comm.c:535-567 | for all non-negative latencies: no run that meets them makes the radio count an error if and only if the slave's latency and the time on air are at most 290 ms and the master's and the time on air below 300 ms |
| Executions.DelaysAloneBreakTheRadio | env-core.c:270-279 | from every start, for all latencies outside these bounds, there is a run that meets them and ends with a counted error in its first transaction, without a packet lost or damaged |
| Executions.LateReplyIsStale | env-core.c:405-412 | with a slave latency over 190 ms there is such a run in which the reply arrives just after the last look, and the timer is found expired with the reply in the slot |
| Executions.LateLookIsStale | stack-comm.c:535-538 | with a master latency of 200 ms or more the timer is found expired at the first look, with the reply in the slot |
| Executions.TransactionCanComplete | stack-comm.c:371-576 | for all non-negative latencies and every start there is a run that meets them and completes the first transaction with one transmission, in exactly two times on air |
| Scheduling.ScheduledRunsAreRuns | stack-comm.c:459-595 | if both threads are scheduled within at most 4.09 ms of being able to move, every run meets latencies within the bounds, so everything proved of runs holds of it |
| Scheduling.ScheduledRunsDeliver | stack-comm.c:459-595 | in every such run the error count is 0, and a transaction of which at most n packets are spoiled has been left n+1 windows after it was opened |
| Scheduling.Throughput | stack-comm.c:578-595 | in every such run with at most n packets of each transaction spoiled, one transaction a period at least is opened, and all but the last are completed |
| Continuation.ScheduledRunsExist | stack-comm.c:459-595 | from every start and for every such delta there is a scheduled run past any given time in which nothing is lost or damaged |
| Continuation.AnyNumberCompletes | stack-comm.c:578-595 | and one that completes any given number of transactions |
| Theorems.TimeoutMeansAlone | stack-comm.c:535-538 | in every run, when the master has found its timer expired no packet, reply or pending work of the transaction is left anywhere |
| Theorems.IdTellsNewFromOld | stack-comm.c:391-405 | in every run, the id of a packet the slave has in hand differs from its own exactly when the transaction is one it has not accepted |
| Theorems.RepeatedAnswersCounted | stack-comm.c:402-443 | in every run, whenever no reply of the slave waits, its retries_num is the number of replies it put on the air in its transaction minus one, modulo 256 |
| Theorems.ListeningTimes | stack-comm.c:300-314 | in every run the master's receive calls last 300 ms, thirty looks, and the slave's 100 s, ten thousand |
| AirSteps.CarryMaster | env-core.c:224-290 | finishing the master's transmission, lost, damaged or intact, keeps the invariant and leaves nothing due |
| AirSteps.Arrival | env-core.c:263-288 | under the assumption on corruption a good packet arrives unchanged or fails the receiver's check |
| Theorems.LastLookDecides | env-core.c:405-415 | in every run, at the last look of its window the master sees the reply, or nothing of the transaction is left anywhere |
| Conservation.Conserved | env-core.c:224-300 | for any two clients: sends committed = in flight + lost + dropped + overwritten + delivered, delivered = read + waiting in the slot, dropped + overwritten <= errors counted |
| Conservation.InOrder | env-core.c:420-465 | with no error counted and nothing lost at random, the k-th packet received is the k-th sent plus that transmission's noise, and all but one in flight have arrived |
| Conservation.CheckThenRead | env-core.c:375-388 | in every interleaving the bytes a thread copies out are those present when it saw the flag without keeping the lock |
| Conservation.OthersKeepOut | env-core.c:270-288 | a thread's full input slot and pending output slot are not changed by the other thread, except that a pending packet gets sent |
| Conservation.StepInv | env-core.c:302-465 | every step of any two clients keeps both directions accounted for |
| Accounting.ErrorsAccounted | env-core.c:270-449 | for any two clients, in every interleaving, the errors counted, with those about to be, are exactly the packets dropped on a full slot, the checks made while both sides were transmitting, the sends over an unsent packet and the empty reads without timeout |
| Accounting.CollisionNoticed | env-core.c:292-300 | in every interleaving, a check made while both packets are on the air raises the error count, which never falls again |
| Accounting.CallsComplete | env-core.c:325-465 | in every interleaving, a receive call that returns nothing has made exactly the looks its timeout asks for, one without a timeout, all empty; one that returns a packet stopped at the first look that found it; and each call has made all its checks for collisions |
| Accounting.BlockingSendIsOver | env-core.c:357-369 | in every interleaving, when a blocking send returns its packet is no longer on the air |
| Conservation.WorkedIsShadowWorker | env-core.c:302-313 | the worker's step does to the record what the locked section does: the master's delivery, the slave's, then the check |
| Theorems.WorkedIsShadowWorker | env-core.c:302-313 | the same for the step of the protocol |
| Emulator.Emulator.ShadowWorkerTarg | env-core.c:223-290 | the in-place delivery does what the radio model says for the fate drawn from the sender's seed, and consumes exactly the random numbers of that delivery; with both options off it delivers the sender's bytes and draws none, and with losses on the packet is lost if the first number is below the score's share |
| Emulator.Emulator.FinishSending | env-core.c:244-289 | once the time on air has passed: lost, or broken and then dropped on a full slot or delivered, as drawn from the seed |
| Emulator.Emulator.BreakAndDeliver | env-core.c:263-289 | a packet that is not lost is changed by exactly the drawn flips, and then dropped on a full slot, counting an error, or delivered |
| Emulator.LostIff | env-core.c:169-175 | a packet is lost exactly if losses are on and the first random number is below the score's share of the range; without that option no number is drawn for it |
| Emulator.SilentUnlessOn | env-core.c:199-200 | without the corruption option every packet that is not lost arrives as it was sent, and no number is drawn for breaking it |
| Emulator.Emulator.ShadowWorker | env-core.c:302-313 | both deliveries, each at its own reading of the clock, and the collision check, in this order, as one section |
| Emulator.Emulator.ChanelCheck | env-core.c:292-300 | counts one error exactly when both sides are transmitting; the 32-bit statistic is the count modulo 2^32 |
| Emulator.Emulator.CommitSend | env-core.c:345-353 | the sender's output slot holds the first 19 bytes and the time, pending; the payload is not changed |
| Emulator.Emulator.TakeReceived | env-core.c:455-460 | the payload receives the slot's packet and the slot is empty |
| Emulator.PackBreak | env-core.c:193-221 | the buffer is changed by exactly the bits the script dictates, in order; the report is their number modulo 2^32; with the option off nothing changes and no number is drawn, with it on the buffer has changed exactly if the first number is below the first score's share |
| Emulator.BreakMore | env-core.c:206-218 | the loop flips exactly the further bits the script dictates and counts them |
| Emulator.PackBitFlip | env-core.c:178-191 | exactly one bit of one byte changes |
| Emulator.PackCopy | env-core.c:116-120 | the first len bytes are copied, the rest of the destination stays |
| Emulator.BrokenPrefix | env-core.c:263-286 | the 19 packet bytes of a broken 256-byte buffer are the packet plus a noise that does not depend on it |
| Corruption.PlanShape | env-core.c:199-218 | every drawn bit is at most 152 and none equals the first, though later ones may repeat |
| Corruption.PlanIff | env-core.c:199-206 | bits are flipped exactly if the option is on and the first number is below the first score's share, more than one exactly if the third is below the further score's; else one number is drawn, or none with the option off |
| Corruption.DrawOtherIsFirst | env-core.c:211-213 | the inner loop takes the first drawn bit that differs from the one to avoid |
| Corruption.EndlessScore | env-core.c:206-218 | with a further score of 101 the loop never ends |
| Corruption.LikelyIff | env-core.c:139-142 | b_rand is true exactly below the score's share of the range |
| Corruption.LikelyEnds | env-core.c:139-142 | a score of 0 never happens, a score of 101 always |
| Corruption.BitsDrawn | env-core.c:122-126 | the bits that can be drawn are exactly 0 to 152, one past the packet |
| Corruption.ReportedCorruptionNoticed | env-core.c:193-221 | corruption reported as an odd number of bits, or exactly two, all inside the packet, makes the receiver's check fail |
| Corruption.CorruptionNeverCancels | env-core.c:206-218 | whenever at least one bit is reported the buffer has changed: repeated flips cannot undo the first |
| Corruption.FourFlipsCanPass | stack-comm.c:33-44 | in every good packet four particular distinct flips leave the check passing |
| Packet.NoiseUndetectedIff | stack-comm.c:33-44 | a good packet changed by a pattern passes again exactly when the CRC register, started at zero, maps the pattern to zero |
| Packet.CheckIsZeroRegister | stack-comm.c:33-44 | the check passes exactly when the CRC over all 19 bytes is zero; the field called lo holds the high-order byte |
| Packet.ZerosRejected | stack-comm.c:16-44 | a packet of zeros fails the check: what the preset is for |
| Packet.RoundTrip | stack-comm.c:56-119 | for every payload, length 1..16, id 0..3 and previous buffer: prepared and sealed, a packet passes the check and decodes to type single, that id, that length and that payload |
| Packet.HeaderLayout | stack-comm.h:28-42 | the header byte as a number is 1 + 4 * id + 16 * (length - 1) |
| Packet.HeaderDecoded | stack-comm.c:56-101 | for every packet, in numbers: type, id, payload length for each type, and when it is a reset |
| Packet.FrameBytes | stack-comm.c:369 | the packet the master prepares for an id, in numbers: header 241 + 4 * id, then the bytes 1 to 16 |
| Packet.ChecksumIdempotent | stack-comm.c:46-54 | setting the checksum again changes nothing |
| Packet.BufferLeavesNoTrace | stack-comm.c:103-119 | for every payload, id and length, the previous contents of a buffer leave no trace in the sealed packet |
| Packet.SinglePrepare | stack-comm.c:103-119 | the header byte, all sixteen payload bytes whatever the length, and the checksum bytes untouched |
| Packet.SetPackChecksumm | stack-comm.c:46-54 | bytes 17 and 18 become the CRC of the first 17, high-order byte first; nothing else changes |
| Packet.TestPackChecksumm | stack-comm.c:33-44 | true exactly when the stored checksum is that of the first 17 bytes |
| Crc.Crc16 | stack-comm.c:14-26 | the loop computes the register fold over the first length bytes, from a preset that LongDivision.CrcIsRemainder and Packet.ZerosRejected fix |
| Crc.CrcIsBitwise | stack-comm.c:19-23 | the table-free bytewise step equals eight bit steps, most significant bit first, for every message, length and preset |
| LongDivision.CrcIsRemainder | stack-comm.c:14-26 | the register is the remainder, by schoolbook long division by x^16+x^12+x^5+1, of the message followed by sixteen zeros with its first sixteen bits complemented |
| LongDivision.DivisionIdentity | stack-comm.c:14-26 | the long division used as reference is a division: quotient times generator plus remainder gives the dividend back |
| LongDivision.RemainderIsUnique | stack-comm.c:14-26 | and no other polynomial below degree 16 can be its remainder |
| Detection.CrcAffine | stack-comm.c:14-26 | for equally long messages, adding a pattern adds the pattern's register started at zero |
| Detection.OddPatternDetected | stack-comm.c:14-26 | any odd number of flipped bits, in messages of any length, is noticed |
| Detection.DoubleFlipDetected | stack-comm.c:14-26 | any two flipped bits at most 151 positions apart are noticed |
| Detection.BurstDetected | stack-comm.c:14-26 | any flips within sixteen consecutive bits in CRC order are noticed, in messages of any length |
| Detection.FlipsDetected | stack-comm.c:33-44 | any one, two, three, or odd number of distinct flips among a packet's 152 bits are noticed |
| Packet.DistinctFlipsRejected | stack-comm.c:33-44 | a good packet with any one, two, three, or odd number of distinct bits flipped fails the check |
| Packet.BurstRejected | stack-comm.c:33-44 | a good packet with any flips within sixteen consecutive bits fails the check |
| Timer.ElapsedExact | timeout-timer-internal.c:15-37 | the comparison made on seconds and microseconds is exact, across carries and for intervals over a second |
| Timer.TtTimer.IsTimeouted | timeout-timer-internal.c:15-37 | true exactly when interval_ms milliseconds have passed since the start |
| Timer.TtTimer.Start | timeout-timer-internal.c:9-13 | remembers the time of day and the interval |
| Timer.AvailableData | env-core.c:390-418 | the call stops at the first look that finds data, or after exactly its number of looks, which is one without a timeout; with the largest timeout only data ends it |
| Timer.LoopEndsIff | env-core.c:405-412 | without data the loop ends exactly for timeouts below 4294967295: the 32-bit counter is always even |
| Timer.LooksAreCeilingIff | env-core.c:405-412 | it takes ceil(timeout/10) looks exactly for non-zero timeouts up to 4294967290 |
| Llc.SlaveRespin | stack-comm.c:376-456 | from an entry state no slave case fails an assertion, each case that changes state lowers a measure, and the loop stops idle with nothing received |
| Llc.MasterRespin | stack-comm.c:496-575 | the same for the master, given that a timer started in the loop does not expire before the worker returns |
| Transmitters.MasterLoop | stack-comm.c:578-595 | the communication loop for any number of turns, whatever the radio delivers as long as what passes the check is a single packet with the master's id: every call finds what it requires, both pools included, the counters are exact, at most one of ten packs of each pool is out between turns, the transmitter is where that many complete turns of the link control lead, and the radio was called once a turn, to send the packet they had queued, always one of ours, or to listen for 300 ms |
| Transmitters.SlaveLoop | stack-comm.c:459-476 | the same for the slave, of which a good packet need only be a single one, and which listens for 100 s |
| Transmitters.Transmitter.MacWorker | stack-comm.c:346-367 | one call of the radio: the first queued packet is handed to it from its own pack, sealed, and leaves the queue; with none queued it is asked to listen, and what it delivers is queued if it passes the check, else the pack returns to its pool |
| Transmitters.Transmitter.MasterWorker | stack-comm.c:491-576 | the loop runs at least one case, each but the last changes the state, the last does not; waiting with nothing received it queues the kept packet again, restarts the timer and counts a retry if the timer has expired, and does nothing if it has not; else it closes what is to be closed and opens the next transaction; on return the timer had not expired at the last case, and the MAC worker and then the link control may be entered again |
| Turns.MasterOutcomeOf | stack-comm.c:491-576 | any such sequence of the master's cases comes to one of these three results |
| Transmitters.Transmitter.SlaveWorker | stack-comm.c:371-457 | the loop runs at least one case, each but the last changes the state, the last does not; called idle it does nothing if nothing is received, repeats its reply to a packet with its own id and counts a retry, and accepts and answers a packet with another id; on return the MAC worker and then the link control may be entered again |
| Turns.SlaveOutcomeOf | stack-comm.c:376-456 | any such sequence of the slave's cases comes to one of these three results |
| Turns.MacTurnIsProtocol | stack-comm.c:346-367 | a call of the MAC worker does to a transmitter what the two ends of it do in the transition system |
| Turns.MacCallIsProtocol | stack-comm.c:194-206 | the call the MAC worker makes is the one the transition system makes: a send that blocks, or a receive with the side's timeout |
| Transmitters.Transmitter.MasterCase | stack-comm.c:499-571 | one case on pools, queues and buffers does what the model of the link control says, and conserves the packs |
| Transmitters.Transmitter.SlaveCase | stack-comm.c:379-452 | the same for the slave |
| Transmitters.Transmitter.PoolsDoNotRunDry | stack-comm.c:260-273 | in a tidy state, which MasterLoop and SlaveLoop keep between all calls, the hand-kept counters equal the lists they count, are at most 1, and each pool has at least nine of its ten packs |
| Transmitters.Members | stack-comm.c:208-273 | every pack on a list or queue is one of the ten, and the lists have ten between them |
| Transmitters.Allocate | stack-comm.c:223-235 | the first pack of a pool is on no other list and no queue; moving it keeps the partition and the counter |
| Transmitters.Transmitter.GetSendPackholder | stack-comm.c:223-235 | the first free pack becomes the last owned one and is queued nowhere |
| Transmitters.Transmitter.GetRecvPackholder | stack-comm.c:208-221 | the same for receive packs |
| Transmitters.Transmitter.PutRecvPackholder | stack-comm.c:172-177 | an owned pack goes to the end of its pool |
| Transmitters.Transmitter.LlcPackCommit | stack-comm.c:144-150 | the pack becomes the only one to be sent |
| Transmitters.Transmitter.LlcResendAdd | stack-comm.c:331-334 | an owned pack becomes the last one kept for resending |
| Transmitters.Transmitter.LlcResendClearAll | stack-comm.c:317-329 | all kept packs go to the end of the pool, in order, queued or not; the pool holds free packs alone exactly if none was queued |
| Transmitters.Transmitter.LlcMarkAsReceived | stack-comm.c:179-192 | the first received pack leaves the queue and returns to its pool |
| Transmitters.Transmitter.PrepareSend | stack-comm.c:103-119 | preparing an allocated pack changes nothing that is queued or kept |
| Transmitters.Transmitter.MacDoSend | stack-comm.c:194-206 | the bytes handed to the radio are the sealed first packet, and sealing it in place changes nothing the link control sees |
| Transmitters.Transmitter.MacMarkAsSend | stack-comm.c:133-142 | the first packet leaves the send queue |
| Transmitters.Transmitter.MacStartReceive | stack-comm.c:237-243 | a pack for reception is always available and then owned |
| Transmitters.Transmitter.MacEndReceive | stack-comm.c:244-258 | the pack is queued exactly if it was filled and passes the check, else it returns to the pool |
| Transmitters.Transmitter.constructor | stack-comm.c:260-315 | ten free packs each way, no array shared, all queues empty |
| Lists.InitListHead | list.h:51-55 | an empty list |
| Lists.AddBetween | list.h:81-92 | inserts the node at its place of the sequence |
| Lists.ListAdd | list.h:102-105 | inserts in front |
| Lists.ListAddTail | list.h:116-119 | appends |
| Lists.ListDel | list.h:128-153 | removes the entry and poisons its links |
| Lists.ListDelInit | list.h:182-186 | removes the entry and leaves it an empty list |
| Lists.ListReplace | list.h:162-169 | the new node takes the old one's place, entry or head, an empty head included |
| Lists.ListReplaceInit | list.h:171-176 | the new node takes the old one's place, entry or head, and the old one is left an empty list |
| Lists.ListMove | list.h:193-197 | from its list to the front of another or of the same |
| Lists.ListMoveTail | list.h:204-209 | from its list to the end of another or of the same, already last included |
| Lists.Looks | list.h:216-271 | empty, carefully empty, singular and last mean what they say of the sequence |
| Lists.ListRotateLeft | list.h:254-262 | the first entry becomes the last |
| Lists.ListCutPosition | list.h:299-311 | the entries up to the given one move to the other head, in all the function's cases |
| Lists.ListSplice | list.h:313-337 | the entries of one list go in front of those of the other |
| Lists.ListSpliceTail | list.h:344-349 | the entries of one list go behind those of the other |
| Lists.ListSpliceInit | list.h:358-365 | the same in front, leaving an empty list |
| Lists.ListSpliceTailInit | list.h:375-382 | the same behind, leaving an empty list |
| Lists.CutAndSplice | list.h:299-337 | cutting into an empty list at any entry or the head and splicing back restores the list |
| Lists.ClearAll | stack-comm.c:317-329 | iteration safe against removal visits each entry once, in order, appends it to the pool, and leaves the list empty |

## Left out

- Transmitters: the lists of a transmitter are sequences there, so that two link fields of one pack are two sequences; that the intrusive lists behave like sequences is proved separately in Lists, not composed with it.
- Protocol: the transmitter's packs and buffers do not appear in the transition system, only the contents of its queues and the sizes of its pools; it uses the functions of Llc that the class Transmitter is proved against.
- Protocol: real threads, the spinlock and nanosleep are atomic sections and a clock that never goes back; a sleep lasts at least its time.
- Protocol: packet corruption that the CRC maps to zero is assumed absent from a run.
- Conservation: a direct call of wl_availableData by a client; it is modelled inside wl_receivePacketTimeout.
- Emulator: wl_sendPacketTimeout and wl_receivePacketTimeout as single methods; their sections are methods, their order is Radio.NextPc.
- Transmitters.MasterLoop: the radio is any source of bytes that passes only expected packets through the check; that Protocol is such a source is Theorems.AssertionsHold, not composed with the class.
- Timer.AvailableData: with the timeout 4294967295 it requires that data comes, for otherwise the program's loop does not end (Timer.LoopEndsIff).
- Corruption: the quality of rand_r; its values are an arbitrary script that ends the drawing loops.
- Lists: container_of, poison values (null here), and deleting or moving a node that is in no list.
- Printing, tracing and backtraces; the conditions under pr_assert are kept as obligations.
- Internal, multi-packet and reset packets, which the program does not support yet; their branches are in Llc.SlaveCase and shown unreachable.
- Functions declared in stack-comm.h without a definition, the test drivers and the build script.
