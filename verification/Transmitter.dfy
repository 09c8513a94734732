/** struct stl_transmiter of stack-comm.c as an object: packet pools, queues, the link-control
    workers and both ends of the MAC worker, changed in place.

    A list_head of the program is a sequence here, in list order; module Lists proves the
    intrusive lists do what sequences do.  Each packet is on at most one owner list (owner_node)
    and at most one queue (mac_node). */
module Transmitters {

  import opened Packet
  import opened Llc
  import opened Radio
  import opened Sequences
  import opened Timer
  import opened Turns
  import Protocol

  /** struct wls_pack: its buffer; the two link fields are the sequences it is in. */
  class WlsPack {
    const data: array<bv8>

    constructor ()
      ensures fresh(data) && data.Length == PACK_LEN
    {
      data := new bv8[PACK_LEN](_ => 0);
    }
  }

  type Queue = seq<WlsPack>

  /** q without the first occurrence of p. */
  function Without(q: Queue, p: WlsPack): (r: Queue)
    requires p in q
    ensures multiset(r) == multiset(q) - multiset{p} && |r| == |q| - 1
  {
    if q[0] == p then
      assert q == [q[0]] + q[1..];
      q[1..]
    else
      assert q == [q[0]] + q[1..];
      [q[0]] + Without(q[1..], p)
  }

  /** Conservation of the send packs: the ten of buff are on the pool, owned and resend lists, each
      on one; the hand-kept counter is right; what is queued is owned, so not in the pool. */
  ghost predicate SendLists(buff: Queue, pool: Queue, owned: Queue, resend: Queue, queue: Queue, counter: int) {
    && Distinct(buff)
    && multiset(pool) + multiset(owned) + multiset(resend) == multiset(buff)
    && counter == |owned| + |resend|
    && (forall p :: p in queue ==> p in owned || p in resend)
  }

  /** The same for the receive packs. */
  ghost predicate RecvLists(buff: Queue, pool: Queue, owned: Queue, queue: Queue, counter: int) {
    SendLists(buff, pool, owned, [], queue, counter)
  }

  lemma {:induction false} OnceIn(q: Queue, p: WlsPack)
    requires Distinct(q)
    ensures multiset(q)[p] <= 1
  {
    if q != [] {
      assert q == [q[0]] + q[1..];
      OnceIn(q[1..], p);
    }
  }

  lemma Members(buff: Queue, pool: Queue, owned: Queue, resend: Queue, queue: Queue, counter: int)
    requires SendLists(buff, pool, owned, resend, queue, counter)
    ensures forall p :: p in pool || p in owned || p in resend || p in queue ==> p in buff
    ensures |pool| + |owned| + |resend| == |buff|
  {
    forall p | p in pool || p in owned || p in resend
      ensures p in buff
    {
      assert p in multiset(pool) + multiset(owned) + multiset(resend);
    }
    assert |multiset(pool) + multiset(owned) + multiset(resend)| == |multiset(buff)|;
  }

  /** Taking the first pack of the pool: it was nowhere else. */
  lemma Allocate(buff: Queue, pool: Queue, owned: Queue, resend: Queue, queue: Queue, counter: int)
    requires SendLists(buff, pool, owned, resend, queue, counter) && pool != []
    ensures SendLists(buff, pool[1..], owned + [pool[0]], resend, queue, counter + 1)
    ensures pool[0] in buff && pool[0] !in owned && pool[0] !in resend && pool[0] !in queue
  {
    var p := pool[0];
    assert pool == [p] + pool[1..];
    OnceIn(buff, p);
    assert multiset(buff)[p] == multiset(pool)[p] + multiset(owned)[p] + multiset(resend)[p];
    assert p in multiset(buff);
  }

  /** Giving an owned pack back to the pool. */
  lemma Release(buff: Queue, pool: Queue, owned: Queue, resend: Queue, queue: Queue, counter: int, p: WlsPack)
    requires SendLists(buff, pool, owned, resend, queue, counter) && p in owned && p !in queue
    ensures SendLists(buff, pool + [p], Without(owned, p), resend, queue, counter - 1)
  {
    forall x | x in owned && x != p
      ensures x in Without(owned, p)
    {
      assert x in multiset(Without(owned, p));
    }
  }

  /** An owned pack moves to the resend list. */
  lemma Keep(buff: Queue, pool: Queue, owned: Queue, resend: Queue, queue: Queue, counter: int, p: WlsPack)
    requires SendLists(buff, pool, owned, resend, queue, counter) && p in owned
    ensures SendLists(buff, pool, Without(owned, p), resend + [p], queue, counter)
  {
    forall x | x in owned && x != p
      ensures x in Without(owned, p)
    {
      assert x in multiset(Without(owned, p));
    }
  }

  /** The first pack of the resend list returns to the pool. */
  lemma Forget(buff: Queue, pool: Queue, owned: Queue, resend: Queue, counter: int)
    requires SendLists(buff, pool, owned, resend, [], counter) && resend != []
    ensures SendLists(buff, pool + [resend[0]], owned, resend[1..], [], counter - 1)
  {
    assert resend == [resend[0]] + resend[1..];
  }

  /** Queueing an owned pack, and taking the first off a queue, moves no pack between owners. */
  lemma QueueOwned(buff: Queue, pool: Queue, owned: Queue, resend: Queue, queue: Queue, counter: int, p: WlsPack)
    requires SendLists(buff, pool, owned, resend, queue, counter) && (p in owned || p in resend)
    ensures SendLists(buff, pool, owned, resend, queue + [p], counter)
  {
  }

  lemma DropFirst(buff: Queue, pool: Queue, owned: Queue, resend: Queue, queue: Queue, counter: int)
    requires SendLists(buff, pool, owned, resend, queue, counter) && queue != []
    ensures SendLists(buff, pool, owned, resend, queue[1..], counter)
  {
  }

  lemma NothingQueued(buff: Queue, pool: Queue, owned: Queue, resend: Queue, queue: Queue, counter: int)
    requires SendLists(buff, pool, owned, resend, queue, counter)
    ensures SendLists(buff, pool, owned, resend, [], counter)
  {
  }

  /** With nothing kept, what is queued must be owned. */
  lemma OnlyOwnedQueued(buff: Queue, pool: Queue, owned: Queue, queue: Queue, counter: int)
    requires SendLists(buff, pool, owned, [], [], counter)
    ensures SendLists(buff, pool, owned, [], queue, counter) <==> forall p :: p in queue ==> p in owned
  {
  }

  /** A pack is not on two owner lists. */
  lemma OneOwner(buff: Queue, pool: Queue, owned: Queue, resend: Queue, queue: Queue, counter: int)
    requires SendLists(buff, pool, owned, resend, queue, counter)
    ensures forall p :: p in owned ==> p !in resend
    ensures forall p :: p in queue ==> (p in owned <==> p !in resend)
  {
    forall p | p in owned
      ensures p !in resend
    {
      OnceIn(buff, p);
      assert multiset(buff)[p] == multiset(pool)[p] + multiset(owned)[p] + multiset(resend)[p];
      assert p in multiset(owned);
      assert p in resend ==> p in multiset(resend);
    }
  }

  lemma QueuedIsOwned(buff: Queue, pool: Queue, owned: Queue, queue: Queue, counter: int, p: WlsPack)
    requires RecvLists(buff, pool, owned, queue, counter) && p in queue
    ensures p in owned && p in buff
  {
    Members(buff, pool, owned, [], queue, counter);
  }

  lemma LaunchOfEmpty(t: Tsm)
    requires t.sendQ == [] && t.resend == []
    ensures Llc.Launch(t) == t.(sendQ := [FrameOf(t.transId)], resend := [FrameOf(t.transId)], sendFree := t.sendFree - 1)
  {
    hide FrameOf;
  }

  /** The two buffers of a transmitter; no array is shared, nor is it `other`. */
  method NewPacks(other: array<bv8>) returns (sends: Queue, recvs: Queue)
    ensures |sends| == POOL_SIZE && |recvs| == POOL_SIZE
    ensures Distinct(sends) && Distinct(recvs) && (forall p :: p in sends ==> p !in recvs)
    ensures forall p :: p in sends + recvs ==> fresh(p) && fresh(p.data) && p.data.Length == PACK_LEN && p.data != other
    ensures forall p, r :: p in sends + recvs && r in sends + recvs && p != r ==> p.data != r.data
  {
    sends, recvs := [], [];
    for i := 0 to POOL_SIZE
      invariant |sends| == i && |recvs| == i
      invariant Distinct(sends) && Distinct(recvs) && (forall p :: p in sends ==> p !in recvs)
      invariant forall p :: p in sends + recvs ==> fresh(p) && fresh(p.data) && p.data.Length == PACK_LEN && p.data != other
      invariant forall p, r :: p in sends + recvs && r in sends + recvs && p != r ==> p.data != r.data
    {
      ghost var before := sends + recvs;
      var a := new WlsPack();
      assert forall p :: p in before ==> p.data != a.data;
      var b := new WlsPack();
      assert forall p :: p in before ==> p.data != b.data;
      sends := sends + [a];
      recvs := recvs + [b];
      assert forall p :: p in sends + recvs ==> p in before || p == a || p == b;
    }
  }

  class Transmitter {
    // tsm->id and tsm->mac_recv_timeout
    const side: Side
    const recvTimeout: nat
    const sendBuff: Queue
    const recvBuff: Queue
    const payload: array<bv8>
    const timer: TtTimer
    var transId: bv8
    var testTransId: bv8
    var retriesNum: nat
    // linked by owner_node
    var sendPool: Queue
    var sendOwned: Queue
    var resend: Queue
    var recvPool: Queue
    var recvOwned: Queue
    var sendCounter: int
    var recvCounter: int
    // linked by mac_node
    var sendList: Queue
    var recvList: Queue

    // ---------------------------------------------------------------- invariant

    /** The buffers: twenty packs with twenty arrays, none shared. */
    ghost predicate Buffers() {
      && |sendBuff| == POOL_SIZE && |recvBuff| == POOL_SIZE
      && (forall p :: p in sendBuff ==> p !in recvBuff)
      && (forall p :: p in sendBuff + recvBuff ==> p.data.Length == PACK_LEN && p.data != payload)
      && (forall p, q :: p in sendBuff + recvBuff && q in sendBuff + recvBuff && p != q ==> p.data != q.data)
      && payload.Length >= PAYLOAD_LEN
    }

    /** Both kinds of packs are conserved; mac_node links no pack twice. */
    ghost predicate Pools()
      reads this
    {
      && Distinct(sendList) && Distinct(recvList)
      && SendLists(sendBuff, sendPool, sendOwned, resend, sendList, sendCounter)
      && RecvLists(recvBuff, recvPool, recvOwned, recvList, recvCounter)
    }

    ghost predicate Valid()
      reads this, timer, payload
    {
      && Buffers() && Pools()
      && timer.startTime.Normal() && timer.intervalMs * 1000 == LLC_TIMEOUT
      && payload[..PAYLOAD_LEN] == SEND_DATA
    }

    /** A pack's contents as they would go on the air. */
    static ghost function Sealed(p: WlsPack): Frame
      requires p.data.Length == PACK_LEN
      reads p.data
    {
      WithChecksum(p.data[..])
    }

    static ghost function SealedAll(q: Queue): (r: seq<Frame>)
      requires forall p :: p in q ==> p.data.Length == PACK_LEN
      reads set p | p in q :: p.data
      ensures |r| == |q| && forall i :: 0 <= i < |q| ==> r[i] == Sealed(q[i])
    {
      seq(|q|, i requires 0 <= i < |q| reads set p | p in q :: p.data => Sealed(q[i]))
    }

    static ghost function Contents(q: Queue): (r: seq<Frame>)
      requires forall p :: p in q ==> p.data.Length == PACK_LEN
      reads set p | p in q :: p.data
      ensures |r| == |q| && forall i :: 0 <= i < |q| ==> r[i] == q[i].data[..]
    {
      seq(|q|, i requires 0 <= i < |q| reads set p | p in q :: p.data => q[i].data[..])
    }

    /** The arrays of all packs. */
    ghost function Arrays(): set<array<bv8>> { set p | p in sendBuff + recvBuff :: p.data }

    /** What the link control sees. */
    ghost function View(): Tsm
      requires Valid()
      reads this, timer, payload, Arrays()
    {
      Members(sendBuff, sendPool, sendOwned, resend, sendList, sendCounter);
      Members(recvBuff, recvPool, recvOwned, [], recvList, recvCounter);
      Tsm(transId, testTransId, retriesNum, timer.startTime.Micros(),
          SealedAll(sendList), Contents(recvList), SealedAll(resend), |sendPool|, |recvPool|)
    }

    // ---------------------------------------------------------------- start

    /** stk_c_tsm_init and stk_c_init_pools, with the id, timeout and trans_id of the side. */
    constructor (side: Side, recvTimeout: nat, transId: bv8)
      ensures this.side == side && this.recvTimeout == recvTimeout
      ensures Valid() && View().sendQ == View().recvQ == View().resend == []
      ensures Tidy() && this.transId == transId && sendList == [] && recvList == [] && resend == []
      ensures fresh(timer) && fresh(Arrays())
    {
      var t := new TtTimer();
      t.Start(Timeval(0, 0), 300);
      hide SEND_DATA;
      var q := new bv8[PAYLOAD_LEN](i requires 0 <= i < PAYLOAD_LEN => SEND_DATA[i]);
      var sends, recvs := NewPacks(q);
      this.side := side;
      this.recvTimeout := recvTimeout;
      timer := t;
      payload := q;
      sendBuff, recvBuff := sends, recvs;
      this.transId := transId;
      testTransId := 0;
      retriesNum := 0;
      sendPool, sendOwned, resend := sends, [], [];
      recvPool, recvOwned := recvs, [];
      sendCounter, recvCounter := 0, 0;
      sendList, recvList := [], [];
    }

    // ---------------------------------------------------------------- pools

    /** stk_get_send_packholder */
    method GetSendPackholder() returns (pack: WlsPack)
      requires Valid() && sendPool != []
      modifies this`sendPool, this`sendOwned, this`sendCounter
      ensures Valid() && View() == old(View()).(sendFree := old(View()).sendFree - 1)
      ensures pack == old(sendPool)[0] && sendPool == old(sendPool)[1..] && sendOwned == old(sendOwned) + [pack]
      ensures pack in sendBuff && pack !in resend && pack !in sendList
    {
      hide SendLists;
      Allocate(sendBuff, sendPool, sendOwned, resend, sendList, sendCounter);
      pack := sendPool[0];
      sendPool, sendOwned := sendPool[1..], sendOwned + [pack];
      sendCounter := sendCounter + 1;
    }

    /** stk_get_recv_packholder */
    method GetRecvPackholder() returns (pack: WlsPack)
      requires Valid() && recvPool != []
      modifies this`recvPool, this`recvOwned, this`recvCounter
      ensures Valid() && View() == PackTaken(old(View()))
      ensures pack == old(recvPool)[0] && recvPool == old(recvPool)[1..] && recvOwned == old(recvOwned) + [pack]
      ensures pack in recvBuff && pack !in recvList
    {
      hide SendLists;
      Allocate(recvBuff, recvPool, recvOwned, [], recvList, recvCounter);
      pack := recvPool[0];
      recvPool, recvOwned := recvPool[1..], recvOwned + [pack];
      recvCounter := recvCounter + 1;
    }

    /** stk_put_recv_packholder */
    method PutRecvPackholder(pack: WlsPack)
      requires Valid() && pack in recvOwned && pack !in recvList
      modifies this`recvPool, this`recvOwned, this`recvCounter
      ensures Valid() && View() == PackPutBack(old(View()))
      ensures recvPool == old(recvPool) + [pack] && recvOwned == Without(old(recvOwned), pack)
    {
      hide SendLists, Without;
      Release(recvBuff, recvPool, recvOwned, [], recvList, recvCounter, pack);
      recvOwned := Without(recvOwned, pack);
      recvPool := recvPool + [pack];
      recvCounter := recvCounter - 1;
    }

    /** stk_llc_pack_commit */
    method LlcPackCommit(pack: WlsPack)
      requires Valid() && sendList == [] && (pack in sendOwned || pack in resend) && pack in sendBuff
      modifies this`sendList
      ensures Valid() && sendList == [pack]
      ensures View() == old(View()).(sendQ := [Sealed(pack)])
    {
      sendList := sendList + [pack];
    }

    /** stk_llc_resend_add */
    method LlcResendAdd(pack: WlsPack)
      requires Valid() && pack in sendOwned && pack in sendBuff
      modifies this`sendOwned, this`resend
      ensures Valid() && sendOwned == Without(old(sendOwned), pack) && resend == old(resend) + [pack]
      ensures View() == old(View()).(resend := old(View()).resend + [Sealed(pack)])
    {
      hide SendLists, Without;
      Keep(sendBuff, sendPool, sendOwned, resend, sendList, sendCounter, pack);
      sendOwned := Without(sendOwned, pack);
      resend := resend + [pack];
    }

    /** stk_llc_resend_clear_all: each packet of the resend list goes to the end of the pool, even one
        that still waits to be sent; only if there is none does the pool hold free packs alone. */
    method LlcResendClearAll()
      requires Valid()
      modifies this`resend, this`sendPool, this`sendCounter
      ensures sendPool == old(sendPool) + old(resend) && resend == []
      ensures SendLists(sendBuff, sendPool, sendOwned, resend, [], sendCounter)
      ensures Valid() <==> forall p :: p in sendList ==> p !in old(resend)
      ensures Valid() ==> View() == Cleared(old(View()))
    {
      NothingQueued(sendBuff, sendPool, sendOwned, resend, sendList, sendCounter);
      OneOwner(sendBuff, sendPool, sendOwned, resend, sendList, sendCounter);
      hide SendLists, Distinct;
      ReturnKept();
      OnlyOwnedQueued(sendBuff, sendPool, sendOwned, sendList, sendCounter);
    }

    /** Its loop. */
    method ReturnKept()
      requires SendLists(sendBuff, sendPool, sendOwned, resend, [], sendCounter)
      modifies this`resend, this`sendPool, this`sendCounter
      ensures SendLists(sendBuff, sendPool, sendOwned, [], [], sendCounter)
      ensures sendPool == old(sendPool) + old(resend) && resend == []
    {
      hide SendLists;
      ghost var done: Queue := [];
      while resend != []
        invariant SendLists(sendBuff, sendPool, sendOwned, resend, [], sendCounter)
        invariant old(resend) == done + resend && sendPool == old(sendPool) + done
        decreases |resend|
      {
        var child := resend[0];
        Forget(sendBuff, sendPool, sendOwned, resend, sendCounter);
        done := done + [child];
        resend, sendPool := resend[1..], sendPool + [child];
        sendCounter := sendCounter - 1;
      }
    }

    /** stk_llc_mark_as_received */
    method LlcMarkAsReceived()
      requires Valid() && recvList != []
      modifies this`recvList, this`recvPool, this`recvOwned, this`recvCounter
      ensures Valid() && recvList == old(recvList)[1..] && recvOwned == Without(old(recvOwned), old(recvList)[0])
      ensures View() == Consumed(old(View()))
    {
      hide SendLists, Without;
      var first := recvList[0];
      QueuedIsOwned(recvBuff, recvPool, recvOwned, recvList, recvCounter, first);
      DropFirst(recvBuff, recvPool, recvOwned, [], recvList, recvCounter);
      recvList := recvList[1..];
      PutRecvPackholder(first);
    }

    // ---------------------------------------------------------------- link control, one case

    /** Between two cases nothing is merely owned: every allocated send pack is kept for resending,
        every allocated receive pack is queued. */
    ghost predicate Tidy()
      reads this
    {
      sendOwned == [] && recvOwned == recvList && |recvList| <= 1 && |resend| <= 1
    }

    /** stk_llc_single_prepare on an allocated pack that is nowhere queued: no other pack notices. */
    method PrepareSend(pack: WlsPack)
      requires Valid() && pack in sendBuff && pack !in resend && pack !in sendList
      modifies pack.data
      ensures Valid() && View() == old(View()) && Sealed(pack) == FrameOf(transId)
    {
      hide SendLists, FrameOf, Prepared, WithChecksum;
      Members(sendBuff, sendPool, sendOwned, resend, sendList, sendCounter);
      Members(recvBuff, recvPool, recvOwned, [], recvList, recvCounter);
      SinglePrepare(pack.data, transId, payload, 16);
      PreparedFrame(old(pack.data[..]), transId);
    }

    /** Between two cases the counters are exact, fit their int8_t, and neither pool is near empty. */
    lemma PoolsDoNotRunDry()
      requires Valid() && Tidy()
      ensures sendCounter == |resend| <= 1 && recvCounter == |recvList| <= 1
      ensures |sendPool| == POOL_SIZE - |resend| && |recvPool| == POOL_SIZE - |recvList|
      ensures Pooled(View())
    {
      Members(sendBuff, sendPool, sendOwned, resend, sendList, sendCounter);
      Members(recvBuff, recvPool, recvOwned, [], recvList, recvCounter);
    }

    lemma ReadyToLaunch()
      requires Valid() && Tidy() && sendList == [] && resend == []
      ensures sendPool != [] && forall p :: p in sendBuff ==> p.data.Length == PACK_LEN
      ensures View().sendQ == [] && View().resend == [] && View().transId == transId
    {
      Members(sendBuff, sendPool, sendOwned, resend, sendList, sendCounter);
    }

    /** Allocating and preparing. */
    method NewPacket() returns (pack: WlsPack)
      requires Valid() && Tidy() && sendPool != []
      modifies this`sendPool, this`sendOwned, this`sendCounter, Arrays()
      ensures Valid() && View() == old(View()).(sendFree := old(View()).sendFree - 1)
      ensures sendOwned == [pack] && pack in sendBuff && Sealed(pack) == FrameOf(transId)
    {
      Members(sendBuff, sendPool, sendOwned, resend, sendList, sendCounter);
      assert sendPool[0] in sendBuff && sendPool[0].data in Arrays();
      hide Valid, View, FrameOf, Sealed, SendLists, Distinct;
      pack := GetSendPackholder();
      PrepareSend(pack);
    }

    /** Queueing the packet and keeping it for resending. */
    method CommitAndKeep(pack: WlsPack)
      requires Valid() && sendOwned == [pack] && sendList == [] && resend == [] && pack in sendBuff
      modifies this`sendOwned, this`sendList, this`resend
      ensures Valid() && sendOwned == [] && |resend| == 1
      ensures View() == old(View()).(sendQ := [Sealed(pack)], resend := [Sealed(pack)])
    {
      assert View().resend == [];
      hide Valid, View, FrameOf, Sealed, SendLists, Distinct;
      LlcPackCommit(pack);
      LlcResendAdd(pack);
    }

    /** Allocating, preparing, committing and keeping a packet. */
    method Launch()
      requires Valid() && Tidy() && sendList == [] && resend == []
      modifies this`sendPool, this`sendOwned, this`sendCounter, this`sendList, this`resend, Arrays()
      ensures Valid() && Tidy() && View() == Llc.Launch(old(View()))
    {
      ReadyToLaunch();
      hide Valid, View, FrameOf, Sealed, SendLists, Distinct;
      LaunchOfEmpty(View());
      hide Llc.Launch;
      var pack := NewPacket();
      CommitAndKeep(pack);
    }

    /** Committing the first kept packet again. */
    method Relaunch()
      requires Valid() && Tidy() && sendList == [] && resend != []
      modifies this`sendList, this`retriesNum
      ensures Valid() && Tidy() && View() == Llc.Relaunch(old(View()))
    {
      hide SendLists, WithChecksum;
      Members(sendBuff, sendPool, sendOwned, resend, sendList, sendCounter);
      LlcPackCommit(resend[0]);
      retriesNum := (retriesNum + 1) % 256;
    }

    /** One case of stk_m_llc_worker_v3.  The asserted conditions are required; the two assertions
        on the pools follow from Valid and Tidy. */
    method MasterCase(st: MState, now: Timeval) returns (next: MState)
      requires Valid() && Tidy() && now.Normal() && MasterAsserts(View(), st)
      modifies this, timer, Arrays()
      ensures Valid() && Tidy() && Llc.MRun(View(), next) == Llc.MasterCase(old(View()), st, now.Micros())
    {
      match st {
        case MIdle => next := OpenTransaction(now);
        case MSendAll => next := AwaitReply(now);
        case MReceivedAll => next := MIdle;
        case MResend =>
          hide View, Valid;
          Relaunch();
          StartTimer(now);
          next := MSendAll;
      }
    }

    method StartTimer(now: Timeval)
      requires Valid() && now.Normal()
      modifies timer
      ensures Valid() && View() == old(View()).(timerStart := now.Micros())
      ensures sendOwned == old(sendOwned)
    {
      hide SendLists, WithChecksum;
      timer.Start(now, 300);
    }

    method OpenTransaction(now: Timeval) returns (next: MState)
      requires Valid() && Tidy() && now.Normal() && sendList == []
      modifies this, timer, Arrays()
      ensures Valid() && Tidy() && Llc.MRun(View(), next) == Llc.MasterCase(old(View()), MIdle, now.Micros())
    {
      LlcResendClearAll();
      NewTransId(NextTransId(transId));
      hide View, Valid, FrameOf, NextTransId;
      Launch();
      StartTimer(now);
      next := MSendAll;
    }

    method NewTransId(id: bv8)
      requires Valid()
      modifies this`transId, this`retriesNum
      ensures Valid() && View() == old(View()).(transId := id, retries := 0)
    {
      hide SendLists, WithChecksum;
      retriesNum := 0;
      transId := id;
    }

    method AwaitReply(now: Timeval) returns (next: MState)
      requires Valid() && Tidy() && now.Normal()
      modifies this
      ensures Valid() && Tidy() && Llc.MRun(View(), next) == Llc.MasterCase(old(View()), MSendAll, now.Micros())
    {
      hide SendLists, WithChecksum, IdOf;
      Members(recvBuff, recvPool, recvOwned, [], recvList, recvCounter);
      if recvList != [] {
        testTransId := IdOf(recvList[0].data[..]);
        LlcMarkAsReceived();
        return MReceivedAll;
      }
      var timeouted := timer.IsTimeouted(now);
      next := if timeouted then MResend else MSendAll;
    }

    /** One case of stk_s_llc_worker_v3. */
    method SlaveCase(st: SState) returns (next: SState)
      requires Valid() && Tidy() && SlaveAsserts(View(), st) && (st == SReceivedAll ==> View().resend == [])
      requires st == SIdle && View().recvQ != [] ==> View().sendQ == []
      modifies this, Arrays()
      ensures Valid() && Tidy() && Llc.SRun(View(), next) == Llc.SlaveCase(old(View()), st)
    {
      match st {
        case SIdle => next := AcceptOrRepeat();
        case SReceivedAll =>
          assert sendList == [] && resend == [];
          hide View, Valid;
          Launch();
          next := SSendAll;
        case SSendAll => next := SIdle;
        case SResend =>
          assert sendList == [] && resend != [];
          hide View, Valid;
          Relaunch();
          next := SIdle;
      }
    }

    method AcceptOrRepeat() returns (next: SState)
      requires Valid() && Tidy() && SlaveAsserts(View(), SIdle)
      requires recvList != [] ==> sendList == []
      modifies this
      ensures Valid() && Tidy() && Llc.SRun(View(), next) == Llc.SlaveCase(old(View()), SIdle)
    {
      hide SendLists, WithChecksum, IdOf, TypeOf, IsReset;
      next := SIdle;
      if recvList != [] {
        Members(recvBuff, recvPool, recvOwned, [], recvList, recvCounter);
        // a reset packet and a packet of another type only fail an assertion in the program
        assert !IsReset(recvList[0].data[..]) && TypeOf(recvList[0].data[..]) == TYPE_SINGLE;
        var id := IdOf(recvList[0].data[..]);
        if id == transId {
          next := SResend;
        } else {
          LlcResendClearAll();
          NewTransId(id);
          next := SReceivedAll;
        }
        LlcMarkAsReceived();
      }
    }

    // ---------------------------------------------------------------- the MAC worker

    /** stk_mac_do_send up to the call of wl_sendPacketTimeout: the bytes handed over are the first
        of the send queue, and setting the checksum changes nothing anyone else sees. */
    method MacDoSend() returns (data: array<bv8>)
      requires Valid() && Tidy() && sendList != []
      modifies Arrays()
      ensures Valid() && Tidy() && View() == old(View())
      ensures data == sendList[0].data && data.Length == PACK_LEN && data[..] == View().sendQ[0] && Checks(data[..])
    {
      hide SendLists, WithChecksum;
      Members(sendBuff, sendPool, sendOwned, resend, sendList, sendCounter);
      Members(recvBuff, recvPool, recvOwned, [], recvList, recvCounter);
      var first := sendList[0];
      ChecksumIdempotent(first.data[..]);
      WithChecksumChecks(first.data[..]);
      SetPackChecksumm(first.data);
      data := first.data;
      forall p | p in sendBuff
        ensures Sealed(p) == old(Sealed(p))
      {
        if p != first { assert p.data[..] == old(p.data[..]); }
      }
    }

    /** stk_mac_mark_as_send */
    method MacMarkAsSend()
      requires Valid() && Tidy() && sendList != []
      modifies this`sendList
      ensures Valid() && Tidy() && View() == Sent(old(View()))
    {
      hide SendLists, WithChecksum;
      DropFirst(sendBuff, sendPool, sendOwned, resend, sendList, sendCounter);
      sendList := sendList[1..];
    }

    /** stk_mac_do_receive up to the call of wl_receivePacketTimeout: the receive pool is never empty
        here, for nothing is received yet. */
    method MacStartReceive() returns (pack: WlsPack)
      requires Valid() && Tidy() && recvList == []
      modifies this`recvPool, this`recvOwned, this`recvCounter
      ensures Valid() && View() == PackTaken(old(View()))
      ensures recvOwned == [pack] && pack in recvBuff
    {
      hide SendLists, WithChecksum;
      Members(recvBuff, recvPool, recvOwned, [], recvList, recvCounter);
      pack := GetRecvPackholder();
    }

    /** The rest of stk_mac_do_receive: got says whether wl_receivePacketTimeout filled the pack. */
    method MacEndReceive(pack: WlsPack, got: bool)
      requires Valid() && sendOwned == [] && |resend| <= 1
      requires recvOwned == [pack] && recvList == [] && pack in recvBuff
      modifies this`recvPool, this`recvOwned, this`recvCounter, this`recvList
      ensures Valid() && Tidy()
      ensures View() == if got && Checks(pack.data[..]) then Received(old(View()), pack.data[..]) else PackPutBack(old(View()))
    {
      hide SendLists, WithChecksum, Checks;
      if got {
        var ok := TestPackChecksumm(pack.data);
        if ok {
          QueueOwned(recvBuff, recvPool, recvOwned, [], recvList, recvCounter, pack);
          recvList := recvList + [pack];
          return;
        }
      }
      PutRecvPackholder(pack);
    }

    /** The radio writes into an allocated pack: nobody else sees it. */
    method FillPack(pack: WlsPack, air: Air, wanted: Option<bv8>) returns (got: bool)
      requires Valid() && pack in recvBuff && recvList == [] && (wanted.Some? ==> wanted.value <= TRANS_ID_MAX)
      modifies pack.data, air
      ensures Valid() && View() == old(View()) && pack.data.Length == PACK_LEN
      ensures air.calls == old(air.calls) + [Listens(side, recvTimeout, if got then Some(pack.data[..]) else None)]
      ensures got && Checks(pack.data[..]) ==> Expected(pack.data[..], wanted)
    {
      hide SendLists, WithChecksum, Checks, Expected;
      Members(sendBuff, sendPool, sendOwned, resend, sendList, sendCounter);
      got := air.ReceivePacket(side, recvTimeout, pack.data, wanted);
    }

    /** stk_mac_do_receive.  got: what the radio delivered, if anything. */
    method MacDoReceive(air: Air, wanted: Option<bv8>) returns (ghost got: Option<Frame>)
      requires Valid() && Tidy() && recvList == [] && (wanted.Some? ==> wanted.value <= TRANS_ID_MAX)
      modifies this`recvPool, this`recvOwned, this`recvCounter, this`recvList, Arrays(), air
      ensures Valid() && Tidy()
      ensures View() == if got.Some? && Checks(got.value) then Received(PackTaken(old(View())), got.value) else old(View())
      ensures air.calls == old(air.calls) + [Listens(side, recvTimeout, got)] && GotExpected(got, wanted)
    {
      hide View, Valid, Checks, Expected, SendLists, Distinct;
      assert forall p :: p in sendBuff + recvBuff ==> p.data.Length == PACK_LEN && p.data in Arrays() by {
        BuffersOfPacks();
      }
      var pack := MacStartReceive();
      assert pack in sendBuff + recvBuff;
      var filled := FillPack(pack, air, wanted);
      got := if filled then Some(pack.data[..]) else None;
      MacEndReceive(pack, filled);
    }

    lemma ViewLengths()
      requires Valid()
      ensures |View().sendQ| == |sendList| && |View().recvQ| == |recvList| && |View().resend| == |resend|
      ensures View().transId == transId
    {
      hide SendLists, WithChecksum;
    }

    lemma BuffersOfPacks()
      requires Valid()
      ensures forall p :: p in sendBuff + recvBuff ==> p.data.Length == PACK_LEN && p.data in Arrays()
    {
    }

    /** stk_mac_worker: one call of the radio.  What is queued is handed to it, sealed in its own pack;
        else what it delivers is received, if it passes the check. */
    method MacWorker(air: Air, wanted: Option<bv8>) returns (ghost got: Option<Frame>)
      requires Valid() && Tidy() && recvList == [] && (wanted.Some? ==> wanted.value <= TRANS_ID_MAX)
      modifies this, Arrays(), air
      ensures Valid() && Tidy() && View() == MacTurn(old(View()), got) && GotExpected(got, wanted)
      ensures air.calls == old(air.calls) + [MacCall(old(View()), side, recvTimeout, got)]
      ensures old(sendList) != [] ==>
                var sent := air.calls[|air.calls| - 1];
                sent.Sends? && sent.p == old(sendList[0]).data[..] && Checks(sent.p)
    {
      hide View, Valid, Checks, Expected, SendLists, Distinct;
      ViewLengths();
      if sendList != [] {
        var data := MacDoSend();
        air.SendPacket(side, data, SEND_TIMEOUT);
        MacMarkAsSend();
        got := None;
      } else {
        got := MacDoReceive(air, wanted);
      }
    }

    // ---------------------------------------------------------------- link control, the workers

    /** stk_m_llc_worker_v3: cases until one leaves the state as it was.  The worker returns before
        a timer it starts can expire: clock.limit. */
    method MasterWorker(st: MState, clock: Clock) returns (end: MState, ghost times: seq<int>)
      requires Valid() && Tidy() && clock.Valid() && clock.limit < clock.now.Micros() + LLC_TIMEOUT
      requires MasterEntry(View(), st, clock.limit)
      modifies this, timer, Arrays(), clock`now
      ensures Valid() && Tidy() && clock.Valid()
      ensures end == MSendAll && View().recvQ == [] && MasterEntry(View(), end, clock.limit)
      ensures Within(times, old(clock.now.Micros()), clock.limit)
      ensures MasterComplete(old(View()), st, times) && MasterRun(old(View()), st, times) == Some(Llc.MRun(View(), end))
      ensures MasterOutcome(old(View()), st, View(), old(clock.now.Micros()), clock.limit)
      ensures times != [] && !Expired(View(), times[|times| - 1])
    {
      hide View, Valid, Llc.MasterCase, MasterEntry, MasterRank, MasterAsserts, MasterRun, MasterSpins, MasterOutcome;
      NoMasterCase(View(), st);
      ghost var start := View();
      var again := true;
      end, times := st, [];
      while again
        invariant Valid() && Tidy() && clock.Valid() && old(clock.now.Micros()) <= clock.now.Micros()
        invariant MasterEntry(View(), end, clock.limit)
        invariant Within(times, old(clock.now.Micros()), clock.limit)
        invariant MasterRun(start, st, times) == Some(Llc.MRun(View(), end))
        invariant again ==> forall k: nat :: k < |times| ==> MasterSpins(start, st, times, k)
        invariant !again ==> end == MSendAll && View().recvQ == [] && MasterComplete(start, st, times)
        decreases again, |View().recvQ|, Pending(View(), end, clock.limit), MasterRank(end)
      {
        var prev := end;
        var now := clock.Read();
        MasterRespin(View(), prev, now.Micros(), clock.limit);
        MasterRunStep(start, st, times, now.Micros());
        end := MasterCase(prev, now);
        MasterSpinsOn(start, st, times, now.Micros());
        times := times + [now.Micros()];
        again := end != prev;
      }
      MasterOutcomeOf(start, st, times, old(clock.now.Micros()), clock.limit);
    }

    /** stk_s_llc_worker_v3: cases until one leaves the state as it was. */
    method SlaveWorker(st: SState) returns (end: SState, ghost cases: nat)
      requires Valid() && Tidy() && SlaveEntry(View(), st)
      modifies this, Arrays()
      ensures Valid() && Tidy() && end == SIdle && View().recvQ == [] && SlaveEntry(View(), end)
      ensures SlaveComplete(old(View()), st, cases) && SlaveRun(old(View()), st, cases) == Some(Llc.SRun(View(), end))
      ensures st == SIdle ==> SlaveOutcome(old(View()), View())
    {
      hide View, Valid, Llc.SlaveCase, SlaveEntry, SlaveRank, SlaveOutcome;
      ghost var start := View();
      var again := true;
      end, cases := st, 0;
      while again
        invariant Valid() && Tidy() && SlaveEntry(View(), end)
        invariant SlaveRun(start, st, cases) == Some(Llc.SRun(View(), end))
        invariant again ==> forall k: nat :: k < cases ==> SlaveSpins(start, st, k)
        invariant !again ==> end == SIdle && View().recvQ == [] && SlaveComplete(start, st, cases)
        decreases again, |View().recvQ|, SlaveRank(end)
      {
        var prev := end;
        SlaveRespin(View(), prev);
        end := SlaveCase(prev);
        cases := cases + 1;
        again := end != prev;
      }
      if st == SIdle { SlaveOutcomeOf(start, cases); }
    }
  }

  /** The radio as a MAC worker sees it: it keeps the calls made of it, and answers as it likes. */
  class Air {
    var calls: seq<RadioCall>

    constructor ()
      ensures calls == []
    {
      calls := [];
    }

    /** wl_sendPacketTimeout */
    method SendPacket(side: Side, data: array<bv8>, timeout: nat)
      requires data.Length == PACK_LEN
      modifies this
      ensures calls == old(calls) + [Sends(side, data[..], timeout)]
    {
      calls := calls + [Sends(side, data[..], timeout)];
    }

    /** wl_receivePacketTimeout: any bytes at all or none; those that pass the check are what
        Theorems.AssertionsHold says of every run. */
    method ReceivePacket(side: Side, timeout: nat, data: array<bv8>, wanted: Option<bv8>) returns (got: bool)
      requires data.Length == PACK_LEN && (wanted.Some? ==> wanted.value <= TRANS_ID_MAX)
      modifies this, data
      ensures calls == old(calls) + [Listens(side, timeout, if got then Some(data[..]) else None)]
      ensures got && Checks(data[..]) ==> Expected(data[..], wanted)
    {
      hide Checks, FrameOf, Expected;
      FirstExpected(wanted);
      var bytes: Frame :| Checks(bytes) ==> Expected(bytes, wanted);
      for i := 0 to PACK_LEN
        invariant calls == old(calls)
        invariant forall k :: 0 <= k < i ==> data[k] == bytes[k]
      {
        data[i] := bytes[i];
      }
      assert data[..] == bytes;
      got :| true;
      calls := calls + [Listens(side, timeout, if got then Some(data[..]) else None)];
    }
  }

  lemma FirstExpected(wanted: Option<bv8>)
    requires wanted.Some? ==> wanted.value <= TRANS_ID_MAX
    ensures Expected(FrameOf(if wanted.Some? then wanted.value else 0), wanted)
  {
    hide FrameOf, IsReset, TypeOf, IdOf;
    FrameFacts(if wanted.Some? then wanted.value else 0);
  }

  /** gettimeofday: any later time, up to a limit. */
  class Clock {
    var now: Timeval
    var limit: int

    ghost predicate Valid()
      reads this
    {
      now.Normal() && now.Micros() <= limit
    }

    constructor (start: Timeval, limit: int)
      requires start.Normal() && start.Micros() <= limit
      ensures Valid() && now == start && this.limit == limit
    {
      now := start;
      this.limit := limit;
    }

    /** Time passes; then a call begins that returns before a timer started in it can expire. */
    method BeginCall()
      requires Valid()
      modifies this
      ensures Valid() && old(now).Micros() <= now.Micros() && limit < now.Micros() + LLC_TIMEOUT
    {
      var sec, usec :| 0 <= usec < USEC_PER_SEC && now.Micros() <= Timeval(sec, usec).Micros();
      now := Timeval(sec, usec);
      var end: int :| now.Micros() <= end < now.Micros() + LLC_TIMEOUT;
      limit := end;
    }

    method Read() returns (t: Timeval)
      requires Valid()
      modifies this`now
      ensures Valid() && t == now && old(now).Micros() <= now.Micros()
    {
      var sec, usec :| 0 <= usec < USEC_PER_SEC && now.Micros() <= Timeval(sec, usec).Micros() <= limit;
      now := Timeval(sec, usec);
      t := now;
    }
  }

  // ---------------------------------------------------------------- the communication loops

  /** The link control may be entered at any time. */
  ghost predicate Enterable(t: Tsm, st: MState) {
    t.transId <= TRANS_ID_MAX && forall limit :: MasterEntry(t, st, limit)
  }

  lemma FirstEntry(t: Tsm)
    requires t.sendQ == [] && t.recvQ == [] && t.resend == [] && Pooled(t)
    ensures t.transId == TRANS_ID_START ==> Enterable(t, MIdle)
    ensures t.transId == TRANS_ID_NONE ==> SlaveEntry(t, SIdle)
    ensures OwnPackets(t)
  {
  }

  lemma OutcomeKeepsId(t: Tsm, st: MState, r: Tsm, now: int, limit: int)
    requires t.transId <= TRANS_ID_MAX && MasterOutcome(t, st, r, now, limit)
    ensures r.transId <= TRANS_ID_MAX
  {
    hide FrameOf;
  }

  /** One turn of stk_m_comm_loop. */
  method MasterTurnOf(tsm: Transmitter, st: MState, clock: Clock, air: Air)
      returns (end: MState, ghost turn: MasterTurn)
    requires tsm.Valid() && tsm.Tidy() && clock.Valid() && clock.limit < clock.now.Micros() + LLC_TIMEOUT
    requires Enterable(tsm.View(), st) && OwnPackets(tsm.View()) && tsm.side == M && tsm.recvTimeout == Protocol.MASTER_TIMEOUT
    modifies tsm, tsm.timer, tsm.Arrays(), clock`now, air
    ensures tsm.Valid() && tsm.Tidy() && clock.Valid() && Enterable(tsm.View(), end) && OwnPackets(tsm.View())
    ensures var q := MasterWorked(Llc.MRun(old(tsm.View()), st), turn);
      && q.Some? && Llc.MRun(tsm.View(), end) == Llc.MRun(MacTurn(q.value.t, turn.got), q.value.st)
      && air.calls == old(air.calls) + [MacCall(q.value.t, M, Protocol.MASTER_TIMEOUT, turn.got)]
      && SendsOurs(air.calls[|old(air.calls)|])
  {
    hide Transmitter.Valid, Transmitter.View, Transmitter.Arrays, MasterEntry, MasterRun, MasterComplete, MacTurn, MacCall, Expected, Checks,
      MasterOutcome, OwnPackets, SendsOurs;
    ghost var now := clock.now.Micros();
    ghost var t := tsm.View();
    ghost var times;
    end, times := tsm.MasterWorker(st, clock);
    ghost var q := tsm.View();
    MasterKeepsOwn(t, st, q, now, clock.limit);
    OutcomeKeepsId(t, st, q, now, clock.limit);
    tsm.ViewLengths();
    ghost var got := tsm.MacWorker(air, Some(tsm.transId));
    turn := MasterTurn(times, got);
    forall after
      ensures MasterEntry(tsm.View(), end, after)
    {
      MasterTurnEntry(q, got, clock.limit, after);
    }
    MasterTurnEntry(q, got, clock.limit, 0);
    MacKeepsOwn(q, got);
    OwnIsOurs(q, M, Protocol.MASTER_TIMEOUT, got);
  }

  /** stk_m_comm_loop for any number of turns: whatever the radio delivers, as far as it passes the
      check only if it is expected, each call finds what it requires, the two pools included;
      the transmitter is where the turns of the link control lead, each of them a complete one;
      and the radio is called once a turn, with the packet they have queued or to listen. */
  method MasterLoop(n: nat) returns (tsm: Transmitter, st: MState, air: Air, ghost start: Tsm, ghost turns: seq<MasterTurn>)
    ensures tsm.Valid() && tsm.Tidy() && |turns| == n
    ensures MasterTurns(start, turns) == Some(Llc.MRun(tsm.View(), st))
    ensures air.calls == MasterCalls(start, turns) && forall k :: 0 <= k < |air.calls| ==> SendsOurs(air.calls[k])
    ensures start.transId == TRANS_ID_START && start.sendQ == start.recvQ == start.resend == [] && Pooled(start)
    ensures |tsm.sendPool| == 10 - |tsm.resend| >= 9 && |tsm.recvPool| == 10 - |tsm.recvList| >= 9
    ensures tsm.sendCounter == |tsm.resend| && tsm.recvCounter == |tsm.recvList|
  {
    hide Transmitter.Valid, Transmitter.View, MasterEntry, Enterable, MasterWorked, MacTurn, MacCall, SendLists, OwnPackets, SendsOurs;
    tsm := new Transmitter(M, Protocol.MASTER_TIMEOUT, TRANS_ID_START);
    var clock := new Clock(Timeval(0, 0), 0);
    air := new Air();
    tsm.PoolsDoNotRunDry();
    tsm.ViewLengths();
    start := tsm.View();
    FirstEntry(start);
    st, turns := MIdle, [];
    for i := 0 to n
      invariant tsm.Valid() && tsm.Tidy() && clock.Valid() && fresh(tsm.timer) && fresh(tsm.Arrays())
      invariant Enterable(tsm.View(), st) && OwnPackets(tsm.View())
      invariant |turns| == i && MasterTurns(start, turns) == Some(Llc.MRun(tsm.View(), st))
      invariant air.calls == MasterCalls(start, turns) && forall k :: 0 <= k < |air.calls| ==> SendsOurs(air.calls[k])
    {
      clock.BeginCall();
      ghost var turn;
      st, turn := MasterTurnOf(tsm, st, clock, air);
      MasterTurnsStep(start, turns, turn);
      turns := turns + [turn];
    }
    tsm.PoolsDoNotRunDry();
  }

  /** One turn of stk_s_comm_loop. */
  method SlaveTurnOf(tsm: Transmitter, st: SState, air: Air) returns (end: SState, ghost turn: SlaveTurn)
    requires tsm.Valid() && tsm.Tidy() && st == SIdle && SlaveEntry(tsm.View(), st) && OwnPackets(tsm.View())
    requires tsm.side == S && tsm.recvTimeout == Protocol.SLAVE_TIMEOUT
    modifies tsm, tsm.Arrays(), air
    ensures tsm.Valid() && tsm.Tidy() && end == SIdle && SlaveEntry(tsm.View(), end) && OwnPackets(tsm.View())
    ensures var q := SlaveWorked(Llc.SRun(old(tsm.View()), st), turn);
      && q.Some? && Llc.SRun(tsm.View(), end) == Llc.SRun(MacTurn(q.value.t, turn.got), q.value.st)
      && air.calls == old(air.calls) + [MacCall(q.value.t, S, Protocol.SLAVE_TIMEOUT, turn.got)]
      && SendsOurs(air.calls[|old(air.calls)|])
  {
    hide Transmitter.Valid, Transmitter.View, Transmitter.Arrays, SlaveEntry, SlaveRun, SlaveComplete, MacTurn, MacCall, Expected, Checks,
      SlaveOutcome, OwnPackets, SendsOurs;
    ghost var t := tsm.View();
    ghost var cases;
    end, cases := tsm.SlaveWorker(st);
    ghost var q := tsm.View();
    SlaveKeepsOwn(t, q);
    tsm.ViewLengths();
    ghost var got := tsm.MacWorker(air, None);
    turn := SlaveTurn(cases, got);
    SlaveTurnEntry(q, got);
    MacKeepsOwn(q, got);
    OwnIsOurs(q, S, Protocol.SLAVE_TIMEOUT, got);
  }

  /** stk_s_comm_loop for any number of turns, likewise. */
  method SlaveLoop(n: nat) returns (tsm: Transmitter, st: SState, air: Air, ghost start: Tsm, ghost turns: seq<SlaveTurn>)
    ensures tsm.Valid() && tsm.Tidy() && |turns| == n
    ensures SlaveTurns(start, turns) == Some(Llc.SRun(tsm.View(), st))
    ensures air.calls == SlaveCalls(start, turns) && forall k :: 0 <= k < |air.calls| ==> SendsOurs(air.calls[k])
    ensures start.transId == TRANS_ID_NONE && start.sendQ == start.recvQ == start.resend == [] && Pooled(start)
    ensures |tsm.sendPool| == 10 - |tsm.resend| >= 9 && |tsm.recvPool| == 10 - |tsm.recvList| >= 9
    ensures tsm.sendCounter == |tsm.resend| && tsm.recvCounter == |tsm.recvList|
  {
    hide Transmitter.Valid, Transmitter.View, SlaveEntry, SlaveWorked, MacTurn, MacCall, SendLists, OwnPackets, SendsOurs;
    tsm := new Transmitter(S, Protocol.SLAVE_TIMEOUT, TRANS_ID_NONE);
    air := new Air();
    tsm.PoolsDoNotRunDry();
    tsm.ViewLengths();
    start := tsm.View();
    FirstEntry(start);
    st, turns := SIdle, [];
    for i := 0 to n
      invariant tsm.Valid() && tsm.Tidy() && fresh(tsm.timer) && fresh(tsm.Arrays())
      invariant st == SIdle && SlaveEntry(tsm.View(), st) && OwnPackets(tsm.View())
      invariant |turns| == i && SlaveTurns(start, turns) == Some(Llc.SRun(tsm.View(), st))
      invariant air.calls == SlaveCalls(start, turns) && forall k :: 0 <= k < |air.calls| ==> SendsOurs(air.calls[k])
    {
      ghost var turn;
      st, turn := SlaveTurnOf(tsm, st, air);
      SlaveTurnsStep(start, turns, turn);
      turns := turns + [turn];
    }
    tsm.PoolsDoNotRunDry();
  }
}
