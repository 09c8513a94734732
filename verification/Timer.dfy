/** Times of day, the timer of timeout-timer-internal.c, and the poll loop of wl_availableData. */
module Timer {

  const USEC_PER_SEC := 1_000_000

  /** struct timeval */
  datatype Timeval = Timeval(sec: int, usec: int) {
    predicate Normal() { 0 <= usec < USEC_PER_SEC }

    function Micros(): int { sec * USEC_PER_SEC + usec }
  }

  /** timeradd: one carry at most. */
  function TimerAdd(a: Timeval, b: Timeval): Timeval {
    var usec := a.usec + b.usec;
    if usec >= USEC_PER_SEC then Timeval(a.sec + b.sec + 1, usec - USEC_PER_SEC)
    else Timeval(a.sec + b.sec, usec)
  }

  /** timercmp(a, b, <=) */
  predicate TimerLeq(a: Timeval, b: Timeval) {
    if a.sec == b.sec then a.usec <= b.usec else a.sec <= b.sec
  }

  /** An interval of ms milliseconds, as the program splits it. */
  function Interval(ms: nat): Timeval {
    Timeval(ms / 1000, ms % 1000 * 1000)
  }

  lemma IntervalExact(ms: nat)
    ensures Interval(ms).Normal() && Interval(ms).Micros() == ms * 1000
  {
  }

  lemma TimerAddExact(a: Timeval, b: Timeval)
    requires a.Normal() && b.Normal()
    ensures TimerAdd(a, b).Normal() && TimerAdd(a, b).Micros() == a.Micros() + b.Micros()
  {
  }

  lemma TimerLeqExact(a: Timeval, b: Timeval)
    requires a.Normal() && b.Normal()
    ensures TimerLeq(a, b) <==> a.Micros() <= b.Micros()
  {
  }

  /** The comparison the program makes, for intervals of any length and across carries: at least
      ms milliseconds have passed since start, to the microsecond. */
  lemma ElapsedExact(start: Timeval, ms: nat, now: Timeval)
    requires start.Normal() && now.Normal()
    ensures TimerLeq(TimerAdd(start, Interval(ms)), now) <==> start.Micros() + ms * 1000 <= now.Micros()
  {
    IntervalExact(ms);
    TimerAddExact(start, Interval(ms));
    TimerLeqExact(TimerAdd(start, Interval(ms)), now);
  }

  /** struct tt_timer; the time of day is passed in. */
  class TtTimer {
    var startTime: Timeval
    var intervalMs: nat

    constructor ()
    {
      startTime := Timeval(0, 0);
      intervalMs := 0;
    }

    /** tt_timer_start */
    method Start(now: Timeval, ms: nat)
      requires ms < 0x1_0000_0000
      modifies this
      ensures startTime == now && intervalMs == ms
    {
      startTime := now;
      intervalMs := ms;
    }

    /** tt_timer_is_timeouted: built up field by field as the program does. */
    method IsTimeouted(now: Timeval) returns (timeouted: bool)
      requires startTime.Normal() && now.Normal()
      ensures timeouted <==> startTime.Micros() + intervalMs * 1000 <= now.Micros()
    {
      var delta := Timeval(intervalMs / 1000, 0);
      delta := delta.(usec := intervalMs % 1000 * 1000);
      ElapsedExact(startTime, intervalMs, now);
      var check := TimerAdd(startTime, delta);
      timeouted := TimerLeq(check, now);
    }
  }

  // ---------------------------------------------------------------- the poll loop

  /** CONFIG_WL_SLEEP_GRANULARITY */
  const GRANULARITY_MS := 10
  const UINT32 := 0x1_0000_0000

  /** time_sleep after n turns: a uint32_t. */
  function SleptAfter(n: nat): nat { (n * GRANULARITY_MS) % UINT32 }

  function CeilTenth(timeout: nat): nat { (timeout + 9) / 10 }

  /** How many looks the call takes if no data comes; the second sweep of the wrapped counter
      ends the loop for the four timeouts the first one skips.  Without a timeout there is
      no loop but one look. */
  function Looks(timeout: nat): nat
    requires timeout < UINT32
  {
    if timeout == 0 then 1
    else if timeout <= 0xFFFF_FFFA then CeilTenth(timeout) else CeilTenth(UINT32) + CeilTenth(timeout - 4)
  }

  lemma LooksEnd(timeout: nat)
    requires 0 < timeout <= 0xFFFF_FFFE
    ensures timeout <= SleptAfter(Looks(timeout))
    ensures forall n :: 0 <= n < Looks(timeout) ==> SleptAfter(n) < timeout
  {
    if timeout <= 0xFFFF_FFFA {
      forall n | 0 <= n < Looks(timeout)
        ensures SleptAfter(n) < timeout
      {
        assert n * 10 < timeout;
      }
      assert Looks(timeout) * 10 < UINT32;
    } else {
      var first := CeilTenth(UINT32);
      assert first * 10 == UINT32 + 4;
      forall n | 0 <= n < Looks(timeout)
        ensures SleptAfter(n) < timeout
      {
        if n < first {
          assert n * 10 <= 0xFFFF_FFFA;
        } else {
          assert SleptAfter(n) == (n - first) * 10 + 4;
        }
      }
      assert (Looks(timeout) - first) * 10 + 4 >= timeout;
    }
  }

  /** time_sleep is always even. */
  lemma LargestNeverSlept()
    ensures forall n: nat :: SleptAfter(n) < 0xFFFF_FFFF
  {
    forall n: nat
      ensures SleptAfter(n) < 0xFFFF_FFFF
    {
      assert SleptAfter(n) % 2 == 0;
    }
  }

  /** The loop can end without data exactly for timeouts below the last uint32_t: time_sleep is
      always even. */
  lemma LoopEndsIff(timeout: nat)
    requires timeout < UINT32
    ensures (exists n: nat :: timeout <= SleptAfter(n)) <==> timeout <= 0xFFFF_FFFE
  {
    if timeout <= 0xFFFF_FFFE {
      if timeout > 0 { LooksEnd(timeout); } else { assert timeout <= SleptAfter(0); }
    } else {
      LargestNeverSlept();
    }
  }

  /** Looks is the only number of turns after which the loop's condition fails for the first time. */
  lemma LooksUnique(timeout: nat, n: nat)
    requires timeout > 0 && timeout <= SleptAfter(n) && forall k :: 0 <= k < n ==> SleptAfter(k) < timeout
    ensures timeout <= 0xFFFF_FFFE && n == Looks(timeout)
  {
    hide SleptAfter, Looks;
    LargestNeverSlept();
    SleptBelow(n);
    LooksEnd(timeout);
  }

  lemma SleptBelow(n: nat)
    ensures SleptAfter(n) < UINT32
  {
  }

  /** It takes ceil(timeout / 10) looks exactly for non-zero timeouts up to 4294967290. */
  lemma LooksAreCeilingIff(timeout: nat)
    requires timeout <= 0xFFFF_FFFE
    ensures Looks(timeout) == CeilTenth(timeout) <==> 0 < timeout <= 4294967290
  {
  }

  lemma SleptStep(n: nat)
    ensures SleptAfter(n + 1) == (SleptAfter(n) + GRANULARITY_MS) % UINT32
    ensures SleptAfter(0) == 0
  {
    WrapsOnce(n * 10 / 0x1_0000_0000, n * 10 % 0x1_0000_0000, 10);
  }

  /** Adding to a wrapped counter wraps it at most once more. */
  lemma WrapsOnce(q: nat, r: nat, d: nat)
    requires r < 0x1_0000_0000 && d < 0x1_0000_0000
    ensures (q * 0x1_0000_0000 + r + d) % 0x1_0000_0000 == (r + d) % 0x1_0000_0000
  {
    var a := q * 0x1_0000_0000 + r + d;
    if r + d < 0x1_0000_0000 {
      assert a / 0x1_0000_0000 == q;
    } else {
      assert a / 0x1_0000_0000 == q + 1;
    }
  }

  /** wl_availableData; data(n) is what wl_is_data answers at look n.  With the largest timeout the
      loop ends only when data comes. */
  method AvailableData(timeout: nat, data: nat -> bool) returns (ready: bool, looks: nat)
    requires timeout < UINT32 && (timeout == 0xFFFF_FFFF ==> exists n :: data(n))
    ensures ready ==> 0 < looks && data(looks - 1) && forall n :: 0 <= n < looks - 1 ==> !data(n)
    ensures ready && timeout <= 0xFFFF_FFFE ==> looks <= Looks(timeout)
    ensures !ready ==> timeout <= 0xFFFF_FFFE && looks == Looks(timeout) && forall n :: 0 <= n < looks ==> !data(n)
  {
    hide SleptAfter;
    if timeout == 0 {
      return data(0), 1;
    }
    hide Looks;
    ghost var end: nat;
    if timeout <= 0xFFFF_FFFE {
      LooksEnd(timeout);
      end := Looks(timeout);
    } else {
      LargestNeverSlept();
      end :| data(end);
    }
    var timeSleep: nat := 0;
    looks := 0;
    SleptStep(0);
    while timeout > timeSleep
      invariant looks <= end
      invariant timeSleep == SleptAfter(looks)
      invariant forall n :: 0 <= n < looks ==> !data(n)
      decreases end - looks
    {
      if data(looks) {
        return true, looks + 1;
      }
      SleptStep(looks);
      timeSleep := (timeSleep + GRANULARITY_MS) % UINT32;
      looks := looks + 1;
    }
    return false, looks;
  }
}
