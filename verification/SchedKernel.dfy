/**
 The scheduler's tables and the critical sections that update them in place. Each method is proved
 to perform the corresponding step of the state machine.
 */
module SchedKernel {
  import opened Wrappers
  import opened SchedModel
  import opened SchedProgress

  lemma {:induction false} FirstIndex(slots: seq<nat>, x: nat, i: nat)
    requires i < |slots| && slots[i] == x && x !in slots[..i]
    ensures IndexOf(slots, x) == i
  {
    if i > 0 {
      assert slots[..i][0] == slots[0];
      assert slots[..i] == [slots[0]] + slots[1..][..i - 1];
      FirstIndex(slots[1..], x, i - 1);
    }
  }

  /** The first `n` sleepers from slot `i` on, found in one pass. */
  ghost function FirstWaiters(threads: seq<Option<Thread>>, addr: nat, i: nat, n: nat): (l: seq<nat>)
    requires i <= |threads|
    decreases |threads| - i
  {
    if i == |threads| || n == 0 then []
    else if Waiter(threads, i, addr) then [i] + FirstWaiters(threads, addr, i + 1, n - 1)
    else FirstWaiters(threads, addr, i + 1, n)
  }

  lemma {:induction false} FirstWaitersTake(threads: seq<Option<Thread>>, addr: nat, i: nat, n: nat)
    requires i <= |threads|
    ensures FirstWaiters(threads, addr, i, n) == Take(Waiters(threads, addr, i), n)
    decreases |threads| - i
  {
    if i < |threads| && n > 0 {
      if Waiter(threads, i, addr) {
        FirstWaitersTake(threads, addr, i + 1, n - 1);
        assert Waiters(threads, addr, i) == [i] + Waiters(threads, addr, i + 1);
      } else {
        FirstWaitersTake(threads, addr, i + 1, n);
      }
    }
  }

  lemma {:induction false} FirstWaitersAgree(a: seq<Option<Thread>>, b: seq<Option<Thread>>, addr: nat, i: nat, n: nat)
    requires |a| == |b| && i <= |a| && forall k :: i <= k < |a| ==> a[k] == b[k]
    ensures FirstWaiters(a, addr, i, n) == FirstWaiters(b, addr, i, n)
    decreases |a| - i
  {
    if i < |a| && n > 0 {
      FirstWaitersAgree(a, b, addr, i + 1, n - 1);
      FirstWaitersAgree(a, b, addr, i + 1, n);
    }
  }

  /** The scan of futex_wake from slot `i` with `n` wakes left. */
  function Scan(s: State, addr: nat, i: nat, n: nat): (r: State)
    requires Shape(s) && i <= |s.threads|
    decreases |s.threads| - i
  {
    if i == |s.threads| || n == 0 then s
    else if Waiter(s.threads, i, addr) then Scan(ReadyOne(s, i), addr, i + 1, n - 1)
    else Scan(s, addr, i + 1, n)
  }

  /** The number of threads it wakes. */
  function ScanCount(s: State, addr: nat, i: nat, n: nat): (woken: nat)
    requires Shape(s) && i <= |s.threads|
    decreases |s.threads| - i
  {
    if i == |s.threads| || n == 0 then 0
    else if Waiter(s.threads, i, addr) then 1 + ScanCount(ReadyOne(s, i), addr, i + 1, n - 1)
    else ScanCount(s, addr, i + 1, n)
  }

  lemma ReadyCons(s: State, x: nat, l: seq<nat>)
    requires IsThread(s, x) && s.threads[x].value.home < |s.cpus| && AllReadyable(ReadyOne(s, x), l)
    ensures AllReadyable(s, [x] + l) && ReadyAll(s, [x] + l) == ReadyAll(ReadyOne(s, x), l)
  {
    assert ([x] + l)[1..] == l;
    assert forall k :: 0 < k < |[x] + l| ==> ([x] + l)[k] == l[k - 1];
  }

  /** The scan readies exactly the first sleepers, one after the other. */
  lemma {:induction false} ScanReadies(s: State, addr: nat, i: nat, n: nat)
    requires Shape(s) && i <= |s.threads|
    ensures var l := FirstWaiters(s.threads, addr, i, n);
            AllReadyable(s, l) && Scan(s, addr, i, n) == ReadyAll(s, l) && ScanCount(s, addr, i, n) == |l|
    decreases |s.threads| - i
  {
    if i < |s.threads| && n > 0 {
      if Waiter(s.threads, i, addr) {
        var m := ReadyOne(s, i);
        ScanReadies(m, addr, i + 1, n - 1);
        FirstWaitersAgree(s.threads, m.threads, addr, i + 1, n - 1);
        ReadyCons(s, i, FirstWaiters(m.threads, addr, i + 1, n - 1));
      } else {
        ScanReadies(s, addr, i + 1, n);
      }
    }
  }

  class Scheduler {
    const threads: array<Option<Thread>>
    const cpus: array<Cpu>
    const locks: array<bool>
    const pending: array<seq<nat>>
    const rescue: array<bool>
    var nextTid: nat

    ghost function Abs(): State
      reads this, threads, cpus, locks, pending, rescue
    {
      State(threads[..], nextTid, cpus[..], locks[..], pending[..], rescue[..])
    }

    ghost predicate Valid()
      reads this, threads, cpus, locks, pending, rescue
    {
      locks != rescue && Shape(Abs())
    }

    // ---------- Pending wakes ----------

    method PendingWakeInsert(bucket: nat, addr: nat)
      requires Valid() && bucket < FUTEX_BUCKETS
      modifies pending
      ensures Valid()
      ensures Abs() == old(Abs()).(pending := old(pending[..])[bucket := PendingInsert(old(pending[bucket]), addr)])
    {
      var slots := pending[bucket];
      var i := 0;
      while i < |slots|
        invariant 0 <= i <= |slots| && addr !in slots[..i]
      {
        if slots[i] == addr { return; }
        assert slots[..i + 1] == slots[..i] + [slots[i]];
        i := i + 1;
      }
      assert slots[..i] == slots;
      i := 0;
      while i < |slots|
        invariant 0 <= i <= |slots| && 0 !in slots[..i]
      {
        if slots[i] == 0 {
          FirstIndex(slots, 0, i);
          pending[bucket] := slots[i := addr];
          return;
        }
        assert slots[..i + 1] == slots[..i] + [slots[i]];
        i := i + 1;
      }
      assert slots[..i] == slots;
    }

    method PendingWakeConsume(bucket: nat, addr: nat) returns (found: bool)
      requires Valid() && bucket < FUTEX_BUCKETS
      modifies pending
      ensures Valid() && found == (addr in old(pending[bucket]))
      ensures Abs() == old(Abs()).(pending := old(pending[..])[bucket := PendingConsume(old(pending[bucket]), addr)])
    {
      var slots := pending[bucket];
      var i := 0;
      while i < |slots|
        invariant 0 <= i <= |slots| && addr !in slots[..i]
      {
        if slots[i] == addr {
          FirstIndex(slots, addr, i);
          pending[bucket] := slots[i := 0];
          return true;
        }
        assert slots[..i + 1] == slots[..i] + [slots[i]];
        i := i + 1;
      }
      assert slots[..i] == slots;
      return false;
    }

    // ---------- futex_wake ----------

    /** Make sleeper `i` Ready and push it to its home queue. */
    method ReadyAt(i: nat)
      requires Valid() && IsThread(Abs(), i)
      modifies threads, cpus
      ensures Valid() && Abs() == ReadyOne(old(Abs()), i)
    {
      var th := threads[i].value;
      threads[i] := Some(th.(state := Ready, futexAddr := 0, blockedSince := 0));
      cpus[th.home] := cpus[th.home].(queue := cpus[th.home].queue + [i]);
      assert Abs() == ReadyOne(old(Abs()), i);
    }

    /** The scan of futex_wake under the bucket and thread locks. */
    method WakeScan(addr: nat, count: nat) returns (woken: nat)
      requires Valid()
      modifies threads, cpus
      ensures Valid() && Abs() == Scan(old(Abs()), addr, 0, count) && woken == ScanCount(old(Abs()), addr, 0, count)
    {
      ghost var goal, total := Scan(Abs(), addr, 0, count), ScanCount(Abs(), addr, 0, count);
      woken := 0;
      var i := 0;
      while i < threads.Length && woken < count
        invariant 0 <= i <= threads.Length && woken <= count && Valid()
        invariant Scan(Abs(), addr, i, count - woken) == goal
        invariant ScanCount(Abs(), addr, i, count - woken) + woken == total
        decreases threads.Length - i
      {
        if threads[i].Some? && threads[i].value.state == Blocked && threads[i].value.futexAddr == addr {
          ReadyAt(i);
          woken := woken + 1;
        }
        i := i + 1;
      }
    }

    method FutexWake(addr: nat, count: nat) returns (woken: nat)
      requires Valid()
      modifies threads, cpus, pending
      ensures Valid() && Abs() == Wake(old(Abs()), addr, count)
      ensures woken == |Chosen(old(Abs()), addr, count)|
    {
      woken := WakeScan(addr, count);
      ScanReadies(old(Abs()), addr, 0, count);
      FirstWaitersTake(old(threads[..]), addr, 0, count);
      if woken == 0 {
        PendingWakeInsert(Bucket(addr), addr);
      }
    }

    // ---------- Watchdog ----------

    /** watchdog_wake: sets rescue flags and nothing else. `words[i]` is the futex word read for slot i. */
    method WatchdogWake(words: seq<nat>, now: nat)
      requires Valid() && |words| == MAX_THREADS
      modifies rescue
      ensures Valid() && Abs() == old(Abs()).(rescue := rescue[..])
      ensures forall t: nat :: t < MAX_THREADS ==> (rescue[t] <==> old(rescue[..])[t] || Due(old(Abs()), t, words[t], now))
      ensures rescue[..] == Ticked(old(Abs()), words, now)
    {
      ghost var s0 := Abs();
      ghost var goal := Ticked(s0, words, now);
      var i := 0;
      while i < threads.Length
        invariant 0 <= i <= threads.Length && Valid()
        invariant Abs() == s0.(rescue := rescue[..])
        invariant forall j :: 0 <= j < i ==> rescue[j] == goal[j]
        invariant forall j :: i <= j < rescue.Length ==> rescue[j] == s0.rescue[j]
      {
        var slot := threads[i];
        if slot.Some? && slot.value.state == Blocked && slot.value.futexAddr != 0 {
          var th := slot.value;
          var valueChanged := words[i] != th.futexVal;
          var timedOut := th.deadline != 0 && now >= th.deadline;
          var stale := th.deadline == 0 && th.blockedSince != 0 && now >= th.blockedSince + BLOCKED_RESCUE_NS;
          if valueChanged || timedOut || stale {
            rescue[i] := true;
          }
        }
        i := i + 1;
      }
      assert rescue[..] == goal;
    }

    /** process_rescues, run where every lock it needs is free. */
    method ProcessRescues(now: nat)
      requires Valid()
      modifies threads, cpus, rescue
      ensures Valid() && Abs() == DrainFrom(old(Abs()), 0, now)
    {
      ghost var s0 := Abs();
      var i := 0;
      while i < MAX_THREADS
        invariant 0 <= i <= MAX_THREADS && Valid()
        invariant DrainFrom(Abs(), i, now) == DrainFrom(s0, 0, now)
      {
        RescueSlot(i, now);
        i := i + 1;
      }
    }

    method RescueSlot(i: nat, now: nat)
      requires Valid() && i < MAX_THREADS
      modifies threads, cpus, rescue
      ensures Valid() && DrainFrom(Abs(), i + 1, now) == DrainFrom(old(Abs()), i, now)
    {
      ghost var s := Abs();
      var requested := rescue[i];
      rescue[i] := false;
      ghost var s1 := s.(rescue := s.rescue[i := false]);
      assert Abs() == s1;
      if requested && threads[i].Some? && threads[i].value.state == Blocked && threads[i].value.futexAddr != 0 {
        var th := threads[i].value;
        var wasTimedOut := th.deadline != 0 && now >= th.deadline;
        threads[i] := Some(th.(state := Ready, futexAddr := 0, blockedSince := 0,
                               timedOut := if wasTimedOut then true else th.timedOut, deadline := 0));
        if i !in cpus[th.home].queue {
          cpus[th.home] := cpus[th.home].(queue := cpus[th.home].queue + [i]);
        }
        assert Abs() == Rescue(s1, i, now);
      }
    }

    // ---------- Scheduling ----------

    /** The CPU that spawn places a thread on: the first idle one, else the first with the shortest queue. */
    method ChooseCpu() returns (best: nat)
      requires Valid()
      ensures best < cpus.Length
      ensures (exists c :: 0 <= c < cpus.Length && cpus[c].idle) ==>
                cpus[best].idle && forall c :: 0 <= c < best ==> !cpus[c].idle
      ensures (forall c :: 0 <= c < cpus.Length ==> !cpus[c].idle) ==>
                && (forall c :: 0 <= c < cpus.Length ==> |cpus[best].queue| <= |cpus[c].queue|)
                && (forall c :: 0 <= c < best ==> |cpus[best].queue| < |cpus[c].queue|)
    {
      best := 0;
      var bestLen := -1; // no queue seen yet
      var foundIdle := false;
      var c := 0;
      while c < cpus.Length
        invariant 0 <= c <= cpus.Length && best < cpus.Length
        invariant foundIdle ==> best < c && cpus[best].idle && forall k :: 0 <= k < best ==> !cpus[k].idle
        invariant !foundIdle ==> forall k :: 0 <= k < c ==> !cpus[k].idle
        invariant !foundIdle ==> (bestLen == -1 <==> c == 0)
        invariant !foundIdle && c > 0 ==>
                    && best < c && bestLen == |cpus[best].queue|
                    && (forall k :: 0 <= k < c ==> bestLen <= |cpus[k].queue|)
                    && (forall k :: 0 <= k < best ==> bestLen < |cpus[k].queue|)
      {
        var len := |cpus[c].queue|;
        if cpus[c].idle && !foundIdle {
          best, bestLen, foundIdle := c, len, true;
        } else if !foundIdle && (bestLen == -1 || len < bestLen) {
          best, bestLen := c, len;
        }
        c := c + 1;
      }
    }

    /** The queue section of yield_current. */
    method YieldCurrent(c: nat)
      requires Valid() && c < cpus.Length && cpus[c].phase == Kernel
      modifies cpus
      ensures Valid()
      ensures Abs() == if old(cpus[c].queue) == [] then old(Abs()) else ApplyYieldPick(old(Abs()), c)
    {
      var cpu := cpus[c];
      if cpu.queue == [] { return; }
      var next := cpu.queue[0];
      if cpu.current.None? {
        cpus[c] := cpu.(current := Some(next), idle := false, queue := cpu.queue[1..],
                        phase := Switching(None, Some(next), None));
      } else {
        cpus[c] := cpu.(current := Some(next), queue := cpu.queue[1..] + [cpu.current.value],
                        phase := Switching(cpu.current, Some(next), None));
      }
      assert Abs() == ApplyYieldPick(old(Abs()), c);
    }

    ghost predicate Pends(addr: nat)
      requires Valid()
      reads this, threads, cpus, locks, pending, rescue
    {
      addr in pending[Bucket(addr)]
    }

    /** The decision of futex_wait under the bucket lock. */
    method FutexWaitDecide(c: nat, word: nat, blocking: bool, now: nat) returns (outcome: WaitOutcome)
      requires Valid() && Enabled(Abs(), WaitCheck(c, word, blocking, now))
      modifies threads, cpus, locks, pending
      ensures Valid() && Abs() == ApplyWaitCheck(old(Abs()), c, word, blocking, now)
      ensures outcome == ConsumedWake <==> old(Pends(cpus[c].phase.addr))
      ensures outcome == ValueChanged <==> !old(Pends(cpus[c].phase.addr)) && word != old(cpus[c].phase).val
      ensures outcome == Blocks <==> !old(Pends(cpus[c].phase.addr)) && word == old(cpus[c].phase).val && blocking
                                     && old(cpus[c]).current.Some?
      ensures outcome == SpinYield ==> !blocking
      ensures outcome == NoThread ==> old(cpus[c]).current.None?
      ensures outcome == Blocks ==> var t := old(cpus[c]).current.value;
                threads[..] == old(threads[..])[t := threads[t]] && threads[t].Some?
                && threads[t].value.state == Blocked && threads[t].value.futexAddr == old(cpus[c].phase).addr
                && threads[t].value.futexVal == word && threads[t].value.deadline == old(cpus[c].phase).deadline
                && threads[t].value.blockedSince == now && locks[..] == old(locks[..])
      ensures outcome != Blocks ==> threads[..] == old(threads[..]) && !locks[Bucket(old(cpus[c].phase).addr)]
    {
      ghost var s0 := Abs();
      var p := cpus[c].phase;
      var bucket := Bucket(p.addr);
      var consumed := PendingWakeConsume(bucket, p.addr);
      if !consumed && word == p.val && blocking && cpus[c].current.Some? {
        var t := cpus[c].current.value;
        threads[t] := Some(threads[t].value.(state := Blocked, futexAddr := p.addr, futexVal := p.val,
                                             deadline := p.deadline, timedOut := false, blockedSince := now, inWait := true));
        cpus[c] := cpus[c].(phase := WaitMarked(p.addr, t));
        assert pending[..] == s0.pending;
        assert Abs() == ApplyWaitCheck(s0, c, word, blocking, now);
        return Blocks;
      }
      cpus[c] := cpus[c].(phase := Kernel);
      locks[bucket] := false;
      outcome := if consumed then ConsumedWake else if word != p.val then ValueChanged
                 else if !blocking then SpinYield else NoThread;
      assert !consumed ==> pending[..] == s0.pending;
      assert Abs() == ApplyWaitCheck(s0, c, word, blocking, now);
    }

    /** release_pending_unlock. */
    method ReleasePendingUnlock(c: nat)
      requires Valid() && Enabled(Abs(), Release(c))
      modifies cpus, locks
      ensures Valid() && Abs() == ApplyRelease(old(Abs()), c)
    {
      ghost var s0 := Abs();
      var b := cpus[c].pendingUnlock;
      var cur := cpus[c].current;
      var resumed := cur.Some? && cur.value < threads.Length && threads[cur.value].Some? && threads[cur.value].value.inWait;
      cpus[c] := cpus[c].(pendingUnlock := None, phase := if resumed then Returning else Kernel);
      if b.Some? { locks[b.value] := false; }
      assert Abs() == ApplyRelease(s0, c);
    }
  }
}
