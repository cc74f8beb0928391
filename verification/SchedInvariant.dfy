/**
 What every step of the scheduler keeps: where each thread is, whose context is live, who owns
 each bucket lock, and what the pending-wake tables hold.
 */
module SchedInvariant {
  import opened Wrappers
  import opened Lists
  import opened SchedModel

  // ---------- Where a thread is ----------

  ghost predicate Queued(s: State, t: nat)
    requires Shape(s) && IsThread(s, t)
  {
    t in s.cpus[s.threads[t].value.home].queue
  }

  ghost predicate OnCpu(s: State, t: nat)
    requires Shape(s) && IsThread(s, t)
  {
    s.cpus[s.threads[t].value.home].current == Some(t)
  }

  /** CPU `d` carries `t` between two critical sections: just created, or just popped by the idle loop. */
  ghost predicate HandAt(s: State, d: nat, t: nat) {
    d < |s.cpus| && (s.cpus[d].phase == Spawning(t) || s.cpus[d].phase == IdleHand(t))
  }

  ghost predicate InHand(s: State, t: nat) {
    exists d: nat :: HandAt(s, d, t)
  }

  /** `t` has been marked Blocked by its own futex_wait and has not been switched out yet. */
  ghost predicate Marked(s: State, t: nat)
    requires Shape(s) && IsThread(s, t)
  {
    var p := s.cpus[s.threads[t].value.home].phase;
    p.WaitMarked? && p.tid == t
  }

  ghost predicate ExactlyOne(a: bool, b: bool, c: bool) {
    (a && !b && !c) || (!a && b && !c) || (!a && !b && c)
  }

  /** The place of a thread, given its state. A runnable thread inside its own wait (readied by a
      rescue before it was switched out) is the only one found in two tables. */
  ghost predicate PlaceOk(s: State, t: nat)
    requires Shape(s) && IsThread(s, t)
  {
    match s.threads[t].value.state
    case Dead => !Queued(s, t) && !OnCpu(s, t) && !InHand(s, t)
    case Blocked => !Queued(s, t) && !InHand(s, t) && (OnCpu(s, t) <==> Marked(s, t))
    case _ =>
      if Marked(s, t) then OnCpu(s, t) && Queued(s, t) && !InHand(s, t)
      else ExactlyOne(OnCpu(s, t), Queued(s, t), InHand(s, t))
  }

  // ---------- Each CPU's tables and phase ----------

  ghost predicate Lives(s: State, c: nat, t: nat) {
    IsThread(s, t) && s.threads[t].value.home == c
  }

  ghost predicate PhaseOk(s: State, c: nat)
    requires Shape(s) && c < |s.cpus|
  {
    var cpu := s.cpus[c];
    match cpu.phase
    case WaitMarked(addr, t) =>
      && cpu.current == Some(t) && Lives(s, c, t) && s.threads[t].value.inWait
      && (s.threads[t].value.state == Blocked ==> s.threads[t].value.futexAddr == addr)
    case Switching(from, to, handoff) =>
      && cpu.current == to
      && (from.Some? ==> Lives(s, c, from.value))
      && (from.Some? && s.threads[from.value].value.state == Blocked ==>
            handoff == Some(Bucket(s.threads[from.value].value.futexAddr)))
      && (handoff.Some? ==> handoff.value < FUTEX_BUCKETS)
    case Returning => cpu.current.Some? && Lives(s, c, cpu.current.value) && s.threads[cpu.current.value].value.inWait
    case RescueSnap(t, addr) => t < MAX_THREADS
    case RescueLocked(t, addr) => t < MAX_THREADS
    case Spawning(t) => IsThread(s, t)
    case IdleHand(t) => Lives(s, c, t) && cpu.current.None?
    case _ => true
  }

  ghost predicate CpuOk(s: State, c: nat)
    requires Shape(s) && c < |s.cpus|
  {
    var cpu := s.cpus[c];
    && (cpu.current.Some? ==> Lives(s, c, cpu.current.value))
    && (forall k :: 0 <= k < |cpu.queue| ==> Lives(s, c, cpu.queue[k]))
    && NoDup(cpu.queue)
    && (cpu.idle <==> cpu.current.None?)
    && (cpu.pendingUnlock.Some? ==> cpu.phase == Resuming && cpu.pendingUnlock.value < FUTEX_BUCKETS)
    && PhaseOk(s, c)
  }

  // ---------- Whose registers are live ----------

  /** The thread whose code CPU `cpu` is executing. */
  ghost function Executing(cpu: Cpu): Option<nat> {
    if cpu.phase.Switching? then cpu.phase.from else cpu.current
  }

  ghost predicate ContextOk(s: State, t: nat)
    requires Shape(s) && IsThread(s, t)
  {
    s.threads[t].value.saved <==> Executing(s.cpus[s.threads[t].value.home]) != Some(t)
  }

  // ---------- Bucket locks ----------

  /** The bucket lock that CPU `cpu` owns: inside a critical section, on its way through a
      context switch, or in its pending-unlock slot. */
  ghost function Owns(cpu: Cpu): Option<nat> {
    match cpu.phase
    case WaitLocked(addr, _, _) => Some(Bucket(addr))
    case WaitMarked(addr, _) => Some(Bucket(addr))
    case WakeLocked(addr, _) => Some(Bucket(addr))
    case RescueLocked(_, addr) => Some(Bucket(addr))
    case Switching(_, _, handoff) => handoff
    case _ => cpu.pendingUnlock
  }

  ghost predicate OwnerAt(s: State, c: nat, b: nat) {
    c < |s.cpus| && Owns(s.cpus[c]) == Some(b)
  }

  ghost predicate LockOk(s: State, b: nat)
    requires Shape(s) && b < FUTEX_BUCKETS
  {
    && (s.locks[b] <==> exists c: nat :: OwnerAt(s, c, b))
    && (forall c: nat, d: nat :: OwnerAt(s, c, b) && OwnerAt(s, d, b) ==> c == d)
  }

  // ---------- Pending wakes and wait bookkeeping ----------

  /** The addresses in a bucket's table are distinct and hash to that bucket. */
  ghost predicate TableOk(slots: seq<nat>, b: nat) {
    && (forall k :: 0 <= k < |slots| && slots[k] != 0 ==> Bucket(slots[k]) == b)
    && (forall j, k :: 0 <= j < k < |slots| && slots[j] != 0 ==> slots[j] != slots[k])
  }

  ghost predicate WaitOk(th: Thread) {
    && (th.state != Blocked ==> th.futexAddr == 0 && th.blockedSince == 0)
    && (th.state == Blocked ==> th.inWait && !th.timedOut)
  }

  // ---------- The invariant ----------

  ghost predicate Cpus(s: State) requires Shape(s) {
    forall c: nat :: c < |s.cpus| ==> CpuOk(s, c)
  }

  ghost predicate Places(s: State) requires Shape(s) {
    forall t: nat :: IsThread(s, t) ==> PlaceOk(s, t)
  }

  ghost predicate Hands(s: State) {
    forall d: nat, e: nat, t: nat :: HandAt(s, d, t) && HandAt(s, e, t) ==> d == e
  }

  ghost predicate Contexts(s: State) requires Shape(s) {
    forall t: nat :: IsThread(s, t) ==> ContextOk(s, t)
  }

  ghost predicate Locks(s: State) requires Shape(s) {
    forall b: nat :: b < FUTEX_BUCKETS ==> LockOk(s, b)
  }

  ghost predicate Tables(s: State) requires Shape(s) {
    forall b: nat :: b < FUTEX_BUCKETS ==> TableOk(s.pending[b], b)
  }

  ghost predicate Waits(s: State) requires Shape(s) {
    forall t: nat :: IsThread(s, t) ==> WaitOk(s.threads[t].value)
  }

  ghost predicate Inv(s: State) {
    Shape(s) && Cpus(s) && Places(s) && Hands(s) && Contexts(s) && Locks(s) && Tables(s) && Waits(s)
  }

  lemma InitInv(s: State)
    requires Init(s)
    ensures Inv(s)
  {
    assert forall d: nat, t: nat :: !HandAt(s, d, t);
    assert forall d: nat, b: nat :: !OwnerAt(s, d, b);
    assert forall t: nat :: IsThread(s, t) ==> t == 0;
  }

  // ---------- Frames ----------

  /** Every CPU owns the lock it owned. */
  ghost predicate SameOwners(s: State, r: State) {
    |r.cpus| == |s.cpus| && forall d: nat :: d < |s.cpus| ==> Owns(r.cpus[d]) == Owns(s.cpus[d])
  }

  lemma LocksFrame(s: State, r: State)
    requires Shape(s) && Shape(r) && Locks(s) && r.locks == s.locks && SameOwners(s, r)
    ensures Locks(r)
  {
    forall b: nat | b < FUTEX_BUCKETS ensures LockOk(r, b) {
      assert LockOk(s, b);
      assert forall d: nat :: OwnerAt(r, d, b) <==> OwnerAt(s, d, b);
    }
  }

  /** CPU `c`, which owned nothing, takes the free lock `b`. */
  lemma LocksAcquire(s: State, r: State, c: nat, b: nat)
    requires Shape(s) && Shape(r) && Locks(s) && c < |s.cpus| && |r.cpus| == |s.cpus| && b < FUTEX_BUCKETS
    requires !s.locks[b] && r.locks == s.locks[b := true]
    requires Owns(s.cpus[c]).None? && Owns(r.cpus[c]) == Some(b)
    requires forall d: nat :: d < |s.cpus| && d != c ==> Owns(r.cpus[d]) == Owns(s.cpus[d])
    ensures Locks(r)
  {
    forall x: nat | x < FUTEX_BUCKETS ensures LockOk(r, x) {
      assert LockOk(s, x) && LockOk(s, b);
      assert OwnerAt(r, c, b);
      assert forall d: nat :: d != c ==> (OwnerAt(r, d, x) <==> OwnerAt(s, d, x));
      assert forall d: nat :: !OwnerAt(s, d, b);
      if x != b {
        assert !OwnerAt(r, c, x) && !OwnerAt(s, c, x);
      }
    }
  }

  /** CPU `c` gives up the lock `b` that it owns. */
  lemma LocksRelease(s: State, r: State, c: nat, b: nat)
    requires Shape(s) && Shape(r) && Locks(s) && c < |s.cpus| && |r.cpus| == |s.cpus| && b < FUTEX_BUCKETS
    requires r.locks == s.locks[b := false]
    requires Owns(s.cpus[c]) == Some(b) && Owns(r.cpus[c]).None?
    requires forall d: nat :: d < |s.cpus| && d != c ==> Owns(r.cpus[d]) == Owns(s.cpus[d])
    ensures Locks(r) && s.locks[b]
  {
    assert OwnerAt(s, c, b) && LockOk(s, b);
    forall x: nat | x < FUTEX_BUCKETS ensures LockOk(r, x) {
      assert LockOk(s, x);
      assert forall d: nat :: d != c ==> (OwnerAt(r, d, x) <==> OwnerAt(s, d, x));
      assert !OwnerAt(r, c, x);
      if x != b {
        assert !OwnerAt(s, c, x);
      }
    }
  }

  /** No thread has changed hands. */
  ghost predicate SameHands(s: State, r: State) {
    forall d: nat, t: nat :: HandAt(r, d, t) <==> HandAt(s, d, t)
  }

  lemma HandsFrame(s: State, r: State)
    requires Hands(s) && SameHands(s, r)
    ensures Hands(r) && forall t: nat :: InHand(r, t) <==> InHand(s, t)
  {
  }

  /** Only CPU `c` and threads at home on `c` change. */
  ghost predicate OnlyAt(s: State, r: State, c: nat) {
    && c < |r.cpus| == |s.cpus| && r.cpus == s.cpus[c := r.cpus[c]]
    && |r.threads| == |s.threads|
    && (forall t: nat :: IsThread(r, t) ==> IsThread(s, t))
    && forall t: nat :: IsThread(s, t) ==>
         && IsThread(r, t) && r.threads[t].value.home == s.threads[t].value.home
         && (s.threads[t].value.home != c ==> r.threads[t] == s.threads[t])
  }

  lemma OtherCpus(s: State, r: State, c: nat)
    requires Shape(s) && Shape(r) && Cpus(s) && OnlyAt(s, r, c) && CpuOk(r, c)
    ensures Cpus(r)
  {
    forall d: nat | d < |r.cpus| ensures CpuOk(r, d) { assert CpuOk(s, d); }
  }

  lemma OtherPlaces(s: State, r: State, c: nat)
    requires Shape(s) && Shape(r) && Places(s) && Contexts(s) && OnlyAt(s, r, c)
    requires forall t: nat :: IsThread(s, t) && s.threads[t].value.home != c ==> (InHand(r, t) <==> InHand(s, t))
    requires forall t: nat :: Lives(r, c, t) ==> PlaceOk(r, t) && ContextOk(r, t)
    ensures Places(r) && Contexts(r)
  {
    forall t: nat | IsThread(r, t) ensures PlaceOk(r, t) && ContextOk(r, t) {
      if s.threads[t].value.home == c {
        assert Lives(r, c, t);
      } else {
        assert PlaceOk(s, t) && ContextOk(s, t);
      }
    }
  }

  lemma PushCpus(s: State, h: nat, x: nat)
    requires Shape(s) && Cpus(s) && Lives(s, h, x) && x !in s.cpus[h].queue
    ensures Cpus(PushQueue(s, h, x))
  {
    var r := PushQueue(s, h, x);
    assert CpuOk(s, h);
    assert forall k :: 0 <= k < |s.cpus[h].queue| ==> r.cpus[h].queue[k] == s.cpus[h].queue[k];
    OtherCpus(s, r, h);
  }

  lemma CurrentPlace(s: State, c: nat, t: nat)
    requires Inv(s) && c < |s.cpus| && s.cpus[c].current == Some(t) && !s.cpus[c].phase.WaitMarked?
    ensures Lives(s, c, t) && s.threads[t].value.state in {Ready, Running} && t !in s.cpus[c].queue && !InHand(s, t)
  {
    assert CpuOk(s, c);
    assert PlaceOk(s, t);
  }

  lemma QueuePlace(s: State, c: nat, t: nat)
    requires Inv(s) && c < |s.cpus| && t in s.cpus[c].queue
    ensures Lives(s, c, t) && s.threads[t].value.state in {Ready, Running} && !InHand(s, t)
    ensures !s.cpus[c].phase.WaitMarked? ==> s.cpus[c].current != Some(t)
  {
    assert CpuOk(s, c);
    assert PlaceOk(s, t);
  }

  // ---------- Each step keeps the invariant ----------

  lemma YieldCpus(s: State, c: nat)
    requires Shape(s) && Cpus(s) && Enabled(s, YieldPick(c))
    requires s.cpus[c].current.Some? ==>
               var t := s.cpus[c].current.value;
               t !in s.cpus[c].queue && IsThread(s, t) && s.threads[t].value.state != Blocked
    ensures Shape(ApplyYieldPick(s, c)) && Cpus(ApplyYieldPick(s, c))
  {
    var r := ApplyYieldPick(s, c);
    assert CpuOk(s, c);
    OtherCpus(s, r, c);
  }

  lemma YieldPlaces(s: State, c: nat)
    requires Inv(s) && Enabled(s, YieldPick(c))
    ensures var r := ApplyYieldPick(s, c); Shape(r) && Places(r) && Contexts(r) && Hands(r)
  {
    var r := ApplyYieldPick(s, c);
    var cpu := s.cpus[c];
    assert CpuOk(s, c);
    HandsFrame(s, r);
    QueuePlace(s, c, cpu.queue[0]);
    if cpu.current.Some? { CurrentPlace(s, c, cpu.current.value); }
    forall t: nat | IsThread(r, t) ensures PlaceOk(r, t) && ContextOk(r, t) {
      assert PlaceOk(s, t) && ContextOk(s, t);
      if s.threads[t].value.home == c {
        assert t in cpu.queue <==> t == cpu.queue[0] || t in cpu.queue[1..];
      }
    }
  }

  lemma YieldKeeps(s: State, c: nat)
    requires Inv(s) && Enabled(s, YieldPick(c))
    ensures Inv(ApplyYieldPick(s, c))
  {
    var r := ApplyYieldPick(s, c);
    assert CpuOk(s, c);
    if s.cpus[c].current.Some? { CurrentPlace(s, c, s.cpus[c].current.value); }
    YieldCpus(s, c);
    YieldPlaces(s, c);
    LocksFrame(s, r);
  }

  /** A phase in which the CPU neither marks, carries nor switches a thread. */
  ghost predicate Quiet(p: Phase) {
    !p.WaitMarked? && !p.Switching? && !p.Spawning? && !p.IdleHand?
  }

  /** Thread tables that agree on everything that places a thread, except for the wait bookkeeping
      of threads whose home is CPU `c`. */
  ghost predicate SamePlacing(s: State, r: State, c: nat) {
    && |r.threads| == |s.threads|
    && (forall t: nat :: t < |s.threads| && s.threads[t].None? ==> r.threads[t].None?)
    && forall t: nat :: IsThread(s, t) ==>
         && r.threads[t].Some?
         && r.threads[t].value.home == s.threads[t].value.home
         && r.threads[t].value.state == s.threads[t].value.state
         && r.threads[t].value.saved == s.threads[t].value.saved
         && (s.threads[t].value.home != c ==> r.threads[t] == s.threads[t])
  }

  /** CPU `c` moves between quiet phases; nothing else that places a thread changes. */
  lemma QuietStep(s: State, r: State, c: nat)
    requires Inv(s) && Shape(r) && c < |s.cpus| == |r.cpus| && SamePlacing(s, r, c)
    requires r.cpus == s.cpus[c := r.cpus[c]]
    requires r.cpus[c] == s.cpus[c].(phase := r.cpus[c].phase, pendingUnlock := r.cpus[c].pendingUnlock)
    requires Quiet(s.cpus[c].phase) && Quiet(r.cpus[c].phase) && PhaseOk(r, c)
    requires r.cpus[c].pendingUnlock.None?
    ensures Cpus(r) && Places(r) && Hands(r) && Contexts(r)
  {
    assert CpuOk(s, c);
    HandsFrame(s, r);
    forall d: nat | d < |r.cpus| ensures CpuOk(r, d) { assert CpuOk(s, d); }
    forall t: nat | IsThread(r, t) ensures PlaceOk(r, t) && ContextOk(r, t) {
      assert IsThread(s, t) && PlaceOk(s, t) && ContextOk(s, t);
    }
  }

  lemma AcquireKeeps(s: State, c: nat, p: Phase, addr: nat)
    requires Inv(s) && c < |s.cpus| && (s.cpus[c].phase == Kernel || s.cpus[c].phase.RescueSnap?)
    requires !s.locks[Bucket(addr)]
    requires p.WakeLocked? || p.WaitLocked? || (p.RescueLocked? && p.tid < MAX_THREADS)
    requires p.addr == addr
    ensures Inv(SetLock(SetPhase(s, c, p), Bucket(addr), true))
  {
    var r := SetLock(SetPhase(s, c, p), Bucket(addr), true);
    assert CpuOk(s, c);
    QuietStep(s, r, c);
    LocksAcquire(s, r, c, Bucket(addr));
  }

  lemma RescueTakeKeeps(s: State, c: nat, t: nat)
    requires Inv(s) && Enabled(s, RescueTake(c, t))
    ensures Inv(ApplyRescueTake(s, c, t))
  {
    var r := ApplyRescueTake(s, c, t);
    assert CpuOk(s, c);
    QuietStep(s, r, c);
    LocksFrame(s, r);
  }

  lemma ReleaseKeeps(s: State, c: nat)
    requires Inv(s) && Enabled(s, Release(c))
    ensures Inv(ApplyRelease(s, c))
    ensures s.cpus[c].pendingUnlock.Some? ==> s.locks[s.cpus[c].pendingUnlock.value]
  {
    var r := ApplyRelease(s, c);
    assert CpuOk(s, c);
    QuietStep(s, r, c);
    if s.cpus[c].pendingUnlock.Some? {
      LocksRelease(s, r, c, s.cpus[c].pendingUnlock.value);
    } else {
      LocksFrame(s, r);
    }
  }

  lemma WaitReturnKeeps(s: State, c: nat)
    requires Inv(s) && Enabled(s, WaitReturn(c))
    ensures Inv(ApplyWaitReturn(s, c))
  {
    var r := ApplyWaitReturn(s, c);
    assert CpuOk(s, c);
    CurrentPlace(s, c, s.cpus[c].current.value);
    QuietStep(s, r, c);
    LocksFrame(s, r);
  }

  lemma TickKeeps(s: State, words: seq<nat>, now: nat)
    requires Inv(s) && Enabled(s, Tick(words, now))
    ensures Inv(s.(rescue := Ticked(s, words, now)))
  {
    var r := s.(rescue := Ticked(s, words, now));
    assert CpuOk(s, 0);
    LocksFrame(s, r);
    HandsFrame(s, r);
    forall d: nat | d < |r.cpus| ensures CpuOk(r, d) { assert CpuOk(s, d); }
    forall t: nat | IsThread(r, t) ensures PlaceOk(r, t) && ContextOk(r, t) {
      assert PlaceOk(s, t) && ContextOk(s, t);
    }
  }

  // futex_wait

  lemma ConsumeTable(slots: seq<nat>, addr: nat, b: nat)
    requires TableOk(slots, b)
    ensures TableOk(PendingConsume(slots, addr), b)
  {
  }

  lemma InsertTable(slots: seq<nat>, addr: nat)
    requires TableOk(slots, Bucket(addr))
    ensures TableOk(PendingInsert(slots, addr), Bucket(addr))
  {
  }

  /** futex_wait drops the lock and returns without blocking. */
  lemma WaitDoneKeeps(s: State, r: State, c: nat)
    requires Inv(s) && c < |s.cpus| && s.cpus[c].phase.WaitLocked?
    requires r == SetLock(SetPhase(s, c, Kernel), Bucket(s.cpus[c].phase.addr), false).(pending := r.pending)
    requires Shape(r) && Tables(r)
    ensures Inv(r)
  {
    assert CpuOk(s, c);
    QuietStep(s, r, c);
    LocksRelease(s, r, c, Bucket(s.cpus[c].phase.addr));
  }

  lemma MarkCpus(s: State, c: nat, word: nat, blocking: bool, now: nat)
    requires Shape(s) && Cpus(s) && Waits(s) && Enabled(s, WaitCheck(c, word, blocking, now))
    requires WaitDecision(s, c, word, blocking) == Blocks
    ensures var r := ApplyWaitCheck(s, c, word, blocking, now); Shape(r) && Cpus(r) && Waits(r)
  {
    var r := ApplyWaitCheck(s, c, word, blocking, now);
    assert CpuOk(s, c);
    forall d: nat | d < |r.cpus| ensures CpuOk(r, d) { assert CpuOk(s, d); }
  }

  lemma MarkPlaces(s: State, c: nat, word: nat, blocking: bool, now: nat)
    requires Inv(s) && Enabled(s, WaitCheck(c, word, blocking, now))
    requires WaitDecision(s, c, word, blocking) == Blocks
    ensures var r := ApplyWaitCheck(s, c, word, blocking, now); Shape(r) && Places(r) && Contexts(r) && Hands(r)
  {
    var r := ApplyWaitCheck(s, c, word, blocking, now);
    assert CpuOk(s, c);
    HandsFrame(s, r);
    CurrentPlace(s, c, s.cpus[c].current.value);
    forall t: nat | IsThread(r, t) ensures PlaceOk(r, t) && ContextOk(r, t) {
      assert PlaceOk(s, t) && ContextOk(s, t);
    }
  }

  lemma WaitCheckKeeps(s: State, c: nat, word: nat, blocking: bool, now: nat)
    requires Inv(s) && Enabled(s, WaitCheck(c, word, blocking, now))
    ensures Inv(ApplyWaitCheck(s, c, word, blocking, now))
  {
    var r := ApplyWaitCheck(s, c, word, blocking, now);
    var p := s.cpus[c].phase;
    if WaitDecision(s, c, word, blocking) == Blocks {
      MarkCpus(s, c, word, blocking, now);
      MarkPlaces(s, c, word, blocking, now);
      LocksFrame(s, r);
    } else {
      ConsumeTable(s.pending[Bucket(p.addr)], p.addr, Bucket(p.addr));
      WaitDoneKeeps(s, r, c);
    }
  }

  lemma PickCpus(s: State, c: nat)
    requires Shape(s) && Cpus(s) && Enabled(s, WaitPick(c))
    ensures var r := Apply(s, WaitPick(c)); Shape(r) && Cpus(r)
  {
    var r := Apply(s, WaitPick(c));
    assert CpuOk(s, c);
    OtherCpus(s, r, c);
  }

  lemma PickPlaces(s: State, c: nat)
    requires Inv(s) && Enabled(s, WaitPick(c))
    ensures var r := Apply(s, WaitPick(c)); Shape(r) && Places(r) && Contexts(r) && Hands(r)
  {
    var r := Apply(s, WaitPick(c));
    var cpu := s.cpus[c];
    assert CpuOk(s, c);
    HandsFrame(s, r);
    if cpu.queue != [] { QueuePlace(s, c, cpu.queue[0]); }
    forall t: nat | IsThread(r, t) ensures PlaceOk(r, t) && ContextOk(r, t) {
      assert PlaceOk(s, t) && ContextOk(s, t);
      if cpu.queue != [] && s.threads[t].value.home == c {
        assert t in cpu.queue <==> t == cpu.queue[0] || t in cpu.queue[1..];
      }
    }
  }

  lemma WaitPickKeeps(s: State, c: nat)
    requires Inv(s) && Enabled(s, WaitPick(c))
    ensures Inv(Apply(s, WaitPick(c)))
  {
    PickCpus(s, c);
    PickPlaces(s, c);
    LocksFrame(s, Apply(s, WaitPick(c)));
  }

  // Context switches

  lemma SwitchCpus(s: State, c: nat)
    requires Shape(s) && Cpus(s) && Waits(s) && Enabled(s, Switch(c))
    ensures var r := ApplySwitch(s, c); Shape(r) && Cpus(r) && Waits(r) && OnlyAt(s, r, c)
  {
    var r := ApplySwitch(s, c);
    assert CpuOk(s, c);
    assert OnlyAt(s, r, c);
    OtherCpus(s, r, c);
  }

  lemma SwitchPlaces(s: State, c: nat)
    requires Inv(s) && Enabled(s, Switch(c))
    ensures var r := ApplySwitch(s, c); Shape(r) && Places(r) && Contexts(r) && Hands(r)
  {
    var r := ApplySwitch(s, c);
    SwitchCpus(s, c);
    assert CpuOk(s, c);
    HandsFrame(s, r);
    forall t: nat | Lives(r, c, t) ensures PlaceOk(r, t) && ContextOk(r, t) {
      assert PlaceOk(s, t) && ContextOk(s, t);
    }
    OtherPlaces(s, r, c);
  }

  lemma SwitchKeeps(s: State, c: nat)
    requires Inv(s) && Enabled(s, Switch(c))
    ensures Inv(ApplySwitch(s, c))
  {
    assert CpuOk(s, c);
    SwitchCpus(s, c);
    SwitchPlaces(s, c);
    LocksFrame(s, ApplySwitch(s, c));
  }

  lemma ExitKeeps(s: State, c: nat)
    requires Inv(s) && Enabled(s, Exit(c))
    ensures Inv(ApplyExit(s, c))
  {
    var r := ApplyExit(s, c);
    assert CpuOk(s, c);
    CurrentPlace(s, c, s.cpus[c].current.value);
    HandsFrame(s, r);
    LocksFrame(s, r);
    OtherCpus(s, r, c);
    forall t: nat | Lives(r, c, t) ensures PlaceOk(r, t) && ContextOk(r, t) {
      assert PlaceOk(s, t) && ContextOk(s, t);
    }
    OtherPlaces(s, r, c);
  }

  // The idle loop

  lemma IdlePopKeeps(s: State, c: nat)
    requires Inv(s) && Enabled(s, IdlePop(c))
    ensures Inv(Apply(s, IdlePop(c)))
  {
    var r := Apply(s, IdlePop(c));
    var q := s.cpus[c].queue;
    assert CpuOk(s, c);
    QueuePlace(s, c, q[0]);
    LocksFrame(s, r);
    assert HandAt(r, c, q[0]);
    forall d: nat, t: nat ensures HandAt(r, d, t) <==> HandAt(s, d, t) || (d == c && t == q[0]) {}
    OtherCpus(s, r, c);
    forall t: nat ensures t != q[0] ==> (InHand(r, t) <==> InHand(s, t)) {}
    forall t: nat | Lives(r, c, t) ensures PlaceOk(r, t) && ContextOk(r, t) {
      assert PlaceOk(s, t) && ContextOk(s, t);
      assert t in q <==> t == q[0] || t in q[1..];
    }
    OtherPlaces(s, r, c);
  }

  lemma IdleRunKeeps(s: State, c: nat)
    requires Inv(s) && Enabled(s, IdleRun(c))
    ensures Inv(Apply(s, IdleRun(c)))
  {
    var r := Apply(s, IdleRun(c));
    var x := s.cpus[c].phase.tid;
    assert CpuOk(s, c) && HandAt(s, c, x) && PlaceOk(s, x);
    LocksFrame(s, r);
    forall d: nat, t: nat ensures HandAt(r, d, t) <==> HandAt(s, d, t) && d != c {}
    OtherCpus(s, r, c);
    forall t: nat ensures t != x ==> (InHand(r, t) <==> InHand(s, t)) {}
    forall t: nat | Lives(r, c, t) ensures PlaceOk(r, t) && ContextOk(r, t) {
      assert PlaceOk(s, t) && ContextOk(s, t);
    }
    OtherPlaces(s, r, c);
  }

  // Thread creation

  lemma SpawnCpus(s: State, c: nat, target: nat)
    requires Shape(s) && Cpus(s) && Enabled(s, SpawnAlloc(c, target)) && s.nextTid < MAX_THREADS
    ensures var r := ApplySpawnAlloc(s, c, target); Shape(r) && Cpus(r)
    ensures forall d: nat :: !HandAt(s, d, s.nextTid)
    ensures s.nextTid !in s.cpus[target].queue && s.cpus[target].current != Some(s.nextTid)
  {
    var r := ApplySpawnAlloc(s, c, target);
    assert CpuOk(s, target);
    forall d: nat ensures !HandAt(s, d, s.nextTid) {
      if d < |s.cpus| { assert CpuOk(s, d); }
    }
    forall d: nat | d < |r.cpus| ensures CpuOk(r, d) { assert CpuOk(s, d); }
  }

  lemma SpawnPlaces(s: State, c: nat, target: nat)
    requires Inv(s) && Enabled(s, SpawnAlloc(c, target)) && s.nextTid < MAX_THREADS
    ensures var r := ApplySpawnAlloc(s, c, target); Shape(r) && Places(r) && Contexts(r) && Hands(r)
  {
    var r := ApplySpawnAlloc(s, c, target);
    var x := s.nextTid;
    SpawnCpus(s, c, target);
    assert CpuOk(s, target);
    assert HandAt(r, c, x);
    forall d: nat, t: nat ensures HandAt(r, d, t) <==> HandAt(s, d, t) || (d == c && t == x) {}
    forall t: nat | IsThread(r, t) ensures PlaceOk(r, t) && ContextOk(r, t) {
      if t != x {
        assert PlaceOk(s, t) && ContextOk(s, t);
        assert InHand(r, t) <==> InHand(s, t);
      }
    }
  }

  lemma SpawnAllocKeeps(s: State, c: nat, target: nat)
    requires Inv(s) && Enabled(s, SpawnAlloc(c, target))
    ensures Inv(ApplySpawnAlloc(s, c, target))
  {
    var r := ApplySpawnAlloc(s, c, target);
    assert CpuOk(s, c);
    LocksFrame(s, r);
    if s.nextTid < MAX_THREADS {
      SpawnCpus(s, c, target);
      SpawnPlaces(s, c, target);
    } else {
      QuietStep(s, r, c);
    }
  }

  lemma SpawnPushCpus(s: State, c: nat)
    requires Inv(s) && Enabled(s, SpawnPush(c))
    ensures var r := ApplySpawnPush(s, c); Shape(r) && Cpus(r)
  {
    var x := s.cpus[c].phase.tid;
    var m := SetPhase(s, c, Kernel);
    assert CpuOk(s, c) && HandAt(s, c, x) && PlaceOk(s, x);
    OtherCpus(s, m, c);
    PushCpus(m, s.threads[x].value.home, x);
  }

  lemma SpawnPushPlaces(s: State, c: nat)
    requires Inv(s) && Enabled(s, SpawnPush(c))
    ensures var r := ApplySpawnPush(s, c); Shape(r) && Places(r) && Contexts(r) && Hands(r)
  {
    var r := ApplySpawnPush(s, c);
    var x := s.cpus[c].phase.tid;
    assert CpuOk(s, c) && HandAt(s, c, x) && PlaceOk(s, x);
    forall d: nat, t: nat ensures HandAt(r, d, t) <==> HandAt(s, d, t) && d != c {}
    forall t: nat | IsThread(r, t) ensures PlaceOk(r, t) && ContextOk(r, t) {
      assert PlaceOk(s, t) && ContextOk(s, t);
      assert t != x ==> (InHand(r, t) <==> InHand(s, t));
    }
  }

  lemma SpawnPushKeeps(s: State, c: nat)
    requires Inv(s) && Enabled(s, SpawnPush(c))
    ensures Inv(ApplySpawnPush(s, c))
  {
    assert CpuOk(s, c);
    SpawnPushCpus(s, c);
    SpawnPushPlaces(s, c);
    LocksFrame(s, ApplySpawnPush(s, c));
  }

  // futex_wake and process_rescues

  /** `r` is `s` with the sleeper `x` made Ready and pushed to its home queue. */
  ghost predicate Readied(s: State, r: State, x: nat) {
    && Shape(s) && Shape(r) && IsThread(s, x) && s.threads[x].value.state == Blocked
    && r.threads[x].Some? && r.threads == s.threads[x := r.threads[x]]
    && r.threads[x].value.state == Ready
    && r.threads[x].value.futexAddr == 0 && r.threads[x].value.blockedSince == 0
    && r.threads[x].value.inWait == s.threads[x].value.inWait
    && r.threads[x].value.home == s.threads[x].value.home
    && r.threads[x].value.saved == s.threads[x].value.saved
    && r.cpus == PushQueue(s, s.threads[x].value.home, x).cpus
    && r.locks == s.locks && r.pending == s.pending
  }

  lemma ReadiedPlaces(s: State, r: State, x: nat)
    requires Inv(s) && Readied(s, r, x)
    ensures Places(r) && Contexts(r) && Hands(r)
  {
    HandsFrame(s, r);
    assert PlaceOk(s, x);
    forall t: nat | IsThread(r, t) ensures PlaceOk(r, t) && ContextOk(r, t) {
      assert PlaceOk(s, t) && ContextOk(s, t);
    }
  }

  lemma ReadiedCpus(s: State, r: State, x: nat)
    requires Inv(s) && Readied(s, r, x)
    ensures Cpus(r)
  {
    var h := s.threads[x].value.home;
    var q := s.cpus[h].queue;
    assert PlaceOk(s, x) && CpuOk(s, h);
    assert OnlyAt(s, r, h);
    assert CpuOk(r, h) by {
      assert forall k :: 0 <= k < |q| ==> r.cpus[h].queue[k] == q[k] && Lives(s, h, q[k]);
      assert NoDup(r.cpus[h].queue);
      assert PhaseOk(r, h);
    }
    OtherCpus(s, r, h);
  }

  lemma ReadiedKeeps(s: State, r: State, x: nat)
    requires Inv(s) && Readied(s, r, x)
    ensures Inv(r)
  {
    ReadiedCpus(s, r, x);
    ReadiedPlaces(s, r, x);
    LocksFrame(s, r);
  }

  lemma {:induction false} ReadyAllKeeps(s: State, l: seq<nat>)
    requires Inv(s) && AllReadyable(s, l) && NoDup(l)
    requires forall k :: 0 <= k < |l| ==> s.threads[l[k]].value.state == Blocked
    ensures Inv(ReadyAll(s, l))
    decreases |l|
  {
    if l != [] {
      var m := ReadyOne(s, l[0]);
      ReadiedKeeps(s, m, l[0]);
      forall k | 0 <= k < |l[1..]|
        ensures IsThread(m, l[1..][k]) && m.threads[l[1..][k]].value.home < |m.cpus|
        ensures m.threads[l[1..][k]].value.state == Blocked
      {
        assert l[1..][k] == l[k + 1];
      }
      ReadyAllKeeps(m, l[1..]);
    }
  }

  /** A critical section that owns bucket `b` ends: the lock is dropped, the CPU is back in the kernel. */
  lemma UnlockKeeps(s: State, c: nat, b: nat)
    requires Inv(s) && c < |s.cpus| && Quiet(s.cpus[c].phase) && s.cpus[c].phase != Resuming
    requires b < FUTEX_BUCKETS && Owns(s.cpus[c]) == Some(b)
    ensures Inv(SetLock(SetPhase(s, c, Kernel), b, false)) && s.locks[b]
  {
    var r := SetLock(SetPhase(s, c, Kernel), b, false);
    assert CpuOk(s, c);
    QuietStep(s, r, c);
    LocksRelease(s, r, c, b);
  }

  lemma PendingKeeps(s: State, addr: nat)
    requires Inv(s)
    ensures Inv(s.(pending := s.pending[Bucket(addr) := PendingInsert(s.pending[Bucket(addr)], addr)]))
  {
    var r := s.(pending := s.pending[Bucket(addr) := PendingInsert(s.pending[Bucket(addr)], addr)]);
    InsertTable(s.pending[Bucket(addr)], addr);
    assert CpuOk(s, 0);
    OtherCpus(s, r, 0);
    HandsFrame(s, r);
    LocksFrame(s, r);
    forall t: nat | IsThread(r, t) ensures PlaceOk(r, t) && ContextOk(r, t) {
      assert PlaceOk(s, t) && ContextOk(s, t);
    }
  }

  lemma WakeKeeps(s: State, addr: nat, count: nat)
    requires Inv(s)
    ensures Inv(Wake(s, addr, count)) && |Wake(s, addr, count).cpus| == |s.cpus|
    ensures forall d: nat :: d < |s.cpus| ==>
              Wake(s, addr, count).cpus[d] == s.cpus[d].(queue := Wake(s, addr, count).cpus[d].queue)
  {
    var l := Chosen(s, addr, count);
    if l == [] {
      PendingKeeps(s, addr);
    } else {
      WaitersInOrder(s.threads, addr, 0);
      assert forall k :: 0 <= k < |l| ==> l[k] == Waiters(s.threads, addr, 0)[k];
      ReadyAllKeeps(s, l);
      ReadyAllFrame(s, l);
    }
  }

  lemma WakeRunKeeps(s: State, c: nat)
    requires Inv(s) && Enabled(s, WakeRun(c))
    ensures Inv(Apply(s, WakeRun(c)))
  {
    var p := s.cpus[c].phase;
    WakeKeeps(s, p.addr, p.count);
    UnlockKeeps(Wake(s, p.addr, p.count), c, Bucket(p.addr));
  }

  lemma RescueKeeps(s: State, t: nat, now: nat)
    requires Inv(s) && t < MAX_THREADS
    ensures Inv(Rescue(s, t, now)) && |Rescue(s, t, now).cpus| == |s.cpus|
    ensures forall d: nat :: d < |s.cpus| ==> Rescue(s, t, now).cpus[d] == s.cpus[d].(queue := Rescue(s, t, now).cpus[d].queue)
  {
    if IsThread(s, t) && s.threads[t].value.state == Blocked {
      assert PlaceOk(s, t);
      ReadiedKeeps(s, Rescue(s, t, now), t);
    }
  }

  lemma RescueRunKeeps(s: State, c: nat, now: nat)
    requires Inv(s) && Enabled(s, RescueRun(c, now))
    ensures Inv(Apply(s, RescueRun(c, now)))
  {
    var p := s.cpus[c].phase;
    var m := Rescue(s, p.tid, now);
    RescueKeeps(s, p.tid, now);
    UnlockKeeps(m, c, Bucket(p.addr));
  }

  lemma StepKeeps(s: State, step: Step)
    requires Inv(s) && Enabled(s, step)
    ensures Inv(Apply(s, step))
  {
    match step
    case SpawnAlloc(c, target) => SpawnAllocKeeps(s, c, target);
    case SpawnPush(c) => SpawnPushKeeps(s, c);
    case YieldPick(c) => YieldKeeps(s, c);
    case Switch(c) => SwitchKeeps(s, c);
    case Release(c) => ReleaseKeeps(s, c);
    case WaitReturn(c) => WaitReturnKeeps(s, c);
    case WaitLock(c, addr, val, deadline) => AcquireKeeps(s, c, WaitLocked(addr, val, deadline), addr);
    case WaitCheck(c, word, blocking, now) => WaitCheckKeeps(s, c, word, blocking, now);
    case WaitPick(c) => WaitPickKeeps(s, c);
    case WakeLock(c, addr, count) => AcquireKeeps(s, c, WakeLocked(addr, count), addr);
    case WakeRun(c) => WakeRunKeeps(s, c);
    case Tick(words, now) => TickKeeps(s, words, now);
    case RescueTake(c, t) => RescueTakeKeeps(s, c, t);
    case RescueLock(c) =>
      assert CpuOk(s, c);
      AcquireKeeps(s, c, RescueLocked(s.cpus[c].phase.tid, s.cpus[c].phase.addr), s.cpus[c].phase.addr);
    case RescueRun(c, now) => RescueRunKeeps(s, c, now);
    case Exit(c) => ExitKeeps(s, c);
    case IdlePop(c) => IdlePopKeeps(s, c);
    case IdleRun(c) => IdleRunKeeps(s, c);
  }
}
