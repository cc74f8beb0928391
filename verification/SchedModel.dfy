/**
 The SMP scheduler and futex protocol of src/sched.rs as a state machine.

 Every CPU carries a phase, the place in the kernel code it has reached. A step of the machine
 is one critical section (or one hand-over between two of them) executed by one CPU, or a timer
 tick that may fall between any two. A thread that has been marked Blocked but has not been
 switched out yet is visible as the phase `WaitMarked`; a queue operation that has been done but
 whose context switch has not is visible as `Switching`; a switched-to context that has not run
 `release_pending_unlock` yet is visible as `Resuming`.
 */
module SchedModel {
  import opened Wrappers

  const MAX_THREADS: nat := 32
  const MAX_CPUS: nat := 16
  const FUTEX_BUCKETS: nat := 16
  const PENDING_WAKES_PER_BUCKET: nat := 8
  const BLOCKED_RESCUE_NS: nat := 5_000_000_000
  const ETIMEDOUT: int := -110

  datatype RunState = Ready | Running | Blocked | Dead

  /** The thread control block. `inWait` says that the thread's saved resume point lies inside
      futex_wait; `saved` says that its register context has been written to its control block. */
  datatype Thread = Thread(
    state: RunState,
    futexAddr: nat,
    futexVal: nat,
    home: nat,
    deadline: nat,
    timedOut: bool,
    blockedSince: nat,
    inWait: bool,
    saved: bool)

  datatype Phase =
    | Kernel                                                // no bucket lock held
    | WaitLocked(addr: nat, val: nat, deadline: nat)        // futex_wait, bucket lock taken
    | WaitMarked(addr: nat, tid: nat)                       // current thread marked Blocked
    | Switching(from: Option<nat>, to: Option<nat>, handoff: Option<nat>)
    | Resuming                                              // switched, release_pending_unlock not yet run
    | Returning                                             // resumed inside futex_wait
    | WakeLocked(addr: nat, count: nat)                     // futex_wake, bucket lock taken
    | RescueSnap(tid: nat, addr: nat)                       // address read without locks
    | RescueLocked(tid: nat, addr: nat)                     // locks of that address taken
    | Spawning(tid: nat)                                    // thread created, not queued yet
    | IdleHand(tid: nat)                                    // popped by the idle loop, not current yet

  datatype Cpu = Cpu(
    current: Option<nat>,
    queue: seq<nat>,
    idle: bool,
    pendingUnlock: Option<nat>,
    phase: Phase)

  datatype State = State(
    threads: seq<Option<Thread>>,
    nextTid: nat,
    cpus: seq<Cpu>,
    locks: seq<bool>,
    pending: seq<seq<nat>>,
    rescue: seq<bool>)

  datatype Step =
    | SpawnAlloc(cpu: nat, target: nat)
    | SpawnPush(cpu: nat)
    | YieldPick(cpu: nat)
    | Switch(cpu: nat)
    | Release(cpu: nat)
    | WaitReturn(cpu: nat)
    | WaitLock(cpu: nat, addr: nat, val: nat, deadline: nat)
    | WaitCheck(cpu: nat, word: nat, blocking: bool, now: nat)
    | WaitPick(cpu: nat)
    | WakeLock(cpu: nat, addr: nat, count: nat)
    | WakeRun(cpu: nat)
    | Tick(words: seq<nat>, now: nat)
    | RescueTake(cpu: nat, tid: nat)
    | RescueLock(cpu: nat)
    | RescueRun(cpu: nat, now: nat)
    | Exit(cpu: nat)
    | IdlePop(cpu: nat)
    | IdleRun(cpu: nat)

  // ---------- Vocabulary ----------

  function Bucket(addr: nat): (b: nat)
    ensures b < FUTEX_BUCKETS
  {
    (addr / 4) % FUTEX_BUCKETS
  }

  predicate IsThread(s: State, t: nat) {
    t < |s.threads| && s.threads[t].Some?
  }

  /** `t` sleeps on `addr`: what the scan of futex_wake looks for. */
  predicate Waiter(threads: seq<Option<Thread>>, t: nat, addr: nat) {
    t < |threads| && threads[t].Some? && threads[t].value.state == Blocked && threads[t].value.futexAddr == addr
  }

  /** The sleepers on `addr`, in table order, from slot `i` on. */
  function Waiters(threads: seq<Option<Thread>>, addr: nat, i: nat): (l: seq<nat>)
    requires i <= |threads|
    ensures forall k :: 0 <= k < |l| ==> i <= l[k] && Waiter(threads, l[k], addr)
    decreases |threads| - i
  {
    if i == |threads| then []
    else if Waiter(threads, i, addr) then [i] + Waiters(threads, addr, i + 1)
    else Waiters(threads, addr, i + 1)
  }

  ghost predicate Increasing(l: seq<nat>) {
    forall j, k :: 0 <= j < k < |l| ==> l[j] < l[k]
  }

  lemma IncreasingCons(x: nat, l: seq<nat>)
    requires Increasing(l) && forall k :: 0 <= k < |l| ==> x < l[k]
    ensures Increasing([x] + l)
  {
    var m := [x] + l;
    forall j, k | 0 <= j < k < |m| ensures m[j] < m[k] {
      assert m[k] == l[k - 1];
      if j > 0 { assert m[j] == l[j - 1]; }
    }
  }

  /** They are listed in increasing order. */
  lemma {:induction false} WaitersInOrder(threads: seq<Option<Thread>>, addr: nat, i: nat)
    requires i <= |threads|
    ensures Increasing(Waiters(threads, addr, i))
    decreases |threads| - i
  {
    if i < |threads| {
      WaitersInOrder(threads, addr, i + 1);
      IncreasingCons(i, Waiters(threads, addr, i + 1));
    }
  }

  /** None is missing. */
  lemma {:induction false} WaitersComplete(threads: seq<Option<Thread>>, addr: nat, i: nat, t: nat)
    requires i <= t < |threads| && Waiter(threads, t, addr)
    ensures t in Waiters(threads, addr, i)
    decreases |threads| - i
  {
    if i < t { WaitersComplete(threads, addr, i + 1, t); }
  }

  function Take(l: seq<nat>, n: nat): (r: seq<nat>)
    ensures r <= l && |r| == if n < |l| then n else |l|
  {
    if n < |l| then l[..n] else l
  }

  function IndexOf(slots: seq<nat>, x: nat): (k: nat)
    ensures k <= |slots|
    ensures k < |slots| ==> slots[k] == x
    ensures x !in slots[..k]
    ensures k == |slots| <==> x !in slots
  {
    if slots == [] then 0
    else if slots[0] == x then 0
    else
      var k := 1 + IndexOf(slots[1..], x);
      assert slots[..k] == [slots[0]] + slots[1..][..k - 1];
      k
  }

  /** pending_wake_insert: nothing if present, else the first empty slot, else dropped. */
  function PendingInsert(slots: seq<nat>, addr: nat): (r: seq<nat>)
    ensures |r| == |slots|
  {
    if addr in slots then slots
    else if 0 in slots then slots[IndexOf(slots, 0) := addr]
    else slots
  }

  /** The table after pending_wake_consume: the first slot holding `addr` is emptied. */
  function PendingConsume(slots: seq<nat>, addr: nat): (r: seq<nat>)
    ensures |r| == |slots|
  {
    if addr in slots then slots[IndexOf(slots, addr) := 0] else slots
  }

  // ---------- Building blocks of the steps ----------

  function SetPhase(s: State, c: nat, p: Phase): (r: State)
    requires c < |s.cpus|
  {
    s.(cpus := s.cpus[c := s.cpus[c].(phase := p)])
  }

  function PushQueue(s: State, c: nat, t: nat): (r: State)
    requires c < |s.cpus|
  {
    s.(cpus := s.cpus[c := s.cpus[c].(queue := s.cpus[c].queue + [t])])
  }

  function SetThread(s: State, t: nat, th: Thread): (r: State)
    requires t < |s.threads|
  {
    s.(threads := s.threads[t := Some(th)])
  }

  function SetLock(s: State, b: nat, held: bool): (r: State)
    requires b < |s.locks|
  {
    s.(locks := s.locks[b := held])
  }

  /** The wake path of futex_wake for one sleeper: Ready, address cleared, pushed to its home queue. */
  function ReadyOne(s: State, t: nat): (r: State)
    requires IsThread(s, t) && s.threads[t].value.home < |s.cpus|
  {
    var th := s.threads[t].value;
    PushQueue(SetThread(s, t, th.(state := Ready, futexAddr := 0, blockedSince := 0)), th.home, t)
  }

  ghost predicate AllReadyable(s: State, l: seq<nat>) {
    forall k :: 0 <= k < |l| ==> IsThread(s, l[k]) && s.threads[l[k]].value.home < |s.cpus|
  }

  function ReadyAll(s: State, l: seq<nat>): (r: State)
    requires AllReadyable(s, l)
    ensures |r.cpus| == |s.cpus| && |r.threads| == |s.threads| && r.locks == s.locks
    decreases |l|
  {
    if l == [] then s
    else
      assert forall k :: 0 <= k < |l[1..]| ==> l[1..][k] == l[k + 1];
      ReadyAll(ReadyOne(s, l[0]), l[1..])
  }

  /** `r` differs from `s` only in the threads and in what has been appended to the run queues. */
  ghost predicate OnlyReadied(s: State, r: State) {
    && r == s.(threads := r.threads, cpus := r.cpus)
    && |r.threads| == |s.threads| && |r.cpus| == |s.cpus|
    && (forall t :: 0 <= t < |s.threads| ==> (s.threads[t].Some? <==> r.threads[t].Some?))
    && (forall t :: 0 <= t < |s.threads| && s.threads[t].Some? ==> r.threads[t].value.home == s.threads[t].value.home)
    && (forall c :: 0 <= c < |s.cpus| ==> r.cpus[c] == s.cpus[c].(queue := r.cpus[c].queue))
    && (forall c :: 0 <= c < |s.cpus| ==> s.cpus[c].queue <= r.cpus[c].queue)
  }

  lemma {:induction false} ReadyAllFrame(s: State, l: seq<nat>)
    requires AllReadyable(s, l)
    ensures OnlyReadied(s, ReadyAll(s, l))
    decreases |l|
  {
    if l != [] {
      assert forall k :: 0 <= k < |l[1..]| ==> l[1..][k] == l[k + 1];
      ReadyAllFrame(ReadyOne(s, l[0]), l[1..]);
    }
  }

  /** Sleepers that futex_wake(addr, count) chooses: the first `count` in table order. */
  function Chosen(s: State, addr: nat, count: nat): (l: seq<nat>) {
    Take(Waiters(s.threads, addr, 0), count)
  }

  ghost predicate Homes(s: State) {
    forall t: nat :: IsThread(s, t) ==> s.threads[t].value.home < |s.cpus|
  }

  ghost predicate Shape(s: State) {
    && |s.threads| == MAX_THREADS && |s.rescue| == MAX_THREADS
    && 1 <= |s.cpus| <= MAX_CPUS
    && |s.locks| == FUTEX_BUCKETS && |s.pending| == FUTEX_BUCKETS
    && (forall b :: 0 <= b < FUTEX_BUCKETS ==> |s.pending[b]| == PENDING_WAKES_PER_BUCKET)
    && Homes(s)
    && (forall t :: s.nextTid <= t < |s.threads| ==> s.threads[t].None?)
  }

  /** futex_wake under its locks: wake the chosen sleepers, or leave a pending wake if none was woken. */
  function Wake(s: State, addr: nat, count: nat): (r: State)
    requires Shape(s)
  {
    var l := Chosen(s, addr, count);
    if l == [] then s.(pending := s.pending[Bucket(addr) := PendingInsert(s.pending[Bucket(addr)], addr)])
    else ReadyAll(s, l)
  }

  /** The three rescue conditions of watchdog_wake. */
  predicate Overdue(th: Thread, word: nat, now: nat) {
    && th.state == Blocked
    && th.futexAddr != 0
    && (|| word != th.futexVal
        || (th.deadline != 0 && now >= th.deadline)
        || (th.deadline == 0 && th.blockedSince != 0 && now >= th.blockedSince + BLOCKED_RESCUE_NS))
  }

  function Ticked(s: State, words: seq<nat>, now: nat): (r: seq<bool>)
    requires Shape(s) && |words| == MAX_THREADS
  {
    seq(MAX_THREADS, i requires 0 <= i < MAX_THREADS =>
      s.rescue[i] || (s.threads[i].Some? && Overdue(s.threads[i].value, words[i], now)))
  }

  predicate Expired(th: Thread, now: nat) {
    th.deadline != 0 && now >= th.deadline
  }

  /** The transition of process_rescues for one thread under its locks. */
  function Rescue(s: State, t: nat, now: nat): (r: State)
    requires Shape(s) && t < |s.threads|
  {
    if s.threads[t].None? || s.threads[t].value.state != Blocked then s
    else
      var th := s.threads[t].value;
      var s1 := SetThread(s, t, th.(state := Ready, futexAddr := 0, blockedSince := 0,
                                    timedOut := th.timedOut || Expired(th, now), deadline := 0));
      if t in s1.cpus[th.home].queue then s1 else PushQueue(s1, th.home, t)
  }

  datatype WaitOutcome = ConsumedWake | ValueChanged | SpinYield | NoThread | Blocks

  function WaitDecision(s: State, c: nat, word: nat, blocking: bool): (o: WaitOutcome)
    requires Shape(s) && c < |s.cpus| && s.cpus[c].phase.WaitLocked?
  {
    var p := s.cpus[c].phase;
    if p.addr in s.pending[Bucket(p.addr)] then ConsumedWake
    else if word != p.val then ValueChanged
    else if !blocking then SpinYield
    else if s.cpus[c].current.None? then NoThread
    else Blocks
  }

  function MarkBlocked(th: Thread, addr: nat, val: nat, deadline: nat, now: nat): Thread {
    th.(state := Blocked, futexAddr := addr, futexVal := val, deadline := deadline,
        timedOut := false, blockedSince := now, inWait := true)
  }

  /** Put the incoming queue head (or the idle loop) on CPU `c` in place of thread `from`. */
  function PickNext(s: State, c: nat, from: nat, b: nat): (r: State)
    requires c < |s.cpus|
  {
    var cpu := s.cpus[c];
    if cpu.queue == [] then
      s.(cpus := s.cpus[c := cpu.(current := None, idle := true, phase := Switching(Some(from), None, Some(b)))])
    else
      s.(cpus := s.cpus[c := cpu.(current := Some(cpu.queue[0]), queue := cpu.queue[1..],
                                  phase := Switching(Some(from), Some(cpu.queue[0]), Some(b)))])
  }

  function SaveCtx(s: State, t: Option<nat>, saved: bool): (r: State) {
    if t.Some? && IsThread(s, t.value) then SetThread(s, t.value, s.threads[t.value].value.(saved := saved)) else s
  }

  function ResumePhase(s: State, c: nat): (p: Phase)
    requires c < |s.cpus|
  {
    if s.cpus[c].current.Some? && IsThread(s, s.cpus[c].current.value)
       && s.threads[s.cpus[c].current.value].value.inWait
    then Returning else Kernel
  }

  // ---------- The steps ----------

  ghost predicate Enabled(s: State, step: Step) {
    Shape(s) &&
    match step
    case Tick(words, now) => |words| == MAX_THREADS
    case SpawnAlloc(c, target) => c < |s.cpus| && target < |s.cpus| && s.cpus[c].phase == Kernel
    case SpawnPush(c) => c < |s.cpus| && s.cpus[c].phase.Spawning? && IsThread(s, s.cpus[c].phase.tid)
    case YieldPick(c) => c < |s.cpus| && s.cpus[c].phase == Kernel && s.cpus[c].queue != []
    case Switch(c) => c < |s.cpus| && s.cpus[c].phase.Switching?
    case Release(c) => c < |s.cpus| && s.cpus[c].phase == Resuming
                       && (s.cpus[c].pendingUnlock.Some? ==> s.cpus[c].pendingUnlock.value < FUTEX_BUCKETS)
    case WaitReturn(c) => c < |s.cpus| && s.cpus[c].phase == Returning
                          && s.cpus[c].current.Some? && IsThread(s, s.cpus[c].current.value)
    case WaitLock(c, addr, val, deadline) => c < |s.cpus| && s.cpus[c].phase == Kernel && !s.locks[Bucket(addr)]
    case WaitCheck(c, word, blocking, now) =>
      c < |s.cpus| && s.cpus[c].phase.WaitLocked?
      && (s.cpus[c].current.Some? ==> IsThread(s, s.cpus[c].current.value))
    case WaitPick(c) => c < |s.cpus| && s.cpus[c].phase.WaitMarked?
    case WakeLock(c, addr, count) => c < |s.cpus| && s.cpus[c].phase == Kernel && !s.locks[Bucket(addr)]
    case WakeRun(c) => c < |s.cpus| && s.cpus[c].phase.WakeLocked?
    case RescueTake(c, t) => c < |s.cpus| && s.cpus[c].phase == Kernel && t < MAX_THREADS && s.rescue[t]
    case RescueLock(c) => c < |s.cpus| && s.cpus[c].phase.RescueSnap? && !s.locks[Bucket(s.cpus[c].phase.addr)]
    case RescueRun(c, now) => c < |s.cpus| && s.cpus[c].phase.RescueLocked? && s.cpus[c].phase.tid < MAX_THREADS
    case Exit(c) => c < |s.cpus| && s.cpus[c].phase == Kernel && s.cpus[c].current.Some?
                    && IsThread(s, s.cpus[c].current.value)
    case IdlePop(c) => c < |s.cpus| && s.cpus[c].phase == Kernel && s.cpus[c].current.None? && s.cpus[c].queue != []
    case IdleRun(c) => c < |s.cpus| && s.cpus[c].phase.IdleHand?
  }

  function NewThread(home: nat): Thread {
    Thread(Ready, 0, 0, home, 0, false, 0, false, true)
  }

  function ApplySpawnAlloc(s: State, c: nat, target: nat): (r: State)
    requires Enabled(s, SpawnAlloc(c, target))
  {
    var tid := s.nextTid;
    var s1 := s.(nextTid := tid + 1);
    if tid >= MAX_THREADS then s1
    else SetPhase(SetThread(s1, tid, NewThread(target)), c, Spawning(tid))
  }

  function ApplySpawnPush(s: State, c: nat): (r: State)
    requires Enabled(s, SpawnPush(c))
  {
    var t := s.cpus[c].phase.tid;
    PushQueue(SetPhase(s, c, Kernel), s.threads[t].value.home, t)
  }

  function ApplyYieldPick(s: State, c: nat): (r: State)
    requires Enabled(s, YieldPick(c))
  {
    var cpu := s.cpus[c];
    var next := cpu.queue[0];
    match cpu.current
    case None =>
      s.(cpus := s.cpus[c := cpu.(current := Some(next), idle := false, queue := cpu.queue[1..],
                                  phase := Switching(None, Some(next), None))])
    case Some(cur) =>
      s.(cpus := s.cpus[c := cpu.(current := Some(next), queue := cpu.queue[1..] + [cur],
                                  phase := Switching(Some(cur), Some(next), None))])
  }

  function ApplySwitch(s: State, c: nat): (r: State)
    requires Enabled(s, Switch(c))
  {
    var p := s.cpus[c].phase;
    var s1 := SaveCtx(SaveCtx(s, p.from, true), p.to, false);
    s1.(cpus := s.cpus[c := s.cpus[c].(phase := Resuming,
                                       pendingUnlock := if p.handoff.Some? then p.handoff else s.cpus[c].pendingUnlock)])
  }

  function ApplyRelease(s: State, c: nat): (r: State)
    requires Enabled(s, Release(c))
  {
    var cpu := s.cpus[c];
    var s1 := if cpu.pendingUnlock.Some? then SetLock(s, cpu.pendingUnlock.value, false) else s;
    s1.(cpus := s.cpus[c := cpu.(pendingUnlock := None, phase := ResumePhase(s, c))])
  }

  function ApplyWaitReturn(s: State, c: nat): (r: State)
    requires Enabled(s, WaitReturn(c))
  {
    var t := s.cpus[c].current.value;
    SetPhase(SetThread(s, t, s.threads[t].value.(timedOut := false, deadline := 0, inWait := false)), c, Kernel)
  }

  /** What futex_wait returns at that point. */
  function WaitResult(s: State, c: nat): (r: int)
    requires Enabled(s, WaitReturn(c))
  {
    if s.threads[s.cpus[c].current.value].value.timedOut then ETIMEDOUT else 0
  }

  function ApplyWaitCheck(s: State, c: nat, word: nat, blocking: bool, now: nat): (r: State)
    requires Enabled(s, WaitCheck(c, word, blocking, now))
  {
    var p := s.cpus[c].phase;
    var b := Bucket(p.addr);
    var done := SetLock(SetPhase(s, c, Kernel), b, false);
    match WaitDecision(s, c, word, blocking)
    case ConsumedWake => done.(pending := s.pending[b := PendingConsume(s.pending[b], p.addr)])
    case ValueChanged => done
    case SpinYield => done
    case NoThread => done
    case Blocks =>
      var t := s.cpus[c].current.value;
      SetPhase(SetThread(s, t, MarkBlocked(s.threads[t].value, p.addr, p.val, p.deadline, now)), c,
               WaitMarked(p.addr, t))
  }

  function ApplyRescueTake(s: State, c: nat, t: nat): (r: State)
    requires Enabled(s, RescueTake(c, t))
  {
    var s1 := s.(rescue := s.rescue[t := false]);
    if s.threads[t].Some? && s.threads[t].value.state == Blocked && s.threads[t].value.futexAddr != 0
    then SetPhase(s1, c, RescueSnap(t, s.threads[t].value.futexAddr))
    else s1
  }

  function ApplyExit(s: State, c: nat): (r: State)
    requires Enabled(s, Exit(c))
  {
    var t := s.cpus[c].current.value;
    var s1 := SetThread(s, t, s.threads[t].value.(state := Dead));
    s1.(cpus := s.cpus[c := s.cpus[c].(current := None, idle := true, phase := Switching(Some(t), None, None))])
  }

  function Apply(s: State, step: Step): (r: State)
    requires Enabled(s, step)
  {
    match step
    case SpawnAlloc(c, target) => ApplySpawnAlloc(s, c, target)
    case SpawnPush(c) => ApplySpawnPush(s, c)
    case YieldPick(c) => ApplyYieldPick(s, c)
    case Switch(c) => ApplySwitch(s, c)
    case Release(c) => ApplyRelease(s, c)
    case WaitReturn(c) => ApplyWaitReturn(s, c)
    case WaitLock(c, addr, val, deadline) =>
      SetLock(SetPhase(s, c, WaitLocked(addr, val, deadline)), Bucket(addr), true)
    case WaitCheck(c, word, blocking, now) => ApplyWaitCheck(s, c, word, blocking, now)
    case WaitPick(c) => PickNext(s, c, s.cpus[c].phase.tid, Bucket(s.cpus[c].phase.addr))
    case WakeLock(c, addr, count) => SetLock(SetPhase(s, c, WakeLocked(addr, count)), Bucket(addr), true)
    case WakeRun(c) =>
      var p := s.cpus[c].phase;
      SetLock(SetPhase(Wake(s, p.addr, p.count), c, Kernel), Bucket(p.addr), false)
    case Tick(words, now) => s.(rescue := Ticked(s, words, now))
    case RescueTake(c, t) => ApplyRescueTake(s, c, t)
    case RescueLock(c) =>
      var p := s.cpus[c].phase;
      SetLock(SetPhase(s, c, RescueLocked(p.tid, p.addr)), Bucket(p.addr), true)
    case RescueRun(c, now) =>
      var p := s.cpus[c].phase;
      SetLock(SetPhase(Rescue(s, p.tid, now), c, Kernel), Bucket(p.addr), false)
    case Exit(c) => ApplyExit(s, c)
    case IdlePop(c) =>
      var cpu := s.cpus[c];
      s.(cpus := s.cpus[c := cpu.(queue := cpu.queue[1..], phase := IdleHand(cpu.queue[0]))])
    case IdleRun(c) =>
      var cpu := s.cpus[c];
      s.(cpus := s.cpus[c := cpu.(current := Some(cpu.phase.tid), idle := false,
                                  phase := Switching(None, Some(cpu.phase.tid), None))])
  }

  // ---------- Runs ----------

  /** The state left by `init(ncpus)`: the main thread runs on CPU 0, the other CPUs idle. */
  ghost predicate Init(s: State) {
    && Shape(s)
    && s.nextTid == 1
    && s.threads[0] == Some(Thread(Running, 0, 0, 0, 0, false, 0, false, false))
    && s.cpus[0] == Cpu(Some(0), [], false, None, Kernel)
    && (forall c :: 1 <= c < |s.cpus| ==> s.cpus[c] == Cpu(None, [], true, None, Kernel))
    && (forall b :: 0 <= b < FUTEX_BUCKETS ==> !s.locks[b])
    && (forall b, k :: 0 <= b < FUTEX_BUCKETS && 0 <= k < PENDING_WAKES_PER_BUCKET ==> s.pending[b][k] == 0)
    && (forall t :: 0 <= t < MAX_THREADS ==> !s.rescue[t])
  }

  ghost predicate StepAt(states: seq<State>, steps: seq<Step>, i: nat) {
    i < |steps| && i + 1 < |states| && Enabled(states[i], steps[i]) && states[i + 1] == Apply(states[i], steps[i])
  }

  /** `states` is an execution that takes `steps`. */
  ghost predicate IsRun(states: seq<State>, steps: seq<Step>) {
    |states| == |steps| + 1 && forall i: nat :: i < |steps| ==> StepAt(states, steps, i)
  }
}
