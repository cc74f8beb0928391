/**
 A reachable state in which a thread is current and queued at once. process_rescues reads the
 address of a sleeper without a lock, and afterwards re-checks only that the thread is Blocked. If
 the thread is woken and goes to sleep on another address in between, the rescue acts under a lock
 that does not protect it.
 */
module SchedRace {
  import opened Wrappers
  import opened SchedModel
  import opened SchedInvariant
  import opened SchedTheorems

  /** Taking `steps` from `s` leads to `r`. */
  ghost predicate Path(s: State, steps: seq<Step>, r: State)
    decreases |steps|
  {
    if steps == [] then s == r
    else Enabled(s, steps[0]) && Path(Apply(s, steps[0]), steps[1..], r)
  }

  lemma {:induction false} PathAppend(s: State, a: seq<Step>, m: State, b: seq<Step>, r: State)
    requires Path(s, a, m) && Path(m, b, r)
    ensures Path(s, a + b, r)
    decreases |a|
  {
    if a == [] {
      assert a + b == b;
    } else {
      assert (a + b)[0] == a[0] && (a + b)[1..] == a[1..] + b;
      PathAppend(Apply(s, a[0]), a[1..], m, b, r);
    }
  }

  lemma {:induction false} PathIsRun(s: State, steps: seq<Step>, r: State) returns (states: seq<State>)
    requires Path(s, steps, r)
    ensures IsRun(states, steps) && states[0] == s && states[|steps|] == r
    decreases |steps|
  {
    if steps == [] {
      states := [s];
    } else {
      var rest := PathIsRun(Apply(s, steps[0]), steps[1..], r);
      states := [s] + rest;
      forall i: nat | i < |steps| ensures StepAt(states, steps, i) {
        if i > 0 { assert StepAt(rest, steps[1..], i - 1) && steps[i] == steps[1..][i - 1]; }
      }
    }
  }

  ghost predicate Leads(s: State, r: State) {
    exists steps: seq<Step> :: Path(s, steps, r)
  }

  lemma LeadsOn(s: State, m: State, r: State)
    requires Leads(s, m) && Leads(m, r)
    ensures Leads(s, r)
  {
    var a: seq<Step> :| Path(s, a, m);
    var b: seq<Step> :| Path(m, b, r);
    PathAppend(s, a, m, b, r);
  }

  lemma One(s: State, a: Step, r: State)
    requires Enabled(s, a) && r == Apply(s, a)
    ensures Leads(s, r)
  {
    assert Path(r, [a][1..], r);
    assert Path(s, [a], r);
  }

  lemma Two(s: State, a: Step, m: State, b: Step, r: State)
    requires Enabled(s, a) && m == Apply(s, a) && Enabled(m, b) && r == Apply(m, b)
    ensures Leads(s, r)
  {
    One(s, a, m);
    One(m, b, r);
    LeadsOn(s, m, r);
  }

  // ---------- Pieces of a run, on any state ----------

  const IDLE := Cpu(None, [], true, None, Kernel)

  /** CPU 0 creates a thread for the idle CPU `c`. */
  lemma Spawn(s: State, c: nat)
    requires Shape(s) && 0 < c < |s.cpus| && s.nextTid < MAX_THREADS && s.cpus[0].phase == Kernel && s.cpus[c] == IDLE
    ensures Leads(s, s.(threads := s.threads[s.nextTid := Some(NewThread(c))], nextTid := s.nextTid + 1,
                        cpus := s.cpus[c := IDLE.(queue := [s.nextTid])]))
  {
    var m := Apply(s, SpawnAlloc(0, c));
    var r := Apply(m, SpawnPush(0));
    assert IDLE.queue + [s.nextTid] == [s.nextTid] && r.cpus[0] == s.cpus[0];
    assert r.cpus == s.cpus[c := IDLE.(queue := [s.nextTid])];
    Two(s, SpawnAlloc(0, c), m, SpawnPush(0), r);
  }

  /** The idle CPU `c` picks the one thread on its queue. */
  lemma IdlePick(s: State, c: nat, t: nat)
    requires Shape(s) && c < |s.cpus| && s.cpus[c] == IDLE.(queue := [t])
    ensures Leads(s, s.(cpus := s.cpus[c := Cpu(Some(t), [], false, None, Switching(None, Some(t), None))]))
  {
    var m := Apply(s, IdlePop(c));
    assert m.cpus[c] == Cpu(None, [], true, None, IdleHand(t));
    var r := Apply(m, IdleRun(c));
    assert r.cpus == s.cpus[c := Cpu(Some(t), [], false, None, Switching(None, Some(t), None))];
    Two(s, IdlePop(c), m, IdleRun(c), r);
  }

  /** ... and switches to it. */
  lemma Resume(s: State, c: nat, t: nat)
    requires Shape(s) && c < |s.cpus| && IsThread(s, t)
    requires s.cpus[c] == Cpu(Some(t), [], false, None, Switching(None, Some(t), None))
    ensures Leads(s, s.(threads := s.threads[t := Some(s.threads[t].value.(saved := false))],
                        cpus := s.cpus[c := Cpu(Some(t), [], false, None,
                                                if s.threads[t].value.inWait then Returning else Kernel)]))
  {
    var m := Apply(s, Switch(c));
    var r := Apply(m, Release(c));
    assert r.cpus == s.cpus[c := Cpu(Some(t), [], false, None, if s.threads[t].value.inWait then Returning else Kernel)];
    Two(s, Switch(c), m, Release(c), r);
  }

  /** The running thread of CPU `c` calls futex_wait on `addr` and is marked. */
  lemma Mark(s: State, c: nat, t: nat, addr: nat)
    requires Shape(s) && c < |s.cpus| && IsThread(s, t) && s.cpus[c] == Cpu(Some(t), [], false, None, Kernel)
    requires !s.locks[Bucket(addr)] && addr !in s.pending[Bucket(addr)]
    ensures Leads(s, s.(threads := s.threads[t := Some(MarkBlocked(s.threads[t].value, addr, 0, 0, 1))],
                        cpus := s.cpus[c := Cpu(Some(t), [], false, None, WaitMarked(addr, t))],
                        locks := s.locks[Bucket(addr) := true]))
  {
    var m := Apply(s, WaitLock(c, addr, 0, 0));
    var r := Apply(m, WaitCheck(c, 0, true, 1));
    assert r.cpus == s.cpus[c := Cpu(Some(t), [], false, None, WaitMarked(addr, t))];
    Two(s, WaitLock(c, addr, 0, 0), m, WaitCheck(c, 0, true, 1), r);
  }

  /** CPU `c` finishes a rescue of thread `t`, which its own CPU is switching out. */
  lemma RescueMarked(s: State, c: nat, t: nat, addr: nat) returns (r: State)
    requires Shape(s) && c < |s.cpus| && IsThread(s, t) && s.threads[t].value.state == Blocked
    requires s.cpus[c].phase == RescueSnap(t, addr) && !s.locks[Bucket(addr)]
    requires Marked(s, t) && OnCpu(s, t)
    ensures Leads(s, r) && Shape(r) && IsThread(r, t) && r.threads[t].value.state == Ready
    ensures OnCpu(r, t) && Queued(r, t) && Marked(r, t)
  {
    var m := Apply(s, RescueLock(c));
    r := Apply(m, RescueRun(c, 1));
    Two(s, RescueLock(c), m, RescueRun(c, 1), r);
  }

  // ---------- The run of the example ----------

  /** The main thread on CPU 0, thread 1 at home on CPU 1, thread 2 running on CPU 2; `held` is the
      one bucket lock that may be taken. */
  ghost function World(c0: Phase, c1: Cpu, c2: Phase, th: Thread, held: nat, flag: bool): State {
    State([Some(MAIN), Some(th), Some(NewThread(2).(saved := false))] + seq(MAX_THREADS - 3, _ => None),
          3,
          [Cpu(Some(0), [], false, None, c0), c1, Cpu(Some(2), [], false, None, c2)],
          seq(FUTEX_BUCKETS, i => i == held),
          seq(FUTEX_BUCKETS, _ => seq(PENDING_WAKES_PER_BUCKET, _ => 0)),
          seq(MAX_THREADS, i => i == 1 && flag))
  }

  const MAIN := Thread(Running, 0, 0, 0, 0, false, 0, false, false)
  const FREE: nat := FUTEX_BUCKETS

  lemma WorldShape(c0: Phase, c1: Cpu, c2: Phase, th: Thread, held: nat, flag: bool)
    requires th.home == 1
    ensures Shape(World(c0, c1, c2, th, held, flag))
  {
  }

  function Asleep(addr: nat): Thread {
    Thread(Blocked, addr, 0, 1, 0, false, 1, true, true)
  }

  function Woken(): Thread {
    Thread(Ready, 0, 0, 1, 0, false, 0, true, true)
  }

  function Busy(p: Phase): Cpu {
    Cpu(Some(1), [], false, None, p)
  }

  ghost function Boot(): State {
    State([Some(MAIN)] + seq(MAX_THREADS - 1, _ => None), 1,
          [Cpu(Some(0), [], false, None, Kernel), IDLE, IDLE],
          seq(FUTEX_BUCKETS, _ => false),
          seq(FUTEX_BUCKETS, _ => seq(PENDING_WAKES_PER_BUCKET, _ => 0)),
          seq(MAX_THREADS, _ => false))
  }

  /** A thread is created on the idle CPU `c` and starts running there. */
  lemma Launch(s: State, c: nat)
    requires Shape(s) && 0 < c < |s.cpus| && s.nextTid < MAX_THREADS && s.cpus[0].phase == Kernel && s.cpus[c] == IDLE
    ensures Leads(s, s.(threads := s.threads[s.nextTid := Some(NewThread(c).(saved := false))], nextTid := s.nextTid + 1,
                        cpus := s.cpus[c := Cpu(Some(s.nextTid), [], false, None, Kernel)]))
  {
    var t := s.nextTid;
    var s1 := s.(threads := s.threads[t := Some(NewThread(c))], nextTid := t + 1, cpus := s.cpus[c := IDLE.(queue := [t])]);
    Spawn(s, c);
    IdlePick(s1, c, t);
    var s2 := s1.(cpus := s1.cpus[c := Cpu(Some(t), [], false, None, Switching(None, Some(t), None))]);
    Resume(s2, c, t);
    var s3 := s2.(threads := s2.threads[t := Some(s2.threads[t].value.(saved := false))],
                  cpus := s2.cpus[c := Cpu(Some(t), [], false, None, Kernel)]);
    LeadsOn(s, s1, s2);
    LeadsOn(s, s2, s3);
    assert s3.cpus == s.cpus[c := Cpu(Some(t), [], false, None, Kernel)];
    assert s3.threads == s.threads[t := Some(NewThread(c).(saved := false))];
  }

  /** Threads 1 and 2 are created and run on CPUs 1 and 2. */
  lemma BothLaunched()
    ensures Leads(Boot(), World(Kernel, Busy(Kernel), Kernel, NewThread(1).(saved := false), FREE, false))
  {
    var b := Boot();
    Launch(b, 1);
    var s1 := b.(threads := b.threads[1 := Some(NewThread(1).(saved := false))], nextTid := 2,
                 cpus := b.cpus[1 := Cpu(Some(1), [], false, None, Kernel)]);
    Launch(s1, 2);
    var w := World(Kernel, Busy(Kernel), Kernel, NewThread(1).(saved := false), FREE, false);
    var s2 := s1.(threads := s1.threads[2 := Some(NewThread(2).(saved := false))], nextTid := 3,
                  cpus := s1.cpus[2 := Cpu(Some(2), [], false, None, Kernel)]);
    assert s2.cpus == w.cpus && s2.locks == w.locks && s2.pending == w.pending && s2.rescue == w.rescue;
    assert s2.threads == w.threads;
    LeadsOn(b, s1, s2);
  }

  /** Thread 1 is marked for sleep on `addr`. */
  lemma MarkOne(c0: Phase, th: Thread, addr: nat)
    requires th.home == 1 && addr != 0
    ensures Leads(World(c0, Busy(Kernel), Kernel, th, FREE, false),
                  World(c0, Busy(WaitMarked(addr, 1)), Kernel, MarkBlocked(th, addr, 0, 0, 1), Bucket(addr), false))
  {
    var s := World(c0, Busy(Kernel), Kernel, th, FREE, false);
    var w := World(c0, Busy(WaitMarked(addr, 1)), Kernel, MarkBlocked(th, addr, 0, 0, 1), Bucket(addr), false);
    WorldShape(c0, Busy(Kernel), Kernel, th, FREE, false);
    Mark(s, 1, 1, addr);
    assert w.threads == s.threads[1 := Some(MarkBlocked(th, addr, 0, 0, 1))];
    assert w.cpus == s.cpus[1 := Busy(WaitMarked(addr, 1))];
    assert w.locks == s.locks[Bucket(addr) := true];
  }

  /** Thread 1 is switched out to the idle loop, which drops the handed-over lock. */
  lemma SwitchOut()
    ensures Leads(World(Kernel, Busy(WaitMarked(4, 1)), Kernel, Asleep(4).(saved := false), 1, false),
                  World(Kernel, IDLE, Kernel, Asleep(4), FREE, false))
  {
    var s := World(Kernel, Busy(WaitMarked(4, 1)), Kernel, Asleep(4).(saved := false), 1, false);
    var m := World(Kernel, IDLE.(phase := Switching(Some(1), None, Some(1))), Kernel, Asleep(4).(saved := false), 1, false);
    WorldShape(Kernel, Busy(WaitMarked(4, 1)), Kernel, Asleep(4).(saved := false), 1, false);
    assert Apply(s, WaitPick(1)) == m;
    One(s, WaitPick(1), m);
    DropHandedLock(m);
    LeadsOn(s, m, World(Kernel, IDLE, Kernel, Asleep(4), FREE, false));
  }

  lemma DropHandedLock(m: State)
    requires m == World(Kernel, IDLE.(phase := Switching(Some(1), None, Some(1))), Kernel, Asleep(4).(saved := false), 1, false)
    ensures Leads(m, World(Kernel, IDLE, Kernel, Asleep(4), FREE, false))
  {
    var n := World(Kernel, IDLE.(phase := Resuming, pendingUnlock := Some(1)), Kernel, Asleep(4), 1, false);
    var r := World(Kernel, IDLE, Kernel, Asleep(4), FREE, false);
    WorldShape(Kernel, m.cpus[1], Kernel, Asleep(4).(saved := false), 1, false);
    WorldShape(Kernel, n.cpus[1], Kernel, Asleep(4), 1, false);
    assert Apply(m, Switch(1)) == n;
    assert Apply(n, Release(1)) == r;
    Two(m, Switch(1), n, Release(1), r);
  }

  /** The watchdog flags thread 1, asleep on address 4; CPU 0 reads that address. */
  lemma Snapshot()
    ensures Leads(World(Kernel, IDLE, Kernel, Asleep(4), FREE, false),
                  World(RescueSnap(1, 4), IDLE, Kernel, Asleep(4), FREE, false))
  {
    var s := World(Kernel, IDLE, Kernel, Asleep(4), FREE, false);
    var m := World(Kernel, IDLE, Kernel, Asleep(4), FREE, true);
    var r := World(RescueSnap(1, 4), IDLE, Kernel, Asleep(4), FREE, false);
    WorldShape(Kernel, IDLE, Kernel, Asleep(4), FREE, false);
    WorldShape(Kernel, IDLE, Kernel, Asleep(4), FREE, true);
    var words := seq(MAX_THREADS, _ => 1);
    assert Ticked(s, words, 1) == m.rescue;
    assert Apply(s, Tick(words, 1)) == m;
    assert Apply(m, RescueTake(0, 1)) == r;
    Two(s, Tick(words, 1), m, RescueTake(0, 1), r);
  }

  lemma {:induction false} NoSleepers(threads: seq<Option<Thread>>, addr: nat, i: nat)
    requires i <= |threads| && forall t: nat :: i <= t ==> !Waiter(threads, t, addr)
    ensures Waiters(threads, addr, i) == []
    decreases |threads| - i
  {
    if i < |threads| { NoSleepers(threads, addr, i + 1); }
  }

  /** Thread 1 is the one sleeper on address 4. */
  lemma OneSleeper(threads: seq<Option<Thread>>)
    requires Waiter(threads, 1, 4) && forall t: nat :: Waiter(threads, t, 4) ==> t == 1
    ensures Waiters(threads, 4, 0) == [1]
  {
    NoSleepers(threads, 4, 2);
    assert Waiters(threads, 4, 1) == [1] + Waiters(threads, 4, 2);
  }

  /** Thread 2 wakes address 4. */
  lemma WakeFour()
    ensures Leads(World(RescueSnap(1, 4), IDLE, Kernel, Asleep(4), FREE, false),
                  World(RescueSnap(1, 4), IDLE.(queue := [1]), Kernel, Woken(), FREE, false))
  {
    var s := World(RescueSnap(1, 4), IDLE, Kernel, Asleep(4), FREE, false);
    var m := World(RescueSnap(1, 4), IDLE, WakeLocked(4, 1), Asleep(4), 1, false);
    var r := World(RescueSnap(1, 4), IDLE.(queue := [1]), Kernel, Woken(), FREE, false);
    WorldShape(RescueSnap(1, 4), IDLE, Kernel, Asleep(4), FREE, false);
    WorldShape(RescueSnap(1, 4), IDLE, WakeLocked(4, 1), Asleep(4), 1, false);
    assert Apply(s, WakeLock(2, 4, 1)) == m;
    One(s, WakeLock(2, 4, 1), m);
    WakeFourLocked(m, r);
    LeadsOn(s, m, r);
  }

  lemma WakeFourLocked(m: State, r: State)
    requires m == World(RescueSnap(1, 4), IDLE, WakeLocked(4, 1), Asleep(4), 1, false) && Shape(m)
    requires r == World(RescueSnap(1, 4), IDLE.(queue := [1]), Kernel, Woken(), FREE, false)
    ensures Leads(m, r)
  {
    OneSleeper(m.threads);
    var n := ReadyOne(m, 1);
    assert ReadyAll(m, [1]) == n by { assert [1][1..] == []; }
    assert n.cpus[1] == IDLE.(queue := [1]) by { assert IDLE.queue + [1] == [1]; }
    assert n.threads == r.threads;
    assert SetLock(SetPhase(n, 2, Kernel), 1, false).cpus == r.cpus;
    assert SetLock(SetPhase(n, 2, Kernel), 1, false).locks == r.locks;
    One(m, WakeRun(2), r);
  }

  /** Thread 1 resumes and returns from its wait. */
  lemma BackInUser()
    ensures Leads(World(RescueSnap(1, 4), IDLE.(queue := [1]), Kernel, Woken(), FREE, false),
                  World(RescueSnap(1, 4), Busy(Kernel), Kernel, NewThread(1).(saved := false), FREE, false))
  {
    var c0 := RescueSnap(1, 4);
    var s := World(c0, IDLE.(queue := [1]), Kernel, Woken(), FREE, false);
    var m := World(c0, Busy(Switching(None, Some(1), None)), Kernel, Woken(), FREE, false);
    var n := World(c0, Busy(Returning), Kernel, Woken().(saved := false), FREE, false);
    var r := World(c0, Busy(Kernel), Kernel, NewThread(1).(saved := false), FREE, false);
    WorldShape(c0, IDLE.(queue := [1]), Kernel, Woken(), FREE, false);
    WorldShape(c0, m.cpus[1], Kernel, Woken(), FREE, false);
    WorldShape(c0, Busy(Returning), Kernel, Woken().(saved := false), FREE, false);
    IdlePick(s, 1, 1);
    assert m == s.(cpus := s.cpus[1 := m.cpus[1]]);
    Resume(m, 1, 1);
    assert n == m.(threads := m.threads[1 := Some(Woken().(saved := false))], cpus := m.cpus[1 := Busy(Returning)]);
    assert Apply(n, WaitReturn(1)) == r;
    One(n, WaitReturn(1), r);
    LeadsOn(s, m, n);
    LeadsOn(s, n, r);
  }

  /** CPU 0 rescues thread 1 under the lock of address 4 while CPU 1 is switching it out of its
      wait on address 8. */
  lemma StaleRescue() returns (r: State)
    ensures Leads(World(RescueSnap(1, 4), Busy(WaitMarked(8, 1)), Kernel, Asleep(8).(saved := false), 2, false), r)
    ensures Shape(r) && IsThread(r, 1) && OnCpu(r, 1) && Queued(r, 1) && !AllExact(r)
  {
    WorldShape(RescueSnap(1, 4), Busy(WaitMarked(8, 1)), Kernel, Asleep(8).(saved := false), 2, false);
    r := RescueMarked(World(RescueSnap(1, 4), Busy(WaitMarked(8, 1)), Kernel, Asleep(8).(saved := false), 2, false), 0, 1, 4);
    assert !ExactPlace(r, 1);
  }

  /** The run up to the point where thread 1 sleeps on address 4. */
  lemma FirstHalf()
    ensures Leads(Boot(), World(Kernel, IDLE, Kernel, Asleep(4), FREE, false))
  {
    var w0 := World(Kernel, Busy(Kernel), Kernel, NewThread(1).(saved := false), FREE, false);
    var w1 := World(Kernel, Busy(WaitMarked(4, 1)), Kernel, Asleep(4).(saved := false), 1, false);
    BothLaunched();
    MarkOne(Kernel, NewThread(1).(saved := false), 4);
    SwitchOut();
    LeadsOn(Boot(), w0, w1);
    LeadsOn(Boot(), w1, World(Kernel, IDLE, Kernel, Asleep(4), FREE, false));
  }

  /** ... to the point where it is back from that wait, CPU 0 still holding its old address. */
  lemma SecondHalf()
    ensures Leads(World(Kernel, IDLE, Kernel, Asleep(4), FREE, false),
                  World(RescueSnap(1, 4), Busy(Kernel), Kernel, NewThread(1).(saved := false), FREE, false))
  {
    var w2 := World(Kernel, IDLE, Kernel, Asleep(4), FREE, false);
    var w3 := World(RescueSnap(1, 4), IDLE, Kernel, Asleep(4), FREE, false);
    var w4 := World(RescueSnap(1, 4), IDLE.(queue := [1]), Kernel, Woken(), FREE, false);
    var w5 := World(RescueSnap(1, 4), Busy(Kernel), Kernel, NewThread(1).(saved := false), FREE, false);
    Snapshot();
    WakeFour();
    LeadsOn(w2, w3, w4);
    BackInUser();
    LeadsOn(w2, w4, w5);
  }

  lemma LastPart() returns (r: State)
    ensures Leads(World(RescueSnap(1, 4), Busy(Kernel), Kernel, NewThread(1).(saved := false), FREE, false), r)
    ensures Shape(r) && IsThread(r, 1) && OnCpu(r, 1) && Queued(r, 1) && !AllExact(r)
  {
    var w5 := World(RescueSnap(1, 4), Busy(Kernel), Kernel, NewThread(1).(saved := false), FREE, false);
    var w6 := World(RescueSnap(1, 4), Busy(WaitMarked(8, 1)), Kernel, Asleep(8).(saved := false), 2, false);
    MarkOne(RescueSnap(1, 4), NewThread(1).(saved := false), 8);
    r := StaleRescue();
    LeadsOn(w5, w6, r);
  }

  /** Without the freshness of rescues, exact placement fails in a reachable state. */
  lemma StaleRescueDoublePlaces()
    ensures exists states: seq<State>, steps: seq<Step> ::
              && IsRun(states, steps) && Init(states[0])
              && var s := states[|steps|];
                 Shape(s) && IsThread(s, 1) && OnCpu(s, 1) && Queued(s, 1) && !AllExact(s)
  {
    var w2 := World(Kernel, IDLE, Kernel, Asleep(4), FREE, false);
    var w5 := World(RescueSnap(1, 4), Busy(Kernel), Kernel, NewThread(1).(saved := false), FREE, false);
    FirstHalf();
    SecondHalf();
    LeadsOn(Boot(), w2, w5);
    var r := LastPart();
    LeadsOn(Boot(), w5, r);
    var steps: seq<Step> :| Path(Boot(), steps, r);
    var states := PathIsRun(Boot(), steps, r);
    assert Init(Boot());
    assert IsRun(states, steps) && Init(states[0]) && states[|steps|] == r;
  }
}
