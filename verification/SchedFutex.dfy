/**
 No wake is lost: futex_wake readies exactly the sleepers it should, and a wake that finds nobody
 waits in the bucket's table for the next wait on its address.
 */
module SchedFutex {
  import opened Wrappers
  import opened Lists
  import opened SchedModel
  import opened SchedInvariant
  import opened SchedTheorems

  // ---------- Which sleepers a wake readies ----------

  ghost function WaiterSet(threads: seq<Option<Thread>>, addr: nat): set<nat> {
    set t: nat | t < |threads| && Waiter(threads, t, addr)
  }

  lemma {:induction false} WaiterCountFrom(threads: seq<Option<Thread>>, addr: nat, i: nat)
    requires i <= |threads|
    ensures |Waiters(threads, addr, i)| == |set t: nat | i <= t < |threads| && Waiter(threads, t, addr)|
    decreases |threads| - i
  {
    var a := set t: nat | i <= t < |threads| && Waiter(threads, t, addr);
    if i == |threads| {
      assert a == {};
    } else {
      var b := set t: nat | i + 1 <= t < |threads| && Waiter(threads, t, addr);
      WaiterCountFrom(threads, addr, i + 1);
      assert a == if Waiter(threads, i, addr) then b + {i} else b;
    }
  }

  lemma WaiterCount(threads: seq<Option<Thread>>, addr: nat)
    ensures |Waiters(threads, addr, 0)| == |WaiterSet(threads, addr)|
  {
    WaiterCountFrom(threads, addr, 0);
    assert WaiterSet(threads, addr) == set t: nat | 0 <= t < |threads| && Waiter(threads, t, addr);
  }

  /** The members of `l` at home on CPU `c`, in order. */
  ghost function AtHome(s: State, l: seq<nat>, c: nat): (r: seq<nat>) {
    if l == [] then []
    else (if Lives(s, c, l[0]) then [l[0]] else []) + AtHome(s, l[1..], c)
  }

  lemma {:induction false} AtHomeSame(s: State, r: State, l: seq<nat>, c: nat)
    requires forall k :: 0 <= k < |l| ==> (Lives(s, c, l[k]) <==> Lives(r, c, l[k]))
    ensures AtHome(s, l, c) == AtHome(r, l, c)
  {
    if l != [] {
      assert forall k :: 0 <= k < |l[1..]| ==> l[1..][k] == l[k + 1];
      AtHomeSame(s, r, l[1..], c);
    }
  }

  ghost function Awake(th: Thread): Thread {
    th.(state := Ready, futexAddr := 0, blockedSince := 0)
  }

  lemma ReadyTail(s: State, l: seq<nat>)
    requires AllReadyable(s, l) && l != [] && NoDup(l)
    ensures AllReadyable(ReadyOne(s, l[0]), l[1..]) && NoDup(l[1..]) && l[0] !in l[1..]
    ensures ReadyAll(s, l) == ReadyAll(ReadyOne(s, l[0]), l[1..])
  {
    assert forall k :: 0 <= k < |l[1..]| ==> l[1..][k] == l[k + 1];
  }

  lemma {:induction false} ReadyAllThreads(s: State, l: seq<nat>, t: nat)
    requires AllReadyable(s, l) && NoDup(l) && t < |s.threads|
    ensures ReadyAll(s, l).threads[t] == if t in l then Some(Awake(s.threads[t].value)) else s.threads[t]
    decreases |l|
  {
    if l != [] {
      ReadyTail(s, l);
      ReadyAllThreads(ReadyOne(s, l[0]), l[1..], t);
      assert t in l <==> t == l[0] || t in l[1..];
    }
  }

  lemma {:induction false} ReadyAllQueue(s: State, l: seq<nat>, c: nat)
    requires AllReadyable(s, l) && NoDup(l) && c < |s.cpus|
    ensures ReadyAll(s, l).cpus[c].queue == s.cpus[c].queue + AtHome(s, l, c)
    decreases |l|
  {
    if l != [] {
      var m := ReadyOne(s, l[0]);
      ReadyTail(s, l);
      ReadyAllQueue(m, l[1..], c);
      AtHomeSame(s, m, l[1..], c);
      assert m.cpus[c].queue == s.cpus[c].queue + if Lives(s, c, l[0]) then [l[0]] else [];
    }
  }

  lemma PrefixBefore(all: seq<nat>, n: nat, t: nat, u: nat)
    requires n <= |all| && Increasing(all)
    requires t in all[..n] && u in all && u !in all[..n]
    ensures t < u
  {
    var j :| 0 <= j < n && all[..n][j] == t;
    assert all == all[..n] + all[n..];
    var k :| 0 <= k < |all| - n && all[n..][k] == u;
  }

  /** The chosen sleepers are the first in table order. */
  lemma ChosenFirst(s: State, addr: nat, count: nat)
    ensures var l := Chosen(s, addr, count); var w := WaiterSet(s.threads, addr);
            && |l| == (if count < |w| then count else |w|)
            && NoDup(l) && (forall t :: t in l ==> t in w)
            && (forall t, u :: t in l && u in w && u !in l ==> t < u)
  {
    var all := Waiters(s.threads, addr, 0);
    var l := Chosen(s, addr, count);
    WaiterCount(s.threads, addr);
    WaitersInOrder(s.threads, addr, 0);
    assert l == all[..|l|];
    forall t, u | t in l && u in WaiterSet(s.threads, addr) && u !in l ensures t < u {
      WaitersComplete(s.threads, addr, 0, u);
      PrefixBefore(all, |l|, t, u);
    }
  }

  /** futex_wake(addr, count) readies exactly min(count, sleepers) threads, the first in table
      order, and queues each once at home; all other threads are untouched. */
  lemma WakeExact(s: State, addr: nat, count: nat)
    requires Shape(s)
    ensures var r := Wake(s, addr, count); var l := Chosen(s, addr, count); var w := WaiterSet(s.threads, addr);
            && |l| == (if count < |w| then count else |w|)
            && NoDup(l) && (forall t :: t in l ==> t in w)
            && (forall t, u :: t in l && u in w && u !in l ==> t < u)
            && (forall t: nat :: t < |s.threads| ==>
                  r.threads[t] == if t in l then Some(Awake(s.threads[t].value)) else s.threads[t])
            && (forall c: nat :: c < |s.cpus| ==> r.cpus[c] == s.cpus[c].(queue := s.cpus[c].queue + AtHome(s, l, c)))
  {
    var l := Chosen(s, addr, count);
    var r := Wake(s, addr, count);
    ChosenFirst(s, addr, count);
    if l != [] { ReadyAllFrame(s, l); }
    forall t: nat | t < |s.threads|
      ensures r.threads[t] == if t in l then Some(Awake(s.threads[t].value)) else s.threads[t]
    {
      if l != [] { ReadyAllThreads(s, l, t); }
    }
    forall c: nat | c < |s.cpus| ensures r.cpus[c] == s.cpus[c].(queue := s.cpus[c].queue + AtHome(s, l, c)) {
      if l != [] { ReadyAllQueue(s, l, c); }
    }
  }

  // ---------- Pending wakes ----------

  predicate Pends(s: State, addr: nat) {
    |s.pending| == FUTEX_BUCKETS && addr in s.pending[Bucket(addr)]
  }

  /** A wake that readies nobody leaves its address pending exactly when the address was pending
      already or the table had an empty slot; otherwise the table, full of other addresses, is
      unchanged. */
  lemma WakeLeavesPending(s: State, addr: nat, count: nat)
    requires Shape(s) && Chosen(s, addr, count) == []
    ensures var r := Wake(s, addr, count); var slots := s.pending[Bucket(addr)];
            && (Pends(r, addr) <==> addr in slots || 0 in slots)
            && (addr !in slots && 0 !in slots ==> r == s)
            && (forall x: nat :: x != 0 && Pends(s, x) ==> Pends(r, x))
            && r == s.(pending := r.pending)
  {
    var slots := s.pending[Bucket(addr)];
    forall x: nat | x != 0 && x in slots ensures x in PendingInsert(slots, addr) {
      var k :| 0 <= k < |slots| && slots[k] == x;
      if addr !in slots && 0 in slots {
        assert PendingInsert(slots, addr)[k] == x;
      }
    }
    if addr !in slots && 0 in slots {
      assert PendingInsert(slots, addr)[IndexOf(slots, 0)] == addr;
    }
  }

  /** Consuming a pending wake removes that address and no other. */
  lemma ConsumeExact(slots: seq<nat>, addr: nat, b: nat)
    requires TableOk(slots, b) && addr != 0 && addr in slots
    ensures addr !in PendingConsume(slots, addr)
    ensures forall x :: x != 0 && x != addr ==> (x in PendingConsume(slots, addr) <==> x in slots)
  {
    var r := PendingConsume(slots, addr);
    var k := IndexOf(slots, addr);
    forall x | x != 0 && x != addr ensures x in r <==> x in slots {
      if x in slots {
        var j :| 0 <= j < |slots| && slots[j] == x;
        assert r[j] == x;
      }
    }
    forall j | 0 <= j < |r| ensures r[j] != addr {
      if j != k { assert r[j] == slots[j]; }
    }
  }

  /** `step` is the decision of a futex_wait on `addr`. */
  predicate WaitsOn(s: State, step: Step, addr: nat) {
    step.WaitCheck? && step.cpu < |s.cpus| && s.cpus[step.cpu].phase.WaitLocked? && s.cpus[step.cpu].phase.addr == addr
  }

  /** A pending wake outlives every step except a wait on its own address. */
  lemma PendingStays(s: State, step: Step, addr: nat)
    requires Inv(s) && Enabled(s, step) && addr != 0 && Pends(s, addr) && !WaitsOn(s, step, addr)
    ensures Pends(Apply(s, step), addr)
  {
    match step
    case WakeRun(c) =>
      var p := s.cpus[c].phase;
      if Chosen(s, p.addr, p.count) == [] { WakeLeavesPending(s, p.addr, p.count); }
      else { ReadyAllFrame(s, Chosen(s, p.addr, p.count)); }
    case WaitCheck(c, word, blocking, now) =>
      var p := s.cpus[c].phase;
      if WaitDecision(s, c, word, blocking) == ConsumedWake && Bucket(p.addr) == Bucket(addr) {
        assert TableOk(s.pending[Bucket(addr)], Bucket(addr));
        if p.addr != 0 { ConsumeExact(s.pending[Bucket(addr)], p.addr, Bucket(addr)); }
        else { assert PendingConsume(s.pending[Bucket(addr)], 0) == s.pending[Bucket(addr)]; }
      }
    case RescueRun(c, now) =>
    case _ =>
  }

  /** The wait that finds its address pending returns at once, consuming it. */
  lemma WaitConsumes(s: State, step: Step, addr: nat)
    requires Inv(s) && Enabled(s, step) && addr != 0 && Pends(s, addr) && WaitsOn(s, step, addr)
    ensures WaitDecision(s, step.cpu, step.word, step.blocking) == ConsumedWake
    ensures var r := Apply(s, step); r.threads == s.threads && !Pends(r, addr)
  {
    assert TableOk(s.pending[Bucket(addr)], Bucket(addr));
    ConsumeExact(s.pending[Bucket(addr)], addr, Bucket(addr));
  }

  lemma {:induction false} PendingUntilWait(states: seq<State>, steps: seq<Step>, i: nat, j: nat, addr: nat)
    requires IsRun(states, steps) && Init(states[0]) && i <= j < |states|
    requires addr != 0 && Pends(states[i], addr)
    requires forall k :: i <= k < j ==> !WaitsOn(states[k], steps[k], addr)
    ensures Pends(states[j], addr)
    decreases j
  {
    if i < j {
      PendingUntilWait(states, steps, i, j - 1, addr);
      RunInv(states, steps, j - 1);
      assert StepAt(states, steps, j - 1);
      PendingStays(states[j - 1], steps[j - 1], addr);
    }
  }

  /** A wake of `addr` that finds no sleeper (step i) is delivered to the next wait on `addr`
      (step j), whatever happens in between, unless the table was full of other addresses; that
      wait does not block, and the wake is used up. */
  lemma NoLostWake(states: seq<State>, steps: seq<Step>, i: nat, j: nat, addr: nat)
    requires IsRun(states, steps) && Init(states[0]) && i < j < |steps| && addr != 0
    requires steps[i].WakeRun? && Enabled(states[i], steps[i]) && states[i].cpus[steps[i].cpu].phase.addr == addr
    requires WaiterSet(states[i].threads, addr) == {}
    requires var slots := states[i].pending[Bucket(addr)]; addr in slots || 0 in slots
    requires forall k :: i < k < j ==> !WaitsOn(states[k], steps[k], addr)
    requires WaitsOn(states[j], steps[j], addr)
    ensures Enabled(states[j], steps[j])
    ensures WaitDecision(states[j], steps[j].cpu, steps[j].word, steps[j].blocking) == ConsumedWake
    ensures states[j + 1].threads == states[j].threads && !Pends(states[j + 1], addr)
  {
    var s := states[i];
    var count := s.cpus[steps[i].cpu].phase.count;
    RunInv(states, steps, i);
    assert StepAt(states, steps, i) && StepAt(states, steps, j);
    WaiterCount(s.threads, addr);
    WakeLeavesPending(s, addr, count);
    assert Pends(states[i + 1], addr);
    PendingUntilWait(states, steps, i + 1, j, addr);
    RunInv(states, steps, j);
    WaitConsumes(states[j], steps[j], addr);
  }

  // ---------- When a wait sleeps ----------

  /** A wait puts its thread to sleep exactly when no wake of the address pends and the word, read under the
      lock, is the expected one (and blocking is armed). The thread then carries what the caller asked for and
      the bucket stays locked; otherwise no thread changes and the bucket lock is dropped. */
  lemma WaitSleepsIff(s: State, c: nat, word: nat, blocking: bool, now: nat, t: nat)
    requires Inv(s) && Enabled(s, WaitCheck(c, word, blocking, now)) && s.cpus[c].current == Some(t)
    ensures var r, p := Apply(s, WaitCheck(c, word, blocking, now)), s.cpus[c].phase;
            && IsThread(r, t) && |r.locks| == FUTEX_BUCKETS && r.cpus[c].current == Some(t)
            && (r.threads[t].value.state == Blocked <==> blocking && word == p.val && p.addr !in s.pending[Bucket(p.addr)])
            && (r.threads[t].value.state == Blocked ==>
                  && r.threads == s.threads[t := r.threads[t]] && r.locks == s.locks && r.pending == s.pending
                  && r.threads[t].value.futexAddr == p.addr && r.threads[t].value.futexVal == word
                  && r.threads[t].value.deadline == p.deadline && r.threads[t].value.blockedSince == now
                  && !r.threads[t].value.timedOut && r.threads[t].value.home == s.threads[t].value.home)
            && (r.threads[t].value.state != Blocked ==>
                  && r.threads == s.threads && r.cpus[c].phase == Kernel
                  && r.locks == s.locks[Bucket(p.addr) := false])
  {
    CurrentPlace(s, c, t);
  }

  /** With the idle loop current nothing can sleep. */
  lemma WaitWithoutThread(s: State, c: nat, word: nat, blocking: bool, now: nat)
    requires Enabled(s, WaitCheck(c, word, blocking, now)) && s.cpus[c].current.None?
    ensures var r := Apply(s, WaitCheck(c, word, blocking, now));
            r.threads == s.threads && r.locks == s.locks[Bucket(s.cpus[c].phase.addr) := false]
  {
  }

  lemma KeepsWaiting(s: State, step: Step, t: nat, addr: nat)
    requires Inv(s) && Enabled(s, step) && Waiter(s.threads, t, addr)
    requires IsThread(Apply(s, step), t) && Apply(s, step).threads[t].value.state == Blocked
    ensures Waiter(Apply(s, step).threads, t, addr)
  {
    if step.WakeRun? {
      var p := s.cpus[step.cpu].phase;
      WakeExact(s, p.addr, p.count);
      assert Apply(s, step).threads == Wake(s, p.addr, p.count).threads;
    } else if step.WaitCheck? && s.cpus[step.cpu].current.Some? {
      CurrentPlace(s, step.cpu, s.cpus[step.cpu].current.value);
    }
  }

  /** From state i to state j thread `t` sleeps on `addr` all the time. */
  ghost predicate WaitsThrough(states: seq<State>, t: nat, addr: nat, i: nat, j: nat)
    requires j < |states|
  {
    forall m :: i <= m <= j ==> Waiter(states[m].threads, t, addr)
  }

  lemma {:induction false} WaiterLasts(states: seq<State>, steps: seq<Step>, t: nat, addr: nat, i: nat, j: nat)
    requires IsRun(states, steps) && Init(states[0]) && i <= j < |states| && Waiter(states[i].threads, t, addr)
    requires forall m :: i <= m <= j ==> IsThread(states[m], t) && states[m].threads[t].value.state == Blocked
    ensures WaitsThrough(states, t, addr, i, j)
    decreases j
  {
    if i < j {
      WaiterLasts(states, steps, t, addr, i, j - 1);
      RunInv(states, steps, j - 1);
      assert StepAt(states, steps, j - 1);
      KeepsWaiting(states[j - 1], steps[j - 1], t, addr);
    }
  }

  /**
   The futex promise. Thread `t` checks the word in step i; a waker that changed the word beforehand wakes all
   sleepers of the address in step j. Whichever comes first, `t` does not sleep on: if the check came first, `t`
   is awake by the end of the wake; if the wake came first, the check reads another word and `t` stays awake.
   */
  lemma NoLostWakeUp(states: seq<State>, steps: seq<Step>, i: nat, j: nat, t: nat, addr: nat)
    requires IsRun(states, steps) && Init(states[0]) && i < |steps| && j < |steps|
    requires WaitsOn(states[i], steps[i], addr) && states[i].cpus[steps[i].cpu].current == Some(t)
    requires steps[j].WakeRun? && Enabled(states[j], steps[j]) && states[j].cpus[steps[j].cpu].phase.addr == addr
    requires states[j].cpus[steps[j].cpu].phase.count >= |WaiterSet(states[j].threads, addr)|
    requires j < i ==> steps[i].word != states[i].cpus[steps[i].cpu].phase.val
    ensures j < i ==> IsThread(states[i + 1], t) && states[i + 1].threads[t].value.state != Blocked
    ensures i < j ==> exists m :: i < m <= j + 1 && !(IsThread(states[m], t) && states[m].threads[t].value.state == Blocked)
  {
    RunInv(states, steps, i);
    assert StepAt(states, steps, i) && StepAt(states, steps, j);
    WaitSleepsIff(states[i], steps[i].cpu, steps[i].word, steps[i].blocking, steps[i].now, t);
    if i < j && forall m :: i < m <= j + 1 ==> IsThread(states[m], t) && states[m].threads[t].value.state == Blocked {
      WaiterLasts(states, steps, t, addr, i + 1, j);
      RunInv(states, steps, j);
      ReachedByAll(states[j], addr, states[j].cpus[steps[j].cpu].phase.count, t);
      WakeRunReaches(states[j], steps[j].cpu, t);
      assert false;
    }
  }

  lemma ReachedByAll(s: State, addr: nat, count: nat, t: nat)
    requires Shape(s) && Waiter(s.threads, t, addr) && count >= |WaiterSet(s.threads, addr)|
    ensures t in Chosen(s, addr, count)
  {
    WaiterCount(s.threads, addr);
    WaitersComplete(s.threads, addr, 0, t);
  }

  /** A sleeper chosen by a wake is Ready and on its home queue afterwards. */
  lemma WakeReaches(s: State, addr: nat, count: nat, t: nat)
    requires Shape(s) && t in Chosen(s, addr, count)
    ensures var r := Wake(s, addr, count);
            && r.threads[t] == Some(Awake(s.threads[t].value))
            && t in r.cpus[s.threads[t].value.home].queue
  {
    WakeExact(s, addr, count);
    AtHomeHas(s, Chosen(s, addr, count), s.threads[t].value.home, t);
  }

  lemma WakeRunReaches(s: State, c: nat, t: nat)
    requires Inv(s) && Enabled(s, WakeRun(c))
    requires var p := s.cpus[c].phase; t in Chosen(s, p.addr, p.count)
    ensures var r := Apply(s, WakeRun(c));
            var h := s.threads[t].value.home;
            && r.threads[t] == Some(Awake(s.threads[t].value))
            && t in r.cpus[h].queue && (r.cpus[h].phase.WaitMarked? ==> r.cpus[h].phase.tid != t)
  {
    var p := s.cpus[c].phase;
    var h := s.threads[t].value.home;
    WakeReaches(s, p.addr, p.count, t);
    assert OwnerAt(s, c, Bucket(p.addr));
    OwnerShutsOutWaits(s, c, Bucket(p.addr), t);
    WakeExact(s, p.addr, p.count);
    assert Wake(s, p.addr, p.count).cpus[h].phase == s.cpus[h].phase;
  }

  /** A thread that has committed to sleeping on `addr` is readied by every wake that chooses it, and is
      then in exactly one place, its home queue. */
  lemma CommittedSleeperIsWoken(states: seq<State>, steps: seq<Step>, i: nat, t: nat)
    requires IsRun(states, steps) && Init(states[0]) && i < |steps|
    requires steps[i].WakeRun? && Enabled(states[i], steps[i])
    requires var p := states[i].cpus[steps[i].cpu].phase; t in Chosen(states[i], p.addr, p.count)
    ensures var r := states[i + 1];
            Shape(r) && IsThread(r, t) && r.threads[t].value.state == Ready && Queued(r, t) && ExactPlace(r, t)
  {
    RunInv(states, steps, i);
    RunInv(states, steps, i + 1);
    assert StepAt(states, steps, i);
    WakeRunReaches(states[i], steps[i].cpu, t);
    assert PlaceOk(states[i + 1], t);
  }

  lemma {:induction false} AtHomeHas(s: State, l: seq<nat>, c: nat, t: nat)
    requires t in l && Lives(s, c, t)
    ensures t in AtHome(s, l, c)
  {
    if l[0] != t {
      assert t in l[1..];
      AtHomeHas(s, l[1..], c, t);
    }
  }

  /** Address 0 doubles as the mark of an empty slot. A wake of it that finds no sleeper changes nothing, so it is
      never remembered; and a wait on it returns at once, and forever again, while its bucket has an empty slot. */
  lemma ZeroAddress(s: State, step: Step, count: nat)
    requires Inv(s) && Enabled(s, step) && WaitsOn(s, step, 0)
    ensures Chosen(s, 0, count) == [] ==> Wake(s, 0, count) == s
    ensures WaitDecision(s, step.cpu, step.word, step.blocking) == ConsumedWake <==> 0 in s.pending[0]
    ensures 0 in s.pending[0] ==> Apply(s, step).pending == s.pending && Apply(s, step).threads == s.threads
  {
    assert PendingConsume(s.pending[0], 0) == s.pending[0];
    assert s.pending[0 := s.pending[0]] == s.pending;
  }
}
