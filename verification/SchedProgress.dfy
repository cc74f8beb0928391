/**
 Progress of the scheduler: a queued thread is reached after as many switches as there are threads
 before it, a timed wait reports its timeout exactly when a rescue found the deadline passed, and
 a watchdog tick followed by a drain leaves no overdue sleeper.
 */
module SchedProgress {
  import opened Wrappers
  import opened SchedModel
  import opened SchedInvariant
  import opened SchedTheorems

  // ---------- Bounded waiting ----------

  /** The step takes the head of CPU `c`'s queue. */
  predicate PopsOn(s: State, step: Step, c: nat) {
    c < |s.cpus| && s.cpus[c].queue != []
    && (step == YieldPick(c) || step == WaitPick(c) || step == IdlePop(c))
  }

  /** A switch removes the head of the queue, which CPU `c` then runs (or is about to). */
  lemma QueuePop(s: State, step: Step, c: nat)
    requires Enabled(s, step) && PopsOn(s, step, c)
    ensures var r := Apply(s, step);
            && |r.cpus| == |s.cpus|
            && s.cpus[c].queue[1..] <= r.cpus[c].queue
            && (r.cpus[c].current == Some(s.cpus[c].queue[0]) || r.cpus[c].phase == IdleHand(s.cpus[c].queue[0]))
  {
  }

  /** Every other step only appends. */
  lemma QueueGrow(s: State, step: Step, c: nat)
    requires Enabled(s, step) && c < |s.cpus| && !PopsOn(s, step, c)
    ensures |Apply(s, step).cpus| == |s.cpus| && s.cpus[c].queue <= Apply(s, step).cpus[c].queue
  {
    if step.WakeRun? || step.RescueRun? {
      QueueReadied(s, step, c);
    }
  }

  lemma QueueReadied(s: State, step: Step, c: nat)
    requires Enabled(s, step) && c < |s.cpus| && (step.WakeRun? || step.RescueRun?)
    ensures |Apply(s, step).cpus| == |s.cpus| && s.cpus[c].queue <= Apply(s, step).cpus[c].queue
  {
    var p := s.cpus[step.cpu].phase;
    var m := if step.WakeRun? then Wake(s, p.addr, p.count) else Rescue(s, p.tid, step.now);
    if step.WakeRun? && Chosen(s, p.addr, p.count) != [] { ReadyAllFrame(s, Chosen(s, p.addr, p.count)); }
    assert s.cpus[c].queue <= m.cpus[c].queue;
  }

  lemma PositionStep(s: State, step: Step, c: nat, p: nat)
    requires Enabled(s, step) && c < |s.cpus| && p < |s.cpus[c].queue|
    ensures var r := Apply(s, step);
            && |r.cpus| == |s.cpus|
            && (!PopsOn(s, step, c) ==> p < |r.cpus[c].queue| && r.cpus[c].queue[p] == s.cpus[c].queue[p])
            && (PopsOn(s, step, c) && p > 0 ==> p - 1 < |r.cpus[c].queue| && r.cpus[c].queue[p - 1] == s.cpus[c].queue[p])
  {
    if PopsOn(s, step, c) {
      QueuePop(s, step, c);
      assert p > 0 ==> s.cpus[c].queue[1..][p - 1] == s.cpus[c].queue[p];
    } else {
      QueueGrow(s, step, c);
    }
  }

  /** The number of switches on CPU `c` among the steps i, ..., j-1. */
  ghost function Switches(states: seq<State>, steps: seq<Step>, c: nat, i: nat, j: nat): nat
    requires IsRun(states, steps) && i <= j < |states|
    decreases j
  {
    if i == j then 0
    else Switches(states, steps, c, i, j - 1) + if PopsOn(states[j - 1], steps[j - 1], c) then 1 else 0
  }

  /** The position of a queued thread is its first position less the switches since: a measure
      that no spawn, wake or rescue increases. */
  lemma {:induction false} Advances(states: seq<State>, steps: seq<Step>, c: nat, i: nat, j: nat, k: nat)
    requires IsRun(states, steps) && i <= j < |states|
    requires c < |states[i].cpus| && k < |states[i].cpus[c].queue|
    requires Switches(states, steps, c, i, j) <= k
    ensures c < |states[j].cpus|
    ensures var p := k - Switches(states, steps, c, i, j);
            p < |states[j].cpus[c].queue| && states[j].cpus[c].queue[p] == states[i].cpus[c].queue[k]
    decreases j
  {
    if i < j {
      Advances(states, steps, c, i, j - 1, k);
      assert StepAt(states, steps, j - 1);
      PositionStep(states[j - 1], steps[j - 1], c, k - Switches(states, steps, c, i, j - 1));
    }
  }

  /** A thread at position k of CPU `c`'s queue is taken by the (k+1)-st switch on `c`. */
  lemma {:induction false} BoundedWaiting(states: seq<State>, steps: seq<Step>, c: nat, i: nat, j: nat, k: nat)
    requires IsRun(states, steps) && i <= j < |states|
    requires c < |states[i].cpus| && k < |states[i].cpus[c].queue|
    requires Switches(states, steps, c, i, j) > k
    ensures exists m: nat :: i <= m < j && Taken(states, steps, c, i, m, k)
    decreases j
  {
    if Switches(states, steps, c, i, j - 1) > k {
      BoundedWaiting(states, steps, c, i, j - 1, k);
    } else {
      TakenBySwitch(states, steps, c, i, j - 1, k);
    }
  }

  lemma TakenBySwitch(states: seq<State>, steps: seq<Step>, c: nat, i: nat, m: nat, k: nat)
    requires IsRun(states, steps) && i <= m < |steps|
    requires c < |states[i].cpus| && k < |states[i].cpus[c].queue|
    requires Switches(states, steps, c, i, m) == k && PopsOn(states[m], steps[m], c)
    ensures Taken(states, steps, c, i, m, k)
  {
    Advances(states, steps, c, i, m, k);
    assert StepAt(states, steps, m);
    QueuePop(states[m], steps[m], c);
  }

  /** Step m is the (k+1)-st switch on `c` since i, and hands the CPU to the thread that was at
      position k then. */
  ghost predicate Taken(states: seq<State>, steps: seq<Step>, c: nat, i: nat, m: nat, k: nat)
    requires IsRun(states, steps) && i <= m < |steps|
    requires c < |states[i].cpus| && k < |states[i].cpus[c].queue|
  {
    var t := states[i].cpus[c].queue[k];
    && PopsOn(states[m], steps[m], c)
    && Switches(states, steps, c, i, m) == k
    && states[m].cpus[c].queue[0] == t
    && c < |states[m + 1].cpus|
    && (states[m + 1].cpus[c].current == Some(t) || states[m + 1].cpus[c].phase == IdleHand(t))
  }

  // ---------- Timeouts ----------

  predicate Sleeps(s: State, t: nat) {
    IsThread(s, t) && s.threads[t].value.state == Blocked
  }

  /** The step ends t's sleep by a rescue that finds t's deadline passed. */
  predicate ExpiredRescue(s: State, step: Step, t: nat) {
    && step.RescueRun? && step.cpu < |s.cpus| && s.cpus[step.cpu].phase.RescueLocked?
    && s.cpus[step.cpu].phase.tid == t
    && Sleeps(s, t) && s.threads[t].value.deadline != 0 && step.now >= s.threads[t].value.deadline
  }

  predicate ReturnsFor(s: State, step: Step, t: nat) {
    step.WaitReturn? && step.cpu < |s.cpus| && s.cpus[step.cpu].current == Some(t)
  }

  lemma {:induction false} ReadyAllTimedOut(s: State, l: seq<nat>, t: nat)
    requires AllReadyable(s, l) && IsThread(s, t)
    ensures var r := ReadyAll(s, l); IsThread(r, t) && r.threads[t].value.timedOut == s.threads[t].value.timedOut
    decreases |l|
  {
    if l != [] {
      assert forall k :: 0 <= k < |l[1..]| ==> l[1..][k] == l[k + 1];
      ReadyAllTimedOut(ReadyOne(s, l[0]), l[1..], t);
    }
  }

  lemma ReturnerIsAwake(s: State, step: Step, t: nat)
    requires Inv(s) && Enabled(s, step)
    ensures ReturnsFor(s, step, t) ==> !Sleeps(s, t)
  {
    if ReturnsFor(s, step, t) { CurrentPlace(s, step.cpu, t); }
  }

  ghost predicate TimedOutChange(s: State, r: State, step: Step, t: nat) {
    && IsThread(s, t) && IsThread(r, t)
    && (Sleeps(s, t) && !Sleeps(r, t) ==> (r.threads[t].value.timedOut <==> ExpiredRescue(s, step, t)))
    && (!Sleeps(s, t) && !Sleeps(r, t) ==> r.threads[t].value.timedOut == s.threads[t].value.timedOut)
  }

  /** The timed-out mark of a thread changes only when its wait begins, ends, or is rescued. */
  lemma TimedOutStep(s: State, step: Step, t: nat)
    requires Inv(s) && Enabled(s, step) && IsThread(s, t) && !ReturnsFor(s, step, t)
    ensures TimedOutChange(s, Apply(s, step), step, t)
  {
    assert WaitOk(s.threads[t].value);
    if step.WakeRun? || step.RescueRun? {
      TimedOutReadied(s, step, t);
    } else if step.Exit? {
      CurrentPlace(s, step.cpu, s.cpus[step.cpu].current.value);
    } else {
      TimedOutQuiet(s, step, t);
    }
  }

  lemma TimedOutReadied(s: State, step: Step, t: nat)
    requires Enabled(s, step) && IsThread(s, t) && WaitOk(s.threads[t].value) && (step.WakeRun? || step.RescueRun?)
    ensures TimedOutChange(s, Apply(s, step), step, t)
  {
    var p := s.cpus[step.cpu].phase;
    if step.WakeRun? {
      if Chosen(s, p.addr, p.count) != [] { ReadyAllTimedOut(s, Chosen(s, p.addr, p.count), t); }
    } else {
      assert Apply(s, step).threads == Rescue(s, p.tid, step.now).threads;
    }
  }

  lemma TimedOutQuiet(s: State, step: Step, t: nat)
    requires Inv(s) && Enabled(s, step) && IsThread(s, t) && !ReturnsFor(s, step, t)
    requires !step.WakeRun? && !step.RescueRun? && !step.Exit?
    ensures var r := Apply(s, step);
            IsThread(r, t) && (Sleeps(r, t) || (!Sleeps(s, t) && r.threads[t].value.timedOut == s.threads[t].value.timedOut))
  {
  }

  lemma {:induction false} TimedOutKept(states: seq<State>, steps: seq<Step>, k: nat, j: nat, t: nat)
    requires IsRun(states, steps) && Init(states[0]) && k <= j < |states| && IsThread(states[k], t)
    requires forall m :: k <= m <= j ==> !Sleeps(states[m], t)
    requires forall m :: k <= m < j ==> !ReturnsFor(states[m], steps[m], t)
    ensures IsThread(states[j], t) && states[j].threads[t].value.timedOut == states[k].threads[t].value.timedOut
    decreases j
  {
    if k < j {
      TimedOutKept(states, steps, k, j - 1, t);
      RunInv(states, steps, j - 1);
      assert StepAt(states, steps, j - 1);
      TimedOutStep(states[j - 1], steps[j - 1], t);
    }
  }

  /** A blocked wait of `t` (readied by step k, returning in step j) returns -ETIMEDOUT if and only
      if step k was a rescue with the deadline passed; otherwise it returns 0. */
  lemma TimeoutExact(states: seq<State>, steps: seq<Step>, k: nat, j: nat, t: nat)
    requires IsRun(states, steps) && Init(states[0]) && k < j < |steps|
    requires Sleeps(states[k], t) && (forall m :: k < m <= j ==> !Sleeps(states[m], t))
    requires (forall m :: k < m < j ==> !ReturnsFor(states[m], steps[m], t)) && ReturnsFor(states[j], steps[j], t)
    ensures Enabled(states[j], WaitReturn(steps[j].cpu))
    ensures WaitResult(states[j], steps[j].cpu) == ETIMEDOUT <==> ExpiredRescue(states[k], steps[k], t)
    ensures WaitResult(states[j], steps[j].cpu) in {0, ETIMEDOUT}
  {
    RunInv(states, steps, k);
    assert StepAt(states, steps, k) && StepAt(states, steps, j);
    ReturnerIsAwake(states[k], steps[k], t);
    TimedOutStep(states[k], steps[k], t);
    TimedOutKept(states, steps, k + 1, j, t);
  }

  /** Returning from a wait takes the timeout mark and the deadline off the thread, and changes no other. */
  lemma ReturnClears(s: State, c: nat, t: nat)
    requires Inv(s) && Enabled(s, WaitReturn(c)) && s.cpus[c].current == Some(t)
    ensures var r := Apply(s, WaitReturn(c));
            && r.threads == s.threads[t := r.threads[t]] && r.cpus[c].phase == Kernel && r.locks == s.locks
            && IsThread(r, t) && !r.threads[t].value.timedOut && r.threads[t].value.deadline == 0
            && r.threads[t].value.state == s.threads[t].value.state && r.threads[t].value.state in {Ready, Running}
  {
    CurrentPlace(s, c, t);
  }

  // ---------- Watchdog tick and drain ----------

  predicate Rescuable(s: State, t: nat) {
    Sleeps(s, t) && s.threads[t].value.futexAddr != 0
  }

  /** process_rescues for slots i, ..., with every lock it asks for free. */
  function DrainFrom(s: State, i: nat, now: nat): (r: State)
    requires Shape(s) && i <= MAX_THREADS
    ensures Shape(r)
    decreases MAX_THREADS - i
  {
    if i == MAX_THREADS then s
    else
      var s1 := s.(rescue := s.rescue[i := false]);
      var s2 := if s.rescue[i] && Rescuable(s, i) then Rescue(s1, i, now) else s1;
      DrainFrom(s2, i + 1, now)
  }

  ghost function RescuedThread(th: Thread, now: nat): Thread {
    th.(state := Ready, futexAddr := 0, blockedSince := 0, deadline := 0,
        timedOut := th.timedOut || (th.deadline != 0 && now >= th.deadline))
  }

  /** A drain ends exactly the flagged sleeps, and clears every flag. */
  lemma {:induction false} DrainExact(s: State, i: nat, now: nat, t: nat)
    requires Shape(s) && i <= MAX_THREADS && t < MAX_THREADS
    ensures var r := DrainFrom(s, i, now);
            && (r.rescue[t] <==> t < i && s.rescue[t])
            && r.threads[t] == (if t >= i && s.rescue[t] && Rescuable(s, t) then Some(RescuedThread(s.threads[t].value, now))
                                else s.threads[t])
    decreases MAX_THREADS - i
  {
    if i < MAX_THREADS {
      var s1 := s.(rescue := s.rescue[i := false]);
      var s2 := if s.rescue[i] && Rescuable(s, i) then Rescue(s1, i, now) else s1;
      DrainExact(s2, i + 1, now, t);
    }
  }

  /** Why a tick rescues a sleeper: its futex word has changed, its deadline has come, or it has slept for five
      seconds without one. */
  predicate Due(s: State, t: nat, word: nat, now: nat) {
    Rescuable(s, t) &&
    var th := s.threads[t].value;
    || word != th.futexVal
    || (th.deadline != 0 && now >= th.deadline)
    || (th.deadline == 0 && th.blockedSince != 0 && now >= th.blockedSince + 5_000_000_000)
  }

  /** A tick sets exactly the flags of the sleepers that are due, and clears none. */
  lemma TickExact(s: State, words: seq<nat>, now: nat, t: nat)
    requires Shape(s) && |words| == MAX_THREADS && t < MAX_THREADS
    ensures Ticked(s, words, now)[t] <==> s.rescue[t] || Due(s, t, words[t], now)
  {
  }

  /** After a tick and a drain nobody sleeps who was due at the tick, and nobody else is disturbed unless
      already flagged. */
  lemma TickThenDrain(s: State, words: seq<nat>, tick: nat, now: nat, t: nat)
    requires Shape(s) && |words| == MAX_THREADS && IsThread(s, t)
    ensures var r := DrainFrom(s.(rescue := Ticked(s, words, tick)), 0, now);
            && (Due(s, t, words[t], tick) ==>
                  r.threads[t] == Some(RescuedThread(s.threads[t].value, now)) && !Sleeps(r, t))
            && (!Due(s, t, words[t], tick) && !s.rescue[t] ==> r.threads[t] == s.threads[t])
            && (forall u: nat :: u < MAX_THREADS ==> !r.rescue[u])
  {
    var m := s.(rescue := Ticked(s, words, tick));
    TickExact(s, words, tick, t);
    DrainExact(m, 0, now, t);
    forall u: nat | u < MAX_THREADS ensures !DrainFrom(m, 0, now).rescue[u] {
      DrainExact(m, 0, now, u);
    }
  }

  /** A drain keeps the scheduler's invariant, so it may run between any two steps. */
  lemma {:induction false} DrainKeeps(s: State, i: nat, now: nat)
    requires Inv(s) && i <= MAX_THREADS
    ensures Inv(DrainFrom(s, i, now))
    decreases MAX_THREADS - i
  {
    if i < MAX_THREADS {
      var s1 := s.(rescue := s.rescue[i := false]);
      FlagKeeps(s, i);
      RescueKeeps(s1, i, now);
      DrainKeeps(if s.rescue[i] && Rescuable(s, i) then Rescue(s1, i, now) else s1, i + 1, now);
    }
  }

  lemma FlagKeeps(s: State, i: nat)
    requires Inv(s) && i < MAX_THREADS
    ensures Inv(s.(rescue := s.rescue[i := false]))
  {
    var r := s.(rescue := s.rescue[i := false]);
    assert CpuOk(s, 0);
    OtherCpus(s, r, 0);
    HandsFrame(s, r);
    LocksFrame(s, r);
    forall t: nat | IsThread(r, t) ensures PlaceOk(r, t) && ContextOk(r, t) {
      assert PlaceOk(s, t) && ContextOk(s, t);
    }
  }
}
