/**
 Safety of the scheduler over whole runs: exact placement of threads, exact hand-over of the
 bucket locks, and no resume of a context that has not been saved. Placement is exact precisely
 as long as no rescue acts under the lock of an address the thread has left.
 */
module SchedTheorems {
  import opened Wrappers
  import opened Lists
  import opened SchedModel
  import opened SchedInvariant

  lemma {:induction false} RunInv(states: seq<State>, steps: seq<Step>, i: nat)
    requires IsRun(states, steps) && Init(states[0]) && i < |states|
    ensures Inv(states[i])
    decreases i
  {
    if i == 0 {
      InitInv(states[0]);
    } else {
      RunInv(states, steps, i - 1);
      assert StepAt(states, steps, i - 1);
      StepKeeps(states[i - 1], steps[i - 1]);
    }
  }

  // ---------- Exact placement ----------

  /** A live runnable thread is in exactly one place, a sleeper in none (it is still `current`
      only while its own wait is switching it out), a dead thread nowhere. */
  ghost predicate ExactPlace(s: State, t: nat)
    requires Shape(s) && IsThread(s, t)
  {
    match s.threads[t].value.state
    case Dead => !Queued(s, t) && !OnCpu(s, t) && !InHand(s, t)
    case Blocked => !Queued(s, t) && !InHand(s, t) && (OnCpu(s, t) <==> Marked(s, t))
    case _ => ExactlyOne(OnCpu(s, t), Queued(s, t), InHand(s, t)) && !Marked(s, t)
  }

  ghost predicate AllExact(s: State)
    requires Shape(s)
  {
    forall t: nat :: IsThread(s, t) ==> ExactPlace(s, t)
  }

  /** No runnable thread is inside the window between being marked and being switched out. */
  ghost predicate Clean(s: State)
    requires Shape(s)
  {
    forall t: nat :: IsThread(s, t) && Marked(s, t) ==> s.threads[t].value.state == Blocked
  }

  lemma CleanIsExact(s: State)
    requires Inv(s)
    ensures Clean(s) <==> AllExact(s)
  {
    forall t: nat | IsThread(s, t)
      ensures ExactPlace(s, t) <==> (Marked(s, t) ==> s.threads[t].value.state == Blocked)
    {
      assert PlaceOk(s, t);
      assert CpuOk(s, s.threads[t].value.home);
    }
  }

  /** The rescue acts under the lock of the bucket the thread sleeps in now. */
  ghost predicate FreshRescue(s: State, step: Step) {
    step.RescueRun? && step.cpu < |s.cpus| && s.cpus[step.cpu].phase.RescueLocked? ==>
      var p := s.cpus[step.cpu].phase;
      IsThread(s, p.tid) && s.threads[p.tid].value.state == Blocked ==>
        Bucket(s.threads[p.tid].value.futexAddr) == Bucket(p.addr)
  }

  /** Whoever owns a bucket lock shuts out the waits of that bucket: no thread of the bucket is
      between being marked and being switched out, and every sleeper of it has its context saved. */
  lemma OwnerShutsOutWaits(s: State, c: nat, b: nat, t: nat)
    requires Inv(s) && OwnerAt(s, c, b) && b < FUTEX_BUCKETS
    requires !s.cpus[c].phase.WaitMarked? && !s.cpus[c].phase.Switching?
    requires IsThread(s, t) && s.threads[t].value.state == Blocked && Bucket(s.threads[t].value.futexAddr) == b
    ensures !Marked(s, t) && s.threads[t].value.saved
  {
    var h := s.threads[t].value.home;
    assert LockOk(s, b) && CpuOk(s, h) && PlaceOk(s, t) && ContextOk(s, t);
    if Marked(s, t) || Executing(s.cpus[h]) == Some(t) {
      assert OwnerAt(s, h, b);
      assert false;
    }
  }

  lemma {:induction false} ReadyAllClean(s: State, l: seq<nat>)
    requires Shape(s) && AllReadyable(s, l) && Clean(s)
    requires forall k :: 0 <= k < |l| ==> !Marked(s, l[k])
    ensures var r := ReadyAll(s, l); Shape(r) ==> Clean(r)
    decreases |l|
  {
    if l != [] {
      var m := ReadyOne(s, l[0]);
      assert Shape(m);
      forall k | 0 <= k < |l[1..]|
        ensures IsThread(m, l[1..][k]) && m.threads[l[1..][k]].value.home < |m.cpus| && !Marked(m, l[1..][k])
      {
        assert l[1..][k] == l[k + 1];
      }
      ReadyAllClean(m, l[1..]);
    }
  }

  lemma WakeClean(s: State, c: nat)
    requires Inv(s) && Clean(s) && Enabled(s, WakeRun(c))
    ensures var m := Wake(s, s.cpus[c].phase.addr, s.cpus[c].phase.count); Shape(m) ==> Clean(m)
  {
    var p := s.cpus[c].phase;
    var l := Chosen(s, p.addr, p.count);
    assert OwnerAt(s, c, Bucket(p.addr));
    forall k | 0 <= k < |l| ensures !Marked(s, l[k]) {
      OwnerShutsOutWaits(s, c, Bucket(p.addr), l[k]);
    }
    if l != [] { ReadyAllClean(s, l); }
  }

  lemma UnlockClean(m: State, c: nat, b: nat)
    requires Shape(m) && Clean(m) && c < |m.cpus| && b < FUTEX_BUCKETS
    ensures var r := SetLock(SetPhase(m, c, Kernel), b, false); Shape(r) && Clean(r)
  {
    var r := SetLock(SetPhase(m, c, Kernel), b, false);
    forall t: nat | IsThread(r, t) && Marked(r, t) ensures r.threads[t].value.state == Blocked {
      assert IsThread(m, t) && Marked(m, t);
    }
  }

  /** A rescue breaks exact placement if and only if it readies a thread that its own CPU is still
      switching out. */
  lemma RescueExactIff(s: State, c: nat, now: nat)
    requires Inv(s) && Clean(s) && Enabled(s, RescueRun(c, now))
    ensures var r := Apply(s, RescueRun(c, now));
            var t := s.cpus[c].phase.tid;
            Inv(r) && (AllExact(r) <==> !(IsThread(s, t) && Marked(s, t)))
  {
    var r := Apply(s, RescueRun(c, now));
    var t := s.cpus[c].phase.tid;
    StepKeeps(s, RescueRun(c, now));
    CleanIsExact(r);
    if IsThread(s, t) && Marked(s, t) {
      assert s.threads[t].value.state == Blocked;
      assert CpuOk(s, c) && c != s.threads[t].value.home;
      assert Marked(r, t) && r.threads[t].value.state == Ready;
    } else {
      forall u: nat | IsThread(r, u) && Marked(r, u) ensures r.threads[u].value.state == Blocked {
        assert IsThread(s, u) && Marked(s, u);
      }
    }
  }

  /** That takes a stale address: under the right lock it cannot happen. */
  lemma FreshRescueExact(s: State, c: nat, now: nat)
    requires Inv(s) && Clean(s) && Enabled(s, RescueRun(c, now)) && FreshRescue(s, RescueRun(c, now))
    ensures var r := Apply(s, RescueRun(c, now)); Inv(r) && AllExact(r)
  {
    var p := s.cpus[c].phase;
    if IsThread(s, p.tid) && Marked(s, p.tid) {
      assert OwnerAt(s, c, Bucket(p.addr));
      OwnerShutsOutWaits(s, c, Bucket(p.addr), p.tid);
    }
    RescueExactIff(s, c, now);
  }

  /** Only a futex_wait opens the window ... */
  lemma WindowOpens(s: State, step: Step, h: nat)
    requires Enabled(s, step) && !step.WakeRun? && !step.RescueRun? && h < |s.cpus|
    ensures var r := Apply(s, step);
            h < |r.cpus| && r.cpus[h].phase.WaitMarked? ==>
              || r.cpus[h] == s.cpus[h].(queue := r.cpus[h].queue)
              || (IsThread(r, r.cpus[h].phase.tid) && r.threads[r.cpus[h].phase.tid].value.state == Blocked)
  {
  }

  /** ... and no step but a wake, a rescue or its own exit ends a sleep. */
  lemma SleepLasts(s: State, step: Step, t: nat)
    requires Enabled(s, step) && !step.WakeRun? && !step.RescueRun?
    requires IsThread(s, t) && s.threads[t].value.state == Blocked
    requires step.Exit? ==> s.cpus[step.cpu].current != Some(t)
    ensures var r := Apply(s, step); IsThread(r, t) && r.threads[t].value.state == Blocked
  {
  }

  lemma CpuCount(s: State, step: Step)
    requires Enabled(s, step) && !step.WakeRun? && !step.RescueRun?
    ensures |Apply(s, step).cpus| == |s.cpus|
  {
  }

  lemma QuietClean(s: State, step: Step)
    requires Inv(s) && Clean(s) && Enabled(s, step) && !step.WakeRun? && !step.RescueRun?
    ensures var r := Apply(s, step); Shape(r) ==> Clean(r)
  {
    var r := Apply(s, step);
    CpuCount(s, step);
    if Shape(r) {
      forall t: nat | IsThread(r, t) && Marked(r, t) ensures r.threads[t].value.state == Blocked {
        var h := r.threads[t].value.home;
        WindowOpens(s, step, h);
        assert CpuOk(s, h);
        if r.threads[t].value.state != Blocked {
          assert Marked(s, t);
          if step.Exit? { CurrentPlace(s, step.cpu, s.cpus[step.cpu].current.value); }
          SleepLasts(s, step, t);
        }
      }
    }
  }

  lemma CleanStep(s: State, step: Step)
    requires Inv(s) && Clean(s) && Enabled(s, step) && FreshRescue(s, step)
    ensures Inv(Apply(s, step)) && Clean(Apply(s, step))
  {
    StepKeeps(s, step);
    match step
    case WakeRun(c) =>
      var p := s.cpus[c].phase;
      WakeClean(s, c);
      UnlockClean(Wake(s, p.addr, p.count), c, Bucket(p.addr));
    case RescueRun(c, now) =>
      FreshRescueExact(s, c, now);
      CleanIsExact(Apply(s, step));
    case _ => QuietClean(s, step);
  }

  lemma {:induction false} CleanRun(states: seq<State>, steps: seq<Step>, i: nat)
    requires IsRun(states, steps) && Init(states[0]) && i < |states|
    requires forall k :: 0 <= k < |steps| ==> FreshRescue(states[k], steps[k])
    ensures Inv(states[i]) && Clean(states[i])
    decreases i
  {
    if i == 0 {
      InitInv(states[0]);
    } else {
      CleanRun(states, steps, i - 1);
      assert StepAt(states, steps, i - 1);
      CleanStep(states[i - 1], steps[i - 1]);
    }
  }

  /** In every run in which no rescue acts under a stale address, every thread is in exactly one
      place in every state, and only its home CPU ever executes it. */
  lemma ExactPlacement(states: seq<State>, steps: seq<Step>, i: nat)
    requires IsRun(states, steps) && Init(states[0]) && i < |states|
    requires forall k :: 0 <= k < |steps| ==> FreshRescue(states[k], steps[k])
    ensures Shape(states[i]) && AllExact(states[i])
    ensures forall c: nat, t: nat :: c < |states[i].cpus| && Executing(states[i].cpus[c]) == Some(t) ==>
              Lives(states[i], c, t)
    ensures forall c: nat :: c < |states[i].cpus| ==> NoDup(states[i].cpus[c].queue)
  {
    var s := states[i];
    CleanRun(states, steps, i);
    CleanIsExact(s);
    forall c: nat, t: nat | c < |s.cpus| && Executing(s.cpus[c]) == Some(t) ensures Lives(s, c, t) {
      assert CpuOk(s, c);
    }
    forall c: nat | c < |s.cpus| ensures NoDup(s.cpus[c].queue) { assert CpuOk(s, c); }
  }

  /** In every run whatsoever, a thread is never on one queue twice, never on two CPUs, and
      outside the window of its own wait never in two places. */
  lemma PlacementAlways(states: seq<State>, steps: seq<Step>, i: nat, t: nat)
    requires IsRun(states, steps) && Init(states[0]) && i < |states|
    requires Shape(states[i]) && IsThread(states[i], t)
    ensures !Marked(states[i], t) ==> ExactPlace(states[i], t)
    ensures forall c: nat :: c < |states[i].cpus| && (t in states[i].cpus[c].queue || states[i].cpus[c].current == Some(t)) ==>
              c == states[i].threads[t].value.home
  {
    var s := states[i];
    RunInv(states, steps, i);
    assert PlaceOk(s, t);
    forall c: nat | c < |s.cpus| && (t in s.cpus[c].queue || s.cpus[c].current == Some(t))
      ensures c == s.threads[t].value.home
    {
      assert CpuOk(s, c);
    }
  }

  // ---------- Lock hand-over ----------

  /** In every state of every run: a bucket lock is held exactly when one CPU owns it; a CPU with
      a lock in its pending-unlock slot has not yet resumed, so it cannot take another; and the
      forced unlock of a resume opens a lock that is held and was handed to that very CPU. */
  lemma HandoverExact(states: seq<State>, steps: seq<Step>, i: nat, b: nat)
    requires IsRun(states, steps) && Init(states[0]) && i < |steps| && b < FUTEX_BUCKETS
    ensures Shape(states[i]) && Shape(states[i + 1]) && Enabled(states[i], steps[i])
    ensures var s := states[i];
            && (s.locks[b] <==> exists c: nat :: OwnerAt(s, c, b))
            && (forall c: nat, d: nat :: OwnerAt(s, c, b) && OwnerAt(s, d, b) ==> c == d)
    ensures var s := states[i]; var step := steps[i];
            (step.WaitLock? || step.WakeLock? || step.RescueTake? || step.RescueLock?) ==>
              s.cpus[step.cpu].pendingUnlock.None?
    ensures var s := states[i]; var step := steps[i];
            step.Release? && s.cpus[step.cpu].pendingUnlock == Some(b) ==>
              s.locks[b] && OwnerAt(s, step.cpu, b) && !states[i + 1].locks[b]
  {
    var s := states[i];
    RunInv(states, steps, i);
    RunInv(states, steps, i + 1);
    assert StepAt(states, steps, i) && LockOk(s, b);
    if !steps[i].Tick? { assert CpuOk(s, steps[i].cpu); }
    if steps[i].Release? && s.cpus[steps[i].cpu].pendingUnlock == Some(b) { assert OwnerAt(s, steps[i].cpu, b); }
  }

  // ---------- Contexts ----------

  /** A context is loaded only after it has been saved (or by the thread switching to itself), and
      futex_wake only ever readies threads whose context has been saved. */
  lemma NoStaleResume(states: seq<State>, steps: seq<Step>, i: nat, t: nat)
    requires IsRun(states, steps) && Init(states[0]) && i < |steps|
    ensures Enabled(states[i], steps[i])
    ensures var s := states[i]; var step := steps[i];
            step.Switch? && s.cpus[step.cpu].phase.to == Some(t) ==>
              IsThread(s, t) && (s.threads[t].value.saved || s.cpus[step.cpu].phase.from == Some(t))
    ensures var s := states[i]; var step := steps[i];
            step.WakeRun? && t in Chosen(s, s.cpus[step.cpu].phase.addr, s.cpus[step.cpu].phase.count) ==>
              s.threads[t].value.saved
  {
    var s := states[i];
    var step := steps[i];
    RunInv(states, steps, i);
    assert StepAt(states, steps, i);
    if step.Switch? && s.cpus[step.cpu].phase.to == Some(t) {
      assert CpuOk(s, step.cpu) && ContextOk(s, t);
    }
    if step.WakeRun? {
      var p := s.cpus[step.cpu].phase;
      assert OwnerAt(s, step.cpu, Bucket(p.addr));
      if t in Chosen(s, p.addr, p.count) { OwnerShutsOutWaits(s, step.cpu, Bucket(p.addr), t); }
    }
  }
}
