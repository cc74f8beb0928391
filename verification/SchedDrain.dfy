/**
 Watchdog rescues while every CPU keeps running. A tick flags the overdue sleepers; process_rescues on
 any CPU takes a flag, then the lock, then readies the thread, and other CPUs act in between. A sleep
 that the tick found overdue outlasts another CPU's whole drain exactly while some CPU stands between
 taking the flag and readying the thread.
 */
module SchedDrain {
  import opened Wrappers
  import opened SchedModel
  import opened SchedInvariant
  import opened SchedTheorems
  import opened SchedFutex
  import opened SchedProgress
  import opened SchedRace

  /** CPU `c` has taken the rescue flag of `t` and not readied it yet. */
  predicate Holds(s: State, c: nat, t: nat) {
    c < |s.cpus| && (s.cpus[c].phase.RescueSnap? || s.cpus[c].phase.RescueLocked?) && s.cpus[c].phase.tid == t
  }

  predicate Wakes(s: State, step: Step, t: nat) {
    && step.WakeRun? && step.cpu < |s.cpus| && s.cpus[step.cpu].phase.WakeLocked?
    && t in Chosen(s, s.cpus[step.cpu].phase.addr, s.cpus[step.cpu].phase.count)
  }

  predicate Rescues(s: State, step: Step, t: nat) {
    step.RescueRun? && Holds(s, step.cpu, t)
  }

  ghost predicate SleepChange(s: State, step: Step, r: State, t: nat) {
    && (Sleeps(r, t) <==> !Wakes(s, step, t) && !Rescues(s, step, t))
    && (Sleeps(r, t) ==> Sleeps(s, t) && r.threads[t].value.futexAddr == s.threads[t].value.futexAddr)
  }

  /** A sleep ends in a step exactly when the step is a wake that chooses the thread or the end of a rescue of it. */
  lemma SleepEnds(s: State, step: Step, t: nat)
    requires Inv(s) && Enabled(s, step) && Sleeps(s, t)
    ensures SleepChange(s, step, Apply(s, step), t)
  {
    if step.WakeRun? || step.RescueRun? {
      SleepReadied(s, step, t);
    } else {
      if (step.Exit? || step.WaitCheck?) && s.cpus[step.cpu].current.Some? {
        CurrentPlace(s, step.cpu, s.cpus[step.cpu].current.value);
      }
      SleepQuiet(s, step, t);
    }
  }

  lemma SleepReadied(s: State, step: Step, t: nat)
    requires Enabled(s, step) && Sleeps(s, t) && (step.WakeRun? || step.RescueRun?)
    ensures SleepChange(s, step, Apply(s, step), t)
  {
    var p := s.cpus[step.cpu].phase;
    if step.WakeRun? {
      WakeExact(s, p.addr, p.count);
      assert Apply(s, step).threads == Wake(s, p.addr, p.count).threads;
    } else {
      assert Apply(s, step).threads == Rescue(s, p.tid, step.now).threads;
    }
  }

  lemma SleepQuiet(s: State, step: Step, t: nat)
    requires Enabled(s, step) && Sleeps(s, t) && !step.WakeRun? && !step.RescueRun?
    requires step.Exit? || step.WaitCheck? ==> s.cpus[step.cpu].current != Some(t)
    ensures var r := Apply(s, step); Sleeps(r, t) && r.threads[t].value.futexAddr == s.threads[t].value.futexAddr
  {
  }

  /** A CPU comes to hold a thread by taking its flag, and ceases to by ending the rescue. */
  lemma HoldsStep(s: State, step: Step, c: nat, t: nat)
    requires Enabled(s, step)
    ensures Holds(Apply(s, step), c, t) <==>
            (Holds(s, c, t) && !(step.RescueRun? && step.cpu == c)) || (step == RescueTake(c, t) && Rescuable(s, t))
  {
    if step.WakeRun? || step.RescueRun? {
      HoldsReadied(s, step, c, t);
    } else {
      HoldsQuiet(s, step, c, t);
    }
  }

  lemma HoldsReadied(s: State, step: Step, c: nat, t: nat)
    requires Enabled(s, step) && (step.WakeRun? || step.RescueRun?)
    ensures Holds(Apply(s, step), c, t) <==> Holds(s, c, t) && !(step.RescueRun? && step.cpu == c)
  {
    var p := s.cpus[step.cpu].phase;
    var m := if step.WakeRun? then Wake(s, p.addr, p.count) else Rescue(s, p.tid, step.now);
    if step.WakeRun? && Chosen(s, p.addr, p.count) != [] { ReadyAllFrame(s, Chosen(s, p.addr, p.count)); }
    assert |m.cpus| == |s.cpus| && (c < |s.cpus| ==> m.cpus[c].phase == s.cpus[c].phase);
  }

  lemma HoldsQuiet(s: State, step: Step, c: nat, t: nat)
    requires Enabled(s, step) && !step.WakeRun? && !step.RescueRun?
    ensures Holds(Apply(s, step), c, t) <==> Holds(s, c, t) || (step == RescueTake(c, t) && Rescuable(s, t))
  {
    if step.Tick? || step.cpu != c {
      PhaseOther(s, step, c);
    } else {
      HoldsOwn(s, step, t);
    }
  }

  lemma PhaseOther(s: State, step: Step, c: nat)
    requires Enabled(s, step) && !step.WakeRun? && !step.RescueRun? && (step.Tick? || step.cpu != c)
    ensures var r := Apply(s, step); |r.cpus| == |s.cpus| && (c < |s.cpus| ==> r.cpus[c].phase == s.cpus[c].phase)
  {
  }

  lemma HoldsOwn(s: State, step: Step, t: nat)
    requires Enabled(s, step) && !step.WakeRun? && !step.RescueRun? && !step.Tick?
    ensures Holds(Apply(s, step), step.cpu, t) <==>
            Holds(s, step.cpu, t) || (step.RescueTake? && step.tid == t && Rescuable(s, t))
  {
  }

  lemma FlagStep(s: State, step: Step, t: nat)
    requires Enabled(s, step) && t < MAX_THREADS
    ensures var r := Apply(s, step);
            && |r.rescue| == MAX_THREADS
            && (!step.Tick? ==> (r.rescue[t] <==> s.rescue[t] && !(step.RescueTake? && step.tid == t)))
            && (step.Tick? ==> (r.rescue[t] <==> s.rescue[t] || Due(s, t, step.words[t], step.now)))
  {
    if step.WakeRun? {
      var p := s.cpus[step.cpu].phase;
      if Chosen(s, p.addr, p.count) != [] { ReadyAllFrame(s, Chosen(s, p.addr, p.count)); }
    } else if step.Tick? {
      TickExact(s, step.words, step.now, t);
    }
  }

  // ---------- Over runs ----------

  /** `t` sleeps in every state from k to j: one and the same sleep. */
  ghost predicate Through(states: seq<State>, k: nat, j: nat, t: nat)
    requires j < |states|
  {
    forall i :: k <= i <= j ==> Sleeps(states[i], t)
  }

  ghost predicate Undisturbed(states: seq<State>, steps: seq<Step>, k: nat, j: nat, t: nat)
    requires IsRun(states, steps) && j < |states|
  {
    forall i :: k <= i < j ==> !Wakes(states[i], steps[i], t) && !Rescues(states[i], steps[i], t)
  }

  /** A thread asleep at k sleeps on until j exactly when until then no wake chose it and no rescue of it ended. */
  lemma {:induction false} SleepThroughIff(states: seq<State>, steps: seq<Step>, k: nat, j: nat, t: nat)
    requires IsRun(states, steps) && Init(states[0]) && k <= j < |states| && Sleeps(states[k], t)
    ensures Through(states, k, j, t) <==> Undisturbed(states, steps, k, j, t)
    decreases j
  {
    if k < j {
      SleepThroughIff(states, steps, k, j - 1, t);
      if Through(states, k, j - 1, t) {
        RunInv(states, steps, j - 1);
        assert StepAt(states, steps, j - 1);
        SleepEnds(states[j - 1], steps[j - 1], t);
        assert SleepChange(states[j - 1], steps[j - 1], states[j], t);
      }
      assert Through(states, k, j, t) ==> Through(states, k, j - 1, t);
      assert Undisturbed(states, steps, k, j, t) ==> Undisturbed(states, steps, k, j - 1, t);
    }
  }

  ghost predicate Held(s: State, t: nat) {
    exists c: nat :: Holds(s, c, t)
  }

  ghost predicate Covered(s: State, t: nat) {
    t < |s.rescue| && (s.rescue[t] || Held(s, t))
  }

  lemma HolderStays(s: State, step: Step, c: nat, t: nat)
    requires Inv(s) && Enabled(s, step) && Sleeps(s, t) && Sleeps(Apply(s, step), t) && Holds(s, c, t)
    ensures Holds(Apply(s, step), c, t)
  {
    SleepEnds(s, step, t);
    HoldsStep(s, step, c, t);
  }

  lemma CoverStep(s: State, step: Step, t: nat)
    requires Inv(s) && Enabled(s, step) && Rescuable(s, t) && Covered(s, t) && Sleeps(Apply(s, step), t)
    ensures Rescuable(Apply(s, step), t) && Covered(Apply(s, step), t)
  {
    SleepEnds(s, step, t);
    FlagStep(s, step, t);
    if Held(s, t) {
      var c: nat :| Holds(s, c, t);
      HolderStays(s, step, c, t);
    } else if step.RescueTake? && step.tid == t {
      HoldsStep(s, step, step.cpu, t);
      assert Holds(Apply(s, step), step.cpu, t);
    }
  }

  /** The tick at k finds the sleep of `t` due. */
  ghost predicate Flags(states: seq<State>, steps: seq<Step>, k: nat, t: nat)
    requires IsRun(states, steps) && k < |steps|
  {
    && steps[k].Tick? && Enabled(states[k], steps[k]) && t < MAX_THREADS
    && Due(states[k], t, steps[k].words[t], steps[k].now)
  }

  lemma {:induction false} CoverRun(states: seq<State>, steps: seq<Step>, k: nat, i: nat, t: nat)
    requires IsRun(states, steps) && Init(states[0]) && k < i < |states|
    requires Flags(states, steps, k, t) && Through(states, k, i, t)
    ensures Rescuable(states[i], t) && Covered(states[i], t)
    decreases i
  {
    assert StepAt(states, steps, i - 1);
    if i > k + 1 {
      CoverRun(states, steps, k, i - 1, t);
      RunInv(states, steps, i - 1);
      CoverStep(states[i - 1], steps[i - 1], t);
    }
  }

  lemma {:induction false} HolderKeeps(states: seq<State>, steps: seq<Step>, i: nat, j: nat, c: nat, t: nat)
    requires IsRun(states, steps) && Init(states[0]) && i <= j < |states|
    requires Through(states, i, j, t) && Holds(states[i], c, t)
    ensures Holds(states[j], c, t)
    decreases j
  {
    if i < j {
      HolderKeeps(states, steps, i, j - 1, c, t);
      RunInv(states, steps, j - 1);
      assert StepAt(states, steps, j - 1);
      HolderStays(states[j - 1], steps[j - 1], c, t);
    }
  }

  /** In state m, before state j, CPU `c` finds the flag of slot `t` clear or takes it. */
  ghost predicate Looks(states: seq<State>, steps: seq<Step>, c: nat, t: nat, m: nat, j: nat)
    requires IsRun(states, steps) && m <= j < |states|
  {
    && c < |states[m].cpus| && states[m].cpus[c].phase == Kernel && t < |states[m].rescue|
    && (!states[m].rescue[t] || (m < j && steps[m] == RescueTake(c, t)))
  }

  ghost predicate LooksBetween(states: seq<State>, steps: seq<Step>, c: nat, t: nat, a: nat, j: nat)
    requires IsRun(states, steps) && a <= j < |states|
  {
    exists m: nat :: a <= m <= j && Looks(states, steps, c, t, m, j)
  }

  /** CPU `c` runs process_rescues from state a to state j: it looks at every slot and is done. */
  ghost predicate Drains(states: seq<State>, steps: seq<Step>, c: nat, a: nat, j: nat)
    requires IsRun(states, steps) && a <= j < |states|
  {
    && c < |states[j].cpus| && states[j].cpus[c].phase == Kernel
    && forall t: nat :: t < MAX_THREADS ==> LooksBetween(states, steps, c, t, a, j)
  }

  /** Whatever the other CPUs do meanwhile: a sleep overdue at a tick outlasts a CPU's later drain only if another
      CPU has taken its flag and not readied it yet. */
  lemma OnlyHeldOutlasts(states: seq<State>, steps: seq<Step>, k: nat, a: nat, j: nat, c: nat, t: nat)
    requires IsRun(states, steps) && Init(states[0]) && k < a <= j < |states|
    requires Flags(states, steps, k, t) && Drains(states, steps, c, a, j) && Through(states, k, j, t)
    ensures exists d: nat :: d != c && Holds(states[j], d, t)
  {
    assert LooksBetween(states, steps, c, t, a, j);
    var m: nat :| a <= m <= j && Looks(states, steps, c, t, m, j);
    CoverRun(states, steps, k, m, t);
    if states[m].rescue[t] {
      assert StepAt(states, steps, m);
      HoldsStep(states[m], steps[m], c, t);
      HolderKeeps(states, steps, m + 1, j, c, t);
      assert false;
    } else {
      var d: nat :| Holds(states[m], d, t);
      HolderKeeps(states, steps, m, j, d, t);
    }
  }

  /** No rescue without a reason: a flag, or a CPU that has taken one, goes back to a tick that found the thread due. */
  lemma {:induction false} ClaimHasReason(states: seq<State>, steps: seq<Step>, i: nat, t: nat)
    requires IsRun(states, steps) && Init(states[0]) && i < |states| && Covered(states[i], t)
    ensures exists k: nat :: k < i && Flags(states, steps, k, t)
    decreases i
  {
    RunInv(states, steps, i);
    if i == 0 {
      NoClaimAtBoot(states[0], t);
    } else {
      assert StepAt(states, steps, i - 1);
      var s, step := states[i - 1], steps[i - 1];
      FlagStep(s, step, t);
      if Held(states[i], t) {
        var c: nat :| Holds(states[i], c, t);
        HoldsStep(s, step, c, t);
      }
      if Covered(s, t) {
        ClaimHasReason(states, steps, i - 1, t);
      } else {
        assert Flags(states, steps, i - 1, t);
      }
    }
  }

  lemma NoClaimAtBoot(s: State, t: nat)
    requires Init(s)
    ensures !Covered(s, t)
  {
    forall c: nat ensures !Holds(s, c, t) {
      if c < |s.cpus| { assert s.cpus[c].phase == Kernel; }
    }
  }

  // ---------- One flag, one rescue ----------

  /** At most one claim on `t` is about: its flag, or one CPU that has taken it. */
  ghost predicate OneClaim(s: State, t: nat) {
    && t < |s.rescue| && (s.rescue[t] ==> !Held(s, t))
    && forall c: nat, d: nat :: Holds(s, c, t) && Holds(s, d, t) ==> c == d
  }

  lemma ClaimStep(s: State, step: Step, t: nat)
    requires Enabled(s, step) && !step.Tick? && t < MAX_THREADS && OneClaim(s, t)
    ensures OneClaim(Apply(s, step), t) && (!Covered(s, t) ==> !Covered(Apply(s, step), t))
    ensures Rescues(s, step, t) ==> !Covered(Apply(s, step), t)
  {
    var r := Apply(s, step);
    FlagStep(s, step, t);
    forall c: nat
      ensures Holds(r, c, t) <==>
              (Holds(s, c, t) && !(step.RescueRun? && step.cpu == c)) || (step == RescueTake(c, t) && Rescuable(s, t))
    {
      HoldsStep(s, step, c, t);
    }
  }

  /** With one tick and no wake of `t`, it sleeps on exactly as long as there is a claim on it. */
  lemma {:induction false} ClaimRun(states: seq<State>, steps: seq<Step>, k: nat, i: nat, t: nat)
    requires IsRun(states, steps) && Init(states[0]) && k < i < |states|
    requires Flags(states, steps, k, t) && !Held(states[k], t)
    requires forall m :: k < m < i ==> !steps[m].Tick? && !Wakes(states[m], steps[m], t)
    ensures OneClaim(states[i], t) && (Through(states, k, i, t) <==> Covered(states[i], t))
    decreases i
  {
    assert StepAt(states, steps, i - 1);
    if i == k + 1 {
      assert Sleeps(states[k], t) && Sleeps(states[i], t);
      assert forall c: nat :: Holds(states[i], c, t) <==> Holds(states[k], c, t);
    } else {
      ClaimRun(states, steps, k, i - 1, t);
      ClaimStep(states[i - 1], steps[i - 1], t);
      if Through(states, k, i - 1, t) {
        RunInv(states, steps, i - 1);
        SleepEnds(states[i - 1], steps[i - 1], t);
        if !Rescues(states[i - 1], steps[i - 1], t) {
          CoverRun(states, steps, k, i, t);
        }
      }
    }
  }

  /** After one tick and a whole drain by `c`, with no wake of `t` between: a sleep overdue at the tick goes on if
      and only if another CPU has taken its flag and not readied it. */
  lemma HeldIffAsleep(states: seq<State>, steps: seq<Step>, k: nat, a: nat, j: nat, c: nat, t: nat)
    requires IsRun(states, steps) && Init(states[0]) && k < a <= j < |states|
    requires Flags(states, steps, k, t) && !Held(states[k], t) && Drains(states, steps, c, a, j)
    requires forall m :: k < m < j ==> !steps[m].Tick? && !Wakes(states[m], steps[m], t)
    ensures Through(states, k, j, t) <==> exists d: nat :: d != c && Holds(states[j], d, t)
  {
    ClaimRun(states, steps, k, j, t);
    if Through(states, k, j, t) {
      OnlyHeldOutlasts(states, steps, k, a, j, c, t);
    }
  }

  // ---------- The drain function as steps of a run ----------

  /** No lock that the drain asks for is held. */
  ghost predicate LocksFree(s: State, i: nat) {
    && Shape(s)
    && forall t :: i <= t < MAX_THREADS && s.rescue[t] && Rescuable(s, t) ==>
         !s.locks[Bucket(s.threads[t].value.futexAddr)]
  }

  /** Taking a flag, its lock, and readying the thread is one round of the drain. */
  lemma RoundLeads(s: State, c: nat, i: nat, now: nat)
    requires Shape(s) && c < |s.cpus| && s.cpus[c].phase == Kernel && i < MAX_THREADS && s.rescue[i] && Rescuable(s, i)
    requires !s.locks[Bucket(s.threads[i].value.futexAddr)]
    ensures Leads(s, Rescue(s.(rescue := s.rescue[i := false]), i, now))
  {
    var addr := s.threads[i].value.futexAddr;
    var s1 := s.(rescue := s.rescue[i := false]);
    var a := Apply(s, RescueTake(c, i));
    assert a == SetPhase(s1, c, RescueSnap(i, addr));
    var b := Apply(a, RescueLock(c));
    assert b == SetLock(SetPhase(s1, c, RescueLocked(i, addr)), Bucket(addr), true);
    RescueRound(s1, b, c, i, addr, now);
    One(s, RescueTake(c, i), a);
    One(a, RescueLock(c), b);
    LeadsOn(s, a, b);
    One(b, RescueRun(c, now), Rescue(s1, i, now));
    LeadsOn(s, b, Rescue(s1, i, now));
  }

  lemma RescueRound(s: State, b: State, c: nat, i: nat, addr: nat, now: nat)
    requires Shape(s) && c < |s.cpus| && s.cpus[c].phase == Kernel && i < MAX_THREADS && !s.locks[Bucket(addr)]
    requires b == SetLock(SetPhase(s, c, RescueLocked(i, addr)), Bucket(addr), true)
    ensures Enabled(b, RescueRun(c, now)) && Apply(b, RescueRun(c, now)) == Rescue(s, i, now)
  {
    var r := Apply(b, RescueRun(c, now));
    assert r.locks == s.locks;
    assert r.cpus == Rescue(s, i, now).cpus;
  }

  /** While no other CPU acts and the locks are free, the steps of one CPU's drain have the drain's result. */
  lemma {:induction false} DrainLeads(s: State, c: nat, i: nat, now: nat)
    requires LocksFree(s, i) && c < |s.cpus| && s.cpus[c].phase == Kernel && i <= MAX_THREADS
    ensures Leads(s, DrainFrom(s, i, now))
    decreases MAX_THREADS - i
  {
    if i == MAX_THREADS {
      assert Path(s, [], s);
    } else {
      var s1 := s.(rescue := s.rescue[i := false]);
      var s2 := if s.rescue[i] && Rescuable(s, i) then Rescue(s1, i, now) else s1;
      if s.rescue[i] && Rescuable(s, i) {
        RoundLeads(s, c, i, now);
      } else if s.rescue[i] {
        One(s, RescueTake(c, i), s1);
      } else {
        assert s1 == s && Path(s, [], s);
      }
      DrainLeads(s2, c, i + 1, now);
      LeadsOn(s, s2, DrainFrom(s, i, now));
    }
  }

  // ---------- A drain that leaves an overdue sleeper ----------

  lemma RunExtend(states: seq<State>, steps: seq<Step>, step: Step)
    requires IsRun(states, steps) && Enabled(states[|steps|], step)
    ensures IsRun(states + [Apply(states[|steps|], step)], steps + [step])
  {
    var states', steps' := states + [Apply(states[|steps|], step)], steps + [step];
    forall i: nat | i < |steps'|
      ensures StepAt(states', steps', i)
    {
      if i < |steps| { assert StepAt(states, steps, i); }
    }
  }

  lemma ClearDrain(states: seq<State>, steps: seq<Step>, c: nat, a: nat, j: nat)
    requires IsRun(states, steps) && a <= j < |states|
    requires c < |states[j].cpus| && states[j].cpus[c].phase == Kernel
    requires |states[j].rescue| == MAX_THREADS && forall t :: 0 <= t < MAX_THREADS ==> !states[j].rescue[t]
    ensures Drains(states, steps, c, a, j)
  {
    forall t: nat | t < MAX_THREADS
      ensures LooksBetween(states, steps, c, t, a, j)
    {
      assert Looks(states, steps, c, t, j, j);
    }
  }

  ghost predicate Outlasts(states: seq<State>, steps: seq<Step>, k: nat, c: nat, t: nat) {
    && IsRun(states, steps) && Init(states[0]) && k < |steps| && Flags(states, steps, k, t)
    && Drains(states, steps, c, k + 1, |steps|) && Through(states, k, |steps|, t)
  }

  /** A run that ends in a tick and another CPU's taking of the flag. */
  lemma TakenOutlasts(states: seq<State>, steps: seq<Step>, tick: Step, take: Step, m: State, r: State, c: nat, t: nat)
    requires IsRun(states, steps) && Init(states[0])
    requires tick.Tick? && Enabled(states[|steps|], tick) && m == Apply(states[|steps|], tick)
    requires Enabled(m, take) && r == Apply(m, take)
    requires t < MAX_THREADS && Due(states[|steps|], t, tick.words[t], tick.now)
    requires Sleeps(m, t) && Sleeps(r, t) && c < |r.cpus| && r.cpus[c].phase == Kernel
    requires |r.rescue| == MAX_THREADS && forall u :: 0 <= u < MAX_THREADS ==> !r.rescue[u]
    ensures Outlasts(states + [m] + [r], steps + [tick] + [take], |steps|, c, t)
  {
    RunExtend(states, steps, tick);
    RunExtend(states + [m], steps + [tick], take);
    ClearDrain(states + [m] + [r], steps + [tick] + [take], c, |steps| + 1, |steps| + 2);
  }

  /** Thread 1 sleeps on with its futex word changed, through a tick and CPU 2's whole drain: CPU 0 has its flag. */
  lemma HeldSleeperOutlasts()
    ensures exists states: seq<State>, steps: seq<Step>, k: nat :: Outlasts(states, steps, k, 2, 1)
  {
    var w := World(Kernel, IDLE, Kernel, Asleep(4), FREE, false);
    FirstHalf();
    var prefix: seq<Step> :| Path(Boot(), prefix, w);
    var before := PathIsRun(Boot(), prefix, w);
    var tick := Tick(seq(MAX_THREADS, _ => 1), 1);
    var m := World(Kernel, IDLE, Kernel, Asleep(4), FREE, true);
    var r := World(RescueSnap(1, 4), IDLE, Kernel, Asleep(4), FREE, false);
    TickThenTake(w, tick, m, r);
    BootInit();
    TakenOutlasts(before, prefix, tick, RescueTake(0, 1), m, r, 2, 1);
  }

  lemma BootInit()
    ensures Init(Boot())
  {
  }

  lemma TickThenTake(s: State, tick: Step, m: State, r: State)
    requires s == World(Kernel, IDLE, Kernel, Asleep(4), FREE, false) && tick == Tick(seq(MAX_THREADS, _ => 1), 1)
    requires m == World(Kernel, IDLE, Kernel, Asleep(4), FREE, true)
    requires r == World(RescueSnap(1, 4), IDLE, Kernel, Asleep(4), FREE, false)
    ensures Enabled(s, tick) && m == Apply(s, tick) && Enabled(m, RescueTake(0, 1)) && r == Apply(m, RescueTake(0, 1))
    ensures Due(s, 1, tick.words[1], tick.now) && Sleeps(m, 1) && Sleeps(r, 1)
    ensures 2 < |r.cpus| && r.cpus[2].phase == Kernel
    ensures |r.rescue| == MAX_THREADS && forall u :: 0 <= u < MAX_THREADS ==> !r.rescue[u]
  {
    WorldShape(Kernel, IDLE, Kernel, Asleep(4), FREE, false);
    WorldShape(Kernel, IDLE, Kernel, Asleep(4), FREE, true);
    assert Ticked(s, tick.words, 1) == m.rescue;
  }
}
