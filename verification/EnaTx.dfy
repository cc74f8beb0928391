/**
 The ENA transmit path: the driver builds each frame in the buffer of the slot at its tail, the device
 fetches, sends and completes frames in order, and drain_tx counts the completions by phase bit.
 */
module EnaTx {
  import opened Wrappers
  import opened RingArith
  import opened EnaRings

  type Frame = seq<bv8>

  datatype Desc = Desc(len: nat, phase: int, reqId: nat)

  /** Everything ever submitted, and how far fetching, completing and reaping have come. */
  datatype Log = Log(frames: seq<Frame>, lens: seq<nat>, fetched: nat, done: nat, reaped: nat)

  datatype Regs = Regs(sqTail: nat, sqPhase: int, cqHead: nat, cqPhase: nat, nextToComp: nat)

  // ---------- Invariants ----------

  ghost predicate Inv(l: Log) {
    && |l.lens| == |l.frames|
    && l.reaped <= l.done <= l.fetched <= |l.frames| <= l.reaped + IO_DEPTH - 1
  }

  /** The wrapped tails, heads and phase bits stand for the unbounded counters. */
  predicate RegsRep(r: Regs, l: Log) {
    && r.sqTail == |l.frames| % U16 && r.sqPhase == Phase(|l.frames|)
    && r.cqHead == l.reaped % IO_DEPTH && r.cqPhase == Phase(l.reaped) && r.nextToComp == l.reaped % U16
  }

  /** Frames the driver has not reaped are intact in their buffers and descriptors. */
  ghost predicate SlotsRep(sq: seq<Desc>, bufs: seq<Frame>, l: Log)
    requires |l.lens| == |l.frames|
  {
    && |sq| == |bufs| == IO_DEPTH
    && (forall k: nat :: l.reaped <= k < |l.frames| ==>
          bufs[k % IO_DEPTH] == l.frames[k] && sq[k % IO_DEPTH] == Desc(l.lens[k], Phase(k), k % IO_DEPTH))
  }

  /** A slot the device may still be reading: submitted and not completed. */
  ghost predicate DeviceOwned(l: Log, slot: nat) {
    exists k: nat :: l.done <= k < |l.frames| && slot == k % IO_DEPTH
  }

  /** The slot at the tail is never the device's, even when the ring is full and the frame gets dropped. */
  lemma BuildSlotFree(l: Log)
    requires Inv(l)
    ensures !DeviceOwned(l, |l.frames| % IO_DEPTH)
    ensures forall k: nat :: l.reaped <= k < |l.frames| ==> k % IO_DEPTH != |l.frames| % IO_DEPTH
  {
    forall k: nat | l.reaped <= k < |l.frames| ensures k % IO_DEPTH != |l.frames| % IO_DEPTH {
      SlotsApart(k, |l.frames|, IO_DEPTH);
    }
  }

  /** The free-slot count is exact and its subtraction never underflows. */
  lemma FreeSlotsExact(r: Regs, l: Log)
    requires Inv(l) && RegsRep(r, l)
    ensures var used := (r.sqTail - r.nextToComp + U16) % U16;
            used <= IO_DEPTH - 1 && IO_DEPTH - 1 - used == l.reaped + IO_DEPTH - 1 - |l.frames|
  {
    TailDistance(|l.frames|, l.reaped);
  }

  // ---------- What each step does to the log and the registers ----------

  datatype Step = Submit(frame: Frame, len: nat) | Reap | DeviceFetch | DeviceComplete

  function Apply(l: Log, step: Step): Log {
    match step
    case Submit(frame, len) => l.(frames := l.frames + [frame], lens := l.lens + [len])
    case Reap => l.(reaped := l.reaped + 1)
    case DeviceFetch => l.(fetched := l.fetched + 1)
    case DeviceComplete => l.(done := l.done + 1)
  }

  lemma SubmitRep(sq: seq<Desc>, bufs: seq<Frame>, r: Regs, l: Log, frame: Frame, len: nat)
    requires Inv(l) && SlotsRep(sq, bufs, l) && RegsRep(r, l)
    ensures var slot, l' := |l.frames| % IO_DEPTH, Apply(l, Submit(frame, len));
            SlotsRep(sq[slot := Desc(len, r.sqPhase, slot)], bufs[slot := frame], l')
    ensures var tail := (r.sqTail + 1) % U16;
            RegsRep(r.(sqTail := tail, sqPhase := if tail % IO_DEPTH == 0 then 1 - r.sqPhase else r.sqPhase),
                    Apply(l, Submit(frame, len)))
  {
    BuildSlotFree(l);
    TailNext(|l.frames|);
  }

  /** Writing a frame at the tail, whether it is then sent or dropped, disturbs nothing outstanding. */
  lemma BuildRep(sq: seq<Desc>, bufs: seq<Frame>, l: Log, frame: Frame)
    requires Inv(l) && SlotsRep(sq, bufs, l)
    ensures SlotsRep(sq, bufs[|l.frames| % IO_DEPTH := frame], l)
  {
    BuildSlotFree(l);
  }

  lemma ReapRep(r: Regs, l: Log)
    requires RegsRep(r, l)
    ensures RegsRep(r.(nextToComp := (r.nextToComp + 1) % U16,
                       cqHead := if r.cqHead + 1 == IO_DEPTH then 0 else r.cqHead + 1,
                       cqPhase := if r.cqHead + 1 == IO_DEPTH then 1 - r.cqPhase else r.cqPhase),
                    Apply(l, Reap))
  {
    HeadNext(l.reaped);
    WrappedNext(l.reaped);
  }

  // ---------- Runs of the registers ----------

  /** The driver's registers, the completion ring and the device's own indices; `log` only records what happened. */
  datatype Machine = Machine(
    regs: Regs,
    cq: seq<nat>,
    devTail: nat,
    devHead: nat,
    devPhase: nat,
    devBusy: nat,     // frames the device has fetched and not completed
    log: Log)

  /** What driver and device test before they act: registers and phase bits, never the log. */
  predicate Enabled(m: Machine, step: Step)
    requires |m.cq| == IO_DEPTH
  {
    match step
    case Submit(_, _) => IO_DEPTH - 1 - (m.regs.sqTail - m.regs.nextToComp + U16) % U16 != 0
    case Reap => m.regs.cqHead < IO_DEPTH && m.cq[m.regs.cqHead] == m.regs.cqPhase
    case DeviceFetch => m.devTail != m.regs.sqTail
    case DeviceComplete => m.devHead < IO_DEPTH && m.devBusy > 0
  }

  function Flip(phase: nat): nat { if phase == 0 then 1 else 0 }

  function Move(m: Machine, step: Step): Machine
    requires |m.cq| == IO_DEPTH && Enabled(m, step)
  {
    var (r, log) := (m.regs, Apply(m.log, step));
    match step
    case Submit(_, _) =>
      var tail := (r.sqTail + 1) % U16;
      m.(regs := r.(sqTail := tail, sqPhase := if tail % IO_DEPTH == 0 then 1 - r.sqPhase else r.sqPhase), log := log)
    case Reap =>
      var wraps := r.cqHead + 1 == IO_DEPTH;
      m.(regs := r.(nextToComp := (r.nextToComp + 1) % U16, cqHead := if wraps then 0 else r.cqHead + 1,
                    cqPhase := if wraps then Flip(r.cqPhase) else r.cqPhase), log := log)
    case DeviceFetch => m.(devTail := (m.devTail + 1) % U16, devBusy := m.devBusy + 1, log := log)
    case DeviceComplete =>
      var wraps := m.devHead + 1 == IO_DEPTH;
      m.(cq := m.cq[m.devHead := m.devPhase], devHead := if wraps then 0 else m.devHead + 1,
         devPhase := if wraps then Flip(m.devPhase) else m.devPhase, devBusy := m.devBusy - 1, log := log)
  }

  function Reset(): Machine {
    Machine(Regs(0, 1, 0, 1, 0), seq(IO_DEPTH, _ => 0), 0, 0, 1, 0, Log([], [], 0, 0, 0))
  }

  ghost predicate MoveAt(run: seq<Machine>, steps: seq<Step>, i: nat) {
    && i < |steps| && i + 1 < |run| && |run[i].cq| == IO_DEPTH
    && Enabled(run[i], steps[i]) && run[i + 1] == Move(run[i], steps[i])
  }

  ghost predicate IsRun(run: seq<Machine>, steps: seq<Step>) {
    |run| == |steps| + 1 && run[0] == Reset() && forall i: nat :: i < |steps| ==> MoveAt(run, steps, i)
  }

  ghost predicate Rep(m: Machine) {
    && Inv(m.log) && RegsRep(m.regs, m.log) && Written(m.cq, m.log.done)
    && m.devTail == m.log.fetched % U16 && m.devHead == m.log.done % IO_DEPTH && m.devPhase == Phase(m.log.done)
    && m.devBusy == m.log.fetched - m.log.done
  }

  /** Each test is exact: room below 255 outstanding frames, a completion to reap, a frame to fetch. */
  lemma TestsExact(m: Machine, step: Step)
    requires Rep(m)
    ensures Enabled(m, step) <==>
            match step
            case Submit(_, _) => |m.log.frames| < m.log.reaped + IO_DEPTH - 1
            case Reap => m.log.reaped < m.log.done
            case DeviceFetch => m.log.fetched < |m.log.frames|
            case DeviceComplete => m.log.done < m.log.fetched
  {
    FreeSlotsExact(m.regs, m.log);
    PhaseExact(m.cq, m.log.done, m.log.reaped);
    WrappedAgree(m.log.fetched, |m.log.frames|);
  }

  lemma MoveKeeps(m: Machine, step: Step)
    requires Rep(m) && Enabled(m, step)
    ensures Rep(Move(m, step))
  {
    var l := m.log;
    TestsExact(m, step);
    match step {
      case Submit(_, _) => TailNext(|l.frames|);
      case Reap => ReapRep(m.regs, l);
      case DeviceFetch => WrappedNext(l.fetched);
      case DeviceComplete =>
        WriteNext(m.cq, l.done);
        HeadNext(l.done);
    }
  }

  /** In every run the wrapped registers and phase bits stand for the true counts: at most 255 frames are
      outstanding, completions are reaped only once written, and nothing outruns what comes before it. */
  lemma {:induction false} OutstandingAlways(run: seq<Machine>, steps: seq<Step>, i: nat)
    requires IsRun(run, steps) && i < |run|
    ensures Rep(run[i])
  {
    if i > 0 {
      OutstandingAlways(run, steps, i - 1);
      assert MoveAt(run, steps, i - 1);
      MoveKeeps(run[i - 1], steps[i - 1]);
    }
  }

  // ---------- The device object ----------

  class Transmitter {
    const sq: array<Desc>
    const cq: array<nat>        // phase bit of each completion slot, written by the device
    const bufs: array<Frame>
    var sqTail: nat
    var sqPhase: int
    var cqHead: nat
    var cqPhase: nat
    var nextToComp: nat
    var doorbell: nat
    var devTail: nat            // the device's own fetch index, completion slot and phase
    var devHead: nat
    var devPhase: nat
    ghost var log: Log

    ghost function RegsOf(): Regs
      reads this
    {
      Regs(sqTail, sqPhase, cqHead, cqPhase, nextToComp)
    }

    ghost predicate Valid()
      reads this, sq, cq, bufs
    {
      && Inv(log) && RegsRep(RegsOf(), log) && Written(cq[..], log.done)
      && SlotsRep(sq[..], bufs[..], log) && doorbell == sqTail
      && devTail == log.fetched % U16 && devHead == log.done % IO_DEPTH && devPhase == Phase(log.done)
    }

    constructor ()
      ensures Valid() && log == Log([], [], 0, 0, 0)
    {
      sq := new Desc[IO_DEPTH](_ => Desc(0, 0, 0));
      cq := new nat[IO_DEPTH](_ => 0);
      bufs := new Frame[IO_DEPTH](_ => []);
      sqTail, sqPhase, cqHead, cqPhase, nextToComp, doorbell := 0, 1, 0, 1, 0, 0;
      devTail, devHead, devPhase := 0, 0, 1;
      log := Log([], [], 0, 0, 0);
    }

    /** Reaps every completion the device has written, and no more. */
    method DrainTx()
      requires Valid()
      modifies this`nextToComp, this`cqHead, this`cqPhase, this`log
      ensures Valid() && log == old(log).(reaped := old(log.done))
    {
      while true
        invariant Valid() && log == old(log).(reaped := log.reaped)
        decreases log.done - log.reaped
      {
        PhaseExact(cq[..], log.done, log.reaped);
        if cq[cqHead] != cqPhase {
          break;
        }
        ReapRep(RegsOf(), log);
        nextToComp := (nextToComp + 1) % U16;
        cqHead := cqHead + 1;
        if cqHead == IO_DEPTH {
          cqHead := 0;
          cqPhase := 1 - cqPhase;
        }
        log := Apply(log, Reap);
      }
    }

    method TxFreeSlots() returns (n: nat)
      requires Valid()
      ensures n == log.reaped + IO_DEPTH - 1 - |log.frames|
    {
      FreeSlotsExact(RegsOf(), log);
      n := IO_DEPTH - 1 - (sqTail - nextToComp + U16) % U16;
    }

    /**
     Builds a frame and submits it, or drops it when 255 frames are uncompleted. Either way the buffer
     built in is not the device's, and every outstanding frame keeps its bytes.
     */
    method Consume(frame: Frame, len: nat) returns (sent: bool)
      requires Valid() && |frame| <= BUF_SIZE && len < U16
      modifies this, sq, bufs
      ensures Valid()
      ensures sent <==> |old(log.frames)| < old(log.done) + IO_DEPTH - 1
      ensures var drained := old(log).(reaped := old(log.done));
              log == if sent then Apply(drained, Submit(frame, len)) else drained
      ensures !DeviceOwned(old(log), old(sqTail) % IO_DEPTH) && bufs[old(sqTail) % IO_DEPTH] == frame
      ensures forall s: nat :: s < IO_DEPTH && s != old(sqTail) % IO_DEPTH ==>
                bufs[s] == old(bufs[..])[s] && sq[s] == old(sq[..])[s]
      ensures !sent ==> sq[..] == old(sq[..])
    {
      DrainTx();
      SlotOfCounter(|log.frames|, IO_DEPTH);
      BuildSlotFree(log);
      Build(frame);
      var room := TxFreeSlots();
      if room == 0 {
        return false;
      }
      Enqueue(frame, len);
      return true;
    }

    method Build(frame: Frame)
      requires Valid()
      modifies bufs
      ensures Valid() && bufs[..] == old(bufs[..])[sqTail % IO_DEPTH := frame]
    {
      SlotOfCounter(|log.frames|, IO_DEPTH);
      BuildRep(sq[..], bufs[..], log, frame);
      bufs[sqTail % IO_DEPTH] := frame;
    }

    method Enqueue(ghost frame: Frame, len: nat)
      requires Valid() && |log.frames| < log.reaped + IO_DEPTH - 1 && bufs[sqTail % IO_DEPTH] == frame
      modifies this`sqTail, this`sqPhase, this`doorbell, this`log, sq
      ensures Valid() && log == Apply(old(log), Submit(frame, len))
      ensures sq[..] == old(sq[..])[old(sqTail) % IO_DEPTH := sq[old(sqTail) % IO_DEPTH]]
    {
      SlotOfCounter(|log.frames|, IO_DEPTH);
      SubmitRep(sq[..], bufs[..], RegsOf(), log, frame, len);
      var slot := sqTail % IO_DEPTH;
      assert bufs[..] == bufs[..][slot := frame];
      sq[slot] := Desc(len, sqPhase, slot);
      AdvanceTail();
      log := Apply(log, Submit(frame, len));
    }

    method AdvanceTail()
      modifies this`sqTail, this`sqPhase, this`doorbell
      ensures sqTail == doorbell == (old(sqTail) + 1) % U16
      ensures sqPhase == if sqTail % IO_DEPTH == 0 then 1 - old(sqPhase) else old(sqPhase)
    {
      sqTail := (sqTail + 1) % U16;
      if sqTail % IO_DEPTH == 0 {
        sqPhase := 1 - sqPhase;
      }
      doorbell := sqTail;
    }

    // ---------- The device ----------

    /** The device reads the next descriptor and frame: the ones submitted next, unharmed. */
    method DeviceFetches() returns (r: Option<(Desc, Frame)>)
      requires Valid()
      modifies this`log, this`devTail
      ensures Valid()
      ensures r.None? <==> old(log.fetched) == |old(log.frames)|
      ensures r.None? ==> log == old(log)
      ensures r.Some? ==> var k := old(log.fetched);
                          && log == Apply(old(log), DeviceFetch) && r.value.1 == log.frames[k]
                          && r.value.0 == Desc(log.lens[k], Phase(k), k % IO_DEPTH)
    {
      WrappedAgree(log.fetched, |log.frames|);
      if devTail == doorbell {
        return None;
      }
      SlotOfCounter(log.fetched, IO_DEPTH);
      WrappedNext(log.fetched);
      r := Some((sq[devTail % IO_DEPTH], bufs[devTail % IO_DEPTH]));
      devTail := (devTail + 1) % U16;
      log := Apply(log, DeviceFetch);
    }

    method DeviceCompletes()
      requires Valid() && log.done < log.fetched
      modifies this`log, this`devHead, this`devPhase, cq
      ensures Valid() && log == Apply(old(log), DeviceComplete)
    {
      WriteNext(cq[..], log.done);
      HeadNext(log.done);
      cq[devHead] := devPhase;
      devHead := devHead + 1;
      if devHead == IO_DEPTH {
        devHead := 0;
        devPhase := 1 - devPhase;
      }
      log := Apply(log, DeviceComplete);
    }
  }
}
