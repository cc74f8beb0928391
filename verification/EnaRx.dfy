/**
 The ENA receive path: 255 buffers circulate between the submission ring, the device and the completion
 ring. `receive` copies a completed frame out and posts its buffer again.
 */
module EnaRx {
  import opened Wrappers
  import opened Lists
  import opened RingArith
  import opened EnaRings

  type Bytes = seq<bv8>

  const N_RX_BUFS := IO_DEPTH - 1

  datatype Desc = Desc(reqId: nat, phase: int)

  datatype Entry = Entry(phase: int, len: nat, reqId: nat)

  /** A completed frame: the buffer it is in and the bytes received. */
  datatype Comp = Comp(id: nat, data: Bytes)

  datatype Log = Log(
    posts: seq<nat>,           // buffer ids in the order posted
    fetched: nat,
    inflight: multiset<nat>,   // fetched by the device and not completed
    comps: seq<Comp>,
    read: nat)

  // ---------- Ownership ----------

  ghost function Unread(l: Log): seq<nat>
    requires l.read <= |l.comps|
  {
    seq<nat>(|l.comps| - l.read, k requires 0 <= k < |l.comps| - l.read => l.comps[l.read + k].id)
  }

  /** Each of the first `n` buffers is posted, with the device, or completed and unread: in one place, once. */
  ghost predicate OwnedOnce(l: Log, n: nat) {
    && l.fetched <= |l.posts| && l.read <= |l.comps|
    && multiset(l.posts[l.fetched..]) + l.inflight + multiset(Unread(l)) == multiset(Below(n))
    && (forall k :: 0 <= k < |l.comps| ==> |l.comps[k].data| <= BUF_SIZE)
  }

  ghost predicate Inv(l: Log) { OwnedOnce(l, N_RX_BUFS) }

  /** At most 255 descriptors are unfetched and at most 255 completions unread. */
  lemma Bounds(l: Log, n: nat)
    requires OwnedOnce(l, n)
    ensures |l.posts| - l.fetched <= n && |l.comps| - l.read <= n
    ensures (|l.posts| - l.fetched) + |l.inflight| + (|l.comps| - l.read) == n
  {
    assert |multiset(Below(n))| == n;
  }

  /** No two places hold the same buffer. */
  lemma OnePlace(l: Log, n: nat, id: nat)
    requires OwnedOnce(l, n)
    ensures multiset(l.posts[l.fetched..])[id] + l.inflight[id] + multiset(Unread(l))[id] == if id < n then 1 else 0
  {
    var a, b, c := multiset(l.posts[l.fetched..]), l.inflight, multiset(Unread(l));
    assert (a + b + c)[id] == a[id] + b[id] + c[id];
  }

  datatype Step = Receive | DeviceFetch | DeviceComplete(id: nat, data: Bytes)

  ghost predicate Enabled(l: Log, step: Step) {
    match step
    case Receive => l.read < |l.comps|
    case DeviceFetch => l.fetched < |l.posts|
    case DeviceComplete(id, data) => id in l.inflight && |data| <= BUF_SIZE
  }

  ghost function Apply(l: Log, step: Step): Log
    requires Enabled(l, step)
  {
    match step
    case Receive => l.(read := l.read + 1, posts := l.posts + [l.comps[l.read].id])
    case DeviceFetch => l.(fetched := l.fetched + 1, inflight := l.inflight + multiset{l.posts[l.fetched]})
    case DeviceComplete(id, data) => l.(inflight := l.inflight - multiset{id}, comps := l.comps + [Comp(id, data)])
  }

  lemma ReceiveKeeps(l: Log, n: nat)
    requires OwnedOnce(l, n) && Enabled(l, Receive)
    ensures OwnedOnce(Apply(l, Receive), n)
  {
    var r, id := Apply(l, Receive), l.comps[l.read].id;
    assert r.posts[r.fetched..] == l.posts[l.fetched..] + [id];
    assert Unread(l) == [id] + Unread(r);
    assert multiset(Unread(l)) == multiset{id} + multiset(Unread(r));
    Shift(multiset(l.posts[l.fetched..]), l.inflight, multiset(Unread(r)), id);
  }

  lemma FetchKeeps(l: Log, n: nat)
    requires OwnedOnce(l, n) && Enabled(l, DeviceFetch)
    ensures OwnedOnce(Apply(l, DeviceFetch), n)
  {
    var r, id := Apply(l, DeviceFetch), l.posts[l.fetched];
    assert l.posts[l.fetched..] == [id] + r.posts[r.fetched..];
    assert multiset(l.posts[l.fetched..]) == multiset{id} + multiset(r.posts[r.fetched..]);
    assert Unread(r) == Unread(l);
  }

  lemma CompleteKeeps(l: Log, n: nat, id: nat, data: Bytes)
    requires OwnedOnce(l, n) && Enabled(l, DeviceComplete(id, data))
    ensures OwnedOnce(Apply(l, DeviceComplete(id, data)), n)
  {
    var r := Apply(l, DeviceComplete(id, data));
    assert Unread(r) == Unread(l) + [id];
    assert l.inflight == r.inflight + multiset{id};
  }

  lemma Shift(a: multiset<nat>, b: multiset<nat>, c: multiset<nat>, x: nat)
    ensures (a + multiset{x}) + b + c == a + b + (multiset{x} + c)
  {}

  lemma StepKeeps(l: Log, step: Step, n: nat)
    requires OwnedOnce(l, n) && Enabled(l, step)
    ensures OwnedOnce(Apply(l, step), n)
  {
    match step
    case Receive => ReceiveKeeps(l, n);
    case DeviceFetch => FetchKeeps(l, n);
    case DeviceComplete(id, data) => CompleteKeeps(l, n, id, data);
  }

  ghost predicate IsRun(run: seq<Log>, steps: seq<Step>) {
    && |run| == |steps| + 1 && Fresh(run[0])
    && forall i :: 0 <= i < |steps| ==> Enabled(run[i], steps[i]) && run[i + 1] == Apply(run[i], steps[i])
  }

  /** All buffers posted in order, nothing fetched yet. */
  ghost predicate Fresh(l: Log) {
    Posted(l, N_RX_BUFS)
  }

  ghost predicate Posted(l: Log, n: nat) {
    l == Log(Upto(n), 0, multiset{}, [], 0)
  }

  ghost function Upto(n: nat): seq<nat> { if n == 0 then [] else Upto(n - 1) + [n - 1] }

  lemma {:induction false} UptoBelow(n: nat)
    ensures |Upto(n)| == n && multiset(Upto(n)) == multiset(Below(n))
  {
    if n > 0 {
      var last: nat := n - 1;
      UptoBelow(last);
      assert multiset(Below(n)) == multiset(Below(last)) + multiset{last};
    }
  }

  lemma PostedOwned(l: Log, n: nat)
    requires Posted(l, n)
    ensures OwnedOnce(l, n) && |l.posts| == n
  {
    UptoBelow(n);
    assert l.posts[0..] == l.posts && Unread(l) == [];
  }

  /** In every run each of the 255 buffers has one owner, and every receive posts its buffer again. */
  lemma {:induction false} OwnedAlways(run: seq<Log>, steps: seq<Step>, i: nat)
    requires IsRun(run, steps) && i < |run|
    ensures Inv(run[i]) && |run[i].posts| == N_RX_BUFS + run[i].read
  {
    if i == 0 {
      PostedOwned(run[0], N_RX_BUFS);
    } else {
      OwnedAlways(run, steps, i - 1);
      assert Enabled(run[i - 1], steps[i - 1]) && run[i - 1 + 1] == Apply(run[i - 1], steps[i - 1]);
      StepKeeps(run[i - 1], steps[i - 1], N_RX_BUFS);
    }
  }

  // ---------- Memory ----------

  /** Descriptors the device has not fetched are intact in the submission ring. */
  ghost predicate SqRep(sq: seq<Desc>, l: Log) {
    |sq| == IO_DEPTH && forall k: nat :: l.fetched <= k < |l.posts| ==> sq[k % IO_DEPTH] == Desc(l.posts[k], Phase(k))
  }

  ghost function Bits(cq: seq<Entry>): (bits: seq<nat>)
    requires forall i :: 0 <= i < |cq| ==> 0 <= cq[i].phase
  {
    seq<nat>(|cq|, i requires 0 <= i < |cq| => cq[i].phase)
  }

  /** Unread completions are intact in the completion ring, and their bytes in their buffers. */
  ghost predicate CqRep(cq: seq<Entry>, bufs: seq<Bytes>, l: Log) {
    && |cq| == IO_DEPTH && |bufs| == N_RX_BUFS
    && (forall i :: 0 <= i < |cq| ==> 0 <= cq[i].phase) && Written(Bits(cq), |l.comps|)
    && (forall i :: 0 <= i < |bufs| ==> |bufs[i]| == BUF_SIZE)
    && (forall k: nat :: l.read <= k < |l.comps| ==> UnreadAt(cq, bufs, l.comps[k], k))
  }

  ghost predicate UnreadAt(cq: seq<Entry>, bufs: seq<Bytes>, c: Comp, k: nat)
    requires |cq| == IO_DEPTH
  {
    && cq[k % IO_DEPTH].len == |c.data| && cq[k % IO_DEPTH].reqId == c.id
    && c.id < |bufs| && c.data <= bufs[c.id]
  }

  /** A repost never lands on a descriptor the device has yet to fetch. */
  lemma PostRep(sq: seq<Desc>, l: Log, r: Log, id: nat)
    requires SqRep(sq, l) && l.fetched <= |l.posts| < l.fetched + IO_DEPTH
    requires r.fetched == l.fetched && r.posts == l.posts + [id]
    ensures SqRep(sq[|l.posts| % IO_DEPTH := Desc(id, Phase(|l.posts|))], r)
    ensures forall k: nat :: l.fetched <= k < |l.posts| ==> k % IO_DEPTH != |l.posts| % IO_DEPTH
  {
    forall k: nat | l.fetched <= k < |l.posts| ensures k % IO_DEPTH != |l.posts| % IO_DEPTH {
      SlotsApart(k, |l.posts|, IO_DEPTH);
    }
  }

  /** The buffer the device fills holds no completed frame that is still unread. */
  lemma CompleteRep(cq: seq<Entry>, bufs: seq<Bytes>, l: Log, id: nat, data: Bytes, buf: Bytes)
    requires Inv(l) && CqRep(cq, bufs, l) && Enabled(l, DeviceComplete(id, data))
    requires |buf| == BUF_SIZE && data <= buf
    ensures id < N_RX_BUFS
    ensures var n := |l.comps|;
            CqRep(cq[n % IO_DEPTH := Entry(Phase(n), |data|, id)], bufs[id := buf], Apply(l, DeviceComplete(id, data)))
  {
    var n, r := |l.comps|, Apply(l, DeviceComplete(id, data));
    OnePlace(l, N_RX_BUFS, id);
    Bounds(l, N_RX_BUFS);
    var cq', bufs' := cq[n % IO_DEPTH := Entry(Phase(n), |data|, id)], bufs[id := buf];
    WriteNext(Bits(cq), n);
    assert Bits(cq') == Bits(cq)[n % IO_DEPTH := Phase(n)];
    forall k: nat | r.read <= k < |r.comps| ensures UnreadAt(cq', bufs', r.comps[k], k) {
      if k < n {
        SlotsApart(k, n, IO_DEPTH);
        assert UnreadAt(cq, bufs, l.comps[k], k);
        assert Unread(l)[k - l.read] == l.comps[k].id;
        assert l.comps[k].id in multiset(Unread(l));
      }
    }
  }

  function Zeroes(): (r: Bytes)
    ensures |r| == BUF_SIZE
  {
    seq(BUF_SIZE, _ => 0)
  }

  lemma EmptyCq(cq: seq<Entry>, bufs: seq<Bytes>, l: Log)
    requires |cq| == IO_DEPTH && |bufs| == N_RX_BUFS && l.comps == [] && l.read == 0
    requires forall i :: 0 <= i < |cq| ==> cq[i].phase == 0
    requires forall i :: 0 <= i < |bufs| ==> |bufs[i]| == BUF_SIZE
    ensures CqRep(cq, bufs, l)
  {}

  /** The entry at the head carries the expected phase exactly when it is the next unread completion. */
  lemma HeadEntry(cq: seq<Entry>, bufs: seq<Bytes>, l: Log)
    requires Inv(l) && CqRep(cq, bufs, l)
    ensures cq[l.read % IO_DEPTH].phase == Phase(l.read) <==> l.read < |l.comps|
    ensures l.read < |l.comps| ==>
              var e, c := cq[l.read % IO_DEPTH], l.comps[l.read];
              && e.reqId == c.id && e.reqId < N_RX_BUFS && e.len <= BUF_SIZE && bufs[e.reqId][..e.len] == c.data
  {
    Bounds(l, N_RX_BUFS);
    PhaseExact(Bits(cq), |l.comps|, l.read);
    if l.read < |l.comps| {
      assert UnreadAt(cq, bufs, l.comps[l.read], l.read);
    }
  }

  lemma ReadRep(cq: seq<Entry>, bufs: seq<Bytes>, l: Log)
    requires CqRep(cq, bufs, l) && Enabled(l, Receive)
    ensures CqRep(cq, bufs, Apply(l, Receive))
  {}

  lemma InFlightOk(l: Log, id: nat)
    requires Inv(l) && id in l.inflight
    ensures id < N_RX_BUFS
  {
    OnePlace(l, N_RX_BUFS, id);
  }

  function Overwrite(buf: Bytes, data: Bytes): (r: Bytes)
    requires |data| <= |buf|
    ensures |r| == |buf| && data <= r
  {
    data + buf[|data|..]
  }

  // ---------- The device object ----------

  class Receiver {
    const sq: array<Desc>
    const cq: array<Entry>
    const bufs: array<Bytes>
    var sqTail: nat
    var sqPhase: int
    var cqHead: nat
    var cqPhase: int
    var doorbell: nat
    var devTail: nat           // the device's own fetch index, completion slot and phase
    var devHead: nat
    var devPhase: int
    ghost var log: Log

    ghost predicate TailRep()
      reads this
    {
      sqTail == |log.posts| % U16 && sqPhase == Phase(|log.posts|)
    }

    ghost predicate DevRep()
      reads this
    {
      devTail == log.fetched % U16 && devHead == |log.comps| % IO_DEPTH && devPhase == Phase(|log.comps|)
    }

    ghost predicate Valid()
      reads this, sq, cq, bufs
    {
      && Inv(log) && TailRep() && doorbell == sqTail
      && cqHead == log.read % IO_DEPTH && cqPhase == Phase(log.read) && DevRep()
      && SqRep(sq[..], log) && CqRep(cq[..], bufs[..], log)
    }

    /** Writes a descriptor at the tail and advances it. */
    method PostRxDesc(reqId: nat, ghost r: Log)
      requires TailRep() && SqRep(sq[..], log) && log.fetched <= |log.posts| < log.fetched + IO_DEPTH
      requires r.fetched == log.fetched && r.posts == log.posts + [reqId]
      modifies this`sqTail, this`sqPhase, this`log, sq
      ensures log == r && TailRep() && SqRep(sq[..], log)
    {
      TailNext(|log.posts|);
      PostRep(sq[..], log, r, reqId);
      sq[sqTail % IO_DEPTH] := Desc(reqId, sqPhase);
      sqTail := (sqTail + 1) % U16;
      if sqTail % IO_DEPTH == 0 {
        sqPhase := 1 - sqPhase;
      }
      log := r;
    }

    /** Posts every buffer under its own index. */
    constructor ()
      ensures Valid() && Fresh(log)
    {
      sq := new Desc[IO_DEPTH](_ => Desc(0, 0));
      cq := new Entry[IO_DEPTH](_ => Entry(0, 0, 0));
      bufs := new Bytes[N_RX_BUFS](_ => Zeroes());
      sqTail, sqPhase, cqHead, cqPhase, doorbell := 0, 1, 0, 1, 0;
      devTail, devHead, devPhase := 0, 0, 1;
      log := Log([], 0, multiset{}, [], 0);
      new;
      PostAll();
      doorbell := sqTail;
      PostedOwned(log, N_RX_BUFS);
      EmptyCq(cq[..], bufs[..], log);
    }

    method PostAll()
      requires sq.Length == IO_DEPTH && TailRep() && Posted(log, 0)
      modifies this`sqTail, this`sqPhase, this`log, sq
      ensures TailRep() && SqRep(sq[..], log) && Posted(log, N_RX_BUFS)
    {
      for i := 0 to N_RX_BUFS
        invariant TailRep() && SqRep(sq[..], log) && Posted(log, i)
      {
        UptoBelow(i);
        PostRxDesc(i, Log(Upto(i + 1), 0, multiset{}, [], 0));
      }
    }

    /** Returns exactly the next unread frame, if there is one, and posts its buffer again. */
    method ReceiveFrame() returns (packet: Option<Bytes>)
      requires Valid()
      modifies this, sq
      ensures Valid()
      ensures packet == if old(log.read) < |old(log.comps)| then Some(old(log.comps)[old(log.read)].data) else None
      ensures packet.None? ==> log == old(log)
      ensures packet.Some? ==> Enabled(old(log), Receive) && log == Apply(old(log), Receive)
    {
      var entry := cq[cqHead];
      HeadEntry(cq[..], bufs[..], log);
      if entry.phase != cqPhase {
        return None;
      }
      packet := Some([]);
      if entry.reqId < N_RX_BUFS && entry.len <= BUF_SIZE {
        packet := Some(bufs[entry.reqId][..entry.len]);
      }
      AdvanceHead();
      if entry.reqId < N_RX_BUFS {
        Repost(entry.reqId);
      }
    }

    /** Posts the buffer just read, after the head has moved past its completion. */
    method Repost(reqId: nat)
      requires Inv(log) && TailRep() && SqRep(sq[..], log) && CqRep(cq[..], bufs[..], log)
      requires log.read < |log.comps| && reqId == log.comps[log.read].id
      requires cqHead == (log.read + 1) % IO_DEPTH && cqPhase == Phase(log.read + 1) && DevRep()
      modifies this`sqTail, this`sqPhase, this`doorbell, this`log, sq
      ensures Valid() && Enabled(old(log), Receive) && log == Apply(old(log), Receive)
    {
      Bounds(log, N_RX_BUFS);
      StepKeeps(log, Receive, N_RX_BUFS);
      ReadRep(cq[..], bufs[..], log);
      PostRxDesc(reqId, Apply(log, Receive));
      doorbell := sqTail;
    }

    method AdvanceHead()
      requires cqHead == log.read % IO_DEPTH && cqPhase == Phase(log.read)
      modifies this`cqHead, this`cqPhase
      ensures cqHead == (log.read + 1) % IO_DEPTH && cqPhase == Phase(log.read + 1)
    {
      HeadNext(log.read);
      cqHead := cqHead + 1;
      if cqHead == IO_DEPTH {
        cqHead := 0;
        cqPhase := 1 - cqPhase;
      }
    }

    // ---------- The device ----------

    /** The device reads the next posted descriptor, exactly as posted. */
    method DeviceFetches() returns (r: Option<Desc>)
      requires Valid()
      modifies this`devTail, this`log
      ensures Valid()
      ensures r == if old(log.fetched) < |old(log.posts)|
                   then Some(Desc(old(log.posts)[old(log.fetched)], Phase(old(log.fetched)))) else None
      ensures r.None? ==> log == old(log)
      ensures r.Some? ==> Enabled(old(log), DeviceFetch) && log == Apply(old(log), DeviceFetch)
    {
      Bounds(log, N_RX_BUFS);
      WrappedAgree(log.fetched, |log.posts|);
      if devTail == doorbell {
        return None;
      }
      SlotOfCounter(log.fetched, IO_DEPTH);
      WrappedNext(log.fetched);
      r := Some(sq[devTail % IO_DEPTH]);
      StepKeeps(log, DeviceFetch, N_RX_BUFS);
      devTail := (devTail + 1) % U16;
      log := Apply(log, DeviceFetch);
    }

    /** The device fills a buffer it holds and completes it, in any order. */
    method DeviceCompletes(id: nat, data: Bytes)
      requires Valid() && id in log.inflight && |data| <= BUF_SIZE
      modifies this`devHead, this`devPhase, this`log, cq, bufs
      ensures Valid() && log == Apply(old(log), DeviceComplete(id, data))
    {
      InFlightOk(log, id);
      var buf := Overwrite(bufs[id], data);
      CompleteRep(cq[..], bufs[..], log, id, data, buf);
      assert Inv(Apply(log, DeviceComplete(id, data))) by {
        StepKeeps(log, DeviceComplete(id, data), N_RX_BUFS);
      }
      WriteBack(id, buf, |data|);
      AdvanceDev();
      Commit(Apply(log, DeviceComplete(id, data)));
    }

    ghost method Commit(l: Log)
      requires Inv(l) && l.posts == log.posts && l.read == log.read && l.fetched == log.fetched
      requires TailRep() && doorbell == sqTail && cqHead == log.read % IO_DEPTH && cqPhase == Phase(log.read)
      requires devTail == l.fetched % U16 && devHead == |l.comps| % IO_DEPTH && devPhase == Phase(|l.comps|)
      requires SqRep(sq[..], log) && CqRep(cq[..], bufs[..], l)
      modifies this`log
      ensures Valid() && log == l
    {
      log := l;
    }

    method WriteBack(id: nat, buf: Bytes, len: nat)
      requires id < bufs.Length && devHead < cq.Length
      modifies cq, bufs
      ensures bufs[..] == old(bufs[..])[id := buf]
      ensures cq[..] == old(cq[..])[devHead := Entry(devPhase, len, id)]
    {
      bufs[id] := buf;
      cq[devHead] := Entry(devPhase, len, id);
    }

    method AdvanceDev()
      requires devHead == |log.comps| % IO_DEPTH && devPhase == Phase(|log.comps|)
      modifies this`devHead, this`devPhase
      ensures devHead == (|log.comps| + 1) % IO_DEPTH && devPhase == Phase(|log.comps| + 1)
    {
      HeadNext(|log.comps|);
      devHead := devHead + 1;
      if devHead == IO_DEPTH {
        devHead := 0;
        devPhase := 1 - devPhase;
      }
    }
  }
}
