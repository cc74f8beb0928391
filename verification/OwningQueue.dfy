/**
 OwningQueue (virtio-drivers-patched/src/queue/owning.rs): a queue all of whose buffers stay posted.
 Its safety rests on tokens equal to buffer indices, which follows from the exact order of the free list.
 */
module OwningQueue {
  import opened Wrappers
  import opened VirtQueueModel
  import VQ = VirtQueue

  /** The chain of buffer `i`: one descriptor, writable by the device. */
  function Single(i: nat, addr: nat, len: nat): Chain {
    Chain([i], [Elem(addr, len, true)], None)
  }

  /** The first `k` buffers are posted under their own index, and the other descriptors are free in order. */
  ghost predicate PostedUpto(m: Model, bufs: seq<nat>, len: nat, k: nat) {
    && k <= m.size == |bufs| && m.free == Rest(k, m.size)
    && (forall i: nat :: i < k ==> i in m.chains && m.chains[i] == Single(i, bufs[i], len))
    && (forall t: nat :: t in m.chains ==> t < k)
  }

  ghost function Rest(k: nat, n: nat): seq<nat>
    requires k <= n
  {
    seq<nat>(n - k, i requires 0 <= i < n - k => k + i)
  }

  ghost predicate AllPosted(m: Model, bufs: seq<nat>, len: nat) {
    PostedUpto(m, bufs, len, m.size)
  }

  lemma PostNext(m: Model, bufs: seq<nat>, len: nat, k: nat, indirect: bool)
    requires PostedUpto(m, bufs, len, k) && k < m.size
    ensures m.free != [] && m.free[0] == k && Fits(m, 1, indirect)
    ensures PostedUpto(Add(m, [Elem(bufs[k], len, true)], indirect, 0), bufs, len, k + 1)
  {
    var r := Add(m, [Elem(bufs[k], len, true)], indirect, 0);
    assert m.free == [k] + Rest(k + 1, m.size);
    assert r.free == Rest(k + 1, m.size);
    assert m.free[..1] == [k];
  }

  /** Popping one posted buffer and adding it back gives it the same token and restores every chain. */
  lemma RepostExact(m: Model, bufs: seq<nat>, len: nat, token: nat, indirect: bool)
    requires AllPosted(m, bufs, len) && token in m.chains
    ensures Pop(m, token).free == [token] && Fits(Pop(m, token), 1, indirect)
    ensures var r := Add(Pop(m, token), [Elem(bufs[token], len, true)], indirect, 0);
            r.chains == m.chains && AllPosted(r, bufs, len) && r.avail == m.avail + [token]
  {
    var p := Pop(m, token);
    assert p.free == [token];
    assert p.free[..1] == [token];
    var r := Add(p, [Elem(bufs[token], len, true)], indirect, 0);
    assert r.free == Rest(m.size, m.size);
    assert r.chains == m.chains;
  }

  // ---------- Runs of polls against a device ----------

  datatype Move = Poll | Device(step: Step)

  /** A poll with nothing returned changes nothing; otherwise the buffer is popped and posted again. */
  ghost predicate MoveAt(m: Model, move: Move, next: Model, bufs: seq<nat>, len: nat, indirect: bool) {
    match move
    case Poll =>
      if m.popped >= |m.used| then next == m
      else exists p: Model :: StepAt(m, DriverPop(m.used[m.popped].id), p)
             && m.used[m.popped].id < |bufs|
             && StepAt(p, DriverAdd([Elem(bufs[m.used[m.popped].id], len, true)], indirect, 0), next)
    case Device(step) => (step.DeviceFetch? || step.DeviceUse?) && StepAt(m, step, next)
  }

  ghost predicate IsPollRun(run: seq<Model>, moves: seq<Move>, bufs: seq<nat>, len: nat, indirect: bool) {
    && |run| == |moves| + 1 && Inv(run[0]) && AllPosted(run[0], bufs, len)
    && forall i :: 0 <= i < |moves| ==> MoveAt(run[i], moves[i], run[i + 1], bufs, len, indirect)
  }

  lemma MoveKeeps(m: Model, move: Move, next: Model, bufs: seq<nat>, len: nat, indirect: bool)
    requires Inv(m) && AllPosted(m, bufs, len) && MoveAt(m, move, next, bufs, len, indirect)
    ensures Inv(next) && AllPosted(next, bufs, len)
    ensures move == Poll && m.popped < |m.used| ==>
              next.avail == m.avail + [m.used[m.popped].id] && next.chains == m.chains
  {
    match move
    case Poll =>
      if m.popped < |m.used| {
        var token := m.used[m.popped].id;
        var p: Model :| StepAt(m, DriverPop(token), p)
          && StepAt(p, DriverAdd([Elem(bufs[token], len, true)], indirect, 0), next);
        StepKeeps(m, DriverPop(token));
        StepKeeps(p, DriverAdd([Elem(bufs[token], len, true)], indirect, 0));
        RepostExact(m, bufs, len, token, indirect);
      }
    case Device(step) =>
      StepKeeps(m, step);
  }

  /** However polls and device moves interleave, every buffer is posted under its own index after each of them. */
  lemma {:induction false} PostedAlways(run: seq<Model>, moves: seq<Move>, bufs: seq<nat>, len: nat, indirect: bool, i: nat)
    requires IsPollRun(run, moves, bufs, len, indirect) && i < |run|
    ensures Inv(run[i]) && AllPosted(run[i], bufs, len)
  {
    if i > 0 {
      PostedAlways(run, moves, bufs, len, indirect, i - 1);
      MoveKeeps(run[i - 1], moves[i - 1], run[i], bufs, len, indirect);
    }
  }

  // ---------- The object ----------

  /** One writable buffer offered to the device. */
  method PostOne(queue: VQ.VirtQueue, addr: nat, len: nat) returns (r: Result<nat, VQ.Error>)
    requires queue.Valid() && queue.model.free != [] && len > 0
    modifies queue, queue.shadow, queue.desc, queue.lists, queue.availRing
    ensures queue.Valid() && r == Ok(old(queue.model.free)[0])
    ensures queue.model == Add(old(queue.model), [Elem(addr, len, true)], queue.indirect, 0)
  {
    assert VQ.Elems([], [VQ.Buffer(addr, len)]) == [Elem(addr, len, true)];
    r := queue.Add([], [VQ.Buffer(addr, len)], 0);
  }

  method PostNth(queue: VQ.VirtQueue, addrs: seq<nat>, len: nat, i: nat)
    requires queue.Valid() && len > 0 && i < queue.size && PostedUpto(queue.model, addrs, len, i)
    modifies queue, queue.shadow, queue.desc, queue.lists, queue.availRing
    ensures queue.Valid() && PostedUpto(queue.model, addrs, len, i + 1)
  {
    PostNext(queue.model, addrs, len, i, queue.indirect);
    var r := PostOne(queue, addrs[i], len);
    assert r == Ok(i);
  }

  /** Posts every buffer of a fresh queue; each add returns the buffer's own index. */
  method PostAll(queue: VQ.VirtQueue, addrs: seq<nat>, len: nat)
    requires queue.Valid() && Init(queue.model) && len > 0 && |addrs| == queue.size
    modifies queue, queue.shadow, queue.desc, queue.lists, queue.availRing
    ensures queue.Valid() && AllPosted(queue.model, addrs, len)
  {
    assert queue.model.free == Rest(0, queue.size);
    for i := 0 to queue.size
      invariant queue.Valid() && PostedUpto(queue.model, addrs, len, i)
    {
      PostNth(queue, addrs, len, i);
    }
  }

  class OwningQueue {
    const queue: VQ.VirtQueue
    const buffers: seq<nat>   // addresses of the owned buffers
    const bufferSize: nat

    ghost predicate Valid()
      reads this, queue, queue.desc, queue.shadow, queue.lists, queue.availRing, queue.usedRing
    {
      queue.Valid() && bufferSize > 0 && AllPosted(queue.model, buffers, bufferSize)
    }

    constructor (queue: VQ.VirtQueue, bufferSize: nat, addrs: seq<nat>)
      requires queue.Valid() && Init(queue.model) && bufferSize > 0 && |addrs| == queue.size
      modifies queue, queue.shadow, queue.desc, queue.lists, queue.availRing
      ensures Valid() && this.queue == queue && this.bufferSize == bufferSize && buffers == addrs
    {
      this.queue, this.bufferSize, this.buffers := queue, bufferSize, addrs;
      new;
      PostAll(queue, addrs, bufferSize);
    }

    /** Posts a buffer that is not in the queue. */
    method AddBuffer(index: nat) returns (r: Result<(), VQ.Error>)
      requires queue.Valid() && bufferSize > 0 && |buffers| == queue.size
      requires index < queue.size ==> queue.model.free == [index]
      modifies queue, queue.shadow, queue.desc, queue.lists, queue.availRing
      ensures queue.Valid()
      ensures index >= queue.size ==> r == Err(VQ.WrongToken) && queue.model == old(queue.model)
      ensures index < queue.size ==>
                r.Ok? && queue.model == Add(old(queue.model), [Elem(buffers[index], bufferSize, true)], queue.indirect, 0)
    {
      if index >= |buffers| {
        return Err(VQ.WrongToken);
      }
      var token := PostOne(queue, buffers[index], bufferSize);
      assert token == Ok(index);
      return Ok(());
    }

    /**
     Hands the next returned buffer to `handler` and posts it again, whatever the handler answers.
     The device reports no more bytes than the buffer holds.
     */
    method Poll<T>(handler: (nat, nat) -> Result<Option<T>, VQ.Error>) returns (r: Result<Option<T>, VQ.Error>)
      requires Valid()
      requires queue.model.popped < |queue.model.used| ==> queue.model.used[queue.model.popped].len <= bufferSize
      modifies queue, queue.shadow, queue.desc, queue.lists, queue.availRing
      ensures Valid()
      ensures old(queue.model.popped) == |old(queue.model.used)| ==> r == Ok(None) && queue.model == old(queue.model)
      ensures old(queue.model.popped) < |old(queue.model.used)| ==>
                var entry := old(queue.model.used)[old(queue.model.popped)];
                && r == handler(entry.id, entry.len)
                && queue.model.avail == old(queue.model.avail) + [entry.id]
                && queue.model.popped == old(queue.model.popped) + 1
                && queue.model.chains == old(queue.model.chains)
    {
      var next := queue.PeekUsed();
      if next.None? {
        return Ok(None);
      }
      var token := next.value;
      VQ.NextUsedOutstanding(queue.model);
      RepostExact(queue.model, buffers, bufferSize, token, queue.indirect);
      var len := queue.PopUsed(token, [], [VQ.Buffer(buffers[token], bufferSize)]);
      assert len.Ok? && len.value <= bufferSize;
      r := handler(token, len.value);
      var added := AddBuffer(token);
      assert added.Ok?;
    }
  }
}
