/**
 How the driver's memory (virtio-drivers-patched/src/queue.rs) represents a queue of VirtQueueModel:
 the free list threaded through the `next` fields, chains written both in the trusted shadow and in
 the table the device reads, indirect tables, and two rings addressed by u16 indices.
 */
module VirtQueueMemory {
  import opened Wrappers
  import opened Lists
  import opened RingArith
  import opened VirtQueueModel

  const DESC_BYTES := 16

  /** The flags NEXT, WRITE and INDIRECT are separate fields here. */
  datatype Desc = Desc(addr: nat, len: nat, hasNext: bool, write: bool, indirect: bool, next: nat)

  datatype Mem = Mem(
    freeHead: nat,
    numUsed: nat,
    desc: seq<Desc>,                  // device-visible table
    shadow: seq<Desc>,                // the driver's copy
    lists: seq<Option<seq<Desc>>>,    // indirect tables, by head
    shared: map<nat, seq<Desc>>)      // indirect tables, by the address the device uses

  datatype Ring = Ring(
    availIdx: nat, published: nat, availRing: seq<nat>,
    lastUsedIdx: nat, usedIdx: nat, usedRing: seq<Used>)

  // ---------- Representation ----------

  ghost predicate FreeLinks(shadow: seq<Desc>, head: nat, free: seq<nat>) {
    && (free != [] ==> head == free[0])
    && (forall i :: 0 <= i < |free| ==> free[i] < |shadow|)
    && (forall i :: 0 <= i < |free| - 1 ==> shadow[free[i]].next == free[i + 1])
  }

  predicate Holds(d: Desc, e: Elem) {
    d.addr == e.addr && d.len == e.len && d.write == e.write && !d.indirect
  }

  ghost predicate ChainAt(table: seq<Desc>, ids: seq<nat>, elems: seq<Elem>) {
    && |ids| == |elems|
    && (forall j :: 0 <= j < |ids| ==> ids[j] < |table|)
    && (forall j :: 0 <= j < |ids| ==> Holds(table[ids[j]], elems[j]) && table[ids[j]].hasNext == (j < |ids| - 1))
    && (forall j :: 0 <= j < |ids| - 1 ==> table[ids[j]].next == ids[j + 1])
  }

  /** An indirect table lists its buffers in order, each linked to the following slot. */
  ghost predicate TableHolds(list: seq<Desc>, elems: seq<Elem>) {
    ChainAt(list, Upto(|elems|), elems) && |list| == |elems|
  }

  ghost function Upto(n: nat): seq<nat> { seq(n, i => i) }

  function TableDesc(table: nat, n: nat, next: nat): Desc {
    Desc(table, DESC_BYTES * n, false, false, true, next)
  }

  ghost predicate ChainStored(mem: Mem, t: nat, c: Chain)
    requires t < |mem.lists| && t < |mem.shadow| && t < |mem.desc|
  {
    match c.table
    case None => mem.lists[t].None? && ChainAt(mem.shadow, c.ids, c.elems) && ChainAt(mem.desc, c.ids, c.elems)
    case Some(p) =>
      && mem.shadow[t] == TableDesc(p, |c.elems|, mem.shadow[t].next) && mem.desc[t] == mem.shadow[t]
      && mem.lists[t].Some? && TableHolds(mem.lists[t].value, c.elems)
      && p in mem.shared && mem.shared[p] == mem.lists[t].value
  }

  ghost predicate MemSizes(mem: Mem, m: Model) {
    && |mem.desc| == |mem.shadow| == |mem.lists| == m.size
    && mem.numUsed + |m.free| == m.size
  }

  ghost predicate MemRep(mem: Mem, m: Model) {
    && MemSizes(mem, m)
    && FreeLinks(mem.shadow, mem.freeHead, m.free)
    && (forall t: nat :: t in m.chains ==> t < m.size && ChainStored(mem, t, m.chains[t]))
    && (forall x: nat :: x < m.size && mem.lists[x].Some? ==> x in m.chains && m.chains[x].table.Some?)
  }

  ghost predicate RingRep(ring: Ring, m: Model) {
    && 0 < m.size && U16 % m.size == 0 && m.size < U16
    && m.popped <= |m.used| <= m.fetched <= |m.avail|
    && |ring.availRing| == |ring.usedRing| == m.size
    && ring.availIdx == ring.published == |m.avail| % U16
    && ring.lastUsedIdx == m.popped % U16 && ring.usedIdx == |m.used| % U16
    && (forall k: nat :: m.fetched <= k < |m.avail| ==> ring.availRing[k % m.size] == m.avail[k])
    && (forall k: nat :: m.popped <= k < |m.used| ==> ring.usedRing[k % m.size] == m.used[k])
  }

  // ---------- What the device and the driver see ----------

  /** Following NEXT from descriptor `i`, at most `bound` descriptors. */
  function Walk(table: seq<Desc>, i: nat, bound: nat): seq<Elem>
    decreases bound
  {
    if bound == 0 || i >= |table| then []
    else
      [Elem(table[i].addr, table[i].len, table[i].write)]
      + if table[i].hasNext then Walk(table, table[i].next, bound - 1) else []
  }

  /** The buffers reached from a head; an indirect table has one entry per 16 bytes of its descriptor's length. */
  function DeviceSees(mem: Mem, token: nat): seq<Elem> {
    if token >= |mem.desc| then []
    else
      var head := mem.desc[token];
      if !head.indirect then Walk(mem.desc, token, |mem.desc|)
      else if head.addr in mem.shared && head.len == 16 * |mem.shared[head.addr]|
      then Walk(mem.shared[head.addr], 0, |mem.shared[head.addr]|)
      else []
  }

  lemma {:induction false} WalkChain(table: seq<Desc>, ids: seq<nat>, elems: seq<Elem>, bound: nat)
    requires ChainAt(table, ids, elems) && 0 < |ids| <= bound
    ensures Walk(table, ids[0], bound) == elems
    decreases bound
  {
    if |ids| > 1 {
      WalkChain(table, ids[1..], elems[1..], bound - 1);
      assert elems == [elems[0]] + elems[1..];
    }
  }

  /** From any outstanding token the device reaches exactly the buffers added under it, in order. */
  lemma DeviceSeesAdded(mem: Mem, m: Model, t: nat)
    requires Partition(m) && MemRep(mem, m) && t in m.chains
    ensures DeviceSees(mem, t) == m.chains[t].elems
  {
    var c := m.chains[t];
    assert ChainOk(m, t) && ChainStored(mem, t, c);
    match c.table
    case None =>
      NoDupShort(c.ids, m.size);
      WalkChain(mem.desc, c.ids, c.elems, m.size);
    case Some(p) =>
      WalkChain(mem.shared[p], Upto(|c.elems|), c.elems, |c.elems|);
  }

  lemma NoDupShort(s: seq<nat>, n: nat)
    requires NoDup(s) && forall k :: 0 <= k < |s| ==> s[k] < n
    ensures |s| <= n
  {
    var f, all := multiset(s), multiset(Below(n));
    forall x: nat ensures f[x] <= all[x] {
      NoDupOnce(s, x);
      if x in s {
        var i :| 0 <= i < |s| && s[i] == x;
      }
    }
    SubsetCard(f, all);
  }

  /** The free list as the driver finds it: `n` links from the head, whatever comes after. */
  function FreeWalk(shadow: seq<Desc>, head: nat, n: nat): seq<nat>
    decreases n
  {
    if n == 0 then []
    else [head] + if head < |shadow| then FreeWalk(shadow, shadow[head].next, n - 1) else []
  }

  lemma {:induction false} FreeWalkExact(shadow: seq<Desc>, head: nat, free: seq<nat>)
    requires FreeLinks(shadow, head, free)
    ensures FreeWalk(shadow, head, |free|) == free
    decreases |free|
  {
    if |free| == 1 {
      assert FreeWalk(shadow, shadow[head].next, 0) == [];
    } else if free != [] {
      FreeWalkExact(shadow, shadow[head].next, free[1..]);
      assert free == [free[0]] + free[1..];
    }
  }

  // ---------- Chains move between the free list and the outstanding set ----------

  ghost predicate SameAt(mem: Mem, mem': Mem, x: nat)
    requires |mem'.shadow| == |mem.shadow| && |mem'.desc| == |mem.desc| && x < |mem.shadow| && x < |mem.desc|
  {
    mem'.shadow[x] == mem.shadow[x] && mem'.desc[x] == mem.desc[x]
  }

  /** Everything outside `ids` is as before. */
  ghost predicate OnlyAt(mem: Mem, mem': Mem, ids: seq<nat>) {
    && |mem'.shadow| == |mem.shadow| == |mem'.desc| == |mem.desc| == |mem.lists| == |mem'.lists|
    && (forall x: nat :: x < |mem.shadow| && x !in ids ==> SameAt(mem, mem', x))
  }

  lemma ChainKept(mem: Mem, mem': Mem, m: Model, ids: seq<nat>, t: nat)
    requires Partition(m) && MemRep(mem, m) && t in m.chains && OnlyAt(mem, mem', ids)
    requires Disjoint(m.chains[t].ids, ids) && mem'.lists[t] == mem.lists[t]
    requires m.chains[t].table.Some? ==>
               var p := m.chains[t].table.value; p in mem'.shared && mem'.shared[p] == mem.shared[p]
    ensures ChainStored(mem', t, m.chains[t])
  {
    var c := m.chains[t];
    assert ChainOk(m, t) && ChainStored(mem, t, c);
    forall j | 0 <= j < |c.ids| ensures SameAt(mem, mem', c.ids[j]) {
      assert c.ids[j] in c.ids;
    }
    assert SameAt(mem, mem', t);
  }

  ghost predicate DirectAdded(mem: Mem, mem': Mem, ids: seq<nat>, elems: seq<Elem>) {
    && ids != [] && OnlyAt(mem, mem', ids)
    && ChainAt(mem'.shadow, ids, elems) && ChainAt(mem'.desc, ids, elems)
    && ids[|ids| - 1] < |mem.shadow| && mem'.freeHead == mem.shadow[ids[|ids| - 1]].next
    && mem'.numUsed == mem.numUsed + |ids| && mem'.lists == mem.lists && mem'.shared == mem.shared
  }

  /** What is left of the free list after its first `n` descriptors were taken. */
  lemma RestLinks(mem: Mem, mem': Mem, free: seq<nat>, n: nat)
    requires NoDup(free) && FreeLinks(mem.shadow, mem.freeHead, free) && 0 < n <= |free|
    requires OnlyAt(mem, mem', free[..n]) && mem'.freeHead == mem.shadow[free[n - 1]].next
    ensures FreeLinks(mem'.shadow, mem'.freeHead, free[n..])
  {
    var rest := free[n..];
    forall i | 0 <= i < |rest| ensures SameAt(mem, mem', rest[i]) {
      assert rest[i] == free[n + i];
    }
    forall i | 0 <= i < |rest| - 1 ensures mem'.shadow[rest[i]].next == rest[i + 1] {
      assert mem.shadow[free[n + i]].next == free[n + i + 1];
    }
    if rest != [] {
      assert mem.shadow[free[n - 1]].next == free[n - 1 + 1];
    }
  }

  /** The head about to be used has no indirect table attached. */
  lemma ListFree(mem: Mem, m: Model)
    requires Partition(m) && MemRep(mem, m) && m.free != []
    ensures mem.lists[m.free[0]].None?
  {
    FreshHead(m);
  }

  lemma AddDirectRep(mem: Mem, mem': Mem, m: Model, elems: seq<Elem>, indirect: bool, table: nat)
    requires Partition(m) && MemRep(mem, m) && 0 < |elems| <= |m.free| && !(indirect && |elems| > 1)
    requires DirectAdded(mem, mem', m.free[..|elems|], elems)
    ensures MemRep(mem', Add(m, elems, indirect, table))
  {
    var ids, r := m.free[..|elems|], Add(m, elems, indirect, table);
    FreshHead(m);
    RestLinks(mem, mem', m.free, |elems|);
    ListFree(mem, m);
    assert r.chains[ids[0]] == Chain(ids, elems, None);
    forall t: nat | t in r.chains ensures t < r.size && ChainStored(mem', t, r.chains[t]) {
      if t != ids[0] {
        HeadNotFree(m, t);
        assert ChainOk(m, t);
        ChainKept(mem, mem', m, ids, t);
      }
    }
  }

  ghost predicate IndirectAdded(mem: Mem, mem': Mem, head: nat, elems: seq<Elem>, table: nat, list: seq<Desc>) {
    && head < |mem.shadow| && OnlyAt(mem, mem', [head])
    && mem'.shadow[head] == TableDesc(table, |elems|, mem.shadow[head].next) && mem'.desc[head] == mem'.shadow[head]
    && mem'.freeHead == mem.shadow[head].next && mem'.numUsed == mem.numUsed + 1
    && TableHolds(list, elems)
    && mem'.lists == mem.lists[head := Some(list)] && mem'.shared == mem.shared[table := list]
  }

  lemma AddIndirectRep(mem: Mem, mem': Mem, m: Model, elems: seq<Elem>, table: nat, list: seq<Desc>)
    requires Partition(m) && MemRep(mem, m) && |elems| > 1 && m.free != [] && table !in mem.shared
    requires IndirectAdded(mem, mem', m.free[0], elems, table, list)
    ensures MemRep(mem', Add(m, elems, true, table))
  {
    var head, r := m.free[0], Add(m, elems, true, table);
    FreshHead(m);
    assert m.free[..1] == [head];
    RestLinks(mem, mem', m.free, 1);
    forall t: nat | t in r.chains ensures t < r.size && ChainStored(mem', t, r.chains[t]) {
      if t != head {
        HeadNotFree(m, t);
        assert ChainOk(m, t) && ChainStored(mem, t, m.chains[t]);
        ChainKept(mem, mem', m, [head], t);
      }
    }
  }

  /** The chain's descriptors are linked in chain order and end at the old free head. */
  ghost predicate DirectRecycled(mem: Mem, mem': Mem, ids: seq<nat>) {
    && ids != [] && OnlyAt(mem, mem', ids) && (forall j :: 0 <= j < |ids| ==> ids[j] < |mem.shadow|)
    && (forall j :: 0 <= j < |ids| - 1 ==> mem'.shadow[ids[j]].next == ids[j + 1])
    && mem'.shadow[ids[|ids| - 1]].next == mem.freeHead
    && mem'.freeHead == ids[0] && mem'.numUsed + |ids| == mem.numUsed
    && mem'.lists == mem.lists && mem'.shared == mem.shared
  }

  lemma PopDirectRep(mem: Mem, mem': Mem, m: Model, t: nat)
    requires Partition(m) && MemRep(mem, m) && t in m.chains && m.chains[t].table.None?
    requires DirectRecycled(mem, mem', m.chains[t].ids)
    ensures MemRep(mem', Pop(m, t))
  {
    var ids, r := m.chains[t].ids, Pop(m, t);
    assert ChainOk(m, t) && ChainStored(mem, t, m.chains[t]);
    RecycledLinks(mem, mem', m, ids);
    forall u: nat | u in r.chains ensures u < r.size && ChainStored(mem', u, r.chains[u]) {
      assert ChainOk(m, u);
      ChainKept(mem, mem', m, ids, u);
    }
  }

  lemma RecycledLinks(mem: Mem, mem': Mem, m: Model, ids: seq<nat>)
    requires MemRep(mem, m) && ids != [] && Disjoint(ids, m.free) && OnlyAt(mem, mem', ids)
    requires forall j :: 0 <= j < |ids| ==> ids[j] < |mem.shadow|
    requires forall j :: 0 <= j < |ids| - 1 ==> mem'.shadow[ids[j]].next == ids[j + 1]
    requires mem'.shadow[ids[|ids| - 1]].next == mem.freeHead
    ensures FreeLinks(mem'.shadow, ids[0], ids + m.free)
  {
    var free := ids + m.free;
    forall i | 0 <= i < |free| - 1 ensures mem'.shadow[free[i]].next == free[i + 1] {
      if i >= |ids| {
        var x := m.free[i - |ids|];
        assert x in m.free && SameAt(mem, mem', x);
      }
    }
  }

  ghost predicate IndirectRecycled(mem: Mem, mem': Mem, head: nat) {
    && head < |mem.shadow| && OnlyAt(mem, mem', [head])
    && mem'.shadow[head].next == mem.freeHead
    && mem'.freeHead == head && mem'.numUsed + 1 == mem.numUsed
    && mem'.lists == mem.lists[head := None] && mem'.shared == mem.shared - {mem.shadow[head].addr}
  }

  lemma PopIndirectRep(mem: Mem, mem': Mem, m: Model, t: nat)
    requires Partition(m) && TablesApart(m) && MemRep(mem, m) && t in m.chains && m.chains[t].table.Some?
    requires IndirectRecycled(mem, mem', t)
    ensures MemRep(mem', Pop(m, t))
  {
    var r := Pop(m, t);
    assert ChainOk(m, t) && ChainStored(mem, t, m.chains[t]);
    assert m.chains[t].ids == [t];
    RecycledLinks(mem, mem', m, [t]);
    forall u: nat | u in r.chains ensures u < r.size && ChainStored(mem', u, r.chains[u]) {
      assert ChainOk(m, u) && ChainStored(mem, u, m.chains[u]);
      ChainKept(mem, mem', m, [t], u);
    }
  }

  // ---------- The rings ----------

  /** Between an offer and its pop there is never more than a ring's worth of entries. */
  lemma UnreadBound(m: Model)
    requires Inv(m) && m.size > 0
    ensures |m.avail| - m.popped <= m.size && (m.free != [] ==> |m.avail| - m.popped < m.size)
  {
    OutstandingBound(m);
    StageCount(m);
  }

  ghost predicate Published(ring: Ring, ring': Ring, size: nat, head: nat)
    requires 0 < size == |ring.availRing|
  {
    ring' == ring.(availIdx := (ring.availIdx + 1) % U16, published := (ring.availIdx + 1) % U16,
                   availRing := ring.availRing[ring.availIdx % size := head])
  }

  lemma PublishSlot(ring: Ring, ring': Ring, m: Model, r: Model, head: nat)
    requires RingRep(ring, m) && |m.avail| < m.fetched + m.size && Published(ring, ring', m.size, head)
    requires r == m.(avail := m.avail + [head], free := r.free, chains := r.chains)
    ensures RingRep(ring', r)
    ensures forall k: nat :: m.fetched <= k < |m.avail| ==> k % m.size != ring.availIdx % m.size
  {
    var n := |m.avail|;
    SlotOfCounter(n, m.size);
    WrappedNext(n);
    forall k: nat | m.fetched <= k < n ensures k % m.size != n % m.size {
      SlotsApart(k, n, m.size);
    }
  }

  /** An add uses a slot the device has already read, for every number of wraps. */
  lemma AddRing(ring: Ring, ring': Ring, m: Model, elems: seq<Elem>, indirect: bool, table: nat)
    requires Inv(m) && RingRep(ring, m) && elems != [] && Needs(|elems|, indirect) <= |m.free|
    requires Published(ring, ring', m.size, m.free[0])
    ensures RingRep(ring', Add(m, elems, indirect, table))
    ensures forall k: nat :: m.fetched <= k < |m.avail| ==> k % m.size != ring.availIdx % m.size
  {
    UnreadBound(m);
    PublishSlot(ring, ring', m, Add(m, elems, indirect, table), m.free[0]);
  }

  lemma PopRing(ring: Ring, m: Model, token: nat)
    requires RingRep(ring, m) && m.popped < |m.used| && token in m.chains
    ensures RingRep(ring.(lastUsedIdx := (ring.lastUsedIdx + 1) % U16), Pop(m, token))
  {
    WrappedNext(m.popped);
  }

  /** A device write to the used ring hits a slot the driver has popped. */
  lemma UseRing(ring: Ring, m: Model, id: nat, len: nat)
    requires Inv(m) && RingRep(ring, m) && id in m.inflight
    ensures var slot := ring.usedIdx % m.size;
            RingRep(ring.(usedIdx := (ring.usedIdx + 1) % U16, usedRing := ring.usedRing[slot := Used(id, len)]),
                    Apply(m, DeviceUse(id, len)))
    ensures forall k: nat :: m.popped <= k < |m.used| ==> k % m.size != ring.usedIdx % m.size
  {
    var n := |m.used|;
    UnreadBound(m);
    SlotOfCounter(n, m.size);
    WrappedNext(n);
    forall k: nat | m.popped <= k < n ensures k % m.size != n % m.size {
      SlotsApart(k, n, m.size);
    }
  }

  /** The index comparison is exact: something to pop iff the counters differ; likewise for the device. */
  lemma IndicesExact(ring: Ring, m: Model)
    requires Inv(m) && RingRep(ring, m)
    ensures ring.lastUsedIdx != ring.usedIdx <==> m.popped < |m.used|
    ensures m.fetched % U16 != ring.published <==> m.fetched < |m.avail|
  {
    UnreadBound(m);
    WrappedAgree(m.popped, |m.used|);
    WrappedAgree(m.fetched, |m.avail|);
  }

  // ---------- Whole runs ----------

  /** A descriptor is in the free list or in one outstanding chain, never both, and in no list twice. */
  ghost predicate ExactlyOnce(free: seq<nat>, m: Model, x: nat) {
    && NoDup(free) && (x in free <==> !InChain(m, x))
    && (forall t: nat :: t in m.chains ==> NoDup(m.chains[t].ids))
    && (forall t: nat, u: nat | t in m.chains && u in m.chains ::
          x in m.chains[t].ids && x in m.chains[u].ids ==> t == u)
  }

  lemma WalkPartition(mem: Mem, m: Model, x: nat)
    requires Partition(m) && MemRep(mem, m) && x < m.size
    ensures ExactlyOnce(FreeWalk(mem.shadow, mem.freeHead, m.size - mem.numUsed), m, x)
  {
    FreeWalkExact(mem.shadow, mem.freeHead, m.free);
    forall t: nat | t in m.chains ensures NoDup(m.chains[t].ids) && Disjoint(m.chains[t].ids, m.free) {
      assert ChainOk(m, t);
    }
  }

  ghost predicate EachOnce(free: seq<nat>, m: Model) {
    forall x: nat :: x < m.size ==> ExactlyOnce(free, m, x)
  }

  /** The links from the free head and the outstanding chains partition the descriptors. */
  ghost predicate Partitioned(mem: Mem, m: Model) {
    mem.numUsed <= m.size && EachOnce(FreeWalk(mem.shadow, mem.freeHead, m.size - mem.numUsed), m)
  }

  lemma WalksPartition(mem: Mem, m: Model)
    requires Partition(m) && MemRep(mem, m)
    ensures Partitioned(mem, m)
  {
    var free := FreeWalk(mem.shadow, mem.freeHead, m.size - mem.numUsed);
    forall x: nat | x < m.size ensures ExactlyOnce(free, m, x) {
      WalkPartition(mem, m, x);
    }
  }

  lemma RunPartition(run: seq<Model>, steps: seq<Step>, i: nat)
    requires IsRun(run, steps) && i < |run|
    ensures Partition(run[i])
  {
    RunInv(run, steps, i);
  }

  /** At every point of every run, `SIZE - num_used` links and the chains find each descriptor exactly once. */
  lemma PartitionAlways(run: seq<Model>, steps: seq<Step>, i: nat, mem: Mem)
    requires IsRun(run, steps) && i < |run| && MemRep(mem, run[i])
    ensures Partitioned(mem, run[i])
  {
    RunPartition(run, steps, i);
    WalksPartition(mem, run[i]);
  }

  ghost predicate ChainSame(m: Model, next: Model, t: nat) {
    t in m.chains ==> t in next.chains && next.chains[t] == m.chains[t]
  }

  lemma ChainStep(m: Model, step: Step, next: Model, t: nat)
    requires StepAt(m, step, next) && step != DriverPop(t)
    ensures ChainSame(m, next, t)
  {
    if step.DriverAdd? {
      FreshHead(m);
    }
  }

  lemma {:induction false} ChainStays(run: seq<Model>, i: nat, j: nat, t: nat)
    requires i <= j < |run| && forall k :: i <= k < j ==> ChainSame(run[k], run[k + 1], t)
    ensures ChainSame(run[i], run[j], t)
  {
    if i < j {
      ChainStays(run, i, j - 1, t);
      assert ChainSame(run[j - 1], run[j - 1 + 1], t);
    }
  }

  /** What the device sees under a token is what was added, until that token is popped. */
  lemma SeenUntilPopped(run: seq<Model>, steps: seq<Step>, i: nat, j: nat, t: nat, before: Mem, after: Mem)
    requires IsRun(run, steps) && i <= j < |run| && t in run[i].chains
    requires forall k :: i <= k < j ==> steps[k] != DriverPop(t)
    requires MemRep(before, run[i]) && MemRep(after, run[j])
    ensures DeviceSees(after, t) == DeviceSees(before, t) == run[i].chains[t].elems
  {
    RunInv(run, steps, i);
    RunInv(run, steps, j);
    forall k | i <= k < j ensures ChainSame(run[k], run[k + 1], t) {
      ChainStep(run[k], steps[k], run[k + 1], t);
    }
    ChainStays(run, i, j, t);
    DeviceSeesAdded(before, run[i], t);
    DeviceSeesAdded(after, run[j], t);
  }
}
