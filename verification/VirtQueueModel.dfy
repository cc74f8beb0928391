/**
 A split virtqueue (section 2.6 of VIRTIO v1.1) seen as lists: the free descriptors in the order
 in which they will be handed out, the outstanding chains, and the unbounded logs of everything
 offered to and returned by the device. The u16 indices, the rings and the descriptor tables of
 virtio-drivers-patched/src/queue.rs are shown in VirtQueueMemory to represent such a state.
 */
module VirtQueueModel {
  import opened Wrappers
  import opened Lists

  /** One buffer as the device sees it: address, length, and whether the device may write it. */
  datatype Elem = Elem(addr: nat, len: nat, write: bool)

  /** An outstanding chain: its descriptors, its buffers, and the address of its indirect table if any. */
  datatype Chain = Chain(ids: seq<nat>, elems: seq<Elem>, table: Option<nat>)

  datatype Used = Used(id: nat, len: nat)

  datatype Model = Model(
    size: nat,
    free: seq<nat>,
    chains: map<nat, Chain>,
    avail: seq<nat>,      // every head ever offered
    fetched: nat,         // how many of them the device has read
    inflight: multiset<nat>, // read, not returned yet
    used: seq<Used>,      // everything ever returned
    popped: nat)          // how many of these the driver has popped

  datatype Step =
    | DriverAdd(elems: seq<Elem>, indirect: bool, table: nat)
    | DriverPop(token: nat)
    | DeviceFetch
    | DeviceUse(id: nat, len: nat)

  // ---------- Steps ----------

  /** The negation of add's QueueFull condition. */
  predicate Fits(m: Model, n: nat, indirect: bool) {
    var numUsed := m.size - |m.free|;
    !(numUsed + 1 > m.size || n > m.size || (!indirect && numUsed + n > m.size))
  }

  /** How many descriptors a chain of `n` buffers takes. */
  function Needs(n: nat, indirect: bool): nat {
    if indirect && n > 1 then 1 else n
  }

  function Add(m: Model, elems: seq<Elem>, indirect: bool, table: nat): Model
    requires elems != [] && Needs(|elems|, indirect) <= |m.free|
  {
    var k := Needs(|elems|, indirect);
    var ids := m.free[..k];
    m.(free := m.free[k..],
       chains := m.chains[ids[0] := Chain(ids, elems, if indirect && |elems| > 1 then Some(table) else None)],
       avail := m.avail + [ids[0]])
  }

  function Pop(m: Model, token: nat): Model
    requires token in m.chains
  {
    m.(free := m.chains[token].ids + m.free, chains := m.chains - {token}, popped := m.popped + 1)
  }

  ghost predicate Enabled(m: Model, step: Step) {
    match step
    case DriverAdd(elems, indirect, table) =>
      elems != [] && Fits(m, |elems|, indirect)
      && (indirect && |elems| > 1 ==> forall t :: t in m.chains ==> m.chains[t].table != Some(table))
    case DriverPop(token) => m.popped < |m.used| && m.used[m.popped].id == token && token in m.chains
    case DeviceFetch => m.fetched < |m.avail|
    case DeviceUse(id, len) => id in m.inflight
  }

  ghost function Apply(m: Model, step: Step): Model
    requires Partition(m) && Enabled(m, step)
  {
    match step
    case DriverAdd(elems, indirect, table) => Add(m, elems, indirect, table)
    case DriverPop(token) => Pop(m, token)
    case DeviceFetch => m.(fetched := m.fetched + 1, inflight := m.inflight + multiset{m.avail[m.fetched]})
    case DeviceUse(id, len) => m.(inflight := m.inflight - multiset{id}, used := m.used + [Used(id, len)])
  }

  // ---------- The invariant ----------

  ghost predicate Disjoint(a: seq<nat>, b: seq<nat>) {
    forall x :: x in a ==> x !in b
  }

  ghost predicate ChainOk(m: Model, t: nat)
    requires t in m.chains
  {
    var c := m.chains[t];
    && c.ids != [] && c.ids[0] == t && c.elems != []
    && |c.ids| == (if c.table.Some? then 1 else |c.elems|)
    && NoDup(c.ids) && Disjoint(c.ids, m.free)
    && (forall k :: 0 <= k < |c.ids| ==> c.ids[k] < m.size)
  }

  ghost predicate InChain(m: Model, x: nat) {
    exists t: nat :: t in m.chains && x in m.chains[t].ids
  }

  /** Free list and chains partition the descriptors, without repeats. */
  ghost predicate Partition(m: Model) {
    && NoDup(m.free) && (forall k :: 0 <= k < |m.free| ==> m.free[k] < m.size)
    && (forall t: nat :: t in m.chains ==> ChainOk(m, t))
    && (forall t: nat, u: nat :: t in m.chains && u in m.chains && t != u ==> Disjoint(m.chains[t].ids, m.chains[u].ids))
    && (forall x: nat :: x < m.size ==> x in m.free || InChain(m, x))
  }

  ghost function UsedIds(m: Model): (s: seq<nat>)
    requires m.popped <= |m.used|
  {
    seq<nat>(|m.used| - m.popped, k requires 0 <= k < |m.used| - m.popped => m.used[m.popped + k].id)
  }

  /** Every outstanding chain is in exactly one of the three stages: offered, with the device, returned. */
  ghost predicate Stages(m: Model) {
    && m.popped <= |m.used| && m.fetched == |m.used| + |m.inflight| && m.fetched <= |m.avail|
    && multiset(m.avail[m.fetched..]) + m.inflight + multiset(UsedIds(m)) == multiset(m.chains.Keys)
  }

  /** Indirect tables of different chains lie at different addresses. */
  ghost predicate TablesApart(m: Model) {
    forall t: nat, u: nat :: t in m.chains && u in m.chains && t != u && m.chains[t].table.Some? ==>
      m.chains[t].table != m.chains[u].table
  }

  ghost predicate Inv(m: Model) {
    Partition(m) && Stages(m) && TablesApart(m)
  }

  /** A fresh queue: everything free, in order. */
  ghost predicate Init(m: Model) {
    && m.free == seq(m.size, i => i)
    && m.chains == map[] && m.avail == [] && m.fetched == 0 && m.inflight == multiset{} && m.used == [] && m.popped == 0
  }

  lemma InitInv(m: Model)
    requires Init(m)
    ensures Inv(m)
  {
    forall x: nat | x < m.size ensures x in m.free { assert m.free[x] == x; }
  }

  // ---------- Counting ----------

  lemma {:induction false} NoDupOnce(s: seq<nat>, x: nat)
    requires NoDup(s)
    ensures multiset(s)[x] <= 1
  {
    if s != [] {
      assert s == [s[0]] + s[1..];
      NoDupOnce(s[1..], x);
    }
  }

  lemma SubsetCard(a: multiset<nat>, b: multiset<nat>)
    requires forall x: nat :: a[x] <= b[x]
    ensures |a| <= |b|
  {
    assert b == a + (b - a);
  }

  /** Outstanding chains and free descriptors together never exceed the queue size. */
  lemma OutstandingBound(m: Model)
    requires Partition(m)
    ensures |m.chains| + |m.free| <= m.size
  {
    var f, k, all := multiset(m.free), multiset(m.chains.Keys), multiset(Below(m.size));
    forall x: nat ensures f[x] + k[x] <= all[x] {
      NoDupOnce(m.free, x);
      if x in m.chains {
        HeadNotFree(m, x);
      } else if x in m.free {
        var i :| 0 <= i < |m.free| && m.free[i] == x;
      }
    }
    SubsetCard(f + k, all);
    assert |f| == |m.free| && |k| == |m.chains.Keys| == |m.chains|;
  }

  /** The driver's two counters differ by the number of outstanding chains. */
  lemma StageCount(m: Model)
    requires Stages(m)
    ensures |m.avail| - m.popped == |m.chains|
  {
    assert |multiset(m.chains.Keys)| == |m.chains.Keys| == |m.chains|;
  }

  // ---------- Every step keeps the invariant ----------

  lemma AddPartition(m: Model, elems: seq<Elem>, indirect: bool, table: nat)
    requires Partition(m) && Enabled(m, DriverAdd(elems, indirect, table))
    ensures Needs(|elems|, indirect) <= |m.free| && Partition(Add(m, elems, indirect, table))
  {
    var ids, r := m.free[..Needs(|elems|, indirect)], Add(m, elems, indirect, table);
    assert m.free == ids + r.free;
    FreshHead(m);
    AddChains(m, r, ids);
    AddCover(m, r, ids);
  }

  lemma NoDupSplit(a: seq<nat>, b: seq<nat>)
    requires NoDup(a + b)
    ensures NoDup(a) && NoDup(b) && Disjoint(a, b)
  {
    var s := a + b;
    assert forall i :: 0 <= i < |a| ==> a[i] == s[i];
    assert forall i :: 0 <= i < |b| ==> b[i] == s[|a| + i];
  }

  lemma AddChains(m: Model, r: Model, ids: seq<nat>)
    requires Partition(m) && ids != [] && m.free == ids + r.free && r.size == m.size && ids[0] !in m.chains
    requires ids[0] in r.chains && r.chains == m.chains[ids[0] := r.chains[ids[0]]] && r.chains[ids[0]].ids == ids
    requires r.chains[ids[0]].elems != []
    requires |ids| == if r.chains[ids[0]].table.Some? then 1 else |r.chains[ids[0]].elems|
    ensures forall t: nat :: t in r.chains ==> ChainOk(r, t)
    ensures forall t: nat, u: nat :: t in r.chains && u in r.chains && t != u ==>
              Disjoint(r.chains[t].ids, r.chains[u].ids)
  {
    NoDupSplit(ids, r.free);
    assert forall k :: 0 <= k < |ids| ==> ids[k] == m.free[k];
    forall t: nat | t in r.chains ensures ChainOk(r, t) {
      if t != ids[0] {
        assert ChainOk(m, t);
      }
    }
    forall t: nat, u: nat | t in r.chains && u in r.chains && t != u
      ensures Disjoint(r.chains[t].ids, r.chains[u].ids)
    {
      if t == ids[0] {
        assert ChainOk(m, u);
      } else if u == ids[0] {
        assert ChainOk(m, t);
      }
    }
  }

  lemma AddCover(m: Model, r: Model, ids: seq<nat>)
    requires Partition(m) && ids != [] && m.free == ids + r.free && r.size == m.size && ids[0] !in m.chains
    requires ids[0] in r.chains && r.chains[ids[0]].ids == ids
    requires forall t: nat :: t in m.chains ==> t in r.chains && r.chains[t] == m.chains[t]
    ensures forall x: nat :: x < m.size ==> x in r.free || InChain(r, x)
  {
    forall x: nat | x < m.size ensures x in r.free || InChain(r, x) {
      if x in ids {
        assert ids[0] in r.chains;
      } else if x !in m.free {
        var t: nat :| t in m.chains && x in m.chains[t].ids;
        assert t in r.chains;
      }
    }
  }

  lemma HeadNotFree(m: Model, t: nat)
    requires Partition(m) && t in m.chains
    ensures t < m.size && t !in m.free
  {
    assert ChainOk(m, t) && m.chains[t].ids[0] in m.chains[t].ids;
  }

  /** The descriptor about to be handed out heads no outstanding chain. */
  lemma FreshHead(m: Model)
    requires Partition(m) && m.free != []
    ensures m.free[0] !in m.chains
  {
    forall t: nat | t in m.chains ensures t != m.free[0] {
      HeadNotFree(m, t);
    }
  }

  lemma NoDupConcat(a: seq<nat>, b: seq<nat>)
    requires NoDup(a) && NoDup(b) && Disjoint(a, b)
    ensures NoDup(a + b)
  {
    forall i, j | 0 <= i < j < |a + b| ensures (a + b)[i] != (a + b)[j] {
      if i < |a| <= j {
        assert a[i] in a && b[j - |a|] in b;
      }
    }
  }

  lemma PopPartition(m: Model, token: nat)
    requires Partition(m) && token in m.chains
    ensures Partition(Pop(m, token))
  {
    var r := Pop(m, token);
    assert ChainOk(m, token);
    NoDupConcat(m.chains[token].ids, m.free);
    forall t: nat | t in r.chains ensures ChainOk(r, t) {
      assert ChainOk(m, t);
    }
    forall x: nat | x < m.size ensures x in r.free || InChain(r, x) {
      if x !in m.free {
        var t: nat :| t in m.chains && x in m.chains[t].ids;
        if t != token {
          assert t in r.chains;
        }
      }
    }
  }

  lemma AddStages(m: Model, elems: seq<Elem>, indirect: bool, table: nat)
    requires Partition(m) && Stages(m) && Enabled(m, DriverAdd(elems, indirect, table))
    ensures Needs(|elems|, indirect) <= |m.free| && Stages(Add(m, elems, indirect, table))
  {
    var head, r := m.free[0], Add(m, elems, indirect, table);
    FreshHead(m);
    assert r.avail[r.fetched..] == m.avail[m.fetched..] + [head];
    assert UsedIds(r) == UsedIds(m);
    assert r.chains.Keys == m.chains.Keys + {head};
    assert multiset(r.chains.Keys) == multiset(m.chains.Keys) + multiset{head};
  }

  lemma Cancel(a: multiset<nat>, b: multiset<nat>, x: nat)
    requires a + multiset{x} == b + multiset{x}
    ensures a == b
  {
    assert a == a + multiset{x} - multiset{x} && b == b + multiset{x} - multiset{x};
  }

  lemma PopStages(m: Model, token: nat)
    requires Stages(m) && Enabled(m, DriverPop(token))
    ensures Stages(Pop(m, token))
  {
    var r := Pop(m, token);
    assert UsedIds(m) == [token] + UsedIds(r);
    assert m.chains.Keys == r.chains.Keys + {token};
    assert multiset(m.chains.Keys) == multiset(r.chains.Keys) + multiset{token};
    Cancel(multiset(m.avail[m.fetched..]) + m.inflight + multiset(UsedIds(r)), multiset(r.chains.Keys), token);
  }

  lemma FetchStages(m: Model)
    requires Partition(m) && Stages(m) && Enabled(m, DeviceFetch)
    ensures Stages(Apply(m, DeviceFetch))
  {
    var r := Apply(m, DeviceFetch);
    assert m.avail[m.fetched..] == [m.avail[m.fetched]] + r.avail[r.fetched..];
    assert UsedIds(r) == UsedIds(m);
  }

  lemma UseStages(m: Model, id: nat, len: nat)
    requires Partition(m) && Stages(m) && Enabled(m, DeviceUse(id, len))
    ensures Stages(Apply(m, DeviceUse(id, len)))
  {
    var r := Apply(m, DeviceUse(id, len));
    assert UsedIds(r) == UsedIds(m) + [id];
  }

  /** Whatever the driver and a device that returns only what it fetched do, the invariant stays. */
  lemma StepKeeps(m: Model, step: Step)
    requires Inv(m) && Enabled(m, step)
    ensures Inv(Apply(m, step)) && Apply(m, step).size == m.size
  {
    match step
    case DriverAdd(elems, indirect, table) =>
      AddPartition(m, elems, indirect, table);
      AddStages(m, elems, indirect, table);
      FreshHead(m);
    case DriverPop(token) =>
      PopPartition(m, token);
      PopStages(m, token);
    case DeviceFetch =>
      FetchStages(m);
      SamePartition(m, Apply(m, step));
    case DeviceUse(id, len) =>
      UseStages(m, id, len);
      SamePartition(m, Apply(m, step));
  }

  lemma SamePartition(m: Model, r: Model)
    requires Partition(m) && r.size == m.size && r.free == m.free && r.chains == m.chains
    ensures Partition(r)
  {
    forall t: nat | t in r.chains ensures ChainOk(r, t) {
      assert ChainOk(m, t);
    }
    forall x: nat | x < m.size ensures x in r.free || InChain(r, x) {
      if x !in m.free {
        var t: nat :| t in m.chains && x in m.chains[t].ids;
        assert t in r.chains;
      }
    }
  }

  // ---------- Runs ----------

  ghost predicate StepAt(m: Model, step: Step, next: Model) {
    Partition(m) && Enabled(m, step) && next == Apply(m, step)
  }

  ghost predicate IsRun(run: seq<Model>, steps: seq<Step>) {
    && |run| == |steps| + 1 && Init(run[0])
    && forall i :: 0 <= i < |steps| ==> StepAt(run[i], steps[i], run[i + 1])
  }

  lemma {:induction false} RunInv(run: seq<Model>, steps: seq<Step>, i: nat)
    requires IsRun(run, steps) && i < |run|
    ensures Inv(run[i]) && run[i].size == run[0].size
  {
    if i == 0 {
      InitInv(run[0]);
    } else {
      RunInv(run, steps, i - 1);
      assert StepAt(run[i - 1], steps[i - 1], run[i]);
      StepKeeps(run[i - 1], steps[i - 1]);
    }
  }
}
