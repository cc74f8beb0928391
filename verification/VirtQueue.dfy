/**
 The driver of virtio-drivers-patched/src/queue.rs, with the device's two moves beside it. Every
 method keeps the memory a representation of the ghost `model` and moves that model by one step of
 VirtQueueModel. Addresses returned by the HAL's `share` are parameters.
 */
module VirtQueue {
  import opened Wrappers
  import opened Lists
  import opened RingArith
  import opened VirtQueueModel
  import opened VirtQueueMemory

  datatype Error = InvalidParam | QueueFull | NotReady | WrongToken

  datatype Buffer = Buffer(addr: nat, len: nat)

  /** Inputs are read by the device, outputs written by it, in that order. */
  function Elems(inputs: seq<Buffer>, outputs: seq<Buffer>): seq<Elem> {
    seq(|inputs|, i requires 0 <= i < |inputs| => Elem(inputs[i].addr, inputs[i].len, false))
    + seq(|outputs|, i requires 0 <= i < |outputs| => Elem(outputs[i].addr, outputs[i].len, true))
  }

  /** A device that walks the chain finds the inputs first, which it may only read, then the outputs, which it may write. */
  ghost predicate Sees(seen: seq<Elem>, inputs: seq<Buffer>, outputs: seq<Buffer>) {
    && |seen| == |inputs| + |outputs|
    && (forall i :: 0 <= i < |inputs| ==>
          seen[i].addr == inputs[i].addr && seen[i].len == inputs[i].len && !seen[i].write)
    && (forall j :: 0 <= j < |outputs| ==>
          var e := seen[|inputs| + j]; e.addr == outputs[j].addr && e.len == outputs[j].len && e.write)
  }

  lemma ElemsSeen(inputs: seq<Buffer>, outputs: seq<Buffer>)
    ensures Sees(Elems(inputs, outputs), inputs, outputs) && (Elems(inputs, outputs) == [] ==> inputs + outputs == [])
  {}

  function Chained(e: Elem, next: nat): Desc {
    Desc(e.addr, e.len, true, e.write, false, next)
  }

  // ---------- Filling the descriptors of a chain ----------

  /** The first `k` free descriptors hold the first `k` buffers, all marked NEXT; the rest is untouched. */
  ghost predicate Filled(was: seq<Desc>, now: seq<Desc>, free: seq<nat>, elems: seq<Elem>, k: nat) {
    && |now| == |was| && k <= |free| && k <= |elems| && (forall j :: 0 <= j < |free| ==> free[j] < |was|)
    && (forall j :: 0 <= j < k ==> now[free[j]] == Chained(elems[j], was[free[j]].next))
    && (forall x: nat :: x < |was| && x !in free[..k] ==> now[x] == was[x])
  }

  ghost predicate Copied(was: seq<Desc>, now: seq<Desc>, shadow: seq<Desc>, free: seq<nat>, k: nat) {
    && |now| == |was| == |shadow| && k <= |free| && (forall j :: 0 <= j < |free| ==> free[j] < |was|)
    && (forall j :: 0 <= j < k ==> now[free[j]] == shadow[free[j]])
    && (forall x: nat :: x < |was| && x !in free[..k] ==> now[x] == was[x])
  }

  lemma FillNext(was: seq<Desc>, now: seq<Desc>, free: seq<nat>, elems: seq<Elem>, k: nat)
    requires NoDup(free) && Filled(was, now, free, elems, k) && k < |free| && k < |elems|
    ensures now[free[k]] == was[free[k]]
    ensures Filled(was, now[free[k] := Chained(elems[k], was[free[k]].next)], free, elems, k + 1)
  {
    assert free[k] !in free[..k];
    assert free[..k + 1] == free[..k] + [free[k]];
  }

  lemma CopyNext(was: seq<Desc>, now: seq<Desc>, shadow: seq<Desc>, free: seq<nat>, k: nat, d: Desc)
    requires NoDup(free) && Copied(was, now, shadow, free, k) && k < |free|
    ensures Copied(was, now[free[k] := d], shadow[free[k] := d], free, k + 1)
  {
    assert free[..k + 1] == free[..k] + [free[k]];
  }

  /** Clearing NEXT on the last descriptor closes the chain. */
  function Closed(mem: Mem, shadow: seq<Desc>, desc: seq<Desc>, last: nat, n: nat): Mem
    requires last < |mem.shadow| == |shadow| == |desc|
  {
    var d := shadow[last].(hasNext := false);
    mem.(freeHead := mem.shadow[last].next, numUsed := mem.numUsed + n,
         desc := desc[last := d], shadow := shadow[last := d])
  }

  lemma CloseChain(mem: Mem, shadow: seq<Desc>, desc: seq<Desc>, free: seq<nat>, elems: seq<Elem>)
    requires NoDup(free) && 0 < |elems| <= |free| && FreeLinks(mem.shadow, free[0], free)
    requires |mem.lists| == |mem.shadow| == |mem.desc|
    requires Filled(mem.shadow, shadow, free, elems, |elems|) && Copied(mem.desc, desc, shadow, free, |elems|)
    ensures DirectAdded(mem, Closed(mem, shadow, desc, free[|elems| - 1], |elems|), free[..|elems|], elems)
  {}

  /** The first `k` slots of an indirect table, all marked NEXT. */
  ghost predicate Listed(list: seq<Desc>, elems: seq<Elem>, k: nat) {
    k <= |elems| == |list| && forall j :: 0 <= j < k ==> list[j] == Chained(elems[j], j + 1)
  }

  lemma CloseTable(list: seq<Desc>, elems: seq<Elem>)
    requires Listed(list, elems, |elems|) && elems != []
    ensures TableHolds(list[|list| - 1 := list[|list| - 1].(hasNext := false)], elems)
  {}

  // ---------- Giving the descriptors of a chain back ----------

  /** The first `k` descriptors of a chain are back on the free list, the last one linked to `rest`. */
  ghost predicate Unlinked(was: seq<Desc>, now: seq<Desc>, ids: seq<nat>, rest: nat, k: nat) {
    && |now| == |was| && k <= |ids| && (forall j :: 0 <= j < |ids| ==> ids[j] < |was|)
    && (forall j :: 0 <= j < k && j < |ids| - 1 ==> now[ids[j]].next == ids[j + 1])
    && (0 < k == |ids| ==> now[ids[k - 1]].next == rest)
    && (forall x: nat :: x < |was| && x !in ids[..k] ==> now[x] == was[x])
  }

  /** One descriptor given back: emptied, and linked to `rest` if it ended its chain. */
  function Freed(d: Desc, rest: nat): Desc {
    d.(addr := 0, len := 0, next := if d.hasNext then d.next else rest)
  }

  lemma UnlinkNext(was: seq<Desc>, now: seq<Desc>, ids: seq<nat>, rest: nat, k: nat)
    requires NoDup(ids) && Unlinked(was, now, ids, rest, k) && k < |ids|
    requires was[ids[k]].hasNext == (k < |ids| - 1) && (k < |ids| - 1 ==> was[ids[k]].next == ids[k + 1])
    ensures now[ids[k]] == was[ids[k]]
    ensures Unlinked(was, now[ids[k] := Freed(was[ids[k]], rest)], ids, rest, k + 1)
  {
    assert ids[k] !in ids[..k];
    assert ids[..k + 1] == ids[..k] + [ids[k]];
  }

  ghost predicate Untouched(was: seq<Desc>, now: seq<Desc>, ids: seq<nat>, k: nat) {
    |now| == |was| && k <= |ids| && forall x: nat :: x < |was| && x !in ids[..k] ==> now[x] == was[x]
  }

  lemma UntouchedNext(was: seq<Desc>, now: seq<Desc>, ids: seq<nat>, k: nat, d: Desc)
    requires Untouched(was, now, ids, k) && k < |ids| && ids[k] < |was|
    ensures Untouched(was, now[ids[k] := d], ids, k + 1)
  {
    assert ids[..k + 1] == ids[..k] + [ids[k]];
  }

  lemma RecycleDone(mem: Mem, mem': Mem, ids: seq<nat>)
    requires ids != [] && |mem.shadow| == |mem.desc| == |mem.lists|
    requires Unlinked(mem.shadow, mem'.shadow, ids, mem.freeHead, |ids|)
    requires Untouched(mem.desc, mem'.desc, ids, |ids|)
    requires mem'.freeHead == ids[0] && mem'.numUsed + |ids| == mem.numUsed
    requires mem'.lists == mem.lists && mem'.shared == mem.shared
    ensures DirectRecycled(mem, mem', ids)
  {
    assert ids[..|ids|] == ids;
  }

  predicate PowerOfTwo(n: nat) {
    n == 1 || (n > 1 && n % 2 == 0 && PowerOfTwo(n / 2))
  }

  lemma {:induction false} PowerDivides(a: nat, b: nat)
    requires PowerOfTwo(a) && PowerOfTwo(b) && a <= b
    ensures b % a == 0
  {
    if a > 1 {
      PowerDivides(a / 2, b / 2);
      var q := (b / 2) / (a / 2);
      assert b == 2 * (b / 2) && b / 2 == (a / 2) * q;
      assert b == a * q + 0;
      ModUnique(b, a, q, 0);
    }
  }

  lemma SizeDividesU16(size: nat)
    requires PowerOfTwo(size) && size < U16
    ensures U16 % size == 0
  {
    assert PowerOfTwo(0x1_0000) by {
      assert PowerOfTwo(16) && PowerOfTwo(256) && PowerOfTwo(4096);
    }
    PowerDivides(size, U16);
  }

  lemma FreshRep(mem: Mem, ring: Ring, m: Model)
    requires Init(m) && 0 < m.size < U16 && U16 % m.size == 0
    requires |mem.desc| == |mem.shadow| == |mem.lists| == m.size && mem.freeHead == 0 && mem.numUsed == 0
    requires forall i :: 0 <= i < m.size - 1 ==> mem.shadow[i].next == i + 1
    requires forall i :: 0 <= i < m.size ==> mem.lists[i].None?
    requires |ring.availRing| == |ring.usedRing| == m.size
    requires ring.availIdx == ring.published == ring.lastUsedIdx == ring.usedIdx == 0
    ensures MemRep(mem, m) && RingRep(ring, m)
  {}

  lemma TablesKnown(mem: Mem, m: Model, table: nat)
    requires MemRep(mem, m) && table !in mem.shared
    ensures forall t :: t in m.chains ==> m.chains[t].table != Some(table)
  {
    forall t | t in m.chains ensures m.chains[t].table != Some(table) {
      assert ChainStored(mem, t, m.chains[t]);
    }
  }

  lemma AddSeen(mem: Mem, mem': Mem, m: Model, elems: seq<Elem>, indirect: bool, table: nat)
    requires Inv(m) && MemRep(mem, m) && Enabled(m, DriverAdd(elems, indirect, table))
    requires Needs(|elems|, indirect) <= |m.free| && MemRep(mem', Add(m, elems, indirect, table))
    ensures DeviceSees(mem', m.free[0]) == elems
    ensures forall t: nat :: t in m.chains ==> DeviceSees(mem', t) == DeviceSees(mem, t)
  {
    var r := Add(m, elems, indirect, table);
    StepKeeps(m, DriverAdd(elems, indirect, table));
    FreshHead(m);
    DeviceSeesAdded(mem', r, m.free[0]);
    forall t: nat | t in m.chains ensures DeviceSees(mem', t) == DeviceSees(mem, t) {
      DeviceSeesAdded(mem, m, t);
      DeviceSeesAdded(mem', r, t);
    }
  }

  /** What placing a chain and publishing its head amount to. */
  lemma AddDone(mem: Mem, mem': Mem, ring: Ring, ring': Ring, m: Model, elems: seq<Elem>, indirect: bool, table: nat)
    requires Inv(m) && MemRep(mem, m) && RingRep(ring, m) && elems != []
    requires indirect && |elems| > 1 ==> table !in mem.shared
    requires Fits(m, |elems|, indirect) && MemRep(mem', Add(m, elems, indirect, table))
    requires Published(ring, ring', m.size, m.free[0])
    ensures Enabled(m, DriverAdd(elems, indirect, table))
    ensures var r := Apply(m, DriverAdd(elems, indirect, table));
            r == Add(m, elems, indirect, table) && Inv(r) && r.size == m.size && RingRep(ring', r)
  {
    if indirect && |elems| > 1 {
      TablesKnown(mem, m, table);
    }
    AddRing(ring, ring', m, elems, indirect, table);
    StepKeeps(m, DriverAdd(elems, indirect, table));
  }

  /** What the device returned next is an outstanding token, so casting it to u16 loses nothing. */
  lemma NextUsedOutstanding(m: Model)
    requires Inv(m) && m.popped < |m.used| && m.size < U16
    ensures var id := m.used[m.popped].id; id in m.chains && id < m.size && id % U16 == id
  {
    var id := m.used[m.popped].id;
    assert UsedIds(m)[0] == id && id in multiset(UsedIds(m));
    assert id in multiset(m.chains.Keys);
    HeadNotFree(m, id);
  }

  lemma PopSeen(mem: Mem, mem': Mem, m: Model, token: nat)
    requires Inv(m) && MemRep(mem, m) && Enabled(m, DriverPop(token)) && MemRep(mem', Pop(m, token))
    ensures forall t: nat :: t in m.chains && t != token ==> DeviceSees(mem', t) == DeviceSees(mem, t)
  {
    StepKeeps(m, DriverPop(token));
    forall t: nat | t in m.chains && t != token ensures DeviceSees(mem', t) == DeviceSees(mem, t) {
      DeviceSeesAdded(mem, m, t);
      DeviceSeesAdded(mem', Pop(m, token), t);
    }
  }

  lemma PopDone(ring: Ring, ring': Ring, m: Model, token: nat)
    requires Inv(m) && RingRep(ring, m) && Enabled(m, DriverPop(token))
    requires ring' == ring.(lastUsedIdx := (ring.lastUsedIdx + 1) % U16)
    ensures var r := Apply(m, DriverPop(token));
            r == Pop(m, token) && Inv(r) && r.size == m.size && RingRep(ring', r) && r.fetched == m.fetched
  {
    PopRing(ring, m, token);
    StepKeeps(m, DriverPop(token));
  }

  /** Enough descriptors are in use to give this chain back. */
  lemma ChainFits(m: Model, t: nat)
    requires Partition(m) && t in m.chains
    ensures |m.chains[t].ids| + |m.free| <= m.size
  {
    var ids := m.chains[t].ids;
    assert ChainOk(m, t);
    NoDupConcat(ids, m.free);
    NoDupShort(ids + m.free, m.size);
  }

  lemma FetchDone(mem: Mem, ring: Ring, m: Model)
    requires Inv(m) && MemRep(mem, m) && RingRep(ring, m) && Enabled(m, DeviceFetch)
    ensures var r := Apply(m, DeviceFetch);
            Inv(r) && r.size == m.size && MemRep(mem, r) && RingRep(ring, r)
            && r.fetched % U16 == (m.fetched % U16 + 1) % U16
    ensures ring.availRing[(m.fetched % U16) % m.size] == m.avail[m.fetched]
  {
    SlotOfCounter(m.fetched, m.size);
    WrappedNext(m.fetched);
    StepKeeps(m, DeviceFetch);
  }

  lemma UseRep(mem: Mem, m: Model, id: nat, len: nat)
    requires Inv(m) && MemRep(mem, m) && Enabled(m, DeviceUse(id, len))
    ensures MemRep(mem, Apply(m, DeviceUse(id, len)))
  {}

  class VirtQueue {
    const size: nat
    const indirect: bool
    const eventIdx: bool
    const desc: array<Desc>
    const shadow: array<Desc>
    const lists: array<Option<seq<Desc>>>
    const availRing: array<nat>
    const usedRing: array<Used>
    var freeHead: nat
    var numUsed: nat
    var availIdx: nat
    var lastUsedIdx: nat
    var published: nat       // avail.idx
    var usedEvent: nat
    var shared: map<nat, seq<Desc>>
    var usedIdx: nat         // used.idx, written by the device
    var deviceIdx: nat       // the device's own position in the available ring
    ghost var model: Model

    ghost function MemOf(): Mem
      reads this, desc, shadow, lists
    {
      Mem(freeHead, numUsed, desc[..], shadow[..], lists[..], shared)
    }

    ghost function RingOf(): Ring
      reads this, availRing, usedRing
    {
      Ring(availIdx, published, availRing[..], lastUsedIdx, usedIdx, usedRing[..])
    }

    ghost predicate Valid()
      reads this, desc, shadow, lists, availRing, usedRing
    {
      && desc != shadow && model.size == size && Inv(model)
      && MemRep(MemOf(), model) && RingRep(RingOf(), model)
      && deviceIdx == model.fetched % U16
    }

    constructor (size: nat, indirect: bool, eventIdx: bool)
      requires PowerOfTwo(size) && size < U16
      ensures Valid() && Init(model) && this.size == size && this.indirect == indirect && this.eventIdx == eventIdx
      ensures fresh(desc) && fresh(shadow) && fresh(lists) && fresh(availRing) && fresh(usedRing)
    {
      this.size, this.indirect, this.eventIdx := size, indirect, eventIdx;
      desc := new Desc[size](_ => Desc(0, 0, false, false, false, 0));
      shadow := new Desc[size](_ => Desc(0, 0, false, false, false, 0));
      lists := new Option<seq<Desc>>[size](_ => None);
      availRing := new nat[size](_ => 0);
      usedRing := new Used[size](_ => Used(0, 0));
      freeHead, numUsed, availIdx, lastUsedIdx, published, usedEvent := 0, 0, 0, 0, 0, 0;
      shared, usedIdx, deviceIdx := map[], 0, 0;
      model := Model(size, seq(size, i => i), map[], [], 0, multiset{}, [], 0);
      new;
      Link();
      SizeDividesU16(size);
      InitInv(model);
      FreshRep(MemOf(), RingOf(), model);
    }

    /** Threads all descriptors into one list. */
    method Link()
      requires desc != shadow && desc.Length == shadow.Length == size > 0
      modifies shadow, desc
      ensures forall j :: 0 <= j < size - 1 ==> shadow[j].next == j + 1
    {
      for i := 0 to size - 1
        invariant forall j :: 0 <= j < i ==> shadow[j].next == j + 1
      {
        shadow[i] := shadow[i].(next := i + 1);
        desc[i] := desc[i].(next := i + 1);
      }
    }

    ghost method Commit(m: Model)
      requires desc != shadow && m.size == size && Inv(m)
      requires MemRep(MemOf(), m) && RingRep(RingOf(), m) && deviceIdx == m.fetched % U16
      modifies this`model
      ensures Valid() && model == m
    {
      model := m;
    }

    method FillOne(e: Elem) returns (last: nat)
      requires desc != shadow && freeHead < shadow.Length == desc.Length
      modifies this`freeHead, shadow, desc
      ensures last == old(freeHead) && freeHead == old(shadow[freeHead]).next
      ensures shadow[..] == old(shadow[..])[last := Chained(e, freeHead)]
      ensures desc[..] == old(desc[..])[last := Chained(e, freeHead)]
    {
      last := freeHead;
      shadow[last] := shadow[last].(addr := e.addr, len := e.len, hasNext := true, write := e.write, indirect := false);
      freeHead := shadow[last].next;
      desc[last] := shadow[last];
    }

    /** Takes the first descriptors of the free list, one per buffer. */
    method AddDirect(elems: seq<Elem>, ghost free: seq<nat>) returns (head: nat)
      requires desc != shadow && desc.Length == shadow.Length == lists.Length == size
      requires NoDup(free) && FreeLinks(shadow[..], freeHead, free) && 0 < |elems| <= |free|
      modifies this`freeHead, this`numUsed, shadow, desc
      ensures head == free[0] && DirectAdded(old(MemOf()), MemOf(), free[..|elems|], elems)
    {
      head := freeHead;
      var last := freeHead;
      for k := 0 to |elems|
        invariant freeHead == if k == 0 then free[0] else old(shadow[..])[free[k - 1]].next
        invariant last == if k == 0 then free[0] else free[k - 1]
        invariant numUsed == old(numUsed)
        invariant Filled(old(shadow[..]), shadow[..], free, elems, k)
        invariant Copied(old(desc[..]), desc[..], shadow[..], free, k)
      {
        FillNext(old(shadow[..]), shadow[..], free, elems, k);
        CopyNext(old(desc[..]), desc[..], shadow[..], free, k, Chained(elems[k], shadow[freeHead].next));
        last := FillOne(elems[k]);
      }
      CloseChain(old(MemOf()), shadow[..], desc[..], free, elems);
      ghost var goal := Closed(old(MemOf()), shadow[..], desc[..], last, |elems|);
      shadow[last] := shadow[last].(hasNext := false);
      desc[last] := shadow[last];
      numUsed := numUsed + |elems|;
      assert MemOf() == goal;
    }

    /** Puts all buffers in a table of their own and takes one descriptor to point at it. */
    method AddIndirect(elems: seq<Elem>, table: nat, ghost free: seq<nat>)
      returns (head: nat, ghost list: seq<Desc>)
      requires desc != shadow && desc.Length == shadow.Length == lists.Length == size
      requires FreeLinks(shadow[..], freeHead, free) && free != [] && elems != []
      requires lists[free[0]].None?
      modifies this`freeHead, this`numUsed, this`shared, shadow, desc, lists
      ensures head == free[0] && IndirectAdded(old(MemOf()), MemOf(), head, elems, table, list)
    {
      head := freeHead;
      var slots := new Desc[|elems|](_ => Desc(0, 0, false, false, false, 0));
      for i := 0 to |elems|
        modifies slots
        invariant Listed(slots[..], elems, i)
      {
        slots[i] := Chained(elems[i], i + 1);
      }
      CloseTable(slots[..], elems);
      slots[|elems| - 1] := slots[|elems| - 1].(hasNext := false);
      list := slots[..];
      assert lists[head].None?;
      lists[head] := Some(slots[..]);
      shared := shared[table := slots[..]];
      freeHead := shadow[head].next;
      shadow[head] := TableDesc(table, |elems|, shadow[head].next);
      desc[head] := shadow[head];
      numUsed := numUsed + 1;
    }

    method FreeOne(i: nat, original: nat) returns (next: Option<nat>)
      requires desc != shadow && i < shadow.Length == desc.Length && numUsed > 0
      modifies this`numUsed, shadow, desc
      ensures numUsed == old(numUsed) - 1
      ensures shadow[..] == old(shadow[..])[i := Freed(old(shadow[i]), original)]
      ensures desc[..] == old(desc[..])[i := shadow[i]]
      ensures next == if old(shadow[i]).hasNext then Some(old(shadow[i]).next) else None
    {
      shadow[i] := shadow[i].(addr := 0, len := 0);
      numUsed := numUsed - 1;
      next := if shadow[i].hasNext then Some(shadow[i].next) else None;
      if next.None? {
        shadow[i] := shadow[i].(next := original);
      }
      desc[i] := shadow[i];
    }

    /** Returns a direct chain to the front of the free list. */
    method RecycleDirect(head: nat, n: nat, ghost c: Chain)
      requires desc != shadow && desc.Length == shadow.Length == lists.Length == size
      requires ChainAt(shadow[..], c.ids, c.elems) && NoDup(c.ids) && n == |c.ids| > 0 && head == c.ids[0]
      requires n <= numUsed
      modifies this`freeHead, this`numUsed, shadow, desc
      ensures DirectRecycled(old(MemOf()), MemOf(), c.ids)
    {
      var original := freeHead;
      freeHead := head;
      var next := Some(head);
      for k := 0 to n
        invariant next == if k < n then Some(c.ids[k]) else None
        invariant freeHead == head && numUsed + k == old(numUsed)
        invariant Unlinked(old(shadow[..]), shadow[..], c.ids, original, k)
        invariant Untouched(old(desc[..]), desc[..], c.ids, k)
      {
        ghost var was, wasDesc := shadow[..], desc[..];
        UnlinkNext(old(shadow[..]), was, c.ids, original, k);
        next := FreeOne(next.value, original);
        UntouchedNext(old(desc[..]), wasDesc, c.ids, k, desc[c.ids[k]]);
      }
      assert next.None?;
      RecycleDone(old(MemOf()), MemOf(), c.ids);
    }

    /** Frees the table of an indirect chain and returns its one descriptor to the free list. */
    method RecycleIndirect(head: nat)
      requires desc != shadow && desc.Length == shadow.Length == lists.Length == size && head < size
      requires lists[head].Some? && numUsed > 0
      modifies this`freeHead, this`numUsed, this`shared, shadow, lists
      ensures IndirectRecycled(old(MemOf()), MemOf(), head)
    {
      var original := freeHead;
      freeHead := head;
      lists[head] := None;
      var paddr := shadow[head].addr;
      shadow[head] := shadow[head].(addr := 0, len := 0, next := original);
      numUsed := numUsed - 1;
      shared := shared - {paddr};
    }

    method Place(elems: seq<Elem>, table: nat) returns (head: nat)
      requires Valid() && elems != [] && Fits(model, |elems|, indirect)
      requires indirect && |elems| > 1 ==> table !in shared
      modifies this`freeHead, this`numUsed, this`shared, shadow, desc, lists
      ensures head == model.free[0] && MemRep(MemOf(), VirtQueueModel.Add(model, elems, indirect, table))
    {
      ghost var mem := MemOf();
      if indirect && |elems| > 1 {
        ghost var list;
        ListFree(mem, model);
        head, list := AddIndirect(elems, table, model.free);
        AddIndirectRep(mem, MemOf(), model, elems, table, list);
      } else {
        head := AddDirect(elems, model.free);
        AddDirectRep(mem, MemOf(), model, elems, indirect, table);
      }
    }

    method Publish(head: nat)
      requires availRing.Length == size > 0
      modifies this`availIdx, this`published, availRing
      ensures Published(old(RingOf()), RingOf(), size, head)
    {
      availRing[availIdx % size] := head;
      availIdx := (availIdx + 1) % U16;
      published := availIdx;
    }

    method Offer(elems: seq<Elem>, table: nat) returns (head: nat)
      requires Valid() && elems != [] && Fits(model, |elems|, indirect)
      requires indirect && |elems| > 1 ==> table !in shared
      modifies this, shadow, desc, lists, availRing
      ensures Valid() && head == old(model.free)[0]
      ensures Enabled(old(model), DriverAdd(elems, indirect, table))
      ensures model == Apply(old(model), DriverAdd(elems, indirect, table))
    {
      ghost var mem := MemOf();
      head := Place(elems, table);
      FinishAdd(mem, elems, table, head);
    }

    method FinishAdd(ghost mem: Mem, ghost elems: seq<Elem>, ghost table: nat, head: nat)
      requires desc != shadow && model.size == size && Inv(model) && elems != [] && Fits(model, |elems|, indirect)
      requires MemRep(mem, model) && (indirect && |elems| > 1 ==> table !in mem.shared)
      requires MemRep(MemOf(), VirtQueueModel.Add(model, elems, indirect, table)) && RingRep(RingOf(), model)
      requires head == model.free[0] && deviceIdx == model.fetched % U16
      modifies this`availIdx, this`published, this`model, availRing
      ensures Valid() && Enabled(old(model), DriverAdd(elems, indirect, table))
      ensures model == Apply(old(model), DriverAdd(elems, indirect, table))
    {
      ghost var mem', ring := MemOf(), RingOf();
      Publish(head);
      assert MemOf() == mem';
      AddDone(mem, mem', ring, RingOf(), model, elems, indirect, table);
      Commit(VirtQueueModel.Add(model, elems, indirect, table));
    }

    method OfferSeen(elems: seq<Elem>, table: nat) returns (head: nat)
      requires Valid() && elems != [] && Fits(model, |elems|, indirect)
      requires indirect && |elems| > 1 ==> table !in shared
      modifies this, shadow, desc, lists, availRing
      ensures Valid() && head == old(model.free)[0]
      ensures Enabled(old(model), DriverAdd(elems, indirect, table))
      ensures model == Apply(old(model), DriverAdd(elems, indirect, table))
      ensures DeviceSees(MemOf(), head) == elems
      ensures forall t: nat :: t in old(model.chains) ==> DeviceSees(MemOf(), t) == old(DeviceSees(MemOf(), t))
    {
      head := Offer(elems, table);
      AddSeen(old(MemOf()), MemOf(), old(model), elems, indirect, table);
    }

    /**
     Offers a chain. Refused exactly when there is nothing to offer or no room; otherwise the device
     sees exactly these buffers under the returned token, and every other token is as before.
     */
    method Add(inputs: seq<Buffer>, outputs: seq<Buffer>, table: nat) returns (r: Result<nat, Error>)
      requires Valid() && (indirect && |inputs| + |outputs| > 1 ==> table !in shared)
      requires forall i :: 0 <= i < |inputs| ==> inputs[i].len > 0
      requires forall i :: 0 <= i < |outputs| ==> outputs[i].len > 0
      modifies this, shadow, desc, lists, availRing
      ensures Valid()
      ensures r == Err(InvalidParam) <==> inputs == [] && outputs == []
      ensures r == Err(QueueFull) <==>
              var n, free := |inputs| + |outputs|, |old(model.free)|;
              n > 0 && (free == 0 || n > size || (!indirect && n > free))
      ensures r.Err? ==> r.error in {InvalidParam, QueueFull} && model == old(model)
                         && MemOf() == old(MemOf()) && RingOf() == old(RingOf())
      ensures r.Ok? ==> old(model.free) != [] && r.value == old(model.free)[0]
      ensures r.Ok? ==> Enabled(old(model), DriverAdd(Elems(inputs, outputs), indirect, table))
                        && model == Apply(old(model), DriverAdd(Elems(inputs, outputs), indirect, table))
      ensures r.Ok? ==> Sees(DeviceSees(MemOf(), r.value), inputs, outputs)
      ensures forall t: nat :: t in old(model.chains) ==> DeviceSees(MemOf(), t) == old(DeviceSees(MemOf(), t))
    {
      if inputs == [] && outputs == [] {
        return Err(InvalidParam);
      }
      var needed := |inputs| + |outputs|;
      if numUsed + 1 > size || needed > size || (!indirect && numUsed + needed > size) {
        return Err(QueueFull);
      }
      var elems := Elems(inputs, outputs);
      ElemsSeen(inputs, outputs);
      var head := OfferSeen(elems, table);
      return Ok(head);
    }

    method CanPop() returns (b: bool)
      requires Valid()
      ensures b <==> model.popped < |model.used|
    {
      IndicesExact(RingOf(), model);
      b := lastUsedIdx != usedIdx;
    }

    method PeekUsed() returns (r: Option<nat>)
      requires Valid()
      ensures r == if model.popped < |model.used| then Some(model.used[model.popped].id) else None
    {
      var ready := CanPop();
      if !ready {
        return None;
      }
      SlotOfCounter(model.popped, size);
      NextUsedOutstanding(model);
      return Some(usedRing[lastUsedIdx % size].id % U16);
    }

    method AvailableDesc() returns (n: nat)
      requires Valid()
      ensures n == if !indirect then |model.free| else if model.free == [] then 0 else size
    {
      if indirect {
        return if numUsed == size then 0 else size;
      }
      return size - numUsed;
    }

    method Recycle(token: nat, n: nat)
      requires Valid() && token in model.chains && n == |model.chains[token].elems|
      modifies this`freeHead, this`numUsed, this`shared, shadow, desc, lists
      ensures MemRep(MemOf(), VirtQueueModel.Pop(model, token))
    {
      ghost var mem, c := MemOf(), model.chains[token];
      ChainFits(model, token);
      assert ChainOk(model, token) && ChainStored(mem, token, c);
      if shadow[token].indirect {
        assert |lists[token].value| == n;
        RecycleIndirect(token);
        PopIndirectRep(mem, MemOf(), model, token);
      } else {
        RecycleDirect(token, n, c);
        PopDirectRep(mem, MemOf(), model, token);
      }
    }

    /**
     Pops the next returned chain if it is `token`. Its descriptors go back to the front of the free
     list in chain order, and no other token is disturbed.
     */
    method PopUsed(token: nat, inputs: seq<Buffer>, outputs: seq<Buffer>) returns (r: Result<nat, Error>)
      requires Valid()
      requires token in model.chains ==> |inputs| + |outputs| == |model.chains[token].elems|
      modifies this, shadow, desc, lists
      ensures Valid()
      ensures r == Err(NotReady) <==> old(model.popped) == |old(model.used)|
      ensures r == Err(WrongToken) <==>
                old(model.popped) < |old(model.used)| && old(model.used)[old(model.popped)].id != token
      ensures r.Err? ==> r.error in {NotReady, WrongToken} && model == old(model)
                         && MemOf() == old(MemOf()) && RingOf() == old(RingOf())
      ensures r.Ok? ==> Enabled(old(model), DriverPop(token)) && model == Apply(old(model), DriverPop(token))
                        && r.value == old(model.used)[old(model.popped)].len
                        && (eventIdx ==> usedEvent == lastUsedIdx)
      ensures forall t: nat :: t in model.chains ==> DeviceSees(MemOf(), t) == old(DeviceSees(MemOf(), t))
    {
      var ready := CanPop();
      if !ready {
        return Err(NotReady);
      }
      SlotOfCounter(model.popped, size);
      NextUsedOutstanding(model);
      var entry := usedRing[lastUsedIdx % size];
      if entry.id % U16 != token {
        return Err(WrongToken);
      }
      TakeBack(token, |inputs| + |outputs|);
      PopSeen(old(MemOf()), MemOf(), old(model), token);
      return Ok(entry.len);
    }

    method TakeBack(token: nat, n: nat)
      requires Valid() && Enabled(model, DriverPop(token)) && n == |model.chains[token].elems|
      modifies this, shadow, desc, lists
      ensures Valid() && model == Apply(old(model), DriverPop(token))
      ensures eventIdx ==> usedEvent == lastUsedIdx
    {
      Recycle(token, n);
      FinishPop(token);
    }

    method FinishPop(token: nat)
      requires desc != shadow && model.size == size && Inv(model) && Enabled(model, DriverPop(token))
      requires MemRep(MemOf(), VirtQueueModel.Pop(model, token)) && RingRep(RingOf(), model)
      requires deviceIdx == model.fetched % U16
      modifies this`lastUsedIdx, this`usedEvent, this`model
      ensures Valid() && model == Apply(old(model), DriverPop(token))
      ensures eventIdx ==> usedEvent == lastUsedIdx
    {
      ghost var mem, ring := MemOf(), RingOf();
      Advance();
      assert MemOf() == mem;
      PopDone(ring, RingOf(), model, token);
      Commit(VirtQueueModel.Pop(model, token));
    }

    method Advance()
      modifies this`lastUsedIdx, this`usedEvent
      ensures RingOf() == old(RingOf()).(lastUsedIdx := (old(lastUsedIdx) + 1) % U16)
      ensures usedEvent == if eventIdx then lastUsedIdx else old(usedEvent)
    {
      lastUsedIdx := (lastUsedIdx + 1) % U16;
      if eventIdx {
        usedEvent := lastUsedIdx;
      }
    }

    // ---------- The device ----------

    /** The device reads the next head; it finds exactly the heads offered, in order, none twice. */
    method DeviceFetches() returns (head: Option<nat>)
      requires Valid()
      modifies this
      ensures Valid() && MemOf() == old(MemOf()) && RingOf() == old(RingOf())
      ensures head == if old(model.fetched) < |old(model.avail)| then Some(old(model.avail)[old(model.fetched)]) else None
      ensures head.None? ==> model == old(model)
      ensures head.Some? ==> Enabled(old(model), DeviceFetch) && model == Apply(old(model), DeviceFetch)
    {
      IndicesExact(RingOf(), model);
      if deviceIdx == published {
        return None;
      }
      FetchDone(MemOf(), RingOf(), model);
      head := Some(availRing[deviceIdx % size]);
      deviceIdx := (deviceIdx + 1) % U16;
      Commit(Apply(model, DeviceFetch));
    }

    /** The device returns a chain it has fetched. */
    method DeviceReturns(id: nat, len: nat)
      requires Valid() && id in model.inflight
      modifies this, usedRing
      ensures Valid() && MemOf() == old(MemOf()) && model == Apply(old(model), DeviceUse(id, len))
    {
      ghost var m, mem, ring := model, MemOf(), RingOf();
      usedRing[usedIdx % size] := Used(id, len);
      usedIdx := (usedIdx + 1) % U16;
      assert MemOf() == mem;
      UseRing(ring, m, id, len);
      StepKeeps(m, DeviceUse(id, len));
      UseRep(mem, m, id, len);
      Commit(Apply(m, DeviceUse(id, len)));
    }
  }
}
