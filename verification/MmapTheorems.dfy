/** What whole runs of mmap and munmap keep, and exactly which calls break it. */
module MmapTheorems {
  import opened Wrappers
  import opened MmapModel
  import opened MmapSets

  ghost function Managed(next: nat): iset<int> { Span(Region(MMAP_BASE, if next < MMAP_BASE then 0 else next - MMAP_BASE)) }

  /** Live and free bytes partition the address space handed out so far; the list is canonical. */
  ghost predicate Partition(s: State, live: iset<int>) {
    && MMAP_BASE <= s.next <= MMAP_LIMIT && s.next % PAGE == 0 && Canonical(s.free)
    && live !! Bytes(s.free) && live + Bytes(s.free) == Managed(s.next)
  }

  datatype Call = CallMmap(length: nat) | CallMunmap(addr: nat, length: nat)

  function Apply(s: State, call: Call): (State, int) {
    match call
    case CallMmap(length) => Mmap(s, length)
    case CallMunmap(addr, length) => Munmap(s, addr, length)
  }

  // ---------- Pages ----------

  function PageOf(x: int): int { x / PAGE }

  /** The bytes of all pages that meet [addr, addr + length): what a caller asks for. */
  ghost function Pages(addr: nat, length: nat): iset<int> {
    iset x: int | exists y :: addr <= y < addr + length && PageOf(y) == PageOf(x)
  }

  lemma SamePage(r: Region, addr: nat, length: nat, x: int, y: int)
    requires OnPages(r) && r.addr <= addr && addr + length <= r.End() && addr <= y < addr + length
    requires PageOf(y) == PageOf(x)
    ensures r.Has(x)
  {
    var p := PAGE * PageOf(y);
    assert p <= x < p + PAGE && p <= y < p + PAGE;
    assert r.addr == PAGE * (r.addr / PAGE) && r.End() == PAGE * (r.End() / PAGE);
  }

  /** A page range that fits a caller's range tightly on both sides is the pages that meet it. */
  lemma TightIsPages(r: Region, addr: nat, length: nat)
    requires OnPages(r) && r.addr <= addr < r.addr + PAGE && addr + length <= r.End() < addr + length + PAGE
    requires length > 0
    ensures Span(r) == Pages(addr, length)
  {
    forall x: int ensures r.Has(x) <==> x in Pages(addr, length) {
      if r.Has(x) {
        var y := if x < addr then addr else if x < addr + length then x else addr + length - 1;
        NearEnd(r, addr, length, x, y);
      } else if exists y :: addr <= y < addr + length && PageOf(y) == PageOf(x) {
        var y :| addr <= y < addr + length && PageOf(y) == PageOf(x);
        SamePage(r, addr, length, x, y);
        assert false;
      }
    }
  }

  lemma NearEnd(r: Region, addr: nat, length: nat, x: int, y: int)
    requires OnPages(r) && r.addr <= addr < r.addr + PAGE && addr + length <= r.End() < addr + length + PAGE
    requires r.Has(x) && length > 0 && y == if x < addr then addr else if x < addr + length then x else addr + length - 1
    ensures PageOf(x) == PageOf(y) && addr <= y < addr + length
  {
    assert r.addr == PAGE * (r.addr / PAGE) && r.End() == PAGE * (r.End() / PAGE);
  }

  /** From an aligned address a mapping takes exactly the pages that were asked for. */
  lemma MapIsPages(addr: nat, length: nat)
    requires addr % PAGE == 0
    ensures Span(Region(addr, PageUp(length))) == Pages(addr, length)
  {
    if length > 0 {
      TightIsPages(Region(addr, PageUp(length)), addr, length);
    } else {
      assert PageUp(0) == 0;
    }
  }

  // ---------- Ownership ----------

  /** The kernel manages the range; it ignores unmaps of any other. */
  predicate Tracked(addr: nat, length: nat) {
    length > 0 && MMAP_BASE <= addr && addr + length <= MMAP_LIMIT
  }

  /** The caller unmaps only pages it holds. */
  ghost predicate Owns(live: iset<int>, call: Call) {
    call.CallMunmap? && Tracked(call.addr, call.length) ==> Pages(call.addr, call.length) <= live
  }

  ghost function Live(s: State, live: iset<int>, call: Call): iset<int> {
    match call
    case CallMmap(length) =>
      var r := Mmap(s, length).1;
      if r < 0 then live else live + Pages(r, length)
    case CallMunmap(addr, length) =>
      if Tracked(addr, length) then live - Pages(addr, length) else live
  }

  /** An unmap is refused exactly when it names nothing, and changes nothing outside the managed range. */
  lemma MunmapExact(s: State, addr: nat, length: nat)
    ensures var (t, r) := Munmap(s, addr, length);
            && r == (if addr == 0 || length == 0 then EINVAL else 0)
            && (!Tracked(addr, length) ==> t == s)
            && (Tracked(addr, length) ==> t == s.(free := Insert(s.free, UnmapRange(addr, length))))
  {
    var r := UnmapRange(addr, length);
    assert r.addr == PAGE * (r.addr / PAGE) && r.End() == PAGE * (r.End() / PAGE);
    assert MMAP_BASE == PAGE * 0x1_A000 && MMAP_LIMIT == PAGE * 0xA_0000;
  }

  /** A non-FIXED mmap returns pages that are not live; ENOMEM changes nothing and means nothing fits. */
  lemma MmapKeeps(s: State, live: iset<int>, length: nat)
    requires Partition(s, live)
    ensures var (t, r) := Mmap(s, length);
            && Partition(t, Live(s, live, CallMmap(length)))
            && (r == ENOMEM || (r >= MMAP_BASE && r % PAGE == 0 && Pages(r, length) !! live))
    ensures var (t, r) := Mmap(s, length);
            && (r == ENOMEM ==> t == s)
            && (r == ENOMEM <==> s.next + length > MMAP_LIMIT
                                 && forall k :: 0 <= k < |s.free| ==> s.free[k].len < length)
  {
    var aligned := PageUp(length);
    var b := Best(s.free, aligned, |s.free|);
    BestExact(s.free, aligned, |s.free|);
    Roundings(s, length);
    if b.Some? {
      TakeIsRemoval(s.free, b.value, aligned);
      CarveCanonical(s.free, b.value, aligned);
      FreeAboveBase(s, live, b.value);
      MapIsPages(s.free[b.value].addr, length);
    } else if s.next + aligned <= MMAP_LIMIT {
      BumpManaged(s.next, aligned);
      MapIsPages(s.next, length);
    }
  }

  /** An mmap takes the front of the first of the smallest free regions that hold the length, and only if there is
      none does it move the bump pointer, by the pages asked for. */
  lemma MmapReuses(s: State, live: iset<int>, length: nat, k: nat)
    requires Partition(s, live) && k < |s.free|
    requires s.free[k].len >= length
    requires forall q :: 0 <= q < |s.free| && s.free[q].len >= length ==> s.free[k].len <= s.free[q].len
    requires forall q :: 0 <= q < k && s.free[q].len >= length ==> s.free[k].len < s.free[q].len
    ensures Mmap(s, length).1 == s.free[k].addr && Mmap(s, length).0.next == s.next
  {
    Roundings(s, length);
    BestExact(s.free, PageUp(length), |s.free|);
    assert s.free[..|s.free|] == s.free;
  }

  lemma MmapBumps(s: State, live: iset<int>, length: nat)
    requires Partition(s, live) && forall q :: 0 <= q < |s.free| ==> s.free[q].len < length
    ensures var (t, r) := Mmap(s, length);
            r == ENOMEM || (r == s.next && t.free == s.free && length <= t.next - s.next < length + PAGE && t.next % PAGE == 0)
  {
    Roundings(s, length);
    BestExact(s.free, PageUp(length), |s.free|);
  }

  /** Room for the length is room for its pages. */
  lemma Roundings(s: State, length: nat)
    requires s.next % PAGE == 0 && Aligned(s.free)
    ensures s.next + PageUp(length) > MMAP_LIMIT <==> s.next + length > MMAP_LIMIT
    ensures forall k :: 0 <= k < |s.free| ==> (s.free[k].len < PageUp(length) <==> s.free[k].len < length)
  {
    var up := PageUp(length);
    assert s.next == PAGE * (s.next / PAGE) && up == PAGE * (up / PAGE) && MMAP_LIMIT == PAGE * 0xA_0000;
    forall k | 0 <= k < |s.free| ensures s.free[k].len < up <==> s.free[k].len < length {
      assert OnPages(s.free[k]);
      assert s.free[k].len == PAGE * (s.free[k].len / PAGE);
    }
  }

  lemma FreeAboveBase(s: State, live: iset<int>, i: nat)
    requires Partition(s, live) && i < |s.free|
    ensures MMAP_BASE <= s.free[i].addr && s.free[i].End() <= s.next
  {
    var e := s.free[i];
    assert e.Has(e.addr) && e.Has(e.End() - 1);
    assert e.addr in Bytes(s.free) && e.End() - 1 in Bytes(s.free);
    assert e.addr in Managed(s.next) && e.End() - 1 in Managed(s.next);
  }

  lemma BumpManaged(next: nat, len: nat)
    requires MMAP_BASE <= next
    ensures Managed(next + len) == Managed(next) + Span(Region(next, len))
    ensures Managed(next) !! Span(Region(next, len))
  {}

  /** Unmapping keeps the partition exactly when the caller held every page that meets the range. */
  lemma MunmapKeepsIff(s: State, live: iset<int>, addr: nat, length: nat)
    requires Partition(s, live) && Tracked(addr, length)
    ensures Partition(Munmap(s, addr, length).0, live - Pages(addr, length)) <==> Pages(addr, length) <= live
  {
    var r := UnmapRange(addr, length);
    MunmapExact(s, addr, length);
    TightIsPages(r, addr, length);
    InsertKeepsIff(s, live, r);
  }

  lemma InsertKeepsIff(s: State, live: iset<int>, r: Region)
    requires Partition(s, live) && OnPages(r) && r.len > 0
    ensures Partition(s.(free := Insert(s.free, r)), live - Span(r)) <==> Span(r) <= live
  {
    InsertIsUnion(s.free, r);
    InsertCanonicalIff(s.free, r);
    NotFreeIsDisjoint(s.free, r);
    var f := Insert(s.free, r);
    if Span(r) <= live {
      assert Bytes(s.free) !! Span(r);
      assert (live - Span(r)) + (Bytes(s.free) + Span(r)) == live + Bytes(s.free);
    } else if NotFree(s.free, r) {
      var x: int :| x in Span(r) && x !in live;
      assert x in Bytes(f) && x !in Bytes(s.free);
      assert x !in Managed(s.next);
    }
  }

  lemma NotFreeIsDisjoint(free: seq<Region>, r: Region)
    requires AllSeparate(free) && r.len > 0
    ensures NotFree(free, r) <==> Bytes(free) !! Span(r)
  {
    if !NotFree(free, r) {
      var i :| 0 <= i < |free| && !Apart(free[i], r.addr, r.End());
      var x := if free[i].addr < r.addr then r.addr else free[i].addr;
      assert free[i].Has(x) && r.Has(x);
      assert x in Bytes(free) && x in Span(r);
    }
  }

  lemma StepKeeps(s: State, live: iset<int>, call: Call)
    requires Partition(s, live) && Owns(live, call)
    ensures Partition(Apply(s, call).0, Live(s, live, call))
  {
    match call
    case CallMmap(length) => MmapKeeps(s, live, length);
    case CallMunmap(addr, length) =>
      MunmapExact(s, addr, length);
      if Tracked(addr, length) {
        MunmapKeepsIff(s, live, addr, length);
      }
  }

  // ---------- Runs ----------

  ghost predicate StepAt(s: State, live: iset<int>, call: Call, t: State, live': iset<int>) {
    Owns(live, call) && t == Apply(s, call).0 && live' == Live(s, live, call)
  }

  ghost predicate IsRun(run: seq<State>, lives: seq<iset<int>>, calls: seq<Call>) {
    && |run| == |lives| == |calls| + 1 && run[0] == State([], MMAP_BASE) && lives[0] == iset{}
    && forall i :: 0 <= i < |calls| ==> StepAt(run[i], lives[i], calls[i], run[i + 1], lives[i + 1])
  }

  /** In every run of mmaps and owned munmaps, live and free bytes partition what was handed out. */
  lemma {:induction false} PartitionAlways(run: seq<State>, lives: seq<iset<int>>, calls: seq<Call>, i: nat)
    requires IsRun(run, lives, calls) && i < |run|
    ensures Partition(run[i], lives[i])
  {
    if i == 0 {
      assert Bytes([]) == iset{} && Managed(MMAP_BASE) == iset{};
    } else {
      PartitionAlways(run, lives, calls, i - 1);
      assert StepAt(run[i - 1], lives[i - 1], calls[i - 1], run[i - 1 + 1], lives[i - 1 + 1]);
      StepKeeps(run[i - 1], lives[i - 1], calls[i - 1]);
    }
  }

  /** No mmap of any run returns a byte that is live at that point. */
  lemma NeverOverlaps(run: seq<State>, lives: seq<iset<int>>, calls: seq<Call>, i: nat)
    requires IsRun(run, lives, calls) && i < |calls| && calls[i].CallMmap?
    ensures var r := Mmap(run[i], calls[i].length).1;
            r == ENOMEM || (r >= 0 && Pages(r, calls[i].length) !! lives[i])
    ensures Mmap(run[i], calls[i].length).1 == ENOMEM ==> run[i + 1] == run[i] && lives[i + 1] == lives[i]
  {
    PartitionAlways(run, lives, calls, i);
    MmapKeeps(run[i], lives[i], calls[i].length);
    assert StepAt(run[i], lives[i], calls[i], run[i + 1], lives[i + 1]);
  }

  // ---------- MAP_FIXED ----------

  /** The range lies in the part handed out so far; an empty one must not split a free region. */
  ghost predicate FixedSafe(s: State, addr: nat, len: nat) {
    && (if len > 0 then MMAP_BASE <= addr && addr + len <= s.next else !CutAt(s.free, addr))
    && (addr % PAGE == 0 || !Trimmed(s.free, addr, addr + len))
  }

  /** MAP_FIXED of `length` bytes, `len` with its last page filled up, is refused beyond the limit and otherwise keeps
      the partition exactly when the range is FixedSafe. */
  lemma FixedKeepsIff(s: State, live: iset<int>, addr: nat, length: nat, len: nat)
    requires Partition(s, live) && addr > 0 && len % PAGE == 0 && length <= len < length + PAGE
    ensures var (t, r) := MmapFixed(s, addr, length);
            if addr + len > MMAP_LIMIT then r == ENOMEM && t == s
            else r == addr && (Partition(t, live + Span(Region(addr, len))) <==> FixedSafe(s, addr, len))
  {
    var r := Region(addr, len);
    assert len == PageUp(length) by {
      assert len == PAGE * (len / PAGE) && PageUp(length) == PAGE * (PageUp(length) / PAGE);
    }
    DropIsDifference(s.free, addr, len);
    DropSeparateIff(s.free, addr, len);
    DropAlignedIff(s.free, addr, len);
    if len == 0 {
      assert Span(r) == iset{};
    } else if MMAP_BASE <= addr && addr + len <= s.next {
      assert Span(r) <= Managed(s.next);
      assert (live + Span(r)) + (Bytes(s.free) - Span(r)) == live + Bytes(s.free) + Span(r);
    } else {
      var x := if addr < MMAP_BASE then addr else addr + len - 1;
      assert r.Has(x) && x in live + Span(r) && x !in Managed(s.next);
    }
  }

  // ---------- What goes wrong otherwise ----------

  /** A FIXED mapping above the bump pointer is handed out again by the next mmap. */
  lemma FixedAboveNextIsReused()
    ensures var (s, r) := MmapFixed(State([], MMAP_BASE), MMAP_BASE + PAGE, PAGE);
            r == MMAP_BASE + PAGE && Mmap(s, 2 * PAGE).1 == MMAP_BASE
            && !(Span(Region(MMAP_BASE, 2 * PAGE)) !! Span(Region(r, PAGE)))
  {
    var x := MMAP_BASE + PAGE;
    assert Region(MMAP_BASE, 2 * PAGE).Has(x) && Region(x, PAGE).Has(x);
    assert x in Span(Region(MMAP_BASE, 2 * PAGE)) && x in Span(Region(x, PAGE));
  }

  /** After unmapping a page twice, two mmaps both get it. */
  lemma DoubleMunmapIsSharedTwice()
    ensures var s0 := State([], MMAP_BASE + PAGE);
            var s1 := Munmap(s0, MMAP_BASE, PAGE).0;
            var s2 := Munmap(s1, MMAP_BASE, PAGE).0;
            var (s3, a) := Mmap(s2, PAGE);
            a == MMAP_BASE && Mmap(s3, PAGE).1 == MMAP_BASE
  {
    var r := Region(MMAP_BASE, PAGE);
    var s1 := Munmap(State([], MMAP_BASE + PAGE), MMAP_BASE, PAGE).0;
    assert s1.free == [r];
    var s2 := Munmap(s1, MMAP_BASE, PAGE).0;
    assert s2.free == [r, r];
    assert Best(s2.free, PAGE, 1) == Some(0) && Best(s2.free, PAGE, 2) == Some(0);
    var s3 := Mmap(s2, PAGE).0;
    assert s3.free == [r];
    assert Best(s3.free, PAGE, 1) == Some(0);
  }

  /** An empty FIXED mapping inside a free region splits it into two adjacent entries. */
  lemma EmptyFixedSplits()
    ensures MmapFixed(State([Region(MMAP_BASE, 2 * PAGE)], MMAP_BASE + 2 * PAGE), MMAP_BASE + PAGE, 0).0.free
            == [Region(MMAP_BASE, PAGE), Region(MMAP_BASE + PAGE, PAGE)]
  {
    var free, at := [Region(MMAP_BASE, 2 * PAGE)], MMAP_BASE + PAGE;
    assert free[..|free| - 1] == [] && PageUp(0) == 0;
    assert Kept([], at, at) == [] && Kept(free, at, at) == [];
    assert Pieces([], at, at) == [] && Pieces(free, at, at) == PiecesOf(free[0], at, at);
  }
}
