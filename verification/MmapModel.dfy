/**
 The address allocator behind mmap and munmap (src/syscall.rs): a list of free regions, coalesced on
 insertion and searched best-fit, in front of a bump pointer. The list is read as a set of byte addresses.
 */
module MmapModel {
  import opened Wrappers
  import opened Lists

  const PAGE := 0x1000
  const MMAP_BASE := 0x1A00_0000
  const MMAP_LIMIT := 0xA000_0000
  const ENOMEM := -12
  const EINVAL := -22

  datatype Region = Region(addr: nat, len: nat) {
    function End(): nat { addr + len }

    predicate Has(x: int) { addr <= x < End() }
  }

  /** The next multiple of the page size. */
  function PageUp(n: nat): (r: nat)
    ensures n <= r < n + PAGE && r % PAGE == 0
  {
    (n + 0xFFF) / PAGE * PAGE
  }

  function PageDown(n: nat): (r: nat)
    ensures r <= n < r + PAGE && r % PAGE == 0
  {
    n / PAGE * PAGE
  }

  // ---------- The three list operations ----------

  predicate Touch(e: Region, r: Region) { e.End() == r.addr || r.End() == e.addr }

  function Join(e: Region, r: Region): Region {
    if e.End() == r.addr then Region(e.addr, e.len + r.len) else Region(r.addr, e.len + r.len)
  }

  /** The first index from `k` on, other than `skip`, whose region touches `r`; the length if there is none. */
  function FirstTouch(free: seq<Region>, r: Region, skip: int, k: nat): (i: nat)
    requires k <= |free|
    ensures k <= i <= |free| && (i < |free| ==> i != skip && Touch(free[i], r))
    decreases |free| - k
  {
    if k == |free| || (k != skip && Touch(free[k], r)) then k else FirstTouch(free, r, skip, k + 1)
  }

  function Insert(free: seq<Region>, r: Region): seq<Region> {
    var i := FirstTouch(free, r, -1, 0);
    if i == |free| then free + [r]
    else
      var m := Join(free[i], r);
      var f := free[i := m];
      var j := FirstTouch(f, m, i, 0);
      if j == |f| then f else RemoveAt(f, j)[(if j < i then i - 1 else i) := Join(f[j], m)]
  }

  /** The first of the smallest regions among the first `k` that hold `len` bytes. */
  function Best(free: seq<Region>, len: nat, k: nat): (b: Option<nat>)
    requires k <= |free|
    ensures b.Some? ==> b.value < k && free[b.value].len >= len
  {
    if k == 0 then None
    else
      var b := Best(free, len, k - 1);
      if free[k - 1].len >= len && (b.None? || free[k - 1].len < free[b.value].len) then Some(k - 1) else b
  }

  function Carve(free: seq<Region>, i: nat, len: nat): seq<Region>
    requires i < |free| && len <= free[i].len
  {
    if free[i].len == len then SwapRemove(free, i)
    else free[i := Region(free[i].addr + len, free[i].len - len)]
  }

  predicate Apart(e: Region, addr: nat, end: nat) { e.End() <= addr || e.addr >= end }

  function Kept(free: seq<Region>, addr: nat, end: nat): seq<Region> {
    if free == [] then []
    else Kept(free[..|free| - 1], addr, end) + if Apart(free[|free| - 1], addr, end) then [free[|free| - 1]] else []
  }

  function Pieces(free: seq<Region>, addr: nat, end: nat): seq<Region> {
    if free == [] then [] else Pieces(free[..|free| - 1], addr, end) + PiecesOf(free[|free| - 1], addr, end)
  }

  function PiecesOf(e: Region, addr: nat, end: nat): seq<Region> {
    if Apart(e, addr, end) then []
    else
      (if e.addr < addr then [Region(e.addr, addr - e.addr)] else [])
      + (if e.End() > end then [Region(end, e.End() - end)] else [])
  }

  function Drop(free: seq<Region>, addr: nat, len: nat): seq<Region> {
    Kept(free, addr, addr + len) + Pieces(free, addr, addr + len)
  }

  // ---------- The calls ----------

  datatype State = State(free: seq<Region>, next: nat)

  /** MAP_FIXED with a non-null address. */
  function MmapFixed(s: State, addr: nat, length: nat): (State, int) {
    var aligned := PageUp(length);
    if addr + aligned > MMAP_LIMIT then (s, ENOMEM) else (s.(free := Drop(s.free, addr, aligned)), addr)
  }

  function Mmap(s: State, length: nat): (State, int) {
    var aligned := PageUp(length);
    var b := Best(s.free, aligned, |s.free|);
    if b.Some? then (s.(free := Carve(s.free, b.value, aligned)), s.free[b.value].addr)
    else if s.next + aligned > MMAP_LIMIT then (s, ENOMEM)
    else (s.(next := s.next + aligned), s.next)
  }

  /** The page range a munmap gives back. */
  function UnmapRange(addr: nat, length: nat): (r: Region)
    ensures OnPages(r) && r.addr <= addr < r.addr + PAGE && addr + length <= r.End() < addr + length + PAGE
  {
    Region(PageDown(addr), PageUp(length + (addr - PageDown(addr))))
  }

  function Munmap(s: State, addr: nat, length: nat): (State, int) {
    if addr == 0 || length == 0 then (s, EINVAL)
    else
      var r := UnmapRange(addr, length);
      if r.addr >= MMAP_BASE && r.End() <= MMAP_LIMIT then (s.(free := Insert(s.free, r)), 0) else (s, 0)
  }

  // ---------- The list as a set ----------

  ghost predicate Covered(free: seq<Region>, x: int) {
    exists i :: 0 <= i < |free| && free[i].Has(x)
  }

  ghost function Bytes(free: seq<Region>): iset<int> { iset x: int | Covered(free, x) }

  ghost function Span(r: Region): iset<int> { iset x: int | r.Has(x) }

  predicate Separate(e: Region, f: Region) { e.End() < f.addr || f.End() < e.addr }

  ghost predicate AllSeparate(free: seq<Region>) {
    && (forall i :: 0 <= i < |free| ==> free[i].len > 0)
    && (forall i, j :: 0 <= i < j < |free| ==> Separate(free[i], free[j]))
  }

  predicate OnPages(r: Region) { r.addr % PAGE == 0 && r.len % PAGE == 0 }

  ghost predicate Aligned(free: seq<Region>) {
    forall i :: 0 <= i < |free| ==> OnPages(free[i])
  }

  /** Disjoint, non-adjacent, page-aligned and non-empty: the maximal intervals of the set. */
  ghost predicate Canonical(free: seq<Region>) { AllSeparate(free) && Aligned(free) }

  /** No byte of `r` is free. */
  ghost predicate NotFree(free: seq<Region>, r: Region) {
    forall i :: 0 <= i < |free| ==> Apart(free[i], r.addr, r.End())
  }
}
