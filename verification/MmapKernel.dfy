/** The kernel's own loops over FREE_REGIONS and its mmap and munmap calls, each call one atomic step. */
module MmapKernel {
  import opened Wrappers
  import opened Lists
  import opened MmapModel
  import opened MmapSets
  import opened MmapTheorems

  ghost predicate AllPositive(free: seq<Region>) {
    forall i :: 0 <= i < |free| ==> free[i].len > 0
  }

  /** Once a region fits exactly, no later one replaces it. */
  lemma {:induction false} BestStays(free: seq<Region>, len: nat, i: nat, k: nat)
    requires i <= k <= |free| && Best(free, len, i).Some? && free[Best(free, len, i).value].len == len
    ensures Best(free, len, k) == Best(free, len, i)
  {
    if i < k {
      BestStays(free, len, i, k - 1);
    }
  }

  lemma DropStep(free: seq<Region>, i: nat, addr: nat, end: nat)
    requires i < |free|
    ensures Kept(free[..i + 1], addr, end)
            == Kept(free[..i], addr, end) + if Apart(free[i], addr, end) then [free[i]] else []
    ensures Pieces(free[..i + 1], addr, end) == Pieces(free[..i], addr, end) + PiecesOf(free[i], addr, end)
  {
    assert free[..i + 1][..i] == free[..i];
  }

  /** One round of the loop of FreeRegionsDropRange: a region is kept whole, or its parts outside the range are. */
  method DropFrom(e: Region, addr: nat, end: nat) returns (kept: seq<Region>, toAdd: seq<Region>)
    ensures kept == (if Apart(e, addr, end) then [e] else []) && toAdd == PiecesOf(e, addr, end)
  {
    kept, toAdd := [], [];
    if e.addr + e.len <= addr || e.addr >= end {
      kept := [e];
    } else {
      if e.addr < addr {
        toAdd := [Region(e.addr, addr - e.addr)];
      }
      if e.addr + e.len > end {
        toAdd := toAdd + [Region(end, e.addr + e.len - end)];
      }
    }
  }

  class Allocator {
    var free: seq<Region>
    var next: nat

    ghost function Abs(): State
      reads this
    {
      State(free, next)
    }

    constructor ()
      ensures Abs() == State([], MMAP_BASE)
    {
      free, next := [], MMAP_BASE;
    }

    method FreeRegionsAdd(addr: nat, len: nat)
      requires AllPositive(free) && len > 0
      modifies this`free
      ensures free == Insert(old(free), Region(addr, len))
    {
      var newAddr, newLen := addr, len;
      var merged: Option<nat> := None;
      var i := 0;
      while i < |free|
        invariant i <= |free| && free == old(free) && newAddr == addr && newLen == len && merged == None
        invariant FirstTouch(free, Region(addr, len), -1, 0) == FirstTouch(free, Region(addr, len), -1, i)
      {
        var e := free[i];
        if e.addr + e.len == newAddr {
          free := free[i := Region(e.addr, e.len + newLen)];
          newAddr, newLen := e.addr, e.len + newLen;
          merged := Some(i);
          break;
        }
        if newAddr + newLen == e.addr {
          free := free[i := Region(newAddr, e.len + newLen)];
          newLen := e.len + newLen;
          merged := Some(i);
          break;
        }
        i := i + 1;
      }
      if merged.None? {
        free := free + [Region(newAddr, newLen)];
      } else {
        MergeSecond(merged.value, newAddr, newLen);
      }
    }

    /** Joins the region at `i` with one other region it touches, if any. */
    method MergeSecond(i: nat, newAddr: nat, newLen: nat)
      requires i < |free| && free[i] == Region(newAddr, newLen) && AllPositive(free)
      modifies this`free
      ensures var m := old(free)[i];
              var j := FirstTouch(old(free), m, i, 0);
              free == if j == |old(free)| then old(free)
                      else RemoveAt(old(free), j)[(if j < i then i - 1 else i) := Join(old(free)[j], m)]
    {
      var second: Option<nat> := None;
      var j := 0;
      while j < |free|
        invariant j <= |free| && second == None && free == old(free)
        invariant FirstTouch(free, free[i], i, 0) == FirstTouch(free, free[i], i, j)
      {
        if j != i {
          var e := free[j];
          if e.addr + e.len == newAddr || newAddr + newLen == e.addr {
            second := Some(j);
            break;
          }
        }
        j := j + 1;
      }
      if second.Some? {
        var o := free[j];
        free := RemoveAt(free, j);
        var at := if j < i then i - 1 else i;
        var lo, hi := newAddr, o.addr + o.len;
        if o.addr < newAddr {
          lo, hi := o.addr, newAddr + newLen;
        }
        free := free[at := Region(lo, hi - lo)];
      }
    }

    method FreeRegionsTake(len: nat) returns (r: Option<nat>)
      modifies this`free
      ensures var b := Best(old(free), len, |old(free)|);
              if b.None? then r == None && free == old(free)
              else r == Some(old(free)[b.value].addr) && free == Carve(old(free), b.value, len)
    {
      var best: Option<nat> := None;
      var bestExcess := 0;
      var i := 0;
      while i < |free|
        invariant i <= |free| && best == Best(free, len, i)
        invariant best.Some? ==> bestExcess == free[best.value].len - len
      {
        if free[i].len >= len {
          var excess := free[i].len - len;
          if best.None? || excess < bestExcess {
            bestExcess, best := excess, Some(i);
            if excess == 0 {
              BestStays(free, len, i + 1, |free|);
              break;
            }
          }
        }
        i := i + 1;
      }
      if best.None? {
        return None;
      }
      var e := free[best.value];
      if e.len == len {
        free := SwapRemove(free, best.value);
      } else {
        free := free[best.value := Region(e.addr + len, e.len - len)];
      }
      return Some(e.addr);
    }

    method FreeRegionsDropRange(addr: nat, len: nat)
      modifies this`free
      ensures free == Drop(old(free), addr, len)
    {
      var regions, end := free, addr + len;
      var kept: seq<Region>, toAdd: seq<Region> := [], [];
      for i := 0 to |regions|
        invariant kept == Kept(regions[..i], addr, end) && toAdd == Pieces(regions[..i], addr, end)
      {
        DropStep(regions, i, addr, end);
        var whole, parts := DropFrom(regions[i], addr, end);
        kept, toAdd := kept + whole, toAdd + parts;
      }
      assert regions[..|regions|] == regions;
      free := kept + toAdd;
    }

    method SysMmap(addr: nat, length: nat, fixed: bool) returns (r: int)
      modifies this
      ensures (Abs(), r) == if addr != 0 && fixed then MmapFixed(old(Abs()), addr, length)
                            else Mmap(old(Abs()), length)
    {
      var aligned := PageUp(length);
      if addr != 0 && fixed {
        if addr + aligned > MMAP_LIMIT {
          return ENOMEM;
        }
        FreeRegionsDropRange(addr, aligned);
        return addr;
      }
      var reused := FreeRegionsTake(aligned);
      if reused.Some? {
        return reused.value;
      }
      var cur := next;
      if cur + aligned > MMAP_LIMIT {
        return ENOMEM;
      }
      next := cur + aligned;
      return cur;
    }

    method SysMunmap(addr: nat, length: nat) returns (r: int)
      requires AllPositive(free)
      modifies this
      ensures (Abs(), r) == Munmap(old(Abs()), addr, length)
    {
      if addr == 0 || length == 0 {
        return EINVAL;
      }
      var start := PageDown(addr);
      var len := PageUp(length + (addr - start));
      if start >= MMAP_BASE && start + len <= MMAP_LIMIT {
        FreeRegionsAdd(start, len);
      }
      return 0;
    }
  }
}
