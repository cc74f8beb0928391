/** The list operations of the mmap allocator act exactly as union, removal and difference of byte sets. */
module MmapSets {
  import opened Wrappers
  import opened Lists
  import opened MmapModel

  // ---------- Insert is union ----------

  ghost predicate Covers(h: Region, e: Region, f: Region) {
    forall x: int :: h.Has(x) <==> e.Has(x) || f.Has(x)
  }

  lemma UpdateCovered(free: seq<Region>, i: nat, h: Region, r: Region, x: int)
    requires i < |free| && Covers(h, free[i], r)
    ensures Covered(free[i := h], x) <==> Covered(free, x) || r.Has(x)
  {
    var f := free[i := h];
    assert f[i] == h;
    if Covered(free, x) {
      var k :| 0 <= k < |free| && free[k].Has(x);
      assert f[k].Has(x);
    }
    if Covered(f, x) {
      var k :| 0 <= k < |f| && f[k].Has(x);
      assert k != i ==> free[k].Has(x);
    }
  }

  function Merged(free: seq<Region>, i: nat, j: nat, h: Region): seq<Region>
    requires i < |free| && j < |free| && i != j
  {
    RemoveAt(free, j)[(if j < i then i - 1 else i) := h]
  }

  /** Where the regions of the merged list come from. */
  function Origin(k: nat, j: nat): nat { if k < j then k else k + 1 }

  lemma MergedAt(free: seq<Region>, i: nat, j: nat, h: Region, k: nat)
    requires i < |free| && j < |free| && i != j && k < |free| - 1
    ensures Origin(k, j) < |free| && Origin(k, j) != j
    ensures Merged(free, i, j, h)[k] == if Origin(k, j) == i then h else free[Origin(k, j)]
  {}

  lemma MergeCovered(free: seq<Region>, i: nat, j: nat, h: Region, x: int)
    requires i < |free| && j < |free| && i != j && Covers(h, free[i], free[j])
    ensures Covered(Merged(free, i, j, h), x) <==> Covered(free, x)
  {
    var g := Merged(free, i, j, h);
    var at := if j < i then i - 1 else i;
    assert g[at] == h;
    if Covered(free, x) {
      var k :| 0 <= k < |free| && free[k].Has(x);
      if k == i || k == j {
        assert g[at].Has(x);
      } else {
        var k' := if k < j then k else k - 1;
        MergedAt(free, i, j, h, k');
        assert g[k'].Has(x);
      }
    }
    if Covered(g, x) {
      var k :| 0 <= k < |g| && g[k].Has(x);
      MergedAt(free, i, j, h, k);
      assert free[i].Has(x) || free[j].Has(x) || free[Origin(k, j)].Has(x);
    }
  }

  /** Whatever overlaps, inserting adds exactly the bytes of the region. */
  lemma InsertCovered(free: seq<Region>, r: Region, x: int)
    ensures Covered(Insert(free, r), x) <==> Covered(free, x) || r.Has(x)
  {
    var i := FirstTouch(free, r, -1, 0);
    if i == |free| {
      var f := free + [r];
      assert f[|free|] == r;
      assert forall k :: 0 <= k < |free| ==> f[k] == free[k];
    } else {
      var m := Join(free[i], r);
      var f := free[i := m];
      UpdateCovered(free, i, m, r, x);
      var j := FirstTouch(f, m, i, 0);
      if j < |f| {
        assert Covers(Join(f[j], m), f[i], f[j]);
        MergeCovered(f, i, j, Join(f[j], m), x);
      }
    }
  }

  lemma InsertIsUnion(free: seq<Region>, r: Region)
    ensures Bytes(Insert(free, r)) == Bytes(free) + Span(r)
  {
    forall x: int ensures x in Bytes(Insert(free, r)) <==> x in Bytes(free) + Span(r) {
      InsertCovered(free, r, x);
    }
  }

  // ---------- Insert keeps the list canonical ----------

  lemma {:induction false} FirstTouchNone(free: seq<Region>, r: Region, skip: int, k: nat, q: nat)
    requires k <= q < |free| && q < FirstTouch(free, r, skip, k) && q != skip
    ensures !Touch(free[q], r)
    decreases |free| - k
  {
    if k < q {
      FirstTouchNone(free, r, skip, k + 1, q);
    }
  }

  /** Regions that neither overlap nor touch are separate. */
  lemma InsertSeparate(free: seq<Region>, r: Region)
    requires AllSeparate(free) && r.len > 0 && NotFree(free, r)
    ensures AllSeparate(Insert(free, r))
  {
    var i := FirstTouch(free, r, -1, 0);
    if i == |free| {
      forall q | 0 <= q < |free| ensures Separate(free[q], r) {
        FirstTouchNone(free, r, -1, 0, q);
      }
    } else {
      var m := Join(free[i], r);
      var f := free[i := m];
      var j := FirstTouch(f, m, i, 0);
      if j == |f| {
        forall q | 0 <= q < |f| && q != i ensures Separate(f[q], m) {
          FirstTouchNone(f, m, i, 0, q);
          SeparateSides(free, q, i);
        }
      } else {
        MergeSeparate(free, i, j, r);
      }
    }
  }

  lemma SeparateSides(free: seq<Region>, q: nat, i: nat)
    requires AllSeparate(free) && q < |free| && i < |free| && q != i
    ensures Separate(free[q], free[i])
  {}

  lemma MergeSeparate(free: seq<Region>, i: nat, j: nat, r: Region)
    requires AllSeparate(free) && r.len > 0 && NotFree(free, r)
    requires i < |free| && j < |free| && i != j && Touch(free[i], r) && Touch(free[j], Join(free[i], r))
    ensures var m := Join(free[i], r);
            AllSeparate(Merged(free[i := m], i, j, Join(free[j], m)))
  {
    var m := Join(free[i], r);
    var h := Join(free[j], m);
    var f := free[i := m];
    var g := Merged(f, i, j, h);
    forall q: nat | q < |free| && q != i && q != j ensures Separate(free[q], h) {
      SeparateSides(free, q, i);
      SeparateSides(free, q, j);
      SeparateSides(free, i, j);
      assert Apart(free[q], r.addr, r.End());
    }
    forall a, b | 0 <= a < b < |g| ensures Separate(g[a], g[b]) {
      MergedAt(f, i, j, h, a);
      MergedAt(f, i, j, h, b);
      var oa, ob := Origin(a, j), Origin(b, j);
      assert oa < ob;
      if oa != i && ob != i {
        SeparateSides(free, oa, ob);
      }
    }
    forall a | 0 <= a < |g| ensures g[a].len > 0 {
      MergedAt(f, i, j, h, a);
    }
  }

  /** A region that overlaps a free one leaves an overlap behind: neither merge can remove it. */
  lemma InsertOverlap(free: seq<Region>, r: Region, q: nat)
    requires AllSeparate(free) && r.len > 0 && q < |free| && !Apart(free[q], r.addr, r.End())
    ensures !AllSeparate(Insert(free, r))
  {
    var i := FirstTouch(free, r, -1, 0);
    if i == |free| {
      Unseparated(free + [r], q, |free|);
    } else {
      var m := Join(free[i], r);
      var f := free[i := m];
      var j := FirstTouch(f, m, i, 0);
      if j == |f| {
        OverlapGrows(free[q], free[i], r);
        Unseparated(f, q, i);
      } else {
        MergeOverlap(free, i, j, r, q);
      }
    }
  }

  lemma MergeOverlap(free: seq<Region>, i: nat, j: nat, r: Region, q: nat)
    requires AllSeparate(free) && r.len > 0 && q < |free| && !Apart(free[q], r.addr, r.End())
    requires i < |free| && j < |free| && i != j && Touch(free[i], r) && Touch(free[j], Join(free[i], r))
    ensures var m := Join(free[i], r);
            !AllSeparate(Merged(free[i := m], i, j, Join(free[j], m)))
  {
    var m := Join(free[i], r);
    var f, h := free[i := m], Join(free[j], m);
    OverlapGrows(free[q], free[i], r);
    OverlapGrows(free[q], free[j], m);
    var q', i' := if q < j then q else q - 1, if j < i then i - 1 else i;
    MergedAt(f, i, j, h, q');
    MergedAt(f, i, j, h, i');
    Unseparated(Merged(f, i, j, h), q', i');
  }

  lemma OverlapGrows(e: Region, f: Region, r: Region)
    requires e.len > 0 && f.len > 0 && r.len > 0 && !Apart(e, r.addr, r.End()) && Touch(f, r)
    ensures e != f && Join(f, r).len > 0 && !Apart(e, Join(f, r).addr, Join(f, r).End())
  {}

  lemma Unseparated(free: seq<Region>, a: nat, b: nat)
    requires a < |free| && b < |free| && a != b && !Separate(free[a], free[b])
    ensures !AllSeparate(free)
  {}

  lemma JoinAligned(e: Region, r: Region)
    requires OnPages(e) && OnPages(r)
    ensures OnPages(Join(e, r))
  {}

  lemma InsertAligned(free: seq<Region>, r: Region)
    requires Aligned(free) && OnPages(r)
    ensures Aligned(Insert(free, r))
  {
    var i := FirstTouch(free, r, -1, 0);
    if i < |free| {
      var m := Join(free[i], r);
      JoinAligned(free[i], r);
      var f := free[i := m];
      var j := FirstTouch(f, m, i, 0);
      if j < |f| {
        var h := Join(f[j], m);
        JoinAligned(f[j], m);
        var g := Merged(f, i, j, h);
        forall k | 0 <= k < |g| ensures OnPages(g[k]) {
          MergedAt(f, i, j, h, k);
        }
      }
    }
  }

  /** The list stays canonical exactly when the inserted range was not already free. */
  lemma InsertCanonicalIff(free: seq<Region>, r: Region)
    requires Canonical(free) && r.len > 0 && OnPages(r)
    ensures Canonical(Insert(free, r)) <==> NotFree(free, r)
  {
    InsertAligned(free, r);
    if NotFree(free, r) {
      InsertSeparate(free, r);
    } else {
      var q :| 0 <= q < |free| && !Apart(free[q], r.addr, r.End());
      InsertOverlap(free, r, q);
    }
  }

  // ---------- Take is removal from the best fit ----------

  /** The smallest region that is large enough, and the first of these. */
  ghost predicate BestFit(free: seq<Region>, len: nat, i: nat) {
    && i < |free| && free[i].len >= len
    && (forall k :: 0 <= k < |free| && free[k].len >= len ==> free[i].len <= free[k].len)
    && (forall k :: 0 <= k < i && free[k].len >= len ==> free[i].len < free[k].len)
  }

  lemma {:induction false} BestExact(free: seq<Region>, len: nat, k: nat)
    requires k <= |free|
    ensures var b := Best(free, len, k);
            && (b.None? <==> forall q :: 0 <= q < k ==> free[q].len < len)
            && (b.Some? ==> BestFit(free[..k], len, b.value))
  {
    if k > 0 {
      BestExact(free, len, k - 1);
      assert forall q :: 0 <= q < k - 1 ==> free[..k][q] == free[..k - 1][q];
    }
  }

  lemma CarveCovered(free: seq<Region>, i: nat, len: nat, x: int)
    requires AllSeparate(free) && i < |free| && len <= free[i].len
    ensures Covered(Carve(free, i, len), x) <==> Covered(free, x) && !Region(free[i].addr, len).Has(x)
  {
    var g, n := Carve(free, i, len), |free| - 1;
    if Covered(free, x) && !Region(free[i].addr, len).Has(x) {
      var k :| 0 <= k < |free| && free[k].Has(x);
      if free[i].len == len && k == n {
        assert g[i].Has(x);
      } else {
        assert g[k].Has(x);
      }
    }
    if Covered(g, x) {
      var k :| 0 <= k < |g| && g[k].Has(x);
      var o := if free[i].len == len && k == i then n else k;
      assert free[o].Has(x);
      if o != i {
        SeparateSides(free, o, i);
      }
    }
  }

  lemma CarveCanonical(free: seq<Region>, i: nat, len: nat)
    requires Canonical(free) && i < |free| && len <= free[i].len && len % PAGE == 0
    ensures Canonical(Carve(free, i, len))
  {}

  lemma TakeIsRemoval(free: seq<Region>, i: nat, len: nat)
    requires AllSeparate(free) && i < |free| && len <= free[i].len
    ensures Bytes(Carve(free, i, len)) == Bytes(free) - Span(Region(free[i].addr, len))
    ensures Span(Region(free[i].addr, len)) <= Bytes(free)
  {
    forall x: int ensures x in Bytes(Carve(free, i, len)) <==> x in Bytes(free) - Span(Region(free[i].addr, len)) {
      CarveCovered(free, i, len, x);
    }
    forall x: int | Region(free[i].addr, len).Has(x) ensures Covered(free, x) {
      assert free[i].Has(x);
    }
  }

  // ---------- Drop is difference ----------

  lemma CoveredConcat(a: seq<Region>, b: seq<Region>, x: int)
    ensures Covered(a + b, x) <==> Covered(a, x) || Covered(b, x)
  {
    if Covered(a, x) {
      var k :| 0 <= k < |a| && a[k].Has(x);
      assert (a + b)[k].Has(x);
    }
    if Covered(b, x) {
      var k :| 0 <= k < |b| && b[k].Has(x);
      assert (a + b)[|a| + k].Has(x);
    }
  }

  lemma CoveredOne(e: Region, x: int)
    ensures Covered([e], x) <==> e.Has(x)
  {
    assert [e][0] == e;
  }

  lemma PieceCovered(e: Region, addr: nat, end: nat, x: int)
    requires addr <= end && !Apart(e, addr, end)
    ensures Covered(PiecesOf(e, addr, end), x) <==> e.Has(x) && !(addr <= x < end)
  {
    var head := if e.addr < addr then [Region(e.addr, addr - e.addr)] else [];
    var tail := if e.End() > end then [Region(end, e.End() - end)] else [];
    CoveredConcat(head, tail, x);
    CoveredOne(Region(e.addr, if e.addr < addr then addr - e.addr else 0), x);
    CoveredOne(Region(end, if e.End() > end then e.End() - end else 0), x);
  }

  lemma {:induction false} DropCovered(free: seq<Region>, addr: nat, end: nat, x: int)
    requires addr <= end
    ensures Covered(Kept(free, addr, end), x) || Covered(Pieces(free, addr, end), x)
            <==> Covered(free, x) && !(addr <= x < end)
  {
    if free != [] {
      var init, e := free[..|free| - 1], free[|free| - 1];
      DropCovered(init, addr, end, x);
      assert free == init + [e];
      CoveredConcat(init, [e], x);
      CoveredOne(e, x);
      CoveredConcat(Kept(init, addr, end), [e], x);
      CoveredConcat(Pieces(init, addr, end), PiecesOf(e, addr, end), x);
      if Apart(e, addr, end) {
        assert Pieces(free, addr, end) == Pieces(init, addr, end);
      } else {
        assert Kept(free, addr, end) == Kept(init, addr, end);
        PieceCovered(e, addr, end, x);
      }
    }
  }

  lemma DropIsDifference(free: seq<Region>, addr: nat, len: nat)
    ensures Bytes(Drop(free, addr, len)) == Bytes(free) - Span(Region(addr, len))
  {
    forall x: int ensures x in Bytes(Drop(free, addr, len)) <==> x in Bytes(free) - Span(Region(addr, len)) {
      DropCovered(free, addr, addr + len, x);
      CoveredConcat(Kept(free, addr, addr + len), Pieces(free, addr, addr + len), x);
    }
  }

  predicate Inside(p: Region, e: Region) { e.addr <= p.addr && p.End() <= e.End() }

  ghost predicate InsideSome(p: Region, free: seq<Region>) {
    exists o :: 0 <= o < |free| && Inside(p, free[o])
  }

  ghost predicate AllInside(ps: seq<Region>, free: seq<Region>) {
    forall k :: 0 <= k < |ps| ==> InsideSome(ps[k], free)
  }

  lemma {:induction false} DropInside(free: seq<Region>, addr: nat, end: nat)
    requires addr <= end
    ensures AllInside(Kept(free, addr, end), free) && AllInside(Pieces(free, addr, end), free)
  {
    if free != [] {
      var init, e := free[..|free| - 1], free[|free| - 1];
      DropInside(init, addr, end);
      InsideMore(Kept(init, addr, end), init, free);
      InsideMore(Pieces(init, addr, end), init, free);
      LastInside(free, e);
      LastInside(free, Region(e.addr, if e.addr < addr < e.End() then addr - e.addr else 0));
      LastInside(free, Region(if e.addr <= end < e.End() then end else e.addr,
                              if e.addr <= end < e.End() then e.End() - end else 0));
    }
  }

  lemma LastInside(free: seq<Region>, p: Region)
    requires free != [] && Inside(p, free[|free| - 1])
    ensures InsideSome(p, free)
  {}

  lemma InsideMore(ps: seq<Region>, init: seq<Region>, free: seq<Region>)
    requires AllInside(ps, init) && |init| < |free| && init == free[..|init|]
    ensures AllInside(ps, free)
  {
    forall k | 0 <= k < |ps| ensures InsideSome(ps[k], free) {
      var o :| 0 <= o < |init| && Inside(ps[k], init[o]);
      assert Inside(ps[k], free[o]);
    }
  }

  ghost predicate SeparateFrom(ps: seq<Region>, e: Region) {
    forall k :: 0 <= k < |ps| ==> Separate(ps[k], e)
  }

  lemma InsideSeparate(ps: seq<Region>, init: seq<Region>, e: Region, p: Region)
    requires AllInside(ps, init) && SeparateFrom(init, e) && Inside(p, e)
    ensures SeparateFrom(ps, p)
  {
    forall k | 0 <= k < |ps| ensures Separate(ps[k], p) {
      var o :| 0 <= o < |init| && Inside(ps[k], init[o]);
    }
  }

  lemma SeparateInsert(a: seq<Region>, b: seq<Region>, e: Region)
    requires AllSeparate(a + b) && SeparateFrom(a, e) && SeparateFrom(b, e) && e.len > 0
    ensures AllSeparate(a + [e] + b)
  {
    var s, t := a + b, a + [e] + b;
    forall i, j | 0 <= i < j < |t| ensures Separate(t[i], t[j]) {
      assert t[i] == if i < |a| then s[i] else if i == |a| then e else s[i - 1];
      assert t[j] == if j < |a| then s[j] else if j == |a| then e else s[j - 1];
      assert i == |a| ==> t[j] == b[j - |a| - 1];
      assert j == |a| ==> t[i] == a[i];
    }
    forall i | 0 <= i < |t| ensures t[i].len > 0 {
      assert t[i] == if i < |a| then s[i] else if i == |a| then e else s[i - 1];
    }
  }

  ghost predicate CutAt(free: seq<Region>, addr: nat) {
    exists i :: 0 <= i < |free| && free[i].addr < addr < free[i].End()
  }

  lemma {:induction false} DropSeparate(free: seq<Region>, addr: nat, end: nat)
    requires AllSeparate(free) && addr <= end && (addr < end || !CutAt(free, addr))
    ensures AllSeparate(Kept(free, addr, end) + Pieces(free, addr, end))
  {
    if free != [] {
      var init, e := free[..|free| - 1], free[|free| - 1];
      assert !CutAt(free, addr) ==> !CutAt(init, addr) by {
        if CutAt(init, addr) {
          var i :| 0 <= i < |init| && init[i].addr < addr < init[i].End();
          assert free[i] == init[i];
        }
      }
      DropSeparate(init, addr, end);
      DropInside(init, addr, end);
      DropOne(Kept(init, addr, end), Pieces(init, addr, end), init, e, addr, end);
      assert Kept(free, addr, end) == Kept(init, addr, end) + if Apart(e, addr, end) then [e] else [];
    }
  }

  lemma DropOne(k: seq<Region>, p: seq<Region>, init: seq<Region>, e: Region, addr: nat, end: nat)
    requires AllSeparate(k + p) && AllInside(k, init) && AllInside(p, init) && SeparateFrom(init, e) && e.len > 0
    requires addr < end || (addr == end && !(e.addr < addr < e.End()))
    ensures AllSeparate((k + if Apart(e, addr, end) then [e] else []) + (p + PiecesOf(e, addr, end)))
  {
    if Apart(e, addr, end) {
      InsideSeparate(k, init, e, e);
      InsideSeparate(p, init, e, e);
      SeparateInsert(k, p, e);
      assert p + PiecesOf(e, addr, end) == p;
    } else {
      PiecesSeparate(k + p, init, e, addr, end);
      assert (k + []) + (p + PiecesOf(e, addr, end)) == (k + p) + PiecesOf(e, addr, end);
    }
  }

  lemma PiecesSeparate(ps: seq<Region>, init: seq<Region>, e: Region, addr: nat, end: nat)
    requires AllSeparate(ps) && AllInside(ps, init) && SeparateFrom(init, e) && !Apart(e, addr, end)
    requires addr < end || (addr == end && !(e.addr < addr < e.End()))
    ensures AllSeparate(ps + PiecesOf(e, addr, end))
  {
    var qs := ps;
    if e.addr < addr {
      var head := Region(e.addr, addr - e.addr);
      InsideSeparate(ps, init, e, head);
      SeparateInsert(ps, [], head);
      qs := ps + [head];
      assert ps + [head] + [] == qs && ps + [] == ps;
    }
    if e.End() > end {
      var tail := Region(end, e.End() - end);
      InsideSeparate(ps, init, e, tail);
      assert SeparateFrom(qs, tail);
      assert qs + [] == qs && qs + [tail] + [] == qs + [tail];
      SeparateInsert(qs, [], tail);
    }
    assert ps + PiecesOf(e, addr, end) == qs + (if e.End() > end then [Region(end, e.End() - end)] else []);
  }

  /** Where the pieces of one region stand in the result. */
  lemma {:induction false} PiecesAt(free: seq<Region>, i: nat, addr: nat, end: nat) returns (p: nat)
    requires i < |free|
    ensures var ps, all := PiecesOf(free[i], addr, end), Pieces(free, addr, end);
            p + |ps| <= |all| && forall k :: 0 <= k < |ps| ==> all[p + k] == ps[k]
  {
    var init := free[..|free| - 1];
    if i == |free| - 1 {
      p := |Pieces(init, addr, end)|;
    } else {
      p := PiecesAt(init, i, addr, end);
    }
  }

  /** Only an empty range inside a free region leaves adjacent pieces. */
  lemma DropSeparateIff(free: seq<Region>, addr: nat, len: nat)
    requires AllSeparate(free)
    ensures AllSeparate(Drop(free, addr, len)) <==> len > 0 || !CutAt(free, addr)
  {
    var end := addr + len;
    if len > 0 || !CutAt(free, addr) {
      DropSeparate(free, addr, end);
    } else {
      var i :| 0 <= i < |free| && free[i].addr < addr < free[i].End();
      var p := PiecesAt(free, i, addr, end);
      var ps, k := PiecesOf(free[i], addr, end), |Kept(free, addr, end)|;
      assert |ps| == 2;
      assert Drop(free, addr, len)[k + p] == ps[0] && Drop(free, addr, len)[k + p + 1] == ps[1];
      Unseparated(Drop(free, addr, len), k + p, k + p + 1);
    }
  }

  /** A free region overlaps the dropped range and sticks out of it. */
  ghost predicate Trimmed(free: seq<Region>, addr: nat, end: nat) {
    exists i :: 0 <= i < |free| && PiecesOf(free[i], addr, end) != []
  }

  lemma PieceAligned(e: Region, addr: nat, end: nat)
    requires OnPages(e) && end % PAGE == addr % PAGE
    ensures forall k :: 0 <= k < |PiecesOf(e, addr, end)| ==> (OnPages(PiecesOf(e, addr, end)[k]) <==> addr % PAGE == 0)
  {
    HeadAligned(e, addr);
    TailAligned(e, end);
  }

  lemma HeadAligned(e: Region, addr: nat)
    requires OnPages(e)
    ensures e.addr < addr ==> (OnPages(Region(e.addr, addr - e.addr)) <==> addr % PAGE == 0)
  {}

  lemma TailAligned(e: Region, end: nat)
    requires OnPages(e)
    ensures e.End() > end ==> (OnPages(Region(end, e.End() - end)) <==> end % PAGE == 0)
  {}

  ghost predicate PagesIff(ps: seq<Region>, b: bool) {
    forall k :: 0 <= k < |ps| ==> (OnPages(ps[k]) <==> b)
  }

  lemma {:induction false} PiecesAligned(free: seq<Region>, addr: nat, end: nat, b: bool)
    requires forall i :: 0 <= i < |free| ==> PagesIff(PiecesOf(free[i], addr, end), b)
    ensures PagesIff(Pieces(free, addr, end), b)
  {
    if free != [] {
      PiecesAligned(free[..|free| - 1], addr, end, b);
    }
  }

  lemma {:induction false} KeptAligned(free: seq<Region>, addr: nat, end: nat)
    requires Aligned(free)
    ensures Aligned(Kept(free, addr, end))
  {
    if free != [] {
      KeptAligned(free[..|free| - 1], addr, end);
    }
  }

  lemma {:induction false} PieceFrom(free: seq<Region>, addr: nat, end: nat) returns (i: nat)
    requires Pieces(free, addr, end) != []
    ensures i < |free| && PiecesOf(free[i], addr, end) != []
  {
    i := |free| - 1;
    if PiecesOf(free[i], addr, end) == [] {
      i := PieceFrom(free[..i], addr, end);
    }
  }

  lemma TrimmedIff(free: seq<Region>, addr: nat, end: nat)
    ensures Trimmed(free, addr, end) <==> Pieces(free, addr, end) != []
  {
    if Trimmed(free, addr, end) {
      var i :| 0 <= i < |free| && PiecesOf(free[i], addr, end) != [];
      var p := PiecesAt(free, i, addr, end);
    }
    if Pieces(free, addr, end) != [] {
      var i := PieceFrom(free, addr, end);
    }
  }

  /** Alignment survives exactly when an unaligned range trims nothing. */
  lemma DropAlignedIff(free: seq<Region>, addr: nat, len: nat)
    requires Aligned(free) && len % PAGE == 0
    ensures Aligned(Drop(free, addr, len)) <==> addr % PAGE == 0 || !Trimmed(free, addr, addr + len)
  {
    var end, b := addr + len, addr % PAGE == 0;
    assert end % PAGE == addr % PAGE;
    forall i | 0 <= i < |free| ensures PagesIff(PiecesOf(free[i], addr, end), b) {
      PieceAligned(free[i], addr, end);
    }
    PiecesAligned(free, addr, end, b);
    KeptAligned(free, addr, end);
    TrimmedIff(free, addr, end);
    ConcatAligned(Kept(free, addr, end), Pieces(free, addr, end), b);
  }

  lemma ConcatAligned(ks: seq<Region>, ps: seq<Region>, b: bool)
    requires Aligned(ks) && PagesIff(ps, b)
    ensures Aligned(ks + ps) <==> b || ps == []
  {
    if ps != [] {
      assert (ks + ps)[|ks|] == ps[0];
    }
  }

  // ---------- The canonical list of a set is unique ----------

  lemma EndsUncovered(free: seq<Region>, i: nat)
    requires AllSeparate(free) && i < |free|
    ensures !Covered(free, free[i].addr - 1) && !Covered(free, free[i].End())
  {
    forall k | 0 <= k < |free| ensures !free[k].Has(free[i].addr - 1) && !free[k].Has(free[i].End()) {
      if k != i {
        SeparateSides(free, k, i);
      }
    }
  }

  lemma InOther(a: seq<Region>, b: seq<Region>, i: nat)
    requires AllSeparate(a) && AllSeparate(b) && Bytes(a) == Bytes(b) && i < |a|
    ensures a[i] in b
  {
    var r := a[i];
    assert r.Has(r.addr) && r.addr in Bytes(a) && r.addr in Bytes(b);
    var k :| 0 <= k < |b| && b[k].Has(r.addr);
    var f := b[k];
    EndsUncovered(a, i);
    EndsUncovered(b, k);
    assert r.addr - 1 !in Bytes(b) && r.End() !in Bytes(b) && f.End() !in Bytes(a);
    assert f.addr < r.addr ==> f.Has(r.addr - 1);
    assert f.End() > r.End() ==> f.Has(r.End());
    assert f.End() < r.End() ==> r.Has(f.End());
    assert f.addr == r.addr && f.End() == r.End();
  }

  /** Two canonical lists of the same bytes hold the same regions: the maximal intervals of the set. */
  lemma CanonicalUnique(a: seq<Region>, b: seq<Region>)
    requires Canonical(a) && Canonical(b) && Bytes(a) == Bytes(b)
    ensures multiset(a) == multiset(b)
  {
    forall r: Region ensures multiset(a)[r] == multiset(b)[r] {
      Once(a, r);
      Once(b, r);
      if r in a {
        var i :| 0 <= i < |a| && a[i] == r;
        InOther(a, b, i);
      }
      if r in b {
        var i :| 0 <= i < |b| && b[i] == r;
        InOther(b, a, i);
      }
    }
  }

  lemma {:induction false} Once(a: seq<Region>, r: Region)
    requires AllSeparate(a)
    ensures multiset(a)[r] == if r in a then 1 else 0
  {
    if a != [] {
      assert a == [a[0]] + a[1..];
      Once(a[1..], r);
      forall k | 0 <= k < |a[1..]| ensures a[1..][k] != a[0] {
        SeparateSides(a, k + 1, 0);
      }
    }
  }
}
