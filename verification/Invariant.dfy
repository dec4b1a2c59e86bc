/** What the invariant says in the terms of the allocator's own checks, and how it starts. */
module Invariant {
  import opened Words
  import opened BinIndex
  import opened BinMaps
  import opened Trie
  import opened Rings
  import opened TreeMemory
  import opened Chunks
  import opened HeapState
  import SB = SmallBins
  import TB = TreeBins
  import opened Heap
  import opened Steps
  import opened HeapOps
  import opened Consolidate
  import opened Growth
  import opened Segments
  import opened SysAlloc

  // ---------- the first state ----------

  lemma {:induction false} NilFits(lo: int, k: nat)
    ensures Valid(Nil, lo, k)
  {
  }

  /** The zeroed record satisfies the invariant, whatever else is in memory. */
  lemma StartOk(gm: int, unit: int, m: Mem)
    requires gm > 0 && Zeroed(gm, m)
    ensures SysOk(gm, unit, NothingYet(m), Sys(0, 0, false, 0, [], [], 0, 0, false))
  {
    hide Has;
    var s := NothingYet(m);
    forall i | 0 <= i < NBINS ensures SB.SmallBin(s.mem, gm, 0, s.small[i], i) && TB.TreeBin(s.mem, gm, 0, s.trees[i], i) {
      HasZero(i);
      NilFits(BinLow(i), BinBits(i));
    }
    forall i | 0 <= i < NBINS ensures TreeEntry(s.chunks, s.trees[i], i) && SmallEntry(s.chunks, s.small[i], i) {
    }
  }

  // ---------- boundary tags ----------

  /** No two free chunks are neighbours, and the one behind a free chunk says so. */
  lemma FreeNeighbour(gm: int, s: Snap, p: int)
    requires HeapOk(gm, s) && p in s.chunks && Free(s.chunks[p].kind)
    ensures var n := p + s.chunks[p].size;
      n in s.chunks && InUse(s.chunks[n].kind) && Rd(s.mem, n + HEAD) % 2 == 0 && Rd(s.mem, n) == s.chunks[p].size
  {
    hide BinsOk, Specials, StateApart, Covers;
    assert TagAt(s.mem, s.chunks, p);
    var n := p + s.chunks[p].size;
    assert TagAt(s.mem, s.chunks, n);
    EvenTag(s.chunks[n].size);
  }

  lemma EvenTag(z: int)
    requires z % 16 == 0
    ensures (z + 2) % 2 == 0 && (z + 3) % 2 == 1
  {
    assert z == 2 * (8 * (z / 16));
    TwoTimes(8 * (z / 16));
  }

  lemma TwoTimes(k: int)
    ensures (2 * k + 2) % 2 == 0 && (2 * k + 3) % 2 == 1
  {
  }

  /** The pinuse bit of an in-use chunk is clear exactly if a free chunk ends where it starts. */
  lemma PinuseBit(gm: int, s: Snap, n: int)
    requires HeapOk(gm, s) && n in s.chunks && InUse(s.chunks[n].kind)
    ensures Rd(s.mem, n + HEAD) % 2 == 0 <==> exists p :: p in s.chunks && Free(s.chunks[p].kind) && p + s.chunks[p].size == n
  {
    hide BinsOk, Specials, StateApart, Covers;
    assert TagAt(s.mem, s.chunks, n);
    EvenTag(s.chunks[n].size);
    if p :| p in s.chunks && Free(s.chunks[p].kind) && p + s.chunks[p].size == n {
      FreeNeighbour(gm, s, p);
    }
    if Rd(s.mem, n + HEAD) % 2 == 0 {
      assert AfterFree(s.mem, s.chunks, n);
    }
  }

  // ---------- one home for every free chunk ----------

  /** A chunk is in small bin i exactly if it is binned and of that size. */
  lemma SmallHome(gm: int, s: Snap, p: int, i: nat)
    requires HeapOk(gm, s) && i < NBINS
    ensures p in s.small[i] <==> p in s.chunks && s.chunks[p] == Chunk(8 * i, Binned)
  {
    hide Tags, StateApart, Covers, Specials, TB.TreesOk, SB.SmallsOk, TreeIndex, Holds;
    assert SmallEntry(s.chunks, s.small[i], i);
    SmallIndexOf(i);
    if p in s.chunks && s.chunks[p] == Chunk(8 * i, Binned) {
      assert InHome(s.small, s.trees, p, s.chunks[p].size);
    }
  }

  /** The bit of a small bin is set exactly if some binned chunk has its size. */
  lemma SmallMark(gm: int, s: Snap, i: nat)
    requires HeapOk(gm, s) && i < NBINS
    ensures Has(s.smallmap, i) <==> exists q :: q in s.chunks && s.chunks[q] == Chunk(8 * i, Binned)
  {
    hide HeapOk, Has;
    SmallBit(gm, s, i);
    if s.small[i] != [] {
      SmallHome(gm, s, s.small[i][0], i);
      assert s.small[i][0] in s.chunks;
    }
    if q :| q in s.chunks && s.chunks[q] == Chunk(8 * i, Binned) {
      SmallHome(gm, s, q, i);
    }
  }

  lemma SmallBit(gm: int, s: Snap, i: nat)
    requires HeapOk(gm, s) && i < NBINS
    ensures |s.small| == NBINS && (Has(s.smallmap, i) <==> s.small[i] != [])
  {
    hide Tags, StateApart, Covers, Specials, TB.TreesOk, Homes, Has, Ring;
    assert SB.SmallBin(s.mem, gm, s.smallmap, s.small[i], i);
  }

  /** A chunk is in treebin i, with size z, exactly if it is binned, of that size, and i is its index. */
  lemma TreeHome(gm: int, s: Snap, p: int, i: nat, z: nat)
    requires HeapOk(gm, s) && i < NBINS
    ensures Holds(s.trees[i], p, z) <==> p in s.chunks && s.chunks[p] == Chunk(z, Binned) && z >= MIN_LARGE_SIZE && TreeIndex(z) == i
  {
    hide Tags, StateApart, Covers, Specials, TB.TreesOk, SB.SmallsOk, TreeIndex, Holds;
    assert TreeEntry(s.chunks, s.trees[i], i);
    if p in s.chunks && s.chunks[p] == Chunk(z, Binned) && z >= MIN_LARGE_SIZE && TreeIndex(z) == i {
      assert InHome(s.small, s.trees, p, s.chunks[p].size);
    }
  }

  /** The bit of a treebin is set exactly if some large binned chunk has its index. */
  lemma TreeMark(gm: int, s: Snap, i: nat)
    requires HeapOk(gm, s) && i < NBINS
    ensures Has(s.treemap, i) <==>
      exists q :: q in s.chunks && s.chunks[q].kind == Binned && s.chunks[q].size >= MIN_LARGE_SIZE && TreeIndex(s.chunks[q].size) == i
  {
    hide HeapOk, Has, TreeIndex, Holds;
    TreeBit(gm, s, i);
    if s.trees[i].Node? {
      var q, z := RootHeld(gm, s, i);
      TreeHome(gm, s, q, i, z);
    }
    if q :| q in s.chunks && s.chunks[q].kind == Binned && s.chunks[q].size >= MIN_LARGE_SIZE && TreeIndex(s.chunks[q].size) == i {
      TreeHome(gm, s, q, i, s.chunks[q].size);
      NilHolds(q, s.chunks[q].size);
    }
  }

  lemma NilHolds(p: int, z: nat)
    ensures !Holds(Nil, p, z)
  {
  }

  lemma TreeBit(gm: int, s: Snap, i: nat)
    requires HeapOk(gm, s) && i < NBINS
    ensures |s.trees| == NBINS && (Has(s.treemap, i) <==> s.trees[i].Node?)
  {
    hide Tags, StateApart, Covers, Specials, SB.SmallsOk, Homes, Has, Valid, Hung;
    assert TB.TreeBin(s.mem, gm, s.treemap, s.trees[i], i);
  }

  lemma RootHeld(gm: int, s: Snap, i: nat) returns (q: int, z: nat)
    requires HeapOk(gm, s) && i < NBINS && |s.trees| == NBINS && s.trees[i].Node?
    ensures Holds(s.trees[i], q, z)
  {
    hide Tags, StateApart, Covers, Specials, SB.SmallsOk, Homes, Has, Valid;
    assert TB.TreeBin(s.mem, gm, s.treemap, s.trees[i], i);
    q, z := s.trees[i].ring[0], s.trees[i].size;
  }

  /** Every free chunk between two calls is binned or dv; top and dv are what their fields say. */
  lemma FreeHomes(gm: int, s: Snap, p: int)
    requires HeapOk(gm, s) && Settled(s) && p in s.chunks
    ensures Free(s.chunks[p].kind) <==> s.chunks[p].kind == Binned || (p == s.dv && s.dvsize != 0)
    ensures p == s.dv && s.dvsize != 0 <==> s.chunks[p].kind == Victim
    ensures p == s.top && s.topsize != 0 <==> s.chunks[p].kind == Top
    ensures s.chunks[p].kind == Victim ==> s.chunks[p].size == s.dvsize
    ensures s.chunks[p].kind == Top ==> s.chunks[p].size == s.topsize
  {
    hide Tags, StateApart, Covers, BinsOk;
    assert s.chunks[p].kind == Loose ==> p in LooseSet(s);
  }

  // ---------- the accounts ----------

  /** footprint is the sum of the segments and the directly mapped regions, and below its maximum. */
  lemma FootprintIs(gm: int, unit: int, s: Snap, y: Sys)
    requires SysOk(gm, unit, s, y)
    ensures y.footprint == SegBytes(s.segs) + MapBytes(s.chunks, y.maps) <= y.maxFootprint
    ensures NoDup(y.maps) && forall p :: p in y.maps <==> MappedAt(s, p)
    ensures SegsApart(s.segs)
  {
    hide Tags, StateApart, BinsOk, Specials, ListOk, Alone, SegBytes, MapBytes, Settled;
  }

  /** The segments are tiled without gaps, so that they hold all chunks that are not mapped. */
  lemma NoGaps(gm: int, s: Snap, i: nat, p: int)
    requires HeapOk(gm, s) && i < |s.segs| && p in s.chunks && s.segs[i].base <= p < End(s.segs[i]) && !s.chunks[p].kind.Mapped?
    ensures p + Extent(s.chunks[p]) <= End(s.segs[i])
    ensures if Ends(s.chunks[p].kind) then p + Extent(s.chunks[p]) == End(s.segs[i])
            else p + s.chunks[p].size < End(s.segs[i]) && p + s.chunks[p].size in s.chunks
  {
    hide BinsOk, Specials, StateApart, AfterFree;
    assert TagAt(s.mem, s.chunks, p) && Housed(s.segs, p, s.chunks[p]);
    var j :| 0 <= j < |s.segs| && InSeg(s.segs[j], p, s.chunks[p]);
    assert i == j;
  }

  lemma NextPlain(gm: int, s: Snap, p: int)
    requires HeapOk(gm, s) && p in s.chunks && !s.chunks[p].kind.Mapped? && !Ends(s.chunks[p].kind) && p + s.chunks[p].size in s.chunks
    ensures !s.chunks[p + s.chunks[p].size].kind.Mapped? && s.chunks[p].size > 0 && Extent(s.chunks[p]) == s.chunks[p].size
  {
    hide BinsOk, Specials, StateApart, Covers, AfterFree;
    assert TagAt(s.mem, s.chunks, p);
  }

  /** From a chunk on, the tiling leads to the chunk that covers address a. */
  lemma {:induction false} CoveredFrom(gm: int, s: Snap, i: nat, p: int, a: int) returns (q: int)
    requires HeapOk(gm, s) && i < |s.segs| && p in s.chunks && !s.chunks[p].kind.Mapped? && s.segs[i].base <= p <= a < End(s.segs[i])
    ensures q in s.chunks && !s.chunks[q].kind.Mapped? && s.segs[i].base <= q <= a < q + Extent(s.chunks[q]) <= End(s.segs[i])
    decreases a - p
  {
    hide HeapOk, Extent;
    NoGaps(gm, s, i, p);
    q := p;
    if a >= p + Extent(s.chunks[p]) {
      NextPlain(gm, s, p);
      q := CoveredFrom(gm, s, i, p + s.chunks[p].size, a);
    }
  }

  /** The chunks tile the segments: every address of a segment is in exactly one chunk. */
  lemma Tiling(gm: int, s: Snap, i: nat, a: int) returns (q: int)
    requires HeapOk(gm, s) && i < |s.segs| && s.segs[i].base <= a < End(s.segs[i])
    ensures q in s.chunks && !s.chunks[q].kind.Mapped? && s.segs[i].base <= q && q <= a < q + Extent(s.chunks[q]) <= End(s.segs[i])
    ensures forall r :: r in s.chunks && r <= a < r + Extent(s.chunks[r]) ==> r == q
  {
    FirstPlain(gm, s, i);
    hide HeapOk, Extent, End;
    q := CoveredFrom(gm, s, i, s.segs[i].base, a);
    forall r | r in s.chunks && r <= a < r + Extent(s.chunks[r]) ensures r == q {
      if r < q { InOrder(gm, s, r, q); } else if q < r { InOrder(gm, s, q, r); }
    }
  }

  lemma FirstPlain(gm: int, s: Snap, i: nat)
    requires HeapOk(gm, s) && i < |s.segs|
    ensures s.segs[i].base in s.chunks && !s.chunks[s.segs[i].base].kind.Mapped?
  {
    hide BinsOk, Specials, StateApart, Tags;
    assert Started(s.chunks, s.segs[i]);
  }

  lemma InOrder(gm: int, s: Snap, p: int, q: int)
    requires HeapOk(gm, s) && p in s.chunks && q in s.chunks && p < q
    ensures p + Extent(s.chunks[p]) <= q
  {
    hide BinsOk, Specials, StateApart, TagAt, Covers;
    assert Before(p, s.chunks[p], q);
  }

  // ---------- nothing is lost ----------

  lemma UsedInside(gm: int, s: Snap, p: int) returns (i: nat)
    requires HeapOk(gm, s) && p in s.chunks && s.chunks[p].kind == Used
    ensures i < |s.segs| && s.segs[i].base <= p < End(s.segs[i])
  {
    hide BinsOk, Specials, StateApart;
    i := SegmentOf(s.chunks, s.segs, p);
    assert TagAt(s.mem, s.chunks, p);
  }

  lemma TopOf(gm: int, s: Snap, q: int)
    requires HeapOk(gm, s)
    ensures q in s.chunks && s.chunks[q].kind == Top ==> q == s.top && s.topsize == s.chunks[q].size && s.topsize != 0
    ensures s.topsize != 0 ==> s.top in s.chunks && s.chunks[s.top] == Chunk(s.topsize, Top) && s.topsize > 0
  {
    hide BinsOk, AfterFree, StateApart, Covers;
    if s.topsize != 0 { assert TagAt(s.mem, s.chunks, s.top); }
  }

  /** A chunk of s' that meets the place of a chunk that is gone is not a live one. */
  lemma NotLiveThere(gm: int, s: Snap, s': Snap, p: int, q: int)
    requires HeapOk(gm, s) && p in s.chunks && Gone(gm, s, s', p) && q in s'.chunks && q <= p < q + Extent(s'.chunks[q])
    ensures !LiveAt(s', q)
  {
    hide HeapOk, Settled, Extent, SamePayload;
    if q != p && LiveAt(s', q) {
      assert KeepsAt(s, s', q);
      InOrder(gm, s, q, p);
    }
  }

  lemma StillThere(gm: int, s: Snap, s': Snap, p: int, n: int)
    requires Gone(gm, s, s', p) && LiveAt(s', n)
    ensures n in s.chunks && n != p
  {
    hide HeapOk, Settled, SamePayload;
    assert KeepsAt(s, s', n);
  }

  /** All bytes of a chunk that has been freed belong to one free chunk, or to top. */
  lemma NothingLost(gm: int, s: Snap, s': Snap, p: int) returns (q: int)
    requires HeapOk(gm, s) && p in s.chunks && s.chunks[p].kind == Used
    requires Gone(gm, s, s', p) && SameEnd(s, s') && s'.segs == s.segs
    ensures q in s'.chunks && (Free(s'.chunks[q].kind) || s'.chunks[q].kind == Top)
    ensures q <= p && p + s.chunks[p].size <= q + s'.chunks[q].size
  {
    hide HeapOk, Settled, Keeps, End;
    var i := UsedInside(gm, s, p);
    q := Tiling(gm, s', i, p);
    NotLiveThere(gm, s, s', p, q);
    if s'.chunks[q].kind == Top {
      TopOf(gm, s', q);
      TopOf(gm, s, s.top);
      if s.top < p { InOrder(gm, s, s.top, p); } else { InOrder(gm, s, p, s.top); }
    } else {
      FreeNeighbour(gm, s', q);
      var n := q + s'.chunks[q].size;
      StillThere(gm, s, s', p, n);
      InOrder(gm, s, p, n);
    }
  }
}
