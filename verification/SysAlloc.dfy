/** sys_alloc: more memory from the system, on the append, prepend and new-segment paths. */
module SysAlloc {
  import opened Words
  import opened BinIndex
  import opened TreeMemory
  import opened Chunks
  import opened HeapState
  import opened Heap
  import opened Steps
  import opened HeapOps
  import opened Malloc
  import opened Consolidate
  import opened Growth
  import opened Segments
  import opened Trie
  import TB = TreeBins
  import SB = SmallBins

  const MAX_RELEASE_CHECK_RATE: int := 4095

  // ---------- what the program sees ----------

  /** A chunk that was handed out and not given back. */
  ghost predicate Owned(s: Snap, q: int) {
    q in s.chunks && (s.chunks[q].kind == Used || s.chunks[q].kind.Mapped?)
  }

  ghost predicate SameBlockAt(s: Snap, s': Snap, q: int) {
    && (Owned(s, q) <==> Owned(s', q))
    && (Owned(s, q) ==> s'.chunks[q] == s.chunks[q] && SamePayload(s.mem, s'.mem, q, s.chunks[q].size))
  }

  /** Every block of the program stays where it is, with its contents, but for those of a given set. */
  ghost predicate SameBlocks(s: Snap, s': Snap, but: set<int>) {
    forall q {:trigger SameBlockAt(s, s', q)} :: q !in but ==> SameBlockAt(s, s', q)
  }

  lemma KeepsBlocks(s: Snap, s': Snap, but: set<int>, but': set<int>)
    requires Keeps(s, s', but) && forall q :: q in but && q !in but' ==> !Owned(s, q) && !Owned(s', q)
    ensures SameBlocks(s, s', but')
  {
    hide SamePayload;
    forall q | q !in but' ensures SameBlockAt(s, s', q) {
      if q !in but { assert KeepsAt(s, s', q); }
    }
  }

  lemma BlocksTrans(s: Snap, s1: Snap, s2: Snap, b1: set<int>, b2: set<int>, b: set<int>)
    requires SameBlocks(s, s1, b1) && SameBlocks(s1, s2, b2) && b1 <= b && b2 <= b
    ensures SameBlocks(s, s2, b)
  {
    forall q | q !in b ensures SameBlockAt(s, s2, q) {
      assert SameBlockAt(s, s1, q) && SameBlockAt(s1, s2, q);
    }
  }

  lemma BlocksRefl(s: Snap, but: set<int>)
    ensures SameBlocks(s, s, but)
  {
  }

  /** footprint and max_footprint after more memory. */
  method RaiseFootprint(M: MallocState, d: int)
    modifies M`footprint, M`maxFootprint
    ensures M.Now() == old(M.Now()) && M.Accounts() == Counted(old(M.Accounts()), d)
  {
    M.footprint := M.footprint + d;
    if M.footprint > M.maxFootprint {
      M.maxFootprint := M.footprint;
    }
  }

  // ---------- init_top and the fenceposts ----------

  /** init_top, for an aligned p. */
  method InitTop(M: MallocState, p: int, psize: int)
    modifies M`mem, M`top, M`topsize, M`trimCheck
    ensures M.top == p && M.topsize == psize && M.mem == TopWords(old(M.mem), p, psize) && M.trimCheck == M.trimThreshold
  {
    M.top := p;
    M.topsize := psize;
    M.mem := M.mem[p + HEAD := psize + 1];
    M.mem := M.mem[p + psize + HEAD := TOP_FOOT_SIZE];
    M.trimCheck := M.trimThreshold;
  }

  /** init_top, together with the segment that top ends and its place in the tiling. */
  method PlaceTop(M: MallocState, p: int, psize: int, ghost segs: seq<Segment>)
    modifies M`mem, M`top, M`topsize, M`trimCheck, M`segs, M`chunks
    ensures M.Now() == old(M.Now()).(mem := TopWords(old(M.mem), p, psize), top := p, topsize := psize, segs := segs,
                                     chunks := old(M.chunks)[p := Chunk(psize, Top)])
    ensures M.Accounts() == old(M.Accounts()) && M.trimCheck == M.trimThreshold
  {
    hide TopWords;
    InitTop(M, p, psize);
    M.segs := segs;
    M.chunks := M.chunks[p := Chunk(psize, Top)];
  }

  function TopWords(m: Mem, p: int, z: int): Mem {
    m[p + HEAD := z + 1][p + z + HEAD := TOP_FOOT_SIZE]
  }

  predicate FenceWord(m: Mem, tnext: int, k: int) {
    Rd(m, tnext + 8 * k + HEAD) == FENCEPOST_HEAD
  }

  /** The trailing fenceposts behind a segment record: at least two, up to the end of the segment. */
  method Fenceposts(M: MallocState, tnext: int, oldEnd: int) returns (nfences: int)
    requires tnext + 32 <= oldEnd && (oldEnd - tnext) % 8 == 0
    modifies M`mem
    ensures WritesIn(old(M.mem), M.mem, tnext + HEAD, oldEnd)
    ensures nfences >= 2 && tnext + 8 * nfences + HEAD == oldEnd
    ensures forall k {:trigger FenceWord(M.mem, tnext, k)} :: 0 <= k < nfences ==> FenceWord(M.mem, tnext, k)
  {
    var p := tnext;
    nfences := 0;
    ghost var m := M.mem;
    while true
      invariant p == tnext + 8 * nfences && p + 16 <= oldEnd && nfences >= 0
      invariant WritesIn(m, M.mem, tnext + HEAD, oldEnd)
      invariant forall k {:trigger FenceWord(M.mem, tnext, k)} :: 0 <= k < nfences ==> FenceWord(M.mem, tnext, k)
      decreases oldEnd - p
    {
      ghost var m1 := M.mem;
      M.mem := M.mem[p + HEAD := FENCEPOST_HEAD];
      forall k | 0 <= k < nfences + 1 ensures FenceWord(M.mem, tnext, k) {
        if k < nfences { assert FenceWord(m1, tnext, k); }
      }
      nfences := nfences + 1;
      if p + 16 < oldEnd {
        p := p + 8;
      } else {
        break;
      }
    }
  }

  /** align_offset. */
  function AlignOffset(a: int): int {
    if a % 16 == 0 then 0 else 16 - a % 16
  }

  /** Where add_segment puts the record: TOP_FOOT_SIZE leaves just the room for it. */
  lemma RecordSpot(oldEnd: int)
    requires oldEnd % 16 == 0
    ensures var rawsp := oldEnd - (RECORD_SIZE + 32 + 15);
      rawsp + AlignOffset(rawsp + 16) == oldEnd - TOP_FOOT_SIZE
  {
    assert (oldEnd - 95 + 16) % 16 == 1;
  }

  /** Memory m' with the region [b, e) as it was in m. */
  ghost function Restored(m: Mem, m': Mem, b: int, e: int): Mem {
    map w | w in m.Keys + m'.Keys :: if b <= w < e then Rd(m, w) else Rd(m', w)
  }

  lemma RestoredIs(m: Mem, m': Mem, b: int, e: int)
    ensures forall w :: Rd(Restored(m, m', b, e), w) == if b <= w < e then Rd(m, w) else Rd(m', w)
    ensures WritesIn(Restored(m, m', b, e), m', b, e)
  {
  }

  // ---------- add_segment ----------

  /** The words after add_segment: the new top in [b, e), and record and fenceposts in the old one. */
  ghost predicate AddWords(m: Mem, m': Mem, t: int, oldEnd: int, c: int, b: int, e: int, sg: Segment, next: int) {
    && (forall w :: Rd(m', w) != Rd(m, w) ==> t + HEAD <= w < oldEnd || b <= w < e)
    && (c != t ==> Rd(m', t + HEAD) == c - t + 1 && Rd(m', c) == c - t)
    && Rd(m', c + HEAD) == RECORD_SIZE + (if c == t then 3 else 2)
    && Rd(m', c + RECORD_SIZE + HEAD) == FENCEPOST_HEAD
    && RecordSays(m', c + 16, sg, next)
    && Rd(m', b + HEAD) == e - b - TOP_FOOT_SIZE + 1 && Rd(m', e - TOP_FOOT_SIZE + HEAD) == TOP_FOOT_SIZE
  }

  /** s2 is s with the old top retired, the record at c, and a new top in [b, e). */
  ghost predicate Added(s: Snap, s2: Snap, y: Sys, c: int, b: int, e: int, isMapped: bool) {
    && s.segs != [] && s.topsize != 0 && e - b >= TOP_FOOT_SIZE + 16
    && (c == s.top || s.top + MIN_CHUNK_SIZE <= c) && c + TOP_FOOT_SIZE <= TopEndOf(s) && c % 16 == 0
    && SameBins4(s, s2) && s2.dv == s.dv && s2.dvsize == s.dvsize && s2.top == b && s2.topsize == e - b - TOP_FOOT_SIZE
    && s2.segs == [Segment(b, e - b, isMapped)] + s.segs
    && s2.chunks == RetiredChunks(s.chunks, s.top, c, TopEndOf(s))[b := Chunk(s2.topsize, Top)]
    && AddWords(s.mem, s2.mem, s.top, TopEndOf(s), c, b, e, s.segs[0], y.next)
  }

  ghost predicate SameBins4(s: Snap, s': Snap) {
    s'.small == s.small && s'.trees == s.trees && s'.smallmap == s.smallmap && s'.treemap == s.treemap
  }

  /** The state between the two halves of add_segment: no top at all. */
  ghost function Topless(s: Snap, s2: Snap, c: int, b: int, e: int): Snap {
    s.(mem := Restored(s.mem, s2.mem, b, e), chunks := RetiredChunks(s.chunks, s.top, c, TopEndOf(s)), top := 0, topsize := 0)
  }

  /** The old top is not in fresh memory. */
  lemma OldTopApart(gm: int, s: Snap, b: int, e: int)
    requires HeapOk(gm, s) && s.topsize != 0 && Fresh(gm, s, b, e)
    ensures TopEndOf(s) <= b || e <= s.top
    ensures s.topsize > 0 && s.top > 0 && TopEndOf(s) % 16 == 0 && s.top % 16 == 0
  {
    hide HeapOk, Fresh, Region, Unpinned;
    TopRegion(gm, s);
    FreshApart(gm, s, b, e, s.top);
    TopEndsEven(s, s.top, TopEndOf(s));
  }

  lemma AddedRetired(gm: int, s: Snap, s2: Snap, y: Sys, c: int, b: int, e: int, isMapped: bool)
    requires HeapOk(gm, s) && Fresh(gm, s, b, e) && Added(s, s2, y, c, b, e, isMapped)
    ensures Retired(s, Topless(s, s2, c, b, e), c)
  {
    hide HeapOk, Fresh, RetiredChunks, Restored;
    OldTopApart(gm, s, b, e);
    RestoredIs(s.mem, s2.mem, b, e);
  }

  lemma AddedTop(s: Snap, s2: Snap, y: Sys, c: int, b: int, e: int, isMapped: bool)
    requires Added(s, s2, y, c, b, e, isMapped)
    ensures ToppedUp(Topless(s, s2, c, b, e), s2, b, e, isMapped)
  {
    hide RetiredChunks, Restored, WritesIn;
    RestoredIs(s.mem, s2.mem, b, e);
  }

  lemma StillFresh(gm: int, s: Snap, s1: Snap, c: int, b: int, e: int)
    requires HeapOk(gm, s) && Fresh(gm, s, b, e) && Retired(s, s1, c) && HeapOk(gm, s1)
    requires Keeps(s, s1, {c, c + RECORD_SIZE}) && c in s1.chunks && s1.chunks[c].kind == Record
    requires c + RECORD_SIZE in s1.chunks && s1.chunks[c + RECORD_SIZE].kind == Fence
    ensures Fresh(gm, s1, b, e)
  {
    hide HeapOk, RetiredChunks, SamePayload, WritesIn;
    forall p | p in s1.chunks ensures MapClear(p, s1.chunks[p], b, e) {
      if s1.chunks[p].kind.Mapped? {
        assert KeepsAt(s, s1, p);
        assert MapClear(p, s.chunks[p], b, e);
      }
    }
  }

  lemma AddedHeap(gm: int, unit: int, s: Snap, s2: Snap, y: Sys, c: int, b: int, e: int, isMapped: bool)
    requires HeapOk(gm, s) && BooksOk(gm, unit, s, y) && Fresh(gm, s, b, e) && Added(s, s2, y, c, b, e, isMapped)
    requires isMapped ==> Whole(unit, e - b) && y.noncontiguous
    ensures HeapOk(gm, s2) && Keeps(s, s2, {c, c + RECORD_SIZE}) && !Owned(s, c) && !Owned(s, c + RECORD_SIZE)
    ensures c in s2.chunks && s2.chunks[c].kind == Record && c + RECORD_SIZE in s2.chunks && s2.chunks[c + RECORD_SIZE].kind == Fence
    ensures LooseSet(s2) == LooseSet(s) + (if c == s.top then {} else {s.top})
    ensures c != s.top ==> s.top in s2.chunks && s2.chunks[s.top] == Chunk(c - s.top, Loose)
    ensures BooksOk(gm, unit, s2, Counted(y.(base := b, size := e - b, isMapped := isMapped, next := c + 16, recs := [c + 16] + y.recs), e - b))
  {
    hide HeapOk, Fresh, RetiredChunks, Restored, Added, Retired, ToppedUp, Keeps, LooseSet, Topless, BooksOk, RecordSays;
    var s1 := Topless(s, s2, c, b, e);
    AddedFactsOf(gm, s, s2, y, c, b, e, isMapped);
    AddedRetired(gm, s, s2, y, c, b, e, isMapped);
    AddedTop(s, s2, y, c, b, e, isMapped);
    RetireTop(gm, s, s1, c);
    StillFresh(gm, s, s1, c, b, e);
    NewTop(gm, s1, s2, b, e, isMapped);
    KeepsTrans(s, s1, s2, {c, c + RECORD_SIZE}, {}, {c, c + RECORD_SIZE});
    BooksAdd(gm, unit, s, s1, s2, y, c, b, e, isMapped);
    AddedOwned(s, s1, s2, c, b, e, isMapped);
  }

  lemma AddedFactsOf(gm: int, s: Snap, s2: Snap, y: Sys, c: int, b: int, e: int, isMapped: bool)
    requires HeapOk(gm, s) && Fresh(gm, s, b, e) && Added(s, s2, y, c, b, e, isMapped)
    ensures s.segs != [] && RecordSays(s2.mem, c + 16, s.segs[0], y.next) && TopEndOf(s) - (c + RECORD_SIZE) >= 32
    ensures c + RECORD_SIZE < b || c >= e
    ensures c != s.top ==> s.top != b
  {
    hide HeapOk, Fresh, RetiredChunks;
    OldTopApart(gm, s, b, e);
  }

  lemma AddedOwned(s: Snap, s1: Snap, s2: Snap, c: int, b: int, e: int, isMapped: bool)
    requires !LiveAt(s, c) && !LiveAt(s, c + RECORD_SIZE) && ToppedUp(s1, s2, b, e, isMapped)
    requires c + RECORD_SIZE < b || c >= e
    requires c in s1.chunks && c + RECORD_SIZE in s1.chunks
    ensures !Owned(s, c) && !Owned(s, c + RECORD_SIZE)
    ensures forall x :: x in s1.chunks && x != b ==> x in s2.chunks && s2.chunks[x] == s1.chunks[x]
    ensures c != b && c + RECORD_SIZE != b
  {
    hide WritesIn;
  }

  /** The footprint has been raised by bytes that the segments do not show yet. */
  ghost predicate Raised(M: MallocState, y: Sys, d: int)
    reads M
  {
    M.Accounts() == Counted(y, d)
  }

  lemma HeadSegment(gm: int, unit: int, s: Snap, y: Sys)
    requires HeapOk(gm, s) && BooksOk(gm, unit, s, y) && s.topsize != 0
    ensures s.segs != [] && s.segs[0] == Segment(y.base, y.size, y.isMapped) && TopEndOf(s) == y.base + y.size
    ensures s.segs[0].base <= s.top && s.topsize >= 16 && s.top > 0 && TopEndOf(s) % 16 == 0 && s.top % 16 == 0
  {
    hide HeapOk, MapsOk, CountOk, RecordAt, Unpinned, Region;
    TopRegion(gm, s);
    TopEndsEven(s, s.top, TopEndOf(s));
  }

  /** The words that add_segment writes before the fenceposts. */
  ghost function RecordWritten(m: Mem, c: int, b: int, e: int, sg: Segment, next: int): Mem {
    var m1 := SetInuseHead(TopWords(m, b, e - b - TOP_FOOT_SIZE), c, RECORD_SIZE);
    m1[c + 16 := sg.base][c + 24 := sg.size][c + 32 := next][c + 40 := MappedFlag(sg.mapped)]
  }

  lemma RecordWrittenIs(m: Mem, c: int, b: int, e: int, sg: Segment, next: int)
    requires b + TOP_FOOT_SIZE + 16 <= e && (c + RECORD_SIZE <= b || e <= c)
    ensures var m1 := RecordWritten(m, c, b, e, sg, next);
      && (forall w :: Rd(m1, w) != Rd(m, w) ==> c + HEAD <= w <= c + 40 || b <= w < e)
      && Rd(m1, c + HEAD) == RECORD_SIZE + 3 && RecordSays(m1, c + 16, sg, next)
      && Rd(m1, b + HEAD) == e - b - TOP_FOOT_SIZE + 1 && Rd(m1, e - TOP_FOOT_SIZE + HEAD) == TOP_FOOT_SIZE
  {
  }

  /** Words that the fenceposts leave alone. */
  lemma FencesLeave(m1: Mem, m2: Mem, c: int, b: int, e: int, oldEnd: int, sg: Segment, next: int)
    requires WritesIn(m1, m2, c + RECORD_SIZE + HEAD, oldEnd) && (oldEnd <= b || e <= c) && b + TOP_FOOT_SIZE + 16 <= e
    ensures Rd(m2, c + HEAD) == Rd(m1, c + HEAD) && (RecordSays(m1, c + 16, sg, next) ==> RecordSays(m2, c + 16, sg, next))
    ensures Rd(m2, b + HEAD) == Rd(m1, b + HEAD) && Rd(m2, e - TOP_FOOT_SIZE + HEAD) == Rd(m1, e - TOP_FOOT_SIZE + HEAD)
  {
  }

  lemma FreeLeaves(m2: Mem, t: int, c: int, b: int, e: int, sg: Segment, next: int)
    requires t + MIN_CHUNK_SIZE <= c && Rd(m2, c + HEAD) == RECORD_SIZE + 3
    requires (c + RECORD_SIZE + 16 <= b || e <= t) && b + TOP_FOOT_SIZE + 16 <= e
    ensures var m3 := SetFreeWithPinuse(m2, t, c - t, c);
      && Writes(m2, m3, {t + HEAD, c, c + HEAD}) && Rd(m3, c + HEAD) == RECORD_SIZE + 2
      && Rd(m3, t + HEAD) == c - t + 1 && Rd(m3, c) == c - t && (RecordSays(m2, c + 16, sg, next) ==> RecordSays(m3, c + 16, sg, next))
      && Rd(m3, b + HEAD) == Rd(m2, b + HEAD) && Rd(m3, e - TOP_FOOT_SIZE + HEAD) == Rd(m2, e - TOP_FOOT_SIZE + HEAD)
      && Rd(m3, c + RECORD_SIZE + HEAD) == Rd(m2, c + RECORD_SIZE + HEAD)
  {
  }

  /** All words of add_segment, put together. */
  lemma AddWordsAre(m: Mem, m1: Mem, m2: Mem, m3: Mem, t: int, oldEnd: int, c: int, b: int, e: int, sg: Segment, next: int)
    requires 0 < b && b + TOP_FOOT_SIZE + 16 <= e && t <= c && c + TOP_FOOT_SIZE <= oldEnd && (oldEnd <= b || e <= t)
    requires c == t || t + MIN_CHUNK_SIZE <= c
    requires m1 == RecordWritten(m, c, b, e, sg, next)
    requires WritesIn(m1, m2, c + RECORD_SIZE + HEAD, oldEnd) && Rd(m2, c + RECORD_SIZE + HEAD) == FENCEPOST_HEAD
    requires m3 == if c == t then m2 else SetFreeWithPinuse(m2, t, c - t, c)
    ensures AddWords(m, m3, t, oldEnd, c, b, e, sg, next)
  {
    hide RecordWritten, SetFreeWithPinuse, RecordSays;
    RecordWrittenIs(m, c, b, e, sg, next);
    FencesLeave(m1, m2, c, b, e, oldEnd, sg, next);
    if c != t { FreeLeaves(m2, t, c, b, e, sg, next); }
  }

  /** The first half of add_segment: top moves to the new space, the record and the fenceposts are written. */
  method PushRecord(M: MallocState, tbase: int, tsize: int, mapped: bool, csp: int, oldEnd: int)
    requires csp + TOP_FOOT_SIZE <= oldEnd && csp % 16 == 0 && oldEnd % 16 == 0
    modifies M`mem, M`top, M`topsize, M`trimCheck, M`segBase, M`segSize, M`segMapped, M`segNext
    ensures M.top == tbase && M.topsize == tsize - TOP_FOOT_SIZE && M.trimCheck == M.trimThreshold
    ensures M.segBase == tbase && M.segSize == tsize && M.segMapped == mapped && M.segNext == csp + 16
    ensures var sg := Segment(old(M.segBase), old(M.segSize), old(M.segMapped));
      WritesIn(RecordWritten(old(M.mem), csp, tbase, tbase + tsize, sg, old(M.segNext)), M.mem, csp + RECORD_SIZE + HEAD, oldEnd)
    ensures Rd(M.mem, csp + RECORD_SIZE + HEAD) == FENCEPOST_HEAD
  {
    hide WritesIn, TopWords, RecordWritten;
    ghost var m, sg, next := M.mem, Segment(M.segBase, M.segSize, M.segMapped), M.segNext;
    var ss := csp + 16;
    InitTop(M, tbase, tsize - TOP_FOOT_SIZE);
    M.mem := SetInuseHead(M.mem, csp, RECORD_SIZE);
    M.mem := M.mem[ss := M.segBase][ss + 8 := M.segSize][ss + 16 := M.segNext][ss + 24 := MappedFlag(M.segMapped)];
    RecordWordsAre(m, M.mem, csp, tbase, tbase + tsize, sg, next);
    M.segBase, M.segSize, M.segMapped, M.segNext := tbase, tsize, mapped, ss;
    EvenFence(csp, oldEnd);
    var tnext := csp + RECORD_SIZE;
    var nfences := Fenceposts(M, tnext, oldEnd);
    FirstFence(M.mem, tnext, nfences);
  }

  lemma FirstFence(m: Mem, tnext: int, n: int)
    requires n >= 2 && forall k {:trigger FenceWord(m, tnext, k)} :: 0 <= k < n ==> FenceWord(m, tnext, k)
    ensures Rd(m, tnext + HEAD) == FENCEPOST_HEAD
  {
    assert FenceWord(m, tnext, 0);
  }

  lemma SegmentAdded(gm: int, unit: int, s: Snap, s2: Snap, s3: Snap, y: Sys, y2: Sys, c: int)
    requires HeapOk(gm, s3) && Settled(s) && BooksOk(gm, unit, s2, y2) && s3.segs == s2.segs && SameEnd(s2, s3)
    requires Keeps(s, s2, {c, c + RECORD_SIZE}) && !Owned(s, c) && !Owned(s, c + RECORD_SIZE) && Keeps(s2, s3, {})
    requires c in s2.chunks && s2.chunks[c].kind == Record && c + RECORD_SIZE in s2.chunks && s2.chunks[c + RECORD_SIZE].kind == Fence
    requires LooseSet(s3) == {}
    ensures SysOk(gm, unit, s3, y2) && SameBlocks(s, s3, {})
  {
    hide HeapOk, BooksOk, Keeps, LooseSet, SameBlocks;
    BooksKept(gm, unit, s2, s3, y2, {});
    KeepsBlocks(s, s2, {c, c + RECORD_SIZE}, {});
    KeepsBlocks(s2, s3, {}, {});
    BlocksTrans(s, s2, s3, {}, {}, {});
    SettledIs(s3);
  }

  lemma KeepsNothing(s: Snap)
    ensures Keeps(s, s, {}) && SameEnd(s, s)
  {
    KeepsSame(s);
  }

  /** The books once the old first segment has a record at c, and a new one has taken its place. */
  function Pushed(y: Sys, c: int, b: int, e: int, isMapped: bool): Sys {
    Counted(y.(base := b, size := e - b, isMapped := isMapped, next := c + 16, recs := [c + 16] + y.recs), e - b)
  }

  lemma PushedIs(y: Sys, y': Sys, c: int, b: int, e: int, isMapped: bool)
    requires y' == Counted(y, e - b).(base := b, size := e - b, isMapped := isMapped, next := c + 16, recs := [c + 16] + y.recs)
    ensures y' == Pushed(y, c, b, e, isMapped)
  {
  }

  /** The words of add_segment. */
  method PushWords(M: MallocState, tbase: int, tsize: int, mapped: bool, csp: int, oldTop: int, oldEnd: int)
    requires oldTop > 0 && (csp == oldTop || oldTop + MIN_CHUNK_SIZE <= csp)
    requires csp + TOP_FOOT_SIZE <= oldEnd && csp % 16 == 0 && oldEnd % 16 == 0
    requires tbase > 0 && tsize >= TOP_FOOT_SIZE + 16 && (oldEnd <= tbase || tbase + tsize <= oldTop)
    modifies M`mem, M`top, M`topsize, M`trimCheck, M`segBase, M`segSize, M`segMapped, M`segNext
    ensures M.top == tbase && M.topsize == tsize - TOP_FOOT_SIZE && M.trimCheck == M.trimThreshold
    ensures M.segBase == tbase && M.segSize == tsize && M.segMapped == mapped && M.segNext == csp + 16
    ensures var sg := Segment(old(M.segBase), old(M.segSize), old(M.segMapped));
      AddWords(old(M.mem), M.mem, oldTop, oldEnd, csp, tbase, tbase + tsize, sg, old(M.segNext))
  {
    hide RecordWritten, SetFreeWithPinuse, AddWords, WritesIn;
    ghost var m, sg, next := M.mem, Segment(M.segBase, M.segSize, M.segMapped), M.segNext;
    PushRecord(M, tbase, tsize, mapped, csp, oldEnd);
    ghost var m2 := M.mem;
    if csp != oldTop {
      M.mem := SetFreeWithPinuse(M.mem, oldTop, csp - oldTop, csp);
    }
    AddWordsAre(m, RecordWritten(m, csp, tbase, tbase + tsize, sg, next), m2, M.mem, oldTop, oldEnd, csp, tbase, tbase + tsize, sg, next);
  }

  lemma AddedIs(s: Snap, s2: Snap, y: Sys, c: int, b: int, e: int, isMapped: bool)
    requires s.segs != [] && s.topsize != 0 && e - b >= TOP_FOOT_SIZE + 16
    requires (c == s.top || s.top + MIN_CHUNK_SIZE <= c) && c + TOP_FOOT_SIZE <= TopEndOf(s) && c % 16 == 0
    requires AddWords(s.mem, s2.mem, s.top, TopEndOf(s), c, b, e, s.segs[0], y.next)
    requires s2 == s.(mem := s2.mem, top := b, topsize := e - b - TOP_FOOT_SIZE, segs := [Segment(b, e - b, isMapped)] + s.segs,
                      chunks := RetiredChunks(s.chunks, s.top, c, TopEndOf(s))[b := Chunk(e - b - TOP_FOOT_SIZE, Top)])
    ensures Added(s, s2, y, c, b, e, isMapped)
  {
    hide AddWords, RetiredChunks;
  }

  /** The words of add_segment, seen in the books. */
  method PushBooks(M: MallocState, tbase: int, tsize: int, mapped: bool, csp: int, oldTop: int, oldEnd: int, ghost y: Sys)
    requires Raised(M, y, tsize) && oldTop > 0 && (csp == oldTop || oldTop + MIN_CHUNK_SIZE <= csp)
    requires csp + TOP_FOOT_SIZE <= oldEnd && csp % 16 == 0 && oldEnd % 16 == 0
    requires tbase > 0 && tsize >= TOP_FOOT_SIZE + 16 && (oldEnd <= tbase || tbase + tsize <= oldTop)
    modifies M`mem, M`top, M`topsize, M`trimCheck, M`segBase, M`segSize, M`segMapped, M`segNext, M`recs
    ensures AddWords(old(M.mem), M.mem, oldTop, oldEnd, csp, tbase, tbase + tsize, Segment(y.base, y.size, y.isMapped), y.next)
    ensures M.Accounts() == Pushed(y, csp, tbase, tbase + tsize, mapped)
    ensures M.top == tbase && M.topsize == tsize - TOP_FOOT_SIZE && M.trimCheck == M.trimThreshold
  {
    hide Raised, AddWords, Pushed;
    RaisedIs(M, y, tsize);
    PushWords(M, tbase, tsize, mapped, csp, oldTop, oldEnd);
    M.recs := [csp + 16] + M.recs;
    PushedIs(y, M.Accounts(), csp, tbase, tbase + tsize, mapped);
  }

  /** What was top is now a free chunk between homes, or nothing, and there is a new top. */
  method PushSegment(M: MallocState, tbase: int, tsize: int, mapped: bool, csp: int, oldTop: int, oldEnd: int, ghost y: Sys)
    requires Raised(M, y, tsize) && M.segs != [] && M.segs[0] == Segment(y.base, y.size, y.isMapped)
    requires M.top == oldTop > 0 && M.topsize > 0 && oldEnd == TopEndOf(M.Now())
    requires csp == oldTop || oldTop + MIN_CHUNK_SIZE <= csp
    requires csp + TOP_FOOT_SIZE <= oldEnd && csp % 16 == 0 && oldEnd % 16 == 0
    requires tbase > 0 && tsize >= TOP_FOOT_SIZE + 16 && (oldEnd <= tbase || tbase + tsize <= oldTop)
    modifies M`mem, M`top, M`topsize, M`trimCheck, M`segBase, M`segSize, M`segMapped, M`segNext, M`recs, M`segs, M`chunks
    ensures Added(old(M.Now()), M.Now(), y, csp, tbase, tbase + tsize, mapped)
    ensures M.Accounts() == Pushed(y, csp, tbase, tbase + tsize, mapped)
    ensures M.top == tbase && M.topsize == tsize - 80 && M.trimCheck == M.trimThreshold
    ensures M.segs == [Segment(tbase, tsize, mapped)] + old(M.segs)
  {
    hide RetiredChunks, Raised, Added, AddWords, Pushed;
    ghost var s := M.Now();
    PushBooks(M, tbase, tsize, mapped, csp, oldTop, oldEnd, y);
    M.segs := [Segment(tbase, tsize, mapped)] + M.segs;
    M.chunks := RetiredChunks(M.chunks, oldTop, csp, oldEnd)[tbase := Chunk(tsize - TOP_FOOT_SIZE, Top)];
    AddedIs(s, M.Now(), y, csp, tbase, tbase + tsize, mapped);
  }

  /**
   * add_segment: the record of the old segment and at least two fenceposts fit behind the old top,
   * and what is left of it is nothing, or a free chunk of at least the minimum size.
   */
  method AddSegment(M: MallocState, tbase: int, tsize: int, mapped: bool, ghost y: Sys)
    requires HeapOk(M.gm, M.Now()) && Settled(M.Now()) && BooksOk(M.gm, M.granularity, M.Now(), y) && Raised(M, y, tsize)
    requires M.topsize != 0 && Fresh(M.gm, M.Now(), tbase, tbase + tsize) && tsize >= TOP_FOOT_SIZE + 16
    requires mapped ==> Whole(M.granularity, tsize) && M.noncontiguous
    modifies M
    ensures SysOk(M.gm, M.granularity, M.Now(), M.Accounts()) && SameBlocks(old(M.Now()), M.Now(), {})
    ensures M.top == tbase && M.topsize == tsize - 80 && M.trimCheck == M.trimThreshold
    ensures M.segs == [Segment(tbase, tsize, mapped)] + old(M.segs)
    ensures M.footprint == old(M.footprint) && M.noncontiguous == old(M.noncontiguous)
    ensures M.releaseChecks == old(M.releaseChecks)
  {
    hide HeapOk, Settled, BooksOk, Fresh, SameBlocks, Keeps, LooseSet, Raised, Added, Owned, SysOk, Pushed;
    ghost var s, e := M.Now(), tbase + tsize;
    RaisedIs(M, y, tsize);
    HeadSegment(M.gm, M.granularity, s, y);
    OldTopApart(M.gm, s, tbase, e);
    FreshBounds(M.gm, s, tbase, e);
    var oldTop := M.top;
    var oldEnd := M.segBase + M.segSize;
    RecordSpot(oldEnd);
    var rawsp := oldEnd - (RECORD_SIZE + 32 + 15);
    var asp := rawsp + AlignOffset(rawsp + 16);
    var csp := if asp < oldTop + MIN_CHUNK_SIZE then oldTop else asp;
    PushSegment(M, tbase, tsize, mapped, csp, oldTop, oldEnd, y);
    AddedReady(M.gm, M.granularity, s, M.Now(), y, csp, tbase, e, mapped);
    BinOldTop(M, csp, oldTop, s, y, M.Accounts());
  }

  lemma AddedReady(gm: int, unit: int, s: Snap, s2: Snap, y: Sys, c: int, b: int, e: int, isMapped: bool)
    requires HeapOk(gm, s) && Settled(s) && BooksOk(gm, unit, s, y) && Fresh(gm, s, b, e) && Added(s, s2, y, c, b, e, isMapped)
    requires isMapped ==> Whole(unit, e - b) && y.noncontiguous
    ensures AddedOk(gm, unit, s, s2, Pushed(y, c, b, e, isMapped), c)
  {
    hide HeapOk, BooksOk, Keeps, LooseSet, Settled, Fresh, Added, Owned;
    AddedHeap(gm, unit, s, s2, y, c, b, e, isMapped);
    SettledIs(s);
    NoneOr(LooseSet(s2), LooseSet(s), if c == s.top then {} else {s.top});
  }

  lemma NoneOr(a: set<int>, b: set<int>, c: set<int>)
    requires a == b + c && b == {}
    ensures a == c
  {
  }

  /** The state after PushSegment: all is well but for the rest of the old top, which is in no bin yet. */
  ghost predicate AddedOk(gm: int, unit: int, s: Snap, s2: Snap, y2: Sys, c: int) {
    && HeapOk(gm, s2) && Settled(s) && BooksOk(gm, unit, s2, y2) && Keeps(s, s2, {c, c + RECORD_SIZE})
    && !Owned(s, c) && !Owned(s, c + RECORD_SIZE)
    && c in s2.chunks && s2.chunks[c].kind == Record && c + RECORD_SIZE in s2.chunks && s2.chunks[c + RECORD_SIZE].kind == Fence
    && LooseSet(s2) == (if c == s.top then {} else {s.top})
    && (c != s.top ==> s.top in s2.chunks && s2.chunks[s.top] == Chunk(c - s.top, Loose))
  }

  /** What the record leaves of the old top goes to its bin. */
  method BinOldTop(M: MallocState, csp: int, oldTop: int, ghost s: Snap, ghost y: Sys, ghost y2: Sys)
    requires AddedOk(M.gm, M.granularity, s, M.Now(), y2, csp) && oldTop == s.top && M.Accounts() == y2
    modifies M`mem, M`smallmap, M`treemap, M`small, M`trees, M`chunks
    ensures SysOk(M.gm, M.granularity, M.Now(), M.Accounts()) && SameBlocks(s, M.Now(), {})
  {
    hide HeapOk, Settled, BooksOk, SameBlocks, Keeps, LooseSet, Owned, SysOk;
    ghost var s2 := M.Now();
    KeepsNothing(s2);
    if csp != oldTop {
      InsertChunk(M, oldTop, csp - oldTop);
      LooseAfter(s2, M.Now(), oldTop, csp - oldTop, Binned);
    }
    SegmentAdded(M.gm, M.granularity, s, s2, M.Now(), y, y2, csp);
  }

  lemma RecordWordsAre(m: Mem, m1: Mem, c: int, b: int, e: int, sg: Segment, next: int)
    requires m1 == SetInuseHead(TopWords(m, b, e - b - TOP_FOOT_SIZE), c, RECORD_SIZE)
                     [c + 16 := sg.base][c + 24 := sg.size][c + 32 := next][c + 40 := MappedFlag(sg.mapped)]
    ensures m1 == RecordWritten(m, c, b, e, sg, next)
  {
  }

  lemma RaisedIs(M: MallocState, y: Sys, d: int)
    requires Raised(M, y, d)
    ensures M.segBase == y.base && M.segSize == y.size && M.segMapped == y.isMapped && M.segNext == y.next
    ensures M.recs == y.recs && M.maps == y.maps && M.Accounts() == Counted(y, d) && M.noncontiguous == y.noncontiguous
  {
  }

  lemma EvenFence(c: int, e: int)
    requires c % 16 == 0 && e % 16 == 0
    ensures (e - (c + RECORD_SIZE)) % 8 == 0 && (c == c)
  {
    assert e - (c + RECORD_SIZE) == 8 * (2 * (e / 16) - 2 * (c / 16) - 6);
  }

  // ---------- the first segment ----------

  predicate EmptyBin(m: Mem, gm: int, i: int) {
    var bin := SmallBinAt(gm, i);
    Rd(m, bin + 16) == bin && Rd(m, bin + 24) == bin
  }

  /** init_bins. */
  method InitBins(M: MallocState)
    modifies M`mem
    ensures WritesIn(old(M.mem), M.mem, M.gm + SMALLBINS_AT, M.gm + TREEBINS_AT)
    ensures M.Now() == old(M.Now()).(mem := M.mem) && M.Accounts() == old(M.Accounts())
    ensures forall i {:trigger EmptyBin(M.mem, M.gm, i)} :: 0 <= i < NBINS ==> EmptyBin(M.mem, M.gm, i)
  {
    var i := 0;
    while i < NBINS
      invariant 0 <= i <= NBINS && WritesIn(old(M.mem), M.mem, M.gm + SMALLBINS_AT, M.gm + TREEBINS_AT)
      invariant forall j {:trigger EmptyBin(M.mem, M.gm, j)} :: 0 <= j < i ==> EmptyBin(M.mem, M.gm, j)
    {
      ghost var m := M.mem;
      var bin := SmallBinAt(M.gm, i);
      M.mem := M.mem[bin + 16 := bin][bin + 24 := bin];
      forall j | 0 <= j < i + 1 ensures EmptyBin(M.mem, M.gm, j) {
        if j < i { assert EmptyBin(m, M.gm, j); }
      }
      i := i + 1;
    }
  }

  lemma NoSegments(gm: int, s: Snap)
    requires HeapOk(gm, s) && s.segs == []
    ensures forall p :: p in s.chunks ==> s.chunks[p].kind.Mapped?
    ensures s.dvsize == 0 && s.topsize == 0 && |s.small| == NBINS && forall i :: 0 <= i < NBINS ==> s.small[i] == []
  {
    hide Tags, StateApart;
    forall p | p in s.chunks ensures s.chunks[p].kind.Mapped? {
      assert Housed(s.segs, p, s.chunks[p]);
    }
    SmallsOf(gm, s);
    forall i | 0 <= i < NBINS ensures s.small[i] == [] {
      assert SmallEntry(s.chunks, s.small[i], i);
      if s.small[i] != [] {
        HeadBinned(s.chunks, s.small[i], i);
      }
    }
  }

  lemma HeadBinned(cs: ChunkMap, b: seq<int>, i: nat)
    requires SmallEntry(cs, b, i) && b != []
    ensures b[0] in cs && cs[b[0]].kind == Binned
  {
    var q := b[0];
    assert q in b;
  }

  lemma BinsInited(gm: int, s: Snap, s': Snap)
    requires HeapOk(gm, s) && s.segs == [] && s' == s.(mem := s'.mem)
    requires WritesIn(s.mem, s'.mem, gm + SMALLBINS_AT, gm + TREEBINS_AT)
    ensures HeapOk(gm, s') && Keeps(s, s', {}) && LooseSet(s') == LooseSet(s)
  {
    hide Tags, Covers, StateApart, TB.TreesOk, SB.SmallsOk, TagAt, SamePayload, Homes;
    NoSegments(gm, s);
    SmallsOf(gm, s);
    assert FreeOnly(s.mem, s'.mem, gm, s.chunks);
    TagsFrame(s.mem, s'.mem, gm, s.chunks);
    EmptySmalls(s.mem, s'.mem, gm, s.smallmap, s.small, BinSet(s.chunks, true));
    TreesFrame(s.mem, s'.mem, gm, s.treemap, s.trees, BinSet(s.chunks, false));
    forall q | q !in {} ensures KeepsAt(s, s', q) {
      if q in s.chunks { FreeOnlyTags(s.mem, s'.mem, gm, s.chunks, q); }
    }
  }

  lemma EmptySmalls(m: Mem, m': Mem, gm: int, map_: nat, small: seq<seq<int>>, tiny: set<int>)
    requires SB.SmallsOk(m, gm, map_, small, tiny) && forall i :: 0 <= i < NBINS ==> small[i] == []
    ensures SB.SmallsOk(m', gm, map_, small, tiny)
  {
    forall i | 0 <= i < NBINS ensures SB.SmallBin(m', gm, map_, small[i], i) && Members(small[i]) <= tiny {
      assert SB.SmallBin(m, gm, map_, small[i], i) && Members(small[i]) <= tiny;
    }
  }

  lemma BooksSame(gm: int, unit: int, s: Snap, s': Snap, y: Sys)
    requires BooksOk(gm, unit, s, y) && HeapOk(gm, s') && s' == s.(mem := s'.mem) && Keeps(s, s', {})
    ensures BooksOk(gm, unit, s', y)
  {
    hide HeapOk, BooksOk, Keeps;
    BooksKept(gm, unit, s, s', y, {});
  }

  /** The books with the first segment. */
  function Opened(y: Sys, b: int, e: int, isMapped: bool): Sys {
    Counted(y.(base := b, size := e - b, isMapped := isMapped), e - b)
  }

  lemma OpenedIs(y: Sys, y': Sys, b: int, e: int, isMapped: bool)
    requires y' == Counted(y, e - b).(base := b, size := e - b, isMapped := isMapped)
    ensures y' == Opened(y, b, e, isMapped)
  {
  }

  method EnterSegment(M: MallocState, tbase: int, tsize: int, mapped: bool)
    modifies M`segBase, M`segSize, M`segMapped, M`releaseChecks
    ensures M.Now() == old(M.Now()) && M.Accounts() == old(M.Accounts()).(base := tbase, size := tsize, isMapped := mapped)
    ensures M.releaseChecks == MAX_RELEASE_CHECK_RATE
  {
    M.segBase := tbase;
    M.segSize := tsize;
    M.segMapped := mapped;
    M.releaseChecks := MAX_RELEASE_CHECK_RATE;
  }

  /** First-time initialization, up to the bins. */
  method StartSegment(M: MallocState, tbase: int, tsize: int, mapped: bool, ghost y: Sys)
    requires HeapOk(M.gm, M.Now()) && BooksOk(M.gm, M.granularity, M.Now(), y) && Raised(M, y, tsize)
    requires M.segs == [] && Fresh(M.gm, M.Now(), tbase, tbase + tsize)
    modifies M`mem, M`segBase, M`segSize, M`segMapped, M`releaseChecks
    ensures HeapOk(M.gm, M.Now()) && BooksOk(M.gm, M.granularity, M.Now(), y) && Fresh(M.gm, M.Now(), tbase, tbase + tsize)
    ensures Keeps(old(M.Now()), M.Now(), {}) && LooseSet(M.Now()) == LooseSet(old(M.Now()))
    ensures M.Accounts() == Opened(y, tbase, tbase + tsize, mapped) && M.releaseChecks == MAX_RELEASE_CHECK_RATE
  {
    hide HeapOk, BooksOk, Fresh, Keeps, LooseSet, Raised, WritesIn, Opened;
    ghost var s := M.Now();
    RaisedIs(M, y, tsize);
    EnterSegment(M, tbase, tsize, mapped);
    OpenedIs(y, M.Accounts(), tbase, tbase + tsize, mapped);
    InitBins(M);
    StartDone(M.gm, M.granularity, s, M.Now(), y, tbase, tbase + tsize);
  }

  lemma StartDone(gm: int, unit: int, s: Snap, s1: Snap, y: Sys, b: int, e: int)
    requires HeapOk(gm, s) && BooksOk(gm, unit, s, y) && s.segs == [] && Fresh(gm, s, b, e)
    requires s1 == s.(mem := s1.mem) && WritesIn(s.mem, s1.mem, gm + SMALLBINS_AT, gm + TREEBINS_AT)
    ensures HeapOk(gm, s1) && BooksOk(gm, unit, s1, y) && Fresh(gm, s1, b, e) && Keeps(s, s1, {}) && LooseSet(s1) == LooseSet(s)
  {
    hide HeapOk, BooksOk, Fresh, Keeps, LooseSet, WritesIn;
    BinsInited(gm, s, s1);
    BooksSame(gm, unit, s, s1, y);
    FreshSame(gm, s, s1, b, e);
  }

  /** The first memory of all becomes the first segment, with top in it. */
  method FirstSegment(M: MallocState, tbase: int, tsize: int, mapped: bool, ghost y: Sys)
    requires HeapOk(M.gm, M.Now()) && Settled(M.Now()) && BooksOk(M.gm, M.granularity, M.Now(), y) && Raised(M, y, tsize)
    requires M.topsize == 0 && M.segs == [] && Fresh(M.gm, M.Now(), tbase, tbase + tsize) && tsize >= TOP_FOOT_SIZE + 16
    requires mapped ==> Whole(M.granularity, tsize) && M.noncontiguous
    modifies M
    ensures SysOk(M.gm, M.granularity, M.Now(), M.Accounts()) && SameBlocks(old(M.Now()), M.Now(), {})
    ensures M.top == tbase && M.topsize == tsize - 80 && M.trimCheck == M.trimThreshold && M.releaseChecks == 4095
    ensures M.segs == [Segment(tbase, tsize, mapped)]
    ensures M.footprint == old(M.footprint) && M.noncontiguous == old(M.noncontiguous)
  {
    hide HeapOk, Settled, BooksOk, Fresh, SameBlocks, Keeps, LooseSet, Raised, Owned, SysOk, TopWords, ToppedUp, Opened;
    ghost var s, e := M.Now(), tbase + tsize;
    RaisedIs(M, y, tsize);
    SettledIs(s);
    StartSegment(M, tbase, tsize, mapped, y);
    ghost var s1 := M.Now();
    PlaceTop(M, tbase, tsize - TOP_FOOT_SIZE, [Segment(tbase, tsize, mapped)]);
    ToppedUpIs(s1, M.Now(), tbase, e, mapped);
    FirstDone(M.gm, M.granularity, s, s1, M.Now(), y, tbase, e, mapped);
  }

  lemma FirstDone(gm: int, unit: int, s: Snap, s1: Snap, s2: Snap, y: Sys, b: int, e: int, isMapped: bool)
    requires LooseSet(s) == {} && Keeps(s, s1, {}) && LooseSet(s1) == LooseSet(s)
    requires HeapOk(gm, s1) && BooksOk(gm, unit, s1, y) && s1.segs == [] && Fresh(gm, s1, b, e) && ToppedUp(s1, s2, b, e, isMapped)
    requires isMapped ==> Whole(unit, e - b) && y.noncontiguous
    ensures SysOk(gm, unit, s2, Opened(y, b, e, isMapped)) && SameBlocks(s, s2, {})
  {
    hide HeapOk, BooksOk, Fresh, Keeps, LooseSet, ToppedUp, SysOk, SameBlocks;
    NewTop(gm, s1, s2, b, e, isMapped);
    BooksInit(gm, unit, s1, s2, y, b, e, isMapped);
    BooksIn(gm, unit, s, s1, s2, Opened(y, b, e, isMapped));
  }

  lemma FreshSame(gm: int, s: Snap, s': Snap, b: int, e: int)
    requires Fresh(gm, s, b, e) && s' == s.(mem := s'.mem)
    ensures Fresh(gm, s', b, e)
  {
    forall p | p in s'.chunks ensures MapClear(p, s'.chunks[p], b, e) {
      assert MapClear(p, s.chunks[p], b, e);
    }
  }

  lemma ToppedUpIs(s1: Snap, s2: Snap, b: int, e: int, mapped: bool)
    requires s1.topsize == 0 && e - b >= TOP_FOOT_SIZE + 16 && s1.segs == []
    requires s2 == s1.(mem := TopWords(s1.mem, b, e - b - TOP_FOOT_SIZE), top := b, topsize := e - b - TOP_FOOT_SIZE,
                       segs := [Segment(b, e - b, mapped)], chunks := s1.chunks[b := Chunk(e - b - TOP_FOOT_SIZE, Top)])
    ensures ToppedUp(s1, s2, b, e, mapped)
  {
  }

  lemma BooksIn(gm: int, unit: int, s: Snap, s1: Snap, s2: Snap, y2: Sys)
    requires HeapOk(gm, s2) && BooksOk(gm, unit, s2, y2) && LooseSet(s2) == {} && Keeps(s, s1, {}) && Keeps(s1, s2, {})
    ensures SysOk(gm, unit, s2, y2) && SameBlocks(s, s2, {})
  {
    hide HeapOk, BooksOk, Keeps, LooseSet, SameBlocks;
    KeepsTrans(s, s1, s2, {}, {}, {});
    KeepsBlocks(s, s2, {}, {});
    SettledIs(s2);
  }

  // ---------- append ----------

  /** The books after top has grown, or shrunk, at the end of its segment. */
  function Stretched(y: Sys, d: int): Sys {
    Counted(y.(size := y.size + d), d)
  }

  lemma StretchedIs(y: Sys, y': Sys, d: int)
    requires y' == Counted(y, d).(size := y.size + d)
    ensures y' == Stretched(y, d)
  {
  }

  /** What AppendTop finds. */
  ghost predicate Appending(gm: int, unit: int, s: Snap, y: Sys, d: int) {
    && HeapOk(gm, s) && Settled(s) && BooksOk(gm, unit, s, y) && s.topsize != 0 && d > 0
    && Fresh(gm, s, y.base + y.size, y.base + y.size + d) && (y.isMapped ==> Whole(unit, d))
  }

  lemma AppendFacts(gm: int, unit: int, s: Snap, y: Sys, d: int)
    requires Appending(gm, unit, s, y, d)
    ensures s.segs != [] && s.segs[0] == Segment(y.base, y.size, y.isMapped)
  {
    hide HeapOk, Settled, BooksOk, Fresh;
    HeadSegment(gm, unit, s, y);
  }

  lemma AppendDone(gm: int, unit: int, s: Snap, s2: Snap, y: Sys, d: int)
    requires Appending(gm, unit, s, y, d) && s.segs != []
    requires s2 == s.(mem := TopWords(s.mem, s.top, s.topsize + d), topsize := s.topsize + d,
                      segs := s.segs[0 := Segment(s.segs[0].base, s.segs[0].size + d, s.segs[0].mapped)],
                      chunks := s.chunks[s.top := Chunk(s.topsize + d, Top)])
    ensures SysOk(gm, unit, s2, Stretched(y, d)) && SameBlocks(s, s2, {})
  {
    hide HeapOk, Settled, BooksOk, Fresh, SameBlocks, Keeps, LooseSet, Owned, SysOk, TopWords, TopResized;
    HeadSegment(gm, unit, s, y);
    SettledIs(s);
    FreshBounds(gm, s, y.base + y.size, y.base + y.size + d);
    ResizedIs0(s, s2, d);
    ResizeTop(gm, s, s2, d);
    MappedSum(gm, unit, s, y, d);
    BooksResize(gm, unit, s, s2, y, d);
    KeepsNothing(s2);
    BooksIn(gm, unit, s, s2, s2, Stretched(y, d));
  }

  /** Fresh memory behind the segment of top: top grows into it. */
  method AppendTop(M: MallocState, tsize: int, ghost y: Sys)
    requires Appending(M.gm, M.granularity, M.Now(), y, tsize) && Raised(M, y, tsize)
    modifies M
    ensures SysOk(M.gm, M.granularity, M.Now(), M.Accounts()) && SameBlocks(old(M.Now()), M.Now(), {})
    ensures M.top == old(M.top) && M.topsize == old(M.topsize) + tsize && M.trimCheck == M.trimThreshold
    ensures |old(M.segs)| > 0 && M.segs == old(M.segs)[0 := Segment(old(M.segs)[0].base, old(M.segs)[0].size + tsize, old(M.segs)[0].mapped)]
    ensures M.footprint == old(M.footprint) && M.noncontiguous == old(M.noncontiguous)
    ensures M.releaseChecks == old(M.releaseChecks)
  {
    hide Appending, Raised, SameBlocks, SysOk, TopWords, Stretched;
    ghost var s := M.Now();
    RaisedIs(M, y, tsize);
    AppendFacts(M.gm, M.granularity, s, y, tsize);
    M.segSize := M.segSize + tsize;
    StretchedIs(y, M.Accounts(), tsize);
    PlaceTop(M, M.top, M.topsize + tsize, M.segs[0 := Segment(M.segBase, M.segSize, M.segMapped)]);
    AppendDone(M.gm, M.granularity, s, M.Now(), y, tsize);
  }

  lemma ResizedIs0(s: Snap, s2: Snap, d: int)
    requires s.topsize != 0 && |s.segs| > 0 && s.segs[0].base <= s.top && TopEndOf(s) == End(s.segs[0])
    requires d % 16 == 0 && s.topsize + d >= 16 && End(s.segs[0]) + d <= ADDRESS_LIMIT && (End(s.segs[0]) + d) % 16 == 0
    requires s2 == s.(mem := TopWords(s.mem, s.top, s.topsize + d), topsize := s.topsize + d,
                      segs := s.segs[0 := Segment(s.segs[0].base, s.segs[0].size + d, s.segs[0].mapped)],
                      chunks := s.chunks[s.top := Chunk(s.topsize + d, Top)])
    ensures TopResized(s, s2, d)
  {
  }

  lemma MappedSum(gm: int, unit: int, s: Snap, y: Sys, d: int)
    requires BooksOk(gm, unit, s, y) && s.segs != []
    requires y.isMapped ==> Whole(unit, d)
    ensures y.isMapped ==> Whole(unit, y.size + d)
  {
    hide MapsOk, CountOk, RecordAt;
    if y.isMapped {
      assert s.segs[0].mapped;
      MultipleSum(y.size, d, unit);
    }
  }

  // ---------- prepend_alloc ----------

  /** What prepend_alloc finds at the start of the segment. */
  lemma FirstFacts(gm: int, s: Snap, i: nat)
    requires HeapOk(gm, s) && Settled(s) && i < |s.segs|
    ensures var f := s.segs[i].base;
      && f in s.chunks && f > 0 && f % 16 == 0 && Follows(Used, s.chunks[f].kind) && !Unpinned(s.mem, s.chunks, f)
      && (f == s.top && s.topsize != 0 <==> s.chunks[f].kind == Top)
      && (f == s.dv && s.dvsize != 0 <==> s.chunks[f].kind == Victim)
      && (Rd(s.mem, f + HEAD) % 4 == 1 <==> !InUse(s.chunks[f].kind))
      && (!InUse(s.chunks[f].kind) && s.chunks[f].kind != Top && s.chunks[f].kind != Victim ==>
            s.chunks[f].kind == Binned && ChunkSize(s.mem, f) == s.chunks[f].size)
      && (InUse(s.chunks[f].kind) ==> Rd(s.mem, f + HEAD) == s.chunks[f].size + 3)
  {
    hide BinsOk, StateApart, Covers;
    var f := s.segs[i].base;
    FirstPinned(gm, s, i);
    assert TagAt(s.mem, s.chunks, f);
    TagBits(s.chunks[f].size);
    assert s.chunks[f].kind == Loose ==> f in LooseSet(s);
  }

  /** The state with [b, e) as two in-use chunks, before the second is merged with what is behind it. */
  ghost function WithPair(s: Snap, i: nat, b: int, q: int): Snap
    requires i < |s.segs|
  {
    var sg := s.segs[i];
    s.(mem := s.mem[q + HEAD := sg.base - q + 3], segs := s.segs[i := Segment(b, End(sg) - b, sg.mapped)],
       chunks := s.chunks[b := Chunk(q - b, Used)][q := Chunk(sg.base - q, Used)])
  }

  lemma PairPrepended(gm: int, s: Snap, i: nat, b: int, q: int)
    requires HeapOk(gm, s) && i < |s.segs| && Fresh(gm, s, b, s.segs[i].base) && Rd(s.mem, b + HEAD) == q - b + 3
    requires b + MIN_CHUNK_SIZE <= q <= s.segs[i].base - MIN_CHUNK_SIZE && q % 16 == 0
    ensures var s2, e := WithPair(s, i, b, q), s.segs[i].base;
      && HeapOk(gm, s2) && Keeps(s, s2, {b, q}) && LooseSet(s2) == LooseSet(s) && !LiveAt(s, b) && !LiveAt(s, q)
      && b !in s.chunks && q !in s.chunks && e in s.chunks && e in s2.chunks && s2.chunks[e] == s.chunks[e]
      && q in s2.chunks && s2.chunks[q] == Chunk(e - q, Used) && !Unpinned(s2.mem, s2.chunks, q)
      && b in s2.chunks && s2.chunks[b] == Chunk(q - b, Used)
  {
    hide HeapOk, Fresh, WritesIn, Keeps, Unpinned;
    var s2, e := WithPair(s, i, b, q), s.segs[i].base;
    PairIs(s, i, b, q);
    NoneInFresh(gm, s, b, e);
    FirstPinned(gm, s, i);
    Prepend(gm, s, s2, i, b, q);
    HeadPinned(s2, q, e - q);
  }

  lemma PairIs(s: Snap, i: nat, b: int, q: int)
    requires i < |s.segs| && Rd(s.mem, b + HEAD) == q - b + 3
    requires b + MIN_CHUNK_SIZE <= q <= s.segs[i].base - MIN_CHUNK_SIZE && q % 16 == 0
    ensures Prepended(s, WithPair(s, i, b, q), i, b, q)
  {
  }

  /** The pair has become one chunk in use, at b, and memory that belongs to the free space behind. */
  ghost predicate PairMerged(gm: int, s: Snap, s2: Snap, i: nat, b: int, nb: int) {
    && i < |s.segs| && HeapOk(gm, s2) && Keeps(s, s2, {b}) && SameEnd(s, s2)
    && s2.segs == s.segs[i := Segment(b, End(s.segs[i]) - b, s.segs[i].mapped)]
    && b in s2.chunks && s2.chunks[b] == Chunk(nb, Used) && b !in s.chunks
  }

  lemma PairDone(gm: int, s: Snap, s1: Snap, sv: Snap, s2: Snap, s3: Snap, i: nat, b: int, q: int, nb: int)
    requires i < |s.segs| && Keeps(s, s1, {}) && s1.segs == s.segs && SameEnd(s, s1) && (b !in s.chunks <==> b !in s1.chunks)
    requires Keeps(s1, sv, {b, q}) && sv == WithPair(s1, i, b, q) && b !in s1.chunks && !LiveAt(s1, q) && b != q
    requires sv.chunks[b] == Chunk(nb, Used)
    requires Keeps(sv, s2, {q}) && !LiveAt(s2, q) && s2.segs == sv.segs && SameEnd(sv, s2)
    requires Keeps(s2, s3, {}) && s3.segs == s2.segs && SameEnd(s2, s3) && HeapOk(gm, s3)
    ensures PairMerged(gm, s, s3, i, b, nb)
  {
    hide HeapOk, SamePayload;
    assert KeepsAt(sv, s2, b) && KeepsAt(s2, s3, b);
    assert KeepsAt(s2, s3, q);
    hide Keeps;
    KeepsTrans(s, s1, sv, {}, {b, q}, {b, q});
    KeepsTrans(s, sv, s2, {b, q}, {q}, {b, q});
    KeepsTrans(s, s2, s3, {b, q}, {}, {b, q});
    KeptDead(s, s1, q);
    KeepsDead(s, s3, {b, q}, q);
    assert {b, q} - {q} == {b};
  }

  lemma KeptDead(s: Snap, s1: Snap, q: int)
    requires Keeps(s, s1, {}) && !LiveAt(s1, q)
    ensures !LiveAt(s, q)
  {
    hide LiveAt;
    KeepsLive(s, s1, q);
  }

  /** What the three branches of prepend_alloc start from. */
  ghost predicate PairReady(gm: int, s: Snap, i: nat, b: int, q: int) {
    && HeapOk(gm, s) && Settled(s) && i < |s.segs| && Fresh(gm, s, b, s.segs[i].base) && Rd(s.mem, b + HEAD) == q - b + 3
    && b + MIN_CHUNK_SIZE <= q <= s.segs[i].base - MIN_CHUNK_SIZE && q % 16 == 0
  }

  lemma PairToTop(gm: int, s: Snap, s2: Snap, i: nat, b: int, q: int)
    requires PairReady(gm, s, i, b, q) && s.topsize != 0 && s.segs[i].base == s.top
    requires var sv := WithPair(s, i, b, q);
      s2 == sv.(mem := s.mem[q + HEAD := s.topsize + s.top - q + 1], top := q, topsize := s.topsize + s.top - q,
                chunks := Merged(sv.chunks, q, TopEndOf(sv), Chunk(s.topsize + s.top - q, Top)))
    ensures PairMerged(gm, s, s2, i, b, q - b) && Settled(s2)
  {
    hide HeapOk, Fresh, Keeps, Unpinned, Merged, LooseSet, LiveAt, Settled;
    var sv := WithPair(s, i, b, q);
    FirstFacts(gm, s, i);
    DvFacts(gm, s);
    PairPrepended(gm, s, i, b, q);
    KeepsNothing(s);
    KeepsNothing(s2);
    DvNotHere(gm, sv, q);
    SettledIs(s);
    SettledIs(s2);
    assert FreedToTop(sv, s2, q, q);
    FreedTopStep(gm, sv, s2, q, q);
    LooseGone(s, s2, q);
    PairDone(gm, s, s, sv, s2, s2, i, b, q, q - b);
  }

  lemma LooseGone(s: Snap, s2: Snap, q: int)
    requires LooseSet(s) == {} && LooseSet(s2) == LooseSet(s) - {q}
    ensures LooseSet(s2) == {}
  {
    hide LooseSet;
  }

  lemma DvNotHere(gm: int, s: Snap, q: int)
    requires HeapOk(gm, s) && q in s.chunks && s.chunks[q].kind == Used
    ensures s.dvsize != 0 ==> s.dv != q
  {
    hide Tags, BinsOk, StateApart, Covers;
  }

  /** The memory from q to the first chunk f is part of what f was: of top, of dv, or of a binned chunk. */
  ghost predicate RestWent(s: Snap, s': Snap, f: int, q: int) {
    f in s.chunks &&
    if f == s.top then s'.top == q && s'.topsize == s.topsize + f - q
    else if f == s.dv then s'.dv == q && s'.dvsize == s.dvsize + f - q
    else q in s'.chunks && s'.chunks[q] == Chunk((if Free(s.chunks[f].kind) then s.chunks[f].size else 0) + f - q, Binned)
  }

  /** oldfirst is top: the rest of the new memory becomes part of it. */
  method PrependTop(M: MallocState, q: int, qsize: int, ghost i: nat, ghost b: int)
    requires PairReady(M.gm, M.Now(), i, b, q) && M.topsize != 0 && M.segs[i].base == M.top && qsize == M.top - q
    modifies M`mem, M`chunks, M`segs, M`top, M`topsize
    ensures PairMerged(M.gm, old(M.Now()), M.Now(), i, b, q - b) && Settled(M.Now())
    ensures M.top == q && M.topsize == old(M.topsize) + qsize
  {
    hide HeapOk, Fresh, Keeps, Merged, Settled, PairMerged, PairReady;
    ghost var s := M.Now();
    PairIndex(M.gm, s, i, b, q);
    ghost var sv := WithPair(s, i, b, q);
    var tsize := M.topsize + qsize;
    M.topsize := tsize;
    M.top := q;
    M.mem := M.mem[q + HEAD := tsize + 1];
    M.segs := sv.segs;
    M.chunks := Merged(sv.chunks, q, TopEndOf(sv), Chunk(tsize, Top));
    PairToTop(M.gm, s, M.Now(), i, b, q);
  }

  lemma PairIndex(gm: int, s: Snap, i: nat, b: int, q: int)
    requires PairReady(gm, s, i, b, q)
    ensures i < |s.segs|
  {
  }

  /** oldfirst is dv. */
  lemma PairToDv(gm: int, s: Snap, s2: Snap, i: nat, b: int, q: int)
    requires PairReady(gm, s, i, b, q) && s.dvsize != 0 && s.segs[i].base == s.dv
    requires var sv, d := WithPair(s, i, b, q), s.dvsize + s.dv - q;
      s2 == sv.(mem := SetFree(s.mem, q, d), dv := q, dvsize := d, chunks := Merged(sv.chunks, q, q + d, Chunk(d, Victim)))
    ensures PairMerged(gm, s, s2, i, b, q - b) && Settled(s2)
  {
    hide HeapOk, Fresh, Keeps, Unpinned, Merged, LooseSet, LiveAt, Settled;
    var sv := WithPair(s, i, b, q);
    FirstFacts(gm, s, i);
    PairPrepended(gm, s, i, b, q);
    KeepsNothing(s);
    KeepsNothing(s2);
    SettledIs(s);
    SettledIs(s2);
    NoDv(gm, s);
    FreeFacts(gm, sv, s.dv);
    var e := s.dv + s.dvsize;
    assert Span(sv, q, q, e);
    assert FreedTo(sv, s2, q, q, e, Victim);
    FreedStep(gm, sv, s2, q, q, e, Victim);
    LooseNone(s, s2, q, s.dv, {});
    PairDone(gm, s, s, sv, s2, s2, i, b, q, q - b);
  }

  lemma LooseNone(s: Snap, s2: Snap, q: int, n: int, add: set<int>)
    requires LooseSet(s) == {} && LooseSet(s2) == (LooseSet(s) - {q, n}) + add
    ensures LooseSet(s2) == add
  {
    hide LooseSet;
  }

  method PrependDv(M: MallocState, q: int, qsize: int, ghost i: nat, ghost b: int)
    requires PairReady(M.gm, M.Now(), i, b, q) && M.dvsize != 0 && M.segs[i].base == M.dv && qsize == M.dv - q
    modifies M`mem, M`chunks, M`segs, M`dv, M`dvsize
    ensures PairMerged(M.gm, old(M.Now()), M.Now(), i, b, q - b) && Settled(M.Now())
    ensures M.dv == q && M.dvsize == old(M.dvsize) + qsize
  {
    hide HeapOk, Fresh, Keeps, Merged, Settled, PairMerged, PairReady, SetFree;
    ghost var s := M.Now();
    PairIndex(M.gm, s, i, b, q);
    ghost var sv := WithPair(s, i, b, q);
    var dsize := M.dvsize + qsize;
    M.dvsize := dsize;
    M.dv := q;
    M.mem := SetFree(M.mem, q, dsize);
    M.segs := sv.segs;
    M.chunks := Merged(sv.chunks, q, q + dsize, Chunk(dsize, Victim));
    PairToDv(M.gm, s, M.Now(), i, b, q);
  }

  lemma FreshAfterUnlink(gm: int, s: Snap, s1: Snap, b: int, e: int, n: int)
    requires Fresh(gm, s, b, e) && s1.segs == s.segs && n in s.chunks && s.chunks[n].kind == Binned
    requires s1.chunks == s.chunks[n := Chunk(s.chunks[n].size, Loose)]
    ensures Fresh(gm, s1, b, e)
  {
    forall p | p in s1.chunks ensures MapClear(p, s1.chunks[p], b, e) {
      assert MapClear(p, s.chunks[p], b, e);
    }
  }

  /** The chunk behind the pair, which ends at e, and the words that make q a free chunk up to e. */
  lemma PairFreed(gm: int, s1: Snap, s2: Snap, i: nat, b: int, q: int, e: int)
    requires HeapOk(gm, s1) && i < |s1.segs| && Fresh(gm, s1, b, s1.segs[i].base) && Rd(s1.mem, b + HEAD) == q - b + 3
    requires b + MIN_CHUNK_SIZE <= q <= s1.segs[i].base - MIN_CHUNK_SIZE && q % 16 == 0
    requires var f := s1.segs[i].base;
      && f in s1.chunks && e in s1.chunks
      && (if e == f then InUse(s1.chunks[f].kind) && Rd(s1.mem, f + HEAD) == s1.chunks[f].size + 3
          else s1.chunks[f].kind == Loose && e == f + s1.chunks[f].size)
    requires var sv := WithPair(s1, i, b, q);
      s2 == sv.(mem := SetFreeWithPinuse(s1.mem, q, e - q, e), chunks := Merged(sv.chunks, q, e, Chunk(e - q, Loose)))
    requires LooseSet(s1) <= {s1.segs[i].base}
    ensures var sv := WithPair(s1, i, b, q);
      && HeapOk(gm, s2) && Keeps(sv, s2, {q}) && !LiveAt(s2, q) && LooseSet(s2) == {q} && q in s2.chunks && s2.chunks[q] == Chunk(e - q, Loose)
  {
    hide HeapOk, Fresh, Keeps, Unpinned, Merged, LooseSet, LiveAt;
    var sv, f := WithPair(s1, i, b, q), s1.segs[i].base;
    PairPrepended(gm, s1, i, b, q);
    if e != f { FreeFacts(gm, s1, f); }
    DvNotHere(gm, sv, q);
    if e != f { DvApart(gm, s1, f); }
    assert Span(sv, q, q, e);
    PairWords(gm, s1, sv, s2, i, b, q, e);
    assert DvMoved(sv, s2, q, f, e, Loose);
    assert FreedTo(sv, s2, q, q, e, Loose);
    FreedStep(gm, sv, s2, q, q, e, Loose);
    LooseOnly(s1, s2, q, f);
  }

  lemma LooseOnly(s1: Snap, s2: Snap, q: int, f: int)
    requires LooseSet(s1) <= {f} && LooseSet(s2) == (LooseSet(s1) - {q, f}) + {q}
    ensures LooseSet(s2) == {q}
  {
    hide LooseSet;
  }

  lemma PairWords(gm: int, s1: Snap, sv: Snap, s2: Snap, i: nat, b: int, q: int, e: int)
    requires HeapOk(gm, s1) && i < |s1.segs| && sv == WithPair(s1, i, b, q) && q < s1.segs[i].base <= e && e in s1.chunks
    requires s2.mem == SetFreeWithPinuse(s1.mem, q, e - q, e) && e - q >= MIN_CHUNK_SIZE
    requires Rd(s1.mem, e + HEAD) == s1.chunks[e].size + 2 || Rd(s1.mem, e + HEAD) == s1.chunks[e].size + 3
    ensures Rd(s2.mem, q + HEAD) == e - q + 1 && Rd(s2.mem, e) == e - q && Rd(s2.mem, e + HEAD) == s1.chunks[e].size + 2
    ensures Writes(sv.mem, s2.mem, {q + HEAD, e, e + HEAD})
  {
    hide HeapOk;
    LooseSize(gm, s1, e, s1.chunks[e].size);
    Chunks.Parity(s1.chunks[e].size);
  }

  /** oldfirst is no longer in a bin, if it was free; the rest of the new memory reaches up to e. */
  ghost predicate FirstOut(gm: int, s: Snap, s1: Snap, i: nat, b: int, q: int, e: int) {
    && HeapOk(gm, s1) && Keeps(s, s1, {}) && s1.segs == s.segs && SameEnd(s, s1) && i < |s1.segs|
    && (b !in s.chunks <==> b !in s1.chunks) && Fresh(gm, s1, b, s1.segs[i].base) && Rd(s1.mem, b + HEAD) == q - b + 3
    && b + MIN_CHUNK_SIZE <= q <= s1.segs[i].base - MIN_CHUNK_SIZE && q % 16 == 0
    && LooseSet(s1) <= {s1.segs[i].base}
    && var f := s1.segs[i].base;
    && f in s1.chunks && e in s1.chunks && f <= e
    && (if e == f then InUse(s1.chunks[f].kind) && Rd(s1.mem, f + HEAD) == s1.chunks[f].size + 3
        else s1.chunks[f].kind == Loose && e == f + s1.chunks[f].size)
  }

  lemma FirstUnlinked(gm: int, s: Snap, s1: Snap, i: nat, b: int, q: int, nsize: int)
    requires PairReady(gm, s, i, b, q) && HeapOk(gm, s1) && Keeps(s, s1, {}) && s1.segs == s.segs && SameEnd(s, s1)
    requires var f := s.segs[i].base;
      && f in s.chunks && s.chunks[f] == Chunk(nsize, Binned) && s1.chunks == s.chunks[f := Chunk(nsize, Loose)]
    requires FreeOnly(s.mem, s1.mem, gm, s.chunks)
    ensures FirstOut(gm, s, s1, i, b, q, s.segs[i].base + nsize)
  {
    hide HeapOk, Settled, Fresh, Keeps, LooseSet, FreeOnly, Unpinned;
    var f := s.segs[i].base;
    SettledIs(s);
    LooseAfter(s, s1, f, nsize, Loose);
    FreshAfterUnlink(gm, s, s1, b, f, f);
    FreeFacts(gm, s1, f);
    FreshWordKept(gm, s, s1.mem, b, f, b + HEAD);
    NotInFresh(gm, s, b, f, f);
  }

  lemma FirstInUse(gm: int, s: Snap, i: nat, b: int, q: int)
    requires PairReady(gm, s, i, b, q)
    requires var f := s.segs[i].base; f in s.chunks && s.chunks[f].kind != Top && s.chunks[f].kind != Victim
    ensures var f := s.segs[i].base;
      && (Rd(s.mem, f + HEAD) % 4 == 1 ==> s.chunks[f].kind == Binned && ChunkSize(s.mem, f) == s.chunks[f].size)
      && (Rd(s.mem, f + HEAD) % 4 != 1 ==> InUse(s.chunks[f].kind) && FirstOut(gm, s, s, i, b, q, f))
  {
    hide HeapOk, Settled, Fresh, Keeps, LooseSet, Unpinned;
    FirstFacts(gm, s, i);
    SettledIs(s);
    KeepsNothing(s);
  }

  /** oldfirst leaves its bin, if it is free. */
  method DetachFirst(M: MallocState, oldfirst: int, ghost i: nat, ghost b: int, ghost q: int) returns (e: int)
    requires PairReady(M.gm, M.Now(), i, b, q) && oldfirst == M.segs[i].base
    requires oldfirst in M.chunks && M.chunks[oldfirst].kind != Top && M.chunks[oldfirst].kind != Victim
    modifies M`mem, M`smallmap, M`treemap, M`small, M`trees, M`chunks
    ensures FirstOut(M.gm, old(M.Now()), M.Now(), i, b, q, e)
    ensures e == oldfirst + (if Free(old(M.chunks)[oldfirst].kind) then old(M.chunks)[oldfirst].size else 0)
  {
    hide HeapOk, Fresh, Keeps, Settled, FirstOut, LooseSet, ChunkSize;
    ghost var s := M.Now();
    FirstInUse(M.gm, s, i, b, q);
    e := oldfirst;
    if Rd(M.mem, oldfirst + HEAD) % 4 == 1 {
      var nsize := ChunkSize(M.mem, oldfirst);
      UnlinkChunk(M, oldfirst, nsize);
      FirstUnlinked(M.gm, s, M.Now(), i, b, q, nsize);
      e := oldfirst + nsize;
    }
  }

  lemma RestFreed(gm: int, s: Snap, s1: Snap, s2: Snap, i: nat, b: int, q: int, e: int)
    requires FirstOut(gm, s, s1, i, b, q, e)
    requires var sv := WithPair(s1, i, b, q);
      s2 == sv.(mem := SetFreeWithPinuse(s1.mem, q, e - q, e), chunks := Merged(sv.chunks, q, e, Chunk(e - q, Loose)))
    ensures HeapOk(gm, s2) && LooseSet(s2) == {q} && q in s2.chunks && s2.chunks[q] == Chunk(e - q, Loose)
  {
    hide HeapOk, Fresh, Keeps, Merged, SetFreeWithPinuse, LooseSet, LiveAt;
    PairFreed(gm, s1, s2, i, b, q, e);
  }

  lemma RestBinned(gm: int, s: Snap, s1: Snap, s2: Snap, s3: Snap, i: nat, b: int, q: int, e: int)
    requires FirstOut(gm, s, s1, i, b, q, e) && i < |s.segs|
    requires var sv := WithPair(s1, i, b, q);
      s2 == sv.(mem := SetFreeWithPinuse(s1.mem, q, e - q, e), chunks := Merged(sv.chunks, q, e, Chunk(e - q, Loose)))
    requires HeapOk(gm, s3) && Keeps(s2, s3, {}) && s3.segs == s2.segs && SameEnd(s2, s3) && s3.chunks == s2.chunks[q := Chunk(e - q, Binned)]
    ensures PairMerged(gm, s, s3, i, b, q - b) && Settled(s3)
  {
    hide HeapOk, Fresh, Keeps, Merged, Settled, PairMerged, SetFreeWithPinuse, LooseSet, LiveAt;
    PairFreed(gm, s1, s2, i, b, q, e);
    PairPrepended(gm, s1, i, b, q);
    LooseAfter(s2, s3, q, e - q, Binned);
    LooseEmpty(s2, s3, q);
    PairDone(gm, s, s1, WithPair(s1, i, b, q), s2, s3, i, b, q, q - b);
  }

  /** oldfirst is another chunk: the rest of the new memory is a free chunk, joined with it if it is free. */
  method PrependOther(M: MallocState, q: int, oldfirst: int, ghost i: nat, ghost b: int)
    requires PairReady(M.gm, M.Now(), i, b, q) && oldfirst == M.segs[i].base
    requires oldfirst in M.chunks && M.chunks[oldfirst].kind != Top && M.chunks[oldfirst].kind != Victim
    requires oldfirst != M.top && oldfirst != M.dv
    modifies M`mem, M`smallmap, M`treemap, M`small, M`trees, M`chunks, M`segs
    ensures PairMerged(M.gm, old(M.Now()), M.Now(), i, b, q - b) && Settled(M.Now())
    ensures RestWent(old(M.Now()), M.Now(), oldfirst, q)
  {
    hide HeapOk, Fresh, Keeps, Merged, Settled, PairMerged, SetFreeWithPinuse, LooseSet, PairReady, FirstOut;
    ghost var s := M.Now();
    PairIndex(M.gm, s, i, b, q);
    var e := DetachFirst(M, oldfirst, i, b, q);
    ghost var s1 := M.Now();
    OutIn(M.gm, s, s1, i, b, q, e);
    FreeRest(M, q, e - q, e, WithPair(s1, i, b, q));
    ghost var s2 := M.Now();
    RestFreed(M.gm, s, s1, s2, i, b, q, e);
    InsertChunk(M, q, e - q);
    RestBinned(M.gm, s, s1, s2, M.Now(), i, b, q, e);
  }

  lemma OutIn(gm: int, s: Snap, s1: Snap, i: nat, b: int, q: int, e: int)
    requires FirstOut(gm, s, s1, i, b, q, e)
    ensures i < |s1.segs|
  {
    hide HeapOk, Keeps, Fresh;
  }

  method FreeRest(M: MallocState, q: int, qsize: int, e: int, ghost sv: Snap)
    modifies M`mem, M`chunks, M`segs
    ensures M.Now() == old(M.Now()).(mem := SetFreeWithPinuse(old(M.mem), q, qsize, e), segs := sv.segs,
                                     chunks := Merged(sv.chunks, q, e, Chunk(qsize, Loose)))
  {
    hide SetFreeWithPinuse, Merged;
    M.mem := SetFreeWithPinuse(M.mem, q, qsize, e);
    M.segs := sv.segs;
    M.chunks := Merged(sv.chunks, q, e, Chunk(qsize, Loose));
  }

  lemma LooseEmpty(s2: Snap, s3: Snap, q: int)
    requires LooseSet(s2) == {q} && LooseSet(s3) == LooseSet(s2) - {q}
    ensures Settled(s3)
  {
    hide LooseSet;
  }

  lemma NotInFresh(gm: int, s: Snap, b: int, e: int, n: int)
    requires HeapOk(gm, s) && Fresh(gm, s, b, e) && n in s.chunks
    ensures b !in s.chunks && n != b
  {
    hide HeapOk, Fresh;
    NoneInFresh(gm, s, b, e);
    FreshBounds(gm, s, b, e);
  }

  /** The bin operations do not touch memory that is nobody's. */
  lemma FreshWordKept(gm: int, s: Snap, m': Mem, b: int, e: int, w: int)
    requires HeapOk(gm, s) && Fresh(gm, s, b, e) && FreeOnly(s.mem, m', gm, s.chunks) && b <= w < e
    ensures Rd(m', w) == Rd(s.mem, w)
  {
    hide HeapOk;
    if Rd(m', w) != Rd(s.mem, w) {
      if !(gm <= w < gm + STATE_SIZE) {
        var p :| p in s.chunks && Free(s.chunks[p].kind) && p + 16 <= w < p + s.chunks[p].size;
        FreshApart(gm, s, b, e, p);
      }
    }
  }

  // ---------- walking the segment list ----------

  /** The address of entry i of the list: the state record holds the first one. */
  ghost function SegPtr(gm: int, recs: seq<int>, i: nat): int {
    if i == 0 then gm else RecPtr(recs, i - 1)
  }

  /** sp->base, sp->size, sp->next and the flag, in the state record or in a record in memory. */
  function BaseOf(M: MallocState, sp: int): int
    reads M
  {
    if sp == M.gm then M.segBase else Rd(M.mem, sp)
  }

  function SizeOf(M: MallocState, sp: int): int
    reads M
  {
    if sp == M.gm then M.segSize else Rd(M.mem, sp + 8)
  }

  function NextOf(M: MallocState, sp: int): int
    reads M
  {
    if sp == M.gm then M.segNext else Rd(M.mem, sp + 16)
  }

  function FlagOf(M: MallocState, sp: int): int
    reads M
  {
    if sp == M.gm then MappedFlag(M.segMapped) else Rd(M.mem, sp + 24)
  }

  /** What the fields of entry i say. */
  lemma EntrySays(M: MallocState, y: Sys, i: nat)
    requires HeapOk(M.gm, M.Now()) && BooksOk(M.gm, M.granularity, M.Now(), y) && i < |M.segs|
    requires M.segBase == y.base && M.segSize == y.size && M.segMapped == y.isMapped && M.segNext == y.next
    ensures var sp, sg := SegPtr(M.gm, y.recs, i), M.segs[i];
      && sp != 0 && BaseOf(M, sp) == sg.base && SizeOf(M, sp) == sg.size && FlagOf(M, sp) == MappedFlag(sg.mapped)
      && NextOf(M, sp) == (if i + 1 < |M.segs| then SegPtr(M.gm, y.recs, i + 1) else 0)
      && (i > 0 ==> sp != M.gm && RecordChunk(y, i) == sp - 16)
    ensures |M.segs| == |y.recs| + 1 && M.gm != 0
  {
    hide HeapOk, MapsOk, CountOk, RecordAt;
    if i > 0 {
      RecordSelf(M.gm, M.granularity, M.Now(), y, i - 1);
      RecordNotState(M.gm, M.Now(), y.recs[i - 1] - 16);
    }
    StateAddress(M.gm, M.Now());
  }

  lemma RecordNotState(gm: int, s: Snap, c: int)
    requires HeapOk(gm, s) && c in s.chunks && s.chunks[c].size >= 32
    ensures c + 16 != gm
  {
    hide Tags, BinsOk, Specials, Covers;
    assert Clear(gm, c, s.chunks[c]);
  }

  lemma StateAddress(gm: int, s: Snap)
    requires HeapOk(gm, s)
    ensures gm > 0
  {
    hide Tags, BinsOk, Specials, Covers;
  }

  function EdgeOf(sg: Segment, byEnd: bool): int {
    if byEnd then End(sg) else sg.base
  }

  /** The place of the first segment that ends at a, or that starts at a; behind the last one if there is none. */
  function FirstAt(segs: seq<Segment>, a: int, byEnd: bool): (i: nat)
    ensures i <= |segs| && (i < |segs| ==> EdgeOf(segs[i], byEnd) == a)
    ensures forall j :: 0 <= j < i ==> EdgeOf(segs[j], byEnd) != a
  {
    if segs == [] || EdgeOf(segs[0], byEnd) == a then 0 else FirstAt(segs[1..], a, byEnd) + 1
  }

  /** The entry that ends at a, or that starts at a, if any. */
  method FindSegment(M: MallocState, a: int, byEnd: bool, ghost y: Sys) returns (sp: int, ghost i: nat)
    requires HeapOk(M.gm, M.Now()) && BooksOk(M.gm, M.granularity, M.Now(), y) && M.segs != []
    requires M.segBase == y.base && M.segSize == y.size && M.segMapped == y.isMapped && M.segNext == y.next
    ensures i == FirstAt(M.segs, a, byEnd)
    ensures if i < |M.segs| then sp == SegPtr(M.gm, y.recs, i) != 0 else sp == 0
  {
    hide HeapOk, BooksOk, SegPtr, BaseOf, SizeOf, NextOf, FirstAt;
    EntrySays(M, y, 0);
    HeadPtr(M.gm, y.recs);
    sp, i := M.gm, 0;
    while sp != 0 && a != BaseOf(M, sp) + (if byEnd then SizeOf(M, sp) else 0)
      invariant sp == 0 || (i < |M.segs| && sp == SegPtr(M.gm, y.recs, i))
      invariant sp == 0 ==> i == |M.segs|
      invariant forall j :: 0 <= j < i && j < |M.segs| ==> EdgeOf(M.segs[j], byEnd) != a
      decreases if sp == 0 then 0 else |M.segs| - i
    {
      EntrySays(M, y, i);
      sp := NextOf(M, sp);
      i := i + 1;
      if i < |M.segs| { EntrySays(M, y, i); }
    }
    if sp != 0 { EntrySays(M, y, i); }
  }

  lemma HeadPtr(gm: int, recs: seq<int>)
    ensures SegPtr(gm, recs, 0) == gm
  {
  }

  // ---------- prepend_alloc, all of it ----------

  /** The words of entry i after sp->base = tbase, sp->size += tsize. */
  lemma RecordRewritten(gm: int, unit: int, s: Snap, s1: Snap, y: Sys, i: nat, b: int, d: int)
    requires HeapOk(gm, s) && BooksOk(gm, unit, s, y) && 0 < i < |s.segs| && s.segs[i].base == b + d && d > 0
    requires var ss := RecPtr(y.recs, i - 1); s1 == s.(mem := s.mem[ss := b][ss + 8 := Rd(s.mem, ss + 8) + d])
    ensures HeapOk(gm, s1) && Keeps(s, s1, {RecordChunk(y, i)}) && LooseSet(s1) == LooseSet(s)
    ensures RecordChunk(y, i) in s.chunks && s.chunks[RecordChunk(y, i)] == Chunk(RECORD_SIZE, Record) && |s.segs| == |y.recs| + 1
    ensures RecordSays(s1.mem, y.recs[i - 1], Segment(b, End(s.segs[i]) - b, s.segs[i].mapped), RecPtr(y.recs, i))
  {
    hide HeapOk, MapsOk, CountOk, RecordAt, Keeps, LooseSet;
    RecordSelf(gm, unit, s, y, i - 1);
    var c := RecordChunk(y, i);
    assert OwnerWrites(s, s1, c);
    OwnerMayWrite(gm, s, s1, c);
  }

  lemma RecordStays(s: Snap, s2: Snap, y: Sys, i: nat, sg: Segment, next: int)
    requires 0 < i <= |y.recs| && RecordSays(s.mem, y.recs[i - 1], sg, next)
    requires KeepsAt(s, s2, y.recs[i - 1] - 16) && y.recs[i - 1] - 16 in s.chunks
    requires s.chunks[y.recs[i - 1] - 16] == Chunk(RECORD_SIZE, Record)
    ensures RecordSays(s2.mem, y.recs[i - 1], sg, next)
    ensures y.recs[i - 1] - 16 in s2.chunks && s2.chunks[y.recs[i - 1] - 16] == Chunk(RECORD_SIZE, Record)
  {
    hide SamePayload;
    RecordWords(s.mem, s2.mem, y.recs[i - 1]);
  }

  /** All that prepend_alloc has done, put together. */
  lemma PrependedBooks(gm: int, unit: int, s: Snap, sA: Snap, sB: Snap, s2: Snap, y: Sys, i: nat, b: int, nb: int)
    requires HeapOk(gm, s) && BooksOk(gm, unit, s, y) && i < |s.segs| && Fresh(gm, s, b, s.segs[i].base)
    requires Keeps(s, sA, {RecordChunk(y, i)}) && sA.segs == s.segs && sA.chunks == s.chunks && SameEnd(s, sA)
    requires i > 0 ==> RecordSays(sA.mem, y.recs[i - 1], Segment(b, End(s.segs[i]) - b, s.segs[i].mapped), RecPtr(y.recs, i))
    requires Keeps(sA, sB, {}) && sB.segs == sA.segs && sB.chunks == sA.chunks && SameEnd(sA, sB)
    requires PairMerged(gm, sB, s2, i, b, nb) && Settled(s2)
    requires s.segs[i].mapped ==> Whole(unit, End(s.segs[i]) - b)
    ensures SysOk(gm, unit, s2, Widened(y, i, b, s.segs[i].base - b))
    ensures SameBlocks(s, s2, {b}) && !Owned(s, b) && Owned(s2, b) && s2.chunks[b] == Chunk(nb, Used)
  {
    hide HeapOk, Keeps, Settled, Fresh, MapsOk, CountOk, RecordAt, SameBlocks, MapBytes, SegBytes;
    var c := RecordChunk(y, i);
    NotInFreshOnly(gm, s, b, s.segs[i].base);
    KeepsTrans(s, sA, sB, {c}, {}, {c});
    KeepsTrans(s, sB, s2, {c}, {b}, {b, c});
    if i > 0 {
      RecordSelf(gm, unit, s, y, i - 1);
      KeepsPoint(sA, sB, {}, c);
      KeepsPoint(sB, s2, {b}, c);
      RecordStays(sA, sB, y, i, Segment(b, End(s.segs[i]) - b, s.segs[i].mapped), RecPtr(y.recs, i));
      RecordStays(sB, s2, y, i, Segment(b, End(s.segs[i]) - b, s.segs[i].mapped), RecPtr(y.recs, i));
    }
    BooksPrepend(gm, unit, s, s2, y, i, b);
    NotOwnedRecord(gm, unit, s, s2, y, i);
    KeepsBlocks(s, s2, {b, c}, {b});
  }

  lemma KeepsPoint(s: Snap, s': Snap, but: set<int>, q: int)
    requires Keeps(s, s', but) && q !in but
    ensures KeepsAt(s, s', q)
  {
  }

  lemma NotInFreshOnly(gm: int, s: Snap, b: int, e: int)
    requires HeapOk(gm, s) && Fresh(gm, s, b, e)
    ensures b !in s.chunks && b < e
  {
    hide HeapOk, Fresh;
    NoneInFresh(gm, s, b, e);
    FreshBounds(gm, s, b, e);
  }

  lemma NotOwnedRecord(gm: int, unit: int, s: Snap, s2: Snap, y: Sys, i: nat)
    requires HeapOk(gm, s) && HeapOk(gm, s2) && ListOk(unit, s, y) && i < |s.segs|
    requires i > 0 ==> RecordChunk(y, i) in s2.chunks && s2.chunks[RecordChunk(y, i)] == Chunk(RECORD_SIZE, Record)
    ensures !Owned(s, RecordChunk(y, i)) && !Owned(s2, RecordChunk(y, i))
  {
    hide HeapOk, RecordAt;
    if i > 0 {
      RecordSelf(gm, unit, s, y, i - 1);
    } else {
      NothingAtZero(gm, s);
      NothingAtZero(gm, s2);
    }
  }

  /** sp->base = tbase; sp->size += tsize. */
  method WidenSegment(M: MallocState, sp: int, tbase: int, tsize: int, ghost i: nat, ghost y: Sys)
    requires HeapOk(M.gm, M.Now()) && BooksOk(M.gm, M.granularity, M.Now(), y) && i < |M.segs| && sp == SegPtr(M.gm, y.recs, i)
    requires M.segBase == y.base && M.segSize == y.size && M.segMapped == y.isMapped && M.segNext == y.next
    requires M.segs[i].base == tbase + tsize && tsize > 0
    modifies M`mem, M`segBase, M`segSize
    ensures HeapOk(M.gm, M.Now()) && Keeps(old(M.Now()), M.Now(), {RecordChunk(y, i)}) && LooseSet(M.Now()) == LooseSet(old(M.Now()))
    ensures var sg := M.segs[i];
      i > 0 ==> i <= |y.recs| && RecordSays(M.mem, y.recs[i - 1], Segment(tbase, End(sg) - tbase, sg.mapped), RecPtr(y.recs, i))
    ensures if i == 0 then M.segBase == tbase && M.segSize == y.size + tsize else M.segBase == y.base && M.segSize == y.size
  {
    hide HeapOk, BooksOk, Keeps, LooseSet, RecordSays;
    ghost var s := M.Now();
    EntrySays(M, y, i);
    if sp == M.gm {
      KeepsSameBut(s, {RecordChunk(y, i)});
      M.segBase := tbase;
      M.segSize := M.segSize + tsize;
    } else {
      M.mem := M.mem[sp := tbase][sp + 8 := Rd(M.mem, sp + 8) + tsize];
      RecordRewritten(M.gm, M.granularity, s, M.Now(), y, i, tbase, tsize);
    }
  }

  /** What the two writes before the case analysis of prepend_alloc have done. */
  ghost predicate HeadDone(gm: int, unit: int, s: Snap, sA: Snap, sB: Snap, y: Sys, i: nat, b: int, nb: int) {
    && i < |s.segs|
    && Keeps(s, sA, {RecordChunk(y, i)}) && sA.segs == s.segs && sA.chunks == s.chunks && SameEnd(s, sA)
    && (i > 0 ==> i <= |y.recs| && RecordSays(sA.mem, y.recs[i - 1], Segment(b, End(s.segs[i]) - b, s.segs[i].mapped), RecPtr(y.recs, i)))
    && Keeps(sA, sB, {}) && sB.segs == sA.segs && sB.chunks == sA.chunks && SameEnd(sA, sB)
    && PairReady(gm, sB, i, b, b + nb)
  }

  lemma HeadDoneIs(gm: int, unit: int, s: Snap, sA: Snap, sB: Snap, y: Sys, i: nat, b: int, d: int, nb: int)
    requires i < |s.segs| && s.segs[i].base == b + d && Fresh(gm, s, b, b + d) && Settled(s)
    requires sA == s.(mem := sA.mem) && HeapOk(gm, sA) && Keeps(s, sA, {RecordChunk(y, i)}) && LooseSet(sA) == LooseSet(s)
    requires i > 0 ==> i <= |y.recs| && RecordSays(sA.mem, y.recs[i - 1], Segment(b, End(s.segs[i]) - b, s.segs[i].mapped), RecPtr(y.recs, i))
    requires sB == sA.(mem := SetInuseHead(sA.mem, b, nb))
    requires MIN_CHUNK_SIZE <= nb <= d - MIN_CHUNK_SIZE && nb % 16 == 0
    ensures HeadDone(gm, unit, s, sA, sB, y, i, b, nb)
  {
    hide HeapOk, Settled, Fresh, Keeps, LooseSet, RecordSays, SetInuseHead;
    FreshSame(gm, s, sA, b, b + d);
    HeadWritten(gm, sA, sB, b, b + d, nb);
    FreshSame(gm, sA, sB, b, b + d);
    FreshBounds(gm, s, b, b + d);
    SettledIs(s);
    SettledIs(sB);
    KeepsNothing(s);
    PadSum16(b, nb);
  }

  lemma PadSum16(x: int, y: int)
    requires x % 16 == 0 && y % 16 == 0
    ensures (x + y) % 16 == 0
  {
    assert x + y == 16 * (x / 16 + y / 16);
  }

  /** sp->base and sp->size, and the head of the new chunk. */
  method PrependHead(M: MallocState, sp: int, tbase: int, tsize: int, nb: int, ghost i: nat, ghost y: Sys) returns (oldfirst: int, ghost sA: Snap)
    requires HeapOk(M.gm, M.Now()) && Settled(M.Now()) && BooksOk(M.gm, M.granularity, M.Now(), y) && Raised(M, y, tsize)
    requires i < |M.segs| && sp == SegPtr(M.gm, y.recs, i) && M.segs[i].base == tbase + tsize && tsize > 0
    requires Fresh(M.gm, M.Now(), tbase, tbase + tsize)
    requires MIN_CHUNK_SIZE <= nb <= tsize - MIN_CHUNK_SIZE && nb % 16 == 0
    modifies M`mem, M`segBase, M`segSize
    ensures HeadDone(M.gm, M.granularity, old(M.Now()), sA, M.Now(), y, i, tbase, nb) && oldfirst == M.segs[i].base
    ensures M.Accounts() == Widened(y, i, tbase, tsize)
  {
    hide HeapOk, Settled, BooksOk, Fresh, Keeps, LooseSet, Raised, HeadDone, RecordSays, SegPtr, Widened;
    ghost var s := M.Now();
    RaisedIs(M, y, tsize);
    oldfirst := BaseOf(M, sp);
    EntrySays(M, y, i);
    WidenSegment(M, sp, tbase, tsize, i, y);
    sA := M.Now();
    WidenedIs(M, y, i, tbase, tsize);
    M.mem := SetInuseHead(M.mem, tbase, nb);
    HeadDoneIs(M.gm, M.granularity, s, sA, M.Now(), y, i, tbase, tsize, nb);
  }

  /** The case analysis of prepend_alloc: what the segment starts with takes in the rest of the new memory. */
  method PrependRest(M: MallocState, q: int, qsize: int, oldfirst: int, ghost i: nat, ghost b: int)
    requires PairReady(M.gm, M.Now(), i, b, q) && oldfirst == M.segs[i].base && qsize == oldfirst - q
    modifies M`mem, M`smallmap, M`treemap, M`small, M`trees, M`chunks, M`segs, M`top, M`topsize, M`dv, M`dvsize
    ensures PairMerged(M.gm, old(M.Now()), M.Now(), i, b, q - b) && Settled(M.Now())
    ensures RestWent(old(M.Now()), M.Now(), oldfirst, q)
  {
    hide HeapOk, Settled, PairReady, PairMerged;
    RestFacts(M.gm, M.Now(), i, b, q);
    if oldfirst == M.top {
      PrependTop(M, q, qsize, i, b);
    } else if oldfirst == M.dv {
      PrependDv(M, q, qsize, i, b);
    } else {
      PrependOther(M, q, oldfirst, i, b);
    }
  }

  lemma RestFacts(gm: int, s: Snap, i: nat, b: int, q: int)
    requires PairReady(gm, s, i, b, q)
    ensures i < |s.segs| && var f := s.segs[i].base;
      && f in s.chunks && (f == s.top ==> s.topsize != 0) && (f == s.dv ==> s.dvsize != 0)
      && (f != s.top && f != s.dv ==> s.chunks[f].kind != Top && s.chunks[f].kind != Victim)
  {
    hide HeapOk, Settled, Fresh, Unpinned;
    FirstFacts(gm, s, i);
    NoDvTop(gm, s);
  }

  lemma HeadDoneReady(gm: int, unit: int, s: Snap, sA: Snap, sB: Snap, y: Sys, i: nat, b: int, nb: int)
    requires HeadDone(gm, unit, s, sA, sB, y, i, b, nb)
    ensures PairReady(gm, sB, i, b, b + nb) && sB.segs == s.segs
  {
    hide PairReady, Keeps, RecordSays;
  }

  lemma HeadBooks(gm: int, unit: int, s: Snap, sA: Snap, sB: Snap, s2: Snap, y: Sys, i: nat, b: int, d: int, nb: int)
    requires HeapOk(gm, s) && BooksOk(gm, unit, s, y) && HeadDone(gm, unit, s, sA, sB, y, i, b, nb)
    requires s.segs[i].base == b + d && Fresh(gm, s, b, b + d) && (s.segs[i].mapped ==> Whole(unit, d))
    requires PairMerged(gm, sB, s2, i, b, nb) && Settled(s2)
    ensures SysOk(gm, unit, s2, Widened(y, i, b, d))
    ensures SameBlocks(s, s2, {b}) && !Owned(s, b) && Owned(s2, b) && b in s2.chunks && s2.chunks[b] == Chunk(nb, Used)
    ensures s2.segs == s.segs[i := Segment(b, s.segs[i].size + d, s.segs[i].mapped)]
  {
    hide HeapOk, BooksOk, Settled, Keeps, Fresh, PairMerged, SameBlocks, RecordSays, PairReady, SysOk, Owned;
    SegmentSum(gm, unit, s, y, i, b, d);
    PrependedBooks(gm, unit, s, sA, sB, s2, y, i, b, nb);
    MergedAt(gm, sB, s2, i, b, nb);
  }

  lemma MergedAt(gm: int, s: Snap, s2: Snap, i: nat, b: int, nb: int)
    requires PairMerged(gm, s, s2, i, b, nb)
    ensures b in s2.chunks && s2.chunks[b] == Chunk(nb, Used)
    ensures i < |s.segs| && s2.segs == s.segs[i := Segment(b, End(s.segs[i]) - b, s.segs[i].mapped)]
  {
    hide HeapOk, Keeps;
  }

  /**
   * prepend_alloc: the request is served from the start of the new memory, and the rest becomes
   * part of the free space that the segment starts with.
   */
  method PrependAlloc(M: MallocState, sp: int, tbase: int, tsize: int, nb: int, ghost i: nat, ghost y: Sys) returns (p: int)
    requires HeapOk(M.gm, M.Now()) && Settled(M.Now()) && BooksOk(M.gm, M.granularity, M.Now(), y) && Raised(M, y, tsize)
    requires i < |M.segs| && sp == SegPtr(M.gm, y.recs, i) && M.segs[i].base == tbase + tsize
    requires Fresh(M.gm, M.Now(), tbase, tbase + tsize)
    requires MIN_CHUNK_SIZE <= nb <= tsize - MIN_CHUNK_SIZE && nb % 16 == 0
    requires M.segs[i].mapped ==> Whole(M.granularity, tsize)
    modifies M
    ensures p == tbase && SysOk(M.gm, M.granularity, M.Now(), M.Accounts()) && SameBlocks(old(M.Now()), M.Now(), {p})
    ensures !Owned(old(M.Now()), p) && Owned(M.Now(), p) && p in M.chunks && M.chunks[p] == Chunk(nb, Used)
    ensures M.segs == old(M.segs)[i := Segment(tbase, old(M.segs)[i].size + tsize, old(M.segs)[i].mapped)]
    ensures RestWent(old(M.Now()), M.Now(), tbase + tsize, tbase + nb)
    ensures M.footprint == old(M.footprint) && M.noncontiguous == old(M.noncontiguous)
    ensures M.trimCheck == old(M.trimCheck) && M.releaseChecks == old(M.releaseChecks)
  {
    hide HeapOk, Settled, BooksOk, Fresh, SameBlocks, Raised, Owned, SysOk, PairMerged, PairReady, HeadDone, SegPtr, Widened;
    ghost var s := M.Now();
    ghost var sA;
    var oldfirst;
    p := tbase;
    oldfirst, sA := PrependHead(M, sp, tbase, tsize, nb, i, y);
    ghost var sB := M.Now();
    HeadDoneReady(M.gm, M.granularity, s, sA, sB, y, i, p, nb);
    PrependRest(M, p + nb, oldfirst - p - nb, oldfirst, i, p);
    HeadBooks(M.gm, M.granularity, s, sA, sB, M.Now(), y, i, p, tsize, nb);
  }

  lemma NoDvTop(gm: int, s: Snap)
    requires HeapOk(gm, s)
    ensures s.dvsize == 0 ==> s.dv == 0
    ensures s.topsize == 0 ==> s.top == 0
  {
    hide Tags, BinsOk, StateApart, Covers;
  }

  lemma HeadWritten(gm: int, s: Snap, s': Snap, b: int, e: int, nb: int)
    requires HeapOk(gm, s) && Fresh(gm, s, b, e) && e - b >= MIN_CHUNK_SIZE && s' == s.(mem := SetInuseHead(s.mem, b, nb))
    ensures HeapOk(gm, s') && Keeps(s, s', {}) && LooseSet(s') == LooseSet(s) && Rd(s'.mem, b + HEAD) == nb + 3
  {
    hide HeapOk, Fresh, Keeps, LooseSet;
    FreshWrite(gm, s, s', b, e);
  }

  lemma SegmentSum(gm: int, unit: int, s: Snap, y: Sys, i: nat, b: int, d: int)
    requires BooksOk(gm, unit, s, y) && i < |s.segs| && s.segs[i].base == b + d
    requires s.segs[i].mapped ==> Whole(unit, d)
    ensures s.segs[i].mapped ==> Whole(unit, End(s.segs[i]) - b)
  {
    hide MapsOk, CountOk, RecordAt;
    if s.segs[i].mapped {
      MultipleSum(s.segs[i].size, d, unit);
    }
  }

  lemma WidenedIs(M: MallocState, y: Sys, i: nat, b: int, d: int)
    requires M.recs == y.recs && M.maps == y.maps && M.segMapped == y.isMapped && M.segNext == y.next
    requires M.noncontiguous == y.noncontiguous
    requires M.footprint == Counted(y, d).footprint && M.maxFootprint == Counted(y, d).maxFootprint
    requires if i == 0 then M.segBase == b && M.segSize == y.size + d else M.segBase == y.base && M.segSize == y.size
    ensures M.Accounts() == Widened(y, i, b, d)
  {
  }
}
