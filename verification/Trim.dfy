/** release_unused_segments and sys_trim: memory goes back to the system. */
module Trim {
  import opened Words
  import opened BinIndex
  import opened TreeMemory
  import opened Chunks
  import opened HeapState
  import opened Heap
  import opened Steps
  import opened HeapOps
  import opened Malloc
  import opened Consolidate
  import opened Growth
  import opened Segments
  import opened SysAlloc
  import opened Morecore
  import Invariant

  // ---------- a segment that holds nothing but one free chunk ----------

  /** What release_unused_segments tests: the first chunk is free and reaches to the record. */
  ghost predicate Empty(s: Snap, i: nat) {
    i < |s.segs| && EmptyAt(s.chunks, s.segs[i])
  }

  ghost predicate EmptyAt(cs: ChunkMap, sg: Segment) {
    sg.base in cs && Free(cs[sg.base].kind) && sg.base + cs[sg.base].size >= End(sg) - TOP_FOOT_SIZE
  }

  /** Segment i is one that the walk returns to the system, if the system takes it. */
  ghost predicate Goes(s: Snap, i: nat, unmapped: bool) {
    i < |s.segs| && s.segs[i].mapped && Empty(s, i) && unmapped
  }

  /** Then the segment is that chunk, its own record, and the fenceposts. */
  lemma EmptyHolds(gm: int, unit: int, s: Snap, y: Sys, i: nat)
    requires HeapOk(gm, s) && BooksOk(gm, unit, s, y) && 0 < i && Empty(s, i)
    ensures var b, e, c := s.segs[i].base, End(s.segs[i]), RecordChunk(y, i);
      && |s.segs| == |y.recs| + 1 && c == b + s.chunks[b].size && c + TOP_FOOT_SIZE == e && b < c
      && c in s.chunks && s.chunks[c] == Chunk(RECORD_SIZE, Record)
      && c + RECORD_SIZE in s.chunks && s.chunks[c + RECORD_SIZE].kind == Fence
      && (forall x :: x in s.chunks && b <= x < e ==> x == b || x == c || x == c + RECORD_SIZE)
  {
    hide BinsOk, Specials, StateApart, Covers, MapsOk, CountOk, RecordAt, TagAt;
    RecordSelf(gm, unit, s, y, i - 1);
    var b, e, c := s.segs[i].base, End(s.segs[i]), RecordChunk(y, i);
    assert Before(b, s.chunks[b], c);
    PositiveChunk(gm, s, b);
    forall x | x in s.chunks && b <= x < e ensures x == b || x == c || x == c + RECORD_SIZE {
      PositiveChunk(gm, s, x);
      Beside(gm, s, b, x);
      Beside(gm, s, c, x);
      Beside(gm, s, c + RECORD_SIZE, x);
    }
  }

  lemma Beside(gm: int, s: Snap, p: int, q: int)
    requires HeapOk(gm, s) && p in s.chunks && q in s.chunks
    ensures p == q || p + Extent(s.chunks[p]) <= q || q + Extent(s.chunks[q]) <= p
  {
    hide BinsOk, Specials, StateApart, Covers, TagAt;
    ChunksApart(s.mem, s.chunks, p, q);
  }

  lemma PositiveChunk(gm: int, s: Snap, x: int)
    requires HeapOk(gm, s) && x in s.chunks
    ensures Extent(s.chunks[x]) >= 16
  {
    hide BinsOk, Specials, StateApart, Covers;
    assert TagAt(s.mem, s.chunks, x);
  }

  /** What the code reads at the first chunk of a segment other than the first. */
  lemma FirstOfSegment(gm: int, unit: int, s: Snap, y: Sys, i: nat)
    requires SysOk(gm, unit, s, y) && 0 < i < |s.segs|
    ensures var b := s.segs[i].base;
      && b in s.chunks && b > 0
      && (Rd(s.mem, b + HEAD) % 4 == 1 <==> Free(s.chunks[b].kind))
      && (Free(s.chunks[b].kind) ==> ChunkSize(s.mem, b) == s.chunks[b].size)
      && (Free(s.chunks[b].kind) ==> if b == s.dv then s.chunks[b] == Chunk(s.dvsize, Victim) && s.dvsize != 0 else s.chunks[b].kind == Binned)
  {
    hide HeapOk, MapsOk, CountOk, RecordAt, LooseSet, Settled;
    FirstFacts(gm, s, i);
    SegmentsDiffer(gm, unit, s, y, i);
    FirstNotTop(gm, s, i);
    FirstSize(gm, s, s.segs[i].base);
    NoDvTop(gm, s);
    NoDv(gm, s);
    SettledKinds(s, s.segs[i].base);
  }

  lemma SettledKinds(s: Snap, p: int)
    requires Settled(s) && p in s.chunks
    ensures s.chunks[p].kind != Loose
  {
    assert s.chunks[p].kind == Loose ==> p in LooseSet(s);
  }

  lemma FirstSize(gm: int, s: Snap, p: int)
    requires HeapOk(gm, s) && p in s.chunks
    ensures Free(s.chunks[p].kind) ==> ChunkSize(s.mem, p) == s.chunks[p].size
  {
    hide BinsOk, Specials, StateApart, Covers;
    assert TagAt(s.mem, s.chunks, p);
    TagBits(s.chunks[p].size);
  }

  lemma FirstNotTop(gm: int, s: Snap, i: nat)
    requires HeapOk(gm, s) && 0 < i < |s.segs| && (s.segs[i].base <= s.top < End(s.segs[i]) ==> i == 0)
    ensures s.segs[i].base in s.chunks && s.chunks[s.segs[i].base].kind != Top
  {
    hide Tags, BinsOk, StateApart;
    assert Started(s.chunks, s.segs[i]);
  }

  /** The chunk of an empty segment has left its bin, or is no longer dv. */
  ghost predicate Vacated(gm: int, s: Snap, s1: Snap, b: int) {
    && HeapOk(gm, s1) && Keeps(s, s1, {}) && LooseSet(s1) == {b} && s1.segs == s.segs && s1.top == s.top && s1.topsize == s.topsize
    && b in s.chunks && s1.chunks == s.chunks[b := Chunk(s.chunks[b].size, Loose)]
  }

  /** The segment is gone, but for the pointer of the entry before it. */
  ghost function WithoutSegment(s1: Snap, i: nat): Snap
    requires i < |s1.segs|
  {
    s1.(chunks := map x | x in s1.chunks && (x < s1.segs[i].base || x >= End(s1.segs[i])) :: s1.chunks[x],
        segs := s1.segs[..i] + s1.segs[i + 1..])
  }

  lemma EmptyShrunk(gm: int, unit: int, s: Snap, s1: Snap, y: Sys, i: nat)
    requires SysOk(gm, unit, s, y) && 0 < i && Empty(s, i) && Vacated(gm, s, s1, s.segs[i].base)
    ensures i <= |y.recs| && Shrunk(s1, WithoutSegment(s1, i), i, RecordChunk(y, i))
  {
    hide HeapOk, BooksOk, Keeps, Settled, LooseSet;
    EmptyHolds(gm, unit, s, y, i);
    DvApart(gm, s1, s.segs[i].base);
    DvKind(gm, s1);
  }

  lemma DvKind(gm: int, s: Snap)
    requires HeapOk(gm, s)
    ensures s.dvsize != 0 ==> s.dv in s.chunks && s.chunks[s.dv].kind == Victim
  {
    hide Tags, BinsOk, StateApart, Covers;
  }

  lemma EmptyGone(gm: int, unit: int, s: Snap, s1: Snap, y: Sys, i: nat)
    requires SysOk(gm, unit, s, y) && 0 < i && Empty(s, i) && Vacated(gm, s, s1, s.segs[i].base)
    ensures var s2, c := WithoutSegment(s1, i), RecordChunk(y, i);
      && HeapOk(gm, s2) && Keeps(s, s2, {c, c + RECORD_SIZE}) && LooseSet(s2) == {} && c !in s2.chunks && c + RECORD_SIZE !in s2.chunks
      && i <= |y.recs| && |s.segs| == |y.recs| + 1
  {
    hide HeapOk, BooksOk, Keeps, Settled, LooseSet, Shrunk;
    var s2, c := WithoutSegment(s1, i), RecordChunk(y, i);
    EmptyShrunk(gm, unit, s, s1, y, i);
    EmptyHolds(gm, unit, s, y, i);
    ShrinkHeap(gm, s1, s2, i, c);
    KeepsTrans(s, s1, s2, {}, {c, c + RECORD_SIZE}, {c, c + RECORD_SIZE});
    WithoutGone(s1, i, s.segs[i].base);
    WithoutGone(s1, i, c);
    WithoutGone(s1, i, c + RECORD_SIZE);
    LooseIn(s2, s.segs[i].base);
  }

  lemma WithoutGone(s1: Snap, i: nat, x: int)
    requires i < |s1.segs| && s1.segs[i].base <= x < End(s1.segs[i])
    ensures x !in WithoutSegment(s1, i).chunks
  {
  }

  lemma LooseIn(s: Snap, b: int)
    requires LooseSet(s) <= {b} && b !in s.chunks
    ensures LooseSet(s) == {}
  {
  }

  /** The entry before points past the segment. */
  lemma PointerMoved(gm: int, unit: int, s: Snap, s2: Snap, s3: Snap, y: Sys, i: nat)
    requires SysOk(gm, unit, s, y) && HeapOk(gm, s2) && 1 < i <= |y.recs| && |s.segs| == |y.recs| + 1
    requires var c := RecordChunk(y, i); Keeps(s, s2, {c, c + RECORD_SIZE})
    requires s3 == s2.(mem := s2.mem[y.recs[i - 2] + 16 := RecPtr(y.recs, i)])
    ensures var before := RecordChunk(y, i - 1);
      && HeapOk(gm, s3) && Keeps(s2, s3, {before}) && LooseSet(s3) == LooseSet(s2)
      && before in s3.chunks && s3.chunks[before] == Chunk(RECORD_SIZE, Record)
      && RecordSays(s3.mem, y.recs[i - 2], s.segs[i - 1], RecPtr(y.recs, i))
  {
    hide HeapOk, MapsOk, CountOk, Settled, SamePayload, LooseSet;
    var before, c := RecordChunk(y, i - 1), RecordChunk(y, i);
    assert ListOk(unit, s, y);
    hide ListOk;
    RecordSelf(gm, unit, s, y, i - 2);
    RecordSelf(gm, unit, s, y, i - 1);
    RecordsDiffer(gm, unit, s, y, i - 1, i - 2);
    RecordsDiffer(gm, unit, s, y, i - 2, i - 1);
    assert KeepsAt(s, s2, before);
    RecordWords(s.mem, s2.mem, y.recs[i - 2]);
    assert OwnerWrites(s2, s3, before);
    OwnerMayWrite(gm, s2, s3, before);
  }

  /** An empty segment has been returned to the system. */
  lemma SegmentReleased(gm: int, unit: int, s: Snap, s1: Snap, s3: Snap, y: Sys, i: nat)
    requires SysOk(gm, unit, s, y) && 0 < i && Empty(s, i) && Vacated(gm, s, s1, s.segs[i].base) && i <= |y.recs|
    requires var s2 := WithoutSegment(s1, i);
      s3 == if i == 1 then s2 else s2.(mem := s2.mem[y.recs[i - 2] + 16 := RecPtr(y.recs, i)])
    ensures SysOk(gm, unit, s3, Dropped(y, i, s.segs[i].size)) && SameBlocks(s, s3, {})
  {
    hide HeapOk, MapsOk, CountOk, Settled, LooseSet, Keeps, WithoutSegment, SameBlocks, ListOk, RecordSays;
    var s2, c, before := WithoutSegment(s1, i), RecordChunk(y, i), RecordChunk(y, i - 1);
    EmptyGone(gm, unit, s, s1, y, i);
    RecordSelf(gm, unit, s, y, i - 1);
    if i > 1 {
      PointerMoved(gm, unit, s, s2, s3, y, i);
      RecordSelf(gm, unit, s, y, i - 2);
    } else {
      KeepsSameBut(s2, {before});
      NothingAtZero(gm, s);
      NothingAtZero(gm, s3);
    }
    KeepsTrans(s, s2, s3, {c, c + RECORD_SIZE}, {before}, {c, c + RECORD_SIZE, before});
    WithoutIs(s1, i);
    assert Unlisted(s, s3, y, i);
    BooksDrop(gm, unit, s, s3, y, i);
    KeepsBlocks(s, s3, {c, c + RECORD_SIZE, before}, {});
    SettledIs(s3);
  }

  lemma WithoutIs(s1: Snap, i: nat)
    requires i < |s1.segs|
    ensures var s2 := WithoutSegment(s1, i); s2 == s1.(chunks := s2.chunks, segs := s1.segs[..i] + s1.segs[i + 1..])
  {
  }

  /** The part of the loop body that handles an empty segment: unmap it, or back out. */
  method ReleaseSegment(M: MallocState, pred: int, p: int, psize: int, size: int, next: int, unmapped: bool, ghost i: nat)
    returns (released: int)
    requires SysOk(M.gm, M.granularity, M.Now(), M.Accounts()) && 0 < i < |M.segs| && Empty(M.Now(), i) && |M.segs| == |M.recs| + 1
    requires p == M.segs[i].base && p in M.chunks && psize == M.chunks[p].size >= MIN_LARGE_SIZE && size == M.segs[i].size > 0
    requires if p == M.dv then M.chunks[p] == Chunk(M.dvsize, Victim) && M.dvsize != 0 else M.chunks[p].kind == Binned
    requires next == RecPtr(M.recs, i) && (pred == M.gm <==> i == 1) && (i > 1 ==> pred == M.recs[i - 2])
    modifies M`mem, M`smallmap, M`treemap, M`small, M`trees, M`chunks, M`dv, M`dvsize, M`segs, M`recs, M`segNext,
             M`footprint, M`maxFootprint
    ensures SysOk(M.gm, M.granularity, M.Now(), M.Accounts()) && SameBlocks(old(M.Now()), M.Now(), {})
    ensures M.footprint == old(M.footprint) - released && released == if unmapped then size else 0
    ensures SameOutside(old(M.chunks), M.chunks, p, p + size)
    ensures M.segs == if released == 0 then old(M.segs) else old(M.segs)[..i] + old(M.segs)[i + 1..]
    ensures M.recs == if released == 0 then old(M.recs) else old(M.recs)[..i - 1] + old(M.recs)[i..]
  {
    hide HeapOk, Settled, BooksOk, Keeps, SameBlocks, LooseSet, Empty, Vacated, SameOutside, SysOk;
    ghost var s, y := M.Now(), M.Accounts();
    SysParts(M.gm, M.granularity, s, y);
    Vacate(M, p, psize);
    if unmapped {
      released := size;
      GiveBack(M, pred, size, next, s, i);
    } else {
      released := 0;
      BackOut(M, p, psize, s, p + size);
    }
  }

  /** The empty segment is unmapped, and its entry leaves the list. */
  method GiveBack(M: MallocState, pred: int, size: int, next: int, ghost s: Snap, ghost i: nat)
    requires 0 < i < |s.segs| && SysOk(M.gm, M.granularity, s, M.Accounts()) && Empty(s, i) && |s.segs| == |M.recs| + 1
    requires Vacated(M.gm, s, M.Now(), s.segs[i].base) && size == s.segs[i].size > 0
    requires next == RecPtr(M.recs, i) && (pred == M.gm <==> i == 1) && (i > 1 ==> pred == M.recs[i - 2])
    modifies M`mem, M`chunks, M`segs, M`recs, M`segNext, M`footprint
    ensures SysOk(M.gm, M.granularity, M.Now(), M.Accounts()) && SameBlocks(s, M.Now(), {})
    ensures M.footprint == old(M.footprint) - size && SameOutside(s.chunks, M.chunks, s.segs[i].base, s.segs[i].base + size)
    ensures M.segs == s.segs[..i] + s.segs[i + 1..] && M.recs == old(M.recs)[..i - 1] + old(M.recs)[i..]
  {
    hide HeapOk, Settled, BooksOk, Keeps, SameBlocks, LooseSet, Empty, WithoutSegment, Vacated, SameOutside;
    ghost var s1, y := M.Now(), M.Accounts();
    VacatedIs(M.gm, s, s1, s.segs[i].base);
    WithoutIs(s1, i);
    DroppedOutside(s, s1, i, Chunk(s.chunks[s.segs[i].base].size, Loose));
    DropSegment(M, pred, size, next, s1, i);
    SegmentReleased(M.gm, M.granularity, s, s1, M.Now(), y, i);
    DroppedIs(M, s, y, i);
  }

  /** The system has refused, and the chunk goes to its bin. */
  method BackOut(M: MallocState, p: int, psize: int, ghost s: Snap, ghost e: int)
    requires SysOk(M.gm, M.granularity, s, M.Accounts()) && Vacated(M.gm, s, M.Now(), p)
    requires p < e && psize == s.chunks[p].size >= MIN_LARGE_SIZE
    modifies M`mem, M`treemap, M`trees, M`chunks
    ensures SysOk(M.gm, M.granularity, M.Now(), M.Accounts()) && SameBlocks(s, M.Now(), {})
    ensures SameOutside(s.chunks, M.chunks, p, e)
  {
    hide HeapOk, Settled, BooksOk, Keeps, SameBlocks, LooseSet, Vacated, SameOutside, SysOk;
    ghost var s1 := M.Now();
    VacatedIs(M.gm, s, s1, p);
    InsertLarge(M, p, psize);
    RekindOutside(s.chunks, p, Chunk(psize, Loose), Chunk(psize, Binned), e);
    BackInBin(M.gm, M.granularity, s, s1, M.Now(), M.Accounts(), p, psize);
  }

  /** The accounts, and the pointer of the entry before, without segment i. */
  method DropSegment(M: MallocState, pred: int, size: int, next: int, ghost s1: Snap, ghost i: nat)
    requires s1 == M.Now() && 0 < i < |M.segs| && |M.segs| == |M.recs| + 1
    modifies M`mem, M`chunks, M`segs, M`recs, M`segNext, M`footprint
    ensures var s2 := WithoutSegment(s1, i);
      && M.Now() == s1.(mem := if pred == M.gm then s1.mem else s1.mem[pred + 16 := next], chunks := s2.chunks,
                        segs := s1.segs[..i] + s1.segs[i + 1..])
      && M.Accounts() == old(M.Accounts()).(footprint := old(M.footprint) - size, recs := old(M.recs)[..i - 1] + old(M.recs)[i..],
                                            next := if pred == M.gm then next else old(M.segNext))
  {
    hide WithoutSegment;
    M.footprint := M.footprint - size;
    M.segs := M.segs[..i] + M.segs[i + 1..];
    M.recs := M.recs[..i - 1] + M.recs[i..];
    M.chunks := WithoutSegment(s1, i).chunks;
    if pred == M.gm {
      M.segNext := next;
    } else {
      M.mem := M.mem[pred + 16 := next];
    }
  }

  lemma DroppedOutside(s: Snap, s1: Snap, i: nat, c: Chunk)
    requires i < |s.segs| && s.segs[i].size > 0 && s1.segs == s.segs && s1.chunks == s.chunks[s.segs[i].base := c]
    ensures SameOutside(s.chunks, WithoutSegment(s1, i).chunks, s.segs[i].base, End(s.segs[i]))
  {
  }

  lemma RekindOutside(cs: ChunkMap, p: int, c: Chunk, d: Chunk, e: int)
    requires p < e
    ensures SameOutside(cs, cs[p := c][p := d], p, e)
  {
  }

  lemma VacatedIs(gm: int, s: Snap, s1: Snap, p: int)
    requires Vacated(gm, s, s1, p)
    ensures HeapOk(gm, s1) && s1.segs == s.segs && p in s1.chunks && s1.chunks[p] == Chunk(s.chunks[p].size, Loose)
    ensures p in s.chunks && s1.chunks == s.chunks[p := Chunk(s.chunks[p].size, Loose)]
    ensures s1.top == s.top && s1.topsize == s.topsize
  {
    hide HeapOk, Keeps, LooseSet;
  }

  /** One round of the loop of release_unused_segments. */
  method TryRelease(M: MallocState, pred: int, sp: int, unmapped: bool, ghost i: nat) returns (released: int)
    requires SysOk(M.gm, M.granularity, M.Now(), M.Accounts()) && Unit(M.granularity)
    requires 0 < i < |M.segs| && |M.segs| == |M.recs| + 1 && sp == SegPtr(M.gm, M.recs, i) && pred == SegPtr(M.gm, M.recs, i - 1)
    modifies M`mem, M`smallmap, M`treemap, M`small, M`trees, M`chunks, M`dv, M`dvsize, M`segs, M`recs, M`segNext,
             M`footprint, M`maxFootprint
    ensures SysOk(M.gm, M.granularity, M.Now(), M.Accounts()) && SameBlocks(old(M.Now()), M.Now(), {})
    ensures M.footprint == old(M.footprint) - released && old(M.segs)[i].size > 0
    ensures released == if Goes(old(M.Now()), i, unmapped) then old(M.segs)[i].size else 0
    ensures SameOutside(old(M.chunks), M.chunks, old(M.segs)[i].base, End(old(M.segs)[i]))
    ensures M.segs == if released == 0 then old(M.segs) else old(M.segs)[..i] + old(M.segs)[i + 1..]
    ensures M.recs == if released == 0 then old(M.recs) else old(M.recs)[..i - 1] + old(M.recs)[i..]
  {
    hide HeapOk, Settled, BooksOk, Keeps, SameBlocks, LooseSet, Empty, ChunkSize, SameOutside;
    ghost var s, y := M.Now(), M.Accounts();
    EntrySays(M, y, i);
    EntrySays(M, y, i - 1);
    BlocksRefl(s, {});
    released := 0;
    var base, size, next := BaseOf(M, sp), SizeOf(M, sp), NextOf(M, sp);
    FirstOfSegment(M.gm, M.granularity, s, y, i);
    SegmentPositive(M.gm, s, i);
    SameOutsideRefl(s.chunks, base, base + size);
    EmptyIff(s, i);
    if FlagOf(M, sp) == 1 {
      var p := base;
      var psize := ChunkSize(M.mem, p);
      if Rd(M.mem, p + HEAD) % 4 == 1 && p + psize >= base + size - TOP_FOOT_SIZE {
        MappedLarge(M.gm, M.granularity, s, y, i);
        released := ReleaseSegment(M, pred, p, psize, size, next, unmapped, i);
      }
    }
  }

  lemma DroppedIs(M: MallocState, s: Snap, y: Sys, i: nat)
    requires BooksOk(M.gm, M.granularity, s, y) && 1 <= i <= |y.recs| && |s.segs| == |y.recs| + 1 && s.segs[i].size > 0
    requires M.Accounts() == y.(footprint := y.footprint - s.segs[i].size, recs := y.recs[..i - 1] + y.recs[i..], next := M.segNext)
    requires M.segNext == if i == 1 then RecPtr(y.recs, 1) else y.next
    ensures M.Accounts() == Dropped(y, i, s.segs[i].size)
  {
    hide ListOk, MapsOk, SegBytes, MapBytes;
  }

  lemma BackInBin(gm: int, unit: int, s: Snap, s1: Snap, s2: Snap, y: Sys, p: int, z: int)
    requires SysOk(gm, unit, s, y) && Vacated(gm, s, s1, p) && HeapOk(gm, s2) && Keeps(s1, s2, {})
    requires s2.chunks == s1.chunks[p := Chunk(z, Binned)] && s2.segs == s1.segs && s2.top == s1.top && s2.topsize == s1.topsize
    ensures SysOk(gm, unit, s2, y) && SameBlocks(s, s2, {})
  {
    hide HeapOk, BooksOk, Keeps, SameBlocks, LooseSet;
    KeepsTrans(s, s1, s2, {}, {}, {});
    LooseAfter(s1, s2, p, z, Binned);
    SettledIs(s2);
    BooksKept(gm, unit, s, s2, y, {});
    KeepsBlocks(s, s2, {}, {});
  }

  lemma SameOutsideRefl(cs: ChunkMap, a: int, e: int)
    ensures SameOutside(cs, cs, a, e)
  {
  }

  lemma EmptyIff(s: Snap, i: nat)
    requires i < |s.segs| && s.segs[i].base in s.chunks
    ensures var b := s.segs[i].base;
      Empty(s, i) <==> Free(s.chunks[b].kind) && b + s.chunks[b].size >= s.segs[i].base + s.segs[i].size - TOP_FOOT_SIZE
  {
  }

  /** A mapped segment is at least a unit large, so its free chunk is a large one. */
  lemma MappedLarge(gm: int, unit: int, s: Snap, y: Sys, i: nat)
    requires SysOk(gm, unit, s, y) && Unit(unit) && 0 < i < |s.segs| && s.segs[i].mapped && Empty(s, i)
    ensures s.chunks[s.segs[i].base].size >= MIN_LARGE_SIZE && s.segs[i].size > 0
  {
    hide HeapOk, MapsOk, CountOk, RecordAt, Settled, TagAt;
    EmptyHolds(gm, unit, s, y, i);
    SegmentPositive(gm, s, i);
    AtLeastUnit(s.segs[i].size, unit);
  }

  lemma SegmentPositive(gm: int, s: Snap, i: nat)
    requires HeapOk(gm, s) && i < |s.segs|
    ensures s.segs[i].size > 0
  {
    hide Tags, BinsOk, Specials, StateApart;
    assert Started(s.chunks, s.segs[i]);
  }

  /** The free chunk leaves its bin, or stops being dv. */
  method Vacate(M: MallocState, p: int, psize: int)
    requires HeapOk(M.gm, M.Now()) && Settled(M.Now()) && p in M.chunks && M.chunks[p].size == psize && psize >= MIN_LARGE_SIZE
    requires if p == M.dv then M.chunks[p] == Chunk(M.dvsize, Victim) && M.dvsize != 0 else M.chunks[p].kind == Binned
    modifies M`mem, M`treemap, M`trees, M`chunks, M`dv, M`dvsize
    ensures Vacated(M.gm, old(M.Now()), M.Now(), p)
  {
    hide HeapOk, Settled, Keeps, LooseSet;
    ghost var s := M.Now();
    SettledIs(s);
    if p == M.dv {
      M.dv := 0;
      M.dvsize := 0;
      M.chunks := M.chunks[p := Chunk(psize, Loose)];
      Uncrown(M.gm, s, M.Now());
    } else {
      UnlinkLarge(M, p, psize);
    }
    LooseAfter(s, M.Now(), p, psize, Loose);
  }

  lemma ListShape(gm: int, unit: int, s: Snap, y: Sys)
    requires SysOk(gm, unit, s, y)
    ensures if s.segs == [] then y.recs == [] && y.next == 0 && s.topsize == 0
            else |s.segs| == |y.recs| + 1 && y.next == RecPtr(y.recs, 0)
  {
    hide HeapOk, MapsOk, CountOk, RecordAt, Settled;
  }

  /** What the walk over the list knows: pred and sp are neighbours. */
  ghost predicate AtEntry(M: MallocState, pred: int, sp: int, i: nat)
    reads M
  {
    if M.segs == [] then sp == 0 && i == 0
    else 0 < i <= |M.segs| && |M.segs| == |M.recs| + 1 && pred == SegPtr(M.gm, M.recs, i - 1)
         && sp == (if i < |M.segs| then SegPtr(M.gm, M.recs, i) else 0)
  }

  // ---------- which segments go ----------

  /** Of the first k segments, those that stay; the first one always does. */
  ghost function Staying(s: Snap, unmap: int -> bool, k: nat): seq<Segment>
    requires k <= |s.segs|
  {
    if k == 0 then []
    else Staying(s, unmap, k - 1) + (if k > 1 && Goes(s, k - 1, unmap(k - 1)) then [] else [s.segs[k - 1]])
  }

  /** The bytes of the others. */
  ghost function Returned(s: Snap, unmap: int -> bool, k: nat): int
    requires k <= |s.segs|
  {
    if k == 0 then 0
    else Returned(s, unmap, k - 1) + (if k > 1 && Goes(s, k - 1, unmap(k - 1)) then s.segs[k - 1].size else 0)
  }

  /** The segments from k on are as empty, or not, as they were. */
  ghost predicate SameEmpty(s: Snap, cs: ChunkMap, k: nat) {
    forall j {:trigger EmptyAt(cs, s.segs[j])} :: k <= j < |s.segs| ==> (EmptyAt(cs, s.segs[j]) <==> EmptyAt(s.chunks, s.segs[j]))
  }

  lemma StillEmpty(gm: int, s: Snap, cs: ChunkMap, cs': ChunkMap, k: nat)
    requires HeapOk(gm, s) && k < |s.segs| && SameEmpty(s, cs, k) && SameOutside(cs, cs', s.segs[k].base, End(s.segs[k]))
    ensures SameEmpty(s, cs', k + 1)
  {
    hide Tags, BinsOk, Specials, StateApart;
    forall j | k + 1 <= j < |s.segs| ensures EmptyAt(cs', s.segs[j]) <==> EmptyAt(s.chunks, s.segs[j]) {
      assert EmptyAt(cs, s.segs[j]) <==> EmptyAt(s.chunks, s.segs[j]);
      assert Started(s.chunks, s.segs[j]) && Started(s.chunks, s.segs[k]);
    }
  }

  /** What the walk has done so far: it has looked at the segments before k. */
  ghost predicate Walked(s: Snap, unmap: int -> bool, k: nat, now: Snap, i: nat) {
    && k <= |s.segs| && now.segs == Staying(s, unmap, k) + s.segs[k..] && i == |Staying(s, unmap, k)| && SameEmpty(s, now.chunks, k)
  }

  lemma WalkedStart(s: Snap, unmap: int -> bool)
    ensures |s.segs| > 0 ==> Walked(s, unmap, 1, s, 1) && Returned(s, unmap, 1) == 0
    ensures |s.segs| == 0 ==> Walked(s, unmap, 0, s, 0) && Returned(s, unmap, 0) == 0
  {
    if |s.segs| > 0 {
      assert Staying(s, unmap, 0) == [] && Staying(s, unmap, 1) == [] + [s.segs[0]];
      assert [s.segs[0]] + s.segs[1..] == s.segs;
    }
  }

  /** One round of the walk, seen on the list of before. */
  lemma WalkedStep(gm: int, s: Snap, unmap: int -> bool, k: nat, now: Snap, i: nat, next: Snap)
    requires HeapOk(gm, s) && Walked(s, unmap, k, now, i) && 0 < k < |s.segs|
    requires i < |now.segs| && SameOutside(now.chunks, next.chunks, now.segs[i].base, End(now.segs[i]))
    requires next.segs == if Goes(now, i, unmap(k)) then now.segs[..i] + now.segs[i + 1..] else now.segs
    ensures now.segs[i] == s.segs[k] && (Goes(now, i, unmap(k)) <==> Goes(s, k, unmap(k)))
    ensures Walked(s, unmap, k + 1, next, if Goes(now, i, unmap(k)) then i else i + 1)
    ensures Returned(s, unmap, k + 1) == Returned(s, unmap, k) + (if Goes(now, i, unmap(k)) then s.segs[k].size else 0)
  {
    hide HeapOk, SameOutside, EmptyAt;
    var before := Staying(s, unmap, k);
    assert now.segs[i] == s.segs[k];
    assert EmptyAt(now.chunks, s.segs[k]) <==> EmptyAt(s.chunks, s.segs[k]);
    StillEmpty(gm, s, now.chunks, next.chunks, k);
    assert s.segs[k..] == [s.segs[k]] + s.segs[k + 1..];
    if Goes(now, i, unmap(k)) {
      assert Staying(s, unmap, k + 1) == before;
      assert next.segs == before + s.segs[k + 1..];
    } else {
      assert Staying(s, unmap, k + 1) == before + [s.segs[k]];
      assert next.segs == before + [s.segs[k]] + s.segs[k + 1..];
    }
  }

  /**
   * release_unused_segments: the segments behind the first that are mapped, hold nothing but free
   * space, and that the system takes back when they are reached, leave the list; no other one does,
   * and not a byte of a block or of a record that is still in the list goes with them.
   */
  method ReleaseUnusedSegments(M: MallocState, unmap: int -> bool) returns (released: int)
    requires SysOk(M.gm, M.granularity, M.Now(), M.Accounts()) && Unit(M.granularity)
    modifies M
    ensures SysOk(M.gm, M.granularity, M.Now(), M.Accounts()) && SameBlocks(old(M.Now()), M.Now(), {})
    ensures M.segs == Staying(old(M.Now()), unmap, |old(M.segs)|)
    ensures released == Returned(old(M.Now()), unmap, |old(M.segs)|) >= 0 && M.footprint == old(M.footprint) - released
    ensures M.releaseChecks == if |old(M.segs)| > 4096 then |old(M.segs)| - 1 else 4095
    ensures M.top == old(M.top) && M.topsize == old(M.topsize) && M.trimCheck == old(M.trimCheck)
  {
    hide HeapOk, Settled, BooksOk, SysOk, SameBlocks, SegPtr, AtEntry, Staying, Returned, Walked, Goes, SameOutside;
    ghost var s := M.Now();
    SysParts(M.gm, M.granularity, s, M.Accounts());
    released := 0;
    var nsegs := 0;
    var pred, sp := M.gm, M.segNext;
    ghost var i := if s.segs == [] then 0 else 1;
    ghost var k := i;
    BlocksRefl(s, {});
    StartOfList(M);
    WalkedStart(s, unmap);
    while sp != 0
      invariant SysOk(M.gm, M.granularity, M.Now(), M.Accounts()) && SameBlocks(s, M.Now(), {})
      invariant AtEntry(M, pred, sp, i) && (sp != 0 <==> i < |M.segs|)
      invariant Walked(s, unmap, k, M.Now(), i) && k <= |s.segs| && |M.segs| - i == |s.segs| - k && (s.segs != [] ==> k >= 1)
      invariant released == Returned(s, unmap, k) >= 0 && M.footprint == old(M.footprint) - released
      invariant nsegs == if s.segs == [] then 0 else k - 1
      invariant M.top == old(M.top) && M.topsize == old(M.topsize) && M.trimCheck == old(M.trimCheck)
      decreases |M.segs| - i
    {
      ghost var s0, segs, recs := M.Now(), M.segs, M.recs;
      EntryNext(M, pred, sp, i);
      var next := NextOf(M, sp);
      nsegs := nsegs + 1;
      var freed := TryRelease(M, pred, sp, unmap(nsegs), i);
      BlocksTrans(s, s0, M.Now(), {}, {}, {});
      WalkedStep(M.gm, s, unmap, k, s0, i, M.Now());
      AfterEntry(M, segs, recs, pred, sp, next, i, freed != 0);
      released := released + freed;
      k := k + 1;
      if freed != 0 {
        sp := pred;
      }
      if freed == 0 { i := i + 1; }
      pred := sp;
      sp := next;
    }
    WalkedEnd(s, unmap, k, M.Now(), i);
    M.releaseChecks := if nsegs > MAX_RELEASE_CHECK_RATE then nsegs else MAX_RELEASE_CHECK_RATE;
  }

  lemma WalkedEnd(s: Snap, unmap: int -> bool, k: nat, now: Snap, i: nat)
    requires Walked(s, unmap, k, now, i) && k == |s.segs|
    ensures now.segs == Staying(s, unmap, |s.segs|)
  {
    assert s.segs[k..] == [];
  }

  lemma StartOfList(M: MallocState)
    requires SysOk(M.gm, M.granularity, M.Now(), M.Accounts())
    ensures var i := if M.segs == [] then 0 else 1;
      AtEntry(M, M.gm, M.segNext, i) && (M.segNext != 0 <==> i < |M.segs|)
  {
    hide HeapOk, BooksOk, Settled;
    ListShape(M.gm, M.granularity, M.Now(), M.Accounts());
    if |M.segs| > 1 {
      EntrySays(M, M.Accounts(), 1);
    }
  }

  lemma EntryNext(M: MallocState, pred: int, sp: int, i: nat)
    requires SysOk(M.gm, M.granularity, M.Now(), M.Accounts()) && AtEntry(M, pred, sp, i) && i < |M.segs|
    ensures 0 < i && |M.segs| == |M.recs| + 1 && sp == SegPtr(M.gm, M.recs, i) && pred == SegPtr(M.gm, M.recs, i - 1)
    ensures NextOf(M, sp) == (if i + 1 < |M.segs| then SegPtr(M.gm, M.recs, i + 1) else 0)
    ensures i + 1 < |M.segs| ==> SegPtr(M.gm, M.recs, i + 1) != 0
  {
    hide HeapOk, BooksOk, Settled;
    EntrySays(M, M.Accounts(), i);
    if i + 1 < |M.segs| {
      EntrySays(M, M.Accounts(), i + 1);
    }
  }

  lemma AfterEntry(M: MallocState, segs: seq<Segment>, recs: seq<int>, pred: int, sp: int, next: int, i: nat, gone: bool)
    requires 0 < i < |segs| && |segs| == |recs| + 1 && pred == SegPtr(M.gm, recs, i - 1) && sp == SegPtr(M.gm, recs, i)
    requires if i + 1 < |segs| then next == SegPtr(M.gm, recs, i + 1) != 0 else next == 0
    requires M.segs == if gone then segs[..i] + segs[i + 1..] else segs
    requires M.recs == if gone then recs[..i - 1] + recs[i..] else recs
    ensures |M.segs| == if gone then |segs| - 1 else |segs|
    ensures AtEntry(M, if gone then pred else sp, next, if gone then i else i + 1)
    ensures next != 0 <==> i + 1 < |segs|
  {
  }

  // ---------- sys_trim ----------

  /** No record is in the segment of top, so that it is never pinned by one. */
  lemma NotPinned(M: MallocState, i: nat)
    requires SysOk(M.gm, M.granularity, M.Now(), M.Accounts()) && i < |M.segs|
    ensures !(M.segBase <= SegPtr(M.gm, M.recs, i) < M.segBase + M.segSize)
  {
    hide HeapOk, BooksOk, Settled, RecordSays;
    ListShape(M.gm, M.granularity, M.Now(), M.Accounts());
    HeadIs(M.gm, M.granularity, M.Now(), M.Accounts());
    if i == 0 {
      StateOutside(M.gm, M.Now());
    } else {
      RecordInOwn(M.gm, M.granularity, M.Now(), M.Accounts(), i);
    }
  }

  lemma HeadIs(gm: int, unit: int, s: Snap, y: Sys)
    requires SysOk(gm, unit, s, y) && s.segs != []
    ensures s.segs[0] == Segment(y.base, y.size, y.isMapped) && s.topsize != 0 && TopEndOf(s) == End(s.segs[0])
    ensures s.segs[0].base <= s.top && (y.isMapped ==> Whole(unit, y.size)) && |s.segs| == |y.recs| + 1
    ensures y.footprint <= y.maxFootprint
  {
    hide HeapOk, MapsOk, RecordAt, Settled, SegBytes, MapBytes;
    assert y.isMapped ==> s.segs[0].mapped;
  }

  lemma RecordInOwn(gm: int, unit: int, s: Snap, y: Sys, i: nat)
    requires SysOk(gm, unit, s, y) && 0 < i < |s.segs| && |s.segs| == |y.recs| + 1
    ensures SegPtr(gm, y.recs, i) < s.segs[0].base || SegPtr(gm, y.recs, i) >= End(s.segs[0])
  {
    hide Tags, BinsOk, Specials, StateApart, MapsOk, CountOk, RecordAt, Settled;
    RecordSelf(gm, unit, s, y, i - 1);
    assert s.segs[i] in s.segs;
    assert Started(s.chunks, s.segs[0]);
  }

  /** The state record is not inside any segment. */
  lemma StateOutside(gm: int, s: Snap)
    requires HeapOk(gm, s) && s.segs != [] && s.topsize != 0 && TopEndOf(s) == End(s.segs[0]) && s.segs[0].base <= s.top
    ensures !(s.segs[0].base <= gm < End(s.segs[0]))
  {
    hide BinsOk;
    if s.segs[0].base <= gm < End(s.segs[0]) {
      var p := Invariant.Tiling(gm, s, 0, gm);
      AwayOf(gm, s, p);
    }
  }

  lemma AwayOf(gm: int, s: Snap, p: int)
    requires HeapOk(gm, s) && p in s.chunks
    ensures p + Extent(s.chunks[p]) <= gm || gm + STATE_SIZE <= p
  {
    hide Tags, BinsOk, Specials, Covers;
    assert Clear(gm, p, s.chunks[p]);
  }

  /** has_segment_link: for the segment of top, which is the first one, the answer is no. */
  method HasSegmentLink(M: MallocState) returns (link: bool)
    requires SysOk(M.gm, M.granularity, M.Now(), M.Accounts()) && M.segs != []
    ensures !link
  {
    hide SysOk, SegPtr, NextOf;
    var sp := M.gm;
    ghost var i := 0;
    HeadPtr(M.gm, M.recs);
    while true
      invariant i < |M.segs| && sp == SegPtr(M.gm, M.recs, i)
      decreases |M.segs| - i
    {
      NotPinned(M, i);
      if M.segBase <= sp < M.segBase + M.segSize {
        return true;
      }
      NextEntry(M, i);
      sp := NextOf(M, sp);
      i := i + 1;
      if sp == 0 {
        return false;
      }
    }
  }

  lemma NextEntry(M: MallocState, i: nat)
    requires SysOk(M.gm, M.granularity, M.Now(), M.Accounts()) && i < |M.segs|
    ensures NextOf(M, SegPtr(M.gm, M.recs, i)) == (if i + 1 < |M.segs| then SegPtr(M.gm, M.recs, i + 1) else 0)
  {
    hide HeapOk, BooksOk, Settled, NextOf;
    EntrySays(M, M.Accounts(), i);
  }

  /** segment_holding. */
  method SegmentHolding(M: MallocState, a: int) returns (sp: int, ghost i: nat)
    requires SysOk(M.gm, M.granularity, M.Now(), M.Accounts()) && M.segs != []
    ensures sp == 0 ==> forall j :: 0 <= j < |M.segs| ==> !(M.segs[j].base <= a < End(M.segs[j]))
    ensures sp != 0 ==> i < |M.segs| && sp == SegPtr(M.gm, M.recs, i) && M.segs[i].base <= a < End(M.segs[i])
  {
    hide HeapOk, BooksOk, Settled, SegPtr, BaseOf, SizeOf, NextOf;
    sp, i := M.gm, 0;
    HeadPtr(M.gm, M.recs);
    EntrySays(M, M.Accounts(), 0);
    while sp != 0 && !(BaseOf(M, sp) <= a < BaseOf(M, sp) + SizeOf(M, sp))
      invariant if sp == 0 then i == |M.segs| else i < |M.segs| && sp == SegPtr(M.gm, M.recs, i)
      invariant forall j :: 0 <= j < i && j < |M.segs| ==> !(M.segs[j].base <= a < End(M.segs[j]))
      decreases |M.segs| - i
    {
      EntrySays(M, M.Accounts(), i);
      sp := NextOf(M, sp);
      i := i + 1;
      if i < |M.segs| { EntrySays(M, M.Accounts(), i); }
    }
    if sp != 0 { EntrySays(M, M.Accounts(), i); }
  }

  /**
   * What the system answers to sys_trim: whether it takes back the tail of a mapped segment, where
   * the break is, what an sbrk that lowers it returns and where the break is then, and which whole
   * segments it unmaps, by their place in the list.
   */
  datatype TrimAnswers = TrimAnswers(tail: bool, brk: int, sbrk: int -> int, lowered: int -> int, unmap: int -> bool)

  /** The break is lowered by no more than was asked for. */
  predicate LowersAtMost(os: TrimAnswers, x: int) {
    os.lowered(x) >= os.brk - x && os.lowered(x) % 16 == 0
  }

  ghost predicate HonestTrim(os: TrimAnswers) {
    forall x {:trigger LowersAtMost(os, x)} :: LowersAtMost(os, x)
  }

  /** The largest multiple of the unit that is less than x. */
  function UnitsBelow(x: int, unit: int): int
    requires unit > 0
  {
    (x - 1) / unit * unit
  }

  lemma UnitsBelowIs(x: int, unit: int)
    requires x > 0 && unit > 0
    ensures var e := UnitsBelow(x, unit);
      0 <= e < x <= e + unit && e % unit == 0 && forall z {:trigger z % unit} :: z % unit == 0 && z < x ==> z <= e
  {
    var q := (x - 1) / unit;
    FloorOf(x - 1, unit);
    MulNonNegative(q, unit);
    ModUnique(q * unit, unit, q, 0);
    assert UnitsBelow(x, unit) == q * unit;
    hide UnitsBelow;
    forall z {:trigger z % unit} | z % unit == 0 && z < x ensures z <= q * unit { AtMostUnits(x, z, unit, q); }
  }

  lemma AtMostUnits(x: int, z: int, unit: int, q: int)
    requires unit > 0 && z % unit == 0 && z < x <= q * unit + unit
    ensures z <= q * unit
  {
    QuotientOf(z, unit);
    var p := z / unit;
    if p > q { MulMonotonic(q + 1, p, unit); }
  }

  /** What sys_trim computes is that, for what top has beyond pad. */
  lemma ExtraIs(topsize: int, pad: int, unit: int)
    requires Unit(unit) && 0 <= pad < topsize < ADDRESS_LIMIT
    ensures var extra := ((topsize - pad + (unit - 1)) / unit - 1) * unit;
      extra == UnitsBelow(topsize - pad, unit) && 0 <= extra < topsize - pad && extra % unit == 0 && extra % 16 == 0
  {
    var x := topsize - pad;
    UnitsBelowIs(x, unit);
    OneMoreUnit(x - 1, unit);
    MultipleOfMultiple(UnitsBelow(x, unit), unit);
  }

  lemma OneMoreUnit(x: int, unit: int)
    requires unit > 0
    ensures (x + unit) / unit == x / unit + 1
  {
    var q, p := x / unit, (x + unit) / unit;
    FloorOf(x, unit);
    FloorOf(x + unit, unit);
    if p > q + 1 { MulMonotonic(q + 2, p, unit); }
    if p < q + 1 { MulMonotonic(p, q, unit); }
  }

  lemma FloorOf(x: int, a: int)
    requires a > 0
    ensures a * (x / a) <= x < a * (x / a) + a
  {
  }

  lemma MulNonNegative(a: int, b: int)
    requires a >= 0 && b >= 0
    ensures a * b >= 0
  {
  }

  /** The units at the end of top go back to the system. */
  lemma TopLowered(gm: int, unit: int, s: Snap, s2: Snap, y: Sys, d: int)
    requires SysOk(gm, unit, s, y) && s.segs != [] && 0 < d <= s.topsize - 16 && d % 16 == 0 && (y.isMapped ==> d % unit == 0)
    requires s2 == s.(mem := TopWords(s.mem, s.top, s.topsize - d), topsize := s.topsize - d,
                      segs := s.segs[0 := Segment(s.segs[0].base, s.segs[0].size - d, s.segs[0].mapped)],
                      chunks := s.chunks[s.top := Chunk(s.topsize - d, Top)])
    ensures SysOk(gm, unit, s2, y.(size := y.size - d, footprint := y.footprint - d)) && SameBlocks(s, s2, {})
  {
    hide HeapOk, BooksOk, Keeps, Settled, TopResized, SameBlocks, LooseSet, TopWords;
    HeadIs(gm, unit, s, y);
    HeadSegment(gm, unit, s, y);
    TopEndBound(gm, s);
    LoweredEven(End(s.segs[0]), d);
    ResizedIs0(s, s2, -d);
    NoRoom(gm, s, -d);
    ResizeTop(gm, s, s2, -d);
    if y.isMapped { WholeLess(unit, y.size, d); }
    BooksResize(gm, unit, s, s2, y, -d);
    KeepsBlocks(s, s2, {}, {});
    SettledIs(s);
    SettledIs(s2);
  }

  lemma TopEndBound(gm: int, s: Snap)
    requires HeapOk(gm, s) && s.topsize != 0
    ensures TopEndOf(s) <= ADDRESS_LIMIT
  {
    hide HeapOk, Region, Unpinned;
    TopRegion(gm, s);
  }

  lemma NoRoom(gm: int, s: Snap, d: int)
    requires d <= 0
    ensures RoomBehind(gm, s, d)
  {
  }

  lemma LoweredEven(e: int, d: int)
    requires e % 16 == 0 && d % 16 == 0
    ensures (-d) % 16 == 0 && (e + -d) % 16 == 0
  {
    QuotientOf(e, 16);
    QuotientOf(d, 16);
    ModUnique(-d, 16, -(d / 16), 0);
    ModUnique(e + -d, 16, e / 16 - d / 16, 0);
  }

  lemma WholeLess(unit: int, x: int, d: int)
    requires Whole(unit, x) && d % unit == 0
    ensures Whole(unit, x + -d)
  {
    QuotientOf(x, unit);
    QuotientOf(d, unit);
    ModUnique(x - d, unit, x / unit - d / unit, 0);
  }

  /** What the system takes of the extra bytes at the end of the segment of top, by its answers. */
  function Taken(y: Sys, extra: int, os: TrimAnswers): int {
    if y.isMapped then if os.tail then extra else 0
    else if os.brk == y.base + y.size && !Failed(os.sbrk(extra)) && os.lowered(extra) < os.brk then os.brk - os.lowered(extra)
    else 0
  }

  /**
   * How much the system takes back from the end of the segment of top. An extra of half the address
   * space, which the source cuts down, is not possible below ADDRESS_LIMIT.
   */
  method LowerTop(M: MallocState, extra: int, os: TrimAnswers) returns (released: int)
    requires SysOk(M.gm, M.granularity, M.Now(), M.Accounts()) && M.segs != [] && HonestTrim(os) && Unit(M.granularity)
    requires 0 <= extra < M.topsize && extra % M.granularity == 0 && extra % 16 == 0
    ensures released == Taken(M.Accounts(), extra, os)
    ensures 0 <= released <= extra && released % 16 == 0 && (M.segMapped ==> released % M.granularity == 0)
  {
    hide HeapOk, BooksOk, Settled, HonestTrim, BaseOf, SizeOf, FlagOf, SegPtr;
    ghost var s, y := M.Now(), M.Accounts();
    HeadIs(M.gm, M.granularity, s, y);
    SegmentsDiffer(M.gm, M.granularity, s, y, 0);
    released := 0;
    var sp;
    ghost var i;
    sp, i := SegmentHolding(M, M.top);
    SegmentsDiffer(M.gm, M.granularity, s, y, i);
    HeadPtr(M.gm, M.recs);
    EntrySays(M, y, 0);
    if FlagOf(M, sp) == 1 {
      var link := HasSegmentLink(M);
      if SizeOf(M, sp) >= extra && !link && os.tail {
        released := extra;
      }
    } else {
      var oldBr := os.brk;
      if oldBr == BaseOf(M, sp) + SizeOf(M, sp) {
        var relBr := os.sbrk(extra);
        var newBr := os.lowered(extra);
        if relBr != CMFAIL && newBr < oldBr {
          released := oldBr - newBr;
          LoweredBy(M.gm, M.granularity, s, y, os, extra);
        }
      }
    }
  }

  lemma LoweredBy(gm: int, unit: int, s: Snap, y: Sys, os: TrimAnswers, extra: int)
    requires SysOk(gm, unit, s, y) && s.segs != [] && HonestTrim(os) && os.brk == y.base + y.size
    ensures os.brk - os.lowered(extra) <= extra && (os.brk - os.lowered(extra)) % 16 == 0
  {
    hide HeapOk, BooksOk, Settled;
    HeadIs(gm, unit, s, y);
    HeadSegment(gm, unit, s, y);
    assert LowersAtMost(os, extra);
    PadEven(os.brk, os.lowered(extra));
  }

  /** The first part of sys_trim: whole units, but not so many that top keeps no more than pad bytes. */
  method TrimTop(M: MallocState, pad: int, os: TrimAnswers) returns (released: int)
    requires SysOk(M.gm, M.granularity, M.Now(), M.Accounts()) && HonestTrim(os) && Unit(M.granularity)
    requires TOP_FOOT_SIZE <= pad < M.topsize
    modifies M
    ensures SysOk(M.gm, M.granularity, M.Now(), M.Accounts()) && SameBlocks(old(M.Now()), M.Now(), {})
    ensures released == Taken(old(M.Accounts()), UnitsBelow(old(M.topsize) - pad, M.granularity), os) >= 0
    ensures M.footprint == old(M.footprint) - released && M.trimCheck == if released != 0 then M.trimThreshold else old(M.trimCheck)
    ensures M.top == old(M.top) && M.topsize == old(M.topsize) - released > pad
    ensures TopShorter(old(M.Now()), M.Now(), released) && M.releaseChecks == old(M.releaseChecks)
  {
    hide SysOk, HonestTrim, SameBlocks, TopWords, Taken, UnitsBelow, TopShorter;
    ghost var s, y := M.Now(), M.Accounts();
    TopHere(M.gm, M.granularity, s, y);
    HeadIs(M.gm, M.granularity, s, y);
    BlocksRefl(s, {});
    var unit := M.granularity;
    ExtraIs(M.topsize, pad, unit);
    var extra := ((M.topsize - pad + (unit - 1)) / unit - 1) * unit;
    released := LowerTop(M, extra, os);
    TopSame(M.gm, M.granularity, s, y);
    if released != 0 {
      M.segSize := M.segSize - released;
      M.footprint := M.footprint - released;
      PlaceTop(M, M.top, M.topsize - released, M.segs[0 := Segment(M.segs[0].base, M.segs[0].size - released, M.segs[0].mapped)]);
      TopLowered(M.gm, M.granularity, s, M.Now(), y, released);
      TopShorterIs(s, M.Now(), released);
    }
  }

  lemma TopSame(gm: int, unit: int, s: Snap, y: Sys)
    requires SysOk(gm, unit, s, y) && s.topsize != 0 && s.segs != []
    ensures TopShorter(s, s, 0) && s.top in s.chunks
  {
    hide HeapOk, BooksOk, Settled;
    DvFacts(gm, s);
  }

  lemma TopShorterIs(s: Snap, s': Snap, d: int)
    requires s.segs != [] && s'.segs == s.segs[0 := Segment(s.segs[0].base, s.segs[0].size - d, s.segs[0].mapped)]
    requires s.top in s.chunks && s'.chunks == s.chunks[s.top := Chunk(s.topsize - d, Top)]
    ensures TopShorter(s, s', d)
  {
  }

  /** Top, and the segment that it ends, are d bytes shorter. */
  ghost predicate TopShorter(s: Snap, s': Snap, d: int) {
    && s.segs != [] && s'.segs == s.segs[0 := Segment(s.segs[0].base, s.segs[0].size - d, s.segs[0].mapped)]
    && s.top in s.chunks && s'.chunks == s.chunks[s.top := Chunk(s.topsize - d, Top)]
  }

  lemma TopHere(gm: int, unit: int, s: Snap, y: Sys)
    requires SysOk(gm, unit, s, y)
    ensures 0 <= s.topsize < ADDRESS_LIMIT && (s.topsize != 0 ==> s.segs != [] && s.top != 0) && (s.topsize == 0 ==> s.top == 0)
  {
    hide HeapOk, BooksOk, Settled;
    TopSmall(gm, s);
    if s.topsize != 0 { HeadSegment(gm, unit, s, y); }
  }

  /** What sys_trim takes from top. */
  ghost function FromTop(unit: int, s: Snap, y: Sys, pad: int, os: TrimAnswers): int
    requires unit > 0
  {
    if s.top == 0 || pad >= MAX_REQUEST || s.topsize <= pad + 80 then 0 else Taken(y, UnitsBelow(s.topsize - pad - 80, unit), os)
  }

  /** What it takes in whole segments. */
  ghost function FromSegments(s: Snap, pad: int, os: TrimAnswers): int {
    if s.top == 0 || pad >= MAX_REQUEST then 0 else Returned(s, os.unmap, |s.segs|)
  }

  /** Behind the first, exactly the segments that stay are left. */
  ghost predicate OnlyStaying(s: Snap, unmap: int -> bool, segs: seq<Segment>) {
    var stay := Staying(s, unmap, |s.segs|);
    |segs| == |stay| > 0 && segs[1..] == stay[1..]
  }

  /** Shortening top does not change which segments go. */
  lemma SameReturned(gm: int, unit: int, s: Snap, s1: Snap, y: Sys, d: int, unmap: int -> bool, k: nat)
    requires SysOk(gm, unit, s, y) && s.topsize != 0 && TopShorter(s, s1, d) && k <= |s.segs|
    ensures |s1.segs| == |s.segs| && Returned(s1, unmap, k) == Returned(s, unmap, k)
    ensures k > 0 ==> |Staying(s, unmap, k)| >= 1 && Staying(s1, unmap, k) == [s1.segs[0]] + Staying(s, unmap, k)[1..]
  {
    hide SysOk, EmptyAt;
    if k == 1 {
      assert Staying(s, unmap, 0) == [] && Staying(s1, unmap, 0) == [];
      assert Staying(s, unmap, 1) == [s.segs[0]] && Staying(s1, unmap, 1) == [s1.segs[0]];
    } else if k > 1 {
      SameReturned(gm, unit, s, s1, y, d, unmap, k - 1);
      SameEmptyAt(gm, unit, s, s1, y, d, k - 1);
    }
  }

  lemma SameEmptyAt(gm: int, unit: int, s: Snap, s1: Snap, y: Sys, d: int, j: nat)
    requires SysOk(gm, unit, s, y) && s.topsize != 0 && TopShorter(s, s1, d) && 0 < j < |s.segs|
    ensures s1.segs[j] == s.segs[j] && (EmptyAt(s1.chunks, s.segs[j]) <==> EmptyAt(s.chunks, s.segs[j]))
  {
    hide HeapOk, BooksOk, Settled;
    SegmentsDiffer(gm, unit, s, y, j);
    SegmentPositive(gm, s, j);
  }

  /**
   * sys_trim: the end of top and unused segments go back to the system, exactly as far as its
   * answers let them. No block is touched, top keeps pad bytes and the room for a segment record,
   * and the footprint goes down by exactly what was released. Fruitless trimming is not tried again.
   */
  method SysTrim(M: MallocState, pad0: int, os: TrimAnswers) returns (freed: bool)
    requires SysOk(M.gm, M.granularity, M.Now(), M.Accounts()) && HonestTrim(os) && Unit(M.granularity) && pad0 >= 0
    modifies M
    ensures SysOk(M.gm, M.granularity, M.Now(), M.Accounts()) && SameBlocks(old(M.Now()), M.Now(), {})
    ensures M.top == old(M.top) && M.topsize == old(M.topsize) - FromTop(M.granularity, old(M.Now()), old(M.Accounts()), pad0, os)
    ensures old(M.footprint) - M.footprint
      == FromTop(M.granularity, old(M.Now()), old(M.Accounts()), pad0, os) + FromSegments(old(M.Now()), pad0, os) >= 0
    ensures freed <==> M.footprint < old(M.footprint)
    ensures M.topsize < old(M.topsize) ==> M.topsize > pad0 + 80
    ensures old(M.top) != 0 && pad0 < MAX_REQUEST ==>
      && OnlyStaying(old(M.Now()), os.unmap, M.segs)
      && M.releaseChecks == if |old(M.segs)| > 4096 then |old(M.segs)| - 1 else 4095
    ensures M.trimCheck ==
      if M.topsize < old(M.topsize) then M.trimThreshold
      else if old(M.top) != 0 && pad0 < MAX_REQUEST && !freed && M.topsize > old(M.trimCheck) then SIZE_T_MOD - 1
      else old(M.trimCheck)
  {
    hide SysOk, HonestTrim, SameBlocks, Taken, UnitsBelow, Returned, Staying, TopShorter;
    ghost var s, y := M.Now(), M.Accounts();
    BlocksRefl(s, {});
    TopHere(M.gm, M.granularity, s, y);
    var released := 0;
    if pad0 < MAX_REQUEST && M.top != 0 {
      var pad := pad0 + TOP_FOOT_SIZE;
      TopSame(M.gm, M.granularity, s, y);
      if M.topsize > pad {
        released := TrimTop(M, pad, os);
      }
      ghost var s1 := M.Now();
      SameReturned(M.gm, M.granularity, s, s1, y, released, os.unmap, |s.segs|);
      var more := ReleaseUnusedSegments(M, os.unmap);
      BlocksTrans(s, s1, M.Now(), {}, {}, {});
      released := released + more;
      if released == 0 && M.topsize > M.trimCheck {
        M.trimCheck := SIZE_T_MOD - 1;
      }
    }
    freed := released != 0;
  }
}
