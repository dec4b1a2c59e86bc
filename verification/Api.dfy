/** The entry points dlmalloc, dlfree, dlrealloc and dlmemalign, on the whole state. */
module Api {
  import opened Words
  import opened BinIndex
  import opened TreeMemory
  import opened Chunks
  import opened HeapState
  import opened Heap
  import opened Steps
  import opened HeapOps
  import opened Malloc
  import opened Consolidate
  import opened Realloc
  import opened Memalign
  import opened Growth
  import opened Segments
  import opened SysAlloc
  import opened Morecore
  import opened Trim

  /** The bytes of a block that its owner may use: chunksize minus overhead_for. */
  function Usable(c: Chunk): int {
    c.size - (if c.kind.Mapped? then 16 else CHUNK_OVERHEAD)
  }

  /**
   * Block p is new and has room for the request; every block that was there before is still there
   * with the same contents, and no other one is.
   */
  ghost predicate NewBlock(s: Snap, s': Snap, p: int, bytes: int) {
    && SameBlocks(s, s', {p}) && !Owned(s, p) && Owned(s', p) && p > 0 && p % 16 == 0 && Usable(s'.chunks[p]) >= bytes
  }

  /** The chunk is not a minimum chunk too large, unless it has a region of its own. */
  ghost predicate Tight(s: Snap, p: int, bytes: int) {
    p in s.chunks && (s.chunks[p].kind.Mapped? || s.chunks[p].size < Padded(bytes) + MIN_CHUNK_SIZE)
  }

  /** A block has been given back: every other block keeps its place and contents. */
  ghost predicate Freed(s: Snap, s': Snap, p: int) {
    SameBlocks(s, s', {p}) && !Owned(s', p)
  }

  /** The first n bytes of block p in m' are those of block q in m. */
  ghost predicate Copied(m: Mem, m': Mem, q: int, p: int, n: int) {
    forall w :: q + 16 <= w < q + 16 + n ==> Rd(m', w - q + p) == Rd(m, w)
  }

  /** Block q has become block p, which may be the same, with room for bytes bytes and the old contents. */
  ghost predicate Moved(s: Snap, s': Snap, q: int, p: int, bytes: int) {
    && SameBlocks(s, s', {q, p}) && Owned(s, q) && Owned(s', p) && (p != q ==> !Owned(s, p))
    && p > 0 && Usable(s'.chunks[p]) >= bytes && Copied(s.mem, s'.mem, q, p, Min(Usable(s.chunks[q]), bytes))
    && (p != q && Owned(s', q) ==> s'.chunks[q] == s.chunks[q])
  }

  // ---------- calls as steps ----------

  /** A call with its arguments and its result, as the program sees it; a result of 0 is a failure. */
  datatype Call =
    | Malloc(bytes: int, p: int)
    | Free(block: int, gone: bool)
    | Realloc(block: int, bytes: int, p: int, gone: bool)
    | Memalign(alignment: int, bytes: int, p: int)
    | Store(block: int)
    | Trim

  /** The block starts at a multiple of a power of two that is at least the alignment. */
  ghost predicate Aligned(p: int, alignment: int) {
    exists k: nat {:trigger Pow2(k)} :: alignment <= Pow2(k) && (p + 16) % Pow2(k) == 0
  }

  /** What a call does to the blocks of the program. */
  ghost predicate Effect(s: Snap, s': Snap, c: Call) {
    match c
    case Malloc(bytes, p) => if p == 0 then s' == s else NewBlock(s, s', p, bytes) && Tight(s', p, bytes)
    case Free(q, gone) => if gone then Owned(s, q) && Freed(s, s', q) else s' == s
    case Realloc(q, bytes, p, gone) =>
      if p == 0 then s' == s
      else Tight(s', p, bytes) &&
           if q == 0 then NewBlock(s, s', p, bytes) else Moved(s, s', q, p, bytes) && (p != q ==> (gone <==> !Owned(s', q)))
    case Memalign(alignment, bytes, p) =>
      if p == 0 then s' == s else NewBlock(s, s', p, bytes) && Aligned(p, alignment)
    case Store(p) => Owned(s, p) && SameBlocks(s, s', {p}) && s'.chunks == s.chunks
    case Trim => SameBlocks(s, s', {})
  }

  /** A call keeps the invariant and has its effect. */
  ghost predicate Step(gm: int, unit: int, s: Snap, s': Snap, y': Sys, c: Call) {
    SysOk(gm, unit, s', y') && Effect(s, s', c)
  }

  // ---------- dlmalloc ----------

  lemma ServedNew(gm: int, unit: int, s: Snap, s': Snap, y: Sys, p: int, bytes: int)
    requires SysOk(gm, unit, s, y) && Served(gm, s, s', p, Padded(bytes)) && SameEnd(s, s') && s'.segs == s.segs
    requires Chosen(s, p, Padded(bytes)) && 0 <= bytes < SIZE_T_MOD
    ensures SysOk(gm, unit, s', y) && NewBlock(s, s', p, bytes) && Tight(s', p, bytes)
  {
    hide HeapOk, Settled, BooksOk, Keeps, SamePayload, SameBlocks, NoFit;
    BooksKept(gm, unit, s, s', y, {p});
    KeepsBlocks(s, s', {p}, {p});
    PositiveSize(gm, s', p);
    TooBig(gm, s', p);
    PaddedRoom(bytes);
  }

  /** The chunk size for a request is the least multiple of 16, from 32 up, that leaves room for the head. */
  lemma PaddedRoom(bytes: int)
    requires 0 <= bytes < SIZE_T_MOD
    ensures Padded(bytes) >= MIN_CHUNK_SIZE && Padded(bytes) < SIZE_T_MOD
    ensures bytes < 0xFFFF_FFFF_FFFF_FF80 ==> Padded(bytes) >= bytes + 8 && Padded(bytes) % 16 == 0
    ensures bytes < 0xFFFF_FFFF_FFFF_FF80 ==> Padded(bytes) == 32 || Padded(bytes) - 16 < bytes + 8
    ensures bytes >= 0xFFFF_FFFF_FFFF_FF80 ==> Padded(bytes) == SIZE_T_MOD - 1
  {
  }

  lemma HandedNew(gm: int, s: Snap, s': Snap, p: int, bytes: int)
    requires HeapOk(gm, s') && Handed(s, s', p, Padded(bytes)) && p != 0 && 0 <= bytes < SIZE_T_MOD
    ensures NewBlock(s, s', p, bytes) && Tight(s', p, bytes)
  {
    hide HeapOk, SameBlocks;
    PaddedRoom(bytes);
    TooBig(gm, s', p);
  }

  lemma TooBig(gm: int, s: Snap, p: int)
    requires HeapOk(gm, s) && p in s.chunks
    ensures s.chunks[p].size < ADDRESS_LIMIT && p > 0
  {
    hide BinsOk, Specials, StateApart, Covers, AfterFree, Unpinned;
    assert TagAt(s.mem, s.chunks, p);
  }

  /** Nothing free can serve the request, and every way to get memory for it fails. */
  ghost predicate NoMemory(g: int, page: int, mmapThreshold: int, s: Snap, y: Sys, bytes: int, os: Answers)
    requires g > 0 && page > 0
  {
    NothingFree(s, Padded(bytes)) && Refused(g, page, mmapThreshold, s, y, Padded(bytes), os)
  }

  /** A chosen chunk does fit. */
  lemma ChosenFits(gm: int, s: Snap, p: int, nb: int)
    requires HeapOk(gm, s) && Chosen(s, p, nb)
    ensures !NothingFree(s, nb)
  {
    hide HeapOk;
    TooBig(gm, s, p);
  }

  /**
   * dlmalloc: a new block, or no change at all. It fails exactly if nothing free fits and every way
   * to get memory fails.
   */
  method DlMalloc(M: MallocState, bytes: int, os: Answers) returns (p: int)
    requires SysOk(M.gm, M.granularity, M.Now(), M.Accounts()) && Honest(M.gm, M.Now(), os)
    requires Unit(M.granularity) && Unit(M.pageSize) && 0 <= bytes < SIZE_T_MOD
    modifies M
    ensures SysOk(M.gm, M.granularity, M.Now(), M.Accounts())
    ensures Step(M.gm, M.granularity, old(M.Now()), M.Now(), M.Accounts(), Call.Malloc(bytes, p))
    ensures p == 0 <==> NoMemory(M.granularity, M.pageSize, M.mmapThreshold, old(M.Now()), old(M.Accounts()), bytes, os)
    ensures p == 0 ==> M.Now() == old(M.Now()) && M.footprint == old(M.footprint)
    ensures p != 0 ==> NewBlock(old(M.Now()), M.Now(), p, bytes) && Tight(M.Now(), p, bytes)
    ensures p != 0 && !NothingFree(old(M.Now()), Padded(bytes)) ==>
      && Chosen(old(M.Now()), p, Padded(bytes)) && Rests(old(M.Now()), M.Now(), p, Padded(bytes))
      && M.segs == old(M.segs) && M.footprint == old(M.footprint)
    ensures p != 0 && NothingFree(old(M.Now()), Padded(bytes)) ==>
      FromSystem(M.granularity, M.pageSize, M.mmapThreshold, old(M.Now()), old(M.Accounts()), M.Now(), M.Accounts(), Padded(bytes), os, p)
  {
    hide HeapOk, Settled, BooksOk, SysOk, Honest, Served, Handed, NewBlock, Tight, NothingFree, Chosen, Refused, FromSystem, Rests;
    ghost var s, y := M.Now(), M.Accounts();
    SysParts(M.gm, M.granularity, s, y);
    PaddedRoom(bytes);
    var nb;
    p, nb := MallocInHeap(M, bytes);
    if p != 0 {
      ServedNew(M.gm, M.granularity, s, M.Now(), y, p, bytes);
      ChosenFits(M.gm, s, p, nb);
    } else {
      TopTooSmall(s, nb);
      p := SysAllocate(M, nb, os);
      if p != 0 {
        SysParts(M.gm, M.granularity, M.Now(), M.Accounts());
        HandedNew(M.gm, s, M.Now(), p, bytes);
      }
    }
  }

  lemma TopTooSmall(s: Snap, nb: int)
    requires NothingFree(s, nb)
    ensures s.topsize <= nb
  {
  }

  // ---------- dlfree ----------

  /** What the source reads in the head of a block. */
  lemma BlockHead(gm: int, s: Snap, p: int)
    requires HeapOk(gm, s) && Owned(s, p)
    ensures ChunkSize(s.mem, p) == s.chunks[p].size >= MIN_CHUNK_SIZE && p > 0
    ensures Rd(s.mem, p + HEAD) % 4 == 0 <==> s.chunks[p].kind.Mapped?
    ensures s.chunks[p].kind.Mapped? ==> Rd(s.mem, p) == s.chunks[p].kind.lead
  {
    hide BinsOk, Specials, StateApart, Covers, AfterFree, Unpinned;
    assert TagAt(s.mem, s.chunks, p);
    TagBits(s.chunks[p].size);
    TwoBits(s.chunks[p].size);
  }

  /** The region of a mapped block goes back to the system. */
  lemma UnmapDone(gm: int, unit: int, s: Snap, s': Snap, y: Sys, p: int)
    requires SysOk(gm, unit, s, y) && Unmapped(s, s', p)
    ensures SysOk(gm, unit, s', Counted(y.(maps := WithoutItem(y.maps, p)), -MapSize(p, s.chunks[p])))
    ensures SameBlocks(s, s', {p}) && !Owned(s', p) && MapSize(p, s.chunks[p]) > 0 && y.footprint <= y.maxFootprint
  {
    hide HeapOk, BooksOk, Keeps, LooseSet, SameBlocks, MapBytes;
    UnmapHeap(gm, s, s', p);
    BooksUnmap(gm, unit, s, s', y, p);
    KeepsBlocks(s, s', {p}, {p});
    SettledIs(s);
    SettledIs(s');
    CountOf(gm, unit, s, y, p);
  }

  lemma CountOf(gm: int, unit: int, s: Snap, y: Sys, p: int)
    requires BooksOk(gm, unit, s, y)
    ensures y.footprint <= y.maxFootprint && (MappedAt(s, p) ==> MapSize(p, s.chunks[p]) > 0)
  {
    hide MapBytes, SegBytes, RecordAt;
    if MappedAt(s, p) { RegionSize(gm, s, y.maps, p); }
  }

  lemma GoneFreed(gm: int, unit: int, s: Snap, s': Snap, y: Sys, p: int)
    requires SysOk(gm, unit, s, y) && Gone(gm, s, s', p) && SameEnd(s, s') && s'.segs == s.segs
    requires p in s.chunks && s.chunks[p].kind == Used
    ensures SysOk(gm, unit, s', y) && SameBlocks(s, s', {p}) && !Owned(s', p)
  {
    hide HeapOk, Settled, BooksOk, Keeps, SameBlocks;
    BooksKept(gm, unit, s, s', y, {p});
    KeepsBlocks(s, s', {p}, {p});
  }

  lemma FreedThen(s: Snap, s1: Snap, s2: Snap, p: int)
    requires Freed(s, s1, p) && SameBlocks(s1, s2, {})
    ensures Freed(s, s2, p)
  {
    BlocksTrans(s, s1, s2, {p}, {}, {p});
    assert SameBlockAt(s1, s2, p);
    hide SameBlocks, SamePayload;
  }

  /** The mmapped branch of dlfree. */
  method FreeMapped(M: MallocState, p: int, psize: int, prevsize: int, unmapOk: bool)
    requires SysOk(M.gm, M.granularity, M.Now(), M.Accounts())
    requires p in M.chunks && M.chunks[p] == Chunk(psize, Mapped(prevsize))
    modifies M`chunks, M`maps, M`footprint
    ensures SysOk(M.gm, M.granularity, M.Now(), M.Accounts())
    ensures if unmapOk then Freed(old(M.Now()), M.Now(), p) && M.footprint == old(M.footprint) - (psize + prevsize + 32) < old(M.footprint)
            else M.Now() == old(M.Now()) && M.footprint == old(M.footprint)
  {
    hide SysOk, SameBlocks, Owned;
    ghost var s, y := M.Now(), M.Accounts();
    var whole := psize + prevsize + MMAP_FOOT_PAD;
    if unmapOk {
      M.footprint := M.footprint - whole;
      M.chunks := map x | x in M.chunks && x != p :: M.chunks[x];
      M.maps := WithoutItem(M.maps, p);
      UnmapDone(M.gm, M.granularity, s, M.Now(), y, p);
    }
  }

  /**
   * What becomes of the freed chunk decides what dlfree gives back to the system: a top beyond the
   * threshold is trimmed, and every so many large chunks the unused segments are looked for.
   */
  ghost predicate TrimDue(s: Snap, how: Outcome, trimCheck: int) {
    how.IntoTop? && s.topsize > trimCheck
  }

  ghost predicate ReleaseDue(how: Outcome, checks: int) {
    how.IntoBin? && how.size >= 256 && (checks - 1) % SIZE_T_MOD == 0
  }

  ghost function GivenBack(unit: int, s: Snap, y: Sys, how: Outcome, trimCheck: int, checks: int, os: TrimAnswers): int
    requires unit > 0
  {
    if TrimDue(s, how, trimCheck) then FromTop(unit, s, y, 0, os) + FromSegments(s, 0, os)
    else if ReleaseDue(how, checks) then Returned(s, os.unmap, |s.segs|)
    else 0
  }

  /**
   * dlfree: the block is gone, and every other block is as before. The exception is a block with a
   * region of its own that the system refuses to unmap: then nothing changes. What goes back to the
   * system behind that is what is due by the state mid that consolidation leaves.
   */
  method DlFree(M: MallocState, p: int, unmapOk: bool, os: TrimAnswers) returns (ghost gone: bool, ghost how: Outcome, ghost mid: Snap)
    requires SysOk(M.gm, M.granularity, M.Now(), M.Accounts()) && HonestTrim(os) && Unit(M.granularity)
    requires p == 0 || Owned(M.Now(), p)
    modifies M
    ensures SysOk(M.gm, M.granularity, M.Now(), M.Accounts())
    ensures Step(M.gm, M.granularity, old(M.Now()), M.Now(), M.Accounts(), Call.Free(p, gone))
    ensures gone <==> p != 0 && (unmapOk || !old(M.chunks)[p].kind.Mapped?)
    ensures if gone then Freed(old(M.Now()), M.Now(), p) else M.Now() == old(M.Now()) && M.footprint == old(M.footprint)
    ensures gone && old(M.chunks)[p].kind.Mapped? ==> M.footprint == old(M.footprint) - MapSize(p, old(M.chunks)[p])
    ensures gone && !old(M.chunks)[p].kind.Mapped? ==>
      && Gone(M.gm, old(M.Now()), mid, p) && SameEnd(old(M.Now()), mid) && mid.segs == old(M.segs)
      && (how.IntoTop? <==> old(M.topsize) != 0 && p + old(M.chunks)[p].size == old(M.top))
      && (how.IntoBin? ==> exists a :: a in mid.chunks && mid.chunks[a] == Chunk(how.size, Binned) && how.size >= old(M.chunks)[p].size)
    ensures gone && !old(M.chunks)[p].kind.Mapped? ==>
      && M.footprint == old(M.footprint)
           - GivenBack(M.granularity, mid, old(M.Accounts()), how, old(M.trimCheck), old(M.releaseChecks), os)
      && (!TrimDue(mid, how, old(M.trimCheck)) && !ReleaseDue(how, old(M.releaseChecks)) ==> M.Now() == mid)
    ensures M.footprint <= old(M.footprint)
  {
    hide HeapOk, Settled, BooksOk, SysOk, HonestTrim, Gone, SameBlocks, ChunkSize, Freed, GivenBack, TrimDue, ReleaseDue;
    gone, how, mid := false, IntoDv, M.Now();
    if p == 0 {
      return;
    }
    ghost var s, y := M.Now(), M.Accounts();
    SysParts(M.gm, M.granularity, s, y);
    BlockHead(M.gm, s, p);
    var psize := ChunkSize(M.mem, p);
    if Rd(M.mem, p + HEAD) % 4 == 0 {
      FreeMapped(M, p, psize, Rd(M.mem, p), unmapOk);
      gone := unmapOk;
      return;
    }
    gone := true;
    var outcome := FreeChunk(M, p, psize);
    how, mid := outcome, M.Now();
    GoneFreed(M.gm, M.granularity, s, mid, y, p);
    FreedIs(s, mid, p);
    AfterFreeing(M, outcome, os);
    FreedThen(s, mid, M.Now(), p);
  }

  lemma FreedIs(s: Snap, s': Snap, p: int)
    requires SameBlocks(s, s', {p}) && !Owned(s', p)
    ensures Freed(s, s', p)
  {
    hide SameBlocks, Owned;
  }

  /** should_trim, or the countdown to the next look for unused segments. */
  method AfterFreeing(M: MallocState, how: Outcome, os: TrimAnswers)
    requires SysOk(M.gm, M.granularity, M.Now(), M.Accounts()) && HonestTrim(os) && Unit(M.granularity)
    modifies M
    ensures SysOk(M.gm, M.granularity, M.Now(), M.Accounts()) && SameBlocks(old(M.Now()), M.Now(), {})
    ensures M.footprint <= old(M.footprint)
    ensures M.footprint == old(M.footprint)
      - GivenBack(M.granularity, old(M.Now()), old(M.Accounts()), how, old(M.trimCheck), old(M.releaseChecks), os)
    ensures !TrimDue(old(M.Now()), how, old(M.trimCheck)) && !ReleaseDue(how, old(M.releaseChecks)) ==> M.Now() == old(M.Now())
    ensures how.IntoDv? || (how.IntoBin? && how.size < 256) ==> M.releaseChecks == old(M.releaseChecks)
    ensures how.IntoBin? && how.size >= 256 && !ReleaseDue(how, old(M.releaseChecks))
      ==> M.releaseChecks == (old(M.releaseChecks) - 1) % SIZE_T_MOD
    ensures how.IntoBin? && how.size >= 256 && ReleaseDue(how, old(M.releaseChecks))
      ==> M.releaseChecks == (if |old(M.segs)| > 4096 then |old(M.segs)| - 1 else 4095)
  {
    hide SysOk, HonestTrim, SameBlocks, FromTop, FromSegments, Returned, Staying, OnlyStaying;
    BlocksRefl(M.Now(), {});
    match how
    case IntoTop =>
      if M.topsize > M.trimCheck {
        var freed := SysTrim(M, 0, os);
      }
    case IntoDv =>
    case IntoBin(size) =>
      if !IsSmall(size) {
        M.releaseChecks := (M.releaseChecks - 1) % SIZE_T_MOD;
        if M.releaseChecks == 0 {
          var released := ReleaseUnusedSegments(M, os.unmap);
        }
      }
  }

  // ---------- dlrealloc ----------

  lemma CopiedOne(m: Mem, m1: Mem, q: int, p: int, i: int, n: int)
    requires 0 <= i < n && WritesIn(m, m1, p + 16, p + 16 + i) && Copied(m, m1, q, p, i) && (p + n <= q || q + n <= p)
    ensures var m2 := m1[p + 16 + i := Rd(m1, q + 16 + i)];
      WritesIn(m, m2, p + 16, p + 16 + i + 1) && Copied(m, m2, q, p, i + 1)
  {
  }

  lemma CopiedNone(m: Mem, q: int, p: int)
    ensures Copied(m, m, q, p, 0)
  {
  }

  /** memcpy, within a block of the program. */
  method CopyInto(M: MallocState, p: int, oldp: int, n: int)
    requires SysOk(M.gm, M.granularity, M.Now(), M.Accounts()) && Owned(M.Now(), p) && Owned(M.Now(), oldp) && p != oldp
    requires 0 <= n <= Usable(M.chunks[p]) && n <= Usable(M.chunks[oldp])
    modifies M`mem
    ensures SysOk(M.gm, M.granularity, M.Now(), M.Accounts()) && SameBlocks(old(M.Now()), M.Now(), {p}) && Owned(M.Now(), p)
    ensures Copied(old(M.mem), M.mem, oldp, p, n)
  {
    hide SysOk, SameBlocks, Copied;
    ghost var s, y := M.Now(), M.Accounts();
    CopiedNone(s.mem, oldp, p);
    BlocksDisjoint(M.gm, M.granularity, s, y, p, oldp);
    var i := 0;
    while i < n
      invariant 0 <= i <= n
      invariant WritesIn(s.mem, M.mem, p + 16, p + 16 + i)
      invariant Copied(s.mem, M.mem, oldp, p, i)
    {
      CopiedOne(s.mem, M.mem, oldp, p, i, n);
      M.mem := M.mem[p + 16 + i := Rd(M.mem, oldp + 16 + i)];
      i := i + 1;
    }
    OwnerWrote(M.gm, M.granularity, s, M.Now(), y, p);
  }

  /** What the owner of a block writes to it changes no other block, and the allocator not at all. */
  lemma OwnerWrote(gm: int, unit: int, s: Snap, s': Snap, y: Sys, p: int)
    requires SysOk(gm, unit, s, y) && Owned(s, p) && s' == s.(mem := s'.mem)
    requires WritesIn(s.mem, s'.mem, p + 16, p + 16 + Usable(s.chunks[p])) || s'.mem == s.mem
    ensures SysOk(gm, unit, s', y) && SameBlocks(s, s', {p}) && Owned(s', p)
  {
    hide HeapOk, BooksOk, Keeps, LooseSet, SameBlocks;
    assert OwnerWrites(s, s', p);
    OwnerMayWrite(gm, s, s', p);
    SettledIs(s);
    SettledIs(s');
    KeepsBlocks(s, s', {p}, {p});
    OwnBooks(gm, unit, s, s', y, p);
  }

  lemma OwnBooks(gm: int, unit: int, s: Snap, s': Snap, y: Sys, p: int)
    requires HeapOk(gm, s) && BooksOk(gm, unit, s, y) && Owned(s, p) && s' == s.(mem := s'.mem) && HeapOk(gm, s') && Keeps(s, s', {p})
    ensures BooksOk(gm, unit, s', y)
  {
    hide HeapOk, MapBytes, SegBytes, RecordAt, Keeps;
    forall i | 0 <= i < |y.recs| && s.segs != []
      ensures RecordAt(s'.mem, s'.chunks, s'.segs[i + 1], y.recs[i], RecPtr(y.recs, i + 1))
    {
      assert RecordAt(s.mem, s.chunks, s.segs[i + 1], y.recs[i], RecPtr(y.recs, i + 1));
      RecordNotOwned(s, s.segs[i + 1], y.recs[i], RecPtr(y.recs, i + 1), p);
      RecordKeptAt(s, s', {p}, s.segs[i + 1], y.recs[i], RecPtr(y.recs, i + 1));
    }
    forall q | q in s'.chunks && s'.chunks[q].kind.Mapped? ensures Alone(gm, s', q) {
      assert Alone(gm, s, q);
      AloneSame(gm, s, s', q);
    }
  }

  lemma AloneSame(gm: int, s: Snap, s': Snap, q: int)
    requires MappedAt(s, q) && Alone(gm, s, q) && s'.chunks == s.chunks && s'.segs == s.segs
    ensures Alone(gm, s', q)
  {
  }

  lemma RecordNotOwned(s: Snap, sg: Segment, ss: int, next: int, p: int)
    requires RecordAt(s.mem, s.chunks, sg, ss, next) && Owned(s, p)
    ensures ss - 16 != p && ss - 16 + RECORD_SIZE != p
  {
  }

  /** Two blocks of the program never overlap. */
  lemma BlocksDisjoint(gm: int, unit: int, s: Snap, y: Sys, p: int, q: int)
    requires SysOk(gm, unit, s, y) && Owned(s, p) && Owned(s, q) && p != q
    ensures p + 16 + Usable(s.chunks[p]) <= q + 16 || q + 16 + Usable(s.chunks[q]) <= p + 16
    ensures (p + 16) % 16 == 0 && (q + 16) % 16 == 0 && Usable(s.chunks[p]) >= 16
  {
    hide BinsOk, Specials, StateApart, Covers, BooksOk, Settled, AfterFree, Unpinned;
    assert TagAt(s.mem, s.chunks, p) && TagAt(s.mem, s.chunks, q);
    assert p < q ==> Before(p, s.chunks[p], q);
    assert q < p ==> Before(q, s.chunks[q], p);
  }

  lemma ResizedMoved(gm: int, unit: int, s: Snap, s': Snap, y: Sys, p: int, bytes: int)
    requires SysOk(gm, unit, s, y) && Owned(s, p) && 0 <= bytes < MAX_REQUEST && s'.segs == s.segs && SameEnd(s, s')
    requires s.chunks[p].kind == Used ==> Resized(gm, s, s', p, Padded(bytes))
    requires s.chunks[p].kind.Mapped? ==> s' == s && Padded(bytes) + 8 <= s.chunks[p].size
    ensures SysOk(gm, unit, s', y) && Moved(s, s', p, p, bytes) && Tight(s', p, bytes)
  {
    hide HeapOk, BooksOk, Keeps, Settled, SameBlocks;
    PaddedRoom(bytes);
    TooBig(gm, s, p);
    if s.chunks[p].kind == Used {
      BooksKept(gm, unit, s, s', y, {p});
      KeepsBlocks(s, s', {p}, {p, p});
    } else {
      BlocksRefl(s, {p, p});
    }
  }

  /** malloc, memcpy, free, seen together. */
  lemma MovedBy(s: Snap, s1: Snap, s2: Snap, s3: Snap, q: int, p: int, bytes: int)
    requires Owned(s, q) && NewBlock(s, s1, p, bytes) && SameBlocks(s1, s2, {p}) && Owned(s2, p) && s2.chunks == s1.chunks
    requires Copied(s1.mem, s2.mem, q, p, Min(Usable(s.chunks[q]), bytes))
    requires SameBlocks(s2, s3, {q}) && (Owned(s3, q) ==> q in s2.chunks && s3.chunks[q] == s2.chunks[q])
    ensures Moved(s, s3, q, p, bytes) && p != q && p in s1.chunks && p in s3.chunks && s3.chunks[p] == s1.chunks[p]
  {
    assert SameBlockAt(s, s1, q) && SameBlockAt(s2, s3, p);
    BlocksTrans(s, s1, s2, {p}, {p}, {p});
    BlocksTrans(s, s2, s3, {p}, {q}, {q, p});
    MovedBytes(s, s1, s2, s3, q, p, Min(Usable(s.chunks[q]), bytes));
    hide SameBlocks, SamePayload;
  }

  lemma MovedBytes(s: Snap, s1: Snap, s2: Snap, s3: Snap, q: int, p: int, n: int)
    requires Owned(s, q) && SameBlockAt(s, s1, q) && SameBlockAt(s2, s3, p) && Owned(s2, p)
    requires Copied(s1.mem, s2.mem, q, p, n) && n <= Usable(s.chunks[q]) && n <= Usable(s2.chunks[p])
    ensures Copied(s.mem, s3.mem, q, p, n)
  {
  }

  /** The block can hold bytes bytes where it is. */
  ghost predicate Stays(s: Snap, q: int, bytes: int, granularity: int) {
    && bytes < MAX_REQUEST && q in s.chunks
    && (if s.chunks[q].kind == Used then Room(s, q) >= Padded(bytes) else MapFits(s.chunks[q].size, Padded(bytes), granularity))
  }

  /**
   * dlrealloc: a block with room for the request and the bytes that both blocks have room for, or
   * failure with the old block live and everything unchanged. The block moves exactly if it cannot
   * stay, and the call fails exactly if it cannot stay and malloc would fail. The old block is gone
   * if it moved, unless the system refuses to unmap it.
   */
  method DlRealloc(M: MallocState, oldp: int, bytes: int, os: Answers, unmapOk: bool, ts: TrimAnswers) returns (p: int, ghost gone: bool)
    requires SysOk(M.gm, M.granularity, M.Now(), M.Accounts()) && Honest(M.gm, M.Now(), os) && HonestTrim(ts)
    requires Unit(M.granularity) && Unit(M.pageSize) && 0 <= bytes < SIZE_T_MOD
    requires oldp == 0 || Owned(M.Now(), oldp)
    modifies M
    ensures Step(M.gm, M.granularity, old(M.Now()), M.Now(), M.Accounts(), Call.Realloc(oldp, bytes, p, gone))
    ensures p == 0 ==> M.Now() == old(M.Now()) && M.footprint == old(M.footprint)
    ensures oldp != 0 ==> (p == oldp <==> Stays(old(M.Now()), oldp, bytes, M.granularity))
    ensures p == 0 <==>
      if oldp != 0 && bytes >= MAX_REQUEST then true
      else (oldp == 0 || !Stays(old(M.Now()), oldp, bytes, M.granularity))
           && NoMemory(M.granularity, M.pageSize, M.mmapThreshold, old(M.Now()), old(M.Accounts()), bytes, os)
    ensures p != 0 && oldp != 0 && p != oldp ==> (gone <==> unmapOk || !old(M.chunks)[oldp].kind.Mapped?)
  {
    hide HeapOk, Settled, BooksOk, SysOk, Honest, HonestTrim, SameBlocks, Resized, Moved, NewBlock, Tight, Freed, ChunkSize,
         NoMemory, NothingFree, Chosen, Room;
    ghost var s, y := M.Now(), M.Accounts();
    gone := false;
    if oldp == 0 {
      p := DlMalloc(M, bytes, os);
      return;
    }
    p := 0;
    if bytes < MAX_REQUEST {
      SysParts(M.gm, M.granularity, s, y);
      PaddedIs(bytes);
      BlockHead(M.gm, s, oldp);
      var nb := RequestToSize(bytes);
      p := TryReallocChunk(M, oldp, nb);
      if p != 0 {
        ResizedMoved(M.gm, M.granularity, s, M.Now(), y, oldp, bytes);
      } else {
        p := DlMalloc(M, bytes, os);
        if p != 0 {
          gone := MoveBlock(M, oldp, p, bytes, unmapOk, ts, s);
        }
      }
    }
  }

  lemma PaddedIs(bytes: int)
    requires 0 <= bytes < MAX_REQUEST
    ensures Padded(bytes) == RequestToSize(bytes) && MIN_CHUNK_SIZE <= Padded(bytes) < SIZE_T_MOD && Padded(bytes) % 16 == 0
  {
  }

  /** The part of dlrealloc behind a successful malloc. */
  method MoveBlock(M: MallocState, oldp: int, p: int, bytes: int, unmapOk: bool, ts: TrimAnswers, ghost s: Snap) returns (ghost gone: bool)
    requires SysOk(M.gm, M.granularity, M.Now(), M.Accounts()) && HonestTrim(ts) && Unit(M.granularity)
    requires Owned(s, oldp) && NewBlock(s, M.Now(), p, bytes) && Tight(M.Now(), p, bytes) && bytes >= 0
    modifies M
    ensures SysOk(M.gm, M.granularity, M.Now(), M.Accounts())
    ensures Moved(s, M.Now(), oldp, p, bytes) && p != oldp && Tight(M.Now(), p, bytes)
    ensures (gone <==> !Owned(M.Now(), oldp)) && (gone <==> unmapOk || !s.chunks[oldp].kind.Mapped?)
  {
    hide HeapOk, Settled, BooksOk, SysOk, HonestTrim, SameBlocks, Moved, ChunkSize, NewBlock;
    ghost var s1 := M.Now();
    NewBlockOld(s, s1, p, oldp, bytes);
    SysParts(M.gm, M.granularity, s1, M.Accounts());
    BlockHead(M.gm, s1, oldp);
    var oc := ChunkSize(M.mem, oldp) - (if Rd(M.mem, oldp + HEAD) % 4 == 0 then 16 else CHUNK_OVERHEAD);
    CopyInto(M, p, oldp, if oc < bytes then oc else bytes);
    ghost var s2 := M.Now();
    OldStays(s1, s2, p, oldp);
    ghost var how, mid;
    gone, how, mid := DlFree(M, oldp, unmapOk, ts);
    BlocksRefl(s2, {oldp});
    MovedBy(s, s1, s2, M.Now(), oldp, p, bytes);
    TightStays(s1, M.Now(), p, bytes);
  }

  lemma TightStays(s: Snap, s': Snap, p: int, bytes: int)
    requires Tight(s, p, bytes) && p in s'.chunks && s'.chunks[p] == s.chunks[p]
    ensures Tight(s', p, bytes)
  {
  }

  lemma NewBlockOld(s: Snap, s1: Snap, p: int, q: int, bytes: int)
    requires NewBlock(s, s1, p, bytes) && Owned(s, q)
    ensures q != p && Owned(s1, q) && s1.chunks[q] == s.chunks[q] && Owned(s1, p) && Usable(s1.chunks[p]) >= bytes
  {
    hide SamePayload;
    assert SameBlockAt(s, s1, q);
  }

  lemma OldStays(s1: Snap, s2: Snap, p: int, q: int)
    requires SameBlocks(s1, s2, {p}) && q != p && Owned(s1, q)
    ensures Owned(s2, q) && s2.chunks[q] == s1.chunks[q]
  {
    hide SamePayload;
    assert SameBlockAt(s1, s2, q);
  }

  // ---------- dlmemalign ----------

  /** A mapped block moves to q, in its own region. */
  ghost predicate Shifted(s: Snap, s': Snap, p: int, q: int) {
    && MappedAt(s, p) && var c := s.chunks[p];
    && p <= q && q % 16 == 0 && q + MIN_CHUNK_SIZE <= p + c.size
    && s' == s.(mem := s.mem[q := c.kind.lead + (q - p)][q + HEAD := c.size - (q - p)],
                chunks := (map x | x in s.chunks && x != p :: s.chunks[x])[q := Chunk(c.size - (q - p), Mapped(c.kind.lead + (q - p)))])
  }

  ghost function WithoutMap(s: Snap, p: int): Snap {
    s.(chunks := map x | x in s.chunks && x != p :: s.chunks[x])
  }

  lemma ShiftIn(gm: int, s: Snap, s': Snap, p: int, q: int)
    requires HeapOk(gm, s) && Shifted(s, s', p, q)
    ensures MappedAt(s, p)
    ensures var c := s.chunks[p]; MappedIn(WithoutMap(s, p), s', MapLo(p, c), p + Extent(c), q)
    ensures Unmapped(s, WithoutMap(s, p), p)
  {
    hide HeapOk;
    MappedLead(gm, s, p);
  }

  lemma MappedLead(gm: int, s: Snap, p: int)
    requires HeapOk(gm, s) && MappedAt(s, p)
    ensures s.chunks[p].kind.lead >= 0 && p > 0
  {
    hide BinsOk, Specials, StateApart, Covers, AfterFree, Unpinned;
    assert TagAt(s.mem, s.chunks, p);
  }

  lemma ShiftDone(gm: int, unit: int, s: Snap, s': Snap, y: Sys, p: int, q: int)
    requires SysOk(gm, unit, s, y) && Shifted(s, s', p, q)
    ensures SysOk(gm, unit, s', y.(maps := [q] + WithoutItem(y.maps, p)))
    ensures SameBlocks(s, s', {p, q}) && (p != q ==> !Owned(s', p) && !Owned(s, q))
  {
    hide HeapOk, BooksOk, Keeps, LooseSet, SameBlocks, Fresh, Shifted, WithoutMap, MapsOk, MappedIn, Unmapped;
    ShiftIn(gm, s, s', p, q);
    var mid, c := WithoutMap(s, p), s.chunks[p];
    var lo, hi := MapLo(p, c), p + Extent(c);
    UnmapDone(gm, unit, s, mid, y, p);
    MapsOf(gm, unit, s, y);
    RegionFreed(gm, s, mid, y.maps, p);
    var y1 := Counted(y.(maps := WithoutItem(y.maps, p)), -MapSize(p, c));
    NotInFreshOnly(gm, mid, lo, hi);
    MapHeap(gm, mid, s', lo, hi, q);
    ShiftFresh(gm, mid, s', p, q, lo, hi);
    BooksMap(gm, unit, mid, s', y1, lo, hi, q);
    KeepsBlocks(mid, s', {q}, {q});
    BlocksTrans(s, mid, s', {p}, {q}, {p, q});
    SettledIs(mid);
    SettledIs(s');
    if p != q {
      OneBlock(mid, s', {q}, p);
      OneBlock(s, mid, {p}, q);
    }
  }

  lemma OneBlock(s: Snap, s': Snap, but: set<int>, q: int)
    requires SameBlocks(s, s', but) && q !in but
    ensures Owned(s, q) <==> Owned(s', q)
  {
    assert SameBlockAt(s, s', q);
    hide SamePayload;
  }

  lemma MapsOf(gm: int, unit: int, s: Snap, y: Sys)
    requires BooksOk(gm, unit, s, y)
    ensures MapsOk(gm, s, y.maps)
  {
    hide MapsOk, ListOk, CountOk;
  }

  lemma ShiftFresh(gm: int, mid: Snap, s': Snap, p: int, q: int, lo: int, hi: int)
    requires HeapOk(gm, mid) && Fresh(gm, mid, lo, hi) && MappedIn(mid, s', lo, hi, q)
    ensures q !in mid.chunks
  {
    hide HeapOk, Fresh;
    NoneInFresh(gm, mid, lo, hi);
  }

  method MoveMapped(M: MallocState, p: int, q: int, lead: int, size: int)
    modifies M`mem, M`chunks, M`maps
    ensures M.Now() == old(M.Now()).(mem := old(M.mem)[q := lead][q + HEAD := size],
                                     chunks := WithoutMap(old(M.Now()), p).chunks[q := Chunk(size, Mapped(lead))])
    ensures M.Accounts() == old(M.Accounts()).(maps := [q] + WithoutItem(old(M.maps), p))
  {
    M.mem := M.mem[q := lead][q + HEAD := size];
    M.chunks := WithoutMap(M.Now(), p).chunks[q := Chunk(size, Mapped(lead))];
    M.maps := [q] + WithoutItem(M.maps, p);
  }

  lemma ShiftedIs(s: Snap, s': Snap, p: int, q: int)
    requires MappedAt(s, p) && p < q && q % 16 == 0 && q + MIN_CHUNK_SIZE <= p + s.chunks[p].size
    requires var size, lead := s.chunks[p].size - (q - p), s.chunks[p].kind.lead + (q - p);
      s' == s.(mem := s.mem[q := lead][q + HEAD := size], chunks := WithoutMap(s, p).chunks[q := Chunk(size, Mapped(lead))])
    ensures Shifted(s, s', p, q)
  {
  }

  /** A block with its own region is not cut; its chunk starts later in the region. */
  method ShiftMapped(M: MallocState, p: int, q: int)
    requires SysOk(M.gm, M.granularity, M.Now(), M.Accounts()) && MappedAt(M.Now(), p)
    requires p < q && q % 16 == 0 && q + MIN_CHUNK_SIZE <= p + M.chunks[p].size
    modifies M`mem, M`chunks, M`maps
    ensures SysOk(M.gm, M.granularity, M.Now(), M.Accounts())
    ensures SameBlocks(old(M.Now()), M.Now(), {p, q}) && !Owned(M.Now(), p) && !Owned(old(M.Now()), q)
    ensures q in M.chunks && M.chunks[q] == Chunk(old(M.chunks)[p].size - (q - p), Mapped(old(M.chunks)[p].kind.lead + (q - p)))
  {
    hide SysOk, SameBlocks, Owned, ChunkSize, Shifted, WithoutMap;
    ghost var s, y := M.Now(), M.Accounts();
    SysParts(M.gm, M.granularity, s, y);
    MappedHeadAt(M.gm, s, p);
    var leadsize := q - p;
    var newsize := ChunkSize(M.mem, p) - leadsize;
    MoveMapped(M, p, q, Rd(M.mem, p) + leadsize, newsize);
    ShiftedIs(s, M.Now(), p, q);
    ShiftDone(M.gm, M.granularity, s, M.Now(), y, p, q);
  }

  lemma MappedHeadAt(gm: int, s: Snap, p: int)
    requires HeapOk(gm, s) && MappedAt(s, p)
    ensures ChunkSize(s.mem, p) == s.chunks[p].size && Rd(s.mem, p) == s.chunks[p].kind.lead
  {
    hide HeapOk;
    BlockHead(gm, s, p);
  }

  /** The aligned chunk takes the place of the one that malloc returned. */
  lemma AlignedNew(s: Snap, s1: Snap, s2: Snap, p0: int, p: int, room: int, bytes: int)
    requires NewBlock(s, s1, p0, room) && SameBlocks(s1, s2, {p0, p}) && Owned(s2, p) && p > 0 && p % 16 == 0
    requires p != p0 ==> !Owned(s2, p0) && !Owned(s1, p)
    requires Usable(s2.chunks[p]) >= bytes
    ensures NewBlock(s, s2, p, bytes)
  {
    BlocksTrans(s, s1, s2, {p0}, {p0, p}, {p0, p});
    assert p != p0 ==> SameBlockAt(s, s1, p);
    forall q | q !in {p} ensures SameBlockAt(s, s2, q) {
      if q != p0 {
        assert q !in {p0, p} && SameBlockAt(s, s2, q);
      }
    }
    hide SamePayload;
  }

  lemma CutNew(gm: int, unit: int, s: Snap, s1: Snap, s2: Snap, y: Sys, p0: int, p: int, al: int, nb: int, room: int, bytes: int)
    requires SysOk(gm, unit, s1, y) && NewBlock(s, s1, p0, room) && s1.chunks[p0].kind == Used && Memalign.Cut(gm, s1, s2, p0, p, al, nb)
    requires SameEnd(s1, s2) && s2.segs == s1.segs && nb >= bytes + CHUNK_OVERHEAD
    ensures SysOk(gm, unit, s2, y) && NewBlock(s, s2, p, bytes)
  {
    hide HeapOk, BooksOk, Keeps, Settled, SameBlocks, NewBlock;
    NewBlockIs(s, s1, p0, room);
    BooksKept(gm, unit, s1, s2, y, {p0, p});
    KeepsBlocks(s1, s2, {p0, p}, {p0, p});
    PositiveSize(gm, s2, p);
    AlignedNew(s, s1, s2, p0, p, room, bytes);
  }

  lemma NewBlockIs(s: Snap, s1: Snap, p: int, bytes: int)
    requires NewBlock(s, s1, p, bytes)
    ensures Owned(s1, p) && p in s1.chunks && Usable(s1.chunks[p]) >= bytes && p % 16 == 0 && p > 0
    ensures s1.chunks[p].kind == Used || s1.chunks[p].kind.Mapped?
  {
    hide SameBlocks;
  }

  /** The size that internal_memalign asks malloc for. */
  lemma RequestRoom(bytes: int, al: int)
    requires 0 <= bytes < MAX_REQUEST - al && MIN_CHUNK_SIZE <= al <= TOP_BIT
    ensures var nb := RequestToSize(bytes);
      && MIN_CHUNK_SIZE <= nb && nb % 16 == 0 && nb >= bytes + CHUNK_OVERHEAD && 0 <= nb + al + MIN_CHUNK_SIZE - CHUNK_OVERHEAD < SIZE_T_MOD
  {
  }

  /** The size that dlmemalign passes on to dlmalloc, for the alignment it has rounded to. */
  function AlignedRequest(bytes: int, al: int): int {
    if 0 <= bytes < MAX_REQUEST then RequestToSize(bytes) + al + MIN_CHUNK_SIZE - CHUNK_OVERHEAD else 0
  }

  /**
   * dlmemalign: a new block at an aligned address, or no change. It fails exactly if the request is
   * too large, or malloc fails for the enlarged request. The loop that looks for a power of two does
   * not end for alignments above 2^63 (DoublingMisses), so that these are excluded.
   */
  method DlMemalign(M: MallocState, alignment: int, bytes: int, os: Answers) returns (p: int, ghost al: int)
    requires SysOk(M.gm, M.granularity, M.Now(), M.Accounts()) && Honest(M.gm, M.Now(), os)
    requires Unit(M.granularity) && Unit(M.pageSize) && 0 <= bytes < SIZE_T_MOD && 0 <= alignment <= TOP_BIT
    modifies M
    ensures Step(M.gm, M.granularity, old(M.Now()), M.Now(), M.Accounts(), Call.Memalign(alignment, bytes, p))
    ensures al >= alignment && (al > MIN_CHUNK_SIZE ==> al < 2 * alignment) && (al == 16 <==> alignment <= 16)
    ensures p == 0 <==>
      if alignment <= 16 then NoMemory(M.granularity, M.pageSize, M.mmapThreshold, old(M.Now()), old(M.Accounts()), bytes, os)
      else bytes >= MAX_REQUEST - al
           || NoMemory(M.granularity, M.pageSize, M.mmapThreshold, old(M.Now()), old(M.Accounts()), AlignedRequest(bytes, al), os)
    ensures p == 0 ==> M.Now() == old(M.Now()) && M.footprint == old(M.footprint)
    ensures p != 0 ==> p in M.chunks && (M.chunks[p].kind.Mapped? || M.chunks[p].size <= Padded(bytes) + 32)
  {
    hide HeapOk, Settled, BooksOk, SysOk, Honest, SameBlocks, NewBlock, NoMemory, NothingFree, Chosen, Aligned;
    if alignment <= 16 {
      al := 16;
      p := DlMalloc(M, bytes, os);
      if p != 0 {
        NewBlockIs(old(M.Now()), M.Now(), p, bytes);
        Even16(p, alignment);
      }
      return;
    }
    var a;
    ghost var k;
    a, k := RoundAlignment(alignment);
    al := a;
    p := 0;
    if bytes < MAX_REQUEST - a {
      RequestRoom(bytes, a);
      PaddedIs(bytes);
      var nb := RequestToSize(bytes);
      var req := nb + a + MIN_CHUNK_SIZE - CHUNK_OVERHEAD;
      ghost var s := M.Now();
      p := DlMalloc(M, req, os);
      if p != 0 {
        NewBlockIs(s, M.Now(), p, req);
        p := AlignBlock(M, p, a, k, nb, bytes, req, s);
        AlignedBy(p, alignment, a, k);
      }
    }
  }

  lemma AlignedBy(p: int, alignment: int, al: int, k: nat)
    requires al == Pow2(k) && al >= alignment && al > 0 && (p + 16) % al == 0
    ensures Aligned(p, alignment)
  {
  }

  /** For a power of two, that is the alignment asked for. */
  lemma AlignedPow(p: int, j: nat)
    requires Aligned(p, Pow2(j))
    ensures (p + 16) % Pow2(j) == 0
  {
    hide Pow2;
    var k: nat :| Pow2(j) <= Pow2(k) && (p + 16) % Pow2(k) == 0;
    if k < j {
      Pow2Step(k);
      Pow2Monotonic(k + 1, j);
    } else {
      Pow2Add(j, k - j);
      QuotientOf(p + 16, Pow2(k));
      Regroup(Pow2(j), Pow2(k - j), (p + 16) / Pow2(k));
      ModUnique(p + 16, Pow2(j), Pow2(k - j) * ((p + 16) / Pow2(k)), 0);
    }
  }

  lemma Regroup(a: int, b: int, c: int)
    ensures a * b * c == b * c * a
  {
  }

  lemma Even16(p: int, alignment: int)
    requires p % 16 == 0 && alignment <= 16
    ensures Aligned(p, alignment)
  {
    assert Pow2(4) == 16;
  }

  lemma SpotRoom(gm: int, s: Snap, p: int, al: int, k: nat, nb: int)
    requires HeapOk(gm, s) && MappedAt(s, p) && al == Pow2(k) && al >= MIN_CHUNK_SIZE && p % 16 == 0
    requires Usable(s.chunks[p]) >= nb + al + MIN_CHUNK_SIZE - CHUNK_OVERHEAD && nb >= MIN_CHUNK_SIZE
    ensures var q := AlignedSpot(p, al);
      && p < q && q % 16 == 0 && (q + 16) % al == 0 && q + MIN_CHUNK_SIZE <= p + s.chunks[p].size
      && s.chunks[p].size - (q - p) - 16 >= nb - CHUNK_OVERHEAD
  {
    hide HeapOk, Pow2, AlignedSpot;
    SpotAligned(p, al, k);
  }

  /** What internal_memalign does with the block from malloc. */
  method AlignBlock(M: MallocState, p0: int, al: int, ghost k: nat, nb: int, bytes: int, req: int, ghost s: Snap) returns (p: int)
    requires SysOk(M.gm, M.granularity, M.Now(), M.Accounts()) && NewBlock(s, M.Now(), p0, req)
    requires al == Pow2(k) && al >= MIN_CHUNK_SIZE && nb >= MIN_CHUNK_SIZE && nb % 16 == 0 && nb >= bytes + CHUNK_OVERHEAD
    requires req == nb + al + MIN_CHUNK_SIZE - CHUNK_OVERHEAD
    modifies M
    ensures SysOk(M.gm, M.granularity, M.Now(), M.Accounts()) && NewBlock(s, M.Now(), p, bytes) && (p + 16) % al == 0 && p != 0
    ensures p in M.chunks && (M.chunks[p].kind.Mapped? || M.chunks[p].size <= nb + 32)
  {
    hide HeapOk, Settled, BooksOk, SysOk, SameBlocks, NewBlock, Pow2, AlignedSpot, Memalign.Cut;
    ghost var s1, y := M.Now(), M.Accounts();
    SysParts(M.gm, M.granularity, s1, y);
    NewBlockIs(s, s1, p0, req);
    BlockHead(M.gm, s1, p0);
    p := p0;
    if Rd(M.mem, p0 + HEAD) % 4 == 0 {
      if (p0 + 16) % al != 0 {
        SpotRoom(M.gm, s1, p0, al, k, nb);
        var q := AlignedSpot(p0, al);
        ShiftMapped(M, p0, q);
        p := q;
        AlignedNew(s, s1, M.Now(), p0, p, req, bytes);
      } else {
        SmallerBlock(s, s1, p0, req, bytes);
      }
    } else {
      p := AlignChunk(M, p0, al, k, nb);
      CutNew(M.gm, M.granularity, s, s1, M.Now(), y, p0, p, al, nb, req, bytes);
      CutAligned(M.gm, s1, M.Now(), p0, p, al, nb);
      NewBlockIs(s, M.Now(), p, bytes);
    }
  }

  lemma SmallerBlock(s: Snap, s1: Snap, p: int, room: int, bytes: int)
    requires NewBlock(s, s1, p, room) && bytes <= room
    ensures NewBlock(s, s1, p, bytes)
  {
    hide SameBlocks;
  }

  lemma CutAligned(gm: int, s1: Snap, s2: Snap, p0: int, p: int, al: int, nb: int)
    requires Memalign.Cut(gm, s1, s2, p0, p, al, nb)
    ensures al > 0 && (p + 16) % al == 0 && p in s2.chunks && s2.chunks[p].size <= nb + 32
  {
    hide HeapOk, Keeps, Settled;
  }

  // ---------- the remaining steps ----------

  /** The program writes to a block of its own. */
  method StoreByte(M: MallocState, p: int, k: nat, v: int)
    requires SysOk(M.gm, M.granularity, M.Now(), M.Accounts()) && Owned(M.Now(), p) && k < Usable(M.chunks[p])
    modifies M`mem
    ensures Step(M.gm, M.granularity, old(M.Now()), M.Now(), M.Accounts(), Call.Store(p)) && Rd(M.mem, p + 16 + k) == v
  {
    hide SysOk, SameBlocks;
    ghost var s := M.Now();
    M.mem := M.mem[p + 16 + k := v];
    OneWrite(s.mem, p, k, v, Usable(s.chunks[p]));
    OwnerWrote(M.gm, M.granularity, s, M.Now(), M.Accounts(), p);
  }

  lemma OneWrite(m: Mem, p: int, k: nat, v: int, n: int)
    requires k < n
    ensures WritesIn(m, m[p + 16 + k := v], p + 16, p + 16 + n)
  {
  }

  /** dlmalloc_trim. */
  method DlMallocTrim(M: MallocState, pad: int, os: TrimAnswers) returns (freed: bool)
    requires SysOk(M.gm, M.granularity, M.Now(), M.Accounts()) && HonestTrim(os) && Unit(M.granularity) && pad >= 0
    modifies M
    ensures Step(M.gm, M.granularity, old(M.Now()), M.Now(), M.Accounts(), Call.Trim)
    ensures M.topsize == old(M.topsize) - FromTop(M.granularity, old(M.Now()), old(M.Accounts()), pad, os)
    ensures old(M.footprint) - M.footprint
      == FromTop(M.granularity, old(M.Now()), old(M.Accounts()), pad, os) + FromSegments(old(M.Now()), pad, os) >= 0
    ensures freed <==> FromTop(M.granularity, old(M.Now()), old(M.Accounts()), pad, os) + FromSegments(old(M.Now()), pad, os) != 0
  {
    hide SysOk, HonestTrim, SameBlocks, FromTop, FromSegments, Staying, OnlyStaying;
    freed := SysTrim(M, pad, os);
  }
}
