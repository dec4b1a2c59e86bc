/** sys_alloc itself: where memory is asked for, and what becomes of it. */
module Morecore {
  import opened Words
  import opened BinIndex
  import opened TreeMemory
  import opened Chunks
  import opened HeapState
  import opened Heap
  import opened Steps
  import opened HeapOps
  import opened Malloc
  import opened Consolidate
  import opened Growth
  import opened Segments
  import opened SysAlloc

  const CMFAIL: int := SIZE_T_MOD - 1
  const HALF_MAX_SIZE_T: int := TOP_BIT - 1
  const SYS_ALLOC_PADDING: int := TOP_FOOT_SIZE + 16

  /**
   * What the system answers to each call that sys_alloc may make: an mmap for a chunk of its own,
   * the break, an sbrk, a second sbrk right after it, an mmap for a segment, a last sbrk and the
   * break after it.
   */
  datatype Answers = Answers(
    direct: int -> int,
    brk: int,
    more: int -> int,
    extra: int -> int,
    mmap: int -> int,
    late: int -> int,
    lateBrk: int)

  /** What every call to the system returns if it gives nothing. */
  predicate Failed(a: int) {
    a == 0xFFFF_FFFF_FFFF_FFFF
  }

  ghost predicate FreshOr(gm: int, s: Snap, b: int, size: int) {
    b == CMFAIL || Fresh(gm, s, b, b + size)
  }

  ghost predicate GoodSize(gm: int, s: Snap, os: Answers, z: int) {
    && FreshOr(gm, s, os.direct(z), z) && FreshOr(gm, s, os.more(z), z)
    && FreshOr(gm, s, os.mmap(z), z)
    && (os.late(z) != CMFAIL && os.lateBrk != CMFAIL && os.late(z) < os.lateBrk ==> Fresh(gm, s, os.late(z), os.lateBrk))
  }

  ghost predicate GoodExtra(gm: int, s: Snap, os: Answers, z: int, x: int) {
    os.more(z) != CMFAIL && os.extra(x) != CMFAIL ==> Fresh(gm, s, os.more(z), os.more(z) + z + x)
  }

  /** The system hands out nothing that is held already; two sbrk calls in a row are contiguous. */
  ghost predicate Honest(gm: int, s: Snap, os: Answers) {
    && (os.brk != CMFAIL ==> 0 <= os.brk <= ADDRESS_LIMIT && os.brk % 16 == 0)
    && (forall z {:trigger GoodSize(gm, s, os, z)} :: z > 0 && z % 16 == 0 ==> GoodSize(gm, s, os, z))
    && (forall z, x {:trigger GoodExtra(gm, s, os, z, x)} ::
          z > 0 && z % 16 == 0 && x > 0 && x % 16 == 0 ==> GoodExtra(gm, s, os, z, x))
  }

  /** x as a size_t. */
  function SizeT(x: int): int {
    x % SIZE_T_MOD
  }

  /** page_align and granularity_align on size_t, wrap-around and all. */
  function SizeAlign(x: int, g: int): int
    requires g > 0
  {
    (x + g - 1) % SIZE_T_MOD / g * g
  }

  /** The units that the system deals in. */
  predicate Unit(g: int) {
    4096 <= g <= ADDRESS_LIMIT && g % 16 == 0
  }

  lemma SizeAlignIs(x: int, g: int)
    requires Unit(g) && 0 <= x < SIZE_T_MOD
    ensures var r := SizeAlign(x, g);
      && 0 <= r < SIZE_T_MOD && r % g == 0 && r % 16 == 0
      && (if x + g - 1 < SIZE_T_MOD then x <= r < x + g else r == 0)
  {
    var y := x + g - 1;
    if y < SIZE_T_MOD {
      RoundedUp(x, g);
      assert SizeAlign(x, g) == AlignUp(x, g);
      SmallQuotient(y, g);
    } else {
      assert 0 <= y - SIZE_T_MOD < g && y % SIZE_T_MOD == y - SIZE_T_MOD;
      ZeroQuotient(y - SIZE_T_MOD, g);
      ModUnique(0, g, 0, 0);
    }
    MultipleOfMultiple(SizeAlign(x, g), g);
  }

  lemma ZeroQuotient(y: int, g: int)
    requires 0 <= y < g
    ensures y / g * g == 0
  {
  }

  lemma SmallQuotient(y: int, g: int)
    requires g > 0 && y >= 0
    ensures 0 <= y / g * g <= y
  {
    var q := y / g;
    assert y == g * q + y % g;
  }

  /** asize > nb: the request did not wrap around, and there is room for everything. */
  lemma PaddedEnough(nb: int, pad: int, g: int)
    requires Unit(g) && 0 < nb < SIZE_T_MOD && 0 < pad <= 96
    ensures var r := SizeAlign(SizeT(nb + pad), g);
      r > nb ==> nb + pad <= r < nb + pad + g && r % g == 0 && r % 16 == 0 && nb + pad + g - 1 < SIZE_T_MOD
  {
    var x := SizeT(nb + pad);
    SizeAlignIs(x, g);
    if nb + pad < SIZE_T_MOD {
      assert x == nb + pad;
    } else {
      assert x == nb + pad - SIZE_T_MOD;
    }
    hide SizeAlign;
  }

  // ---------- chunks with a region of their own ----------

  /** What mmap_alloc asks for. */
  function DirectSize(nb: int, page: int): int
    requires page > 0
  {
    SizeAlign(SizeT(nb + 63), page)
  }

  /** No chunk of its own for nb bytes. */
  ghost predicate DirectRefused(nb: int, page: int, os: Answers)
    requires page > 0
  {
    DirectSize(nb, page) <= nb || Failed(os.direct(DirectSize(nb, page)))
  }

  /** The words of mmap_alloc. */
  function MapWords(m: Mem, p: int, psize: int): Mem {
    m[p := 0][p + HEAD := psize][p + psize + HEAD := FENCEPOST_HEAD][p + psize + 16 := 0]
  }

  lemma MapWordsIn(m: Mem, p: int, psize: int)
    requires psize >= MIN_CHUNK_SIZE
    ensures var m' := MapWords(m, p, psize);
      && WritesIn(m, m', p, p + psize + MMAP_FOOT_PAD) && Rd(m', p) == 0 && Rd(m', p + HEAD) == psize
  {
  }

  /** A block of nb bytes, or more, has been handed out; the other blocks are as they were. */
  ghost predicate Handed(s: Snap, s': Snap, p: int, nb: int) {
    && SameBlocks(s, s', {p}) && !Owned(s, p) && Owned(s', p) && p % 16 == 0
    && (if s'.chunks[p].kind == Used then nb <= s'.chunks[p].size < nb + MIN_CHUNK_SIZE else s'.chunks[p].size >= nb + 8)
  }

  /** The block at p is what the system has mapped for it, z bytes, and nothing else of the heap has changed. */
  ghost predicate DirectlyMapped(s: Snap, s': Snap, p: int, z: int, os: Answers) {
    p == os.direct(z) && s' == s.(mem := s'.mem, chunks := s.chunks[p := Chunk(z - 32, Mapped(0))])
  }

  lemma MappedDone(gm: int, unit: int, s: Snap, s': Snap, y: Sys, b: int, e: int, nb: int)
    requires SysOk(gm, unit, s, y) && Fresh(gm, s, b, e) && e - b >= nb + 63 && nb > 0
    requires var z := e - b - MMAP_FOOT_PAD;
      s' == s.(mem := MapWords(s.mem, b, z), chunks := s.chunks[b := Chunk(z, Mapped(0))])
    ensures SysOk(gm, unit, s', Counted(y.(maps := [b] + y.maps), e - b)) && Handed(s, s', b, nb)
    ensures s'.chunks[b].kind.Mapped?
  {
    hide HeapOk, Fresh, BooksOk, Keeps, WritesIn, LiveAt, LooseSet, SameBlocks, MapWords;
    FreshBounds(gm, s, b, e);
    MapWordsIn(s.mem, b, e - b - MMAP_FOOT_PAD);
    assert MappedIn(s, s', b, e, b);
    NotInFreshOnly(gm, s, b, e);
    MapHeap(gm, s, s', b, e, b);
    BooksMap(gm, unit, s, s', y, b, e, b);
    SettledIs(s);
    SettledIs(s');
    KeepsBlocks(s, s', {b}, {b});
  }

  /** The words of a mapped chunk, and its place in the books. */
  method MarkMapped(M: MallocState, p: int, psize: int)
    modifies M`mem, M`chunks, M`maps
    ensures M.Now() == old(M.Now()).(mem := MapWords(old(M.mem), p, psize), chunks := old(M.chunks)[p := Chunk(psize, Mapped(0))])
    ensures M.Accounts() == old(M.Accounts()).(maps := [p] + old(M.maps))
  {
    hide MapWords;
    M.mem := MapWords(M.mem, p, psize);
    M.chunks := M.chunks[p := Chunk(psize, Mapped(0))];
    M.maps := [p] + M.maps;
  }

  /** mmap_alloc. */
  method MmapAlloc(M: MallocState, nb: int, os: Answers) returns (p: int)
    requires SysOk(M.gm, M.granularity, M.Now(), M.Accounts()) && Honest(M.gm, M.Now(), os) && Unit(M.pageSize)
    requires 0 < nb < SIZE_T_MOD
    modifies M`mem, M`chunks, M`maps, M`footprint, M`maxFootprint
    ensures SysOk(M.gm, M.granularity, M.Now(), M.Accounts())
    ensures p == 0 ==> M.Now() == old(M.Now()) && M.Accounts() == old(M.Accounts())
    ensures p != 0 ==> Handed(old(M.Now()), M.Now(), p, nb)
    ensures p == 0 <==> DirectRefused(nb, M.pageSize, os)
    ensures p != 0 ==> DirectlyMapped(old(M.Now()), M.Now(), p, DirectSize(nb, M.pageSize), os)
    ensures p != 0 ==> M.footprint == old(M.footprint) + DirectSize(nb, M.pageSize)
  {
    hide SysOk, Honest, SizeAlign, SizeT, Handed, MapWords, Fresh, GoodSize, WritesIn;
    ghost var s, y := M.Now(), M.Accounts();
    PaddedEnough(nb, 63, M.pageSize);
    var mmsize := SizeAlign(SizeT(nb + 63), M.pageSize);
    if mmsize > nb {
      var mm := os.direct(mmsize);
      if mm != CMFAIL {
        DirectFresh(M.gm, s, os, mmsize);
        FreshBounds(M.gm, s, mm, mm + mmsize);
        var offset := AlignOffset(mm + 16);
        p := mm + offset;
        var psize := mmsize - offset - MMAP_FOOT_PAD;
        MarkMapped(M, p, psize);
        RaiseFootprint(M, mmsize);
        MappedDone(M.gm, M.granularity, s, M.Now(), y, p, p + mmsize, nb);
        return;
      }
    }
    return 0;
  }

  lemma DirectFresh(gm: int, s: Snap, os: Answers, z: int)
    requires Honest(gm, s, os) && z > 0 && z % 16 == 0
    ensures FreshOr(gm, s, os.direct(z), z) && FreshOr(gm, s, os.more(z), z) && FreshOr(gm, s, os.mmap(z), z)
    ensures os.late(z) != CMFAIL && os.lateBrk != CMFAIL && os.late(z) < os.lateBrk ==> Fresh(gm, s, os.late(z), os.lateBrk)
  {
    hide FreshOr, Fresh;
    assert GoodSize(gm, s, os, z);
  }

  // ---------- asking for memory ----------

  /** What the system has given: nothing, or fresh memory that is enough, alone or together with top. */
  ghost predicate Given(gm: int, g: int, s: Snap, y: Sys, nb: int, b: int, size: int, mapped: bool) {
    b != CMFAIL ==>
      && Fresh(gm, s, b, b + size) && size >= TOP_FOOT_SIZE + 16 && (mapped ==> Whole(g, size) && y.noncontiguous)
      && (size >= nb + SYS_ALLOC_PADDING
          || (!y.noncontiguous && s.topsize != 0 && b == y.base + y.size && !mapped && s.topsize + size >= nb + SYS_ALLOC_PADDING))
  }

  /** What comes of the first sbrk of the contiguous way: the memory was not where it was hoped for. */
  lemma SecondSbrk(gm: int, g: int, s: Snap, y: Sys, os: Answers, nb: int, ssize: int)
    requires Honest(gm, s, os) && Unit(g) && g <= ssize < HALF_MAX_SIZE_T && ssize % 16 == 0 && nb > 0
    requires os.more(ssize) != CMFAIL && nb + SYS_ALLOC_PADDING < SIZE_T_MOD
    ensures var esize := SizeAlign(nb + SYS_ALLOC_PADDING - ssize, g);
      && (ssize >= nb + SYS_ALLOC_PADDING && ssize >= 96 ==> Given(gm, g, s, y, nb, os.more(ssize), ssize, false))
      && (ssize < nb + SYS_ALLOC_PADDING && esize < HALF_MAX_SIZE_T && os.extra(esize) != CMFAIL ==>
            Given(gm, g, s, y, nb, os.more(ssize), ssize + esize, false))
  {
    hide Fresh, SizeAlign;
    DirectFresh(gm, s, os, ssize);
    if ssize < nb + SYS_ALLOC_PADDING {
      var x := nb + SYS_ALLOC_PADDING - ssize;
      SizeAlignIs(x, g);
      var esize := SizeAlign(x, g);
      if 0 < esize && esize < HALF_MAX_SIZE_T && os.extra(esize) != CMFAIL {
        assert GoodExtra(gm, s, os, ssize, esize);
      }
    }
  }

  /** What the contiguous way asks for: before there is any segment, and at the end of the first. */
  function FirstRequest(asize: int, brk: int, page: int): int
    requires page > 0
  {
    if brk % page != 0 then SizeT(asize + SizeAlign(brk, page) - brk) else asize
  }

  function LaterRequest(nb: int, topsize: int, g: int): int
    requires g > 0
  {
    SizeAlign(SizeT(nb - topsize + 96), g)
  }

  function SbrkRequest(s: Snap, nb: int, asize: int, g: int, page: int, os: Answers): int
    requires g > 0 && page > 0
  {
    if s.top == 0 then FirstRequest(asize, os.brk, page) else LaterRequest(nb, s.topsize, g)
  }

  /** The contiguous way fails, also with its second sbrk. */
  ghost predicate SbrkRefused(s: Snap, end: int, nb: int, asize: int, g: int, page: int, os: Answers)
    requires g > 0 && page > 0
  {
    var ssize := SbrkRequest(s, nb, asize, g, page, os);
    || ssize >= 0x7FFF_FFFF_FFFF_FFFF || Failed(os.more(ssize))
    || (if s.top == 0 then Failed(os.brk) || ssize <= nb else os.more(ssize) != end && SecondRefused(nb, ssize, g, os))
  }

  ghost predicate SecondRefused(nb: int, ssize: int, g: int, os: Answers)
    requires g > 0
  {
    ssize < nb + 96 && Failed(os.extra(SizeAlign(nb + 96 - ssize, g)))
  }

  /** The last sbrk brings nothing, or not enough. */
  ghost predicate LateRefused(nb: int, asize: int, os: Answers) {
    var br := os.late(asize);
    || asize >= 0x7FFF_FFFF_FFFF_FFFF || Failed(br) || Failed(os.lateBrk) || br >= os.lateBrk
    || os.lateBrk - br <= nb + 80
  }

  // ---------- which memory the system gives ----------

  datatype Grant = NoGrant | Grant(base: int, size: int, mapped: bool)

  function GrantOf(base: int, size: int, mapped: bool): Grant {
    if base == CMFAIL then NoGrant else Grant(base, size, mapped)
  }

  /**
   * The contiguous way: what the first sbrk brings, if it is where it was hoped for or is enough by
   * itself, and otherwise that with what the second one adds.
   */
  ghost function SbrkGrant(s: Snap, end: int, nb: int, asize: int, g: int, page: int, os: Answers): Grant
    requires g > 0 && page > 0
  {
    var ssize := SbrkRequest(s, nb, asize, g, page, os);
    var enough := ssize >= nb + 96 || (s.top != 0 && os.more(ssize) == end);
    if SbrkRefused(s, end, nb, asize, g, page, os) then NoGrant
    else Grant(os.more(ssize), ssize + (if enough then 0 else SizeAlign(nb + 96 - ssize, g)), false)
  }

  /** Contiguous sbrk, then mmap, which alone gives mapped memory, and then any sbrk. */
  ghost function MemoryFor(g: int, page: int, s: Snap, y: Sys, nb: int, asize: int, os: Answers): Grant
    requires g > 0 && page > 0
  {
    if !y.noncontiguous && !SbrkRefused(s, y.base + y.size, nb, asize, g, page, os)
      then SbrkGrant(s, y.base + y.size, nb, asize, g, page, os)
    else if !Failed(os.mmap(asize)) then Grant(os.mmap(asize), asize, true)
    else if !LateRefused(nb, asize, os) then Grant(os.late(asize), os.lateBrk - os.late(asize), false)
    else NoGrant
  }

  /** Every way to get memory for nb bytes fails. */
  ghost predicate Refused(g: int, page: int, mmapThreshold: int, s: Snap, y: Sys, nb: int, os: Answers)
    requires g > 0 && page > 0
  {
    var asize := SizeAlign(SizeT(nb + 96), g);
    && !DirectDue(s, page, mmapThreshold, nb, os)
    && (asize <= nb || MemoryFor(g, page, s, y, nb, asize, os) == NoGrant)
  }

  /** The contiguous way, in its two forms: before there is any segment, and at the end of the first. */
  method FirstSbrk(M: MallocState, nb: int, asize: int, os: Answers) returns (tbase: int, tsize: int, br: int, ssize: int)
    requires BooksOk(M.gm, M.granularity, M.Now(), M.Accounts()) && HeapOk(M.gm, M.Now()) && Honest(M.gm, M.Now(), os)
    requires Unit(M.granularity) && Unit(M.pageSize) && !M.noncontiguous && nb > 0 && nb >= M.topsize
    requires nb + SYS_ALLOC_PADDING <= asize < nb + SYS_ALLOC_PADDING + M.granularity
    requires asize % M.granularity == 0 && asize % 16 == 0 && nb + SYS_ALLOC_PADDING + M.granularity <= SIZE_T_MOD
    ensures Given(M.gm, M.granularity, M.Now(), M.Accounts(), nb, tbase, tsize, false)
    ensures br == CMFAIL || (br == os.more(ssize) && M.granularity <= ssize < HALF_MAX_SIZE_T && ssize % 16 == 0)
    ensures br != CMFAIL ==> nb + SYS_ALLOC_PADDING - ssize <= ADDRESS_LIMIT
    ensures tbase != CMFAIL ==>
      Grant(tbase, tsize, false) == SbrkGrant(M.Now(), M.segBase + M.segSize, nb, asize, M.granularity, M.pageSize, os)
    ensures tbase == CMFAIL ==>
      (br == CMFAIL || SecondRefused(nb, ssize, M.granularity, os))
      == SbrkRefused(M.Now(), M.segBase + M.segSize, nb, asize, M.granularity, M.pageSize, os)
    ensures tbase == CMFAIL && br != CMFAIL ==>
      ssize == SbrkRequest(M.Now(), nb, asize, M.granularity, M.pageSize, os) && (M.top != 0 ==> br != M.segBase + M.segSize)
  {
    hide HeapOk, BooksOk, Honest, SizeAlign, SizeT, Fresh, GoodSize, Given, SecondRefused;
    ghost var s, y := M.Now(), M.Accounts();
    NothingGiven(M.gm, M.granularity, s, nb);
    tbase, tsize, br, ssize := CMFAIL, 0, CMFAIL, asize;
    AtLeastUnit(asize, M.granularity);
    if M.top == 0 {
      var base := os.brk;
      if base != CMFAIL {
        BrkFacts(M.gm, s, os, M.pageSize);
        if base % M.pageSize != 0 {
          ssize := SizeT(ssize + SizeAlign(base, M.pageSize) - base);
        }
        assert ssize == FirstRequest(asize, base, M.pageSize);
        if ssize > nb && ssize < HALF_MAX_SIZE_T {
          FirstSize(asize, base, M.pageSize, nb, M.granularity);
          EnoughFirst(nb, ssize, M.granularity, os);
          br := os.more(ssize);
          if br == base {
            FirstGiven(M.gm, M.granularity, s, y, os, nb, ssize);
            tbase, tsize := base, ssize;
          }
        }
      }
    } else {
      ssize := SizeAlign(SizeT(nb - M.topsize + SYS_ALLOC_PADDING), M.granularity);
      if ssize < HALF_MAX_SIZE_T {
        TopSmall(M.gm, s);
        LaterSize(nb, M.topsize, M.granularity);
        EndOfHead(M.gm, M.granularity, s, y);
        br := os.more(ssize);
        if br == M.segBase + M.segSize {
          LaterGiven(M.gm, M.granularity, s, y, os, nb, ssize);
          tbase, tsize := br, ssize;
        }
      }
    }
  }

  lemma EnoughFirst(nb: int, ssize: int, g: int, os: Answers)
    requires g > 0 && ssize >= nb + SYS_ALLOC_PADDING
    ensures !SecondRefused(nb, ssize, g, os)
  {
  }

  lemma EndOfHead(gm: int, unit: int, s: Snap, y: Sys)
    requires HeapOk(gm, s) && BooksOk(gm, unit, s, y) && s.topsize != 0
    ensures y.base + y.size <= ADDRESS_LIMIT
  {
    hide HeapOk, BooksOk, Region, Unpinned;
    HeadSegment(gm, unit, s, y);
    TopRegion(gm, s);
  }

  lemma FirstGiven(gm: int, g: int, s: Snap, y: Sys, os: Answers, nb: int, ssize: int)
    requires Honest(gm, s, os) && os.more(ssize) != CMFAIL && ssize >= nb + SYS_ALLOC_PADDING && nb > 0 && ssize % 16 == 0
    ensures Given(gm, g, s, y, nb, os.more(ssize), ssize, false)
  {
    hide Honest, Fresh;
    DirectFresh(gm, s, os, ssize);
  }

  lemma LaterGiven(gm: int, g: int, s: Snap, y: Sys, os: Answers, nb: int, ssize: int)
    requires Honest(gm, s, os) && os.more(ssize) == y.base + y.size != CMFAIL && s.topsize != 0 && nb > 0
    requires s.topsize + ssize >= nb + SYS_ALLOC_PADDING && ssize >= 4096 && ssize % 16 == 0 && !y.noncontiguous
    ensures Given(gm, g, s, y, nb, os.more(ssize), ssize, false)
  {
    hide Honest, Fresh;
    DirectFresh(gm, s, os, ssize);
  }

  lemma AtLeastUnit(x: int, g: int)
    requires x > 0 && g > 0 && x % g == 0
    ensures x >= g
  {
    if x < g { ModUnique(x, g, 0, x); }
  }

  lemma BrkFacts(gm: int, s: Snap, os: Answers, page: int)
    requires Honest(gm, s, os) && os.brk != CMFAIL
    ensures 0 <= os.brk <= ADDRESS_LIMIT && os.brk % 16 == 0
  {
  }

  /** The first request also fills up the page that the break is in. */
  lemma FirstSize(asize: int, base: int, page: int, nb: int, g: int)
    requires Unit(page) && Unit(g) && 0 <= base <= ADDRESS_LIMIT && base % 16 == 0 && asize % 16 == 0 && nb > 0
    requires nb + SYS_ALLOC_PADDING <= asize < nb + SYS_ALLOC_PADDING + g && g <= asize
    requires nb + SYS_ALLOC_PADDING + g <= SIZE_T_MOD
    ensures var ssize := if base % page != 0 then SizeT(asize + SizeAlign(base, page) - base) else asize;
      nb < ssize < HALF_MAX_SIZE_T ==> ssize >= asize && ssize % 16 == 0
  {
    hide SizeAlign, SizeT;
    SizeAlignIs(base, page);
    var pad := SizeAlign(base, page) - base;
    PadEven(SizeAlign(base, page), base);
    SizeTIs(asize + pad);
    PadSum16(asize, pad);
  }

  lemma SizeTIs(x: int)
    requires 0 <= x < 2 * SIZE_T_MOD
    ensures SizeT(x) == if x < SIZE_T_MOD then x else x - SIZE_T_MOD
  {
  }

  lemma PadEven(r: int, b: int)
    requires r % 16 == 0 && b % 16 == 0
    ensures (r - b) % 16 == 0
  {
    assert r - b == 16 * (r / 16 - b / 16);
  }

  lemma TopSmall(gm: int, s: Snap)
    requires HeapOk(gm, s)
    ensures 0 <= s.topsize < ADDRESS_LIMIT && s.topsize % 16 == 0 && (s.top == 0 <==> s.topsize == 0)
  {
    hide HeapOk, Region, Unpinned;
    DvFacts(gm, s);
    NoDvTop(gm, s);
    if s.topsize != 0 { TopRegion(gm, s); }
  }

  /** A later request leaves out what top still has. */
  lemma LaterSize(nb: int, topsize: int, g: int)
    requires Unit(g) && 0 <= topsize <= nb && nb + SYS_ALLOC_PADDING + g <= SIZE_T_MOD
    ensures var ssize := SizeAlign(SizeT(nb - topsize + SYS_ALLOC_PADDING), g);
      g <= ssize && ssize % 16 == 0 && topsize + ssize >= nb + SYS_ALLOC_PADDING
  {
    hide SizeAlign, SizeT;
    var x := nb - topsize + SYS_ALLOC_PADDING;
    SizeTIs(x);
    SizeAlignIs(x, g);
    AtLeastUnit(SizeAlign(x, g), g);
  }

  /** What sys_alloc has computed before it asks. */
  ghost predicate Asking(M: MallocState, nb: int, asize: int, os: Answers)
    reads M
  {
    && BooksOk(M.gm, M.granularity, M.Now(), M.Accounts()) && HeapOk(M.gm, M.Now()) && Honest(M.gm, M.Now(), os)
    && Unit(M.granularity) && Unit(M.pageSize) && nb > 0 && nb >= M.topsize && nb % 16 == 0
    && nb + SYS_ALLOC_PADDING <= asize < nb + SYS_ALLOC_PADDING + M.granularity
    && asize % M.granularity == 0 && asize % 16 == 0 && nb + SYS_ALLOC_PADDING + M.granularity <= SIZE_T_MOD
  }

  /** The contiguous way with its attempt to cope with partial failure. */
  method Contiguous(M: MallocState, nb: int, asize: int, os: Answers) returns (tbase: int, tsize: int)
    requires Asking(M, nb, asize, os) && !M.noncontiguous
    modifies M`noncontiguous
    ensures Given(M.gm, M.granularity, M.Now(), M.Accounts(), nb, tbase, tsize, false)
    ensures GrantOf(tbase, tsize, false) == SbrkGrant(M.Now(), M.segBase + M.segSize, nb, asize, M.granularity, M.pageSize, os)
    ensures M.noncontiguous <==> SbrkRefused(M.Now(), M.segBase + M.segSize, nb, asize, M.granularity, M.pageSize, os)
  {
    hide HeapOk, BooksOk, Honest, SizeAlign, SizeT, GoodSize, Given, SbrkRefused, SbrkRequest;
    ghost var s, y := M.Now(), M.Accounts();
    NothingGiven(M.gm, M.granularity, s, nb);
    var br, ssize;
    tbase, tsize, br, ssize := FirstSbrk(M, nb, asize, os);
    if tbase == CMFAIL {
      if br != CMFAIL {
        SecondSbrk(M.gm, M.granularity, s, y, os, nb, ssize);
        if ssize < nb + SYS_ALLOC_PADDING {
          var esize := SizeAlign(nb + SYS_ALLOC_PADDING - ssize, M.granularity);
          ExtraSmall(nb, ssize, M.granularity);
          if esize < HALF_MAX_SIZE_T {
            var end := os.extra(esize);
            if end != CMFAIL {
              ssize := ssize + esize;
            } else {
              br := CMFAIL;
            }
          }
        }
      }
      if br != CMFAIL {
        tbase, tsize := br, ssize;
      } else {
        M.noncontiguous := true;
      }
    }
  }

  lemma NothingGiven(gm: int, g: int, s: Snap, nb: int)
    ensures forall y, size, mapped {:trigger Given(gm, g, s, y, nb, CMFAIL, size, mapped)} ::
      Given(gm, g, s, y, nb, CMFAIL, size, mapped)
  {
  }

  lemma GivenIs(gm: int, g: int, s: Snap, y: Sys, nb: int, b: int, size: int, mapped: bool)
    requires Fresh(gm, s, b, b + size) && size >= nb + SYS_ALLOC_PADDING && nb > 0 && (mapped ==> Whole(g, size) && y.noncontiguous)
    ensures Given(gm, g, s, y, nb, b, size, mapped)
  {
    hide Fresh;
  }

  /** The ways to get memory, in the order of the source: contiguous sbrk, mmap, any sbrk. */
  method AskSystem(M: MallocState, nb: int, asize: int, os: Answers) returns (tbase: int, tsize: int, mapped: bool)
    requires Asking(M, nb, asize, os)
    modifies M`noncontiguous
    ensures Given(M.gm, M.granularity, M.Now(), M.Accounts(), nb, tbase, tsize, mapped)
    ensures GrantOf(tbase, tsize, mapped) == MemoryFor(M.granularity, M.pageSize, M.Now(), old(M.Accounts()), nb, asize, os)
    ensures M.noncontiguous <==>
      old(M.noncontiguous) || SbrkRefused(M.Now(), M.segBase + M.segSize, nb, asize, M.granularity, M.pageSize, os)
  {
    hide HeapOk, BooksOk, Honest, GoodSize, Given, Fresh, SbrkRefused, SbrkRequest;
    ghost var s := M.Now();
    NothingGiven(M.gm, M.granularity, s, nb);
    DirectFresh(M.gm, s, os, asize);
    tbase, tsize, mapped := CMFAIL, 0, false;
    if !M.noncontiguous {
      tbase, tsize := Contiguous(M, nb, asize, os);
    }
    if tbase == CMFAIL {
      var mp := os.mmap(asize);
      if mp != CMFAIL {
        tbase, tsize, mapped := mp, asize, true;
        GivenIs(M.gm, M.granularity, s, M.Accounts(), nb, tbase, tsize, mapped);
      }
    }
    if tbase == CMFAIL {
      if asize < HALF_MAX_SIZE_T {
        var br := os.late(asize);
        var end := os.lateBrk;
        if br != CMFAIL && end != CMFAIL && br < end {
          FreshBounds(M.gm, s, br, end);
          var ssize := end - br;
          if ssize > nb + TOP_FOOT_SIZE {
            EvenMore(br, end, nb);
            tbase, tsize := br, ssize;
            GivenIs(M.gm, M.granularity, s, M.Accounts(), nb, tbase, tsize, mapped);
          }
        }
      }
    }
  }

  lemma EvenMore(b: int, e: int, nb: int)
    requires b % 16 == 0 && e % 16 == 0 && nb % 16 == 0 && e - b > nb + TOP_FOOT_SIZE
    ensures e - b >= nb + SYS_ALLOC_PADDING
  {
    assert e - b - nb == 16 * (e / 16 - b / 16 - nb / 16);
  }

  /** The second sbrk never asks for half of the address space. */
  lemma ExtraSmall(nb: int, ssize: int, g: int)
    requires Unit(g) && 0 < nb + SYS_ALLOC_PADDING - ssize <= ADDRESS_LIMIT
    ensures SizeAlign(nb + SYS_ALLOC_PADDING - ssize, g) < HALF_MAX_SIZE_T
  {
    SizeAlignIs(nb + SYS_ALLOC_PADDING - ssize, g);
    hide SizeAlign;
  }

  // ---------- sys_alloc ----------

  lemma NoncontiguousOnly(gm: int, unit: int, s: Snap, y: Sys, y': Sys)
    requires SysOk(gm, unit, s, y) && y' == y.(noncontiguous := y'.noncontiguous) && (y.noncontiguous ==> y'.noncontiguous)
    ensures SysOk(gm, unit, s, y')
  {
    hide HeapOk, MapsOk, RecordAt, MapBytes;
    if s.segs != [] {
      forall i | 0 <= i < |y'.recs| ensures RecordAt(s.mem, s.chunks, s.segs[i + 1], y'.recs[i], RecPtr(y'.recs, i + 1)) {
        assert RecordAt(s.mem, s.chunks, s.segs[i + 1], y.recs[i], RecPtr(y.recs, i + 1));
      }
    }
  }

  /** Two segments never end, or start, at the same place, and only the first holds top. */
  lemma SegmentsDiffer(gm: int, unit: int, s: Snap, y: Sys, i: nat)
    requires HeapOk(gm, s) && BooksOk(gm, unit, s, y) && i < |s.segs| && s.topsize != 0
    ensures End(s.segs[i]) == End(s.segs[0]) ==> i == 0
    ensures s.segs[i].base <= s.top < End(s.segs[i]) ==> i == 0
    ensures s.segs[0].base <= s.top < End(s.segs[0]) && s.segs[0] == Segment(y.base, y.size, y.isMapped)
    ensures !y.noncontiguous ==> !s.segs[i].mapped
  {
    hide Tags, BinsOk, StateApart, MapsOk, CountOk, RecordAt;
    assert Started(s.chunks, s.segs[i]) && Started(s.chunks, s.segs[0]);
    DvFacts(gm, s);
  }

  /** The new memory has become part of the heap, and the request is served from top. */
  lemma ServedHanded(gm: int, unit: int, s: Snap, s1: Snap, s2: Snap, y: Sys, p: int, nb: int)
    requires SysOk(gm, unit, s1, y) && SameBlocks(s, s1, {}) && Served(gm, s1, s2, p, nb) && SameEnd(s1, s2) && s2.segs == s1.segs
    requires p in s1.chunks && s1.chunks[p].kind == Top
    ensures SysOk(gm, unit, s2, y) && Handed(s, s2, p, nb)
  {
    hide HeapOk, Settled, BooksOk, Keeps, SamePayload;
    BooksKept(gm, unit, s1, s2, y, {p});
    KeepsBlocks(s1, s2, {p}, {p});
    assert SameBlockAt(s, s1, p);
    hide SameBlocks;
    BlocksTrans(s, s1, s2, {}, {p}, {p});
    LooseSize(gm, s2, p, s2.chunks[p].size);
  }

  // ---------- which segment is new, or has grown ----------

  /** The first segment takes in memory behind it, if it came in the same way. */
  ghost predicate Appends(s: Snap, gr: Grant) {
    gr.Grant? && s.topsize != 0 && s.segs != [] && End(s.segs[0]) == gr.base && s.segs[0].mapped == gr.mapped
  }

  /** Otherwise a segment takes in memory before it, if it came in the same way. */
  ghost predicate Prepends(s: Snap, gr: Grant) {
    gr.Grant? && s.topsize != 0 && !Appends(s, gr) &&
    var i := FirstAt(s.segs, gr.base + gr.size, false);
    i < |s.segs| && s.segs[i].mapped == gr.mapped
  }

  /** Top has grown, or is new, in the segment that has grown or is new. */
  ghost predicate TopGrown(s: Snap, s': Snap, gr: Grant) {
    gr.Grant? &&
    if Appends(s, gr) then
      && s'.segs == s.segs[0 := Segment(s.segs[0].base, s.segs[0].size + gr.size, gr.mapped)]
      && s'.top == s.top && s'.topsize == s.topsize + gr.size
    else
      && s'.segs == [Segment(gr.base, gr.size, gr.mapped)] + (if s.topsize == 0 then [] else s.segs)
      && s'.top == gr.base && s'.topsize == gr.size - 80
  }

  /** The request is served at p, from the start of top as it is then, or from the memory itself. */
  ghost predicate Placed(s: Snap, s': Snap, gr: Grant, p: int, nb: int) {
    gr.Grant? && p in s'.chunks && s'.chunks[p] == Chunk(nb, Used) &&
    if Prepends(s, gr) then
      var i := FirstAt(s.segs, gr.base + gr.size, false);
      && p == gr.base && s'.segs == s.segs[i := Segment(gr.base, gr.size + s.segs[i].size, gr.mapped)]
      && RestWent(s, s', gr.base + gr.size, gr.base + nb)
    else
      p == s'.top - nb && TopGrown(s, s'.(top := p, topsize := s'.topsize + nb), gr)
  }

  lemma ServedPlaced(s: Snap, s1: Snap, s2: Snap, gr: Grant, p: int, nb: int)
    requires TopGrown(s, s1, gr) && !Prepends(s, gr) && s2.segs == s1.segs
    requires p == s1.top && s2.top == p + nb && s2.topsize == s1.topsize - nb && p in s2.chunks && s2.chunks[p] == Chunk(nb, Used)
    ensures Placed(s, s2, gr, p, nb)
  {
    hide FirstAt;
  }

  lemma PrependPlaced(s: Snap, s': Snap, b: int, size: int, mapped: bool, p: int, nb: int, i: nat)
    requires i == FirstAt(s.segs, b + size, false) && i < |s.segs| && s.segs[i].mapped == mapped && s.topsize != 0
    requires !Appends(s, Grant(b, size, mapped)) && p == b && p in s'.chunks && s'.chunks[p] == Chunk(nb, Used)
    requires s'.segs == s.segs[i := Segment(b, s.segs[i].size + size, s.segs[i].mapped)] && RestWent(s, s', b + size, b + nb)
    requires SameBlocks(s, s', {p}) && !Owned(s, p) && Owned(s', p) && p % 16 == 0 && p != 0
    ensures MemoryPlaced(s, s', Grant(b, size, mapped), p, nb)
  {
    hide FirstAt, RestWent, SameBlocks;
  }

  /** The new memory is in its place, and if it is not before a segment, the request is still to be served. */
  ghost predicate MemoryPlaced(s: Snap, s': Snap, gr: Grant, p: int, nb: int) {
    if p == 0 then SameBlocks(s, s', {}) && nb < s'.topsize && !Prepends(s, gr) && TopGrown(s, s', gr)
    else Handed(s, s', p, nb) && Prepends(s, gr) && Placed(s, s', gr, p, nb)
  }

  lemma TopPlaced(s: Snap, s': Snap, gr: Grant, nb: int)
    requires SameBlocks(s, s', {}) && nb < s'.topsize && !Prepends(s, gr) && TopGrown(s, s', gr)
    ensures MemoryPlaced(s, s', gr, 0, nb)
  {
    hide SameBlocks, Prepends, TopGrown;
  }

  /** Where the new memory goes, in the order of the source. */
  method PlaceMemory(M: MallocState, tbase: int, tsize: int, mapped: bool, nb: int, ghost y: Sys) returns (p: int)
    requires HeapOk(M.gm, M.Now()) && Settled(M.Now()) && BooksOk(M.gm, M.granularity, M.Now(), y) && Raised(M, y, tsize)
    requires Given(M.gm, M.granularity, M.Now(), y, nb, tbase, tsize, mapped) && tbase != CMFAIL
    requires MIN_CHUNK_SIZE <= nb && nb % 16 == 0
    modifies M
    ensures SysOk(M.gm, M.granularity, M.Now(), M.Accounts())
    ensures MemoryPlaced(old(M.Now()), M.Now(), Grant(tbase, tsize, mapped), p, nb)
    ensures M.footprint == old(M.footprint) && M.noncontiguous == old(M.noncontiguous)
    ensures M.trimCheck == if p == 0 then M.trimThreshold else old(M.trimCheck)
    ensures M.releaseChecks == if old(M.topsize) == 0 then 4095 else old(M.releaseChecks)
  {
    hide HeapOk, Settled, BooksOk, Raised, Fresh, SysOk, SameBlocks, Owned, SegPtr, BaseOf, FlagOf, Whole, FirstAt, MemoryPlaced;
    ghost var s, gr := M.Now(), Grant(tbase, tsize, mapped);
    RaisedIs(M, y, tsize);
    TopSmall(M.gm, s);
    FreshBounds(M.gm, s, tbase, tbase + tsize);
    p := 0;
    if M.top == 0 {
      NoSegmentsYet(M.gm, M.granularity, s, y);
      FirstSegment(M, tbase, tsize, mapped, y);
      TopPlaced(s, M.Now(), gr, nb);
      return;
    }
    HeadSegment(M.gm, M.granularity, s, y);
    SegmentsDiffer(M.gm, M.granularity, s, y, 0);
    var sp;
    ghost var i;
    sp, i := FindSegment(M, tbase, true, y);
    if sp != 0 {
      EntrySays(M, y, i);
      SegmentsDiffer(M.gm, M.granularity, s, y, i);
    }
    if sp != 0 && FlagOf(M, sp) == MappedFlag(mapped) && BaseOf(M, sp) <= M.top < BaseOf(M, sp) + SizeOf(M, sp) {
      assert Appending(M.gm, M.granularity, s, y, tsize);
      AppendTop(M, tsize, y);
      TopPlaced(s, M.Now(), gr, nb);
    } else {
      p := PlaceBeside(M, tbase, tsize, mapped, nb, y);
    }
  }

  /** The part of it behind the test for memory that follows top. */
  method PlaceBeside(M: MallocState, tbase: int, tsize: int, mapped: bool, nb: int, ghost y: Sys) returns (p: int)
    requires HeapOk(M.gm, M.Now()) && Settled(M.Now()) && BooksOk(M.gm, M.granularity, M.Now(), y) && Raised(M, y, tsize)
    requires Fresh(M.gm, M.Now(), tbase, tbase + tsize) && tsize >= nb + SYS_ALLOC_PADDING
    requires mapped ==> Whole(M.granularity, tsize) && y.noncontiguous
    requires M.topsize != 0 && M.segs != [] && !Appends(M.Now(), Grant(tbase, tsize, mapped))
    requires MIN_CHUNK_SIZE <= nb && nb % 16 == 0
    modifies M
    ensures SysOk(M.gm, M.granularity, M.Now(), M.Accounts())
    ensures MemoryPlaced(old(M.Now()), M.Now(), Grant(tbase, tsize, mapped), p, nb)
    ensures M.footprint == old(M.footprint) && M.noncontiguous == old(M.noncontiguous)
    ensures M.trimCheck == if p == 0 then M.trimThreshold else old(M.trimCheck)
    ensures M.releaseChecks == if old(M.topsize) == 0 then 4095 else old(M.releaseChecks)
  {
    hide HeapOk, Settled, BooksOk, Raised, Fresh, SysOk, SameBlocks, Owned, SegPtr, FlagOf, Whole, FirstAt, RestWent, MemoryPlaced;
    ghost var s, gr := M.Now(), Grant(tbase, tsize, mapped);
    RaisedIs(M, y, tsize);
    FreshBounds(M.gm, s, tbase, tbase + tsize);
    p := 0;
    var sp;
    ghost var i;
    sp, i := FindSegment(M, tbase + tsize, false, y);
    if sp != 0 {
      EntrySays(M, y, i);
    }
    if sp != 0 && FlagOf(M, sp) == MappedFlag(mapped) {
      p := PrependAlloc(M, sp, tbase, tsize, nb, i, y);
      PrependPlaced(s, M.Now(), tbase, tsize, mapped, p, nb, i);
    } else {
      AddSegment(M, tbase, tsize, mapped, y);
      TopPlaced(s, M.Now(), gr, nb);
    }
  }

  lemma NoSegmentsYet(gm: int, unit: int, s: Snap, y: Sys)
    requires BooksOk(gm, unit, s, y)
    ensures s.topsize == 0 ==> s.segs == []
  {
    hide MapsOk, CountOk, RecordAt;
  }

  /** A segment has served the request: which memory is new in it, and what the books say. */
  ghost predicate Grown(g: int, page: int, s: Snap, y: Sys, s': Snap, y': Sys, nb: int, asize: int, os: Answers, p: int)
    requires g > 0 && page > 0
  {
    var gr := MemoryFor(g, page, s, y, nb, asize, os);
    && gr.Grant? && Placed(s, s', gr, p, nb) && y'.footprint == y.footprint + gr.size
    && (y'.noncontiguous <==> y.noncontiguous || SbrkRefused(s, y.base + y.size, nb, asize, g, page, os))
  }

  ghost predicate DirectDue(s: Snap, page: int, mmapThreshold: int, nb: int, os: Answers)
    requires page > 0
  {
    nb >= mmapThreshold && s.topsize != 0 && !DirectRefused(nb, page, os)
  }

  /** The block at p has a region of its own if the request is large and the system maps one, and else is in a segment. */
  ghost predicate FromSystem(g: int, page: int, mmapThreshold: int, s: Snap, y: Sys, s': Snap, y': Sys, nb: int, os: Answers, p: int)
    requires g > 0 && page > 0
  {
    if DirectDue(s, page, mmapThreshold, nb, os) then
      var z := DirectSize(nb, page);
      DirectlyMapped(s, s', p, z, os) && y'.footprint == y.footprint + z && y'.noncontiguous == y.noncontiguous
    else
      Grown(g, page, s, y, s', y', nb, SizeAlign(SizeT(nb + 96), g), os, p)
  }

  /**
   * sys_alloc: it fails exactly if every way to get memory fails, and then it has changed nothing;
   * whatever the system gives is enough to serve the request.
   */
  method SysAllocate(M: MallocState, nb: int, os: Answers) returns (p: int)
    requires SysOk(M.gm, M.granularity, M.Now(), M.Accounts()) && Honest(M.gm, M.Now(), os)
    requires Unit(M.granularity) && Unit(M.pageSize)
    requires MIN_CHUNK_SIZE <= nb < SIZE_T_MOD && M.topsize <= nb && (nb % 16 == 0 || nb == SIZE_T_MOD - 1)
    modifies M
    ensures SysOk(M.gm, M.granularity, M.Now(), M.Accounts())
    ensures p == 0 <==> Refused(M.granularity, M.pageSize, M.mmapThreshold, old(M.Now()), old(M.Accounts()), nb, os)
    ensures p == 0 ==> M.Now() == old(M.Now()) && M.footprint == old(M.footprint)
    ensures p != 0 ==> Handed(old(M.Now()), M.Now(), p, nb)
    ensures p != 0 ==>
      FromSystem(M.granularity, M.pageSize, M.mmapThreshold, old(M.Now()), old(M.Accounts()), M.Now(), M.Accounts(), nb, os, p)
    ensures p == 0 || DirectDue(old(M.Now()), M.pageSize, M.mmapThreshold, nb, os) ==>
      M.trimCheck == old(M.trimCheck) && M.releaseChecks == old(M.releaseChecks)
    ensures p != 0 && !DirectDue(old(M.Now()), M.pageSize, M.mmapThreshold, nb, os) ==>
      var asize := SizeAlign(SizeT(nb + 96), M.granularity);
      var gr := MemoryFor(M.granularity, M.pageSize, old(M.Now()), old(M.Accounts()), nb, asize, os);
      && M.trimCheck == (if Prepends(old(M.Now()), gr) then old(M.trimCheck) else M.trimThreshold)
      && M.releaseChecks == (if old(M.topsize) == 0 then 4095 else old(M.releaseChecks))
  {
    hide SysOk, Honest, SizeAlign, SizeT, Handed, DirectRefused, MemoryFor, Refused, DirectlyMapped, DirectSize, Grown;
    RefusedIs(M.granularity, M.pageSize, M.mmapThreshold, M.Now(), M.Accounts(), nb, os);
    if nb >= M.mmapThreshold && M.topsize != 0 {
      p := MmapAlloc(M, nb, os);
      if p != 0 {
        return;
      }
    }
    PaddedEnough(nb, SYS_ALLOC_PADDING, M.granularity);
    var asize := SizeAlign(SizeT(nb + SYS_ALLOC_PADDING), M.granularity);
    p := 0;
    if asize <= nb {
      return;
    }
    AskingIs(M, nb, asize, os);
    p := GrowAndServe(M, nb, asize, os);
  }

  lemma RefusedIs(g: int, page: int, mmapThreshold: int, s: Snap, y: Sys, nb: int, os: Answers)
    requires g > 0 && page > 0
    ensures var asize := SizeAlign(SizeT(nb + SYS_ALLOC_PADDING), g);
      Refused(g, page, mmapThreshold, s, y, nb, os) <==>
        && (nb < mmapThreshold || s.topsize == 0 || DirectRefused(nb, page, os))
        && (asize <= nb || MemoryFor(g, page, s, y, nb, asize, os) == NoGrant)
  {
    hide SizeAlign, SizeT, DirectRefused, MemoryFor;
  }

  /** The part of sys_alloc behind the padding of the request. */
  method GrowAndServe(M: MallocState, nb: int, asize: int, os: Answers) returns (p: int)
    requires SysOk(M.gm, M.granularity, M.Now(), M.Accounts()) && Asking(M, nb, asize, os) && nb >= MIN_CHUNK_SIZE
    modifies M
    ensures SysOk(M.gm, M.granularity, M.Now(), M.Accounts())
    ensures p == 0 <==> MemoryFor(M.granularity, M.pageSize, old(M.Now()), old(M.Accounts()), nb, asize, os) == NoGrant
    ensures p == 0 ==> M.Now() == old(M.Now()) && M.footprint == old(M.footprint)
    ensures p != 0 ==> Handed(old(M.Now()), M.Now(), p, nb)
    ensures p != 0 ==>
      Grown(M.granularity, M.pageSize, old(M.Now()), old(M.Accounts()), M.Now(), M.Accounts(), nb, asize, os, p)
    ensures p != 0 ==>
      var gr := MemoryFor(M.granularity, M.pageSize, old(M.Now()), old(M.Accounts()), nb, asize, os);
      M.trimCheck == if Prepends(old(M.Now()), gr) then old(M.trimCheck) else M.trimThreshold
    ensures p != 0 ==> M.releaseChecks == (if old(M.topsize) == 0 then 4095 else old(M.releaseChecks))
    ensures p == 0 ==> M.trimCheck == old(M.trimCheck) && M.releaseChecks == old(M.releaseChecks)
  {
    hide SysOk, HeapOk, BooksOk, Raised, Given, Handed, MemoryFor, Honest, SameBlocks, Placed, Prepends, TopGrown, SbrkRefused;
    ghost var s, y0 := M.Now(), M.Accounts();
    var tbase, tsize, mapped := AskSystem(M, nb, asize, os);
    NoncontiguousOnly(M.gm, M.granularity, s, y0, M.Accounts());
    p := 0;
    if tbase != CMFAIL {
      ghost var y := M.Accounts();
      RaiseFootprint(M, tsize);
      RaisedBy(M, y, tsize);
      SysParts(M.gm, M.granularity, s, y);
      p := PlaceMemory(M, tbase, tsize, mapped, nb, y);
      if p == 0 {
        ghost var s1 := M.Now();
        p := ServeTop(M, nb, s);
        ServedPlaced(s, s1, M.Now(), Grant(tbase, tsize, mapped), p, nb);
      }
    }
  }

  /** The request is served from the start of top, which has just grown or is new. */
  method ServeTop(M: MallocState, nb: int, ghost s: Snap) returns (p: int)
    requires SysOk(M.gm, M.granularity, M.Now(), M.Accounts()) && SameBlocks(s, M.Now(), {})
    requires MIN_CHUNK_SIZE <= nb < M.topsize && nb % 16 == 0
    modifies M`mem, M`chunks, M`top, M`topsize
    ensures SysOk(M.gm, M.granularity, M.Now(), M.Accounts()) && Handed(s, M.Now(), p, nb) && p != 0
    ensures p == old(M.top) && M.top == p + nb && M.topsize == old(M.topsize) - nb && p in M.chunks && M.chunks[p] == Chunk(nb, Used)
  {
    hide SysOk, SameBlocks, HeapOk, Settled, Served, Handed;
    ghost var s1, y := M.Now(), M.Accounts();
    SysParts(M.gm, M.granularity, s1, y);
    TopIsThere(M.gm, s1, nb);
    p := MallocFromTop(M, nb);
    ServedHanded(M.gm, M.granularity, s, s1, M.Now(), y, p, nb);
  }

  lemma AskingIs(M: MallocState, nb: int, asize: int, os: Answers)
    requires SysOk(M.gm, M.granularity, M.Now(), M.Accounts()) && Honest(M.gm, M.Now(), os)
    requires Unit(M.granularity) && Unit(M.pageSize) && nb > 0 && nb >= M.topsize && (nb % 16 == 0 || nb == SIZE_T_MOD - 1)
    requires nb + SYS_ALLOC_PADDING <= asize < nb + SYS_ALLOC_PADDING + M.granularity
    requires asize % M.granularity == 0 && asize % 16 == 0 && nb + SYS_ALLOC_PADDING + M.granularity - 1 < SIZE_T_MOD
    ensures Asking(M, nb, asize, os) && nb % 16 == 0
  {
    hide HeapOk, BooksOk, Honest, Settled;
  }

  lemma RaisedBy(M: MallocState, y: Sys, d: int)
    requires M.Accounts() == Counted(y, d)
    ensures Raised(M, y, d)
  {
  }

  lemma TopIsThere(gm: int, s: Snap, nb: int)
    requires HeapOk(gm, s) && MIN_CHUNK_SIZE <= nb < s.topsize
    ensures s.top in s.chunks && s.chunks[s.top].kind == Top && s.top != 0
  {
    hide HeapOk, Region, Unpinned;
    TopRegion(gm, s);
  }
}
