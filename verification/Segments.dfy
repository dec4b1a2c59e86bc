/**
 * The invariant of the whole allocator: the heap, the list of segments with its records in memory,
 * the directly mapped chunks, and the footprint that counts all of it.
 */
module Segments {
  import opened Words
  import opened BinIndex
  import opened Rings
  import opened TreeMemory
  import opened Chunks
  import opened HeapState
  import opened Heap
  import opened Steps
  import opened HeapOps
  import opened Malloc
  import opened Consolidate
  import opened Growth
  import opened Trie
  import TB = TreeBins
  import SB = SmallBins

  // ---------- the list of segments ----------

  /** The record that follows the first n in the list, or 0. */
  function RecPtr(recs: seq<int>, n: nat): int {
    if n < |recs| then recs[n] else 0
  }

  function MappedFlag(isMapped: bool): int {
    if isMapped then 1 else 0
  }

  /** A segment other than the first ends with its own record and the fenceposts behind it. */
  ghost predicate RecordAt(m: Mem, cs: ChunkMap, sg: Segment, ss: int, next: int) {
    var c := ss - 16;
    var f := c + RECORD_SIZE;
    && sg.base <= c && c in cs && cs[c] == Chunk(RECORD_SIZE, Record)
    && f in cs && cs[f].kind == Fence && 32 <= cs[f].size && f + cs[f].size == End(sg)
    && Rd(m, ss) == sg.base && Rd(m, ss + 8) == sg.size && Rd(m, ss + 16) == next && Rd(m, ss + 24) == MappedFlag(sg.mapped)
  }

  /** A whole number of the units in which memory is requested. */
  predicate Whole(unit: int, size: int) {
    unit > 0 && size % unit == 0
  }

  /**
   * The list is in memory as it should be, top ends the first segment, and once a segment was
   * mapped, the contiguous way to grow is no longer tried.
   */
  ghost predicate ListOk(unit: int, s: Snap, y: Sys) {
    if s.segs == [] then s.topsize == 0 && y.recs == [] && y.next == 0
    else
      && |s.segs| == |y.recs| + 1 && s.segs[0] == Segment(y.base, y.size, y.isMapped) && y.next == RecPtr(y.recs, 0)
      && (forall i {:trigger RecordAt(s.mem, s.chunks, s.segs[i + 1], y.recs[i], RecPtr(y.recs, i + 1))} :: 0 <= i < |y.recs| ==>
            RecordAt(s.mem, s.chunks, s.segs[i + 1], y.recs[i], RecPtr(y.recs, i + 1)))
      && s.topsize != 0 && s.segs[0].base <= s.top && TopEndOf(s) == End(s.segs[0])
      && (forall i :: 0 <= i < |s.segs| && s.segs[i].mapped ==> Whole(unit, s.segs[i].size) && y.noncontiguous)
  }

  // ---------- directly mapped chunks ----------

  ghost predicate SegClear(sg: Segment, lo: int, hi: int) {
    End(sg) <= lo || hi <= sg.base
  }

  ghost predicate Alone(gm: int, s: Snap, p: int)
    requires p in s.chunks && s.chunks[p].kind.Mapped?
  {
    var lo, hi := MapLo(p, s.chunks[p]), p + Extent(s.chunks[p]);
    && RegionClear(gm, lo, hi) && lo % 16 == 0 && lo < hi
    && (forall i {:trigger SegClear(s.segs[i], lo, hi)} :: 0 <= i < |s.segs| ==> SegClear(s.segs[i], lo, hi))
    && (forall q {:trigger MapClear(q, s.chunks[q], lo, hi)} :: q in s.chunks && q != p ==> MapClear(q, s.chunks[q], lo, hi))
  }

  /** The mapped chunks are those of the list, each of them alone in its region. */
  ghost predicate MapsOk(gm: int, s: Snap, maps: seq<int>) {
    && NoDup(maps)
    && (forall p :: p in maps <==> p in s.chunks && s.chunks[p].kind.Mapped?)
    && (forall p {:trigger Alone(gm, s, p)} :: p in s.chunks && s.chunks[p].kind.Mapped? ==> Alone(gm, s, p))
  }

  // ---------- the accounts ----------

  function SegBytes(segs: seq<Segment>): int {
    if segs == [] then 0 else segs[0].size + SegBytes(segs[1..])
  }

  /** What a mapped chunk takes from the system. */
  function MapSize(p: int, c: Chunk): int {
    p + Extent(c) - MapLo(p, c)
  }

  ghost function MapBytes(cs: ChunkMap, maps: seq<int>): int {
    if maps == [] then 0 else (if maps[0] in cs then MapSize(maps[0], cs[maps[0]]) else 0) + MapBytes(cs, maps[1..])
  }

  /** footprint is what is held, and max_footprint is at least that. */
  ghost predicate CountOk(s: Snap, y: Sys) {
    y.footprint == SegBytes(s.segs) + MapBytes(s.chunks, y.maps) && y.footprint <= y.maxFootprint
  }

  ghost predicate BooksOk(gm: int, unit: int, s: Snap, y: Sys) {
    ListOk(unit, s, y) && MapsOk(gm, s, y.maps) && CountOk(s, y)
  }

  /** The invariant of the allocator between two calls. */
  ghost predicate SysOk(gm: int, unit: int, s: Snap, y: Sys) {
    HeapOk(gm, s) && Settled(s) && BooksOk(gm, unit, s, y)
  }

  lemma SysParts(gm: int, unit: int, s: Snap, y: Sys)
    requires SysOk(gm, unit, s, y)
    ensures HeapOk(gm, s) && Settled(s) && BooksOk(gm, unit, s, y)
  {
    hide HeapOk, Settled, BooksOk;
  }

  // ---------- steps inside the heap ----------

  /** A chunk that belongs to the allocator's own books, or has a region of its own. */
  predicate Special(k: Kind) {
    k == Record || k == Fence || k.Mapped?
  }

  ghost predicate NotSpecial(s: Snap, q: int) {
    q in s.chunks ==> !Special(s.chunks[q].kind)
  }

  ghost predicate SpecialAt(s: Snap, q: int) {
    q in s.chunks && Special(s.chunks[q].kind)
  }

  ghost predicate SameSpecialAt(s: Snap, s': Snap, q: int) {
    SpecialAt(s, q) || SpecialAt(s', q) ==>
      q in s.chunks && q in s'.chunks && s'.chunks[q] == s.chunks[q]
      && (s.chunks[q].kind != Fence ==> SamePayload(s.mem, s'.mem, q, s.chunks[q].size))
  }

  /** Records, fenceposts and mapped chunks are the same before and after. */
  ghost predicate SameSpecial(s: Snap, s': Snap) {
    forall q {:trigger SameSpecialAt(s, s', q)} :: SameSpecialAt(s, s', q)
  }

  lemma SpecialKept(s: Snap, s': Snap, but: set<int>)
    requires Keeps(s, s', but) && forall q :: q in but ==> NotSpecial(s, q) && NotSpecial(s', q)
    ensures SameSpecial(s, s')
  {
    hide SamePayload;
    forall q ensures SameSpecialAt(s, s', q) {
      if q !in but { assert KeepsAt(s, s', q); }
    }
  }

  lemma {:induction false} MapBytesKept(s: Snap, s': Snap, maps: seq<int>)
    requires SameSpecial(s, s') && forall p :: p in maps ==> p in s.chunks && s.chunks[p].kind.Mapped?
    ensures MapBytes(s'.chunks, maps) == MapBytes(s.chunks, maps)
  {
    hide SamePayload;
    if maps != [] {
      assert maps[0] in maps;
      assert SameSpecialAt(s, s', maps[0]);
      MapBytesKept(s, s', maps[1..]);
    }
  }

  lemma AloneKept(gm: int, s: Snap, s': Snap, p: int)
    requires SameSpecial(s, s') && s'.segs == s.segs && p in s.chunks && s.chunks[p].kind.Mapped? && Alone(gm, s, p)
    ensures p in s'.chunks && s'.chunks[p] == s.chunks[p] && Alone(gm, s', p)
  {
    hide SamePayload;
    assert SameSpecialAt(s, s', p);
    var lo, hi := MapLo(p, s.chunks[p]), p + Extent(s.chunks[p]);
    forall q | q in s'.chunks && q != p ensures MapClear(q, s'.chunks[q], lo, hi) {
      assert SameSpecialAt(s, s', q);
      if s'.chunks[q].kind.Mapped? {
        assert MapClear(q, s.chunks[q], lo, hi);
      }
    }
  }

  lemma MapsKept(gm: int, s: Snap, s': Snap, maps: seq<int>)
    requires SameSpecial(s, s') && s'.segs == s.segs && MapsOk(gm, s, maps)
    ensures MapsOk(gm, s', maps) && MapBytes(s'.chunks, maps) == MapBytes(s.chunks, maps)
  {
    hide SamePayload, Alone, MapBytes;
    MapBytesKept(s, s', maps);
    forall p | p in s'.chunks && s'.chunks[p].kind.Mapped? ensures p in s.chunks && s.chunks[p].kind.Mapped? && Alone(gm, s', p) {
      assert SameSpecialAt(s, s', p);
      assert Alone(gm, s, p);
      AloneKept(gm, s, s', p);
    }
    forall p ensures p in maps <==> p in s'.chunks && s'.chunks[p].kind.Mapped? {
      assert SameSpecialAt(s, s', p);
    }
  }

  /** A record and the fenceposts behind it stay where they are. */
  lemma RecordKept(s: Snap, s': Snap, sg: Segment, ss: int, next: int)
    requires SameSpecial(s, s') && RecordAt(s.mem, s.chunks, sg, ss, next)
    ensures RecordAt(s'.mem, s'.chunks, sg, ss, next)
  {
    hide SamePayload;
    assert SameSpecialAt(s, s', ss - 16) && SameSpecialAt(s, s', ss - 16 + RECORD_SIZE);
    RecordWords(s.mem, s'.mem, ss);
  }

  /** Top stays in the first segment. */
  lemma TopStays(gm: int, s: Snap, s': Snap)
    requires HeapOk(gm, s') && s'.segs == s.segs && SameEnd(s, s') && s.topsize != 0 && |s.segs| > 0
    requires TopEndOf(s) == End(s.segs[0])
    ensures s.segs[0].base <= s'.top && TopEndOf(s') == End(s'.segs[0])
  {
    hide Tags, BinsOk, StateApart;
    TopRegion(gm, s');
    assert Housed(s'.segs, s'.top, s'.chunks[s'.top]);
    var i :| 0 <= i < |s'.segs| && InSeg(s'.segs[i], s'.top, s'.chunks[s'.top]);
    assert Started(s'.chunks, s'.segs[0]) && Started(s'.chunks, s'.segs[i]);
  }

  lemma ListKept(gm: int, unit: int, s: Snap, s': Snap, y: Sys)
    requires HeapOk(gm, s') && s'.segs == s.segs && SameEnd(s, s') && SameSpecial(s, s') && ListOk(unit, s, y)
    ensures ListOk(unit, s', y)
  {
    hide HeapOk, SameSpecial, RecordAt;
    if s.segs != [] {
      TopStays(gm, s, s');
      forall i | 0 <= i < |y.recs| ensures RecordAt(s'.mem, s'.chunks, s'.segs[i + 1], y.recs[i], RecPtr(y.recs, i + 1)) {
        assert RecordAt(s.mem, s.chunks, s.segs[i + 1], y.recs[i], RecPtr(y.recs, i + 1));
        RecordKept(s, s', s.segs[i + 1], y.recs[i], RecPtr(y.recs, i + 1));
      }
    }
  }

  /** An operation inside the heap keeps the books. */
  lemma BooksKept(gm: int, unit: int, s: Snap, s': Snap, y: Sys, but: set<int>)
    requires BooksOk(gm, unit, s, y) && HeapOk(gm, s') && s'.segs == s.segs && SameEnd(s, s')
    requires Keeps(s, s', but) && forall q :: q in but ==> NotSpecial(s, q) && NotSpecial(s', q)
    ensures BooksOk(gm, unit, s', y)
  {
    hide HeapOk, Keeps, SameSpecial, MapsOk, MapBytes, SegBytes, SameEnd, ListOk;
    SpecialKept(s, s', but);
    ListKept(gm, unit, s, s', y);
    MapsKept(gm, s, s', y.maps);
  }

  lemma RecordWords(m: Mem, m': Mem, ss: int)
    requires SamePayload(m, m', ss - 16, RECORD_SIZE)
    ensures Rd(m', ss) == Rd(m, ss) && Rd(m', ss + 8) == Rd(m, ss + 8) && Rd(m', ss + 16) == Rd(m, ss + 16)
    ensures Rd(m', ss + 24) == Rd(m, ss + 24)
  {
  }

  // ---------- the books when segments change ----------

  ghost predicate MappedAt(s: Snap, p: int) {
    p in s.chunks && s.chunks[p].kind.Mapped?
  }

  ghost predicate SameMappedAt(s: Snap, s': Snap, p: int) {
    MappedAt(s, p) || MappedAt(s', p) ==> p in s.chunks && p in s'.chunks && s'.chunks[p] == s.chunks[p]
  }

  lemma MappedKept(s: Snap, s': Snap, but: set<int>, p: int)
    requires Keeps(s, s', but) && forall q :: q in but ==> !MappedAt(s, q) && !MappedAt(s', q)
    ensures SameMappedAt(s, s', p)
  {
    hide SamePayload;
    if p !in but { assert KeepsAt(s, s', p); }
  }

  /** The mapped chunks stay alone when no segment comes near them. */
  lemma MapsMoved(gm: int, s: Snap, s': Snap, maps: seq<int>)
    requires MapsOk(gm, s, maps) && forall p {:trigger SameMappedAt(s, s', p)} :: SameMappedAt(s, s', p)
    requires forall i, p {:trigger SegClear(s'.segs[i], MapLo(p, s.chunks[p]), p + Extent(s.chunks[p]))} ::
      0 <= i < |s'.segs| && MappedAt(s, p) ==> SegClear(s'.segs[i], MapLo(p, s.chunks[p]), p + Extent(s.chunks[p]))
    ensures MapsOk(gm, s', maps) && MapBytes(s'.chunks, maps) == MapBytes(s.chunks, maps)
  {
    hide MapBytes;
    forall p | p in s'.chunks && s'.chunks[p].kind.Mapped? ensures MappedAt(s, p) && Alone(gm, s', p) {
      assert SameMappedAt(s, s', p);
      assert Alone(gm, s, p);
      AloneMoved(gm, s, s', p, MapLo(p, s.chunks[p]), p + Extent(s.chunks[p]));
    }
    forall p ensures p in maps <==> p in s'.chunks && s'.chunks[p].kind.Mapped? {
      assert SameMappedAt(s, s', p);
    }
    MapBytesSame(s, s', maps);
  }

  lemma AloneMoved(gm: int, s: Snap, s': Snap, p: int, lo: int, hi: int)
    requires forall q {:trigger SameMappedAt(s, s', q)} :: SameMappedAt(s, s', q)
    requires MappedAt(s, p) && Alone(gm, s, p) && MappedAt(s', p) && s'.chunks[p] == s.chunks[p]
    requires lo == MapLo(p, s.chunks[p]) && hi == p + Extent(s.chunks[p])
    requires forall i {:trigger SegClear(s'.segs[i], lo, hi)} :: 0 <= i < |s'.segs| ==> SegClear(s'.segs[i], lo, hi)
    ensures Alone(gm, s', p)
  {
    hide SegClear;
    forall q | q in s'.chunks && q != p ensures MapClear(q, s'.chunks[q], lo, hi) {
      assert SameMappedAt(s, s', q);
      if s'.chunks[q].kind.Mapped? {
        assert MapClear(q, s.chunks[q], lo, hi);
      }
    }
  }

  lemma {:induction false} MapBytesSame(s: Snap, s': Snap, maps: seq<int>)
    requires forall p :: p in maps ==> SameMappedAt(s, s', p) && MappedAt(s, p)
    ensures MapBytes(s'.chunks, maps) == MapBytes(s.chunks, maps)
  {
    if maps != [] {
      assert maps[0] in maps;
      MapBytesSame(s, s', maps[1..]);
    }
  }

  lemma {:induction false} SegBytesSet(segs: seq<Segment>, i: nat, sg: Segment)
    requires i < |segs|
    ensures SegBytes(segs[i := sg]) == SegBytes(segs) - segs[i].size + sg.size
  {
    if i == 0 {
      assert segs[i := sg][1..] == segs[1..];
    } else {
      assert segs[i := sg][1..] == segs[1..][i - 1 := sg];
      SegBytesSet(segs[1..], i - 1, sg);
    }
  }

  lemma {:induction false} SegBytesWithout(segs: seq<Segment>, i: nat)
    requires i < |segs|
    ensures SegBytes(segs[..i] + segs[i + 1..]) == SegBytes(segs) - segs[i].size
  {
    if i == 0 {
      assert segs[..0] + segs[1..] == segs[1..];
    } else {
      var rest := segs[..i] + segs[i + 1..];
      assert rest[1..] == segs[1..][..i - 1] + segs[1..][i..];
      SegBytesWithout(segs[1..], i - 1);
    }
  }

  lemma SegBytesCons(sg: Segment, segs: seq<Segment>)
    ensures SegBytes([sg] + segs) == sg.size + SegBytes(segs)
  {
    assert ([sg] + segs)[1..] == segs;
  }

  /** More memory on the accounts. */
  function Counted(y: Sys, d: int): Sys {
    var f := y.footprint + d;
    y.(footprint := f, maxFootprint := if f > y.maxFootprint then f else y.maxFootprint)
  }

  lemma OldSegsClear(gm: int, s: Snap, maps: seq<int>, i: nat, p: int)
    requires MapsOk(gm, s, maps)
    requires i < |s.segs| && MappedAt(s, p)
    ensures SegClear(s.segs[i], MapLo(p, s.chunks[p]), p + Extent(s.chunks[p]))
  {
    assert Alone(gm, s, p);
  }

  lemma FreshClearOf(gm: int, s: Snap, b: int, e: int, p: int)
    requires Fresh(gm, s, b, e) && MappedAt(s, p)
    ensures p + Extent(s.chunks[p]) <= b || e <= MapLo(p, s.chunks[p])
  {
    assert MapClear(p, s.chunks[p], b, e);
  }

  /** The first segment. */
  lemma BooksInit(gm: int, unit: int, s: Snap, s': Snap, y: Sys, b: int, e: int, isMapped: bool)
    requires HeapOk(gm, s) && BooksOk(gm, unit, s, y) && s.segs == [] && Fresh(gm, s, b, e)
    requires ToppedUp(s, s', b, e, isMapped) && Keeps(s, s', {}) && (isMapped ==> Whole(unit, e - b) && y.noncontiguous)
    ensures BooksOk(gm, unit, s', Counted(y.(base := b, size := e - b, isMapped := isMapped), e - b))
  {
    hide HeapOk, MapsOk, MapBytes, Keeps, Fresh, WritesIn;
    SegBytesCons(Segment(b, e - b, isMapped), s.segs);
    NewTopMaps(gm, s, s', y.maps, b, e);
  }

  lemma NewTopMaps(gm: int, s: Snap, s': Snap, maps: seq<int>, b: int, e: int)
    requires MapsOk(gm, s, maps) && Fresh(gm, s, b, e) && Keeps(s, s', {}) && |s'.segs| == |s.segs| + 1
    requires s'.segs[0].base == b && End(s'.segs[0]) == e && s'.segs[1..] == s.segs
    ensures MapsOk(gm, s', maps) && MapBytes(s'.chunks, maps) == MapBytes(s.chunks, maps)
  {
    hide MapBytes, Fresh, Keeps, Alone;
    forall p ensures SameMappedAt(s, s', p) { MappedKept(s, s', {}, p); }
    forall i, p | 0 <= i < |s'.segs| && MappedAt(s, p)
      ensures SegClear(s'.segs[i], MapLo(p, s.chunks[p]), p + Extent(s.chunks[p]))
    {
      if i == 0 {
        FreshClearOf(gm, s, b, e, p);
      } else {
        assert s'.segs[i] == s.segs[i - 1];
        OldSegsClear(gm, s, maps, i - 1, p);
      }
    }
    MapsMoved(gm, s, s', maps);
  }

  /** Top grows into fresh memory behind its segment, or gives some back. */
  lemma BooksResize(gm: int, unit: int, s: Snap, s': Snap, y: Sys, d: int)
    requires HeapOk(gm, s) && BooksOk(gm, unit, s, y) && TopResized(s, s', d) && RoomBehind(gm, s, d) && Keeps(s, s', {})
    requires y.isMapped ==> Whole(unit, y.size + d)
    ensures BooksOk(gm, unit, s', Counted(y.(size := y.size + d), d))
  {
    hide HeapOk, MapsOk, MapBytes, Keeps, RoomBehind, RecordAt, SegBytes;
    SegBytesSet(s.segs, 0, s'.segs[0]);
    ResizedMaps(gm, s, s', y.maps, d);
    forall i | 0 <= i < |y.recs| ensures RecordAt(s'.mem, s'.chunks, s'.segs[i + 1], y.recs[i], RecPtr(y.recs, i + 1)) {
      assert RecordAt(s.mem, s.chunks, s.segs[i + 1], y.recs[i], RecPtr(y.recs, i + 1));
      RecordKeptAt(s, s', {}, s.segs[i + 1], y.recs[i], RecPtr(y.recs, i + 1));
    }
  }

  lemma RecordKeptAt(s: Snap, s': Snap, but: set<int>, sg: Segment, ss: int, next: int)
    requires RecordAt(s.mem, s.chunks, sg, ss, next) && Keeps(s, s', but) && ss - 16 !in but && ss - 16 + RECORD_SIZE !in but
    ensures RecordAt(s'.mem, s'.chunks, sg, ss, next)
  {
    hide SamePayload;
    assert KeepsAt(s, s', ss - 16) && KeepsAt(s, s', ss - 16 + RECORD_SIZE);
    RecordWords(s.mem, s'.mem, ss);
  }

  lemma ResizedMaps(gm: int, s: Snap, s': Snap, maps: seq<int>, d: int)
    requires MapsOk(gm, s, maps) && TopResized(s, s', d) && RoomBehind(gm, s, d) && Keeps(s, s', {})
    ensures MapsOk(gm, s', maps) && MapBytes(s'.chunks, maps) == MapBytes(s.chunks, maps)
  {
    hide MapBytes, Fresh, Keeps, Alone, Writes;
    forall p ensures SameMappedAt(s, s', p) { MappedKept(s, s', {}, p); }
    forall i, p | 0 <= i < |s'.segs| && MappedAt(s, p)
      ensures SegClear(s'.segs[i], MapLo(p, s.chunks[p]), p + Extent(s.chunks[p]))
    {
      OldSegsClear(gm, s, maps, i, p);
      if i == 0 && d > 0 {
        FreshClearOf(gm, s, End(s.segs[0]), End(s.segs[0]) + d, p);
        RegionSize(gm, s, maps, p);
      }
    }
    MapsMoved(gm, s, s', maps);
  }

  lemma RegionSize(gm: int, s: Snap, maps: seq<int>, p: int)
    requires MapsOk(gm, s, maps) && MappedAt(s, p)
    ensures MapLo(p, s.chunks[p]) < p + Extent(s.chunks[p])
  {
    assert Alone(gm, s, p);
  }

  /** The words of a segment record. */
  ghost predicate RecordSays(m: Mem, ss: int, sg: Segment, next: int) {
    Rd(m, ss) == sg.base && Rd(m, ss + 8) == sg.size && Rd(m, ss + 16) == next && Rd(m, ss + 24) == MappedFlag(sg.mapped)
  }

  /** A new segment with the new top; the old first segment is described by a record of its own at c. */
  lemma BooksAdd(gm: int, unit: int, s: Snap, s1: Snap, s2: Snap, y: Sys, c: int, b: int, e: int, isMapped: bool)
    requires HeapOk(gm, s) && BooksOk(gm, unit, s, y) && s.segs != [] && Retired(s, s1, c) && HeapOk(gm, s1)
    requires Fresh(gm, s1, b, e) && ToppedUp(s1, s2, b, e, isMapped) && HeapOk(gm, s2) && Keeps(s1, s2, {})
    requires Keeps(s, s1, {c, c + RECORD_SIZE}) && !LiveAt(s, c) && !LiveAt(s, c + RECORD_SIZE)
    requires c in s1.chunks && s1.chunks[c] == Chunk(RECORD_SIZE, Record)
    requires var f := c + RECORD_SIZE; f in s1.chunks && s1.chunks[f] == Chunk(TopEndOf(s) - f, Fence) && TopEndOf(s) - f >= 32
    requires RecordSays(s2.mem, c + 16, s.segs[0], y.next) && (isMapped ==> Whole(unit, e - b) && y.noncontiguous)
    ensures BooksOk(gm, unit, s2, Counted(y.(base := b, size := e - b, isMapped := isMapped, next := c + 16, recs := [c + 16] + y.recs), e - b))
  {
    hide HeapOk, MapsOk, MapBytes, Keeps, Fresh, WritesIn, RecordAt, SegBytes, Retired, ToppedUp, LiveAt;
    RetiredSegs(gm, s, s1, c);
    AddedMaps(gm, s, s1, s2, y.maps, c, b, e, isMapped);
    AddedFacts(s1, s2, b, e, isMapped);
    SegBytesCons(Segment(b, e - b, isMapped), s.segs);
    var recs, segs := [c + 16] + y.recs, s2.segs;
    forall i | 0 <= i < |recs| ensures RecordAt(s2.mem, s2.chunks, segs[i + 1], recs[i], RecPtr(recs, i + 1)) {
      if i == 0 {
        NewRecord(s, s1, s2, y, c);
      } else {
        assert segs[i + 1] == s.segs[i] && recs[i] == y.recs[i - 1];
        OldRecord(s, s1, s2, y, c, i - 1);
      }
    }
    ListIs(unit, s, s2, y, c, b, e, isMapped);
  }

  lemma RetiredSegs(gm: int, s: Snap, s1: Snap, c: int)
    requires HeapOk(gm, s) && Retired(s, s1, c)
    ensures s1.segs == s.segs && s.top <= c && s1.topsize == 0
  {
    hide HeapOk;
  }

  lemma AddedFacts(s1: Snap, s2: Snap, b: int, e: int, isMapped: bool)
    requires ToppedUp(s1, s2, b, e, isMapped)
    ensures s2.segs == [Segment(b, e - b, isMapped)] + s1.segs && s2.topsize != 0 && s2.top == b && TopEndOf(s2) == e
  {
  }

  lemma AddedMaps(gm: int, s: Snap, s1: Snap, s2: Snap, maps: seq<int>, c: int, b: int, e: int, isMapped: bool)
    requires MapsOk(gm, s, maps) && s1.segs == s.segs && Fresh(gm, s1, b, e) && ToppedUp(s1, s2, b, e, isMapped)
    requires Keeps(s, s1, {c, c + RECORD_SIZE}) && Keeps(s1, s2, {}) && !LiveAt(s, c) && !LiveAt(s, c + RECORD_SIZE)
    requires c in s1.chunks && s1.chunks[c].kind == Record
    requires c + RECORD_SIZE in s1.chunks && s1.chunks[c + RECORD_SIZE].kind == Fence
    ensures MapsOk(gm, s2, maps) && MapBytes(s2.chunks, maps) == MapBytes(s.chunks, maps)
  {
    hide MapBytes, Fresh, Keeps, Alone, WritesIn;
    forall p ensures SameMappedAt(s, s1, p) { MappedKept(s, s1, {c, c + RECORD_SIZE}, p); }
    forall i, p | 0 <= i < |s1.segs| && MappedAt(s, p)
      ensures SegClear(s1.segs[i], MapLo(p, s.chunks[p]), p + Extent(s.chunks[p]))
    {
      OldSegsClear(gm, s, maps, i, p);
    }
    MapsMoved(gm, s, s1, maps);
    NewTopMaps(gm, s1, s2, maps, b, e);
  }

  lemma NewRecord(s: Snap, s1: Snap, s2: Snap, y: Sys, c: int)
    requires s.segs != [] && Keeps(s1, s2, {}) && s.segs[0].base <= s.top <= c && TopEndOf(s) == End(s.segs[0])
    requires c in s1.chunks && s1.chunks[c] == Chunk(RECORD_SIZE, Record)
    requires var f := c + RECORD_SIZE; f in s1.chunks && s1.chunks[f] == Chunk(TopEndOf(s) - f, Fence) && TopEndOf(s) - f >= 32
    requires RecordSays(s2.mem, c + 16, s.segs[0], y.next) && y.next == RecPtr(y.recs, 0)
    ensures RecordAt(s2.mem, s2.chunks, s.segs[0], c + 16, RecPtr([c + 16] + y.recs, 1))
  {
    hide SamePayload;
    assert KeepsAt(s1, s2, c) && KeepsAt(s1, s2, c + RECORD_SIZE);
    assert y.recs != [] ==> ([c + 16] + y.recs)[1] == y.recs[0];
  }

  lemma OldRecord(s: Snap, s1: Snap, s2: Snap, y: Sys, c: int, i: nat)
    requires i < |y.recs| && |s.segs| == |y.recs| + 1
    requires Keeps(s, s1, {c, c + RECORD_SIZE}) && Keeps(s1, s2, {}) && !LiveAt(s, c) && !LiveAt(s, c + RECORD_SIZE)
    requires RecordAt(s.mem, s.chunks, s.segs[i + 1], y.recs[i], RecPtr(y.recs, i + 1))
    ensures RecordAt(s2.mem, s2.chunks, s.segs[i + 1], y.recs[i], RecPtr([c + 16] + y.recs, i + 2))
  {
    hide Keeps;
    var ss, sg := y.recs[i], s.segs[i + 1];
    RecordKeptAt(s, s1, {c, c + RECORD_SIZE}, sg, ss, RecPtr(y.recs, i + 1));
    RecordKeptAt(s1, s2, {}, sg, ss, RecPtr(y.recs, i + 1));
    assert i + 1 < |y.recs| ==> ([c + 16] + y.recs)[i + 2] == y.recs[i + 1];
  }

  lemma ListIs(unit: int, s: Snap, s2: Snap, y: Sys, c: int, b: int, e: int, isMapped: bool)
    requires ListOk(unit, s, y) && s.segs != [] && s2.segs == [Segment(b, e - b, isMapped)] + s.segs && s2.topsize != 0
    requires s2.top == b && TopEndOf(s2) == e && (isMapped ==> Whole(unit, e - b) && y.noncontiguous)
    requires var recs := [c + 16] + y.recs;
      forall i {:trigger RecordAt(s2.mem, s2.chunks, s2.segs[i + 1], recs[i], RecPtr(recs, i + 1))} :: 0 <= i < |recs| ==>
        RecordAt(s2.mem, s2.chunks, s2.segs[i + 1], recs[i], RecPtr(recs, i + 1))
    ensures ListOk(unit, s2, Counted(y.(base := b, size := e - b, isMapped := isMapped, next := c + 16, recs := [c + 16] + y.recs), e - b))
  {
    hide RecordAt;
    forall i | 0 <= i < |s2.segs| && s2.segs[i].mapped ensures Whole(unit, s2.segs[i].size) && y.noncontiguous {
      if i > 0 { assert s2.segs[i] == s.segs[i - 1]; }
    }
  }

  /** The chunk of record number i of the list. */
  ghost function RecordChunk(y: Sys, i: nat): int {
    if 0 < i <= |y.recs| then y.recs[i - 1] - 16 else 0
  }

  /** Two different records are in different segments. */
  lemma RecordsDiffer(gm: int, unit: int, s: Snap, y: Sys, i: nat, j: nat)
    requires HeapOk(gm, s) && ListOk(unit, s, y) && i < |y.recs| && j < |y.recs| && i != j
    ensures y.recs[i] != y.recs[j] && y.recs[i] - 16 != y.recs[j] - 16 + RECORD_SIZE
  {
    hide Tags, BinsOk, Specials, StateApart;
    assert RecordAt(s.mem, s.chunks, s.segs[i + 1], y.recs[i], RecPtr(y.recs, i + 1));
    assert RecordAt(s.mem, s.chunks, s.segs[j + 1], y.recs[j], RecPtr(y.recs, j + 1));
  }

  lemma RecordSelf(gm: int, unit: int, s: Snap, y: Sys, i: nat)
    requires HeapOk(gm, s) && ListOk(unit, s, y) && i < |y.recs| && |s.segs| == |y.recs| + 1
    ensures var c := y.recs[i] - 16;
      && c in s.chunks && s.chunks[c] == Chunk(RECORD_SIZE, Record) && s.segs[i + 1].base <= c && c + 80 <= End(s.segs[i + 1])
      && RecordSays(s.mem, y.recs[i], s.segs[i + 1], RecPtr(y.recs, i + 1))
      && c + RECORD_SIZE in s.chunks && s.chunks[c + RECORD_SIZE].kind == Fence
      && c + RECORD_SIZE + s.chunks[c + RECORD_SIZE].size == End(s.segs[i + 1]) && 32 <= s.chunks[c + RECORD_SIZE].size
    ensures s.segs[i + 1] in s.segs && y.recs[i] > 0
  {
    hide Tags, BinsOk, Specials, StateApart, Covers;
    assert RecordAt(s.mem, s.chunks, s.segs[i + 1], y.recs[i], RecPtr(y.recs, i + 1));
    LooseSize(gm, s, y.recs[i] - 16, RECORD_SIZE);
  }

  /** The accounts after segment i has grown at its front by [b, e). */
  function Widened(y: Sys, i: nat, b: int, d: int): Sys {
    Counted(if i == 0 then y.(base := b, size := y.size + d) else y, d)
  }

  /** Segment i has grown at its front, by memory that holds one more live chunk, at its start. */
  lemma BooksPrepend(gm: int, unit: int, s: Snap, s2: Snap, y: Sys, i: nat, b: int)
    requires HeapOk(gm, s) && HeapOk(gm, s2) && BooksOk(gm, unit, s, y) && i < |s.segs| && Fresh(gm, s, b, s.segs[i].base)
    requires var sg := s.segs[i];
      && s2.segs == s.segs[i := Segment(b, End(sg) - b, sg.mapped)]
      && (sg.mapped ==> Whole(unit, End(sg) - b))
      && (i > 0 ==> RecordSays(s2.mem, y.recs[i - 1], s2.segs[i], RecPtr(y.recs, i)))
    requires SameEnd(s, s2) && b !in s.chunks
    requires Keeps(s, s2, {b, RecordChunk(y, i)}) && NotSpecial(s2, b)
    requires i > 0 ==> RecordChunk(y, i) in s2.chunks && s2.chunks[RecordChunk(y, i)] == Chunk(RECORD_SIZE, Record)
    ensures BooksOk(gm, unit, s2, Widened(y, i, b, s.segs[i].base - b))
  {
    hide HeapOk, MapsOk, MapBytes, Keeps, Fresh, RecordAt, SegBytes, NotSpecial, RecordSays;
    SegBytesSet(s.segs, i, s2.segs[i]);
    PrependMaps(gm, unit, s, s2, y, i, b);
    FreshBounds(gm, s, b, s.segs[i].base);
    TopInFirst(gm, s2);
    forall j | 0 <= j < |y.recs| ensures RecordAt(s2.mem, s2.chunks, s2.segs[j + 1], y.recs[j], RecPtr(y.recs, j + 1)) {
      PrependRecord(gm, unit, s, s2, y, i, b, j);
    }
  }

  lemma TopInFirst(gm: int, s: Snap)
    requires HeapOk(gm, s) && |s.segs| > 0 && s.topsize != 0 && TopEndOf(s) == End(s.segs[0])
    ensures s.segs[0].base <= s.top
  {
    hide Tags, BinsOk, StateApart;
    TopRegion(gm, s);
    assert Housed(s.segs, s.top, s.chunks[s.top]);
    var i :| 0 <= i < |s.segs| && InSeg(s.segs[i], s.top, s.chunks[s.top]);
    assert Started(s.chunks, s.segs[0]) && Started(s.chunks, s.segs[i]);
  }

  lemma PrependRecord(gm: int, unit: int, s: Snap, s2: Snap, y: Sys, i: nat, b: int, j: nat)
    requires HeapOk(gm, s) && HeapOk(gm, s2) && ListOk(unit, s, y) && i < |s.segs| && j < |y.recs| && |s.segs| == |y.recs| + 1
    requires s2.segs == s.segs[i := Segment(b, End(s.segs[i]) - b, s.segs[i].mapped)] && b < s.segs[i].base
    requires i > 0 ==> RecordSays(s2.mem, y.recs[i - 1], s2.segs[i], RecPtr(y.recs, i))
    requires b !in s.chunks && Keeps(s, s2, {b, RecordChunk(y, i)})
    requires i > 0 ==> RecordChunk(y, i) in s2.chunks && s2.chunks[RecordChunk(y, i)] == Chunk(RECORD_SIZE, Record)
    ensures RecordAt(s2.mem, s2.chunks, s2.segs[j + 1], y.recs[j], RecPtr(y.recs, j + 1))
  {
    hide HeapOk, SamePayload, ListOk;
    var c := y.recs[j] - 16;
    var f := c + RECORD_SIZE;
    RecordSelf(gm, unit, s, y, j);
    if i > 0 {
      RecordSelf(gm, unit, s, y, i - 1);
      if j != i - 1 { RecordsDiffer(gm, unit, s, y, i - 1, j); }
    } else {
      assert RecordChunk(y, i) == 0;
      LooseSize(gm, s, c, RECORD_SIZE);
    }
    assert KeepsAt(s, s2, f);
    if j != i - 1 {
      assert KeepsAt(s, s2, c);
      RecordWords(s.mem, s2.mem, y.recs[j]);
    }
  }

  lemma PrependMaps(gm: int, unit: int, s: Snap, s2: Snap, y: Sys, i: nat, b: int)
    requires HeapOk(gm, s) && HeapOk(gm, s2) && BooksOk(gm, unit, s, y) && i < |s.segs| && Fresh(gm, s, b, s.segs[i].base)
    requires s2.segs == s.segs[i := Segment(b, End(s.segs[i]) - b, s.segs[i].mapped)]
    requires b !in s.chunks && Keeps(s, s2, {b, RecordChunk(y, i)}) && NotSpecial(s2, b)
    requires i > 0 ==> RecordChunk(y, i) in s2.chunks && s2.chunks[RecordChunk(y, i)] == Chunk(RECORD_SIZE, Record)
    ensures MapsOk(gm, s2, y.maps) && MapBytes(s2.chunks, y.maps) == MapBytes(s.chunks, y.maps)
  {
    hide MapBytes, Fresh, Keeps, Alone, HeapOk, RecordAt;
    NotMappedRecord(gm, unit, s, s2, y, i);
    forall p ensures SameMappedAt(s, s2, p) { MappedKept(s, s2, {b, RecordChunk(y, i)}, p); }
    forall j, p | 0 <= j < |s2.segs| && MappedAt(s, p)
      ensures SegClear(s2.segs[j], MapLo(p, s.chunks[p]), p + Extent(s.chunks[p]))
    {
      OldSegsClear(gm, s, y.maps, j, p);
      if j == i {
        FreshClearOf(gm, s, b, s.segs[i].base, p);
        RegionSize(gm, s, y.maps, p);
      }
    }
    MapsMoved(gm, s, s2, y.maps);
  }

  lemma NotMappedRecord(gm: int, unit: int, s: Snap, s2: Snap, y: Sys, i: nat)
    requires HeapOk(gm, s) && HeapOk(gm, s2) && ListOk(unit, s, y) && i < |s.segs|
    requires i > 0 ==> RecordChunk(y, i) in s2.chunks && s2.chunks[RecordChunk(y, i)] == Chunk(RECORD_SIZE, Record)
    ensures !MappedAt(s, RecordChunk(y, i)) && !MappedAt(s2, RecordChunk(y, i))
  {
    hide HeapOk, RecordAt;
    if i > 0 {
      RecordSelf(gm, unit, s, y, i - 1);
    } else {
      NothingAtZero(gm, s);
      NothingAtZero(gm, s2);
    }
  }

  lemma NothingAtZero(gm: int, s: Snap)
    requires HeapOk(gm, s)
    ensures 0 !in s.chunks
  {
    hide HeapOk;
    if 0 in s.chunks {
      LooseSize(gm, s, 0, s.chunks[0].size);
    }
  }

  // ---------- a segment leaves the list ----------

  function Dropped(y: Sys, i: nat, bytes: int): Sys
    requires 1 <= i <= |y.recs|
  {
    Counted(y.(recs := y.recs[..i - 1] + y.recs[i..], next := if i == 1 then RecPtr(y.recs, 1) else y.next), -bytes)
  }

  /** Segment i, all of its chunks, and its record are gone; the record before it points past it. */
  ghost predicate Unlisted(s: Snap, s': Snap, y: Sys, i: nat) {
    && 1 <= i <= |y.recs| && |s.segs| == |y.recs| + 1
    && s'.segs == s.segs[..i] + s.segs[i + 1..] && s'.top == s.top && s'.topsize == s.topsize
    && var c, before := RecordChunk(y, i), RecordChunk(y, i - 1);
    && Keeps(s, s', {c, c + RECORD_SIZE, before}) && c !in s'.chunks && c + RECORD_SIZE !in s'.chunks
    && (i > 1 ==> before in s'.chunks && s'.chunks[before] == Chunk(RECORD_SIZE, Record)
                  && RecordSays(s'.mem, y.recs[i - 2], s.segs[i - 1], RecPtr(y.recs, i)))
  }

  lemma BooksDrop(gm: int, unit: int, s: Snap, s': Snap, y: Sys, i: nat)
    requires HeapOk(gm, s) && HeapOk(gm, s') && BooksOk(gm, unit, s, y) && Unlisted(s, s', y, i)
    ensures BooksOk(gm, unit, s', Dropped(y, i, s.segs[i].size))
  {
    hide HeapOk, MapsOk, MapBytes, Keeps, RecordAt, SegBytes, NotSpecial, RecordSays;
    SegBytesWithout(s.segs, i);
    DropMaps(gm, unit, s, s', y, i);
    var recs := y.recs[..i - 1] + y.recs[i..];
    forall j | 0 <= j < |recs| ensures RecordAt(s'.mem, s'.chunks, s'.segs[j + 1], recs[j], RecPtr(recs, j + 1)) {
      DropRecord(gm, unit, s, s', y, i, j);
    }
    DropMapped(unit, s, s', y, i);
  }

  lemma DropMapped(unit: int, s: Snap, s': Snap, y: Sys, i: nat)
    requires ListOk(unit, s, y) && 1 <= i < |s.segs| && s'.segs == s.segs[..i] + s.segs[i + 1..]
    ensures s'.segs[0] == s.segs[0] && |s'.segs| == |s.segs| - 1
    ensures forall j :: 0 <= j < |s'.segs| && s'.segs[j].mapped ==> Whole(unit, s'.segs[j].size) && y.noncontiguous
  {
    hide RecordAt;
    forall j | 0 <= j < |s'.segs| && s'.segs[j].mapped ensures Whole(unit, s'.segs[j].size) && y.noncontiguous {
      assert s'.segs[j] == s.segs[if j < i then j else j + 1];
    }
  }

  lemma DropRecord(gm: int, unit: int, s: Snap, s': Snap, y: Sys, i: nat, j: nat)
    requires HeapOk(gm, s) && HeapOk(gm, s') && ListOk(unit, s, y) && Unlisted(s, s', y, i) && j < |y.recs| - 1
    ensures var recs := y.recs[..i - 1] + y.recs[i..];
      RecordAt(s'.mem, s'.chunks, s'.segs[j + 1], recs[j], RecPtr(recs, j + 1))
  {
    hide HeapOk, SamePayload, ListOk, RecordAt;
    var recs := y.recs[..i - 1] + y.recs[i..];
    var k := if j < i - 1 then j else j + 1;
    assert recs[j] == y.recs[k] && s'.segs[j + 1] == s.segs[k + 1];
    assert k != i - 2 ==> RecPtr(recs, j + 1) == RecPtr(y.recs, k + 1);
    assert k == i - 2 ==> RecPtr(recs, j + 1) == RecPtr(y.recs, i);
    DropRecordAt(gm, unit, s, s', y, i, k, RecPtr(recs, j + 1));
  }

  lemma DropRecordAt(gm: int, unit: int, s: Snap, s': Snap, y: Sys, i: nat, k: nat, next: int)
    requires HeapOk(gm, s) && HeapOk(gm, s') && ListOk(unit, s, y) && Unlisted(s, s', y, i) && k < |y.recs| && k != i - 1
    requires next == if k == i - 2 then RecPtr(y.recs, i) else RecPtr(y.recs, k + 1)
    ensures RecordAt(s'.mem, s'.chunks, s.segs[k + 1], y.recs[k], next)
  {
    hide HeapOk, SamePayload, ListOk;
    var c := y.recs[k] - 16;
    RecordSelf(gm, unit, s, y, k);
    RecordSelf(gm, unit, s, y, i - 1);
    RecordsDiffer(gm, unit, s, y, i - 1, k);
    RecordsDiffer(gm, unit, s, y, k, i - 1);
    if i > 1 {
      RecordSelf(gm, unit, s, y, i - 2);
      if k != i - 2 { RecordsDiffer(gm, unit, s, y, i - 2, k); }
    } else {
      LooseSize(gm, s, c, RECORD_SIZE);
    }
    assert KeepsAt(s, s', c + RECORD_SIZE);
    if k != i - 2 {
      assert KeepsAt(s, s', c);
      RecordWords(s.mem, s'.mem, y.recs[k]);
    }
  }

  lemma DropMaps(gm: int, unit: int, s: Snap, s': Snap, y: Sys, i: nat)
    requires HeapOk(gm, s) && HeapOk(gm, s') && BooksOk(gm, unit, s, y) && Unlisted(s, s', y, i)
    ensures MapsOk(gm, s', y.maps) && MapBytes(s'.chunks, y.maps) == MapBytes(s.chunks, y.maps)
  {
    hide MapBytes, Keeps, Alone, HeapOk, RecordAt, ListOk;
    var c, before := RecordChunk(y, i), RecordChunk(y, i - 1);
    RecordSelf(gm, unit, s, y, i - 1);
    if i > 1 { RecordSelf(gm, unit, s, y, i - 2); } else { NothingAtZero(gm, s); NothingAtZero(gm, s'); }
    forall p ensures SameMappedAt(s, s', p) { MappedKept(s, s', {c, c + RECORD_SIZE, before}, p); }
    forall j, p | 0 <= j < |s'.segs| && MappedAt(s, p)
      ensures SegClear(s'.segs[j], MapLo(p, s.chunks[p]), p + Extent(s.chunks[p]))
    {
      var k := if j < i then j else j + 1;
      assert s'.segs[j] == s.segs[k];
      OldSegsClear(gm, s, y.maps, k, p);
    }
    MapsMoved(gm, s, s', y.maps);
  }

  // ---------- mapped chunks come and go ----------

  /** A chunk mapped into the fresh region [b, e), lead bytes behind its start. */
  ghost predicate MappedIn(s: Snap, s': Snap, b: int, e: int, p: int) {
    && b <= p && p % 16 == 0 && p + MIN_CHUNK_SIZE + MMAP_FOOT_PAD <= e
    && s'.chunks == s.chunks[p := Chunk(e - MMAP_FOOT_PAD - p, Mapped(p - b))]
    && s' == s.(mem := s'.mem, chunks := s'.chunks) && WritesIn(s.mem, s'.mem, b, e)
    && Rd(s'.mem, p) == p - b && Rd(s'.mem, p + HEAD) == e - MMAP_FOOT_PAD - p
  }

  lemma MapExtended(gm: int, s: Snap, s': Snap, b: int, e: int, p: int)
    requires HeapOk(gm, s) && Fresh(gm, s, b, e) && MappedIn(s, s', b, e, p)
    ensures Extended(gm, s, s', b, e) && p !in s.chunks
  {
    hide HeapOk, WritesIn, TagAt, Fresh;
    NoneInFresh(gm, s, b, e);
    FreshBounds(gm, s, b, e);
    MapTag(s', b, e, p);
  }

  lemma MapCovers(s: Snap, s': Snap, p: int)
    requires Covers(s.chunks, s.segs) && s'.segs == s.segs && p !in s.chunks
    requires p in s'.chunks && s'.chunks[p].kind.Mapped? && s'.chunks == s.chunks[p := s'.chunks[p]]
    ensures Covers(s'.chunks, s'.segs)
  {
    forall x | x in s'.chunks ensures Housed(s'.segs, x, s'.chunks[x]) {
      if x != p { assert Housed(s.segs, x, s.chunks[x]); }
    }
    forall i | 0 <= i < |s'.segs| ensures Started(s'.chunks, s'.segs[i]) {
      assert Started(s.chunks, s.segs[i]);
    }
  }

  lemma MapSpecials(gm: int, s: Snap, s': Snap, p: int)
    requires HeapOk(gm, s) && p !in s.chunks && p in s'.chunks && s'.chunks[p].kind.Mapped?
    requires s' == s.(mem := s'.mem, chunks := s.chunks[p := s'.chunks[p]])
    ensures Specials(s') && Covers(s'.chunks, s'.segs)
  {
    hide Tags, BinsOk, StateApart, Covers;
    MapCovers(s, s', p);
  }

  lemma MapTag(s: Snap, b: int, e: int, p: int)
    requires p in s.chunks && s.chunks[p] == Chunk(e - MMAP_FOOT_PAD - p, Mapped(p - b)) && 0 < b <= p
    requires p % 16 == 0 && e % 16 == 0 && p + MIN_CHUNK_SIZE + MMAP_FOOT_PAD <= e <= ADDRESS_LIMIT
    requires Rd(s.mem, p) == p - b && Rd(s.mem, p + HEAD) == e - MMAP_FOOT_PAD - p
    ensures TagAt(s.mem, s.chunks, p)
  {
    assert e - MMAP_FOOT_PAD - p == 16 * (e / 16 - 2 - p / 16);
  }

  lemma MapHeap(gm: int, s: Snap, s': Snap, b: int, e: int, p: int)
    requires HeapOk(gm, s) && Fresh(gm, s, b, e) && MappedIn(s, s', b, e, p)
    ensures HeapOk(gm, s') && Keeps(s, s', {p}) && LooseSet(s') == LooseSet(s) && !LiveAt(s, p)
  {
    hide HeapOk, Fresh, WritesIn, Extended, Covers, Specials;
    MapExtended(gm, s, s', b, e, p);
    MapSpecials(gm, s, s', p);
    ExtendHeap(gm, s, s', b, e);
    NoneInFresh(gm, s, b, e);
    ExtendKeeps(gm, s, s', b, e, {p});
  }

  /** A mapped chunk is on the accounts with its whole region. */
  lemma BooksMap(gm: int, unit: int, s: Snap, s': Snap, y: Sys, b: int, e: int, p: int)
    requires HeapOk(gm, s) && HeapOk(gm, s') && BooksOk(gm, unit, s, y) && Fresh(gm, s, b, e) && MappedIn(s, s', b, e, p)
    requires Keeps(s, s', {p}) && p !in s.chunks
    ensures BooksOk(gm, unit, s', Counted(y.(maps := [p] + y.maps), e - b))
  {
    hide HeapOk, Fresh, WritesIn, RecordAt, SegBytes, Keeps, MapBytes, Alone;
    MapAlone(gm, s, s', y.maps, b, e, p);
    MapBytesCons(s, s', y.maps, p);
    FreshBounds(gm, s, b, e);
    forall i | 0 <= i < |y.recs| && s.segs != []
      ensures RecordAt(s'.mem, s'.chunks, s'.segs[i + 1], y.recs[i], RecPtr(y.recs, i + 1))
    {
      assert RecordAt(s.mem, s.chunks, s.segs[i + 1], y.recs[i], RecPtr(y.recs, i + 1));
      RecordIn(s, s.segs[i + 1], y.recs[i], RecPtr(y.recs, i + 1));
      RecordKeptAt(s, s', {p}, s.segs[i + 1], y.recs[i], RecPtr(y.recs, i + 1));
    }
  }

  lemma RecordIn(s: Snap, sg: Segment, ss: int, next: int)
    requires RecordAt(s.mem, s.chunks, sg, ss, next)
    ensures ss - 16 in s.chunks && ss - 16 + RECORD_SIZE in s.chunks
  {
  }

  lemma MapBytesCons(s: Snap, s': Snap, maps: seq<int>, p: int)
    requires p !in maps && p in s'.chunks && s'.chunks == s.chunks[p := s'.chunks[p]]
    ensures MapBytes(s'.chunks, [p] + maps) == MapSize(p, s'.chunks[p]) + MapBytes(s.chunks, maps)
  {
    assert ([p] + maps)[1..] == maps;
    MapBytesOthers(s.chunks, s'.chunks, maps);
  }

  lemma {:induction false} MapBytesOthers(cs: ChunkMap, cs': ChunkMap, maps: seq<int>)
    requires forall p :: p in maps ==> (p in cs <==> p in cs') && (p in cs ==> cs'[p] == cs[p])
    ensures MapBytes(cs', maps) == MapBytes(cs, maps)
  {
    if maps != [] {
      assert maps[0] in maps;
      MapBytesOthers(cs, cs', maps[1..]);
    }
  }

  lemma MapAlone(gm: int, s: Snap, s': Snap, maps: seq<int>, b: int, e: int, p: int)
    requires MapsOk(gm, s, maps) && Fresh(gm, s, b, e) && MappedIn(s, s', b, e, p) && p !in s.chunks
    ensures MapsOk(gm, s', [p] + maps) && p !in maps
  {
    hide WritesIn;
    forall q | q in s'.chunks && s'.chunks[q].kind.Mapped? ensures Alone(gm, s', q) {
      if q == p {
        forall x | x in s'.chunks && x != p ensures MapClear(x, s'.chunks[x], b, e) {
          assert MapClear(x, s.chunks[x], b, e);
        }
      } else {
        assert Alone(gm, s, q);
        assert MapClear(q, s.chunks[q], b, e);
        var lo, hi := MapLo(q, s.chunks[q]), q + Extent(s.chunks[q]);
        forall x | x in s'.chunks && x != q ensures MapClear(x, s'.chunks[x], lo, hi) {
          if x != p { assert MapClear(x, s.chunks[x], lo, hi); }
        }
      }
    }
    NoDupCons(p, maps);
  }

  lemma NoDupCons(p: int, maps: seq<int>)
    requires NoDup(maps) && p !in maps
    ensures NoDup([p] + maps) && forall x :: x in [p] + maps <==> x == p || x in maps
  {
  }

  /** A mapped chunk goes back to the system with its region. */
  ghost predicate Unmapped(s: Snap, s': Snap, p: int) {
    MappedAt(s, p) && s' == s.(chunks := s'.chunks) && s'.chunks == map x | x in s.chunks && x != p :: s.chunks[x]
  }

  lemma UnmapTag(gm: int, s: Snap, s': Snap, p: int, x: int)
    requires HeapOk(gm, s) && Unmapped(s, s', p) && x in s'.chunks
    ensures TagAt(s'.mem, s'.chunks, x)
  {
    hide BinsOk, StateApart, Specials, Covers;
    assert TagAt(s.mem, s.chunks, x);
    if Unpinned(s.mem, s.chunks, x) {
      assert AfterFree(s.mem, s.chunks, x);
      assert AfterFree(s'.mem, s'.chunks, x);
    }
    if Free(s.chunks[x].kind) {
      assert TagAt(s.mem, s.chunks, x + s.chunks[x].size);
    }
  }

  lemma UnmapParts(gm: int, s: Snap, s': Snap, p: int)
    requires HeapOk(gm, s) && Unmapped(s, s', p)
    ensures StateApart(gm, s'.chunks) && Specials(s') && Covers(s'.chunks, s'.segs)
  {
    hide Tags, BinsOk;
    forall x | x in s'.chunks ensures Clear(gm, x, s'.chunks[x]) {
      assert Clear(gm, x, s.chunks[x]);
    }
    forall x | x in s'.chunks ensures Housed(s'.segs, x, s'.chunks[x]) {
      assert Housed(s.segs, x, s.chunks[x]);
    }
    forall i | 0 <= i < |s'.segs| ensures Started(s'.chunks, s'.segs[i]) {
      assert Started(s.chunks, s.segs[i]);
    }
  }

  lemma UnmapBins(gm: int, s: Snap, s': Snap, p: int)
    requires BinsOk(gm, s) && Unmapped(s, s', p)
    ensures BinsOk(gm, s')
  {
    hide TreeIndex, Holds, TB.TreesOk, SB.SmallsOk;
    assert BinSet(s'.chunks, true) == BinSet(s.chunks, true) && BinSet(s'.chunks, false) == BinSet(s.chunks, false);
    var cs, cs', small, trees := s.chunks, s'.chunks, s.small, s.trees;
    forall j | 0 <= j < NBINS ensures SmallEntry(cs', small[j], j) {
      assert SmallEntry(cs, small[j], j);
    }
    forall j | 0 <= j < NBINS ensures TreeEntry(cs', trees[j], j) {
      assert TreeEntry(cs, trees[j], j);
    }
    forall q | q in cs' && cs'[q].kind == Binned ensures InHome(small, trees, q, cs'[q].size) {
      assert InHome(small, trees, q, cs[q].size);
    }
  }

  lemma UnmapHeap(gm: int, s: Snap, s': Snap, p: int)
    requires HeapOk(gm, s) && Unmapped(s, s', p)
    ensures HeapOk(gm, s') && Keeps(s, s', {p}) && LooseSet(s') == LooseSet(s) && !LiveAt(s', p)
  {
    hide BinsOk, StateApart, Specials, Covers, TagAt, SamePayload;
    UnmapParts(gm, s, s', p);
    UnmapBins(gm, s, s', p);
    forall x | x in s'.chunks ensures TagAt(s'.mem, s'.chunks, x) { UnmapTag(gm, s, s', p, x); }
    forall x, y | x in s'.chunks && y in s'.chunks && x < y ensures Before(x, s'.chunks[x], y) {
      assert Before(x, s.chunks[x], y);
    }
    forall q | q !in {p} ensures KeepsAt(s, s', q) { SamePayloadRefl(s, q); }
  }

  function WithoutItem(maps: seq<int>, p: int): seq<int> {
    if maps == [] then [] else if maps[0] == p then maps[1..] else [maps[0]] + WithoutItem(maps[1..], p)
  }

  lemma {:induction false} WithoutItemIs(maps: seq<int>, p: int)
    requires NoDup(maps)
    ensures NoDup(WithoutItem(maps, p)) && forall x :: x in WithoutItem(maps, p) <==> x in maps && x != p
  {
    if maps != [] {
      HeadTail(maps);
      hide NoDup;
      if maps[0] != p {
        WithoutItemIs(maps[1..], p);
        NoDupCons(maps[0], WithoutItem(maps[1..], p));
      }
    }
  }

  lemma HeadTail(maps: seq<int>)
    requires NoDup(maps) && maps != []
    ensures NoDup(maps[1..]) && maps[0] !in maps[1..] && forall x :: x in maps <==> x == maps[0] || x in maps[1..]
  {
    assert maps == [maps[0]] + maps[1..];
  }

  lemma {:induction false} MapBytesWithout(cs: ChunkMap, maps: seq<int>, p: int)
    requires NoDup(maps) && p in maps && p in cs
    ensures MapBytes(cs, WithoutItem(maps, p)) == MapBytes(cs, maps) - MapSize(p, cs[p])
  {
    if maps[0] != p {
      MapBytesWithout(cs, maps[1..], p);
      assert ([maps[0]] + WithoutItem(maps[1..], p))[1..] == WithoutItem(maps[1..], p);
    }
  }

  lemma BooksUnmap(gm: int, unit: int, s: Snap, s': Snap, y: Sys, p: int)
    requires HeapOk(gm, s) && HeapOk(gm, s') && BooksOk(gm, unit, s, y) && Unmapped(s, s', p) && Keeps(s, s', {p})
    ensures BooksOk(gm, unit, s', Counted(y.(maps := WithoutItem(y.maps, p)), -MapSize(p, s.chunks[p])))
  {
    hide HeapOk, RecordAt, SegBytes, Keeps, MapBytes, Alone;
    WithoutItemIs(y.maps, p);
    MapBytesWithout(s.chunks, y.maps, p);
    MapBytesOthers(s.chunks, s'.chunks, WithoutItem(y.maps, p));
    forall q | q in s'.chunks && s'.chunks[q].kind.Mapped? ensures Alone(gm, s', q) {
      UnmapAlone(gm, s, s', y.maps, p, q);
    }
    forall i | 0 <= i < |y.recs| && s.segs != []
      ensures RecordAt(s'.mem, s'.chunks, s'.segs[i + 1], y.recs[i], RecPtr(y.recs, i + 1))
    {
      assert RecordAt(s.mem, s.chunks, s.segs[i + 1], y.recs[i], RecPtr(y.recs, i + 1));
      RecordKinds(s, s.segs[i + 1], y.recs[i], RecPtr(y.recs, i + 1));
      RecordKeptAt(s, s', {p}, s.segs[i + 1], y.recs[i], RecPtr(y.recs, i + 1));
    }
  }

  lemma RecordKinds(s: Snap, sg: Segment, ss: int, next: int)
    requires RecordAt(s.mem, s.chunks, sg, ss, next)
    ensures !MappedAt(s, ss - 16) && !MappedAt(s, ss - 16 + RECORD_SIZE)
  {
  }

  lemma UnmapAlone(gm: int, s: Snap, s': Snap, maps: seq<int>, p: int, q: int)
    requires MapsOk(gm, s, maps) && Unmapped(s, s', p) && MappedAt(s', q)
    ensures Alone(gm, s', q)
  {
    assert Alone(gm, s, q);
    var lo, hi := MapLo(q, s.chunks[q]), q + Extent(s.chunks[q]);
    forall x | x in s'.chunks && x != q ensures MapClear(x, s'.chunks[x], lo, hi) {
      assert MapClear(x, s.chunks[x], lo, hi);
    }
  }

  /** Once the chunk is unmapped, its region is nobody's. */
  lemma RegionFreed(gm: int, s: Snap, s': Snap, maps: seq<int>, p: int)
    requires HeapOk(gm, s) && MapsOk(gm, s, maps) && Unmapped(s, s', p)
    ensures Fresh(gm, s', MapLo(p, s.chunks[p]), p + Extent(s.chunks[p]))
  {
    hide BinsOk, StateApart, Specials, Covers;
    assert TagAt(s.mem, s.chunks, p) && Alone(gm, s, p);
    var lo, hi := MapLo(p, s.chunks[p]), p + Extent(s.chunks[p]);
    forall x | x in s'.chunks ensures MapClear(x, s'.chunks[x], lo, hi) {
      assert MapClear(x, s.chunks[x], lo, hi);
    }
    forall i | 0 <= i < |s'.segs| ensures End(s'.segs[i]) <= lo || hi <= s'.segs[i].base {
      assert SegClear(s.segs[i], lo, hi);
    }
    ExtentEven(p, s.chunks[p]);
  }

  lemma ExtentEven(p: int, c: Chunk)
    requires Sized(p, c) && c.kind.Mapped?
    ensures (p + Extent(c)) % 16 == 0
  {
  }
}
