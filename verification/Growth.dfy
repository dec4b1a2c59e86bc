/** Growing and shrinking the memory that the chunks tile. */
module Growth {
  import opened Words
  import opened BinIndex
  import opened Trie
  import opened Rings
  import opened TreeMemory
  import opened Chunks
  import opened HeapState
  import TB = TreeBins
  import SB = SmallBins
  import opened Heap
  import opened Steps
  import opened HeapOps
  import opened Malloc

  /** The region that a mapped chunk stands in. */
  function MapLo(p: int, c: Chunk): int {
    if c.kind.Mapped? then p - c.kind.lead else p
  }

  ghost predicate MapClear(p: int, c: Chunk, b: int, e: int) {
    c.kind.Mapped? ==> p + Extent(c) <= b || e <= MapLo(p, c)
  }

  /** [b, e) is nobody's: what the system may hand out. */
  ghost predicate Fresh(gm: int, s: Snap, b: int, e: int) {
    && 0 < b < e <= ADDRESS_LIMIT && b % 16 == 0 && e % 16 == 0
    && RegionClear(gm, b, e)
    && (forall i :: 0 <= i < |s.segs| ==> End(s.segs[i]) <= b || e <= s.segs[i].base)
    && (forall p {:trigger MapClear(p, s.chunks[p], b, e)} :: p in s.chunks ==> MapClear(p, s.chunks[p], b, e))
  }

  /** Only words of [b, e) differ. */
  ghost predicate WritesIn(m: Mem, m': Mem, b: int, e: int) {
    forall w :: Rd(m', w) != Rd(m, w) ==> b <= w < e
  }

  /** No chunk reaches into a fresh region. */
  lemma FreshApart(gm: int, s: Snap, b: int, e: int, p: int)
    requires HeapOk(gm, s) && Fresh(gm, s, b, e) && p in s.chunks
    ensures p + Extent(s.chunks[p]) <= b || e <= p
    ensures Sized(p, s.chunks[p])
  {
    hide BinsOk, Specials, StateApart;
    assert TagAt(s.mem, s.chunks, p) && Housed(s.segs, p, s.chunks[p]) && MapClear(p, s.chunks[p], b, e);
  }

  /** The chunk behind an in-use or free chunk is in the same segment. */
  lemma NextInside(gm: int, s: Snap, b: int, e: int, p: int)
    requires HeapOk(gm, s) && Fresh(gm, s, b, e) && p in s.chunks && (InUse(s.chunks[p].kind) || Free(s.chunks[p].kind))
    ensures var n := p + s.chunks[p].size; n in s.chunks && (n + 16 <= b || e <= p)
  {
    hide BinsOk, Specials, StateApart;
    assert TagAt(s.mem, s.chunks, p) && Housed(s.segs, p, s.chunks[p]);
    var n := p + s.chunks[p].size;
    assert n in s.chunks;
    assert TagAt(s.mem, s.chunks, n);
    FreshApart(gm, s, b, e, p);
    FreshApart(gm, s, b, e, n);
    var i :| 0 <= i < |s.segs| && InSeg(s.segs[i], p, s.chunks[p]);
  }

  /** The words that speak of a chunk are not in a fresh region. */
  lemma TagWords(gm: int, s: Snap, m': Mem, b: int, e: int, p: int)
    requires HeapOk(gm, s) && Fresh(gm, s, b, e) && WritesIn(s.mem, m', b, e) && p in s.chunks
    ensures Rd(m', p) == Rd(s.mem, p) && Rd(m', p + HEAD) == Rd(s.mem, p + HEAD)
    ensures Free(s.chunks[p].kind) ==> Rd(m', p + s.chunks[p].size) == Rd(s.mem, p + s.chunks[p].size)
    ensures s.chunks[p].kind == Top ==> Rd(m', p + s.chunks[p].size + HEAD) == Rd(s.mem, p + s.chunks[p].size + HEAD)
    ensures Live(s.chunks[p].kind) ==> SamePayload(s.mem, m', p, s.chunks[p].size)
  {
    hide HeapOk, Fresh;
    FreshApart(gm, s, b, e, p);
    if InUse(s.chunks[p].kind) || Free(s.chunks[p].kind) {
      NextInside(gm, s, b, e, p);
    }
  }

  /** More chunks in a fresh region: the tags of the old ones. */
  lemma OldTags(gm: int, s: Snap, m': Mem, cs': ChunkMap, b: int, e: int, p: int)
    requires HeapOk(gm, s) && Fresh(gm, s, b, e) && WritesIn(s.mem, m', b, e) && p in s.chunks
    requires forall x :: x < b || x >= e ==> (x in cs' <==> x in s.chunks) && (x in s.chunks ==> cs'[x] == s.chunks[x])
    requires forall x :: x in s.chunks ==> x < b || x >= e
    ensures p in cs' && cs'[p] == s.chunks[p] && TagAt(m', cs', p)
  {
    hide BinsOk, Specials, StateApart, Covers, Fresh, WritesIn, SamePayload;
    TagWords(gm, s, m', b, e, p);
    assert TagAt(s.mem, s.chunks, p);
    var n := p + s.chunks[p].size;
    if n in s.chunks {
      TagWords(gm, s, m', b, e, n);
    }
    OldPrev(s.mem, s.chunks, m', cs', p);
  }

  lemma OldPrev(m: Mem, cs: ChunkMap, m': Mem, cs': ChunkMap, p: int)
    requires Rd(m', p) == Rd(m, p) && forall x :: x in cs ==> x in cs' && cs'[x] == cs[x]
    ensures AfterFree(m, cs, p) ==> AfterFree(m', cs', p)
  {
  }

  /** A state with more chunks, all of them in a fresh region and none of them binned. */
  ghost predicate Extended(gm: int, s: Snap, s': Snap, b: int, e: int) {
    && Fresh(gm, s, b, e) && WritesIn(s.mem, s'.mem, b, e)
    && s'.small == s.small && s'.trees == s.trees && s'.smallmap == s.smallmap && s'.treemap == s.treemap
    && (forall x :: x < b || x >= e ==> (x in s'.chunks <==> x in s.chunks) && (x in s.chunks ==> s'.chunks[x] == s.chunks[x]))
    && (forall x {:trigger TagAt(s'.mem, s'.chunks, x)} :: x in s'.chunks && b <= x < e ==> TagAt(s'.mem, s'.chunks, x))
    && (forall x {:trigger Before(x, s'.chunks[x], e)} :: x in s'.chunks && b <= x < e ==> Before(x, s'.chunks[x], e))
    && (forall x, y {:trigger Before(x, s'.chunks[x], y)} ::
          x in s'.chunks && y in s'.chunks && b <= x < y < e ==> Before(x, s'.chunks[x], y))
    && (forall x :: x in s'.chunks && b <= x < e ==> s'.chunks[x].kind != Binned)
  }

  lemma NoneInFresh(gm: int, s: Snap, b: int, e: int)
    requires HeapOk(gm, s) && Fresh(gm, s, b, e)
    ensures forall x :: x in s.chunks ==> x < b || x >= e
  {
    hide HeapOk, Fresh;
    forall x | x in s.chunks ensures x < b || x >= e {
      FreshApart(gm, s, b, e, x);
    }
  }

  lemma ExtendedTags(gm: int, s: Snap, s': Snap, b: int, e: int)
    requires HeapOk(gm, s) && Extended(gm, s, s', b, e)
    ensures Tags(s'.mem, s'.chunks)
  {
    hide HeapOk, Fresh, WritesIn, TagAt;
    NoneInFresh(gm, s, b, e);
    forall x | x in s'.chunks ensures TagAt(s'.mem, s'.chunks, x) {
      if x < b || x >= e {
        OldTags(gm, s, s'.mem, s'.chunks, b, e, x);
      }
    }
    forall x, y | x in s'.chunks && y in s'.chunks && x < y ensures Before(x, s'.chunks[x], y) {
      ExtendedApart(gm, s, s', b, e, x, y);
    }
  }

  lemma ExtendedApart(gm: int, s: Snap, s': Snap, b: int, e: int, x: int, y: int)
    requires HeapOk(gm, s) && Extended(gm, s, s', b, e) && x in s'.chunks && y in s'.chunks && x < y
    ensures Before(x, s'.chunks[x], y)
  {
    hide BinsOk, Specials, StateApart, Covers, Fresh, WritesIn, TagAt;
    if b <= x < e {
      assert Before(x, s'.chunks[x], e);
    } else {
      FreshApart(gm, s, b, e, x);
      if y < b || y >= e {
        assert Before(x, s.chunks[x], y);
      }
    }
  }

  lemma ExtendedBins(gm: int, s: Snap, s': Snap, b: int, e: int)
    requires HeapOk(gm, s) && Extended(gm, s, s', b, e)
    ensures BinsOk(gm, s')
  {
    hide Fresh, WritesIn, TagAt, SB.SmallsOk, TB.TreesOk, Homes, StateApart, Specials, Covers, Tags;
    NoneInFresh(gm, s, b, e);
    var tiny, big := BinSet(s.chunks, true), BinSet(s.chunks, false);
    SmallsOf(gm, s);
    forall p, w | p in tiny + big && p <= w < p + s.chunks[p].size ensures Rd(s'.mem, w) == Rd(s.mem, w) {
      FreshApart(gm, s, b, e, p);
      OutsideWord(s.mem, s'.mem, b, e, w);
    }
    SameBinSet(s, s', b, e, true);
    SameBinSet(s, s', b, e, false);
    StateWords(gm, s, s', b, e);
    BinWords(gm, s, s'.mem);
    SmallsFrame(s.mem, s'.mem, gm, s.smallmap, s.small, tiny);
    TreesFrame(s.mem, s'.mem, gm, s.treemap, s.trees, big);
    HomesSame(s, s', b, e);
  }

  lemma OutsideWord(m: Mem, m': Mem, b: int, e: int, w: int)
    requires WritesIn(m, m', b, e) && (w < b || w >= e)
    ensures Rd(m', w) == Rd(m, w)
  {
  }

  lemma SameBinSet(s: Snap, s': Snap, b: int, e: int, isSmall: bool)
    requires forall x :: x < b || x >= e ==> (x in s'.chunks <==> x in s.chunks) && (x in s.chunks ==> s'.chunks[x] == s.chunks[x])
    requires forall x :: x in s.chunks ==> x < b || x >= e
    requires forall x :: x in s'.chunks && b <= x < e ==> s'.chunks[x].kind != Binned
    ensures BinSet(s'.chunks, isSmall) == BinSet(s.chunks, isSmall)
  {
    forall x ensures x in BinSet(s'.chunks, isSmall) <==> x in BinSet(s.chunks, isSmall) {
    }
  }

  lemma StateWords(gm: int, s: Snap, s': Snap, b: int, e: int)
    requires Fresh(gm, s, b, e) && WritesIn(s.mem, s'.mem, b, e)
    ensures forall w :: gm <= w < gm + STATE_SIZE ==> Rd(s'.mem, w) == Rd(s.mem, w)
  {
  }

  /** The words of binned chunks that their bins rely on. */
  lemma BinWords(gm: int, s: Snap, m': Mem)
    requires HeapOk(gm, s)
    requires forall p, w :: p in BinSet(s.chunks, true) + BinSet(s.chunks, false) && p <= w < p + s.chunks[p].size ==>
      Rd(m', w) == Rd(s.mem, w)
    ensures SameOn(s.mem, m', BinSet(s.chunks, false))
    ensures forall p :: p in BinSet(s.chunks, true) ==>
      Rd(m', p + FD) == Rd(s.mem, p + FD) && Rd(m', p + BK) == Rd(s.mem, p + BK)
  {
    hide BinsOk, Specials, StateApart, Covers;
    forall p | p in BinSet(s.chunks, true)
      ensures Rd(m', p + FD) == Rd(s.mem, p + FD) && Rd(m', p + BK) == Rd(s.mem, p + BK)
    {
      assert TagAt(s.mem, s.chunks, p);
      assert p in BinSet(s.chunks, true) + BinSet(s.chunks, false);
    }
    forall p | p in BinSet(s.chunks, false) ensures SameAt(s.mem, m', p) {
      assert p in BinSet(s.chunks, true) + BinSet(s.chunks, false);
      assert s.chunks[p].size >= MIN_LARGE_SIZE;
    }
  }

  lemma HomesSame(s: Snap, s': Snap, b: int, e: int)
    requires Homes(s.chunks, s.small, s.trees) && s'.small == s.small && s'.trees == s.trees
    requires forall x :: x < b || x >= e ==> (x in s'.chunks <==> x in s.chunks) && (x in s.chunks ==> s'.chunks[x] == s.chunks[x])
    requires forall x :: x in s.chunks ==> x < b || x >= e
    requires forall x :: x in s'.chunks && b <= x < e ==> s'.chunks[x].kind != Binned
    ensures Homes(s'.chunks, s'.small, s'.trees)
  {
    hide TreeIndex, Holds;
    var cs, cs', small, trees := s.chunks, s'.chunks, s.small, s.trees;
    forall i | 0 <= i < NBINS ensures SmallEntry(cs', small[i], i) {
      assert SmallEntry(cs, small[i], i);
    }
    forall i | 0 <= i < NBINS ensures TreeEntry(cs', trees[i], i) {
      assert TreeEntry(cs, trees[i], i);
    }
    forall p | p in cs' && cs'[p].kind == Binned ensures InHome(small, trees, p, cs'[p].size) {
      assert InHome(small, trees, p, cs[p].size);
    }
  }

  /** New chunks in a fresh region keep the heap invariant, once segments, dv and top are right. */
  lemma ExtendHeap(gm: int, s: Snap, s': Snap, b: int, e: int)
    requires HeapOk(gm, s) && Extended(gm, s, s', b, e) && Covers(s'.chunks, s'.segs) && Specials(s')
    ensures HeapOk(gm, s')
  {
    hide Tags, BinsOk, Specials, Covers, Fresh, WritesIn, TagAt;
    ExtendedTags(gm, s, s', b, e);
    ExtendedBins(gm, s, s', b, e);
    assert StateApart(gm, s.chunks);
    forall x | x in s'.chunks ensures Clear(gm, x, s'.chunks[x]) {
      if x < b || x >= e {
        assert Clear(gm, x, s.chunks[x]);
      } else {
        assert Before(x, s'.chunks[x], e);
        FreshClear(gm, s, b, e);
      }
    }
  }

  lemma FreshClear(gm: int, s: Snap, b: int, e: int)
    requires Fresh(gm, s, b, e)
    ensures RegionClear(gm, b, e)
  {
  }

  /** What an extension keeps: every chunk that was live, with its contents. */
  lemma ExtendKeeps(gm: int, s: Snap, s': Snap, b: int, e: int, but: set<int>)
    requires HeapOk(gm, s) && Extended(gm, s, s', b, e)
    requires forall x :: b <= x < e && LiveAt(s', x) ==> x in but
    ensures Keeps(s, s', but)
  {
    hide HeapOk, Fresh, WritesIn, TagAt, SamePayload;
    NoneInFresh(gm, s, b, e);
    forall q | q !in but ensures KeepsAt(s, s', q) {
      if LiveAt(s, q) {
        TagWords(gm, s, s'.mem, b, e, q);
      }
    }
  }

  // ---------- a new segment with a new top ----------

  /** init_top on a fresh region, with no top before. */
  ghost predicate ToppedUp(s: Snap, s': Snap, b: int, e: int, isMapped: bool) {
    && s.topsize == 0 && e - b >= TOP_FOOT_SIZE + 16
    && s'.top == b && s'.topsize == e - b - TOP_FOOT_SIZE && s'.dv == s.dv && s'.dvsize == s.dvsize
    && s'.small == s.small && s'.trees == s.trees && s'.smallmap == s.smallmap && s'.treemap == s.treemap
    && s'.segs == [Segment(b, e - b, isMapped)] + s.segs
    && s'.chunks == s.chunks[b := Chunk(s'.topsize, Top)]
    && Rd(s'.mem, b + HEAD) == s'.topsize + 1 && Rd(s'.mem, b + s'.topsize + HEAD) == TOP_FOOT_SIZE
    && WritesIn(s.mem, s'.mem, b, e)
  }

  lemma TopExtended(gm: int, s: Snap, s': Snap, b: int, e: int, isMapped: bool)
    requires HeapOk(gm, s) && Fresh(gm, s, b, e) && ToppedUp(s, s', b, e, isMapped)
    ensures Extended(gm, s, s', b, e)
  {
    hide HeapOk, Fresh, WritesIn, TagAt;
    NoneInFresh(gm, s, b, e);
    FreshBounds(gm, s, b, e);
    TopTag(s'.mem, s'.chunks, b) by { TopSized(b, e); }
  }

  lemma FreshBounds(gm: int, s: Snap, b: int, e: int)
    requires Fresh(gm, s, b, e)
    ensures 0 < b < e <= ADDRESS_LIMIT && b % 16 == 0 && e % 16 == 0
  {
  }

  lemma TopSized(b: int, e: int)
    requires 0 < b && b % 16 == 0 && e % 16 == 0 && e - b >= TOP_FOOT_SIZE + 16 && e <= ADDRESS_LIMIT
    ensures Sized(b, Chunk(e - b - TOP_FOOT_SIZE, Top))
  {
  }

  lemma SpecialsTop(s: Snap, s': Snap, t: int)
    requires Specials(s) && s.topsize == 0 && t !in s.chunks
    requires s'.chunks == s.chunks[t := Chunk(s'.topsize, Top)] && s'.top == t && s'.topsize != 0
    requires s'.dv == s.dv && s'.dvsize == s.dvsize
    ensures Specials(s')
  {
  }

  lemma HousedLater(sg: Segment, segs: seq<Segment>, p: int, c: Chunk)
    requires Housed(segs, p, c)
    ensures Housed([sg] + segs, p, c)
  {
    if !c.kind.Mapped? {
      var i :| 0 <= i < |segs| && InSeg(segs[i], p, c);
      assert ([sg] + segs)[i + 1] == segs[i];
    }
  }

  lemma CoversTop(gm: int, s: Snap, s': Snap, b: int, e: int, isMapped: bool)
    requires HeapOk(gm, s) && Fresh(gm, s, b, e) && ToppedUp(s, s', b, e, isMapped)
    ensures Covers(s'.chunks, s'.segs)
  {
    hide Tags, BinsOk, Specials, StateApart, WritesIn;
    var sg := Segment(b, e - b, isMapped);
    NoneInFresh(gm, s, b, e);
    forall p | p in s'.chunks ensures Housed(s'.segs, p, s'.chunks[p]) {
      if p == b {
        assert InSeg(s'.segs[0], p, s'.chunks[p]);
      } else {
        assert Housed(s.segs, p, s.chunks[p]);
        HousedLater(sg, s.segs, p, s.chunks[p]);
      }
    }
    forall i | 0 <= i < |s'.segs| ensures Started(s'.chunks, s'.segs[i]) {
      if i > 0 {
        assert s'.segs[i] == s.segs[i - 1] && Started(s.chunks, s.segs[i - 1]);
      }
    }
    SegsApartCons(sg, s.segs);
  }

  lemma SegsApartCons(sg: Segment, segs: seq<Segment>)
    requires SegsApart(segs) && forall i :: 0 <= i < |segs| ==> End(segs[i]) <= sg.base || End(sg) <= segs[i].base
    ensures SegsApart([sg] + segs)
  {
    var all := [sg] + segs;
    forall i, j | 0 <= i < |all| && 0 <= j < |all| && i != j
      ensures End(all[i]) <= all[j].base || End(all[j]) <= all[i].base
    {
      if i > 0 { assert all[i] == segs[i - 1]; }
      if j > 0 { assert all[j] == segs[j - 1]; }
    }
  }

  lemma NewTop(gm: int, s: Snap, s': Snap, b: int, e: int, isMapped: bool)
    requires HeapOk(gm, s) && Fresh(gm, s, b, e) && ToppedUp(s, s', b, e, isMapped)
    ensures HeapOk(gm, s') && Keeps(s, s', {}) && LooseSet(s') == LooseSet(s)
  {
    hide HeapOk, Fresh, Covers, Specials, Extended, WritesIn;
    TopExtended(gm, s, s', b, e, isMapped);
    CoversTop(gm, s, s', b, e, isMapped);
    SpecialsOf(gm, s);
    NoneInFresh(gm, s, b, e);
    FreshBounds(gm, s, b, e);
    SpecialsTop(s, s', b);
    ExtendHeap(gm, s, s', b, e);
    ExtendKeeps(gm, s, s', b, e, {});
  }

  /** Words of a fresh region may change at any time. */
  lemma FreshWrite(gm: int, s: Snap, s': Snap, b: int, e: int)
    requires HeapOk(gm, s) && Fresh(gm, s, b, e) && s' == s.(mem := s'.mem) && WritesIn(s.mem, s'.mem, b, e)
    ensures HeapOk(gm, s') && Keeps(s, s', {}) && LooseSet(s') == LooseSet(s)
  {
    hide Tags, BinsOk, StateApart, Fresh, WritesIn, TagAt;
    NoneInFresh(gm, s, b, e);
    assert Extended(gm, s, s', b, e);
    ExtendHeap(gm, s, s', b, e);
    ExtendKeeps(gm, s, s', b, e, {});
  }

  // ---------- top grows or shrinks at the end of its segment ----------

  /** init_top at the same place with another size. */
  ghost predicate TopResized(s: Snap, s': Snap, d: int) {
    && s.topsize != 0 && |s.segs| > 0 && s.segs[0].base <= s.top && s.top + s.topsize + TOP_FOOT_SIZE == End(s.segs[0])
    && d % 16 == 0 && s'.topsize == s.topsize + d && s'.topsize >= 16 && End(s.segs[0]) + d <= ADDRESS_LIMIT
    && SameFields(s, s') && s'.segs == s.segs[0 := Segment(s.segs[0].base, s.segs[0].size + d, s.segs[0].mapped)]
    && s'.chunks == s.chunks[s.top := Chunk(s'.topsize, Top)]
    && Rd(s'.mem, s.top + HEAD) == s'.topsize + 1 && Rd(s'.mem, s.top + s'.topsize + HEAD) == TOP_FOOT_SIZE
    && Writes(s.mem, s'.mem, {s.top + HEAD, s.top + s'.topsize + HEAD})
  }

  ghost predicate SameFields(s: Snap, s': Snap) {
    && s'.small == s.small && s'.trees == s.trees && s'.smallmap == s.smallmap && s'.treemap == s.treemap
    && s'.top == s.top && s'.dv == s.dv && s'.dvsize == s.dvsize
  }

  /** The memory that top grows into is nobody's. */
  ghost predicate RoomBehind(gm: int, s: Snap, d: int) {
    d > 0 ==> |s.segs| > 0 && Fresh(gm, s, End(s.segs[0]), End(s.segs[0]) + d)
  }

  /** The chunks beside top are away from all that is written. */
  lemma BesideTop(gm: int, s: Snap, s': Snap, d: int, p: int)
    requires HeapOk(gm, s) && TopResized(s, s', d) && RoomBehind(gm, s, d) && p in s.chunks && p != s.top
    ensures p + Extent(s.chunks[p]) <= s.top || (p >= End(s.segs[0]) && p >= End(s.segs[0]) + d)
    ensures Extent(s.chunks[p]) >= 16 && p > 0
  {
    hide BinsOk, StateApart, Fresh;
    SpecialsOf(gm, s);
    assert TagAt(s.mem, s.chunks, p);
    hide TagAt;
    assert p < s.top ==> Before(p, s.chunks[p], s.top);
    assert p > s.top ==> Before(s.top, s.chunks[s.top], p);
    if p > s.top && d > 0 {
      FreshApart(gm, s, End(s.segs[0]), End(s.segs[0]) + d, p);
    }
  }

  lemma ResizedWords(gm: int, s: Snap, s': Snap, d: int, p: int)
    requires HeapOk(gm, s) && TopResized(s, s', d) && RoomBehind(gm, s, d) && p in s.chunks && p != s.top
    ensures forall w :: p <= w < p + Extent(s.chunks[p]) + HEAD && (p < s.top || w < p + Extent(s.chunks[p])) ==>
      Rd(s'.mem, w) == Rd(s.mem, w)
    ensures p < s.top || p > s.top + s'.topsize + HEAD
  {
    hide HeapOk, RoomBehind;
    BesideTop(gm, s, s', d, p);
  }

  lemma ResizedTagAt(gm: int, s: Snap, s': Snap, d: int, p: int)
    requires HeapOk(gm, s) && TopResized(s, s', d) && RoomBehind(gm, s, d) && p in s.chunks && p != s.top
    ensures TagAt(s'.mem, s'.chunks, p)
  {
    hide BinsOk, StateApart, RoomBehind, Writes, Covers, Specials;
    SpecialsOf(gm, s);
    assert TagAt(s.mem, s.chunks, p);
    ResizedWords(gm, s, s', d, p);
    var n := p + s.chunks[p].size;
    if n in s.chunks && n != s.top {
      ResizedWords(gm, s, s', d, n);
      assert TagAt(s.mem, s.chunks, n);
    }
    if AfterFree(s.mem, s.chunks, p) {
      assert AfterFree(s'.mem, s'.chunks, p);
    }
  }

  lemma ResizedTags(gm: int, s: Snap, s': Snap, d: int)
    requires HeapOk(gm, s) && TopResized(s, s', d) && RoomBehind(gm, s, d)
    ensures Tags(s'.mem, s'.chunks)
  {
    hide BinsOk, StateApart, RoomBehind, Writes, Unpinned, AfterFree;
    SpecialsOf(gm, s);
    forall p | p in s'.chunks ensures TagAt(s'.mem, s'.chunks, p) {
      if p == s.top {
        assert TagAt(s.mem, s.chunks, p);
        TopTag(s'.mem, s'.chunks, p);
      } else {
        ResizedTagAt(gm, s, s', d, p);
      }
    }
    forall x, y | x in s'.chunks && y in s'.chunks && x < y ensures Before(x, s'.chunks[x], y) {
      if x == s.top {
        BesideTop(gm, s, s', d, y);
      }
      assert Before(x, s.chunks[x], y);
    }
  }

  lemma ResizedBins(gm: int, s: Snap, s': Snap, d: int)
    requires HeapOk(gm, s) && TopResized(s, s', d) && RoomBehind(gm, s, d)
    ensures BinsOk(gm, s')
  {
    hide RoomBehind, TagAt, SB.SmallsOk, TB.TreesOk, Homes, StateApart, Specials, Covers, Tags, Writes;
    var tiny, big := BinSet(s.chunks, true), BinSet(s.chunks, false);
    SmallsOf(gm, s);
    SpecialsOf(gm, s);
    TopNotBinned(s, s');
    forall p, w | p in tiny + big && p <= w < p + s.chunks[p].size ensures Rd(s'.mem, w) == Rd(s.mem, w) {
      ResizedWords(gm, s, s', d, p);
    }
    ResizedState(gm, s, s', d);
    BinWords(gm, s, s'.mem);
    SmallsFrame(s.mem, s'.mem, gm, s.smallmap, s.small, tiny);
    TreesFrame(s.mem, s'.mem, gm, s.treemap, s.trees, big);
  }

  lemma TopNotBinned(s: Snap, s': Snap)
    requires s.top in s.chunks && s.chunks[s.top].kind == Top && s'.chunks == s.chunks[s.top := Chunk(s'.topsize, Top)]
    requires Homes(s.chunks, s.small, s.trees) && s'.small == s.small && s'.trees == s.trees
    ensures BinSet(s'.chunks, true) == BinSet(s.chunks, true) && BinSet(s'.chunks, false) == BinSet(s.chunks, false)
    ensures Homes(s'.chunks, s'.small, s'.trees)
  {
    hide TreeIndex, Holds;
    var cs, cs', small, trees := s.chunks, s'.chunks, s.small, s.trees;
    forall i | 0 <= i < NBINS ensures SmallEntry(cs', small[i], i) {
      assert SmallEntry(cs, small[i], i);
    }
    forall i | 0 <= i < NBINS ensures TreeEntry(cs', trees[i], i) {
      assert TreeEntry(cs, trees[i], i);
    }
    forall p | p in cs' && cs'[p].kind == Binned ensures InHome(small, trees, p, cs'[p].size) {
      assert InHome(small, trees, p, cs[p].size);
    }
  }

  lemma ResizedState(gm: int, s: Snap, s': Snap, d: int)
    requires HeapOk(gm, s) && TopResized(s, s', d) && RoomBehind(gm, s, d)
    ensures forall w :: gm <= w < gm + STATE_SIZE ==> Rd(s'.mem, w) == Rd(s.mem, w)
    ensures Clear(gm, s.top, Chunk(s'.topsize, Top))
  {
    hide BinsOk, Tags, Covers;
    SpecialsOf(gm, s);
    assert Clear(gm, s.top, s.chunks[s.top]);
  }

  lemma ResizedCovers(gm: int, s: Snap, s': Snap, d: int)
    requires HeapOk(gm, s) && TopResized(s, s', d) && RoomBehind(gm, s, d)
    ensures Covers(s'.chunks, s'.segs)
  {
    hide BinsOk, StateApart, Writes, TagAt, Before;
    SpecialsOf(gm, s);
    forall p | p in s'.chunks ensures Housed(s'.segs, p, s'.chunks[p]) {
      if p == s.top {
        assert InSeg(s'.segs[0], p, s'.chunks[p]);
      } else {
        ResizedHoused(gm, s, s', d, p);
      }
    }
    forall i | 0 <= i < |s'.segs| ensures Started(s'.chunks, s'.segs[i]) {
      assert Started(s.chunks, s.segs[i]);
    }
    ResizedSegs(gm, s, s', d);
  }

  lemma ResizedHoused(gm: int, s: Snap, s': Snap, d: int, p: int)
    requires HeapOk(gm, s) && TopResized(s, s', d) && RoomBehind(gm, s, d) && p in s.chunks && p != s.top
    ensures Housed(s'.segs, p, s'.chunks[p])
  {
    hide BinsOk, StateApart, Writes, Tags, RoomBehind;
    BesideTop(gm, s, s', d, p);
    DvFacts(gm, s);
    assert Housed(s.segs, p, s.chunks[p]);
    if !s.chunks[p].kind.Mapped? {
      var i :| 0 <= i < |s.segs| && InSeg(s.segs[i], p, s.chunks[p]);
      assert InSeg(s'.segs[i], p, s'.chunks[p]);
    }
  }

  lemma ResizedSegs(gm: int, s: Snap, s': Snap, d: int)
    requires HeapOk(gm, s) && TopResized(s, s', d) && RoomBehind(gm, s, d)
    ensures SegsApart(s'.segs)
  {
    hide BinsOk, StateApart, Writes, Tags;
    SpecialsOf(gm, s);
    forall i, j | 0 <= i < |s'.segs| && 0 <= j < |s'.segs| && i != j
      ensures End(s'.segs[i]) <= s'.segs[j].base || End(s'.segs[j]) <= s'.segs[i].base
    {
      assert Started(s.chunks, s.segs[i]) && Started(s.chunks, s.segs[j]);
    }
  }

  lemma ResizeTop(gm: int, s: Snap, s': Snap, d: int)
    requires HeapOk(gm, s) && TopResized(s, s', d) && RoomBehind(gm, s, d)
    ensures HeapOk(gm, s') && Keeps(s, s', {}) && LooseSet(s') == LooseSet(s)
  {
    hide Tags, BinsOk, Covers, RoomBehind, Writes, SamePayload;
    SpecialsOf(gm, s);
    ResizedTags(gm, s, s', d);
    ResizedBins(gm, s, s', d);
    ResizedCovers(gm, s, s', d);
    ResizedState(gm, s, s', d);
    forall x | x in s'.chunks ensures Clear(gm, x, s'.chunks[x]) {
      assert Clear(gm, x, s.chunks[x]);
    }
    forall q | q !in {} ensures KeepsAt(s, s', q) {
      if q in s.chunks && Live(s.chunks[q].kind) {
        ResizedPayload(gm, s, s', d, q);
      }
    }
  }

  lemma ResizedPayload(gm: int, s: Snap, s': Snap, d: int, q: int)
    requires HeapOk(gm, s) && TopResized(s, s', d) && RoomBehind(gm, s, d) && q in s.chunks && Live(s.chunks[q].kind)
    ensures SamePayload(s.mem, s'.mem, q, s.chunks[q].size)
  {
    hide BinsOk, StateApart, Covers, Writes, RoomBehind;
    SpecialsOf(gm, s);
    assert TagAt(s.mem, s.chunks, q);
    ResizedWords(gm, s, s', d, q);
    var n := q + s.chunks[q].size;
    if !s.chunks[q].kind.Mapped? && n != s.top {
      ResizedWords(gm, s, s', d, n);
      assert TagAt(s.mem, s.chunks, n);
    }
  }

  // ---------- memory in front of a segment ----------

  /** A segment starts with a chunk that does not follow a free one. */
  lemma FirstPinned(gm: int, s: Snap, i: nat)
    requires HeapOk(gm, s) && i < |s.segs|
    ensures var e := s.segs[i].base;
      e in s.chunks && Follows(Used, s.chunks[e].kind) && !Unpinned(s.mem, s.chunks, e) && Sized(e, s.chunks[e])
  {
    hide BinsOk, StateApart, Specials;
    var e := s.segs[i].base;
    assert Started(s.chunks, s.segs[i]);
    assert TagAt(s.mem, s.chunks, e);
    if Unpinned(s.mem, s.chunks, e) {
      var q := e - Rd(s.mem, e);
      assert AfterFree(s.mem, s.chunks, e);
      var j := SegmentOf(s.chunks, s.segs, q);
      SegmentsApart(s.segs, i, j);
    }
  }

  lemma SegmentsApart(segs: seq<Segment>, i: nat, j: nat)
    requires SegsApart(segs) && i < |segs| && j < |segs|
    ensures i == j || End(segs[i]) <= segs[j].base || End(segs[j]) <= segs[i].base
  {
  }

  /** Two in-use chunks fill the fresh region in front of segment i. */
  ghost predicate Prepended(s: Snap, s': Snap, i: nat, b: int, q: int) {
    && i < |s.segs| && var e := s.segs[i].base;
    && b + MIN_CHUNK_SIZE <= q <= e - MIN_CHUNK_SIZE && q % 16 == 0
    && SameFields(s, s') && s'.topsize == s.topsize
    && s'.segs == s.segs[i := Segment(b, End(s.segs[i]) - b, s.segs[i].mapped)]
    && s'.chunks == s.chunks[b := Chunk(q - b, Used)][q := Chunk(e - q, Used)]
    && Rd(s'.mem, b + HEAD) == q - b + 3 && Rd(s'.mem, q + HEAD) == e - q + 3
    && WritesIn(s.mem, s'.mem, b, e)
  }

  lemma PrependedExtended(gm: int, s: Snap, s': Snap, i: nat, b: int, q: int)
    requires HeapOk(gm, s) && Prepended(s, s', i, b, q) && Fresh(gm, s, b, s.segs[i].base)
    ensures Extended(gm, s, s', b, s.segs[i].base)
  {
    hide HeapOk, Fresh, TagAt, Unpinned;
    var e := s.segs[i].base;
    NoneInFresh(gm, s, b, e);
    FreshBounds(gm, s, b, e);
    FirstPinned(gm, s, i);
    EdgePinned(gm, s, s', b, e);
    HeadPinned(s', q, e - q);
    EvenDistance16(b, q, e);
    UsedTag(s'.mem, s'.chunks, b);
    UsedTag(s'.mem, s'.chunks, q);
    hide WritesIn;
  }

  lemma EvenDistance16(b: int, q: int, e: int)
    requires b % 16 == 0 && q % 16 == 0 && e % 16 == 0
    ensures (q - b) % 16 == 0 && (e - q) % 16 == 0
  {
    assert q - b == 16 * (q / 16 - b / 16) && e - q == 16 * (e / 16 - q / 16);
  }

  lemma HeadPinned(s: Snap, q: int, z: int)
    requires q in s.chunks && s.chunks[q] == Chunk(z, Used) && Rd(s.mem, q + HEAD) == z + 3
    ensures !Unpinned(s.mem, s.chunks, q)
  {
  }

  lemma EdgePinned(gm: int, s: Snap, s': Snap, b: int, e: int)
    requires HeapOk(gm, s) && WritesIn(s.mem, s'.mem, b, e) && e in s.chunks && !Unpinned(s.mem, s.chunks, e)
    requires e in s'.chunks && s'.chunks[e] == s.chunks[e]
    ensures !Unpinned(s'.mem, s'.chunks, e)
  {
    hide HeapOk;
  }

  lemma PrependedHoused(gm: int, s: Snap, s': Snap, i: nat, b: int, q: int, p: int)
    requires HeapOk(gm, s) && Prepended(s, s', i, b, q) && Fresh(gm, s, b, s.segs[i].base) && p in s'.chunks
    ensures Housed(s'.segs, p, s'.chunks[p])
  {
    hide Tags, BinsOk, StateApart, Specials, WritesIn;
    assert Started(s.chunks, s.segs[i]);
    if p == b || p == q {
      assert InSeg(s'.segs[i], p, s'.chunks[p]);
    } else {
      assert Housed(s.segs, p, s.chunks[p]);
      if !s.chunks[p].kind.Mapped? {
        var j :| 0 <= j < |s.segs| && InSeg(s.segs[j], p, s.chunks[p]);
        assert InSeg(s'.segs[j], p, s'.chunks[p]);
      }
    }
  }

  lemma PrependedSegs(gm: int, s: Snap, s': Snap, i: nat, b: int, q: int)
    requires HeapOk(gm, s) && Prepended(s, s', i, b, q) && Fresh(gm, s, b, s.segs[i].base)
    ensures SegsApart(s'.segs)
  {
    hide Tags, BinsOk, StateApart, Specials, WritesIn, Housed;
    forall j, k | 0 <= j < |s'.segs| && 0 <= k < |s'.segs| && j != k
      ensures End(s'.segs[j]) <= s'.segs[k].base || End(s'.segs[k]) <= s'.segs[j].base
    {
      assert Started(s.chunks, s.segs[j]) && Started(s.chunks, s.segs[k]);
    }
  }

  lemma CoversPrepended(gm: int, s: Snap, s': Snap, i: nat, b: int, q: int)
    requires HeapOk(gm, s) && Prepended(s, s', i, b, q) && Fresh(gm, s, b, s.segs[i].base)
    ensures Covers(s'.chunks, s'.segs)
  {
    hide Tags, BinsOk, StateApart, Specials, WritesIn, Housed, SegsApart, Fresh;
    NoneInFresh(gm, s, b, s.segs[i].base);
    PrependedSegs(gm, s, s', i, b, q);
    forall p | p in s'.chunks ensures Housed(s'.segs, p, s'.chunks[p]) {
      PrependedHoused(gm, s, s', i, b, q, p);
    }
    forall j | 0 <= j < |s'.segs| ensures Started(s'.chunks, s'.segs[j]) {
      assert Started(s.chunks, s.segs[j]) && Started(s.chunks, s.segs[i]);
    }
  }

  lemma SpecialsWith(s: Snap, s': Snap, b: int, q: int, c: Chunk, d: Chunk)
    requires Specials(s) && b !in s.chunks && q !in s.chunks && c.kind == Used && d.kind == Used
    requires s'.chunks == s.chunks[b := c][q := d] && SameFields(s, s') && s'.topsize == s.topsize
    ensures Specials(s')
  {
  }

  lemma Prepend(gm: int, s: Snap, s': Snap, i: nat, b: int, q: int)
    requires HeapOk(gm, s) && Prepended(s, s', i, b, q) && Fresh(gm, s, b, s.segs[i].base)
    ensures HeapOk(gm, s') && Keeps(s, s', {b, q}) && LooseSet(s') == LooseSet(s) && !LiveAt(s, b) && !LiveAt(s, q)
  {
    hide HeapOk, Fresh, Covers, Specials, Extended, WritesIn;
    var e := s.segs[i].base;
    PrependedExtended(gm, s, s', i, b, q);
    CoversPrepended(gm, s, s', i, b, q);
    SpecialsOf(gm, s);
    NoneInFresh(gm, s, b, e);
    SpecialsWith(s, s', b, q, Chunk(q - b, Used), Chunk(e - q, Used));
    ExtendHeap(gm, s, s', b, e);
    ExtendKeeps(gm, s, s', b, e, {b, q});
  }

  // ---------- top retires: a free chunk, a segment record, fenceposts ----------

  const RECORD_SIZE: int := 48

  /** The chunks that take the place of top: what is left before the record is a free chunk. */
  ghost function RetiredChunks(cs: ChunkMap, t: int, c: int, e: int): ChunkMap {
    var r := Chunk(RECORD_SIZE, Record);
    (if c == t then Merged(cs, t, e, r) else Split(cs, t, c, e, Chunk(c - t, Loose), r))
      [c + RECORD_SIZE := Chunk(e - c - RECORD_SIZE, Fence)]
  }

  /** add_segment, as far as it concerns the old top: the record goes to c. */
  ghost predicate Retired(s: Snap, s': Snap, c: int) {
    && s.topsize != 0 && var t, e := s.top, s.top + s.topsize + TOP_FOOT_SIZE;
    && (c == t || t + MIN_CHUNK_SIZE <= c) && c % 16 == 0 && c + RECORD_SIZE + 16 <= e
    && SameBins(s, s') && s'.dv == s.dv && s'.dvsize == s.dvsize && s'.top == 0 && s'.topsize == 0
    && s'.chunks == RetiredChunks(s.chunks, t, c, e)
    && (c != t ==> Rd(s'.mem, t + HEAD) == c - t + 1 && Rd(s'.mem, c) == c - t)
    && Rd(s'.mem, c + HEAD) == RECORD_SIZE + (if c == t then 3 else 2)
    && Rd(s'.mem, c + RECORD_SIZE + HEAD) == FENCEPOST_HEAD
    && WritesIn(s.mem, s'.mem, t + HEAD, e)
  }

  lemma RetiredOutside(cs: ChunkMap, t: int, c: int, e: int)
    requires t <= c < c + RECORD_SIZE < e
    ensures var cs', f := RetiredChunks(cs, t, c, e), c + RECORD_SIZE;
      && SameOutside(cs, cs', t, e)
      && (forall x :: x in cs' && t <= x < e ==> x == t || x == c || x == f)
      && t in cs' && (c != t ==> cs'[t] == Chunk(c - t, Loose))
      && c in cs' && cs'[c] == Chunk(RECORD_SIZE, Record) && f in cs' && cs'[f] == Chunk(e - f, Fence)
  {
  }

  lemma RetiredTags(s: Snap, s': Snap, t: int, c: int, e: int)
    requires t <= c < c + RECORD_SIZE + 16 <= e <= ADDRESS_LIMIT && t > 0 && t % 16 == 0 && c % 16 == 0 && e % 16 == 0
    requires c == t || t + MIN_CHUNK_SIZE <= c
    requires s'.chunks == RetiredChunks(s.chunks, t, c, e)
    requires c != t ==> Rd(s'.mem, t + HEAD) == c - t + 1 && Rd(s'.mem, c) == c - t
    requires Rd(s'.mem, c + HEAD) == RECORD_SIZE + (if c == t then 3 else 2)
    requires Rd(s'.mem, c + RECORD_SIZE + HEAD) == FENCEPOST_HEAD
    ensures TagAt(s'.mem, s'.chunks, t) && TagAt(s'.mem, s'.chunks, c) && TagAt(s'.mem, s'.chunks, c + RECORD_SIZE)
    ensures !Unpinned(s'.mem, s'.chunks, t)
  {
    hide RetiredChunks;
    RetiredOutside(s.chunks, t, c, e);
    EvenDistance16(t, c, e);
    if c != t {
      assert AfterFree(s'.mem, s'.chunks, c);
      FreeTag(s'.mem, s'.chunks, t);
    }
    UsedTag(s'.mem, s'.chunks, c);
  }

  lemma RetiredRetiling(gm: int, s: Snap, s': Snap, c: int)
    requires HeapOk(gm, s) && Retired(s, s', c)
    ensures Retiling(s.mem, s.chunks, s'.mem, s'.chunks, s.top, s.top + s.topsize + TOP_FOOT_SIZE)
  {
    hide HeapOk, RetiredChunks, Region, TagAt, Unpinned, SameOutside, Within;
    var t, e := s.top, s.top + s.topsize + TOP_FOOT_SIZE;
    TopRegion(gm, s);
    RetiredOutside(s.chunks, t, c, e);
    TopEndsEven(s, t, e);
    RetiredTags(s, s', t, c, e);
    RetiredWithin(s.mem, s'.mem, t, e);
    assert Tags(s.mem, s.chunks) by { TagsOf(gm, s); }
    TopEdge(s.mem, s.chunks, s'.mem, s'.chunks, t, t, e) by { hide Tags; OutsideWord(s.mem, s'.mem, t + HEAD, e, e); OutsideWord(s.mem, s'.mem, t + HEAD, e, e + HEAD); }
    hide Tags, WritesIn;
  }

  lemma TagsOf(gm: int, s: Snap)
    requires HeapOk(gm, s)
    ensures Tags(s.mem, s.chunks)
  {
  }

  lemma TopEndsEven(s: Snap, t: int, e: int)
    requires t in s.chunks && s.chunks[t] == Chunk(s.topsize, Top) && Sized(t, s.chunks[t]) && e == t + s.topsize + TOP_FOOT_SIZE
    ensures e % 16 == 0 && e <= ADDRESS_LIMIT && t % 16 == 0 && t > 0
  {
  }

  lemma RetiredWithin(m: Mem, m': Mem, t: int, e: int)
    requires WritesIn(m, m', t + HEAD, e)
    ensures Within(m, m', t, e)
  {
  }

  lemma SpecialsRetired(s: Snap, s': Snap, c: int, e: int)
    requires Specials(s) && s.topsize != 0 && s.top <= c < e && SameOutside(s.chunks, s'.chunks, s.top, e)
    requires forall x :: x in s.chunks && s.top <= x < e ==> x == s.top
    requires forall x :: x in s'.chunks && s.top <= x < e ==> s'.chunks[x].kind != Top && s'.chunks[x].kind != Victim
    requires s'.top == 0 && s'.topsize == 0 && s'.dv == s.dv && s'.dvsize == s.dvsize
    ensures Specials(s')
  {
  }

  /** The old top becomes a free chunk, if it is large enough, the record, and fenceposts. */
  lemma RetireTop(gm: int, s: Snap, s': Snap, c: int)
    requires HeapOk(gm, s) && Retired(s, s', c)
    ensures HeapOk(gm, s') && Keeps(s, s', {c, c + RECORD_SIZE}) && !LiveAt(s, c) && !LiveAt(s, c + RECORD_SIZE)
    ensures LooseSet(s') == LooseSet(s) + (if c == s.top then {} else {s.top})
    ensures c in s'.chunks && s'.chunks[c] == Chunk(RECORD_SIZE, Record)
    ensures c != s.top ==> s.top in s'.chunks && s'.chunks[s.top] == Chunk(c - s.top, Loose)
    ensures var f, e := c + RECORD_SIZE, s.top + s.topsize + TOP_FOOT_SIZE; f in s'.chunks && s'.chunks[f] == Chunk(e - f, Fence)
  {
    hide HeapOk, RetiredChunks, Retiling, TagAt, Unpinned, Specials, WritesIn, Inside, RegionClear;
    var t, e := s.top, s.top + s.topsize + TOP_FOOT_SIZE;
    TopRegion(gm, s);
    RetiredOutside(s.chunks, t, c, e);
    RetiredRetiling(gm, s, s', c);
    SpecialsOf(gm, s);
    SpecialsRetired(s, s', c, e);
    OutsideWord(s.mem, s'.mem, t + HEAD, e, e);
    OutsideWord(s.mem, s'.mem, t + HEAD, e, e + HEAD);
    RetireStep(gm, s, s', t, c, e);
  }

  lemma RetireStep(gm: int, s: Snap, s': Snap, t: int, c: int, e: int)
    requires HeapOk(gm, s) && Region(gm, s, t, e, {t}, true) && SameBins(s, s') && Specials(s')
    requires t in s.chunks && s.chunks[t].kind == Top && t <= c < c + RECORD_SIZE < e
    requires Retiling(s.mem, s.chunks, s'.mem, s'.chunks, t, e)
    requires Rd(s'.mem, e) == Rd(s.mem, e) && Rd(s'.mem, e + HEAD) == Rd(s.mem, e + HEAD)
    requires forall x :: x in s'.chunks && t <= x < e ==> x == t || x == c || x == c + RECORD_SIZE
    requires c != t ==> t in s'.chunks && s'.chunks[t] == Chunk(c - t, Loose)
    requires c in s'.chunks && s'.chunks[c] == Chunk(RECORD_SIZE, Record)
    requires var f := c + RECORD_SIZE; f in s'.chunks && s'.chunks[f] == Chunk(e - f, Fence)
    ensures HeapOk(gm, s') && Keeps(s, s', {c, c + RECORD_SIZE}) && !LiveAt(s, c) && !LiveAt(s, c + RECORD_SIZE)
  {
    hide HeapOk, Specials, Inside, RegionClear, Retiling;
    var f := c + RECORD_SIZE;
    assert Closed(s'.chunks, t, e, true);
    RegionMore(gm, s, t, e, c, f);
    RetileStep(gm, s, s', t, e, {t, c, f}, true);
    if c != t {
      KeepsDead(s, s', {t, c, f}, t);
      assert {t, c, f} - {t} == {c, f};
    } else {
      assert {t, c, f} == {c, f};
    }
  }

  lemma RegionMore(gm: int, s: Snap, t: int, e: int, c: int, f: int)
    requires Region(gm, s, t, e, {t}, true)
    ensures Region(gm, s, t, e, {t, c, f}, true)
  {
    hide Inside, RegionClear;
  }

  // ---------- the owner of a chunk writes to it ----------

  /** Only contents of chunk p differ. */
  ghost predicate OwnerWrites(s: Snap, s': Snap, p: int) {
    && p in s.chunks && Live(s.chunks[p].kind) && s' == s.(mem := s'.mem)
    && WritesIn(s.mem, s'.mem, p + 16, p + s.chunks[p].size + HEAD)
  }

  lemma OwnPlace(gm: int, s: Snap, p: int, q: int)
    requires HeapOk(gm, s) && p in s.chunks && Live(s.chunks[p].kind) && q in s.chunks && q != p
    ensures q + Extent(s.chunks[q]) <= p || p + Extent(s.chunks[p]) <= q
    ensures Sized(q, s.chunks[q]) && Sized(p, s.chunks[p])
    ensures InUse(s.chunks[p].kind) && q == p + s.chunks[p].size ==> !Unpinned(s.mem, s.chunks, q) && !s.chunks[q].kind.Mapped?
  {
    hide BinsOk, StateApart, Specials, Covers, Unpinned, AfterFree;
    assert TagAt(s.mem, s.chunks, q) && TagAt(s.mem, s.chunks, p);
    assert q < p ==> Before(q, s.chunks[q], p);
    assert p < q ==> Before(p, s.chunks[p], q);
  }

  lemma OwnWords(gm: int, s: Snap, s': Snap, p: int, q: int)
    requires HeapOk(gm, s) && OwnerWrites(s, s', p) && q in s.chunks && q != p
    ensures Rd(s'.mem, q + HEAD) == Rd(s.mem, q + HEAD)
    ensures Rd(s'.mem, q) == Rd(s.mem, q) || (q == p + s.chunks[p].size && !Unpinned(s.mem, s.chunks, q) && !s.chunks[q].kind.Mapped?)
    ensures forall w :: q + HEAD <= w < q + Extent(s.chunks[q]) ==> Rd(s'.mem, w) == Rd(s.mem, w)
    ensures q + Extent(s.chunks[q]) <= p || p + Extent(s.chunks[p]) <= q
    ensures Sized(q, s.chunks[q]) && Sized(p, s.chunks[p])
  {
    hide HeapOk, Unpinned;
    OwnPlace(gm, s, p, q);
  }

  lemma OwnTag(gm: int, s: Snap, s': Snap, p: int, q: int)
    requires HeapOk(gm, s) && OwnerWrites(s, s', p) && q in s.chunks
    ensures TagAt(s'.mem, s.chunks, q)
  {
    hide BinsOk, StateApart, Specials, Covers;
    assert TagAt(s.mem, s.chunks, q) && TagAt(s.mem, s.chunks, p);
    if q != p { OwnWords(gm, s, s', p, q); }
    var n := q + s.chunks[q].size;
    if n in s.chunks && n != p {
      OwnWords(gm, s, s', p, n);
      assert TagAt(s.mem, s.chunks, n);
    }
  }

  /** Whatever the owner of a live chunk writes to its payload, the heap does not notice. */
  lemma OwnerMayWrite(gm: int, s: Snap, s': Snap, p: int)
    requires HeapOk(gm, s) && OwnerWrites(s, s', p)
    ensures HeapOk(gm, s') && Keeps(s, s', {p}) && LooseSet(s') == LooseSet(s)
  {
    hide Tags, Covers, BinsOk, WritesIn, TagAt, SamePayload;
    TagsOf(gm, s);
    forall q | q in s.chunks ensures TagAt(s'.mem, s.chunks, q) {
      OwnTag(gm, s, s', p, q);
    }
    OwnBins(gm, s, s', p);
    OwnTags(s, s', p);
    forall q | q !in {p} ensures KeepsAt(s, s', q) {
      if q in s.chunks && Live(s.chunks[q].kind) { OwnPayload(gm, s, s', p, q); }
    }
  }

  lemma OwnTags(s: Snap, s': Snap, p: int)
    requires Tags(s.mem, s.chunks) && s'.chunks == s.chunks && forall q :: q in s.chunks ==> TagAt(s'.mem, s.chunks, q)
    ensures Tags(s'.mem, s'.chunks)
  {
    hide TagAt;
  }

  lemma OwnPayload(gm: int, s: Snap, s': Snap, p: int, q: int)
    requires HeapOk(gm, s) && OwnerWrites(s, s', p) && q in s.chunks && Live(s.chunks[q].kind) && q != p
    ensures SamePayload(s.mem, s'.mem, q, s.chunks[q].size)
  {
    hide BinsOk, StateApart, Specials, Covers;
    OwnWords(gm, s, s', p, q);
    assert TagAt(s.mem, s.chunks, q) && TagAt(s.mem, s.chunks, p);
    var n := q + s.chunks[q].size;
    if InUse(s.chunks[q].kind) && n != p {
      OwnWords(gm, s, s', p, n);
    }
  }

  lemma OwnBins(gm: int, s: Snap, s': Snap, p: int)
    requires HeapOk(gm, s) && OwnerWrites(s, s', p)
    ensures BinsOk(gm, s')
  {
    hide TagAt, SB.SmallsOk, TB.TreesOk, Homes, StateApart, Specials, Covers, Tags, WritesIn;
    SmallsOf(gm, s);
    var tiny, big := BinSet(s.chunks, true), BinSet(s.chunks, false);
    forall q | q in tiny ensures Rd(s'.mem, q + FD) == Rd(s.mem, q + FD) && Rd(s'.mem, q + BK) == Rd(s.mem, q + BK) {
      OwnWords(gm, s, s', p, q);
    }
    forall q | q in big ensures SameAt(s.mem, s'.mem, q) {
      OwnWords(gm, s, s', p, q);
    }
    OwnState(gm, s, s', p);
    SmallsFrame(s.mem, s'.mem, gm, s.smallmap, s.small, tiny);
    TreesFrame(s.mem, s'.mem, gm, s.treemap, s.trees, big);
  }

  lemma OwnState(gm: int, s: Snap, s': Snap, p: int)
    requires HeapOk(gm, s) && OwnerWrites(s, s', p)
    ensures forall w :: gm <= w < gm + STATE_SIZE ==> Rd(s'.mem, w) == Rd(s.mem, w)
  {
    hide BinsOk, Specials, Covers;
    assert TagAt(s.mem, s.chunks, p) && Clear(gm, p, s.chunks[p]);
    if InUse(s.chunks[p].kind) {
      var n := p + s.chunks[p].size;
      assert n in s.chunks;
      assert TagAt(s.mem, s.chunks, n) && Clear(gm, n, s.chunks[n]);
    }
  }

  // ---------- a segment goes away ----------

  /** All chunks of segment i are gone, and none of them was live but the record at c. */
  ghost predicate Shrunk(s: Snap, s': Snap, i: nat, c: int) {
    && i < |s.segs| && var b, e := s.segs[i].base, End(s.segs[i]);
    && s' == s.(chunks := s'.chunks, segs := s.segs[..i] + s.segs[i + 1..], dv := s'.dv, dvsize := s'.dvsize)
    && (forall x :: x in s'.chunks <==> x in s.chunks && (x < b || x >= e))
    && (forall x :: x in s'.chunks ==> s'.chunks[x] == s.chunks[x])
    && (forall x :: x in s.chunks && b <= x < e ==>
          s.chunks[x].kind != Binned && s.chunks[x].kind != Top && (LiveAt(s, x) ==> x == c || x == c + RECORD_SIZE))
    && (if s.dvsize != 0 && b <= s.dv < e then s'.dv == 0 && s'.dvsize == 0 else s'.dv == s.dv && s'.dvsize == s.dvsize)
  }

  /** A chunk and its neighbours are in one segment. */
  lemma ShrunkTag(gm: int, s: Snap, s': Snap, i: nat, c: int, x: int)
    requires HeapOk(gm, s) && Shrunk(s, s', i, c) && x in s'.chunks
    ensures TagAt(s.mem, s'.chunks, x)
  {
    hide BinsOk, StateApart, Specials;
    assert TagAt(s.mem, s.chunks, x);
    if s.chunks[x].kind.Mapped? {
    } else {
      assert Housed(s.segs, x, s.chunks[x]);
      var j :| 0 <= j < |s.segs| && InSeg(s.segs[j], x, s.chunks[x]);
      assert j != i;
      ShrunkPrev(gm, s, s', i, c, x, j);
      ShrunkNext(gm, s, s', i, c, x, j);
    }
  }

  lemma ShrunkNext(gm: int, s: Snap, s': Snap, i: nat, c: int, x: int, j: nat)
    requires HeapOk(gm, s) && Shrunk(s, s', i, c) && x in s'.chunks && j < |s.segs| && j != i && InSeg(s.segs[j], x, s.chunks[x])
    requires !s.chunks[x].kind.Mapped?
    ensures var n := x + s.chunks[x].size;
      InUse(s.chunks[x].kind) || Free(s.chunks[x].kind) ==> n in s.chunks && n in s'.chunks && s'.chunks[n] == s.chunks[n]
  {
    hide BinsOk, StateApart, Specials;
    assert TagAt(s.mem, s.chunks, x);
  }

  lemma ShrunkPrev(gm: int, s: Snap, s': Snap, i: nat, c: int, x: int, j: nat)
    requires HeapOk(gm, s) && Shrunk(s, s', i, c) && x in s'.chunks && j < |s.segs| && j != i && InSeg(s.segs[j], x, s.chunks[x])
    requires !s.chunks[x].kind.Mapped?
    ensures Unpinned(s.mem, s.chunks, x) ==> AfterFree(s.mem, s'.chunks, x)
  {
    hide BinsOk, StateApart, Specials;
    assert TagAt(s.mem, s.chunks, x);
    if Unpinned(s.mem, s.chunks, x) {
      var q := x - Rd(s.mem, x);
      assert AfterFree(s.mem, s.chunks, x);
      assert Housed(s.segs, q, s.chunks[q]);
      var k :| 0 <= k < |s.segs| && InSeg(s.segs[k], q, s.chunks[q]);
      assert TagAt(s.mem, s.chunks, q);
    }
  }

  lemma ShrunkHoused(gm: int, s: Snap, s': Snap, i: nat, c: int, x: int)
    requires HeapOk(gm, s) && Shrunk(s, s', i, c) && x in s'.chunks
    ensures Housed(s'.segs, x, s'.chunks[x])
  {
    hide BinsOk, StateApart, Specials;
    assert TagAt(s.mem, s.chunks, x) && Housed(s.segs, x, s.chunks[x]);
    if !s.chunks[x].kind.Mapped? {
      var j :| 0 <= j < |s.segs| && InSeg(s.segs[j], x, s.chunks[x]);
      assert j != i;
      assert s'.segs[if j < i then j else j - 1] == s.segs[j];
    }
  }

  lemma ShrunkCovers(gm: int, s: Snap, s': Snap, i: nat, c: int)
    requires HeapOk(gm, s) && Shrunk(s, s', i, c)
    ensures Covers(s'.chunks, s'.segs)
  {
    hide BinsOk, StateApart, Specials, Tags, Housed;
    forall x | x in s'.chunks ensures Housed(s'.segs, x, s'.chunks[x]) {
      ShrunkHoused(gm, s, s', i, c, x);
    }
    forall j | 0 <= j < |s'.segs| ensures Started(s'.chunks, s'.segs[j]) {
      ShrunkStarted(gm, s, s', i, c, j);
    }
    SegsApartWithout(s.segs, i);
  }

  lemma ShrunkStarted(gm: int, s: Snap, s': Snap, i: nat, c: int, j: nat)
    requires HeapOk(gm, s) && Shrunk(s, s', i, c) && j < |s'.segs|
    ensures Started(s'.chunks, s'.segs[j])
  {
    hide BinsOk, StateApart, Specials, Tags, Housed;
    var k := if j < i then j else j + 1;
    assert s'.segs[j] == s.segs[k] && Started(s.chunks, s.segs[k]) && Started(s.chunks, s.segs[i]);
  }

  lemma SegsApartWithout(segs: seq<Segment>, i: nat)
    requires SegsApart(segs) && i < |segs|
    ensures SegsApart(segs[..i] + segs[i + 1..])
  {
    var rest := segs[..i] + segs[i + 1..];
    forall j, k | 0 <= j < |rest| && 0 <= k < |rest| && j != k
      ensures End(rest[j]) <= rest[k].base || End(rest[k]) <= rest[j].base
    {
      assert rest[j] == segs[if j < i then j else j + 1] && rest[k] == segs[if k < i then k else k + 1];
    }
  }

  lemma ShrunkSets(s: Snap, s': Snap, i: nat, c: int)
    requires Shrunk(s, s', i, c)
    ensures BinSet(s'.chunks, true) == BinSet(s.chunks, true) && BinSet(s'.chunks, false) == BinSet(s.chunks, false)
    ensures LooseSet(s') <= LooseSet(s)
    ensures forall x :: x in LooseSet(s) && (x < s.segs[i].base || x >= End(s.segs[i])) ==> x in LooseSet(s')
  {
    forall x ensures x in BinSet(s'.chunks, true) <==> x in BinSet(s.chunks, true) {
    }
    forall x ensures x in BinSet(s'.chunks, false) <==> x in BinSet(s.chunks, false) {
    }
    forall x ensures x in LooseSet(s') ==> x in LooseSet(s) {
    }
  }

  lemma ShrunkBins(gm: int, s: Snap, s': Snap, i: nat, c: int)
    requires HeapOk(gm, s) && Shrunk(s, s', i, c)
    ensures BinsOk(gm, s')
  {
    hide TagAt, SB.SmallsOk, TB.TreesOk, StateApart, Specials, Covers, Tags, TreeIndex, Holds, BinSet;
    ShrunkSets(s, s', i, c);
    SmallsOf(gm, s);
    var cs, cs', small, trees := s.chunks, s'.chunks, s.small, s.trees;
    forall j | 0 <= j < NBINS ensures SmallEntry(cs', small[j], j) {
      assert SmallEntry(cs, small[j], j);
    }
    forall j | 0 <= j < NBINS ensures TreeEntry(cs', trees[j], j) {
      assert TreeEntry(cs, trees[j], j);
    }
    forall p | p in cs' && cs'[p].kind == Binned ensures InHome(small, trees, p, cs'[p].size) {
      assert InHome(small, trees, p, cs[p].size);
    }
  }

  lemma ShrunkTags(gm: int, s: Snap, s': Snap, i: nat, c: int)
    requires HeapOk(gm, s) && Shrunk(s, s', i, c)
    ensures Tags(s'.mem, s'.chunks) && StateApart(gm, s'.chunks)
  {
    hide BinsOk, Specials, Covers, TagAt;
    forall x | x in s'.chunks ensures TagAt(s'.mem, s'.chunks, x) {
      ShrunkTag(gm, s, s', i, c, x);
    }
    forall x, y | x in s'.chunks && y in s'.chunks && x < y ensures Before(x, s'.chunks[x], y) {
      assert Before(x, s.chunks[x], y);
    }
    forall x | x in s'.chunks ensures Clear(gm, x, s'.chunks[x]) {
      assert Clear(gm, x, s.chunks[x]);
    }
  }

  lemma ShrinkHeap(gm: int, s: Snap, s': Snap, i: nat, c: int)
    requires HeapOk(gm, s) && Shrunk(s, s', i, c)
    ensures HeapOk(gm, s') && Keeps(s, s', {c, c + RECORD_SIZE}) && LooseSet(s') <= LooseSet(s)
    ensures forall x :: x in LooseSet(s) && (x < s.segs[i].base || x >= End(s.segs[i])) ==> x in LooseSet(s')
  {
    hide BinsOk, Covers, Tags, StateApart, SamePayload, LooseSet;
    ShrunkSets(s, s', i, c);
    ShrunkTags(gm, s, s', i, c);
    ShrunkBins(gm, s, s', i, c);
    ShrunkCovers(gm, s, s', i, c);
    forall q | q !in {c, c + RECORD_SIZE} ensures KeepsAt(s, s', q) {
      SamePayloadRefl(s, q);
    }
  }

  lemma SamePayloadRefl(s: Snap, q: int)
    ensures q in s.chunks ==> SamePayload(s.mem, s.mem, q, s.chunks[q].size)
  {
  }
}
