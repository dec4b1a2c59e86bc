/**
 * One step of an operation as a change of the whole heap: which live chunks it keeps, word for
 * word, and the steps that take, split, merge and give back chunks.
 */
module Steps {
  import opened Words
  import opened BinIndex
  import opened TreeMemory
  import opened Chunks
  import opened HeapState
  import opened SmallBins
  import opened TreeBins
  import opened Heap

  /** A chunk that is live, or stands for fenceposts. */
  ghost predicate LiveAt(s: Snap, q: int) {
    q in s.chunks && (Live(s.chunks[q].kind) || s.chunks[q].kind == Fence)
  }

  /** Chunk q is there in both states, with the same extent and contents, or in none. */
  ghost predicate KeepsAt(s: Snap, s': Snap, q: int) {
    && (LiveAt(s, q) <==> LiveAt(s', q))
    && (LiveAt(s, q) ==>
          s'.chunks[q] == s.chunks[q]
          && (Live(s.chunks[q].kind) ==> SamePayload(s.mem, s'.mem, q, s.chunks[q].size)))
  }

  /** Every live chunk stays as it is, but for those of a given set. */
  ghost predicate Keeps(s: Snap, s': Snap, but: set<int>) {
    forall q {:trigger KeepsAt(s, s', q)} :: q !in but ==> KeepsAt(s, s', q)
  }

  /** Top, if there is one, ends where it ended before. */
  predicate SameEnd(s: Snap, s': Snap) {
    (s.topsize != 0 <==> s'.topsize != 0) && s'.top + s'.topsize == s.top + s.topsize
  }

  lemma KeepsSameBut(s: Snap, but: set<int>)
    ensures Keeps(s, s, but)
  {
  }

  lemma KeepsTrans(s: Snap, s1: Snap, s2: Snap, b1: set<int>, b2: set<int>, b: set<int>)
    requires Keeps(s, s1, b1) && Keeps(s1, s2, b2) && b1 <= b && b2 <= b
    ensures Keeps(s, s2, b)
  {
    forall q | q !in b ensures KeepsAt(s, s2, q) {
      assert KeepsAt(s, s1, q) && KeepsAt(s1, s2, q);
    }
  }

  /** A chunk that is live neither before nor after needs no exception. */
  lemma KeepsDead(s: Snap, s': Snap, b: set<int>, r: int)
    requires Keeps(s, s', b) && !LiveAt(s, r) && !LiveAt(s', r)
    ensures Keeps(s, s', b - {r})
  {
    forall q | q !in b - {r} ensures KeepsAt(s, s', q) {
      if q != r { assert KeepsAt(s, s', q); }
    }
  }

  lemma KeepsRekind(gm: int, s: Snap, s': Snap, p: int, k: Kind)
    requires HeapOk(gm, s) && p in s.chunks && Free(s.chunks[p].kind) && Free(k)
    requires FreeOnly(s.mem, s'.mem, gm, s.chunks) && s'.chunks == s.chunks[p := Chunk(s.chunks[p].size, k)]
    ensures Keeps(s, s', {})
  {
    forall q | q !in {} ensures KeepsAt(s, s', q) {
      if LiveAt(s, q) {
        FreeOnlyTags(s.mem, s'.mem, gm, s.chunks, q);
      }
    }
    hide HeapOk, FreeOnly;
  }

  // ---------- regions ----------

  /** [a, e) is part of one segment, and starts holds all chunks that start in it. */
  ghost predicate Region(gm: int, s: Snap, a: int, e: int, starts: set<int>, last: bool) {
    && a < e && RegionClear(gm, a, e) && Inside(s.segs, a, e, last)
    && (forall x :: x in s.chunks && a <= x < e ==> x in starts)
  }

  lemma RegionOne(gm: int, s: Snap, p: int)
    requires HeapOk(gm, s) && p in s.chunks && !s.chunks[p].kind.Mapped?
    ensures Region(gm, s, p, p + Extent(s.chunks[p]), {p}, Ends(s.chunks[p].kind))
  {
    hide BinsOk, Specials;
    var c := s.chunks[p];
    assert TagAt(s.mem, s.chunks, p) && Clear(gm, p, c) && Housed(s.segs, p, c);
    forall x | x in s.chunks && p <= x < p + Extent(c) ensures x == p {
      assert p < x ==> Before(p, c, x);
    }
  }

  lemma RegionJoin(gm: int, s: Snap, a: int, b: int, e: int, left: set<int>, right: set<int>, last: bool)
    requires HeapOk(gm, s) && Region(gm, s, a, b, left, false) && Region(gm, s, b, e, right, last)
    ensures Region(gm, s, a, e, left + right, last)
  {
    assert SegsApart(s.segs);
    hide HeapOk, Covers;
  }

  ghost predicate SameBins(s: Snap, s': Snap) {
    s'.small == s.small && s'.trees == s.trees && s'.smallmap == s.smallmap && s'.treemap == s.treemap
    && s'.segs == s.segs
  }

  /** A step that only retiles a region without binned chunks. */
  lemma RetileStep(gm: int, s: Snap, s': Snap, a: int, e: int, starts: set<int>, last: bool)
    requires HeapOk(gm, s) && Region(gm, s, a, e, starts, last) && SameBins(s, s') && Specials(s')
    requires Retiling(s.mem, s.chunks, s'.mem, s'.chunks, a, e) && Closed(s'.chunks, a, e, last)
    requires NoBinned(s.chunks, a, e) && NoBinned(s'.chunks, a, e)
    requires e in s.chunks || (Rd(s'.mem, e) == Rd(s.mem, e) && Rd(s'.mem, e + HEAD) == Rd(s.mem, e + HEAD))
    requires forall x :: a <= x < e && LiveAt(s', x) ==> x in starts
    ensures HeapOk(gm, s') && Keeps(s, s', starts)
  {
    RetileHeap(gm, s, s', a, e, last);
    forall q | q !in starts ensures KeepsAt(s, s', q) {
      RetileKeepsAt(gm, s, s', a, e, starts, q);
    }
    hide *;
  }

  lemma RetileKeepsAt(gm: int, s: Snap, s': Snap, a: int, e: int, starts: set<int>, q: int)
    requires HeapOk(gm, s) && Retiling(s.mem, s.chunks, s'.mem, s'.chunks, a, e) && q !in starts
    requires forall x :: x in s.chunks && a <= x < e ==> x in starts
    requires forall x :: a <= x < e && LiveAt(s', x) ==> x in starts
    ensures KeepsAt(s, s', q)
  {
    assert SameOutside(s.chunks, s'.chunks, a, e);
    if q in s.chunks && Live(s.chunks[q].kind) {
      RetilePayload(s.mem, s.chunks, s'.mem, s'.chunks, a, e, q);
    }
    hide HeapOk, Retiling, SamePayload;
  }

  /** A free chunk: where it ends, and what comes behind it. */
  lemma FreeFacts(gm: int, s: Snap, p: int)
    requires HeapOk(gm, s) && p in s.chunks && Free(s.chunks[p].kind)
    ensures var z := s.chunks[p].size;
      && Sized(p, s.chunks[p]) && Rd(s.mem, p + HEAD) == z + 1 && Rd(s.mem, p + z) == z
      && p + z in s.chunks && InUse(s.chunks[p + z].kind) && Rd(s.mem, p + z + HEAD) == s.chunks[p + z].size + 2
      && s.chunks[p + z].size >= MIN_CHUNK_SIZE && s.chunks[p + z].size % 16 == 0
      && !Unpinned(s.mem, s.chunks, p)
      && Region(gm, s, p, p + z, {p}, false)
  {
    assert TagAt(s.mem, s.chunks, p);
    var n := p + s.chunks[p].size;
    assert TagAt(s.mem, s.chunks, n);
    RegionOne(gm, s, p);
    hide HeapOk, Region;
  }

  // ---------- the six ways a region is retiled ----------

  /** A region that is about to be retiled, and everything beside the tags already as it will be. */
  ghost predicate Primed(gm: int, s: Snap, s': Snap, a: int, e: int, starts: set<int>, last: bool) {
    HeapOk(gm, s) && Region(gm, s, a, e, starts, last) && SameBins(s, s') && NoBinned(s.chunks, a, e) && Specials(s')
  }

  /** A region with two chunks in it. */
  lemma TwoPieces(cs: ChunkMap, a: int, r: int, e: int, last: bool)
    requires a < r < e && a in cs && r in cs && (forall x :: x in cs && a <= x < e ==> x == a || x == r)
    requires cs[a].kind == Used && a + cs[a].size == r && r + Extent(cs[r]) == e
    requires cs[r].kind != Binned && !cs[r].kind.Mapped? && (Ends(cs[r].kind) <==> last)
    ensures Closed(cs, a, e, last) && NoBinned(cs, a, e)
  {
  }

  lemma MergedFree(gm: int, s: Snap, s': Snap, a: int, e: int, starts: set<int>, k: Kind)
    requires Primed(gm, s, s', a, e, starts, false) && a in s.chunks && e in s.chunks && InUse(s.chunks[e].kind)
    requires !Unpinned(s.mem, s.chunks, a) && (k == Loose || k == Victim) && MIN_CHUNK_SIZE <= e - a
    requires Rd(s'.mem, a + HEAD) == e - a + 1 && Rd(s'.mem, e) == e - a
    requires Rd(s'.mem, e + HEAD) == s.chunks[e].size + 2 && Writes(s.mem, s'.mem, {a + HEAD, e, e + HEAD})
    requires s'.chunks == Merged(s.chunks, a, e, Chunk(e - a, k))
    ensures HeapOk(gm, s') && Keeps(s, s', starts)
  {
    MergeFree(s.mem, s.chunks, s'.mem, a, e, k);
    MergedOutside(s.chunks, a, e, Chunk(e - a, k));
    hide HeapOk, Retiling, Specials, Unpinned, SameOutside, Merged, Inside, SameBins, Writes;
    RetileStep(gm, s, s', a, e, starts, false);
  }

  lemma MergedUsed(gm: int, s: Snap, s': Snap, a: int, e: int, starts: set<int>)
    requires Primed(gm, s, s', a, e, starts, false) && a in s.chunks && e in s.chunks && Follows(Used, s.chunks[e].kind)
    requires (InUse(s.chunks[a].kind) || Free(s.chunks[a].kind)) && MIN_CHUNK_SIZE <= e - a
    requires Rd(s'.mem, a + HEAD) == e - a + (if Unpinned(s.mem, s.chunks, a) then 2 else 3)
    requires Rd(s'.mem, e + HEAD) == SetPinuseBit(Rd(s.mem, e + HEAD)) && Writes(s.mem, s'.mem, {a + HEAD, e + HEAD})
    requires s'.chunks == Merged(s.chunks, a, e, Chunk(e - a, Used))
    ensures HeapOk(gm, s') && Keeps(s, s', starts)
  {
    MergeUsed(s.mem, s.chunks, s'.mem, a, e);
    MergedOutside(s.chunks, a, e, Chunk(e - a, Used));
    hide HeapOk, Retiling, Specials, Unpinned, SameOutside, Merged, Inside, SameBins, Writes, SetPinuseBit;
    RetileStep(gm, s, s', a, e, starts, false);
  }

  lemma MergedTop(gm: int, s: Snap, s': Snap, a: int, t: int, e: int, starts: set<int>)
    requires Primed(gm, s, s', a, e, starts, true) && a in s.chunks && !Unpinned(s.mem, s.chunks, a)
    requires t in s.chunks && s.chunks[t].kind == Top && a <= t && e == t + s.chunks[t].size + TOP_FOOT_SIZE
    requires Rd(s'.mem, a + HEAD) == t + s.chunks[t].size - a + 1 && Writes(s.mem, s'.mem, {a + HEAD})
    requires s'.chunks == Merged(s.chunks, a, e, Chunk(t + s.chunks[t].size - a, Top))
    ensures HeapOk(gm, s') && Keeps(s, s', starts)
  {
    TopFacts(s.mem, s.chunks, t);
    MergeTop(s.mem, s.chunks, s'.mem, a, t, e);
    MergedOutside(s.chunks, a, e, Chunk(t + s.chunks[t].size - a, Top));
    hide HeapOk, Retiling, Specials, Unpinned, SameOutside, Merged, Inside, SameBins;
    RetileStep(gm, s, s', a, e, starts, true);
  }

  lemma SplitToFree(gm: int, s: Snap, s': Snap, a: int, r: int, e: int, starts: set<int>, k: Kind)
    requires Primed(gm, s, s', a, e, starts, false) && a in s.chunks && e in s.chunks && InUse(s.chunks[e].kind)
    requires (InUse(s.chunks[a].kind) || Free(s.chunks[a].kind)) && (k == Loose || k == Victim)
    requires a + MIN_CHUNK_SIZE <= r <= e - MIN_CHUNK_SIZE && r % 16 == 0
    requires Rd(s'.mem, a + HEAD) == r - a + (if Unpinned(s.mem, s.chunks, a) then 2 else 3)
    requires Rd(s'.mem, r + HEAD) == e - r + 1 && Rd(s'.mem, e) == e - r && Rd(s'.mem, e + HEAD) == s.chunks[e].size + 2
    requires Writes(s.mem, s'.mem, {a + HEAD, r + HEAD, e, e + HEAD})
    requires s'.chunks == Split(s.chunks, a, r, e, Chunk(r - a, Used), Chunk(e - r, k))
    requires a in starts
    ensures HeapOk(gm, s') && Keeps(s, s', starts)
  {
    SplitFree(s.mem, s.chunks, s'.mem, a, r, e, k);
    SplitOutside(s.chunks, a, r, e, Chunk(r - a, Used), Chunk(e - r, k));
    hide HeapOk, Retiling, Specials, Unpinned, SameOutside, Split, Inside, SameBins, Writes, Region, Closed, NoBinned;
    TwoPieces(s'.chunks, a, r, e, false);
    RetileStep(gm, s, s', a, e, starts, false);
  }

  lemma SplitToUsed(gm: int, s: Snap, s': Snap, a: int, r: int, e: int, starts: set<int>)
    requires Primed(gm, s, s', a, e, starts, false) && a in s.chunks && e in s.chunks && InUse(s.chunks[a].kind)
    requires a + MIN_CHUNK_SIZE <= r <= e - MIN_CHUNK_SIZE && r % 16 == 0 && Follows(Used, s.chunks[e].kind)
    requires Rd(s'.mem, a + HEAD) == r - a + (if Unpinned(s.mem, s.chunks, a) then 2 else 3)
    requires Rd(s'.mem, r + HEAD) == e - r + 3 && Rd(s'.mem, e + HEAD) == SetPinuseBit(Rd(s.mem, e + HEAD))
    requires Writes(s.mem, s'.mem, {a + HEAD, r + HEAD, e + HEAD})
    requires s'.chunks == Split(s.chunks, a, r, e, Chunk(r - a, Used), Chunk(e - r, Used))
    requires a in starts
    ensures HeapOk(gm, s') && Keeps(s, s', starts + {r})
  {
    SplitUsed(s.mem, s.chunks, s'.mem, a, r, e);
    SplitOutside(s.chunks, a, r, e, Chunk(r - a, Used), Chunk(e - r, Used));
    hide HeapOk, Retiling, Specials, Unpinned, SameOutside, Split, SameBins, Writes, SetPinuseBit, Closed, NoBinned, Inside;
    TwoPieces(s'.chunks, a, r, e, false);
    RetileStep(gm, s, s', a, e, starts + {r}, false);
  }

  lemma SplitToTop(gm: int, s: Snap, s': Snap, a: int, r: int, t: int, e: int, starts: set<int>)
    requires Primed(gm, s, s', a, e, starts, true) && a in s.chunks && (a < t ==> InUse(s.chunks[a].kind))
    requires t in s.chunks && s.chunks[t].kind == Top && a <= t && e == t + s.chunks[t].size + TOP_FOOT_SIZE
    requires a + MIN_CHUNK_SIZE <= r < t + s.chunks[t].size && r % 16 == 0
    requires Rd(s'.mem, a + HEAD) == r - a + (if Unpinned(s.mem, s.chunks, a) then 2 else 3)
    requires Rd(s'.mem, r + HEAD) == t + s.chunks[t].size - r + 1 && Writes(s.mem, s'.mem, {a + HEAD, r + HEAD})
    requires s'.chunks == Split(s.chunks, a, r, e, Chunk(r - a, Used), Chunk(t + s.chunks[t].size - r, Top))
    requires a in starts
    ensures HeapOk(gm, s') && Keeps(s, s', starts)
  {
    TopFacts(s.mem, s.chunks, t);
    SplitTop(s.mem, s.chunks, s'.mem, a, r, t, e);
    SplitOutside(s.chunks, a, r, e, Chunk(r - a, Used), Chunk(t + s.chunks[t].size - r, Top));
    hide HeapOk, Retiling, Specials, Unpinned, SameOutside, Split, Inside, SameBins, Writes, Region, Closed, NoBinned, Sized;
    TwoPieces(s'.chunks, a, r, e, true);
    RetileStep(gm, s, s', a, e, starts, true);
  }

  // ---------- taking chunks that are in no bin ----------

  ghost predicate DvIs(s: Snap, s': Snap, dv: int, dvsize: int) {
    s'.dv == dv && s'.dvsize == dvsize && s'.top == s.top && s'.topsize == s.topsize
  }

  lemma SpecialsTaken(s: Snap, s': Snap, p: int, e: int)
    requires Specials(s) && p in s.chunks && p < e && SameOutside(s.chunks, s'.chunks, p, e)
    requires forall x :: x in s.chunks && p <= x < e ==> x == p
    requires forall x :: x in s'.chunks && p <= x < e ==> s'.chunks[x].kind != Victim && s'.chunks[x].kind != Top
    requires s.chunks[p].kind == Loose || s.chunks[p].kind == Victim
    requires if s.chunks[p].kind == Victim then DvIs(s, s', 0, 0) else DvIs(s, s', s.dv, s.dvsize)
    ensures Specials(s')
  {
  }

  lemma InuseWrites(m: Mem, p: int, z: int)
    requires z > 0
    ensures var m' := SetInuseAndPinuse(m, p, z);
      && Rd(m', p + HEAD) == z + 3 && Rd(m', p + z + HEAD) == SetPinuseBit(Rd(m, p + z + HEAD))
      && Writes(m, m', {p + HEAD, p + z + HEAD})
  {
    hide SetPinuseBit;
  }

  /** s' is s with the whole of chunk p, which is in no bin, marked as in use. */
  ghost predicate Taken(s: Snap, s': Snap, p: int) {
    && p in s.chunks && (s.chunks[p].kind == Loose || s.chunks[p].kind == Victim)
    && SameBins(s, s') && s'.mem == SetInuseAndPinuse(s.mem, p, s.chunks[p].size)
    && s'.chunks == Merged(s.chunks, p, p + s.chunks[p].size, Chunk(s.chunks[p].size, Used))
    && (if s.chunks[p].kind == Victim then DvIs(s, s', 0, 0) else DvIs(s, s', s.dv, s.dvsize))
  }

  lemma TakeReady(gm: int, s: Snap, s': Snap, p: int)
    requires HeapOk(gm, s) && Taken(s, s', p)
    ensures Primed(gm, s, s', p, p + s.chunks[p].size, {p}, false)
  {
    hide HeapOk, SameOutside, Merged, SetInuseAndPinuse, Inside, Unpinned;
    var z := s.chunks[p].size;
    FreeFacts(gm, s, p);
    MergedOutside(s.chunks, p, p + z, Chunk(z, Used));
    assert HeapOk(gm, s) ==> Specials(s) by { SpecialsOf(gm, s); }
    SpecialsTaken(s, s', p, p + z);
  }

  lemma SpecialsOf(gm: int, s: Snap)
    requires HeapOk(gm, s)
    ensures Specials(s)
  {
  }

  /** set_inuse_and_pinuse on a whole chunk that is no longer in a bin. */
  lemma TakeAll(gm: int, s: Snap, s': Snap, p: int)
    requires HeapOk(gm, s) && Taken(s, s', p)
    ensures HeapOk(gm, s') && Keeps(s, s', {p})
  {
    hide HeapOk, Primed, Region, SetInuseAndPinuse, Merged, SetPinuseBit, Writes, SameBins, Unpinned, DvIs;
    var z := s.chunks[p].size;
    FreeFacts(gm, s, p);
    TakeReady(gm, s, s', p);
    InuseWrites(s.mem, p, z);
    MergedUsed(gm, s, s', p, p + z, {p});
  }

  /** s' is s with chunk p, which is in no bin, split: nb bytes in use, and a free rest of its kind. */
  ghost predicate Parted(s: Snap, s': Snap, p: int, nb: int) {
    && p in s.chunks && (s.chunks[p].kind == Loose || s.chunks[p].kind == Victim)
    && var z, k := s.chunks[p].size, s.chunks[p].kind;
    && MIN_CHUNK_SIZE <= nb <= z - MIN_CHUNK_SIZE && nb % 16 == 0
    && SameBins(s, s') && Rd(s'.mem, p + HEAD) == nb + 3
    && Rd(s'.mem, p + nb + HEAD) == z - nb + 1 && Rd(s'.mem, p + z) == z - nb
    && Writes(s.mem, s'.mem, {p + HEAD, p + nb + HEAD, p + z})
    && s'.chunks == Split(s.chunks, p, p + nb, p + z, Chunk(nb, Used), Chunk(z - nb, k))
    && (if k == Victim then DvIs(s, s', p + nb, z - nb) else DvIs(s, s', s.dv, s.dvsize))
  }

  lemma SpecialsParted(s: Snap, s': Snap, p: int, r: int, e: int, k: Kind)
    requires Specials(s) && p in s.chunks && p < r < e && SameOutside(s.chunks, s'.chunks, p, e)
    requires forall x :: x in s.chunks && p <= x < e ==> x == p
    requires forall x :: x in s'.chunks && p <= x < e ==> x == p || x == r
    requires p in s'.chunks && s'.chunks[p].kind == Used && r in s'.chunks && s'.chunks[r] == Chunk(e - r, k)
    requires s.chunks[p].kind == k && (k == Loose || k == Victim)
    requires if k == Victim then DvIs(s, s', r, e - r) else DvIs(s, s', s.dv, s.dvsize)
    ensures Specials(s')
  {
  }

  lemma PartReady(gm: int, s: Snap, s': Snap, p: int, nb: int)
    requires HeapOk(gm, s) && Parted(s, s', p, nb)
    ensures Primed(gm, s, s', p, p + s.chunks[p].size, {p}, false)
  {
    hide HeapOk, SameOutside, Split, Inside, Unpinned, Writes;
    var z, k := s.chunks[p].size, s.chunks[p].kind;
    FreeFacts(gm, s, p);
    SplitOutside(s.chunks, p, p + nb, p + z, Chunk(nb, Used), Chunk(z - nb, k));
    SpecialsOf(gm, s);
    SpecialsParted(s, s', p, p + nb, p + z, k);
  }

  /** Split a chunk that is in no bin. */
  lemma TakePart(gm: int, s: Snap, s': Snap, p: int, nb: int)
    requires HeapOk(gm, s) && Parted(s, s', p, nb)
    ensures HeapOk(gm, s') && Keeps(s, s', {p})
  {
    var z, k := s.chunks[p].size, s.chunks[p].kind;
    FreeFacts(gm, s, p);
    PartReady(gm, s, s', p, nb);
    assert Rd(s'.mem, p + z + HEAD) == Rd(s.mem, p + z + HEAD);
    assert Writes(s.mem, s'.mem, {p + HEAD, p + nb + HEAD, p + z, p + z + HEAD});
    hide HeapOk, Primed, Region, Split, SameBins, Unpinned, DvIs, Writes;
    SplitToFree(gm, s, s', p, p + nb, p + z, {p}, k);
  }

  /** s' is s with nb bytes cut from the front of top. */
  ghost predicate TopCut(s: Snap, s': Snap, nb: int) {
    && MIN_CHUNK_SIZE <= nb < s.topsize && nb % 16 == 0
    && SameBins(s, s') && Rd(s'.mem, s.top + HEAD) == nb + 3 && Rd(s'.mem, s.top + nb + HEAD) == s.topsize - nb + 1
    && Writes(s.mem, s'.mem, {s.top + HEAD, s.top + nb + HEAD})
    && s'.chunks == Split(s.chunks, s.top, s.top + nb, s.top + s.topsize + TOP_FOOT_SIZE,
                          Chunk(nb, Used), Chunk(s.topsize - nb, Top))
    && s'.dv == s.dv && s'.dvsize == s.dvsize && s'.top == s.top + nb && s'.topsize == s.topsize - nb
  }

  lemma TopRegion(gm: int, s: Snap)
    requires HeapOk(gm, s) && s.topsize != 0
    ensures s.top in s.chunks && s.chunks[s.top] == Chunk(s.topsize, Top) && !Unpinned(s.mem, s.chunks, s.top)
    ensures Sized(s.top, s.chunks[s.top]) && Rd(s.mem, s.top + HEAD) == s.topsize + 1
    ensures Region(gm, s, s.top, s.top + s.topsize + TOP_FOOT_SIZE, {s.top}, true)
  {
    hide Tags, BinsOk, Region, StateApart, Covers;
    RegionOne(gm, s, s.top);
    TopFacts(s.mem, s.chunks, s.top);
  }

  lemma SpecialsCut(s: Snap, s': Snap, a: int, r: int, e: int)
    requires Specials(s) && s.topsize != 0 && a <= s.top < r < e && SameOutside(s.chunks, s'.chunks, a, e)
    requires forall x :: x in s.chunks && a <= x < e ==> x == s.top || (x == a && s.chunks[x].kind != Victim)
    requires forall x :: x in s'.chunks && a <= x < e ==> x == a || x == r
    requires a in s'.chunks && s'.chunks[a].kind == Used && r in s'.chunks && s'.chunks[r] == Chunk(s'.topsize, Top)
    requires s'.dv == s.dv && s'.dvsize == s.dvsize && s'.top == r && s'.topsize != 0
    ensures Specials(s')
  {
  }

  lemma CutReady(gm: int, s: Snap, s': Snap, nb: int)
    requires HeapOk(gm, s) && TopCut(s, s', nb)
    ensures Primed(gm, s, s', s.top, s.top + s.topsize + TOP_FOOT_SIZE, {s.top}, true)
  {
    hide HeapOk, SameOutside, Split, Inside, Unpinned, Writes;
    var e := s.top + s.topsize + TOP_FOOT_SIZE;
    TopRegion(gm, s);
    SplitOutside(s.chunks, s.top, s.top + nb, e, Chunk(nb, Used), Chunk(s.topsize - nb, Top));
    SpecialsOf(gm, s);
    SpecialsCut(s, s', s.top, s.top + nb, e);
  }

  /** Allocate from the front of top. */
  lemma TakeTop(gm: int, s: Snap, s': Snap, nb: int)
    requires HeapOk(gm, s) && TopCut(s, s', nb)
    ensures HeapOk(gm, s') && Keeps(s, s', {s.top})
  {
    hide HeapOk, Primed, Region, Split, SameBins, Unpinned, Writes;
    var e := s.top + s.topsize + TOP_FOOT_SIZE;
    TopRegion(gm, s);
    CutReady(gm, s, s', nb);
    SplitToTop(gm, s, s', s.top, s.top + nb, s.top, e, {s.top});
  }

  // ---------- giving a chunk the role of dv ----------

  /** replace_dv, seen from the tiling: the loose chunk r becomes dv when there is none. */
  lemma Crown(gm: int, s: Snap, s': Snap, r: int)
    requires HeapOk(gm, s) && s.dvsize == 0 && r in s.chunks && s.chunks[r].kind == Loose
    requires s' == s.(dv := r, dvsize := s.chunks[r].size, chunks := s.chunks[r := Chunk(s.chunks[r].size, Victim)])
    ensures HeapOk(gm, s') && Keeps(s, s', {})
  {
    RekindHeap(gm, s, s', r, Victim);
  }

  /** The old dv on its way to a bin. */
  lemma Uncrown(gm: int, s: Snap, s': Snap)
    requires HeapOk(gm, s) && s.dvsize != 0
    requires s' == s.(dv := 0, dvsize := 0, chunks := s.chunks[s.dv := Chunk(s.dvsize, Loose)])
    ensures HeapOk(gm, s') && Keeps(s, s', {})
  {
    assert s.chunks[s.dv] == Chunk(s.dvsize, Victim);
    RekindHeap(gm, s, s', s.dv, Loose);
  }

  lemma RekindHeap(gm: int, s: Snap, s': Snap, p: int, k: Kind)
    requires HeapOk(gm, s) && p in s.chunks && Free(s.chunks[p].kind) && s.chunks[p].kind != Binned
    requires k == Victim || k == Loose
    requires s' == s.(dv := s'.dv, dvsize := s'.dvsize, chunks := s.chunks[p := Chunk(s.chunks[p].size, k)])
    requires if k == Victim then s.dvsize == 0 && s'.dv == p && s'.dvsize == s.chunks[p].size
             else p == s.dv && s.dvsize != 0 && s'.dv == 0 && s'.dvsize == 0
    ensures HeapOk(gm, s') && Keeps(s, s', {})
  {
    hide Tags, BinsOk, Covers, StateApart, Region, Unpinned, Keeps;
    Rekind(s.mem, s.chunks, p, k);
    RekindCovers(s.chunks, s.segs, p, k);
    StateApartRekind(gm, s.chunks, p, k);
    RekindBins(gm, s, s', p, k);
    KeepsRekind(gm, s, s', p, k);
    FreeFacts(gm, s, p);
  }

  lemma RekindBins(gm: int, s: Snap, s': Snap, p: int, k: Kind)
    requires BinsOk(gm, s) && p in s.chunks && s.chunks[p].kind != Binned && k != Binned
    requires s' == s.(dv := s'.dv, dvsize := s'.dvsize, chunks := s.chunks[p := Chunk(s.chunks[p].size, k)])
    ensures BinsOk(gm, s')
  {
    assert BinSet(s'.chunks, true) == BinSet(s.chunks, true);
    assert BinSet(s'.chunks, false) == BinSet(s.chunks, false);
    LooseNotHome(s.chunks, s.small, s.trees, p);
    forall i | 0 <= i < NBINS ensures SmallEntry(s'.chunks, s.small[i], i) && TreeEntry(s'.chunks, s.trees[i], i) {
      OtherSmall(s.chunks, s.small, s.trees, p, Chunk(s.chunks[p].size, k), i);
      OtherTree(s.chunks, s.small, s.trees, p, Chunk(s.chunks[p].size, k), i);
    }
    forall q | q in s'.chunks && s'.chunks[q].kind == Binned ensures InHome(s.small, s.trees, q, s'.chunks[q].size) {
      assert InHome(s.small, s.trees, q, s.chunks[q].size);
    }
    hide TreeIndex, SmallsOk, TreesOk, BinSet, SmallEntry, TreeEntry;
  }
}
