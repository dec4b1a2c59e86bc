/** dlfree and dispose_chunk: consolidation with the free chunks before and behind. */
module Consolidate {
  import opened Words
  import opened BinIndex
  import opened TreeMemory
  import opened Chunks
  import opened HeapState
  import opened Heap
  import opened Steps
  import opened HeapOps
  import opened Malloc

  /** The end of a chunk, where its neighbour starts. */
  ghost function Next(s: Snap, p: int): int {
    if p in s.chunks then p + s.chunks[p].size else p
  }

  /**
   * [a, e) is an in-use chunk p with the free chunk before it, if a is not p, and the free chunk
   * behind it, if e is not its end; neither of them is in a bin.
   */
  ghost predicate Span(s: Snap, a: int, p: int, e: int) {
    && p in s.chunks && s.chunks[p].kind == Used
    && (if a == p then !Unpinned(s.mem, s.chunks, p)
        else a in s.chunks && (s.chunks[a].kind == Loose || s.chunks[a].kind == Victim) && Next(s, a) == p)
    && var n := Next(s, p);
    && n in s.chunks
    && (if e == n then InUse(s.chunks[n].kind)
        else (s.chunks[n].kind == Loose || s.chunks[n].kind == Victim) && Next(s, n) == e)
  }

  ghost function Starts(a: int, p: int, n: int, e: int): set<int> {
    if e == n then {a, p} else {a, p, n}
  }

  lemma UsedFacts(gm: int, s: Snap, p: int)
    requires HeapOk(gm, s) && p in s.chunks && InUse(s.chunks[p].kind)
    ensures var n := Next(s, p);
      && n in s.chunks && Follows(s.chunks[p].kind, s.chunks[n].kind) && !Unpinned(s.mem, s.chunks, n)
      && Sized(p, s.chunks[p]) && Sized(n, s.chunks[n])
      && (InUse(s.chunks[n].kind) ==> Rd(s.mem, n + HEAD) == s.chunks[n].size + 3)
      && (Free(s.chunks[n].kind) || s.chunks[n].kind == Top ==> Rd(s.mem, n + HEAD) == s.chunks[n].size + 1)
      && Region(gm, s, p, n, {p}, false)
    ensures Rd(s.mem, p + HEAD) == s.chunks[p].size + (if Unpinned(s.mem, s.chunks, p) then 2 else 3)
    ensures Unpinned(s.mem, s.chunks, p) ==> AfterFree(s.mem, s.chunks, p)
  {
    hide BinsOk, Specials, StateApart, Covers, Region;
    assert TagAt(s.mem, s.chunks, p);
    var n := Next(s, p);
    assert TagAt(s.mem, s.chunks, n);
    RegionOne(gm, s, p);
  }

  lemma SpanRegion(gm: int, s: Snap, a: int, p: int, e: int)
    requires HeapOk(gm, s) && Span(s, a, p, e)
    ensures Region(gm, s, a, e, Starts(a, p, Next(s, p), e), false) && NoBinned(s.chunks, a, e)
    ensures a in s.chunks && e in s.chunks && InUse(s.chunks[e].kind) && !Unpinned(s.mem, s.chunks, a)
    ensures a <= p < Next(s, p) <= e && MIN_CHUNK_SIZE <= e - a
    ensures (e != Next(s, p) ==> !LiveAt(s, Next(s, p))) && (a != p ==> !LiveAt(s, a))
  {
    hide HeapOk, Region, NoBinned, Unpinned;
    var n := Next(s, p);
    UsedFacts(gm, s, p);
    if a != p { FreeFacts(gm, s, a); }
    if e != n { FreeFacts(gm, s, n); }
    SpanJoin(gm, s, a, p, n, e);
    StartsNotBinned(gm, s, a, e, Starts(a, p, n, e), false);
  }

  lemma SpanJoin(gm: int, s: Snap, a: int, p: int, n: int, e: int)
    requires HeapOk(gm, s) && Region(gm, s, p, n, {p}, false)
    requires a != p ==> Region(gm, s, a, p, {a}, false)
    requires e != n ==> Region(gm, s, n, e, {n}, false)
    ensures Region(gm, s, a, e, Starts(a, p, n, e), false)
  {
    hide HeapOk, Inside, RegionClear;
    if a != p {
      RegionJoin(gm, s, a, p, n, {a}, {p}, false);
    }
    if e != n {
      RegionJoin(gm, s, a, n, e, {a} + {p}, {n}, false);
    }
  }

  lemma StartsNotBinned(gm: int, s: Snap, a: int, e: int, starts: set<int>, last: bool)
    requires Region(gm, s, a, e, starts, last)
    requires forall x :: x in starts && x in s.chunks && a <= x < e ==> s.chunks[x].kind != Binned
    ensures NoBinned(s.chunks, a, e)
  {
  }

  /** dv after a free chunk of kind k, dv or loose, has taken the place of [a, e). */
  ghost predicate DvMoved(s: Snap, s': Snap, a: int, n: int, e: int, k: Kind) {
    && s'.top == s.top && s'.topsize == s.topsize
    && (k == Victim <==> s.dvsize != 0 && (s.dv == a || (s.dv == n && e != n)))
    && (if k == Victim then s'.dv == a && s'.dvsize == e - a else s'.dv == s.dv && s'.dvsize == s.dvsize)
  }

  /** The region is one free chunk, tagged as set_free_with_pinuse does it. */
  ghost predicate FreedTo(s: Snap, s': Snap, a: int, p: int, e: int, k: Kind) {
    && Span(s, a, p, e) && e in s.chunks && (k == Victim || k == Loose) && SameBins(s, s')
    && s'.chunks == Merged(s.chunks, a, e, Chunk(e - a, k))
    && Rd(s'.mem, a + HEAD) == e - a + 1 && Rd(s'.mem, e) == e - a && Rd(s'.mem, e + HEAD) == s.chunks[e].size + 2
    && Writes(s.mem, s'.mem, {a + HEAD, e, e + HEAD})
    && DvMoved(s, s', a, Next(s, p), e, k)
  }

  lemma SpecialsFreed(s: Snap, s': Snap, a: int, n: int, e: int, k: Kind)
    requires Specials(s) && a < n <= e && SameOutside(s.chunks, s'.chunks, a, e) && DvMoved(s, s', a, n, e, k)
    requires forall x :: x in s'.chunks && a <= x < e ==> x == a
    requires a in s'.chunks && s'.chunks[a] == Chunk(e - a, k) && (k == Victim || k == Loose)
    requires forall x :: x in s.chunks && a <= x < e ==> s.chunks[x].kind != Top && (s.chunks[x].kind == Victim ==> k == Victim)
    ensures Specials(s')
  {
  }

  lemma SpanKinds(gm: int, s: Snap, a: int, p: int, e: int, k: Kind)
    requires HeapOk(gm, s) && Span(s, a, p, e) && Region(gm, s, a, e, Starts(a, p, Next(s, p), e), false)
    requires k == Victim <==> s.dvsize != 0 && (s.dv == a || (s.dv == Next(s, p) && e != Next(s, p)))
    requires a < e
    ensures forall x :: x in s.chunks && a <= x < e ==> s.chunks[x].kind != Top && (s.chunks[x].kind == Victim ==> k == Victim)
  {
    hide BinsOk, Tags, StateApart, Covers, Inside, RegionClear, Unpinned;
  }

  lemma FreedReady(gm: int, s: Snap, s': Snap, a: int, p: int, e: int, k: Kind)
    requires HeapOk(gm, s) && FreedTo(s, s', a, p, e, k)
    ensures Primed(gm, s, s', a, e, Starts(a, p, Next(s, p), e), false)
  {
    hide HeapOk, Region, NoBinned, Unpinned, Specials, Merged, SameOutside, Writes, DvMoved, Span, SameBins;
    SpanRegion(gm, s, a, p, e);
    SpecialsOf(gm, s);
    SpanKinds(gm, s, a, p, e, k) by { DvMovedKind(s, s', a, Next(s, p), e, k); }
    MergedOutside(s.chunks, a, e, Chunk(e - a, k));
    SpecialsFreed(s, s', a, Next(s, p), e, k);
  }

  lemma DvMovedKind(s: Snap, s': Snap, a: int, n: int, e: int, k: Kind)
    requires DvMoved(s, s', a, n, e, k)
    ensures k == Victim <==> s.dvsize != 0 && (s.dv == a || (s.dv == n && e != n))
  {
  }

  /** A chunk is free: nothing else that is live has changed, and the chunk is gone. */
  lemma FreedStep(gm: int, s: Snap, s': Snap, a: int, p: int, e: int, k: Kind)
    requires HeapOk(gm, s) && FreedTo(s, s', a, p, e, k)
    ensures HeapOk(gm, s') && Keeps(s, s', {p}) && !LiveAt(s', p) && a in s'.chunks && s'.chunks[a] == Chunk(e - a, k)
    ensures LooseSet(s') == (LooseSet(s) - {a, Next(s, p)}) + (if k == Loose then {a} else {})
  {
    hide HeapOk, Primed, Region, NoBinned, Merged, Writes, Keeps, Span, SameBins, DvMoved, Unpinned, LooseSet, LiveAt;
    FreedReady(gm, s, s', a, p, e, k);
    SpanRegion(gm, s, a, p, e);
    MergedFree(gm, s, s', a, e, Starts(a, p, Next(s, p), e), k);
    FreedGone(gm, s, s', a, p, e, k);
    KeepsOnly(s, s', a, p, Next(s, p), e);
  }

  lemma KeepsOnly(s: Snap, s': Snap, a: int, p: int, n: int, e: int)
    requires Keeps(s, s', Starts(a, p, n, e))
    requires a != p ==> !LiveAt(s, a) && !LiveAt(s', a)
    requires e != n ==> !LiveAt(s, n) && !LiveAt(s', n)
    ensures Keeps(s, s', {p})
  {
    hide LiveAt;
    forall q | q !in {p} ensures KeepsAt(s, s', q) {
      if q !in Starts(a, p, n, e) { assert KeepsAt(s, s', q); }
    }
  }

  lemma FreedGone(gm: int, s: Snap, s': Snap, a: int, p: int, e: int, k: Kind)
    requires HeapOk(gm, s) && FreedTo(s, s', a, p, e, k)
    ensures !LiveAt(s', p) && !LiveAt(s', a) && a in s'.chunks && s'.chunks[a] == Chunk(e - a, k)
    ensures e != Next(s, p) ==> !LiveAt(s', Next(s, p))
    ensures LooseSet(s') == (LooseSet(s) - {a, Next(s, p)}) + (if k == Loose then {a} else {})
  {
    hide HeapOk, Merged, DvMoved, Inside, RegionClear, Unpinned, SameBins, NoBinned;
    SpanRegion(gm, s, a, p, e);
    MergedOutside(s.chunks, a, e, Chunk(e - a, k));
    forall x ensures x in LooseSet(s') <==> x in (LooseSet(s) - {a, Next(s, p)}) + (if k == Loose then {a} else {}) {
    }
  }

  // ---------- a chunk before top ----------

  ghost predicate SpanTop(s: Snap, a: int, p: int) {
    && p in s.chunks && s.chunks[p].kind == Used && s.topsize != 0 && Next(s, p) == s.top
    && (if a == p then !Unpinned(s.mem, s.chunks, p)
        else a in s.chunks && (s.chunks[a].kind == Loose || s.chunks[a].kind == Victim) && Next(s, a) == p)
  }

  ghost function TopEndOf(s: Snap): int {
    s.top + s.topsize + TOP_FOOT_SIZE
  }

  ghost predicate FreedToTop(s: Snap, s': Snap, a: int, p: int) {
    && SpanTop(s, a, p) && SameBins(s, s')
    && s'.top == a && s'.topsize == s.top + s.topsize - a
    && s'.chunks == Merged(s.chunks, a, TopEndOf(s), Chunk(s'.topsize, Top))
    && Rd(s'.mem, a + HEAD) == s'.topsize + 1 && Writes(s.mem, s'.mem, {a + HEAD})
    && (if s.dvsize != 0 && s.dv == a then s'.dv == 0 && s'.dvsize == 0 else s'.dv == s.dv && s'.dvsize == s.dvsize)
  }

  lemma SpanTopRegion(gm: int, s: Snap, a: int, p: int)
    requires HeapOk(gm, s) && SpanTop(s, a, p)
    ensures Region(gm, s, a, TopEndOf(s), {a, p, s.top}, true) && NoBinned(s.chunks, a, TopEndOf(s))
    ensures a in s.chunks && s.top in s.chunks && s.chunks[s.top] == Chunk(s.topsize, Top) && a <= p < s.top
    ensures !Unpinned(s.mem, s.chunks, a) && s.topsize > 0 && !LiveAt(s, s.top) && (a != p ==> !LiveAt(s, a))
  {
    hide HeapOk, Region, NoBinned, Unpinned;
    UsedFacts(gm, s, p);
    TopRegion(gm, s);
    if a != p { FreeFacts(gm, s, a); }
    SpanTopJoin(gm, s, a, p, s.top, TopEndOf(s));
    StartsNotBinned(gm, s, a, TopEndOf(s), {a, p, s.top}, true);
  }

  lemma SpanTopJoin(gm: int, s: Snap, a: int, p: int, t: int, e: int)
    requires HeapOk(gm, s) && Region(gm, s, p, t, {p}, false) && Region(gm, s, t, e, {t}, true)
    requires a != p ==> Region(gm, s, a, p, {a}, false)
    ensures Region(gm, s, a, e, {a, p, t}, true)
  {
    hide HeapOk, Inside, RegionClear;
    if a != p {
      RegionJoin(gm, s, a, p, t, {a}, {p}, false);
    }
    RegionJoin(gm, s, a, t, e, {a} + {p}, {t}, true);
  }

  lemma SpecialsTopped(s: Snap, s': Snap, a: int, p: int, e: int)
    requires Specials(s) && a <= p < s.top < e && SameOutside(s.chunks, s'.chunks, a, e)
    requires forall x :: x in s'.chunks && a <= x < e ==> x == a
    requires forall x :: x in s.chunks && a <= x < e ==> x in {a, p, s.top}
    requires p in s.chunks && s.chunks[p].kind == Used && s.topsize != 0 && s.chunks[s.top].kind == Top
    requires a in s'.chunks && s'.chunks[a] == Chunk(s'.topsize, Top) && s'.top == a && s'.topsize != 0
    requires if s.dvsize != 0 && s.dv == a then s'.dv == 0 && s'.dvsize == 0 else s'.dv == s.dv && s'.dvsize == s.dvsize
    ensures Specials(s')
  {
  }

  lemma FreedTopReady(gm: int, s: Snap, s': Snap, a: int, p: int)
    requires HeapOk(gm, s) && FreedToTop(s, s', a, p)
    ensures Primed(gm, s, s', a, TopEndOf(s), {a, p, s.top}, true)
  {
    hide HeapOk, NoBinned, Unpinned, Specials, Merged, SameOutside, Writes, SameBins, Inside, RegionClear;
    SpanTopRegion(gm, s, a, p);
    SpecialsOf(gm, s);
    MergedOutside(s.chunks, a, TopEndOf(s), Chunk(s'.topsize, Top));
    SpecialsTopped(s, s', a, p, TopEndOf(s));
  }

  /** The chunk, and a free one before it, have become part of top. */
  lemma FreedTopStep(gm: int, s: Snap, s': Snap, a: int, p: int)
    requires HeapOk(gm, s) && FreedToTop(s, s', a, p)
    ensures HeapOk(gm, s') && Keeps(s, s', {p}) && !LiveAt(s', p) && LooseSet(s') == LooseSet(s) - {a}
  {
    hide HeapOk, Primed, Region, NoBinned, Merged, Writes, Keeps, SpanTop, SameBins, Unpinned, LooseSet, LiveAt;
    FreedTopReady(gm, s, s', a, p);
    SpanTopRegion(gm, s, a, p);
    MergedTop(gm, s, s', a, s.top, TopEndOf(s), {a, p, s.top});
    FreedTopGone(gm, s, s', a, p);
    KeepsOnly(s, s', a, p, s.top, TopEndOf(s));
  }

  lemma FreedTopGone(gm: int, s: Snap, s': Snap, a: int, p: int)
    requires HeapOk(gm, s) && FreedToTop(s, s', a, p)
    ensures !LiveAt(s', p) && !LiveAt(s', a) && !LiveAt(s', s.top) && LooseSet(s') == LooseSet(s) - {a}
  {
    hide HeapOk, Merged, Inside, RegionClear, Unpinned, SameBins, NoBinned;
    SpanTopRegion(gm, s, a, p);
    MergedOutside(s.chunks, a, TopEndOf(s), Chunk(s'.topsize, Top));
    forall x ensures x in LooseSet(s') <==> x in LooseSet(s) - {a} {
    }
  }

  // ---------- the operation ----------

  /** What dlfree and dispose_chunk have done with the chunk: merged it into top or dv, or binned it. */
  datatype Outcome = IntoTop | IntoDv | IntoBin(size: int)

  /** The chunk before p is free and has left its bin, or is dv, or there is none. */
  ghost predicate Back(s: Snap, s1: Snap, a: int, p: int) {
    && Keeps(s, s1, {}) && p in s.chunks && p in s1.chunks && s1.chunks[p] == s.chunks[p]
    && s1.dv == s.dv && s1.dvsize == s.dvsize && s1.top == s.top && s1.topsize == s.topsize
    && (if a == p then s1 == s && !Unpinned(s.mem, s.chunks, p) && LooseSet(s1) == {}
        else a in s1.chunks && Next(s1, a) == p
             && (if a == s.dv then s1.chunks[a].kind == Victim && s.dvsize != 0 && LooseSet(s1) == {}
                 else s1.chunks[a].kind == Loose && LooseSet(s1) == {a}))
  }

  lemma BackFacts(gm: int, s: Snap, p: int)
    requires HeapOk(gm, s) && Settled(s) && p in s.chunks && s.chunks[p].kind == Used
    ensures Rd(s.mem, p + HEAD) % 2 == 0 <==> Unpinned(s.mem, s.chunks, p)
    ensures Unpinned(s.mem, s.chunks, p) ==>
      var q := p - Rd(s.mem, p);
      && q in s.chunks && s.chunks[q].size == Rd(s.mem, p) && Next(s, q) == p && q != p
      && (if q == s.dv then s.chunks[q].kind == Victim && s.dvsize != 0 else s.chunks[q].kind == Binned)
  {
    hide Tags, BinsOk, StateApart, Covers, Region;
    UsedFacts(gm, s, p);
    Chunks.Parity(s.chunks[p].size);
    if Unpinned(s.mem, s.chunks, p) {
      var q := p - Rd(s.mem, p);
      assert q in s.chunks && Free(s.chunks[q].kind) && q + s.chunks[q].size == p;
      assert s.chunks[q].kind == Loose ==> q in LooseSet(s);
      LooseSize(gm, s, q, s.chunks[q].size);
    }
  }

  /** consolidate backward. */
  method Backward(M: MallocState, p0: int) returns (p: int, grown: int)
    requires HeapOk(M.gm, M.Now()) && Settled(M.Now()) && p0 in M.chunks && M.chunks[p0].kind == Used
    modifies M`mem, M`smallmap, M`treemap, M`small, M`trees, M`chunks
    ensures HeapOk(M.gm, M.Now()) && Back(old(M.Now()), M.Now(), p, p0) && grown == p0 - p
  {
    hide HeapOk, Settled, Keeps, LooseSet, LiveAt, Unpinned, AfterFree;
    ghost var s := M.Now();
    BackFacts(M.gm, s, p0);
    KeepsSame(s);
    SettledIs(s);
    p, grown := p0, 0;
    if Rd(M.mem, p0 + HEAD) % 2 == 0 {
      grown := Rd(M.mem, p0);
      p := p0 - grown;
      if p != M.dv {
        UnlinkChunk(M, p, grown);
        LooseAfter(s, M.Now(), p, grown, Loose);
      }
    }
  }

  lemma SettledIs(s: Snap)
    ensures Settled(s) <==> LooseSet(s) == {}
  {
  }

  lemma NextFacts(gm: int, s: Snap, p: int, a: int)
    requires HeapOk(gm, s) && p in s.chunks && s.chunks[p].kind == Used && LooseSet(s) <= {a} && a <= p
    ensures var n := Next(s, p);
      && n in s.chunks && n > p > 0 && n != a && s.chunks[n].size >= 16
      && (s.topsize != 0 && n == s.top ==> s.chunks[n].kind == Top)
      && (Rd(s.mem, n + HEAD) / 2 % 2 == 0 <==> !InUse(s.chunks[n].kind))
      && (Rd(s.mem, n + HEAD) % 4 == 3 <==> InUse(s.chunks[n].kind))
      && (!InUse(s.chunks[n].kind) ==>
            if n == s.top then s.topsize != 0 && s.chunks[n] == Chunk(s.topsize, Top)
            else if n == s.dv then s.dvsize != 0 && s.chunks[n] == Chunk(s.dvsize, Victim)
            else s.chunks[n].kind == Binned && ChunkSize(s.mem, n) == s.chunks[n].size)
  {
    hide Tags, BinsOk, StateApart, Covers, Region, Unpinned, AfterFree;
    UsedFacts(gm, s, p);
    var n := Next(s, p);
    TagBits(s.chunks[n].size);
    assert s.chunks[n].kind == Loose ==> n in LooseSet(s);
    TopRegionIf(gm, s);
  }

  lemma TopRegionIf(gm: int, s: Snap)
    requires HeapOk(gm, s)
    ensures s.topsize != 0 ==> s.top in s.chunks && s.chunks[s.top] == Chunk(s.topsize, Top)
    ensures s.topsize == 0 ==> s.top == 0
  {
    hide Tags, BinsOk, StateApart, Covers;
  }

  lemma TagBits(z: int)
    requires z % 16 == 0
    ensures (z + 1) / 2 % 2 == 0 && (z + 3) / 2 % 2 == 1 && (z + 1) % 4 == 1 && (z + 3) % 4 == 3
    ensures (z + 1) - (z + 1) % 8 == z && (z + 3) - (z + 3) % 8 == z && (z + 2) - (z + 2) % 8 == z && (z + 3) % 2 == 1
  {
    var k := z / 16;
    assert z == 16 * k;
    TagRests(k);
    TagHalves(k);
  }

  lemma TagRests(k: int)
    ensures (16 * k + 1) % 4 == 1 && (16 * k + 3) % 4 == 3 && (16 * k + 3) % 2 == 1
    ensures (16 * k + 1) % 8 == 1 && (16 * k + 2) % 8 == 2 && (16 * k + 3) % 8 == 3
  {
    ModUnique(16 * k + 1, 4, 4 * k, 1);
    ModUnique(16 * k + 3, 4, 4 * k, 3);
    ModUnique(16 * k + 3, 2, 8 * k + 1, 1);
    ModUnique(16 * k + 1, 8, 2 * k, 1);
    ModUnique(16 * k + 2, 8, 2 * k, 2);
    ModUnique(16 * k + 3, 8, 2 * k, 3);
  }

  lemma TagHalves(k: int)
    ensures (16 * k + 1) / 2 % 2 == 0 && (16 * k + 3) / 2 % 2 == 1
  {
    Halves(8 * k);
    Halves(8 * k + 1);
    Halves(4 * k);
  }

  lemma Halves(m: int)
    ensures (2 * m + 1) / 2 == m && 2 * m % 2 == 0 && (2 * m + 1) % 2 == 1
  {
  }

  lemma SpanOf(s: Snap, s1: Snap, a: int, p: int, e: int)
    requires Back(s, s1, a, p) && s.chunks[p].kind == Used
    requires var n := Next(s1, p); n in s1.chunks && e == n && InUse(s1.chunks[n].kind)
    ensures Span(s1, a, p, e)
  {
  }

  lemma SpanOver(s: Snap, s1: Snap, s2: Snap, a: int, p: int, e: int)
    requires Back(s, s1, a, p) && s.chunks[p].kind == Used
    requires var n := Next(s1, p);
      && n in s1.chunks && n > p && e == n + s1.chunks[n].size && e != n && n != a
      && (if s1.chunks[n].kind == Victim then s2 == s1
          else s2.chunks == s1.chunks[n := Chunk(s1.chunks[n].size, Loose)]
               && (a == p ==> !Unpinned(s2.mem, s2.chunks, p)))
    ensures Span(s2, a, p, e)
  {
    hide Keeps, LooseSet;
  }

  lemma FreedInUse(gm: int, s: Snap, s': Snap, a: int, p: int, k: Kind)
    requires HeapOk(gm, s) && Span(s, a, p, Next(s, p)) && SameBins(s, s') && (k == Victim || k == Loose)
    requires var n := Next(s, p);
      && s'.mem == SetFreeWithPinuse(s.mem, a, n - a, n) && s'.chunks == Merged(s.chunks, a, n, Chunk(n - a, k))
      && DvMoved(s, s', a, n, n, k)
    ensures FreedTo(s, s', a, p, Next(s, p), k)
  {
    hide HeapOk, Merged, Unpinned, DvMoved, Region;
    UsedFacts(gm, s, p);
    SpanRegion(gm, s, a, p, Next(s, p));
    TagBits(s.chunks[Next(s, p)].size);
  }

  lemma FreedWithNext(gm: int, s: Snap, s': Snap, a: int, p: int, e: int, k: Kind)
    requires HeapOk(gm, s) && Span(s, a, p, e) && e != Next(s, p) && SameBins(s, s') && (k == Victim || k == Loose)
    requires s'.mem == SetFree(s.mem, a, e - a) && s'.chunks == Merged(s.chunks, a, e, Chunk(e - a, k))
    requires DvMoved(s, s', a, Next(s, p), e, k)
    ensures FreedTo(s, s', a, p, e, k)
  {
    hide HeapOk, Merged, Unpinned, DvMoved, Region;
    UsedFacts(gm, s, p);
    SpanRegion(gm, s, a, p, e);
    FreeFacts(gm, s, Next(s, p));
  }

  /** Nothing is left of p, and nothing else that was live has changed. */
  ghost predicate Gone(gm: int, s: Snap, s': Snap, p: int) {
    HeapOk(gm, s') && Settled(s') && Keeps(s, s', {p}) && !LiveAt(s', p)
  }

  /** The last step before the chunk has its home: it is part of dv or top, or about to be binned. */
  lemma GoneIs(gm: int, s: Snap, s1: Snap, s2: Snap, p: int)
    requires HeapOk(gm, s2) && Keeps(s, s1, {}) && Keeps(s1, s2, {p}) && !LiveAt(s2, p) && LooseSet(s2) == {}
    ensures Gone(gm, s, s2, p)
  {
    hide HeapOk, Keeps, LiveAt, LooseSet;
    KeepsTrans(s, s1, s2, {}, {p}, {p});
    SettledIs(s2);
  }

  lemma GoneBinned(gm: int, s: Snap, s1: Snap, s2: Snap, s3: Snap, p: int, a: int, z: int)
    requires HeapOk(gm, s3) && Keeps(s, s1, {}) && Keeps(s1, s2, {p}) && !LiveAt(s2, p) && LooseSet(s2) <= {a}
    requires Keeps(s2, s3, {}) && s3.chunks == s2.chunks[a := Chunk(z, Binned)]
    ensures Gone(gm, s, s3, p)
  {
    hide HeapOk, Keeps, LiveAt, LooseSet;
    KeepsTrans(s, s1, s2, {}, {p}, {p});
    KeepsTrans(s, s2, s3, {p}, {}, {p});
    LooseAfter(s2, s3, a, z, Binned);
    SettledIs(s3);
    KeepsLive(s2, s3, p);
  }

  lemma KeepsLive(s: Snap, s': Snap, p: int)
    requires Keeps(s, s', {})
    ensures LiveAt(s', p) <==> LiveAt(s, p)
  {
    hide LiveAt;
    assert KeepsAt(s, s', p);
  }

  lemma BackSizes(gm: int, s: Snap, s1: Snap, a: int, p: int)
    requires Back(s, s1, a, p) && HeapOk(gm, s1) && Settled(s)
    ensures a <= p && a > 0 && LooseSet(s1) <= {a} && Next(s1, p) == Next(s, p) && Keeps(s, s1, {})
    ensures LooseSet(s1) == (if a != p && a != s.dv then {a} else {})
    ensures a in s1.chunks && p in s1.chunks && s1.chunks[p] == s.chunks[p] && s1.chunks[p].size >= 16
    ensures a == p ==> !Unpinned(s1.mem, s1.chunks, p)
    ensures s1.dv == s.dv && s1.dvsize == s.dvsize
  {
    hide Keeps, LooseSet, HeapOk;
    LooseSize(gm, s1, a, s1.chunks[a].size);
    LooseSize(gm, s1, p, s1.chunks[p].size);
  }

  /** Unlinking the next chunk does not make p follow a free chunk. */
  lemma StillPinned(gm: int, s1: Snap, s2: Snap, p: int, n: int)
    requires HeapOk(gm, s2) && p in s1.chunks && InUse(s1.chunks[p].kind) && !Unpinned(s1.mem, s1.chunks, p) && n > p
    requires HeapOk(gm, s1) && n in s1.chunks && s2.chunks == s1.chunks[n := Chunk(s1.chunks[n].size, Loose)]
    ensures !Unpinned(s2.mem, s2.chunks, p)
  {
    hide BinsOk, Specials, StateApart, Covers;
    if Unpinned(s2.mem, s2.chunks, p) {
      assert TagAt(s2.mem, s2.chunks, p);
      var q := p - Rd(s2.mem, p);
      assert q in s1.chunks && Free(s1.chunks[q].kind) && q + s1.chunks[q].size == p;
      TagOf(gm, s1, q);
    }
  }

  lemma TagOf(gm: int, s: Snap, p: int)
    requires HeapOk(gm, s) && p in s.chunks
    ensures TagAt(s.mem, s.chunks, p)
  {
    hide BinsOk, Specials, StateApart, Covers, TagAt;
  }

  /** next == top: its fields, the head of the larger top, and dv if that has become part of it. */
  method EnterTop(M: MallocState, p: int, psize: int)
    modifies M`mem, M`chunks, M`dv, M`dvsize, M`top, M`topsize
    ensures var tsize, isDv := old(M.topsize) + psize, p == old(M.dv);
      M.Now() == old(M.Now()).(mem := old(M.mem)[p + HEAD := tsize + 1], top := p, topsize := tsize,
                               dv := if isDv then 0 else old(M.dv), dvsize := if isDv then 0 else old(M.dvsize),
                               chunks := Merged(old(M.chunks), p, p + tsize + TOP_FOOT_SIZE, Chunk(tsize, Top)))
  {
    hide Merged;
    var tsize := M.topsize + psize;
    M.topsize := tsize;
    M.top := p;
    M.mem := M.mem[p + HEAD := tsize + 1];
    if p == M.dv {
      M.dv := 0;
      M.dvsize := 0;
    }
    M.chunks := Merged(M.chunks, p, p + tsize + TOP_FOOT_SIZE, Chunk(tsize, Top));
  }

  /** next == dv. */
  method EnterDv(M: MallocState, p: int, psize: int)
    modifies M`mem, M`chunks, M`dv, M`dvsize
    ensures var dsize := old(M.dvsize) + psize;
      M.Now() == old(M.Now()).(mem := SetFree(old(M.mem), p, dsize), dv := p, dvsize := dsize,
                               chunks := Merged(old(M.chunks), p, p + dsize, Chunk(dsize, Victim)))
  {
    hide Merged, SetFree;
    var dsize := M.dvsize + psize;
    M.dvsize := dsize;
    M.dv := p;
    M.mem := SetFree(M.mem, p, dsize);
    M.chunks := Merged(M.chunks, p, p + dsize, Chunk(dsize, Victim));
  }

  lemma TopEntered(gm: int, s: Snap, s1: Snap, s2: Snap, p: int, p0: int, psize: int)
    requires HeapOk(gm, s1) && Back(s, s1, p, p0) && Settled(s) && s.chunks[p0].kind == Used
    requires Next(s, p0) == s1.top && s1.topsize != 0 && psize == s1.top - p
    requires var tsize, isDv := s1.topsize + psize, p == s1.dv;
      s2 == s1.(mem := s1.mem[p + HEAD := tsize + 1], top := p, topsize := tsize,
                dv := if isDv then 0 else s1.dv, dvsize := if isDv then 0 else s1.dvsize,
                chunks := Merged(s1.chunks, p, p + tsize + TOP_FOOT_SIZE, Chunk(tsize, Top)))
    ensures Gone(gm, s, s2, p0) && SameEnd(s1, s2) && s2.topsize == s1.topsize + psize
  {
    hide HeapOk, Settled, Keeps, LooseSet, LiveAt, Unpinned, Merged, Gone, Back;
    BackSizes(gm, s, s1, p, p0);
    NextFacts(gm, s1, p0, p);
    NoDv(gm, s1);
    FreedToTopIs(s, s1, s2, p, p0);
    FreedTopStep(gm, s1, s2, p, p0);
    GoneIs(gm, s, s1, s2, p0);
  }

  lemma DvEntered(gm: int, s: Snap, s1: Snap, s2: Snap, p: int, p0: int, psize: int)
    requires HeapOk(gm, s1) && Back(s, s1, p, p0) && Settled(s) && s.chunks[p0].kind == Used
    requires Next(s, p0) == s1.dv && s1.dvsize != 0 && psize == s1.dv - p && (s1.dv == s1.top ==> s1.topsize == 0)
    requires var dsize := s1.dvsize + psize;
      s2 == s1.(mem := SetFree(s1.mem, p, dsize), dv := p, dvsize := dsize, chunks := Merged(s1.chunks, p, p + dsize, Chunk(dsize, Victim)))
    ensures Gone(gm, s, s2, p0)
  {
    hide HeapOk, Settled, Keeps, LooseSet, LiveAt, Unpinned, Merged, Gone, Span, FreedTo, Back, SetFree;
    var e := p + s1.dvsize + psize;
    BackSizes(gm, s, s1, p, p0);
    NextFacts(gm, s1, p0, p);
    DvFacts(gm, s1);
    SpanOver(s, s1, s1, p, p0, e);
    FreedWithNext(gm, s1, s2, p, p0, e, Victim);
    FreedStep(gm, s1, s2, p, p0, e, Victim);
    GoneIs(gm, s, s1, s2, p0);
  }

  /** The chunk before top, or before dv, becomes part of it. */
  method IntoTopOrDv(M: MallocState, p: int, psize: int, next: int, ghost p0: int, ghost s: Snap) returns (how: Outcome)
    requires HeapOk(M.gm, M.Now()) && Back(s, M.Now(), p, p0) && Settled(s) && s.chunks[p0].kind == Used
    requires next == Next(s, p0) && psize == next - p && ((M.topsize != 0 && next == M.top) || (M.dvsize != 0 && next == M.dv))
    modifies M`mem, M`chunks, M`dv, M`dvsize, M`top, M`topsize
    ensures Gone(M.gm, s, M.Now(), p0) && (how.IntoTop? <==> next == old(M.top)) && !how.IntoBin?
    ensures how.IntoTop? ==> M.topsize == old(M.topsize) + psize
    ensures SameEnd(old(M.Now()), M.Now())
  {
    hide HeapOk, Settled, Merged, Gone, Back, SetFree;
    ghost var s1 := M.Now();
    TopIsNone(M.gm, s, s1, p, p0);
    if next == M.top {
      EnterTop(M, p, psize);
      TopEntered(M.gm, s, s1, M.Now(), p, p0, psize);
      return IntoTop;
    } else {
      EnterDv(M, p, psize);
      DvEntered(M.gm, s, s1, M.Now(), p, p0, psize);
      return IntoDv;
    }
  }

  lemma TopIsNone(gm: int, s: Snap, s1: Snap, p: int, p0: int)
    requires HeapOk(gm, s1) && Back(s, s1, p, p0) && Settled(s) && s.chunks[p0].kind == Used
    ensures Next(s, p0) == s1.top ==> s1.topsize != 0
  {
    hide HeapOk, Settled, Back, LooseSet;
    BackSizes(gm, s, s1, p, p0);
    NextFacts(gm, s1, p0, p);
    TopRegionIf(gm, s1);
  }

  /** The chunk with the one behind it is a free chunk, and dv if it was. */
  method JoinNext(M: MallocState, p: int, psize: int) returns (isDv: bool)
    modifies M`mem, M`chunks, M`dvsize
    ensures isDv == (p == M.dv)
    ensures M.Now() == old(M.Now()).(mem := SetFree(old(M.mem), p, psize), dvsize := if isDv then psize else old(M.dvsize),
                                     chunks := Merged(old(M.chunks), p, p + psize, Chunk(psize, if isDv then Victim else Loose)))
  {
    hide Merged, SetFree;
    M.mem := SetFree(M.mem, p, psize);
    isDv := p == M.dv;
    if isDv {
      M.dvsize := psize;
    }
    M.chunks := Merged(M.chunks, p, p + psize, Chunk(psize, if isDv then Victim else Loose));
  }

  /** The binned chunk behind has left its bin. */
  ghost predicate Detached(gm: int, s: Snap, s1: Snap, s2: Snap, p: int, p0: int, next: int, nsize: int) {
    && HeapOk(gm, s1) && Back(s, s1, p, p0) && Settled(s) && s.chunks[p0].kind == Used && next == Next(s, p0)
    && next in s1.chunks && s1.chunks[next] == Chunk(nsize, Binned)
    && HeapOk(gm, s2) && Keeps(s1, s2, {}) && s2.chunks == s1.chunks[next := Chunk(nsize, Loose)]
    && s2.dv == s1.dv && s2.dvsize == s1.dvsize && s2.top == s1.top && s2.topsize == s1.topsize
  }

  lemma NextJoined(gm: int, s: Snap, s1: Snap, s2: Snap, s3: Snap, p: int, p0: int, next: int, nsize: int)
    requires Detached(gm, s, s1, s2, p, p0, next, nsize)
    requires var psize, isDv := next - p + nsize, p == s2.dv;
      s3 == s2.(mem := SetFree(s2.mem, p, psize), dvsize := if isDv then psize else s2.dvsize,
                chunks := Merged(s2.chunks, p, p + psize, Chunk(psize, if isDv then Victim else Loose)))
    ensures HeapOk(gm, s3) && Keeps(s, s2, {}) && Keeps(s2, s3, {p0}) && !LiveAt(s3, p0) && nsize >= 16 && p > 0
    ensures LooseSet(s3) == (if p == s2.dv then {} else {p})
    ensures p in s3.chunks && s3.chunks[p] == Chunk(next - p + nsize, if p == s2.dv then Victim else Loose)
  {
    hide HeapOk, Settled, Keeps, LooseSet, LiveAt, Unpinned, Merged, Span, FreedTo, Back, SetFree;
    var e, k := next + nsize, if p == s2.dv then Victim else Loose;
    BackSizes(gm, s, s1, p, p0);
    NextFacts(gm, s1, p0, p);
    NoDv(gm, s1);
    BinnedNext(gm, s1, next);
    LooseAfter(s1, s2, next, nsize, Loose);
    if p == p0 { StillPinned(gm, s1, s2, p, next); }
    SpanOver(s, s1, s2, p, p0, e);
    KeepsTrans(s, s1, s2, {}, {}, {});
    FreedWithNext(gm, s2, s3, p, p0, e, k);
    FreedStep(gm, s2, s3, p, p0, e, k);
    JoinedLoose(LooseSet(s1), LooseSet(s2), LooseSet(s3), p, next, p == s2.dv);
  }

  lemma JoinedLoose(a: set<int>, b: set<int>, c: set<int>, p: int, n: int, isDv: bool)
    requires a <= {p} && b == a + {n} && c == (b - {p, n}) + (if isDv then {} else {p})
    ensures c == if isDv then {} else {p}
  {
  }

  /** The chunk takes in the binned chunk behind it. */
  method IntoNext(M: MallocState, p: int, psize0: int, next: int, ghost p0: int, ghost s: Snap) returns (how: Outcome)
    requires HeapOk(M.gm, M.Now()) && Back(s, M.Now(), p, p0) && Settled(s) && s.chunks[p0].kind == Used
    requires next == Next(s, p0) && psize0 == next - p && next in M.chunks && M.chunks[next].kind == Binned
    modifies M`mem, M`smallmap, M`treemap, M`small, M`trees, M`chunks, M`dv, M`dvsize
    ensures Gone(M.gm, s, M.Now(), p0) && !how.IntoTop? && (how.IntoDv? <==> p == old(M.dv))
    ensures how.IntoBin? ==> how.size >= psize0 && p in M.chunks && M.chunks[p] == Chunk(how.size, Binned)
  {
    hide HeapOk, Settled, Keeps, LooseSet, LiveAt, Merged, Gone, Back, SetFree, ChunkSize;
    ghost var s1 := M.Now();
    BinnedSize(M.gm, s1, next);
    var nsize := ChunkSize(M.mem, next);
    var psize := psize0 + nsize;
    UnlinkChunk(M, next, nsize);
    ghost var s2 := M.Now();
    assert Detached(M.gm, s, s1, s2, p, p0, next, nsize);
    var isDv := JoinNext(M, p, psize);
    ghost var s3 := M.Now();
    NextJoined(M.gm, s, s1, s2, s3, p, p0, next, nsize);
    if isDv {
      GoneIs(M.gm, s, s2, s3, p0);
      return IntoDv;
    }
    InsertChunk(M, p, psize);
    GoneBinned(M.gm, s, s2, s3, M.Now(), p0, p, psize);
    return IntoBin(psize);
  }

  lemma BinnedSize(gm: int, s: Snap, n: int)
    requires HeapOk(gm, s) && n in s.chunks && s.chunks[n].kind == Binned
    ensures ChunkSize(s.mem, n) == s.chunks[n].size
  {
    hide BinsOk, Specials, StateApart, Covers, Unpinned;
    assert TagAt(s.mem, s.chunks, n);
    TagBits(s.chunks[n].size);
  }

  lemma BinnedNext(gm: int, s: Snap, n: int)
    requires HeapOk(gm, s) && n in s.chunks && s.chunks[n].kind == Binned
    ensures n != s.top || s.topsize == 0
    ensures n != s.dv || s.dvsize == 0
    ensures n > 0
  {
    LooseSize(gm, s, n, s.chunks[n].size);
    hide Tags, BinsOk, StateApart, Covers;
  }

  /** The chunk behind is in use. */
  method BeforeInUse(M: MallocState, p: int, psize: int, next: int, ghost p0: int, ghost s: Snap) returns (how: Outcome)
    requires HeapOk(M.gm, M.Now()) && Back(s, M.Now(), p, p0) && Settled(s) && s.chunks[p0].kind == Used
    requires next == Next(s, p0) && psize == next - p && next in M.chunks && InUse(M.chunks[next].kind)
    modifies M`mem, M`smallmap, M`treemap, M`small, M`trees, M`chunks, M`dvsize
    ensures Gone(M.gm, s, M.Now(), p0) && !how.IntoTop? && (how.IntoDv? <==> p == old(M.dv))
    ensures how.IntoBin? ==> how.size == psize && p in M.chunks && M.chunks[p] == Chunk(psize, Binned)
  {
    hide HeapOk, Settled, Keeps, LooseSet, LiveAt, Unpinned, Merged, Gone, Span, FreedTo, Back, SetFree, SetFreeWithPinuse;
    ghost var s1 := M.Now();
    BackSizes(M.gm, s, s1, p, p0);
    NoDv(M.gm, s1);
    SpanOf(s, s1, p, p0, next);
    M.mem := SetFreeWithPinuse(M.mem, p, psize, next);
    if p == M.dv {
      M.dvsize := psize;
      M.chunks := Merged(M.chunks, p, next, Chunk(psize, Victim));
      FreedInUse(M.gm, s1, M.Now(), p, p0, Victim);
      FreedStep(M.gm, s1, M.Now(), p, p0, next, Victim);
      GoneIs(M.gm, s, s1, M.Now(), p0);
      return IntoDv;
    }
    M.chunks := Merged(M.chunks, p, next, Chunk(psize, Loose));
    FreedInUse(M.gm, s1, M.Now(), p, p0, Loose);
    ghost var s3 := M.Now();
    FreedStep(M.gm, s1, s3, p, p0, next, Loose);
    InsertChunk(M, p, psize);
    GoneBinned(M.gm, s, s1, s3, M.Now(), p0, p, psize);
    return IntoBin(psize);
  }

  /**
   * dlfree and dispose_chunk from consolidation to the new home of the free chunk. The chunk is
   * gone, the heap is settled, and every other live chunk keeps its place and contents.
   */
  method FreeChunk(M: MallocState, p0: int, psize0: int) returns (how: Outcome)
    requires HeapOk(M.gm, M.Now()) && Settled(M.Now()) && p0 in M.chunks && M.chunks[p0] == Chunk(psize0, Used)
    modifies M`mem, M`smallmap, M`treemap, M`small, M`trees, M`chunks, M`dv, M`dvsize, M`top, M`topsize
    ensures Gone(M.gm, old(M.Now()), M.Now(), p0) && SameEnd(old(M.Now()), M.Now())
    ensures how.IntoTop? <==> old(M.topsize) != 0 && p0 + psize0 == old(M.top)
    ensures how.IntoTop? ==> M.topsize >= old(M.topsize) + psize0
    ensures how.IntoDv? <==> !how.IntoTop? && old(M.dvsize) != 0 && (old(M.dv) + old(M.dvsize) == p0 || p0 + psize0 == old(M.dv))
    ensures how.IntoBin? ==> how.size >= psize0 && exists a :: a in M.chunks && M.chunks[a] == Chunk(how.size, Binned)
  {
    hide HeapOk, Settled, Keeps, LooseSet, LiveAt, Unpinned, Gone, Back;
    ghost var s := M.Now();
    var next := p0 + psize0;
    var p, grown := Backward(M, p0);
    ghost var s1 := M.Now();
    BackSizes(M.gm, s, s1, p, p0);
    NextFacts(M.gm, s1, p0, p);
    BackTop(s, s1, p, p0);
    DvBefore(M.gm, s, s1, p, p0);
    if Rd(M.mem, next + HEAD) / 2 % 2 != 0 {
      how := BeforeInUse(M, p, psize0 + grown, next, p0, s);
    } else if next == M.top || next == M.dv {
      how := IntoTopOrDv(M, p, psize0 + grown, next, p0, s);
    } else {
      how := IntoNext(M, p, psize0 + grown, next, p0, s);
    }
  }

  /** The chunk that p is joined with is dv exactly if dv ends where p starts. */
  lemma DvBefore(gm: int, s: Snap, s1: Snap, a: int, p: int)
    requires HeapOk(gm, s) && Back(s, s1, a, p) && s.chunks[p].kind == Used && HeapOk(gm, s1) && Settled(s)
    ensures s.dvsize != 0 ==> s.dv != p && s.dv in s.chunks && s.chunks[s.dv] == Chunk(s.dvsize, Victim)
    ensures a == s.dv <==> s.dvsize != 0 && s.dv + s.dvsize == p
    ensures s1.dv == s.dv && s1.dvsize == s.dvsize && a > 0 && (s.dvsize == 0 ==> s.dv == 0)
    ensures s1.dvsize != 0 ==> s1.dv in s1.chunks && s1.chunks[s1.dv].kind == Victim
  {
    hide HeapOk, Keeps, LooseSet, Settled, Unpinned;
    NoDv(gm, s);
    NoDv(gm, s1);
    BackSizes(gm, s, s1, a, p);
    if s.dvsize != 0 && s.dv + s.dvsize == p {
      FreeNext(gm, s, s.dv);
      if a != p && a != s.dv { SameEndSame(gm, s1, a, s.dv); }
    }
  }

  lemma FreeNext(gm: int, s: Snap, q: int)
    requires HeapOk(gm, s) && q in s.chunks && Free(s.chunks[q].kind)
    ensures Unpinned(s.mem, s.chunks, q + s.chunks[q].size)
  {
    hide BinsOk, Specials, StateApart, Covers, AfterFree, Unpinned;
    assert TagAt(s.mem, s.chunks, q);
  }

  lemma SameEndSame(gm: int, s: Snap, p: int, q: int)
    requires HeapOk(gm, s) && p in s.chunks && q in s.chunks && p != q && Free(s.chunks[p].kind) && Free(s.chunks[q].kind)
    ensures p + s.chunks[p].size != q + s.chunks[q].size
  {
    hide BinsOk, Specials, StateApart, Covers, AfterFree, Unpinned;
    assert TagAt(s.mem, s.chunks, p) && TagAt(s.mem, s.chunks, q);
    ChunksApart(s.mem, s.chunks, p, q);
  }

  lemma BackTop(s: Snap, s1: Snap, a: int, p: int)
    requires Back(s, s1, a, p)
    ensures s1.top == s.top && s1.topsize == s.topsize
  {
  }

  lemma FreedToTopIs(s: Snap, s1: Snap, s': Snap, a: int, p: int)
    requires Back(s, s1, a, p) && s.chunks[p].kind == Used && SameBins(s1, s')
    requires s1.topsize != 0 && Next(s1, p) == s1.top && (s1.dvsize == 0 ==> s1.dv == 0) && 0 < a <= p < s1.top
    requires s'.top == a && s'.topsize == s1.topsize + s1.top - a
    requires s'.chunks == Merged(s1.chunks, a, a + s'.topsize + TOP_FOOT_SIZE, Chunk(s'.topsize, Top))
    requires s'.mem == s1.mem[a + HEAD := s'.topsize + 1]
    requires if s1.dv == a then s'.dv == 0 && s'.dvsize == 0 else s'.dv == s1.dv && s'.dvsize == s1.dvsize
    ensures FreedToTop(s1, s', a, p)
  {
    hide Keeps, LooseSet, Unpinned, Merged;
  }
}
