/** try_realloc_chunk and dlrealloc. */
module Realloc {
  import opened Words
  import opened BinIndex
  import opened TreeMemory
  import opened Chunks
  import opened HeapState
  import opened Heap
  import opened Steps
  import opened HeapOps
  import opened Malloc
  import opened Consolidate

  // ---------- contents ----------

  lemma PayloadWrites(m: Mem, m': Mem, ws: set<int>, p: int, z: int)
    requires Writes(m, m', ws) && forall w :: w in ws ==> w < p + 16 || w >= p + z + HEAD
    ensures SamePayload(m, m', p, z)
  {
  }

  lemma PayloadTrans(m: Mem, m1: Mem, m2: Mem, p: int, z1: int, z2: int, z: int)
    requires SamePayload(m, m1, p, z1) && SamePayload(m1, m2, p, z2) && z <= z1 && z <= z2
    ensures SamePayload(m, m2, p, z)
  {
  }

  // ---------- dv and top when a region is retiled ----------

  /** Where dv, or top, is after [a, e) got new chunks: as before, gone, or a new chunk of the region. */
  ghost predicate RoleMoved(cs': ChunkMap, x: int, z: int, x': int, z': int, a: int, e: int, k: Kind) {
    if z != 0 && a <= x < e
    then (x' == 0 && z' == 0) || (z' != 0 && a <= x' < e && x' in cs' && cs'[x'] == Chunk(z', k))
    else x' == x && z' == z
  }

  lemma SpecialsIn(s: Snap, s': Snap, a: int, e: int)
    requires Specials(s) && a < e && SameOutside(s.chunks, s'.chunks, a, e)
    requires RoleMoved(s'.chunks, s.dv, s.dvsize, s'.dv, s'.dvsize, a, e, Victim)
    requires RoleMoved(s'.chunks, s.top, s.topsize, s'.top, s'.topsize, a, e, Top)
    requires forall x :: x in s'.chunks && a <= x < e && s'.chunks[x].kind == Victim ==> x == s'.dv && s'.dvsize != 0
    requires forall x :: x in s'.chunks && a <= x < e && s'.chunks[x].kind == Top ==> x == s'.top && s'.topsize != 0
    ensures Specials(s')
  {
  }

  ghost predicate SameRoles(s: Snap, s': Snap) {
    s'.dv == s.dv && s'.dvsize == s.dvsize && s'.top == s.top && s'.topsize == s.topsize
  }

  /** The chunk behind p is of kind k and ends at e. */
  ghost predicate Behind(s: Snap, p: int, e: int, k: Kind) {
    var n := Next(s, p);
    n in s.chunks && s.chunks[n].kind == k && e == n + s.chunks[n].size
  }

  // ---------- an in-use chunk gives up its tail ----------

  ghost predicate HalvedWords(m: Mem, m': Mem, p: int, r: int, e: int) {
    && Rd(m', p + HEAD) == r - p + 2 + Rd(m, p + HEAD) % 2 && Rd(m', r + HEAD) == e - r + 3
    && Rd(m', e + HEAD) == SetPinuseBit(Rd(m, e + HEAD)) && Writes(m, m', {p + HEAD, r + HEAD, e + HEAD})
  }

  /** set_inuse on both parts of an in-use chunk, or of one and the loose chunk behind it. */
  ghost predicate Halved(s: Snap, s': Snap, p: int, r: int, e: int) {
    && p in s.chunks && s.chunks[p].kind == Used && (e == Next(s, p) || (Behind(s, p, e, Loose) && r > Next(s, p)))
    && p + MIN_CHUNK_SIZE <= r <= e - MIN_CHUNK_SIZE && r % 16 == 0
    && SameBins(s, s') && SameRoles(s, s')
    && HalvedWords(s.mem, s'.mem, p, r, e)
    && s'.chunks == Split(s.chunks, p, r, e, Chunk(r - p, Used), Chunk(e - r, Used))
  }

  /** The chunks that start in the region of p, and of the loose chunk behind it. */
  ghost function Pair(s: Snap, p: int, e: int): set<int> {
    if e == Next(s, p) then {p} else {p, Next(s, p)}
  }

  lemma PairRegion(gm: int, s: Snap, p: int, e: int, k: Kind)
    requires HeapOk(gm, s) && p in s.chunks && s.chunks[p].kind == Used && (k == Loose || k == Victim)
    requires e == Next(s, p) || Behind(s, p, e, k)
    ensures Region(gm, s, p, e, Pair(s, p, e), false) && NoBinned(s.chunks, p, e)
    ensures e in s.chunks && Follows(Used, s.chunks[e].kind) && p < Next(s, p) <= e && s.chunks[p].size >= MIN_CHUNK_SIZE
    ensures e != Next(s, p) ==> InUse(s.chunks[e].kind) && Rd(s.mem, e + HEAD) == s.chunks[e].size + 2 && !LiveAt(s, Next(s, p))
    ensures Sized(p, s.chunks[p]) && e % 16 == 0
    ensures Rd(s.mem, p + HEAD) == s.chunks[p].size + (if Unpinned(s.mem, s.chunks, p) then 2 else 3)
  {
    hide HeapOk, Region, NoBinned, Unpinned;
    UsedFacts(gm, s, p);
    var n := Next(s, p);
    if e != n {
      FreeFacts(gm, s, n);
      RegionJoin(gm, s, p, n, e, {p}, {n}, false);
      assert {p} + {n} == Pair(s, p, e);
    }
    StartsNotBinned(gm, s, p, e, Pair(s, p, e), false);
  }

  lemma HalvedTags(m: Mem, p: int, r: int, e: int)
    requires p + MIN_CHUNK_SIZE <= r <= e - MIN_CHUNK_SIZE && r % 16 == 0 && e % 16 == 0
    ensures HalvedWords(m, SetInuse(SetInuse(m, p, r - p), r, e - r), p, r, e)
    ensures HalvedWords(m, SetInuse(SetInuse(m, r, e - r), p, r - p), p, r, e)
  {
    EvenDistance(r, e);
  }

  lemma EvenDistance(r: int, e: int)
    requires r % 16 == 0 && e % 16 == 0
    ensures (e - r) % 2 == 0 && (e - r) % 16 == 0
  {
    var d := e / 16 - r / 16;
    assert e - r == 16 * d;
    Sixteens(d, 1);
    EvenOf(8 * d);
  }

  lemma EvenOf(k: int)
    ensures 2 * k % 2 == 0
  {
  }

  lemma HalvedReady(gm: int, s: Snap, s': Snap, p: int, r: int, e: int)
    requires HeapOk(gm, s) && Halved(s, s', p, r, e)
    ensures Primed(gm, s, s', p, e, Pair(s, p, e), false)
  {
    hide HeapOk, Region, NoBinned, Unpinned, Specials, Split, SameOutside, HalvedWords, SameBins;
    PairRegion(gm, s, p, e, Loose);
    SpecialsOf(gm, s);
    SplitOutside(s.chunks, p, r, e, Chunk(r - p, Used), Chunk(e - r, Used));
    PairRoles(gm, s, p, e, Loose);
    SpecialsIn(s, s', p, e);
  }

  /** dv and top are not in the region, unless dv is the chunk behind. */
  lemma PairRoles(gm: int, s: Snap, p: int, e: int, k: Kind)
    requires Specials(s) && p in s.chunks && s.chunks[p].kind == Used && (k == Loose || k == Victim)
    requires e == Next(s, p) || Behind(s, p, e, k)
    requires Region(gm, s, p, e, Pair(s, p, e), false)
    ensures s.topsize != 0 ==> !(p <= s.top < e)
    ensures s.dvsize != 0 && p <= s.dv < e ==> k == Victim && s.dv == Next(s, p) && e != Next(s, p)
  {
    hide Inside, RegionClear;
  }

  lemma HalvedDone(gm: int, s: Snap, s': Snap, p: int, r: int, e: int)
    requires HeapOk(gm, s) && Halved(s, s', p, r, e)
    ensures p in s'.chunks && s'.chunks[p] == Chunk(r - p, Used) && r in s'.chunks && s'.chunks[r] == Chunk(e - r, Used)
    ensures LooseSet(s') == (if e == Next(s, p) then LooseSet(s) else LooseSet(s) - {Next(s, p)})
    ensures e != Next(s, p) ==> !LiveAt(s', Next(s, p)) && !LiveAt(s, Next(s, p))
    ensures !LiveAt(s, r) && p < r && SamePayload(s.mem, s'.mem, p, if r - p < s.chunks[p].size then r - p else s.chunks[p].size)
  {
    hide HeapOk, Split, HalvedWords, Inside, RegionClear, Unpinned, NoBinned, SameBins, SamePayload, Writes;
    PairRegion(gm, s, p, e, Loose);
    SplitOutside(s.chunks, p, r, e, Chunk(r - p, Used), Chunk(e - r, Used));
    HalvedMem(s.mem, s'.mem, p, r, e, s.chunks[p].size, Rd(s.mem, p + HEAD));
    PayloadWrites(s.mem, s'.mem, {p + HEAD, r + HEAD, e + HEAD}, p, if r - p < s.chunks[p].size then r - p else s.chunks[p].size);
    forall x ensures x in LooseSet(s') <==> x in (if e == Next(s, p) then LooseSet(s) else LooseSet(s) - {Next(s, p)}) {
    }
  }

  lemma HalvedMem(m: Mem, m': Mem, p: int, r: int, e: int, z: int, head: int)
    requires HalvedWords(m, m', p, r, e) && head == Rd(m, p + HEAD) && (head == z + 2 || head == z + 3) && z % 16 == 0
    ensures Rd(m', p + HEAD) == r - p + head - z && Rd(m', r + HEAD) == e - r + 3
      && Rd(m', e + HEAD) == SetPinuseBit(Rd(m, e + HEAD)) && Writes(m, m', {p + HEAD, r + HEAD, e + HEAD})
  {
    hide SetPinuseBit, Writes;
    Chunks.Parity(z);
  }

  lemma HalvedStep(gm: int, s: Snap, s': Snap, p: int, r: int, e: int)
    requires HeapOk(gm, s) && Halved(s, s', p, r, e)
    ensures HeapOk(gm, s') && Keeps(s, s', {p, r})
  {
    hide HeapOk, Primed, Region, NoBinned, Unpinned, Split, HalvedWords, SameBins, Writes, Keeps, LiveAt, LooseSet, SamePayload, SetPinuseBit;
    HalvedReady(gm, s, s', p, r, e);
    PairRegion(gm, s, p, e, Loose);
    HalvedMem(s.mem, s'.mem, p, r, e, s.chunks[p].size, Rd(s.mem, p + HEAD));
    SplitToUsed(gm, s, s', p, r, e, Pair(s, p, e));
    HalvedDone(gm, s, s', p, r, e);
    if e != Next(s, p) {
      KeepsDead(s, s', Pair(s, p, e) + {r}, Next(s, p));
      assert Pair(s, p, e) + {r} - {Next(s, p)} == {p, r};
    } else {
      assert Pair(s, p, e) + {r} == {p, r};
    }
  }

  // ---------- an in-use chunk takes in all of the free chunk behind it ----------

  ghost predicate TookAll(s: Snap, s': Snap, p: int, e: int, k: Kind) {
    && p in s.chunks && s.chunks[p].kind == Used
    && (k == Loose || k == Victim) && Behind(s, p, e, k)
    && SameBins(s, s') && s'.top == s.top && s'.topsize == s.topsize
    && (if k == Victim then s'.dv == 0 && s'.dvsize == 0 else s'.dv == s.dv && s'.dvsize == s.dvsize)
    && s'.mem == SetInuse(s.mem, p, e - p) && s'.chunks == Merged(s.chunks, p, e, Chunk(e - p, Used))
  }

  lemma InuseMem(m: Mem, p: int, e: int, z: int, head: int)
    requires p + MIN_CHUNK_SIZE <= e && head == Rd(m, p + HEAD) && (head == z + 2 || head == z + 3) && z % 16 == 0
    ensures var m' := SetInuse(m, p, e - p);
      && Rd(m', p + HEAD) == e - p + head - z && Rd(m', e + HEAD) == SetPinuseBit(Rd(m, e + HEAD))
      && Writes(m, m', {p + HEAD, e + HEAD})
  {
    Chunks.Parity(z);
  }

  lemma TookReady(gm: int, s: Snap, s': Snap, p: int, e: int, k: Kind)
    requires HeapOk(gm, s) && TookAll(s, s', p, e, k) && e != Next(s, p)
    ensures Primed(gm, s, s', p, e, Pair(s, p, e), false)
  {
    hide HeapOk, Region, NoBinned, Unpinned, Specials, Merged, SameOutside, SetInuse, SameBins;
    PairRegion(gm, s, p, e, k);
    SpecialsOf(gm, s);
    MergedOutside(s.chunks, p, e, Chunk(e - p, Used));
    PairRoles(gm, s, p, e, k);
    VictimIsDv(s, Next(s, p));
    SpecialsIn(s, s', p, e);
  }

  lemma VictimIsDv(s: Snap, n: int)
    requires Specials(s) && n in s.chunks
    ensures s.chunks[n].kind == Victim ==> n == s.dv && s.dvsize != 0
  {
  }

  lemma TookDone(gm: int, s: Snap, s': Snap, p: int, e: int, k: Kind)
    requires HeapOk(gm, s) && TookAll(s, s', p, e, k) && e != Next(s, p)
    ensures p in s'.chunks && s'.chunks[p] == Chunk(e - p, Used)
    ensures LooseSet(s') == LooseSet(s) - {Next(s, p)}
    ensures !LiveAt(s', Next(s, p)) && !LiveAt(s, Next(s, p)) && SamePayload(s.mem, s'.mem, p, s.chunks[p].size)
  {
    hide HeapOk, Merged, SetInuse, Inside, RegionClear, Unpinned, NoBinned, SameBins, SamePayload, Writes;
    PairRegion(gm, s, p, e, k);
    MergedOutside(s.chunks, p, e, Chunk(e - p, Used));
    InuseMem(s.mem, p, e, s.chunks[p].size, Rd(s.mem, p + HEAD));
    PayloadWrites(s.mem, s'.mem, {p + HEAD, e + HEAD}, p, s.chunks[p].size);
    forall x ensures x in LooseSet(s') <==> x in LooseSet(s) - {Next(s, p)} {
    }
  }

  lemma TookStep(gm: int, s: Snap, s': Snap, p: int, e: int, k: Kind)
    requires HeapOk(gm, s) && TookAll(s, s', p, e, k) && e != Next(s, p)
    ensures HeapOk(gm, s') && Keeps(s, s', {p})
  {
    hide HeapOk, Primed, Region, NoBinned, Unpinned, Merged, SetInuse, SameBins, Writes, Keeps, LiveAt, LooseSet, SamePayload, SetPinuseBit;
    TookReady(gm, s, s', p, e, k);
    PairRegion(gm, s, p, e, k);
    InuseMem(s.mem, p, e, s.chunks[p].size, Rd(s.mem, p + HEAD));
    MergedUsed(gm, s, s', p, e, Pair(s, p, e));
    TookDone(gm, s, s', p, e, k);
    KeepsDead(s, s', Pair(s, p, e), Next(s, p));
    assert Pair(s, p, e) - {Next(s, p)} == {p};
  }

  // ---------- an in-use chunk takes in part of dv, or of top ----------

  ghost predicate TookDv(s: Snap, s': Snap, p: int, r: int, e: int) {
    && p in s.chunks && s.chunks[p].kind == Used && Behind(s, p, e, Victim)
    && Next(s, p) < r <= e - MIN_CHUNK_SIZE && r % 16 == 0
    && SameBins(s, s') && s'.top == s.top && s'.topsize == s.topsize && s'.dv == r && s'.dvsize == e - r
    && s'.mem == SetFreeWithPinuse(SetInuse(s.mem, p, r - p), r, e - r, e)
    && s'.chunks == Split(s.chunks, p, r, e, Chunk(r - p, Used), Chunk(e - r, Victim))
  }

  lemma TookDvMem(m: Mem, p: int, r: int, e: int, z: int, head: int, y: int)
    requires p + MIN_CHUNK_SIZE <= r <= e - MIN_CHUNK_SIZE && head == Rd(m, p + HEAD) && (head == z + 2 || head == z + 3)
    requires z % 16 == 0 && y % 16 == 0 && Rd(m, e + HEAD) == y + 2
    ensures var m' := SetFreeWithPinuse(SetInuse(m, p, r - p), r, e - r, e);
      && Rd(m', p + HEAD) == r - p + head - z && Rd(m', r + HEAD) == e - r + 1 && Rd(m', e) == e - r
      && Rd(m', e + HEAD) == y + 2 && Writes(m, m', {p + HEAD, r + HEAD, e, e + HEAD})
  {
    Chunks.Parity(z);
    Chunks.Parity(y);
  }

  lemma TookDvReady(gm: int, s: Snap, s': Snap, p: int, r: int, e: int)
    requires HeapOk(gm, s) && TookDv(s, s', p, r, e) && e != Next(s, p)
    ensures Primed(gm, s, s', p, e, Pair(s, p, e), false)
  {
    hide HeapOk, Region, NoBinned, Unpinned, Specials, Split, SameOutside, SetInuse, SetFreeWithPinuse, SameBins;
    PairRegion(gm, s, p, e, Victim);
    SpecialsOf(gm, s);
    SplitOutside(s.chunks, p, r, e, Chunk(r - p, Used), Chunk(e - r, Victim));
    PairRoles(gm, s, p, e, Victim);
    VictimIsDv(s, Next(s, p));
    SpecialsIn(s, s', p, e);
  }

  lemma TookDvDone(gm: int, s: Snap, s': Snap, p: int, r: int, e: int)
    requires HeapOk(gm, s) && TookDv(s, s', p, r, e) && e != Next(s, p)
    ensures p in s'.chunks && s'.chunks[p] == Chunk(r - p, Used) && LooseSet(s') == LooseSet(s)
    ensures !LiveAt(s', Next(s, p)) && !LiveAt(s, Next(s, p)) && SamePayload(s.mem, s'.mem, p, s.chunks[p].size)
  {
    hide HeapOk, Split, SetInuse, SetFreeWithPinuse, Inside, RegionClear, Unpinned, NoBinned, SameBins, SamePayload, Writes;
    PairRegion(gm, s, p, e, Victim);
    SplitOutside(s.chunks, p, r, e, Chunk(r - p, Used), Chunk(e - r, Victim));
    LooseSize(gm, s, e, s.chunks[e].size);
    TookDvMem(s.mem, p, r, e, s.chunks[p].size, Rd(s.mem, p + HEAD), s.chunks[e].size);
    PayloadWrites(s.mem, s'.mem, {p + HEAD, r + HEAD, e, e + HEAD}, p, s.chunks[p].size);
    forall x ensures x in LooseSet(s') <==> x in LooseSet(s) {
    }
  }

  lemma TookDvStep(gm: int, s: Snap, s': Snap, p: int, r: int, e: int)
    requires HeapOk(gm, s) && TookDv(s, s', p, r, e) && e != Next(s, p)
    ensures HeapOk(gm, s') && Keeps(s, s', {p})
  {
    hide HeapOk, Primed, Region, NoBinned, Unpinned, Split, SetInuse, SetFreeWithPinuse, SameBins, Writes, Keeps, LiveAt,
         LooseSet, SamePayload;
    TookDvReady(gm, s, s', p, r, e);
    PairRegion(gm, s, p, e, Victim);
    LooseSize(gm, s, e, s.chunks[e].size);
    TookDvMem(s.mem, p, r, e, s.chunks[p].size, Rd(s.mem, p + HEAD), s.chunks[e].size);
    SplitToFree(gm, s, s', p, r, e, Pair(s, p, e), Victim);
    TookDvDone(gm, s, s', p, r, e);
    KeepsDead(s, s', Pair(s, p, e), Next(s, p));
    assert Pair(s, p, e) - {Next(s, p)} == {p};
  }

  ghost predicate TookTop(s: Snap, s': Snap, p: int, r: int) {
    && p in s.chunks && s.chunks[p].kind == Used && s.topsize != 0 && Next(s, p) == s.top
    && s.top < r < s.top + s.topsize && r % 16 == 0
    && SameBins(s, s') && s'.dv == s.dv && s'.dvsize == s.dvsize && s'.top == r && s'.topsize == s.top + s.topsize - r
    && s'.mem == SetInuse(s.mem, p, r - p)[r + HEAD := s'.topsize + 1]
    && s'.chunks == Split(s.chunks, p, r, TopEndOf(s), Chunk(r - p, Used), Chunk(s'.topsize, Top))
  }

  lemma TookTopMem(m: Mem, p: int, r: int, z: int, head: int, y: int)
    requires p + MIN_CHUNK_SIZE <= r && head == Rd(m, p + HEAD) && (head == z + 2 || head == z + 3) && z % 16 == 0
    ensures var m' := SetInuse(m, p, r - p)[r + HEAD := y];
      && Rd(m', p + HEAD) == r - p + head - z && Rd(m', r + HEAD) == y && Writes(m, m', {p + HEAD, r + HEAD})
  {
    Chunks.Parity(z);
  }

  lemma UsedTopRegion(gm: int, s: Snap, p: int)
    requires HeapOk(gm, s) && p in s.chunks && s.chunks[p].kind == Used && s.topsize != 0 && Next(s, p) == s.top
    ensures Region(gm, s, p, TopEndOf(s), {p, s.top}, true) && NoBinned(s.chunks, p, TopEndOf(s))
    ensures s.top in s.chunks && s.chunks[s.top] == Chunk(s.topsize, Top) && p < s.top && Sized(p, s.chunks[p])
    ensures s.topsize > 0 && !LiveAt(s, s.top) && s.top % 16 == 0
    ensures Rd(s.mem, p + HEAD) == s.chunks[p].size + (if Unpinned(s.mem, s.chunks, p) then 2 else 3)
  {
    hide HeapOk, Region, NoBinned, Unpinned;
    UsedFacts(gm, s, p);
    TopRegion(gm, s);
    RegionJoin(gm, s, p, s.top, TopEndOf(s), {p}, {s.top}, true);
    assert {p} + {s.top} == {p, s.top};
    StartsNotBinned(gm, s, p, TopEndOf(s), {p, s.top}, true);
  }

  lemma TookTopReady(gm: int, s: Snap, s': Snap, p: int, r: int)
    requires HeapOk(gm, s) && TookTop(s, s', p, r)
    ensures Primed(gm, s, s', p, TopEndOf(s), {p, s.top}, true)
  {
    hide HeapOk, NoBinned, Unpinned, Specials, Split, SameOutside, SetInuse, SameBins, Inside, RegionClear;
    UsedTopRegion(gm, s, p);
    SpecialsOf(gm, s);
    SplitOutside(s.chunks, p, r, TopEndOf(s), Chunk(r - p, Used), Chunk(s'.topsize, Top));
    SpecialsCut(s, s', p, r, TopEndOf(s));
  }

  lemma TookTopDone(gm: int, s: Snap, s': Snap, p: int, r: int)
    requires HeapOk(gm, s) && TookTop(s, s', p, r)
    ensures p in s'.chunks && s'.chunks[p] == Chunk(r - p, Used) && LooseSet(s') == LooseSet(s)
    ensures !LiveAt(s', s.top) && SamePayload(s.mem, s'.mem, p, s.chunks[p].size)
  {
    hide HeapOk, Split, SetInuse, Inside, RegionClear, Unpinned, NoBinned, SameBins, SamePayload, Writes;
    UsedTopRegion(gm, s, p);
    SplitOutside(s.chunks, p, r, TopEndOf(s), Chunk(r - p, Used), Chunk(s'.topsize, Top));
    TookTopMem(s.mem, p, r, s.chunks[p].size, Rd(s.mem, p + HEAD), s'.topsize + 1);
    PayloadWrites(s.mem, s'.mem, {p + HEAD, r + HEAD}, p, s.chunks[p].size);
    forall x ensures x in LooseSet(s') <==> x in LooseSet(s) {
    }
  }

  lemma TookTopStep(gm: int, s: Snap, s': Snap, p: int, r: int)
    requires HeapOk(gm, s) && TookTop(s, s', p, r)
    ensures HeapOk(gm, s') && Keeps(s, s', {p})
  {
    hide HeapOk, Primed, Region, NoBinned, Unpinned, Split, SetInuse, SameBins, Writes, Keeps, LiveAt, LooseSet, SamePayload;
    TookTopReady(gm, s, s', p, r);
    UsedTopRegion(gm, s, p);
    TookTopMem(s.mem, p, r, s.chunks[p].size, Rd(s.mem, p + HEAD), s'.topsize + 1);
    SplitToTop(gm, s, s', p, r, s.top, TopEndOf(s), {p, s.top});
    TookTopDone(gm, s, s', p, r);
    KeepsDead(s, s', {p, s.top}, s.top);
    assert {p, s.top} - {s.top} == {p};
  }

  // ---------- the operation ----------

  function Min(a: int, b: int): int {
    if a < b then a else b
  }

  /**
   * Chunk p has been resized in place: it holds nb bytes, not a minimum chunk too many, the bytes
   * that both sizes have room for are the same, and so is every other live chunk.
   */
  ghost predicate Resized(gm: int, s: Snap, s': Snap, p: int, nb: int) {
    && HeapOk(gm, s') && Settled(s') && Keeps(s, s', {p})
    && p in s.chunks && p in s'.chunks && s'.chunks[p].kind == Used && nb <= s'.chunks[p].size < nb + MIN_CHUNK_SIZE
    && SamePayload(s.mem, s'.mem, p, Min(s.chunks[p].size, s'.chunks[p].size))
  }

  /** The size that p could grow to without moving. */
  ghost function Room(s: Snap, p: int): int {
    var n := Next(s, p);
    (if p in s.chunks then s.chunks[p].size else 0)
      + (if n !in s.chunks then 0
         else if Free(s.chunks[n].kind) then s.chunks[n].size
         else if s.chunks[n].kind == Top then s.chunks[n].size - 16
         else 0)
  }

  lemma SplitOffDone(gm: int, s: Snap, s1: Snap, s2: Snap, p: int, r: int, nb: int)
    requires Keeps(s, s1, {p, r}) && Gone(gm, s1, s2, r) && p != r && !LiveAt(s, r)
    requires p in s1.chunks && s1.chunks[p] == Chunk(nb, Used)
    requires p in s.chunks && SamePayload(s.mem, s1.mem, p, Min(nb, s.chunks[p].size))
    ensures HeapOk(gm, s2) && Settled(s2) && Keeps(s, s2, {p}) && p in s2.chunks && s2.chunks[p] == Chunk(nb, Used)
    ensures SamePayload(s.mem, s2.mem, p, Min(nb, s.chunks[p].size))
  {
    hide HeapOk, Settled, SamePayload;
    assert KeepsAt(s1, s2, p);
    KeepsTrans(s, s1, s2, {p, r}, {r}, {p, r});
    KeepsDead(s, s2, {p, r}, r);
    assert {p, r} - {r} == {p};
    PayloadTrans(s.mem, s1.mem, s2.mem, p, Min(nb, s.chunks[p].size), nb, Min(nb, s.chunks[p].size));
  }

  /** set_inuse on p and on the remainder behind it, and dispose_chunk on the remainder. */
  method SplitOff(M: MallocState, p: int, nb: int, rsize: int, ghost e: int)
    requires HeapOk(M.gm, M.Now()) && p in M.chunks && M.chunks[p].kind == Used && e == p + nb + rsize
    requires e == Next(M.Now(), p) || (Behind(M.Now(), p, e, Loose) && p + nb > Next(M.Now(), p))
    requires LooseSet(M.Now()) == (if e == Next(M.Now(), p) then {} else {Next(M.Now(), p)})
    requires MIN_CHUNK_SIZE <= nb && MIN_CHUNK_SIZE <= rsize && nb % 16 == 0
    modifies M`mem, M`smallmap, M`treemap, M`small, M`trees, M`chunks, M`dv, M`dvsize, M`top, M`topsize
    ensures HeapOk(M.gm, M.Now()) && Settled(M.Now()) && Keeps(old(M.Now()), M.Now(), {p})
    ensures p in M.chunks && M.chunks[p] == Chunk(nb, Used) && SameEnd(old(M.Now()), M.Now())
    ensures SamePayload(old(M.mem), M.mem, p, Min(nb, old(M.chunks)[p].size))
  {
    hide HeapOk, Settled, Keeps, LooseSet, LiveAt, Gone, SetInuse, Split, SamePayload, HalvedWords, Region, NoBinned, Unpinned, Writes;
    ghost var s := M.Now();
    PositiveSize(M.gm, s, p);
    var r := p + nb;
    M.mem := SetInuse(M.mem, p, nb);
    M.mem := SetInuse(M.mem, r, rsize);
    M.chunks := Split(M.chunks, p, r, e, Chunk(nb, Used), Chunk(rsize, Used));
    ghost var s1 := M.Now();
    PairRegion(M.gm, s, p, e, Loose);
    HalvedTags(s.mem, p, r, e);
    assert Halved(s, s1, p, r, e);
    HalvedStep(M.gm, s, s1, p, r, e);
    HalvedDone(M.gm, s, s1, p, r, e);
    NoLooseLeft(s, s1, p, e);
    var how := FreeChunk(M, r, rsize);
    SplitOffDone(M.gm, s, s1, M.Now(), p, r, nb);
  }

  lemma PositiveSize(gm: int, s: Snap, p: int)
    requires HeapOk(gm, s) && p in s.chunks && InUse(s.chunks[p].kind)
    ensures p % 16 == 0 && s.chunks[p].size % 16 == 0 && s.chunks[p].size >= MIN_CHUNK_SIZE && Next(s, p) > p > 0
  {
    hide HeapOk, Region, Unpinned, AfterFree;
    UsedFacts(gm, s, p);
  }

  lemma NoLooseLeft(s: Snap, s1: Snap, p: int, e: int)
    requires LooseSet(s) == (if e == Next(s, p) then {} else {Next(s, p)})
    requires LooseSet(s1) == (if e == Next(s, p) then LooseSet(s) else LooseSet(s) - {Next(s, p)})
    ensures Settled(s1)
  {
    hide LooseSet;
  }

  lemma ResizedIs(gm: int, s: Snap, s': Snap, p: int, nb: int, z: int)
    requires HeapOk(gm, s') && Settled(s') && Keeps(s, s', {p})
    requires p in s.chunks && p in s'.chunks && s'.chunks[p] == Chunk(z, Used) && nb <= z < nb + MIN_CHUNK_SIZE
    requires SamePayload(s.mem, s'.mem, p, Min(s.chunks[p].size, z))
    ensures Resized(gm, s, s', p, nb)
  {
    hide HeapOk, Settled, Keeps, SamePayload;
  }

  lemma ResizedSame(gm: int, s: Snap, p: int, nb: int)
    requires HeapOk(gm, s) && Settled(s) && p in s.chunks && s.chunks[p].kind == Used
    requires nb <= s.chunks[p].size < nb + MIN_CHUNK_SIZE
    ensures Resized(gm, s, s, p, nb)
  {
    hide HeapOk, Settled;
    KeepsSame(s);
  }

  lemma SameSettled(s: Snap, s': Snap)
    requires LooseSet(s') == LooseSet(s)
    ensures Settled(s') <==> Settled(s)
  {
  }

  /** extend into top. */
  method GrowIntoTop(M: MallocState, p: int, nb: int, oldsize: int)
    requires HeapOk(M.gm, M.Now()) && Settled(M.Now()) && p in M.chunks && M.chunks[p] == Chunk(oldsize, Used)
    requires M.topsize != 0 && p + oldsize == M.top && oldsize < nb < oldsize + M.topsize && nb % 16 == 0
    modifies M`mem, M`chunks, M`top, M`topsize
    ensures Resized(M.gm, old(M.Now()), M.Now(), p, nb) && SameEnd(old(M.Now()), M.Now())
  {
    hide HeapOk, Settled, Keeps, LooseSet, LiveAt, SetInuse, Split, SamePayload, Resized;
    ghost var s := M.Now();
    PositiveSize(M.gm, s, p);
    var newsize := oldsize + M.topsize;
    var newtopsize := newsize - nb;
    var newtop := p + nb;
    ghost var e := TopEndOf(s);
    M.mem := SetInuse(M.mem, p, nb);
    M.mem := M.mem[newtop + HEAD := newtopsize + 1];
    M.top := newtop;
    M.topsize := newtopsize;
    M.chunks := Split(M.chunks, p, newtop, e, Chunk(nb, Used), Chunk(newtopsize, Top));
    assert TookTop(s, M.Now(), p, newtop);
    TookTopStep(M.gm, s, M.Now(), p, newtop);
    TookTopDone(M.gm, s, M.Now(), p, newtop);
    SameSettled(s, M.Now());
    ResizedIs(M.gm, s, M.Now(), p, nb, nb);
  }

  /** extend into dv. */
  method GrowIntoDv(M: MallocState, p: int, nb: int, oldsize: int)
    requires HeapOk(M.gm, M.Now()) && Settled(M.Now()) && p in M.chunks && M.chunks[p] == Chunk(oldsize, Used)
    requires M.dvsize != 0 && p + oldsize == M.dv && oldsize < nb <= oldsize + M.dvsize && nb % 16 == 0
    modifies M`mem, M`chunks, M`dv, M`dvsize
    ensures Resized(M.gm, old(M.Now()), M.Now(), p, nb)
  {
    hide HeapOk, Settled, Keeps, LooseSet, LiveAt, SetInuse, SetFree, SetFreeWithPinuse, Split, Merged, SamePayload, Resized;
    ghost var s := M.Now();
    PositiveSize(M.gm, s, p);
    DvFacts(M.gm, s);
    var dvs := M.dvsize;
    var dsize := oldsize + dvs - nb;
    ghost var e := p + oldsize + dvs;
    if dsize >= MIN_CHUNK_SIZE {
      var r := p + nb;
      var n := r + dsize;
      M.mem := SetInuse(M.mem, p, nb);
      M.mem := SetFreeWithPinuse(M.mem, r, dsize, n);
      M.dvsize := dsize;
      M.dv := r;
      M.chunks := Split(M.chunks, p, r, e, Chunk(nb, Used), Chunk(dsize, Victim));
      assert TookDv(s, M.Now(), p, r, e);
      TookDvStep(M.gm, s, M.Now(), p, r, e);
      TookDvDone(M.gm, s, M.Now(), p, r, e);
      SameSettled(s, M.Now());
      ResizedIs(M.gm, s, M.Now(), p, nb, nb);
    } else {
      var newsize := oldsize + dvs;
      M.mem := SetInuse(M.mem, p, newsize);
      M.dvsize := 0;
      M.dv := 0;
      M.chunks := Merged(M.chunks, p, e, Chunk(newsize, Used));
      assert TookAll(s, M.Now(), p, e, Victim);
      TookStep(M.gm, s, M.Now(), p, e, Victim);
      TookDone(M.gm, s, M.Now(), p, e, Victim);
      LooseWithout(s, Next(s, p));
      SameSettled(s, M.Now());
      ResizedIs(M.gm, s, M.Now(), p, nb, newsize);
    }
  }

  lemma ResizedAfter(gm: int, s: Snap, s1: Snap, s2: Snap, p: int, nb: int, z: int)
    requires HeapOk(gm, s) && p in s.chunks && s.chunks[p].kind == Used && Keeps(s, s1, {})
    requires HeapOk(gm, s2) && Settled(s2) && Keeps(s1, s2, {p}) && nb <= z < nb + MIN_CHUNK_SIZE && z >= s.chunks[p].size
    requires p in s2.chunks && s2.chunks[p] == Chunk(z, Used)
    requires SamePayload(s1.mem, s2.mem, p, s.chunks[p].size)
    ensures Resized(gm, s, s2, p, nb)
  {
    hide HeapOk, Settled, SamePayload;
    assert KeepsAt(s, s1, p);
    KeepsTrans(s, s1, s2, {}, {p}, {p});
    PayloadTrans(s.mem, s1.mem, s2.mem, p, s.chunks[p].size, s.chunks[p].size, s.chunks[p].size);
  }

  /** extend into next free chunk. */
  method GrowIntoNext(M: MallocState, p: int, nb: int, oldsize: int, nextsize: int)
    requires HeapOk(M.gm, M.Now()) && Settled(M.Now()) && p in M.chunks && M.chunks[p] == Chunk(oldsize, Used)
    requires p + oldsize in M.chunks && M.chunks[p + oldsize] == Chunk(nextsize, Binned)
    requires oldsize < nb <= oldsize + nextsize && nb % 16 == 0
    modifies M`mem, M`smallmap, M`treemap, M`small, M`trees, M`chunks, M`dv, M`dvsize, M`top, M`topsize
    ensures Resized(M.gm, old(M.Now()), M.Now(), p, nb) && SameEnd(old(M.Now()), M.Now())
  {
    hide HeapOk, Settled, Keeps, LooseSet, LiveAt, SetInuse, Merged, SamePayload, Resized;
    ghost var s := M.Now();
    PositiveSize(M.gm, s, p);
    SettledIs(s);
    var next := p + oldsize;
    ghost var e := next + nextsize;
    var rsize := oldsize + nextsize - nb;
    UnlinkChunk(M, next, nextsize);
    ghost var s1 := M.Now();
    LooseAfter(s, s1, next, nextsize, Loose);
    if rsize < MIN_CHUNK_SIZE {
      var newsize := oldsize + nextsize;
      LooseSize(M.gm, s1, next, nextsize);
      M.mem := SetInuse(M.mem, p, newsize);
      M.chunks := Merged(M.chunks, p, e, Chunk(newsize, Used));
      assert TookAll(s1, M.Now(), p, e, Loose);
      TookStep(M.gm, s1, M.Now(), p, e, Loose);
      TookDone(M.gm, s1, M.Now(), p, e, Loose);
      SettledIs(M.Now());
      ResizedAfter(M.gm, s, s1, M.Now(), p, nb, newsize);
    } else {
      SplitOff(M, p, nb, rsize, e);
      ResizedAfter(M.gm, s, s1, M.Now(), p, nb, nb);
    }
  }

  /** A mapped chunk of that size is kept for nb bytes: it is big enough, but not too big. */
  predicate MapFits(size: int, nb: int, granularity: int) {
    nb >= MIN_LARGE_SIZE && nb + 8 <= size && size - nb <= 2 * granularity
  }

  /** mmap_resize without mremap: the old chunk stays if its size is in the range that MapFits gives. */
  method MmapResize(M: MallocState, p: int, nb: int) returns (r: int)
    requires HeapOk(M.gm, M.Now()) && p in M.chunks && M.chunks[p].kind.Mapped?
    ensures r == (if MapFits(M.chunks[p].size, nb, M.granularity) then p else 0) && p != 0
  {
    hide HeapOk;
    MappedHead(M.gm, M.Now(), p);
    var oldsize := ChunkSize(M.mem, p);
    if IsSmall(nb) {
      return 0;
    }
    if oldsize >= nb + 8 && oldsize - nb <= 2 * M.granularity {
      return p;
    }
    return 0;
  }

  lemma MappedHead(gm: int, s: Snap, p: int)
    requires HeapOk(gm, s) && p in s.chunks
    ensures s.chunks[p].kind.Mapped? ==> ChunkSize(s.mem, p) == s.chunks[p].size && Rd(s.mem, p + HEAD) % 4 == 0
    ensures s.chunks[p].kind == Used ==> ChunkSize(s.mem, p) == s.chunks[p].size && Rd(s.mem, p + HEAD) % 4 != 0
    ensures p > 0
  {
    hide BinsOk, Specials, StateApart, Covers, AfterFree, Unpinned;
    assert TagAt(s.mem, s.chunks, p);
    TagBits(s.chunks[p].size);
    TwoBits(s.chunks[p].size);
  }

  lemma TwoBits(z: int)
    requires z % 16 == 0
    ensures z % 4 == 0 && z % 8 == 0 && (z + 2) % 4 == 2 && (z + 3) % 4 == 3
  {
    var k := z / 16;
    assert z == 8 * (2 * k) && z == 4 * (4 * k);
    Fours(4 * k);
  }

  lemma Fours(k: int)
    ensures 4 * k % 4 == 0 && (4 * k + 2) % 4 == 2 && (4 * k + 3) % 4 == 3
  {
  }

  /**
   * try_realloc_chunk: it succeeds exactly if the chunk has room to grow where it is, and changes
   * nothing at all if not.
   */
  method TryReallocChunk(M: MallocState, p: int, nb: int) returns (r: int)
    requires HeapOk(M.gm, M.Now()) && Settled(M.Now()) && p in M.chunks
    requires M.chunks[p].kind == Used || M.chunks[p].kind.Mapped?
    requires MIN_CHUNK_SIZE <= nb < SIZE_T_MOD && nb % 16 == 0
    modifies M`mem, M`smallmap, M`treemap, M`small, M`trees, M`chunks, M`dv, M`dvsize, M`top, M`topsize
    ensures r == 0 ==> M.Now() == old(M.Now())
    ensures r != 0 ==> r == p && r > 0
    ensures SameEnd(old(M.Now()), M.Now())
    ensures old(M.chunks)[p].kind == Used ==> (r != 0 <==> Room(old(M.Now()), p) >= nb)
    ensures old(M.chunks)[p].kind == Used && r != 0 ==> Resized(M.gm, old(M.Now()), M.Now(), p, nb)
    ensures old(M.chunks)[p].kind.Mapped? ==> M.Now() == old(M.Now()) && (r != 0 <==> MapFits(M.chunks[p].size, nb, M.granularity))
  {
    hide HeapOk, Settled, Keeps, LooseSet, LiveAt, SamePayload, Resized, ChunkSize, Room;
    ghost var s := M.Now();
    MappedHead(M.gm, s, p);
    var oldsize := ChunkSize(M.mem, p);
    var next := p + oldsize;
    r := 0;
    if Rd(M.mem, p + HEAD) % 4 == 0 {
      r := MmapResize(M, p, nb);
      return;
    }
    SettledIs(s);
    NextFacts(M.gm, s, p, p);
    RoomIs(M.gm, s, p);
    if oldsize >= nb {
      var rsize := oldsize - nb;
      ResizedIf(M.gm, s, p, nb);
      if rsize >= MIN_CHUNK_SIZE {
        SplitOff(M, p, nb, rsize, next);
        ResizedIs(M.gm, s, M.Now(), p, nb, nb);
      }
      r := p;
    } else if next == M.top {
      if oldsize + M.topsize > nb {
        GrowIntoTop(M, p, nb, oldsize);
        r := p;
      }
    } else if next == M.dv {
      if oldsize + M.dvsize >= nb {
        GrowIntoDv(M, p, nb, oldsize);
        r := p;
      }
    } else if Rd(M.mem, next + HEAD) / 2 % 2 == 0 {
      var nextsize := ChunkSize(M.mem, next);
      if oldsize + nextsize >= nb {
        GrowIntoNext(M, p, nb, oldsize, nextsize);
        r := p;
      }
    }
  }

  lemma ResizedIf(gm: int, s: Snap, p: int, nb: int)
    requires HeapOk(gm, s) && Settled(s) && p in s.chunks && s.chunks[p].kind == Used
    ensures nb <= s.chunks[p].size < nb + MIN_CHUNK_SIZE ==> Resized(gm, s, s, p, nb)
  {
    hide HeapOk, Settled, Resized;
    if nb <= s.chunks[p].size < nb + MIN_CHUNK_SIZE {
      ResizedSame(gm, s, p, nb);
    }
  }

  /** The room behind a chunk in terms of what the code compares. */
  lemma RoomIs(gm: int, s: Snap, p: int)
    requires HeapOk(gm, s) && Settled(s) && p in s.chunks && s.chunks[p].kind == Used
    ensures var n, z := Next(s, p), s.chunks[p].size;
      && z % 16 == 0 && Room(s, p) >= z
      && (n == s.top ==> s.topsize != 0 && Room(s, p) == z + s.topsize - 16 && s.topsize % 16 == 0)
      && (n != s.top && n == s.dv ==> s.dvsize != 0 && Room(s, p) == z + s.dvsize)
      && (n != s.top && n != s.dv && n in s.chunks ==>
            Room(s, p) == z + (if InUse(s.chunks[n].kind) then 0 else s.chunks[n].size))
  {
    hide HeapOk, Settled, LooseSet, Unpinned, Region;
    SettledIs(s);
    UsedFacts(gm, s, p);
    NextFacts(gm, s, p, p);
    DvFacts(gm, s);
    NoDv(gm, s);
    TopRegionIf(gm, s);
  }
}
