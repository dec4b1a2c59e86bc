/**
 * The invariant of the heap: boundary tags, bins, and one home for every free chunk; with the
 * bin operations as steps that move a chunk between its bin and the loose state.
 */
module Heap {
  import opened Words
  import opened BinIndex
  import opened BinMaps
  import opened Trie
  import opened Rings
  import opened TreeMemory
  import opened Chunks
  import opened HeapState
  import opened TreeBins
  import opened SmallBins
  import opened BestFit

  ghost predicate Clear(gm: int, p: int, c: Chunk) {
    p + Extent(c) <= gm || gm + STATE_SIZE <= p
  }

  /** No chunk overlaps the state record. */
  ghost predicate StateApart(gm: int, cs: ChunkMap) {
    gm > 0 && forall p {:trigger Clear(gm, p, cs[p])} :: p in cs ==> Clear(gm, p, cs[p])
  }

  /** The binned chunks of small, or of large, size. */
  ghost function BinSet(cs: ChunkMap, isSmall: bool): set<int> {
    set p | p in cs && cs[p].kind == Binned && (cs[p].size < MIN_LARGE_SIZE) == isSmall
  }

  ghost predicate InHome(small: seq<seq<int>>, trees: seq<Tree>, p: int, s: int) {
    if s < 0 then false
    else if s < MIN_LARGE_SIZE then s / 8 < |small| && p in small[s / 8]
    else TreeIndex(s) < |trees| && Holds(trees[TreeIndex(s)], p, s)
  }

  /** The list of small bin i holds binned chunks of its size. */
  ghost predicate SmallEntry(cs: ChunkMap, b: seq<int>, i: nat) {
    forall p :: p in b ==> p in cs && cs[p] == Chunk(8 * i, Binned)
  }

  /** The tree of treebin i holds binned chunks of its sizes. */
  ghost predicate TreeEntry(cs: ChunkMap, t: Tree, i: nat) {
    forall p, z: nat {:trigger Holds(t, p, z)} :: Holds(t, p, z) ==>
      p in cs && cs[p] == Chunk(z, Binned) && z >= MIN_LARGE_SIZE && TreeIndex(z) == i
  }

  /** Each bin holds exactly the binned chunks of its sizes. */
  ghost predicate Homes(cs: ChunkMap, small: seq<seq<int>>, trees: seq<Tree>) {
    && |small| == NBINS && |trees| == NBINS
    && (forall i {:trigger SmallEntry(cs, small[i], i)} :: 0 <= i < NBINS ==> SmallEntry(cs, small[i], i))
    && (forall i {:trigger TreeEntry(cs, trees[i], i)} :: 0 <= i < NBINS ==> TreeEntry(cs, trees[i], i))
    && (forall p {:trigger InHome(small, trees, p, cs[p].size)} ::
          p in cs && cs[p].kind == Binned ==> InHome(small, trees, p, cs[p].size))
  }

  /** dv and top name the one chunk of their kind; both are 0 when there is none. */
  ghost predicate Specials(s: Snap) {
    && (s.dvsize == 0 ==> s.dv == 0)
    && (s.dvsize != 0 ==> s.dv in s.chunks && s.chunks[s.dv] == Chunk(s.dvsize, Victim))
    && (s.topsize == 0 ==> s.top == 0)
    && (s.topsize != 0 ==> s.top in s.chunks && s.chunks[s.top] == Chunk(s.topsize, Top))
    && (forall p :: p in s.chunks && s.chunks[p].kind == Victim ==> p == s.dv && s.dvsize != 0)
    && (forall p :: p in s.chunks && s.chunks[p].kind == Top ==> p == s.top && s.topsize != 0)
  }

  ghost predicate BinsOk(gm: int, s: Snap) {
    && SmallsOk(s.mem, gm, s.smallmap, s.small, BinSet(s.chunks, true))
    && TreesOk(s.mem, gm, s.treemap, s.trees, BinSet(s.chunks, false))
    && Homes(s.chunks, s.small, s.trees)
  }

  /** The heap invariant; Loose chunks are allowed, as between two steps of one operation. */
  ghost predicate HeapOk(gm: int, s: Snap) {
    Tags(s.mem, s.chunks) && StateApart(gm, s.chunks) && BinsOk(gm, s) && Specials(s) && Covers(s.chunks, s.segs)
  }

  ghost function LooseSet(s: Snap): set<int> {
    set x | x in s.chunks && s.chunks[x].kind == Loose
  }

  /** No chunk is between homes: the state between two calls. */
  ghost predicate Settled(s: Snap) {
    LooseSet(s) == {}
  }

  // ---------- frames ----------

  /** Only words of the state record and inner words of free chunks differ. */
  ghost predicate FreeOnly(m: Mem, m': Mem, gm: int, cs: ChunkMap) {
    forall w :: Rd(m', w) != Rd(m, w) ==>
      gm <= w < gm + STATE_SIZE || exists p :: p in cs && Free(cs[p].kind) && p + 16 <= w < p + cs[p].size
  }

  lemma FreeOnlyTags(m: Mem, m': Mem, gm: int, cs: ChunkMap, p: int)
    requires Tags(m, cs) && StateApart(gm, cs) && FreeOnly(m, m', gm, cs) && p in cs
    ensures Rd(m', p) == Rd(m, p) && Rd(m', p + HEAD) == Rd(m, p + HEAD)
    ensures cs[p].kind == Top ==> Rd(m', p + cs[p].size + HEAD) == Rd(m, p + cs[p].size + HEAD)
    ensures Live(cs[p].kind) ==> SamePayload(m, m', p, cs[p].size)
  {
    assert TagAt(m, cs, p) && Clear(gm, p, cs[p]);
    forall w | Rd(m', w) != Rd(m, w) && p <= w
      ensures w >= p + Extent(cs[p]) || (w >= p + 16 && Free(cs[p].kind))
    {
      if !(gm <= w < gm + STATE_SIZE) {
        var q :| q in cs && Free(cs[q].kind) && q + 16 <= w < q + cs[q].size;
        assert q < p ==> Before(q, cs[q], p);
        assert p < q ==> Before(p, cs[p], q);
      }
    }
    if InUse(cs[p].kind) {
      PayloadEnd(m, m', gm, cs, p);
    }
  }

  /** The last payload word of an in-use chunk, which is the prev_foot of its neighbour. */
  lemma PayloadEnd(m: Mem, m': Mem, gm: int, cs: ChunkMap, p: int)
    requires Tags(m, cs) && StateApart(gm, cs) && FreeOnly(m, m', gm, cs) && p in cs && InUse(cs[p].kind)
    ensures forall w :: p + cs[p].size <= w < p + cs[p].size + HEAD ==> Rd(m', w) == Rd(m, w)
  {
    assert TagAt(m, cs, p);
    var n := p + cs[p].size;
    assert n in cs && TagAt(m, cs, n) && Clear(gm, n, cs[n]);
    forall w | n <= w < n + HEAD ensures Rd(m', w) == Rd(m, w) {
      if q :| q in cs && Free(cs[q].kind) && q + 16 <= w < q + cs[q].size {
        ChunksApart(m, cs, q, n);
      }
    }
  }

  lemma TagsFrame(m: Mem, m': Mem, gm: int, cs: ChunkMap)
    requires Tags(m, cs) && StateApart(gm, cs) && FreeOnly(m, m', gm, cs)
    ensures Tags(m', cs)
  {
    forall p | p in cs ensures TagAt(m', cs, p) {
      TagFrame(m, m', gm, cs, p);
    }
  }

  lemma TagFrame(m: Mem, m': Mem, gm: int, cs: ChunkMap, p: int)
    requires Tags(m, cs) && StateApart(gm, cs) && FreeOnly(m, m', gm, cs) && p in cs
    ensures TagAt(m', cs, p)
  {
    hide FreeOnly, SamePayload;
    assert TagAt(m, cs, p);
    FreeOnlyTags(m, m', gm, cs, p);
    var n := p + cs[p].size;
    if n in cs {
      FreeOnlyTags(m, m', gm, cs, n);
    }
  }

  /** Which free kind a chunk has does not show in its tags. */
  lemma Rekind(m: Mem, cs: ChunkMap, p: int, k: Kind)
    requires Tags(m, cs) && p in cs && Free(cs[p].kind) && Free(k)
    ensures Tags(m, cs[p := Chunk(cs[p].size, k)])
  {
    hide TagAt;
    var cs' := cs[p := Chunk(cs[p].size, k)];
    forall x | x in cs' ensures TagAt(m, cs', x) {
      RekindAt(m, cs, p, k, x);
    }
    forall x, y | x in cs' && y in cs' && x < y ensures Before(x, cs'[x], y) {
      assert Before(x, cs[x], y);
    }
  }

  lemma RekindAt(m: Mem, cs: ChunkMap, p: int, k: Kind, x: int)
    requires Tags(m, cs) && p in cs && Free(cs[p].kind) && Free(k) && x in cs
    ensures TagAt(m, cs[p := Chunk(cs[p].size, k)], x)
  {
    var cs' := cs[p := Chunk(cs[p].size, k)];
    assert TagAt(m, cs, x);
    assert forall n :: Unpinned(m, cs, n) <==> Unpinned(m, cs', n);
    assert AfterFree(m, cs, x) ==> AfterFree(m, cs', x);
    hide Tags, Unpinned, AfterFree;
  }

  lemma TreesFrame(m: Mem, m': Mem, gm: int, map_: nat, trees: seq<Tree>, big: set<int>)
    requires TreesOk(m, gm, map_, trees, big) && SameOn(m, m', big)
    requires forall w :: gm + TREEBINS_AT <= w < gm + STATE_SIZE ==> Rd(m', w) == Rd(m, w)
    ensures TreesOk(m', gm, map_, trees, big)
  {
    forall i | 0 <= i < NBINS ensures TreeBin(m', gm, map_, trees[i], i) && Addrs(trees[i]) <= big {
      assert TreeBin(m, gm, map_, trees[i], i) && Addrs(trees[i]) <= big;
      RepFrame(m, m', trees[i], TreeBinAt(gm, i));
    }
  }

  lemma SmallsFrame(m: Mem, m': Mem, gm: int, map_: nat, small: seq<seq<int>>, tiny: set<int>)
    requires SmallsOk(m, gm, map_, small, tiny)
    requires forall p :: p in tiny ==> Rd(m', p + FD) == Rd(m, p + FD) && Rd(m', p + BK) == Rd(m, p + BK)
    requires forall w :: gm + SMALLBINS_AT <= w < gm + TREEBINS_AT ==> Rd(m', w) == Rd(m, w)
    ensures SmallsOk(m', gm, map_, small, tiny)
  {
    forall i | 0 <= i < NBINS ensures SmallBin(m', gm, map_, small[i], i) && Members(small[i]) <= tiny {
      assert SmallBin(m, gm, map_, small[i], i) && Members(small[i]) <= tiny;
      forall p | p in small[i] || p == SmallBinAt(gm, i) ensures SameLinks(m, m', p) {
        if p in small[i] { assert p in Members(small[i]) && p in tiny; }
      }
      SmallBinFrame(m, m', gm, map_, map_, small[i], i);
    }
  }

  /** The bins may be seen as lying in any set of chunks that holds theirs and is well placed. */
  lemma SmallsAmong(m: Mem, gm: int, map_: nat, small: seq<seq<int>>, tiny: set<int>, tiny': set<int>)
    requires SmallsOk(m, gm, map_, small, tiny) && ApartFromState(gm, tiny')
    requires forall i :: 0 <= i < NBINS ==> Members(small[i]) <= tiny'
    ensures SmallsOk(m, gm, map_, small, tiny')
  {
    forall i | 0 <= i < NBINS ensures SmallBin(m, gm, map_, small[i], i) {
      assert SmallBin(m, gm, map_, small[i], i) && Members(small[i]) <= tiny;
    }
  }

  lemma TreesAmong(m: Mem, gm: int, map_: nat, trees: seq<Tree>, big: set<int>, big': set<int>)
    requires TreesOk(m, gm, map_, trees, big) && Outside(gm, big')
    requires forall i :: 0 <= i < NBINS ==> Addrs(trees[i]) <= big'
    ensures TreesOk(m, gm, map_, trees, big')
  {
    forall i | 0 <= i < NBINS ensures TreeBin(m, gm, map_, trees[i], i) {
      assert TreeBin(m, gm, map_, trees[i], i) && Addrs(trees[i]) <= big;
    }
  }

  /** Free chunks are placed as the bins need it. */
  lemma FreePlaced(m: Mem, gm: int, cs: ChunkMap, a: set<int>)
    requires Tags(m, cs) && StateApart(gm, cs)
    requires forall p :: p in a ==> p in cs && Free(cs[p].kind)
    ensures ApartFromState(gm, a)
    ensures (forall p :: p in a ==> cs[p].size >= MIN_LARGE_SIZE) ==> Outside(gm, a)
  {
    forall p | p in a ensures p > 0 && p % 16 == 0 && cs[p].size >= 32 && Clear(gm, p, cs[p]) {
      assert TagAt(m, cs, p) && Clear(gm, p, cs[p]);
    }
    forall p, q | p in a && q in a && p < q ensures p + cs[p].size <= q {
      assert Before(p, cs[p], q);
    }
  }

  // ---------- moving a chunk between its bin and the loose state ----------

  lemma AddrsHolds(t: Tree, p: int) returns (z: nat)
    requires p in Addrs(t)
    ensures Holds(t, p, z)
  {
    if p in t.ring {
      z := t.size;
    } else if p in Addrs(t.left) {
      z := AddrsHolds(t.left, p);
    } else {
      z := AddrsHolds(t.right, p);
    }
  }

  lemma TreeMembers(cs: ChunkMap, small: seq<seq<int>>, trees: seq<Tree>, i: nat)
    requires Homes(cs, small, trees) && i < NBINS
    ensures Addrs(trees[i]) <= BinSet(cs, false)
    ensures forall p :: p in Addrs(trees[i]) ==>
      p in cs && cs[p].kind == Binned && cs[p].size >= MIN_LARGE_SIZE && TreeIndex(cs[p].size) == i
      && Holds(trees[i], p, cs[p].size)
  {
    forall p | p in Addrs(trees[i])
      ensures p in cs && cs[p].kind == Binned && cs[p].size >= MIN_LARGE_SIZE && TreeIndex(cs[p].size) == i
        && Holds(trees[i], p, cs[p].size)
    {
      var z := AddrsHolds(trees[i], p);
      assert TreeEntry(cs, trees[i], i);
    }
  }

  lemma SmallMembers(cs: ChunkMap, small: seq<seq<int>>, trees: seq<Tree>, i: nat)
    requires Homes(cs, small, trees) && i < NBINS
    ensures Members(small[i]) <= BinSet(cs, true)
    ensures forall p :: p in small[i] ==> p in cs && cs[p] == Chunk(8 * i, Binned)
  {
    assert SmallEntry(cs, small[i], i);
    forall p | p in Members(small[i]) ensures p in BinSet(cs, true) {
      assert p in small[i] && cs[p] == Chunk(8 * i, Binned);
    }
  }

  lemma OnlyIsFree(m: Mem, m': Mem, gm: int, cs: ChunkMap, a: set<int>, cell: int)
    requires Only(m, m', a, cell) && gm <= cell < gm + STATE_SIZE
    requires forall p :: p in a ==> p in cs && Free(cs[p].kind) && cs[p].size >= MIN_LARGE_SIZE
    ensures FreeOnly(m, m', gm, cs)
  {
    forall w | Rd(m', w) != Rd(m, w) && w != cell
      ensures exists p :: p in cs && Free(cs[p].kind) && p + 16 <= w < p + cs[p].size
    {
      var p :| p in a && p + FD <= w < p + 64;
      assert p in cs;
    }
  }

  lemma SmallOnlyIsFree(m: Mem, m': Mem, gm: int, cs: ChunkMap, a: set<int>, i: nat)
    requires SmallOnly(m, m', gm, i, a) && i < NBINS && Tags(m, cs)
    requires forall p :: p in a ==> p in cs && Free(cs[p].kind)
    ensures FreeOnly(m, m', gm, cs)
  {
    forall w | Rd(m', w) != Rd(m, w)
      ensures gm <= w < gm + STATE_SIZE || exists p :: p in cs && Free(cs[p].kind) && p + 16 <= w < p + cs[p].size
    {
      if !(SmallBinAt(gm, i) + FD <= w < SmallBinAt(gm, i) + 32) {
        var p :| p in a && p + FD <= w < p + 32;
        assert TagAt(m, cs, p);
      }
    }
  }

  lemma AwayFromState(gm: int, cs: ChunkMap, p: int)
    requires StateApart(gm, cs) && p in cs
    ensures p + Extent(cs[p]) <= gm || gm + STATE_SIZE <= p
  {
    assert Clear(gm, p, cs[p]);
  }

  /** Changes to treebins leave the small bins alone. */
  lemma SmallsKept(m: Mem, m': Mem, gm: int, cs: ChunkMap, map_: nat, small: seq<seq<int>>, a: set<int>, cell: int)
    requires Tags(m, cs) && StateApart(gm, cs) && SmallsOk(m, gm, map_, small, BinSet(cs, true))
    requires Only(m, m', a, cell) && gm + TREEBINS_AT <= cell < gm + STATE_SIZE
    requires forall p :: p in a ==> p in cs && Free(cs[p].kind) && cs[p].size >= MIN_LARGE_SIZE
    ensures SmallsOk(m', gm, map_, small, BinSet(cs, true))
  {
    var tiny := BinSet(cs, true);
    forall p, w | p in tiny && p + FD <= w < p + 32 ensures Rd(m', w) == Rd(m, w) {
      assert TagAt(m, cs, p) && Clear(gm, p, cs[p]);
      if q :| q in a && q + FD <= w < q + 64 {
        ChunksApart(m, cs, p, q);
      }
    }
    forall w | gm + SMALLBINS_AT <= w < gm + TREEBINS_AT ensures Rd(m', w) == Rd(m, w) {
      if q :| q in a && q + FD <= w < q + 64 {
        AwayFromState(gm, cs, q);
      }
    }
    SmallsFrame(m, m', gm, map_, small, tiny);
  }

  /** Changes to a small bin leave the treebins alone. */
  lemma TreesKept(m: Mem, m': Mem, gm: int, cs: ChunkMap, map_: nat, trees: seq<Tree>, a: set<int>, i: nat)
    requires Tags(m, cs) && StateApart(gm, cs) && TreesOk(m, gm, map_, trees, BinSet(cs, false))
    requires SmallOnly(m, m', gm, i, a) && i < NBINS
    requires forall p :: p in a ==> p in cs && Free(cs[p].kind) && cs[p].size < MIN_LARGE_SIZE
    ensures TreesOk(m', gm, map_, trees, BinSet(cs, false))
  {
    var big := BinSet(cs, false);
    forall p, w | p in big && p + HEAD <= w < p + 64 ensures Rd(m', w) == Rd(m, w) {
      assert TagAt(m, cs, p) && Clear(gm, p, cs[p]);
      if q :| q in a && q + FD <= w < q + 32 {
        ChunksApart(m, cs, p, q);
      }
    }
    assert SameOn(m, m', big);
    forall w | gm + TREEBINS_AT <= w < gm + STATE_SIZE ensures Rd(m', w) == Rd(m, w) {
      if q :| q in a && q + FD <= w < q + 32 {
        ChunksApart(m, cs, q, q);
        AwayFromState(gm, cs, q);
      }
    }
    TreesFrame(m, m', gm, map_, trees, big);
  }

  // ---------- a large chunk leaves its treebin ----------

  lemma HomesWithoutLarge(cs: ChunkMap, small: seq<seq<int>>, trees: seq<Tree>, p: int, z: nat)
    requires Homes(cs, small, trees) && p in cs && cs[p] == Chunk(z, Binned) && z >= MIN_LARGE_SIZE
    requires forall i :: 0 <= i < NBINS ==> Disjoint(trees[i])
    ensures var i := TreeIndex(z);
      Holds(trees[i], p, z) && p in Addrs(trees[i])
      && Homes(cs[p := Chunk(z, Loose)], small, trees[i := Remove(trees[i], p)])
  {
    var i := TreeIndex(z);
    assert InHome(small, trees, p, cs[p].size);
    HoldsSize(trees[i], p, z);
    forall j | 0 <= j < NBINS ensures p !in small[j] { assert SmallEntry(cs, small[j], j); }
    var cs', trees' := cs[p := Chunk(z, Loose)], trees[i := Remove(trees[i], p)];
    forall j | 0 <= j < NBINS ensures SmallEntry(cs', small[j], j) {
      OtherSmall(cs, small, trees, p, Chunk(z, Loose), j);
    }
    forall j | 0 <= j < NBINS ensures TreeEntry(cs', trees'[j], j) {
      WithoutLargeEntry(cs, small, trees, p, z, j);
    }
    forall q | q in cs' && cs'[q].kind == Binned ensures InHome(small, trees', q, cs'[q].size) {
      WithoutLargeHome(cs, small, trees, p, z, q);
    }
    hide TreeIndex, Remove, Disjoint, InHome, Addrs, SmallEntry, TreeEntry;
  }

  /** A small bin does not notice a change to a chunk that is not small and binned. */
  lemma OtherSmall(cs: ChunkMap, small: seq<seq<int>>, trees: seq<Tree>, p: int, c: Chunk, j: nat)
    requires Homes(cs, small, trees) && p in cs && j < NBINS && p !in small[j]
    ensures SmallEntry(cs[p := c], small[j], j)
  {
    assert SmallEntry(cs, small[j], j);
  }

  lemma OtherTree(cs: ChunkMap, small: seq<seq<int>>, trees: seq<Tree>, p: int, c: Chunk, j: nat)
    requires Homes(cs, small, trees) && p in cs && j < NBINS && p !in Addrs(trees[j])
    ensures TreeEntry(cs[p := c], trees[j], j)
  {
    hide TreeIndex;
    assert TreeEntry(cs, trees[j], j);
    forall q, y: nat | Holds(trees[j], q, y) ensures q != p { HoldsSize(trees[j], q, y); }
  }

  lemma WithoutLargeEntry(cs: ChunkMap, small: seq<seq<int>>, trees: seq<Tree>, p: int, z: nat, j: nat)
    requires Homes(cs, small, trees) && p in cs && cs[p] == Chunk(z, Binned) && j < NBINS
    requires Disjoint(trees[TreeIndex(z)]) && p in Addrs(trees[TreeIndex(z)])
    ensures TreeEntry(cs[p := Chunk(z, Loose)], trees[TreeIndex(z) := Remove(trees[TreeIndex(z)], p)][j], j)
  {
    hide TreeIndex, Remove, Disjoint, InHome, Addrs;
    assert TreeEntry(cs, trees[j], j);
    var u := if j == TreeIndex(z) then Remove(trees[j], p) else trees[j];
    forall q, y: nat | Holds(u, q, y) ensures q != p && Holds(trees[j], q, y) {
      if j == TreeIndex(z) { RemoveHolds(trees[j], p, q, y); }
    }
  }

  lemma WithoutLargeHome(cs: ChunkMap, small: seq<seq<int>>, trees: seq<Tree>, p: int, z: nat, q: int)
    requires Homes(cs, small, trees) && p in cs && cs[p] == Chunk(z, Binned)
    requires Disjoint(trees[TreeIndex(z)]) && p in Addrs(trees[TreeIndex(z)])
    requires q in cs && q != p && cs[q].kind == Binned
    ensures InHome(small, trees[TreeIndex(z) := Remove(trees[TreeIndex(z)], p)], q, cs[q].size)
  {
    hide TreeIndex, Remove, Disjoint, Addrs;
    assert InHome(small, trees, q, cs[q].size);
    if cs[q].size >= MIN_LARGE_SIZE && TreeIndex(cs[q].size) == TreeIndex(z) {
      RemoveHolds(trees[TreeIndex(z)], p, q, cs[q].size);
    }
  }

  ghost predicate LargeUnlinked(gm: int, s: Snap, p: int, z: nat, s': Snap) {
    var i := TreeIndex(z);
    && i < |s.trees| && p in Addrs(s.trees[i])
    && s' == s.(mem := s'.mem, treemap := s'.treemap, trees := s.trees[i := Remove(s.trees[i], p)],
                chunks := s.chunks[p := Chunk(z, Loose)])
    && TreesOk(s'.mem, gm, s'.treemap, s'.trees, BinSet(s.chunks, false))
    && Only(s.mem, s'.mem, Addrs(s.trees[i]), TreeBinAt(gm, i))
  }

  lemma TreesDisjoint(m: Mem, gm: int, map_: nat, trees: seq<Tree>, big: set<int>)
    requires TreesOk(m, gm, map_, trees, big)
    ensures |trees| == NBINS && forall i :: 0 <= i < NBINS ==> Disjoint(trees[i])
  {
    forall i | 0 <= i < NBINS ensures Disjoint(trees[i]) {
      assert TreeBin(m, gm, map_, trees[i], i);
    }
  }

  lemma StateApartRekind(gm: int, cs: ChunkMap, p: int, k: Kind)
    requires StateApart(gm, cs) && p in cs && Free(cs[p].kind) && Free(k)
    ensures StateApart(gm, cs[p := Chunk(cs[p].size, k)])
  {
    var cs' := cs[p := Chunk(cs[p].size, k)];
    forall x | x in cs' ensures Clear(gm, x, cs'[x]) {
      assert Clear(gm, x, cs[x]);
    }
  }

  lemma UnlinkLargeHeap(gm: int, s: Snap, p: int, z: nat, s': Snap)
    requires HeapOk(gm, s) && p in s.chunks && s.chunks[p] == Chunk(z, Binned) && z >= MIN_LARGE_SIZE
    requires LargeUnlinked(gm, s, p, z, s')
    ensures HeapOk(gm, s') && FreeOnly(s.mem, s'.mem, gm, s.chunks)
  {
    hide TreeIndex, Tags, TreesOk, SmallsOk, Only, FreeOnly, StateApart, Covers;
    var i, cs, cs' := TreeIndex(z), s.chunks, s'.chunks;
    TreesDisjoint(s.mem, gm, s.treemap, s.trees, BinSet(cs, false));
    HomesWithoutLarge(cs, s.small, s.trees, p, z);
    TreeMembers(cs, s.small, s.trees, i);
    OnlyIsFree(s.mem, s'.mem, gm, cs, Addrs(s.trees[i]), TreeBinAt(gm, i));
    TagsFrame(s.mem, s'.mem, gm, cs);
    Rekind(s'.mem, cs, p, Loose);
    RekindCovers(cs, s.segs, p, Loose);
    StateApartRekind(gm, cs, p, Loose);
    SmallsKept(s.mem, s'.mem, gm, cs, s.smallmap, s.small, Addrs(s.trees[i]), TreeBinAt(gm, i));
    assert BinSet(cs', true) == BinSet(cs, true);
    RebaseTrees(s'.mem, gm, s'.treemap, s', BinSet(cs, false));
    SpecialsRekind(s, p, Loose, s');
  }

  /** The treebins of a heap lie in its binned chunks. */
  lemma RebaseTrees(m: Mem, gm: int, map_: nat, s: Snap, big: set<int>)
    requires TreesOk(m, gm, map_, s.trees, big) && Homes(s.chunks, s.small, s.trees)
    requires Tags(m, s.chunks) && StateApart(gm, s.chunks)
    ensures TreesOk(m, gm, map_, s.trees, BinSet(s.chunks, false))
  {
    FreePlaced(m, gm, s.chunks, BinSet(s.chunks, false));
    forall i | 0 <= i < NBINS ensures Addrs(s.trees[i]) <= BinSet(s.chunks, false) {
      TreeMembers(s.chunks, s.small, s.trees, i);
    }
    TreesAmong(m, gm, map_, s.trees, big, BinSet(s.chunks, false));
  }

  lemma RebaseSmalls(m: Mem, gm: int, map_: nat, s: Snap, tiny: set<int>)
    requires SmallsOk(m, gm, map_, s.small, tiny) && Homes(s.chunks, s.small, s.trees)
    requires Tags(m, s.chunks) && StateApart(gm, s.chunks)
    ensures SmallsOk(m, gm, map_, s.small, BinSet(s.chunks, true))
  {
    FreePlaced(m, gm, s.chunks, BinSet(s.chunks, true));
    forall i | 0 <= i < NBINS ensures Members(s.small[i]) <= BinSet(s.chunks, true) {
      SmallMembers(s.chunks, s.small, s.trees, i);
    }
    SmallsAmong(m, gm, map_, s.small, tiny, BinSet(s.chunks, true));
  }

  lemma SpecialsRekind(s: Snap, p: int, k: Kind, s': Snap)
    requires Specials(s) && p in s.chunks && k != Victim && k != Top
    requires s.chunks[p].kind == Binned || s.chunks[p].kind == Loose
    requires s'.chunks == s.chunks[p := Chunk(s.chunks[p].size, k)]
    requires s'.dv == s.dv && s'.dvsize == s.dvsize && s'.top == s.top && s'.topsize == s.topsize
    ensures Specials(s')
  {
  }

  // ---------- a large chunk enters its treebin ----------

  lemma LooseNotHome(cs: ChunkMap, small: seq<seq<int>>, trees: seq<Tree>, p: int)
    requires Homes(cs, small, trees) && p in cs && cs[p].kind != Binned
    ensures forall i :: 0 <= i < NBINS ==> p !in Addrs(trees[i]) && p !in small[i]
  {
    forall i | 0 <= i < NBINS ensures p !in Addrs(trees[i]) && p !in small[i] {
      TreeMembers(cs, small, trees, i);
      SmallMembers(cs, small, trees, i);
    }
  }

  lemma HomesWithLarge(cs: ChunkMap, small: seq<seq<int>>, trees: seq<Tree>, p: int, z: nat)
    requires Homes(cs, small, trees) && p in cs && cs[p] == Chunk(z, Loose) && MIN_LARGE_SIZE <= z < ADDRESS_LIMIT
    requires forall i :: 0 <= i < NBINS ==> Shape(trees[i], BinLow(i), BinBits(i))
    ensures var i := TreeIndex(z);
      Homes(cs[p := Chunk(z, Binned)], small, trees[i := Insert(trees[i], z, p, BinLow(i), BinBits(i))])
  {
    hide TreeIndex, Insert, Shape, BinLow, BinBits, InHome, SmallEntry, TreeEntry, Addrs;
    var i := TreeIndex(z);
    BinCovers(z);
    var cs', trees' := cs[p := Chunk(z, Binned)], trees[i := Insert(trees[i], z, p, BinLow(i), BinBits(i))];
    LooseNotHome(cs, small, trees, p);
    forall j | 0 <= j < NBINS ensures SmallEntry(cs', small[j], j) {
      OtherSmall(cs, small, trees, p, Chunk(z, Binned), j);
    }
    forall j | 0 <= j < NBINS ensures TreeEntry(cs', trees'[j], j) {
      WithLargeEntry(cs, small, trees, p, z, j);
    }
    forall q | q in cs' && cs'[q].kind == Binned ensures InHome(small, trees', q, cs'[q].size) {
      WithLargeHome(cs, small, trees, p, z, q);
    }
  }

  lemma WithLargeEntry(cs: ChunkMap, small: seq<seq<int>>, trees: seq<Tree>, p: int, z: nat, j: nat)
    requires Homes(cs, small, trees) && p in cs && MIN_LARGE_SIZE <= z < ADDRESS_LIMIT && j < NBINS
    requires var i := TreeIndex(z); Shape(trees[i], BinLow(i), BinBits(i))
    requires forall i :: 0 <= i < NBINS ==> p !in Addrs(trees[i])
    ensures var i := TreeIndex(z);
      TreeEntry(cs[p := Chunk(z, Binned)], trees[i := Insert(trees[i], z, p, BinLow(i), BinBits(i))][j], j)
  {
    hide TreeIndex, Insert, Shape, BinLow, BinBits, Addrs;
    var i := TreeIndex(z);
    BinCovers(z);
    OtherTree(cs, small, trees, p, Chunk(z, Binned), j);
    if j == i {
      forall q, y: nat | Holds(Insert(trees[i], z, p, BinLow(i), BinBits(i)), q, y)
        ensures Holds(trees[i], q, y) || (q == p && y == z)
      {
        InsertHolds(trees[i], z, p, BinLow(i), BinBits(i), q, y);
      }
    }
  }

  lemma WithLargeHome(cs: ChunkMap, small: seq<seq<int>>, trees: seq<Tree>, p: int, z: nat, q: int)
    requires Homes(cs, small, trees) && p in cs && MIN_LARGE_SIZE <= z < ADDRESS_LIMIT
    requires var i := TreeIndex(z); Shape(trees[i], BinLow(i), BinBits(i))
    requires q in cs && (q == p ==> cs[p].size == z) && (q != p ==> cs[q].kind == Binned)
    ensures var i := TreeIndex(z);
      InHome(small, trees[i := Insert(trees[i], z, p, BinLow(i), BinBits(i))], q, cs[q].size)
  {
    hide TreeIndex, Insert, Shape, BinLow, BinBits;
    var i := TreeIndex(z);
    BinCovers(z);
    if q == p {
      InsertHolds(trees[i], z, p, BinLow(i), BinBits(i), p, z);
    } else {
      assert InHome(small, trees, q, cs[q].size);
      if cs[q].size >= MIN_LARGE_SIZE && TreeIndex(cs[q].size) == i {
        InsertHolds(trees[i], z, p, BinLow(i), BinBits(i), q, cs[q].size);
      }
    }
  }

  lemma TreesShape(m: Mem, gm: int, map_: nat, trees: seq<Tree>, big: set<int>)
    requires TreesOk(m, gm, map_, trees, big)
    ensures |trees| == NBINS && forall i :: 0 <= i < NBINS ==> Shape(trees[i], BinLow(i), BinBits(i))
  {
    forall i | 0 <= i < NBINS ensures Shape(trees[i], BinLow(i), BinBits(i)) {
      assert TreeBin(m, gm, map_, trees[i], i);
    }
  }

  ghost predicate LargeInserted(gm: int, s: Snap, p: int, z: nat, s': Snap) {
    var i := TreeIndex(z);
    && i < |s.trees|
    && s' == s.(mem := s'.mem, treemap := s'.treemap,
                trees := s.trees[i := Insert(s.trees[i], z, p, BinLow(i), BinBits(i))],
                chunks := s.chunks[p := Chunk(z, Binned)])
    && TreesOk(s'.mem, gm, s'.treemap, s'.trees, BinSet(s.chunks, false) + {p})
    && Only(s.mem, s'.mem, Addrs(s.trees[i]) + {p}, TreeBinAt(gm, i))
  }

  lemma InsertLargeHeap(gm: int, s: Snap, p: int, z: nat, s': Snap)
    requires HeapOk(gm, s) && p in s.chunks && s.chunks[p] == Chunk(z, Loose) && MIN_LARGE_SIZE <= z < ADDRESS_LIMIT
    requires LargeInserted(gm, s, p, z, s')
    ensures HeapOk(gm, s') && FreeOnly(s.mem, s'.mem, gm, s.chunks)
  {
    hide TreeIndex, Tags, TreesOk, SmallsOk, Only, FreeOnly, StateApart, BinLow, BinBits, Insert, Covers;
    var i, cs, cs' := TreeIndex(z), s.chunks, s'.chunks;
    var a := Addrs(s.trees[i]) + {p};
    TreesShape(s.mem, gm, s.treemap, s.trees, BinSet(cs, false));
    HomesWithLarge(cs, s.small, s.trees, p, z);
    TreeMembers(cs, s.small, s.trees, i);
    OnlyIsFree(s.mem, s'.mem, gm, cs, a, TreeBinAt(gm, i));
    TagsFrame(s.mem, s'.mem, gm, cs);
    Rekind(s'.mem, cs, p, Binned);
    RekindCovers(cs, s.segs, p, Binned);
    StateApartRekind(gm, cs, p, Binned);
    SmallsKept(s.mem, s'.mem, gm, cs, s.smallmap, s.small, a, TreeBinAt(gm, i));
    assert BinSet(cs', true) == BinSet(cs, true);
    RebaseTrees(s'.mem, gm, s'.treemap, s', BinSet(cs, false) + {p});
    SpecialsRekind(s, p, Binned, s');
  }

  /** What insert_large_chunk asks for, before the chunk is in a bin. */
  lemma ReadyToInsert(gm: int, s: Snap, p: int, z: nat)
    requires HeapOk(gm, s) && p in s.chunks && s.chunks[p] == Chunk(z, Loose) && z >= MIN_LARGE_SIZE
    ensures z < ADDRESS_LIMIT
    ensures TreesOk(s.mem, gm, s.treemap, s.trees, BinSet(s.chunks, false) + {p})
    ensures TreeBins.Loose(s.mem, s.trees, BinSet(s.chunks, false) + {p}, p, z)
  {
    hide TreesOk, SmallsOk;
    var big := BinSet(s.chunks, false);
    LooseNotHome(s.chunks, s.small, s.trees, p);
    assert TagAt(s.mem, s.chunks, p);
    FreePlaced(s.mem, gm, s.chunks, big + {p});
    forall i | 0 <= i < NBINS ensures Addrs(s.trees[i]) <= big + {p} {
      TreeMembers(s.chunks, s.small, s.trees, i);
    }
    TreesAmong(s.mem, gm, s.treemap, s.trees, big, big + {p});
  }

  // ---------- small chunks ----------

  lemma HomesWithoutSmall(cs: ChunkMap, small: seq<seq<int>>, trees: seq<Tree>, p: int, z: nat)
    requires Homes(cs, small, trees) && p in cs && cs[p] == Chunk(z, Binned) && z < MIN_LARGE_SIZE
    requires forall i :: 0 <= i < NBINS ==> NoDup(small[i])
    ensures var i := SmallIndex(z);
      i < NBINS && p in small[i] && Homes(cs[p := Chunk(z, Loose)], small[i := Without(small[i], p)], trees)
  {
    hide TreeIndex, Without, SmallEntry, TreeEntry, Holds;
    var i := SmallIndex(z);
    assert InHome(small, trees, p, cs[p].size);
    var cs', small' := cs[p := Chunk(z, Loose)], small[i := Without(small[i], p)];
    SmallEntryWithout(cs, small, trees, p, z);
    forall j | 0 <= j < NBINS ensures TreeEntry(cs', trees[j], j) {
      TreeMembers(cs, small, trees, j);
      OtherTree(cs, small, trees, p, Chunk(z, Loose), j);
    }
    forall q | q in cs' && cs'[q].kind == Binned ensures InHome(small', trees, q, cs'[q].size) {
      assert InHome(small, trees, q, cs[q].size);
      WithoutKeeps(small[i], p, q);
    }
  }

  lemma WithoutKeeps(b: seq<int>, p: int, q: int)
    requires NoDup(b) && p in b && q != p
    ensures q in Without(b, p) <==> q in b
  {
    WithoutMembers(b, p);
    assert q in Without(b, p) <==> q in Members(Without(b, p));
  }

  lemma SmallEntryWithout(cs: ChunkMap, small: seq<seq<int>>, trees: seq<Tree>, p: int, z: nat)
    requires Homes(cs, small, trees) && p in cs && cs[p] == Chunk(z, Binned) && z < MIN_LARGE_SIZE
    requires p in small[SmallIndex(z)] && NoDup(small[SmallIndex(z)])
    ensures var small' := small[SmallIndex(z) := Without(small[SmallIndex(z)], p)];
      forall j {:trigger SmallEntry(cs[p := Chunk(z, Loose)], small'[j], j)} :: 0 <= j < NBINS ==>
        SmallEntry(cs[p := Chunk(z, Loose)], small'[j], j)
  {
    hide Without;
    var i := SmallIndex(z);
    var small' := small[i := Without(small[i], p)];
    forall j | 0 <= j < NBINS ensures SmallEntry(cs[p := Chunk(z, Loose)], small'[j], j) {
      assert SmallEntry(cs, small[j], j) && SmallEntry(cs, small[i], i);
      WithoutMembers(small[i], p);
      forall q | q in small'[j] ensures q in small[j] && q != p {
        assert q in Members(small'[j]);
      }
    }
  }

  lemma HomesWithSmall(cs: ChunkMap, small: seq<seq<int>>, trees: seq<Tree>, p: int, z: nat)
    requires Homes(cs, small, trees) && p in cs && cs[p] == Chunk(z, Loose) && z < MIN_LARGE_SIZE && z % 16 == 0
    ensures var i := SmallIndex(z); i < NBINS && Homes(cs[p := Chunk(z, Binned)], small[i := [p] + small[i]], trees)
  {
    var i := SmallIndex(z);
    var cs', small' := cs[p := Chunk(z, Binned)], small[i := [p] + small[i]];
    LooseNotHome(cs, small, trees, p);
    forall j | 0 <= j < NBINS ensures SmallEntry(cs', small'[j], j) {
      assert SmallEntry(cs, small[j], j);
      assert forall q :: q in small'[j] ==> q == p || q in small[j];
    }
    forall j | 0 <= j < NBINS ensures TreeEntry(cs', trees[j], j) {
      OtherTree(cs, small, trees, p, Chunk(z, Binned), j);
    }
    forall q | q in cs' && cs'[q].kind == Binned ensures InHome(small', trees, q, cs'[q].size) {
      if q == p {
        assert small'[i][0] == p;
      } else {
        assert InHome(small, trees, q, cs[q].size);
        assert q in small[i] ==> q in [p] + small[i];
      }
    }
    hide TreeIndex, TreeEntry;
  }

  lemma SmallsNoDup(m: Mem, gm: int, map_: nat, small: seq<seq<int>>, tiny: set<int>)
    requires SmallsOk(m, gm, map_, small, tiny)
    ensures |small| == NBINS && forall i :: 0 <= i < NBINS ==> NoDup(small[i])
  {
    forall i | 0 <= i < NBINS ensures NoDup(small[i]) {
      assert SmallBin(m, gm, map_, small[i], i);
    }
  }

  ghost predicate SmallUnlinked(gm: int, s: Snap, p: int, z: nat, s': Snap) {
    var i := SmallIndex(z);
    && i < |s.small| && p in s.small[i]
    && s' == s.(mem := s'.mem, smallmap := s'.smallmap, small := s.small[i := Without(s.small[i], p)],
                chunks := s.chunks[p := Chunk(z, Loose)])
    && SmallsOk(s'.mem, gm, s'.smallmap, s'.small, BinSet(s.chunks, true))
    && SmallOnly(s.mem, s'.mem, gm, i, Members(s.small[i]))
  }

  lemma UnlinkSmallHeap(gm: int, s: Snap, p: int, z: nat, s': Snap)
    requires HeapOk(gm, s) && p in s.chunks && s.chunks[p] == Chunk(z, Binned) && z < MIN_LARGE_SIZE
    requires SmallUnlinked(gm, s, p, z, s')
    ensures HeapOk(gm, s') && FreeOnly(s.mem, s'.mem, gm, s.chunks)
  {
    hide TreeIndex, Tags, TreesOk, SmallsOk, SmallOnly, FreeOnly, StateApart, Without, Covers;
    var i, cs, cs' := SmallIndex(z), s.chunks, s'.chunks;
    var a := Members(s.small[i]);
    SmallsNoDup(s.mem, gm, s.smallmap, s.small, BinSet(cs, true));
    HomesWithoutSmall(cs, s.small, s.trees, p, z);
    SmallMembers(cs, s.small, s.trees, i);
    SmallOnlyIsFree(s.mem, s'.mem, gm, cs, a, i);
    TagsFrame(s.mem, s'.mem, gm, cs);
    Rekind(s'.mem, cs, p, Loose);
    RekindCovers(cs, s.segs, p, Loose);
    StateApartRekind(gm, cs, p, Loose);
    TreesKept(s.mem, s'.mem, gm, cs, s.treemap, s.trees, a, i);
    assert BinSet(cs', false) == BinSet(cs, false);
    RebaseSmalls(s'.mem, gm, s'.smallmap, s', BinSet(cs, true));
    SpecialsRekind(s, p, Loose, s');
  }

  ghost predicate SmallInserted(gm: int, s: Snap, p: int, z: nat, s': Snap) {
    var i := SmallIndex(z);
    && i < |s.small|
    && s' == s.(mem := s'.mem, smallmap := s'.smallmap, small := s.small[i := [p] + s.small[i]],
                chunks := s.chunks[p := Chunk(z, Binned)])
    && SmallsOk(s'.mem, gm, s'.smallmap, s'.small, BinSet(s.chunks, true) + {p})
    && SmallOnly(s.mem, s'.mem, gm, i, Members(s.small[i]) + {p})
  }

  lemma InsertSmallHeap(gm: int, s: Snap, p: int, z: nat, s': Snap)
    requires HeapOk(gm, s) && p in s.chunks && s.chunks[p] == Chunk(z, Loose) && z < MIN_LARGE_SIZE
    requires SmallInserted(gm, s, p, z, s')
    ensures HeapOk(gm, s') && FreeOnly(s.mem, s'.mem, gm, s.chunks)
  {
    var i, cs, cs' := SmallIndex(z), s.chunks, s'.chunks;
    var a := Members(s.small[i]) + {p};
    assert TagAt(s.mem, cs, p);
    HomesWithSmall(cs, s.small, s.trees, p, z);
    SmallMembers(cs, s.small, s.trees, i);
    SmallOnlyIsFree(s.mem, s'.mem, gm, cs, a, i);
    TagsFrame(s.mem, s'.mem, gm, cs);
    Rekind(s'.mem, cs, p, Binned);
    RekindCovers(cs, s.segs, p, Binned);
    StateApartRekind(gm, cs, p, Binned);
    TreesKept(s.mem, s'.mem, gm, cs, s.treemap, s.trees, a, i);
    assert BinSet(cs', false) == BinSet(cs, false);
    hide TreeIndex, Tags, TreesOk, SmallsOk, SmallOnly, FreeOnly, StateApart, Covers;
    RebaseSmalls(s'.mem, gm, s'.smallmap, s', BinSet(cs, true) + {p});
    SpecialsRekind(s, p, Binned, s');
  }

  lemma ReadyToInsertSmall(gm: int, s: Snap, p: int, z: nat)
    requires HeapOk(gm, s) && p in s.chunks && s.chunks[p] == Chunk(z, Loose) && z < MIN_LARGE_SIZE
    ensures SmallsOk(s.mem, gm, s.smallmap, s.small, BinSet(s.chunks, true) + {p})
    ensures forall i :: 0 <= i < NBINS ==> p !in s.small[i]
  {
    hide TreesOk, SmallsOk;
    var tiny := BinSet(s.chunks, true);
    LooseNotHome(s.chunks, s.small, s.trees, p);
    FreePlaced(s.mem, gm, s.chunks, tiny + {p});
    forall i | 0 <= i < NBINS ensures Members(s.small[i]) <= tiny + {p} {
      SmallMembers(s.chunks, s.small, s.trees, i);
    }
    SmallsAmong(s.mem, gm, s.smallmap, s.small, tiny, tiny + {p});
  }

  lemma UnlinkReady(gm: int, s: Snap, p: int, z: int)
    requires HeapOk(gm, s) && p in s.chunks && s.chunks[p] == Chunk(z, Binned)
    ensures z >= MIN_CHUNK_SIZE && z % 16 == 0
    ensures z >= MIN_LARGE_SIZE ==>
      TreeIndex(z) < NBINS && TreesOk(s.mem, gm, s.treemap, s.trees, BinSet(s.chunks, false))
      && |s.trees| == NBINS && Holds(s.trees[TreeIndex(z)], p, z)
    ensures z < MIN_LARGE_SIZE ==>
      SmallIndex(z) < NBINS && SmallsOk(s.mem, gm, s.smallmap, s.small, BinSet(s.chunks, true))
      && |s.small| == NBINS && p in s.small[SmallIndex(z)]
  {
    hide TreesOk, SmallsOk, TreeIndex;
    assert TagAt(s.mem, s.chunks, p);
    assert InHome(s.small, s.trees, p, s.chunks[p].size);
  }

  lemma LooseSize(gm: int, s: Snap, p: int, z: int)
    requires HeapOk(gm, s) && p in s.chunks && s.chunks[p].size == z
    ensures z >= 16 && z % 16 == 0 && z < ADDRESS_LIMIT && p > 0 && p % 16 == 0
  {
    assert TagAt(s.mem, s.chunks, p);
  }

  // ---------- retiling in the whole heap ----------

  ghost predicate RegionClear(gm: int, a: int, e: int) {
    e <= gm || gm + STATE_SIZE <= a
  }

  ghost predicate NoBinned(cs: ChunkMap, a: int, e: int) {
    forall x :: x in cs && a <= x < e ==> cs[x].kind != Binned
  }

  /** A retiling of memory that no bin has a part in. */
  ghost predicate HeapRetiling(gm: int, s: Snap, s': Snap, a: int, e: int, last: bool) {
    && Retiling(s.mem, s.chunks, s'.mem, s'.chunks, a, e)
    && s'.segs == s.segs && Inside(s.segs, a, e, last) && Closed(s'.chunks, a, e, last)
    && s'.small == s.small && s'.trees == s.trees && s'.smallmap == s.smallmap && s'.treemap == s.treemap
    && RegionClear(gm, a, e) && NoBinned(s.chunks, a, e) && NoBinned(s'.chunks, a, e)
    && (e in s.chunks || (Rd(s'.mem, e) == Rd(s.mem, e) && Rd(s'.mem, e + HEAD) == Rd(s.mem, e + HEAD)))
  }

  /** The words of a binned chunk outside of the region, from its head on, stay. */
  lemma BinnedKept(gm: int, s: Snap, s': Snap, a: int, e: int, last: bool, p: int, w: int)
    requires HeapOk(gm, s) && HeapRetiling(gm, s, s', a, e, last) && p in s.chunks && s.chunks[p].kind == Binned
    requires p + HEAD <= w < p + s.chunks[p].size
    ensures Rd(s'.mem, w) == Rd(s.mem, w)
  {
    hide BinsOk, Specials;
    assert TagAt(s.mem, s.chunks, p);
    assert p < a ==> Before(p, s.chunks[p], a);
    assert p < a || p >= e;
    if p == e {
      assert TagAt(s'.mem, s'.chunks, e);
    }
  }

  lemma StateKept(gm: int, s: Snap, s': Snap, a: int, e: int, last: bool, w: int)
    requires HeapOk(gm, s) && HeapRetiling(gm, s, s', a, e, last) && gm <= w < gm + STATE_SIZE
    ensures Rd(s'.mem, w) == Rd(s.mem, w)
  {
    hide BinsOk, Specials;
    if e in s.chunks {
      assert TagAt(s.mem, s.chunks, e) && Clear(gm, e, s.chunks[e]);
    }
  }

  lemma BinSetKept(gm: int, s: Snap, s': Snap, a: int, e: int, last: bool, isSmall: bool)
    requires HeapRetiling(gm, s, s', a, e, last)
    ensures BinSet(s'.chunks, isSmall) == BinSet(s.chunks, isSmall)
  {
    hide Retiling;
    SameBinned(gm, s, s', a, e, last);
    forall x ensures x in BinSet(s'.chunks, isSmall) <==> x in BinSet(s.chunks, isSmall) {
    }
  }

  lemma SameBinned(gm: int, s: Snap, s': Snap, a: int, e: int, last: bool)
    requires HeapRetiling(gm, s, s', a, e, last)
    ensures forall x :: (x in s.chunks && s.chunks[x].kind == Binned) <==> (x in s'.chunks && s'.chunks[x].kind == Binned)
    ensures forall x :: x in s.chunks && s.chunks[x].kind == Binned ==> s'.chunks[x] == s.chunks[x]
  {
  }

  lemma HomesKept(gm: int, s: Snap, s': Snap, a: int, e: int, last: bool)
    requires HeapRetiling(gm, s, s', a, e, last) && Homes(s.chunks, s.small, s.trees)
    ensures Homes(s'.chunks, s'.small, s'.trees)
  {
    SameBinned(gm, s, s', a, e, last);
    var cs, cs', small, trees := s.chunks, s'.chunks, s.small, s.trees;
    forall i | 0 <= i < NBINS ensures SmallEntry(cs', small[i], i) {
      assert SmallEntry(cs, small[i], i);
    }
    forall i | 0 <= i < NBINS ensures TreeEntry(cs', trees[i], i) {
      assert TreeEntry(cs, trees[i], i);
    }
    forall p | p in cs' && cs'[p].kind == Binned ensures InHome(small, trees, p, cs'[p].size) {
      assert InHome(small, trees, p, cs[p].size);
    }
    hide HeapRetiling, TreeIndex, Holds;
  }

  lemma StateApartKept(gm: int, s: Snap, s': Snap, a: int, e: int, last: bool)
    requires HeapRetiling(gm, s, s', a, e, last) && StateApart(gm, s.chunks)
    ensures StateApart(gm, s'.chunks)
  {
    forall x | x in s'.chunks ensures Clear(gm, x, s'.chunks[x]) {
      if x < a || x >= e {
        assert Clear(gm, x, s.chunks[x]);
      } else {
        assert TagAt(s'.mem, s'.chunks, x) && Before(x, s'.chunks[x], e);
      }
    }
  }

  lemma RetileBins(gm: int, s: Snap, s': Snap, a: int, e: int, last: bool)
    requires HeapOk(gm, s) && HeapRetiling(gm, s, s', a, e, last)
    ensures BinsOk(gm, s')
  {
    var tiny, big := BinSet(s.chunks, true), BinSet(s.chunks, false);
    forall p | p in tiny
      ensures Rd(s'.mem, p + FD) == Rd(s.mem, p + FD) && Rd(s'.mem, p + BK) == Rd(s.mem, p + BK)
    {
      assert TagAt(s.mem, s.chunks, p);
      BinnedKept(gm, s, s', a, e, last, p, p + FD);
      BinnedKept(gm, s, s', a, e, last, p, p + BK);
    }
    forall p | p in big ensures SameAt(s.mem, s'.mem, p) {
      LargeKept(gm, s, s', a, e, last, p);
    }
    forall w | gm <= w < gm + STATE_SIZE ensures Rd(s'.mem, w) == Rd(s.mem, w) {
      StateKept(gm, s, s', a, e, last, w);
    }
    BinSetKept(gm, s, s', a, e, last, true);
    BinSetKept(gm, s, s', a, e, last, false);
    HomesKept(gm, s, s', a, e, last);
    hide Tags, Specials, SameAt, HeapRetiling, Homes, SmallsOk, TreesOk, BinSet;
    SmallsFrame(s.mem, s'.mem, gm, s.smallmap, s.small, tiny);
    TreesFrame(s.mem, s'.mem, gm, s.treemap, s.trees, big);
  }

  lemma LargeKept(gm: int, s: Snap, s': Snap, a: int, e: int, last: bool, p: int)
    requires HeapOk(gm, s) && HeapRetiling(gm, s, s', a, e, last) && p in BinSet(s.chunks, false)
    ensures SameAt(s.mem, s'.mem, p)
  {
    hide HeapOk, HeapRetiling;
    BinnedKept(gm, s, s', a, e, last, p, p + HEAD);
    BinnedKept(gm, s, s', a, e, last, p, p + FD);
    BinnedKept(gm, s, s', a, e, last, p, p + BK);
    BinnedKept(gm, s, s', a, e, last, p, p + CHILD0);
    BinnedKept(gm, s, s', a, e, last, p, p + CHILD1);
    BinnedKept(gm, s, s', a, e, last, p, p + PARENT);
    BinnedKept(gm, s, s', a, e, last, p, p + INDEX);
  }

  /** Retiling keeps the heap invariant, once dv and top are right. */
  lemma RetileHeap(gm: int, s: Snap, s': Snap, a: int, e: int, last: bool)
    requires HeapOk(gm, s) && HeapRetiling(gm, s, s', a, e, last) && Specials(s')
    ensures HeapOk(gm, s')
  {
    hide Tags, StateApart, BinsOk, Specials, Covers, Inside, Closed, Within, Tiled, Before;
    Retile(s.mem, s.chunks, s'.mem, s'.chunks, a, e);
    StateApartKept(gm, s, s', a, e, last);
    RetileBins(gm, s, s', a, e, last);
    RetileCovers(s.chunks, s'.chunks, s.segs, a, e, last);
  }
}
