/** dlmalloc up to the point where it asks the system for memory. */
module Malloc {
  import opened Words
  import opened BinIndex
  import opened BinMaps
  import opened Trie
  import opened Rings
  import opened TreeMemory
  import opened Chunks
  import opened HeapState
  import TB = TreeBins
  import SB = SmallBins
  import opened BestFit
  import opened Heap
  import opened Steps
  import opened HeapOps

  /**
   * Chunk p has been handed out for a request of padded size nb: it was not live, it is now, it is
   * not a minimum chunk too large, and nothing else that is live has changed.
   */
  ghost predicate Served(gm: int, s: Snap, s': Snap, p: int, nb: int) {
    && HeapOk(gm, s') && Settled(s') && Keeps(s, s', {p}) && !LiveAt(s, p)
    && p in s'.chunks && s'.chunks[p].kind == Used && nb <= s'.chunks[p].size < nb + MIN_CHUNK_SIZE
  }

  /** From binned to handed out whole: the three states of the chunk and what they keep. */
  lemma ServedWhole(gm: int, s: Snap, s1: Snap, s2: Snap, p: int, z: int, nb: int)
    requires HeapOk(gm, s2) && Settled(s) && p in s.chunks && s.chunks[p] == Chunk(z, Binned)
    requires s1.chunks == s.chunks[p := Chunk(z, Loose)] && Keeps(s, s1, {})
    requires Keeps(s1, s2, {p}) && LooseSet(s2) == LooseSet(s1) - {p}
    requires p in s2.chunks && s2.chunks[p] == Chunk(z, Used) && nb <= z < nb + MIN_CHUNK_SIZE
    ensures Served(gm, s, s2, p, nb)
  {
    hide HeapOk, Keeps;
    KeepsTrans(s, s1, s2, {}, {p}, {p});
  }

  /** From binned to split, with the rest in a new home. */
  lemma ServedPart(gm: int, s: Snap, s1: Snap, s2: Snap, s3: Snap, p: int, z: int, nb: int, r: int)
    requires HeapOk(gm, s3) && Settled(s) && p in s.chunks && s.chunks[p] == Chunk(z, Binned)
    requires s1.chunks == s.chunks[p := Chunk(z, Loose)] && Keeps(s, s1, {})
    requires Keeps(s1, s2, {p}) && LooseSet(s2) == LooseSet(s1) - {p} + {r} && r != p
    requires p in s2.chunks && s2.chunks[p] == Chunk(nb, Used)
    requires Keeps(s2, s3, {}) && LooseSet(s3) == LooseSet(s2) - {r}
    ensures Served(gm, s, s3, p, nb)
  {
    assert KeepsAt(s2, s3, p);
    hide HeapOk, Keeps;
    KeepsTrans(s, s1, s2, {}, {p}, {p});
    KeepsTrans(s, s2, s3, {p}, {}, {p});
  }

  lemma LargeFit(gm: int, s: Snap, nb: int, i: nat, v: int, rsize: int)
    requires HeapOk(gm, s) && SearchState(s.trees, i, nb, v, rsize) && NoBetter(s.trees, nb, rsize)
    requires nb >= MIN_LARGE_SIZE
    ensures v != 0 ==>
      v in s.chunks && s.chunks[v] == Chunk(nb + rsize, Binned) && nb + rsize < ADDRESS_LIMIT && (nb + rsize) % 16 == 0
      && NoFit(s.chunks, nb, nb + rsize)
    ensures v == 0 ==> NoFit(s.chunks, nb, SIZE_T_MOD)
    ensures 0 <= rsize && 0 <= s.dvsize < ADDRESS_LIMIT
  {
    hide HeapOk, NoBetter;
    BestBinned(gm, s, nb, i, v, rsize);
    if v != 0 { LooseSize(gm, s, v, nb + rsize); }
    NoDv(gm, s);
    if s.dvsize != 0 { LooseSize(gm, s, s.dv, s.dvsize); }
  }

  /**
   * tmalloc_large: a best fit among all binned chunks, unless there is none or dv fits at least
   * as well, whatever the wrapping difference between dvsize and nb is.
   */
  method TmallocLarge(M: MallocState, nb: int) returns (p: int)
    requires HeapOk(M.gm, M.Now()) && Settled(M.Now()) && MIN_LARGE_SIZE <= nb < SIZE_T_MOD && nb % 16 == 0
    modifies M`mem, M`smallmap, M`treemap, M`small, M`trees, M`chunks
    ensures p == 0 ==> M.Now() == old(M.Now())
    ensures p == 0 ==> NoFit(M.chunks, nb, if M.dvsize >= nb then M.dvsize else SIZE_T_MOD)
    ensures p != 0 ==> Served(M.gm, old(M.Now()), M.Now(), p, nb)
    ensures p != 0 ==> p in old(M.chunks) && old(M.chunks)[p].kind == Binned && NoFit(old(M.chunks), nb, old(M.chunks)[p].size)
    ensures p != 0 ==> nb <= old(M.chunks)[p].size && (M.dvsize < nb || old(M.chunks)[p].size < M.dvsize)
    ensures p != 0 && old(M.chunks)[p].size >= nb + 32 ==>
      p + nb in M.chunks && M.chunks[p + nb] == Chunk(old(M.chunks)[p].size - nb, Binned)
  {
    hide HeapOk, Keeps, LiveAt, LooseSet, Settled, Served, NoFit, NoBetter, SearchState, Sorted, Minus, BinSet, Homes,
         TB.TreesOk, SB.SmallsOk;
    ghost var s := M.Now();
    SmallsOf(M.gm, s);
    TreesSorted(M.gm, s);
    var v, rsize;
    ghost var i;
    v, rsize, i := BestFitLarge(M, nb, BinSet(M.chunks, false));
    LargeFit(M.gm, s, nb, i, v, rsize);
    MinusIs(M.dvsize, nb);
    if v != 0 && rsize < Minus(M.dvsize, nb) {
      ghost var z := nb + rsize;
      UnlinkLarge(M, v, z);
      ghost var s1 := M.Now();
      if rsize < MIN_CHUNK_SIZE {
        UseWhole(M, v, rsize + nb);
        ServedWhole(M.gm, s, s1, M.Now(), v, z, nb);
      } else {
        var r := UsePart(M, v, nb, rsize);
        ghost var s2 := M.Now();
        InsertChunk(M, r, rsize);
        LooseAfter(s2, M.Now(), r, rsize, Binned);
        ServedPart(M.gm, s, s1, s2, M.Now(), v, z, nb, r);
      }
      return v;
    }
    NoFitUnless(s.chunks, nb, nb + rsize, if s.dvsize >= nb then s.dvsize else SIZE_T_MOD, v == 0);
    return 0;
  }

  lemma MinusIs(a: int, b: int)
    requires 0 <= a < SIZE_T_MOD && 0 <= b < SIZE_T_MOD
    ensures Minus(a, b) == (if a >= b then a - b else SIZE_T_MOD + a - b)
  {
  }

  lemma NoFitUnless(cs: ChunkMap, nb: int, z: int, y: int, none: bool)
    requires if none then NoFit(cs, nb, SIZE_T_MOD) && y <= SIZE_T_MOD else NoFit(cs, nb, z) && y <= z
    ensures NoFit(cs, nb, y)
  {
  }

  /**
   * What becomes of dv when chunk p is split for nb bytes: a remainder that is a chunk replaces it,
   * and it is binned; without a remainder it stays.
   */
  ghost predicate DvReplaced(s: Snap, s': Snap, p: int, nb: int) {
    p in s.chunks && var rsize := s.chunks[p].size - nb;
    if rsize < MIN_CHUNK_SIZE then s'.dv == s.dv && s'.dvsize == s.dvsize
    else s'.dv == p + nb && s'.dvsize == rsize
         && (s.dvsize != 0 ==> s.dv in s'.chunks && s'.chunks[s.dv] == Chunk(s.dvsize, Binned))
  }

  /** tmalloc_small: split a smallest chunk of the treebins; the rest becomes dv. */
  method TmallocSmall(M: MallocState, nb: int) returns (p: int)
    requires HeapOk(M.gm, M.Now()) && Settled(M.Now()) && M.treemap != 0
    requires MIN_CHUNK_SIZE <= nb < MIN_LARGE_SIZE && nb % 16 == 0 && M.dvsize < MIN_LARGE_SIZE
    modifies M`mem, M`smallmap, M`treemap, M`small, M`trees, M`chunks, M`dv, M`dvsize
    ensures Served(M.gm, old(M.Now()), M.Now(), p, nb) && p != 0
    ensures p in old(M.chunks) && old(M.chunks)[p].kind == Binned && old(M.chunks)[p].size >= MIN_LARGE_SIZE
    ensures NoFit(old(M.chunks), MIN_LARGE_SIZE, old(M.chunks)[p].size)
    ensures DvReplaced(old(M.Now()), M.Now(), p, nb)
  {
    hide HeapOk, Keeps, LiveAt, LooseSet, Settled, Served, NoFit, NoBetter, SearchState, Sorted, BinSet, Homes,
         TB.TreesOk, SB.SmallsOk;
    ghost var s := M.Now();
    SmallsOf(M.gm, s);
    TreesSorted(M.gm, s);
    var rsize;
    ghost var i;
    p, rsize, i := BestFitSmall(M, nb, BinSet(M.chunks, false));
    SmallestLarge(M.gm, s, nb, i, p, rsize);
    ghost var z := nb + rsize;
    UnlinkLarge(M, p, z);
    ghost var s1 := M.Now();
    if rsize < MIN_CHUNK_SIZE {
      UseWhole(M, p, rsize + nb);
      ServedWhole(M.gm, s, s1, M.Now(), p, z, nb);
    } else {
      var r := UsePart(M, p, nb, rsize);
      ghost var s2 := M.Now();
      DvApart(M.gm, s2, r);
      ReplaceDv(M, r, rsize);
      ServedPart(M.gm, s, s1, s2, M.Now(), p, z, nb, r);
    }
  }

  lemma DvApart(gm: int, s: Snap, r: int)
    requires HeapOk(gm, s) && r in s.chunks && s.chunks[r].kind == Loose
    ensures s.dvsize != 0 ==> s.dv != r
  {
    hide Tags, BinsOk, StateApart, Covers;
  }

  lemma SmallestLarge(gm: int, s: Snap, nb: int, i: nat, v: int, rsize: int)
    requires HeapOk(gm, s) && SearchState(s.trees, i, nb, v, rsize) && NoBetter(s.trees, nb, rsize)
    requires 0 < nb < MIN_LARGE_SIZE && v != 0
    ensures v in s.chunks && s.chunks[v] == Chunk(nb + rsize, Binned) && MIN_LARGE_SIZE <= nb + rsize < ADDRESS_LIMIT
    ensures (nb + rsize) % 16 == 0 && NoFit(s.chunks, MIN_LARGE_SIZE, nb + rsize) && rsize >= 0
  {
    hide HeapOk, NoBetter;
    BestBinned(gm, s, nb, i, v, rsize);
    LooseSize(gm, s, v, nb + rsize);
  }

  // ---------- small bins ----------

  lemma SizesAreSmall(gm: int, s: Snap, idx: nat, nb: int, i: nat)
    requires HeapOk(gm, s) && nb == 8 * idx && idx <= i <= NBINS
    requires forall j :: idx <= j < i ==> !Has(s.smallmap, j)
    ensures NoFit(s.chunks, nb, 8 * i)
  {
    hide HeapOk, Has;
    SmallsOf(gm, s);
    forall q | q in s.chunks && s.chunks[q].kind == Binned && s.chunks[q].size >= nb ensures s.chunks[q].size >= 8 * i {
      MarkedHome(gm, s, q);
    }
  }

  /** The bin of a small binned chunk is marked. */
  lemma MarkedHome(gm: int, s: Snap, q: int)
    requires HeapOk(gm, s) && q in s.chunks && s.chunks[q].kind == Binned
    ensures s.chunks[q].size % 16 == 0 && s.chunks[q].size >= 0
    ensures s.chunks[q].size < MIN_LARGE_SIZE ==> Has(s.smallmap, s.chunks[q].size / 8)
    ensures s.chunks[q].size >= MIN_LARGE_SIZE ==> s.treemap != 0
  {
    hide HeapOk, TreeIndex, BinSet;
    var z := s.chunks[q].size;
    UnlinkReady(gm, s, q, z);
    if z < MIN_LARGE_SIZE {
      SmallMarked(s.mem, gm, s.smallmap, s.small, BinSet(s.chunks, true), q, z / 8);
    } else {
      TreeMarked(s.mem, gm, s.treemap, s.trees, BinSet(s.chunks, false), q, z);
    }
  }

  lemma SmallMarked(m: Mem, gm: int, map_: nat, small: seq<seq<int>>, tiny: set<int>, q: int, i: nat)
    requires SB.SmallsOk(m, gm, map_, small, tiny) && i < NBINS && q in small[i]
    ensures Has(map_, i)
  {
    hide Has;
    assert SB.SmallBin(m, gm, map_, small[i], i);
  }

  lemma TreeMarked(m: Mem, gm: int, map_: nat, trees: seq<Tree>, big: set<int>, q: int, z: nat)
    requires TB.TreesOk(m, gm, map_, trees, big) && Holds(trees[TreeIndex(z)], q, z)
    ensures map_ != 0
  {
    hide Has, TreeIndex;
    var i := TreeIndex(z);
    assert TB.TreeBin(m, gm, map_, trees[i], i);
    HasZero(i);
  }

  /** The remainderless fit: smallbits & 3, and the bin it selects. */
  lemma ExactBin(x: nat, idx: nat)
    requires x < MAP_MOD && And(Shr(x, idx), 3) != 0
    ensures var i := idx + And(Not(Shr(x, idx)), 1);
      Has(x, i) && (i == idx || (i == idx + 1 && !Has(x, idx)))
  {
    TwoBins(x, idx);
    ShrSmaller(x, idx);
    AndOne(Not(Shr(x, idx)));
    hide And, Has, Shr, Not;
  }

  lemma AndOne(x: nat)
    ensures And(x, 1) == 0 || And(x, 1) == 1
  {
  }

  /** No fit in the bins of nb and nb + 8, but some bin above: the lowest of them. */
  lemma NextBinUp(x: nat, idx: nat)
    requires x < MAP_MOD && idx < 32 && And(Shr(x, idx), 3) == 0 && Shr(x, idx) != 0
    ensures var i := Bit2Idx(LeastBit(And(ShiftLeft(Shr(x, idx), idx), LeftBits(Idx2Bit(idx)))));
      idx + 1 < i < 32 && Has(x, i) && forall j :: idx <= j < i ==> !Has(x, j)
  {
    hide And, Has, Shr, LeftBits, ShiftLeft, LeastBit, Bit2Idx;
    var y := And(ShiftLeft(Shr(x, idx), idx), LeftBits(Idx2Bit(idx)));
    TwoBins(x, idx);
    var k := SomeBin(Shr(x, idx), x, idx);
    forall j | 0 <= j < 32 ensures Has(y, j) <==> idx < j && Has(x, j) {
      SmallAbove(x, idx, j);
    }
    assert y != 0 by {
      if y == 0 { HasZero(k); }
    }
    LeftBound(x, idx);
    LowestMarked(y);
  }

  lemma SomeBin(y: nat, x: nat, idx: nat) returns (k: nat)
    requires x < MAP_MOD && y == Shr(x, idx) && y != 0
    ensures k < 32 && idx <= k && Has(x, k)
  {
    hide Has, Shr, Bit2Idx;
    NonZeroHas(y);
    k := idx + Bit2Idx(y);
    ShrHas(x, idx, Bit2Idx(y));
    assert Pow2(32) == MAP_MOD by { Pow2Values(); }
    HasBound(x, 32, k);
  }

  lemma LeftBound(x: nat, idx: nat)
    requires x < MAP_MOD
    ensures And(ShiftLeft(Shr(x, idx), idx), LeftBits(Idx2Bit(idx))) < MAP_MOD
  {
    hide Shr, ShiftLeft, LeftBits, And;
    AndBound(ShiftLeft(Shr(x, idx), idx), LeftBits(Idx2Bit(idx)));
    ShrSmaller(x, idx);
    ShiftLeftBound(Shr(x, idx), idx);
  }

  lemma {:induction false} ShiftLeftBound(x: nat, n: nat)
    requires x < MAP_MOD
    ensures ShiftLeft(x, n) < MAP_MOD
    decreases n
  {
    if n > 0 { ShiftLeftBound(2 * x % MAP_MOD, n - 1); }
  }

  lemma NoBinUp(x: nat, idx: nat, j: nat)
    requires Shr(x, idx) == 0 && idx <= j
    ensures !Has(x, j)
  {
    hide Shr, Has;
    ShrHas(x, idx, j - idx);
    HasZero(j - idx);
  }

  // ---------- dv and top ----------

  /** One step took the chunk, and it is settled. */
  lemma ServedOnce(gm: int, s: Snap, s': Snap, p: int, z: int, nb: int)
    requires HeapOk(gm, s') && Settled(s) && Keeps(s, s', {p}) && !LiveAt(s, p) && LooseSet(s') == LooseSet(s)
    requires p in s'.chunks && s'.chunks[p] == Chunk(z, Used) && nb <= z < nb + MIN_CHUNK_SIZE
    ensures Served(gm, s, s', p, nb)
  {
    hide HeapOk, Keeps, LiveAt, LooseSet;
  }

  lemma DvFacts(gm: int, s: Snap)
    requires HeapOk(gm, s)
    ensures 0 <= s.dvsize < ADDRESS_LIMIT && s.dvsize % 16 == 0 && 0 <= s.topsize < ADDRESS_LIMIT && s.topsize % 16 == 0
    ensures s.dvsize != 0 ==> s.dv in s.chunks && s.chunks[s.dv] == Chunk(s.dvsize, Victim) && s.dvsize >= MIN_CHUNK_SIZE
    ensures s.topsize != 0 ==> s.top in s.chunks && s.chunks[s.top] == Chunk(s.topsize, Top)
  {
    NoDv(gm, s);
    if s.dvsize != 0 { assert TagAt(s.mem, s.chunks, s.dv); }
    if s.topsize != 0 { TopRegion(gm, s); }
    hide BinsOk, Region, StateApart, Covers;
  }

  /** Split dv, or use it up. */
  method MallocFromDv(M: MallocState, nb: int) returns (p: int)
    requires HeapOk(M.gm, M.Now()) && Settled(M.Now()) && MIN_CHUNK_SIZE <= nb <= M.dvsize && nb % 16 == 0
    modifies M`mem, M`chunks, M`dv, M`dvsize
    ensures p == old(M.dv) && Served(M.gm, old(M.Now()), M.Now(), p, nb)
    ensures if old(M.dvsize) >= nb + 32 then M.dv == p + nb && M.dvsize == old(M.dvsize) - nb else M.dv == 0 && M.dvsize == 0
  {
    hide HeapOk, Keeps, LiveAt, LooseSet, Settled, Served, Split, Merged;
    ghost var s := M.Now();
    DvFacts(M.gm, s);
    var rsize := M.dvsize - nb;
    p := M.dv;
    if rsize >= MIN_CHUNK_SIZE {
      var r := p + nb;
      M.dv := r;
      M.dvsize := rsize;
      M.mem := SetFree(M.mem, r, rsize);
      M.mem := SetInuseHead(M.mem, p, nb);
      M.chunks := Split(M.chunks, p, r, r + rsize, Chunk(nb, Used), Chunk(rsize, Victim));
      assert Parted(s, M.Now(), p, nb);
      hide Parted;
      PartedLoose(M.gm, s, M.Now(), p, nb);
      TakePart(M.gm, s, M.Now(), p, nb);
      ServedOnce(M.gm, s, M.Now(), p, nb, nb);
    } else {
      var dvs := M.dvsize;
      M.dvsize := 0;
      M.dv := 0;
      M.mem := SetInuseAndPinuse(M.mem, p, dvs);
      M.chunks := Merged(M.chunks, p, p + dvs, Chunk(dvs, Used));
      TakenLoose(M.gm, s, M.Now(), p);
      TakeAll(M.gm, s, M.Now(), p);
      LooseWithout(s, p);
      ServedOnce(M.gm, s, M.Now(), p, dvs, nb);
    }
  }

  lemma LooseWithout(s: Snap, p: int)
    requires Settled(s)
    ensures LooseSet(s) - {p} == LooseSet(s)
  {
  }

  /** Split top. */
  method MallocFromTop(M: MallocState, nb: int) returns (p: int)
    requires HeapOk(M.gm, M.Now()) && Settled(M.Now()) && MIN_CHUNK_SIZE <= nb < M.topsize && nb % 16 == 0
    modifies M`mem, M`chunks, M`top, M`topsize
    ensures p == old(M.top) && Served(M.gm, old(M.Now()), M.Now(), p, nb) && SameEnd(old(M.Now()), M.Now())
    ensures M.top == p + nb && M.topsize == old(M.topsize) - nb && p in M.chunks && M.chunks[p] == Chunk(nb, Used)
  {
    hide HeapOk, Keeps, LiveAt, LooseSet, Settled, Served, Split;
    ghost var s := M.Now();
    var rsize := M.topsize - nb;
    M.topsize := rsize;
    p := M.top;
    var r := p + nb;
    M.top := r;
    M.mem := M.mem[r + HEAD := rsize + 1];
    M.mem := SetInuseHead(M.mem, p, nb);
    SplitOutside(M.chunks, p, r, r + rsize + TOP_FOOT_SIZE, Chunk(nb, Used), Chunk(rsize, Top));
    M.chunks := Split(M.chunks, p, r, r + rsize + TOP_FOOT_SIZE, Chunk(nb, Used), Chunk(rsize, Top));
    CutLoose(M.gm, s, M.Now(), nb);
    TakeTop(M.gm, s, M.Now(), nb);
    ServedOnce(M.gm, s, M.Now(), p, nb, nb);
  }

  // ---------- malloc without the system ----------

  /** The chunk size for a request; a request that is too large gets one that nothing fits. */
  function Padded(bytes: int): int {
    if bytes >= MAX_REQUEST then SIZE_T_MOD - 1 else if bytes < 0 then 0 else RequestToSize(bytes)
  }

  /** No free chunk can serve nb bytes. */
  ghost predicate NothingFree(s: Snap, nb: int) {
    NoFit(s.chunks, nb, SIZE_T_MOD) && s.dvsize < nb && s.topsize <= nb
  }

  /**
   * Which free chunk serves nb bytes. A binned chunk is always a best fit among the binned ones; it
   * goes before dv if it leaves no remainder, or, for a large request, if it is smaller than dv;
   * top comes last.
   */
  ghost predicate Chosen(s: Snap, p: int, nb: int) {
    p in s.chunks && match s.chunks[p].kind
    case Binned =>
      && nb <= s.chunks[p].size && NoFit(s.chunks, nb, s.chunks[p].size)
      && (s.dvsize < nb || (if nb < MIN_LARGE_SIZE then s.chunks[p].size < nb + 16 else s.chunks[p].size < s.dvsize))
    case Victim =>
      nb <= s.dvsize && NoFit(s.chunks, nb, if nb < MIN_LARGE_SIZE then nb + 16 else s.dvsize)
    case Top =>
      nb < s.topsize && s.dvsize < nb && NoFit(s.chunks, nb, SIZE_T_MOD)
    case _ => false
  }

  /**
   * Where the rest of the chosen chunk goes, if it is a chunk: that of a binned one becomes dv if the
   * request is small, and is binned if it is large; that of dv and of top stays what it was.
   */
  ghost predicate Rests(s: Snap, s': Snap, p: int, nb: int) {
    p in s.chunks && match s.chunks[p].kind
    case Binned =>
      && s'.top == s.top && s'.topsize == s.topsize
      && (if nb < 256 then DvReplaced(s, s', p, nb)
          else s'.dv == s.dv && s'.dvsize == s.dvsize
               && (s.chunks[p].size >= nb + 32 ==> p + nb in s'.chunks && s'.chunks[p + nb] == Chunk(s.chunks[p].size - nb, Binned)))
    case Victim =>
      && s'.top == s.top && s'.topsize == s.topsize
      && if s.dvsize >= nb + 32 then s'.dv == p + nb && s'.dvsize == s.dvsize - nb else s'.dv == 0 && s'.dvsize == 0
    case Top =>
      s'.top == p + nb && s'.topsize == s.topsize - nb && s'.dv == s.dv && s'.dvsize == s.dvsize
    case _ => false
  }

  /** The small-request branch that uses a bin: a remainderless fit. */
  method MallocExact(M: MallocState, i: nat, ghost nb: int) returns (p: int)
    requires HeapOk(M.gm, M.Now()) && Settled(M.Now()) && i < NBINS && Has(M.smallmap, i) && nb <= 8 * i < nb + 16
    modifies M`mem, M`smallmap, M`small, M`chunks
    ensures Served(M.gm, old(M.Now()), M.Now(), p, nb)
    ensures p in old(M.chunks) && old(M.chunks)[p] == Chunk(8 * i, Binned)
  {
    hide HeapOk, Keeps, LiveAt, LooseSet, Settled, Served, Has;
    ghost var s := M.Now();
    p := UnlinkFirst(M, i);
    ghost var s1 := M.Now();
    UseWhole(M, p, 8 * i);
    ServedWhole(M.gm, s, s1, M.Now(), p, 8 * i, nb);
  }

  /** The small-request branch that splits a chunk of a higher small bin; the rest becomes dv. */
  method MallocNextBin(M: MallocState, i: nat, nb: int) returns (p: int)
    requires HeapOk(M.gm, M.Now()) && Settled(M.Now()) && i < NBINS && Has(M.smallmap, i) && M.dvsize < MIN_LARGE_SIZE
    requires MIN_CHUNK_SIZE <= nb <= 8 * i && nb % 16 == 0
    modifies M`mem, M`smallmap, M`small, M`chunks, M`dv, M`dvsize
    ensures Served(M.gm, old(M.Now()), M.Now(), p, nb)
    ensures p in old(M.chunks) && old(M.chunks)[p] == Chunk(8 * i, Binned) && DvReplaced(old(M.Now()), M.Now(), p, nb)
  {
    hide HeapOk, Keeps, LiveAt, LooseSet, Settled, Served, Has;
    ghost var s := M.Now();
    p := UnlinkFirst(M, i);
    ghost var s1 := M.Now();
    var rsize := 8 * i - nb;
    if rsize < MIN_CHUNK_SIZE {
      UseWhole(M, p, 8 * i);
      ServedWhole(M.gm, s, s1, M.Now(), p, 8 * i, nb);
    } else {
      var r := UsePart(M, p, nb, rsize);
      ghost var s2 := M.Now();
      DvApart(M.gm, s2, r);
      ReplaceDv(M, r, rsize);
      ServedPart(M.gm, s, s1, s2, M.Now(), p, 8 * i, nb, r);
    }
  }

  // ---------- why the chosen chunk is the right one ----------

  predicate SmallRequest(nb: int, idx: nat) {
    nb == 8 * idx && MIN_CHUNK_SIZE <= nb <= 240 && nb % 16 == 0
  }

  lemma ExactChoice(gm: int, s: Snap, nb: int, idx: nat)
    requires HeapOk(gm, s) && SmallRequest(nb, idx) && And(Shr(s.smallmap, idx), 3) != 0
    ensures var i := idx + And(Not(Shr(s.smallmap, idx)), 1);
      i < NBINS && Has(s.smallmap, i) && nb <= 8 * i < nb + 16 && NoFit(s.chunks, nb, 8 * i)
  {
    hide Has, And, Shr, Not, HeapOk, NoFit, SB.SmallsOk, TB.TreesOk, Homes;
    SmallmapBound(gm, s);
    ExactBin(s.smallmap, idx);
    SizesAreSmall(gm, s, idx, nb, idx + And(Not(Shr(s.smallmap, idx)), 1));
  }

  lemma SmallmapBound(gm: int, s: Snap)
    requires HeapOk(gm, s)
    ensures s.smallmap < MAP_MOD
  {
  }

  lemma NextChoice(gm: int, s: Snap, nb: int, idx: nat)
    requires HeapOk(gm, s) && SmallRequest(nb, idx)
    requires And(Shr(s.smallmap, idx), 3) == 0 && Shr(s.smallmap, idx) != 0
    ensures var i := Bit2Idx(LeastBit(And(ShiftLeft(Shr(s.smallmap, idx), idx), LeftBits(Idx2Bit(idx)))));
      i < NBINS && Has(s.smallmap, i) && nb <= 8 * i && NoFit(s.chunks, nb, 8 * i)
  {
    hide Has, And, Shr, ShiftLeft, LeftBits, LeastBit, Bit2Idx, HeapOk, NoFit;
    SmallmapBound(gm, s);
    NextBinUp(s.smallmap, idx);
    SizesAreSmall(gm, s, idx, nb, Bit2Idx(LeastBit(And(ShiftLeft(Shr(s.smallmap, idx), idx), LeftBits(Idx2Bit(idx))))));
  }

  lemma NoExact(gm: int, s: Snap, nb: int, idx: nat)
    requires HeapOk(gm, s) && SmallRequest(nb, idx) && And(Shr(s.smallmap, idx), 3) == 0
    ensures NoFit(s.chunks, nb, nb + 16)
  {
    hide Has, And, Shr, HeapOk, NoFit;
    TwoBins(s.smallmap, idx);
    SizesAreSmall(gm, s, idx, nb, idx + 2);
  }

  lemma NoSmall(gm: int, s: Snap, nb: int, idx: nat)
    requires HeapOk(gm, s) && SmallRequest(nb, idx) && Shr(s.smallmap, idx) == 0
    ensures NoFit(s.chunks, nb, MIN_LARGE_SIZE)
  {
    hide Has, And, Shr, HeapOk, NoFit;
    forall j | idx <= j < NBINS ensures !Has(s.smallmap, j) {
      NoBinUp(s.smallmap, idx, j);
    }
    SizesAreSmall(gm, s, idx, nb, NBINS);
  }

  /** Without a marked treebin, no large chunk is binned. */
  lemma NoLarge(gm: int, s: Snap, nb: int)
    requires HeapOk(gm, s) && s.treemap == 0 && NoFit(s.chunks, nb, MIN_LARGE_SIZE)
    ensures NoFit(s.chunks, nb, SIZE_T_MOD)
  {
    hide HeapOk, Has;
    forall q | q in s.chunks && s.chunks[q].kind == Binned && s.chunks[q].size >= nb ensures false {
      MarkedHome(gm, s, q);
    }
  }

  lemma TooLargeForAll(gm: int, s: Snap, nb: int)
    requires HeapOk(gm, s) && nb >= ADDRESS_LIMIT
    ensures NoFit(s.chunks, nb, SIZE_T_MOD)
  {
    hide HeapOk;
    forall q | q in s.chunks ensures s.chunks[q].size < nb {
      LooseSize(gm, s, q, s.chunks[q].size);
    }
  }

  lemma NoFitJoin(cs: ChunkMap, nb: int, y: int, z: int)
    requires NoFit(cs, nb, y) && NoFit(cs, y, z)
    ensures NoFit(cs, nb, z)
  {
  }

  lemma ChosenBinned(s: Snap, p: int, nb: int)
    requires p in s.chunks && s.chunks[p].kind == Binned && nb <= s.chunks[p].size && NoFit(s.chunks, nb, s.chunks[p].size)
    requires s.dvsize < nb || (if nb < MIN_LARGE_SIZE then s.chunks[p].size < nb + 16 else s.chunks[p].size < s.dvsize)
    ensures Chosen(s, p, nb)
  {
    hide NoFit;
  }

  lemma ChosenDv(gm: int, s: Snap, nb: int)
    requires HeapOk(gm, s) && 0 < nb <= s.dvsize && NoFit(s.chunks, nb, if nb < MIN_LARGE_SIZE then nb + 16 else s.dvsize)
    ensures Chosen(s, s.dv, nb) && s.dv > 0
  {
    hide NoFit, HeapOk;
    DvFacts(gm, s);
    LooseSize(gm, s, s.dv, s.dvsize);
  }

  lemma ChosenTop(gm: int, s: Snap, nb: int)
    requires HeapOk(gm, s) && 0 < nb < s.topsize && s.dvsize < nb && NoFit(s.chunks, nb, SIZE_T_MOD)
    ensures Chosen(s, s.top, nb) && s.top > 0
  {
    hide NoFit, HeapOk;
    DvFacts(gm, s);
    LooseSize(gm, s, s.top, s.topsize);
  }

  lemma RequestFacts(bytes: int)
    requires 0 <= bytes < SIZE_T_MOD
    ensures bytes <= MAX_SMALL_REQUEST ==>
      var nb := if bytes < MIN_REQUEST then MIN_CHUNK_SIZE else PadRequest(bytes);
      nb == Padded(bytes) && SmallIndex(nb) >= 0 && SmallRequest(nb, SmallIndex(nb))
    ensures MAX_SMALL_REQUEST < bytes < MAX_REQUEST ==>
      var nb := PadRequest(bytes);
      nb == Padded(bytes) && nb >= MIN_LARGE_SIZE && nb % 16 == 0 && nb < SIZE_T_MOD
    ensures bytes >= MAX_REQUEST ==> Padded(bytes) == SIZE_T_MOD - 1
  {
  }

  /**
   * dlmalloc before it calls sys_alloc: a free chunk if any fits, chosen as Chosen says, and no
   * change at all if none does.
   */
  method MallocInHeap(M: MallocState, bytes: int) returns (p: int, nb: int)
    requires HeapOk(M.gm, M.Now()) && Settled(M.Now()) && 0 <= bytes < SIZE_T_MOD
    modifies M`mem, M`smallmap, M`treemap, M`small, M`trees, M`chunks, M`dv, M`dvsize, M`top, M`topsize
    ensures nb == Padded(bytes)
    ensures p == 0 ==> M.Now() == old(M.Now()) && NothingFree(M.Now(), nb)
    ensures p != 0 ==> Served(M.gm, old(M.Now()), M.Now(), p, nb) && Chosen(old(M.Now()), p, nb)
    ensures p != 0 ==> Rests(old(M.Now()), M.Now(), p, nb)
    ensures SameEnd(old(M.Now()), M.Now())
  {
    hide HeapOk, Settled, Served, Chosen, NoFit, Has, And, Shr, Not, ShiftLeft, LeftBits, LeastBit, Bit2Idx,
         PadRequest, Padded, RequestToSize;
    ghost var s := M.Now();
    p := 0;
    RequestFacts(bytes);
    DvFacts(M.gm, s);
    if bytes <= MAX_SMALL_REQUEST {
      nb := if bytes < MIN_REQUEST then MIN_CHUNK_SIZE else PadRequest(bytes);
      var idx := SmallIndex(nb);
      var smallbits := Shr(M.smallmap, idx);
      if And(smallbits, 3) != 0 {
        ExactChoice(M.gm, s, nb, idx);
        idx := idx + And(Not(smallbits), 1);
        p := MallocExact(M, idx, nb);
        BinnedServed(M.gm, s, p, nb);
        return;
      }
      NoExact(M.gm, s, nb, idx);
      if nb > M.dvsize {
        if smallbits != 0 {
          NextChoice(M.gm, s, nb, idx);
          var leftbits := And(ShiftLeft(smallbits, idx), LeftBits(Idx2Bit(idx)));
          var i := Bit2Idx(LeastBit(leftbits));
          p := MallocNextBin(M, i, nb);
          BinnedServed(M.gm, s, p, nb);
          return;
        }
        NoSmall(M.gm, s, nb, idx);
        if M.treemap != 0 {
          p := TmallocSmall(M, nb);
          NoFitJoin(s.chunks, nb, MIN_LARGE_SIZE, s.chunks[p].size);
          ChosenBinned(s, p, nb);
          return;
        }
        NoLarge(M.gm, s, nb);
      }
    } else if bytes >= MAX_REQUEST {
      nb := SIZE_T_MOD - 1;
      TooLargeForAll(M.gm, s, nb);
    } else {
      nb := PadRequest(bytes);
      if M.treemap != 0 {
        p := TmallocLarge(M, nb);
        if p != 0 {
          ChosenBinned(s, p, nb);
          return;
        }
      } else {
        NoLargeFit(M.gm, s, nb);
      }
    }
    if nb <= M.dvsize {
      ChosenDv(M.gm, s, nb);
      p := MallocFromDv(M, nb);
    } else if nb < M.topsize {
      ChosenTop(M.gm, s, nb);
      p := MallocFromTop(M, nb);
    }
  }

  lemma BinnedServed(gm: int, s: Snap, p: int, nb: int)
    requires HeapOk(gm, s) && p in s.chunks && s.chunks[p].kind == Binned && nb <= s.chunks[p].size
    requires NoFit(s.chunks, nb, s.chunks[p].size)
    requires s.dvsize < nb || (nb < MIN_LARGE_SIZE && s.chunks[p].size < nb + 16)
    ensures Chosen(s, p, nb) && p != 0
  {
    hide NoFit, HeapOk;
    ChosenBinned(s, p, nb);
    LooseSize(gm, s, p, s.chunks[p].size);
  }

  lemma NoLargeFit(gm: int, s: Snap, nb: int)
    requires HeapOk(gm, s) && s.treemap == 0 && nb >= MIN_LARGE_SIZE
    ensures forall z :: z <= SIZE_T_MOD ==> NoFit(s.chunks, nb, z)
  {
    hide HeapOk;
    NoFitLess(s.chunks, nb);
    NoLarge(gm, s, nb);
  }

  lemma NoFitLess(cs: ChunkMap, nb: int)
    requires nb >= MIN_LARGE_SIZE
    ensures NoFit(cs, nb, MIN_LARGE_SIZE)
  {
  }
}
