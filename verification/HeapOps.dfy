/** The bin operations on the whole heap: a chunk leaves its bin, enters one, or becomes dv. */
module HeapOps {
  import opened Words
  import opened BinIndex
  import opened BinMaps
  import opened Trie
  import opened Rings
  import opened TreeMemory
  import opened Chunks
  import opened HeapState
  import TB = TreeBins
  import SB = SmallBins
  import opened BestFit
  import opened Heap
  import opened Steps

  /** unlink_large_chunk. */
  method UnlinkLarge(M: MallocState, p: int, ghost z: int)
    requires HeapOk(M.gm, M.Now()) && p in M.chunks && M.chunks[p] == Chunk(z, Binned) && z >= MIN_LARGE_SIZE
    modifies M`mem, M`treemap, M`trees, M`chunks
    ensures HeapOk(M.gm, M.Now()) && M.chunks == old(M.chunks)[p := Chunk(z, Loose)]
    ensures Keeps(old(M.Now()), M.Now(), {}) && FreeOnly(old(M.mem), M.mem, M.gm, old(M.chunks))
  {
    ghost var s := M.Now();
    UnlinkReady(M.gm, s, p, z);
    hide *;
    TB.UnlinkLargeChunk(M, p, TreeIndex(z), z, BinSet(M.chunks, false));
    M.chunks := M.chunks[p := Chunk(z, Loose)];
    LargeUnlinkedIs(M.gm, s, p, z, M.Now());
    UnlinkLargeHeap(M.gm, s, p, z, M.Now());
    KeepsRekind(M.gm, s, M.Now(), p, Loose);
  }

  lemma LargeUnlinkedIs(gm: int, s: Snap, p: int, z: nat, s': Snap)
    requires TreeIndex(z) < |s.trees| && p in Addrs(s.trees[TreeIndex(z)])
    requires s' == s.(mem := s'.mem, treemap := s'.treemap,
                      trees := s.trees[TreeIndex(z) := Remove(s.trees[TreeIndex(z)], p)], chunks := s.chunks[p := Chunk(z, Loose)])
    requires TB.TreesOk(s'.mem, gm, s'.treemap, s'.trees, BinSet(s.chunks, false))
    requires Only(s.mem, s'.mem, Addrs(s.trees[TreeIndex(z)]), TreeBinAt(gm, TreeIndex(z)))
    ensures LargeUnlinked(gm, s, p, z, s')
  {
  }

  /** unlink_small_chunk. */
  method UnlinkSmall(M: MallocState, p: int, z: int)
    requires HeapOk(M.gm, M.Now()) && p in M.chunks && M.chunks[p] == Chunk(z, Binned) && z < MIN_LARGE_SIZE
    modifies M`mem, M`smallmap, M`small, M`chunks
    ensures HeapOk(M.gm, M.Now()) && M.chunks == old(M.chunks)[p := Chunk(z, Loose)]
    ensures Keeps(old(M.Now()), M.Now(), {}) && FreeOnly(old(M.mem), M.mem, M.gm, old(M.chunks))
  {
    ghost var s := M.Now();
    UnlinkReady(M.gm, s, p, z);
    hide *;
    SB.UnlinkSmallChunk(M, p, z, BinSet(M.chunks, true));
    M.chunks := M.chunks[p := Chunk(z, Loose)];
    SmallUnlinkedIs(M.gm, s, p, z, M.Now());
    UnlinkSmallHeap(M.gm, s, p, z, M.Now());
    KeepsRekind(M.gm, s, M.Now(), p, Loose);
  }

  lemma SmallUnlinkedIs(gm: int, s: Snap, p: int, z: nat, s': Snap)
    requires SmallIndex(z) < |s.small| && p in s.small[SmallIndex(z)]
    requires s' == s.(mem := s'.mem, smallmap := s'.smallmap,
                      small := s.small[SmallIndex(z) := SB.Without(s.small[SmallIndex(z)], p)], chunks := s.chunks[p := Chunk(z, Loose)])
    requires SB.SmallsOk(s'.mem, gm, s'.smallmap, s'.small, BinSet(s.chunks, true))
    requires SB.SmallOnly(s.mem, s'.mem, gm, SmallIndex(z), Members(s.small[SmallIndex(z)]))
    ensures SmallUnlinked(gm, s, p, z, s')
  {
  }

  /** unlink_chunk. */
  method UnlinkChunk(M: MallocState, p: int, z: int)
    requires HeapOk(M.gm, M.Now()) && p in M.chunks && M.chunks[p] == Chunk(z, Binned)
    modifies M`mem, M`smallmap, M`treemap, M`small, M`trees, M`chunks
    ensures HeapOk(M.gm, M.Now()) && M.chunks == old(M.chunks)[p := Chunk(z, Loose)]
    ensures Keeps(old(M.Now()), M.Now(), {}) && FreeOnly(old(M.mem), M.mem, M.gm, old(M.chunks))
  {
    ghost var s := M.Now();
    SmallIffBelow(M.gm, s, p, z);
    hide *;
    if IsSmall(z) {
      UnlinkSmall(M, p, z);
    } else {
      UnlinkLarge(M, p, z);
    }
  }

  lemma SmallIffBelow(gm: int, s: Snap, p: int, z: int)
    requires HeapOk(gm, s) && p in s.chunks && s.chunks[p].size == z
    ensures IsSmall(z) <==> z < MIN_LARGE_SIZE
    ensures z >= 16 && z % 16 == 0 && z < ADDRESS_LIMIT && p > 0 && p % 16 == 0
  {
    assert TagAt(s.mem, s.chunks, p);
  }

  /** unlink_first_small_chunk: the first chunk of a marked small bin leaves it. */
  method UnlinkFirst(M: MallocState, i: nat) returns (p: int)
    requires HeapOk(M.gm, M.Now()) && i < NBINS && Has(M.smallmap, i)
    modifies M`mem, M`smallmap, M`small, M`chunks
    ensures p in old(M.chunks) && old(M.chunks)[p] == Chunk(8 * i, Binned)
    ensures HeapOk(M.gm, M.Now()) && M.chunks == old(M.chunks)[p := Chunk(8 * i, Loose)]
    ensures Keeps(old(M.Now()), M.Now(), {})
  {
    ghost var s := M.Now();
    SmallMembers(s.chunks, s.small, s.trees, i);
    hide *;
    SmallsOf(M.gm, s);
    p := SB.UnlinkFirstSmallChunk(M, i, BinSet(M.chunks, true));
    M.chunks := M.chunks[p := Chunk(8 * i, Loose)];
    assert SmallIndex(8 * i) == i by { SmallIndexOf(i); }
    SmallUnlinkedIs(M.gm, s, p, 8 * i, M.Now());
    UnlinkSmallHeap(M.gm, s, p, 8 * i, M.Now());
    KeepsRekind(M.gm, s, M.Now(), p, Loose);
  }

  lemma SmallIndexOf(i: int)
    ensures SmallIndex(8 * i) == i && (i < NBINS ==> 8 * i < MIN_LARGE_SIZE) && Free(Binned) && Free(Loose)
  {
  }

  lemma SmallsOf(gm: int, s: Snap)
    requires HeapOk(gm, s)
    ensures SB.SmallsOk(s.mem, gm, s.smallmap, s.small, BinSet(s.chunks, true)) && |s.small| == NBINS
    ensures TB.TreesOk(s.mem, gm, s.treemap, s.trees, BinSet(s.chunks, false)) && |s.trees| == NBINS
    ensures Homes(s.chunks, s.small, s.trees)
  {
  }

  /** insert_large_chunk. */
  method InsertLarge(M: MallocState, p: int, z: int)
    requires HeapOk(M.gm, M.Now()) && p in M.chunks && M.chunks[p] == Chunk(z, Loose) && z >= MIN_LARGE_SIZE
    modifies M`mem, M`treemap, M`trees, M`chunks
    ensures HeapOk(M.gm, M.Now()) && M.chunks == old(M.chunks)[p := Chunk(z, Binned)]
    ensures Keeps(old(M.Now()), M.Now(), {})
  {
    ghost var s := M.Now();
    ReadyToInsert(M.gm, s, p, z);
    hide *;
    SmallsOf(M.gm, s);
    TB.InsertLargeChunk(M, p, z, BinSet(M.chunks, false) + {p});
    M.chunks := M.chunks[p := Chunk(z, Binned)];
    LargeInsertedIs(M.gm, s, p, z, M.Now());
    InsertLargeHeap(M.gm, s, p, z, M.Now());
    KeepsRekind(M.gm, s, M.Now(), p, Binned);
  }

  lemma LargeInsertedIs(gm: int, s: Snap, p: int, z: nat, s': Snap)
    requires TreeIndex(z) < |s.trees|
    requires var i := TreeIndex(z);
      s' == s.(mem := s'.mem, treemap := s'.treemap,
               trees := s.trees[i := Insert(s.trees[i], z, p, BinLow(i), BinBits(i))], chunks := s.chunks[p := Chunk(z, Binned)])
    requires TB.TreesOk(s'.mem, gm, s'.treemap, s'.trees, BinSet(s.chunks, false) + {p})
    requires Only(s.mem, s'.mem, Addrs(s.trees[TreeIndex(z)]) + {p}, TreeBinAt(gm, TreeIndex(z)))
    ensures LargeInserted(gm, s, p, z, s')
  {
  }

  /** insert_small_chunk. */
  method InsertSmall(M: MallocState, p: int, z: int)
    requires HeapOk(M.gm, M.Now()) && p in M.chunks && M.chunks[p] == Chunk(z, Loose) && z < MIN_LARGE_SIZE
    modifies M`mem, M`smallmap, M`small, M`chunks
    ensures HeapOk(M.gm, M.Now()) && M.chunks == old(M.chunks)[p := Chunk(z, Binned)]
    ensures Keeps(old(M.Now()), M.Now(), {})
  {
    ghost var s := M.Now();
    LooseSize(M.gm, s, p, z);
    ReadyToInsertSmall(M.gm, s, p, z);
    hide *;
    SmallsOf(M.gm, s);
    InSet(p, BinSet(M.chunks, true));
    SB.InsertSmallChunk(M, p, z, BinSet(M.chunks, true) + {p});
    M.chunks := M.chunks[p := Chunk(z, Binned)];
    SmallInsertedIs(M.gm, s, p, z, M.Now());
    InsertSmallHeap(M.gm, s, p, z, M.Now());
    KeepsRekind(M.gm, s, M.Now(), p, Binned);
  }

  lemma InSet(p: int, a: set<int>)
    ensures p in a + {p}
  {
  }

  lemma SmallInsertedIs(gm: int, s: Snap, p: int, z: nat, s': Snap)
    requires SmallIndex(z) < |s.small|
    requires var i := SmallIndex(z);
      s' == s.(mem := s'.mem, smallmap := s'.smallmap, small := s.small[i := [p] + s.small[i]], chunks := s.chunks[p := Chunk(z, Binned)])
    requires SB.SmallsOk(s'.mem, gm, s'.smallmap, s'.small, BinSet(s.chunks, true) + {p})
    requires SB.SmallOnly(s.mem, s'.mem, gm, SmallIndex(z), Members(s.small[SmallIndex(z)]) + {p})
    ensures SmallInserted(gm, s, p, z, s')
  {
  }

  /** insert_chunk. */
  method InsertChunk(M: MallocState, p: int, z: int)
    requires HeapOk(M.gm, M.Now()) && p in M.chunks && M.chunks[p] == Chunk(z, Loose)
    modifies M`mem, M`smallmap, M`treemap, M`small, M`trees, M`chunks
    ensures HeapOk(M.gm, M.Now()) && M.chunks == old(M.chunks)[p := Chunk(z, Binned)]
    ensures Keeps(old(M.Now()), M.Now(), {})
  {
    ghost var s := M.Now();
    SmallIffBelow(M.gm, s, p, z);
    hide *;
    if IsSmall(z) {
      InsertSmall(M, p, z);
    } else {
      InsertLarge(M, p, z);
    }
  }

  /**
   * replace_dv: the chunk r becomes dv, and the old dv goes to a small bin, which is right only
   * for a dv of small size.
   */
  method ReplaceDv(M: MallocState, r: int, rsize: int)
    requires HeapOk(M.gm, M.Now()) && r in M.chunks && M.chunks[r] == Chunk(rsize, Loose) && M.dvsize < MIN_LARGE_SIZE
    modifies M`mem, M`smallmap, M`small, M`chunks, M`dv, M`dvsize
    ensures HeapOk(M.gm, M.Now()) && M.dv == r && M.dvsize == rsize
    ensures M.chunks == (if old(M.dvsize) == 0 then old(M.chunks)
                         else old(M.chunks)[old(M.dv) := Chunk(old(M.dvsize), Binned)])[r := Chunk(rsize, Victim)]
    ensures Keeps(old(M.Now()), M.Now(), {}) && LooseSet(M.Now()) == LooseSet(old(M.Now())) - {r}
  {
    ghost var s := M.Now();
    var dvs := M.dvsize;
    NoDv(M.gm, s);
    KeepsSame(s);
    hide *;
    if dvs != 0 {
      LooseSize(M.gm, s, M.dv, dvs);
      BinOldDv(M, M.dv, dvs);
    }
    ghost var s3 := M.Now().(dv := 0, dvsize := 0);
    CrownDv(M, r, rsize);
    Crown(M.gm, s3, M.Now(), r);
    KeepsTrans(s, s3, M.Now(), {}, {}, {});
    LooseReplaced(s, M.Now(), r, rsize);
  }

  method CrownDv(M: MallocState, r: int, rsize: int)
    modifies M`dv, M`dvsize, M`chunks
    ensures M.Now() == old(M.Now()).(dv := r, dvsize := rsize, chunks := old(M.chunks)[r := Chunk(rsize, Victim)])
  {
    M.dvsize := rsize;
    M.dv := r;
    M.chunks := M.chunks[r := Chunk(rsize, Victim)];
  }

  /** The old dv goes to its small bin, while dv and dvsize still name it. */
  method BinOldDv(M: MallocState, d: int, dvs: int)
    requires HeapOk(M.gm, M.Now()) && d == M.dv && dvs == M.dvsize && 0 < dvs < MIN_LARGE_SIZE
    modifies M`mem, M`smallmap, M`small, M`chunks
    ensures var s2 := M.Now().(dv := 0, dvsize := 0);
      HeapOk(M.gm, s2) && Keeps(old(M.Now()), s2, {}) && M.chunks == old(M.chunks)[d := Chunk(dvs, Binned)]
  {
    ghost var s := M.Now();
    NoDv(M.gm, s);
    hide *;
    ghost var s1 := s.(dv := 0, dvsize := 0, chunks := s.chunks[d := Chunk(dvs, Loose)]);
    Uncrown(M.gm, s, s1);
    LooseSize(M.gm, s1, d, dvs);
    ReadyToInsertSmall(M.gm, s1, d, dvs);
    SmallsOf(M.gm, s1);
    InSet(d, BinSet(s1.chunks, true));
    SB.InsertSmallChunk(M, d, dvs, BinSet(s1.chunks, true) + {d});
    M.chunks := M.chunks[d := Chunk(dvs, Binned)];
    ghost var s2 := M.Now().(dv := 0, dvsize := 0);
    DvBinned(M.gm, s, s1, s2, d, dvs);
  }

  lemma DvBinned(gm: int, s: Snap, s1: Snap, s2: Snap, d: int, dvs: nat)
    requires HeapOk(gm, s1) && Keeps(s, s1, {}) && d in s1.chunks && s1.chunks[d] == Chunk(dvs, Loose) && 0 < dvs < MIN_LARGE_SIZE
    requires SmallIndex(dvs) < |s1.small|
    requires var i := SmallIndex(dvs);
      s2 == s1.(mem := s2.mem, smallmap := s2.smallmap, small := s1.small[i := [d] + s1.small[i]], chunks := s1.chunks[d := Chunk(dvs, Binned)])
    requires SB.SmallsOk(s2.mem, gm, s2.smallmap, s2.small, BinSet(s1.chunks, true) + {d})
    requires SB.SmallOnly(s1.mem, s2.mem, gm, SmallIndex(dvs), Members(s1.small[SmallIndex(dvs)]) + {d})
    ensures HeapOk(gm, s2) && Keeps(s, s2, {})
  {
    hide HeapOk, Keeps, SB.SmallsOk, SB.SmallOnly, BinSet, Members;
    SmallInsertedIs(gm, s1, d, dvs, s2);
    InsertSmallHeap(gm, s1, d, dvs, s2);
    KeepsRekind(gm, s1, s2, d, Binned);
    KeepsTrans(s, s1, s2, {}, {}, {});
  }

  lemma LooseReplaced(s: Snap, s': Snap, r: int, rsize: int)
    requires s.dvsize != 0 ==> s.dv in s.chunks && s.chunks[s.dv].kind == Victim
    requires s'.chunks == (if s.dvsize == 0 then s.chunks else s.chunks[s.dv := Chunk(s.dvsize, Binned)])[r := Chunk(rsize, Victim)]
    ensures LooseSet(s') == LooseSet(s) - {r}
  {
  }

  lemma NoDv(gm: int, s: Snap)
    requires HeapOk(gm, s)
    ensures s.dvsize == 0 ==> s.dv == 0
    ensures s.dvsize != 0 ==> s.dv in s.chunks && s.chunks[s.dv] == Chunk(s.dvsize, Victim) && Free(Victim) && Free(Loose) && Free(Binned)
  {
  }

  lemma KeepsSame(s: Snap)
    ensures Keeps(s, s, {})
  {
  }

  // ---------- searches on the whole heap ----------

  /** No binned chunk of size nb or more is smaller than z. */
  ghost predicate NoFit(cs: ChunkMap, nb: int, z: int) {
    forall q :: q in cs && cs[q].kind == Binned && cs[q].size >= nb ==> cs[q].size >= z
  }

  lemma SizeSorted(gm: int, s: Snap, i: nat, z: nat)
    requires HeapOk(gm, s) && i < |s.trees| && |s.trees| == NBINS && z in Sizes(s.trees[i])
    ensures MIN_LARGE_SIZE <= z < ADDRESS_LIMIT && TreeIndex(z) == i
  {
    hide HeapOk, TreeIndex, BinLow, BinBits, TB.TreesOk, SB.SmallsOk, Shape, Sizes;
    SmallsOf(gm, s);
    TreesShape(s.mem, gm, s.treemap, s.trees, BinSet(s.chunks, false));
    var p := SizeHeld(s.trees[i], BinLow(i), BinBits(i), z);
    assert TreeEntry(s.chunks, s.trees[i], i);
    LooseSize(gm, s, p, z);
  }

  lemma TreesSorted(gm: int, s: Snap)
    requires HeapOk(gm, s)
    ensures Sorted(s.trees)
  {
    SmallsOf(gm, s);
    hide HeapOk, TB.TreesOk, SB.SmallsOk, Homes;
    forall i, z | 0 <= i < |s.trees| && z in Sizes(s.trees[i]) ensures MIN_LARGE_SIZE <= z < ADDRESS_LIMIT && TreeIndex(z) == i {
      SizeSorted(gm, s, i, z);
    }
  }

  /** Every size of a tree is the size of one of its chunks. */
  lemma {:induction false} SizeHeld(t: Tree, lo: int, k: nat, z: nat) returns (p: int)
    requires Shape(t, lo, k) && z in Sizes(t)
    ensures Holds(t, p, z)
    decreases t
  {
    if z == t.size {
      p := t.ring[0];
    } else if z in Sizes(t.left) {
      p := SizeHeld(t.left, lo, k - 1, z);
    } else {
      p := SizeHeld(t.right, lo + Pow2(k - 1), k - 1, z);
    }
  }

  /** What a search of the treebins finds is a best fit among all binned chunks of large size. */
  lemma BestBinned(gm: int, s: Snap, nb: int, i: nat, v: int, rsize: int)
    requires HeapOk(gm, s) && SearchState(s.trees, i, nb, v, rsize) && NoBetter(s.trees, nb, rsize) && nb > 0
    ensures v != 0 ==> v in s.chunks && s.chunks[v] == Chunk(nb + rsize, Binned) && nb + rsize >= MIN_LARGE_SIZE
    ensures forall q :: q in s.chunks && s.chunks[q].kind == Binned && s.chunks[q].size >= nb && s.chunks[q].size >= MIN_LARGE_SIZE ==>
      v != 0 && s.chunks[q].size >= nb + rsize
  {
    hide HeapOk, TreeIndex, TB.TreesOk, SB.SmallsOk;
    SmallsOf(gm, s);
    assert TreeEntry(s.chunks, s.trees[i], i);
    forall q | q in s.chunks && s.chunks[q].kind == Binned && s.chunks[q].size >= nb && s.chunks[q].size >= MIN_LARGE_SIZE
      ensures v != 0 && s.chunks[q].size >= nb + rsize
    {
      var z := s.chunks[q].size;
      assert InHome(s.small, s.trees, q, z);
      HoldsSize(s.trees[TreeIndex(z)], q, z);
      LooseSize(gm, s, q, z);
    }
  }

  // ---------- taking chunks ----------

  lemma LooseAfter(s: Snap, s': Snap, p: int, z: int, k: Kind)
    requires s'.chunks == s.chunks[p := Chunk(z, k)]
    ensures LooseSet(s') == (if k == Loose then LooseSet(s) + {p} else LooseSet(s) - {p})
  {
  }

  lemma TakenLoose(gm: int, s: Snap, s': Snap, p: int)
    requires HeapOk(gm, s) && Taken(s, s', p)
    ensures LooseSet(s') == LooseSet(s) - {p} && p in s'.chunks && s'.chunks[p] == Chunk(s.chunks[p].size, Used)
    ensures !LiveAt(s, p)
  {
    hide HeapOk, Merged, Inside;
    FreeFacts(gm, s, p);
    MergedOutside(s.chunks, p, p + s.chunks[p].size, Chunk(s.chunks[p].size, Used));
    forall x ensures x in LooseSet(s') <==> x in LooseSet(s) - {p} {
    }
  }

  lemma PartedLoose(gm: int, s: Snap, s': Snap, p: int, nb: int)
    requires HeapOk(gm, s) && Parted(s, s', p, nb)
    ensures LooseSet(s') == (if s.chunks[p].kind == Loose then LooseSet(s) - {p} + {p + nb} else LooseSet(s))
    ensures p in s'.chunks && s'.chunks[p] == Chunk(nb, Used) && !LiveAt(s, p)
    ensures p + nb in s'.chunks && s'.chunks[p + nb] == Chunk(s.chunks[p].size - nb, s.chunks[p].kind)
  {
    hide HeapOk, Split, Inside;
    var z, k := s.chunks[p].size, s.chunks[p].kind;
    FreeFacts(gm, s, p);
    SplitOutside(s.chunks, p, p + nb, p + z, Chunk(nb, Used), Chunk(z - nb, k));
    forall x ensures x in LooseSet(s') <==> x in (if s.chunks[p].kind == Loose then LooseSet(s) - {p} + {p + nb} else LooseSet(s)) {
    }
  }

  lemma CutLoose(gm: int, s: Snap, s': Snap, nb: int)
    requires HeapOk(gm, s) && TopCut(s, s', nb)
    ensures LooseSet(s') == LooseSet(s) && s.top in s'.chunks && s'.chunks[s.top] == Chunk(nb, Used) && !LiveAt(s, s.top)
  {
    hide HeapOk, Split, Inside;
    TopRegion(gm, s);
    SplitOutside(s.chunks, s.top, s.top + nb, s.top + s.topsize + TOP_FOOT_SIZE, Chunk(nb, Used), Chunk(s.topsize - nb, Top));
    forall x ensures x in LooseSet(s') <==> x in LooseSet(s) {
    }
  }

  /** set_inuse_and_pinuse on the whole of a chunk that has left its bin. */
  method UseWhole(M: MallocState, p: int, z: int)
    requires HeapOk(M.gm, M.Now()) && p in M.chunks && M.chunks[p] == Chunk(z, Loose)
    modifies M`mem, M`chunks
    ensures HeapOk(M.gm, M.Now()) && p in M.chunks && M.chunks[p] == Chunk(z, Used) && !LiveAt(old(M.Now()), p)
    ensures Keeps(old(M.Now()), M.Now(), {p}) && LooseSet(M.Now()) == LooseSet(old(M.Now())) - {p}
  {
    ghost var s := M.Now();
    M.mem := SetInuseAndPinuse(M.mem, p, z);
    M.chunks := Merged(M.chunks, p, p + z, Chunk(z, Used));
    assert Taken(s, M.Now(), p) by { hide SetInuseAndPinuse, Merged, HeapOk; }
    hide *;
    TakenLoose(M.gm, s, M.Now(), p);
    TakeAll(M.gm, s, M.Now(), p);
  }

  /** The chunk keeps nb bytes for use, and the rest becomes a free chunk of its own. */
  method UsePart(M: MallocState, p: int, nb: int, rsize: int) returns (r: int)
    requires HeapOk(M.gm, M.Now()) && p in M.chunks && M.chunks[p] == Chunk(nb + rsize, Loose)
    requires MIN_CHUNK_SIZE <= nb && MIN_CHUNK_SIZE <= rsize && nb % 16 == 0
    modifies M`mem, M`chunks
    ensures HeapOk(M.gm, M.Now()) && r == p + nb && !LiveAt(old(M.Now()), p)
    ensures p in M.chunks && M.chunks[p] == Chunk(nb, Used) && r in M.chunks && M.chunks[r] == Chunk(rsize, Loose)
    ensures Keeps(old(M.Now()), M.Now(), {p}) && LooseSet(M.Now()) == LooseSet(old(M.Now())) - {p} + {r}
  {
    ghost var s := M.Now();
    M.mem := SetInuseHead(M.mem, p, nb);
    r := p + nb;
    M.mem := SetFree(M.mem, r, rsize);
    M.chunks := Split(M.chunks, p, r, r + rsize, Chunk(nb, Used), Chunk(rsize, Loose));
    assert Parted(s, M.Now(), p, nb) by { hide HeapOk, Split; }
    hide *;
    PartedLoose(M.gm, s, M.Now(), p, nb);
    TakePart(M.gm, s, M.Now(), p, nb);
  }
}
