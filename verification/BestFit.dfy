/** The best-fit search of tmalloc_large and tmalloc_small over all treebins. */
module BestFit {
  import opened Words
  import opened BinIndex
  import opened BinMaps
  import opened Trie
  import opened TreeMemory
  import opened HeapState
  import opened TreeBins

  /** a - b on size_t. */
  function Minus(a: int, b: int): int {
    (a - b) % SIZE_T_MOD
  }

  /** Every chunk of the trees is in the bin of its size. */
  ghost predicate Sorted(trees: seq<Tree>) {
    forall i, s {:trigger s in Sizes(trees[i])} :: 0 <= i < |trees| && s in Sizes(trees[i]) ==>
      MIN_LARGE_SIZE <= s < ADDRESS_LIMIT && TreeIndex(s) == i
  }

  /** v is a chunk of size nb + rsize in tree i; rsize is -nb while none was found. */
  ghost predicate SearchState(trees: seq<Tree>, i: nat, nb: int, v: int, rsize: int) {
    && i < |trees| && 0 <= nb && 0 <= rsize <= SIZE_T_MOD - nb
    && (v == 0 ==> rsize == SIZE_T_MOD - nb)
    && (v != 0 ==> Holds(trees[i], v, nb + rsize))
  }

  /** No chunk of the trees fits nb better than a remainder of rsize. */
  ghost predicate NoBetter(trees: seq<Tree>, nb: int, rsize: int) {
    forall i, s :: 0 <= i < |trees| && s in Sizes(trees[i]) && s >= nb ==> s >= nb + rsize
  }

  /** The trem < rsize test of the walks at a node of size s. */
  function Better(s: int, nb: int, rsize: int): bool {
    Minus(s, nb) < rsize
  }

  /** The unsigned comparison never prefers a chunk that is too small. */
  lemma BetterIs(s: int, nb: int, rsize: int)
    requires 0 < s < ADDRESS_LIMIT && 0 < nb < SIZE_T_MOD && 0 <= rsize <= SIZE_T_MOD - nb
    ensures Better(s, nb, rsize) <==> nb <= s < nb + rsize
    ensures Better(s, nb, rsize) ==> Minus(s, nb) == s - nb
  {
    if s >= nb {
      assert Minus(s, nb) == s - nb;
    } else {
      assert Minus(s, nb) == s - nb + SIZE_T_MOD;
    }
  }

  // ---------- leftmost descent ----------

  /** t is a subtree of some tree of the bins, lies in memory, and has sizes in [lo, lo + 2^k). */
  ghost predicate Subtree(m: Mem, trees: seq<Tree>, i: nat, t: Tree, lo: int, k: nat, par: int) {
    && i < |trees| && Rep(m, t, par) && Shape(t, lo, k)
    && (forall p, s :: Holds(t, p, s) ==> Holds(trees[i], p, s))
    && Sizes(t) <= Sizes(trees[i])
  }

  ghost predicate AllFit(t: Tree, nb: int) {
    forall s :: s in Sizes(t) ==> nb <= s
  }

  /** What is still to be examined below t can only hold sizes that t's minimum beats. */
  ghost predicate Descending(start: set<nat>, t: Tree, lo: int, k: nat, nb: int, rsize: int) {
    rsize == 0 || nb >= ADDRESS_LIMIT || (
      && AllFit(t, nb)
      && forall s :: s in start && s >= nb ==> s >= nb + rsize || (t.Node? && (s in Sizes(t) || s >= lo + Pow2(k))))
  }

  function LeftmostChild(t: Tree): Tree
    requires t.Node?
  {
    if t.left.Node? then t.left else t.right
  }

  function LeftmostLow(t: Tree, lo: int, k: nat): int
    requires t.Node?
  {
    if t.left.Node? || k == 0 then lo else lo + Pow2(k - 1)
  }

  function Less(k: nat): nat {
    if k == 0 then 0 else k - 1
  }

  lemma SubtreeRoot(m: Mem, trees: seq<Tree>, i: nat, t: Tree, lo: int, k: nat, par: int)
    requires Subtree(m, trees, i, t, lo, k, par) && Sorted(trees)
    ensures Root(t) == 0 <==> t.Nil?
    ensures t.Node? ==> (Holds(trees[i], Root(t), t.size) && t.size in Sizes(trees[i])
                         && ChunkSize(m, Root(t)) == t.size && MIN_LARGE_SIZE <= t.size < ADDRESS_LIMIT
                         && lo <= t.size < lo + Pow2(k))
  {
    if t.Node? {
      assert Common(m, t.ring[0], t.size);
      assert Holds(t, t.ring[0], t.size);
      assert t.size in Sizes(t);
      FlagsOff(t.size, 1);
    }
  }

  lemma SubtreeChildren(m: Mem, trees: seq<Tree>, i: nat, t: Tree, lo: int, k: nat, par: int)
    requires Subtree(m, trees, i, t, lo, k, par) && t.Node?
    ensures Rd(m, Root(t) + CHILD0) == Root(t.left) && Rd(m, Root(t) + CHILD1) == Root(t.right)
    ensures Subtree(m, trees, i, t.left, lo, Less(k), Root(t))
    ensures Subtree(m, trees, i, t.right, if k == 0 then lo else lo + Pow2(k - 1), Less(k), Root(t))
  {
    hide RingRep;
    assert forall p, s :: Holds(t.left, p, s) ==> Holds(t, p, s);
    assert forall p, s :: Holds(t.right, p, s) ==> Holds(t, p, s);
  }

  lemma DescendStart(t: Tree, lo: int, k: nat, nb: int, rsize: int)
    requires rsize == 0 || nb >= ADDRESS_LIMIT || AllFit(t, nb)
    ensures Descending(Sizes(t), t, lo, k, nb, rsize)
  {
  }

  lemma DescendEnd(start: set<nat>, t: Tree, lo: int, k: nat, nb: int, rsize: int)
    requires t.Nil? && Descending(start, t, lo, k, nb, rsize) && rsize >= 0
    requires forall s :: s in start ==> s < ADDRESS_LIMIT
    ensures forall s :: s in start && s >= nb ==> s >= nb + rsize
  {
  }

  lemma LeftmostIs(m: Mem, trees: seq<Tree>, i: nat, t: Tree, lo: int, k: nat, par: int)
    requires Subtree(m, trees, i, t, lo, k, par) && t.Node? && Sorted(trees)
    ensures var c0 := Rd(m, Root(t) + CHILD0);
      && Root(LeftmostChild(t)) == (if c0 != 0 then c0 else Rd(m, Root(t) + CHILD1))
      && Subtree(m, trees, i, LeftmostChild(t), LeftmostLow(t, lo, k), Less(k), Root(t))
    ensures (t decreases to LeftmostChild(t)) && Shape(t, lo, k) && (LeftmostChild(t).Node? ==> k > 0)
  {
    hide Rep, RingRep, Sizes, Holds;
    SubtreeChildren(m, trees, i, t, lo, k, par);
    SubtreeRoot(m, trees, i, t.left, lo, Less(k), Root(t));
    assert k == 0 ==> t.left.Nil? && t.right.Nil?;
  }

  lemma DescendStep(start: set<nat>, t: Tree, lo: int, k: nat, nb: int, rsize: int, rsize': int)
    requires t.Node? && Shape(t, lo, k) && Descending(start, t, lo, k, nb, rsize)
    requires 0 <= rsize' <= rsize && (nb <= t.size ==> nb + rsize' <= t.size)
    ensures Descending(start, LeftmostChild(t), LeftmostLow(t, lo, k), Less(k), nb, rsize')
  {
    hide Pow2;
    ChildSizes(t, lo, k);
    if rsize' != 0 && nb < ADDRESS_LIMIT {
      var c := LeftmostChild(t);
      forall s | s in Sizes(c) ensures nb <= s {
        assert s in Sizes(t);
      }
      forall s | s in start && s >= nb
        ensures s >= nb + rsize' || (c.Node? && (s in Sizes(c) || s >= LeftmostLow(t, lo, k) + Pow2(Less(k))))
      {
        assert s >= nb + rsize || s in Sizes(t) || s >= lo + Pow2(k);
      }
    }
  }

  /** Where the sizes of the children lie. */
  lemma ChildSizes(t: Tree, lo: int, k: nat)
    requires t.Node? && Shape(t, lo, k)
    ensures Sizes(t) == {t.size} + Sizes(t.left) + Sizes(t.right)
    ensures (t.left.Nil? ==> Sizes(t.left) == {}) && (t.right.Nil? ==> Sizes(t.right) == {})
    ensures k == 0 ==> t.left.Nil? && t.right.Nil?
    ensures k > 0 ==> Pow2(k) == 2 * Pow2(k - 1)
    ensures k > 0 ==> forall s :: s in Sizes(t.left) ==> lo <= s < lo + Pow2(k - 1)
    ensures k > 0 ==> forall s :: s in Sizes(t.right) ==> lo + Pow2(k - 1) <= s < lo + Pow2(k)
  {
    if k > 0 {
      SizesInRange(t.left, lo, k - 1);
      SizesInRange(t.right, lo + Pow2(k - 1), k - 1);
    }
  }

  /** Examine one node: keep it if it fits better than the candidate. */
  lemma Examine(m: Mem, trees: seq<Tree>, i: nat, t: Tree, lo: int, k: nat, par: int, nb: int, v: int, rsize: int)
    requires Subtree(m, trees, i, t, lo, k, par) && t.Node? && Sorted(trees)
    requires SearchState(trees, i, nb, v, rsize) && 0 < nb < SIZE_T_MOD
    ensures ChunkSize(m, Root(t)) == t.size && Root(t) != 0
    ensures var better := Better(t.size, nb, rsize);
      var v', rsize' := if better then Root(t) else v, if better then Minus(t.size, nb) else rsize;
      && SearchState(trees, i, nb, v', rsize') && rsize' <= rsize && (nb <= t.size ==> nb + rsize' <= t.size)
  {
    SubtreeRoot(m, trees, i, t, lo, k, par);
    BetterIs(t.size, nb, rsize);
    hide Subtree, Better, Minus;
  }

  /**
   * The second loop of tmalloc_large, and the loop of tmalloc_small: find the smallest of a tree
   * or subtree, given that nothing else among all can be the best.
   */
  method FindSmallest(M: MallocState, nb: int, start: int, v0: int, rsize0: int, ghost all: set<nat>,
                      ghost i: nat, ghost t0: Tree, ghost lo0: int, ghost k0: nat, ghost par0: int)
    returns (v: int, rsize: int, ghost rounds: nat)
    requires Subtree(M.mem, M.trees, i, t0, lo0, k0, par0) && Root(t0) == start && Sorted(M.trees)
    requires SearchState(M.trees, i, nb, v0, rsize0) && 0 < nb < SIZE_T_MOD
    requires Descending(all, t0, lo0, k0, nb, rsize0) && all <= Sizes(M.trees[i])
    ensures SearchState(M.trees, i, nb, v, rsize) && rsize <= rsize0
    ensures forall s :: s in all && s >= nb ==> s >= nb + rsize
    ensures rounds <= k0 + 1
  {
    v, rsize, rounds := v0, rsize0, 0;
    var t := start;
    ghost var cur, lo, k, par := t0, lo0, k0, par0;
    SizesBound(M.trees, i, all);
    SubtreeRoot(M.mem, M.trees, i, t0, lo0, k0, par0);
    hide *;
    while t != 0
      invariant Subtree(M.mem, M.trees, i, cur, lo, k, par) && Root(cur) == t && (t == 0 <==> cur.Nil?)
      invariant SearchState(M.trees, i, nb, v, rsize) && rsize <= rsize0
      invariant Descending(all, cur, lo, k, nb, rsize)
      invariant rounds + (if cur.Node? then k + 1 else 0) <= k0 + 1
      decreases cur
    {
      rounds := rounds + 1;
      ghost var r0 := rsize;
      Examine(M.mem, M.trees, i, cur, lo, k, par, nb, v, rsize);
      LeftmostIs(M.mem, M.trees, i, cur, lo, k, par);
      var s := ChunkSize(M.mem, t);
      if Better(s, nb, rsize) {
        rsize := Minus(s, nb);
        v := t;
      }
      DescendStep(all, cur, lo, k, nb, r0, rsize);
      var c0 := Rd(M.mem, t + CHILD0);
      ghost var next := LeftmostChild(cur);
      t := if c0 != 0 then c0 else Rd(M.mem, t + CHILD1);
      lo, k, par, cur := LeftmostLow(cur, lo, k), Less(k), Root(cur), next;
      SubtreeRoot(M.mem, M.trees, i, cur, lo, k, par);
    }
    DescendEnd(all, cur, lo, k, nb, rsize);
  }

  lemma SizesBound(trees: seq<Tree>, i: nat, all: set<nat>)
    requires Sorted(trees) && i < |trees| && all <= Sizes(trees[i])
    ensures forall s :: s in all ==> s < ADDRESS_LIMIT
  {
    forall s | s in all ensures s < ADDRESS_LIMIT {
      assert s in Sizes(trees[i]);
      assert TreeIndex(s) == i;
    }
  }

  lemma SubtreeShape(m: Mem, trees: seq<Tree>, i: nat, t: Tree, lo: int, k: nat, par: int)
    requires Subtree(m, trees, i, t, lo, k, par)
    ensures Shape(t, lo, k)
  {
  }

  // ---------- the path for a request's own size ----------

  ghost predicate PathNode(m: Mem, trees: seq<Tree>, i: nat, t: Tree, nb: nat, key: int, lo: int, k: nat, par: int) {
    && Subtree(m, trees, i, t, lo, k, par)
    && 0 <= key < SIZE_T_MOD
    && (nb < ADDRESS_LIMIT && t.Node? ==> KeyFor(key, nb, lo, k))
  }

  /** rst is the deepest untaken right subtree; no fitting size of the bin was passed over. */
  ghost predicate Path(all: set<nat>, t: Tree, lo: int, k: nat, rst: Tree, rlo: int, rk: nat, nb: int, rsize: int) {
    rsize == 0 || nb >= ADDRESS_LIMIT || (
      && (rst.Node? ==> nb <= rlo && (t.Node? ==> lo + Pow2(k) <= rlo))
      && forall s :: s in all && s >= nb ==>
           s >= nb + rsize || s in Sizes(t) || (rst.Node? && (s in Sizes(rst) || s >= rlo + Pow2(rk))))
  }

  lemma PathPointers(m: Mem, trees: seq<Tree>, i: nat, t: Tree, nb: nat, key: int, lo: int, k: nat, par: int)
    requires PathNode(m, trees, i, t, nb, key, lo, k, par) && t.Node? && Sorted(trees)
    ensures var bit := KeyBit(key);
      && (bit == 0 || bit == 1)
      && Rd(m, Root(t) + CHILD0 + 8 * bit) == Root(NextTree(t, bit))
      && Rd(m, Root(t) + CHILD1) == Root(t.right)
      && (Root(NextTree(t, bit)) == 0 <==> NextTree(t, bit).Nil?)
      && (Root(t.right) == 0 <==> t.right.Nil?)
      && (t.right.Node? ==> (Root(t.right) == Root(NextTree(t, bit)) <==> bit == 1))
    ensures Shape(t, lo, k)
  {
    hide Rep, RingRep, Sizes, Holds, KeyFor, KeyBit, Pow2, Subtree, Sorted;
    var mid := if k == 0 then lo else lo + Pow2(k - 1);
    SubtreeShape(m, trees, i, t, lo, k, par);
    KeyBitIs(key);
    SubtreeChildren(m, trees, i, t, lo, k, par);
    SubtreeRoot(m, trees, i, t.left, lo, Less(k), Root(t));
    SubtreeRoot(m, trees, i, t.right, mid, Less(k), Root(t));
  }

  lemma KeyBitIs(key: int)
    requires 0 <= key < SIZE_T_MOD
    ensures KeyBit(key) == 0 || KeyBit(key) == 1
  {
  }

  lemma PathStep(m: Mem, trees: seq<Tree>, i: nat, t: Tree, nb: nat, key: int, lo: int, k: nat, par: int)
    requires PathNode(m, trees, i, t, nb, key, lo, k, par) && t.Node? && t.size != nb && Sorted(trees)
    ensures var bit := KeyBit(key);
      PathNode(m, trees, i, NextTree(t, bit), nb, KeyShift(key), NextLow(lo, k, bit), Less(k), Root(t))
    ensures Subtree(m, trees, i, t.right, NextLow(lo, k, 1), Less(k), Root(t))
    ensures nb < ADDRESS_LIMIT ==> (k >= 1 && (KeyBit(key) == 0 <==> nb < lo + Pow2(k - 1))
                                    && lo <= nb < lo + Pow2(k))
  {
    hide Subtree, KeyFor, Sorted;
    SubtreeChildren(m, trees, i, t, lo, k, par);
    SubtreeRoot(m, trees, i, t, lo, k, par);
    if nb < ADDRESS_LIMIT {
      KeyInside(key, nb, lo, k, t.size);
    }
  }

  /** The key of nb at a node whose size is another one of the same range. */
  lemma KeyInside(key: int, nb: nat, lo: int, k: nat, size: nat)
    requires KeyFor(key, nb, lo, k) && lo <= size < lo + Pow2(k) && size != nb
    ensures var bit := KeyBit(key);
      k >= 1 && (bit == 0 <==> nb < lo + Pow2(k - 1)) && lo <= nb < lo + Pow2(k) && 0 <= bit <= 1
      && KeyFor(KeyShift(key), nb, NextLow(lo, k, bit), Less(k))
  {
    KeyStep(key, nb, lo, k);
  }

  lemma PathAdvance(all: set<nat>, t: Tree, nb: nat, lo: int, k: nat, rst: Tree, rlo: int, rk: nat,
                    rsize: int, rsize': int, bit: int)
    requires t.Node? && Shape(t, lo, k) && 0 <= bit <= 1 && Shape(rst, rlo, rk)
    requires Path(all, t, lo, k, rst, rlo, rk, nb, rsize) && 0 < rsize' <= rsize
    requires nb <= t.size ==> nb + rsize' <= t.size
    requires nb < ADDRESS_LIMIT ==> k >= 1 && (bit == 0 <==> nb < lo + Pow2(k - 1)) && lo <= nb < lo + Pow2(k)
    ensures var turn := bit == 0 && t.right.Node?;
      Path(all, NextTree(t, bit), NextLow(lo, k, bit), Less(k), if turn then t.right else rst,
        if turn then NextLow(lo, k, 1) else rlo, if turn then Less(k) else rk, nb, rsize')
  {
    hide Pow2, Sizes, Shape;
    ChildSizes(t, lo, k);
    SizesInRange(rst, rlo, rk);
    if nb < ADDRESS_LIMIT {
      var turn := bit == 0 && t.right.Node?;
      var next, nlo, nk := NextTree(t, bit), NextLow(lo, k, bit), Less(k);
      var rst', rlo', rk' := if turn then t.right else rst, if turn then NextLow(lo, k, 1) else rlo, if turn then Less(k) else rk;
      assert rst'.Node? ==> nb <= rlo' && (next.Node? ==> nlo + Pow2(nk) <= rlo');
      forall s | s in all && s >= nb
        ensures s >= nb + rsize' || s in Sizes(next) || (rst'.Node? && (s in Sizes(rst') || s >= rlo' + Pow2(rk')))
      {
        assert s >= nb + rsize || s in Sizes(t) || (rst.Node? && (s in Sizes(rst) || s >= rlo + Pow2(rk)));
      }
    }
  }

  /** Where the first loop of tmalloc_large leaves off: only T may still hold a better fit. */
  ghost predicate Narrowed(m: Mem, trees: seq<Tree>, idx: nat, T: Tree, lo: int, k: nat, par: int, nb: int, rsize: int) {
    && Subtree(m, trees, idx, T, lo, k, par)
    && (rsize == 0 || nb >= ADDRESS_LIMIT || AllFit(T, nb))
    && forall s :: s in Sizes(trees[idx]) && s >= nb ==>
         s >= nb + rsize || (T.Node? && (s in Sizes(T) || s >= lo + Pow2(k)))
  }

  lemma PathStart(m: Mem, gm: int, map_: nat, trees: seq<Tree>, big: set<int>, nb: nat, idx: nat)
    requires TreesOk(m, gm, map_, trees, big) && Sorted(trees)
    requires MIN_LARGE_SIZE <= nb < SIZE_T_MOD && idx == TreeIndex(nb)
    ensures idx < |trees|
    ensures var t, h := trees[idx], TreeBinAt(gm, idx);
      && Rd(m, h) == Root(t) && (Root(t) == 0 <==> t.Nil?)
      && PathNode(m, trees, idx, t, nb, StartKey(nb, idx), BinLow(idx), BinBits(idx), h)
      && Path(Sizes(t), t, BinLow(idx), BinBits(idx), Nil, 0, 0, nb, SIZE_T_MOD - nb)
    ensures Subtree(m, trees, idx, Nil, 0, 0, 0)
    ensures SearchState(trees, idx, nb, 0, SIZE_T_MOD - nb)
  {
    hide TreeIndex, Rep, TreeBin, KeyFor, TreesOk, Shape, Sorted, Full, BinLow, BinBits, StartKey;
    BinParts(m, gm, map_, trees, big, idx);
    var t, h := trees[idx], TreeBinAt(gm, idx);
    RootNonZero(m, t, h);
    if nb < ADDRESS_LIMIT {
      BinCovers(nb);
      StartKeyFor(nb, idx);
    }
    NilTree(m);
  }

  lemma NilTree(m: Mem)
    ensures Rep(m, Nil, 0) && Shape(Nil, 0, 0)
  {
  }

  lemma BinParts(m: Mem, gm: int, map_: nat, trees: seq<Tree>, big: set<int>, i: nat)
    requires TreesOk(m, gm, map_, trees, big) && i < NBINS
    ensures |trees| == NBINS && var t, h := trees[i], TreeBinAt(gm, i);
      Rd(m, h) == Root(t) && Rep(m, t, h) && Full(t) && Shape(t, BinLow(i), BinBits(i))
  {
    hide Rep, Shape, Rd, Full;
    assert TreeBin(m, gm, map_, trees[i], i);
  }

  lemma PathEnd(m: Mem, trees: seq<Tree>, idx: nat, t: Tree, lo: int, k: nat, rst: Tree, rlo: int, rk: nat, rpar: int,
                nb: int, rsize: int)
    requires t.Nil? && idx < |trees| && Path(Sizes(trees[idx]), t, lo, k, rst, rlo, rk, nb, rsize) && rsize >= 0
    requires Subtree(m, trees, idx, rst, rlo, rk, rpar) && Sorted(trees)
    ensures Narrowed(m, trees, idx, rst, rlo, rk, rpar, nb, rsize)
  {
    SizesInRange(rst, rlo, rk);
    forall s | s in Sizes(trees[idx]) ensures s < ADDRESS_LIMIT {
      assert TreeIndex(s) == idx;
    }
  }

  lemma PathExact(m: Mem, trees: seq<Tree>, idx: nat, t: Tree, lo: int, k: nat, par: int, nb: int)
    requires Subtree(m, trees, idx, t, lo, k, par)
    ensures Narrowed(m, trees, idx, t, lo, k, par, nb, 0)
  {
  }

  lemma PathNodeSub(m: Mem, trees: seq<Tree>, i: nat, t: Tree, nb: nat, key: int, lo: int, k: nat, par: int)
    requires PathNode(m, trees, i, t, nb, key, lo, k, par)
    ensures Subtree(m, trees, i, t, lo, k, par)
  {
  }

  /** A subtree with its range of sizes and its parent. */
  datatype Spot = Spot(t: Tree, lo: int, k: nat, par: int)

  /** The state of the first loop of tmalloc_large at node c, with r the deepest untaken right subtree. */
  ghost predicate AtPath(m: Mem, trees: seq<Tree>, i: nat, nb: nat, key: int, c: Spot, r: Spot, v: int, rsize: int) {
    && i < |trees| && c.t.Node?
    && PathNode(m, trees, i, c.t, nb, key, c.lo, c.k, c.par)
    && Subtree(m, trees, i, r.t, r.lo, r.k, r.par)
    && SearchState(trees, i, nb, v, rsize) && rsize > 0
    && Path(Sizes(trees[i]), c.t, c.lo, c.k, r.t, r.lo, r.k, nb, rsize)
  }

  ghost predicate NarrowedTo(m: Mem, trees: seq<Tree>, i: nat, c: Spot, nb: int, v: int, rsize: int) {
    SearchState(trees, i, nb, v, rsize) && Narrowed(m, trees, i, c.t, c.lo, c.k, c.par, nb, rsize)
  }

  ghost function NextSpot(c: Spot, bit: int): Spot
    requires c.t.Node?
  {
    Spot(NextTree(c.t, bit), NextLow(c.lo, c.k, bit), Less(c.k), Root(c.t))
  }

  ghost function Untaken(c: Spot, r: Spot, bit: int): Spot
    requires c.t.Node?
  {
    if bit == 0 && c.t.right.Node? then NextSpot(c, 1) else r
  }

  lemma PathBegin(m: Mem, gm: int, map_: nat, trees: seq<Tree>, big: set<int>, nb: nat, idx: nat)
    requires TreesOk(m, gm, map_, trees, big) && Sorted(trees)
    requires MIN_LARGE_SIZE <= nb < SIZE_T_MOD && idx == TreeIndex(nb)
    ensures idx < |trees|
    ensures var h := TreeBinAt(gm, idx);
      var c, r, rsize := Spot(trees[idx], BinLow(idx), BinBits(idx), h), Spot(Nil, 0, 0, 0), SIZE_T_MOD - nb;
      && Rd(m, h) == Root(c.t) && (Root(c.t) == 0 <==> c.t.Nil?) && Root(r.t) == 0
      && (c.t.Node? ==> AtPath(m, trees, idx, nb, StartKey(nb, idx), c, r, 0, rsize))
      && (c.t.Nil? ==> NarrowedTo(m, trees, idx, r, nb, 0, rsize))
  {
    PathStart(m, gm, map_, trees, big, nb, idx);
    if trees[idx].Nil? {
      PathEnd(m, trees, idx, trees[idx], BinLow(idx), BinBits(idx), Nil, 0, 0, 0, nb, SIZE_T_MOD - nb);
    }
    hide TreesOk, Sorted, PathNode, Subtree, SearchState, Path, Narrowed, TreeIndex;
  }

  /** At one node: the comparison with its size. */
  lemma PathLook(m: Mem, trees: seq<Tree>, i: nat, nb: nat, key: int, c: Spot, r: Spot, v: int, rsize: int)
    requires AtPath(m, trees, i, nb, key, c, r, v, rsize) && Sorted(trees) && 0 < nb < SIZE_T_MOD
    ensures ChunkSize(m, Root(c.t)) == c.t.size
    ensures var better := Better(c.t.size, nb, rsize);
      var v', rsize' := if better then Root(c.t) else v, if better then Minus(c.t.size, nb) else rsize;
      && SearchState(trees, i, nb, v', rsize') && 0 <= rsize' <= rsize && (nb <= c.t.size ==> nb + rsize' <= c.t.size)
      && (rsize' == 0 ==> NarrowedTo(m, trees, i, c, nb, v', rsize'))
  {
    PathNodeSub(m, trees, i, c.t, nb, key, c.lo, c.k, c.par);
    Examine(m, trees, i, c.t, c.lo, c.k, c.par, nb, v, rsize);
    PathExact(m, trees, i, c.t, c.lo, c.k, c.par, nb);
    hide AtPath, Sorted, Subtree, Narrowed, Better, Minus;
  }

  /** From one node to the next, or to the subtree that is left to be searched. */
  lemma PathMove(m: Mem, trees: seq<Tree>, i: nat, nb: nat, key: int, c: Spot, r: Spot, v: int, rsize: int, v': int, rsize': int)
    requires AtPath(m, trees, i, nb, key, c, r, v, rsize) && Sorted(trees)
    requires SearchState(trees, i, nb, v', rsize') && 0 < rsize' <= rsize && (nb <= c.t.size ==> nb + rsize' <= c.t.size)
    ensures var n, u := NextSpot(c, KeyBit(key)), Untaken(c, r, KeyBit(key));
      && (n.t.Node? ==> AtPath(m, trees, i, nb, KeyShift(key), n, u, v', rsize'))
      && (n.t.Nil? ==> NarrowedTo(m, trees, i, u, nb, v', rsize'))
      && (c.t decreases to n.t)
  {
    hide Sorted, Subtree, SearchState, Path, Narrowed, PathNode, KeyBit, KeyShift, Shape, Less, NextLow;
    var bit := KeyBit(key);
    PathPointers(m, trees, i, c.t, nb, key, c.lo, c.k, c.par);
    PathStep(m, trees, i, c.t, nb, key, c.lo, c.k, c.par);
    SubtreeShape(m, trees, i, r.t, r.lo, r.k, r.par);
    PathAdvance(Sizes(trees[i]), c.t, nb, c.lo, c.k, r.t, r.lo, r.k, rsize, rsize', bit);
    var n, u := NextSpot(c, bit), Untaken(c, r, bit);
    if n.t.Nil? {
      PathEnd(m, trees, i, n.t, n.lo, n.k, u.t, u.lo, u.k, u.par, nb, rsize');
    }
  }

  /** The words the loop reads at a node. */
  lemma PathWords(m: Mem, trees: seq<Tree>, i: nat, nb: nat, key: int, c: Spot, r: Spot, v: int, rsize: int)
    requires AtPath(m, trees, i, nb, key, c, r, v, rsize) && Sorted(trees)
    ensures var bit, rt := KeyBit(key), Rd(m, Root(c.t) + CHILD1);
      var n, t := NextSpot(c, bit).t, Rd(m, Root(c.t) + CHILD0 + 8 * bit);
      && t == Root(n) && (t == 0 <==> n.Nil?)
      && Root(Untaken(c, r, bit).t) == (if rt != 0 && rt != t then rt else Root(r.t))
  {
    hide Sorted, Subtree, SearchState, Path, PathNode, KeyBit, Root;
    PathPointers(m, trees, i, c.t, nb, key, c.lo, c.k, c.par);
  }

  lemma Positive(nb: int)
    requires MIN_LARGE_SIZE <= nb < SIZE_T_MOD
    ensures 0 < nb
  {
  }

  lemma IndexBound(nb: int)
    requires MIN_LARGE_SIZE <= nb
    ensures TreeIndex(nb) < NTREEBINS
  {
  }

  /** A further node means a further undecided bit. */
  lemma PathDepth(m: Mem, trees: seq<Tree>, i: nat, nb: nat, key: int, c: Spot, r: Spot, v: int, rsize: int, bit: int)
    requires AtPath(m, trees, i, nb, key, c, r, v, rsize)
    ensures NextSpot(c, bit).t.Node? ==> NextSpot(c, bit).k + 1 == c.k
  {
    hide Rep, Sizes, Holds, Path, KeyFor;
    assert Shape(c.t, c.lo, c.k);
  }

  /** The first loop of tmalloc_large: the path of nb's own bits, down from the root of its bin. */
  method FollowPath(M: MallocState, nb: int, idx: nat, ghost big: set<int>) returns (v: int, rsize: int, t: int, ghost s: Spot, ghost rounds: nat)
    requires TreesOk(M.mem, M.gm, M.treemap, M.trees, big)
    requires Sorted(M.trees) && MIN_LARGE_SIZE <= nb < SIZE_T_MOD && idx == TreeIndex(nb)
    ensures SearchState(M.trees, idx, nb, v, rsize)
    ensures Root(s.t) == t && NarrowedTo(M.mem, M.trees, idx, s, nb, v, rsize)
    ensures idx < NTREEBINS && rounds <= BinBits(idx) + 1
  {
    hide *;
    IndexBound(nb);
    v, rsize, rounds := 0, SIZE_T_MOD - nb, 0;
    t := Rd(M.mem, TreeBinAt(M.gm, idx));
    Positive(nb);
    PathBegin(M.mem, M.gm, M.treemap, M.trees, big, nb, idx);
    s := Spot(M.trees[idx], BinLow(idx), BinBits(idx), TreeBinAt(M.gm, idx));
    ghost var r := Spot(Nil, 0, 0, 0);
    var key := StartKey(nb, idx);
    var rst := 0;
    if t == 0 {
      s := r;
      NarrowedToIs(M.mem, M.trees, idx, s, nb, v, rsize);
      return;
    }
    while true
      invariant AtPath(M.mem, M.trees, idx, nb, key, s, r, v, rsize) && s.t.Node? && Root(s.t) == t && Root(r.t) == rst
      invariant rounds + s.k <= BinBits(idx)
      decreases s.t
    {
      rounds := rounds + 1;
      ghost var v0, r0 := v, rsize;
      PathLook(M.mem, M.trees, idx, nb, key, s, r, v, rsize);
      var z := ChunkSize(M.mem, t);
      if Better(z, nb, rsize) {
        v, rsize := t, Minus(z, nb);
      }
      if rsize == 0 {
        break;
      }
      PathWords(M.mem, M.trees, idx, nb, key, s, r, v0, r0);
      PathMove(M.mem, M.trees, idx, nb, key, s, r, v0, r0, v, rsize);
      var bit := KeyBit(key);
      PathDepth(M.mem, M.trees, idx, nb, key, s, r, v0, r0, bit);
      var rt := Rd(M.mem, t + CHILD1);
      t := Rd(M.mem, t + CHILD0 + 8 * bit);
      if rt != 0 && rt != t {
        rst := rt;
      }
      s, r := NextSpot(s, bit), Untaken(s, r, bit);
      if t == 0 {
        t := rst;
        s := r;
        break;
      }
      key := KeyShift(key);
    }
    NarrowedToIs(M.mem, M.trees, idx, s, nb, v, rsize);
  }

  /** The treebin to try when the request's own bin has nothing that fits. */
  method NextBin(M: MallocState, idx: nat, ghost big: set<int>) returns (t: int, ghost i: nat)
    requires TreesOk(M.mem, M.gm, M.treemap, M.trees, big) && idx < NBINS
    ensures t == 0 ==> forall j :: idx < j < NBINS ==> M.trees[j].Nil?
    ensures t != 0 ==> (idx < i < NBINS && M.trees[i].Node? && Root(M.trees[i]) == t
                        && forall j :: idx < j < i ==> M.trees[j].Nil?)
  {
    hide *;
    t, i := 0, 0;
    var leftbits := And(LeftBits(Idx2Bit(idx)), M.treemap);
    AboveMarked(M.mem, M.gm, M.treemap, M.trees, big, idx, leftbits);
    if leftbits != 0 {
      var n := Bit2Idx(LeastBit(leftbits));
      t := Rd(M.mem, TreeBinAt(M.gm, n));
      i := n;
    }
  }

  lemma AboveMarked(m: Mem, gm: int, map_: nat, trees: seq<Tree>, big: set<int>, idx: nat, leftbits: nat)
    requires TreesOk(m, gm, map_, trees, big) && idx < NBINS && leftbits == And(LeftBits(Idx2Bit(idx)), map_)
    ensures leftbits == 0 ==> forall j :: idx < j < NBINS ==> trees[j].Nil?
    ensures var i := Bit2Idx(LeastBit(leftbits));
      leftbits != 0 ==> (idx < i < NBINS && trees[i].Node? && Rd(m, TreeBinAt(gm, i)) == Root(trees[i]) != 0
                         && forall j :: idx < j < i ==> trees[j].Nil?)
    ensures |trees| == NBINS
  {
    AndBound(LeftBits(Idx2Bit(idx)), map_);
    if leftbits == 0 {
      forall j | idx < j < NBINS ensures trees[j].Nil? {
        AboveHas(map_, idx, j);
        HasZero(j);
        assert TreeBin(m, gm, map_, trees[j], j);
      }
    } else {
      LowestMarked(leftbits);
      var i := Bit2Idx(LeastBit(leftbits));
      AboveHas(map_, idx, i);
      assert TreeBin(m, gm, map_, trees[i], i);
      RootNonZero(m, trees[i], TreeBinAt(gm, i));
      forall j | idx < j < i ensures trees[j].Nil? {
        AboveHas(map_, idx, j);
        assert TreeBin(m, gm, map_, trees[j], j);
      }
    }
    hide Hung, LeftBits, LeastBit, Bit2Idx, And, Has;
  }

  /** A whole tree of a higher bin: a subtree of itself in which everything fits. */
  lemma HigherTree(m: Mem, gm: int, map_: nat, trees: seq<Tree>, big: set<int>, i: nat, nb: nat)
    requires TreesOk(m, gm, map_, trees, big) && Sorted(trees) && i < NBINS
    requires MIN_LARGE_SIZE <= nb < SIZE_T_MOD && TreeIndex(nb) < i
    ensures Subtree(m, trees, i, trees[i], BinLow(i), BinBits(i), TreeBinAt(gm, i))
    ensures nb >= ADDRESS_LIMIT || AllFit(trees[i], nb)
  {
    assert TreeBin(m, gm, map_, trees[i], i);
    if nb < ADDRESS_LIMIT {
      forall s | s in Sizes(trees[i]) ensures nb <= s {
        assert TreeIndex(s) == i;
        HigherBinLarger(nb, s);
      }
    }
    hide TreeIndex, Hung;
  }

  /** The best of bin idx is the best of all, and so is the best of the next bin when idx has none. */
  lemma BestOfAll(trees: seq<Tree>, idx: nat, i: nat, nb: int, v: int, rsize: int)
    requires Sorted(trees) && |trees| == NBINS && MIN_LARGE_SIZE <= nb < SIZE_T_MOD && idx == TreeIndex(nb) <= i
    requires SearchState(trees, i, nb, v, rsize)
    requires forall s :: s in Sizes(trees[i]) && s >= nb ==> s >= nb + rsize
    requires forall j, s :: idx <= j < i && s in Sizes(trees[j]) ==> s < nb
    requires v == 0 ==> forall j :: i < j < NBINS ==> trees[j].Nil?
    ensures NoBetter(trees, nb, rsize)
  {
    hide TreeIndex, Sorted, SearchState;
    forall j, s | 0 <= j < |trees| && s in Sizes(trees[j]) && s >= nb ensures s >= nb + rsize {
      SizeOfBin(trees, j, s);
      if j < idx {
        HigherBinLarger(s, nb);
      } else if j > i {
        if v != 0 {
          FoundSize(trees, i, nb, v, rsize);
          HigherBinLarger(nb + rsize, s);
        }
      }
    }
  }

  lemma TooLarge(trees: seq<Tree>, nb: int, rsize: int)
    requires Sorted(trees) && nb >= ADDRESS_LIMIT
    ensures NoBetter(trees, nb, rsize)
  {
    forall j, s | 0 <= j < |trees| && s in Sizes(trees[j]) ensures s < nb {
      assert TreeIndex(s) == j;
    }
  }

  /** After FindSmallest on T: the bin of T has nothing better, and a tree that fits gave a chunk. */
  lemma SmallestOfBin(m: Mem, trees: seq<Tree>, i: nat, T: Tree, lo: int, k: nat, par: int, nb: int,
                      r0: int, v: int, rsize: int)
    requires Narrowed(m, trees, i, T, lo, k, par, nb, r0) && Sorted(trees) && MIN_LARGE_SIZE <= nb < ADDRESS_LIMIT
    requires SearchState(trees, i, nb, v, rsize) && rsize <= r0
    requires forall s :: s in Sizes(T) && s >= nb ==> s >= nb + rsize
    ensures forall s :: s in Sizes(trees[i]) && s >= nb ==> s >= nb + rsize
    ensures T.Node? && r0 != 0 ==> v != 0
  {
    hide Rep, Shape;
    if T.Node? {
      SubtreeRoot(m, trees, i, T, lo, k, par);
      assert T.size in Sizes(T);
    }
  }

  lemma NarrowedWhole(m: Mem, trees: seq<Tree>, i: nat, t: Tree, lo: int, k: nat, par: int, nb: int, r0: int)
    requires Subtree(m, trees, i, t, lo, k, par) && t == trees[i] && (nb >= ADDRESS_LIMIT || AllFit(t, nb))
    ensures Narrowed(m, trees, i, t, lo, k, par, nb, r0)
  {
  }

  lemma NothingInBin(m: Mem, trees: seq<Tree>, idx: nat, T: Tree, lo: int, k: nat, par: int, nb: int, rsize: int)
    requires Narrowed(m, trees, idx, T, lo, k, par, nb, rsize) && T.Nil? && Sorted(trees)
    requires SearchState(trees, idx, nb, 0, rsize)
    ensures forall s :: s in Sizes(trees[idx]) ==> s < nb
  {
    forall s | s in Sizes(trees[idx]) ensures s < nb {
      assert TreeIndex(s) == idx;
    }
  }

  lemma NarrowedSub(m: Mem, trees: seq<Tree>, i: nat, T: Tree, lo: int, k: nat, par: int, nb: int, rsize: int)
    requires Narrowed(m, trees, i, T, lo, k, par, nb, rsize) && Sorted(trees)
    ensures Subtree(m, trees, i, T, lo, k, par) && (rsize == 0 || nb >= ADDRESS_LIMIT || AllFit(T, nb))
    ensures Root(T) == 0 <==> T.Nil?
  {
    SubtreeRoot(m, trees, i, T, lo, k, par);
  }

  lemma NarrowedSizes(m: Mem, trees: seq<Tree>, i: nat, T: Tree, lo: int, k: nat, par: int, nb: int, rsize: int)
    requires Narrowed(m, trees, i, T, lo, k, par, nb, rsize)
    ensures i < |trees| && Sizes(T) <= Sizes(trees[i])
  {
  }

  lemma OtherSearch(trees: seq<Tree>, idx: nat, i: nat, nb: int, rsize: int)
    requires SearchState(trees, idx, nb, 0, rsize) && i < |trees|
    ensures SearchState(trees, i, nb, 0, rsize)
  {
  }

  /** The tree or subtree that the second loop of tmalloc_large descends. */
  method PickTree(M: MallocState, nb: int, idx: nat, ghost big: set<int>) returns (v: int, rsize: int, t: int,
      ghost i: nat, ghost T: Tree, ghost lo: int, ghost k: nat, ghost par: int)
    requires TreesOk(M.mem, M.gm, M.treemap, M.trees, big)
    requires Sorted(M.trees) && MIN_LARGE_SIZE <= nb < SIZE_T_MOD && idx == TreeIndex(nb)
    ensures SearchState(M.trees, i, nb, v, rsize) && Root(T) == t && idx <= i
    ensures Narrowed(M.mem, M.trees, i, T, lo, k, par, nb, rsize)
    ensures forall j, s :: idx <= j < i && s in Sizes(M.trees[j]) ==> s < nb
    ensures v == 0 && T.Nil? ==> forall j :: i < j < NBINS ==> M.trees[j].Nil?
  {
    ghost var m, trees := M.mem, M.trees;
    assert |trees| == NBINS;
    hide *;
    ghost var s, rounds;
    v, rsize, t, s, rounds := FollowPath(M, nb, idx, big);
    T, lo, k, par := s.t, s.lo, s.k, s.par;
    NarrowedToIs(m, trees, idx, s, nb, v, rsize);
    NarrowedSub(m, trees, idx, T, lo, k, par, nb, rsize);
    i := idx;
    if t == 0 && v == 0 {
      NothingInBin(m, trees, idx, T, lo, k, par, nb, rsize);
      ghost var next;
      t, next := NextBin(M, idx, big);
      if t != 0 {
        i := next;
        HigherTree(m, M.gm, M.treemap, trees, big, i, nb);
        T, lo, k, par := trees[i], BinLow(i), BinBits(i), TreeBinAt(M.gm, i);
        NarrowedWhole(m, trees, i, T, lo, k, par, nb, rsize);
        OtherSearch(trees, idx, i, nb, rsize);
        EmptyBetween(trees, idx, i, nb);
      }
    }
  }

  lemma NarrowedToIs(m: Mem, trees: seq<Tree>, i: nat, c: Spot, nb: int, v: int, rsize: int)
    requires NarrowedTo(m, trees, i, c, nb, v, rsize)
    ensures SearchState(trees, i, nb, v, rsize) && Narrowed(m, trees, i, c.t, c.lo, c.k, c.par, nb, rsize)
  {
  }

  lemma EmptyBetween(trees: seq<Tree>, idx: nat, i: nat, nb: int)
    requires idx < i <= |trees| && forall j :: idx < j < i ==> trees[j].Nil?
    requires forall s :: s in Sizes(trees[idx]) ==> s < nb
    ensures forall j, s :: idx <= j < i && s in Sizes(trees[j]) ==> s < nb
  {
  }

  lemma FoundStays(trees: seq<Tree>, i: nat, nb: int, v0: int, r0: int, v: int, rsize: int)
    requires Sorted(trees) && SearchState(trees, i, nb, v0, r0) && SearchState(trees, i, nb, v, rsize) && rsize <= r0
    requires v0 != 0
    ensures v != 0
  {
    HoldsSize(trees[i], v0, nb + r0);
    assert TreeIndex(nb + r0) == i;
  }

  /**
   * The search of tmalloc_large: v is a chunk of minimum size among those of size nb or more in
   * all treebins, and 0 exactly if there is none.
   */
  method BestFitLarge(M: MallocState, nb: int, ghost big: set<int>) returns (v: int, rsize: int, ghost i: nat)
    requires TreesOk(M.mem, M.gm, M.treemap, M.trees, big)
    requires Sorted(M.trees) && MIN_LARGE_SIZE <= nb < SIZE_T_MOD
    ensures SearchState(M.trees, i, nb, v, rsize) && NoBetter(M.trees, nb, rsize)
  {
    ghost var m, trees := M.mem, M.trees;
    var idx := TreeIndex(nb);
    var t;
    ghost var T, lo, k, par;
    assert |trees| == NBINS;
    hide *;
    v, rsize, t, i, T, lo, k, par := PickTree(M, nb, idx, big);
    ghost var v0, r0 := v, rsize;
    NarrowedSub(m, trees, i, T, lo, k, par, nb, rsize);
    DescendStart(T, lo, k, nb, rsize);
    NarrowedSizes(m, trees, i, T, lo, k, par, nb, rsize);
    ghost var rounds;
    v, rsize, rounds := FindSmallest(M, nb, t, v, rsize, Sizes(T), i, T, lo, k, par);
    if nb >= ADDRESS_LIMIT {
      TooLarge(trees, nb, rsize);
    } else {
      SmallestOfBin(m, trees, i, T, lo, k, par, nb, r0, v, rsize);
      if v0 != 0 { FoundStays(trees, i, nb, v0, r0, v, rsize); }
      if rsize == 0 { FoundExact(trees, i, nb, v, rsize); }
      BestOfAll(trees, idx, i, nb, v, rsize);
    }
  }

  lemma FoundExact(trees: seq<Tree>, i: nat, nb: int, v: int, rsize: int)
    requires SearchState(trees, i, nb, v, rsize) && nb < SIZE_T_MOD && rsize == 0
    ensures v != 0
  {
  }

  /** The lowest marked treebin. */
  lemma LowestBin(m: Mem, gm: int, map_: nat, trees: seq<Tree>, big: set<int>)
    requires TreesOk(m, gm, map_, trees, big) && map_ != 0 && Sorted(trees)
    ensures var i := Bit2Idx(LeastBit(map_));
      && i < NBINS && |trees| == NBINS && trees[i].Node?
      && Rd(m, TreeBinAt(gm, i)) == Root(trees[i])
      && Subtree(m, trees, i, trees[i], BinLow(i), BinBits(i), TreeBinAt(gm, i))
      && (forall j :: 0 <= j < i ==> trees[j].Nil?)
  {
    LowestMarked(map_);
    var i := Bit2Idx(LeastBit(map_));
    assert TreeBin(m, gm, map_, trees[i], i);
    forall j | 0 <= j < i ensures trees[j].Nil? {
      assert TreeBin(m, gm, map_, trees[j], j);
    }
    hide Hung, LeastBit, Bit2Idx, Has;
  }

  lemma LowestHolds(trees: seq<Tree>, i: nat, nb: int, v: int, rsize: int)
    requires Sorted(trees) && |trees| == NBINS && i < NBINS && 0 < nb <= MIN_LARGE_SIZE
    requires SearchState(trees, i, nb, v, rsize) && v != 0
    requires forall s :: s in Sizes(trees[i]) && s >= nb ==> s >= nb + rsize
    requires forall j :: 0 <= j < i ==> trees[j].Nil?
    ensures NoBetter(trees, nb, rsize)
  {
    hide TreeIndex, Sorted, SearchState;
    FoundSize(trees, i, nb, v, rsize);
    forall j, s | 0 <= j < |trees| && s in Sizes(trees[j]) && s >= nb ensures s >= nb + rsize {
      SizeOfBin(trees, j, s);
      if j > i {
        HigherBinLarger(nb + rsize, s);
      } else if j < i {
        LowerIsEmpty(trees, i, j, s);
      }
    }
  }

  lemma LowerIsEmpty(trees: seq<Tree>, i: int, j: int, s: int)
    requires 0 <= j < i <= |trees| && forall j :: 0 <= j < i ==> trees[j].Nil?
    ensures s !in Sizes(trees[j])
  {
  }

  lemma FoundSize(trees: seq<Tree>, i: nat, nb: int, v: int, rsize: int)
    requires Sorted(trees) && SearchState(trees, i, nb, v, rsize) && v != 0
    ensures TreeIndex(nb + rsize) == i && MIN_LARGE_SIZE <= nb + rsize < ADDRESS_LIMIT
  {
    hide TreeIndex;
    HoldsSize(trees[i], v, nb + rsize);
  }

  lemma SizeOfBin(trees: seq<Tree>, i: nat, s: nat)
    requires Sorted(trees) && i < |trees| && s in Sizes(trees[i])
    ensures TreeIndex(s) == i && MIN_LARGE_SIZE <= s < ADDRESS_LIMIT
  {
    hide TreeIndex;
  }

  lemma FirstOfTree(m: Mem, trees: seq<Tree>, i: nat, t: Tree, lo: int, k: nat, par: int, nb: int)
    requires Subtree(m, trees, i, t, lo, k, par) && t.Node? && i < |trees| && t == trees[i] && Sorted(trees)
    requires 0 < nb <= MIN_LARGE_SIZE
    ensures var rsize := Minus(ChunkSize(m, Root(t)), nb);
      && Root(t) != 0 && rsize == t.size - nb && SearchState(trees, i, nb, Root(t), rsize)
      && Descending(Sizes(t), LeftmostChild(t), LeftmostLow(t, lo, k), Less(k), nb, rsize)
  {
    assert MIN_LARGE_SIZE < ADDRESS_LIMIT < SIZE_T_MOD;
    hide *;
    SubtreeRoot(m, trees, i, t, lo, k, par);
    SubtreeShape(m, trees, i, t, lo, k, par);
    ExactDifference(t.size, nb);
    AllLarge(trees, i, nb);
    DescendStart(t, lo, k, nb, SIZE_T_MOD - nb);
    DescendStep(Sizes(t), t, lo, k, nb, SIZE_T_MOD - nb, t.size - nb);
    SearchFound(trees, i, nb, Root(t), t.size - nb);
  }

  lemma ExactDifference(a: int, b: int)
    requires 0 <= b <= a < SIZE_T_MOD
    ensures Minus(a, b) == a - b
  {
  }

  lemma AllLarge(trees: seq<Tree>, i: nat, nb: int)
    requires Sorted(trees) && i < |trees| && nb <= MIN_LARGE_SIZE
    ensures AllFit(trees[i], nb)
  {
    hide TreeIndex;
  }

  lemma SearchFound(trees: seq<Tree>, i: nat, nb: int, v: int, rsize: int)
    requires i < |trees| && 0 <= nb && 0 <= rsize <= SIZE_T_MOD - nb && v != 0 && Holds(trees[i], v, nb + rsize)
    ensures SearchState(trees, i, nb, v, rsize)
  {
  }

  /** The search of tmalloc_small: v is a smallest chunk of all treebins. */
  method BestFitSmall(M: MallocState, nb: int, ghost big: set<int>) returns (v: int, rsize: int, ghost i: nat)
    requires TreesOk(M.mem, M.gm, M.treemap, M.trees, big) && M.treemap != 0
    requires Sorted(M.trees) && 0 < nb <= MIN_LARGE_SIZE
    ensures SearchState(M.trees, i, nb, v, rsize) && NoBetter(M.trees, nb, rsize) && v != 0
  {
    ghost var m, trees := M.mem, M.trees;
    var leastbit := LeastBit(M.treemap);
    var n := Bit2Idx(leastbit);
    i := n;
    LowestBin(m, M.gm, M.treemap, trees, big);
    var t := Rd(M.mem, TreeBinAt(M.gm, n));
    v, rsize := t, Minus(ChunkSize(M.mem, t), nb);
    ghost var T, lo, k, par := trees[i], BinLow(i), BinBits(i), TreeBinAt(M.gm, i);
    FirstOfTree(m, trees, i, T, lo, k, par, nb);
    LeftmostIs(m, trees, i, T, lo, k, par);
    hide *;
    ghost var v0, r0 := v, rsize;
    var c0 := Rd(M.mem, t + CHILD0);
    t := if c0 != 0 then c0 else Rd(M.mem, t + CHILD1);
    ghost var rounds;
    v, rsize, rounds := FindSmallest(M, nb, t, v, rsize, Sizes(T), i, LeftmostChild(T), LeftmostLow(T, lo, k), Less(k), Root(T));
    FoundStays(trees, i, nb, v0, r0, v, rsize);
    LowestHolds(trees, i, nb, v, rsize);
  }
}
