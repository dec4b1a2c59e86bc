/** The treebins of a malloc_state: insertion, removal and the best-fit search. */
module TreeBins {
  import opened Words
  import opened BinIndex
  import opened BinMaps
  import opened Trie
  import opened Rings
  import opened TreeMemory
  import opened HeapState

  /** Bin i holds tree t: its trie, its root cell and its map bit agree. */
  ghost predicate TreeBin(m: Mem, gm: int, map_: nat, t: Tree, i: nat)
    requires i < NBINS
  {
    && Hung(m, t, TreeBinAt(gm, i), TreeBinAt(gm, i))
    && Valid(t, BinLow(i), BinBits(i))
    && (Has(map_, i) <==> t.Node?)
  }

  /** The chunks of a lie apart from each other and from the state record. */
  ghost predicate Outside(gm: int, a: set<int>) {
    Spaced(a) && forall p :: p in a ==> p + 64 <= gm || gm + STATE_SIZE <= p
  }

  /** All treebins, whose chunks are among big. */
  ghost predicate TreesOk(m: Mem, gm: int, map_: nat, trees: seq<Tree>, big: set<int>) {
    && |trees| == NBINS && map_ < MAP_MOD && gm > 0
    && Outside(gm, big)
    && (forall i :: 0 <= i < NBINS ==> TreeBin(m, gm, map_, trees[i], i) && Addrs(trees[i]) <= big)
    && (forall i, j :: 0 <= i < j < NBINS ==> Addrs(trees[i]) !! Addrs(trees[j]))
  }

  /** A bin that neither the chunks a nor the cell belong to is not affected. */
  lemma TreeBinFrame(m: Mem, m': Mem, gm: int, map_: nat, map': nat, t: Tree, i: nat, a: set<int>, cell: int, big: set<int>)
    requires i < NBINS && TreeBin(m, gm, map_, t, i) && Addrs(t) <= big && Outside(gm, big)
    requires Only(m, m', a, cell) && a <= big && a !! Addrs(t)
    requires gm <= cell < gm + STATE_SIZE && cell != TreeBinAt(gm, i)
    requires Has(map', i) <==> Has(map_, i)
    ensures TreeBin(m', gm, map', t, i)
  {
    var h := TreeBinAt(gm, i);
    assert Spaced(a + Addrs(t)) by { SpacedSubset(a + Addrs(t), big); }
    assert Apart(Addrs(t), cell);
    OnlySame(m, m', a, cell, Addrs(t));
    RepFrame(m, m', t, h);
    if p :| p in a && p + FD <= h < p + 64 {
      OutsideOf(gm, big, p);
    }
  }

  lemma OutsideOf(gm: int, big: set<int>, p: int)
    requires Outside(gm, big) && p in big
    ensures p + 64 <= gm || gm + STATE_SIZE <= p
  {
  }

  // ---------- the shifted size that steers the walks ----------

  /** size << leftshift_for_tree_index(i), on 64 bits. */
  function StartKey(s: nat, i: nat): (key: int)
    requires i < NTREEBINS
    ensures 0 <= key < SIZE_T_MOD
  {
    s * Pow2(LeftShift(i)) % SIZE_T_MOD
  }

  /** The key at a node whose range is [lo, lo + 2^k): the undecided bits of s, left-aligned. */
  ghost predicate KeyFor(key: int, s: nat, lo: int, k: nat) {
    k <= 64 && lo <= s < lo + Pow2(k) && key == (s - lo) * Pow2(64 - k)
  }

  lemma StartKeyFor(s: nat, i: nat)
    requires i < NTREEBINS && BinLow(i) <= s < BinLow(i) + Pow2(BinBits(i))
    ensures KeyFor(StartKey(s, i), s, BinLow(i), BinBits(i))
  {
    var lo, k, sh := BinLow(i), BinBits(i), LeftShift(i);
    assert Pow2(k) * Pow2(sh) == SIZE_T_MOD by { Pow2Add(k, sh); Pow2Values(); }
    var c := if i == NTREEBINS - 1 then 0 else 2 + i % 2;
    BinAligned(i);
    assert lo == c * Pow2(k);
    KeyArithmetic(s, lo, c, Pow2(k), Pow2(sh));
  }

  lemma KeyArithmetic(s: nat, lo: int, c: nat, w: nat, z: nat)
    requires lo == c * w && lo <= s < lo + w && w * z == SIZE_T_MOD
    ensures s * z % SIZE_T_MOD == (s - lo) * z
  {
    var d := s - lo;
    assert s * z == d * z + c * SIZE_T_MOD by {
      assert s * z == (lo + d) * z == lo * z + d * z;
      assert lo * z == c * w * z == c * (w * z);
    }
    assert 0 <= d * z < SIZE_T_MOD by {
      MulMonotonic(d + 1, w, z);
      assert z > 0;
      assert (d + 1) * z == d * z + z;
    }
    ModCancel(d * z, c);
  }

  lemma ModCancel(x: nat, c: nat)
    requires x < SIZE_T_MOD
    ensures (x + c * SIZE_T_MOD) % SIZE_T_MOD == x
  {
  }

  /** (sizebits >> 63) & 1. */
  function KeyBit(key: int): int {
    key / TOP_BIT % 2
  }

  /** sizebits <<= 1. */
  function KeyShift(key: int): int {
    2 * key % SIZE_T_MOD
  }

  /** The top bit of the key says which half s lies in, and doubling moves on to that half. */
  lemma KeyStep(key: int, s: nat, lo: int, k: nat)
    requires KeyFor(key, s, lo, k) && k >= 1
    ensures KeyBit(key) == (if s < lo + Pow2(k - 1) then 0 else 1)
    ensures KeyFor(KeyShift(key), s, if s < lo + Pow2(k - 1) then lo else lo + Pow2(k - 1), k - 1)
  {
    hide Pow2;
    KeyWeights(k);
    KeyHalves(s - lo, Pow2(k - 1), Pow2(64 - k));
  }

  lemma KeyWeights(k: nat)
    requires 1 <= k <= 64
    ensures Pow2(k - 1) * Pow2(64 - k) == TOP_BIT
    ensures Pow2(64 - (k - 1)) == 2 * Pow2(64 - k) && Pow2(k) == 2 * Pow2(k - 1)
  {
    Pow2Add(k - 1, 64 - k);
    Pow2Values();
  }

  lemma KeyHalves(d: nat, w: nat, z: nat)
    requires w * z == TOP_BIT && d < 2 * w
    ensures d * z / TOP_BIT % 2 == (if d < w then 0 else 1)
    ensures 2 * (d * z) % SIZE_T_MOD == (if d < w then d else d - w) * (2 * z)
  {
    var hi := if d < w then 0 else 1;
    var e := d - hi * w;
    SplitKey(d, hi, w, z);
    BelowTop(e, w, z);
    MulTwo(e, z);
    TopBitOf(e * z, hi);
  }

  lemma SplitKey(d: int, hi: int, w: int, z: int)
    ensures d * z == (d - hi * w) * z + hi * (w * z)
  {
    assert hi * w * z == hi * (w * z);
  }

  lemma BelowTop(e: nat, w: nat, z: nat)
    requires e < w && w * z == TOP_BIT
    ensures 0 <= e * z < TOP_BIT
  {
    assert z > 0;
    MulMonotonic(e + 1, w, z);
    assert (e + 1) * z == e * z + z;
  }

  lemma TopBitOf(x: nat, hi: nat)
    requires x < TOP_BIT && hi <= 1
    ensures (x + hi * TOP_BIT) / TOP_BIT % 2 == hi
    ensures 2 * (x + hi * TOP_BIT) % SIZE_T_MOD == 2 * x
  {
  }

  // ---------- one bin changes, the others stay ----------

  lemma BinChanged(m: Mem, m': Mem, gm: int, map_: nat, map': nat, trees: seq<Tree>, i: nat, u: Tree,
                   a: set<int>, big: set<int>)
    requires TreesOk(m, gm, map_, trees, big) && i < NBINS
    requires Only(m, m', a, TreeBinAt(gm, i)) && Addrs(u) <= a <= big
    requires forall j :: 0 <= j < NBINS && j != i ==> a !! Addrs(trees[j])
    requires map' < MAP_MOD && forall j :: 0 <= j < NBINS && j != i ==> (Has(map', j) <==> Has(map_, j))
    requires TreeBin(m', gm, map', u, i)
    ensures TreesOk(m', gm, map', trees[i := u], big)
  {
    hide TreeBin, Only, Outside, Has, Addrs;
    var trees' := trees[i := u];
    forall j | 0 <= j < NBINS ensures TreeBin(m', gm, map', trees'[j], j) && Addrs(trees'[j]) <= big {
      if j != i {
        assert TreeBin(m, gm, map_, trees[j], j) && Addrs(trees[j]) <= big;
        assert gm <= TreeBinAt(gm, i) < gm + STATE_SIZE && TreeBinAt(gm, i) != TreeBinAt(gm, j);
        TreeBinFrame(m, m', gm, map_, map', trees[j], j, a, TreeBinAt(gm, i), big);
      }
    }
  }

  /** A free chunk among big that is in no tree. */
  ghost predicate Loose(m: Mem, trees: seq<Tree>, big: set<int>, x: int, s: int) {
    && x in big && x > 0 && x % 16 == 0 && s % 16 == 0
    && MIN_LARGE_SIZE <= s < ADDRESS_LIMIT && Rd(m, x + HEAD) == s + 1
    && forall i :: 0 <= i < |trees| ==> x !in Addrs(trees[i])
  }

  lemma PreparePlaced(m: Mem, gm: int, map_: nat, t: Tree, i: nat, x: int, s: int, big: set<int>)
    requires i < NBINS && TreeBin(m, gm, map_, t, i) && Addrs(t) <= big && Outside(gm, big)
    requires Loose(m, [t], big, x, s) && gm > 0
    ensures var m0, h := Prepared(m, x, s), TreeBinAt(gm, i);
      Placed(m0, t, x, h, h) && Ready(m0, x, s) && Only(m, m0, {x}, h)
  {
    var m0, h := Prepared(m, x, s), TreeBinAt(gm, i);
    assert [t][0] == t && x !in Addrs(t);
    assert x in {x};
    SpacedSubset({x} + Addrs(t), big);
    SpacedSubset(Addrs(t) + {x}, big);
    assert Only(m, m0, {x}, x + FD);
    ChildCellApart({x}, Addrs(t), x, x + FD);
    OnlySame(m, m0, {x}, x + FD, Addrs(t));
    RepFrame(m, m0, t, h);
  }

  lemma InsertedBin(m: Mem, gm: int, map_: nat, trees: seq<Tree>, i: nat, x: int, s: int, big: set<int>, m': Mem, map': nat)
    requires TreesOk(m, gm, map_, trees, big) && Loose(m, trees, big, x, s) && i == TreeIndex(s)
    requires var m0, h := Prepared(m, x, s), TreeBinAt(gm, i);
      m' == InsertWrites(m0, trees[i], s, x, BinLow(i), BinBits(i), h, h)
    requires map' < MAP_MOD && forall j :: 0 <= j < NBINS ==> (Has(map', j) <==> Has(map_, j) || j == i)
    ensures TreesOk(m', gm, map', trees[i := Insert(trees[i], s, x, BinLow(i), BinBits(i))], big)
    ensures Only(m, m', Addrs(trees[i]) + {x}, TreeBinAt(gm, i))
  {
    hide TreeIndex, InsertWrites, Insert, Only, Hung, Prepared;
    var t, h, lo, k := trees[i], TreeBinAt(gm, i), BinLow(i), BinBits(i);
    var m0, u := Prepared(m, x, s), Insert(t, s, x, lo, k);
    assert TreeBin(m, gm, map_, t, i) && Addrs(t) <= big;
    assert Loose(m, [t], big, x, s) by { assert x !in Addrs(trees[i]); }
    BinCovers(s);
    PreparePlaced(m, gm, map_, t, i, x, s, big);
    InsertRep(m0, t, s, x, lo, k, h, h);
    InsertDisjoint(t, s, x, lo, k);
    InsertShape(t, s, x, lo, k);
    InsertAddrs(t, s, x, lo, k);
    ShapeFull(u, lo, k);
    var a := Addrs(t) + {x};
    assert a <= big;
    assert Only(m, m', a, h) by { OnlyMono(m, m0, {x}, a, h); OnlyChain(m, m0, m', a, h, a); }
    assert u.Node?;
    NewBin(m', gm, map', u, i, big);
    BinChanged(m, m', gm, map_, map', trees, i, u, a, big);
  }

  lemma NewBin(m: Mem, gm: int, map_: nat, u: Tree, i: nat, big: set<int>)
    requires i < NBINS && Rep(m, u, TreeBinAt(gm, i)) && Rd(m, TreeBinAt(gm, i)) == Root(u)
    requires Valid(u, BinLow(i), BinBits(i)) && Addrs(u) <= big && Outside(gm, big)
    requires Has(map_, i) <==> u.Node?
    ensures TreeBin(m, gm, map_, u, i)
  {
    ShapeFull(u, BinLow(i), BinBits(i));
    SpacedSubset(Addrs(u), big);
  }

  /** insert_large_chunk(M, X, S). */
  method InsertLargeChunk(M: MallocState, x: int, s: int, ghost big: set<int>)
    requires TreesOk(M.mem, M.gm, M.treemap, M.trees, big) && Loose(M.mem, M.trees, big, x, s)
    modifies M`mem, M`treemap, M`trees
    ensures TreesOk(M.mem, M.gm, M.treemap, M.trees, big)
    ensures var i := TreeIndex(s);
      && M.trees == old(M.trees)[i := Insert(old(M.trees)[i], s, x, BinLow(i), BinBits(i))]
      && Only(old(M.mem), M.mem, Addrs(old(M.trees)[i]) + {x}, TreeBinAt(M.gm, i))
  {
    ghost var m, map_, trees := M.mem, M.treemap, M.trees;
    var i := TreeIndex(s);
    var h := TreeBinAt(M.gm, i);
    ghost var t := trees[i];
    InsertStart(m, M.gm, map_, trees, i, x, s, big);
    MarkBound(map_, i);
    forall j | 0 <= j < NBINS ensures Has(Mark(map_, i), j) <==> Has(map_, j) || j == i { MarkHas(map_, i, j); }
    hide *;
    M.mem := Prepared(M.mem, x, s);
    EndWrites(M.mem, t, s, x, BinLow(i), BinBits(i), h, h);
    if !IsMarked(M.treemap, i) {
      M.treemap := Mark(M.treemap, i);
      M.mem := M.mem[h := x][x + PARENT := h][x + FD := x][x + BK := x];
    } else {
      ghost var rounds := InsertWalk(M, x, s, i, t);
    }
    InsertedBin(m, M.gm, map_, trees, i, x, s, big, M.mem, M.treemap);
    M.trees := trees[i := Insert(trees[i], s, x, BinLow(i), BinBits(i))];
  }

  /** What insert_large_chunk may rely on once the words of x are prepared. */
  lemma InsertStart(m: Mem, gm: int, map_: nat, trees: seq<Tree>, i: nat, x: int, s: int, big: set<int>)
    requires TreesOk(m, gm, map_, trees, big) && Loose(m, trees, big, x, s) && i == TreeIndex(s)
    ensures var m0, t, h := Prepared(m, x, s), trees[i], TreeBinAt(gm, i);
      && Rep(m0, t, h) && Rd(m0, h) == Root(t) && Shape(t, BinLow(i), BinBits(i))
      && BinLow(i) <= s < BinLow(i) + Pow2(BinBits(i))
      && (IsMarked(map_, i) <==> t.Node?) && (IsMarked(map_, i) <==> Has(map_, i))
      && |trees| == NBINS && i < NBINS && map_ < MAP_MOD && s > 0
  {
    var t := trees[i];
    assert TreeBin(m, gm, map_, t, i) && Addrs(t) <= big;
    assert Loose(m, [t], big, x, s) by { assert x !in Addrs(trees[i]); }
    PreparePlaced(m, gm, map_, t, i, x, s, big);
    MarkedHas(map_, i);
    BinCovers(s);
  }

  /** What holds of the node that a walk by the bits of s has reached. */
  ghost predicate AtNode(m: Mem, v: Tree, s: nat, key: int, lo: int, k: nat, par: int) {
    v.Node? && Rep(m, v, par) && Shape(v, lo, k) && KeyFor(key, s, lo, k)
  }

  lemma AtNodeIs(m: Mem, v: Tree, s: nat, key: int, lo: int, k: nat, par: int)
    requires v.Node? && Rep(m, v, par) && Shape(v, lo, k) && KeyFor(key, s, lo, k)
    ensures AtNode(m, v, s, key, lo, k, par)
  {
  }

  function NextTree(v: Tree, bit: int): Tree
    requires v.Node?
  {
    if bit == 0 then v.left else v.right
  }

  function NextLow(lo: int, k: nat, bit: int): int {
    if bit == 0 || k == 0 then lo else lo + Pow2(k - 1)
  }

  lemma NodeSize(m: Mem, v: Tree, s: nat, key: int, lo: int, k: nat, par: int)
    requires AtNode(m, v, s, key, lo, k, par)
    ensures ChunkSize(m, Root(v)) == v.size
    ensures v.size != s ==> k >= 1
  {
    assert Common(m, v.ring[0], v.size);
    FlagsOff(v.size, 1);
    hide Rep, RingRep, Common;
  }

  lemma FlagsOff(s: int, flags: int)
    requires s % 16 == 0 && 0 <= flags < 8
    ensures s + flags - (s + flags) % 8 == s
  {
    QuotientOf(s, 16);
    ModUnique(s + flags, 8, 2 * (s / 16), flags);
  }

  lemma WalkStep(m: Mem, v: Tree, s: nat, key: int, lo: int, k: nat, par: int, bit: int)
    requires AtNode(m, v, s, key, lo, k, par) && k >= 1 && bit == KeyBit(key)
    ensures 0 <= bit <= 1
    ensures Rd(m, Root(v) + CHILD0 + 8 * bit) == Root(NextTree(v, bit))
    ensures Root(NextTree(v, bit)) == 0 <==> NextTree(v, bit).Nil?
    ensures NextTree(v, bit).Node? ==>
      AtNode(m, NextTree(v, bit), s, KeyShift(key), NextLow(lo, k, bit), k - 1, Root(v))
    ensures bit == 0 <==> s < lo + Pow2(k - 1)
  {
    hide KeyFor, RingRep, Sizes;
    KeyStep(key, s, lo, k);
    var next := NextTree(v, bit);
    assert Shape(next, NextLow(lo, k, bit), k - 1) && Rep(m, next, Root(v));
    ChildRoot(m, next, NextLow(lo, k, bit), k - 1, Root(v));
  }

  lemma ChildRoot(m: Mem, t: Tree, lo: int, k: nat, par: int)
    requires Shape(t, lo, k) && Rep(m, t, par)
    ensures Root(t) == 0 <==> t.Nil?
  {
    if t.Node? { assert Common(m, t.ring[0], t.size); }
  }

  lemma WalkWrites(m: Mem, v: Tree, s: nat, x: int, lo: int, k: nat, par: int, cell: int, bit: int)
    requires v.Node? && v.size != s && k >= 1 && (bit == 0 <==> s < lo + Pow2(k - 1)) && 0 <= bit <= 1
    ensures InsertWrites(m, v, s, x, lo, k, par, cell)
      == InsertWrites(m, NextTree(v, bit), s, x, NextLow(lo, k, bit), k - 1, Root(v), Root(v) + CHILD0 + 8 * bit)
  {
  }

  lemma EndWrites(m: Mem, v: Tree, s: nat, x: int, lo: int, k: nat, par: int, cell: int)
    ensures v.Nil? ==> InsertWrites(m, v, s, x, lo, k, par, cell) == m[cell := x][x + PARENT := par][x + FD := x][x + BK := x]
    ensures v.Node? && v.size == s ==>
      InsertWrites(m, v, s, x, lo, k, par, cell) == LinkAfter(m, Root(v), x)[x + PARENT := 0]
  {
  }

  /** At one node: its size, and what is to be written if it is the one. */
  lemma WalkHere(m: Mem, v: Tree, s: nat, x: int, key: int, lo: int, k: nat, par: int, cell: int)
    requires AtNode(m, v, s, key, lo, k, par)
    ensures ChunkSize(m, Root(v)) == v.size && (v.size != s ==> k >= 1)
    ensures v.size == s ==> InsertWrites(m, v, s, x, lo, k, par, cell) == LinkAfter(m, Root(v), x)[x + PARENT := 0]
  {
    hide *;
    NodeSize(m, v, s, key, lo, k, par);
    NodeOfWalk(m, v, s, key, lo, k, par);
    EndWrites(m, v, s, x, lo, k, par, cell);
  }

  /** From one node to the next: the child's pointer, and what is to be written there. */
  lemma WalkOn(m: Mem, v: Tree, s: nat, x: int, key: int, lo: int, k: nat, par: int, cell: int)
    requires AtNode(m, v, s, key, lo, k, par) && k >= 1 && v.size != s
    ensures var bit := KeyBit(key);
      var c, next, lo' := Root(v) + CHILD0 + 8 * bit, NextTree(v, bit), NextLow(lo, k, bit);
      && Rd(m, c) == Root(next) && (Root(next) == 0 <==> next.Nil?) && (v decreases to next)
      && (next.Node? ==> AtNode(m, next, s, KeyShift(key), lo', k - 1, Root(v)))
      && InsertWrites(m, v, s, x, lo, k, par, cell) == InsertWrites(m, next, s, x, lo', k - 1, Root(v), c)
      && (next.Nil? ==> InsertWrites(m, v, s, x, lo, k, par, cell) == m[c := x][x + PARENT := Root(v)][x + FD := x][x + BK := x])
  {
    hide *;
    var bit := KeyBit(key);
    NodeOfWalk(m, v, s, key, lo, k, par);
    WalkStep(m, v, s, key, lo, k, par, bit);
    WalkWrites(m, v, s, x, lo, k, par, cell, bit);
    SubtreeSmaller(v, bit);
    EndWrites(m, NextTree(v, bit), s, x, NextLow(lo, k, bit), k - 1, Root(v), Root(v) + CHILD0 + 8 * bit);
  }

  lemma NodeOfWalk(m: Mem, v: Tree, s: nat, key: int, lo: int, k: nat, par: int)
    requires AtNode(m, v, s, key, lo, k, par)
    ensures v.Node?
  {
  }

  /** The loop of insert_large_chunk: walk down by the bits of the size, then hang or chain x. */
  method InsertWalk(M: MallocState, x: int, s: int, i: nat, ghost t: Tree) returns (ghost rounds: nat)
    requires i < NTREEBINS && t.Node? && Shape(t, BinLow(i), BinBits(i)) && s > 0
    requires BinLow(i) <= s < BinLow(i) + Pow2(BinBits(i))
    requires Rep(M.mem, t, TreeBinAt(M.gm, i)) && Rd(M.mem, TreeBinAt(M.gm, i)) == Root(t)
    modifies M`mem
    ensures M.mem == InsertWrites(old(M.mem), t, s, x, BinLow(i), BinBits(i), TreeBinAt(M.gm, i), TreeBinAt(M.gm, i))
    ensures rounds <= BinBits(i) + 1
  {
    hide *;
    ghost var m0, h := M.mem, TreeBinAt(M.gm, i);
    var T := Rd(M.mem, TreeBinAt(M.gm, i));
    var key := StartKey(s, i);
    StartKeyFor(s, i);
    ghost var v, lo, k, par, cell := t, BinLow(i), BinBits(i), h, h;
    AtNodeIs(m0, v, s, key, lo, k, par);
    rounds := 0;
    while true
      invariant rounds + k == BinBits(i)
      invariant M.mem == m0 && v.Node? && T == Root(v) && AtNode(m0, v, s, key, lo, k, par)
      invariant InsertWrites(m0, v, s, x, lo, k, par, cell) == InsertWrites(m0, t, s, x, BinLow(i), BinBits(i), h, h)
      decreases v
    {
      rounds := rounds + 1;
      WalkHere(m0, v, s, x, key, lo, k, par, cell);
      if ChunkSize(M.mem, T) == s {
        M.mem := LinkAfter(M.mem, T, x)[x + PARENT := 0];
        return;
      }
      var bit := KeyBit(key);
      var c := T + CHILD0 + 8 * bit;
      WalkOn(m0, v, s, x, key, lo, k, par, cell);
      key := KeyShift(key);
      lo, k, par, cell := NextLow(lo, k, bit), k - 1, T, c;
      ghost var next := NextTree(v, bit);
      if Rd(M.mem, c) == 0 {
        M.mem := M.mem[c := x][x + PARENT := T][x + FD := x][x + BK := x];
        return;
      }
      T := Rd(M.mem, c);
      v := next;
    }
  }

  lemma SubtreeSmaller(v: Tree, bit: int)
    requires v.Node?
    ensures v decreases to NextTree(v, bit)
  {
  }

  // ---------- unlink_large_chunk ----------

  ghost predicate AtDeep(m: Mem, v: Tree, par: int, rp: int, leaf: Tree, cell: int) {
    v.Node? && Full(v) && Rep(m, v, par) && DeepLeaf(v) == leaf && DeepCell(v, rp) == cell
  }

  lemma DeepStep(m: Mem, v: Tree, par: int, rp: int, leaf: Tree, cell: int)
    requires AtDeep(m, v, par, rp, leaf, cell)
    ensures Rd(m, Root(v) + CHILD1) == Root(v.right) && (Root(v.right) == 0 <==> v.right.Nil?)
    ensures Rd(m, Root(v) + CHILD0) == Root(v.left) && (Root(v.left) == 0 <==> v.left.Nil?)
    ensures v.right.Node? ==> AtDeep(m, v.right, Root(v), Root(v) + CHILD1, leaf, cell)
    ensures v.right.Nil? && v.left.Node? ==> AtDeep(m, v.left, Root(v), Root(v) + CHILD0, leaf, cell)
    ensures v.right.Nil? && v.left.Nil? ==> leaf == v && cell == rp
  {
    hide RingRep;
    RootNonZero(m, v.left, Root(v));
    RootNonZero(m, v.right, Root(v));
  }

  lemma RootNonZero(m: Mem, t: Tree, par: int)
    requires Full(t) && Rep(m, t, par)
    ensures Root(t) == 0 <==> t.Nil?
  {
    if t.Node? { assert Common(m, t.ring[0], t.size); }
  }

  /** The loop that finds the leaf to move up, and clears the pointer to it. */
  method DetachDeepLeaf(M: MallocState, start: int, startCell: int, ghost v0: Tree, ghost par0: int)
    returns (r: int)
    requires v0.Node? && Full(v0) && Rep(M.mem, v0, par0) && Root(v0) == start
    modifies M`mem
    ensures r == Root(DeepLeaf(v0))
    ensures M.mem == old(M.mem)[DeepCell(v0, startCell) := 0]
  {
    ghost var m, leaf, cell := M.mem, DeepLeaf(v0), DeepCell(v0, startCell);
    ghost var v, par := v0, par0;
    r := start;
    var rp := startCell;
    assert AtDeep(m, v, par, rp, leaf, cell);
    hide *;
    while true
      invariant M.mem == m && v.Node? && r == Root(v) && AtDeep(m, v, par, rp, leaf, cell)
      decreases v
    {
      DeepStep(m, v, par, rp, leaf, cell);
      if Rd(M.mem, r + CHILD1) != 0 {
        par, rp, v := r, r + CHILD1, v.right;
        r := Rd(M.mem, rp);
      } else if Rd(M.mem, r + CHILD0) != 0 {
        par, rp, v := r, r + CHILD0, v.left;
        r := Rd(M.mem, rp);
      } else {
        break;
      }
    }
    M.mem := M.mem[rp := 0];
  }

  /** The bin's tree and the node, parent word and pointer cell of chunk x in it. */
  lemma UnlinkStart(m: Mem, gm: int, map_: nat, trees: seq<Tree>, i: nat, x: int, s: nat, big: set<int>)
    requires TreesOk(m, gm, map_, trees, big) && i < NBINS && Holds(trees[i], x, s) && TreeIndex(s) == i
    ensures var t, h := trees[i], TreeBinAt(gm, i);
      var v, par, cell := NodeOf(t, x), ParentOf(t, x, h), CellOf(t, x, h);
      && x in Addrs(t) && Hung(m, t, h, h) && h > 0
      && v.Node? && x in v.ring && Hung(m, v, par, cell)
      && Rd(m, x + INDEX) == i
  {
    var t, h := trees[i], TreeBinAt(gm, i);
    assert TreeBin(m, gm, map_, t, i);
    HoldsSize(t, x, s);
    NodeHung(m, t, x, h, h);
    RepSize(m, t, h, x, s);
  }

  /** What phase one of unlink_large_chunk finds in the words of x. */
  lemma UnlinkNode(m: Mem, v: Tree, x: int, par: int, cell: int)
    requires v.Node? && x in v.ring && Hung(m, v, par, cell)
    ensures Rd(m, x + BK) == x <==> |v.ring| == 1
    ensures |v.ring| == 1 ==> x == Root(v) && Rd(m, x + CHILD1) == Root(v.right) && Rd(m, x + CHILD0) == Root(v.left)
    ensures |v.ring| == 1 ==> Rep(m, v.right, x) && Rep(m, v.left, x) && Full(v.right) && Full(v.left)
    ensures Root(v.right) == 0 <==> v.right.Nil?
    ensures Root(v.left) == 0 <==> v.left.Nil?
  {
    hide Ring, Common, Spaced, Apart, NoDup;
    RingOfOne(m, v.ring, v.size, x);
    RootNonZero(m, v.left, Root(v));
    RootNonZero(m, v.right, Root(v));
  }

  /** Phase one of unlink_large_chunk. */
  method UnlinkFirst(M: MallocState, x: int, ghost v: Tree, ghost par: int, ghost cell: int) returns (r: int)
    requires v.Node? && x in v.ring && Hung(M.mem, v, par, cell)
    modifies M`mem
    ensures M.mem == FirstWrites(old(M.mem), v, x) && r == NewRoot(old(M.mem), v, x)
  {
    hide Hung, Rep, Full, DeepCell, DeepLeaf;
    ghost var m := M.mem;
    UnlinkNode(m, v, x, par, cell);
    if Rd(M.mem, x + BK) != x {
      var f := Rd(M.mem, x + FD);
      r := Rd(M.mem, x + BK);
      M.mem := M.mem[f + BK := r];
      M.mem := M.mem[r + FD := f];
    } else {
      r := Rd(M.mem, x + CHILD1);
      if r != 0 {
        r := DetachDeepLeaf(M, r, x + CHILD1, v.right, x);
      } else {
        r := Rd(M.mem, x + CHILD0);
        if r != 0 {
          r := DetachDeepLeaf(M, r, x + CHILD0, v.left, x);
        }
      }
    }
  }

  /** Memory after phase one still tells phase two what it asks for. */
  lemma SecondStart(m: Mem, t: Tree, x: int, h: int, i: int, m1: Mem)
    requires x in Addrs(t) && h > 0 && Hung(m, t, h, h) && Rd(m, x + INDEX) == i
    requires NodeOf(t, x).Node? && x in NodeOf(t, x).ring
    requires Hung(m, NodeOf(t, x), ParentOf(t, x, h), CellOf(t, x, h))
    requires m1 == FirstWrites(m, NodeOf(t, x), x)
    ensures var v, par := NodeOf(t, x), ParentOf(t, x, h);
      && par > 0 && Rd(m, x + PARENT) == (if x == Root(v) then par else 0)
      && Rd(m1, x + INDEX) == i && Rd(m1, h) == Root(t)
      && (x == Root(v) ==>
            CellOf(t, x, h)
            == (if x == Rd(m1, h) then h else if Rd(m1, par + CHILD0) == x then par + CHILD0 else par + CHILD1))
  {
    hide FirstWrites, Only, Rep, Spaced, Disjoint;
    var v, par, cell := NodeOf(t, x), ParentOf(t, x, h), CellOf(t, x, h);
    FindCell(m, t, x, h, h);
    FirstKeeps(m, v, x, par, cell);
    FirstOnly(m, v, x, par, cell);
    WordKept(m, m1, v, t, x, h, par);
    RootIsHead(t, x, h);
  }

  lemma RootIsHead(t: Tree, x: int, h: int)
    requires x in Addrs(t) && Full(t) && Disjoint(t)
    ensures t.Node? && (x == Root(t) ==> x in t.ring && NodeOf(t, x) == t && CellOf(t, x, h) == h)
    ensures x != Root(t) && x == Root(NodeOf(t, x)) ==> x !in t.ring
  {
    assert x == Root(t) ==> x == t.ring[0];
  }

  lemma ParentPlace(t: Tree, p: int, q: int)
    requires Spaced(Addrs(t)) && p in Addrs(t) && q in Addrs(t)
    ensures p == q || p + 64 <= q || q + 64 <= p
  {
  }

  lemma WordKept(m: Mem, m1: Mem, v: Tree, t: Tree, x: int, h: int, par: int)
    requires Hung(m, t, h, h) && x in Addrs(t) && v == NodeOf(t, x) && par == ParentOf(t, x, h)
    requires Only(m, m1, Addrs(v), x + FD) && v.Node? && x in v.ring
    ensures Rd(m1, h) == Rd(m, h)
    ensures x !in t.ring ==> Rd(m1, par + CHILD0) == Rd(m, par + CHILD0)
  {
    assert x in Members(v.ring);
    if x in t.ring {
      CellKept(m, m1, Addrs(v), x, Addrs(t), h);
    } else {
      ParentOutside(t, x, h);
      CellKept(m, m1, Addrs(v), x, Addrs(t), h);
      var c := par + CHILD0;
      ParentPlace(t, x, par);
      if p :| p in Addrs(v) && p + FD <= c < p + 64 {
        ParentPlace(t, p, par);
      }
    }
  }

  /** The map bit to be cleared: the removal empties the bin exactly when x was its only chunk. */
  lemma EmptiedBin(m: Mem, t: Tree, x: int, h: int)
    requires x in Addrs(t) && Hung(m, t, h, h) && NodeOf(t, x).Node? && x in NodeOf(t, x).ring
    requires Hung(m, NodeOf(t, x), ParentOf(t, x, h), CellOf(t, x, h))
    ensures Remove(t, x).Nil? <==> x == Root(t) && NewRoot(m, NodeOf(t, x), x) == 0
  {
    assert t.ring[0] in Members(t.ring);
    if x in t.ring {
      assert NodeOf(t, x) == t && Remove(t, x) == RemoveHere(t, x);
      if |t.ring| > 1 {
        UnlinkedOnly(m, t.ring, t.size, x, h);
        var j := IndexOf(t.ring, x);
        assert Linked(m, t.ring, j);
        assert Common(m, t.ring[Prev(j, |t.ring|)], t.size);
      } else {
        assert t.ring == [x];
        DeepLeafPositive(m, t, h);
      }
    }
    hide Rep, RingRep, Hung;
  }

  lemma DeepLeafPositive(m: Mem, t: Tree, par: int)
    requires t.Node? && Full(t) && Rep(m, t, par)
    ensures Root(DeepLeaf(t)) > 0
    ensures t.right.Node? ==> Root(DeepLeaf(t.right)) > 0
    ensures t.left.Node? ==> Root(DeepLeaf(t.left)) > 0
    decreases t
  {
    assert Common(m, t.ring[0], t.size);
    if t.right.Node? { DeepLeafPositive(m, t.right, t.ring[0]); }
    if t.left.Node? { DeepLeafPositive(m, t.left, t.ring[0]); }
  }

  lemma UnlinkedBin(m: Mem, gm: int, map_: nat, trees: seq<Tree>, i: nat, x: int, s: nat, big: set<int>, m': Mem, map': nat)
    requires TreesOk(m, gm, map_, trees, big) && i < NBINS && Holds(trees[i], x, s) && TreeIndex(s) == i
    requires var t, h := trees[i], TreeBinAt(gm, i);
      m' == RemoveWrites(m, NodeOf(t, x), x, ParentOf(t, x, h), CellOf(t, x, h))
    requires x in Addrs(trees[i])
    requires map' == if Remove(trees[i], x).Nil? then ClearMark(map_, i) else map_
    ensures TreesOk(m', gm, map', trees[i := Remove(trees[i], x)], big)
    ensures Only(m, m', Addrs(trees[i]), TreeBinAt(gm, i))
  {
    hide TreeIndex, RemoveWrites, Remove, Only, Hung, Has, ClearMark;
    var t, h := trees[i], TreeBinAt(gm, i);
    MapFacts(m, gm, map_, trees, i, big);
    var u := Remove(t, x);
    assert TreeBin(m, gm, map_, t, i) && Addrs(t) <= big;
    RemoveRep(m, t, x, h, h);
    RemoveShape(t, x, BinLow(i), BinBits(i));
    RemoveAddrs(t, x);
    NewBin(m', gm, map', u, i, big);
    BinChanged(m, m', gm, map_, map', trees, i, u, Addrs(t), big);
  }

  /** What the two phases have to write, and whether the bin is empty after them. */
  lemma UnlinkPlan(m: Mem, gm: int, map_: nat, trees: seq<Tree>, i: nat, x: int, s: nat, big: set<int>)
    requires TreesOk(m, gm, map_, trees, big) && i < NBINS && Holds(trees[i], x, s) && TreeIndex(s) == i
    ensures var t, h := trees[i], TreeBinAt(gm, i);
      var v, par, cell := NodeOf(t, x), ParentOf(t, x, h), CellOf(t, x, h);
      var m1, r, xp := FirstWrites(m, v, x), NewRoot(m, v, x), Rd(m, x + PARENT);
      && x in Addrs(t) && v.Node? && x in v.ring && Hung(m, v, par, cell)
      && (xp == 0 ==> RemoveWrites(m, v, x, par, cell) == m1 && Remove(t, x).Node?)
      && (xp != 0 ==>
            && RemoveWrites(m, v, x, par, cell) == Relink(m1, x, xp, PlaceOf(m1, x, h, xp), r)
            && Rd(m1, x + INDEX) == i && (Remove(t, x).Nil? <==> x == Rd(m1, h) && r == 0))
  {
    UnlinkStart(m, gm, map_, trees, i, x, s, big);
    var t, h := trees[i], TreeBinAt(gm, i);
    var v, par, cell := NodeOf(t, x), ParentOf(t, x, h), CellOf(t, x, h);
    hide Rd, FirstWrites, RemoveWrites, Relink, NewRoot, Hung, Remove, Addrs, TreesOk, Holds, TreeIndex;
    SecondStart(m, t, x, h, i, FirstWrites(m, v, x));
    PhasesAre(m, v, x, par, cell);
    EmptiedBin(m, t, x, h);
  }

  /** The word that points to a chunk at the head of its ring. */
  function PlaceOf(m: Mem, x: int, h: int, xp: int): int {
    if x == Rd(m, h) then h else if Rd(m, xp + CHILD0) == x then xp + CHILD0 else xp + CHILD1
  }

  /** unlink_large_chunk(M, X). */
  method UnlinkLargeChunk(M: MallocState, x: int, ghost i: nat, ghost s: nat, ghost big: set<int>)
    requires TreesOk(M.mem, M.gm, M.treemap, M.trees, big)
    requires i < NBINS && Holds(M.trees[i], x, s) && TreeIndex(s) == i
    modifies M`mem, M`treemap, M`trees
    ensures x in Addrs(old(M.trees)[i]) && M.trees == old(M.trees)[i := Remove(old(M.trees)[i], x)]
    ensures TreesOk(M.mem, M.gm, M.treemap, M.trees, big)
    ensures Only(old(M.mem), M.mem, Addrs(old(M.trees)[i]), TreeBinAt(M.gm, i))
  {
    ghost var m, map_, trees, gm := M.mem, M.treemap, M.trees, M.gm;
    ghost var t, h := trees[i], TreeBinAt(gm, i);
    hide *;
    UnlinkPlan(m, gm, map_, trees, i, x, s, big);
    var xp := Rd(M.mem, x + PARENT);
    var r := UnlinkFirst(M, x, NodeOf(t, x), ParentOf(t, x, h), CellOf(t, x, h));
    if xp != 0 {
      UnlinkSecond(M, x, xp, r);
    }
    UnlinkedBin(m, gm, map_, trees, i, x, s, big, M.mem, M.treemap);
    M.trees := trees[i := Remove(trees[i], x)];
  }

  lemma MapFacts(m: Mem, gm: int, map_: nat, trees: seq<Tree>, i: nat, big: set<int>)
    requires TreesOk(m, gm, map_, trees, big) && i < NBINS
    ensures ClearMark(map_, i) < MAP_MOD && map_ < MAP_MOD
    ensures forall j :: 0 <= j < NBINS ==> (Has(ClearMark(map_, i), j) <==> Has(map_, j) && j != i)
    ensures trees[i].Node? <==> Has(map_, i)
  {
    MarkBound(map_, i);
    forall j | 0 <= j < NBINS ensures Has(ClearMark(map_, i), j) <==> Has(map_, j) && j != i { ClearHas(map_, i, j); }
    assert TreeBin(m, gm, map_, trees[i], i);
  }

  /** R->child[i] = C; C->parent = R, if x has a child there. */
  method AdoptChild(M: MallocState, x: int, r: int, child: int)
    modifies M`mem
    ensures M.mem == Adopt(old(M.mem), x, r, child)
  {
    var c := Rd(M.mem, x + child);
    if c != 0 {
      M.mem := M.mem[r + child := c];
      M.mem := M.mem[c + PARENT := r];
    }
  }

  /** Phase two: x headed its ring; r, if any, takes its place, its children and its parent. */
  method UnlinkSecond(M: MallocState, x: int, xp: int, r: int)
    modifies M`mem, M`treemap
    ensures var m1 := old(M.mem);
      var i := Rd(m1, x + INDEX);
      var h := TreeBinAt(M.gm, i);
      && M.mem == Relink(m1, x, xp, PlaceOf(m1, x, h, xp), r)
      && M.treemap == if x == Rd(m1, h) && r == 0 && i >= 0 then ClearMark(old(M.treemap), i) else old(M.treemap)
  {
    hide Adopt, ClearMark, Rd;
    var i := Rd(M.mem, x + INDEX);
    var h := TreeBinAt(M.gm, i);
    if x == Rd(M.mem, h) {
      M.mem := M.mem[h := r];
      if r == 0 && i >= 0 {
        M.treemap := ClearMark(M.treemap, i);
      }
    } else if Rd(M.mem, xp + CHILD0) == x {
      M.mem := M.mem[xp + CHILD0 := r];
    } else {
      M.mem := M.mem[xp + CHILD1 := r];
    }
    if r != 0 {
      M.mem := M.mem[r + PARENT := xp];
      AdoptChild(M, x, r, CHILD0);
      AdoptChild(M, x, r, CHILD1);
    }
  }

  // ---------- how deep the last bin can be ----------

  const LAST_BIN_START: nat := 0xC0_0000

  function ChainSize(k: nat): nat {
    if k < 4 then LAST_BIN_START else LAST_BIN_START + 16 * (k - 4)
  }

  function ChainLow(k: nat): int {
    if k >= 24 then 0 else if k == 23 then 0x80_0000 else LAST_BIN_START
  }

  /** A trie without branches, one node for each number of undecided bits from k down to 4. */
  function Chain(k: nat): Tree {
    var rest := if k <= 4 then Nil else Chain(k - 1);
    if k == 24 || k == 23 then Node(ChainSize(k), [k], Nil, rest) else Node(ChainSize(k), [k], rest, Nil)
  }

  /** The bytes of one chunk for each node. */
  function TotalSize(t: Tree): nat {
    if t.Nil? then 0 else t.size + TotalSize(t.left) + TotalSize(t.right)
  }

  lemma {:induction false} ChainShape(k: nat)
    requires 4 <= k <= 64
    ensures Shape(Chain(k), ChainLow(k), k) && Height(Chain(k)) == k - 3
    ensures forall s :: s in Sizes(Chain(k)) ==> ChainSize(4) <= s <= ChainSize(k) && s % 16 == 0
    ensures TotalSize(Chain(k)) <= (k - 3) * ChainSize(64)
    decreases k
  {
    hide Pow2, Shape, Sizes, Height, ChainSize, ChainLow, TotalSize;
    ChainRange(k);
    ChainSizes(k);
    var rest := if k <= 4 then Nil else Chain(k - 1);
    if k > 4 {
      ChainShape(k - 1);
    } else {
      NilShape(k - 1);
    }
    OneMore(ChainSize(k), [k], rest, k == 24 || k == 23, ChainLow(k), k);
    OneMoreTotal(k, ChainSize(k), TotalSize(rest), ChainSize(64));
  }

  lemma OneMoreTotal(k: int, size: nat, rest: nat, most: nat)
    requires size <= most && rest <= (k - 4) * most
    ensures size + rest <= (k - 3) * most
  {
  }

  lemma NilShape(k: nat)
    ensures forall lo {:trigger Shape(Nil, lo, k)} :: Shape(Nil, lo, k)
    ensures Height(Nil) == 0 && Sizes(Nil) == {} && TotalSize(Nil) == 0
  {
  }

  lemma ChainSizes(k: nat)
    requires 4 <= k <= 64
    ensures k > 4 ==> ChainSize(k - 1) < ChainSize(k)
    ensures ChainSize(4) <= ChainSize(k) <= ChainSize(64) && ChainSize(k) % 16 == 0
    ensures k != 24 && k != 23 ==> ChainLow(k - 1) == ChainLow(k)
  {
    assert LAST_BIN_START == 16 * 0xC_0000;
    SixteenTimes(0xC_0000 + k - 4);
  }

  lemma SixteenTimes(q: int)
    ensures 16 * q % 16 == 0
  {
  }

  /** A node on top of a trie that lies on one side of it. */
  lemma OneMore(size: nat, ring: seq<int>, rest: Tree, below: bool, lo: int, k: nat)
    requires k > 0 && ring != [] && lo <= size < lo + Pow2(k) && size !in Sizes(rest)
    requires Shape(rest, if below then lo + Pow2(k - 1) else lo, k - 1)
    ensures var t := if below then Node(size, ring, Nil, rest) else Node(size, ring, rest, Nil);
      && Shape(t, lo, k) && Height(t) == Height(rest) + 1 && Sizes(t) == {size} + Sizes(rest)
      && TotalSize(t) == size + TotalSize(rest)
  {
    hide Pow2;
    NilShape(k - 1);
    assert Sizes(Nil) == {} && Height(Nil) == 0;
  }

  lemma ChainRange(k: nat)
    requires 4 <= k <= 64
    ensures ChainLow(k) <= ChainSize(k) < ChainLow(k) + Pow2(k)
    ensures k == 24 || k == 23 ==> ChainLow(k - 1) == ChainLow(k) + Pow2(k - 1)
  {
    hide Pow2;
    Steep(k);
    Pow2At22();
    if k >= 24 { Pow2Monotonic(24, k); }
  }

  lemma {:induction false} Steep(k: nat)
    requires k >= 4
    ensures 16 * (k - 4) < Pow2(k)
  {
    if k > 4 { Steep(k - 1); } else { assert Pow2(4) == 16; }
  }

  lemma Pow2At22()
    ensures Pow2(22) == 0x40_0000 && Pow2(23) == 0x80_0000 && Pow2(24) == 0x100_0000
  {
    hide Pow2;
    Pow2Values();
    Pow2Add(16, 8);
    Pow2Step(23);
    Pow2Step(22);
  }

  ghost predicate Sixteens(t: Tree) {
    forall s :: s in Sizes(t) ==> s % 16 == 0
  }

  /**
   * Sizes are multiples of 16, so that the last four bits decide nothing: a trie has at most k - 3
   * levels for k undecided bits.
   */
  lemma {:induction false} AlignedHeight(t: Tree, lo: int, k: nat)
    requires Shape(t, lo, k) && k >= 4 && lo % 16 == 0 && Sixteens(t)
    ensures Height(t) <= k - 3
    decreases t
  {
    hide Pow2, Sizes, Sixteens;
    if t.Node? {
      Pow2At4();
      if k == 4 {
        OnlySize(t, lo);
      } else {
        SixteensBelow(t);
        Pow2Add(4, k - 5);
        AlignedMiddle(lo, Pow2(k - 5));
        AlignedHeight(t.left, lo, k - 1);
        AlignedHeight(t.right, lo + Pow2(k - 1), k - 1);
      }
    }
  }

  lemma SixteensBelow(t: Tree)
    requires t.Node? && Sixteens(t)
    ensures Sixteens(t.left) && Sixteens(t.right)
  {
    hide Sizes;
    ChildrenOf(t);
  }

  lemma ChildrenOf(t: Tree)
    requires t.Node?
    ensures Sizes(t.left) <= Sizes(t) && Sizes(t.right) <= Sizes(t) && t.size in Sizes(t)
  {
  }

  lemma Pow2At4()
    ensures Pow2(4) == 16
  {
  }

  lemma AlignedMiddle(lo: int, w: nat)
    requires lo % 16 == 0
    ensures (lo + 16 * w) % 16 == 0
  {
  }

  /** In a range of 16 there is one size. */
  lemma OnlySize(t: Tree, lo: int)
    requires t.Node? && Shape(t, lo, 4) && lo % 16 == 0 && Sixteens(t)
    ensures Height(t) == 1
  {
    hide Pow2, Height;
    Pow2At4();
    SizesInRange(t, lo, 4);
    ChildrenOf(t);
    forall s | s in Sizes(t) ensures s == t.size { OneMultiple(s, t.size, lo); }
    NoSizes(t.left);
    NoSizes(t.right);
    HeightOne(t);
  }

  lemma OneMultiple(a: int, b: int, lo: int)
    requires lo % 16 == 0 && a % 16 == 0 && b % 16 == 0 && lo <= a < lo + 16 && lo <= b < lo + 16
    ensures a == b
  {
  }

  lemma NoSizes(t: Tree)
    ensures t.Nil? <==> Sizes(t) == {}
  {
    if t.Node? { assert t.size in Sizes(t); }
  }

  lemma HeightOne(t: Tree)
    requires t.Node? && t.left.Nil? && t.right.Nil?
    ensures Height(t) == 1
  {
  }

  /**
   * The last bin decides from bit 63 on, although its sizes are below 2^40. Its tries have at most
   * 61 levels, and with sizes that share a heap of less than 1 GB they can have as many.
   */
  lemma LastBinDepth()
    ensures forall t :: Shape(t, BinLow(31), BinBits(31)) && Sixteens(t) ==> Height(t) <= 61
    ensures var t := Chain(64);
      && Shape(t, BinLow(31), BinBits(31)) && Height(t) == 61 && TotalSize(t) < 0x4000_0000
      && Sixteens(t) && forall s :: s in Sizes(t) ==> s < ADDRESS_LIMIT && TreeIndex(s) == 31
  {
    hide Pow2, Chain, ChainSize, ChainLow, Shape, Sizes, Height, TotalSize, BinLow, BinBits, TreeIndex;
    LastBinRange();
    ChainShape(64);
    forall s | s in Sizes(Chain(64)) ensures s < ADDRESS_LIMIT && TreeIndex(s) == 31 {
      LastIndex(s);
    }
    forall t | Shape(t, BinLow(31), BinBits(31)) && Sixteens(t) ensures Height(t) <= 61 {
      AlignedHeight(t, 0, 64);
    }
  }

  lemma LastBinRange()
    ensures BinLow(31) == 0 && BinBits(31) == 64 && ChainLow(64) == 0 && 61 * ChainSize(64) < 0x4000_0000
  {
  }

  lemma LastIndex(s: nat)
    requires ChainSize(4) <= s <= ChainSize(64)
    ensures s < ADDRESS_LIMIT && TreeIndex(s) == 31
  {
    hide TreeIndex, IndexKey;
    LastBinIndex(s);
  }
}
