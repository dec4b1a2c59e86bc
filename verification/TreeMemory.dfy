/**
 * How a trie lies in memory: the words of malloc_tree_chunk, the link writes of
 * insert_large_chunk and unlink_large_chunk, and why they realise Trie.Insert and Trie.Remove.
 */
module TreeMemory {
  import opened Words
  import opened BinIndex
  import opened Trie
  import opened Rings

  const HEAD: int := 8
  const CHILD0: int := 32
  const CHILD1: int := 40
  const PARENT: int := 48
  const INDEX: int := 56

  /** The words every free chunk in a treebin has, whatever its place in a ring. */
  ghost predicate Common(m: Mem, p: int, s: nat) {
    p > 0 && p % 16 == 0 && s % 16 == 0 && Rd(m, p + HEAD) == s + 1 && Rd(m, p + INDEX) == TreeIndex(s)
  }

  /** chunksize: the head without its flag bits. */
  function ChunkSize(m: Mem, p: int): int {
    Rd(m, p + HEAD) - Rd(m, p + HEAD) % 8
  }

  ghost predicate Tree3(m: Mem, p: int, c0: int, c1: int, par: int) {
    Rd(m, p + CHILD0) == c0 && Rd(m, p + CHILD1) == c1 && Rd(m, p + PARENT) == par
  }

  ghost predicate RingRep(m: Mem, ring: seq<int>, s: nat) {
    && Ring(m, ring)
    && (forall i :: 0 <= i < |ring| ==> Common(m, ring[i], s))
    && (forall i :: 1 <= i < |ring| ==> Tree3(m, ring[i], 0, 0, 0))
  }

  /** Tree t lies in m; par is what its root's parent word holds. */
  ghost predicate Rep(m: Mem, t: Tree, par: int)
    decreases t
  {
    match t
    case Nil => true
    case Node(s, ring, l, r) =>
      && RingRep(m, ring, s)
      && Tree3(m, ring[0], Root(l), Root(r), par)
      && Rep(m, l, ring[0])
      && Rep(m, r, ring[0])
  }

  // ---------- frames ----------

  ghost predicate SameAt(m: Mem, m': Mem, p: int) {
    && Rd(m', p + HEAD) == Rd(m, p + HEAD)
    && Rd(m', p + FD) == Rd(m, p + FD)
    && Rd(m', p + BK) == Rd(m, p + BK)
    && Rd(m', p + CHILD0) == Rd(m, p + CHILD0)
    && Rd(m', p + CHILD1) == Rd(m, p + CHILD1)
    && Rd(m', p + PARENT) == Rd(m, p + PARENT)
    && Rd(m', p + INDEX) == Rd(m, p + INDEX)
  }

  ghost predicate SameOn(m: Mem, m': Mem, a: set<int>) {
    forall p :: p in a ==> SameAt(m, m', p)
  }

  /** w is a link word (fd to index) of one of the chunks in a. */
  ghost predicate LinkWord(a: set<int>, w: int) {
    exists p :: p in a && p + FD <= w < p + 64
  }

  /** Between m and m' only link words of the chunks in a, and the cell, may differ. */
  ghost predicate Only(m: Mem, m': Mem, a: set<int>, cell: int) {
    forall w :: Rd(m', w) != Rd(m, w) ==> w == cell || LinkWord(a, w)
  }

  /** Distinct chunks do not overlap in their first 64 bytes. */
  ghost predicate Spaced(a: set<int>) {
    forall p, q :: p in a && q in a && p != q ==> p + 64 <= q || q + 64 <= p
  }

  /** The word at w belongs to none of the chunks in a. */
  ghost predicate Apart(a: set<int>, w: int) {
    forall p :: p in a ==> w < p + HEAD || p + 64 <= w
  }

  lemma SpacedPair(a: set<int>, b: set<int>, p: int, q: int)
    requires Spaced(a + b) && p in a && q in b
    ensures p == q || p + 64 <= q || q + 64 <= p
  {
  }

  lemma ApartFrom(a: set<int>, w: int, p: int)
    requires Apart(a, w) && p in a
    ensures w < p + HEAD || p + 64 <= w
  {
  }

  /** Chunks are 16-aligned, so the fd word of one is never the bk word of another. */
  lemma AlignedClear(s: seq<int>, x: int)
    requires x % 16 == 0 && forall i :: 0 <= i < |s| ==> s[i] % 16 == 0
    ensures AllClear(s) && ClearOf(s, x)
  {
  }

  lemma RingClear(m: Mem, ring: seq<int>, s: nat, x: int)
    requires RingRep(m, ring, s) && x % 16 == 0
    ensures AllClear(ring) && ClearOf(ring, x)
    ensures forall i :: 0 <= i < |ring| ==> ring[i] % 16 == 0
  {
    forall i | 0 <= i < |ring| ensures ring[i] % 16 == 0 { assert Common(m, ring[i], s); }
    AlignedClear(ring, x);
  }

  lemma RingRepFrame(m: Mem, m': Mem, ring: seq<int>, s: nat)
    requires RingRep(m, ring, s)
    requires forall i :: 0 <= i < |ring| ==> SameAt(m, m', ring[i])
    ensures RingRep(m', ring, s)
  {
    RingFrame(m, m', ring);
    forall i | 0 <= i < |ring| ensures Common(m', ring[i], s) {
      assert Common(m, ring[i], s) && SameAt(m, m', ring[i]);
    }
    forall i | 1 <= i < |ring| ensures Tree3(m', ring[i], 0, 0, 0) {
      assert Tree3(m, ring[i], 0, 0, 0) && SameAt(m, m', ring[i]);
    }
  }

  lemma {:induction false} RepFrame(m: Mem, m': Mem, t: Tree, par: int)
    requires Rep(m, t, par)
    requires SameOn(m, m', Addrs(t))
    ensures Rep(m', t, par)
    decreases t
  {
    if t.Node? {
      forall i | 0 <= i < |t.ring| ensures SameAt(m, m', t.ring[i]) {
        assert t.ring[i] in Addrs(t);
      }
      RingRepFrame(m, m', t.ring, t.size);
      RepFrame(m, m', t.left, t.ring[0]);
      RepFrame(m, m', t.right, t.ring[0]);
    }
  }

  /** Chunks outside a keep their words when only a's links and a foreign cell change. */
  lemma OnlySame(m: Mem, m': Mem, a: set<int>, cell: int, b: set<int>)
    requires Only(m, m', a, cell)
    requires a !! b && Spaced(a + b) && Apart(b, cell)
    ensures SameOn(m, m', b)
  {
    forall p, w | p in b && p + HEAD <= w < p + 64 ensures Rd(m', w) == Rd(m, w) {
      if Rd(m', w) != Rd(m, w) {
        if q :| q in a && q + FD <= w < q + 64 {
          SpacedPair(a, b, q, p);
        }
      }
    }
    forall p | p in b ensures SameAt(m, m', p) {
      assert p + HEAD <= p + FD < p + BK < p + CHILD0 < p + CHILD1 < p + PARENT < p + INDEX < p + 64;
    }
  }

  lemma RepAddrs(m: Mem, t: Tree, par: int)
    requires Rep(m, t, par)
    ensures forall p :: p in Addrs(t) ==> p > 0 && p % 16 == 0
    decreases t
  {
    if t.Node? {
      forall p | p in t.ring ensures p > 0 && p % 16 == 0 {
        var i := IndexOf(t.ring, p);
        assert Common(m, t.ring[i], t.size);
      }
      RepAddrs(m, t.left, t.ring[0]);
      RepAddrs(m, t.right, t.ring[0]);
    }
  }

  /** The head word of a chunk in a tree states its size. */
  lemma {:induction false} RepSize(m: Mem, t: Tree, par: int, p: int, s: nat)
    requires Rep(m, t, par) && Holds(t, p, s)
    ensures Common(m, p, s)
    decreases t
  {
    if p in t.ring && s == t.size {
      var i := IndexOf(t.ring, p);
      assert Common(m, t.ring[i], t.size);
    } else if Holds(t.left, p, s) {
      RepSize(m, t.left, t.ring[0], p, s);
    } else {
      RepSize(m, t.right, t.ring[0], p, s);
    }
  }

  // ---------- insertion ----------

  /** The words of x that insert_large_chunk sets before it looks for a place. */
  function Prepared(m: Mem, x: int, s: nat): Mem {
    m[x + INDEX := TreeIndex(s)][x + CHILD0 := 0][x + CHILD1 := 0]
  }

  /** The writes that hang a new leaf x below par, in the pointer cell given. */
  function LeafWrites(m: Mem, x: int, par: int, cell: int): Mem {
    m[cell := x][x + PARENT := par][x + FD := x][x + BK := x]
  }

  /** The writes that chain x to the node with its size. */
  function ChainWrites(m: Mem, head: int, x: int): Mem {
    LinkAfter(m, head, x)[x + PARENT := 0]
  }

  function InsertWrites(m: Mem, t: Tree, s: nat, x: int, lo: int, k: nat, par: int, cell: int): Mem
    decreases t
  {
    match t
    case Nil => LeafWrites(m, x, par, cell)
    case Node(z, ring, l, r) =>
      if z == s then ChainWrites(m, Root(t), x)
      else if k == 0 then m
      else if s < lo + Pow2(k - 1) then InsertWrites(m, l, s, x, lo, k - 1, Root(t), Root(t) + CHILD0)
      else InsertWrites(m, r, s, x, lo + Pow2(k - 1), k - 1, Root(t), Root(t) + CHILD1)
  }

  /** x is a free chunk of size s, in no tree, whose tree words are prepared. */
  ghost predicate Ready(m: Mem, x: int, s: nat) {
    Common(m, x, s) && Rd(m, x + CHILD0) == 0 && Rd(m, x + CHILD1) == 0
  }

  /** A pointer cell that leads to tree t, lying outside of its chunks and of x. */
  ghost predicate Placed(m: Mem, t: Tree, x: int, par: int, cell: int) {
    && Rep(m, t, par) && Rd(m, cell) == Root(t)
    && x !in Addrs(t) && Spaced(Addrs(t) + {x}) && Apart(Addrs(t) + {x}, cell)
  }

  lemma LeafRep(m: Mem, s: nat, x: int, par: int, cell: int)
    requires Ready(m, x, s) && Apart({x}, cell)
    ensures var m', t := LeafWrites(m, x, par, cell), Node(s, [x], Nil, Nil);
      Rep(m', t, par) && Rd(m', cell) == Root(t) && Only(m, m', {x}, cell)
  {
    var m' := LeafWrites(m, x, par, cell);
    assert x in {x};
    assert Common(m', x, s) && Tree3(m', x, 0, 0, par);
    assert Linked(m', [x], 0);
    forall w | Rd(m', w) != Rd(m, w) ensures w == cell || LinkWord({x}, w) {
      assert w == cell || x + FD <= w < x + 64;
    }
  }

  lemma ChainOnly(m: Mem, ring: seq<int>, x: int, cell: int)
    requires Ring(m, ring)
    ensures Only(m, ChainWrites(m, ring[0], x), Members(ring) + {x}, cell)
  {
    assert Linked(m, ring, 0);
    var f := Rd(m, ring[0] + FD);
    var a := Members(ring) + {x};
    assert f == ring[Next(0, |ring|)];
    assert ring[0] in a && f in a && x in a;
    forall w | Rd(ChainWrites(m, ring[0], x), w) != Rd(m, w) ensures w == cell || LinkWord(a, w) {
      assert (ring[0] + FD <= w < ring[0] + 64) || (f + FD <= w < f + 64) || (x + FD <= w < x + 64);
    }
  }

  lemma ChainKeeps(m: Mem, ring: seq<int>, x: int, p: int)
    requires Ring(m, ring) && x !in ring && Spaced(Members(ring) + {x}) && p in ring
    ensures var m' := ChainWrites(m, ring[0], x);
      && Rd(m', p + HEAD) == Rd(m, p + HEAD) && Rd(m', p + INDEX) == Rd(m, p + INDEX)
      && Rd(m', p + CHILD0) == Rd(m, p + CHILD0) && Rd(m', p + CHILD1) == Rd(m, p + CHILD1)
      && Rd(m', p + PARENT) == Rd(m, p + PARENT)
  {
    assert Linked(m, ring, 0);
    var f := Rd(m, ring[0] + FD);
    var a := Members(ring) + {x};
    assert ring[0] in a && f == ring[Next(0, |ring|)] && f in a && x in a && p in a;
  }

  lemma ChainRingRep(m: Mem, ring: seq<int>, s: nat, x: int)
    requires RingRep(m, ring, s) && NoDup(ring) && x !in ring
    requires Spaced(Members(ring) + {x}) && Ready(m, x, s)
    ensures var m' := ChainWrites(m, ring[0], x);
      RingRep(m', RingInsert(ring, x), s) && Rd(m', ring[0] + PARENT) == Rd(m, ring[0] + PARENT)
      && Rd(m', ring[0] + CHILD0) == Rd(m, ring[0] + CHILD0)
      && Rd(m', ring[0] + CHILD1) == Rd(m, ring[0] + CHILD1)
  {
    var m' := ChainWrites(m, ring[0], x);
    var out := RingInsert(ring, x);
    ChainRing(m, ring, s, x);
    forall i | 0 <= i < |out| ensures Common(m', out[i], s) && (i >= 1 ==> Tree3(m', out[i], 0, 0, 0)) {
      ChainWordsAt(m, ring, s, x, i);
    }
    ChainKeeps(m, ring, x, ring[0]);
    hide Ring, Common, Tree3, Rd, ChainWrites, NoDup, Spaced;
  }

  lemma ChainRing(m: Mem, ring: seq<int>, s: nat, x: int)
    requires RingRep(m, ring, s) && NoDup(ring) && x !in ring
    requires Spaced(Members(ring) + {x}) && x % 16 == 0
    ensures Ring(ChainWrites(m, ring[0], x), RingInsert(ring, x))
  {
    hide Ring, Spaced, NoDup, Rd, LinkAfter;
    RingClear(m, ring, s, x);
    LinkAfterRing(m, ring, x);
    RingInsertMembers(ring, x);
    assert x == RingInsert(ring, x)[1];
    forall i | 0 <= i < |ring| + 1 ensures RingInsert(ring, x)[i] % 16 == 0 {
      assert i >= 2 ==> RingInsert(ring, x)[i] == ring[i - 1];
    }
    ChainHeadless(LinkAfter(m, ring[0], x), RingInsert(ring, x), x);
  }

  lemma ChainWordsAt(m: Mem, ring: seq<int>, s: nat, x: int, i: nat)
    requires ring != [] && RingRep(m, ring, s) && x !in ring && i <= |ring|
    requires Spaced(Members(ring) + {x}) && Ready(m, x, s)
    ensures var m', p := ChainWrites(m, ring[0], x), RingInsert(ring, x)[i];
      Common(m', p, s) && (i >= 1 ==> Tree3(m', p, 0, 0, 0))
  {
    hide Ring, Spaced, ChainWrites;
    if i == 1 {
      ChainKeepsNew(m, ring, s, x);
    } else {
      var j := if i == 0 then 0 else i - 1;
      assert RingInsert(ring, x)[i] == ring[j];
      ChainKeeps(m, ring, x, ring[j]);
      assert Common(m, ring[j], s) && (j >= 1 ==> Tree3(m, ring[j], 0, 0, 0));
    }
  }

  lemma ChainHeadless(m: Mem, s: seq<int>, x: int)
    requires Ring(m, s) && x in s && Spaced(Members(s))
    requires forall i :: 0 <= i < |s| ==> s[i] % 16 == 0
    ensures Ring(m[x + PARENT := 0], s)
  {
    forall i | 0 <= i < |s|
      ensures x + PARENT != s[i] + FD && x + PARENT != s[i] + BK
    {
      assert s[i] in Members(s) && x in Members(s);
    }
    RingFrame(m, m[x + PARENT := 0], s);
  }

  lemma ChainKeepsNew(m: Mem, ring: seq<int>, s: nat, x: int)
    requires Ring(m, ring) && x !in ring && Spaced(Members(ring) + {x}) && Ready(m, x, s)
    ensures var m' := ChainWrites(m, ring[0], x); Common(m', x, s) && Tree3(m', x, 0, 0, 0)
  {
    assert Linked(m, ring, 0);
    var f := Rd(m, ring[0] + FD);
    var a := Members(ring) + {x};
    assert ring[0] in a && f == ring[Next(0, |ring|)] && f in a && x in a;
  }

  lemma NodeParts(m: Mem, t: Tree, x: int, par: int, cell: int)
    requires t.Node? && Placed(m, t, x, par, cell) && Disjoint(t)
    ensures Placed(m, t.left, x, t.ring[0], t.ring[0] + CHILD0)
    ensures Placed(m, t.right, x, t.ring[0], t.ring[0] + CHILD1)
    ensures Spaced(Members(t.ring) + {x}) && x !in t.ring && t.ring[0] in Members(t.ring)
    ensures Rep(m, t.left, t.ring[0]) && Rep(m, t.right, t.ring[0])
  {
    assert t.ring[0] in Members(t.ring);
    var h := t.ring[0];
    assert h in Addrs(t) + {x};
    forall p | p in Addrs(t) + {x} && p != h
      ensures h + 64 <= p || p + 64 <= h
    {
    }
  }

  /** A child's pointer cell: within its parent, and apart from every other node. */
  lemma ChildCellApart(a: set<int>, b: set<int>, h: int, c: int)
    requires Spaced(a + b) && a !! b && h in a && h + FD <= c < h + 64
    ensures Apart(b, c)
  {
    forall p | p in b ensures c < p + HEAD || p + 64 <= c {
      assert p in a + b && h in a + b;
    }
  }

  lemma {:induction false} InsertOnly(m: Mem, t: Tree, s: nat, x: int, lo: int, k: nat, par: int, cell: int)
    requires Shape(t, lo, k) && lo <= s < lo + Pow2(k)
    requires Rep(m, t, par)
    ensures Only(m, InsertWrites(m, t, s, x, lo, k, par, cell), Addrs(t) + {x}, cell)
    decreases t
  {
    hide LeafWrites, ChainWrites, Only, Rd, Ring, Common, Tree3, Members;
    if t.Nil? {
      LeafOnly(m, x, par, cell);
      assert Addrs(t) + {x} == {x};
    } else if t.size == s {
      ChainOnly(m, t.ring, x, cell);
      OnlyMono(m, ChainWrites(m, t.ring[0], x), Members(t.ring) + {x}, Addrs(t) + {x}, cell);
    } else {
      var h := t.ring[0];
      HeadMember(t.ring);
      var m' := InsertWrites(m, t, s, x, lo, k, par, cell);
      if s < lo + Pow2(k - 1) {
        InsertOnly(m, t.left, s, x, lo, k - 1, h, h + CHILD0);
        OnlyWiden(m, m', Addrs(t.left) + {x}, h + CHILD0, Addrs(t) + {x}, cell, h);
      } else {
        InsertOnly(m, t.right, s, x, lo + Pow2(k - 1), k - 1, h, h + CHILD1);
        OnlyWiden(m, m', Addrs(t.right) + {x}, h + CHILD1, Addrs(t) + {x}, cell, h);
      }
    }
  }

  lemma HeadMember(ring: seq<int>)
    requires ring != []
    ensures ring[0] in Members(ring)
  {
  }

  lemma LeafOnly(m: Mem, x: int, par: int, cell: int)
    ensures Only(m, LeafWrites(m, x, par, cell), {x}, cell)
  {
    assert x in {x};
  }

  lemma OnlyMono(m: Mem, m': Mem, a: set<int>, b: set<int>, cell: int)
    requires Only(m, m', a, cell) && a <= b
    ensures Only(m, m', b, cell)
  {
    LinkWordMono(a, b);
  }

  lemma LinkWordMono(a: set<int>, b: set<int>)
    requires a <= b
    ensures forall w :: LinkWord(a, w) ==> LinkWord(b, w)
  {
  }

  lemma OnlyWiden(m: Mem, m': Mem, a: set<int>, c: int, b: set<int>, cell: int, h: int)
    requires Only(m, m', a, c) && a <= b && h in b && h + FD <= c < h + 64
    ensures Only(m, m', b, cell)
  {
    LinkWordMono(a, b);
    assert LinkWord(b, c);
  }

  /** What is known when the writes m -> m' replaced one child of node t by u. */
  ghost predicate ChildSwap(m: Mem, m': Mem, t: Tree, par: int, cell: int, a: set<int>, goLeft: bool, u: Tree) {
    && t.Node? && t.ring != [] && Rep(m, t, par) && Disjoint(t) && Rd(m, cell) == Root(t)
    && Spaced(Addrs(t) + a) && Apart(Addrs(t) + a, cell)
    && a !! Members(t.ring) && a !! (if goLeft then Addrs(t.right) else Addrs(t.left))
    && Only(m, m', a, if goLeft then t.ring[0] + CHILD0 else t.ring[0] + CHILD1)
    && Rep(m', u, t.ring[0])
    && Rd(m', if goLeft then t.ring[0] + CHILD0 else t.ring[0] + CHILD1) == Root(u)
  }

  function WithChild(t: Tree, goLeft: bool, u: Tree): Tree
    requires t.Node?
  {
    if goLeft then t.(left := u) else t.(right := u)
  }

  lemma ChildSwapOther(m: Mem, m': Mem, t: Tree, par: int, cell: int, a: set<int>, goLeft: bool, u: Tree)
    requires ChildSwap(m, m', t, par, cell, a, goLeft, u)
    ensures Rep(m', if goLeft then t.right else t.left, t.ring[0])
  {
    var v := if goLeft then t.right else t.left;
    var c := if goLeft then t.ring[0] + CHILD0 else t.ring[0] + CHILD1;
    assert t.ring[0] in Members(t.ring);
    assert Spaced(Members(t.ring) + Addrs(v)) by { SpacedSubset(Members(t.ring) + Addrs(v), Addrs(t) + a); }
    ChildCellApart(Members(t.ring), Addrs(v), t.ring[0], c);
    assert Spaced(a + Addrs(v)) by { SpacedSubset(a + Addrs(v), Addrs(t) + a); }
    OnlySame(m, m', a, c, Addrs(v));
    RepFrame(m, m', v, t.ring[0]);
  }

  lemma SpacedSubset(a: set<int>, b: set<int>)
    requires a <= b && Spaced(b)
    ensures Spaced(a)
  {
  }

  /** A foreign cell in chunk h only touches that one word of a ring headed by h. */
  lemma RingSwap(m: Mem, m': Mem, ring: seq<int>, s: nat, a: set<int>, c: int)
    requires RingRep(m, ring, s) && NoDup(ring) && Only(m, m', a, c)
    requires a !! Members(ring) && Spaced(Members(ring) + a)
    requires c == ring[0] + CHILD0 || c == ring[0] + CHILD1
    ensures RingRep(m', ring, s)
    ensures Rd(m', ring[0] + PARENT) == Rd(m, ring[0] + PARENT)
    ensures c != ring[0] + CHILD0 ==> Rd(m', ring[0] + CHILD0) == Rd(m, ring[0] + CHILD0)
    ensures c != ring[0] + CHILD1 ==> Rd(m', ring[0] + CHILD1) == Rd(m, ring[0] + CHILD1)
  {
    forall p, w | p in Members(ring) && p + HEAD <= w < p + 64 && w != c ensures Rd(m', w) == Rd(m, w) {
      if Rd(m', w) != Rd(m, w) {
        if q :| q in a && q + FD <= w < q + 64 {
          SpacedPair(Members(ring), a, p, q);
        }
      }
    }
    assert forall i :: 0 <= i < |ring| ==> ring[i] in Members(ring);
    assert forall i :: 0 <= i < |ring| ==> ring[i] in Members(ring) + a;
    RingSwapParts(m, m', ring, s, c);
  }

  lemma RingSwapParts(m: Mem, m': Mem, ring: seq<int>, s: nat, c: int)
    requires RingRep(m, ring, s) && NoDup(ring) && Spaced(Members(ring))
    requires c == ring[0] + CHILD0 || c == ring[0] + CHILD1
    requires forall p, w :: p in Members(ring) && p + HEAD <= w < p + 64 && w != c ==> Rd(m', w) == Rd(m, w)
    ensures RingRep(m', ring, s)
    ensures Rd(m', ring[0] + PARENT) == Rd(m, ring[0] + PARENT)
    ensures c != ring[0] + CHILD0 ==> Rd(m', ring[0] + CHILD0) == Rd(m, ring[0] + CHILD0)
    ensures c != ring[0] + CHILD1 ==> Rd(m', ring[0] + CHILD1) == Rd(m, ring[0] + CHILD1)
  {
    assert forall i :: 0 <= i < |ring| ==> ring[i] in Members(ring);
    RingFrame(m, m', ring);
    forall i | 0 <= i < |ring| ensures Common(m', ring[i], s) {
      assert Common(m, ring[i], s);
    }
    forall i | 1 <= i < |ring| ensures Tree3(m', ring[i], 0, 0, 0) {
      assert Tree3(m, ring[i], 0, 0, 0);
    }
  }

  lemma ChildSwapRep(m: Mem, m': Mem, t: Tree, par: int, cell: int, a: set<int>, goLeft: bool, u: Tree)
    requires ChildSwap(m, m', t, par, cell, a, goLeft, u)
    ensures Rep(m', WithChild(t, goLeft, u), par)
    ensures Rd(m', cell) == Root(WithChild(t, goLeft, u))
  {
    var h := t.ring[0];
    var c := if goLeft then h + CHILD0 else h + CHILD1;
    assert h in Members(t.ring);
    ChildSwapOther(m, m', t, par, cell, a, goLeft, u);
    assert Spaced(Members(t.ring) + a) by { SpacedSubset(Members(t.ring) + a, Addrs(t) + a); }
    RingSwap(m, m', t.ring, t.size, a, c);
    assert Rd(m', cell) == Rd(m, cell) by {
      InUnion(h, Addrs(t), a);
      ApartFrom(Addrs(t) + a, cell, h);
      if q :| q in a && q + FD <= cell < q + 64 {
        InUnion(q, a, Addrs(t));
        ApartFrom(Addrs(t) + a, cell, q);
      }
    }
  }

  lemma InUnion(p: int, a: set<int>, b: set<int>)
    requires p in a
    ensures p in a + b && p in b + a
  {
  }

  lemma InsertChainRep(m: Mem, t: Tree, s: nat, x: int, par: int, cell: int)
    requires t.Node? && t.size == s && t.ring != [] && Disjoint(t)
    requires Placed(m, t, x, par, cell) && Ready(m, x, s)
    ensures var m' := ChainWrites(m, t.ring[0], x);
      Rep(m', t.(ring := RingInsert(t.ring, x)), par) && Rd(m', cell) == t.ring[0]
  {
    NodeParts(m, t, x, par, cell);
    ChainRingRep(m, t.ring, s, x);
    ChainOnly(m, t.ring, x, x + FD);
    InsertChainChild(m, t, x, par, cell, t.left);
    InsertChainChild(m, t, x, par, cell, t.right);
    var m' := ChainWrites(m, t.ring[0], x);
    CellKept(m, m', Members(t.ring) + {x}, x, Addrs(t) + {x}, cell);
    hide ChainWrites, Only, RingRep, Common, Spaced, Apart, NoDup, Members;
  }

  lemma InsertChainChild(m: Mem, t: Tree, x: int, par: int, cell: int, v: Tree)
    requires t.Node? && t.ring != [] && Disjoint(t) && Placed(m, t, x, par, cell)
    requires v == t.left || v == t.right
    ensures Rep(ChainWrites(m, t.ring[0], x), v, t.ring[0])
  {
    hide ChainWrites, Common, NoDup;
    var m' := ChainWrites(m, t.ring[0], x);
    var a := Members(t.ring) + {x};
    ChainOnly(m, t.ring, x, x + FD);
    assert Spaced(a + Addrs(v)) by { SpacedSubset(a + Addrs(v), Addrs(t) + {x}); }
    ChildCellApart(a, Addrs(v), x, x + FD);
    OnlySame(m, m', a, x + FD, Addrs(v));
    RepFrame(m, m', v, t.ring[0]);
  }

  lemma CellKept(m: Mem, m': Mem, a: set<int>, x: int, b: set<int>, cell: int)
    requires Only(m, m', a, x + FD) && x in a && a <= b && Apart(b, cell)
    ensures Rd(m', cell) == Rd(m, cell)
  {
    ApartFrom(b, cell, x);
    if p :| p in a && p + FD <= cell < p + 64 {
      ApartFrom(b, cell, p);
    }
  }

  lemma InsertSwap(m: Mem, m': Mem, t: Tree, x: int, par: int, cell: int, goLeft: bool, u: Tree)
    requires t.Node? && t.ring != [] && Disjoint(t) && Placed(m, t, x, par, cell)
    requires var c := if goLeft then t.ring[0] + CHILD0 else t.ring[0] + CHILD1;
      && Only(m, m', Addrs(if goLeft then t.left else t.right) + {x}, c)
      && Rep(m', u, t.ring[0]) && Rd(m', c) == Root(u)
    ensures Rep(m', WithChild(t, goLeft, u), par)
    ensures Rd(m', cell) == Root(WithChild(t, goLeft, u))
  {
    var a := Addrs(if goLeft then t.left else t.right) + {x};
    assert Addrs(t) + a == Addrs(t) + {x};
    ChildSwapRep(m, m', t, par, cell, a, goLeft, u);
  }

  /** After the writes of an insertion below (par, cell) the tree there is Trie.Insert of t. */
  ghost predicate Inserted(m: Mem, t: Tree, s: nat, x: int, lo: int, k: nat, par: int, cell: int) {
    var m', u := InsertWrites(m, t, s, x, lo, k, par, cell), Insert(t, s, x, lo, k);
    Rep(m', u, par) && Rd(m', cell) == Root(u) && Only(m, m', Addrs(t) + {x}, cell)
  }

  lemma InsertedHere(m: Mem, t: Tree, s: nat, x: int, lo: int, k: nat, par: int, cell: int)
    requires Valid(t, lo, k) && lo <= s < lo + Pow2(k) && (t.Nil? || t.size == s)
    requires Placed(m, t, x, par, cell) && Ready(m, x, s)
    ensures Inserted(m, t, s, x, lo, k, par, cell)
  {
    InsertOnly(m, t, s, x, lo, k, par, cell);
    if t.Nil? {
      assert Apart({x}, cell);
      LeafRep(m, s, x, par, cell);
    } else {
      InsertChainRep(m, t, s, x, par, cell);
    }
    hide Rep, Only, Placed, Ready, LeafWrites, ChainWrites, Addrs, Rd;
  }

  lemma WalkBelow(m: Mem, t: Tree, s: nat, x: int, lo: int, k: nat, par: int, cell: int,
                  v: Tree, vlo: int, c: int, goLeft: bool)
    requires t.Node? && t.ring != [] && k > 0 && t.size != s && goLeft == (s < lo + Pow2(k - 1))
    requires v == (if goLeft then t.left else t.right) && vlo == (if goLeft then lo else lo + Pow2(k - 1))
    requires c == (if goLeft then t.ring[0] + CHILD0 else t.ring[0] + CHILD1)
    ensures InsertWrites(m, t, s, x, lo, k, par, cell) == InsertWrites(m, v, s, x, vlo, k - 1, t.ring[0], c)
    ensures Insert(t, s, x, lo, k) == WithChild(t, goLeft, Insert(v, s, x, vlo, k - 1))
  {
    hide Pow2;
  }

  lemma InsertedBelow(m: Mem, t: Tree, s: nat, x: int, lo: int, k: nat, par: int, cell: int,
                      v: Tree, vlo: int, c: int, goLeft: bool)
    requires t.Node? && Valid(t, lo, k) && k > 0 && lo <= s < lo + Pow2(k) && t.size != s
    requires goLeft == (s < lo + Pow2(k - 1)) && Placed(m, t, x, par, cell)
    requires v == (if goLeft then t.left else t.right) && vlo == (if goLeft then lo else lo + Pow2(k - 1))
    requires c == (if goLeft then t.ring[0] + CHILD0 else t.ring[0] + CHILD1)
    requires Inserted(m, v, s, x, vlo, k - 1, t.ring[0], c)
    ensures Inserted(m, t, s, x, lo, k, par, cell)
  {
    hide Rep, Only, Placed, Addrs, Rd, InsertWrites, Insert;
    WalkBelow(m, t, s, x, lo, k, par, cell, v, vlo, c, goLeft);
    InsertOnly(m, t, s, x, lo, k, par, cell) by { PlacedRep(m, t, x, par, cell); }
    InsertSwap(m, InsertWrites(m, v, s, x, vlo, k - 1, t.ring[0], c), t, x, par, cell, goLeft,
      Insert(v, s, x, vlo, k - 1));
  }

  lemma PlacedRep(m: Mem, t: Tree, x: int, par: int, cell: int)
    requires Placed(m, t, x, par, cell)
    ensures Rep(m, t, par)
  {
  }

  /** The writes of insert_large_chunk realise Trie.Insert. */
  lemma {:induction false} InsertRep(m: Mem, t: Tree, s: nat, x: int, lo: int, k: nat, par: int, cell: int)
    requires Valid(t, lo, k) && lo <= s < lo + Pow2(k)
    requires Placed(m, t, x, par, cell) && Ready(m, x, s)
    ensures Inserted(m, t, s, x, lo, k, par, cell)
    decreases t
  {
    hide Inserted, Placed, Ready;
    if t.Nil? || t.size == s {
      InsertedHere(m, t, s, x, lo, k, par, cell);
    } else {
      NodeParts(m, t, x, par, cell);
      if s < lo + Pow2(k - 1) {
        InsertRep(m, t.left, s, x, lo, k - 1, t.ring[0], t.ring[0] + CHILD0);
        InsertedBelow(m, t, s, x, lo, k, par, cell, t.left, lo, t.ring[0] + CHILD0, true);
      } else {
        InsertRep(m, t.right, s, x, lo + Pow2(k - 1), k - 1, t.ring[0], t.ring[0] + CHILD1);
        InsertedBelow(m, t, s, x, lo, k, par, cell, t.right, lo + Pow2(k - 1), t.ring[0] + CHILD1, false);
      }
    }
  }

  // ---------- removal ----------

  /** unlink_large_chunk's last step: r takes the place of x below xp, with x's children. */
  function Relink(m: Mem, x: int, xp: int, cell: int, r: int): Mem {
    var m1 := m[cell := r];
    if r == 0 then m1 else Adopt(Adopt(m1[r + PARENT := xp], x, r, CHILD0), x, r, CHILD1)
  }

  /** r takes over one child of x. */
  function Adopt(m: Mem, x: int, r: int, child: int): Mem {
    var c := Rd(m, x + child);
    if c != 0 then m[r + child := c][c + PARENT := r] else m
  }

  ghost predicate SameBut(m: Mem, m': Mem, a: set<int>, h: int) {
    forall p :: p in a ==>
      && Rd(m', p + HEAD) == Rd(m, p + HEAD) && Rd(m', p + INDEX) == Rd(m, p + INDEX)
      && Rd(m', p + FD) == Rd(m, p + FD) && Rd(m', p + BK) == Rd(m, p + BK)
      && Rd(m', p + CHILD0) == Rd(m, p + CHILD0) && Rd(m', p + CHILD1) == Rd(m, p + CHILD1)
      && (p != h ==> Rd(m', p + PARENT) == Rd(m, p + PARENT))
  }

  /** A tree whose root gets another parent. */
  lemma Reparent(m: Mem, m': Mem, t: Tree, q: int, q': int)
    requires Rep(m, t, q) && Disjoint(t) && SameBut(m, m', Addrs(t), Root(t))
    requires t.Node? ==> t.ring != [] && Rd(m', Root(t) + PARENT) == q'
    ensures Rep(m', t, q')
  {
    if t.Node? {
      var h := t.ring[0];
      assert h in Members(t.ring);
      forall i | 0 <= i < |t.ring| ensures Common(m', t.ring[i], t.size) && (i >= 1 ==> Tree3(m', t.ring[i], 0, 0, 0)) {
        assert t.ring[i] in Addrs(t) && Common(m, t.ring[i], t.size);
        assert i >= 1 ==> Tree3(m, t.ring[i], 0, 0, 0);
      }
      assert Ring(m', t.ring) by {
        assert forall i :: 0 <= i < |t.ring| ==> t.ring[i] in Addrs(t);
        RingFrame(m, m', t.ring);
      }
      assert h in Addrs(t);
      SubtreeSame(m, m', t, t.left);
      SubtreeSame(m, m', t, t.right);
      RepFrame(m, m', t.left, h);
      RepFrame(m, m', t.right, h);
    }
  }

  lemma SubtreeSame(m: Mem, m': Mem, t: Tree, v: Tree)
    requires t.Node? && t.ring != [] && Disjoint(t) && (v == t.left || v == t.right)
    requires SameBut(m, m', Addrs(t), Root(t))
    ensures SameOn(m, m', Addrs(v))
  {
    assert t.ring[0] in Members(t.ring);
    forall p | p in Addrs(v) ensures SameAt(m, m', p) {
      assert p in Addrs(t) && p != Root(t);
    }
  }

  /** The state of memory just before Relink(_, x, par, cell, ring[0]). */
  ghost predicate Relinkable(m: Mem, x: int, s: nat, ring: seq<int>, l: Tree, r: Tree, cell: int) {
    && ring != [] && NoDup(ring) && RingRep(m, ring, s)
    && Rd(m, ring[0] + CHILD0) == 0 && Rd(m, ring[0] + CHILD1) == 0
    && Rep(m, l, x) && Rep(m, r, x)
    && Rd(m, x + CHILD0) == Root(l) && Rd(m, x + CHILD1) == Root(r)
    && Disjoint(Node(s, ring, l, r))
    && x !in Addrs(Node(s, ring, l, r))
    && Spaced(Addrs(Node(s, ring, l, r)) + {x})
    && Apart(Addrs(Node(s, ring, l, r)) + {x}, cell)
    && (l.Node? ==> l.ring != [] && l.ring[0] > 0) && (r.Node? ==> r.ring != [] && r.ring[0] > 0)
  }

  ghost predicate Far(p: int, q: int) {
    p + 64 <= q || q + 64 <= p
  }

  /** The words that Relink gives a new value; c0 and c1 are the children of x, 0 if there is none. */
  ghost predicate Relinked(m: Mem, m': Mem, h: int, c0: int, c1: int, par: int, cell: int) {
    && Rd(m', cell) == h && Rd(m', h + PARENT) == par
    && Rd(m', h + CHILD0) == c0 && Rd(m', h + CHILD1) == c1
    && (c0 != 0 ==> Rd(m', c0 + PARENT) == h)
    && (c1 != 0 ==> Rd(m', c1 + PARENT) == h)
    && (forall w ::
          (w != cell && w != h + PARENT && w != h + CHILD0 && w != h + CHILD1
           && (c0 != 0 ==> w != c0 + PARENT) && (c1 != 0 ==> w != c1 + PARENT))
          ==> Rd(m', w) == Rd(m, w))
  }

  lemma RelinkWords(m: Mem, x: int, h: int, c0: int, c1: int, par: int, cell: int)
    requires h != 0 && Far(x, h)
    requires c0 != 0 ==> Far(c0, x) && Far(c0, h) && (c1 != 0 ==> Far(c0, c1))
    requires c1 != 0 ==> Far(c1, x) && Far(c1, h)
    requires Apart({x, h}, cell) && (c0 != 0 ==> Apart({c0}, cell)) && (c1 != 0 ==> Apart({c1}, cell))
    requires Rd(m, x + CHILD0) == c0 && Rd(m, x + CHILD1) == c1
    requires Rd(m, h + CHILD0) == 0 && Rd(m, h + CHILD1) == 0
    ensures Relinked(m, Relink(m, x, par, cell, h), h, c0, c1, par, cell)
  {
    assert h in {x, h} && x in {x, h} && c0 in {c0} && c1 in {c1};
    var m1 := m[cell := h][h + PARENT := par];
    assert Rd(m1, x + CHILD0) == c0;
    var m2 := Adopt(m1, x, h, CHILD0);
    assert Rd(m2, x + CHILD1) == c1;
  }

  lemma RelinkDone(m: Mem, x: int, s: nat, ring: seq<int>, l: Tree, r: Tree, par: int, cell: int)
    requires Relinkable(m, x, s, ring, l, r, cell)
    ensures Relinked(m, Relink(m, x, par, cell, ring[0]), ring[0], Root(l), Root(r), par, cell)
  {
    hide Relink, RingRep, Rep, NoDup;
    var h := ring[0];
    var a := Addrs(Node(s, ring, l, r)) + {x};
    assert h in Members(ring) && h in a && x in a;
    if l.Node? { RootInAddrs(l); assert Root(l) in a && Root(l) !in Members(ring); }
    if r.Node? { RootInAddrs(r); assert Root(r) in a && Root(r) !in Members(ring); }
    assert h > 0 by { RingPositive(m, ring, s); }
    RelinkWords(m, x, h, Root(l), Root(r), par, cell);
  }

  lemma RingPositive(m: Mem, ring: seq<int>, s: nat)
    requires RingRep(m, ring, s) && ring != []
    ensures ring[0] > 0
  {
    assert Common(m, ring[0], s);
  }

  lemma RelinkRingRep(m: Mem, m': Mem, x: int, s: nat, ring: seq<int>, l: Tree, r: Tree, par: int, cell: int)
    requires Relinkable(m, x, s, ring, l, r, cell)
    requires Relinked(m, m', ring[0], Root(l), Root(r), par, cell)
    ensures RingRep(m', ring, s)
  {
    hide Rep;
    var h := ring[0];
    var a := Addrs(Node(s, ring, l, r)) + {x};
    forall p | p in Members(ring)
      ensures Rd(m', p + HEAD) == Rd(m, p + HEAD) && Rd(m', p + INDEX) == Rd(m, p + INDEX)
      ensures Rd(m', p + FD) == Rd(m, p + FD) && Rd(m', p + BK) == Rd(m, p + BK)
      ensures p != h ==> (Rd(m', p + CHILD0) == Rd(m, p + CHILD0) && Rd(m', p + CHILD1) == Rd(m, p + CHILD1)
                          && Rd(m', p + PARENT) == Rd(m, p + PARENT))
    {
      assert h in Members(ring) && h in a && p in a;
      if l.Node? { RootInAddrs(l); assert Root(l) in a && Root(l) !in Members(ring); }
      if r.Node? { RootInAddrs(r); assert Root(r) in a && Root(r) !in Members(ring); }
    }
    forall i | 0 <= i < |ring| ensures Common(m', ring[i], s) && (i >= 1 ==> Tree3(m', ring[i], 0, 0, 0)) {
      assert ring[i] in Members(ring) && Common(m, ring[i], s);
      assert i >= 1 ==> Tree3(m, ring[i], 0, 0, 0);
    }
    assert forall i :: 0 <= i < |ring| ==> ring[i] in Members(ring);
    RingFrame(m, m', ring);
  }

  lemma RelinkChild(m: Mem, m': Mem, x: int, s: nat, ring: seq<int>, l: Tree, r: Tree, par: int, cell: int, v: Tree)
    requires Relinkable(m, x, s, ring, l, r, cell)
    requires Relinked(m, m', ring[0], Root(l), Root(r), par, cell)
    requires v == l || v == r
    ensures Rep(m', v, ring[0])
  {
    hide RingRep, Rep;
    var h := ring[0];
    var a := Addrs(Node(s, ring, l, r)) + {x};
    forall p, w | p in Addrs(v) && p + HEAD <= w < p + 64 && (w != p + PARENT || p != Root(v))
      ensures Rd(m', w) == Rd(m, w)
    {
      assert h in Members(ring) && h in a && p in a;
      if l.Node? { RootInAddrs(l); assert Root(l) in a; }
      if r.Node? { RootInAddrs(r); assert Root(r) in a; }
    }
    assert SameBut(m, m', Addrs(v), Root(v)) by {
      forall p | p in Addrs(v)
        ensures p + HEAD < p + FD < p + BK < p + CHILD0 < p + CHILD1 < p + PARENT < p + INDEX < p + 64
      {}
    }
    Reparent(m, m', v, x, h);
  }

  lemma RelinkOnly(m: Mem, m': Mem, h: int, c0: int, c1: int, par: int, cell: int, a: set<int>)
    requires Relinked(m, m', h, c0, c1, par, cell)
    requires h in a && (c0 != 0 ==> c0 in a) && (c1 != 0 ==> c1 in a)
    ensures Only(m, m', a, cell)
  {
    forall w | Rd(m', w) != Rd(m, w) ensures w == cell || LinkWord(a, w) {
      assert w == cell || h + FD <= w < h + 64 || (c0 != 0 && c0 + FD <= w < c0 + 64) || (c1 != 0 && c1 + FD <= w < c1 + 64);
    }
  }

  lemma RelinkRep(m: Mem, x: int, s: nat, ring: seq<int>, l: Tree, r: Tree, par: int, cell: int)
    requires Relinkable(m, x, s, ring, l, r, cell)
    ensures var m', t := Relink(m, x, par, cell, ring[0]), Node(s, ring, l, r);
      Rep(m', t, par) && Rd(m', cell) == Root(t) && Only(m, m', Addrs(t), cell)
  {
    hide Relink, RingRep, Only;
    var m' := Relink(m, x, par, cell, ring[0]);
    var a := Addrs(Node(s, ring, l, r));
    RelinkDone(m, x, s, ring, l, r, par, cell);
    RelinkRingRep(m, m', x, s, ring, l, r, par, cell);
    RelinkChild(m, m', x, s, ring, l, r, par, cell, l);
    RelinkChild(m, m', x, s, ring, l, r, par, cell, r);
    assert ring[0] in Members(ring);
    if l.Node? { RootInAddrs(l); }
    if r.Node? { RootInAddrs(r); }
    RelinkOnly(m, m', ring[0], Root(l), Root(r), par, cell, a);
  }

  /** The pointer cell through which the deepest leaf below (cell, t) is reached. */
  function DeepCell(t: Tree, cell: int): int {
    if t.Nil? then cell
    else if t.right.Node? then DeepCell(t.right, Root(t) + CHILD1)
    else if t.left.Node? then DeepCell(t.left, Root(t) + CHILD0)
    else cell
  }

  /** What clearing that cell does: the tree loses the leaf, whose ring stays intact. */
  ghost predicate LeafCut(m: Mem, t: Tree, par: int, cell: int)
    requires t.Node?
  {
    var m' := m[DeepCell(t, cell) := 0];
    && Rep(m', CutDeep(t), par) && Rd(m', cell) == Root(CutDeep(t))
    && RingRep(m', DeepLeaf(t).ring, DeepLeaf(t).size)
    && Rd(m', Root(DeepLeaf(t)) + CHILD0) == 0 && Rd(m', Root(DeepLeaf(t)) + CHILD1) == 0
    && Only(m, m', Addrs(t), cell)
  }

  ghost predicate Full(t: Tree) {
    t.Node? ==> t.ring != [] && Full(t.left) && Full(t.right)
  }

  lemma {:induction false} ShapeFull(t: Tree, lo: int, k: nat)
    requires Shape(t, lo, k)
    ensures Full(t)
    decreases t
  {
    if t.Node? && k > 0 {
      ShapeFull(t.left, lo, k - 1);
      ShapeFull(t.right, lo + Pow2(k - 1), k - 1);
    }
  }

  ghost predicate Hung(m: Mem, t: Tree, par: int, cell: int) {
    && Rep(m, t, par) && Rd(m, cell) == Root(t) && Full(t) && Disjoint(t)
    && Spaced(Addrs(t)) && Apart(Addrs(t), cell)
  }

  lemma HungChildren(m: Mem, t: Tree, par: int, cell: int)
    requires t.Node? && Hung(m, t, par, cell)
    ensures Hung(m, t.left, t.ring[0], t.ring[0] + CHILD0)
    ensures Hung(m, t.right, t.ring[0], t.ring[0] + CHILD1)
  {
    assert t.ring[0] in Members(t.ring);
    ChildCellApart(Members(t.ring), Addrs(t.left) + Addrs(t.right), t.ring[0], t.ring[0] + CHILD0) by {
      SpacedSubset(Members(t.ring) + (Addrs(t.left) + Addrs(t.right)), Addrs(t));
    }
    ChildCellApart(Members(t.ring), Addrs(t.left) + Addrs(t.right), t.ring[0], t.ring[0] + CHILD1) by {
      SpacedSubset(Members(t.ring) + (Addrs(t.left) + Addrs(t.right)), Addrs(t));
    }
    hide RingRep;
  }

  lemma CutLeaf(m: Mem, t: Tree, par: int, cell: int)
    requires t.Node? && t.left.Nil? && t.right.Nil? && Hung(m, t, par, cell)
    ensures LeafCut(m, t, par, cell)
  {
    var m' := m[cell := 0];
    assert t.ring[0] in Members(t.ring);
    forall p | p in Members(t.ring) ensures SameAt(m, m', p) {
      assert p in Addrs(t);
    }
    assert forall i :: 0 <= i < |t.ring| ==> t.ring[i] in Members(t.ring);
    RingRepFrame(m, m', t.ring, t.size);
    assert SameAt(m, m', t.ring[0]);
  }

  /** A change below one child, seen from the node above. */
  lemma SwapHung(m: Mem, m': Mem, t: Tree, par: int, cell: int, goLeft: bool, u: Tree)
    requires t.Node? && Hung(m, t, par, cell)
    requires var c := if goLeft then t.ring[0] + CHILD0 else t.ring[0] + CHILD1;
      && Only(m, m', Addrs(if goLeft then t.left else t.right), c)
      && Rep(m', u, t.ring[0]) && Rd(m', c) == Root(u)
    ensures Rep(m', WithChild(t, goLeft, u), par)
    ensures Rd(m', cell) == Root(WithChild(t, goLeft, u))
    ensures Only(m, m', Addrs(t), cell)
  {
    var a := Addrs(if goLeft then t.left else t.right);
    var c := if goLeft then t.ring[0] + CHILD0 else t.ring[0] + CHILD1;
    assert Addrs(t) + a == Addrs(t);
    assert t.ring[0] in Members(t.ring);
    ChildSwapRep(m, m', t, par, cell, a, goLeft, u);
    OnlyWiden(m, m', a, c, Addrs(t), cell, t.ring[0]);
  }

  lemma {:induction false} CutRep(m: Mem, t: Tree, par: int, cell: int)
    requires t.Node? && Hung(m, t, par, cell)
    ensures LeafCut(m, t, par, cell)
    decreases t
  {
    if t.right.Nil? && t.left.Nil? {
      CutLeaf(m, t, par, cell);
    } else {
      HungChildren(m, t, par, cell);
      var goLeft := t.right.Nil?;
      var v := if goLeft then t.left else t.right;
      var c := if goLeft then t.ring[0] + CHILD0 else t.ring[0] + CHILD1;
      CutRep(m, v, t.ring[0], c);
      CutAbove(m, t, par, cell, v, c, goLeft);
    }
  }

  lemma CutAbove(m: Mem, t: Tree, par: int, cell: int, v: Tree, c: int, goLeft: bool)
    requires t.Node? && Hung(m, t, par, cell) && goLeft == t.right.Nil?
    requires v.Node? && v == (if goLeft then t.left else t.right)
    requires c == (if goLeft then t.ring[0] + CHILD0 else t.ring[0] + CHILD1)
    requires LeafCut(m, v, t.ring[0], c)
    ensures LeafCut(m, t, par, cell)
  {
    assert DeepCell(t, cell) == DeepCell(v, c);
    assert DeepLeaf(t) == DeepLeaf(v);
    assert CutDeep(t) == WithChild(t, goLeft, CutDeep(v));
    hide DeepCell, DeepLeaf, CutDeep, Rep, RingRep, Only, Rd;
    SwapHung(m, m[DeepCell(v, c) := 0], t, par, cell, goLeft, CutDeep(v));
  }

  /** All the writes of unlink_large_chunk for chunk x at node t, reached from (par, cell). */
  function RemoveWrites(m: Mem, t: Tree, x: int, par: int, cell: int): Mem {
    if t.Nil? then m
    else if |t.ring| > 1 then
      if x == Root(t) then Relink(Unlinked(m, x), x, par, cell, Rd(m, x + BK)) else Unlinked(m, x)
    else if t.right.Node? then
      Relink(m[DeepCell(t.right, x + CHILD1) := 0], x, par, cell, Root(DeepLeaf(t.right)))
    else if t.left.Node? then
      Relink(m[DeepCell(t.left, x + CHILD0) := 0], x, par, cell, Root(DeepLeaf(t.left)))
    else
      Relink(m, x, par, cell, 0)
  }

  ghost predicate Removed(m: Mem, t: Tree, x: int, par: int, cell: int, m': Mem, u: Tree) {
    Rep(m', u, par) && Rd(m', cell) == Root(u) && Only(m, m', Addrs(t), cell)
  }

  lemma UnlinkedOnly(m: Mem, ring: seq<int>, s: nat, x: int, cell: int)
    requires RingRep(m, ring, s) && NoDup(ring) && x in ring && |ring| > 1
    ensures Only(m, Unlinked(m, x), Members(ring), cell)
    ensures Rd(m, x + FD) in ring && Rd(m, x + BK) in ring
    ensures Ring(Unlinked(m, x), RingRemove(ring, x))
    ensures RingRemove(ring, x)[0] == if x == ring[0] then Rd(m, x + BK) else ring[0]
  {
    RingClear(m, ring, s, 0);
    UnlinkedRing(m, ring, x);
    var f, b := Rd(m, x + FD), Rd(m, x + BK);
    assert f in Members(ring) && b in Members(ring);
    forall w | Rd(Unlinked(m, x), w) != Rd(m, w) ensures w == cell || LinkWord(Members(ring), w) {
      assert f + FD <= w < f + 64 || b + FD <= w < b + 64;
    }
  }

  /** Unlinking changes no word of a ring member but fd and bk. */
  lemma UnlinkedKeeps(m: Mem, ring: seq<int>, s: nat, x: int, p: int)
    requires RingRep(m, ring, s) && x in ring && Spaced(Members(ring)) && p in ring
    requires Rd(m, x + FD) in ring && Rd(m, x + BK) in ring
    ensures var m' := Unlinked(m, x);
      && Rd(m', p + HEAD) == Rd(m, p + HEAD) && Rd(m', p + INDEX) == Rd(m, p + INDEX)
      && Rd(m', p + CHILD0) == Rd(m, p + CHILD0) && Rd(m', p + CHILD1) == Rd(m, p + CHILD1)
      && Rd(m', p + PARENT) == Rd(m, p + PARENT)
  {
    assert p in Members(ring) && Rd(m, x + FD) in Members(ring) && Rd(m, x + BK) in Members(ring);
  }

  lemma UnlinkedRingRep(m: Mem, ring: seq<int>, s: nat, x: int)
    requires RingRep(m, ring, s) && NoDup(ring) && x in ring && |ring| > 1 && Spaced(Members(ring))
    ensures var m', out := Unlinked(m, x), RingRemove(ring, x);
      && RingRep(m', out, s)
      && (x == ring[0] ==> Tree3(m', out[0], 0, 0, 0))
      && (x != ring[0] ==>
            (Rd(m', out[0] + CHILD0) == Rd(m, out[0] + CHILD0) && Rd(m', out[0] + CHILD1) == Rd(m, out[0] + CHILD1)
             && Rd(m', out[0] + PARENT) == Rd(m, out[0] + PARENT)))
  {
    hide Ring, Unlinked, Only, Spaced, NoDup;
    var m', out := Unlinked(m, x), RingRemove(ring, x);
    UnlinkedOnly(m, ring, s, x, 0);
    forall i | 0 <= i < |out| ensures Common(m', out[i], s) && (i >= 1 || x == ring[0] ==> Tree3(m', out[i], 0, 0, 0)) {
      UnlinkedWordsAt(m, ring, s, x, i);
    }
    if x != ring[0] { UnlinkedKeeps(m, ring, s, x, ring[0]); }
  }

  lemma RingRemoveAt(ring: seq<int>, x: int, i: nat) returns (k: nat)
    requires x in ring && |ring| > 1 && i < |ring| - 1
    ensures |RingRemove(ring, x)| == |ring| - 1
    ensures k < |ring| && RingRemove(ring, x)[i] == ring[k] && (i >= 1 || x == ring[0] ==> k >= 1)
  {
    var j := IndexOf(ring, x);
    k := if x == ring[0] then (if i == 0 then |ring| - 1 else i) else if i < j then i else i + 1;
  }

  lemma UnlinkedWordsAt(m: Mem, ring: seq<int>, s: nat, x: int, i: nat)
    requires RingRep(m, ring, s) && NoDup(ring) && x in ring && |ring| > 1 && Spaced(Members(ring))
    requires Rd(m, x + FD) in ring && Rd(m, x + BK) in ring
    requires i < |ring| - 1
    ensures |RingRemove(ring, x)| == |ring| - 1
    ensures var m', p := Unlinked(m, x), RingRemove(ring, x)[i];
      Common(m', p, s) && (i >= 1 || x == ring[0] ==> Tree3(m', p, 0, 0, 0))
  {
    hide Ring, Unlinked, Spaced, RingRemove, IndexOf, NoDup;
    var k := RingRemoveAt(ring, x, i);
    assert Common(m, ring[k], s) && (k >= 1 ==> Tree3(m, ring[k], 0, 0, 0));
    UnlinkedKeeps(m, ring, s, x, ring[k]);
  }

  lemma RemoveInnerRep(m: Mem, t: Tree, x: int, par: int, cell: int)
    requires t.Node? && Hung(m, t, par, cell) && x in t.ring && |t.ring| > 1 && x != t.ring[0]
    ensures Removed(m, t, x, par, cell, Unlinked(m, x), RemoveHere(t, x))
  {
    UnlinkedSubtrees(m, t, x, par, cell);
    InnerRingRep(m, t, x, par, cell);
    UnlinkedOnly(m, t.ring, t.size, x, cell);
    OnlyMono(m, Unlinked(m, x), Members(t.ring), Addrs(t), cell);
    UnlinkedCell(m, t, x, par, cell);
    hide Ring, Unlinked, Only, NoDup, RingRep, Spaced, Members, Addrs, RingRemove;
  }

  lemma InnerRingRep(m: Mem, t: Tree, x: int, par: int, cell: int)
    requires t.Node? && Hung(m, t, par, cell) && x in t.ring && |t.ring| > 1 && x != t.ring[0]
    ensures var m', out := Unlinked(m, x), RingRemove(t.ring, x);
      out != [] && out[0] == t.ring[0] && RingRep(m', out, t.size) && Tree3(m', out[0], Root(t.left), Root(t.right), par)
  {
    RingRemoveMembers(t.ring, x);
    assert Spaced(Members(t.ring)) by { SpacedSubset(Members(t.ring), Addrs(t)); }
    UnlinkedRingRep(m, t.ring, t.size, x);
    UnlinkedOnly(m, t.ring, t.size, x, cell);
    hide Ring, Unlinked, Only, NoDup, RingRep, Spaced, Members, Addrs, RingRemove;
  }

  lemma RemoveHeadRep(m: Mem, t: Tree, x: int, par: int, cell: int)
    requires t.Node? && Hung(m, t, par, cell) && x in t.ring && |t.ring| > 1 && x == t.ring[0]
    ensures Removed(m, t, x, par, cell, Relink(Unlinked(m, x), x, par, cell, Rd(m, x + BK)), RemoveHere(t, x))
  {
    var m1, out := Unlinked(m, x), RingRemove(t.ring, x);
    RingRemoveMembers(t.ring, x);
    var b := Addrs(Node(t.size, out, t.left, t.right));
    assert b <= Addrs(t);
    HeadRelinkable(m, t, x, par, cell);
    UnlinkedOnly(m, t.ring, t.size, x, cell);
    OnlyMono(m, m1, Members(t.ring), Addrs(t), cell);
    hide Ring, Unlinked, Only, NoDup, RingRep, Relink, Relinkable, Spaced, Members, Addrs, RingRemove, Apart;
    RelinkRep(m1, x, t.size, out, t.left, t.right, par, cell);
    OnlyChain(m, m1, Relink(m1, x, par, cell, out[0]), Addrs(t), cell, b);
  }

  lemma RemoveChainedRep(m: Mem, t: Tree, x: int, par: int, cell: int)
    requires t.Node? && Hung(m, t, par, cell) && x in t.ring && |t.ring| > 1
    ensures Removed(m, t, x, par, cell, RemoveWrites(m, t, x, par, cell), RemoveHere(t, x))
  {
    hide Removed, Hung, Relink, Unlinked, RemoveHere;
    if x == t.ring[0] {
      RemoveHeadRep(m, t, x, par, cell);
    } else {
      RemoveInnerRep(m, t, x, par, cell);
    }
  }

  lemma OnlyChain(m: Mem, m1: Mem, m2: Mem, a: set<int>, cell: int, b: set<int>)
    requires Only(m, m1, a, cell) && Only(m1, m2, b, cell) && b <= a
    ensures Only(m, m2, a, cell)
  {
    LinkWordMono(b, a);
  }

  lemma UnlinkedCell(m: Mem, t: Tree, x: int, par: int, cell: int)
    requires t.Node? && Hung(m, t, par, cell) && x in t.ring && |t.ring| > 1
    ensures Rd(Unlinked(m, x), cell) == Rd(m, cell)
  {
    UnlinkedOnly(m, t.ring, t.size, x, x + FD);
    assert x in Members(t.ring);
    CellKept(m, Unlinked(m, x), Members(t.ring), x, Addrs(t), cell);
  }

  lemma UnlinkedSubtrees(m: Mem, t: Tree, x: int, par: int, cell: int)
    requires t.Node? && Hung(m, t, par, cell) && x in t.ring && |t.ring| > 1
    ensures Rep(Unlinked(m, x), t.left, t.ring[0]) && Rep(Unlinked(m, x), t.right, t.ring[0])
  {
    var b := Addrs(t.left) + Addrs(t.right);
    assert x in Members(t.ring);
    UnlinkedOnly(m, t.ring, t.size, x, x + FD);
    SpacedSubset(Members(t.ring) + b, Addrs(t));
    ChildCellApart(Members(t.ring), b, x, x + FD);
    OnlySame(m, Unlinked(m, x), Members(t.ring), x + FD, b);
    RepFrame(m, Unlinked(m, x), t.left, t.ring[0]);
    RepFrame(m, Unlinked(m, x), t.right, t.ring[0]);
  }

  lemma HeadRelinkable(m: Mem, t: Tree, x: int, par: int, cell: int)
    requires t.Node? && Hung(m, t, par, cell) && x == t.ring[0] && |t.ring| > 1
    ensures Relinkable(Unlinked(m, x), x, t.size, RingRemove(t.ring, x), t.left, t.right, cell)
  {
    hide Ring, Unlinked, Only;
    var m1, out := Unlinked(m, x), RingRemove(t.ring, x);
    UnlinkedSubtrees(m, t, x, par, cell);
    RingRemoveMembers(t.ring, x);
    assert Spaced(Members(t.ring)) by { SpacedSubset(Members(t.ring), Addrs(t)); }
    UnlinkedRingRep(m, t.ring, t.size, x);
    assert x in Members(t.ring) && x !in Members(out);
    assert Addrs(Node(t.size, out, t.left, t.right)) + {x} == Addrs(t);
    UnlinkedOnly(m, t.ring, t.size, x, x + FD);
    UnlinkedKeeps(m, t.ring, t.size, x, x);
    RootsPositive(m, t, t.ring[0]);
  }

  /** The chunk is the last of its size and has a subtree below it: a leaf moves up. */
  lemma DeepRelinkable(m: Mem, t: Tree, x: int, par: int, cell: int, goLeft: bool)
    requires t.Node? && t.ring == [x] && Hung(m, t, par, cell)
    requires goLeft == t.right.Nil? && (goLeft ==> t.left.Node?)
    ensures var v, c := if goLeft then t.left else t.right, if goLeft then x + CHILD0 else x + CHILD1;
      var m1, u := m[DeepCell(v, c) := 0], Replaced(t);
      u.Node? && Relinkable(m1, x, u.size, u.ring, u.left, u.right, cell) && Only(m, m1, Addrs(t), cell)
  {
    var v := if goLeft then t.left else t.right;
    var c := if goLeft then x + CHILD0 else x + CHILD1;
    var m1 := m[DeepCell(v, c) := 0];
    DeepCut(m, t, x, par, cell, goLeft);
    DeepSets(t, x, goLeft);
    DeepFacts(m, t, x, par, cell, goLeft, m1);
    var u := Replaced(t);
    assert Node(u.size, u.ring, u.left, u.right) == u;
    assert Spaced(Addrs(t)) && Apart(Addrs(t), cell);
    hide DeepCell, DeepLeaf, CutDeep, Rep, RingRep, Only, Hung, NoDup, LeafCut, Replaced, Addrs, Spaced, Apart, Disjoint;
    RootsPositive(m1, u, x);
  }

  lemma DeepCut(m: Mem, t: Tree, x: int, par: int, cell: int, goLeft: bool)
    requires t.Node? && t.ring == [x] && Hung(m, t, par, cell)
    requires goLeft == t.right.Nil? && (goLeft ==> t.left.Node?)
    ensures var v, c := if goLeft then t.left else t.right, if goLeft then x + CHILD0 else x + CHILD1;
      LeafCut(m, v, x, c)
  {
    hide Hung, LeafCut;
    HungChildren(m, t, par, cell);
    CutRep(m, if goLeft then t.left else t.right, x, if goLeft then x + CHILD0 else x + CHILD1);
  }

  lemma RootsPositive(m: Mem, u: Tree, x: int)
    requires u.Node? && Full(u) && Rep(m, u.left, x) && Rep(m, u.right, x)
    ensures u.left.Node? ==> u.left.ring != [] && u.left.ring[0] > 0
    ensures u.right.Node? ==> u.right.ring != [] && u.right.ring[0] > 0
  {
    if u.left.Node? { assert Common(m, u.left.ring[0], u.left.size); }
    if u.right.Node? { assert Common(m, u.right.ring[0], u.right.size); }
  }

  lemma DeepSets(t: Tree, x: int, goLeft: bool)
    requires t.Node? && t.ring == [x] && Disjoint(t) && Full(t)
    requires goLeft == t.right.Nil? && (goLeft ==> t.left.Node?)
    ensures var u := Replaced(t);
      && u.Node? && u.ring != [] && NoDup(u.ring) && Disjoint(u) && Full(u)
      && x !in Addrs(u) && Addrs(u) + {x} == Addrs(t)
  {
    ReplacedAddrs(t, x);
    var v := if goLeft then t.left else t.right;
    CutDeepAddrs(v);
    CutFull(v);
    assert x in Members(t.ring);
  }

  lemma {:induction false} CutFull(t: Tree)
    requires t.Node? && Full(t)
    ensures Full(CutDeep(t)) && DeepLeaf(t).ring != []
    decreases t
  {
    if t.right.Node? {
      CutFull(t.right);
    } else if t.left.Node? {
      CutFull(t.left);
    }
  }

  lemma DeepFacts(m: Mem, t: Tree, x: int, par: int, cell: int, goLeft: bool, m1: Mem)
    requires t.Node? && t.ring == [x] && Hung(m, t, par, cell)
    requires goLeft == t.right.Nil? && (goLeft ==> t.left.Node?)
    requires var v, c := if goLeft then t.left else t.right, if goLeft then x + CHILD0 else x + CHILD1;
      m1 == m[DeepCell(v, c) := 0] && LeafCut(m, v, x, c)
    ensures var u := Replaced(t);
      && u.Node? && Rep(m1, u.left, x) && Rep(m1, u.right, x)
      && Rd(m1, x + CHILD0) == Root(u.left) && Rd(m1, x + CHILD1) == Root(u.right)
      && RingRep(m1, u.ring, u.size)
      && Rd(m1, Root(u) + CHILD0) == 0 && Rd(m1, Root(u) + CHILD1) == 0
      && Only(m, m1, Addrs(t), cell)
  {
    var v := if goLeft then t.left else t.right;
    var c := if goLeft then x + CHILD0 else x + CHILD1;
    var w, u := WithChild(t, goLeft, CutDeep(v)), Replaced(t);
    assert w.Node? && w.ring == [x];
    assert u.Node? && u.left == w.left && u.right == w.right && u.ring == DeepLeaf(v).ring && u.size == DeepLeaf(v).size;
    hide DeepLeaf, CutDeep, DeepCell, Only, RingRep, Hung, Rep, Replaced, WithChild;
    SwapHung(m, m1, t, par, cell, goLeft, CutDeep(v));
    NodeWords(m1, w, par, x);
  }

  lemma NodeWords(m: Mem, t: Tree, par: int, x: int)
    requires t.Node? && t.ring == [x] && Rep(m, t, par)
    ensures Rep(m, t.left, x) && Rep(m, t.right, x)
    ensures Rd(m, x + CHILD0) == Root(t.left) && Rd(m, x + CHILD1) == Root(t.right)
  {
  }

  lemma RemoveDeepRep(m: Mem, t: Tree, x: int, par: int, cell: int, goLeft: bool)
    requires t.Node? && t.ring == [x] && Hung(m, t, par, cell)
    requires goLeft == t.right.Nil? && (goLeft ==> t.left.Node?)
    ensures Removed(m, t, x, par, cell, RemoveWrites(m, t, x, par, cell), RemoveHere(t, x))
  {
    var v := if goLeft then t.left else t.right;
    var c := if goLeft then x + CHILD0 else x + CHILD1;
    var m1, u := m[DeepCell(v, c) := 0], Replaced(t);
    DeepRelinkable(m, t, x, par, cell, goLeft);
    DeepSets(t, x, goLeft);
    assert RemoveWrites(m, t, x, par, cell) == Relink(m1, x, par, cell, Root(DeepLeaf(v)));
    assert RemoveHere(t, x) == u && u.ring == DeepLeaf(v).ring;
    hide RemoveWrites, RemoveHere, Relink, Relinkable, Only, Rep, Hung, DeepLeaf, Replaced, Disjoint, DeepCell;
    RelinkRep(m1, x, u.size, u.ring, u.left, u.right, par, cell);
    OnlyChain(m, m1, Relink(m1, x, par, cell, u.ring[0]), Addrs(t), cell, Addrs(u));
  }

  /** The writes of unlink_large_chunk realise the removal at the node that holds x. */
  lemma RemoveHereRep(m: Mem, t: Tree, x: int, par: int, cell: int)
    requires t.Node? && Hung(m, t, par, cell) && x in t.ring
    ensures Removed(m, t, x, par, cell, RemoveWrites(m, t, x, par, cell), RemoveHere(t, x))
  {
    hide Removed, Relink, Rep, Spaced;
    if |t.ring| > 1 {
      RemoveChainedRep(m, t, x, par, cell);
    } else {
      assert t.ring == [x];
      if t.right.Node? || t.left.Node? {
        RemoveDeepRep(m, t, x, par, cell, t.right.Nil?);
      } else {
        RemoveLeafRep(m, t, x, par, cell);
      }
    }
  }

  lemma RemoveLeafRep(m: Mem, t: Tree, x: int, par: int, cell: int)
    requires t.Node? && t.left.Nil? && t.right.Nil? && t.ring == [x]
    ensures Removed(m, t, x, par, cell, RemoveWrites(m, t, x, par, cell), RemoveHere(t, x))
  {
  }

  // ---------- removal, seen from the bin ----------

  /** The node of t that holds x, the address that its parent word holds, and its pointer cell. */
  function NodeOf(t: Tree, x: int): Tree {
    if t.Nil? || x in t.ring then t
    else if x in Addrs(t.left) then NodeOf(t.left, x)
    else NodeOf(t.right, x)
  }

  function ParentOf(t: Tree, x: int, par: int): int {
    if t.Nil? || x in t.ring then par
    else if x in Addrs(t.left) then ParentOf(t.left, x, Root(t))
    else ParentOf(t.right, x, Root(t))
  }

  function CellOf(t: Tree, x: int, cell: int): int {
    if t.Nil? || x in t.ring then cell
    else if x in Addrs(t.left) then CellOf(t.left, x, Root(t) + CHILD0)
    else CellOf(t.right, x, Root(t) + CHILD1)
  }

  lemma {:induction false} NodeHung(m: Mem, t: Tree, x: int, par: int, cell: int)
    requires Hung(m, t, par, cell) && x in Addrs(t)
    ensures NodeOf(t, x).Node? && x in NodeOf(t, x).ring
    ensures Hung(m, NodeOf(t, x), ParentOf(t, x, par), CellOf(t, x, cell))
    decreases t
  {
    if x !in t.ring {
      HungChildren(m, t, par, cell);
      hide Hung;
      if x in Addrs(t.left) {
        NodeHung(m, t.left, x, t.ring[0], t.ring[0] + CHILD0);
      } else {
        NodeHung(m, t.right, x, t.ring[0], t.ring[0] + CHILD1);
      }
    }
  }

  /** A removal at the node that holds x is a removal from the whole tree. */
  lemma {:induction false} RemoveLift(m: Mem, m': Mem, t: Tree, x: int, par: int, cell: int)
    requires Hung(m, t, par, cell) && x in Addrs(t)
    requires NodeOf(t, x).Node? && x in NodeOf(t, x).ring
    requires Removed(m, NodeOf(t, x), x, ParentOf(t, x, par), CellOf(t, x, cell), m', RemoveHere(NodeOf(t, x), x))
    ensures Removed(m, t, x, par, cell, m', Remove(t, x))
    decreases t
  {
    if x !in t.ring {
      HungChildren(m, t, par, cell);
      hide Removed, Hung;
      if x in Addrs(t.left) {
        RemoveLift(m, m', t.left, x, t.ring[0], t.ring[0] + CHILD0);
        RemovedAbove(m, m', t, x, par, cell, true, Remove(t.left, x));
      } else {
        RemoveLift(m, m', t.right, x, t.ring[0], t.ring[0] + CHILD1);
        RemovedAbove(m, m', t, x, par, cell, false, Remove(t.right, x));
      }
    }
  }

  lemma RemovedAbove(m: Mem, m': Mem, t: Tree, x: int, par: int, cell: int, goLeft: bool, u: Tree)
    requires t.Node? && t.ring != [] && Hung(m, t, par, cell)
    requires if goLeft then Removed(m, t.left, x, t.ring[0], t.ring[0] + CHILD0, m', u)
             else Removed(m, t.right, x, t.ring[0], t.ring[0] + CHILD1, m', u)
    ensures Removed(m, t, x, par, cell, m', WithChild(t, goLeft, u))
  {
    hide Hung, Rep;
    SwapHung(m, m', t, par, cell, goLeft, u);
  }

  /** The writes of unlink_large_chunk, started at the node of x, realise Trie.Remove. */
  lemma RemoveRep(m: Mem, t: Tree, x: int, par: int, cell: int)
    requires Hung(m, t, par, cell) && x in Addrs(t)
    ensures var m' := RemoveWrites(m, NodeOf(t, x), x, ParentOf(t, x, par), CellOf(t, x, cell));
      Removed(m, t, x, par, cell, m', Remove(t, x))
  {
    hide Removed, Hung, RemoveWrites;
    NodeHung(m, t, x, par, cell);
    RemoveHereRep(m, NodeOf(t, x), x, ParentOf(t, x, par), CellOf(t, x, cell));
    RemoveLift(m, RemoveWrites(m, NodeOf(t, x), x, ParentOf(t, x, par), CellOf(t, x, cell)), t, x, par, cell);
  }

  /**
   * How unlink_large_chunk tells its case: the parent word of x is 0 unless x heads its ring,
   * and then the pointer cell of x's node is found by comparing x with the parent's children.
   */
  lemma {:induction false} FindCell(m: Mem, t: Tree, x: int, par: int, cell: int)
    requires Hung(m, t, par, cell) && x in Addrs(t)
    ensures Rd(m, x + PARENT) == if x == Root(NodeOf(t, x)) then ParentOf(t, x, par) else 0
    ensures x !in t.ring ==> ParentOf(t, x, par) in Addrs(t) && ParentOf(t, x, par) > 0
    ensures x !in t.ring && x == Root(NodeOf(t, x)) ==>
      CellOf(t, x, cell) == if Rd(m, ParentOf(t, x, par) + CHILD0) == x then ParentOf(t, x, par) + CHILD0
                            else ParentOf(t, x, par) + CHILD1
    decreases t
  {
    if x in t.ring {
      var i := IndexOf(t.ring, x);
      assert i >= 1 ==> Tree3(m, t.ring[i], 0, 0, 0);
    } else {
      HungChildren(m, t, par, cell);
      assert Common(m, t.ring[0], t.size) && t.ring[0] in Members(t.ring);
      if x in Addrs(t.left) {
        FindCell(m, t.left, x, t.ring[0], t.ring[0] + CHILD0);
        assert Rd(m, t.ring[0] + CHILD0) == Root(t.left);
      } else {
        FindCell(m, t.right, x, t.ring[0], t.ring[0] + CHILD1);
        RightNotLeft(m, t, x);
      }
      hide Hung, Rep;
    }
  }

  lemma RightNotLeft(m: Mem, t: Tree, x: int)
    requires t.Node? && Full(t) && Disjoint(t) && Rep(m, t.right, t.ring[0]) && x in Addrs(t.right)
    requires Rd(m, t.ring[0] + CHILD0) == Root(t.left)
    ensures Rd(m, t.ring[0] + CHILD0) != x
  {
    RepAddrs(m, t.right, t.ring[0]);
    if t.left.Node? { RootInAddrs(t.left); }
  }

  // ---------- the two phases of unlink_large_chunk ----------

  /** Phase one: leave the ring, or detach the leaf that will move up. */
  function FirstWrites(m: Mem, t: Tree, x: int): Mem {
    if t.Nil? then m
    else if |t.ring| > 1 then Unlinked(m, x)
    else if t.right.Node? then m[DeepCell(t.right, x + CHILD1) := 0]
    else if t.left.Node? then m[DeepCell(t.left, x + CHILD0) := 0]
    else m
  }

  /** The chunk that takes the place of x; 0 if there is none. */
  function NewRoot(m: Mem, t: Tree, x: int): int {
    if t.Nil? then 0
    else if |t.ring| > 1 then Rd(m, x + BK)
    else if t.right.Node? then Root(DeepLeaf(t.right))
    else if t.left.Node? then Root(DeepLeaf(t.left))
    else 0
  }

  lemma PhasesAre(m: Mem, t: Tree, x: int, par: int, cell: int)
    requires t.Node? && x in t.ring
    ensures RemoveWrites(m, t, x, par, cell)
      == if x == Root(t) then Relink(FirstWrites(m, t, x), x, par, cell, NewRoot(m, t, x)) else FirstWrites(m, t, x)
  {
  }

  lemma FirstOnly(m: Mem, t: Tree, x: int, par: int, cell: int)
    requires t.Node? && Hung(m, t, par, cell) && x in t.ring
    ensures Only(m, FirstWrites(m, t, x), Addrs(t), x + FD)
  {
    if |t.ring| > 1 {
      UnlinkedOnly(m, t.ring, t.size, x, x + FD);
      OnlyMono(m, Unlinked(m, x), Members(t.ring), Addrs(t), x + FD);
    } else if t.right.Node? || t.left.Node? {
      assert t.ring == [x] && x in Members(t.ring);
      DeepCut(m, t, x, par, cell, t.right.Nil?);
      var v, c := if t.right.Nil? then t.left else t.right, if t.right.Nil? then x + CHILD0 else x + CHILD1;
      OnlyWiden(m, m[DeepCell(v, c) := 0], Addrs(v), c, Addrs(t), x + FD, x);
    }
  }

  lemma {:induction false} DeepCellIsChild(t: Tree, cell: int)
    requires Full(t)
    ensures DeepCell(t, cell) == cell
      || DeepCell(t, cell) - CHILD0 in Addrs(t) || DeepCell(t, cell) - CHILD1 in Addrs(t)
    decreases t
  {
    if t.Node? {
      assert t.ring[0] in Members(t.ring);
      if t.right.Node? {
        DeepCellIsChild(t.right, Root(t) + CHILD1);
      } else if t.left.Node? {
        DeepCellIsChild(t.left, Root(t) + CHILD0);
      }
    }
  }

  /** Phase one leaves the parent and index words of x alone. */
  lemma FirstKeeps(m: Mem, t: Tree, x: int, par: int, cell: int)
    requires t.Node? && Hung(m, t, par, cell) && x in t.ring
    ensures Rd(FirstWrites(m, t, x), x + INDEX) == Rd(m, x + INDEX)
    ensures Rd(FirstWrites(m, t, x), x + PARENT) == Rd(m, x + PARENT)
  {
    assert x in Members(t.ring);
    if |t.ring| > 1 {
      assert Spaced(Members(t.ring)) by { SpacedSubset(Members(t.ring), Addrs(t)); }
      UnlinkedOnly(m, t.ring, t.size, x, x + FD);
      UnlinkedKeeps(m, t.ring, t.size, x, x);
    } else if t.right.Node? {
      DeepCellIsChild(t.right, x + CHILD1);
      hide Rep, DeepCell;
    } else if t.left.Node? {
      DeepCellIsChild(t.left, x + CHILD0);
      hide Rep, DeepCell;
    }
  }

  /** The index word of a chunk in a tree is that of its size. */
  lemma RingOfOne(m: Mem, ring: seq<int>, s: nat, x: int)
    requires RingRep(m, ring, s) && NoDup(ring) && x in ring
    ensures Rd(m, x + BK) == x <==> |ring| == 1
  {
    var j := IndexOf(ring, x);
    assert Linked(m, ring, j);
  }

  lemma {:induction false} ParentOutside(t: Tree, x: int, par: int)
    requires Full(t) && Disjoint(t) && x in Addrs(t) && x !in t.ring
    ensures ParentOf(t, x, par) in Addrs(t) && ParentOf(t, x, par) !in Addrs(NodeOf(t, x))
    ensures Addrs(NodeOf(t, x)) <= Addrs(t)
    decreases t
  {
    assert t.ring[0] in Members(t.ring);
    var v := if x in Addrs(t.left) then t.left else t.right;
    if x in v.ring {
      assert NodeOf(t, x) == v;
    } else {
      ParentOutside(v, x, Root(t));
    }
  }
}
