/**
 * The value a treebin stands for: a bitwise trie of chunk sizes whose nodes hold
 * rings of equal-sized chunks. Insertion and removal are given as functions here and
 * the pointer code of module TreeMemory is proved against them.
 */
module Trie {
  import opened Words

  /** ring[0] is the chunk that is linked into the trie; the others hang off it by fd/bk. */
  datatype Tree = Nil | Node(size: nat, ring: seq<int>, left: Tree, right: Tree)

  function Root(t: Tree): int {
    if t.Nil? then 0 else if t.ring == [] then 0 else t.ring[0]
  }

  function Members(s: seq<int>): set<int> {
    set p | p in s
  }

  /** The chunks of a tree. */
  function Addrs(t: Tree): set<int> {
    match t
    case Nil => {}
    case Node(_, ring, l, r) => Members(ring) + Addrs(l) + Addrs(r)
  }

  /** Chunk p is in the tree, at a node of size s. */
  predicate Holds(t: Tree, p: int, s: nat) {
    t.Node? && ((p in t.ring && s == t.size) || Holds(t.left, p, s) || Holds(t.right, p, s))
  }

  function Sizes(t: Tree): set<nat> {
    match t
    case Nil => {}
    case Node(s, _, l, r) => {s} + Sizes(l) + Sizes(r)
  }

  ghost predicate NoDup(s: seq<int>) {
    forall i, j :: 0 <= i < j < |s| ==> s[i] != s[j]
  }

  /** No chunk occurs twice. */
  ghost predicate Disjoint(t: Tree) {
    match t
    case Nil => true
    case Node(_, ring, l, r) =>
      && NoDup(ring)
      && Members(ring) !! Addrs(l)
      && Members(ring) !! Addrs(r)
      && Addrs(l) !! Addrs(r)
      && Disjoint(l)
      && Disjoint(r)
  }

  /**
   * The digital-tree property for the sizes in [lo, lo + 2^k): a node splits its range in halves
   * at the next undecided bit, and no size occurs twice.
   */
  ghost predicate Shape(t: Tree, lo: int, k: nat)
    decreases t
  {
    match t
    case Nil => true
    case Node(s, ring, l, r) =>
      && ring != []
      && lo <= s < lo + Pow2(k)
      && s !in Sizes(l) && s !in Sizes(r)
      && if k == 0 then l.Nil? && r.Nil?
         else Shape(l, lo, k - 1) && Shape(r, lo + Pow2(k - 1), k - 1)
  }

  ghost predicate Valid(t: Tree, lo: int, k: nat) {
    Shape(t, lo, k) && Disjoint(t)
  }

  lemma {:induction false} SizesInRange(t: Tree, lo: int, k: nat)
    requires Shape(t, lo, k)
    ensures forall s :: s in Sizes(t) ==> lo <= s < lo + Pow2(k)
    decreases t
  {
    if t.Node? && k > 0 {
      SizesInRange(t.left, lo, k - 1);
      SizesInRange(t.right, lo + Pow2(k - 1), k - 1);
    }
  }

  function Height(t: Tree): nat {
    if t.Nil? then 0 else 1 + (if Height(t.left) < Height(t.right) then Height(t.right) else Height(t.left))
  }

  /** A trie has at most one level for each undecided bit, and one more. */
  lemma {:induction false} HeightBound(t: Tree, lo: int, k: nat)
    requires Shape(t, lo, k)
    ensures Height(t) <= k + 1
    decreases t
  {
    if t.Node? && k > 0 {
      HeightBound(t.left, lo, k - 1);
      HeightBound(t.right, lo + Pow2(k - 1), k - 1);
    }
  }

  lemma {:induction false} HoldsSize(t: Tree, p: int, s: nat)
    requires Holds(t, p, s)
    ensures p in Addrs(t) && s in Sizes(t)
    decreases t
  {
    if Holds(t.left, p, s) {
      HoldsSize(t.left, p, s);
    } else if Holds(t.right, p, s) {
      HoldsSize(t.right, p, s);
    }
  }

  lemma RootInAddrs(t: Tree)
    requires t.Node? && t.ring != []
    ensures Root(t) in Addrs(t)
  {
    assert t.ring[0] in t.ring;
  }

  // ---------- insertion ----------

  /** A new chunk joins a ring right after the ring's head. */
  function RingInsert(ring: seq<int>, x: int): seq<int> {
    if ring == [] then [x] else [ring[0], x] + ring[1..]
  }

  /** Insertion by the undecided bits of s, in the range [lo, lo + 2^k) that holds s and the tree. */
  function Insert(t: Tree, s: nat, x: int, lo: int, k: nat): Tree
    decreases t
  {
    match t
    case Nil => Node(s, [x], Nil, Nil)
    case Node(z, ring, l, r) =>
      if z == s then Node(z, RingInsert(ring, x), l, r)
      else if k == 0 then t
      else if s < lo + Pow2(k - 1) then Node(z, ring, Insert(l, s, x, lo, k - 1), r)
      else Node(z, ring, l, Insert(r, s, x, lo + Pow2(k - 1), k - 1))
  }

  lemma {:induction false} InsertSizes(t: Tree, s: nat, x: int, lo: int, k: nat)
    requires Shape(t, lo, k) && lo <= s < lo + Pow2(k)
    ensures Sizes(Insert(t, s, x, lo, k)) == Sizes(t) + {s}
    decreases t
  {
    if t.Node? && t.size != s {
      if s < lo + Pow2(k - 1) {
        InsertSizes(t.left, s, x, lo, k - 1);
      } else {
        InsertSizes(t.right, s, x, lo + Pow2(k - 1), k - 1);
      }
    }
  }

  lemma {:induction false} InsertShape(t: Tree, s: nat, x: int, lo: int, k: nat)
    requires Shape(t, lo, k) && lo <= s < lo + Pow2(k)
    ensures Shape(Insert(t, s, x, lo, k), lo, k)
    decreases t
  {
    if t.Node? && t.size != s {
      if s < lo + Pow2(k - 1) {
        InsertShape(t.left, s, x, lo, k - 1);
        InsertSizes(t.left, s, x, lo, k - 1);
      } else {
        InsertShape(t.right, s, x, lo + Pow2(k - 1), k - 1);
        InsertSizes(t.right, s, x, lo + Pow2(k - 1), k - 1);
      }
    }
  }

  lemma RingInsertMembers(ring: seq<int>, x: int)
    requires ring != []
    ensures Members(RingInsert(ring, x)) == Members(ring) + {x}
    ensures NoDup(ring) && x !in ring ==> NoDup(RingInsert(ring, x))
  {
    var out := RingInsert(ring, x);
    forall p | p in ring ensures p in out {
      var i := IndexOf(ring, p);
      assert out[if i == 0 then 0 else i + 1] == p;
    }
    assert x == out[1];
  }

  lemma {:induction false} InsertAddrs(t: Tree, s: nat, x: int, lo: int, k: nat)
    requires Shape(t, lo, k) && lo <= s < lo + Pow2(k)
    ensures Addrs(Insert(t, s, x, lo, k)) == Addrs(t) + {x}
    decreases t
  {
    if t.Node? {
      if t.size == s {
        RingInsertMembers(t.ring, x);
      } else if s < lo + Pow2(k - 1) {
        InsertAddrs(t.left, s, x, lo, k - 1);
      } else {
        InsertAddrs(t.right, s, x, lo + Pow2(k - 1), k - 1);
      }
    } else {
      assert forall p :: p in [x] <==> p == x;
    }
  }

  /** Insertion adds the chunk with its size and changes no other entry. */
  lemma {:induction false} InsertHolds(t: Tree, s: nat, x: int, lo: int, k: nat, p: int, z: nat)
    requires Shape(t, lo, k) && lo <= s < lo + Pow2(k)
    ensures Holds(Insert(t, s, x, lo, k), p, z) <==> Holds(t, p, z) || (p == x && z == s)
    decreases t
  {
    if t.Node? {
      if t.size == s {
        RingInsertMembers(t.ring, x);
        assert p in RingInsert(t.ring, x) <==> p in Members(RingInsert(t.ring, x));
      } else if s < lo + Pow2(k - 1) {
        InsertHolds(t.left, s, x, lo, k - 1, p, z);
      } else {
        InsertHolds(t.right, s, x, lo + Pow2(k - 1), k - 1, p, z);
      }
    }
  }

  lemma {:induction false} InsertDisjoint(t: Tree, s: nat, x: int, lo: int, k: nat)
    requires Valid(t, lo, k) && lo <= s < lo + Pow2(k)
    requires x !in Addrs(t)
    ensures Disjoint(Insert(t, s, x, lo, k))
    decreases t
  {
    hide Disjoint, Addrs, Sizes, Members;
    if t.Nil? {
      DisjointLeaf(s, x);
    } else {
      DisjointParts(t);
      if t.size == s {
        DisjointRing(t, x);
      } else {
        if s < lo + Pow2(k - 1) {
          InsertAddrs(t.left, s, x, lo, k - 1);
          InsertDisjoint(t.left, s, x, lo, k - 1);
          DisjointNode(t, x, Insert(t.left, s, x, lo, k - 1), t.right);
        } else {
          InsertAddrs(t.right, s, x, lo + Pow2(k - 1), k - 1);
          InsertDisjoint(t.right, s, x, lo + Pow2(k - 1), k - 1);
          DisjointNode(t, x, t.left, Insert(t.right, s, x, lo + Pow2(k - 1), k - 1));
        }
      }
    }
  }

  lemma DisjointParts(t: Tree)
    requires t.Node? && Disjoint(t)
    ensures Disjoint(t.left) && Disjoint(t.right) && Addrs(t.left) <= Addrs(t) && Addrs(t.right) <= Addrs(t)
  {
  }

  lemma DisjointLeaf(s: nat, x: int)
    ensures Disjoint(Node(s, [x], Nil, Nil))
  {
  }

  /** A new chunk in the ring. */
  lemma DisjointRing(t: Tree, x: int)
    requires t.Node? && t.ring != [] && Disjoint(t) && x !in Addrs(t)
    ensures Disjoint(Node(t.size, RingInsert(t.ring, x), t.left, t.right))
  {
    hide RingInsert, NoDup;
    RingInsertMembers(t.ring, x);
    InMembers(t.ring, x);
  }

  lemma InMembers(ring: seq<int>, x: int)
    ensures x in ring <==> x in Members(ring)
  {
  }

  /** A new chunk in one of the subtrees. */
  lemma DisjointNode(t: Tree, x: int, l: Tree, r: Tree)
    requires t.Node? && Disjoint(t) && x !in Addrs(t) && Disjoint(l) && Disjoint(r)
    requires (l == t.left && Addrs(r) == Addrs(t.right) + {x}) || (r == t.right && Addrs(l) == Addrs(t.left) + {x})
    ensures Disjoint(Node(t.size, t.ring, l, r))
  {
    hide Members, NoDup;
  }

  // ---------- removal ----------

  /** The leaf reached by going right wherever possible, and left otherwise. */
  function DeepLeaf(t: Tree): (leaf: Tree)
    requires t.Node?
    ensures leaf.Node?
  {
    if t.right.Node? then DeepLeaf(t.right)
    else if t.left.Node? then DeepLeaf(t.left)
    else t
  }

  /** The tree without that leaf. */
  function CutDeep(t: Tree): Tree
    requires t.Node?
  {
    if t.right.Node? then t.(right := CutDeep(t.right))
    else if t.left.Node? then t.(left := CutDeep(t.left))
    else Nil
  }

  lemma {:induction false} CutDeepShape(t: Tree, lo: int, k: nat)
    requires t.Node? && Shape(t, lo, k)
    ensures Shape(CutDeep(t), lo, k)
    ensures Sizes(t) == Sizes(CutDeep(t)) + {DeepLeaf(t).size}
    ensures DeepLeaf(t).size !in Sizes(CutDeep(t))
    ensures DeepLeaf(t).ring != []
    ensures DeepLeaf(t).left.Nil? && DeepLeaf(t).right.Nil?
    decreases t
  {
    if t.right.Node? {
      CutDeepShape(t.right, lo + Pow2(k - 1), k - 1);
      SizesInRange(t.left, lo, k - 1);
      SizesInRange(t.right, lo + Pow2(k - 1), k - 1);
    } else if t.left.Node? {
      CutDeepShape(t.left, lo, k - 1);
    }
  }

  lemma {:induction false} CutDeepAddrs(t: Tree)
    requires t.Node? && Disjoint(t)
    ensures Disjoint(CutDeep(t)) && NoDup(DeepLeaf(t).ring)
    ensures Addrs(t) == Addrs(CutDeep(t)) + Members(DeepLeaf(t).ring)
    ensures Addrs(CutDeep(t)) !! Members(DeepLeaf(t).ring)
    decreases t
  {
    if t.right.Node? {
      CutDeepAddrs(t.right);
    } else if t.left.Node? {
      CutDeepAddrs(t.left);
    }
  }

  lemma {:induction false} CutDeepHolds(t: Tree, p: int, z: nat)
    requires t.Node?
    ensures Holds(t, p, z) <==> Holds(CutDeep(t), p, z) || (p in DeepLeaf(t).ring && z == DeepLeaf(t).size)
    decreases t
  {
    if t.right.Node? {
      CutDeepHolds(t.right, p, z);
    } else if t.left.Node? {
      CutDeepHolds(t.left, p, z);
    }
  }

  function IndexOf(s: seq<int>, x: int): (i: nat)
    requires x in s
    ensures i < |s| && s[i] == x
  {
    if s[0] == x then 0 else 1 + IndexOf(s[1..], x)
  }

  /** A ring without x; when its head leaves, the head's bk neighbour (the last) takes its place. */
  function RingRemove(ring: seq<int>, x: int): seq<int>
    requires x in ring && |ring| > 1
  {
    if x == ring[0] then [ring[|ring| - 1]] + ring[1..|ring| - 1]
    else var j := IndexOf(ring, x); ring[..j] + ring[j + 1..]
  }

  lemma RingRemoveMembers(ring: seq<int>, x: int)
    requires x in ring && |ring| > 1 && NoDup(ring)
    ensures NoDup(RingRemove(ring, x)) && RingRemove(ring, x) != []
    ensures Members(RingRemove(ring, x)) == Members(ring) - {x}
  {
    var out := RingRemove(ring, x);
    if x != ring[0] {
      var j := IndexOf(ring, x);
      assert forall i :: 0 <= i < |out| ==> out[i] == ring[if i < j then i else i + 1];
      forall p | p in ring && p != x ensures p in out {
        var i := IndexOf(ring, p);
        assert out[if i < j then i else i - 1] == p;
      }
    } else {
      assert forall i :: 1 <= i < |out| ==> out[i] == ring[i];
      forall p | p in ring && p != x ensures p in out {
        var i := IndexOf(ring, p);
        assert out[if i == |ring| - 1 then 0 else i] == p;
      }
    }
  }

  /** A node without its last chunk: a leaf from below replaces it, if there is one. */
  function Replaced(t: Tree): Tree
    requires t.Node?
  {
    if t.right.Node? then
      Node(DeepLeaf(t.right).size, DeepLeaf(t.right).ring, t.left, CutDeep(t.right))
    else if t.left.Node? then
      Node(DeepLeaf(t.left).size, DeepLeaf(t.left).ring, CutDeep(t.left), Nil)
    else Nil
  }

  /** The node holding x, without x. */
  function RemoveHere(t: Tree, x: int): Tree
    requires t.Node? && x in t.ring
  {
    if |t.ring| > 1 then t.(ring := RingRemove(t.ring, x)) else Replaced(t)
  }

  function Remove(t: Tree, x: int): Tree
    requires x in Addrs(t)
  {
    if x in t.ring then RemoveHere(t, x)
    else if x in Addrs(t.left) then t.(left := Remove(t.left, x))
    else t.(right := Remove(t.right, x))
  }

  lemma ReplacedShape(t: Tree, lo: int, k: nat)
    requires t.Node? && Shape(t, lo, k)
    ensures Shape(Replaced(t), lo, k)
    ensures Sizes(Replaced(t)) <= Sizes(t)
  {
    if t.right.Node? {
      CutDeepShape(t.right, lo + Pow2(k - 1), k - 1);
      SizesInRange(t.right, lo + Pow2(k - 1), k - 1);
      SizesInRange(t.left, lo, k - 1);
    } else if t.left.Node? {
      CutDeepShape(t.left, lo, k - 1);
      SizesInRange(t.left, lo, k - 1);
    }
  }

  lemma ReplacedAddrs(t: Tree, x: int)
    requires t.Node? && t.ring == [x] && Disjoint(t)
    ensures Disjoint(Replaced(t))
    ensures Addrs(Replaced(t)) == Addrs(t) - {x}
  {
    assert Members(t.ring) == {x};
    if t.right.Node? {
      CutDeepAddrs(t.right);
    } else if t.left.Node? {
      CutDeepAddrs(t.left);
    }
  }

  lemma ReplacedHolds(t: Tree, x: int, p: int, z: nat)
    requires t.Node? && t.ring == [x] && Disjoint(t)
    ensures Holds(Replaced(t), p, z) <==> Holds(t, p, z) && p != x
  {
    assert x in Members(t.ring);
    if Holds(t.left, p, z) { HoldsSize(t.left, p, z); }
    if Holds(t.right, p, z) { HoldsSize(t.right, p, z); }
    if t.right.Node? {
      CutDeepHolds(t.right, p, z);
    } else if t.left.Node? {
      CutDeepHolds(t.left, p, z);
    }
  }

  lemma RemoveHereShape(t: Tree, x: int, lo: int, k: nat)
    requires t.Node? && Valid(t, lo, k) && x in t.ring
    ensures Shape(RemoveHere(t, x), lo, k)
    ensures Sizes(RemoveHere(t, x)) <= Sizes(t)
  {
    if |t.ring| > 1 {
      RingRemoveMembers(t.ring, x);
    } else {
      ReplacedShape(t, lo, k);
    }
  }

  lemma {:induction false} RemoveShape(t: Tree, x: int, lo: int, k: nat)
    requires Valid(t, lo, k) && x in Addrs(t)
    ensures Shape(Remove(t, x), lo, k)
    ensures Sizes(Remove(t, x)) <= Sizes(t)
    decreases t
  {
    if x in t.ring {
      RemoveHereShape(t, x, lo, k);
    } else if x in Addrs(t.left) {
      RemoveShape(t.left, x, lo, k - 1);
    } else {
      RemoveShape(t.right, x, lo + Pow2(k - 1), k - 1);
    }
  }

  lemma RemoveHereAddrs(t: Tree, x: int)
    requires t.Node? && Disjoint(t) && x in t.ring
    ensures Disjoint(RemoveHere(t, x))
    ensures Addrs(RemoveHere(t, x)) == Addrs(t) - {x}
  {
    assert x in Members(t.ring);
    if |t.ring| > 1 {
      RingRemoveMembers(t.ring, x);
    } else {
      assert t.ring == [x];
      ReplacedAddrs(t, x);
    }
  }

  lemma {:induction false} RemoveAddrs(t: Tree, x: int)
    requires Disjoint(t) && x in Addrs(t)
    ensures Disjoint(Remove(t, x))
    ensures Addrs(Remove(t, x)) == Addrs(t) - {x}
    decreases t
  {
    if x in t.ring {
      RemoveHereAddrs(t, x);
    } else if x in Addrs(t.left) {
      RemoveAddrs(t.left, x);
    } else {
      RemoveAddrs(t.right, x);
    }
  }

  lemma RemoveHereHolds(t: Tree, x: int, p: int, z: nat)
    requires t.Node? && Disjoint(t) && x in t.ring
    ensures Holds(RemoveHere(t, x), p, z) <==> Holds(t, p, z) && p != x
  {
    assert x in Members(t.ring);
    if Holds(t.left, p, z) { HoldsSize(t.left, p, z); }
    if Holds(t.right, p, z) { HoldsSize(t.right, p, z); }
    if |t.ring| > 1 {
      RingRemoveMembers(t.ring, x);
      assert p in RingRemove(t.ring, x) <==> p in Members(RingRemove(t.ring, x));
    } else {
      assert t.ring == [x];
      ReplacedHolds(t, x, p, z);
    }
  }

  /** Removal takes away the one chunk and changes no other entry. */
  lemma {:induction false} RemoveHolds(t: Tree, x: int, p: int, z: nat)
    requires Disjoint(t) && x in Addrs(t)
    ensures Holds(Remove(t, x), p, z) <==> Holds(t, p, z) && p != x
    decreases t
  {
    if x in t.ring {
      RemoveHereHolds(t, x, p, z);
    } else {
      if Holds(t.left, p, z) { HoldsSize(t.left, p, z); }
      if Holds(t.right, p, z) { HoldsSize(t.right, p, z); }
      if x in Addrs(t.left) {
        RemoveHolds(t.left, x, p, z);
      } else {
        RemoveHolds(t.right, x, p, z);
      }
    }
  }
}
