/**
 * Circular doubly linked lists threaded through the fd and bk words of chunks. A small bin is
 * the ring [header] + chunks; the equal-sized chunks at a trie node form a ring of their own.
 */
module Rings {
  import opened Words
  import opened Trie

  const FD: int := 16
  const BK: int := 24

  /** The fd word of neither is the bk word of the other. */
  ghost predicate LinksApart(p: int, q: int) {
    p + FD != q + BK && q + FD != p + BK
  }

  ghost predicate AllClear(s: seq<int>) {
    forall i, j :: 0 <= i < |s| && 0 <= j < |s| ==> LinksApart(s[i], s[j])
  }

  /** The fd and bk words of x and of the members of s are all different words. */
  ghost predicate ClearOf(s: seq<int>, x: int) {
    forall i :: 0 <= i < |s| ==> LinksApart(s[i], x)
  }

  function Next(i: int, n: int): int {
    if i == n - 1 then 0 else i + 1
  }

  function Prev(i: int, n: int): int {
    if i == 0 then n - 1 else i - 1
  }

  /** The i-th member points to its two neighbours. */
  ghost predicate Linked(m: Mem, s: seq<int>, i: nat)
    requires i < |s|
  {
    && Rd(m, s[i] + FD) == s[Next(i, |s|)]
    && Rd(m, s[i] + BK) == s[Prev(i, |s|)]
  }

  ghost predicate Ring(m: Mem, s: seq<int>) {
    s != [] && forall i :: 0 <= i < |s| ==> Linked(m, s, i)
  }

  lemma RingFrame(m: Mem, m': Mem, s: seq<int>)
    requires Ring(m, s)
    requires forall i :: 0 <= i < |s| ==> Rd(m', s[i] + FD) == Rd(m, s[i] + FD)
    requires forall i :: 0 <= i < |s| ==> Rd(m', s[i] + BK) == Rd(m, s[i] + BK)
    ensures Ring(m', s)
  {
    forall i | 0 <= i < |s| ensures Linked(m', s, i) {
      assert Linked(m, s, i);
    }
  }

  /** The four link writes that put x right after the ring's head. */
  function LinkAfter(m: Mem, head: int, x: int): Mem {
    var f := Rd(m, head + FD);
    m[head + FD := x][f + BK := x][x + FD := f][x + BK := head]
  }

  lemma LinkAfterRing(m: Mem, s: seq<int>, x: int)
    requires Ring(m, s) && NoDup(s) && AllClear(s) && ClearOf(s, x) && x !in s
    ensures Ring(LinkAfter(m, s[0], x), RingInsert(s, x))
    ensures Rd(m, s[0] + FD) in s
  {
    assert Linked(m, s, 0);
    assert Rd(m, s[0] + FD) == s[Next(0, |s|)];
    var t := RingInsert(s, x);
    forall i | 0 <= i < |t| ensures Linked(LinkAfter(m, s[0], x), t, i) {
      LinkAfterAt(m, s, x, i);
    }
  }

  lemma LinkAfterAt(m: Mem, s: seq<int>, x: int, i: nat)
    requires Ring(m, s) && NoDup(s) && AllClear(s) && ClearOf(s, x) && x !in s
    requires i <= |s|
    ensures Linked(LinkAfter(m, s[0], x), RingInsert(s, x), i)
  {
    var t := RingInsert(s, x);
    assert Linked(m, s, 0);
    if i != 1 {
      var j := if i == 0 then 0 else i - 1;
      assert Linked(m, s, j);
      assert t[i] == s[j];
    }
  }

  /** The two link writes that take x out of its ring. */
  function Unlinked(m: Mem, x: int): Mem {
    var f := Rd(m, x + FD);
    var b := Rd(m, x + BK);
    m[f + BK := b][b + FD := f]
  }

  lemma UnlinkedRing(m: Mem, s: seq<int>, x: int)
    requires Ring(m, s) && NoDup(s) && AllClear(s) && |s| > 1 && x in s
    ensures Ring(Unlinked(m, x), RingRemove(s, x))
    ensures Rd(m, x + FD) in s && Rd(m, x + BK) in s
    ensures Rd(m, x + FD) != x && Rd(m, x + BK) != x
    ensures RingRemove(s, x)[0] == if x == s[0] then Rd(m, x + BK) else s[0]
  {
    var j := IndexOf(s, x);
    assert Linked(m, s, j);
    assert s[Next(j, |s|)] in s && s[Prev(j, |s|)] in s;
    var t := RingRemove(s, x);
    forall i | 0 <= i < |t| ensures Linked(Unlinked(m, x), t, i) {
      if j == 0 {
        UnlinkHeadAt(m, s, i);
      } else {
        UnlinkInnerAt(m, s, j, i);
      }
    }
  }

  lemma UnlinkHeadAt(m: Mem, s: seq<int>, i: nat)
    requires Ring(m, s) && NoDup(s) && AllClear(s) && i < |s| - 1
    ensures Linked(Unlinked(m, s[0]), RingRemove(s, s[0]), i)
  {
    var t := RingRemove(s, s[0]);
    assert Linked(m, s, 0);
    var j := if i == 0 then |s| - 1 else i;
    assert Linked(m, s, j);
    assert t[i] == s[j];
  }

  lemma UnlinkInnerAt(m: Mem, s: seq<int>, j: nat, i: nat)
    requires Ring(m, s) && NoDup(s) && AllClear(s) && 1 <= j < |s| && i < |s| - 1
    requires IndexOf(s, s[j]) == j
    ensures Linked(Unlinked(m, s[j]), RingRemove(s, s[j]), i)
  {
    hide Ring, NoDup, AllClear, IndexOf, Rd, Unlinked;
    InnerNeighbours(s, j, i);
    InnerWords(m, s, j, if i < j then i else i + 1);
  }

  lemma InnerNeighbours(s: seq<int>, j: nat, i: nat)
    requires NoDup(s) && 1 <= j < |s| && i < |s| - 1
    requires IndexOf(s, s[j]) == j
    ensures var t, k := RingRemove(s, s[j]), if i < j then i else i + 1;
      && |t| == |s| - 1 && t[i] == s[k]
      && t[Next(i, |t|)] == (if Next(k, |s|) == j then s[Next(j, |s|)] else s[Next(k, |s|)])
      && t[Prev(i, |t|)] == (if Prev(k, |s|) == j then s[Prev(j, |s|)] else s[Prev(k, |s|)])
  {
    assert RingRemove(s, s[j]) == s[..j] + s[j + 1..];
  }

  /** What unlinking s[j] does to the links of another member s[k]. */
  lemma InnerWords(m: Mem, s: seq<int>, j: nat, k: nat)
    requires Ring(m, s) && NoDup(s) && AllClear(s) && j < |s| && k < |s| && j != k
    ensures var m', n := Unlinked(m, s[j]), |s|;
      && Rd(m', s[k] + FD) == (if Next(k, n) == j then s[Next(j, n)] else s[Next(k, n)])
      && Rd(m', s[k] + BK) == (if Prev(k, n) == j then s[Prev(j, n)] else s[Prev(k, n)])
  {
    assert Linked(m, s, j) && Linked(m, s, k);
    var n := |s|;
    assert Next(k, n) == j <==> k == Prev(j, n);
    assert Prev(k, n) == j <==> k == Next(j, n);
    assert s[k] == s[Prev(j, n)] <==> k == Prev(j, n);
    assert s[k] == s[Next(j, n)] <==> k == Next(j, n);
  }
}
