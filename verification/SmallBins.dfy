/** The small bins of a malloc_state: circular lists with their headers inside the state record. */
module SmallBins {
  import opened Words
  import opened BinIndex
  import opened BinMaps
  import opened Trie
  import opened Rings
  import opened HeapState

  /** Bin i holds the chunks b: the ring through its header and its map bit agree. */
  ghost predicate SmallBin(m: Mem, gm: int, map_: nat, b: seq<int>, i: nat) {
    && NoDup(b)
    && (Has(map_, i) <==> b != [])
    && (b != [] ==> Ring(m, [SmallBinAt(gm, i)] + b))
  }

  /** Small free chunks lie apart from the state record. */
  ghost predicate ApartFromState(gm: int, a: set<int>) {
    forall p :: p in a ==> p > 0 && p % 16 == 0 && (p + 32 <= gm || gm + STATE_SIZE <= p)
  }

  ghost predicate SmallsOk(m: Mem, gm: int, map_: nat, small: seq<seq<int>>, tiny: set<int>) {
    && |small| == NBINS && map_ < MAP_MOD && gm > 0
    && ApartFromState(gm, tiny)
    && (forall i :: 0 <= i < NBINS ==> SmallBin(m, gm, map_, small[i], i) && Members(small[i]) <= tiny)
    && (forall i, j :: 0 <= i < j < NBINS ==> Members(small[i]) !! Members(small[j]))
  }

  /** Only the headers and the fd and bk words of the chunks in a may differ. */
  ghost predicate SmallOnly(m: Mem, m': Mem, gm: int, i: int, a: set<int>) {
    forall w :: Rd(m', w) != Rd(m, w) ==>
      SmallBinAt(gm, i) + FD <= w < SmallBinAt(gm, i) + 32 || exists p :: p in a && p + FD <= w < p + 32
  }

  /** A ring of 16-aligned chunks behind a header outside of them. */
  lemma HeaderRing(gm: int, i: nat, b: seq<int>, x: int)
    requires ApartFromState(gm, Members(b) + {x}) && i < NBINS && NoDup(b)
    ensures var s := [SmallBinAt(gm, i)] + b;
      AllClear(s) && NoDup(s) && ClearOf(s, x) && x != SmallBinAt(gm, i)
  {
    var h := SmallBinAt(gm, i);
    var s := [h] + b;
    forall j | 0 <= j < |s| ensures j == 0 || (s[j] % 16 == 0 && (s[j] + 32 <= gm || gm + STATE_SIZE <= s[j])) {
      if j > 0 { assert s[j] == b[j - 1] && b[j - 1] in Members(b) + {x}; }
    }
    assert x in Members(b) + {x};
  }

  /** The links of p are the same. */
  ghost predicate SameLinks(m: Mem, m': Mem, p: int) {
    Rd(m', p + FD) == Rd(m, p + FD) && Rd(m', p + BK) == Rd(m, p + BK)
  }

  lemma SmallBinFrame(m: Mem, m': Mem, gm: int, map_: nat, map': nat, b: seq<int>, i: nat)
    requires SmallBin(m, gm, map_, b, i) && (Has(map', i) <==> Has(map_, i))
    requires forall p {:trigger SameLinks(m, m', p)} :: p in b || p == SmallBinAt(gm, i) ==> SameLinks(m, m', p)
    ensures SmallBin(m', gm, map', b, i)
  {
    var s := [SmallBinAt(gm, i)] + b;
    if b != [] {
      forall j | 0 <= j < |s| ensures Rd(m', s[j] + FD) == Rd(m, s[j] + FD) && Rd(m', s[j] + BK) == Rd(m, s[j] + BK) {
        var q := s[j];
        assert q == if j == 0 then SmallBinAt(gm, i) else b[j - 1];
        assert q in b || q == SmallBinAt(gm, i);
        assert SameLinks(m, m', q);
      }
      RingFrame(m, m', s);
    }
  }

  /** A bin that shares no chunk with the changed one is not affected. */
  lemma OtherBin(m: Mem, m': Mem, gm: int, map_: nat, map': nat, b: seq<int>, j: nat, i: nat, a: set<int>, tiny: set<int>)
    requires i < NBINS && j < NBINS && i != j
    requires SmallBin(m, gm, map_, b, j) && (Has(map', j) <==> Has(map_, j))
    requires SmallOnly(m, m', gm, i, a) && a !! Members(b) && a <= tiny && Members(b) <= tiny
    requires ApartFromState(gm, tiny)
    ensures SmallBin(m', gm, map', b, j)
  {
    assert ApartFromState(gm, a);
    forall p | p in b || p == SmallBinAt(gm, j) ensures SameLinks(m, m', p) {
      if p in b { assert p in Members(b) && p in tiny; }
      OtherWord(m, m', gm, j, i, a, p, p in b, p + FD);
      OtherWord(m, m', gm, j, i, a, p, p in b, p + BK);
    }
    SmallBinFrame(m, m', gm, map_, map', b, j);
  }

  lemma OtherWord(m: Mem, m': Mem, gm: int, j: nat, i: nat, a: set<int>, p: int, member: bool, w: int)
    requires i < NBINS && j < NBINS && i != j && SmallOnly(m, m', gm, i, a) && ApartFromState(gm, a)
    requires p !in a && (member ==> p % 16 == 0 && (p + 32 <= gm || gm + STATE_SIZE <= p))
    requires (member || p == SmallBinAt(gm, j)) && p + FD <= w < p + 32
    ensures Rd(m', w) == Rd(m, w)
  {
  }

  lemma SmallChanged(m: Mem, m': Mem, gm: int, map_: nat, map': nat, small: seq<seq<int>>, i: nat, b: seq<int>,
                     a: set<int>, tiny: set<int>)
    requires SmallsOk(m, gm, map_, small, tiny) && i < NBINS
    requires SmallOnly(m, m', gm, i, a) && Members(b) <= a <= tiny
    requires forall j :: 0 <= j < NBINS && j != i ==> a !! Members(small[j])
    requires map' < MAP_MOD && forall j :: 0 <= j < NBINS && j != i ==> (Has(map', j) <==> Has(map_, j))
    requires SmallBin(m', gm, map', b, i)
    ensures SmallsOk(m', gm, map', small[i := b], tiny)
  {
    hide SmallBin, SmallOnly, ApartFromState, Has, Members;
    var small' := small[i := b];
    forall j | 0 <= j < NBINS ensures SmallBin(m', gm, map', small'[j], j) && Members(small'[j]) <= tiny {
      if j != i {
        assert SmallBin(m, gm, map_, small[j], j) && Members(small[j]) <= tiny;
        OtherBin(m, m', gm, map_, map', small[j], j, i, a, tiny);
      }
    }
  }

  // ---------- insertion ----------

  lemma InsertSmallBin(m: Mem, gm: int, map_: nat, b: seq<int>, i: nat, x: int)
    requires i < NBINS && SmallBin(m, gm, map_, b, i) && x !in b && ApartFromState(gm, Members(b) + {x})
    ensures var h := SmallBinAt(gm, i);
      var f := if Has(map_, i) then Rd(m, h + FD) else h;
      var m' := m[h + FD := x][f + BK := x][x + FD := f][x + BK := h];
      && NoDup([x] + b) && Ring(m', [h] + ([x] + b))
      && SmallOnly(m, m', gm, i, Members(b) + {x})
  {
    hide SmallOnly, ApartFromState, Has, Members, Rd;
    var h := SmallBinAt(gm, i);
    var f := if Has(map_, i) then Rd(m, h + FD) else h;
    var m' := m[h + FD := x][f + BK := x][x + FD := f][x + BK := h];
    HeaderRing(gm, i, b, x);
    if b != [] { HeaderFirst(m, h, b); }
    InsertOnly(m, gm, b, i, x, f);
    if b == [] {
      assert [h] + b == [h];
      PairRing(m, h, x);
    } else {
      var s := [h] + b;
      assert x !in s;
      LinkAfterRing(m, s, x);
      assert RingInsert(s, x) == [h] + ([x] + b);
      assert m' == LinkAfter(m, h, x);
    }
  }

  lemma PairRing(m: Mem, h: int, x: int)
    requires AllClear([h]) && ClearOf([h], x) && x != h
    ensures NoDup([x] + []) && Ring(m[h + FD := x][h + BK := x][x + FD := h][x + BK := h], [h] + ([x] + []))
  {
    var m' := m[h + FD := x][h + BK := x][x + FD := h][x + BK := h];
    assert [h] + ([x] + []) == [h, x];
    assert Linked(m', [h, x], 0) && Linked(m', [h, x], 1);
  }

  lemma InsertOnly(m: Mem, gm: int, b: seq<int>, i: nat, x: int, f: int)
    requires f == SmallBinAt(gm, i) || f in b
    ensures SmallOnly(m, m[SmallBinAt(gm, i) + FD := x][f + BK := x][x + FD := f][x + BK := SmallBinAt(gm, i)], gm, i, Members(b) + {x})
  {
    assert x in Members(b) + {x};
    assert f in b ==> f in Members(b) + {x};
  }

  /** insert_small_chunk(M, P, S). */
  method InsertSmallChunk(M: MallocState, x: int, s: int, ghost tiny: set<int>)
    requires SmallsOk(M.mem, M.gm, M.smallmap, M.small, tiny)
    requires 0 <= s < MIN_LARGE_SIZE && x in tiny && forall i :: 0 <= i < NBINS ==> x !in M.small[i]
    modifies M`mem, M`smallmap, M`small
    ensures SmallsOk(M.mem, M.gm, M.smallmap, M.small, tiny)
    ensures var i := SmallIndex(s);
      && i < NBINS && M.small == old(M.small)[i := [x] + old(M.small)[i]]
      && SmallOnly(old(M.mem), M.mem, M.gm, i, Members(old(M.small)[i]) + {x})
  {
    ghost var m, map_, small, gm := M.mem, M.smallmap, M.small, M.gm;
    var i := SmallIndex(s);
    ghost var b := small[i];
    SmallStart(m, gm, map_, small, i, tiny, x);
    MarkFacts(map_, i);
    InsertSmallBin(m, gm, map_, b, i, x);
    hide *;
    var h := SmallBinAt(M.gm, i);
    var f := h;
    if !IsMarked(M.smallmap, i) {
      M.smallmap := Mark(M.smallmap, i);
    } else {
      f := Rd(M.mem, h + FD);
    }
    M.mem := M.mem[h + FD := x];
    M.mem := M.mem[f + BK := x];
    M.mem := M.mem[x + FD := f];
    M.mem := M.mem[x + BK := h];
    NewSmallBin(M.mem, gm, M.smallmap, [x] + b, i);
    MembersCons(x, b);
    SmallChanged(m, M.mem, gm, map_, M.smallmap, small, i, [x] + b, Members(b) + {x}, tiny);
    M.small := small[i := [x] + b];
  }

  lemma MembersCons(x: int, b: seq<int>)
    ensures Members([x] + b) == Members(b) + {x}
  {
    assert forall p :: p in [x] + b <==> p == x || p in b;
  }

  lemma NewSmallBin(m: Mem, gm: int, map_: nat, b: seq<int>, i: nat)
    requires NoDup(b) && (Has(map_, i) <==> b != []) && (b != [] ==> Ring(m, [SmallBinAt(gm, i)] + b))
    ensures SmallBin(m, gm, map_, b, i)
  {
  }

  lemma MarkFacts(map_: nat, i: nat)
    requires map_ < MAP_MOD && i < NBINS
    ensures Mark(map_, i) < MAP_MOD && ClearMark(map_, i) < MAP_MOD
    ensures IsMarked(map_, i) <==> Has(map_, i)
    ensures forall j :: 0 <= j < NBINS ==> (Has(Mark(map_, i), j) <==> Has(map_, j) || j == i)
    ensures forall j :: 0 <= j < NBINS ==> (Has(ClearMark(map_, i), j) <==> Has(map_, j) && j != i)
  {
    hide Mark, ClearMark, Has, IsMarked;
    MarkBound(map_, i);
    MarkedHas(map_, i);
    forall j | 0 <= j < NBINS
      ensures Has(Mark(map_, i), j) <==> Has(map_, j) || j == i
      ensures Has(ClearMark(map_, i), j) <==> Has(map_, j) && j != i
    {
      MarkHas(map_, i, j);
      ClearHas(map_, i, j);
    }
  }

  lemma SmallStart(m: Mem, gm: int, map_: nat, small: seq<seq<int>>, i: nat, tiny: set<int>, x: int)
    requires SmallsOk(m, gm, map_, small, tiny) && i < NBINS && x in tiny
    ensures SmallBin(m, gm, map_, small[i], i) && map_ < MAP_MOD && |small| == NBINS
    ensures ApartFromState(gm, Members(small[i]) + {x}) && Members(small[i]) + {x} <= tiny
    ensures (forall j :: 0 <= j < NBINS ==> x !in small[j]) ==>
      forall j :: 0 <= j < NBINS && j != i ==> Members(small[i]) + {x} !! Members(small[j])
    ensures forall j :: 0 <= j < NBINS && j != i ==> Members(small[i]) !! Members(small[j])
  {
    assert SmallBin(m, gm, map_, small[i], i);
  }

  // ---------- removal ----------

  function Without(b: seq<int>, x: int): seq<int>
  {
    if x in b then var j := IndexOf(b, x); b[..j] + b[j + 1..] else b
  }

  lemma UnlinkSmallBin(m: Mem, gm: int, map_: nat, b: seq<int>, i: nat, x: int)
    requires i < NBINS && SmallBin(m, gm, map_, b, i) && x in b && ApartFromState(gm, Members(b))
    ensures var h, f, p := SmallBinAt(gm, i), Rd(m, x + FD), Rd(m, x + BK);
      && NoDup(Without(b, x)) && Members(Without(b, x)) == Members(b) - {x}
      && (f == p <==> Without(b, x) == []) && (f == p ==> f == h)
      && (f == h || (f in b && Rd(m, f + BK) == x)) && (p == h || (p in b && Rd(m, p + FD) == x))
      && (Without(b, x) != [] ==> Ring(Unlinked(m, x), [h] + Without(b, x)))
      && SmallOnly(m, Unlinked(m, x), gm, i, Members(b))
  {
    hide *;
    UnlinkSmallRing(m, gm, map_, b, i, x);
    UnlinkSmallLinks(m, gm, map_, b, i, x);
    SmallUnlinkOnly(m, gm, i, x, b);
  }

  lemma UnlinkSmallRing(m: Mem, gm: int, map_: nat, b: seq<int>, i: nat, x: int)
    requires i < NBINS && SmallBin(m, gm, map_, b, i) && x in b && ApartFromState(gm, Members(b))
    ensures NoDup(Without(b, x)) && Members(Without(b, x)) == Members(b) - {x}
    ensures Without(b, x) != [] ==> Ring(Unlinked(m, x), [SmallBinAt(gm, i)] + Without(b, x))
  {
    var h := SmallBinAt(gm, i);
    assert Members(b) + {x} == Members(b);
    HeaderRing(gm, i, b, x);
    WithoutMembers(b, x);
    HeaderRemove(h, b, x);
    assert x in [h] + b by { assert ([h] + b)[IndexOf(b, x) + 1] == x; }
    assert Ring(m, [h] + b);
    hide Ring, ApartFromState, SmallBin, Without, NoDup, Members, IndexOf, Unlinked, AllClear;
    UnlinkedRing(m, [h] + b, x);
  }

  lemma UnlinkSmallLinks(m: Mem, gm: int, map_: nat, b: seq<int>, i: nat, x: int)
    requires i < NBINS && SmallBin(m, gm, map_, b, i) && x in b && ApartFromState(gm, Members(b))
    ensures var h, f, p := SmallBinAt(gm, i), Rd(m, x + FD), Rd(m, x + BK);
      && (f == p <==> Without(b, x) == []) && (f == p ==> f == h)
      && (f == h || (f in b && Rd(m, f + BK) == x)) && (p == h || (p in b && Rd(m, p + FD) == x))
  {
    var h := SmallBinAt(gm, i);
    assert Members(b) + {x} == Members(b);
    HeaderRing(gm, i, b, x);
    WithoutMembers(b, x);
    SmallNeighbours(m, h, b, IndexOf(b, x));
    hide Ring, ApartFromState, Without, NoDup, Members, AllClear;
  }

  lemma SmallNeighbours(m: Mem, h: int, b: seq<int>, j: nat)
    requires j < |b| && Ring(m, [h] + b) && NoDup([h] + b)
    ensures var x := b[j];
      var f, p := Rd(m, x + FD), Rd(m, x + BK);
      && (f == h || (f in b && Rd(m, f + BK) == x)) && (p == h || (p in b && Rd(m, p + FD) == x))
      && (f == p <==> |b| == 1) && (f == p ==> f == h)
  {
    var s := [h] + b;
    var n, q := Next(j + 1, |s|), Prev(j + 1, |s|);
    assert s[j + 1] == b[j];
    assert Linked(m, s, j + 1) && Linked(m, s, n) && Linked(m, s, q);
    NeighbourKinds(h, b, j, n);
    NeighbourKinds(h, b, j, q);
    hide Ring;
  }

  lemma SmallUnlinkOnly(m: Mem, gm: int, i: nat, x: int, b: seq<int>)
    requires var h := SmallBinAt(gm, i);
      (Rd(m, x + FD) == h || Rd(m, x + FD) in b) && (Rd(m, x + BK) == h || Rd(m, x + BK) in b)
    ensures SmallOnly(m, Unlinked(m, x), gm, i, Members(b))
  {
    var h, f, p := SmallBinAt(gm, i), Rd(m, x + FD), Rd(m, x + BK);
    assert f == h || f in Members(b);
    assert p == h || p in Members(b);
  }

  lemma NeighbourKinds(h: int, b: seq<int>, j: nat, k: nat)
    requires k <= |b|
    ensures var s := [h] + b; s[k] == (if k == 0 then h else b[k - 1]) && (k == 0 || s[k] in Members(b))
  {
  }

  lemma WithoutMembers(b: seq<int>, x: int)
    requires NoDup(b) && x in b
    ensures NoDup(Without(b, x)) && Members(Without(b, x)) == Members(b) - {x} && |Without(b, x)| == |b| - 1
  {
    hide IndexOf;
    var j := IndexOf(b, x);
    DropAt(b, j);
  }

  lemma DropAt(b: seq<int>, j: nat)
    requires NoDup(b) && j < |b|
    ensures var out := b[..j] + b[j + 1..]; NoDup(out) && Members(out) == Members(b) - {b[j]} && |out| == |b| - 1
  {
    var out := b[..j] + b[j + 1..];
    assert forall i :: 0 <= i < |out| ==> out[i] == b[if i < j then i else i + 1];
    forall i | 0 <= i < |b| && i != j ensures b[i] in out {
      assert out[if i < j then i else i - 1] == b[i];
    }
  }

  lemma HeaderRemove(h: int, b: seq<int>, x: int)
    requires x in b && x != h
    ensures RingRemove([h] + b, x) == [h] + Without(b, x)
  {
    hide IndexOf;
    HeaderIndex(h, b, x);
    var j := IndexOf(b, x);
    HeaderSlices(h, b, j);
  }

  lemma HeaderIndex(h: int, b: seq<int>, x: int)
    requires x in b && x != h
    ensures x in [h] + b && IndexOf([h] + b, x) == IndexOf(b, x) + 1
  {
    assert ([h] + b)[1..] == b;
    assert ([h] + b)[IndexOf(b, x) + 1] == x;
  }

  lemma HeaderSlices(h: int, b: seq<int>, j: nat)
    requires j < |b|
    ensures var s := [h] + b; s[..j + 1] + s[j + 2..] == [h] + (b[..j] + b[j + 1..])
  {
    var s := [h] + b;
    assert s[..j + 1] == [h] + b[..j];
    assert s[j + 2..] == b[j + 1..];
  }

  /** unlink_small_chunk(M, P, S). */
  method UnlinkSmallChunk(M: MallocState, x: int, s: int, ghost tiny: set<int>)
    requires SmallsOk(M.mem, M.gm, M.smallmap, M.small, tiny)
    requires 0 <= s < MIN_LARGE_SIZE && x in M.small[SmallIndex(s)]
    modifies M`mem, M`smallmap, M`small
    ensures SmallsOk(M.mem, M.gm, M.smallmap, M.small, tiny)
    ensures var i := SmallIndex(s);
      && i < NBINS && M.small == old(M.small)[i := Without(old(M.small)[i], x)]
      && SmallOnly(old(M.mem), M.mem, M.gm, i, Members(old(M.small)[i]))
  {
    ghost var m, map_, small, gm := M.mem, M.smallmap, M.small, M.gm;
    var i := SmallIndex(s);
    ghost var b := small[i];
    assert x in Members(b) && Members(b) <= tiny;
    SmallStart(m, gm, map_, small, i, tiny, x);
    MarkFacts(map_, i);
    UnlinkSmallBin(m, gm, map_, b, i, x) by { assert Members(b) + {x} == Members(b); }
    SmallOnlyRefl(m, gm, i, Members(b));
    hide *;
    var f := Rd(M.mem, x + FD);
    var p := Rd(M.mem, x + BK);
    if p == f {
      M.smallmap := ClearMark(M.smallmap, i);
    } else {
      M.mem := M.mem[f + BK := p];
      M.mem := M.mem[p + FD := f];
      UnlinkedIs(m, x);
    }
    RemovedSmall(m, M.mem, gm, map_, M.smallmap, small, i, x, tiny);
    M.small := small[i := Without(b, x)];
  }

  lemma UnlinkedIs(m: Mem, x: int)
    ensures Unlinked(m, x) == m[Rd(m, x + FD) + BK := Rd(m, x + BK)][Rd(m, x + BK) + FD := Rd(m, x + FD)]
  {
  }

  lemma SmallOnlyRefl(m: Mem, gm: int, i: int, a: set<int>)
    ensures SmallOnly(m, m, gm, i, a)
  {
  }

  lemma RemovedStart(m: Mem, gm: int, map_: nat, small: seq<seq<int>>, i: nat, x: int, tiny: set<int>)
    requires SmallsOk(m, gm, map_, small, tiny) && i < NBINS && x in small[i]
    ensures SmallBin(m, gm, map_, small[i], i) && map_ < MAP_MOD && |small| == NBINS && Has(map_, i)
    ensures ApartFromState(gm, Members(small[i])) && Members(small[i]) <= tiny
    ensures forall j :: 0 <= j < NBINS && j != i ==> Members(small[i]) !! Members(small[j])
  {
    hide Ring, Has, ApartFromState;
    assert SmallBin(m, gm, map_, small[i], i) && x in Members(small[i]) && Members(small[i]) <= tiny;
    SmallStart(m, gm, map_, small, i, tiny, x);
    assert Members(small[i]) + {x} == Members(small[i]);
  }

  lemma RemovedSmall(m: Mem, m': Mem, gm: int, map_: nat, map': nat, small: seq<seq<int>>, i: nat, x: int, tiny: set<int>)
    requires SmallsOk(m, gm, map_, small, tiny) && i < NBINS && x in small[i]
    requires var h, b := SmallBinAt(gm, i), Without(small[i], x);
      && (b == [] ==> m' == m && map' == ClearMark(map_, i))
      && (b != [] ==> m' == Unlinked(m, x) && map' == map_)
    ensures SmallsOk(m', gm, map', small[i := Without(small[i], x)], tiny)
    ensures SmallOnly(m, m', gm, i, Members(small[i]))
  {
    hide *;
    RemovedStart(m, gm, map_, small, i, x, tiny);
    var b, b' := small[i], Without(small[i], x);
    UnlinkSmallBin(m, gm, map_, b, i, x);
    SmallOnlyRefl(m, gm, i, Members(b));
    MarkFacts(map_, i);
    NewSmallBin(m', gm, map', b', i);
    SmallChanged(m, m', gm, map_, map', small, i, b', Members(b), tiny);
  }

  /** unlink_first_small_chunk(M, B, P, I), for the first chunk P of a marked bin. */
  method UnlinkFirstSmallChunk(M: MallocState, i: nat, ghost tiny: set<int>) returns (p: int)
    requires SmallsOk(M.mem, M.gm, M.smallmap, M.small, tiny) && i < NBINS && Has(M.smallmap, i)
    modifies M`mem, M`smallmap, M`small
    ensures SmallsOk(M.mem, M.gm, M.smallmap, M.small, tiny)
    ensures old(M.small)[i] != [] && p == old(M.small)[i][0]
    ensures M.small == old(M.small)[i := Without(old(M.small)[i], p)]
    ensures SmallOnly(old(M.mem), M.mem, M.gm, i, Members(old(M.small)[i]))
  {
    hide *;
    ghost var m, map_, small, gm := M.mem, M.smallmap, M.small, M.gm;
    FirstOfBin(m, gm, map_, small, i, tiny);
    var h := SmallBinAt(M.gm, i);
    p := Rd(M.mem, h + FD);
    var f := Rd(M.mem, p + FD);
    if h == f {
      M.smallmap := ClearMark(M.smallmap, i);
    } else {
      M.mem := M.mem[f + BK := h];
      M.mem := M.mem[h + FD := f];
      UnlinkedIs(m, p);
    }
    RemovedSmall(m, M.mem, gm, map_, M.smallmap, small, i, p, tiny);
    M.small := small[i := Without(small[i], p)];
  }

  lemma FirstOfBin(m: Mem, gm: int, map_: nat, small: seq<seq<int>>, i: nat, tiny: set<int>)
    requires SmallsOk(m, gm, map_, small, tiny) && i < NBINS && Has(map_, i)
    ensures var b, h := small[i], SmallBinAt(gm, i);
      var p := Rd(m, h + FD);
      && b != [] && p == b[0] && p in b && Rd(m, p + BK) == h
      && (Rd(m, p + FD) == h <==> Without(b, p) == [])
    ensures |small| == NBINS
  {
    hide *;
    MarkedStart(m, gm, map_, small, i, tiny);
    var b, h := small[i], SmallBinAt(gm, i);
    HeaderFirst(m, h, b);
    UnlinkSmallLinks(m, gm, map_, b, i, b[0]);
    OnlyFirst(m, gm, map_, b, i);
  }

  lemma MarkedStart(m: Mem, gm: int, map_: nat, small: seq<seq<int>>, i: nat, tiny: set<int>)
    requires SmallsOk(m, gm, map_, small, tiny) && i < NBINS && Has(map_, i)
    ensures |small| == NBINS && SmallBin(m, gm, map_, small[i], i) && ApartFromState(gm, Members(small[i]))
    ensures small[i] != [] && Ring(m, [SmallBinAt(gm, i)] + small[i]) && NoDup(small[i])
  {
    hide Ring, Has;
    assert SmallBin(m, gm, map_, small[i], i) && Members(small[i]) <= tiny;
  }

  lemma HeaderFirst(m: Mem, h: int, b: seq<int>)
    requires b != [] && Ring(m, [h] + b)
    ensures Rd(m, h + FD) == b[0] && Rd(m, b[0] + BK) == h && b[0] in b
  {
    var s := [h] + b;
    assert Linked(m, s, 0) && Linked(m, s, 1);
  }

  lemma OnlyFirst(m: Mem, gm: int, map_: nat, b: seq<int>, i: nat)
    requires b != [] && NoDup(b) && SmallBin(m, gm, map_, b, i) && i < NBINS && ApartFromState(gm, Members(b))
    ensures Rd(m, b[0] + FD) == SmallBinAt(gm, i) <==> Without(b, b[0]) == []
  {
    var h := SmallBinAt(gm, i);
    var s := [h] + b;
    assert Members(b) + {b[0]} == Members(b);
    HeaderRing(gm, i, b, b[0]);
    assert Linked(m, s, 1);
    WithoutMembers(b, b[0]);
    assert |b| > 1 ==> s[2] == b[1] && s[2] != s[0];
  }
}
