/** internal_memalign: an aligned spot inside a larger chunk, with leader and remainder given back. */
module Memalign {
  import opened Words
  import opened BinIndex
  import BinMaps
  import opened TreeMemory
  import opened Chunks
  import opened HeapState
  import opened Heap
  import opened Steps
  import opened HeapOps
  import opened Malloc
  import opened Consolidate
  import opened Realloc

  // ---------- alignments ----------

  /** The test (a & (a - 1)) == 0. */
  predicate OneBit(a: nat)
    requires a > 0
  {
    BinMaps.And(a, a - 1) == 0
  }

  ghost predicate IsPow2(a: nat) {
    exists k: nat :: a == Pow2(k)
  }

  lemma PowIs(k: nat)
    ensures IsPow2(Pow2(k))
  {
  }

  lemma HalfPow(a: nat)
    requires a > 1
    ensures IsPow2(a) <==> a % 2 == 0 && IsPow2(a / 2)
  {
    if IsPow2(a) {
      var k: nat :| a == Pow2(k);
      assert k > 0;
      PowIs(k - 1);
    }
    if a % 2 == 0 && IsPow2(a / 2) {
      var k: nat :| a / 2 == Pow2(k);
      PowIs(k + 1);
      assert Pow2(k + 1) == a;
    }
  }

  /** The test finds exactly the powers of two. */
  lemma {:induction false} OneBitIs(a: nat)
    requires a > 0
    ensures OneBit(a) <==> IsPow2(a)
    decreases a
  {
    hide IsPow2;
    var y := a / 2;
    if a == 1 {
      PowIs(0);
    } else {
      HalfPow(a);
      OneBitIs(y);
      if a % 2 == 1 {
        SameAnd(y);
        assert (a - 1) / 2 == y;
      } else {
        assert (a - 1) / 2 == y - 1;
      }
    }
  }

  lemma {:induction false} SameAnd(x: nat)
    ensures BinMaps.And(x, x) == x
  {
    if x > 0 { SameAnd(x / 2); }
  }

  /** a <<= 1 on size_t. */
  function Doubled(a: int): int {
    2 * a % SIZE_T_MOD
  }

  /** The loop variable after n rounds. */
  function DoubledTimes(n: nat): int {
    if n == 0 then 32 else Doubled(DoubledTimes(n - 1))
  }

  lemma {:induction false} DoubledIs(n: nat)
    ensures DoubledTimes(n) == if n < 59 then Pow2(n + 5) else 0
  {
    if n == 0 {
      assert Pow2(5) == 32 by { assert Pow2(4) == 16; }
    } else {
      DoubledIs(n - 1);
      DoubledPow(n - 1);
    }
  }

  lemma DoubledPow(n: nat)
    ensures n < 58 ==> Doubled(Pow2(n + 5)) == Pow2(n + 6)
    ensures n == 58 ==> Doubled(Pow2(n + 5)) == 0
  {
    hide Pow2;
    Pow2Values();
    Pow2Step(n + 5);
    if n < 58 { Pow2Monotonic(n + 6, 63); }
  }

  /**
   * For a larger alignment that is not a power of two the loop does not end: no round gets there,
   * for the variable wraps around to 0. Up to 2^63 it ends (RoundAlignment).
   */
  lemma DoublingMisses(alignment: int, n: nat)
    requires TOP_BIT < alignment < SIZE_T_MOD
    ensures DoubledTimes(n) < alignment && !OneBit(alignment)
  {
    DoubledIs(n);
    Pow2Values();
    if n < 59 { Pow2Monotonic(n + 5, 63); }
    OneBitIs(alignment);
    forall k: nat ensures alignment != Pow2(k) {
      if k <= 63 { Pow2Monotonic(k, 63); } else { Pow2Monotonic(64, k); }
    }
    hide DoubledTimes, Pow2, BinMaps.And;
  }

  lemma FirstPowers()
    ensures Pow2(5) == 32 && Pow2(63) == TOP_BIT && Pow2(64) == SIZE_T_MOD
  {
    Pow2Values();
    assert Pow2(4) == 16;
  }

  /** Alignments that are not powers of two are rounded up to one. */
  method RoundAlignment(alignment: int) returns (a: int, ghost k: nat)
    requires 0 <= alignment <= TOP_BIT
    ensures a == Pow2(k) && MIN_CHUNK_SIZE <= a <= TOP_BIT && a >= alignment
    ensures a > MIN_CHUNK_SIZE ==> a < 2 * alignment
    ensures alignment >= MIN_CHUNK_SIZE && OneBit(alignment) ==> a == alignment
  {
    hide Pow2, BinMaps.And, OneBit;
    FirstPowers();
    a := if alignment < MIN_CHUNK_SIZE then MIN_CHUNK_SIZE else alignment;
    OneBitIs(a);
    if !OneBit(a) {
      var b := 32;
      k := 5;
      while b < a
        invariant k <= 63 && b == Pow2(k) && 32 <= b <= TOP_BIT && (b > 32 ==> b < 2 * a)
        decreases a - b
      {
        Pow2Step(k);
        if k == 63 { assert false; }
        Pow2Monotonic(k + 1, 63);
        b := Doubled(b);
        k := k + 1;
      }
      a := b;
    } else {
      k :| a == Pow2(k);
    }
  }

  // ---------- the chunk ----------

  lemma MultipleOf16(a: int, k: nat, r: int)
    requires a == Pow2(k) && a >= 32 && r % a == 0
    ensures a % 16 == 0 && r % 16 == 0
  {
    hide *;
    var j := Sixteenth(a, k);
    QuotientOf(r, a);
    Sixteens(j, r / a);
  }

  lemma Sixteenth(a: int, k: nat) returns (j: int)
    requires a == Pow2(k) && a >= 32
    ensures a == 16 * j && j > 0
  {
    assert Pow2(4) == 16;
    if k < 4 { Pow2Monotonic(k, 4); }
    Pow2Add(4, k - 4);
    j := Pow2(k - 4);
  }

  /** Where the aligned chunk starts: at p itself, or at least a minimum chunk behind it. */
  function AlignedSpot(p: int, al: int): (pos: int)
    requires al >= MIN_CHUNK_SIZE
    ensures p + MIN_CHUNK_SIZE <= pos < p + MIN_CHUNK_SIZE + al
  {
    var br := AlignUp(p + 16, al) - 16;
    if br - p >= MIN_CHUNK_SIZE then br else br + al
  }

  lemma SpotAligned(p: int, al: int, k: nat)
    requires al == Pow2(k) && al >= MIN_CHUNK_SIZE && p % 16 == 0
    ensures var pos := AlignedSpot(p, al);
      (pos + 16) % al == 0 && pos % 16 == 0 && p + MIN_CHUNK_SIZE <= pos <= p + al + 16
  {
    hide Pow2, AlignUp;
    var x := AlignUp(p + 16, al);
    MultipleOf16(al, k, x);
    NextMultiple(x, al);
    SpotIs(p, al, x);
  }

  lemma SpotIs(p: int, al: int, x: int)
    requires al >= MIN_CHUNK_SIZE && x == AlignUp(p + 16, al) && x % al == 0 && (x + al) % al == 0
    requires p % 16 == 0 && al % 16 == 0 && x % 16 == 0 && p + 16 <= x < p + 16 + al
    ensures var pos := AlignedSpot(p, al);
      (pos + 16) % al == 0 && pos % 16 == 0 && p + MIN_CHUNK_SIZE <= pos <= p + al + 16
  {
    hide AlignUp;
    SpotBounds(p, al, x);
    if x - 16 - p >= MIN_CHUNK_SIZE {
      assert AlignedSpot(p, al) == x - 16;
    } else {
      assert AlignedSpot(p, al) == x - 16 + al;
    }
  }

  lemma SpotBounds(p: int, al: int, x: int)
    requires p % 16 == 0 && al % 16 == 0 && x % 16 == 0 && p + 16 <= x < p + 16 + al
    ensures x <= p + al && (x - 16 - p < MIN_CHUNK_SIZE ==> x <= p + 32)
    ensures (x - 16) % 16 == 0 && (x - 16 + al) % 16 == 0
  {
  }

  /** An aligned chunk of nb bytes has been cut out of chunk p, and the rest is free again. */
  ghost predicate Cut(gm: int, s: Snap, s': Snap, p: int, q: int, al: int, nb: int) {
    && HeapOk(gm, s') && Settled(s') && Keeps(s, s', {p, q}) && (q != p ==> !LiveAt(s', p) && !LiveAt(s, q))
    && q in s'.chunks && s'.chunks[q].kind == Used && nb <= s'.chunks[q].size <= nb + MIN_CHUNK_SIZE
    && al > 0 && (q + 16) % al == 0
  }

  lemma LeaderGone(gm: int, s: Snap, s1: Snap, s2: Snap, p: int, q: int, z: int)
    requires Keeps(s, s1, {p, q}) && Gone(gm, s1, s2, p) && p != q
    requires q in s1.chunks && s1.chunks[q] == Chunk(z, Used)
    ensures HeapOk(gm, s2) && Settled(s2) && Keeps(s, s2, {p, q}) && !LiveAt(s2, p)
    ensures q in s2.chunks && s2.chunks[q] == Chunk(z, Used)
  {
    hide HeapOk, Settled, SamePayload;
    assert KeepsAt(s1, s2, q);
    KeepsTrans(s, s1, s2, {p, q}, {p}, {p, q});
  }

  lemma CutIs(gm: int, s: Snap, s2: Snap, s3: Snap, p: int, q: int, al: int, nb: int)
    requires Keeps(s, s2, {p, q}) && Keeps(s2, s3, {q}) && (q != p ==> !LiveAt(s2, p) && !LiveAt(s, q))
    requires HeapOk(gm, s3) && Settled(s3) && q in s3.chunks && s3.chunks[q].kind == Used
    requires nb <= s3.chunks[q].size <= nb + MIN_CHUNK_SIZE && al > 0 && (q + 16) % al == 0
    ensures Cut(gm, s, s3, p, q, al, nb)
  {
    hide HeapOk, Settled, LiveAt;
    KeepsTrans(s, s2, s3, {p, q}, {q}, {p, q});
    if q != p { assert KeepsAt(s2, s3, p); KeepsLiveAt(s2, s3, p); }
  }

  lemma KeepsLiveAt(s: Snap, s': Snap, p: int)
    requires KeepsAt(s, s', p)
    ensures LiveAt(s', p) <==> LiveAt(s, p)
  {
    hide LiveAt, SamePayload;
  }

  /** Give back the leader. */
  method DropLeader(M: MallocState, p: int, q: int, z: int)
    requires HeapOk(M.gm, M.Now()) && Settled(M.Now()) && p in M.chunks && M.chunks[p] == Chunk(z, Used)
    requires p + MIN_CHUNK_SIZE <= q <= p + z - MIN_CHUNK_SIZE && q % 16 == 0
    modifies M`mem, M`smallmap, M`treemap, M`small, M`trees, M`chunks, M`dv, M`dvsize, M`top, M`topsize
    ensures HeapOk(M.gm, M.Now()) && Settled(M.Now()) && Keeps(old(M.Now()), M.Now(), {p, q})
    ensures SameEnd(old(M.Now()), M.Now())
    ensures !LiveAt(M.Now(), p) && !LiveAt(old(M.Now()), q) && q in M.chunks && M.chunks[q] == Chunk(p + z - q, Used)
  {
    hide HeapOk, Settled, Keeps, LooseSet, LiveAt, Gone, SetInuse, Split, SamePayload, HalvedWords, Region, NoBinned, Unpinned;
    ghost var s, e := M.Now(), p + z;
    PairRegion(M.gm, s, p, e, Loose);
    var leadsize := q - p;
    var newsize := z - leadsize;
    M.mem := SetInuse(M.mem, q, newsize);
    M.mem := SetInuse(M.mem, p, leadsize);
    M.chunks := Split(M.chunks, p, q, e, Chunk(leadsize, Used), Chunk(newsize, Used));
    ghost var s1 := M.Now();
    HalvedTags(s.mem, p, q, e);
    assert Halved(s, s1, p, q, e);
    HalvedStep(M.gm, s, s1, p, q, e);
    HalvedDone(M.gm, s, s1, p, q, e);
    SettledIs(s);
    SettledIs(s1);
    var how := FreeChunk(M, p, leadsize);
    LeaderGone(M.gm, s, s1, M.Now(), p, q, newsize);
  }

  /**
   * The part of internal_memalign after the allocation: the chunk has room for an aligned spot
   * behind a leader of at least a minimum chunk, and what is over is given back at both ends.
   */
  method AlignChunk(M: MallocState, p0: int, al: int, ghost k: nat, nb: int) returns (p: int)
    requires HeapOk(M.gm, M.Now()) && Settled(M.Now()) && p0 in M.chunks && M.chunks[p0].kind == Used
    requires al == Pow2(k) && al >= MIN_CHUNK_SIZE && nb >= MIN_CHUNK_SIZE && nb % 16 == 0
    requires M.chunks[p0].size >= nb + al + MIN_CHUNK_SIZE
    modifies M`mem, M`smallmap, M`treemap, M`small, M`trees, M`chunks, M`dv, M`dvsize, M`top, M`topsize
    ensures Cut(M.gm, old(M.Now()), M.Now(), p0, p, al, nb) && SameEnd(old(M.Now()), M.Now())
  {
    hide HeapOk, Settled, Keeps, LooseSet, LiveAt, AlignUp, AlignedSpot, Pow2, Cut, ChunkSize;
    ghost var s := M.Now();
    MappedHead(M.gm, s, p0);
    PositiveSize(M.gm, s, p0);
    p := p0;
    if (p0 + 16) % al != 0 {
      SpotAligned(p0, al, k);
      var pos := AlignedSpot(p0, al);
      DropLeader(M, p0, pos, ChunkSize(M.mem, p0));
      p := pos;
    } else {
      KeepsSameBut(s, {p0, p});
    }
    ghost var s2 := M.Now();
    KeepsSameBut(s2, {p});
    MappedHead(M.gm, s2, p);
    PositiveSize(M.gm, s2, p);
    SettledIs(s2);
    var size := ChunkSize(M.mem, p);
    if size > nb + MIN_CHUNK_SIZE {
      SplitOff(M, p, nb, size - nb, p + size);
    }
    CutIs(M.gm, s, s2, M.Now(), p0, p, al, nb);
  }
}
