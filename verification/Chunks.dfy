/**
 * Boundary tags: how a tiling of memory by chunks shows in head and foot words, and the one lemma
 * behind every allocation, split, merge and resize: retiling the region between two boundaries.
 */
module Chunks {
  import opened Words
  import opened BinIndex
  import opened TreeMemory

  const TOP_FOOT_SIZE: int := 80
  const FENCEPOST_HEAD: int := 11

  const MMAP_FOOT_PAD: int := 32

  /**
   * What a chunk is. Used chunks belong to the program, a Record chunk holds a segment record, a
   * Mapped chunk is alone in a region of its own that begins lead bytes before it; Binned, Victim
   * and Loose chunks are free: in a bin, the designated victim, or between homes. A Fence stands
   * for all the fenceposts behind a segment record.
   */
  datatype Kind = Used | Record | Mapped(lead: int) | Binned | Victim | Loose | Top | Fence

  datatype Chunk = Chunk(size: int, kind: Kind)

  type ChunkMap = map<int, Chunk>

  predicate InUse(k: Kind) {
    k == Used || k == Record
  }

  /** Chunks whose contents belong to somebody. */
  predicate Live(k: Kind) {
    InUse(k) || k.Mapped?
  }

  predicate Free(k: Kind) {
    k == Binned || k == Victim || k == Loose
  }

  /** Behind an in-use chunk of kind k: fenceposts only come behind a segment record. */
  predicate Follows(k: Kind, n: Kind) {
    !n.Mapped? && (n == Fence ==> k == Record)
  }

  /** The bytes a chunk covers; top and a mapped chunk also cover the padding behind them. */
  function Extent(c: Chunk): int {
    if c.kind == Top then c.size + TOP_FOOT_SIZE
    else if c.kind.Mapped? then c.size + MMAP_FOOT_PAD
    else c.size
  }

  /** An in-use chunk whose pinuse bit is clear: its prev_foot leads to a free chunk. */
  ghost predicate Unpinned(m: Mem, cs: ChunkMap, p: int) {
    p in cs && InUse(cs[p].kind) && Rd(m, p + HEAD) == cs[p].size + 2
  }

  ghost predicate AfterFree(m: Mem, cs: ChunkMap, p: int) {
    var q := p - Rd(m, p);
    q in cs && q < p && Free(cs[q].kind) && q + cs[q].size == p
  }

  ghost predicate Sized(p: int, c: Chunk) {
    && p > 0 && p % 16 == 0 && c.size % 16 == 0 && p + Extent(c) <= ADDRESS_LIMIT
    && c.size >= (if c.kind == Top || c.kind == Fence then 16 else MIN_CHUNK_SIZE)
    && (c.kind.Mapped? ==> 0 <= c.kind.lead < p)
  }

  /** The words of chunk p say what the tiling says. */
  ghost predicate TagAt(m: Mem, cs: ChunkMap, p: int)
    requires p in cs
  {
    var c := cs[p];
    var n := p + c.size;
    && Sized(p, c)
    && (InUse(c.kind) ==>
          && (Rd(m, p + HEAD) == c.size + 3 || (Rd(m, p + HEAD) == c.size + 2 && AfterFree(m, cs, p)))
          && n in cs && !Unpinned(m, cs, n) && Follows(c.kind, cs[n].kind))
    && (Free(c.kind) ==>
          && Rd(m, p + HEAD) == c.size + 1 && Rd(m, n) == c.size && Unpinned(m, cs, n))
    && (c.kind == Top ==> Rd(m, p + HEAD) == c.size + 1 && Rd(m, n + HEAD) == TOP_FOOT_SIZE)
    && (c.kind == Fence ==> Rd(m, p + HEAD) == FENCEPOST_HEAD)
    && (c.kind.Mapped? ==> Rd(m, p + HEAD) == c.size && Rd(m, p) == c.kind.lead)
  }

  ghost predicate Before(p: int, c: Chunk, q: int) {
    p + Extent(c) <= q
  }

  ghost predicate Apart2(cs: ChunkMap) {
    forall p, q {:trigger Before(p, cs[p], q)} :: p in cs && q in cs && p < q ==> Before(p, cs[p], q)
  }

  ghost predicate Tags(m: Mem, cs: ChunkMap) {
    && (forall p {:trigger TagAt(m, cs, p)} :: p in cs ==> TagAt(m, cs, p))
    && Apart2(cs)
  }

  /** Between m and m' nothing changes but words of [a + HEAD, e) and the two tag words at e. */
  ghost predicate Within(m: Mem, m': Mem, a: int, e: int) {
    forall w :: Rd(m', w) != Rd(m, w) ==> a + HEAD <= w <= e || w == e + HEAD
  }

  /** The chunks outside of [a, e) are the same. */
  ghost predicate SameOutside(cs: ChunkMap, cs': ChunkMap, a: int, e: int) {
    forall x :: x < a || x >= e ==> (x in cs' <==> x in cs) && (x in cs ==> cs'[x] == cs[x])
  }

  /** The chunks of cs' that start in [a, e): tagged, inside, and apart from each other. */
  ghost predicate Tiled(m: Mem, cs: ChunkMap, a: int, e: int) {
    && (forall x {:trigger TagAt(m, cs, x)} :: x in cs && a <= x < e ==> TagAt(m, cs, x))
    && (forall x {:trigger Before(x, cs[x], e)} :: x in cs && a <= x < e ==> Before(x, cs[x], e))
    && (forall x, y {:trigger Before(x, cs[x], y)} :: x in cs && y in cs && a <= x < y < e ==> Before(x, cs[x], y))
  }

  /** A new tiling of [a, e) that keeps the state of its first boundary. */
  ghost predicate Retiling(m: Mem, cs: ChunkMap, m': Mem, cs': ChunkMap, a: int, e: int) {
    && a in cs && a in cs' && Follows(Used, cs'[a].kind) && a < e && a % 16 == 0 && e % 16 == 0
    && Within(m, m', a, e) && SameOutside(cs, cs', a, e)
    && (forall x {:trigger Before(x, cs[x], e)} :: x in cs && a <= x < e ==> Before(x, cs[x], e))
    && Tiled(m', cs', a, e)
    && (Unpinned(m', cs', a) <==> Unpinned(m, cs, a))
    && (e in cs ==> TagAt(m', cs', e))
  }

  lemma RetileOuter(m: Mem, cs: ChunkMap, m': Mem, cs': ChunkMap, a: int, e: int, x: int)
    requires Tags(m, cs) && Retiling(m, cs, m', cs', a, e)
    requires x in cs' && (x < a || x > e)
    ensures TagAt(m', cs', x)
  {
    var c := cs[x];
    assert TagAt(m, cs, x) && c == cs'[x];
    var n := x + c.size;
    if x < a {
      assert Before(x, c, a);
    }
    assert Rd(m', x + HEAD) == Rd(m, x + HEAD);
    assert x > e ==> Rd(m', x) == Rd(m, x);
    if c.kind != Fence && c.kind != Top && !c.kind.Mapped? {
      OuterNext(m, cs, m', cs', a, e, x);
    }
    if Unpinned(m, cs, x) {
      OuterPrev(m, cs, m', cs', a, e, x);
    }
  }

  lemma OuterNext(m: Mem, cs: ChunkMap, m': Mem, cs': ChunkMap, a: int, e: int, x: int)
    requires Tags(m, cs) && Retiling(m, cs, m', cs', a, e)
    requires x in cs && (x < a || x > e) && cs[x].kind != Fence && cs[x].kind != Top && !cs[x].kind.Mapped?
    ensures var n := x + cs[x].size;
      n in cs' && (InUse(cs[x].kind) ==> Follows(cs[x].kind, cs'[n].kind)) && (Unpinned(m', cs', n) <==> Unpinned(m, cs, n)) && (Free(cs[x].kind) ==> Rd(m', n) == Rd(m, n))
  {
    var n := x + cs[x].size;
    assert TagAt(m, cs, x);
    assert n in cs;
    if x < a {
      assert Before(x, cs[x], a);
    }
    assert n <= a || n > e;
    assert TagAt(m, cs, n);
  }

  lemma OuterPrev(m: Mem, cs: ChunkMap, m': Mem, cs': ChunkMap, a: int, e: int, x: int)
    requires Tags(m, cs) && Retiling(m, cs, m', cs', a, e)
    requires x in cs && (x < a || x > e) && Unpinned(m, cs, x)
    ensures AfterFree(m', cs', x)
  {
    assert TagAt(m, cs, x);
    assert AfterFree(m, cs, x);
    var q := x - Rd(m, x);
    if a <= q < e {
      InRegion(m, cs, m', cs', a, e, q);
    }
  }

  lemma InRegion(m: Mem, cs: ChunkMap, m': Mem, cs': ChunkMap, a: int, e: int, q: int)
    requires Retiling(m, cs, m', cs', a, e) && q in cs && a <= q < e
    ensures q + Extent(cs[q]) <= e
  {
    assert Before(q, cs[q], e);
  }

  /** Two chunks never overlap. */
  lemma ChunksApart(m: Mem, cs: ChunkMap, p: int, q: int)
    requires Tags(m, cs) && p in cs && q in cs
    ensures p == q || p + Extent(cs[p]) <= q || q + Extent(cs[q]) <= p
    ensures Sized(p, cs[p]) && Sized(q, cs[q])
  {
    assert TagAt(m, cs, p) && TagAt(m, cs, q);
    assert p < q ==> Before(p, cs[p], q);
    assert q < p ==> Before(q, cs[q], p);
  }

  lemma RetileApart(m: Mem, cs: ChunkMap, m': Mem, cs': ChunkMap, a: int, e: int)
    requires Tags(m, cs) && Retiling(m, cs, m', cs', a, e)
    ensures Apart2(cs')
  {
    forall x, y | x in cs' && y in cs' && x < y ensures Before(x, cs'[x], y) {
      if x < a {
        assert Before(x, cs[x], a);
        if y < a || y >= e {
          assert Before(x, cs[x], y);
        }
      } else if x < e {
        assert Before(x, cs'[x], e);
      } else {
        assert Before(x, cs[x], y);
      }
    }
  }

  /** Retiling a region keeps the tags of the whole heap. */
  lemma Retile(m: Mem, cs: ChunkMap, m': Mem, cs': ChunkMap, a: int, e: int)
    requires Tags(m, cs) && Retiling(m, cs, m', cs', a, e)
    ensures Tags(m', cs')
  {
    hide TagAt, Before, Within, Unpinned;
    RetileApart(m, cs, m', cs', a, e);
    forall x | x in cs' ensures TagAt(m', cs', x) {
      if x < a || x > e {
        RetileOuter(m, cs, m', cs', a, e, x);
      } else if x < e {
        assert a <= x < e;
      } else {
        assert e in cs;
      }
    }
  }

  // ---------- segments ----------

  datatype Segment = Segment(base: int, size: int, mapped: bool)

  function End(sg: Segment): int {
    sg.base + sg.size
  }

  predicate Ends(k: Kind) {
    k == Top || k == Fence
  }

  /** A chunk of a segment; top or the fenceposts end it, and nothing else does. */
  ghost predicate InSeg(sg: Segment, p: int, c: Chunk) {
    sg.base <= p && p + Extent(c) <= End(sg) && (Ends(c.kind) <==> p + Extent(c) == End(sg))
  }

  ghost predicate Housed(segs: seq<Segment>, p: int, c: Chunk) {
    !c.kind.Mapped? ==> exists i :: 0 <= i < |segs| && InSeg(segs[i], p, c)
  }

  ghost predicate SegsApart(segs: seq<Segment>) {
    forall i, j :: 0 <= i < |segs| && 0 <= j < |segs| && i != j ==>
      End(segs[i]) <= segs[j].base || End(segs[j]) <= segs[i].base
  }

  ghost predicate Started(cs: ChunkMap, sg: Segment) {
    sg.size > 0 && sg.base in cs && Follows(Used, cs[sg.base].kind)
  }

  /**
   * The chunks tile the segments: each segment starts with a chunk, and each chunk but the mapped
   * ones lies in a segment that goes on behind it, or ends with it if it is top or the fenceposts.
   */
  ghost predicate Covers(cs: ChunkMap, segs: seq<Segment>) {
    && SegsApart(segs)
    && (forall i {:trigger Started(cs, segs[i])} :: 0 <= i < |segs| ==> Started(cs, segs[i]))
    && (forall p {:trigger Housed(segs, p, cs[p])} :: p in cs ==> Housed(segs, p, cs[p]))
  }

  lemma SegmentOf(cs: ChunkMap, segs: seq<Segment>, p: int) returns (i: nat)
    requires Covers(cs, segs) && p in cs && !cs[p].kind.Mapped?
    ensures i < |segs| && InSeg(segs[i], p, cs[p])
  {
    assert Housed(segs, p, cs[p]);
    i :| 0 <= i < |segs| && InSeg(segs[i], p, cs[p]);
  }

  /** [a, e) lies in one segment, and ends it or not. */
  ghost predicate Inside(segs: seq<Segment>, a: int, e: int, last: bool) {
    exists i :: 0 <= i < |segs| && segs[i].base <= a && e <= End(segs[i]) && (last <==> e == End(segs[i]))
  }

  /** The chunks of [a, e) fit their segment. */
  ghost predicate Closed(cs: ChunkMap, a: int, e: int, last: bool) {
    forall x :: x in cs && a <= x < e ==>
      x + Extent(cs[x]) <= e && !cs[x].kind.Mapped? && (Ends(cs[x].kind) <==> last && x + Extent(cs[x]) == e)
  }

  lemma RetileHoused(cs: ChunkMap, cs': ChunkMap, segs: seq<Segment>, a: int, e: int, last: bool, i: nat, p: int)
    requires Covers(cs, segs) && SameOutside(cs, cs', a, e) && Closed(cs', a, e, last)
    requires i < |segs| && segs[i].base <= a && e <= End(segs[i]) && (last <==> e == End(segs[i])) && p in cs'
    ensures Housed(segs, p, cs'[p])
  {
    if a <= p < e {
      assert InSeg(segs[i], p, cs'[p]);
    } else {
      assert Housed(segs, p, cs[p]);
    }
  }

  lemma RetileStarted(cs: ChunkMap, cs': ChunkMap, segs: seq<Segment>, a: int, e: int, i: nat, j: nat)
    requires Covers(cs, segs) && SameOutside(cs, cs', a, e) && a < e && a in cs' && Follows(Used, cs'[a].kind)
    requires i < |segs| && segs[i].base <= a && e <= End(segs[i]) && j < |segs|
    ensures Started(cs', segs[j])
  {
    hide Housed;
    assert Started(cs, segs[j]) && Started(cs, segs[i]);
    assert i != j ==> segs[j].base < segs[i].base || segs[j].base >= End(segs[i]);
  }

  lemma RetileCovers(cs: ChunkMap, cs': ChunkMap, segs: seq<Segment>, a: int, e: int, last: bool)
    requires Covers(cs, segs) && SameOutside(cs, cs', a, e) && a < e && a in cs' && Follows(Used, cs'[a].kind)
    requires Inside(segs, a, e, last) && Closed(cs', a, e, last)
    ensures Covers(cs', segs)
  {
    hide Housed, Started, SameOutside, Closed, Follows;
    var i :| 0 <= i < |segs| && segs[i].base <= a && e <= End(segs[i]) && (last <==> e == End(segs[i]));
    forall p | p in cs' ensures Housed(segs, p, cs'[p]) {
      RetileHoused(cs, cs', segs, a, e, last, i, p);
    }
    forall j | 0 <= j < |segs| ensures Started(cs', segs[j]) {
      RetileStarted(cs, cs', segs, a, e, i, j);
    }
  }

  /** Which free kind a chunk has does not matter to its segment. */
  lemma RekindCovers(cs: ChunkMap, segs: seq<Segment>, p: int, k: Kind)
    requires Covers(cs, segs) && p in cs && Free(cs[p].kind) && Free(k)
    ensures Covers(cs[p := Chunk(cs[p].size, k)], segs)
  {
    var cs' := cs[p := Chunk(cs[p].size, k)];
    forall x | x in cs' ensures Housed(segs, x, cs'[x]) {
      assert Housed(segs, x, cs[x]);
      var i :| cs[x].kind.Mapped? || (0 <= i < |segs| && InSeg(segs[i], x, cs[x]));
      assert cs'[x].kind.Mapped? || InSeg(segs[i], x, cs'[x]);
    }
    forall j | 0 <= j < |segs| ensures Started(cs', segs[j]) {
      assert Started(cs, segs[j]);
    }
  }

  // ---------- the macros that write tags ----------

  function SetPinuseBit(h: int): int {
    if h % 2 == 0 then h + 1 else h
  }

  function ClearPinuseBit(h: int): int {
    h - h % 2
  }

  /** set_inuse. */
  function SetInuse(m: Mem, p: int, s: int): Mem {
    var m1 := m[p + HEAD := Rd(m, p + HEAD) % 2 + s + 2];
    m1[p + s + HEAD := SetPinuseBit(Rd(m1, p + s + HEAD))]
  }

  /** set_inuse_and_pinuse. */
  function SetInuseAndPinuse(m: Mem, p: int, s: int): Mem {
    var m1 := m[p + HEAD := s + 3];
    m1[p + s + HEAD := SetPinuseBit(Rd(m1, p + s + HEAD))]
  }

  /** set_size_and_pinuse_of_inuse_chunk. */
  function SetInuseHead(m: Mem, p: int, s: int): Mem {
    m[p + HEAD := s + 3]
  }

  /** set_size_and_pinuse_of_free_chunk. */
  function SetFree(m: Mem, p: int, s: int): Mem {
    m[p + HEAD := s + 1][p + s := s]
  }

  /** set_free_with_pinuse. */
  function SetFreeWithPinuse(m: Mem, p: int, s: int, n: int): Mem {
    SetFree(m[n + HEAD := ClearPinuseBit(Rd(m, n + HEAD))], p, s)
  }

  // ---------- retilings ----------

  /** The chunks with [a, e) made one chunk. */
  function Merged(cs: ChunkMap, a: int, e: int, c: Chunk): ChunkMap {
    (map x | x in cs && !(a < x < e) :: cs[x])[a := c]
  }

  /** No word but those at the given addresses differs. */
  ghost predicate Writes(m: Mem, m': Mem, ws: set<int>) {
    forall w :: Rd(m', w) != Rd(m, w) ==> w in ws
  }

  lemma MergedOutside(cs: ChunkMap, a: int, e: int, c: Chunk)
    requires a < e
    ensures SameOutside(cs, Merged(cs, a, e, c), a, e)
    ensures forall x :: x in Merged(cs, a, e, c) && a <= x < e ==> x == a
    ensures a in Merged(cs, a, e, c) && Merged(cs, a, e, c)[a] == c
  {
  }

  /** The chunk at the far boundary, when only its pinuse bit or prev_foot changed. */
  lemma EdgeTag(m: Mem, cs: ChunkMap, m': Mem, cs': ChunkMap, a: int, e: int)
    requires Tags(m, cs) && a < e && e in cs && Within(m, m', a, e) && SameOutside(cs, cs', a, e)
    requires !cs[e].kind.Mapped?
    requires InUse(cs[e].kind) ==>
      Rd(m', e + HEAD) == cs[e].size + 3 || (Rd(m', e + HEAD) == cs[e].size + 2 && AfterFree(m', cs', e))
    requires !InUse(cs[e].kind) ==> Rd(m', e + HEAD) == Rd(m, e + HEAD)
    ensures TagAt(m', cs', e)
  {
    var c := cs[e];
    var n := e + c.size;
    assert TagAt(m, cs, e) && cs'[e] == c;
    assert n in cs ==> cs'[n] == cs[n] && Rd(m', n + HEAD) == Rd(m, n + HEAD);
    assert Rd(m', n) == Rd(m, n);
  }

  lemma PriorChunks(m: Mem, cs: ChunkMap, a: int, e: int)
    requires Tags(m, cs) && e in cs
    ensures forall x {:trigger Before(x, cs[x], e)} :: x in cs && a <= x < e ==> Before(x, cs[x], e)
  {
  }

  /** Free: everything from a up to the in-use chunk e becomes one free chunk. */
  lemma MergeFree(m: Mem, cs: ChunkMap, m': Mem, a: int, e: int, k: Kind)
    requires Tags(m, cs) && a in cs && e in cs && a < e && InUse(cs[e].kind) && !Unpinned(m, cs, a) && Free(k)
    requires MIN_CHUNK_SIZE <= e - a
    requires Rd(m', a + HEAD) == e - a + 1 && Rd(m', e) == e - a && Rd(m', e + HEAD) == cs[e].size + 2
    requires Writes(m, m', {a + HEAD, e, e + HEAD})
    ensures Retiling(m, cs, m', Merged(cs, a, e, Chunk(e - a, k)), a, e)
  {
    hide TagAt, Tags, Merged, SetPinuseBit;
    var cs' := Merged(cs, a, e, Chunk(e - a, k));
    Bounds(m, cs, a, e);
    MergedOutside(cs, a, e, Chunk(e - a, k));
    PriorChunks(m, cs, a, e);
    assert Within(m, m', a, e);
    EdgeTag(m, cs, m', cs', a, e);
    FreeTag(m', cs', a);
    AssembleOne(m, cs, m', cs', a, e);
  }

  /** Allocate a whole free chunk, or let an in-use chunk grow up to e. */
  lemma MergeUsed(m: Mem, cs: ChunkMap, m': Mem, a: int, e: int)
    requires Tags(m, cs) && a in cs && e in cs && a < e && (InUse(cs[a].kind) || Free(cs[a].kind))
    requires MIN_CHUNK_SIZE <= e - a
    requires Rd(m', a + HEAD) == e - a + (if Unpinned(m, cs, a) then 2 else 3)
    requires Follows(Used, cs[e].kind) && Rd(m', e + HEAD) == SetPinuseBit(Rd(m, e + HEAD))
    requires Writes(m, m', {a + HEAD, e + HEAD})
    ensures Retiling(m, cs, m', Merged(cs, a, e, Chunk(e - a, Used)), a, e)
  {
    hide TagAt, Tags, Merged, SetPinuseBit;
    var cs' := Merged(cs, a, e, Chunk(e - a, Used));
    Bounds(m, cs, a, e);
    MergedOutside(cs, a, e, Chunk(e - a, Used));
    PriorChunks(m, cs, a, e);
    assert Within(m, m', a, e);
    EdgeTag(m, cs, m', cs', a, e);
    SamePrev(m, cs, m', cs', a, e);
    UsedTag(m', cs', a);
    AssembleOne(m, cs, m', cs', a, e);
  }

  lemma AssembleOne(m: Mem, cs: ChunkMap, m': Mem, cs': ChunkMap, a: int, e: int)
    requires Tags(m, cs) && a in cs && a in cs' && a < e && a % 16 == 0 && e % 16 == 0
    requires Within(m, m', a, e) && SameOutside(cs, cs', a, e)
    requires forall x :: x in cs' && a <= x < e ==> x == a
    requires forall x {:trigger Before(x, cs[x], e)} :: x in cs && a <= x < e ==> Before(x, cs[x], e)
    requires TagAt(m', cs', a) && Before(a, cs'[a], e) && Follows(Used, cs'[a].kind)
    requires Unpinned(m', cs', a) <==> Unpinned(m, cs, a)
    requires e in cs ==> TagAt(m', cs', e)
    ensures Retiling(m, cs, m', cs', a, e)
  {
    hide TagAt, Within, SameOutside, Unpinned, Tags;
  }

  /** What lies before a is not affected. */
  lemma SamePrev(m: Mem, cs: ChunkMap, m': Mem, cs': ChunkMap, a: int, e: int)
    requires a < e && Within(m, m', a, e) && SameOutside(cs, cs', a, e)
    ensures AfterFree(m, cs, a) ==> AfterFree(m', cs', a)
  {
  }

  /** Merge everything from a on into top. */
  lemma MergeTop(m: Mem, cs: ChunkMap, m': Mem, a: int, t: int, e: int)
    requires Tags(m, cs) && a in cs && t in cs && cs[t].kind == Top && a <= t && !Unpinned(m, cs, a)
    requires e == t + cs[t].size + TOP_FOOT_SIZE && Rd(m', a + HEAD) == t + cs[t].size - a + 1
    requires Writes(m, m', {a + HEAD})
    ensures Retiling(m, cs, m', Merged(cs, a, e, Chunk(t + cs[t].size - a, Top)), a, e)
  {
    var cs' := Merged(cs, a, e, Chunk(t + cs[t].size - a, Top));
    Bounds(m, cs, a, t);
    TopFacts(m, cs, t);
    MergedOutside(cs, a, e, Chunk(t + cs[t].size - a, Top));
    assert Within(m, m', a, e);
    hide TagAt, Tags, Merged, SetPinuseBit, SameOutside, Within, Unpinned, Before;
    TopEdge(m, cs, m', cs', a, t, e);
    MergeTopTag(m', cs', a, e);
    AssembleOne(m, cs, m', cs', a, e);
  }

  lemma MergeTopTag(m: Mem, cs: ChunkMap, a: int, e: int)
    requires a in cs && cs[a].kind == Top && Sized(a, cs[a]) && e == a + cs[a].size + TOP_FOOT_SIZE
    requires Rd(m, a + HEAD) == cs[a].size + 1 && Rd(m, a + cs[a].size + HEAD) == TOP_FOOT_SIZE
    ensures TagAt(m, cs, a) && Before(a, cs[a], e) && !Unpinned(m, cs, a)
  {
  }

  lemma TopEnd(m: Mem, cs: ChunkMap, a: int, t: int, e: int)
    requires Tags(m, cs) && t in cs && cs[t].kind == Top && e == t + cs[t].size + TOP_FOOT_SIZE
    ensures forall x {:trigger Before(x, cs[x], e)} :: x in cs && a <= x < e ==> Before(x, cs[x], e)
    ensures forall q :: q in cs && a <= q < e ==> !Free(cs[q].kind) || q + cs[q].size != e
    ensures Sized(t, cs[t])
  {
    assert TagAt(m, cs, t);
    forall x | x in cs && a <= x < e
      ensures Before(x, cs[x], e) && (!Free(cs[x].kind) || x + cs[x].size != e)
    {
      ChunksApart(m, cs, x, t);
    }
  }

  /** A far boundary whose tag words did not change at all. */
  lemma EdgeSame(m: Mem, cs: ChunkMap, m': Mem, cs': ChunkMap, a: int, e: int)
    requires Tags(m, cs) && a < e && e in cs && Within(m, m', a, e) && SameOutside(cs, cs', a, e)
    requires Rd(m', e) == Rd(m, e) && Rd(m', e + HEAD) == Rd(m, e + HEAD)
    requires forall q :: q in cs && a <= q < e ==> !Free(cs[q].kind) || q + cs[q].size != e
    ensures TagAt(m', cs', e)
  {
    assert TagAt(m, cs, e);
    if AfterFree(m, cs, e) { assert AfterFree(m', cs', e); }
    if !cs[e].kind.Mapped? {
      EdgeTag(m, cs, m', cs', a, e);
    }
  }

  /** The chunks with [a, e) made two chunks that meet at r. */
  function Split(cs: ChunkMap, a: int, r: int, e: int, c: Chunk, d: Chunk): ChunkMap {
    Merged(cs, a, e, c)[r := d]
  }

  lemma SplitOutside(cs: ChunkMap, a: int, r: int, e: int, c: Chunk, d: Chunk)
    requires a < r < e
    ensures var cs' := Split(cs, a, r, e, c, d);
      && SameOutside(cs, cs', a, e)
      && (forall x :: x in cs' && a <= x < e ==> x == a || x == r)
      && a in cs' && cs'[a] == c && r in cs' && cs'[r] == d
  {
  }

  lemma Assemble(m: Mem, cs: ChunkMap, m': Mem, cs': ChunkMap, a: int, r: int, e: int)
    requires Tags(m, cs) && a in cs && a in cs' && r in cs' && a < r < e && a % 16 == 0 && e % 16 == 0
    requires Within(m, m', a, e) && SameOutside(cs, cs', a, e)
    requires forall x :: x in cs' && a <= x < e ==> x == a || x == r
    requires forall x {:trigger Before(x, cs[x], e)} :: x in cs && a <= x < e ==> Before(x, cs[x], e)
    requires TagAt(m', cs', a) && TagAt(m', cs', r) && Before(a, cs'[a], r) && Before(r, cs'[r], e)
    requires Follows(Used, cs'[a].kind)
    requires Unpinned(m', cs', a) <==> Unpinned(m, cs, a)
    requires e in cs ==> TagAt(m', cs', e)
    ensures Retiling(m, cs, m', cs', a, e)
  {
    hide TagAt, Within, SameOutside, Unpinned, Tags;
    assert Before(a, cs'[a], e);
  }

  lemma UsedTag(m: Mem, cs: ChunkMap, p: int)
    requires p in cs && InUse(cs[p].kind) && Sized(p, cs[p])
    requires Rd(m, p + HEAD) == cs[p].size + 3 || (Rd(m, p + HEAD) == cs[p].size + 2 && AfterFree(m, cs, p))
    requires p + cs[p].size in cs && !Unpinned(m, cs, p + cs[p].size)
    requires Follows(cs[p].kind, cs[p + cs[p].size].kind)
    ensures TagAt(m, cs, p)
  {
  }

  lemma Parity(s: int)
    requires s % 16 == 0
    ensures (s + 1) % 2 == 1 && (s + 2) % 2 == 0 && (s + 3) % 2 == 1
  {
  }

  /** What the head word of a chunk may be. */
  lemma HeadOf(m: Mem, cs: ChunkMap, p: int)
    requires Tags(m, cs) && p in cs
    ensures Sized(p, cs[p])
    ensures InUse(cs[p].kind) ==>
      Rd(m, p + HEAD) == cs[p].size + 3 || (Rd(m, p + HEAD) == cs[p].size + 2 && AfterFree(m, cs, p))
    ensures cs[p].kind.Mapped? ==> Rd(m, p + HEAD) == cs[p].size
    ensures !Live(cs[p].kind) ==> Rd(m, p + HEAD) == cs[p].size + 1 || Rd(m, p + HEAD) == FENCEPOST_HEAD
  {
    hide AfterFree;
    assert TagAt(m, cs, p);
  }

  /** Facts about the two boundaries of a region that is about to be retiled. */
  lemma Bounds(m: Mem, cs: ChunkMap, a: int, e: int)
    requires Tags(m, cs) && a in cs && e in cs
    ensures Sized(a, cs[a]) && Sized(e, cs[e])
    ensures InUse(cs[e].kind) ==> Rd(m, e + HEAD) == cs[e].size + 2 || Rd(m, e + HEAD) == cs[e].size + 3
    ensures InUse(cs[e].kind) ==> SetPinuseBit(Rd(m, e + HEAD)) == cs[e].size + 3
    ensures !Live(cs[e].kind) ==> SetPinuseBit(Rd(m, e + HEAD)) == Rd(m, e + HEAD)
    ensures Unpinned(m, cs, a) ==> AfterFree(m, cs, a)
  {
    hide Tags, AfterFree;
    HeadOf(m, cs, a);
    HeadOf(m, cs, e);
    Parity(cs[e].size);
  }

  /** An in-use chunk followed by a free one in [a, e): the shapes left by splitting a free chunk. */
  lemma SplitFree(m: Mem, cs: ChunkMap, m': Mem, a: int, r: int, e: int, k: Kind)
    requires Tags(m, cs) && a in cs && e in cs && InUse(cs[e].kind) && (InUse(cs[a].kind) || Free(cs[a].kind))
    requires Free(k) && a + MIN_CHUNK_SIZE <= r <= e - MIN_CHUNK_SIZE && r % 16 == 0
    requires Rd(m', a + HEAD) == r - a + (if Unpinned(m, cs, a) then 2 else 3)
    requires Rd(m', r + HEAD) == e - r + 1 && Rd(m', e) == e - r && Rd(m', e + HEAD) == cs[e].size + 2
    requires Writes(m, m', {a + HEAD, r + HEAD, e, e + HEAD})
    ensures Retiling(m, cs, m', Split(cs, a, r, e, Chunk(r - a, Used), Chunk(e - r, k)), a, e)
  {
    hide TagAt, Tags, Split, SetPinuseBit;
    var cs' := Split(cs, a, r, e, Chunk(r - a, Used), Chunk(e - r, k));
    Bounds(m, cs, a, e);
    SplitOutside(cs, a, r, e, Chunk(r - a, Used), Chunk(e - r, k));
    PriorChunks(m, cs, a, e);
    assert Within(m, m', a, e);
    EdgeTag(m, cs, m', cs', a, e);
    SamePrev(m, cs, m', cs', a, e);
    UsedTag(m', cs', a);
    FreeTag(m', cs', r);
    Assemble(m, cs, m', cs', a, r, e);
  }

  lemma FreeTag(m: Mem, cs: ChunkMap, p: int)
    requires p in cs && Free(cs[p].kind) && Sized(p, cs[p])
    requires Rd(m, p + HEAD) == cs[p].size + 1 && Rd(m, p + cs[p].size) == cs[p].size
    requires Unpinned(m, cs, p + cs[p].size)
    ensures TagAt(m, cs, p)
  {
  }

  lemma TopTag(m: Mem, cs: ChunkMap, p: int)
    requires p in cs && cs[p].kind == Top && Sized(p, cs[p])
    requires Rd(m, p + HEAD) == cs[p].size + 1 && Rd(m, p + cs[p].size + HEAD) == TOP_FOOT_SIZE
    ensures TagAt(m, cs, p)
  {
  }

  /** Two in-use chunks in [a, e). */
  lemma SplitUsed(m: Mem, cs: ChunkMap, m': Mem, a: int, r: int, e: int)
    requires Tags(m, cs) && a in cs && e in cs && InUse(cs[a].kind)
    requires a + MIN_CHUNK_SIZE <= r <= e - MIN_CHUNK_SIZE && r % 16 == 0 && Follows(Used, cs[e].kind)
    requires Rd(m', a + HEAD) == r - a + (if Unpinned(m, cs, a) then 2 else 3)
    requires Rd(m', r + HEAD) == e - r + 3 && Rd(m', e + HEAD) == SetPinuseBit(Rd(m, e + HEAD))
    requires Writes(m, m', {a + HEAD, r + HEAD, e + HEAD})
    ensures Retiling(m, cs, m', Split(cs, a, r, e, Chunk(r - a, Used), Chunk(e - r, Used)), a, e)
  {
    hide TagAt, Tags, Split, SetPinuseBit;
    var cs' := Split(cs, a, r, e, Chunk(r - a, Used), Chunk(e - r, Used));
    Bounds(m, cs, a, e);
    SplitOutside(cs, a, r, e, Chunk(r - a, Used), Chunk(e - r, Used));
    PriorChunks(m, cs, a, e);
    assert Within(m, m', a, e);
    EdgeTag(m, cs, m', cs', a, e);
    SamePrev(m, cs, m', cs', a, e);
    UsedTag(m', cs', a);
    UsedTag(m', cs', r);
    Assemble(m, cs, m', cs', a, r, e);
  }

  /** What lies behind top is not affected by writes before the end of its padding. */
  lemma TopEdge(m: Mem, cs: ChunkMap, m': Mem, cs': ChunkMap, a: int, t: int, e: int)
    requires Tags(m, cs) && t in cs && cs[t].kind == Top && a < e == t + cs[t].size + TOP_FOOT_SIZE
    requires Within(m, m', a, e) && SameOutside(cs, cs', a, e) && Rd(m', e) == Rd(m, e) && Rd(m', e + HEAD) == Rd(m, e + HEAD)
    ensures e in cs ==> TagAt(m', cs', e)
    ensures forall x {:trigger Before(x, cs[x], e)} :: x in cs && a <= x < e ==> Before(x, cs[x], e)
  {
    TopEnd(m, cs, a, t, e);
    if e in cs {
      EdgeSame(m, cs, m', cs', a, e);
    }
  }

  lemma TopFacts(m: Mem, cs: ChunkMap, t: int)
    requires Tags(m, cs) && t in cs && cs[t].kind == Top
    ensures Sized(t, cs[t]) && Rd(m, t + HEAD) == cs[t].size + 1 && Rd(m, t + cs[t].size + HEAD) == TOP_FOOT_SIZE
    ensures !Unpinned(m, cs, t)
  {
    assert TagAt(m, cs, t);
  }

  /** An in-use chunk followed by what remains of top. */
  lemma SplitTop(m: Mem, cs: ChunkMap, m': Mem, a: int, r: int, t: int, e: int)
    requires Tags(m, cs) && a in cs && t in cs && cs[t].kind == Top && a <= t && (a < t ==> InUse(cs[a].kind))
    requires e == t + cs[t].size + TOP_FOOT_SIZE
    requires a + MIN_CHUNK_SIZE <= r < t + cs[t].size && r % 16 == 0
    requires Rd(m', a + HEAD) == r - a + (if Unpinned(m, cs, a) then 2 else 3)
    requires Rd(m', r + HEAD) == t + cs[t].size - r + 1
    requires Writes(m, m', {a + HEAD, r + HEAD})
    ensures Retiling(m, cs, m', Split(cs, a, r, e, Chunk(r - a, Used), Chunk(t + cs[t].size - r, Top)), a, e)
  {
    hide TagAt, Tags, Split, SetPinuseBit, SameOutside, AfterFree, Within, Writes;
    var cs' := Split(cs, a, r, e, Chunk(r - a, Used), Chunk(t + cs[t].size - r, Top));
    Bounds(m, cs, a, t);
    TopFacts(m, cs, t);
    SplitOutside(cs, a, r, e, Chunk(r - a, Used), Chunk(t + cs[t].size - r, Top));
    TwoHeads(m, m', a, r, e);
    SamePrev(m, cs, m', cs', a, e);
    TopEdge(m, cs, m', cs', a, t, e);
    UsedTag(m', cs', a);
    MergeTopTag(m', cs', r, e);
    Assemble(m, cs, m', cs', a, r, e);
  }

  lemma TwoHeads(m: Mem, m': Mem, a: int, r: int, e: int)
    requires Writes(m, m', {a + HEAD, r + HEAD}) && a < r && r + TOP_FOOT_SIZE < e
    ensures Within(m, m', a, e) && Rd(m', e) == Rd(m, e) && Rd(m', e + HEAD) == Rd(m, e + HEAD)
    ensures Rd(m', e - TOP_FOOT_SIZE + HEAD) == Rd(m, e - TOP_FOOT_SIZE + HEAD)
  {
  }

  // ---------- contents ----------

  /** Every word of the payload of a live chunk, which ends with the prev_foot of the next. */
  ghost predicate SamePayload(m: Mem, m': Mem, p: int, s: int) {
    forall w :: p + 16 <= w < p + s + HEAD ==> Rd(m', w) == Rd(m, w)
  }

  /** Retiling [a, e) changes no word of any live chunk outside of it. */
  lemma RetilePayload(m: Mem, cs: ChunkMap, m': Mem, cs': ChunkMap, a: int, e: int, p: int)
    requires Tags(m, cs) && Retiling(m, cs, m', cs', a, e)
    requires p in cs && Live(cs[p].kind) && (p < a || p >= e)
    ensures p in cs' && cs'[p] == cs[p] && SamePayload(m, m', p, cs[p].size)
  {
    assert TagAt(m, cs, p);
    if p < a {
      assert Before(p, cs[p], a);
    }
  }
}
