/** Runs: any sequence of calls from the zeroed state, against the blocks the program has been given. */
module Runs {
  import opened Words
  import opened TreeMemory
  import opened Chunks
  import opened HeapState
  import opened Segments
  import opened SysAlloc
  import opened Morecore
  import opened Trim
  import opened Invariant
  import opened Api

  /** What the program knows: the blocks it has, each with the bytes it has asked for. */
  type Ledger = map<int, int>

  /** The ledger after a call; it depends on arguments and results only. */
  function After(l: Ledger, c: Call): Ledger {
    match c
    case Malloc(bytes, p) => if p == 0 then l else l[p := bytes]
    case Free(q, gone) => if gone then l - {q} else l
    case Realloc(q, bytes, p, gone) =>
      if p == 0 then l
      else if q != 0 && p != q && gone then (l - {q})[p := bytes]
      else l[p := bytes]
    case Memalign(_, bytes, p) => if p == 0 then l else l[p := bytes]
    case Store(_) => l
    case Trim => l
  }

  /** The blocks that a call hands out, resizes, takes back or writes to. */
  function Names(c: Call): set<int> {
    match c
    case Malloc(_, p) => {p}
    case Free(q, _) => {q}
    case Realloc(q, _, p, _) => {q, p}
    case Memalign(_, _, p) => {p}
    case Store(q) => {q}
    case Trim => {}
  }

  /** The allocator's blocks are those of the ledger, and each has the room asked for. */
  ghost predicate Agrees(s: Snap, l: Ledger) {
    && (forall p :: Owned(s, p) <==> p in l)
    && (forall p :: p in l ==> p in s.chunks && Usable(s.chunks[p]) >= l[p])
  }

  // ---------- one call ----------

  /** A call names every block that it changes. */
  lemma EffectNames(s: Snap, s': Snap, c: Call)
    requires Effect(s, s', c)
    ensures SameBlocks(s, s', Names(c))
  {
    hide NewBlock, Freed, Moved, SameBlocks;
    match c
    case Malloc(bytes, p) => if p == 0 { BlocksRefl(s, {p}); } else { NewBlockOthers(s, s', p, bytes); }
    case Free(q, gone) => if gone { FreedOthers(s, s', q); } else { BlocksRefl(s, {q}); }
    case Realloc(q, bytes, p, gone) =>
      if p == 0 { BlocksRefl(s, {q, p}); }
      else if q == 0 { NewBlockOthers(s, s', p, bytes); BlocksMore(s, s', {p}, {q, p}); }
      else { MovedOthers(s, s', q, p, bytes); }
    case Memalign(alignment, bytes, p) => if p == 0 { BlocksRefl(s, {p}); } else { NewBlockOthers(s, s', p, bytes); }
    case Store(p) =>
    case Trim =>
  }

  lemma BlocksMore(s: Snap, s': Snap, b: set<int>, b': set<int>)
    requires SameBlocks(s, s', b) && b <= b'
    ensures SameBlocks(s, s', b')
  {
  }

  lemma NewBlockOthers(s: Snap, s': Snap, p: int, bytes: int)
    requires NewBlock(s, s', p, bytes)
    ensures SameBlocks(s, s', {p}) && !Owned(s, p) && Owned(s', p) && p in s'.chunks && Usable(s'.chunks[p]) >= bytes && p > 0
  {
    hide SameBlocks;
  }

  lemma FreedOthers(s: Snap, s': Snap, q: int)
    requires Freed(s, s', q)
    ensures SameBlocks(s, s', {q}) && !Owned(s', q)
  {
    hide SameBlocks;
  }

  lemma MovedOthers(s: Snap, s': Snap, q: int, p: int, bytes: int)
    requires Moved(s, s', q, p, bytes)
    ensures SameBlocks(s, s', {q, p}) && Owned(s, q) && Owned(s', p) && p in s'.chunks && Usable(s'.chunks[p]) >= bytes
    ensures p != q && Owned(s', q) ==> q in s.chunks && q in s'.chunks && s'.chunks[q] == s.chunks[q]
  {
    hide SameBlocks, Copied;
  }

  /** A block that is not named keeps its place in the ledger. */
  lemma OtherAgrees(s: Snap, s': Snap, but: set<int>, l: Ledger, p: int)
    requires SameBlocks(s, s', but) && Agrees(s, l) && p !in but
    ensures Owned(s', p) <==> p in l
    ensures p in l ==> p in s'.chunks && Usable(s'.chunks[p]) >= l[p]
  {
    assert SameBlockAt(s, s', p);
    hide SamePayload;
  }

  /** A call keeps ledger and blocks in agreement. */
  lemma StepAgrees(s: Snap, s': Snap, c: Call, l: Ledger)
    requires Effect(s, s', c) && Agrees(s, l)
    ensures Agrees(s', After(l, c))
  {
    hide NewBlock, Freed, Moved, SameBlocks, Owned;
    EffectNames(s, s', c);
    var l' := After(l, c);
    forall p ensures (Owned(s', p) <==> p in l') && (p in l' ==> p in s'.chunks && Usable(s'.chunks[p]) >= l'[p]) {
      if p !in Names(c) {
        OtherAgrees(s, s', Names(c), l, p);
      } else {
        NamedAgrees(s, s', c, l, p);
      }
    }
  }

  lemma NamedAgrees(s: Snap, s': Snap, c: Call, l: Ledger, x: int)
    requires Effect(s, s', c) && Agrees(s, l) && x in Names(c)
    ensures var l' := After(l, c); (Owned(s', x) <==> x in l') && (x in l' ==> x in s'.chunks && Usable(s'.chunks[x]) >= l'[x])
  {
    hide NewBlock, Freed, Moved, SameBlocks, Owned, Aligned;
    match c
    case Malloc(bytes, p) => if p != 0 { NewBlockOthers(s, s', p, bytes); }
    case Free(q, gone) => if gone { FreedOthers(s, s', q); }
    case Realloc(q, bytes, p, gone) =>
      if p != 0 {
        if q == 0 {
          NewBlockOthers(s, s', p, bytes);
          if x == 0 { OtherAgrees(s, s', {p}, l, x); }
        } else {
          MovedOthers(s, s', q, p, bytes);
        }
      }
    case Memalign(alignment, bytes, p) => if p != 0 { NewBlockOthers(s, s', p, bytes); }
    case Store(p) => StoreAgrees(s, s', p, l);
    case Trim =>
  }

  lemma StoreAgrees(s: Snap, s': Snap, p: int, l: Ledger)
    requires Owned(s, p) && s'.chunks == s.chunks && Agrees(s, l)
    ensures Owned(s', p) && p in l && Usable(s'.chunks[p]) >= l[p]
  {
  }

  // ---------- whole runs ----------

  /** Snapshots and books between the calls, from the zeroed record on. */
  datatype World = World(s: Snap, y: Sys)

  ghost predicate Run(gm: int, unit: int, run: seq<World>, calls: seq<Call>) {
    && gm > 0 && |run| == |calls| + 1
    && run[0].s == NothingYet(run[0].s.mem) && Zeroed(gm, run[0].s.mem) && run[0].y == Sys(0, 0, false, 0, [], [], 0, 0, false)
    && forall i {:trigger calls[i]} :: 0 <= i < |calls| ==>
         Step(gm, unit, run[i].s, run[i + 1].s, run[i + 1].y, calls[i])
  }

  /** The ledger after the first n calls. */
  function LedgerOf(calls: seq<Call>, n: nat): Ledger
    requires n <= |calls|
  {
    if n == 0 then map[] else After(LedgerOf(calls, n - 1), calls[n - 1])
  }

  /** After every call of every run, the invariant holds, and the blocks are those of the ledger. */
  lemma {:induction false} RunOk(gm: int, unit: int, run: seq<World>, calls: seq<Call>, n: nat)
    requires Run(gm, unit, run, calls) && n <= |calls|
    ensures n < |run| && SysOk(gm, unit, run[n].s, run[n].y) && Agrees(run[n].s, LedgerOf(calls, n))
  {
    hide SysOk, Agrees, Effect;
    if n == 0 {
      StartOk(gm, unit, run[0].s.mem);
      StartAgrees(run[0].s.mem);
    } else {
      RunOk(gm, unit, run, calls, n - 1);
      assert Step(gm, unit, run[n - 1].s, run[n - 1 + 1].s, run[n - 1 + 1].y, calls[n - 1]);
      StepAgrees(run[n - 1].s, run[n].s, calls[n - 1], LedgerOf(calls, n - 1));
    }
  }

  lemma StartAgrees(m: Mem)
    ensures Agrees(NothingYet(m), map[])
  {
  }

  /**
   * The allocator refines the ledger: at any moment of any run, the blocks that were handed out and
   * not taken back have the bytes asked for, start at multiples of 16, and do not overlap.
   */
  lemma LiveBlocks(gm: int, unit: int, run: seq<World>, calls: seq<Call>, n: nat, p: int, q: int)
    requires Run(gm, unit, run, calls) && n <= |calls|
    requires var l := LedgerOf(calls, n); p in l && q in l && p != q
    ensures var l := LedgerOf(calls, n); p + 16 + l[p] <= q + 16 || q + 16 + l[q] <= p + 16
    ensures (p + 16) % 16 == 0 && (q + 16) % 16 == 0
  {
    hide SysOk, Run;
    RunOk(gm, unit, run, calls, n);
    BlocksDisjoint(gm, unit, run[n].s, run[n].y, p, q);
  }

  /** Between the calls number i and j, none of which names q, block q is the same, byte for byte. */
  lemma {:induction false} ContentsKept(gm: int, unit: int, run: seq<World>, calls: seq<Call>, i: nat, j: nat, q: int)
    requires Run(gm, unit, run, calls) && i <= j <= |calls|
    requires forall k :: i <= k < j ==> q !in Names(calls[k])
    ensures SameBlockAt(run[i].s, run[j].s, q)
    decreases j
  {
    hide SysOk, Effect, SameBlocks, SameBlockAt;
    if i == j {
      SameBlockRefl(run[i].s, q);
    } else {
      ContentsKept(gm, unit, run, calls, i, j - 1, q);
      assert Step(gm, unit, run[j - 1].s, run[j - 1 + 1].s, run[j - 1 + 1].y, calls[j - 1]);
      EffectNames(run[j - 1].s, run[j].s, calls[j - 1]);
      SameBlockStep(run[i].s, run[j - 1].s, run[j].s, Names(calls[j - 1]), q);
    }
  }

  lemma SameBlockRefl(s: Snap, q: int)
    ensures SameBlockAt(s, s, q)
  {
  }

  lemma SameBlockStep(s: Snap, s1: Snap, s2: Snap, but: set<int>, q: int)
    requires SameBlockAt(s, s1, q) && SameBlocks(s1, s2, but) && q !in but
    ensures SameBlockAt(s, s2, q)
  {
    assert SameBlockAt(s1, s2, q);
  }
}
