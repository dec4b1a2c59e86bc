/** memcpy and memset of the C library: word and block copies that stand for the byte loop. */
module Copying {
  import opened Words

  const SSE_THRESHOLD: int := 524288

  // ---------- what the standard says ----------

  /** m' is m with the n bytes at s2 copied to s1. */
  ghost predicate CopyOf(m: Mem, m': Mem, s1: int, s2: int, n: int) {
    forall a {:trigger Rd(m', a)} :: Rd(m', a) == if s1 <= a < s1 + n then Rd(m, a - s1 + s2) else Rd(m, a)
  }

  /** The objects do not overlap: what restrict promises. */
  predicate Restrict(s1: int, s2: int, n: int) {
    s1 + n <= s2 || s2 + n <= s1
  }

  /** The byte loop. */
  function ByteLoop(m: Mem, s1: int, s2: int, n: nat): Mem {
    if n == 0 then m else ByteLoop(m, s1, s2, n - 1)[s1 + n - 1 := Rd(ByteLoop(m, s1, s2, n - 1), s2 + n - 1)]
  }

  lemma WriteOne(m: Mem, k: int, v: int)
    ensures forall a {:trigger Rd(m[k := v], a)} :: Rd(m[k := v], a) == if a == k then v else Rd(m, a)
  {
  }

  /** The byte loop does what the standard says. */
  lemma {:induction false} ByteLoopCopies(m: Mem, s1: int, s2: int, n: nat)
    requires Restrict(s1, s2, n)
    ensures CopyOf(m, ByteLoop(m, s1, s2, n), s1, s2, n)
  {
    if n > 0 {
      ByteLoopCopies(m, s1, s2, n - 1);
      WriteOne(ByteLoop(m, s1, s2, n - 1), s1 + n - 1, Rd(ByteLoop(m, s1, s2, n - 1), s2 + n - 1));
    }
  }

  /** One loop after another is one longer loop. */
  lemma {:induction false} LoopThen(m: Mem, s1: int, s2: int, j: nat, k: nat)
    ensures ByteLoop(ByteLoop(m, s1, s2, j), s1 + j, s2 + j, k) == ByteLoop(m, s1, s2, j + k)
  {
    if k > 0 {
      LoopThen(m, s1, s2, j, k - 1);
    }
  }

  /** The loop writes its first bytes, and nothing else. */
  lemma {:induction false} LoopLeaves(m: Mem, s1: int, s2: int, n: nat, a: int)
    ensures a < s1 || a >= s1 + n ==> Rd(ByteLoop(m, s1, s2, n), a) == Rd(m, a)
  {
    if n > 0 {
      LoopLeaves(m, s1, s2, n - 1, a);
    }
  }

  /** What a longer loop leaves at place j is what it writes there. */
  lemma {:induction false} LoopAt(m: Mem, s1: int, s2: int, n: nat, j: nat)
    requires j < n
    ensures Rd(ByteLoop(m, s1, s2, n), s1 + j) == Rd(ByteLoop(m, s1, s2, j), s2 + j)
  {
    if j < n - 1 {
      LoopAt(m, s1, s2, n - 1, j);
    }
  }

  /**
   * m' is m after a copy that runs past the object by extra bytes: the object has what it should
   * have, nothing else changes but the bytes right behind it, and these hold what comes behind the
   * source, in the state in which the copy has left it by then.
   */
  ghost predicate Overrun(m: Mem, m': Mem, s1: int, s2: int, n: nat, extra: nat) {
    && (forall a {:trigger Rd(m', a)} :: s1 <= a < s1 + n ==> Rd(m', a) == Rd(m, a - s1 + s2))
    && (forall a {:trigger Rd(m', a)} :: a < s1 || s1 + n + extra <= a ==> Rd(m', a) == Rd(m, a))
    && (forall a {:trigger Rd(m', a)} :: s1 + n <= a < s1 + n + extra ==>
          Rd(m', a) == if s1 <= a - s1 + s2 < a then Rd(m', a - s1 + s2) else Rd(m, a - s1 + s2))
  }

  lemma LongerLoop(m: Mem, s1: int, s2: int, n: nat, extra: nat)
    requires Restrict(s1, s2, n)
    ensures Overrun(m, ByteLoop(m, s1, s2, n + extra), s1, s2, n, extra)
  {
    hide ByteLoop;
    var N := n + extra;
    forall a | a < s1 || s1 + N <= a ensures Rd(ByteLoop(m, s1, s2, N), a) == Rd(m, a) {
      LoopLeaves(m, s1, s2, N, a);
    }
    forall a | s1 <= a < s1 + N
      ensures var b := a - s1 + s2;
        Rd(ByteLoop(m, s1, s2, N), a) == if s1 <= b < a then Rd(ByteLoop(m, s1, s2, N), b) else Rd(m, b)
    {
      var j, b := a - s1, a - s1 + s2;
      LoopAt(m, s1, s2, N, j);
      LoopLeaves(m, s1, s2, j, b);
      if s1 <= b < a {
        LoopAt(m, s1, s2, N, b - s1);
        LoopAt(m, s1, s2, j, b - s1);
      }
    }
  }

  // ---------- the code ----------

  class Memory {
    var mem: Mem

    /** Single bytes, as in the arms of the switch statements that fall through. */
    method MoveBytes(p1: int, p2: int, n: nat)
      modifies this
      ensures mem == ByteLoop(old(mem), p1, p2, n)
    {
      var i := 0;
      while i < n
        invariant 0 <= i <= n && mem == ByteLoop(old(mem), p1, p2, i)
      {
        mem := mem[p1 + i := Rd(mem, p2 + i)];
        i := i + 1;
      }
    }

    /** One move of a block of size bytes: all of it is read before any of it is written. */
    method MoveBlock(p1: int, p2: int, size: nat)
      requires Restrict(p1, p2, size)
      modifies this
      ensures mem == ByteLoop(old(mem), p1, p2, size)
    {
      var m := mem;
      var i := 0;
      while i < size
        invariant 0 <= i <= size && mem == ByteLoop(m, p1, p2, i)
      {
        LoopLeaves(m, p1, p2, i, p2 + i);
        mem := mem[p1 + i := Rd(m, p2 + i)];
        i := i + 1;
      }
    }

    /** Blocks of size bytes: rep movsq for 8, and for 128 the loop around the SSE moves. */
    method MoveBlocks(p1: int, p2: int, size: nat, blocks: nat)
      requires Restrict(p1, p2, size)
      modifies this
      ensures mem == ByteLoop(old(mem), p1, p2, size * blocks)
    {
      hide ByteLoop;
      ghost var m := mem;
      LoopNothing(m, p1, p2);
      var q1, q2, i := p1, p2, blocks;
      ghost var done := 0;
      while i > 0
        invariant 0 <= i <= blocks && done == blocks - i && q1 == p1 + size * done && q2 == p2 + size * done
        invariant mem == ByteLoop(m, p1, p2, size * done)
      {
        MoveBlock(q1, q2, size);
        NextBlock(size, done);
        LoopThen(m, p1, p2, size * done, size);
        q1 := q1 + size;
        q2 := q2 + size;
        i := i - 1;
        done := done + 1;
      }
    }

    /** sse2_aligned_memcpy, which needs both addresses aligned. */
    method Sse2Aligned(p1: int, p2: int, n: nat)
      requires p1 % 16 == 0 && p2 % 16 == 0 && Restrict(p1, p2, 128)
      modifies this
      ensures mem == ByteLoop(old(mem), p1, p2, n - n % 128)
    {
      hide ByteLoop;
      WholeBlocks(n, 128);
      MoveBlocks(p1, p2, 128, n / 128);
    }

    /** sse2_src_unaligned_memcpy, which needs an aligned destination. */
    method Sse2SrcUnaligned(p1: int, p2: int, n: nat)
      requires p1 % 16 == 0 && Restrict(p1, p2, 128)
      modifies this
      ensures mem == ByteLoop(old(mem), p1, p2, n - n % 128)
    {
      hide ByteLoop;
      WholeBlocks(n, 128);
      MoveBlocks(p1, p2, 128, n / 128);
    }

    /**
     * memcpy copies n bytes, except for a large copy to an unaligned destination: there the bytes
     * that align the destination are not counted, and it is the byte loop for as many bytes more.
     */
    method Memcpy(s1: int, s2: int, n: nat)
      requires Restrict(s1, s2, n)
      modifies this
      ensures mem == ByteLoop(old(mem), s1, s2, Reach(s1, n))
      ensures n <= 0x8_0000 || s1 % 16 == 0 ==> CopyOf(old(mem), mem, s1, s2, n)
      ensures n > 0x8_0000 && s1 % 16 != 0 ==> Overrun(old(mem), mem, s1, s2, n, 16 - s1 % 16)
      decreases n
    {
      hide ByteLoop, CopyOf, Overrun;
      ghost var m := mem;
      LoopNothing(m, s1, s2);
      ByteLoopCopies(m, s1, s2, n);
      LongerLoop(m, s1, s2, n, Reach(s1, n) - n);
      if n == 0 {
        return;
      }
      if n > SSE_THRESHOLD {
        var count := n - n % 128;
        Shorter(n, count);
        var p1, p2 := MemcpyLarge(s1, s2, n);
        ghost var head := p1 - s1;
        p1 := p1 + count;
        p2 := p2 + count;
        if n != count {
          Memcpy(p1, p2, n - count);
          LoopThen(m, s1, s2, head + count, n - count);
        }
      } else {
        MemcpyShort(s1, s2, n);
      }
    }

    /** Align the destination, and transfer in 128 byte blocks. */
    method MemcpyLarge(s1: int, s2: int, n: nat) returns (p1: int, p2: int)
      requires Restrict(s1, s2, n) && n > SSE_THRESHOLD
      modifies this
      ensures p1 >= s1 && p2 - s2 == p1 - s1 && p1 - s1 + n == Reach(s1, n)
      ensures n >= n % 128 && mem == ByteLoop(old(mem), s1, s2, p1 - s1 + (n - n % 128))
    {
      hide ByteLoop;
      ghost var m := mem;
      p1, p2 := s1, s2;
      WholeBlocks(n, 128);
      LoopNothing(m, s1, s2);
      if p1 % 16 == 0 && p2 % 16 == 0 {
        Sse2Aligned(p1, p2, n);
      } else {
        var distance := 16 - p1 % 16;
        if distance <= 15 {
          AlignedBehind(p1, 16);
          MoveBytes(p1, p2, distance);
          p1, p2 := p1 + distance, p2 + distance;
        }
        Sse2SrcUnaligned(p1, p2, n);
        LoopThen(m, s1, s2, p1 - s1, n - n % 128);
      }
    }

    /** The part of memcpy for lengths up to the threshold. */
    method MemcpyShort(s1: int, s2: int, n0: nat)
      requires Restrict(s1, s2, n0)
      modifies this
      ensures mem == ByteLoop(old(mem), s1, s2, n0)
    {
      hide ByteLoop;
      ghost var m := mem;
      var p1, p2, n := s1, s2, n0;
      if n < 8 {
        MoveBytes(p1, p2, n);
        return;
      }
      var offset := (8 - p1 % 8) % 8;
      MoveBytes(p1, p2, offset);
      p1, p2, n := p1 + offset, p2 + offset, n - offset;
      var blocks := n / 8;
      WholeBlocks(n, 8);
      MoveBlocks(p1, p2, 8, blocks);
      LoopThen(m, s1, s2, offset, 8 * blocks);
      p1, p2 := p1 + 8 * blocks, p2 + 8 * blocks;
      var tail := n % 8;
      MoveBytes(p1, p2, tail);
      LoopThen(m, s1, s2, offset + 8 * blocks, tail);
    }

    /** memset: single bytes up to a natural boundary, whole words, and the rest. */
    method Memset(s: int, c: int, n0: nat)
      requires -0x8000_0000 <= c < 0x8000_0000
      modifies this
      ensures FilledBy(old(mem), mem, s, c, n0)
      ensures 0 <= c <= 255 || n0 < 8 ==> Fill(old(mem), mem, s, n0, a => c % 256)
    {
      hide FilledBy, WordByte;
      ghost var m := mem;
      MemsetRightExactly(s, c, n0);
      FewBytes(s, n0);
      var p1, n := s, n0;
      var align := 8 - p1 % 8;
      if align > n {
        align := n;
      }
      if align <= 7 {
        FillBytes(p1, c, align);
        p1, n := p1 + align, n - align;
      }
      ghost var m1, head := mem, if align <= 7 then align else 0;
      if n == 0 {
        FillEnd(m, m1, m1, mem, s, c, head, 0, n0);
        return;
      }
      var blocks := n / 8;
      FillWords(p1, c, blocks);
      ghost var m2 := mem;
      p1 := p1 + 8 * blocks;
      FillBytes(p1, c, n % 8);
      FillEnd(m, m1, m2, mem, s, c, head, blocks, n0);
    }

    method FillBytes(p: int, c: int, n: nat)
      modifies this
      ensures Fill(old(mem), mem, p, n, a => c % 256)
    {
      ghost var m := mem;
      var i := 0;
      while i < n
        invariant 0 <= i <= n && Fill(m, mem, p, i, a => c % 256)
      {
        mem := mem[p + i := c % 256];
        i := i + 1;
      }
    }

    /** rep stosq with c in every byte of the word, as far as a multiplication brings it there. */
    method FillWords(p: int, c: int, blocks: nat)
      modifies this
      ensures Fill(old(mem), mem, p, 8 * blocks, a => WordByte(c, (a - p) % 8))
    {
      hide WordByte;
      ghost var m := mem;
      var i := 0;
      while i < 8 * blocks
        invariant 0 <= i <= 8 * blocks && Fill(m, mem, p, i, a => WordByte(c, (a - p) % 8))
      {
        mem := mem[p + i := WordByte(c, i % 8)];
        i := i + 1;
      }
    }
  }

  /** How many bytes memcpy copies. */
  function Reach(s1: int, n: nat): nat {
    if n > SSE_THRESHOLD && s1 % 16 != 0 then n + (16 - s1 % 16) else n
  }

  lemma LoopNothing(m: Mem, p1: int, p2: int)
    ensures ByteLoop(m, p1, p2, 0) == m
  {
  }

  lemma NextBlock(size: nat, done: nat)
    ensures size * (done + 1) == size * done + size && size * done >= 0
  {
  }

  lemma WholeBlocks(n: nat, size: nat)
    requires size == 8 || size == 128
    ensures size * (n / size) == n - n % size && n >= n % size
  {
  }

  lemma AlignedBehind(p: int, a: int)
    requires a == 16
    ensures (p + (a - p % a)) % a == 0
  {
  }

  lemma Shorter(n: nat, count: int)
    requires n > SSE_THRESHOLD && count == n - n % 128
    ensures 0 < count <= n && forall p {:trigger Reach(p, n - count)} :: Reach(p, n - count) == n - count
  {
  }

  // ---------- exactly when memcpy is right ----------

  ghost predicate SameBytes(m: Mem, m': Mem) {
    forall a :: Rd(m', a) == Rd(m, a)
  }

  /** Contents of memory that show a byte too many. */
  ghost function Telling(s1: int, s2: int, n: nat): Mem {
    if s2 + n == s1 then map[s2 := 1] else map[s2 + n := 1]
  }

  /**
   * memcpy is the byte loop, whatever memory holds, exactly for lengths up to the threshold and for
   * 16-byte-aligned destinations.
   */
  lemma RightExactly(s1: int, s2: int, n: nat)
    requires Restrict(s1, s2, n)
    ensures (forall m {:trigger ByteLoop(m, s1, s2, n)} :: SameBytes(ByteLoop(m, s1, s2, n), ByteLoop(m, s1, s2, Reach(s1, n))))
      <==> (n <= 0x8_0000 || s1 % 16 == 0)
  {
    hide ByteLoop;
    if n > SSE_THRESHOLD && s1 % 16 != 0 {
      var m := Telling(s1, s2, n);
      LoopAt(m, s1, s2, Reach(s1, n), n);
      LoopLeaves(m, s1, s2, n, s1 + n);
      if s2 + n == s1 {
        LoopAt(m, s1, s2, n, 0);
        LoopNothing(m, s1, s2);
      } else {
        LoopLeaves(m, s1, s2, n, s2 + n);
      }
      assert Rd(ByteLoop(m, s1, s2, Reach(s1, n)), s1 + n) == 1;
      assert Rd(ByteLoop(m, s1, s2, n), s1 + n) == 0;
    }
  }

  // ---------- memset ----------

  /** m' is m with n bytes at s replaced by what f says. */
  ghost predicate Fill(m: Mem, m': Mem, s: int, n: int, f: int -> int) {
    forall a :: Rd(m', a) == if s <= a < s + n then f(a) else Rd(m, a)
  }

  const ONES: int := 0x0101_0101_0101_0101

  /** Byte k of a word, from the low end. */
  function ByteOf(w: nat, k: nat): nat {
    if k == 0 then w % 256 else ByteOf(w / 256, k - 1)
  }

  /** Byte k of val * 0x0101010101010101, for val the size_t that c is converted to. */
  function WordByte(c: int, k: nat): int {
    ByteOf(c % SIZE_T_MOD * ONES % SIZE_T_MOD, k)
  }

  /** Where the whole words start and end. */
  function WordsFrom(s: int, n: nat): int {
    var align := 8 - s % 8;
    if align > n then s + n else if align <= 7 then s + align else s
  }

  function WordsTo(s: int, n: nat): int {
    WordsFrom(s, n) + (s + n - WordsFrom(s, n)) / 8 * 8
  }

  /** What memset does: its words hold what the multiplication makes of c. */
  ghost predicate FilledBy(m: Mem, m': Mem, s: int, c: int, n: nat) {
    forall a :: Rd(m', a) ==
      if WordsFrom(s, n) <= a < WordsTo(s, n) then WordByte(c, (a - WordsFrom(s, n)) % 8)
      else if s <= a < s + n then c % 256
      else Rd(m, a)
  }

  lemma FillEnd(m: Mem, m1: Mem, m2: Mem, m3: Mem, s: int, c: int, head: nat, blocks: nat, n: nat)
    requires head == WordsFrom(s, n) - s && blocks == (n - head) / 8 && head <= n
    requires Fill(m, m1, s, head, a => c % 256)
    requires Fill(m1, m2, s + head, 8 * blocks, a => WordByte(c, (a - (s + head)) % 8))
    requires Fill(m2, m3, s + head + 8 * blocks, (n - head) % 8, a => c % 256)
    ensures FilledBy(m, m3, s, c, n)
  {
    hide WordByte;
  }

  /** n bytes with the value 1. */
  function Ones(n: nat): nat {
    if n == 0 then 0 else 256 * Ones(n - 1) + 1
  }

  function Power256(n: nat): nat {
    if n == 0 then 1 else 256 * Power256(n - 1)
  }

  lemma EightOnes()
    ensures Ones(8) == ONES && Power256(8) == SIZE_T_MOD
  {
    assert Ones(4) == 0x0101_0101 && Power256(4) == 0x1_0000_0000 by { assert Ones(2) == 0x0101 && Power256(2) == 0x1_0000; }
    assert Ones(6) == 0x0101_0101_0101 && Power256(6) == 0x1_0000_0000_0000;
  }

  /** The multiplication puts a byte into every byte of the word. */
  lemma {:induction false} BytesOf(c: nat, n: nat, k: nat)
    requires c < 256 && k < n
    ensures ByteOf(c * Ones(n), k) == c
  {
    var w := c * Ones(n - 1);
    assert c * Ones(n) == 256 * w + c;
    LowByte(w, c);
    if k > 0 { BytesOf(c, n - 1, k - 1); }
  }

  lemma LowByte(w: nat, b: nat)
    requires b < 256
    ensures (256 * w + b) % 256 == b && (256 * w + b) / 256 == w
  {
  }

  /** A word whose bytes are all b. */
  lemma {:induction false} AllBytes(w: nat, b: nat, n: nat)
    requires w < Power256(n) && forall k: nat :: k < n ==> ByteOf(w, k) == b
    ensures w == b * Ones(n)
  {
    if n > 0 {
      var q := w / 256;
      forall k: nat | k < n - 1 ensures ByteOf(q, k) == b {
        assert ByteOf(w, k + 1) == b;
      }
      AllBytes(q, b, n - 1);
      assert ByteOf(w, 0) == b;
      assert w == 256 * q + b;
      assert b * Ones(n) == 256 * (b * Ones(n - 1)) + b;
    }
  }

  /** If the word is right, c was a byte. */
  lemma WordRight(c: int)
    requires -0x8000_0000 <= c < 0x8000_0000 && forall k: nat :: k < 8 ==> WordByte(c, k) == c % 256
    ensures 0 <= c < 256
  {
    hide Ones, Power256, ByteOf;
    var v, b := c % SIZE_T_MOD, c % 256;
    var w := v * ONES % SIZE_T_MOD;
    EightOnes();
    forall k: nat | k < 8 ensures ByteOf(w, k) == b {
      assert WordByte(c, k) == b;
    }
    AllBytes(w, b, 8);
    Cancel(v, b, v * ONES / SIZE_T_MOD);
  }

  lemma Cancel(v: int, b: int, j: int)
    requires 0 <= v < SIZE_T_MOD && 0 <= b < 256 && v * ONES == j * SIZE_T_MOD + b * ONES
    ensures v == b
  {
    assert (v - b) * 255 * ONES == 255 * j * SIZE_T_MOD;
    assert v - b == SIZE_T_MOD * (v - b - 255 * j);
  }

  /** The byte that memset leaves at a. */
  function ByteAfter(s: int, c: int, n: nat, a: int): int {
    if WordsFrom(s, n) <= a < WordsTo(s, n) then WordByte(c, (a - WordsFrom(s, n)) % 8) else c % 256
  }

  /** A memory after memset. */
  ghost function AfterMemset(s: int, c: int, n: nat): Mem {
    map a {:trigger ByteAfter(s, c, n, a)} | s <= a < s + n :: ByteAfter(s, c, n, a)
  }

  lemma ByteIsRight(c: int, k: nat)
    requires 0 <= c < 256 && k < 8
    ensures WordByte(c, k) == c
  {
    hide Ones, ByteOf;
    EightOnes();
    BytesOf(c, 8, k);
  }

  /** memset fills with the byte c exactly if c is one, or no whole word is written. */
  lemma MemsetRightExactly(s: int, c: int, n: nat)
    requires -0x8000_0000 <= c < 0x8000_0000
    ensures (forall m, m' :: FilledBy(m, m', s, c, n) ==> Fill(m, m', s, n, a => c % 256))
      <==> (0 <= c <= 255 || WordsFrom(s, n) == WordsTo(s, n))
  {
    hide WordByte, WordsFrom, WordsTo;
    WordsWithin(s, n);
    if 0 <= c <= 255 {
      forall k: nat | k < 8 ensures WordByte(c, k) == c % 256 {
        ByteIsRight(c, k);
      }
    } else if WordsFrom(s, n) != WordsTo(s, n) {
      var k := WrongByte(c);
      var a := WordsFrom(s, n) + k;
      var m: Mem := map[];
      assert FilledBy(m, AfterMemset(s, c, n), s, c, n);
      assert Rd(AfterMemset(s, c, n), a) == ByteAfter(s, c, n, a) == WordByte(c, k);
    }
  }

  lemma FewBytes(s: int, n: nat)
    ensures n < 8 ==> WordsFrom(s, n) == WordsTo(s, n)
  {
  }

  lemma WordsWithin(s: int, n: nat)
    ensures s <= WordsFrom(s, n) <= WordsTo(s, n) <= s + n
    ensures WordsFrom(s, n) != WordsTo(s, n) ==> WordsTo(s, n) >= WordsFrom(s, n) + 8
  {
  }

  lemma WrongByte(c: int) returns (k: nat)
    requires -0x8000_0000 <= c < 0x8000_0000 && !(0 <= c <= 255)
    ensures k < 8 && WordByte(c, k) != c % 256
  {
    hide WordByte;
    if forall k: nat :: k < 8 ==> WordByte(c, k) == c % 256 {
      WordRight(c);
      assert false;
    }
    k :| k < 8 && WordByte(c, k) != c % 256;
  }
}
