/** Bin index arithmetic: request padding, small bins, and the tree index of a size. */
module BinIndex {
  import opened Words

  const MIN_CHUNK_SIZE: int := 32
  const CHUNK_OVERHEAD: int := 8
  const MIN_REQUEST: int := 23
  const MAX_REQUEST: int := SIZE_T_MOD - 128
  const MAX_SMALL_REQUEST: int := 232
  const MIN_LARGE_SIZE: int := 256
  const NTREEBINS: int := 32

  /** (req + CHUNK_OVERHEAD + CHUNK_ALIGN_MASK) & ~CHUNK_ALIGN_MASK, for requests that do not wrap. */
  function PadRequest(req: int): (nb: int)
    requires 0 <= req < MAX_REQUEST
    ensures nb % 16 == 0
    ensures req + CHUNK_OVERHEAD <= nb < req + CHUNK_OVERHEAD + 16
  {
    (req + CHUNK_OVERHEAD + 15) / 16 * 16
  }

  function RequestToSize(req: int): (nb: int)
    requires 0 <= req < MAX_REQUEST
    ensures nb % 16 == 0 && MIN_CHUNK_SIZE <= nb
    ensures req + CHUNK_OVERHEAD <= nb <= req + MIN_CHUNK_SIZE
  {
    if req < MIN_REQUEST then MIN_CHUNK_SIZE else PadRequest(req)
  }

  predicate IsSmall(s: int) {
    s / 8 < 32
  }

  function SmallIndex(s: int): int {
    s / 8
  }

  /** The 32-bit variable X of compute_tree_index: the shifted size, truncated to unsigned int. */
  function IndexKey(s: nat): nat {
    s / 256 % 0x1_0000_0000
  }

  /** compute_tree_index, in the form the build selects. */
  function TreeIndex(s: nat): (i: nat)
    ensures i < NTREEBINS
  {
    var x := IndexKey(s);
    if x == 0 then 0
    else if x > 0xFFFF then NTREEBINS - 1
    else
      var k := Log2(x);
      assert k <= 15 by {
        if k > 15 { Pow2Monotonic(16, k); Pow2Values(); }
      }
      2 * k + Shr(s, k + 7) % 2
  }

  /** minsize_for_tree_index. */
  function MinSize(i: nat): nat {
    Pow2(i / 2 + 8) + i % 2 * Pow2(i / 2 + 7)
  }

  /** The number of size bits a bin leaves undecided; its sizes span 2^BinBits(i). */
  function BinBits(i: nat): nat
    requires i < NTREEBINS
  {
    if i == NTREEBINS - 1 then 64 else i / 2 + 7
  }

  /** The start of the range of sizes that the trie of bin i splits bit by bit. */
  function BinLow(i: nat): nat
    requires i < NTREEBINS
  {
    if i == NTREEBINS - 1 then 0 else MinSize(i)
  }

  /** leftshift_for_tree_index. */
  function LeftShift(i: nat): (sh: nat)
    requires i < NTREEBINS
    ensures sh + BinBits(i) == 64
  {
    if i == NTREEBINS - 1 then 0 else 63 - (i / 2 + 6)
  }

  lemma MinSizeStep(i: nat)
    ensures MinSize(i + 1) == MinSize(i) + Pow2(i / 2 + 7)
  {
    if i % 2 == 0 {
      assert (i + 1) / 2 == i / 2;
    } else {
      assert (i + 1) / 2 == i / 2 + 1;
      assert Pow2(i / 2 + 9) == 2 * Pow2(i / 2 + 8) == 4 * Pow2(i / 2 + 7);
    }
  }

  lemma {:induction false} MinSizeMonotonic(i: nat, j: nat)
    requires i <= j
    ensures MinSize(i) <= MinSize(j)
    decreases j - i
  {
    if i < j {
      MinSizeStep(i);
      MinSizeMonotonic(i + 1, j);
    }
  }

  /** What the debug checks ask of a binned size: it lies in the half-open range of its bin. */
  predicate FitsBin(s: nat, i: nat) {
    MinSize(i) <= s && (i == NTREEBINS - 1 || s < MinSize(i + 1))
  }

  lemma IndexOfRange(s: nat, k: nat, h: nat)
    requires h <= 1 && k <= 15
    requires Pow2(k + 8) + h * Pow2(k + 7) <= s < Pow2(k + 8) + (h + 1) * Pow2(k + 7)
    ensures IndexKey(s) == s / 256 && Pow2(k) <= s / 256 < 2 * Pow2(k)
    ensures Shr(s, k + 7) % 2 == h
  {
    hide *;
    assert Pow2(k + 8) == 2 * Pow2(k + 7) by { Pow2Step(k + 7); }
    KeyOfRange(s, k);
    ShrUnique(s, k + 7, 2 + h);
  }

  lemma Pow2Step(k: nat)
    ensures Pow2(k + 1) == 2 * Pow2(k)
  {
  }

  lemma KeyOfRange(s: nat, k: nat)
    requires k <= 15
    requires Pow2(k + 8) <= s < 2 * Pow2(k + 8)
    ensures IndexKey(s) == s / 256 && Pow2(k) <= s / 256 < 2 * Pow2(k)
  {
    Pow2Times256(k);
    assert s < 0x1_0000_0000 by {
      Pow2Monotonic(k, 15);
      Pow2Values();
      assert Pow2(16) == 2 * Pow2(15);
    }
  }

  lemma Pow2Times256(k: nat)
    ensures Pow2(k + 8) == 256 * Pow2(k)
  {
    assert Pow2(k + 8) == 2 * Pow2(k + 7) == 4 * Pow2(k + 6);
    assert Pow2(k + 6) == 2 * Pow2(k + 5) == 4 * Pow2(k + 4);
    assert Pow2(k + 4) == 2 * Pow2(k + 3) == 4 * Pow2(k + 2);
    assert Pow2(k + 2) == 2 * Pow2(k + 1) == 4 * Pow2(k);
  }

  /** Every bin below the last holds exactly its range. */
  lemma IndexIsBin(s: nat, i: nat)
    requires i < NTREEBINS - 1
    requires MinSize(i) <= s < MinSize(i + 1)
    ensures TreeIndex(s) == i
  {
    hide IndexKey, Shr, Pow2, Log2, MinSize;
    BinRange(i);
    var k := i / 2;
    IndexOfRange(s, k, i % 2);
    Log2Unique(s / 256, k);
    KeyIsShort(s / 256, k);
  }

  lemma BinRange(i: nat)
    ensures MinSize(i) == Pow2(i / 2 + 8) + i % 2 * Pow2(i / 2 + 7)
    ensures MinSize(i + 1) == Pow2(i / 2 + 8) + (i % 2 + 1) * Pow2(i / 2 + 7)
  {
    hide Pow2;
    MinSizeStep(i);
  }

  lemma KeyIsShort(x: nat, k: nat)
    requires k <= 15 && Pow2(k) <= x < 2 * Pow2(k)
    ensures 0 < x <= 0xFFFF
  {
    Pow2Monotonic(k, 15);
    Pow2Values();
    Pow2Step(15);
  }

  lemma {:induction false} FindBin(s: nat, i: nat) returns (j: nat)
    requires i < NTREEBINS
    requires MinSize(i) <= s
    ensures i <= j < NTREEBINS && FitsBin(s, j)
    decreases NTREEBINS - i
  {
    if i == NTREEBINS - 1 || s < MinSize(i + 1) {
      j := i;
    } else {
      j := FindBin(s, i + 1);
    }
  }

  lemma LastBinStart()
    ensures MinSize(0) == 256
    ensures MinSize(NTREEBINS - 1) == 0xC0_0000
  {
    Pow2Values();
    assert Pow2(23) == 128 * 65536 by { Pow2Add(7, 16); }
    assert Pow2(23) == 2 * Pow2(22);
  }

  /**
   * compute_tree_index puts a size in the bin whose range holds it exactly when the shifted size
   * survives the truncation to 32 bits, or when what is left of it still selects the last bin.
   */
  lemma IndexFitsExactly(s: nat)
    requires s >= MIN_LARGE_SIZE
    ensures FitsBin(s, TreeIndex(s)) <==> s < ADDRESS_LIMIT || IndexKey(s) >= 0xC000
  {
    hide TreeIndex, Pow2;
    LastBinStart();
    var j := FindBin(s, 0);
    if j < NTREEBINS - 1 {
      IndexIsBin(s, j);
      MinSizeMonotonic(j + 1, NTREEBINS - 1);
    } else {
      LastBinIndex(s);
      if TreeIndex(s) < NTREEBINS - 1 {
        MinSizeMonotonic(TreeIndex(s) + 1, NTREEBINS - 1);
      }
    }
  }

  lemma LastBinIndex(s: nat)
    requires s >= 0xC0_0000
    ensures TreeIndex(s) == NTREEBINS - 1 <==> IndexKey(s) >= 0xC000
    ensures s < ADDRESS_LIMIT ==> IndexKey(s) >= 0xC000
  {
    if s < ADDRESS_LIMIT { KeyBelowLimit(s); }
    if 0 < IndexKey(s) <= 0xFFFF {
      TopKey(IndexKey(s));
      Bit22(s);
      hide IndexKey, Shr;
    }
  }

  lemma KeyBelowLimit(s: nat)
    requires 0xC0_0000 <= s < ADDRESS_LIMIT
    ensures IndexKey(s) >= 0xC000
  {
  }

  lemma TopKey(x: nat)
    requires 0 < x <= 0xFFFF
    ensures Log2(x) == 15 <==> x >= 0x8000
    ensures Log2(x) <= 15
    ensures x >= 0x8000 ==> (x / 0x4000 % 2 == 1 <==> x >= 0xC000)
  {
    hide Pow2, Log2;
    var k := Log2(x);
    Pow2Values();
    Pow2Step(15);
    Pow2Step(k);
    if k > 15 {
      Pow2Monotonic(16, k);
    } else if k < 15 {
      Pow2Monotonic(k + 1, 15);
    }
    if x >= 0x8000 { TopQuarter(x); }
  }

  lemma TopQuarter(x: nat)
    requires 0x8000 <= x <= 0xFFFF
    ensures x / 0x4000 == if x >= 0xC000 then 3 else 2
  {
  }

  /** The half bit of the top index may be read from the truncated key. */
  lemma Bit22(s: nat)
    ensures Shr(s, 22) % 2 == IndexKey(s) / 0x4000 % 2
  {
    hide *;
    assert Pow2(22) == 0x40_0000 by {
      Pow2Values();
      Pow2Times256(14);
      Pow2Step(14);
      Pow2Step(15);
    }
    ShrUnique(s, 22, s / 0x40_0000);
    KeyQuotient(s);
  }

  lemma KeyQuotient(s: nat)
    ensures s / 0x40_0000 % 2 == IndexKey(s) / 0x4000 % 2
  {
    hide *;
    var q := s / 256;
    var c := q / 0x1_0000_0000;
    assert IndexKey(s) == q - c * 0x1_0000_0000 by { KeyRest(s); }
    var y := IndexKey(s) / 0x4000;
    assert q / 0x4000 == c * 0x4_0000 + y;
    assert s / 0x40_0000 == q / 0x4000;
    Parity(c, y);
  }

  lemma KeyRest(s: nat)
    ensures IndexKey(s) == s / 256 - s / 256 / 0x1_0000_0000 * 0x1_0000_0000
  {
  }

  lemma Parity(c: nat, y: nat)
    ensures (c * 0x4_0000 + y) % 2 == y % 2
  {
  }

  /** A concrete size the 32-bit truncation sends to the wrong bin: 2^40 lands in bin 0. */
  lemma TruncationWitness()
    ensures TreeIndex(ADDRESS_LIMIT) == 0 && !FitsBin(ADDRESS_LIMIT, TreeIndex(ADDRESS_LIMIT))
  {
    assert IndexKey(ADDRESS_LIMIT) == 0;
    SecondBinStart();
    hide IndexKey, MinSize;
  }

  lemma SecondBinStart()
    ensures MinSize(1) == 384
  {
    hide Pow2;
    Pow2Values();
  }

  /** Sizes in a higher bin are larger than sizes in a lower one. */
  lemma HigherBinLarger(s: nat, t: nat)
    requires MIN_LARGE_SIZE <= s < ADDRESS_LIMIT && MIN_LARGE_SIZE <= t < ADDRESS_LIMIT
    requires TreeIndex(s) < TreeIndex(t)
    ensures s < t
  {
    IndexFitsExactly(s);
    IndexFitsExactly(t);
    MinSizeMonotonic(TreeIndex(s) + 1, TreeIndex(t));
  }

  /** The trie of a bin covers every size that is sent to it. */
  lemma BinCovers(s: nat)
    requires MIN_LARGE_SIZE <= s < ADDRESS_LIMIT
    ensures BinLow(TreeIndex(s)) <= s < BinLow(TreeIndex(s)) + Pow2(BinBits(TreeIndex(s)))
  {
    hide TreeIndex;
    IndexFitsExactly(s);
    var i := TreeIndex(s);
    if i < NTREEBINS - 1 {
      MinSizeStep(i);
    } else {
      Pow2Values();
    }
  }

  /** The trie range of a bin starts at a multiple of its width. */
  lemma BinAligned(i: nat)
    requires i < NTREEBINS
    ensures BinLow(i) == (if i == NTREEBINS - 1 then 0 else (2 + i % 2) * Pow2(BinBits(i)))
  {
    hide Pow2;
    Pow2Step(i / 2 + 7);
    if i % 2 == 0 {
      assert MinSize(i) == 2 * Pow2(i / 2 + 7);
    } else {
      assert MinSize(i) == 3 * Pow2(i / 2 + 7);
    }
  }
}
