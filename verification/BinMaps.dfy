/**
 * The 32-bit bin maps: which bins hold chunks, and the bit tricks that search them. A binmap_t
 * is a number below 2^32 and the bitwise operators are given bit by bit.
 */
module BinMaps {
  import opened Words

  const MAP_MOD: int := 0x1_0000_0000

  /** Bit i of x. */
  predicate Has(x: nat, i: nat)
    decreases i
  {
    if i == 0 then x % 2 == 1 else Has(x / 2, i - 1)
  }

  function And(x: nat, y: nat): nat {
    if x == 0 || y == 0 then 0 else 2 * And(x / 2, y / 2) + (if x % 2 == 1 && y % 2 == 1 then 1 else 0)
  }

  function Or(x: nat, y: nat): nat
    decreases x + y
  {
    if x == 0 then y else if y == 0 then x
    else 2 * Or(x / 2, y / 2) + (if x % 2 == 1 || y % 2 == 1 then 1 else 0)
  }

  /** ~x and -x, on 32 bits. */
  function Not(x: nat): nat {
    if x < MAP_MOD then MAP_MOD - 1 - x else 0
  }

  function Neg(x: nat): nat {
    if 0 < x < MAP_MOD then MAP_MOD - x else 0
  }

  /** x << n on 32 bits. */
  function ShiftLeft(x: nat, n: nat): nat
    decreases n
  {
    if n == 0 then x else ShiftLeft(2 * x % MAP_MOD, n - 1)
  }

  function Idx2Bit(i: nat): nat {
    ShiftLeft(1, i)
  }

  function Mark(x: nat, i: nat): nat {
    Or(x, Idx2Bit(i))
  }

  function ClearMark(x: nat, i: nat): nat {
    And(x, Not(Idx2Bit(i)))
  }

  predicate IsMarked(x: nat, i: nat) {
    And(x, Idx2Bit(i)) != 0
  }

  function LeastBit(x: nat): nat {
    And(x, Neg(x))
  }

  function LeftBits(x: nat): nat {
    var y := ShiftLeft(x, 1);
    Or(y, Neg(y))
  }

  /** compute_bit2idx: the number of trailing zero bits of a non-zero map. */
  function Bit2Idx(x: nat): nat {
    if x == 0 || x % 2 == 1 then 0 else 1 + Bit2Idx(x / 2)
  }

  // ---------- the operators, bit by bit ----------

  lemma {:induction false} HasOr(x: nat, y: nat, i: nat)
    ensures Has(Or(x, y), i) <==> Has(x, i) || Has(y, i)
    decreases i
  {
    HasZero(i);
    if i > 0 && x != 0 && y != 0 {
      HasOr(x / 2, y / 2, i - 1);
    }
  }

  lemma {:induction false} HasAnd(x: nat, y: nat, i: nat)
    ensures Has(And(x, y), i) <==> Has(x, i) && Has(y, i)
    decreases i
  {
    HasZero(i);
    if i > 0 && x != 0 && y != 0 {
      HasAnd(x / 2, y / 2, i - 1);
    }
  }

  lemma {:induction false} HasZero(i: nat)
    ensures !Has(0, i)
  {
    if i > 0 {
      HasZero(i - 1);
    }
  }

  lemma {:induction false} HasPow(k: nat, i: nat)
    ensures Has(Pow2(k), i) <==> i == k
  {
    if i > 0 && k > 0 {
      HasPow(k - 1, i - 1);
    } else if k == 0 && i > 0 {
      HasZero(i - 1);
    }
  }

  lemma {:induction false} HasComplement(x: nat, w: nat, i: nat)
    requires x < Pow2(w) && i < w
    ensures Has(Pow2(w) - 1 - x, i) <==> !Has(x, i)
    decreases i
  {
    HalfComplement(x, Pow2(w - 1));
    if i > 0 {
      hide Pow2;
      HasComplement(x / 2, w - 1, i - 1);
    }
  }

  lemma HalfComplement(x: nat, p: nat)
    requires x < 2 * p
    ensures x / 2 < p && (2 * p - 1 - x) / 2 == p - 1 - x / 2 && (2 * p - 1 - x) % 2 == 1 - x % 2
  {
    var q, r := x / 2, x % 2;
    assert x == 2 * q + r && 2 * p - 1 - x == 2 * (p - 1 - q) + (1 - r);
  }

  lemma {:induction false} HasNegPow(w: nat, k: nat, i: nat)
    requires k <= w
    ensures Pow2(k) <= Pow2(w)
    ensures Has(Pow2(w) - Pow2(k), i) <==> k <= i < w
    decreases w
  {
    Pow2Monotonic(k, w);
    if k == w {
      HasZero(i);
    } else if k > 0 {
      HalfDifference(Pow2(w - 1), Pow2(k - 1));
      if i > 0 {
        HasNegPow(w - 1, k - 1, i - 1);
      }
    } else {
      HalfComplement(0, Pow2(w - 1));
      if i > 0 {
        HasNegPow(w - 1, 0, i - 1);
      }
    }
  }

  lemma HalfDifference(a: int, b: int)
    ensures (2 * a - 2 * b) / 2 == a - b && (2 * a - 2 * b) % 2 == 0
  {
    assert 2 * a - 2 * b == 2 * (a - b);
  }

  lemma {:induction false} ShiftOne(i: nat)
    requires i <= 32
    ensures Idx2Bit(i) == if i == 32 then 0 else Pow2(i)
  {
    ShiftPow(0, i);
    Pow2Values();
    if i < 32 { Pow2Monotonic(i + 1, 32); }
  }

  lemma DoublePow(k: nat)
    requires k < 32
    ensures 2 * Pow2(k) % MAP_MOD == if k == 31 then 0 else Pow2(k + 1)
  {
    Pow2Values();
    if k < 31 {
      Pow2Monotonic(k + 2, 32);
    }
  }

  lemma {:induction false} ShiftZero(n: nat)
    ensures ShiftLeft(0, n) == 0
  {
    if n > 0 { ShiftZero(n - 1); }
  }

  lemma {:induction false} ShiftPow(k: nat, n: nat)
    requires k + n <= 32 && k < 32
    ensures ShiftLeft(Pow2(k), n) == if k + n == 32 then 0 else Pow2(k + n)
    decreases n
  {
    if n > 0 {
      DoublePow(k);
      if k == 31 {
        ShiftZero(n - 1);
      } else {
        ShiftPow(k + 1, n - 1);
      }
    }
  }

  /** Marking and clearing change the one bit. */
  lemma MarkHas(x: nat, i: nat, j: nat)
    requires i < 32
    ensures Has(Mark(x, i), j) <==> Has(x, j) || j == i
  {
    ShiftOne(i);
    HasOr(x, Pow2(i), j);
    HasPow(i, j);
  }

  lemma PowBelow(i: nat)
    requires i < 32
    ensures 0 < Pow2(i) < Pow2(32) == MAP_MOD
  {
    Pow2Values();
    Pow2Monotonic(i + 1, 32);
  }

  lemma ClearHas(x: nat, i: nat, j: nat)
    requires i < 32 && j < 32
    ensures Has(ClearMark(x, i), j) <==> Has(x, j) && j != i
  {
    hide And, Has, Pow2, ShiftLeft;
    ShiftOne(i);
    PowBelow(i);
    HasAnd(x, Not(Pow2(i)), j);
    HasComplement(Pow2(i), 32, j);
    HasPow(i, j);
  }

  lemma {:induction false} AndPow(x: nat, i: nat)
    ensures And(x, Pow2(i)) == if Has(x, i) then Pow2(i) else 0
    decreases i
  {
    if x == 0 {
      HasZero(i);
    } else if i > 0 {
      AndPow(x / 2, i - 1);
    } else {
      assert And(x / 2, 0) == 0;
    }
  }

  lemma MarkedHas(x: nat, i: nat)
    requires i < 32
    ensures IsMarked(x, i) <==> Has(x, i)
  {
    ShiftOne(i);
    AndPow(x, i);
  }

  lemma {:induction false} NonZeroHas(x: nat)
    requires x != 0
    ensures Has(x, Bit2Idx(x))
    ensures forall j :: 0 <= j < Bit2Idx(x) ==> !Has(x, j)
  {
    if x % 2 == 0 {
      NonZeroHas(x / 2);
      forall j | 0 <= j < Bit2Idx(x) ensures !Has(x, j) {
        if j > 0 { assert !Has(x / 2, j - 1); }
      }
    }
  }

  lemma {:induction false} HasBound(x: nat, w: nat, i: nat)
    requires x < Pow2(w) && Has(x, i)
    ensures i < w
    decreases w
  {
    if w == 0 {
      HasZero(i);
    } else if i > 0 {
      HasBound(x / 2, w - 1, i - 1);
    }
  }

  // ---------- least_bit ----------

  lemma {:induction false} AndComplement(x: nat, w: nat)
    requires x < Pow2(w)
    ensures And(x, Pow2(w) - 1 - x) == 0
    decreases w
  {
    if w > 0 && x > 0 {
      assert (Pow2(w) - 1 - x) / 2 == Pow2(w - 1) - 1 - x / 2;
      AndComplement(x / 2, w - 1);
    }
  }

  lemma {:induction false} LeastBitPow(x: nat, w: nat)
    requires 0 < x < Pow2(w)
    ensures And(x, Pow2(w) - x) == Pow2(Bit2Idx(x))
    decreases w
  {
    if x % 2 == 0 {
      assert (Pow2(w) - x) / 2 == Pow2(w - 1) - x / 2;
      LeastBitPow(x / 2, w - 1);
    } else {
      assert (Pow2(w) - x) / 2 == Pow2(w - 1) - 1 - x / 2;
      AndComplement(x / 2, w - 1);
    }
  }

  lemma {:induction false} Bit2IdxPow(k: nat)
    ensures Bit2Idx(Pow2(k)) == k
  {
    if k > 0 { Bit2IdxPow(k - 1); }
  }

  /** least_bit and compute_bit2idx together find the lowest marked bin. */
  lemma LowestMarked(x: nat)
    requires 0 < x < MAP_MOD
    ensures var i := Bit2Idx(LeastBit(x));
      i < 32 && Has(x, i) && forall j :: 0 <= j < i ==> !Has(x, j)
  {
    hide Pow2, Bit2Idx, And, Has;
    assert Pow2(32) == MAP_MOD by { Pow2Values(); }
    LeastBitPow(x, 32);
    Bit2IdxPow(Bit2Idx(x));
    NonZeroHas(x);
    HasBound(x, 32, Bit2Idx(x));
  }

  /** left_bits(idx2bit(idx)) & x keeps the marked bins above idx. */
  lemma AboveHas(x: nat, idx: nat, j: nat)
    requires idx < 32 && j < 32
    ensures Has(And(LeftBits(Idx2Bit(idx)), x), j) <==> idx < j && Has(x, j)
  {
    hide And, Or, Has, Pow2;
    HasAnd(LeftBits(Idx2Bit(idx)), x, j);
    ShiftOne(idx);
    ShiftPow(idx, 1);
    var y := ShiftLeft(Pow2(idx), 1);
    HasOr(y, Neg(y), j);
    if idx == 31 {
      HasZero(j);
    } else {
      Pow2Values();
      Pow2Monotonic(idx + 2, 32);
      HasPow(idx + 1, j);
      HasNegPow(32, idx + 1, j);
    }
  }

  // ---------- the shifted small map ----------

  lemma {:induction false} ShrHas(x: nat, n: nat, j: nat)
    ensures Has(Shr(x, n), j) <==> Has(x, n + j)
    decreases n
  {
    if n > 0 {
      ShrHas(x / 2, n - 1, j);
    }
  }

  /** (smallbits & 3) != 0, for smallbits = smallmap >> idx: bin idx or the one above is marked. */
  lemma TwoBins(x: nat, idx: nat)
    ensures And(Shr(x, idx), 3) != 0 <==> Has(x, idx) || Has(x, idx + 1)
    ensures And(Not(Shr(x, idx)), 1) == 1 <==> Shr(x, idx) < MAP_MOD && !Has(x, idx)
  {
    ShrHas(x, idx, 0);
    ShrHas(x, idx, 1);
    var y := Shr(x, idx);
    assert Has(y, 1) <==> y / 2 % 2 == 1;
    assert And(y / 2, 1) == if y / 2 % 2 == 1 then 1 else 0 by { AndPow(y / 2, 0); HasOne(y / 2); }
    assert And(Not(y), 1) == if Not(y) % 2 == 1 then 1 else 0 by { AndPow(Not(y), 0); HasOne(Not(y)); }
  }

  lemma HasOne(x: nat)
    ensures Pow2(0) == 1 && (Has(x, 0) <==> x % 2 == 1)
  {
  }

  lemma {:induction false} ShrSmaller(x: nat, n: nat)
    ensures Shr(x, n) <= x
    decreases n
  {
    if n > 0 { ShrSmaller(x / 2, n - 1); }
  }

  lemma {:induction false} ShiftLeftHas(x: nat, n: nat, j: nat)
    requires x < MAP_MOD && j < 32
    ensures Has(ShiftLeft(x, n), j) <==> n <= j && Has(x, j - n)
    decreases n
  {
    if n > 0 {
      ShiftLeftHas(2 * x % MAP_MOD, n - 1, j);
      if n - 1 <= j {
        DoubleHas(x, j - (n - 1));
      }
    }
  }

  lemma DoubleHas(x: nat, i: nat)
    requires x < MAP_MOD && i < 32
    ensures Has(2 * x % MAP_MOD, i) <==> i > 0 && Has(x, i - 1)
  {
    hide Pow2;
    DoubleHalf(x);
    if i > 0 {
      HasMod(x, 31, i - 1);
    }
  }

  /** Doubling a word drops its top bit. */
  lemma DoubleHalf(x: nat)
    requires x < MAP_MOD
    ensures x < 2 * Pow2(31) && 2 * x % MAP_MOD % 2 == 0
    ensures 2 * x % MAP_MOD / 2 == if x < Pow2(31) then x else x - Pow2(31)
  {
    hide Pow2;
    Pow2Step31();
    assert 2 * x % MAP_MOD == if x < Pow2(31) then 2 * x else 2 * x - MAP_MOD;
  }

  lemma Pow2Step31()
    ensures Pow2(31) == 0x8000_0000
  {
    Pow2Values();
  }

  lemma {:induction false} HasMod(x: nat, w: nat, i: nat)
    requires i < w && x < 2 * Pow2(w)
    ensures Has(if x < Pow2(w) then x else x - Pow2(w), i) <==> Has(x, i)
    decreases w
  {
    if i > 0 {
      HasMod(x / 2, w - 1, i - 1);
    }
  }

  /** (smallbits << idx) & left_bits(idx2bit(idx)): the marked small bins above idx. */
  lemma SmallAbove(x: nat, idx: nat, j: nat)
    requires x < MAP_MOD && idx < 32 && j < 32
    ensures Has(And(ShiftLeft(Shr(x, idx), idx), LeftBits(Idx2Bit(idx))), j) <==> idx < j && Has(x, j)
  {
    hide *;
    var y, z := ShiftLeft(Shr(x, idx), idx), LeftBits(Idx2Bit(idx));
    HasAnd(y, z, j);
    HasAnd(z, x, j);
    AboveHas(x, idx, j);
    ShrSmaller(x, idx);
    ShiftLeftHas(Shr(x, idx), idx, j);
    if idx <= j {
      ShrHas(x, idx, j - idx);
    }
    AboveMask(idx, j);
  }

  lemma AboveMask(idx: nat, j: nat)
    requires idx < 32 && j < 32
    ensures Has(LeftBits(Idx2Bit(idx)), j) <==> idx < j
  {
    var x := Pow2(j);
    AboveHas(x, idx, j);
    HasAnd(LeftBits(Idx2Bit(idx)), x, j);
    HasPow(j, j);
  }

  lemma {:induction false} AndBound(x: nat, y: nat)
    ensures And(x, y) <= x && And(x, y) <= y
  {
    if x != 0 && y != 0 { AndBound(x / 2, y / 2); }
  }

  lemma {:induction false} OrBound(x: nat, y: nat, w: nat)
    requires x < Pow2(w) && y < Pow2(w)
    ensures Or(x, y) < Pow2(w)
    decreases w
  {
    if w > 0 && x != 0 && y != 0 { OrBound(x / 2, y / 2, w - 1); }
  }

  lemma MarkBound(x: nat, i: nat)
    requires x < MAP_MOD && i < 32
    ensures Mark(x, i) < MAP_MOD && ClearMark(x, i) < MAP_MOD
  {
    hide And, Or, Pow2, ShiftLeft;
    ShiftOne(i);
    PowBelow(i);
    OrBound(x, Pow2(i), 32);
    AndBound(x, Not(Pow2(i)));
  }
}
