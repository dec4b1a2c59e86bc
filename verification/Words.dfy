/** Machine words, powers of two, and the flat word memory that the allocator works in. */
module Words {

  /** Word memory: byte address of a word to its 64-bit value; unwritten words read as 0. */
  type Mem = map<int, int>

  /** 2^64: the wrap-around point of size_t. */
  const SIZE_T_MOD: int := 0x1_0000_0000_0000_0000

  /** 2^63: the weight of the sign bit of a size_t. */
  const TOP_BIT: int := 0x8000_0000_0000_0000

  /** All memory lies below this address, so every chunk size is smaller (see README). */
  const ADDRESS_LIMIT: int := 0x100_0000_0000

  /** The word at address a. */
  function Rd(m: Mem, a: int): int {
    if a in m then m[a] else 0
  }

  function Pow2(k: nat): (r: nat)
    ensures r >= 1
  {
    if k == 0 then 1 else 2 * Pow2(k - 1)
  }

  lemma {:induction false} Pow2Add(a: nat, b: nat)
    ensures Pow2(a) * Pow2(b) == Pow2(a + b)
  {
    if a > 0 {
      Pow2Add(a - 1, b);
      assert Pow2(a) * Pow2(b) == 2 * (Pow2(a - 1) * Pow2(b));
    }
  }

  lemma {:induction false} Pow2Monotonic(a: nat, b: nat)
    requires a <= b
    ensures Pow2(a) <= Pow2(b)
  {
    if a < b {
      Pow2Monotonic(a, b - 1);
    }
  }

  lemma Pow2Values()
    ensures Pow2(7) == 128 && Pow2(8) == 256 && Pow2(16) == 65536
    ensures Pow2(32) == 0x1_0000_0000 && Pow2(40) == ADDRESS_LIMIT
    ensures Pow2(63) == TOP_BIT && Pow2(64) == SIZE_T_MOD
  {
    assert Pow2(4) == 16;
    Pow2Add(4, 4);
    Pow2Add(8, 8);
    Pow2Add(16, 16);
    Pow2Add(32, 8);
    Pow2Add(32, 32);
    assert Pow2(64) == 2 * Pow2(63);
    assert Pow2(8) == 2 * Pow2(7);
  }

  /** x >> n. */
  function Shr(x: nat, n: nat): nat
    decreases n
  {
    if n == 0 then x else Shr(x / 2, n - 1)
  }

  lemma {:induction false} ShrBounds(x: nat, n: nat)
    ensures Shr(x, n) * Pow2(n) <= x < (Shr(x, n) + 1) * Pow2(n)
    decreases n
  {
    if n > 0 {
      ShrBounds(x / 2, n - 1);
      MulTwo(Shr(x / 2, n - 1), Pow2(n - 1));
      MulTwo(Shr(x / 2, n - 1) + 1, Pow2(n - 1));
    }
  }

  lemma MulTwo(q: int, w: int)
    ensures q * (2 * w) == 2 * (q * w)
  {
  }

  lemma ShrUnique(x: nat, n: nat, q: nat)
    requires q * Pow2(n) <= x < (q + 1) * Pow2(n)
    ensures Shr(x, n) == q
  {
    ShrBounds(x, n);
    var d := Shr(x, n);
    if d < q {
      MulMonotonic(d + 1, q, Pow2(n));
    } else if d > q {
      MulMonotonic(q + 1, d, Pow2(n));
    }
  }

  lemma MulMonotonic(a: int, b: int, w: nat)
    requires a <= b
    ensures a * w <= b * w
  {
  }

  /** The largest k with 2^k <= x: 31 - clz(x) for a 32-bit x. */
  function Log2(x: nat): (k: nat)
    requires x >= 1
    ensures Pow2(k) <= x < 2 * Pow2(k)
  {
    if x == 1 then 0 else 1 + Log2(x / 2)
  }

  lemma {:induction false} Log2Unique(x: nat, k: nat)
    requires Pow2(k) <= x < 2 * Pow2(k)
    ensures Log2(x) == k
  {
    var j := Log2(x);
    if j < k {
      Pow2Monotonic(j + 1, k);
    } else if k < j {
      Pow2Monotonic(k + 1, j);
    }
  }

  // ---------- rounding ----------

  /** x rounded up to a multiple of a: (x + a - 1) & -a for a power of two. */
  function AlignUp(x: int, a: int): (r: int)
    requires a > 0
    ensures x <= r < x + a && r % a == 0
  {
    RoundedUp(x, a);
    (x + a - 1) / a * a
  }

  lemma RoundedUp(x: int, a: int)
    requires a > 0
    ensures var r := (x + a - 1) / a * a; x <= r < x + a && r % a == 0
  {
    var q := (x + a - 1) / a;
    assert x + a - 1 == q * a + (x + a - 1) % a;
    ModUnique(q * a, a, q, 0);
  }

  lemma ModUnique(x: int, a: int, q: int, r: int)
    requires a > 0 && x == q * a + r && 0 <= r < a
    ensures x % a == r
  {
    var q', r' := x / a, x % a;
    assert x == a * q' + r';
    assert (q - q') * a == r' - r;
    MulNegated(q - q', a);
    if q - q' >= 1 {
      MulAtLeast(q - q', a);
    } else if q - q' <= -1 {
      MulAtLeast(-(q - q'), a);
    }
  }

  lemma MulNegated(d: int, a: int)
    ensures -d * a == -(d * a)
  {
  }

  lemma MulAtLeast(d: int, a: int)
    requires d >= 1 && a > 0
    ensures d * a >= a
  {
  }

  lemma QuotientOf(r: int, a: int)
    requires a > 0 && r % a == 0
    ensures r == a * (r / a)
  {
  }

  lemma Sixteens(j: int, q: int)
    ensures 16 * j % 16 == 0 && 16 * j * q % 16 == 0
  {
    assert 16 * j * q == 16 * (j * q);
  }

  lemma NextMultiple(x: int, a: int)
    requires a > 0 && x % a == 0
    ensures (x + a) % a == 0
  {
    QuotientOf(x, a);
    assert x + a == (x / a + 1) * a + 0;
    ModUnique(x + a, a, x / a + 1, 0);
  }

  lemma MultipleSum(x: int, y: int, a: int)
    requires a > 0 && x % a == 0 && y % a == 0
    ensures (x + y) % a == 0
  {
    QuotientOf(x, a);
    QuotientOf(y, a);
    assert x + y == (x / a + y / a) * a + 0;
    ModUnique(x + y, a, x / a + y / a, 0);
  }

  lemma MultipleOfMultiple(r: int, a: int)
    requires a > 0 && a % 16 == 0 && r % a == 0
    ensures r % 16 == 0
  {
    QuotientOf(r, a);
    Sixteens(a / 16, r / a);
  }
}
