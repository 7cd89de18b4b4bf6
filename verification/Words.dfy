/** Unsigned 32-bit words, and the `& mask` operation on them. */
module Words {

  const TWO32: nat := 0x1_0000_0000

  /** A C `u32`. */
  type u32 = x: int | 0 <= x < TWO32

  function Min(a: nat, b: nat): nat {
    if a < b then a else b
  }

  /** The value an unsigned 32-bit variable holds after being assigned `x`. */
  function Wrap(x: int): u32 {
    x % TWO32
  }

  /** Unsigned subtraction. */
  function Minus(a: u32, b: u32): u32 {
    Wrap(a - b)
  }

  /** Unsigned addition. */
  function Plus(a: u32, b: u32): u32 {
    Wrap(a + b)
  }

  /** A counter that has wrapped any number of times still measures a distance shorter than 2^32. */
  lemma DistanceSurvivesWrap(a: int, b: int)
    requires b <= a < b + TWO32
    ensures Minus(Wrap(a), Wrap(b)) == a - b
  {
  }

  /** Adding to a wrapped counter is adding to the counter. */
  lemma AdvanceWrapped(a: int, n: int)
    ensures Wrap(Wrap(a) + n) == Wrap(a + n)
  {
  }

  /** Sums and differences that fit are exact. */
  lemma FitsExactly(a: u32, b: u32)
    ensures b <= a ==> Minus(a, b) == a - b
    ensures a + b < TWO32 ==> Plus(a, b) == a + b
  {
  }

  function Pow2(k: nat): (p: nat)
    ensures p >= 1
  {
    if k == 0 then 1 else 2 * Pow2(k - 1)
  }

  /** Bitwise and of two unsigned numbers, digit by binary digit. */
  function And(x: nat, y: nat): nat
    decreases x
  {
    if x == 0 then 0 else 2 * And(x / 2, y / 2) + (x % 2) * (y % 2)
  }

  lemma ProductAtLeast(n: int, d: nat)
    requires n >= 1
    ensures n * d >= d
  {
    assert n * d == d + (n - 1) * d;
  }

  lemma Distribute(a: int, b: int, d: int)
    ensures (a - b) * d == a * d - b * d
    ensures (a + b) * d == a * d + b * d
  {
  }

  lemma Associate(a: int, b: int, c: int)
    ensures a * (b * c) == (a * b) * c
  {
  }

  lemma QuotientUnique(d: nat, q: int, r: int, q': int, r': int)
    requires q * d + r == q' * d + r' && 0 <= r < d && 0 <= r' < d
    ensures q == q' && r == r'
  {
    Distribute(q, q', d);
    Distribute(q', q, d);
    if q > q' {
      ProductAtLeast(q - q', d);
    } else if q < q' {
      ProductAtLeast(q' - q, d);
    }
  }

  lemma DivMod(x: int, d: nat)
    requires d > 0
    ensures x == (x / d) * d + x % d && 0 <= x % d < d
  {
  }

  /** A quotient and a remainder are determined by their defining equation. */
  lemma RemainderUnique(x: int, d: nat, q: int, r: int)
    requires x == q * d + r && 0 <= r < d
    ensures x % d == r && x / d == q
  {
    DivMod(x, d);
    QuotientUnique(d, q, r, x / d, x % d);
  }

  /** Reducing modulo 2m, from the reduction of the half modulo m. */
  lemma DoubleModulus(x: nat, m: nat)
    requires m > 0
    ensures x % (2 * m) == 2 * (x / 2 % m) + x % 2
  {
    var q, r := x / 2 / m, x / 2 % m;
    DivMod(x / 2, m);
    Associate(q, 2, m);
    Associate(2, q, m);
    RemainderUnique(x, 2 * m, q, 2 * r + x % 2);
  }

  /** Masking with 2^k - 1 is reduction modulo 2^k. */
  lemma {:induction false} MaskIsModulo(x: nat, k: nat)
    ensures And(x, Pow2(k) - 1) == x % Pow2(k)
    decreases k
  {
    hide And;
    if k == 0 {
      AndZero(x);
    } else {
      MaskIsModulo(x / 2, k - 1);
      DoubleModulus(x, Pow2(k - 1));
      MaskDigit(x, Pow2(k - 1));
    }
  }

  lemma MaskDigit(x: nat, m: nat)
    requires m > 0
    ensures And(x, 2 * m - 1) == 2 * And(x / 2, m - 1) + x % 2
  {
    assert (2 * m - 1) / 2 == m - 1 && (2 * m - 1) % 2 == 1;
  }

  lemma {:induction false} AndZero(x: nat)
    ensures And(x, 0) == And(0, x) == 0
    decreases x
  {
    if x != 0 { AndZero(x / 2); }
  }

  lemma {:induction false} Pow2Add(j: nat, k: nat)
    ensures Pow2(j + k) == Pow2(j) * Pow2(k)
    decreases j
  {
    if j != 0 {
      Pow2Add(j - 1, k);
      Associate(2, Pow2(j - 1), Pow2(k));
    }
  }

  lemma Pow2Of32()
    ensures Pow2(32) == TWO32
  {
    assert Pow2(8) == 256;
    Pow2Add(8, 8);
    Pow2Add(16, 16);
  }

  /** A remainder modulo d * e keeps the remainder modulo d. */
  lemma NestedModulus(x: nat, d: nat, e: nat)
    requires d > 0 && e > 0 && d * e > 0
    ensures x % (d * e) % d == x % d
  {
    var y := x % (d * e);
    var q := x / (d * e);
    DivMod(x, d * e);
    DivMod(y, d);
    assert q * (d * e) == (q * e) * d by {
      Associate(q, e, d);
      assert d * e == e * d;
    }
    Distribute(q * e, y / d, d);
    RemainderUnique(x, d, q * e + y / d, y % d);
  }

  /** A wrapped counter and the unbounded one fall on the same slot of a 2^k-slot ring. */
  lemma WrapKeepsSlot(x: nat, k: nat)
    requires k <= 32
    ensures Wrap(x) % Pow2(k) == x % Pow2(k)
  {
    Pow2Add(k, 32 - k);
    Pow2Of32();
    NestedModulus(x, Pow2(k), Pow2(32 - k));
  }

  /** Two positions less than one lap apart never share a slot. */
  lemma DistinctSlots(i: nat, j: nat, size: nat)
    requires size > 0 && i < j < i + size
    ensures i % size != j % size
  {
    if i % size == j % size {
      DivMod(i, size);
      DivMod(j, size);
      Distribute(j / size, i / size, size);
      Distribute(i / size, j / size, size);
      if j / size > i / size {
        ProductAtLeast(j / size - i / size, size);
      } else if j / size < i / size {
        ProductAtLeast(i / size - j / size, size);
      }
    }
  }
}
