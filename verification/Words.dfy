/** 64-bit machine words: powers of two, bit operations, wrap-around and signed difference. */
module Words {
  import opened Modulo

  function Pow2(k: nat): (r: nat)
    ensures r >= 1
  {
    if k == 0 then 1 else 2 * Pow2(k - 1)
  }

  const SIZE: nat := 0x1_0000_0000_0000_0000
  const HALF: nat := 0x8000_0000_0000_0000

  /** size_t. */
  type Word = w: nat | w < SIZE

  function Wrap(x: int): Word {
    x % SIZE
  }

  /** Bitwise or of naturals. */
  function Or(a: nat, b: nat): nat
    decreases a
  {
    if a == 0 then b else 2 * Or(a / 2, b / 2) + (if a % 2 == 1 || b % 2 == 1 then 1 else 0)
  }

  /** Bitwise and of naturals. */
  function And(a: nat, b: nat): nat
    decreases a
  {
    if a == 0 then 0 else 2 * And(a / 2, b / 2) + (if a % 2 == 1 && b % 2 == 1 then 1 else 0)
  }

  /** (intptr_t)w. */
  function Signed(w: Word): int {
    if w < HALF then w else w - SIZE
  }

  /** C defines the difference of the two signed words. */
  predicate DifferenceDefined(a: Word, b: Word) {
    0 - HALF <= Signed(a) - Signed(b) < HALF
  }

  /** (intptr_t)a - (intptr_t)b, wrapping in two's complement where it overflows. */
  function Diff(a: Word, b: Word): int {
    var d := Wrap(a - b);
    if d < HALF then d else d - SIZE
  }

  // ------------------------------------------------------------ powers of two

  lemma {:induction false} Pow2Add(a: nat, b: nat)
    ensures Pow2(a + b) == Pow2(a) * Pow2(b)
  {
    if a > 0 {
      Pow2Add(a - 1, b);
      assert Pow2(a + b) == 2 * Pow2(a - 1 + b);
    }
  }

  lemma {:induction false} Pow2Monotone(a: nat, b: nat)
    requires a <= b
    ensures Pow2(a) <= Pow2(b)
    decreases b - a
  {
    if a < b {
      Pow2Monotone(a, b - 1);
    }
  }

  lemma Pow2Sizes()
    ensures Pow2(32) == 0x1_0000_0000 && Pow2(63) == HALF && Pow2(64) == SIZE
  {
    assert Pow2(8) == 256 by {
      assert Pow2(4) == 16;
    }
    Pow2Add(8, 8);
    Pow2Add(16, 16);
    Pow2Add(32, 32);
    assert Pow2(64) == 2 * Pow2(63);
  }

  function Log2(m: nat): (k: nat)
    requires m >= 1
    ensures Pow2(k) <= m < Pow2(k + 1)
  {
    if m == 1 then 0 else Log2(m / 2) + 1
  }

  // ------------------------------------------------------------------- halving

  lemma HalfMod(p: nat, n: nat)
    requires n > 0
    ensures p % (2 * n) == 2 * ((p / 2) % n) + p % 2
  {
    var i, r := (p / 2) / n, (p / 2) % n;
    assert p / 2 == n * i + r;
    assert (2 * n) * i == 2 * (n * i);
    ModUnique(2 * n, p, i, 2 * r + p % 2);
  }

  lemma Doubled(h: nat, n: nat)
    ensures h * (2 * n) == 2 * (h * n)
  {
  }

  lemma AtLeast(x: nat, b: nat)
    requires b >= 1
    ensures x * b >= x
  {
  }

  // ------------------------------------------------------------------ masking

  /** pos & (size - 1) is pos modulo size. */
  lemma {:induction false} MaskIsMod(p: nat, k: nat)
    ensures And(p, Pow2(k) - 1) == p % Pow2(k)
    decreases k
  {
    if k == 0 {
      AndZero(p);
    } else {
      MaskIsMod(p / 2, k - 1);
      HalfMod(p, Pow2(k - 1));
      MaskStep(p, Pow2(k - 1) - 1, (p / 2) % Pow2(k - 1));
    }
  }

  lemma MaskStep(p: nat, mask: nat, r: nat)
    requires And(p / 2, mask) == r
    ensures And(p, 2 * mask + 1) == 2 * r + p % 2
  {
    AndUnfold(p, 2 * mask + 1);
    assert (2 * mask + 1) / 2 == mask && (2 * mask + 1) % 2 == 1;
  }

  lemma AndUnfold(a: nat, b: nat)
    ensures And(a, b) == 2 * And(a / 2, b / 2) + (if a % 2 == 1 && b % 2 == 1 then 1 else 0)
  {
  }

  lemma {:induction false} AndZero(p: nat)
    ensures And(p, 0) == 0
  {
    if p > 0 {
      AndZero(p / 2);
    }
  }

  // ------------------------------------------------- rounding up to a power of two

  lemma {:induction false} OrBounds(a: nat, b: nat, n: nat)
    requires a < Pow2(n) && b < Pow2(n)
    ensures Or(a, b) < Pow2(n) && Or(a, b) >= a && Or(a, b) >= b
    decreases n
  {
    if n > 0 && a > 0 {
      OrBounds(a / 2, b / 2, n - 1);
    }
  }

  lemma OrUnfold(a: nat, b: nat)
    ensures Or(a, b) == 2 * Or(a / 2, b / 2) + (if a % 2 == 1 || b % 2 == 1 then 1 else 0)
  {
    if a == 0 {
      assert Or(a / 2, b / 2) == b / 2;
    }
  }

  /** The high bits of a number are out of reach of a shorter one. */
  lemma {:induction false} OrSplit(h: nat, high: nat, a: nat, b: nat, j: nat)
    requires a < Pow2(j) && b < Pow2(j) && high == h * Pow2(j)
    ensures Or(high + a, b) == high + Or(a, b)
    decreases j
  {
    if j == 0 {
      OrZero(h);
    } else {
      var half := h * Pow2(j - 1);
      Doubled(h, Pow2(j - 1));
      OrSplit(h, half, a / 2, b / 2, j - 1);
      OrHalves(half, a, b);
    }
  }

  lemma OrHalves(half: nat, a: nat, b: nat)
    requires Or(half + a / 2, b / 2) == half + Or(a / 2, b / 2)
    ensures Or(2 * half + a, b) == 2 * half + Or(a, b)
  {
    OrUnfold(2 * half + a, b);
    OrUnfold(a, b);
    assert (2 * half + a) / 2 == half + a / 2;
  }

  lemma {:induction false} OrZero(h: nat)
    ensures Or(h, 0) == h
  {
    if h > 0 {
      OrZero(h / 2);
    }
  }

  /** The top t bits of m, a number of k+1 bits, are all ones. */
  predicate TopOnes(m: nat, k: nat, t: nat) {
    Pow2(k + 1) - Pow2(if k + 1 > t then k + 1 - t else 0) <= m < Pow2(k + 1)
  }

  lemma HighAndLow(m: nat, T: nat, J: nat, E: nat)
    requires T * J - J <= m < T * J && E <= J <= T * E && T >= 1 && E >= 1
    ensures J - E <= m / T < J && m / J == T - 1 && m == (T - 1) * J + m % J
  {
    assert (J - E) * T == T * J - T * E;
    DivAtLeast(m, J - E, T);
    assert J * T == T * J;
    DivBelow(m, J, T);
    assert (T - 1) * J == T * J - J;
    DivAtLeast(m, T - 1, J);
    DivBelow(m, T, J);
  }

  /** One "v |= v >> t" doubles the run of ones. */
  lemma SmearDoubles(m: nat, k: nat, t: nat)
    requires t >= 1 && TopOnes(m, k, t)
    ensures TopOnes(Or(m, m / Pow2(t)), k, 2 * t)
  {
    if k + 1 <= t {
      ShiftShrinks(m, Pow2(t));
      OrBounds(m, m / Pow2(t), k + 1);
    } else {
      SmearLong(m, k, t, k + 1 - t);
    }
  }

  lemma ShiftShrinks(m: nat, b: nat)
    requires b > 0
    ensures m / b <= m
  {
    AtLeast(m + 1, b);
    DivBelow(m, m + 1, b);
  }

  lemma SmearLong(m: nat, k: nat, t: nat, j: nat)
    requires t >= 1 && j >= 1 && k + 1 == t + j && TopOnes(m, k, t)
    ensures TopOnes(Or(m, m / Pow2(t)), k, 2 * t)
  {
    var e := if j > t then j - t else 0;
    SmearPowers(t, j, e);
    SmearBits(m, Pow2(t), j, Pow2(j), Pow2(e));
  }

  lemma SmearPowers(t: nat, j: nat, e: nat)
    requires t >= 1 && e == if j > t then j - t else 0
    ensures Pow2(t + j) == Pow2(t) * Pow2(j) && Pow2(e) <= Pow2(j) <= Pow2(t) * Pow2(e)
  {
    Pow2Add(t, j);
    Pow2Add(t, e);
    Pow2Monotone(j, t + e);
    Pow2Monotone(e, j);
  }

  lemma SmearBits(m: nat, T: nat, j: nat, J: nat, E: nat)
    requires J == Pow2(j) && T >= 1 && T * J - J <= m < T * J
    requires 1 <= E <= J <= T * E
    ensures T * J - E <= Or(m, m / T) < T * J
  {
    HighAndLow(m, T, J, E);
    OrSplit(T - 1, (T - 1) * J, m % J, m / T, j);
    OrBounds(m % J, m / T, j);
    Distribute(T, J);
  }

  lemma Distribute(a: nat, b: nat)
    ensures (a - 1) * b == a * b - b
  {
  }

  /** Round v up to the next power of two, at least 2. */
  method NextPow2(v: Word) returns (r: Word)
    ensures v <= HALF ==> exists k: nat :: k >= 1 && r == Pow2(k) && IsLeastPow2(r, v)
    ensures v > HALF ==> r == 0
  {
    if v < 2 {
      assert Pow2(1) == 2;
      TwoIsLeast(v);
      return 2;
    }
    ghost var k := Log2(v - 1);
    TopBit(v - 1, k);
    var m := Smear(v - 1, k);
    r := Wrap(m + 1);
    LeastAbove(v, k);
  }

  /** v |= v >> t. */
  method OrShift(v: nat, t: nat, ghost k: nat) returns (m: nat)
    requires t >= 1 && TopOnes(v, k, t)
    ensures m == Or(v, v / Pow2(t)) && TopOnes(m, k, 2 * t)
  {
    SmearDoubles(v, k, t);
    m := Or(v, v / Pow2(t));
  }

  /** The six shifts turn every bit below the top one on. */
  method Smear(v: Word, ghost k: nat) returns (m: nat)
    requires Pow2(k) <= v < Pow2(k + 1) && k <= 63
    ensures m == Pow2(k + 1) - 1
  {
    m := OrShift(v, 1, k);
    m := OrShift(m, 2, k);
    m := OrShift(m, 4, k);
    m := OrShift(m, 8, k);
    m := OrShift(m, 16, k);
    m := OrShift(m, 32, k);
  }

  /** r is the least power of two that is at least max(v, 2). */
  ghost predicate IsLeastPow2(r: nat, v: nat) {
    && r >= 2 && r >= v
    && forall j: nat :: Pow2(j) >= 2 && Pow2(j) >= v ==> r <= Pow2(j)
  }

  lemma TwoIsLeast(v: nat)
    requires v < 2
    ensures IsLeastPow2(2, v)
  {
  }

  lemma LeastAbove(v: nat, k: nat)
    requires v >= 2 && Pow2(k) <= v - 1 < Pow2(k + 1)
    ensures IsLeastPow2(Pow2(k + 1), v)
  {
    forall j: nat | Pow2(j) >= v ensures Pow2(k + 1) <= Pow2(j) {
      if j <= k {
        Pow2Monotone(j, k);
      } else {
        Pow2Monotone(k + 1, j);
      }
    }
  }

  lemma TopBit(m: nat, k: nat)
    requires Pow2(k) <= m < Pow2(k + 1) && m < SIZE
    ensures k <= 63
    ensures if m < HALF then Pow2(k + 1) < SIZE else Pow2(k + 1) == SIZE
  {
    Pow2Sizes();
    if k >= 64 {
      Pow2Monotone(64, k);
    } else if k == 63 {
    } else {
      Pow2Monotone(k + 1, 63);
    }
  }
}
