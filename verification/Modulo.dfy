/** Facts about quotients and remainders that the solver does not find by itself. */
module Modulo {

  lemma BelowOne(n: nat, k: int)
    requires n > 0 && n * k < n
    ensures k < 1
  {
  }

  lemma Negative(n: nat, k: int)
    requires n > 0 && n * k < 0
    ensures k < 0
  {
  }

  lemma ModUnique(n: nat, x: int, k: int, r: nat)
    requires n > 0 && r < n && x == n * k + r
    ensures x % n == r && x / n == k
  {
    var i := x / n;
    assert x == n * i + x % n;
    assert n * (i - k) == r - x % n && n * (k - i) == x % n - r;
    BelowOne(n, i - k);
    BelowOne(n, k - i);
  }

  lemma DivAtLeast(m: nat, a: int, b: nat)
    requires b > 0 && m >= a * b
    ensures m / b >= a
  {
    var q := m / b;
    assert m == b * q + m % b;
    assert b * (a - q) == a * b - b * q;
    BelowOne(b, a - q);
  }

  lemma DivBelow(m: nat, a: int, b: nat)
    requires b > 0 && m < a * b
    ensures m / b < a
  {
    var q := m / b;
    assert m == b * q + m % b;
    assert b * (q - a) == b * q - a * b;
    Negative(b, q - a);
  }

  lemma SmallMod(q: nat, n: nat)
    requires q < n
    ensures q % n == q
  {
  }

  /** One lap further is the same slot. */
  lemma AddLap(n: nat, q: nat)
    requires n > 0
    ensures (q + n) % n == q % n
  {
    assert q + n == n * (q / n + 1) + q % n;
    ModUnique(n, q + n, q / n + 1, q % n);
  }

  /** Two positions less than a lap apart never share a slot. */
  lemma SlotsDistinct(n: nat, a: nat, b: nat)
    requires n > 0
    requires a % n == b % n
    requires a - b < n && b - a < n
    ensures a == b
  {
    var i, j := a / n, b / n;
    assert a == n * i + a % n && b == n * j + b % n;
    assert a - b == n * (i - j) && b - a == n * (j - i);
    BelowOne(n, i - j);
    BelowOne(n, j - i);
  }

  /** Reducing modulo a multiple of n first changes nothing modulo n. */
  lemma ModOfMultiple(x: int, n: nat, m: nat)
    requires n > 0 && m > 0
    ensures n * m > 0 && (x % (n * m)) % n == x % n
  {
    var w := x % (n * m);
    assert n * m > 0 by { BelowOneMul(n, m); }
    assert x == (n * m) * (x / (n * m)) + w;
    var i := x / (n * m);
    assert w == n * (w / n) + w % n;
    assert (n * m) * i == n * (m * i);
    assert x == n * (m * i + w / n) + w % n by { assert n * (m * i + w / n) == n * (m * i) + n * (w / n); }
    ModUnique(n, x, m * i + w / n, w % n);
  }

  lemma BelowOneMul(n: nat, m: nat)
    requires n > 0 && m > 0
    ensures n * m > 0
  {
  }
}
