/** Arithmetic in the rings Z_{2^ell} that every protocol of the system computes in.

    The source masks unsigned machine words with 2^ell - 1.  A masked two's-complement word is the Euclidean
    remainder modulo 2^ell, for sums, differences and products alike, so `%` below is exact. */
module Ring {

  function Min(a: nat, b: nat): nat {
    if a < b then a else b
  }

  function Max(a: nat, b: nat): nat {
    if a > b then a else b
  }

  function Pow2(n: nat): (p: nat)
    ensures p > 0
  {
    if n == 0 then 1 else 2 * Pow2(n - 1)
  }

  lemma {:induction false} Pow2Add(a: nat, b: nat)
    ensures Pow2(a + b) == Pow2(a) * Pow2(b)
  {
    if a != 0 {
      Pow2Add(a - 1, b);
      assert 2 * Pow2(a - 1) * Pow2(b) == 2 * (Pow2(a - 1) * Pow2(b));
    }
  }

  lemma {:induction false} Pow2Mono(a: nat, b: nat)
    requires a <= b
    ensures Pow2(a) <= Pow2(b)
  {
    if a < b {
      Pow2Mono(a, b - 1);
    }
  }

  /** ringAdd8 / ringAdd32 on ring elements. */
  function Add(m: nat, a: int, b: int): (r: nat)
    requires m > 0
    ensures r < m
  {
    (a + b) % m
  }

  /** ringSub8 / ringSub32. */
  function Sub(m: nat, a: int, b: int): (r: nat)
    requires m > 0
    ensures r < m
  {
    (a - b) % m
  }

  /** ringMul8. */
  function Mul(m: nat, a: int, b: int): (r: nat)
    requires m > 0
    ensures r < m
  {
    (a * b) % m
  }

  /** x >> k. */
  function Shr(x: nat, k: nat): nat {
    if k == 0 then x else Shr(x, k - 1) / 2
  }

  lemma ShrStep(x: nat, k: nat)
    ensures Shr(x, k + 1) == Shr(x, k) / 2
  {
  }

  lemma {:induction false} ShrBound(x: nat, k: nat, j: nat)
    requires x < Pow2(k + j)
    ensures Shr(x, k) < Pow2(j)
  {
    if k != 0 {
      assert k + j == (k - 1) + (j + 1);
      ShrBound(x, k - 1, j + 1);
    }
  }

  // ---- congruences ----

  lemma Distribute(a: int, b: int, m: int)
    ensures (a + b) * m == a * m + b * m && (a - b) * m == a * m - b * m
  {
  }

  lemma MulSign(d: int, m: int)
    requires m > 0
    ensures d >= 0 ==> d * m >= 0
  {
  }

  lemma Quotient(a: int, m: int) returns (q: int)
    requires m > 0
    ensures a == q * m + a % m && 0 <= a % m < m && q == a / m
  {
    q := a / m;
  }

  lemma DivUnique(q: int, r: int, m: int)
    requires 0 <= r < m
    ensures (q * m + r) / m == q && (q * m + r) % m == r
  {
    var p := Quotient(q * m + r, m);
    Distribute(p, q, m);
    MulSign(p - q - 1, m);
    MulSign(q - p - 1, m);
    Distribute(p - q, 1, m);
    Distribute(q - p, 1, m);
    Distribute(q, p, m);
  }

  /** Adding a multiple of the modulus changes nothing. */
  lemma ModShift(a: int, k: int, m: int)
    requires m > 0
    ensures (a + k * m) % m == a % m
  {
    var q := Quotient(a, m);
    Distribute(q, k, m);
    DivUnique(q + k, a % m, m);
  }

  /** Two residues agree when the numbers differ by a multiple. */
  lemma ModCong(a: int, b: int, k: int, m: int)
    requires m > 0 && a == b + k * m
    ensures a % m == b % m
  {
    ModShift(b, k, m);
  }

  lemma ModSmall(a: int, m: int)
    requires 0 <= a < m
    ensures a % m == a
  {
    DivUnique(0, a, m);
  }

  /** The multiple by which two numbers of one residue differ. */
  lemma CongWitness(a: int, b: int, m: int) returns (k: int)
    requires m > 0 && a % m == b % m
    ensures a == b + k * m
  {
    var p := Quotient(a, m);
    var q := Quotient(b, m);
    k := p - q;
    Distribute(p, q, m);
  }

  lemma AddCong(a: int, a': int, b: int, b': int, m: int)
    requires m > 0 && a % m == a' % m && b % m == b' % m
    ensures (a + b) % m == (a' + b') % m && (a - b) % m == (a' - b') % m
  {
    var k := CongWitness(a, a', m);
    var l := CongWitness(b, b', m);
    Distribute(k, l, m);
    ModCong(a + b, a' + b', k + l, m);
    ModCong(a - b, a' - b', k - l, m);
  }

  lemma ScaleCong(a: int, a': int, c: int, m: int)
    requires m > 0 && a % m == a' % m
    ensures (a * c) % m == (a' * c) % m
  {
    var k := CongWitness(a, a', m);
    assert a * c == a' * c + (k * c) * m by {
      Distribute(a', k * m, c);
      assert (k * m) * c == (k * c) * m;
    }
    ModCong(a * c, a' * c, k * c, m);
  }

  lemma MulCong(a: int, a': int, b: int, b': int, m: int)
    requires m > 0 && a % m == a' % m && b % m == b' % m
    ensures (a * b) % m == (a' * b') % m
  {
    ScaleCong(a, a', b, m);
    ScaleCong(b, b', a', m);
    assert a' * b == b * a' && a' * b' == b' * a';
  }

  /** Reducing twice is reducing once. */
  lemma ModMod(a: int, m: int)
    requires m > 0
    ensures (a % m) % m == a % m
  {
    var _ := Quotient(a, m);
    ModSmall(a % m, m);
  }

  /** Reducing modulo a multiple first loses nothing. */
  lemma ModOfMultiple(a: int, m: int, c: int)
    requires m > 0 && c > 0 && m * c > 0
    ensures (a % (m * c)) % m == a % m
  {
    var q := Quotient(a, m * c);
    assert q * (m * c) == (q * c) * m;
    ModCong(a, a % (m * c), q * c, m);
  }
}
