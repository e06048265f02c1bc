/** Powers of ten, and division that truncates toward zero. */
module FixedPoint {
  function Pow10(e: nat): (p: nat)
    ensures p > 0
  {
    if e == 0 then 1 else 10 * Pow10(e - 1)
  }

  lemma {:induction false} Pow10Adds(a: nat, b: nat)
    ensures Pow10(a + b) == Pow10(a) * Pow10(b)
  {
    if a > 0 {
      Pow10Adds(a - 1, b);
      MulAssoc(10, Pow10(a - 1), Pow10(b));
      assert Pow10(a + b) == 10 * Pow10(a - 1 + b);
    }
  }

  lemma {:induction false} Pow10Rises(a: nat, b: nat)
    requires a <= b
    ensures Pow10(a) <= Pow10(b)
  {
    if a < b {
      Pow10Rises(a, b - 1);
    }
  }

  lemma Pow10Of38()
    ensures Pow10(9) == 1_000_000_000 && Pow10(38) == 100_000_000_000_000_000_000_000_000_000_000_000_000
  {
    assert Pow10(3) == 1000;
    Pow10Adds(3, 3);
    Pow10Adds(6, 3);
    Pow10Adds(9, 10);
    Pow10Adds(19, 19);
  }

  /** Rust's `/` on signed integers, for a positive divisor. */
  function Truncate(m: int, d: int): int
    requires d > 0
  {
    if m >= 0 then m / d else -(-m / d)
  }

  lemma MulRises(x: int, y: int, a: int)
    requires x <= y && a > 0
    ensures x * a <= y * a
  {
  }

  lemma ProductGrows(x: int, a: int)
    requires a > 0
    ensures x >= 0 ==> x * a >= x
    ensures x <= 0 ==> x * a <= x
  {
  }

  lemma MulAssoc(x: int, a: int, b: int)
    ensures x * a * b == x * (a * b)
  {
  }

  lemma Gap(q: int, p: int, d: int)
    requires d > 0
    ensures q > p ==> q * d >= p * d + d
  {
    if q > p {
      MulRises(p + 1, q, d);
      assert (p + 1) * d == p * d + d;
    }
  }

  lemma Regroup(p: int, a: int, b: int)
    ensures p * b * a == p * (a * b) && (p * b + b) * a == p * (a * b) + a * b
  {
    assert (p * b + b) * a == p * b * a + b * a;
  }

  lemma DivBounds(n: nat, d: int)
    requires d > 0
    ensures 0 <= n / d && n / d * d <= n < n / d * d + d
  {
  }

  lemma DivUnique(n: nat, d: int, q: int)
    requires d > 0 && q * d <= n < q * d + d
    ensures n / d == q
  {
    DivBounds(n, d);
    Gap(n / d, q, d);
    Gap(q, n / d, d);
  }

  lemma ModBounds(n: nat, d: int)
    requires d > 0
    ensures 0 <= n % d < d && n / d * d + n % d == n
  {
  }

  lemma ModUnique(n: nat, d: int, q: int, r: nat)
    requires d > 0 && r < d && n == q * d + r
    ensures n % d == r
  {
    DivUnique(n, d, q);
    ModBounds(n, d);
  }

  lemma Distribute(x: int, y: int, a: int)
    ensures (x + y) * a == x * a + y * a
  {
  }

  lemma QuotientBelow(n: nat, d: int, l: int)
    requires d > 0
    ensures n / d < l <==> n < l * d
  {
    DivBounds(n, d);
    Gap(n / d + 1, l, d);
    Gap(l, n / d + 1, d);
    Gap(l, n / d, d);
    Distribute(n / d, 1, d);
  }

  lemma ModBelow(k: nat, l: int)
    requires l > 0
    ensures k % l == k <==> k < l
  {
    ModBounds(k, l);
    if k < l {
      ModUnique(k, l, 0, k);
    }
  }

  lemma ProductMod(k: nat, l: int, u: int)
    requires u > 0 && l > 0
    ensures l * u > 0 && k * u >= 0 && k * u % (l * u) == k % l * u
  {
    var q, r := k / l, k % l;
    ModBounds(k, l);
    DivBounds(k, l);
    Distribute(q * l, r, u);
    MulAssoc(q, l, u);
    Gap(l, r, u);
    assert r * u >= 0 && k * u >= 0;
    ModUnique(k * u, l * u, q, r * u);
  }

  /** Counting units of `u` modulo `l` is rounding down to a unit, modulo `l` units. */
  lemma UnitsWrap(n: nat, u: int, l: int)
    requires u > 0 && l > 0
    ensures l * u > 0 && n - n % u >= 0 && (n - n % u) % (l * u) == n / u % l * u
    ensures n / u % l * u == n - n % u <==> n < l * u
  {
    var k := n / u;
    ModBounds(n, u);
    DivBounds(n, u);
    ProductMod(k, l, u);
    QuotientBelow(n, u, l);
    ModBelow(k, l);
    ModBounds(k, l);
    Gap(k, k % l, u);
    Gap(k % l, k, u);
  }

  lemma DivDiv(n: nat, a: int, b: int)
    requires a > 0 && b > 0
    ensures a * b > 0 && n / a >= 0 && n / a / b == n / (a * b)
  {
    assert a * b > 0;
    DivBounds(n, a);
    var q := n / a;
    DivBounds(q, b);
    var p := q / b;
    MulRises(p * b, q, a);
    Gap(p * b + b, q, a);
    Regroup(p, a, b);
    DivUnique(n, a * b, p);
  }

  lemma DivCancels(n: nat, a: int, b: int)
    requires a > 0 && b > 0
    ensures a * b > 0 && n * a >= 0 && n * a / (a * b) == n / b
  {
    assert a * b > 0 && n * a >= 0;
    DivBounds(n, b);
    var q := n / b;
    MulRises(q * b, n, a);
    Gap(q * b + b, n, a);
    Regroup(q, a, b);
    DivUnique(n * a, a * b, q);
  }

  lemma MulNeg(x: int, d: int)
    ensures -x * d == -(x * d)
  {
  }

  lemma TruncateMirrors(m: int, d: int)
    requires d > 0
    ensures Truncate(-m, d) == -Truncate(m, d)
  {
  }

  /** Truncating twice is truncating once. */
  lemma TruncateTwice(m: int, a: int, b: int)
    requires a > 0 && b > 0
    ensures a * b > 0 && Truncate(Truncate(m, a), b) == Truncate(m, a * b)
  {
    if m >= 0 {
      DivDiv(m, a, b);
    } else {
      DivDiv(-m, a, b);
      TruncateMirrors(-m, a);
      TruncateMirrors(-m / a, b);
      TruncateMirrors(-m, a * b);
    }
  }

  /** A factor common to both sides cancels. */
  lemma TruncateCancels(m: int, a: int, b: int)
    requires a > 0 && b > 0
    ensures a * b > 0 && Truncate(m * a, a * b) == Truncate(m, b)
  {
    if m >= 0 {
      DivCancels(m, a, b);
    } else {
      DivCancels(-m, a, b);
      MulNeg(m, a);
      TruncateMirrors(-m * a, a * b);
      TruncateMirrors(-m, b);
    }
  }

  lemma TruncateProduct(x: int, a: int)
    requires a > 0
    ensures Truncate(x * a, a) == x
  {
    TruncateCancels(x, a, 1);
  }

  /** Truncation moves toward zero by less than one unit. */
  lemma TruncateNear(m: int, d: int)
    requires d > 0
    ensures m >= 0 ==> 0 <= Truncate(m, d) * d <= m < Truncate(m, d) * d + d
    ensures m <= 0 ==> 0 >= Truncate(m, d) * d >= m > Truncate(m, d) * d - d
  {
    if m >= 0 {
      DivBounds(m, d);
    } else {
      DivBounds(-m, d);
      MulNeg(-m / d, d);
    }
  }

  /** `v` is the integer next to `m / d`, or that itself, on the side of zero. */
  predicate TowardZero(v: int, m: int, d: int) {
    && (m >= 0 ==> v >= 0 && v * d <= m < (v + 1) * d)
    && (m <= 0 ==> v <= 0 && (v - 1) * d < m <= v * d)
  }

  lemma TruncateExactly(m: int, d: int, v: int)
    requires d > 0
    ensures Truncate(m, d) == v <==> TowardZero(v, m, d)
  {
    var t := Truncate(m, d);
    TruncateShrinks(m, d);
    TruncateNear(m, d);
    Distribute(t, 1, d);
    Distribute(t, -1, d);
    assert TowardZero(t, m, d);
    if TowardZero(v, m, d) {
      Distribute(v, 1, d);
      Distribute(v, -1, d);
      Gap(v, t, d);
      Gap(t, v, d);
    }
  }

  lemma TruncateRises(m: int, n: int, d: int)
    requires d > 0 && m <= n
    ensures Truncate(m, d) <= Truncate(n, d)
  {
    TruncateNear(m, d);
    TruncateNear(n, d);
    Gap(Truncate(m, d), Truncate(n, d), d);
  }

  lemma TruncateShrinks(m: int, d: int)
    requires d > 0
    ensures m >= 0 ==> 0 <= Truncate(m, d) <= m
    ensures m <= 0 ==> m <= Truncate(m, d) <= 0
  {
    TruncateNear(m, d);
    ProductGrows(Truncate(m, d), d);
  }
}
