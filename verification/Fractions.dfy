/** Greatest common factor, least common multiple and reduced fractions over all integers. */
module Fractions {
  import opened Collections

  // ----- Python 2 integer division and remainder, which round down

  function FloorMod(a: int, b: int): (r: int)
    requires b != 0
    ensures if b > 0 then 0 <= r < b else b < r <= 0
  {
    if b > 0 then a % b else -((-a) % (-b))
  }

  function FloorDiv(a: int, b: int): int
    requires b != 0
  {
    if b > 0 then a / b else (-a) / (-b)
  }

  lemma FloorDivMod(a: int, b: int)
    requires b != 0
    ensures a == b * FloorDiv(a, b) + FloorMod(a, b)
  {
    if b < 0 {
      var q, r := (-a) / (-b), (-a) % (-b);
      assert -a == (-b) * q + r;
      assert (-b) * q == -(b * q);
    }
  }

  function Abs(a: int): nat {
    if a < 0 then -a else a
  }

  // ----- divisibility

  ghost predicate Divides(d: int, a: int) {
    exists k :: a == d * k
  }

  lemma DividesBy(d: int, a: int, k: int)
    requires a == d * k
    ensures Divides(d, a)
  {
  }

  /** d divides every combination of what it divides. */
  lemma DividesCombination(d: int, a: int, b: int, s: int, t: int)
    requires Divides(d, a) && Divides(d, b)
    ensures Divides(d, s * a + t * b)
  {
    var k :| a == d * k;
    var l :| b == d * l;
    calc {
      s * a + t * b;
      s * (d * k) + t * (d * l);
      d * (s * k) + d * (t * l);
      d * (s * k + t * l);
    }
    DividesBy(d, s * a + t * b, s * k + t * l);
  }

  predicate Combines(a: int, b: int, x: int, s: int, t: int) {
    x == s * a + t * b
  }

  /** x is an integer combination of a and b. */
  ghost predicate Spanned(a: int, b: int, x: int) {
    exists s, t :: Combines(a, b, x, s, t)
  }

  /** g is the greatest common factor of a and b; it is 0 when both are. */
  ghost predicate IsGcf(a: int, b: int, g: int) {
    g >= 0 && Divides(g, a) && Divides(g, b) && Spanned(a, b, g)
  }

  /** Every common factor divides the greatest one, and none is greater unless both numbers are 0. */
  lemma GcfIsGreatest(a: int, b: int, g: int, d: int)
    requires IsGcf(a, b, g) && Divides(d, a) && Divides(d, b)
    ensures Divides(d, g)
    ensures a != 0 || b != 0 ==> Abs(d) <= g
  {
    var s, t :| Combines(a, b, g, s, t);
    DividesCombination(d, a, b, s, t);
    if a != 0 || b != 0 {
      GcfPositive(a, b, g);
      DivisorBound(d, g);
    }
  }

  lemma GcfPositive(a: int, b: int, g: int)
    requires IsGcf(a, b, g)
    ensures g == 0 <==> a == 0 && b == 0
  {
    var s, t :| Combines(a, b, g, s, t);
    assert s * 0 + t * 0 == 0;
    assert forall k :: 0 * k == 0;
  }

  lemma DivisorBound(d: int, g: int)
    requires Divides(d, g) && g > 0
    ensures d != 0 && Abs(d) <= g
  {
    var k :| g == d * k;
    assert d != 0 && k != 0;
    ProductBound(Abs(d), Abs(k));
    AbsProduct(d, k);
  }

  lemma AbsProduct(x: int, y: int)
    ensures Abs(x * y) == Abs(x) * Abs(y)
  {
    assert (-x) * (-y) == x * y && (-x) * y == -(x * y) == x * (-y);
  }

  lemma ProductBound(x: nat, y: nat)
    requires y > 0
    ensures x <= x * y
  {
    assert x * y == x + x * (y - 1);
    assert 0 <= x * (y - 1);
  }

  // ----- Euclid's loop

  lemma SpannedBy(a: int, b: int, x: int, s: int, t: int)
    requires x == s * a + t * b
    ensures Spanned(a, b, x)
  {
    assert Combines(a, b, x, s, t);
  }

  lemma SpanCombination(a: int, b: int, p: int, q: int, c: int, d: int)
    requires Spanned(a, b, p) && Spanned(a, b, q)
    ensures Spanned(a, b, c * p + d * q)
  {
    var s1, t1 :| Combines(a, b, p, s1, t1);
    var s2, t2 :| Combines(a, b, q, s2, t2);
    calc {
      c * p + d * q;
      c * (s1 * a + t1 * b) + d * (s2 * a + t2 * b);
      c * (s1 * a) + c * (t1 * b) + (d * (s2 * a) + d * (t2 * b));
      (c * s1 + d * s2) * a + (c * t1 + d * t2) * b;
    }
    SpannedBy(a, b, c * p + d * q, c * s1 + d * s2, c * t1 + d * t2);
  }

  /** One turn: (p, q) becomes (q, p mod q), and the combinations stay the same. */
  lemma TurnKeepsSpan(a: int, b: int, p: int, q: int)
    requires q != 0 && Spanned(a, b, p) && Spanned(a, b, q) && Spanned(p, q, a) && Spanned(p, q, b)
    ensures Spanned(a, b, FloorMod(p, q))
    ensures Spanned(q, FloorMod(p, q), a) && Spanned(q, FloorMod(p, q), b)
  {
    var r, k := FloorMod(p, q), FloorDiv(p, q);
    FloorDivMod(p, q);
    assert r == 1 * p + (-k) * q;
    SpanCombination(a, b, p, q, 1, -k);
    assert p == k * q + 1 * r && q == 1 * q + 0 * r;
    SpannedBy(q, r, p, k, 1);
    SpannedBy(q, r, q, 1, 0);
    SpanThrough(q, r, p, q, a);
    SpanThrough(q, r, p, q, b);
  }

  lemma SpanThrough(a: int, b: int, p: int, q: int, x: int)
    requires Spanned(a, b, p) && Spanned(a, b, q) && Spanned(p, q, x)
    ensures Spanned(a, b, x)
  {
    var s, t :| Combines(p, q, x, s, t);
    SpanCombination(a, b, p, q, s, t);
  }

  lemma SpanOfOne(p: int, x: int)
    requires Spanned(p, 0, x)
    ensures Divides(Abs(p), x)
  {
    var s, t :| Combines(p, 0, x, s, t);
    assert t * 0 == 0;
    DividesBy(Abs(p), x, if p < 0 then -s else s);
  }

  lemma SpanOfAbs(a: int, b: int, p: int)
    requires Spanned(a, b, p)
    ensures Spanned(a, b, Abs(p))
  {
    if p < 0 {
      SpanCombination(a, b, p, p, -1, 0);
    }
  }

  /** gcf for integer arguments; the epsilon of the floating-point case plays no part. */
  method Gcf(a: int, b: int) returns (g: int)
    ensures IsGcf(a, b, g)
  {
    var result := if a >= b then a else b;
    var remainder := if a >= b then b else a;
    SpannedBy(a, b, a, 1, 0);
    SpannedBy(a, b, b, 0, 1);
    SpannedBy(b, a, a, 0, 1);
    SpannedBy(b, a, b, 1, 0);
    while remainder != 0
      invariant Spanned(a, b, result) && Spanned(a, b, remainder)
      invariant Spanned(result, remainder, a) && Spanned(result, remainder, b)
      decreases Abs(remainder)
    {
      TurnKeepsSpan(a, b, result, remainder);
      var newRemainder := FloorMod(result, remainder);
      result := remainder;
      remainder := newRemainder;
    }
    g := Abs(result);
    SpanOfOne(result, a);
    SpanOfOne(result, b);
    SpanOfAbs(a, b, result);
  }

  // ----- least common multiple

  /** Dividing both numbers by their greatest common factor leaves none. */
  lemma Cofactors(a: int, b: int, g: int, x: int, y: int)
    requires IsGcf(a, b, g) && g != 0 && a == g * x && b == g * y
    ensures Spanned(x, y, 1)
  {
    var s, t :| Combines(a, b, g, s, t);
    calc {
      g * 1;
      s * (g * x) + t * (g * y);
      g * (s * x) + g * (t * y);
      g * (s * x + t * y);
    }
    CancelFactor(g, 1, s * x + t * y);
    SpannedBy(x, y, 1, s, t);
  }

  lemma CancelFactor(g: int, x: int, y: int)
    requires g != 0 && g * x == g * y
    ensures x == y
  {
    assert g * (x - y) == 0;
    if x != y {
      AbsProduct(g, x - y);
      ProductBound(Abs(g), Abs(x - y));
    }
  }

  /** A number without common factor with y that divides y * m divides m. */
  lemma CoprimeDivides(x: int, y: int, k: int, m: int)
    requires Spanned(x, y, 1) && x * k == y * m
    ensures Divides(x, m)
  {
    var s, t :| Combines(x, y, 1, s, t);
    calc {
      m;
      (s * x + t * y) * m;
      s * x * m + t * y * m;
      s * x * m + t * (y * m);
      s * x * m + t * (x * k);
      x * (s * m) + x * (t * k);
      x * (s * m + t * k);
    }
    DividesBy(x, m, s * m + t * k);
  }

  lemma ExactQuotient(g: int, b: int)
    requires g > 0 && Divides(g, b)
    ensures b == g * FloorDiv(b, g)
  {
    var k :| b == g * k;
    FloorDivMod(b, g);
    var r := FloorMod(b, g);
    assert g * (k - FloorDiv(b, g)) == r;
    if k != FloorDiv(b, g) {
      AbsProduct(g, k - FloorDiv(b, g));
      ProductBound(Abs(g), Abs(k - FloorDiv(b, g)));
    }
  }

  /** result is a common multiple of a and b that divides every common multiple. */
  ghost predicate IsLcm(a: int, b: int, result: int) {
    Divides(a, result) && Divides(b, result) && forall m :: Divides(a, m) && Divides(b, m) ==> Divides(result, m)
  }

  lemma CancelCofactors(g: int, x: int, y: int, k: int, l: int)
    requires g != 0 && (g * x) * k == (g * y) * l
    ensures x * k == y * l
  {
    assert g * (x * k) == (g * x) * k && g * (y * l) == (g * y) * l;
    CancelFactor(g, x * k, y * l);
  }

  lemma MultipleOfBoth(a: int, y: int, k: int, m: int)
    requires m == a * k && Divides(y, k)
    ensures Divides(a * y, m)
  {
    var n :| k == y * n;
    assert a * (y * n) == a * y * n;
    DividesBy(a * y, m, n);
  }

  lemma ProductOfCofactors(a: int, b: int, g: int, x: int, y: int, m: int)
    requires IsGcf(a, b, g) && g > 0 && a == g * x && b == g * y
    requires Divides(a, m) && Divides(b, m)
    ensures Divides(a * y, m)
  {
    var k :| m == a * k;
    var l :| m == b * l;
    CancelCofactors(g, x, y, k, l);
    Cofactors(a, b, g, x, y);
    SpanSwap(x, y);
    CoprimeDivides(y, x, l, k);
    MultipleOfBoth(a, y, k, m);
  }

  lemma SpanSwap(x: int, y: int)
    requires Spanned(x, y, 1)
    ensures Spanned(y, x, 1)
  {
    var s, t :| Combines(x, y, 1, s, t);
    SpannedBy(y, x, 1, t, s);
  }

  lemma LcmOfZeros()
    ensures IsLcm(0, 0, 0)
  {
    DividesBy(0, 0, 0);
    forall m | Divides(0, m) ensures Divides(0, m) {
    }
  }

  lemma LcmFacts(a: int, b: int, g: int)
    requires IsGcf(a, b, g) && g > 0
    ensures IsLcm(a, b, a * FloorDiv(b, g))
    ensures a * FloorDiv(b, g) * g == a * b
    ensures Abs(a * FloorDiv(b, g)) * g == Abs(a * b)
  {
    var x, y := FloorDiv(a, g), FloorDiv(b, g);
    ExactQuotient(g, a);
    ExactQuotient(g, b);
    DividesBy(a, a * y, y);
    assert a * y == g * y * x;
    DividesBy(b, a * y, x);
    forall m | Divides(a, m) && Divides(b, m) ensures Divides(a * y, m) {
      ProductOfCofactors(a, b, g, x, y, m);
    }
    assert a * y * g == a * (g * y);
    AbsProduct(a * y, g);
  }

  lemma GcfUnique(a: int, b: int, g: int, h: int)
    requires IsGcf(a, b, g) && IsGcf(a, b, h)
    ensures g == h
  {
    GcfPositive(a, b, g);
    GcfPositive(a, b, h);
    if g != 0 {
      GcfIsGreatest(a, b, g, h);
      GcfIsGreatest(a, b, h, g);
    }
  }

  /** lcm for integer arguments. */
  method Lcm(a: int, b: int) returns (result: int)
    ensures IsLcm(a, b, result)
    ensures forall g :: IsGcf(a, b, g) ==> result * g == a * b && Abs(result) * g == Abs(a * b)
  {
    var denom := Gcf(a, b);
    GcfPositive(a, b, denom);
    if denom == 0 {
      result := 0;
      LcmOfZeros();
    } else {
      result := a * FloorDiv(b, denom);
      LcmFacts(a, b, denom);
    }
    forall g | IsGcf(a, b, g) ensures g == denom {
      GcfUnique(a, b, g, denom);
    }
  }

  /** No common multiple but 0 is smaller in absolute value. */
  lemma LcmIsLeast(a: int, b: int, result: int, m: int)
    requires IsLcm(a, b, result) && Divides(a, m) && Divides(b, m) && m != 0
    ensures Abs(result) <= Abs(m)
  {
    var k :| m == result * k;
    AbsProduct(result, k);
    assert result * 0 == 0;
    ProductBound(Abs(result), Abs(k));
  }

  // ----- reduced fractions

  /** (n, d) is the fraction with a positive common factor g taken out and none left. */
  ghost predicate IsReduced(numerator: int, denominator: int, n: int, d: int) {
    Spanned(n, d, 1) && exists g :: g > 0 && numerator == g * n && denominator == g * d
  }

  /** reduce_fraction; None stands for the ZeroDivisionError of the fraction (0, 0). */
  method ReduceFraction(numerator: int, denominator: int) returns (result: Option<(int, int)>)
    ensures result == None <==> numerator == 0 && denominator == 0
    ensures result.Some? ==> IsReduced(numerator, denominator, result.value.0, result.value.1)
  {
    var factor := Gcf(numerator, denominator);
    var commonFactor := Abs(factor);
    GcfPositive(numerator, denominator, factor);
    if commonFactor == 0 {
      return None;
    }
    ExactQuotient(factor, numerator);
    ExactQuotient(factor, denominator);
    Cofactors(numerator, denominator, factor, FloorDiv(numerator, factor), FloorDiv(denominator, factor));
    return Some((FloorDiv(numerator, commonFactor), FloorDiv(denominator, commonFactor)));
  }

  /** A reduced fraction has the same value, only 1 and -1 divide both its parts, and it is the only one. */
  lemma ReducedIsUnique(numerator: int, denominator: int, n: int, d: int, n': int, d': int)
    requires IsReduced(numerator, denominator, n, d) && IsReduced(numerator, denominator, n', d')
    ensures numerator * d == denominator * n
    ensures forall f :: Divides(f, n) && Divides(f, d) ==> Abs(f) == 1
    ensures n == n' && d == d'
  {
    var g :| g > 0 && numerator == g * n && denominator == g * d;
    var h :| h > 0 && numerator == h * n' && denominator == h * d';
    assert g * n * d == g * d * n;
    forall f | Divides(f, n) && Divides(f, d) ensures Abs(f) == 1 {
      var s, t :| Combines(n, d, 1, s, t);
      DividesCombination(f, n, d, s, t);
      DivisorBound(f, 1);
    }
    FactorIsGcf(numerator, denominator, g, n, d);
    FactorIsGcf(numerator, denominator, h, n', d');
    GcfUnique(numerator, denominator, g, h);
    CancelFactor(g, n, n');
    CancelFactor(g, d, d');
  }

  lemma FactorIsGcf(a: int, b: int, g: int, n: int, d: int)
    requires Spanned(n, d, 1) && g > 0 && a == g * n && b == g * d
    ensures IsGcf(a, b, g)
  {
    var s, t :| Combines(n, d, 1, s, t);
    calc {
      g;
      g * (s * n + t * d);
      g * (s * n) + g * (t * d);
      s * (g * n) + t * (g * d);
    }
    SpannedBy(a, b, g, s, t);
    DividesBy(g, a, n);
    DividesBy(g, b, d);
  }
}
