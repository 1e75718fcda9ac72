/**
 * Exact ratios in lowest terms.
 *
 * The rest of the model carries a ratio by its rational value (a real). Canonical below is what
 * makes that faithful: two ratios are the same object exactly when they are the same rational.
 */
module ExactRatios {
  import opened Outcomes

  datatype RatioError = ZeroDenominator

  datatype ExactRatio = ExactRatio(numerator: int, denominator: int)

  function Abs(n: int): nat {
    if n < 0 then -n else n
  }

  /** Euclid's algorithm, which math.gcd performs on absolute values. */
  function Gcd(a: nat, b: nat): nat
    decreases b
  {
    if b == 0 then a else Gcd(b, a % b)
  }

  function Sign(n: int): int {
    if n < 0 then -1 else 1
  }

  function Make(numerator: int, denominator: int): Result<ExactRatio, RatioError> {
    if denominator == 0 then Raise(ZeroDenominator)
    else
      var divisor := Gcd(Abs(numerator), Abs(denominator));
      GcdPositive(Abs(numerator), Abs(denominator));
      Ok(ExactRatio(Sign(denominator) * numerator / divisor, Abs(denominator) / divisor))
  }

  lemma {:induction false} GcdPositive(a: nat, b: nat)
    requires a > 0 || b > 0
    ensures Gcd(a, b) > 0
    decreases b
  {
    if b > 0 { GcdPositive(b, a % b); }
  }

  lemma StrictlyMore(d: int, low: int, high: int)
    requires d > 0 && low < high
    ensures d * low + d <= d * high
  {
    assert d * (high - low - 1) >= 0;
  }

  lemma QuotientUnique(d: int, q: int, r: int, q': int, r': int)
    requires 0 <= r < d && 0 <= r' < d && d * q + r == d * q' + r'
    ensures q == q' && r == r'
  {
    if q > q' {
      StrictlyMore(d, q', q);
    } else if q < q' {
      StrictlyMore(d, q, q');
    }
  }

  lemma DivModUnique(n: int, d: int, q: int, r: int)
    requires 0 <= r < d && n == d * q + r
    ensures n / d == q && n % d == r
  {
    QuotientUnique(d, n / d, n % d, q, r);
  }

  lemma ModScales(k: nat, a: nat, b: nat)
    requires k > 0 && b > 0
    ensures k * b > 0 && (k * a) % (k * b) == k * (a % b)
  {
    var q, r := a / b, a % b;
    assert k * a == (k * b) * q + k * r by {
      assert a == b * q + r;
      assert k * (b * q + r) == k * (b * q) + k * r;
      assert k * (b * q) == (k * b) * q;
    }
    assert 0 <= k * r < k * b;
    DivModUnique(k * a, k * b, q, k * r);
  }

  lemma {:induction false} GcdScales(k: nat, a: nat, b: nat)
    requires k > 0
    ensures Gcd(k * a, k * b) == k * Gcd(a, b)
    decreases b
  {
    if b > 0 {
      ModScales(k, a, b);
      GcdScales(k, b, a % b);
    } else {
      assert k * b == 0;
    }
  }

  lemma Recombine(g: int, u: int, v: int, b: int, quotient: int)
    requires b == g * u
    ensures b * quotient + g * v == g * (u * quotient + v)
  {
    assert (g * u) * quotient == g * (u * quotient);
  }

  lemma {:induction false} GcdDivides(a: nat, b: nat) returns (x: nat, y: nat)
    ensures a == Gcd(a, b) * x && b == Gcd(a, b) * y
    decreases b
  {
    if b == 0 {
      x, y := 1, 0;
    } else {
      var u, v := GcdDivides(b, a % b);
      Recombine(Gcd(a, b), u, v, b, a / b);
      x, y := u * (a / b) + v, u;
      assert a == b * (a / b) + a % b;
    }
  }

  /** The parts of a constructed ratio, described by multiplication instead of division. */
  lemma MakeParts(numerator: int, denominator: int) returns (g: nat, p: int, q: nat)
    requires denominator != 0
    ensures g == Gcd(Abs(numerator), Abs(denominator)) > 0
    ensures Make(numerator, denominator) == Ok(ExactRatio(p, q))
    ensures Sign(denominator) * numerator == g * p && Abs(denominator) == g * q && q > 0
  {
    g := Gcd(Abs(numerator), Abs(denominator));
    GcdPositive(Abs(numerator), Abs(denominator));
    var x, y := GcdDivides(Abs(numerator), Abs(denominator));
    p := Sign(denominator) * Sign(numerator) * x;
    q := y;
    assert q > 0 by { assert g * 0 == 0; }
    assert Sign(denominator) * numerator == g * p by {
      if Sign(denominator) * Sign(numerator) == -1 { assert g * p == -(g * x); }
    }
    PartsMake(numerator, denominator, g, p, q);
  }

  lemma PartsMake(numerator: int, denominator: int, g: nat, p: int, q: nat)
    requires denominator != 0 && g > 0
    requires g == Gcd(Abs(numerator), Abs(denominator))
    requires Sign(denominator) * numerator == g * p && Abs(denominator) == g * q
    ensures Make(numerator, denominator) == Ok(ExactRatio(p, q))
  {
    DivModUnique(Sign(denominator) * numerator, g, p, 0);
    DivModUnique(Abs(denominator), g, q, 0);
  }

  lemma CrossProduct(n: int, d: int, g: int, p: int, q: int)
    requires Sign(d) * n == g * p && Abs(d) == g * q
    ensures p * d == n * q || g == 0
  {
    assert (g * p) * (g * q) == (g * q) * (g * p);
    var s := Sign(d);
    assert d == s * (g * q) && n == s * (g * p);
    assert p * (s * (g * q)) == s * ((g * p) * q);
    assert (s * (g * p)) * q == s * ((g * p) * q);
  }

  lemma UnitFactor(g: nat, h: nat)
    requires g > 0 && g == g * h
    ensures h == 1
  {
    assert g * (h - 1) == 0;
  }

  /** Construction keeps the rational and reaches lowest terms with a positive denominator. */
  lemma MakeReduces(numerator: int, denominator: int)
    ensures Make(numerator, denominator).Raise? <==> denominator == 0
    ensures denominator != 0 ==>
              var r := Make(numerator, denominator).value;
              && r.denominator > 0
              && r.numerator * denominator == numerator * r.denominator
              && Gcd(Abs(r.numerator), r.denominator) == 1
  {
    if denominator != 0 {
      var g, p, q := MakeParts(numerator, denominator);
      CrossProduct(numerator, denominator, g, p, q);
      assert Abs(numerator) == g * Abs(p) by { AbsProduct(g, p); }
      GcdScales(g, Abs(p), q);
      UnitFactor(g, Gcd(Abs(p), q));
    }
  }

  lemma ProductSign(a: int, b: int)
    requires a != 0 && b != 0
    ensures a * b != 0 && Sign(a * b) == Sign(a) * Sign(b)
  {
    if a > 0 && b > 0 { assert a * b > 0; }
    if a < 0 && b < 0 { assert (-a) * (-b) > 0; }
    if a > 0 && b < 0 { assert a * (-b) > 0; }
    if a < 0 && b > 0 { assert (-a) * b > 0; }
  }

  lemma AbsProduct(a: int, b: int)
    ensures Abs(a * b) == Abs(a) * Abs(b)
  {
    if a != 0 && b != 0 {
      ProductSign(a, b);
      assert (-a) * b == -(a * b) && a * (-b) == -(a * b) && (-a) * (-b) == a * b;
    }
  }

  lemma ScaledParts(n: int, d: int, k: int, g: int, p: int, q: int)
    requires d != 0 && k != 0
    requires Sign(d) * n == g * p && Abs(d) == g * q
    ensures d * k != 0
    ensures Sign(d * k) * (n * k) == (Abs(k) * g) * p
    ensures Abs(d * k) == (Abs(k) * g) * q
  {
    ProductSign(d, k);
    AbsProduct(d, k);
    assert Abs(k) == Sign(k) * k;
    assert Sign(d * k) * (n * k) == (Sign(k) * k) * (Sign(d) * n);
    assert Abs(k) * (g * p) == (Abs(k) * g) * p;
    assert Abs(k) * (g * q) == (Abs(k) * g) * q;
  }

  /** Multiplying both parts by a non-zero factor constructs the same ratio. */
  lemma MakeScales(numerator: int, denominator: int, k: int)
    requires denominator != 0 && k != 0
    ensures denominator * k != 0
    ensures Make(numerator * k, denominator * k) == Make(numerator, denominator)
  {
    var g, p, q := MakeParts(numerator, denominator);
    ScaledParts(numerator, denominator, k, g, p, q);
    AbsProduct(k, numerator);
    AbsProduct(k, denominator);
    assert k * numerator == numerator * k && k * denominator == denominator * k;
    GcdScales(Abs(k), Abs(numerator), Abs(denominator));
    GcdPositive(Abs(numerator * k), Abs(denominator * k));
    PartsMake(numerator * k, denominator * k, Abs(k) * g, p, q);
  }

  /** Structural equality of constructed ratios is equality of rationals, for all inputs. */
  lemma Canonical(a: int, b: int, c: int, d: int)
    requires b != 0 && d != 0
    ensures Make(a, b) == Make(c, d) <==> a * d == c * b
  {
    if a * d == c * b {
      MakeScales(a, b, d);
      MakeScales(c, d, b);
      assert b * d == d * b;
    }
    if Make(a, b) == Make(c, d) {
      MakeReduces(a, b);
      MakeReduces(c, d);
      SameQuotient(a, b, c, d, Make(a, b).value.numerator, Make(a, b).value.denominator);
    }
  }

  lemma SameQuotient(a: int, b: int, c: int, d: int, n: int, m: int)
    requires m > 0 && n * b == a * m && n * d == c * m
    ensures a * d == c * b
  {
    assert (a * d) * m == (a * m) * d == (n * b) * d == (n * d) * b == (c * m) * b == (c * b) * m;
    assert (a * d - c * b) * m == 0;
  }
}
