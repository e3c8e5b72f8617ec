/** Exact rationals in lowest terms, as Python's `fractions.Fraction` keeps them. */
module Fractions {

  // Euclid's algorithm, by subtraction.

  function Gcd(a: nat, b: nat): nat
    decreases a + b
  {
    if a == 0 then b
    else if b == 0 then a
    else if a <= b then Gcd(a, b - a)
    else Gcd(a - b, b)
  }

  /** `a` and `b` without their greatest common divisor. */
  function Cofactors(a: nat, b: nat): (nat, nat)
    decreases a + b
  {
    if a == 0 then (0, 1)
    else if b == 0 then (1, 0)
    else if a <= b then
      var (p, q) := Cofactors(a, b - a);
      (p, p + q)
    else
      var (p, q) := Cofactors(a - b, b);
      (p + q, q)
  }

  function Abs(n: int): nat {
    if n < 0 then -n else n
  }

  datatype Frac = Frac(num: int, den: int) {
    predicate Valid() {
      0 < den && Gcd(Abs(num), den) == 1
    }
  }

  /** `Fraction(n, d)` for a positive denominator. */
  function Make(n: int, d: int): (r: Frac)
    requires 0 < d
    ensures 0 < r.den
  {
    CofactorsDivide(Abs(n), d);
    var (p, q) := Cofactors(Abs(n), d);
    Frac(if n < 0 then 0 - p else p, q)
  }

  function Whole(n: int): Frac {
    Frac(n, 1)
  }

  // Comparisons and arithmetic, cross-multiplied.

  predicate Less(a: Frac, b: Frac) {
    a.num * b.den < b.num * a.den
  }

  predicate AtMost(a: Frac, b: Frac) {
    a.num * b.den <= b.num * a.den
  }

  function Plus(a: Frac, b: Frac): (r: Frac)
    requires 0 < a.den && 0 < b.den
    ensures 0 < r.den
  {
    ProductPositive(a.den, b.den);
    Make(a.num * b.den + b.num * a.den, a.den * b.den)
  }

  function Minus(a: Frac, b: Frac): (r: Frac)
    requires 0 < a.den && 0 < b.den
    ensures 0 < r.den
  {
    Plus(a, Frac(-b.num, b.den))
  }

  function Times(a: Frac, b: Frac): (r: Frac)
    requires 0 < a.den && 0 < b.den
    ensures 0 < r.den
  {
    ProductPositive(a.den, b.den);
    Make(a.num * b.num, a.den * b.den)
  }

  lemma ProductPositive(a: int, b: int)
    requires 0 < a && 0 < b
    ensures 0 < a * b
  {
  }

  // ---------------------------------------------------------------------------------
  // The greatest common divisor
  // ---------------------------------------------------------------------------------

  lemma {:induction false} GcdPositive(a: nat, b: nat)
    requires 0 < a || 0 < b
    ensures 0 < Gcd(a, b)
    decreases a + b
  {
    if a != 0 && b != 0 {
      if a <= b { GcdPositive(a, b - a); } else { GcdPositive(a - b, b); }
    }
  }

  lemma {:induction false} CofactorsDivide(a: nat, b: nat)
    ensures a == Gcd(a, b) * Cofactors(a, b).0 && b == Gcd(a, b) * Cofactors(a, b).1
    ensures 0 < b ==> 0 < Cofactors(a, b).1
    decreases a + b
  {
    if a == 0 || b == 0 {
    } else if a <= b {
      CofactorsDivide(a, b - a);
      Distributes(Gcd(a, b), Cofactors(a, b - a).0, Cofactors(a, b - a).1);
      if a < b { assert 0 < Cofactors(a, b - a).1; } else { assert Cofactors(a, 0) == (1, 0); }
    } else {
      CofactorsDivide(a - b, b);
      Distributes(Gcd(a, b), Cofactors(a - b, b).0, Cofactors(a - b, b).1);
    }
  }

  lemma Distributes(g: int, u: int, v: int)
    ensures g * (u + v) == g * u + g * v
  {
  }

  /** Bezout's identity. */
  lemma {:induction false} Combination(a: nat, b: nat) returns (x: int, y: int)
    ensures a * x + b * y == Gcd(a, b)
    decreases a + b
  {
    if a == 0 {
      x, y := 0, 1;
    } else if b == 0 {
      x, y := 1, 0;
    } else if a <= b {
      var u, v := Combination(a, b - a);
      x, y := u - v, v;
      Shifted(a, b, u, v);
    } else {
      var u, v := Combination(a - b, b);
      x, y := u, v - u;
      Shifted(b, a, v, u);
    }
  }

  lemma Shifted(a: int, b: int, u: int, v: int)
    ensures a * u + (b - a) * v == a * (u - v) + b * v
  {
  }

  /** A divisor of a product that is coprime to one factor divides the other. */
  lemma CoprimeDivides(a: nat, b: nat, c: int, m: int) returns (k: int)
    requires Gcd(a, b) == 1 && a * c == b * m
    ensures c == b * k
  {
    var x, y := Combination(a, b);
    k := m * x + c * y;
    Substitute(a, b, c, m, x, y);
  }

  lemma Substitute(a: int, b: int, c: int, m: int, x: int, y: int)
    requires a * x + b * y == 1 && a * c == b * m
    ensures c == b * (m * x + c * y)
  {
  }

  lemma UnitCombination(a: nat, b: nat, x: int, y: int)
    requires a * x + b * y == 1
    ensures Gcd(a, b) == 1
  {
    var g := Gcd(a, b);
    CofactorsDivide(a, b);
    var (p, q) := Cofactors(a, b);
    Collect(a, b, g, p, q, x, y);
    FactorOfOne(g, p * x + q * y);
  }

  lemma Collect(a: int, b: int, g: int, p: int, q: int, x: int, y: int)
    requires a == g * p && b == g * q
    ensures a * x + b * y == g * (p * x + q * y)
  {
  }

  lemma FactorOfOne(g: nat, t: int)
    requires g * t == 1
    ensures g == 1
  {
  }

  lemma MulOrder(g: nat, s: int, t: int)
    requires s <= t
    ensures g * s <= g * t
  {
  }

  // ---------------------------------------------------------------------------------
  // Lowest terms
  // ---------------------------------------------------------------------------------

  /** The cofactors of the greatest common divisor are coprime. */
  lemma CofactorsCoprime(a: nat, b: nat, p: nat, q: nat)
    requires a == Gcd(a, b) * p && b == Gcd(a, b) * q && 0 < Gcd(a, b)
    ensures Gcd(p, q) == 1
  {
    var g := Gcd(a, b);
    var x, y := Combination(a, b);
    Collect(a, b, g, p, q, x, y);
    CancelFactor(g, p * x + q * y, 1);
    UnitCombination(p, q, x, y);
  }

  /** A fraction is made in lowest terms and keeps its value. */
  lemma MakeIsValid(n: int, d: int)
    requires 0 < d
    ensures Make(n, d).Valid() && Make(n, d).num * d == n * Make(n, d).den
  {
    GcdPositive(Abs(n), d);
    CofactorsDivide(Abs(n), d);
    var g := Gcd(Abs(n), d);
    var (p, q) := Cofactors(Abs(n), d);
    CofactorsCoprime(Abs(n), d, p, q);
    Negated(g, p);
    Proportional(n, d, g, Make(n, d).num, q);
  }

  lemma Negated(g: int, p: int)
    ensures g * -p == -(g * p)
  {
  }

  lemma Proportional(n: int, d: int, g: int, s: int, q: int)
    requires n == g * s && d == g * q
    ensures s * d == n * q
  {
  }

  lemma NaturalQuotient(n: int, d: int, m: nat, e: int)
    requires 0 < d && 0 < e && n * d == m * e
    ensures 0 <= n
  {
  }

  lemma CancelFactor(g: int, s: int, t: int)
    requires g != 0 && g * s == g * t
    ensures s == t
  {
  }

  /** Lowest terms are unique: equal values are equal fractions. */
  lemma ValidIsUnique(a: Frac, b: Frac)
    requires a.Valid() && b.Valid() && a.num * b.den == b.num * a.den
    ensures a == b
  {
    AbsProduct(a.num, b.den);
    AbsProduct(b.num, a.den);
    var k := CoprimeDivides(Abs(a.num), a.den, b.den, Abs(b.num));
    var m := CoprimeDivides(Abs(b.num), b.den, a.den, Abs(a.num));
    // b.den == a.den * k and a.den == b.den * m
    if k <= 0 { MulOrder(a.den, k, 0); }
    if m <= 0 { MulOrder(b.den, m, 0); }
    MulOrder(a.den, 1, k);
    MulOrder(b.den, 1, m);
    CancelFactor(a.den, a.num, b.num);
  }

  lemma AbsProduct(n: int, d: int)
    requires 0 < d
    ensures Abs(n * d) == Abs(n) * d
  {
  }

  /** What a fraction made from a numerator and a denominator is. */
  lemma MakeIs(n: int, d: int, f: Frac)
    requires 0 < d && f.Valid() && f.num * d == n * f.den
    ensures Make(n, d) == f
  {
    MakeIsValid(n, d);
    var r := Make(n, d);
    CrossCancel(n, d, r.num, r.den, f.num, f.den);
    ValidIsUnique(r, f);
  }

  lemma PlusIs(a: Frac, b: Frac)
    requires 0 < a.den && 0 < b.den
    ensures var r := Plus(a, b);
            r.Valid() && r.num * (a.den * b.den) == (a.num * b.den + b.num * a.den) * r.den
  {
    ProductPositive(a.den, b.den);
    MakeIsValid(a.num * b.den + b.num * a.den, a.den * b.den);
  }

  lemma TimesIs(a: Frac, b: Frac)
    requires 0 < a.den && 0 < b.den
    ensures var r := Times(a, b);
            r.Valid() && r.num * (a.den * b.den) == (a.num * b.num) * r.den
  {
    ProductPositive(a.den, b.den);
    MakeIsValid(a.num * b.num, a.den * b.den);
  }

  lemma CrossCancel(n: int, d: int, a: int, b: int, p: int, q: int)
    requires d != 0 && a * d == n * b && p * d == n * q
    ensures a * q == p * b
  {
  }

  // ---------------------------------------------------------------------------------
  // The value of a fraction
  // ---------------------------------------------------------------------------------

  function Val(f: Frac): real
    requires 0 < f.den
  {
    f.num as real / f.den as real
  }
}
