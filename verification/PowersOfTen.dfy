/** Powers, and which denominators divide a power of ten. */
module PowersOfTen {

  function Pow(b: nat, n: nat): nat
    decreases n
  {
    if n == 0 then 1 else b * Pow(b, n - 1)
  }

  /** How often `p` can be divided out of `n`, and what is left. */
  function Multiplicity(n: nat, p: nat): nat
    requires 0 < n && 1 < p
    decreases n
  {
    if n % p == 0 then QuotientShrinks(n, p); 1 + Multiplicity(n / p, p) else 0
  }

  function Rest(n: nat, p: nat): (r: nat)
    requires 0 < n && 1 < p
    ensures 0 < r
    decreases n
  {
    if n % p == 0 then QuotientShrinks(n, p); Rest(n / p, p) else n
  }

  lemma QuotientShrinks(n: nat, p: nat)
    requires 0 < n && 1 < p && n % p == 0
    ensures 0 < n / p < n && n == p * (n / p)
  {
    var q := n / p;
    assert n == p * q;
    if q <= 0 { MulMonotone(p, q, 0); }
    if n <= q { MulMonotone(q, 2, p); }
  }

  lemma MulMonotone(a: nat, x: int, y: int)
    requires x <= y
    ensures a * x <= a * y && x * a <= y * a
  {
  }

  lemma {:induction false} PowPositive(b: nat, n: nat)
    requires 0 < b
    ensures 0 < Pow(b, n)
  {
    if n != 0 { PowPositive(b, n - 1); }
  }

  lemma {:induction false} PowAdds(b: nat, m: nat, n: nat)
    ensures Pow(b, m + n) == Pow(b, m) * Pow(b, n)
  {
    if m != 0 {
      PowAdds(b, m - 1, n);
      Associate(b, Pow(b, m - 1), Pow(b, n));
    }
  }

  lemma Associate(a: int, b: int, c: int)
    ensures a * (b * c) == (a * b) * c
  {
  }

  lemma {:induction false} TenSplits(n: nat)
    ensures Pow(10, n) == Pow(2, n) * Pow(5, n)
  {
    if n != 0 {
      TenSplits(n - 1);
      var a, b := Pow(2, n - 1), Pow(5, n - 1);
      assert (2 * a) * (5 * b) == 10 * (a * b);
    }
  }

  lemma {:induction false} RestFactors(n: nat, p: nat)
    requires 0 < n && 1 < p
    ensures n == Pow(p, Multiplicity(n, p)) * Rest(n, p) && Rest(n, p) % p != 0
    decreases n
  {
    if n % p == 0 {
      QuotientShrinks(n, p);
      RestFactors(n / p, p);
      Associate(p, Pow(p, Multiplicity(n / p, p)), Rest(n / p, p));
    }
  }

  // ---------------------------------------------------------------------------------
  // Divisors of 2^i 5^j
  // ---------------------------------------------------------------------------------

  /** Two and five are prime. */
  lemma EvenProduct(a: nat, b: nat)
    requires (a * b) % 2 == 0 && a % 2 != 0
    ensures b % 2 == 0
  {
    var x, y, s := a / 2, b / 2, b % 2;
    assert a * b == 2 * (2 * (x * y) + x * s + y) + s by {
      assert (2 * x + 1) * (2 * y + s) == 4 * (x * y) + 2 * (x * s) + 2 * y + s;
    }
  }

  lemma FiveProduct(a: nat, b: nat)
    requires (a * b) % 5 == 0 && a % 5 != 0
    ensures b % 5 == 0
  {
    var x, y, r, s := a / 5, b / 5, a % 5, b % 5;
    assert a * b == 5 * (5 * (x * y) + x * s + y * r) + r * s by {
      assert (5 * x + r) * (5 * y + s) == 25 * (x * y) + 5 * (x * s) + 5 * (y * r) + r * s;
    }
    RemainderOf(5 * (x * y) + x * s + y * r, r * s);
    assert (r * s) % 5 == 0;
    SmallProduct(r, s);
  }

  lemma RemainderOf(q: int, r: int)
    ensures (5 * q + r) % 5 == r % 5
  {
  }

  lemma SmallProduct(r: nat, s: nat)
    requires 1 <= r < 5 && s < 5 && (r * s) % 5 == 0
    ensures s == 0
  {
  }

  lemma {:induction false} PowerOfFiveIsOdd(n: nat)
    ensures Pow(5, n) % 2 == 1
  {
    if n != 0 { PowerOfFiveIsOdd(n - 1); }
  }

  lemma {:induction false} PowerOfTwoIsNoFive(n: nat)
    ensures Pow(2, n) % 5 != 0
  {
    if n != 0 { PowerOfTwoIsNoFive(n - 1); }
  }

  lemma CancelOne(p: nat, a: int, x: int, c: int, b: int)
    requires p != 0 && (p * a) * x == c * (p * b)
    ensures a * x == c * b
  {
  }

  lemma CancelFirst(p: nat, a: int, x: int, d: int, b: int)
    requires p != 0 && (p * a) * x == (p * d) * b
    ensures a * x == d * b
  {
  }

  lemma MultipleOfProduct(p: nat, a: int, x: int, c: int)
    requires 0 < p && (p * a) * x == c
    ensures c % p == 0
  {
    assert c == p * (a * x);
    MultipleHasNoRemainder(p, a * x);
  }

  lemma MultipleHasNoRemainder(p: nat, q: int)
    requires 0 < p
    ensures (p * q) % p == 0
  {
    var r, k := (p * q) % p, (p * q) / p;
    assert r == p * (q - k) by { assert p * (q - k) == p * q - p * k; }
    if q - k <= -1 { MulMonotone(p, q - k, -1); }
    if 1 <= q - k { MulMonotone(p, 1, q - k); }
  }

  /** A power of two that divides 2^k 5^j divides 2^k. */
  lemma {:induction false} TwosAtMost(t: nat, x: nat, k: nat, j: nat)
    requires Pow(2, t) * x == Pow(2, k) * Pow(5, j)
    ensures t <= k
    decreases t
  {
    if t != 0 {
      if k == 0 {
        MultipleOfProduct(2, Pow(2, t - 1), x, Pow(5, j));
        PowerOfFiveIsOdd(j);
      } else {
        CancelFirst(2, Pow(2, t - 1), x, Pow(2, k - 1), Pow(5, j));
        TwosAtMost(t - 1, x, k - 1, j);
      }
    }
  }

  /** A power of five that divides 2^k 5^j divides 5^j. */
  lemma {:induction false} FivesAtMost(u: nat, x: nat, k: nat, j: nat)
    requires Pow(5, u) * x == Pow(2, k) * Pow(5, j)
    ensures u <= j
    decreases u
  {
    if u != 0 {
      if j == 0 {
        MultipleOfProduct(5, Pow(5, u - 1), x, Pow(2, k));
        PowerOfTwoIsNoFive(k);
      } else {
        CancelOne(5, Pow(5, u - 1), x, Pow(2, k), Pow(5, j - 1));
        FivesAtMost(u - 1, x, k, j - 1);
      }
    }
  }

  lemma HalveOther(d: nat, m: nat, a: nat, b: nat) returns (h: nat)
    requires d % 2 != 0 && d * m == (2 * a) * b
    ensures d * h == a * b
  {
    MultipleOfProduct(2, a, b, d * m);
    EvenProduct(d, m);
    h := m / 2;
    CancelOne(2, a, b, d, h);
  }

  lemma FifthOther(d: nat, m: nat, b: nat) returns (h: nat)
    requires d % 5 != 0 && d * m == 5 * b
    ensures d * h == b
  {
    MultipleOfProduct(5, b, 1, d * m);
    FiveProduct(d, m);
    h := m / 5;
    CancelOne(5, b, 1, d, h);
  }

  /** What is coprime to two and five and divides 2^k 5^j is one. */
  lemma {:induction false} NothingElse(d: nat, m: nat, k: nat, j: nat)
    requires d % 2 != 0 && d % 5 != 0 && d * m == Pow(2, k) * Pow(5, j)
    ensures d == 1
    decreases k + j
  {
    if 0 < k {
      var h := HalveOther(d, m, Pow(2, k - 1), Pow(5, j));
      NothingElse(d, h, k - 1, j);
    } else if 0 < j {
      var h := FifthOther(d, m, Pow(5, j - 1));
      NothingElse(d, h, 0, j - 1);
    } else {
      UnitFactor(d, m);
    }
  }

  lemma UnitFactor(d: nat, m: nat)
    requires d * m == 1
    ensures d == 1
  {
  }

  // ---------------------------------------------------------------------------------
  // Terminating decimals
  // ---------------------------------------------------------------------------------

  /** The number of fractional digits that a denominator needs, when it has only the prime factors
      two and five. */
  function Scale(den: nat): nat
    requires 0 < den
  {
    var twos, fives := Multiplicity(den, 2), Multiplicity(Rest(den, 2), 5);
    if twos < fives then fives else twos
  }

  predicate Terminates(den: nat)
    requires 0 < den
  {
    Rest(Rest(den, 2), 5) == 1
  }

  ghost predicate Divides(d: nat, n: nat) {
    exists m: nat :: d * m == n
  }

  /** A terminating denominator divides the power of ten of its scale. */
  lemma ScaleSuffices(den: nat) returns (m: nat)
    requires 0 < den && Terminates(den)
    ensures den * m == Pow(10, Scale(den))
  {
    var t, u, k := Multiplicity(den, 2), Multiplicity(Rest(den, 2), 5), Scale(den);
    RestFactors(den, 2);
    RestFactors(Rest(den, 2), 5);
    assert den == Pow(2, t) * Pow(5, u);
    m := Completed(t, u, k);
  }

  lemma Completed(t: nat, u: nat, k: nat) returns (m: nat)
    requires t <= k && u <= k
    ensures (Pow(2, t) * Pow(5, u)) * m == Pow(10, k)
  {
    PowAdds(2, t, k - t);
    PowAdds(5, u, k - u);
    TenSplits(k);
    m := Pow(2, k - t) * Pow(5, k - u);
    Exchange(Pow(2, t), Pow(5, u), Pow(2, k - t), Pow(5, k - u));
  }

  lemma Exchange(a: int, b: int, c: int, d: int)
    ensures (a * b) * (c * d) == (a * c) * (b * d)
  {
  }

  lemma {:induction false} RestKeepsOdd(n: nat)
    requires 0 < n && n % 2 != 0
    ensures Rest(n, 5) % 2 != 0
    decreases n
  {
    if n % 5 == 0 {
      QuotientShrinks(n, 5);
      var h := n / 5;
      OddFifth(n, h);
      assert Rest(n, 5) == Rest(h, 5);
      RestKeepsOdd(h);
    }
  }

  lemma OddFifth(n: nat, h: nat)
    requires n == 5 * h && n % 2 != 0
    ensures h % 2 != 0
  {
  }

  /** Every divisor of a power of ten terminates within that power. */
  lemma DivisorTerminates(den: nat, m: nat, k: nat)
    requires 0 < den && den * m == Pow(10, k)
    ensures Terminates(den) && Scale(den) <= k
  {
    var t, odd := Multiplicity(den, 2), Rest(den, 2);
    var u, rest := Multiplicity(odd, 5), Rest(odd, 5);
    RestFactors(den, 2);
    RestFactors(odd, 5);
    RestKeepsOdd(odd);
    TenSplits(k);
    ghost var p, q := Pow(2, t), Pow(5, u);
    Regroup(p, q, rest, m);
    TwosAtMost(t, q * rest * m, k, k);
    FivesAtMost(u, p * rest * m, k, k);
    NothingElse(rest, p * q * m, k, k);
  }

  lemma Regroup(p: nat, q: nat, r: nat, m: nat)
    ensures (p * (q * r)) * m == p * (q * r * m)
    ensures (p * (q * r)) * m == q * (p * r * m)
    ensures (p * (q * r)) * m == r * (p * q * m)
    ensures 0 <= q * r * m && 0 <= p * r * m && 0 <= p * q * m
  {
  }

  /** The denominators that divide `10^k` are the terminating ones of scale at most `k`. */
  lemma DividesPowerOfTen(den: nat, k: nat)
    requires 0 < den
    ensures Divides(den, Pow(10, k)) <==> Terminates(den) && Scale(den) <= k
  {
    if Divides(den, Pow(10, k)) {
      var m: nat :| den * m == Pow(10, k);
      DivisorTerminates(den, m, k);
    }
    if Terminates(den) && Scale(den) <= k {
      var m := ScaleSuffices(den);
      PowAdds(10, Scale(den), k - Scale(den));
      Associate(den, m, Pow(10, k - Scale(den)));
      assert den * (m * Pow(10, k - Scale(den))) == Pow(10, k);
    }
  }
}
