/** Exactly when a rung's limit price has a canonical spelling. */
module LimitRendering {

  import opened Outcomes
  import opened Fractions
  import opened PowersOfTen
  import opened Decimals
  import opened Domain
  import opened Economics

  /** A value with at most `places` fractional digits, within the canonical size. */
  predicate Fits(f: Frac, places: nat) {
    && f.Valid() && 0 <= f.num && f.num < Pow(10, MAX_WHOLE_DIGITS) * f.den
    && Terminates(f.den) && Scale(f.den) <= places
  }

  lemma FitsMeansFormats(f: Frac)
    requires f.Valid()
    ensures Format(f).Ok? <==> Fits(f, MAX_PLACES)
  {
    Formattable(f);
    DividesPowerOfTen(f.den, MAX_PLACES);
  }

  /** A value at most another one within the canonical size is within it too. */
  lemma BelowToo(a: Frac, b: Frac, bound: nat)
    requires 0 < a.den && 0 < b.den && AtMost(a, b) && b.num < bound * b.den
    ensures a.num < bound * a.den
  {
  }

  lemma LimitIsBounded(limits: Limits, level: Level)
    requires level.Valid() && LimitsValid(limits)
    requires Fits(level.trigger, MAX_PLACES) && Fits(HardPrice(limits, level.side), MAX_PLACES)
    ensures var limit := LegLimitPrice(limits, level);
            && limit.Valid() && 0 < limit.num && limit.num < Pow(10, MAX_WHOLE_DIGITS) * limit.den
            && (limit == Widened(limits, level) || limit == HardPrice(limits, level.side))
  {
    var limit, hard := LegLimitPrice(limits, level), HardPrice(limits, level.side);
    LimitIsClamped(limits, level);
    if level.side == Buy {
      BelowToo(limit, hard, Pow(10, MAX_WHOLE_DIGITS));
    } else if limit != hard {
      SaleNeverAboveTrigger(limits, level);
      BelowToo(limit, level.trigger, Pow(10, MAX_WHOLE_DIGITS));
    }
  }

  lemma SaleNeverAboveTrigger(limits: Limits, level: Level)
    requires level.Valid() && level.side == Sell
    ensures 0 < Widened(limits, level).den && AtMost(Widened(limits, level), level.trigger)
  {
    WidenedIs(limits, level);
    ShrinksBy(Widened(limits, level), level.trigger, SlippageFactor(limits, Sell), limits.slippageBps);
  }

  lemma ShrinksBy(w: Frac, t: Frac, f: Frac, s: nat)
    requires 0 < w.den && 0 < t.den && 0 < f.den && 0 < t.num
    requires f.num * BPS_DENOMINATOR == (BPS_DENOMINATOR - s) * f.den
    requires w.num * (t.den * f.den) == (t.num * f.num) * w.den
    ensures AtMost(w, t)
  {
  }

  lemma PurchaseNeverBelowTrigger(limits: Limits, level: Level)
    requires level.Valid() && level.side == Buy
    ensures AtMost(level.trigger, Widened(limits, level))
  {
    WidenedIs(limits, level);
    GrowsBy(Widened(limits, level), level.trigger, SlippageFactor(limits, Buy), limits.slippageBps);
  }

  lemma GrowsBy(w: Frac, t: Frac, f: Frac, s: nat)
    requires 0 < w.den && 0 < t.den && 0 < f.den && 0 < t.num
    requires f.num * BPS_DENOMINATOR == (BPS_DENOMINATOR + s) * f.den
    requires w.num * (t.den * f.den) == (t.num * f.num) * w.den
    ensures AtMost(t, w)
  {
  }

  /** A rung within the hard price is alive: its limit is never tighter than its own trigger. */
  lemma RungIsAlive(limits: Limits, level: Level)
    requires level.Valid() && LimitsValid(limits)
    requires NoWorse(level.side, level.trigger, HardPrice(limits, level.side))
    ensures NoWorse(level.side, level.trigger, LegLimitPrice(limits, level))
  {
    if level.side == Buy {
      PurchaseNeverBelowTrigger(limits, level);
    } else {
      SaleNeverAboveTrigger(limits, level);
    }
  }

  lemma UnitOverPower(k: nat)
    ensures 0 < Pow(10, k) && Frac(1, Pow(10, k)).Valid() && Fits(Frac(1, Pow(10, k)), k)
  {
    PowPositive(10, k);
    UnitCombination(1, Pow(10, k), 1, 0);
    DivisorTerminates(Pow(10, k), 1, k);
    BoundExceedsOne(MAX_WHOLE_DIGITS);
    MulOrder(Pow(10, k), 2, Pow(10, MAX_WHOLE_DIGITS));
  }

  lemma BoundExceedsOne(w: nat)
    requires 0 < w
    ensures 2 <= Pow(10, w)
  {
  }

  // ---------------------------------------------------------------------------------
  // The exact condition
  // ---------------------------------------------------------------------------------

  /** The widened trigger reaches the hard price, so that the limit is the hard price itself. */
  predicate HardPriceClamps(limits: Limits, level: Level) {
    var hard := HardPrice(limits, level.side);
    var widened := level.trigger.num * FactorBps(limits, level.side) * hard.den;
    var allowed := hard.num * BPS_DENOMINATOR * level.trigger.den;
    if level.side == Buy then allowed <= widened else widened <= allowed
  }

  /** Whether `d` divides `10^k` times a factor. */
  ghost predicate DividesScaled(d: nat, k: nat, factor: int) {
    exists m: nat :: d * m == Pow(10, k) * factor
  }

  /** `w` is `t` times `factor` basis points. */
  predicate IsInBps(w: Frac, t: Frac, factor: int) {
    w.num * (t.den * BPS_DENOMINATOR) == (t.num * factor) * w.den
  }

  /** The widened trigger over the basis-point denominator, with the slippage factor expanded. */
  lemma WidenedInBps(limits: Limits, level: Level)
    requires level.Valid()
    ensures var w := Widened(limits, level);
            && w.Valid()
            && IsInBps(w, level.trigger, FactorBps(limits, level.side))
  {
    WidenedIs(limits, level);
    var w, f := Widened(limits, level), SlippageFactor(limits, level.side);
    ExpandFactor(w.num, w.den, level.trigger.num, level.trigger.den, f.num, f.den, FactorBps(limits, level.side));
  }

  lemma ExpandFactor(n: int, d: int, t: int, s: int, a: int, b: int, factor: int)
    requires 0 < b && a * BPS_DENOMINATOR == factor * b && n * (s * b) == (t * a) * d
    ensures n * (s * BPS_DENOMINATOR) == (t * factor) * d
  {
    assert (n * (s * BPS_DENOMINATOR)) * b == ((t * factor) * d) * b by {
      assert (n * (s * BPS_DENOMINATOR)) * b == (n * (s * b)) * BPS_DENOMINATOR;
      assert ((t * a) * d) * BPS_DENOMINATOR == (t * d) * (a * BPS_DENOMINATOR);
      assert (t * d) * (factor * b) == ((t * factor) * d) * b;
    }
  }

  /** The limit is the hard price when that clamps, and the widened trigger otherwise. */
  lemma ClampedExactly(limits: Limits, level: Level)
    requires level.Valid() && LimitsValid(limits)
    ensures LegLimitPrice(limits, level)
         == if HardPriceClamps(limits, level) then HardPrice(limits, level.side) else Widened(limits, level)
  {
    WidenedInBps(limits, level);
    var w, hard, t := Widened(limits, level), HardPrice(limits, level.side), level.trigger;
    ScaledOrder(w.num, w.den, hard.num, hard.den, t.num * FactorBps(limits, level.side), t.den);
    if w.num * hard.den == hard.num * w.den { ValidIsUnique(w, hard); }
  }

  lemma ScaledOrder(n: int, d: int, hn: int, hd: int, a: int, t: int)
    requires 0 < d && 0 < hd && 0 < t && n * (t * BPS_DENOMINATOR) == a * d
    ensures hn * d <= n * hd <==> hn * BPS_DENOMINATOR * t <= a * hd
    ensures n * hd <= hn * d <==> a * hd <= hn * BPS_DENOMINATOR * t
  {
    var k := t * BPS_DENOMINATOR;
    assert (n * hd) * k == (a * hd) * d by { assert (n * hd) * k == (n * k) * hd; }
    assert (hn * d) * k == (hn * BPS_DENOMINATOR * t) * d;
    SameOrder(hn * d, n * hd, hn * BPS_DENOMINATOR * t, a * hd, k, d);
    SameOrder(n * hd, hn * d, a * hd, hn * BPS_DENOMINATOR * t, k, d);
  }

  lemma SameOrder(x: int, y: int, u: int, v: int, k: int, d: int)
    requires 0 < k && 0 < d && x * k == u * d && y * k == v * d
    ensures x <= y <==> u <= v
  {
  }

  lemma FourZeros()
    ensures Pow(10, 4) == BPS_DENOMINATOR
  {
  }

  /** A reduced fraction times `factor / 10^4` needs at most `k + 4` places exactly when its own
      denominator divides `10^k * factor`. */
  lemma ProductDivides(w: Frac, t: Frac, factor: nat, k: nat)
    requires w.Valid() && t.Valid() && 0 <= w.num && 0 <= t.num
    requires IsInBps(w, t, factor)
    ensures Divides(w.den, Pow(10, k + 4)) <==> DividesScaled(t.den, k, factor)
  {
    var p := Pow(10, k);
    FourZeros();
    PowAdds(10, k, 4);
    if Divides(w.den, Pow(10, k + 4)) {
      var m: nat :| w.den * m == Pow(10, k + 4);
      Forward(w.num, w.den, t.num, t.den, factor, p, m);
      var q := CoprimeDivides(t.num, t.den, p * factor, w.num * m);
      Natural(p, factor);
      NaturalFactor(t.den, q, p * factor);
    }
    if Divides(t.den, p * factor) {
      var m: nat :| t.den * m == p * factor;
      Backward(w.num, w.den, t.num, t.den, factor, p, m);
      Natural(t.num, m);
      var q := ReducedDivides(w, t.num * m, k + 4);
      NaturalFactor(w.den, q, Pow(10, k + 4));
    }
  }

  lemma NaturalFactor(d: int, q: int, n: nat)
    requires 0 < d && d * q == n
    ensures 0 <= q && Divides(d, n)
  {
    assert 0 <= q;
  }

  lemma Forward(n: int, d: int, t: int, s: int, factor: int, p: int, m: int)
    requires n * (s * BPS_DENOMINATOR) == (t * factor) * d && d * m == p * BPS_DENOMINATOR
    ensures t * (p * factor) == s * (n * m)
  {
    assert (s * (n * m)) * BPS_DENOMINATOR == (n * (s * BPS_DENOMINATOR)) * m;
    assert ((t * factor) * d) * m == (t * factor) * (d * m);
    assert (t * factor) * (p * BPS_DENOMINATOR) == (t * (p * factor)) * BPS_DENOMINATOR;
  }

  lemma Backward(n: int, d: int, t: int, s: int, factor: int, p: int, m: int)
    requires 0 < s && n * (s * BPS_DENOMINATOR) == (t * factor) * d && s * m == p * factor
    ensures n * (p * BPS_DENOMINATOR) == (t * m) * d
  {
    assert (n * (p * BPS_DENOMINATOR)) * s == (n * (s * BPS_DENOMINATOR)) * p;
    assert ((t * factor) * d) * p == (t * d) * (p * factor);
    assert (t * d) * (s * m) == ((t * m) * d) * s;
    CancelFactor(s, n * (p * BPS_DENOMINATOR), (t * m) * d);
  }

  /** The limit price of a rung renders exactly when the hard price clamps it, or the denominator of
      its trigger divides `10^26` times the slippage factor in basis points. */
  lemma LimitRendersExactly(limits: Limits, level: Level)
    requires level.Valid() && LimitsValid(limits)
    requires Fits(level.trigger, MAX_PLACES) && Fits(HardPrice(limits, level.side), MAX_PLACES)
    ensures Format(LegLimitPrice(limits, level)).Ok? <==>
            || HardPriceClamps(limits, level)
            || DividesScaled(level.trigger.den, 26, FactorBps(limits, level.side))
  {
    ClampedExactly(limits, level);
    FitsMeansFormats(HardPrice(limits, level.side));
    WidenedRenders(limits, level, 26);
  }

  lemma WidenedRenders(limits: Limits, level: Level, k: nat)
    requires level.Valid() && LimitsValid(limits) && k + 4 == MAX_PLACES
    requires Fits(level.trigger, MAX_PLACES) && Fits(HardPrice(limits, level.side), MAX_PLACES)
    ensures LegLimitPrice(limits, level) == Widened(limits, level) ==>
              (Format(LegLimitPrice(limits, level)).Ok? <==>
               DividesScaled(level.trigger.den, k, FactorBps(limits, level.side)))
  {
    LimitIsBounded(limits, level);
    WidenedInBps(limits, level);
    if LegLimitPrice(limits, level) == Widened(limits, level) {
      ProductRenders(Widened(limits, level), level.trigger, FactorBps(limits, level.side), k);
    }
  }

  lemma ProductRenders(w: Frac, t: Frac, factor: nat, k: nat)
    requires k + 4 == MAX_PLACES
    requires w.Valid() && t.Valid() && 0 <= w.num < Pow(10, MAX_WHOLE_DIGITS) * w.den && 0 <= t.num
    requires IsInBps(w, t, factor)
    ensures Format(w).Ok? <==> DividesScaled(t.den, k, factor)
  {
    Formattable(w);
    ProductDivides(w, t, factor, k);
  }

  // ---------------------------------------------------------------------------------
  // What follows for the places of a trigger
  // ---------------------------------------------------------------------------------

  /** Triggers of at most 26 places always render, and of 27 places at fifty basis points. */
  lemma LimitRendersAt26(limits: Limits, level: Level)
    requires level.Valid() && LimitsValid(limits)
    requires Fits(level.trigger, if limits.slippageBps == 50 then 27 else 26)
    requires Fits(HardPrice(limits, level.side), MAX_PLACES)
    ensures Format(LegLimitPrice(limits, level)).Ok?
  {
    var d, factor := level.trigger.den, FactorBps(limits, level.side);
    var k := if limits.slippageBps == 50 then 27 else 26;
    DividesPowerOfTen(d, k);
    var m: nat :| d * m == Pow(10, k);
    if limits.slippageBps == 50 {
      var tenth := if level.side == Buy then 1005 else 995;
      OneMoreZero(d, m, tenth, factor);
    } else {
      MultipleDivides(d, m, Pow(10, 26), factor);
    }
    LimitRendersExactly(limits, level);
  }

  lemma MultipleDivides(d: nat, m: nat, p: nat, factor: nat)
    requires d * m == p
    ensures Divides(d, p * factor)
  {
    assert d * (m * factor) == p * factor;
  }

  lemma OneMoreZero(d: nat, m: nat, tenth: nat, factor: nat)
    requires d * m == Pow(10, 27) && factor == 10 * tenth
    ensures Divides(d, Pow(10, 26) * factor)
  {
    MultipleDivides(d, m, Pow(10, 27), tenth);
    assert Pow(10, 27) == 10 * Pow(10, 26);
    Tens(Pow(10, 27), Pow(10, 26), tenth, factor);
  }

  lemma Tens(p: int, q: int, tenth: int, factor: int)
    requires p == 10 * q && factor == 10 * tenth
    ensures p * tenth == q * factor
  {
  }

  /** Where the slippage factor has neither two nor five as a factor, 26 places are the exact
      ceiling for an unclamped limit. */
  lemma CeilingIsSharp(limits: Limits, level: Level)
    requires level.Valid() && LimitsValid(limits)
    requires Fits(level.trigger, MAX_PLACES) && Fits(HardPrice(limits, level.side), MAX_PLACES)
    requires FactorBps(limits, level.side) % 2 != 0 && FactorBps(limits, level.side) % 5 != 0
    ensures Format(LegLimitPrice(limits, level)).Ok? <==> HardPriceClamps(limits, level) || Scale(level.trigger.den) <= 26
  {
    LimitRendersExactly(limits, level);
    DividesPowerOfTen(level.trigger.den, 26);
    DividesPowerOfTen(level.trigger.den, MAX_PLACES);
    CoprimeToTen(FactorBps(limits, level.side), level.trigger.den, MAX_PLACES);
    CoprimeFactorAddsNothing(level.trigger.den, Pow(10, 26), FactorBps(limits, level.side));
  }

  lemma CoprimeFactorAddsNothing(d: nat, p: nat, factor: nat)
    requires 0 < d && Gcd(factor, d) == 1
    ensures Divides(d, p * factor) <==> Divides(d, p)
  {
    if m: nat :| d * m == p {
      MultipleDivides(d, m, p, factor);
    }
    if m: nat :| d * m == p * factor {
      var q := CoprimeDivides(factor, d, p, m);
      NaturalFactor(d, q, p);
    }
  }

  /** What has neither two nor five as a factor is coprime to every divisor of a power of ten. */
  lemma CoprimeToTen(factor: nat, d: nat, k: nat)
    requires 0 < d && factor % 2 != 0 && factor % 5 != 0 && Divides(d, Pow(10, k))
    ensures Gcd(factor, d) == 1
  {
    var g := Gcd(factor, d);
    GcdPositive(factor, d);
    CofactorsDivide(factor, d);
    var (p, q) := Cofactors(factor, d);
    var m: nat :| d * m == Pow(10, k);
    FactorKeepsOdd(g, p, factor);
    TenSplits(k);
    Regrouped(d, g, q, m, Pow(2, k) * Pow(5, k));
    Natural(q, m);
    NothingElse(g, q * m, k, k);
  }

  lemma Regrouped(d: int, g: int, q: int, m: int, n: int)
    requires d == g * q && d * m == n
    ensures g * (q * m) == n
  {
  }

  lemma FactorKeepsOdd(g: nat, p: nat, n: nat)
    requires n == g * p && n % 2 != 0 && n % 5 != 0
    ensures g % 2 != 0 && g % 5 != 0
  {
    var h, f := g / 2, g / 5;
    if g % 2 == 0 { MultipleOfProduct(2, h, p, n); }
    if g % 5 == 0 { MultipleOfProduct(5, f, p, n); }
  }

  /** So it fails for a purchase at a trigger of `10^-k` from 27 places on, with a slippage tolerance
      of one basis point. */
  lemma LimitCanFailToRender(level: Level, limits: Limits, k: nat)
    requires 27 <= k <= MAX_PLACES
    requires level.side == Buy && level.trigger == Frac(1, Pow(10, k)) && level.size == Whole(1)
    requires limits.slippageBps == 1 && limits.maxPrice == Whole(1) && LimitsValid(limits)
    ensures level.Valid() && Fits(level.trigger, k) && Format(LegLimitPrice(limits, level)) == Refused(Malformed)
  {
    UnitOverPower(k);
    WholeIsValid(1);
    BoundExceedsOne(MAX_WHOLE_DIGITS);
    UnitOverPower(0);
    BoundExceedsOne(k);
    ScaleOfPower(k);
    CeilingIsSharp(limits, level);
  }

  lemma ScaleOfPower(k: nat)
    ensures 0 < Pow(10, k) && Scale(Pow(10, k)) == k
  {
    UnitOverPower(k);
    PlacesAreScale(Frac(1, Pow(10, k)), 1, k);
  }
}
