/** How a price is rounded to the text that a successor policy carries. */
module PriceNormalization {

  import opened Outcomes
  import opened Fractions
  import opened PowersOfTen
  import opened DecimalText
  import opened Decimals
  import opened Domain
  import opened Economics
  import opened LimitRendering

  const QUANTUM_PLACES: nat := 27

  /** The integer nearest to `n / d`; of two that are equally near, the even one. */
  function RoundHalfEven(n: nat, d: nat): nat
    requires 0 < d
  {
    var q, r := n / d, n % d;
    if 2 * r < d || (2 * r == d && q % 2 == 0) then q else q + 1
  }

  /** The text of a price, quantized to 27 places in a decimal context of the given precision. A
      result with more digits than the precision is an invalid operation. */
  function PriceText(price: Frac, precision: nat): Result<string>
    requires 0 < price.den
  {
    var rounded := Quantized(price, QUANTUM_PLACES);
    if Pow(10, precision) <= rounded then Refused(Malformed)
    else if price.num < 0 then Ok("-" + Rendering(rounded, QUANTUM_PLACES))
    else Ok(Rendering(rounded, QUANTUM_PLACES))
  }

  /** The magnitude of a price in units of its last place. */
  function Quantized(price: Frac, places: nat): nat
    requires 0 < price.den
  {
    Natural(Abs(price.num), Pow(10, places));
    RoundHalfEven(Abs(price.num) * Pow(10, places), price.den)
  }

  predicate IsNearest(m: int, n: int, d: int) {
    2 * Abs(n - m * d) <= d && (2 * Abs(n - m * d) == d ==> m % 2 == 0)
  }

  /** The rounding is the nearest integer, ties going to the even one, and nothing else is. */
  lemma RoundsToNearest(n: nat, d: nat, m: int)
    requires 0 < d
    ensures IsNearest(m, n, d) <==> m == RoundHalfEven(n, d)
  {
    var q, r := n / d, n % d;
    var t := m - q;
    assert n - m * d == r - t * d by { assert m * d == q * d + t * d; }
    if t <= -1 { MulOrder(d, t, -1); }
    if 2 <= t { MulOrder(d, 2, t); }
    NearestAmong(d, q, r, t, t * d);
  }

  /** The remainder after `q + t` tells whether that is the nearest. */
  lemma NearestAmong(d: nat, q: nat, r: nat, t: int, p: int)
    requires r < d
    requires if t <= -1 then p <= -1 * d else if t == 0 then p == 0 else if t == 1 then p == d else 2 * d <= p
    ensures (2 * Abs(r - p) <= d && (2 * Abs(r - p) == d ==> (q + t) % 2 == 0))
       <==> q + t == if 2 * r < d || (2 * r == d && q % 2 == 0) then q else q + 1
  {
  }

  // ---------------------------------------------------------------------------------
  // The text is canonical
  // ---------------------------------------------------------------------------------

  /** A final zero among the fractional digits is stripped, as if it had not been there. */
  lemma TrailingZeroIsStripped(v: nat, k: nat)
    ensures Rendering(10 * v, k + 1) == Rendering(v, k)
  {
    var text := Justified(Str(v), k + 1);
    TenfoldText(v, k + 1);
    assert Justified(Str(10 * v), (k + 1) + 1) == text + "0";
    PointedTenfold(text, k);
  }

  lemma PointedTenfold(text: string, k: nat)
    requires k < |text| && AllDigits(text)
    ensures StripRight(StripRight(Pointed(text + "0", k + 1), '0'), '.')
         == if k == 0 then text else StripRight(StripRight(Pointed(text, k), '0'), '.')
  {
    var cut := |text| - k;
    assert (text + "0")[..cut] == text[..cut] && (text + "0")[cut..] == text[cut..] + "0";
    assert Pointed(text + "0", k + 1) == Pointed(text, k) + ['0'];
    StripOne(Pointed(text, k), '0');
    if k == 0 {
      assert Pointed(text, 0) == text + ['.'];
      StripDoesNothing(text + ['.'], '0');
      StripOne(text, '.');
      StripDoesNothing(text, '.');
    }
  }

  lemma StripOne(s: string, c: char)
    ensures StripRight(s + [c], c) == StripRight(s, c)
  {
    assert (s + [c])[..|s|] == s;
  }

  lemma TenfoldText(v: nat, width: nat)
    requires 0 < width
    ensures Justified(Str(10 * v), width + 1) == Justified(Str(v), width) + "0"
  {
    if v == 0 {
      assert Str(0) == [CharOf(0)] && CharOf(0) == '0';
      assert Zeros(width) + "0" == Zeros(width - 1) + "0" + "0";
    } else {
      LastDigitIsZero(v);
    }
  }

  lemma LastDigitIsZero(v: nat)
    requires 0 < v
    ensures Str(10 * v) == Str(v) + "0"
  {
  }

  /** Without the final zeros of its fractional digits, the text is the same. */
  lemma {:induction false} WithoutFinalZeros(v: nat, k: nat) returns (w: nat, j: nat)
    ensures j <= k && v == w * Pow(10, k - j) && (0 < j ==> w % 10 != 0)
    ensures Rendering(v, k) == Rendering(w, j)
    decreases k
  {
    w, j := v, k;
    if 0 < k && v % 10 == 0 {
      var u := v / 10;
      TrailingZeroIsStripped(u, k - 1);
      w, j := WithoutFinalZeros(u, k - 1);
      TenfoldPower(w, u, k - 1 - j);
      SameRendering(v, 10 * u, k);
    }
  }

  lemma SameRendering(v: nat, w: nat, k: nat)
    requires v == w
    ensures Rendering(v, k) == Rendering(w, k)
  {
  }

  lemma TenfoldPower(w: nat, u: nat, i: nat)
    requires u == w * Pow(10, i)
    ensures 10 * u == w * Pow(10, i + 1)
  {
  }

  lemma ShorterEquation(num: int, den: int, v: int, w: int, p: int, q: int)
    requires 0 < q && v == w * q && num * (p * q) == v * den
    ensures num * p == w * den
  {
    assert (num * p) * q == (w * den) * q;
  }

  lemma ScaledBound(v: int, w: int, p: int, q: int)
    requires 0 < q && v == w * q
    ensures v < p * q <==> w < p
  {
  }

  /** `text` is what is printed of `f`, unless it is no canonical text; then `f` has none. */
  ghost predicate IsTextOf(f: Frac, text: string) {
    f.Valid() && 0 <= f.num && (if Matches(text) then Format(f) == Ok(text) else Format(f) == Refused(Malformed))
  }

  lemma ShortestForm(f: Frac, v: nat, k: nat) returns (w: nat, j: nat)
    requires f.num * Pow(10, k) == v * f.den
    ensures j <= k && (0 < j ==> w % 10 != 0) && Rendering(v, k) == Rendering(w, j)
    ensures f.num * Pow(10, j) == w * f.den
    ensures v < Pow(10, MAX_WHOLE_DIGITS + k) <==> w < Pow(10, MAX_WHOLE_DIGITS + j)
  {
    w, j := WithoutFinalZeros(v, k);
    var q := Pow(10, k - j);
    PowPositive(10, k - j);
    PowAdds(10, j, k - j);
    ShorterEquation(f.num, f.den, v, w, Pow(10, j), q);
    PowAdds(10, MAX_WHOLE_DIGITS + j, k - j);
    ScaledBound(v, w, Pow(10, MAX_WHOLE_DIGITS + j), q);
  }

  /** What is written of `v / 10^k` is its canonical decimal, which it has exactly when it is small
      enough. */
  lemma RenderingIsFormat(f: Frac, v: nat, k: nat)
    requires k <= MAX_PLACES && f.Valid() && f.num * Pow(10, k) == v * f.den
    ensures IsTextOf(f, Rendering(v, k)) && Terminates(f.den) && Scale(f.den) <= k
    ensures Matches(Rendering(v, k)) <==> v < Pow(10, MAX_WHOLE_DIGITS + k)
  {
    var w, j := ShortestForm(f, v, k);
    ShortRenderingIsFormat(f, w, j, Rendering(w, j));
  }

  lemma ShortRenderingIsFormat(f: Frac, v: nat, k: nat, text: string)
    requires k <= MAX_PLACES && (0 < k ==> v % 10 != 0) && text == Rendering(v, k)
    requires f.Valid() && f.num * Pow(10, k) == v * f.den
    ensures IsTextOf(f, text) && Terminates(f.den) && Scale(f.den) == k
    ensures Matches(text) <==> v < Pow(10, MAX_WHOLE_DIGITS + k)
  {
    PowPositive(10, k);
    NaturalQuotient(f.num, Pow(10, k), v, f.den);
    PlacesAreScale(f, v, k);
    PrintedText(v, k);
  }

  /** The price that the text stands for. */
  function Rounded(price: Frac): (r: Frac)
    requires 0 < price.den
    ensures 0 < r.den
  {
    PowPositive(10, QUANTUM_PLACES);
    Make(Quantized(price, QUANTUM_PLACES), Pow(10, QUANTUM_PLACES))
  }

  /** The text of a price is the canonical decimal of the rounded price, of at most 27 places, and so
      reads back as that, exactly when the price is not negative and small enough. */
  lemma PriceTextIsCanonical(price: Frac, precision: nat, s: string)
    requires 0 < price.den && PriceText(price, precision) == Ok(s)
    ensures Parse(s).Ok? <==> 0 <= price.num && Quantized(price, QUANTUM_PLACES) < Pow(10, MAX_WHOLE_DIGITS + QUANTUM_PLACES)
    ensures Parse(s).Ok? ==> Spelling(s) && Parse(s) == Ok(Rounded(price)) && Fits(Rounded(price), QUANTUM_PLACES)
  {
    RoundedIs(price);
    WrittenIsCanonical(Rounded(price), Quantized(price, QUANTUM_PLACES), QUANTUM_PLACES, price.num < 0, s);
  }

  lemma RoundedIs(price: Frac)
    requires 0 < price.den
    ensures var f := Rounded(price);
            f.Valid() && f.num * Pow(10, QUANTUM_PLACES) == Quantized(price, QUANTUM_PLACES) * f.den
  {
    PowPositive(10, QUANTUM_PLACES);
    MakeIsValid(Quantized(price, QUANTUM_PLACES), Pow(10, QUANTUM_PLACES));
  }

  /** The price in units of the twenty-seventh place, rounded to the nearest, ties to the even one. */
  predicate IsRounded(price: Frac, m: nat) {
    IsNearest(m, price.num * Pow(10, 27), price.den)
  }

  lemma OnlyRounded(price: Frac, m: nat)
    requires 0 <= price.num && 0 < price.den && IsRounded(price, m)
    ensures m == Quantized(price, 27)
  {
    NearestIs(price.num, price.den, Pow(10, 27), m);
  }

  lemma NearestIs(num: nat, den: nat, p: nat, m: nat)
    requires 0 < den
    ensures 0 <= num * p && (IsNearest(m, num * p, den) <==> m == RoundHalfEven(num * p, den))
  {
    Natural(num, p);
    RoundsToNearest(num * p, den, m);
  }

  /** A price that is not negative is written exactly when it rounds to fewer digits than the precision; a text that
      reads, reads as the rounded price. */
  lemma WritesTheNearest(price: Frac, precision: nat, m: nat)
    requires 0 <= price.num && 0 < price.den && IsRounded(price, m)
    ensures PriceText(price, precision).Ok? <==> m < Pow(10, precision)
    ensures PriceText(price, precision).Ok? && Parse(PriceText(price, precision).value).Ok? ==>
              var f := Parse(PriceText(price, precision).value).value;
              f.num * Pow(10, 27) == m * f.den
  {
    OnlyRounded(price, m);
    RoundedIs(price);
    if PriceText(price, precision).Ok? { PriceTextIsCanonical(price, precision, PriceText(price, precision).value); }
  }

  lemma WrittenIsCanonical(f: Frac, v: nat, k: nat, negative: bool, s: string)
    requires k <= MAX_PLACES && f.Valid() && f.num * Pow(10, k) == v * f.den
    requires s == if negative then "-" + Rendering(v, k) else Rendering(v, k)
    ensures Parse(s).Ok? <==> !negative && v < Pow(10, MAX_WHOLE_DIGITS + k)
    ensures Parse(s).Ok? ==> Spelling(s) && Parse(s) == Ok(f) && Fits(f, k)
  {
    if negative {
      SignIsRefused(Rendering(v, k));
    } else {
      RenderingIsFormat(f, v, k);
      TextReadsBack(f, s);
    }
  }

  lemma TextReadsBack(f: Frac, s: string)
    requires IsTextOf(f, s)
    ensures Parse(s).Ok? <==> Matches(s)
    ensures Matches(s) ==> Spelling(s) && Parse(s) == Ok(f) && Fits(f, MAX_PLACES)
  {
    if Matches(s) {
      FormatThenParse(f, s);
      FitsMeansFormats(f);
    }
  }

  lemma SignIsRefused(s: string)
    ensures Parse("-" + s).Refused?
  {
    SignStays("-" + s);
    SignStays(Chopped("-" + s));
  }

  lemma SignStays(s: string)
    requires s != "" && s[0] == '-'
    ensures !Spelling(s)
  {
    assert WholeText(s)[0] == '-';
  }

  /** `f` is what the text of some price reads as. */
  ghost predicate IsNormalized(f: Frac) {
    exists price: Frac, precision: nat ::
      0 < price.den && PriceText(price, precision).Ok? && Parse(PriceText(price, precision).value) == Ok(f)
  }

  lemma NormalizedFits(f: Frac)
    requires IsNormalized(f)
    ensures Fits(f, QUANTUM_PLACES)
  {
    var price: Frac, precision: nat :|
      0 < price.den && PriceText(price, precision).Ok? && Parse(PriceText(price, precision).value) == Ok(f);
    PriceTextIsCanonical(price, precision, PriceText(price, precision).value);
  }

  /** So the limit price of a rung always renders when its trigger and the hard price were normalized
      and the slippage tolerance is fifty basis points. */
  lemma NormalizedLimitRenders(limits: Limits, level: Level)
    requires level.Valid() && LimitsValid(limits) && limits.slippageBps == 50
    requires IsNormalized(level.trigger) && IsNormalized(HardPrice(limits, level.side))
    ensures Format(LegLimitPrice(limits, level)).Ok?
  {
    NormalizedFits(level.trigger);
    NormalizedFits(HardPrice(limits, level.side));
    LimitRendersAt26(limits, level);
  }
}
