/** Impact-capped sizing of a trade against a constant-product pool.

    Prices and ratios are exact rationals in the program; here they are `real`s, of
    which only order and the field laws are used. Amounts and reserves are integers. */
module TradeSizing {
  import opened Outcomes
  import opened Domain

  const FEE_NUM: int := 997
  const FEE_DEN: int := 1000
  const BPS: real := 10000.0

  datatype Pool = Pool(reserve0: int, reserve1: int) {
    /** What the constructor of an observation enforces. */
    predicate Valid() {
      0 < reserve0 && 0 < reserve1
    }

    function ReserveIn(side: Side): int {
      if side == Buy then reserve1 else reserve0
    }

    function ReserveOut(side: Side): int {
      if side == Buy then reserve0 else reserve1
    }
  }

  datatype Quote = Quote(input: int, output: int, average: real, spot: real, impactBps: real)

  function ImpactBps(side: Side, average: real, spot: real): real
    requires spot != 0.0
  {
    (if side == Buy then average - spot else spot - average) / spot * BPS
  }

  function FlooredOutput(rIn: int, rOut: int, x: int): int
    requires 0 < rIn && 0 < x
  {
    (x * FEE_NUM * rOut) / (rIn * FEE_DEN + x * FEE_NUM)
  }

  /** The canonical integer quote: floored output, average and spot price in quote per base,
      and the shortfall of the average against the spot in basis points. */
  function QuoteOf(pool: Pool, side: Side, x: int): Result<Quote>
    requires pool.Valid()
  {
    if x <= 0 then Refused(NotExecutable)
    else
      var output := FlooredOutput(pool.ReserveIn(side), pool.ReserveOut(side), x);
      if output <= 0 then Refused(NotExecutable)
      else
        var spot := pool.reserve1 as real / pool.reserve0 as real;
        var average := if side == Buy then x as real / output as real else output as real / x as real;
        var impact := ImpactBps(side, average, spot);
        Ok(Quote(x, output, average, spot, if impact < 0.0 then 0.0 else impact))
  }

  /** An input the pool can quote with an impact of at most `cap`. */
  predicate Meets(pool: Pool, side: Side, cap: int, x: int)
    requires pool.Valid()
  {
    var q := QuoteOf(pool, side, x);
    q.Ok? && q.value.impactBps <= cap as real
  }

  /** The output per unit of input below which the impact exceeds the cap. */
  function Required(side: Side, rIn: real, rOut: real, cap: real): real
    requires 0.0 < rIn && 0.0 <= cap
  {
    if side == Buy then rOut * BPS / (rIn * (BPS + cap)) else rOut * (BPS - cap) / (rIn * BPS)
  }

  /** What the search closes over: the input reserve scaled by the fee denominator, the output
      reserve, and the required output per unit of input. */
  datatype Curve = Curve(base: real, rOut: real, required: real) {
    predicate Valid() {
      0.0 < base && 0.0 < rOut && 0.0 < required
    }

    /** The swap equation before the floor. */
    function Continuous(x: int): real
      requires Valid() && 0 <= x
    {
      FEE_NUM as real * x as real * rOut / (base + FEE_NUM as real * x as real)
    }

    /** The continuous output left over after the required output. */
    function Surplus(x: int): real
      requires Valid() && 0 <= x
    {
      Continuous(x) - required * x as real
    }

    /** Where the continuous curve meets the required output. */
    function Crossing(): real
      requires Valid()
    {
      (FEE_NUM as real * rOut / required - base) / FEE_NUM as real
    }

    /** One whole output unit of rounding margin. */
    predicate Margin(x: int)
      requires Valid() && 0 <= x
    {
      1.0 <= Surplus(x)
    }
  }

  function CurveOf(pool: Pool, side: Side, cap: int): Curve
    requires pool.Valid() && 0 <= cap
  {
    var rIn, rOut := pool.ReserveIn(side) as real, pool.ReserveOut(side) as real;
    Curve(rIn * FEE_DEN as real, rOut, Required(side, rIn, rOut, cap as real))
  }

  /** Python's `int` of a rational: truncation toward zero. */
  function Truncate(r: real): int {
    if 0.0 <= r then r.Floor else -((-r).Floor)
  }

  // ---------------------------------------------------------------------------------
  // Arithmetic
  // ---------------------------------------------------------------------------------

  lemma QuotientAtMost(a: real, b: real, c: real)
    requires 0.0 < b
    ensures a / b <= c <==> a <= c * b
    ensures c <= a / b <==> c * b <= a
  {
  }

  lemma Scale(k: real, a: real, b: real)
    requires 0.0 < k
    ensures a <= b <==> a * k <= b * k
    ensures a < b <==> a * k < b * k
  {
  }

  lemma FloorDivision(a: int, b: int)
    requires 0 < b
    ensures a / b == (a as real / b as real).Floor
  {
    var d := a / b;
    assert d * b <= a < d * b + b;
    QuotientAtMost(a as real, b as real, d as real);
    QuotientAtMost(a as real, b as real, d as real + 1.0);
    assert (d as real) * (b as real) == (d * b) as real;
  }

  // ---------------------------------------------------------------------------------
  // What the surplus says about the quote
  // ---------------------------------------------------------------------------------

  lemma Positive(a: real, b: real)
    requires 0.0 < a && 0.0 < b
    ensures 0.0 < a * b && 0.0 < a / b
  {
  }

  /** Cross-multiplied reading of an impact bound, for a buy: paying `x` for `out`. */
  lemma BuyImpact(x: real, out: real, rIn: real, rOut: real, cap: real)
    requires 0.0 < x && 0.0 < out && 0.0 < rIn && 0.0 < rOut && 0.0 <= cap
    ensures 0.0 < rIn / rOut
    ensures ImpactBps(Buy, x / out, rIn / rOut) <= cap <==> Required(Buy, rIn, rOut, cap) * x <= out
  {
  }

  /** The same for a sell: receiving `out` for `x`. */
  lemma SellImpact(x: real, out: real, rIn: real, rOut: real, cap: real)
    requires 0.0 < x && 0.0 < rIn && 0.0 < rOut && 0.0 <= cap
    ensures 0.0 < rOut / rIn
    ensures ImpactBps(Sell, out / x, rOut / rIn) <= cap <==> Required(Sell, rIn, rOut, cap) * x <= out
  {
  }

  lemma ImpactBound(side: Side, pool: Pool, x: int, out: int, cap: int)
    requires pool.Valid() && 0 < x && 0 < out && 0 <= cap
    ensures var average := if side == Buy then x as real / out as real else out as real / x as real;
            ImpactBps(side, average, pool.reserve1 as real / pool.reserve0 as real) <= cap as real
            <==> CurveOf(pool, side, cap).required * x as real <= out as real
  {
    match side
    case Buy => BuyImpact(x as real, out as real, pool.reserve1 as real, pool.reserve0 as real, cap as real);
    case Sell => SellImpact(x as real, out as real, pool.reserve0 as real, pool.reserve1 as real, cap as real);
  }

  /** An input respects the cap exactly when it is positive, its floored output is positive,
      and that output reaches the required one. */
  lemma MeetsMeansRequiredOutput(pool: Pool, side: Side, cap: int, x: int)
    requires pool.Valid() && 0 <= cap
    ensures Meets(pool, side, cap, x) <==>
              && QuoteOf(pool, side, x).Ok?
              && CurveOf(pool, side, cap).required * x as real <= QuoteOf(pool, side, x).value.output as real
  {
    if QuoteOf(pool, side, x).Ok? {
      ImpactBound(side, pool, x, QuoteOf(pool, side, x).value.output, cap);
    }
  }

  lemma ProductsOfCasts(x: int, rOut: int, rIn: int)
    ensures (x * FEE_NUM * rOut) as real == FEE_NUM as real * x as real * rOut as real
    ensures (rIn * FEE_DEN + x * FEE_NUM) as real == rIn as real * FEE_DEN as real + FEE_NUM as real * x as real
  {
  }

  lemma OutputIsFlooredContinuous(pool: Pool, side: Side, cap: int, x: int)
    requires pool.Valid() && 0 <= cap && 0 < x && CurveOf(pool, side, cap).Valid()
    ensures FlooredOutput(pool.ReserveIn(side), pool.ReserveOut(side), x)
         == CurveOf(pool, side, cap).Continuous(x).Floor
  {
    var rIn, rOut := pool.ReserveIn(side), pool.ReserveOut(side);
    var a, b := x * FEE_NUM * rOut, rIn * FEE_DEN + x * FEE_NUM;
    ProductsOfCasts(x, rOut, rIn);
    FloorDivision(a, b);
    assert CurveOf(pool, side, cap).Continuous(x) == a as real / b as real;
  }

  /** A whole unit of continuous margin survives the floor: such an input respects the cap. */
  lemma MarginIsSafe(pool: Pool, side: Side, cap: int, x: int)
    requires pool.Valid() && 0 <= cap && 0 < x && CurveOf(pool, side, cap).Valid()
    requires CurveOf(pool, side, cap).Margin(x)
    ensures Meets(pool, side, cap, x)
  {
    var c := CurveOf(pool, side, cap);
    OutputIsFlooredContinuous(pool, side, cap, x);
    PositiveProduct(c, x);
    MeetsMeansRequiredOutput(pool, side, cap, x);
  }

  lemma PositiveProduct(c: Curve, x: int)
    requires c.Valid() && 0 < x
    ensures 0.0 < c.required * x as real
  {
  }

  /** The surplus is non-negative exactly up to the crossing. */
  lemma SurplusSign(c: Curve, x: int)
    requires c.Valid() && 0 < x
    ensures 0.0 <= c.Surplus(x) <==> x as real <= c.Crossing()
  {
    var f, X := FEE_NUM as real, x as real;
    var u := c.base + f * X;
    QuotientAtMost(f * X * c.rOut, u, c.required * X);
    Scale(X, c.required * u, f * c.rOut);
    assert c.required * u * X == c.required * X * u && f * c.rOut * X == f * X * c.rOut;
    QuotientAtMost(f * c.rOut / c.required - c.base, f, X);
    QuotientAtMost(f * c.rOut, c.required, u);
  }

  /** Below a crossing of one, no input at all respects the cap, on either side. */
  lemma NoInputBelowCrossingOne(pool: Pool, side: Side, cap: int, x: int)
    requires pool.Valid() && 0 <= cap && CurveOf(pool, side, cap).Valid()
    requires CurveOf(pool, side, cap).Crossing() < 1.0
    ensures !Meets(pool, side, cap, x)
  {
    if 0 < x {
      SurplusSign(CurveOf(pool, side, cap), x);
      OutputIsFlooredContinuous(pool, side, cap, x);
      MeetsMeansRequiredOutput(pool, side, cap, x);
    }
  }

  // ---------------------------------------------------------------------------------
  // The shape of the surplus
  // ---------------------------------------------------------------------------------

  /** The product of the two pool denominators decides which of two inputs has more surplus. */
  function Turn(c: Curve, x: int, y: int): real
  {
    c.required * (Denominator(c, x) * Denominator(c, y))
  }

  function Denominator(c: Curve, x: int): real {
    c.base + FEE_NUM as real * x as real
  }

  lemma SurplusOrder(c: Curve, x: int, y: int)
    requires c.Valid() && 0 <= x < y
    ensures c.Surplus(y) <= c.Surplus(x) <==> FEE_NUM as real * c.rOut * c.base <= Turn(c, x, y)
    ensures c.Surplus(y) < c.Surplus(x) <==> FEE_NUM as real * c.rOut * c.base < Turn(c, x, y)
  {
    var f := FEE_NUM as real;
    var u, v := c.base + f * x as real, c.base + f * y as real;
    var cx, cy := c.Continuous(x), c.Continuous(y);
    assert 0.0 < u * v;
    assert cx * u == f * x as real * c.rOut && cy * v == f * y as real * c.rOut;
    ContinuousStep(f, c.base, c.rOut, x as real, y as real, cx, cy);
    OrderByProduct(cy - cx, u * v, c.required, y as real - x as real, f * c.rOut * c.base);
  }

  lemma OrderByProduct(gain: real, uv: real, q: real, d: real, k: real)
    requires 0.0 < uv && 0.0 < d && gain * uv == k * d
    ensures gain <= q * d <==> k <= q * uv
    ensures gain < q * d <==> k < q * uv
  {
  }

  lemma ContinuousStep(f: real, base: real, rOut: real, x: real, y: real, cx: real, cy: real)
    requires cx * (base + f * x) == f * x * rOut && cy * (base + f * y) == f * y * rOut
    ensures (cy - cx) * ((base + f * x) * (base + f * y)) == f * rOut * base * (y - x)
  {
  }

  /** Once the surplus stops growing it falls strictly: it has a single peak. */
  lemma FallsAfterPeak(c: Curve, x: int, y: int, z: int)
    requires c.Valid() && 0 <= x < y < z
    requires c.Surplus(y) <= c.Surplus(x)
    ensures c.Surplus(z) < c.Surplus(y)
  {
    SurplusOrder(c, x, y);
    SurplusOrder(c, y, z);
    TurnGrows(c, x, y, z);
  }

  lemma TurnGrows(c: Curve, x: int, y: int, z: int)
    requires c.Valid() && 0 <= x < y < z
    ensures Turn(c, x, y) < Turn(c, y, z)
  {
  }

  // ---------------------------------------------------------------------------------
  // The search
  // ---------------------------------------------------------------------------------

  /** The least input in [lo, hi] whose surplus no other input there exceeds. */
  ghost predicate IsPeak(c: Curve, lo: int, hi: int, p: int)
    requires c.Valid() && 0 <= lo
  {
    && lo <= p <= hi
    && (forall y :: lo <= y < p ==> c.Surplus(y) < c.Surplus(p))
    && (forall y :: p <= y <= hi ==> c.Surplus(y) <= c.Surplus(p))
  }

  /** Python's `max` over a range: the first of the greatest. */
  method FirstMaximum(c: Curve, lo: int, hi: int) returns (p: int)
    requires c.Valid() && 0 <= lo <= hi
    ensures IsPeak(c, lo, hi, p)
  {
    p := lo;
    for i := lo + 1 to hi + 1
      invariant IsPeak(c, lo, i - 1, p)
    {
      if c.Surplus(p) < c.Surplus(i) {
        p := i;
      }
    }
  }

  lemma {:induction false} PeakExists(c: Curve, lo: int, hi: int) returns (p: int)
    requires c.Valid() && 0 <= lo <= hi
    ensures IsPeak(c, lo, hi, p)
    decreases hi
  {
    if lo == hi {
      p := lo;
    } else {
      p := PeakExists(c, lo, hi - 1);
      if c.Surplus(p) < c.Surplus(hi) {
        p := hi;
      }
    }
  }

  /** One round of the ternary search discards no peak: comparing two inner points tells on
      which side of one of them the peak lies. */
  lemma TernaryStep(c: Curve, lo: int, hi: int, p: int, left: int, right: int)
    requires c.Valid() && 0 <= lo && IsPeak(c, lo, hi, p) && lo <= left < right <= hi
    ensures c.Surplus(left) < c.Surplus(right) ==> left < p
    ensures c.Surplus(right) <= c.Surplus(left) ==> p < right
  {
    if c.Surplus(left) < c.Surplus(right) && p <= left {
      if p < left { FallsAfterPeak(c, p, left, right); }
    }
    if c.Surplus(right) <= c.Surplus(left) && right < p {
      FallsAfterPeak(c, left, right, p);
    }
  }

  /** The peak of [1, upper], by ternary search down to nine candidates. */
  method TernaryPeak(c: Curve, upper: int) returns (peak: int)
    requires c.Valid() && 1 <= upper
    ensures IsPeak(c, 1, upper, peak)
  {
    var lo, hi := 1, upper;
    ghost var p := PeakExists(c, 1, upper);
    while 8 < hi - lo
      invariant 1 <= lo <= p <= hi <= upper
      decreases hi - lo
    {
      var third := (hi - lo) / 3;
      var left, right := lo + third, hi - third;
      TernaryStep(c, 1, upper, p, left, right);
      if c.Surplus(left) < c.Surplus(right) {
        lo := left + 1;
      } else {
        hi := right - 1;
      }
    }
    peak := FirstMaximum(c, lo, hi);
  }

  /** `x` is the greatest input in [1, upper] with a whole unit of margin. */
  ghost predicate IsGreatestWithMargin(c: Curve, upper: int, x: int)
    requires c.Valid()
  {
    1 <= x <= upper && c.Margin(x) && forall y :: x < y <= upper ==> !c.Margin(y)
  }

  /** Past the peak, an input without margin is followed only by inputs without margin. */
  lemma MarginEndsOnce(c: Curve, upper: int, peak: int, x: int, y: int)
    requires c.Valid() && IsPeak(c, 1, upper, peak) && peak <= x <= y <= upper
    requires c.Margin(y)
    ensures c.Margin(x)
  {
    if peak < x < y && c.Surplus(x) < c.Surplus(y) {
      FallsAfterPeak(c, peak, x, y);
    }
  }

  method LastWithMargin(c: Curve, upper: int, peak: int) returns (selected: int)
    requires c.Valid() && 1 <= upper && IsPeak(c, 1, upper, peak) && c.Margin(peak)
    ensures IsGreatestWithMargin(c, upper, selected)
  {
    var lo, hi := peak, upper;
    selected := peak;
    while lo <= hi
      invariant peak <= lo && peak - 1 <= hi <= upper
      invariant peak <= selected <= upper && c.Margin(selected)
      invariant lo == selected + 1 || lo == selected == peak
      invariant lo <= hi + 1
      invariant forall y :: hi < y <= upper ==> !c.Margin(y)
      decreases hi - lo
    {
      var mid := (lo + hi) / 2;
      if c.Margin(mid) {
        selected := mid;
        lo := mid + 1;
      } else {
        forall y | mid <= y <= upper ensures !c.Margin(y) {
          if c.Margin(y) { MarginEndsOnce(c, upper, peak, mid, y); }
        }
        hi := mid - 1;
      }
    }
  }

  // ---------------------------------------------------------------------------------
  // Sizing
  // ---------------------------------------------------------------------------------

  lemma CurveIsValid(pool: Pool, side: Side, cap: int)
    requires pool.Valid() && 0 <= cap <= 10_000 && (side == Sell ==> cap < 10_000)
    ensures CurveOf(pool, side, cap).Valid()
  {
    var rIn, rOut := pool.ReserveIn(side) as real, pool.ReserveOut(side) as real;
    Positive(rIn, FEE_DEN as real);
    if side == Buy {
      Positive(rOut, BPS);
      Positive(rIn, BPS + cap as real);
      Positive(rOut * BPS, rIn * (BPS + cap as real));
    } else {
      Positive(rOut, BPS - cap as real);
      Positive(rIn, BPS);
      Positive(rOut * (BPS - cap as real), rIn * BPS);
    }
  }

  /** A sale never loses more than the whole price, so the separate exit the selector keeps for a
      cap of 10000 on the sell side is never reached. */
  lemma SellImpactIsAtMostWhole(pool: Pool, x: int)
    requires pool.Valid()
    ensures QuoteOf(pool, Sell, x).Ok? ==> Meets(pool, Sell, 10_000, x)
  {
  }

  /** What the search region leaves out has no margin either: beyond the crossing the surplus is
      negative, so the greatest input with margin below `upper` is the greatest below `desired`. */
  lemma NoMarginBeyondCrossing(c: Curve, desired: int, x: int)
    requires c.Valid() && 1 <= x <= desired
    requires Truncate(c.Crossing()) < x
    ensures !c.Margin(x)
  {
    SurplusSign(c, x);
  }

  /** The conservative input for a desired one: unchanged when it already respects the cap;
      otherwise the greatest input up to the desired one that keeps a whole output unit of
      margin, and a refusal exactly when there is none. Whatever is returned respects the cap,
      so the final recheck never halts. */
  method ImpactCappedInput(pool: Pool, side: Side, desired: int, cap: int) returns (r: Result<int>)
    requires pool.Valid()
    ensures r.Ok? ==> 1 <= r.value <= desired && 0 <= cap <= 10_000 && Meets(pool, side, cap, r.value)
    ensures r.Refused? ==> r.error != SafeHalt
    ensures desired <= 0 ==> r == Refused(NotExecutable)
    ensures 0 < desired && !(0 <= cap <= 10_000) ==> r == Refused(OutOfContract)
    ensures 0 < desired && 0 <= cap <= 10_000 ==>
              if QuoteOf(pool, side, desired).Refused? then r == Refused(NotExecutable)
              else if Meets(pool, side, cap, desired) then r == Ok(desired)
              else
                var c := CurveOf(pool, side, cap);
                && c.Valid()
                && (r.Ok? ==> IsGreatestWithMargin(c, desired, r.value))
                && (r.Refused? ==> r == Refused(NotExecutable) && forall x :: 1 <= x <= desired ==> !c.Margin(x))
    ensures r.Ok? ==> ImpactWithin(pool, side, cap, r.value, QuoteOf(pool, side, r.value).value.output)
    ensures r.Ok? && r.value < desired ==>
              UnitToSpare(pool, side, cap, r.value) && NoneToSpare(pool, side, cap, r.value + 1, desired)
    ensures r.Refused? && 0 < desired && 0 <= cap <= 10_000 && QuoteOf(pool, side, desired).Ok? ==>
              NoneToSpare(pool, side, cap, 1, desired)
  {
    if desired <= 0 {
      return Refused(NotExecutable);
    }
    if !(0 <= cap <= 10_000) {
      return Refused(OutOfContract);
    }
    var desiredQuote := QuoteOf(pool, side, desired);
    if desiredQuote.Refused? {
      return Refused(desiredQuote.error);
    }
    if desiredQuote.value.impactBps <= cap as real {
      MeetsInIntegers(pool, side, cap, desired);
      return Ok(desired);
    }
    if side == Sell && cap == 10_000 {
      // The program returns the desired input here; the bound just checked leaves no such case.
      SellImpactIsAtMostWhole(pool, desired);
      assert false;
    }
    CurveIsValid(pool, side, cap);
    var c := CurveOf(pool, side, cap);
    var crossing := Truncate(c.Crossing());
    var upper := if desired <= crossing then desired else crossing;
    forall x | 1 <= x <= desired && upper < x ensures !c.Margin(x) {
      NoMarginBeyondCrossing(c, desired, x);
    }
    if upper <= 0 {
      NoMarginInIntegers(pool, side, cap, 1, desired);
      return Refused(NotExecutable);
    }
    var peak := TernaryPeak(c, upper);
    if !c.Margin(peak) {
      NoMarginInIntegers(pool, side, cap, 1, desired);
      return Refused(NotExecutable);
    }
    var selected := LastWithMargin(c, upper, peak);
    MarginIsSafe(pool, side, cap, selected);
    if cap as real < QuoteOf(pool, side, selected).value.impactBps {
      // The program halts here.
      assert false;
    }
    MeetsInIntegers(pool, side, cap, selected);
    MarginInIntegers(pool, side, cap, selected);
    NoMarginInIntegers(pool, side, cap, selected + 1, desired);
    return Ok(selected);
  }

  /** A refusal because the crossing lies below one is final: no input whatsoever, desired or
      not, would have respected the cap. */
  lemma CrossingRefusalIsFinal(pool: Pool, side: Side, cap: int)
    requires pool.Valid() && 0 <= cap <= 10_000 && (side == Sell ==> cap < 10_000)
    ensures CurveOf(pool, side, cap).Valid()
    ensures Truncate(CurveOf(pool, side, cap).Crossing()) <= 0 ==> forall x :: !Meets(pool, side, cap, x)
  {
    CurveIsValid(pool, side, cap);
    if Truncate(CurveOf(pool, side, cap).Crossing()) <= 0 {
      forall x ensures !Meets(pool, side, cap, x) {
        NoInputBelowCrossingOne(pool, side, cap, x);
      }
    }
  }

  /** Every input that respects the cap lies at or below the crossing. */
  lemma MeetsOnlyBelowCrossing(pool: Pool, side: Side, cap: int, x: int)
    requires pool.Valid() && 0 <= cap <= 10_000 && (side == Sell ==> cap < 10_000)
    requires Meets(pool, side, cap, x)
    ensures CurveOf(pool, side, cap).Valid()
    ensures x as real <= CurveOf(pool, side, cap).Crossing()
  {
    CurveIsValid(pool, side, cap);
    SurplusSign(CurveOf(pool, side, cap), x);
    OutputIsFlooredContinuous(pool, side, cap, x);
    MeetsMeansRequiredOutput(pool, side, cap, x);
  }

  /** The margin is conservative: with reserves 121 and 11 and a cap of 1000 basis points, buying
      with one unit respects the cap, yet for a desired input of two nothing has a margin and the
      selector refuses. */
  lemma MarginCanRefuseASafeInput()
    ensures var pool, c := Pool(121, 11), CurveOf(Pool(121, 11), Buy, 1000);
            && c.Valid()
            && Meets(pool, Buy, 1000, 1) && !Meets(pool, Buy, 1000, 2)
            && !c.Margin(1) && !c.Margin(2)
  {
    var pool := Pool(121, 11);
    CurveIsValid(pool, Buy, 1000);
    MeetsMeansRequiredOutput(pool, Buy, 1000, 1);
    MeetsMeansRequiredOutput(pool, Buy, 1000, 2);
    assert FlooredOutput(11, 121, 1) == 10 && FlooredOutput(11, 121, 2) == 18;
    var c := CurveOf(pool, Buy, 1000);
    assert c.required == 10.0;
    assert c.Continuous(1) == 120637.0 / 11997.0;
    assert c.Continuous(2) == 241274.0 / 12994.0;
  }

  // ---------------------------------------------------------------------------------
  // In integers
  // ---------------------------------------------------------------------------------

  /** The constant product of the pool does not fall when `out` is paid for `x`, of which 0.3 per cent
      is withheld. */
  predicate ProductKept(rIn: int, rOut: int, x: int, out: int) {
    1000 * rIn * rOut <= (1000 * rIn + 997 * x) * (rOut - out)
  }

  /** The quoted output is the greatest that keeps the constant product, and a quote is refused exactly
      when not even one unit of output does. */
  lemma QuoteKeepsProduct(pool: Pool, side: Side, x: int)
    requires pool.Valid() && 0 < x
    ensures var (rIn, rOut) := if side == Buy then (pool.reserve1, pool.reserve0) else (pool.reserve0, pool.reserve1);
            var q := QuoteOf(pool, side, x);
            && (q.Refused? ==> q.error == NotExecutable)
            && (q.Ok? <==> ProductKept(rIn, rOut, x, 1))
            && (q.Ok? ==> q.value.input == x && forall out :: out <= q.value.output <==> ProductKept(rIn, rOut, x, out))
  {
    var (rIn, rOut) := if side == Buy then (pool.reserve1, pool.reserve0) else (pool.reserve0, pool.reserve1);
    var output := FlooredOutput(rIn, rOut, x);
    forall out ensures out <= output <==> ProductKept(rIn, rOut, x, out) {
      OutputKeepsProduct(rIn, rOut, x, out);
    }
    QuoteIsFloored(pool, side, x, output);
  }

  lemma QuoteIsFloored(pool: Pool, side: Side, x: int, output: int)
    requires pool.Valid() && 0 < x && output == FlooredOutput(pool.ReserveIn(side), pool.ReserveOut(side), x)
    ensures var q := QuoteOf(pool, side, x);
            if 0 < output then q.Ok? && q.value.input == x && q.value.output == output else q == Refused(NotExecutable)
  {
  }

  lemma OutputKeepsProduct(rIn: int, rOut: int, x: int, out: int)
    requires 0 < rIn && 0 < rOut && 0 < x
    ensures out <= FlooredOutput(rIn, rOut, x) <==> ProductKept(rIn, rOut, x, out)
  {
    var a, b := x * FEE_NUM * rOut, rIn * FEE_DEN + x * FEE_NUM;
    AtMostQuotient(a, b, out);
    assert (1000 * rIn + 997 * x) * (rOut - out) - 1000 * rIn * rOut == a - b * out;
  }

  lemma AtMostQuotient(a: int, b: int, out: int)
    requires 0 < b
    ensures out <= a / b <==> b * out <= a
  {
    var q := a / b;
    assert b * q <= a < b * q + b;
    if out <= q { assert b * out <= b * q; }
    if q < out { assert b * (q + 1) <= b * out; }
  }

  /** Paying `x` for `out` is worse than the ratio of the reserves by at most `cap` ten-thousandths: of
      that ratio, for a buy; of the whole, for a sale. */
  predicate ImpactWithin(pool: Pool, side: Side, cap: int, x: int, out: int) {
    if side == Buy then 10_000 * (x * pool.reserve0 - out * pool.reserve1) <= cap * (out * pool.reserve1)
    else 10_000 * (x * pool.reserve1 - out * pool.reserve0) <= cap * (x * pool.reserve1)
  }

  /** An input respects the cap exactly when the pool quotes it and its impact is within the cap. */
  lemma MeetsInIntegers(pool: Pool, side: Side, cap: int, x: int)
    requires pool.Valid() && 0 <= cap && 0 < x
    ensures var q := QuoteOf(pool, side, x);
            Meets(pool, side, cap, x) <==> q.Ok? && ImpactWithin(pool, side, cap, x, q.value.output)
  {
    var q := QuoteOf(pool, side, x);
    MeetsMeansRequiredOutput(pool, side, cap, x);
    if q.Ok? { RequiredInIntegers(pool, side, cap, x, q.value.output); }
  }

  lemma RequiredInIntegers(pool: Pool, side: Side, cap: int, x: int, out: int)
    requires pool.Valid() && 0 <= cap && 0 < x
    ensures CurveOf(pool, side, cap).required * x as real <= out as real <==> ImpactWithin(pool, side, cap, x, out)
  {
    if side == Buy {
      BuyInIntegers(x, out, pool.reserve1, pool.reserve0, cap);
    } else {
      SellInIntegers(x, out, pool.reserve0, pool.reserve1, cap);
    }
  }

  lemma BuyInIntegers(x: int, out: int, rIn: int, rOut: int, cap: int)
    requires 0 < x && 0 < rIn && 0 < rOut && 0 <= cap
    ensures Required(Buy, rIn as real, rOut as real, cap as real) * x as real <= out as real
       <==> 10_000 * (x * rOut - out * rIn) <= cap * (out * rIn)
  {
    var d := rIn * (10_000 + cap);
    assert d as real == rIn as real * (BPS + cap as real);
    assert (rOut * 10_000) as real == rOut as real * BPS;
    CrossMultiplied(rOut * 10_000, d, x, out);
    assert 10_000 * (x * rOut - out * rIn) - cap * (out * rIn) == x * (rOut * 10_000) - out * d;
  }

  lemma SellInIntegers(x: int, out: int, rIn: int, rOut: int, cap: int)
    requires 0 < x && 0 < rIn && 0 < rOut && 0 <= cap
    ensures Required(Sell, rIn as real, rOut as real, cap as real) * x as real <= out as real
       <==> 10_000 * (x * rOut - out * rIn) <= cap * (x * rOut)
  {
    var d := rIn * 10_000;
    assert d as real == rIn as real * BPS;
    assert (rOut * (10_000 - cap)) as real == rOut as real * (BPS - cap as real);
    CrossMultiplied(rOut * (10_000 - cap), d, x, out);
    assert 10_000 * (x * rOut - out * rIn) - cap * (x * rOut) == x * (rOut * (10_000 - cap)) - out * d;
  }

  lemma CrossMultiplied(n: int, d: int, x: int, out: int)
    requires 0 < d
    ensures n as real / d as real * x as real <= out as real <==> x * n <= out * d
  {
    assert (n as real / d as real) * x as real == (x * n) as real / d as real;
    QuotientAtMost((x * n) as real, d as real, out as real);
    assert (out * d) as real == out as real * d as real;
  }

  /** Even one whole unit less than the output before the floor would respect the cap. */
  predicate UnitToSpare(pool: Pool, side: Side, cap: int, x: int) {
    var (rIn, rOut) := if side == Buy then (pool.reserve1, pool.reserve0) else (pool.reserve0, pool.reserve1);
    var d := 1000 * rIn + 997 * x;
    var less := 997 * x * rOut - d;
    if side == Buy then 10_000 * (x * rOut * d - less * rIn) <= cap * (less * rIn)
    else 10_000 * (x * rOut * d - less * rIn) <= cap * (x * rOut * d)
  }

  lemma MarginInIntegers(pool: Pool, side: Side, cap: int, x: int)
    requires pool.Valid() && 0 <= cap && 0 < x && CurveOf(pool, side, cap).Valid()
    ensures CurveOf(pool, side, cap).Margin(x) <==> UnitToSpare(pool, side, cap, x)
  {
    if side == Buy {
      BuyMargin(pool, cap, x);
    } else {
      SellMargin(pool, cap, x);
    }
  }

  /** No input from `least` to `most` has a unit to spare. */
  ghost predicate NoneToSpare(pool: Pool, side: Side, cap: int, least: int, most: int) {
    forall x :: least <= x <= most ==> !UnitToSpare(pool, side, cap, x)
  }

  lemma NoMarginInIntegers(pool: Pool, side: Side, cap: int, least: int, most: int)
    requires pool.Valid() && 0 <= cap && 1 <= least && CurveOf(pool, side, cap).Valid()
    requires forall x :: least <= x <= most ==> !CurveOf(pool, side, cap).Margin(x)
    ensures NoneToSpare(pool, side, cap, least, most)
  {
    forall x | least <= x <= most ensures !UnitToSpare(pool, side, cap, x) {
      MarginInIntegers(pool, side, cap, x);
    }
  }

  lemma SurplusIs(rIn: int, rOut: int, required: real, x: int)
    requires 0 < rIn && 0 < rOut && 0.0 < required && 0 < x
    ensures var c := Curve(rIn as real * FEE_DEN as real, rOut as real, required);
            c.Surplus(x) == (997 * x * rOut) as real / (1000 * rIn + 997 * x) as real - required * x as real
  {
    ProductsOfCasts(x, rOut, rIn);
    assert 997 * x * rOut == x * FEE_NUM * rOut;
  }

  lemma BuyMargin(pool: Pool, cap: int, x: int)
    requires pool.Valid() && 0 <= cap && 0 < x && CurveOf(pool, Buy, cap).Valid()
    ensures CurveOf(pool, Buy, cap).Margin(x) <==> UnitToSpare(pool, Buy, cap, x)
  {
    var rIn, rOut := pool.reserve1, pool.reserve0;
    var d, n, m := 1000 * rIn + 997 * x, rOut * 10_000, rIn * (10_000 + cap);
    SurplusIs(rIn, rOut, CurveOf(pool, Buy, cap).required, x);
    BuyRequired(rIn, rOut, cap);
    MarginCleared(997 * x * rOut, d, n, m, x);
    BuyCleared(x, rOut, rIn, d, 997 * x * rOut - d, cap);
  }

  lemma BuyRequired(rIn: int, rOut: int, cap: int)
    requires 0 < rIn && 0 <= cap
    ensures Required(Buy, rIn as real, rOut as real, cap as real) == (rOut * 10_000) as real / (rIn * (10_000 + cap)) as real
  {
    assert (rIn * (10_000 + cap)) as real == rIn as real * (BPS + cap as real);
  }

  lemma SellMargin(pool: Pool, cap: int, x: int)
    requires pool.Valid() && 0 <= cap && 0 < x && CurveOf(pool, Sell, cap).Valid()
    ensures CurveOf(pool, Sell, cap).Margin(x) <==> UnitToSpare(pool, Sell, cap, x)
  {
    var rIn, rOut := pool.reserve0, pool.reserve1;
    var d, n, m := 1000 * rIn + 997 * x, rOut * (10_000 - cap), rIn * 10_000;
    SurplusIs(rIn, rOut, CurveOf(pool, Sell, cap).required, x);
    SellRequired(rIn, rOut, cap);
    MarginCleared(997 * x * rOut, d, n, m, x);
    SellCleared(x, rOut, rIn, d, 997 * x * rOut - d, cap);
  }

  lemma SellRequired(rIn: int, rOut: int, cap: int)
    requires 0 < rIn && 0 <= cap
    ensures Required(Sell, rIn as real, rOut as real, cap as real) == (rOut * (10_000 - cap)) as real / (rIn * 10_000) as real
  {
    assert (rOut * (10_000 - cap)) as real == rOut as real * (BPS - cap as real);
  }

  lemma BuyCleared(x: int, rOut: int, rIn: int, d: int, less: int, cap: int)
    ensures 10_000 * (x * rOut * d - less * rIn) - cap * (less * rIn)
         == x * (rOut * 10_000) * d - less * (rIn * (10_000 + cap))
  {
  }

  lemma SellCleared(x: int, rOut: int, rIn: int, d: int, less: int, cap: int)
    ensures 10_000 * (x * rOut * d - less * rIn) - cap * (x * rOut * d)
         == x * (rOut * (10_000 - cap)) * d - less * (rIn * 10_000)
  {
  }

  /** The margin of `a / d` over `x * n / m`, cleared of denominators. */
  lemma MarginCleared(a: int, d: int, n: int, m: int, x: int)
    requires 0 < d && 0 < m
    ensures 1.0 <= a as real / d as real - n as real / m as real * x as real <==> x * n * d <= (a - d) * m
  {
    var q, r := a as real / d as real, n as real / m as real;
    assert q * d as real == a as real && r * m as real == n as real;
    Scale((d * m) as real, 1.0 + r * x as real, q);
    assert (1.0 + r * x as real) * (d * m) as real == (d * m + x * n * d) as real by {
      assert (d * m) as real == d as real * m as real;
      assert r * x as real * (d as real * m as real) == (r * m as real) * (x as real * d as real);
      assert (x * n * d) as real == n as real * (x as real * d as real);
    }
    assert q * (d * m) as real == (a * m) as real;
  }
}
