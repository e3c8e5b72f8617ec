/** Turning a policy rung into an absolute economic limit. */
module Economics {

  import opened Outcomes
  import opened Fractions
  import opened PowersOfTen
  import opened Decimals
  import opened Domain
  import opened JsonDocuments

  /** An admitted policy. Its identity, a digest of its canonical document, is that document. */
  datatype Policy = Policy(terms: Terms, budget: Budget, canonical: Json)

  /** One economic action, which may happen at most once. */
  datatype ActionId = ActionId(policy: Json, instrument: InstrumentRef, cycle: string, level: string, side: Side)

  datatype Intent = Intent(action: ActionId, kind: Kind, bounds: Bounds, exposure: int)

  /** What admission guarantees to this module. */
  ghost predicate Admitted(p: Policy) {
    && p.terms.base.ref != p.terms.quote.ref
    && p.terms.entry.Valid() && p.terms.entry.kind == Entry && p.terms.entry.side == p.terms.side
    && p.terms.exit.Valid() && p.terms.exit.kind == Exit && p.terms.exit.side == p.terms.side.Opposite()
    && SharesAtMostOne(p.terms.exit.levels)
    && LimitsValid(p.terms.limits)
    && p.terms.timing.validFrom < p.terms.timing.expiry && 1 <= p.terms.timing.quoteTtl
    && p.budget.Coherent()
    && (p.terms.side == Buy ==> forall l <- p.terms.entry.levels :: EntryFits(p, l))
  }

  predicate LimitsValid(limits: Limits) {
    && limits.maxPrice.Valid() && 0 < limits.maxPrice.num
    && limits.minPrice.Valid() && 0 < limits.minPrice.num
    && AtMost(limits.minPrice, limits.maxPrice)
    && limits.slippageBps <= BPS_DENOMINATOR && limits.impactBps <= BPS_DENOMINATOR
  }

  /** An entry rung of a BUY policy is exactly representable and within the per-order cap. */
  predicate EntryFits(p: Policy, l: Level)
    requires l.Valid()
  {
    var amount := ToAtomic(l.size, p.terms.quote.decimals);
    amount.Ok? && amount.value <= p.budget.perOrder
  }

  /** The inventory shares of the first `n` exit rungs, summed. */
  function TotalShare(levels: seq<Level>, n: nat): (total: Frac)
    requires n <= |levels| && forall i :: 0 <= i < n ==> levels[i].Valid()
    ensures 0 < total.den
  {
    if n == 0 then Whole(0) else PlusShare(TotalShare(levels, n - 1), levels[n - 1])
  }

  function PlusShare(total: Frac, level: Level): (r: Frac)
    requires 0 < total.den && level.Valid()
    ensures 0 < r.den
  {
    Plus(total, level.size)
  }

  predicate SharesAtMostOne(levels: seq<Level>)
    requires forall i :: 0 <= i < |levels| ==> levels[i].Valid()
  {
    AtMost(TotalShare(levels, |levels|), Whole(1))
  }

  // ---------------------------------------------------------------------------------
  // The limit price
  // ---------------------------------------------------------------------------------

  function Lesser(a: Frac, b: Frac): Frac {
    if Less(b, a) then b else a
  }

  function Greater(a: Frac, b: Frac): Frac {
    if Less(a, b) then b else a
  }

  function Slippage(limits: Limits): Frac {
    Make(limits.slippageBps, BPS_DENOMINATOR)
  }

  function SlippageFactor(limits: Limits, side: Side): (r: Frac)
    ensures 0 < r.den
  {
    if side == Buy then Plus(Whole(1), Slippage(limits)) else Minus(Whole(1), Slippage(limits))
  }

  function Clamp(side: Side, widened: Frac, hard: Frac): Frac {
    if side == Buy then Lesser(widened, hard) else Greater(widened, hard)
  }

  function HardPrice(limits: Limits, side: Side): Frac {
    if side == Buy then limits.maxPrice else limits.minPrice
  }

  function Widened(limits: Limits, level: Level): (r: Frac)
    requires level.Valid()
    ensures 0 < r.den
  {
    Times(level.trigger, SlippageFactor(limits, level.side))
  }

  /** The rung's trigger, widened by the slippage tolerance and clamped by the hard limit. */
  function LegLimitPrice(limits: Limits, level: Level): (r: Frac)
    requires level.Valid() && LimitsValid(limits)
    ensures 0 < r.den
  {
    Clamp(level.side, Widened(limits, level), HardPrice(limits, level.side))
  }

  /** The slippage factor in basis points. */
  function FactorBps(limits: Limits, side: Side): int {
    if side == Buy then BPS_DENOMINATOR + limits.slippageBps else BPS_DENOMINATOR - limits.slippageBps
  }

  lemma FactorIs(limits: Limits, side: Side)
    ensures var f := SlippageFactor(limits, side);
            f.Valid() && f.num * BPS_DENOMINATOR == FactorBps(limits, side) * f.den
  {
    if side == Buy { BuyFactorIs(limits); } else { SellFactorIs(limits); }
  }

  lemma BuyFactorIs(limits: Limits)
    ensures var f := SlippageFactor(limits, Buy);
            f.Valid() && f.num * BPS_DENOMINATOR == (BPS_DENOMINATOR + limits.slippageBps) * f.den
  {
    MakeIsValid(limits.slippageBps, BPS_DENOMINATOR);
    SumWithOne(Slippage(limits), limits.slippageBps);
  }

  lemma SellFactorIs(limits: Limits)
    ensures var f := SlippageFactor(limits, Sell);
            f.Valid() && f.num * BPS_DENOMINATOR == (BPS_DENOMINATOR - limits.slippageBps) * f.den
  {
    MakeIsValid(limits.slippageBps, BPS_DENOMINATOR);
    LessFromOne(Slippage(limits), limits.slippageBps);
  }

  lemma LessFromOne(s: Frac, n: int)
    requires 0 < s.den && s.num * BPS_DENOMINATOR == n * s.den
    ensures var r := Minus(Whole(1), s);
            r.Valid() && r.num * BPS_DENOMINATOR == (BPS_DENOMINATOR - n) * r.den
  {
    var m := 0 - n;
    assert -s.num * BPS_DENOMINATOR == m * s.den;
    SumWithOne(Frac(-s.num, s.den), m);
  }

  lemma SumWithOne(s: Frac, n: int)
    requires 0 < s.den && s.num * BPS_DENOMINATOR == n * s.den
    ensures var r := Plus(Whole(1), s);
            r.Valid() && r.num * BPS_DENOMINATOR == (BPS_DENOMINATOR + n) * r.den
  {
    PlusIs(Whole(1), s);
    OnePlus(Plus(Whole(1), s), s, n, BPS_DENOMINATOR);
  }

  lemma OnePlus(r: Frac, s: Frac, n: int, d: int)
    requires 0 < s.den && s.num * d == n * s.den
    requires r.num * (1 * s.den) == (1 * s.den + s.num * 1) * r.den
    ensures r.num * d == (d + n) * r.den
  {
  }

  /** On the right side of a price: not above it when buying, not below it when selling. */
  predicate NoWorse(side: Side, price: Frac, limit: Frac) {
    if side == Buy then AtMost(price, limit) else AtMost(limit, price)
  }

  lemma ClampIsClamped(side: Side, widened: Frac, hard: Frac)
    requires widened.Valid() && hard.Valid() && 0 < hard.num && (side == Buy ==> 0 < widened.num)
    ensures var limit := Clamp(side, widened, hard);
            && limit.Valid() && 0 < limit.num && (limit == widened || limit == hard)
            && NoWorse(side, limit, hard) && NoWorse(side, limit, widened)
  {
  }

  lemma PositiveCofactorOf(n: int, d: int)
    requires 0 < d && 0 < n * d
    ensures 0 < n
  {
  }

  /** The factor of a buy is positive. */
  lemma WidenedIs(limits: Limits, level: Level)
    requires level.Valid()
    ensures var w, f := Widened(limits, level), SlippageFactor(limits, level.side);
            && w.Valid() && w.num * (level.trigger.den * f.den) == (level.trigger.num * f.num) * w.den
            && f.Valid() && f.num * BPS_DENOMINATOR == FactorBps(limits, level.side) * f.den
            && (level.side == Buy ==> 0 < w.num)
  {
    FactorIs(limits, level.side);
    TimesIs(level.trigger, SlippageFactor(limits, level.side));
    if level.side == Buy {
      PositiveProduct(Widened(limits, level), level.trigger, SlippageFactor(limits, level.side),
                      FactorBps(limits, level.side));
    }
  }

  lemma PositiveProduct(w: Frac, t: Frac, f: Frac, n: int)
    requires 0 < w.den && 0 < t.den && 0 < f.den && 0 < t.num && 0 < n
    requires f.num * BPS_DENOMINATOR == n * f.den
    requires w.num * (t.den * f.den) == (t.num * f.num) * w.den
    ensures 0 < w.num
  {
  }

  /** The limit is the stricter of the widened trigger and the hard price: no rung can widen its
      way past the hard limit, nor is it held tighter than either of the two. */
  lemma LimitIsClamped(limits: Limits, level: Level)
    requires level.Valid() && LimitsValid(limits)
    ensures var limit, widened, hard :=
              LegLimitPrice(limits, level), Widened(limits, level), HardPrice(limits, level.side);
            && limit.Valid() && 0 < limit.num && (limit == widened || limit == hard)
            && NoWorse(level.side, limit, hard) && NoWorse(level.side, limit, widened)
  {
    WidenedIs(limits, level);
    ClampIsClamped(level.side, Widened(limits, level), HardPrice(limits, level.side));
  }

  // ---------------------------------------------------------------------------------
  // Minimum output
  // ---------------------------------------------------------------------------------

  /** The least output, in atomic units, that the limit price (quote per base) demands. */
  function MinOutput(side: Side, input: int, limit: Frac, baseDecimals: nat, quoteDecimals: nat): int
    requires 0 < limit.num && 0 < limit.den
  {
    var b, q := Pow(10, baseDecimals), Pow(10, quoteDecimals);
    DenominatorsPositive(limit, baseDecimals, quoteDecimals);
    if side == Buy then CeilDiv(input * b * limit.den, limit.num * q)
    else CeilDiv(input * limit.num * q, limit.den * b)
  }

  lemma DenominatorsPositive(limit: Frac, baseDecimals: nat, quoteDecimals: nat)
    requires 0 < limit.num && 0 < limit.den
    ensures 0 < limit.num * Pow(10, quoteDecimals) && 0 < limit.den * Pow(10, baseDecimals)
  {
  }

  /** The price in human units, quote per base, of a settlement. */
  function EffectivePrice(side: Side, fill: Fill, baseDecimals: nat, quoteDecimals: nat): (r: Frac)
    requires fill.Valid()
    ensures 0 < r.den
  {
    PowPositive(10, baseDecimals);
    PowPositive(10, quoteDecimals);
    var base, quote := if side == Buy then fill.output else fill.input, if side == Buy then fill.input else fill.output;
    ProductPositive(base, Pow(10, quoteDecimals));
    Make(quote * Pow(10, baseDecimals), base * Pow(10, quoteDecimals))
  }

  /** What the limit demands of a settlement, without division. */
  ghost predicate PricedWithin(side: Side, input: int, output: int, limit: Frac, b: int, q: int) {
    if side == Buy then input * b * limit.den <= output * (limit.num * q)
    else input * limit.num * q <= output * (limit.den * b)
  }

  lemma CrossOrder(p: Frac, n: int, d: int, l: Frac)
    requires 0 < p.den && 0 < d && p.num * d == n * p.den
    ensures AtMost(p, l) <==> n * l.den <= l.num * d
    ensures AtMost(l, p) <==> l.num * d <= n * l.den
  {
  }

  lemma PriceMeans(side: Side, fill: Fill, limit: Frac, bd: nat, qd: nat)
    requires fill.Valid() && 0 < limit.den
    ensures NoWorse(side, EffectivePrice(side, fill, bd, qd), limit)
        <==> PricedWithin(side, fill.input, fill.output, limit, Pow(10, bd), Pow(10, qd))
  {
    PowPositive(10, bd);
    PowPositive(10, qd);
    var b, q := Pow(10, bd), Pow(10, qd);
    var base, quote := if side == Buy then fill.output else fill.input, if side == Buy then fill.input else fill.output;
    ProductPositive(base, q);
    MakeIsValid(quote * b, base * q);
    CrossOrder(EffectivePrice(side, fill, bd, qd), quote * b, base * q, limit);
    Regrouped(base, quote, limit.num, limit.den, b, q);
  }

  lemma Regrouped(x: int, y: int, n: int, d: int, b: int, q: int)
    ensures n * (x * q) == x * (n * q) && n * (x * q) == x * n * q
    ensures y * b * d == y * (d * b)
  {
  }

  /** The minimum output is the least output whose effective price is within the limit. */
  lemma MinOutputIsLeast(side: Side, input: int, output: int, limit: Frac, bd: nat, qd: nat)
    requires 0 < input && 0 < output && 0 < limit.num && 0 < limit.den
    ensures MinOutput(side, input, limit, bd, qd) <= output <==>
            NoWorse(side, EffectivePrice(side, Fill(input, output), bd, qd), limit)
  {
    var b, q := Pow(10, bd), Pow(10, qd);
    DenominatorsPositive(limit, bd, qd);
    PriceMeans(side, Fill(input, output), limit, bd, qd);
    if side == Buy {
      CeilDivIsLeast(input * b * limit.den, limit.num * q, output);
    } else {
      CeilDivIsLeast(input * limit.num * q, limit.den * b, output);
    }
  }

  /** The minimum is always positive, so the refusal of a zero minimum is never taken. */
  lemma MinOutputIsPositive(side: Side, input: int, limit: Frac, bd: nat, qd: nat)
    requires 0 < input && 0 < limit.num && 0 < limit.den
    ensures 0 < MinOutput(side, input, limit, bd, qd)
  {
    var b, q := Pow(10, bd), Pow(10, qd);
    DenominatorsPositive(limit, bd, qd);
    PowPositive(10, bd);
    PowPositive(10, qd);
    if side == Buy {
      ProductPositive(input, b);
      ProductPositive(input * b, limit.den);
      CeilDivIsLeast(input * b * limit.den, limit.num * q, 0);
    } else {
      ProductPositive(input, limit.num);
      ProductPositive(input * limit.num, q);
      CeilDivIsLeast(input * limit.num * q, limit.den * b, 0);
    }
  }

  // ---------------------------------------------------------------------------------
  // Deadline and input
  // ---------------------------------------------------------------------------------

  function ActionDeadline(t: Timing, now: int): Result<int> {
    if now < t.validFrom then Refused(NotExecutable)
    else if t.expiry <= now then Refused(NotExecutable)
    else Ok(if t.expiry < now + t.quoteTtl then t.expiry else now + t.quoteTtl)
  }

  predicate InWindow(t: Timing, now: int) {
    t.validFrom <= now < t.expiry
  }

  /** A deadline exists exactly within the window, lies in the future, and is the latest instant
      that neither the policy nor the quote outlives. */
  lemma DeadlineIsTightest(t: Timing, now: int)
    requires 1 <= t.quoteTtl
    ensures ActionDeadline(t, now).Ok? <==> InWindow(t, now)
    ensures InWindow(t, now) ==>
              var d := ActionDeadline(t, now).value;
              now < d <= t.expiry && d <= now + t.quoteTtl && (d == t.expiry || d == now + t.quoteTtl)
  {
  }

  /** How much of the inventory an exit rung disposes of, rounded down. */
  function ExitInput(level: Level, inventory: int): Result<int>
    requires level.Valid()
  {
    if level.kind != Exit then Refused(OutOfContract)
    else if inventory < 0 then Refused(OutOfContract)
    else
      var amount := inventory * level.size.num / level.size.den;
      if amount <= 0 then Refused(NotExecutable) else Ok(amount)
  }

  /** An exit rung disposes of the whole part of its share, and is refused exactly when that is none. */
  lemma ExitInputIsFloored(level: Level, inventory: int, amount: int)
    requires level.Valid() && level.kind == Exit && 0 <= inventory && 0 < amount
    ensures ExitInput(level, inventory) == Ok(amount) <==>
            amount * level.size.den <= inventory * level.size.num < (amount + 1) * level.size.den
    ensures ExitInput(level, inventory).Refused? <==> inventory * level.size.num < level.size.den
  {
    var n, d := inventory * level.size.num, level.size.den;
    Natural(inventory, level.size.num);
    FloorIs(n, d, amount);
    FloorIs(n, d, 0);
  }

  lemma FloorIs(n: int, d: int, q: int)
    requires 0 <= n && 0 < d
    ensures n / d == q <==> q * d <= n < (q + 1) * d
    ensures 0 <= n / d
  {
    var f := n / d;
    assert f * d <= n < (f + 1) * d by { assert (f + 1) * d == f * d + d; }
    if f < q { MulOrder(d, f + 1, q); }
    if q < f { MulOrder(d, q + 1, f); }
  }

  /** What the first `n` rungs dispose of together; a refused rung disposes of nothing. */
  function Disposed(levels: seq<Level>, n: nat, inventory: int): int
    requires n <= |levels| && forall i :: 0 <= i < n ==> levels[i].Valid()
  {
    if n == 0 then 0 else Disposed(levels, n - 1, inventory) + DisposedBy(levels[n - 1], inventory)
  }

  function DisposedBy(level: Level, inventory: int): (r: int)
    requires level.Valid()
    ensures 0 <= r
  {
    var input := ExitInput(level, inventory);
    if input.Ok? then input.value else 0
  }

  lemma DisposedByIsFloored(level: Level, inventory: int)
    requires level.Valid() && 0 <= inventory
    ensures DisposedBy(level, inventory) * level.size.den <= inventory * level.size.num
  {
  }

  /** Two floored shares together stay within the summed share. */
  lemma SharesAdd(inventory: int, x: int, y: int, a: int, b: int, c: int, d: int, n: int, m: int)
    requires 0 <= inventory && 0 < b && 0 < d && 0 < m
    requires x * b <= inventory * a && y * d <= inventory * c && n * (b * d) == (a * d + c * b) * m
    ensures (x + y) * m <= inventory * n
  {
  }

  lemma {:induction false} DisposedWithinShare(levels: seq<Level>, n: nat, inventory: int)
    requires n <= |levels| && forall i :: 0 <= i < n ==> levels[i].Valid()
    requires 0 <= inventory
    ensures var total := TotalShare(levels, n);
            0 <= Disposed(levels, n, inventory) && Disposed(levels, n, inventory) * total.den <= inventory * total.num
    decreases n
  {
    if n != 0 {
      var last, before, total := levels[n - 1], TotalShare(levels, n - 1), TotalShare(levels, n);
      DisposedWithinShare(levels, n - 1, inventory);
      DisposedByIsFloored(last, inventory);
      PlusIs(before, last.size);
      SharesAdd(inventory, Disposed(levels, n - 1, inventory), DisposedBy(last, inventory),
                before.num, before.den, last.size.num, last.size.den, total.num, total.den);
    }
  }

  /** All exit rungs of an admitted policy, applied to one inventory, never dispose of more than
      it holds. */
  lemma ExitsNeverOversell(p: Policy, inventory: int)
    requires Admitted(p) && 0 <= inventory
    ensures 0 <= Disposed(p.terms.exit.levels, |p.terms.exit.levels|, inventory) <= inventory
  {
    var levels := p.terms.exit.levels;
    var total := TotalShare(levels, |levels|);
    DisposedWithinShare(levels, |levels|, inventory);
    WithinWhole(Disposed(levels, |levels|, inventory), inventory, total.num, total.den);
  }

  lemma WithinWhole(disposed: int, inventory: int, num: int, den: int)
    requires 0 <= inventory && 0 < den && num <= den && disposed * den <= inventory * num
    ensures disposed <= inventory
  {
  }

  // ---------------------------------------------------------------------------------
  // Bounds and intents
  // ---------------------------------------------------------------------------------

  /** The input of a rung: an exact entry amount, or a share of the inventory. */
  function LegInput(p: Policy, level: Level, inventory: Option<int>): Result<int>
    requires level.Valid()
  {
    if level.kind == Entry then
      if inventory.Some? then Refused(OutOfContract)
      else
        var amount := ToAtomic(level.size, if level.side == Buy then p.terms.quote.decimals else p.terms.base.decimals);
        if amount.Refused? then Refused(NotExecutable) else amount
    else if inventory.None? then Refused(OutOfContract)
    else ExitInput(level, inventory.value)
  }

  function BuildBounds(p: Policy, level: Level, now: int, inventory: Option<int>): Result<Bounds>
    requires level.Valid() && LimitsValid(p.terms.limits)
  {
    var deadline :- ActionDeadline(p.terms.timing, now);
    LimitIsClamped(p.terms.limits, level);
    var limit := LegLimitPrice(p.terms.limits, level);
    var input :- LegInput(p, level, inventory);
    var output := MinOutput(level.side, input, limit, p.terms.base.decimals, p.terms.quote.decimals);
    if output <= 0 then Refused(NotExecutable) else BoundsOf(p, level, input, output, limit, deadline)
  }

  function BoundsOf(p: Policy, level: Level, input: int, output: int, limit: Frac, deadline: int): Result<Bounds> {
    var base, quote := p.terms.base.ref, p.terms.quote.ref;
    var bounds := Bounds(level.side, if level.side == Buy then quote else base,
                         if level.side == Buy then base else quote,
                         input, output, limit, p.terms.limits.impactBps, p.terms.limits.slippageBps, deadline);
    if bounds.Valid() then Ok(bounds) else Refused(OutOfContract)
  }

  function BuildIntent(p: Policy, cycle: string, level: Level, now: int, inventory: Option<int>): Result<Intent>
    requires level.Valid() && LimitsValid(p.terms.limits)
  {
    var bounds :- BuildBounds(p, level, now, inventory);
    var exposure := if level.side == Buy then bounds.maxInput else 0;
    if level.side == Buy && p.budget.perOrder < exposure then Refused(NotExecutable)
    else
      Ok(Intent(ActionId(p.canonical, p.terms.base.ref, cycle, level.id, level.side), level.kind, bounds, exposure))
  }

  ghost predicate IsLevelOf(p: Policy, level: Level) {
    level in p.terms.entry.levels || level in p.terms.exit.levels
  }

  lemma LegInputIsPositive(p: Policy, level: Level, inventory: Option<int>)
    requires level.Valid() && LegInput(p, level, inventory).Ok?
    ensures 0 < LegInput(p, level, inventory).value
  {
    if level.kind == Entry {
      var decimals := if level.side == Buy then p.terms.quote.decimals else p.terms.base.decimals;
      var n := LegInput(p, level, inventory).value;
      ToAtomicIsExact(level.size, decimals, n);
      PowPositive(10, decimals);
      ProductPositive(level.size.num, Pow(10, decimals));
      PositiveCofactorOf(n, level.size.den);
    }
  }

  /** The bounds of a rung exist exactly within the window and when the rung has an input: the
      refusals of a zero minimum and of the record's own checks are never reached. */
  lemma BoundsExist(p: Policy, level: Level, now: int, inventory: Option<int>)
    requires Admitted(p) && IsLevelOf(p, level)
    ensures level.Valid()
    ensures BuildBounds(p, level, now, inventory).Ok? <==>
            InWindow(p.terms.timing, now) && LegInput(p, level, inventory).Ok?
    ensures BuildBounds(p, level, now, inventory).Ok? ==>
              var bounds := BuildBounds(p, level, now, inventory).value;
              && bounds.Valid() && bounds.side == level.side
              && bounds.maxInput == LegInput(p, level, inventory).value
              && bounds.limit == LegLimitPrice(p.terms.limits, level)
              && bounds.minOutput == MinOutput(level.side, bounds.maxInput, bounds.limit,
                                               p.terms.base.decimals, p.terms.quote.decimals)
              && now < bounds.deadline <= p.terms.timing.expiry
              && {bounds.input, bounds.output} == {p.terms.base.ref, p.terms.quote.ref}
              && (bounds.input == p.terms.quote.ref <==> level.side == Buy)
              && bounds.impactBps == p.terms.limits.impactBps && bounds.slippageBps == p.terms.limits.slippageBps
  {
    DeadlineIsTightest(p.terms.timing, now);
    LimitIsClamped(p.terms.limits, level);
    var input := LegInput(p, level, inventory);
    if input.Ok? {
      LegInputIsPositive(p, level, inventory);
      MinOutputIsPositive(level.side, input.value, LegLimitPrice(p.terms.limits, level),
                          p.terms.base.decimals, p.terms.quote.decimals);
    }
  }

  /** Every entry rung of an admitted BUY policy yields an intent throughout the window, with an
      exposure within the per-order cap. */
  lemma BuyEntriesAlwaysBuild(p: Policy, cycle: string, level: Level, now: int)
    requires Admitted(p) && p.terms.side == Buy && level in p.terms.entry.levels
    requires InWindow(p.terms.timing, now)
    ensures level.Valid()
    ensures var r := BuildIntent(p, cycle, level, now, None);
            && r.Ok? && 0 < r.value.exposure <= p.budget.perOrder
            && r.value.exposure == r.value.bounds.maxInput && r.value.bounds.Valid()
  {
    BoundsExist(p, level, now, None);
    assert EntryFits(p, level);
    LegInputIsPositive(p, level, None);
  }

  /** In general an intent exists exactly when the rung has bounds and, for a buy, its input is
      within the per-order cap. */
  lemma IntentExists(p: Policy, cycle: string, level: Level, now: int, inventory: Option<int>)
    requires Admitted(p) && IsLevelOf(p, level)
    ensures level.Valid()
    ensures BuildIntent(p, cycle, level, now, inventory).Ok? <==>
            && InWindow(p.terms.timing, now) && LegInput(p, level, inventory).Ok?
            && (level.side == Buy ==> LegInput(p, level, inventory).value <= p.budget.perOrder)
    ensures BuildIntent(p, cycle, level, now, inventory).Ok? ==>
              var intent := BuildIntent(p, cycle, level, now, inventory).value;
              && Ok(intent.bounds) == BuildBounds(p, level, now, inventory) && intent.kind == level.kind
              && intent.action == ActionId(p.canonical, p.terms.base.ref, cycle, level.id, level.side)
              && (intent.exposure != 0 <==> level.side == Buy) && intent.exposure <= p.budget.perOrder
  {
    BoundsExist(p, level, now, inventory);
    if LegInput(p, level, inventory).Ok? { LegInputIsPositive(p, level, inventory); }
  }

  // ---------------------------------------------------------------------------------
  // The bounds in integers
  // ---------------------------------------------------------------------------------

  /** `amount` is the input of an entry rung in atomic units: of the quote when it buys, of the base when
      it sells. */
  predicate IsEntryAmount(p: Policy, level: Level, amount: int) {
    var decimals := if level.side == Buy then p.terms.quote.decimals else p.terms.base.decimals;
    amount * level.size.den == level.size.num * Pow(10, decimals)
  }

  /** An entry rung has bounds exactly in the window, without an inventory, and when its amount is a whole
      number of atomic units, which then is the committed input. */
  lemma EntryBoundsExactly(p: Policy, level: Level, now: int, inventory: Option<int>)
    requires Admitted(p) && IsLevelOf(p, level) && level.kind == Entry
    ensures level.Valid()
    ensures BuildBounds(p, level, now, inventory).Ok? <==>
              && p.terms.timing.validFrom <= now < p.terms.timing.expiry && inventory.None?
              && exists amount :: IsEntryAmount(p, level, amount)
    ensures BuildBounds(p, level, now, inventory).Ok? ==>
              IsEntryAmount(p, level, BuildBounds(p, level, now, inventory).value.maxInput)
  {
    BoundsExist(p, level, now, inventory);
    if inventory.None? { EntryInputExactly(p, level); }
  }

  lemma EntryInputExactly(p: Policy, level: Level)
    requires level.Valid() && level.kind == Entry
    ensures LegInput(p, level, None).Ok? <==> exists amount :: IsEntryAmount(p, level, amount)
    ensures LegInput(p, level, None).Ok? ==> IsEntryAmount(p, level, LegInput(p, level, None).value)
  {
    var decimals := if level.side == Buy then p.terms.quote.decimals else p.terms.base.decimals;
    if LegInput(p, level, None).Ok? {
      ToAtomicIsExact(level.size, decimals, LegInput(p, level, None).value);
      assert IsEntryAmount(p, level, LegInput(p, level, None).value);
    }
    if amount :| IsEntryAmount(p, level, amount) {
      ToAtomicIsExact(level.size, decimals, amount);
    }
  }

  /** An exit rung has bounds exactly in the window, for an inventory of which its share is at least one
      atomic unit; the committed input is the whole part of that share. */
  lemma ExitBoundsExactly(p: Policy, level: Level, now: int, inventory: Option<int>)
    requires Admitted(p) && IsLevelOf(p, level) && level.kind == Exit
    ensures level.Valid()
    ensures BuildBounds(p, level, now, inventory).Ok? <==>
              && p.terms.timing.validFrom <= now < p.terms.timing.expiry
              && inventory.Some? && 0 <= inventory.value && level.size.den <= inventory.value * level.size.num
    ensures BuildBounds(p, level, now, inventory).Ok? ==>
              var amount := BuildBounds(p, level, now, inventory).value.maxInput;
              amount * level.size.den <= inventory.value * level.size.num < (amount + 1) * level.size.den
  {
    BoundsExist(p, level, now, inventory);
    if inventory.Some? && 0 <= inventory.value {
      var input := ExitInput(level, inventory.value);
      ExitInputIsFloored(level, inventory.value, if input.Ok? then input.value else 1);
    }
  }

  /** `limit` is the trigger moved by the slippage tolerance, up for a buy and down for a sale, but no
      further than the hard price. */
  predicate IsLimit(limits: Limits, level: Level, limit: Frac) {
    var t := level.trigger;
    if level.side == Buy then
      var widened := t.num * (10_000 + limits.slippageBps);
      if limits.maxPrice.num * (10_000 * t.den) <= widened * limits.maxPrice.den then limit == limits.maxPrice
      else limit.num * (10_000 * t.den) == widened * limit.den
    else
      var widened := t.num * (10_000 - limits.slippageBps);
      if widened * limits.minPrice.den <= limits.minPrice.num * (10_000 * t.den) then limit == limits.minPrice
      else limit.num * (10_000 * t.den) == widened * limit.den
  }

  lemma LegLimitIs(limits: Limits, level: Level)
    requires level.Valid() && LimitsValid(limits)
    ensures IsLimit(limits, level, LegLimitPrice(limits, level))
  {
    var t, w, f := level.trigger, Widened(limits, level), SlippageFactor(limits, level.side);
    var hard := HardPrice(limits, level.side);
    var bps := FactorBps(limits, level.side);
    WidenedIs(limits, level);
    WidenedInTenThousandths(w.num, w.den, t.num, t.den, f.num, f.den, bps);
    OrderInTenThousandths(w.num, w.den, hard.num, hard.den, t.num * bps, 10_000 * t.den);
    if w.num * hard.den == hard.num * w.den { ValidIsUnique(w, hard); }
  }

  lemma WidenedInTenThousandths(n: int, d: int, t: int, s: int, a: int, b: int, bps: int)
    requires 0 < b && a * 10_000 == bps * b && n * (s * b) == (t * a) * d
    ensures n * (10_000 * s) == (t * bps) * d
  {
    assert (n * (10_000 * s)) * b == (n * (s * b)) * 10_000;
    assert ((t * a) * d) * 10_000 == (t * d) * (a * 10_000);
    assert (t * d) * (bps * b) == ((t * bps) * d) * b;
    CancelFactor(b, n * (10_000 * s), (t * bps) * d);
  }

  lemma OrderInTenThousandths(n: int, d: int, hn: int, hd: int, a: int, k: int)
    requires 0 < d && 0 < hd && 0 < k && n * k == a * d
    ensures n * hd <= hn * d <==> a * hd <= hn * k
    ensures hn * d <= n * hd <==> hn * k <= a * hd
  {
    assert (n * hd) * k == (a * hd) * d by { assert (n * hd) * k == (n * k) * hd; }
    assert (hn * d) * k == (hn * k) * d;
    ScalesOrder(n * hd, hn * d, a * hd, hn * k, k, d);
    ScalesOrder(hn * d, n * hd, hn * k, a * hd, k, d);
  }

  lemma ScalesOrder(x: int, y: int, u: int, v: int, k: int, d: int)
    requires 0 < k && 0 < d && x * k == u * d && y * k == v * d
    ensures x <= y <==> u <= v
  {
  }

  /** `output` is worth the limit price: for a buy, of the input; for a sale, in the output. */
  predicate ReachesLimit(p: Policy, bounds: Bounds, output: int) {
    var b, q := Pow(10, p.terms.base.decimals), Pow(10, p.terms.quote.decimals);
    if bounds.side == Buy then bounds.maxInput * b * bounds.limit.den <= output * (bounds.limit.num * q)
    else bounds.maxInput * bounds.limit.num * q <= output * (bounds.limit.den * b)
  }

  /** Everything else that the bounds of a rung commit to. */
  lemma BoundsInIntegers(p: Policy, level: Level, now: int, inventory: Option<int>)
    requires Admitted(p) && IsLevelOf(p, level)
    requires level.Valid() && BuildBounds(p, level, now, inventory).Ok?
    ensures var bounds := BuildBounds(p, level, now, inventory).value;
            && bounds.side == level.side
            && bounds.input == (if level.side == Buy then p.terms.quote.ref else p.terms.base.ref)
            && bounds.output == (if level.side == Buy then p.terms.base.ref else p.terms.quote.ref)
            && IsLimit(p.terms.limits, level, bounds.limit)
            && (forall output :: bounds.minOutput <= output <==> ReachesLimit(p, bounds, output))
            && bounds.deadline == (if p.terms.timing.expiry - now < p.terms.timing.quoteTtl then p.terms.timing.expiry
                                   else now + p.terms.timing.quoteTtl)
            && bounds.impactBps == p.terms.limits.impactBps && bounds.slippageBps == p.terms.limits.slippageBps
  {
    BoundsExist(p, level, now, inventory);
    LegLimitIs(p.terms.limits, level);
    var bounds := BuildBounds(p, level, now, inventory).value;
    forall output ensures bounds.minOutput <= output <==> ReachesLimit(p, bounds, output) {
      MinOutputReaches(p, bounds, output);
    }
  }

  lemma MinOutputReaches(p: Policy, bounds: Bounds, output: int)
    requires 0 < bounds.limit.num && 0 < bounds.limit.den
    ensures MinOutput(bounds.side, bounds.maxInput, bounds.limit, p.terms.base.decimals, p.terms.quote.decimals) <= output
       <==> ReachesLimit(p, bounds, output)
  {
    var b, q := Pow(10, p.terms.base.decimals), Pow(10, p.terms.quote.decimals);
    DenominatorsPositive(bounds.limit, p.terms.base.decimals, p.terms.quote.decimals);
    if bounds.side == Buy {
      CeilDivIsLeast(bounds.maxInput * b * bounds.limit.den, bounds.limit.num * q, output);
    } else {
      CeilDivIsLeast(bounds.maxInput * bounds.limit.num * q, bounds.limit.den * b, output);
    }
  }

  /** An intent exists exactly when the rung has bounds and, for a buy, its input is within the per-order
      cap; it names the policy, the traded instrument, the cycle, the rung and its side, and only a buy
      puts capital at risk, namely its input. */
  lemma IntentInIntegers(p: Policy, cycle: string, level: Level, now: int, inventory: Option<int>)
    requires level.Valid() && LimitsValid(p.terms.limits)
    ensures var bounds, intent := BuildBounds(p, level, now, inventory), BuildIntent(p, cycle, level, now, inventory);
            && (intent.Ok? <==> bounds.Ok? && (level.side == Buy ==> bounds.value.maxInput <= p.budget.perOrder))
            && (intent.Ok? ==>
                  && intent.value.bounds == bounds.value && intent.value.kind == level.kind
                  && intent.value.action.policy == p.canonical && intent.value.action.instrument == p.terms.base.ref
                  && intent.value.action.cycle == cycle && intent.value.action.level == level.id
                  && intent.value.action.side == level.side
                  && intent.value.exposure == (if level.side == Buy then bounds.value.maxInput else 0))
  {
  }

  // ---------------------------------------------------------------------------------
  // What a satisfying receipt paid
  // ---------------------------------------------------------------------------------

  lemma ProrationKeepsPrice(side: Side, bounds: Bounds, fill: Fill, b: int, q: int)
    requires bounds.Valid() && fill.Valid() && fill.Satisfies(bounds) && 0 < b && 0 < q
    requires PricedWithin(side, bounds.maxInput, bounds.minOutput, bounds.limit, b, q)
    ensures PricedWithin(side, fill.input, fill.output, bounds.limit, b, q)
  {
  }

  lemma BuiltMinimumIsPriced(p: Policy, level: Level, now: int, inventory: Option<int>)
    requires Admitted(p) && IsLevelOf(p, level)
    requires level.Valid() && BuildBounds(p, level, now, inventory).Ok?
    ensures var bounds := BuildBounds(p, level, now, inventory).value;
            && bounds.Valid()
            && PricedWithin(level.side, bounds.maxInput, bounds.minOutput, bounds.limit,
                            Pow(10, p.terms.base.decimals), Pow(10, p.terms.quote.decimals))
  {
    BoundsExist(p, level, now, inventory);
    var bounds := BuildBounds(p, level, now, inventory).value;
    MinOutputIsLeast(level.side, bounds.maxInput, bounds.minOutput, bounds.limit,
                     p.terms.base.decimals, p.terms.quote.decimals);
    PriceMeans(level.side, Fill(bounds.maxInput, bounds.minOutput), bounds.limit,
               p.terms.base.decimals, p.terms.quote.decimals);
  }

  /** Any receipt that satisfies the bounds built for a rung, partial fills included, has an
      effective price on the right side of the rung limit and of the policy's hard price. */
  lemma SatisfyingPriceIsWithin(p: Policy, level: Level, now: int, inventory: Option<int>, fill: Fill)
    requires Admitted(p) && IsLevelOf(p, level)
    requires level.Valid() && BuildBounds(p, level, now, inventory).Ok?
    requires fill.Valid()
    ensures var bounds := BuildBounds(p, level, now, inventory).value;
            var price := EffectivePrice(level.side, fill, p.terms.base.decimals, p.terms.quote.decimals);
            && bounds.Valid()
            && (fill.Satisfies(bounds) ==>
                  && NoWorse(level.side, price, bounds.limit)
                  && NoWorse(level.side, price, HardPrice(p.terms.limits, level.side)))
            && (fill.input == bounds.maxInput ==>
                  (fill.Satisfies(bounds) <==> NoWorse(level.side, price, bounds.limit)))
  {
    var bd, qd := p.terms.base.decimals, p.terms.quote.decimals;
    BoundsExist(p, level, now, inventory);
    BuiltMinimumIsPriced(p, level, now, inventory);
    var bounds := BuildBounds(p, level, now, inventory).value;
    PowPositive(10, bd);
    PowPositive(10, qd);
    LimitIsClamped(p.terms.limits, level);
    if fill.Satisfies(bounds) {
      ProrationKeepsPrice(level.side, bounds, fill, Pow(10, bd), Pow(10, qd));
      PriceMeans(level.side, fill, bounds.limit, bd, qd);
      NoWorseIsTransitive(level.side, EffectivePrice(level.side, fill, bd, qd), bounds.limit,
                          HardPrice(p.terms.limits, level.side));
    }
    if fill.input == bounds.maxInput {
      FullFill(bounds, fill);
      MinOutputIsLeast(level.side, fill.input, fill.output, bounds.limit, bd, qd);
    }
  }

  lemma NoWorseIsTransitive(side: Side, a: Frac, b: Frac, c: Frac)
    requires 0 < a.den && 0 < b.den && 0 < c.den
    requires NoWorse(side, a, b) && NoWorse(side, b, c)
    ensures NoWorse(side, a, c)
  {
  }

  lemma FullFill(bounds: Bounds, fill: Fill)
    requires bounds.Valid() && fill.input == bounds.maxInput
    ensures fill.Satisfies(bounds) <==> bounds.minOutput <= fill.output
  {
    var most := bounds.maxInput;
    CeilDivIsLeast(bounds.minOutput * most, most, fill.output);
    if bounds.minOutput <= fill.output { MulOrder(most, bounds.minOutput, fill.output); }
    else { MulOrder(most, fill.output + 1, bounds.minOutput); }
  }
}
