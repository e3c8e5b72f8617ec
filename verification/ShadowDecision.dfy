/** The shadow decision: whether a pinned pool observation would have let a rung execute. */
module ShadowDecision {

  import opened Outcomes
  import opened Fractions
  import opened PowersOfTen
  import opened Domain
  import opened Economics
  import opened TradeSizing

  const MARKET_DECIMALS: nat := 18

  datatype Reason = StaleObservation | MinOutputBound | MaxExecutablePrice | MinExecutablePrice | MaxPriceImpact

  /** A pinned observation: the reserves and the block they were read at. */
  datatype Market = Market(pool: Pool, base: InstrumentRef, quote: InstrumentRef, block: nat)

  predicate MatchesMarket(m: Market, p: Policy) {
    && p.terms.base.ref == m.base && p.terms.quote.ref == m.quote
    && p.terms.base.decimals == MARKET_DECIMALS && p.terms.quote.decimals == MARKET_DECIMALS
  }

  /** The market of a policy: its two instruments, at eighteen decimals each. */
  lemma MarketExactly(m: Market, p: Policy)
    ensures MatchesMarket(m, p) <==>
              && m.base == p.terms.base.ref && m.quote == p.terms.quote.ref
              && p.terms.base.decimals == 18 && p.terms.quote.decimals == 18
  {
  }

  /** The quoted fill of an intent. */
  predicate QuotedWithin(bounds: Bounds, q: Quote)
    requires bounds.Valid() && 0 < q.input && 0 < q.output
  {
    Fill(q.input, q.output).Satisfies(bounds)
  }

  /** The reasons to abstain; none means the rung would have executed. Exactly then the observation
      is fresh, the quoted amounts satisfy the committed bounds, and the impact is within its cap.
      The separate price comparison adds nothing: it fails exactly when the output bound does. */
  method Decide(m: Market, p: Policy, cycle: string, level: Level, now: int, inventory: Option<int>,
                current: nat, maxAge: nat)
      returns (r: Result<seq<Reason>>)
    requires m.pool.Valid() && Admitted(p) && IsLevelOf(p, level) && level.Valid()
    ensures !MatchesMarket(m, p) || current < m.block ==> r == Refused(SafeHalt)
    ensures MatchesMarket(m, p) && m.block <= current ==>
              var intent := BuildIntent(p, cycle, level, now, inventory);
              if intent.Refused? then r == Refused(intent.error)
              else
                var bounds := intent.value.bounds;
                var quote := QuoteOf(m.pool, level.side, bounds.maxInput);
                if quote.Refused? then r == Refused(quote.error)
                else
                  && r.Ok? && bounds.Valid() && 0 < quote.value.input && 0 < quote.value.output
                  && (StaleObservation in r.value <==> maxAge < current - m.block)
                  && (MinOutputBound in r.value <==> !QuotedWithin(bounds, quote.value))
                  && (MaxExecutablePrice in r.value <==> level.side == Buy && !QuotedWithin(bounds, quote.value))
                  && (MinExecutablePrice in r.value <==> level.side == Sell && !QuotedWithin(bounds, quote.value))
                  && (MaxPriceImpact in r.value <==> bounds.impactBps as real < quote.value.impactBps)
                  && (r.value == [] <==>
                        && current - m.block <= maxAge && QuotedWithin(bounds, quote.value)
                        && quote.value.impactBps <= bounds.impactBps as real)
  {
    if !MatchesMarket(m, p) || current < m.block {
      return Refused(SafeHalt);
    }
    var age := current - m.block;
    var built := BuildIntent(p, cycle, level, now, inventory);
    if built.Refused? {
      return Refused(built.error);
    }
    var bounds := built.value.bounds;
    BoundsExist(p, level, now, inventory);
    var quoted := QuoteOf(m.pool, level.side, bounds.maxInput);
    if quoted.Refused? {
      return Refused(quoted.error);
    }
    var quote := quoted.value;
    ComparisonsAgree(p, level, now, inventory, quote);
    var reasons := Weigh(age, maxAge, level.side, bounds, quote);
    return Ok(reasons);
  }

  /** The comparisons one by one. */
  method Weigh(age: nat, maxAge: nat, side: Side, bounds: Bounds, quote: Quote) returns (reasons: seq<Reason>)
    requires bounds.Valid()
    ensures StaleObservation in reasons <==> maxAge < age
    ensures MinOutputBound in reasons <==> quote.output < bounds.minOutput
    ensures MaxExecutablePrice in reasons <==> side == Buy && Val(bounds.limit) < quote.average
    ensures MinExecutablePrice in reasons <==> side == Sell && quote.average < Val(bounds.limit)
    ensures MaxPriceImpact in reasons <==> bounds.impactBps as real < quote.impactBps
    ensures reasons == [] <==>
              && age <= maxAge && bounds.minOutput <= quote.output && quote.impactBps <= bounds.impactBps as real
              && (if side == Buy then quote.average <= Val(bounds.limit) else Val(bounds.limit) <= quote.average)
  {
    reasons := [];
    if maxAge < age {
      reasons := reasons + [StaleObservation];
    }
    if quote.output < bounds.minOutput {
      reasons := reasons + [MinOutputBound];
    }
    if side == Buy && Val(bounds.limit) < quote.average {
      reasons := reasons + [MaxExecutablePrice];
    }
    if side == Sell && quote.average < Val(bounds.limit) {
      reasons := reasons + [MinExecutablePrice];
    }
    if bounds.impactBps as real < quote.impactBps {
      reasons := reasons + [MaxPriceImpact];
    }
  }

  /** On a market whose two instruments have equal decimals, the output bound, the price bound and
      the satisfaction of the committed bounds say the same of a quote for the whole input. */
  lemma ComparisonsAgree(p: Policy, level: Level, now: int, inventory: Option<int>, q: Quote)
    requires Admitted(p) && IsLevelOf(p, level) && level.Valid()
    requires p.terms.base.decimals == p.terms.quote.decimals
    requires BuildBounds(p, level, now, inventory).Ok?
    requires q.input == BuildBounds(p, level, now, inventory).value.maxInput && 0 < q.input && 0 < q.output
    requires q.average == if level.side == Buy then q.input as real / q.output as real else q.output as real / q.input as real
    ensures var bounds := BuildBounds(p, level, now, inventory).value;
            && bounds.Valid()
            && (QuotedWithin(bounds, q) <==> bounds.minOutput <= q.output)
            && (QuotedWithin(bounds, q) <==>
                  if level.side == Buy then q.average <= Val(bounds.limit) else Val(bounds.limit) <= q.average)
  {
    var d := p.terms.base.decimals;
    BoundsExist(p, level, now, inventory);
    var bounds := BuildBounds(p, level, now, inventory).value;
    var fill := Fill(q.input, q.output);
    FullFill(bounds, fill);
    MinOutputIsLeast(level.side, q.input, q.output, bounds.limit, d, d);
    PriceMeans(level.side, fill, bounds.limit, d, d);
    PowPositive(10, d);
    AtomicPrice(level.side, q.input, q.output, bounds.limit, Pow(10, d));
  }

  /** With equal decimals the human price is the atomic price. */
  lemma AtomicPrice(side: Side, input: int, output: int, limit: Frac, b: int)
    requires 0 < input && 0 < output && 0 < limit.den && 0 < b
    ensures PricedWithin(side, input, output, limit, b, b) <==>
              if side == Buy then input as real / output as real <= Val(limit)
              else Val(limit) <= output as real / input as real
  {
    var n, d := limit.num, limit.den;
    if side == Buy {
      CommonFactor(input, d, output, n, b);
      QuotientOrder(input, output, n, d);
    } else {
      CommonFactor(input, n, output, d, b);
      QuotientOrder(n, d, output, input);
    }
  }

  lemma CommonFactor(x: int, d: int, y: int, n: int, b: int)
    requires 0 < b
    ensures x * b * d <= y * (n * b) <==> x * d <= y * n
    ensures x * d * b <= y * (n * b) <==> x * d <= y * n
  {
  }

  lemma QuotientOrder(a: int, b: int, c: int, d: int)
    requires 0 < b && 0 < d
    ensures a as real / b as real <= c as real / d as real <==> a * d <= c * b
  {
  }
}
