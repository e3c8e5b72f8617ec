/** The immutable records that the policy reader, the economic bounds and the chain truth share. */
module Domain {

  import opened Outcomes
  import opened Fractions

  const BPS_DENOMINATOR: nat := 10_000

  datatype Side = Buy | Sell {
    function Opposite(): Side {
      if this == Buy then Sell else Buy
    }
  }

  datatype Kind = Entry | Exit

  // ---------------------------------------------------------------------------------
  // Directed rounding
  // ---------------------------------------------------------------------------------

  /** Integer division rounded up. */
  function CeilDiv(num: int, den: int): int
    requires 0 < den
  {
    -((-num) / den)
  }

  /** The ceiling is the least integer that reaches the quotient. */
  lemma CeilDivIsLeast(num: int, den: int, q: int)
    requires 0 < den
    ensures CeilDiv(num, den) <= q <==> num <= q * den
  {
    var c := CeilDiv(num, den);
    var r := (-num) % den;
    assert num == c * den - r by { assert -num == (-c) * den + r; }
    if c <= q {
      MulOrder(den, c, q);
    } else {
      MulOrder(den, q + 1, c);
      assert (q + 1) * den == q * den + den;
    }
  }

  // ---------------------------------------------------------------------------------
  // Policy
  // ---------------------------------------------------------------------------------

  datatype Cluster = MainnetBeta | Devnet | Testnet

  datatype TokenProgram = SplToken | Token2022

  datatype InstrumentRef =
    | Evm(chainId: int, contract: string)
    | Solana(cluster: Cluster, mint: string, program: TokenProgram)

  datatype Instrument = Instrument(ref: InstrumentRef, decimals: nat, symbol: Option<string>)

  /** One explicit rung. `size` is the input amount of an entry rung and the share of the inventory
      that an exit rung disposes of. */
  datatype Level = Level(id: string, kind: Kind, side: Side, index: nat, trigger: Frac, size: Frac) {
    /** What the constructor enforces. */
    predicate Valid() {
      && trigger.Valid() && 0 < trigger.num
      && size.Valid() && 0 < size.num
      && (kind == Exit ==> size.num <= size.den)
    }
  }

  datatype Ladder = Ladder(kind: Kind, side: Side, levels: seq<Level>) {
    predicate Valid() {
      && levels != []
      && (forall l <- levels :: l.Valid() && l.kind == kind && l.side == side)
      && TriggersOrdered(side, levels)
    }
  }

  /** Triggers strictly fall on a BUY leg and strictly rise on a SELL leg. */
  predicate TriggersOrdered(side: Side, levels: seq<Level>) {
    forall i :: 0 < i < |levels| ==> OrderedAt(side, levels, i)
  }

  predicate OrderedAt(side: Side, levels: seq<Level>, i: nat)
    requires 0 < i < |levels|
  {
    Ordered(side, levels[i - 1], levels[i])
  }

  predicate Ordered(side: Side, previous: Level, current: Level) {
    if side == Buy then Less(current.trigger, previous.trigger) else Less(previous.trigger, current.trigger)
  }

  datatype Capital = Capital(
    allocation: Frac, perOrder: Frac, perInstrument: Frac, perNetwork: Frac, global: Frac, reserved: Frac)

  /** Caps in atomic units of the quote instrument. */
  datatype Budget = Budget(
    allocation: int, perOrder: int, perInstrument: int, perNetwork: int, global: int, reserved: int)
  {
    predicate Coherent() {
      && 0 < perOrder <= allocation <= perInstrument <= perNetwork <= global
      && 0 <= reserved < global
    }
  }

  datatype Limits = Limits(maxPrice: Frac, minPrice: Frac, impactBps: nat, slippageBps: nat)

  datatype Timing = Timing(validFrom: int, expiry: int, quoteTtl: int)

  datatype Reentry = Reentry(maxCycles: int, hysteresisBps: int, cooldown: int)

  datatype Recycling = Recycling(recycle: Frac, bank: Frac)

  /** What a policy document says, read into its types. */
  datatype Terms = Terms(
    name: string, side: Side, base: Instrument, quote: Instrument, entry: Ladder, exit: Ladder,
    capital: Capital, limits: Limits, timing: Timing, reentry: Reentry, recycling: Recycling)

  // ---------------------------------------------------------------------------------
  // Bounds and receipts
  // ---------------------------------------------------------------------------------

  /** The absolute economic limit that an execution must encode. */
  datatype Bounds = Bounds(
    side: Side, input: InstrumentRef, output: InstrumentRef, maxInput: int, minOutput: int,
    limit: Frac, impactBps: nat, slippageBps: nat, deadline: int)
  {
    /** What the constructor enforces. */
    predicate Valid() {
      0 < maxInput && 0 < minOutput && 0 < limit.num && 0 < limit.den && input != output
    }
  }

  /** What settled. */
  datatype Fill = Fill(input: int, output: int) {
    predicate Valid() {
      0 < input && 0 < output
    }

    predicate Satisfies(bounds: Bounds)
      requires bounds.Valid()
    {
      input <= bounds.maxInput && ProratedMinimum(bounds, input) <= output
    }
  }

  /** The minimum output of a part of the committed input, rounded up. */
  function ProratedMinimum(bounds: Bounds, input: int): int
    requires bounds.Valid()
  {
    CeilDiv(bounds.minOutput * input, bounds.maxInput)
  }

  /** The prorated minimum is the least output at the committed price. */
  lemma ProratedIsLeast(bounds: Bounds, input: int, output: int)
    requires bounds.Valid()
    ensures ProratedMinimum(bounds, input) <= output <==> bounds.minOutput * input <= output * bounds.maxInput
  {
    CeilDivIsLeast(bounds.minOutput * input, bounds.maxInput, output);
  }

  /** A fill satisfies the bounds exactly when it takes no more than the committed input and pays for what
      it takes at least in the committed proportion. */
  lemma SatisfiesExactly(fill: Fill, bounds: Bounds)
    requires bounds.Valid()
    ensures fill.Satisfies(bounds) <==>
            fill.input <= bounds.maxInput && bounds.minOutput * fill.input <= fill.output * bounds.maxInput
  {
    ProratedIsLeast(bounds, fill.input, fill.output);
  }
}
