/** The gate before an execution envelope could be signed: the venue's answer, the envelope that
    repeats it, the calldata, and the committed bounds. */
module Envelope {

  import opened Outcomes
  import opened Fractions
  import opened Domain
  import opened Economics
  import opened AbiWords
  import opened SettlerActions
  import opened Calldata
  import Truth = ChainTruth
  import Lifecycle

  type Address = seq<byte>

  /** What the frozen contract requires the venue's answer to be. */
  datatype VenueExpectation = VenueExpectation(
    chain: int, taker: Address, sellToken: Address, buyToken: Address, sellAmount: int, minOutput: int,
    maxQuoteAge: int, mode: string)
  {
    predicate Valid() {
      0 < sellAmount && 0 < minOutput && 0 < maxQuoteAge && sellToken != buyToken
    }
  }

  datatype AllowanceIssue = AllowanceIssue(actual: nat, spender: Address)

  /** A venue's answer, still untrusted. A digest is represented by the bytes it is the digest of. */
  datatype Response = Response(
    chain: int, taker: Address, sellToken: Address, buyToken: Address, sellAmount: int, buyAmount: int,
    minBuy: Option<int>, allowanceTarget: Address, transactionTo: Address, transactionValue: nat,
    calldataDigest: seq<byte>, calldataLength: int, mode: string, quotedAt: nat, liquidity: bool,
    incomplete: bool, invalidSources: bool, balanceIssue: bool, allowanceIssue: Option<AllowanceIssue>)

  datatype Envelope = Envelope(
    session: string, action: string, chain: int, taker: Address, input: InstrumentRef, output: InstrumentRef,
    maxInput: int, minOutput: int, transactionTo: Address, transactionValue: nat, calldataDigest: seq<byte>,
    calldataLength: int, allowanceTarget: Option<Address>, deadline: int, authority: string)
  {
    predicate Valid() {
      input != output && 0 < maxInput && 0 < minOutput && 0 < deadline
    }
  }

  /** What both a session and a grant are for. */
  datatype Scope = Scope(repository: string, implementation: string, chain: int, taker: Address, venue: string)

  datatype Session = Session(identity: string, authority: string, scope: Scope)

  datatype Authority = Authority(
    digest: string, scope: Scope, notBefore: int, notAfter: int, maxReservation: nat, maxCumulative: nat)

  datatype NotReady = FutureQuote | StaleQuote | NoLiquidity | SimulationIncomplete | InvalidSources | InsufficientBalance

  datatype Readiness =
    | Executable
    | ApprovalRequired(allowance: int, spender: Address)
    | NotExecutable(reasons: set<NotReady>)

  // ---------------------------------------------------------------------------------
  // The venue's answer
  // ---------------------------------------------------------------------------------

  /** An answer that names anything else must never influence anything. */
  predicate HonoursContract(e: VenueExpectation, r: Response) {
    && r.chain == e.chain && r.taker == e.taker && r.sellToken == e.sellToken && r.buyToken == e.buyToken
    && r.mode == e.mode && r.sellAmount == e.sellAmount && r.transactionValue == 0
    && r.transactionTo == r.allowanceTarget
    && (r.allowanceIssue.Some? ==> r.allowanceIssue.value.spender == r.allowanceTarget)
    && r.minBuy.Some? && e.minOutput <= r.minBuy.value <= r.buyAmount
  }

  function Hindrances(e: VenueExpectation, r: Response, now: int): set<NotReady> {
    (if now < r.quotedAt then {FutureQuote} else if e.maxQuoteAge < now - r.quotedAt then {StaleQuote} else {})
    + (if !r.liquidity then {NoLiquidity} else {})
    + (if r.incomplete then {SimulationIncomplete} else {})
    + (if r.invalidSources then {InvalidSources} else {})
    + (if r.balanceIssue then {InsufficientBalance} else {})
  }

  function EvaluateReadiness(e: VenueExpectation, r: Response, now: int): Result<Readiness> {
    if now < 0 || !HonoursContract(e, r) then Refused(Malformed)
    else if Hindrances(e, r, now) != {} then Ok(Readiness.NotExecutable(Hindrances(e, r, now)))
    else if r.allowanceIssue.Some? then Ok(ApprovalRequired(e.sellAmount, r.allowanceTarget))
    else Ok(Executable)
  }

  predicate Ready(e: VenueExpectation, r: Response, now: int) {
    0 <= now && HonoursContract(e, r) && Hindrances(e, r, now) == {} && r.allowanceIssue.None?
  }

  lemma ReadyMeansExecutable(e: VenueExpectation, r: Response, now: int)
    ensures EvaluateReadiness(e, r, now) == Ok(Executable) <==> Ready(e, r, now)
  {
  }

  /** An approval is only ever asked for the expected amount, and for the spender that is also the
      transaction target and the one the venue itself reports as lacking allowance. */
  lemma ApprovalIsForTheTarget(e: VenueExpectation, r: Response, now: int, amount: int, spender: Address)
    ensures EvaluateReadiness(e, r, now) == Ok(ApprovalRequired(amount, spender)) <==>
              && 0 <= now && HonoursContract(e, r) && Hindrances(e, r, now) == {}
              && r.allowanceIssue.Some? && r.allowanceIssue.value.spender == spender == r.transactionTo
              && amount == r.sellAmount
  {
  }

  // ---------------------------------------------------------------------------------
  // The envelope
  // ---------------------------------------------------------------------------------

  function HexDigit(n: int): char
    requires 0 <= n < 16
  {
    "0123456789abcdef"[n]
  }

  function Hex(a: seq<byte>): string {
    if a == [] then "" else [HexDigit(a[0] as int / 16), HexDigit(a[0] as int % 16)] + Hex(a[1..])
  }

  /** The instrument is the token with this address on this chain. */
  predicate Names(i: InstrumentRef, chain: int, token: Address) {
    i.Evm? && i.chainId == chain && i.contract == "0x" + Hex(token)
  }

  /** The envelope is what the answer describes. */
  predicate MatchesResponse(v: Envelope, r: Response) {
    && v.chain == r.chain && v.taker == r.taker && v.transactionTo == r.transactionTo
    && v.transactionValue == r.transactionValue && v.calldataDigest == r.calldataDigest
    && v.calldataLength == r.calldataLength && v.allowanceTarget == Some(r.allowanceTarget)
    && v.maxInput == r.sellAmount
    && Names(v.input, r.chain, r.sellToken) && Names(v.output, r.chain, r.buyToken)
    && r.minBuy.Some? && v.minOutput <= r.minBuy.value
  }

  function ExpectedOfCall(e: VenueExpectation, r: Response): Expected
    requires 0 < r.sellAmount && 0 < e.minOutput
  {
    Expected(Some(r.transactionTo), Some(r.allowanceTarget), Some(r.sellToken), Some(r.buyToken), Some(r.taker),
             Some(r.sellAmount), Some(e.minOutput))
  }

  ghost predicate CalldataFits(v: Envelope, e: VenueExpectation, r: Response, data: seq<byte>)
    requires 0 < r.sellAmount && 0 < e.minOutput
  {
    && Admits(data, ExpectedOfCall(e, r), r.transactionValue)
    && v.calldataDigest == data && v.calldataLength == |data|
    && v.minOutput <= CallOf(data).minOutput
  }

  predicate WithinCapital(requested: int, held: int, a: Authority) {
    0 < requested <= a.maxReservation && 0 <= held && held + requested <= a.maxCumulative
  }

  /** The envelope carries the committed bounds. */
  predicate CarriesBounds(v: Envelope, e: VenueExpectation, bounds: Bounds)
    requires bounds.Valid() && v.Valid()
  {
    && v.input == bounds.input && v.output == bounds.output
    && v.maxInput <= bounds.maxInput
    && ProratedMinimum(bounds, v.maxInput) <= e.minOutput
    && ProratedMinimum(bounds, v.maxInput) <= v.minOutput
  }

  predicate BoundToSession(v: Envelope, s: Session, a: Authority, action: string, now: int) {
    && v.session == s.identity && v.action == action && v.authority == a.digest
    && s.authority == a.digest && a.scope == s.scope
    && a.notBefore <= now < a.notAfter && v.chain == s.scope.chain && v.taker == s.scope.taker
  }

  ghost predicate Admissible(
      v: Envelope, s: Session, a: Authority, bounds: Bounds, action: string, e: VenueExpectation, r: Response,
      held: int, now: int, calldata: Option<seq<byte>>)
    requires bounds.Valid() && v.Valid() && e.Valid() && 0 < r.sellAmount
  {
    && Ready(e, r, now) && MatchesResponse(v, r)
    && (calldata.Some? ==> CalldataFits(v, e, r, calldata.value))
    && BoundToSession(v, s, a, action, now)
    && CarriesBounds(v, e, bounds)
    && now < v.deadline <= bounds.deadline
    && WithinCapital(v.maxInput, held, a)
  }

  /** The composite gate, in the order of its checks. */
  method AssertAdmissible(
      v: Envelope, s: Session, a: Authority, bounds: Bounds, action: string, e: VenueExpectation, r: Response,
      held: int, now: int, calldata: Option<seq<byte>>)
      returns (failure: Option<Error>)
    requires bounds.Valid() && v.Valid() && e.Valid() && 0 < r.sellAmount
    ensures failure.None? <==> Admissible(v, s, a, bounds, action, e, r, held, now, calldata)
  {
    ReadyMeansExecutable(e, r, now);
    if EvaluateReadiness(e, r, now) != Ok(Executable) || !MatchesResponse(v, r) {
      return Some(Malformed);
    }
    if calldata.Some? {
      var decoded := Decode(calldata.value, ExpectedOfCall(e, r), r.transactionValue);
      if decoded.Refused? {
        return Some(decoded.error);
      }
      if v.calldataDigest != calldata.value || v.calldataLength != |calldata.value|
         || decoded.value.minOutput < v.minOutput {
        return Some(Malformed);
      }
    }
    if !BoundToSession(v, s, a, action, now) {
      return Some(Malformed);
    }
    if !CarriesBounds(v, e, bounds) {
      return Some(Malformed);
    }
    if bounds.deadline < v.deadline || v.deadline <= now {
      return Some(Malformed);
    }
    if !WithinCapital(v.maxInput, held, a) {
      return Some(OutOfContract);
    }
    return None;
  }

  // ---------------------------------------------------------------------------------
  // What admissible means, field by field
  // ---------------------------------------------------------------------------------

  /** The answer is what was asked for, and nothing stands in the way of executing it now. */
  lemma ReadyExactly(e: VenueExpectation, r: Response, now: int)
    ensures Ready(e, r, now) <==>
              && r.chain == e.chain && r.taker == e.taker && r.sellToken == e.sellToken && r.buyToken == e.buyToken
              && r.mode == e.mode && r.sellAmount == e.sellAmount && r.transactionValue == 0
              && r.transactionTo == r.allowanceTarget && r.allowanceIssue == None
              && r.minBuy != None && e.minOutput <= r.minBuy.value && r.minBuy.value <= r.buyAmount
              && 0 <= now && r.quotedAt <= now <= r.quotedAt + e.maxQuoteAge
              && r.liquidity && !r.incomplete && !r.invalidSources && !r.balanceIssue
  {
    if Hindrances(e, r, now) == {} {
      assert FutureQuote !in Hindrances(e, r, now) && StaleQuote !in Hindrances(e, r, now);
      assert NoLiquidity !in Hindrances(e, r, now) && SimulationIncomplete !in Hindrances(e, r, now);
      assert InvalidSources !in Hindrances(e, r, now) && InsufficientBalance !in Hindrances(e, r, now);
    }
  }

  /** Every reason that is given, and when; they never keep an answer to another question from being refused. */
  lemma ReasonsExactly(e: VenueExpectation, r: Response, now: int, reasons: set<NotReady>)
    requires EvaluateReadiness(e, r, now) == Ok(Readiness.NotExecutable(reasons))
    ensures reasons != {} && r.chain == e.chain && r.sellToken == e.sellToken && r.sellAmount == e.sellAmount
    ensures FutureQuote in reasons <==> now < r.quotedAt
    ensures StaleQuote in reasons <==> r.quotedAt + e.maxQuoteAge < now && r.quotedAt <= now
    ensures NoLiquidity in reasons <==> !r.liquidity
    ensures SimulationIncomplete in reasons <==> r.incomplete
    ensures InvalidSources in reasons <==> r.invalidSources
    ensures InsufficientBalance in reasons <==> r.balanceIssue
  {
  }

  /** The lower-case hexadecimal digits of an address, two for each byte. */
  lemma {:induction false} HexIsTwoDigitsAByte(a: seq<byte>, k: nat)
    requires k < |a|
    ensures |Hex(a)| == 2 * |a|
    ensures var digits := "0123456789abcdef";
            Hex(a)[2 * k] == digits[a[k] as int / 16] && Hex(a)[2 * k + 1] == digits[a[k] as int % 16]
  {
    HexLength(a);
    if k != 0 {
      HexIsTwoDigitsAByte(a[1..], k - 1);
    }
  }

  lemma {:induction false} HexLength(a: seq<byte>)
    ensures |Hex(a)| == 2 * |a|
  {
    if a != [] { HexLength(a[1..]); }
  }

  /** The envelope repeats the answer, and sells and buys the tokens of the answer. */
  lemma MatchesExactly(v: Envelope, r: Response)
    ensures MatchesResponse(v, r) <==>
              && v.chain == r.chain && v.taker == r.taker && v.maxInput == r.sellAmount
              && v.input == Evm(r.chain, "0x" + Hex(r.sellToken)) && v.output == Evm(r.chain, "0x" + Hex(r.buyToken))
              && v.transactionTo == r.transactionTo && v.transactionValue == r.transactionValue
              && v.calldataDigest == r.calldataDigest && v.calldataLength == r.calldataLength
              && v.allowanceTarget == Some(r.allowanceTarget) && r.minBuy != None && v.minOutput <= r.minBuy.value
  {
  }

  /** The envelope is the one of this session, of this action and under this grant; the grant is the one of
      the session, covers what the session is for, and is in force. */
  lemma BoundExactly(v: Envelope, s: Session, a: Authority, action: string, now: int)
    ensures BoundToSession(v, s, a, action, now) <==>
              && v.session == s.identity && v.action == action && v.authority == s.authority == a.digest
              && a.scope.repository == s.scope.repository && a.scope.implementation == s.scope.implementation
              && v.chain == s.scope.chain == a.scope.chain && v.taker == s.scope.taker == a.scope.taker
              && a.scope.venue == s.scope.venue && a.notBefore <= now && now < a.notAfter
  {
  }

  /** The envelope spends no more than the committed input, and both it and the request to the venue ask for
      at least the committed output of what it spends. */
  lemma CarriesExactly(v: Envelope, e: VenueExpectation, bounds: Bounds)
    requires bounds.Valid() && v.Valid()
    ensures CarriesBounds(v, e, bounds) <==>
              && v.input == bounds.input && v.output == bounds.output && v.maxInput <= bounds.maxInput
              && bounds.minOutput * v.maxInput <= e.minOutput * bounds.maxInput
              && bounds.minOutput * v.maxInput <= v.minOutput * bounds.maxInput
  {
    ProratedIsLeast(bounds, v.maxInput, e.minOutput);
    ProratedIsLeast(bounds, v.maxInput, v.minOutput);
  }

  /** What the decoder is asked to hold the calldata to: every field of the answer, and the minimum that was
      asked for. */
  lemma CalldataFitsExactly(v: Envelope, e: VenueExpectation, r: Response, data: seq<byte>)
    requires 0 < r.sellAmount && 0 < e.minOutput
    ensures CalldataFits(v, e, r, data) <==>
              && Admits(data, Expected(Some(r.transactionTo), Some(r.allowanceTarget), Some(r.sellToken), Some(r.buyToken),
                                       Some(r.taker), Some(r.sellAmount), Some(e.minOutput)), r.transactionValue)
              && v.calldataDigest == data && v.calldataLength == |data| && v.minOutput <= CallOf(data).minOutput
  {
  }

  /** The capital held and the capital asked for stay within the two ceilings. */
  lemma WithinCapitalExactly(requested: int, held: int, a: Authority)
    ensures WithinCapital(requested, held, a) <==>
            0 < requested && 0 <= held && requested <= a.maxReservation && requested + held <= a.maxCumulative
  {
  }

  /** An admissible envelope passes every one of those checks, and its deadline lies ahead but not behind
      that of the bounds. */
  lemma AdmissiblePassesAll(
      v: Envelope, s: Session, a: Authority, bounds: Bounds, action: string, e: VenueExpectation, r: Response,
      held: int, now: int, calldata: Option<seq<byte>>)
    requires bounds.Valid() && v.Valid() && e.Valid() && 0 < r.sellAmount
    requires Admissible(v, s, a, bounds, action, e, r, held, now, calldata)
    ensures Ready(e, r, now) && MatchesResponse(v, r) && BoundToSession(v, s, a, action, now) && CarriesBounds(v, e, bounds)
    ensures calldata.Some? ==> CalldataFits(v, e, r, calldata.value)
    ensures now < v.deadline && v.deadline <= bounds.deadline && WithinCapital(v.maxInput, held, a)
  {
  }

  /** And whatever passes them all is admissible. */
  lemma PassingAllIsAdmissible(
      v: Envelope, s: Session, a: Authority, bounds: Bounds, action: string, e: VenueExpectation, r: Response,
      held: int, now: int, calldata: Option<seq<byte>>)
    requires bounds.Valid() && v.Valid() && e.Valid() && 0 < r.sellAmount
    requires Ready(e, r, now) && MatchesResponse(v, r) && BoundToSession(v, s, a, action, now) && CarriesBounds(v, e, bounds)
    requires calldata.Some? ==> CalldataFits(v, e, r, calldata.value)
    requires now < v.deadline && v.deadline <= bounds.deadline && WithinCapital(v.maxInput, held, a)
    ensures Admissible(v, s, a, bounds, action, e, r, held, now, calldata)
  {
  }

  // ---------------------------------------------------------------------------------
  // The bound survives into the transaction
  // ---------------------------------------------------------------------------------

  /** The prorated minimum grows with the input. */
  lemma ProratedIsMonotone(bounds: Bounds, x: int, y: int)
    requires bounds.Valid() && x <= y
    ensures ProratedMinimum(bounds, x) <= ProratedMinimum(bounds, y)
  {
    var m, most := bounds.minOutput, bounds.maxInput;
    MulOrder(m, x, y);
    CeilDivIsLeast(m * y, most, ProratedMinimum(bounds, y));
    CeilDivIsLeast(m * x, most, ProratedMinimum(bounds, y));
  }

  /** Whatever the transaction can legally settle, full or partial, satisfies the original bounds:
      the calldata binds the input and the minimum output. Without the calldata at hand, the
      venue's own minimum does. */
  lemma SettlementWithinBounds(
      v: Envelope, s: Session, a: Authority, bounds: Bounds, action: string, e: VenueExpectation, r: Response,
      held: int, now: int, calldata: Option<seq<byte>>, fill: Fill)
    requires bounds.Valid() && v.Valid() && e.Valid() && 0 < r.sellAmount
    requires Admissible(v, s, a, bounds, action, e, r, held, now, calldata) && fill.Valid()
    ensures (calldata.Some? && fill.input <= CallOf(calldata.value).sellAmount
             && CallOf(calldata.value).minOutput <= fill.output) ==> fill.Satisfies(bounds)
    ensures fill.input <= v.maxInput && v.minOutput <= fill.output ==> fill.Satisfies(bounds)
    ensures fill.input <= r.sellAmount && r.minBuy.value <= fill.output ==> fill.Satisfies(bounds)
  {
    if fill.input <= v.maxInput {
      ProratedIsMonotone(bounds, fill.input, v.maxInput);
    }
  }

  /** So reconciliation never rejects a confirmed settlement of an admissible envelope as out of
      bounds: it mints the receipt with the amounts the chain reports. */
  lemma ReconciliationAccepts(
      v: Envelope, s: Session, a: Authority, bounds: Bounds, action: string, e: VenueExpectation, r: Response,
      held: int, now: int, data: seq<byte>,
      x: Truth.Expectation, records: seq<Truth.Observation<Truth.Settlement>>, finality: Truth.Finality,
      t: Truth.Truth<Truth.Settlement>, fill: Fill)
    requires bounds.Valid() && v.Valid() && e.Valid() && 0 < r.sellAmount
    requires Admissible(v, s, a, bounds, action, e, r, held, now, Some(data))
    requires Truth.IsTruth(x, records, finality, Truth.Succeeded, t) && t.verdict == Truth.Confirmed
    requires t.included.Some? && t.included.value.Included?
    requires fill.Valid() && t.included.value.facts.receipt == Truth.Success(fill.input, fill.output)
    requires fill.input <= CallOf(data).sellAmount && CallOf(data).minOutput <= fill.output
    ensures Lifecycle.Reconcile(x, t, bounds) == Ok(fill)
  {
    SettlementWithinBounds(v, s, a, bounds, action, e, r, held, now, Some(data), fill);
    Lifecycle.ReconcileAccepts(x, records, finality, t, bounds, fill);
  }

  /** From the policy to the chain: for the bounds built for a rung of an admitted policy, any
      settlement of an admissible envelope is priced within the policy's hard limit. */
  lemma PolicyPriceSurvives(
      p: Policy, level: Level, at: int, inventory: Option<int>,
      v: Envelope, s: Session, a: Authority, bounds: Bounds, action: string, e: VenueExpectation, r: Response,
      held: int, now: int, data: seq<byte>, fill: Fill)
    requires Admitted(p) && IsLevelOf(p, level) && level.Valid()
    requires BuildBounds(p, level, at, inventory) == Ok(bounds)
    requires bounds.Valid() && v.Valid() && e.Valid() && 0 < r.sellAmount
    requires Admissible(v, s, a, bounds, action, e, r, held, now, Some(data))
    requires fill.Valid() && fill.input <= CallOf(data).sellAmount && CallOf(data).minOutput <= fill.output
    ensures NoWorse(level.side,
                    EffectivePrice(level.side, fill, p.terms.base.decimals, p.terms.quote.decimals),
                    HardPrice(p.terms.limits, level.side))
  {
    SettlementWithinBounds(v, s, a, bounds, action, e, r, held, now, Some(data), fill);
    SatisfyingPriceIsWithin(p, level, at, inventory, fill);
  }
}
