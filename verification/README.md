# QntySpot: a verified model of its core

QntySpot decides, sizes, bounds, signs and reconciles spot trades, and fails closed wherever the
evidence does not support a conclusion. This project models its hard core in Dafny and proves, for
all inputs, all evidence and all runs, what that core is for.

| component | modules |
|---|---|
| Impact-capped sizing and the shadow decision | `TradeSizing`, `ShadowDecision` |
| Chain truth, its approval twin, the lifecycle and the release of capital | `ChainTruth`, `DigestTies`, `ApprovalTwin`, `ApprovalSettlement`, `Lifecycle`, `ActionLedger` |
| Strict calldata decoding | `AbiWords`, `AbiArrays`, `SettlerActions`, `Calldata`; byte by byte in `SettlerFields`, `CalldataFields` |
| Canonical decimals | `Fractions`, `PowersOfTen`, `DecimalText`, `Decimals` |
| Policy documents | `JsonDocuments`, `Identity`, `Mints`, `PolicyDocuments`, `PolicyRoundTrips`, `Policies`, `PolicyReader`; key by key in `PolicyFields` |
| Economic bounds and the execution envelope | `Domain`, `Economics`, `LimitRendering`, `PriceNormalization`, `Envelope` |
| Profit accounting | `Profit` |
| Keccak-256 | `KeccakSpec`, `KeccakTables`, `Keccak`, `KeccakSponge`; a known answer in `KeccakWords`, `KeccakAnswer` |
| Evidence store, carry walk, guarded transport | `EvidenceStore`, `CarryWalk`, `Transport` |

The results compose. A policy document that `PolicyReader` admits satisfies `Economics.Admitted`
(`Policies.AdmittedDocument`); the bounds built from it price every satisfying fill within the
policy's hard limit (`Economics.SatisfyingPriceIsWithin`); an admissible envelope and its decoded
calldata keep those bounds (`Envelope.SettlementWithinBounds`); reconciliation then never rejects
the settlement (`Envelope.ReconciliationAccepts`), and its price is still within the policy's limit
(`Envelope.PolicyPriceSurvives`).

## Conventions

* A raised exception is `Refused` with the class of the exception. A policy document is refused with
  one error, whichever check refuses it first.
* A SHA-256 digest is represented by what it digests, or, where only its order matters, by a number
  (`ChainTruth`, under `CollisionFree`). The evidence store takes its digests as parameters and needs
  no such assumption.
* Python fractions are reduced integer pairs (`Fractions`). In `TradeSizing` and `Profit`, where only
  order and the field laws matter, they are `real`s. A decimal number is the fraction it denotes, and
  the precision of the decimal context is a parameter (`PriceNormalization`).
* The integers of the Keccak permutation are the sets of the positions of their one bits, which is
  what the bitwise operators act on, without a bound on their width.
* Code that works step by step is a method with a loop, an array or a class, proved against a
  specification function; expressions are functions. The guarded transport is a state machine whose
  steps interleave freely and crash anywhere.
* A specification function says what a method computes; what it means is stated once more without it:
  in integers (`TradeSizing.QuoteKeepsProduct`, `Economics.BoundsInIntegers`), by byte offset
  (`SettlerFields`, `CalldataFields`), key by key (`PolicyFields`), bit by bit
  (`KeccakTables.ChiFlips`), or as a known answer (`KeccakAnswer.EmptyDigest`).
* The readers of a policy document are generic in the decimal notation; `PolicyDocuments.CANONICAL`
  is the runtime's, and `PolicyDocuments.CanonicalIsFaithful` proves it fit.

## Where the code and its documentation differ, and what the proofs show to be idle

* qntyspot/canon.py:77-80 describes one spelling per value, but its pattern also accepts a final
  newline, which the parser counts as a decimal place: `"1.5\n"` is read as 0.15.
  `Decimals.RoundTripExactly` states exactly when the round trip holds.
* qntyspot/canon.py:142 strips trailing zeros that are never there (`Decimals.LastDigitCounts`).
* qntyspot/economics.py:187-190 and qntyspot/ink.py:772-773 guard cases that cannot occur
  (`Economics.MinOutputIsPositive`, `TradeSizing.SellImpactIsAtMostWhole`).
* qntyspot/execution_contract.py:1998 fails on every DODOV2 action, which the decoder otherwise lists
  as supported; the model lets no such action pass.
* qntyspot/execution_contract.py:1642-1643 permits a release before commitment whatever the verdict,
  because nothing can settle then, while qntyspot/states.py:102 lets a reserved action still be
  included. `Lifecycle.ExclusiveExactlyAfterCommitment` is a fact about the release and receipt
  functions and the transition table alone, which leave the state as it is on a release; the ledger
  does not call the release function and releases only together with a move to a terminal state
  (qntyspot/ledger/store.py:607-622). With that coupling no run both releases and mints
  (`ActionLedger.NeverReleasesAndMints`); that the chain may still confirm an action abandoned before
  commitment remains (`ActionLedger.ReleaseIsFinalExactlyAfterCommitment`).
* The two evaluators break ties between readings of one second by unrelated digests
  (qntyspot/ink_v0f_human_signing.py:718-723), so they can differ;
  `ApprovalTwin.ApprovalTwinAgreesExactly` states exactly on which histories.

## Model

| member | source | states |
|---|---|---|
| `TradeSizing.ImpactCappedInput` | qntyspot/ink.py:719-839 | The sized input lies in [1, desired] and its floored quote respects the cap; a reduced input is the greatest with a whole unit of margin; a refusal means no input up to the desired one has that margin; the final recheck never halts |
| `TradeSizing.TernaryPeak` | qntyspot/ink.py:797-818 | The ternary search ends at the first maximiser of the surplus over the whole of [1, upper] |
| `TradeSizing.FirstMaximum` | qntyspot/ink.py:818 | Taking the maximum over a range yields the first of the greatest |
| `TradeSizing.LastWithMargin` | qntyspot/ink.py:824-832 | The bisection returns the greatest input of [1, upper] whose surplus is at least one |
| `TradeSizing.TernaryStep` | qntyspot/ink.py:810-817 | Comparing two inner points never discards the peak |
| `TradeSizing.FallsAfterPeak` | qntyspot/ink.py:797-808 | The surplus has a single peak: once it stops growing it falls strictly |
| `TradeSizing.MarginEndsOnce` | qntyspot/ink.py:805-808 | Past the peak, margin once lost is never regained |
| `TradeSizing.MarginIsSafe` | qntyspot/ink.py:730-732 | One whole unit of continuous margin survives the floor of the integer quote |
| `TradeSizing.QuoteKeepsProduct` | qntyspot/ink.py:681-693 | A quote is the greatest output that keeps the constant product once 0.3% of the input is withheld, with the reserves of each side written out, and is refused exactly when not even one unit does |
| `TradeSizing.MeetsInIntegers` | qntyspot/ink.py:695-716 | Respecting the cap, in integers: paying the input for the quoted output is worse than the ratio of the reserves by at most the cap in ten-thousandths, for each side |
| `TradeSizing.MarginInIntegers` | qntyspot/ink.py:810-832 | The margin, in integers: even one whole unit less than the output before the floor would respect the cap |
| `TradeSizing.MeetsMeansRequiredOutput` | qntyspot/ink.py:681-716 | An input respects the cap exactly when its floored output reaches the required output per unit, on either side |
| `TradeSizing.OutputIsFlooredContinuous` | qntyspot/ink.py:690-693 | The integer quote is the floor of the continuous curve |
| `TradeSizing.SurplusSign` | qntyspot/ink.py:781-791 | The surplus is non-negative exactly up to the crossing |
| `TradeSizing.CrossingRefusalIsFinal` | qntyspot/ink.py:791-795 | When the crossing is below one, no integer input whatsoever respects the cap |
| `TradeSizing.NoMarginBeyondCrossing` | qntyspot/ink.py:791-792 | Cutting the search at the crossing loses no input with margin |
| `TradeSizing.MeetsOnlyBelowCrossing` | qntyspot/ink.py:781-791 | Every input that respects the cap lies at or below the crossing |
| `TradeSizing.SellImpactIsAtMostWhole` | qntyspot/ink.py:772-773 | A sale never loses more than the whole price, so the separate exit for a cap of 10000 is never taken |
| `TradeSizing.MarginCanRefuseASafeInput` | qntyspot/ink.py:734-736 | The margin is conservative: a pool, a cap and an input that respects it although sizing refuses |
| `ShadowDecision.Decide` | qntyspot/ink.py:887-945 | The reasons to abstain, exactly; with the decimals this market demands, the price comparison fails exactly when the output bound does, and no reason remains exactly for a fresh quote that satisfies the committed bounds within the impact cap |
| `ShadowDecision.ComparisonsAgree` | qntyspot/ink.py:915-920 | On equal decimals the output bound, the price bound and the satisfaction of the bounds say the same of a whole-input quote |
| `ShadowDecision.MarketExactly` | qntyspot/ink.py:847-856 | A market is that of a policy with the same two instruments at eighteen decimals each |
| `ChainTruth.Evaluate` | qntyspot/execution_contract.py:1420-1546 | The evaluator refuses exactly readings of another transaction and otherwise reports the verdict and facts determined by the evidence alone |
| `ChainTruth.LatestByProvider` | qntyspot/execution_contract.py:1409-1417 | The fold keeps for every provider a reading that no other of that provider follows |
| `ChainTruth.TerminalExactly` | qntyspot/execution_contract.py:1487-1546 | CONFIRMED or REVERTED holds exactly when every latest reading is an inclusion, all inclusions ever read agree, enough providers agree and every head is deep enough |
| `ChainTruth.VerdictOnInclusions` | qntyspot/execution_contract.py:1487-1546 | Once any inclusion was read, the verdict step by step: ambiguous unless every last reading is an inclusion and all inclusions are equal, visible below the number of providers, in a block while some head is missing or below the block plus the demanded depth, terminal from then on |
| `ChainTruth.VerdictOnNoInclusion` | qntyspot/execution_contract.py:1495-1524 | While no inclusion was read: visible after a pending one, ambiguous if the transaction was acknowledged, otherwise no evidence |
| `ChainTruth.TerminalVerdictFollowsInclusion` | qntyspot/execution_contract.py:1540-1546 | Any one inclusion in the history tells which of the two terminal verdicts is possible |
| `ChainTruth.VerdictsEvolve` | qntyspot/execution_contract.py:1487-1546 | However the evidence grows, a verdict only turns into the listed ones; CONFIRMED only into CONFIRMED, INCLUDED or AMBIGUOUS |
| `ChainTruth.ReleaseAndFillExclude` | qntyspot/execution_contract.py:1583-1601 | A revert and a confirmation exclude each other over every extension of the evidence, in both directions |
| `ChainTruth.DisagreementIsFinal` | qntyspot/execution_contract.py:1490-1493 | Two inclusions that differ make every extension ambiguous |
| `ChainTruth.FallbackMayHeal` | qntyspot/execution_contract.py:1495-1503 | A provider that lost an inclusion and reports it again can still confirm it |
| `ChainTruth.OrderDoesNotMatter` | qntyspot/execution_contract.py:1409-1546 | Verdict and reported facts do not depend on the order or repetition of readings |
| `ChainTruth.ReportedFactsNeverChange` | qntyspot/execution_contract.py:1465-1485 | Block, status and amounts, once reported, are the same in every extension that reports any |
| `ChainTruth.TruthReports` | qntyspot/execution_contract.py:1465-1546 | A conclusion reports the inclusion and the number of agreeing providers exactly on unanimous evidence |
| `ChainTruth.DepthIsLowest` | qntyspot/execution_contract.py:1527-1536 | A positive depth is the distance from the reported block to the lowest head: no head is nearer, and one is exactly that far |
| `DigestTies.AgreesExactlyWhenHarmless` | qntyspot/execution_contract.py:1409-1417 | A history has the verdict of every view of it, under whatever digests, exactly when its ties are harmless; a condition on the readings alone, without their digests |
| `DigestTies.DigestsDecideNothingExactly` | qntyspot/execution_contract.py:1409-1546 | The settlement verdict is the same under all digests of the readings exactly when the ties are harmless: the inclusions contradict each other, or there are none, or some provider ends without one, or all last readings are inclusions and there are too few providers, or all heads are deep enough, or some provider has none deep enough |
| `ApprovalTwin.ApprovalTwinAgrees` | qntyspot/ink_v0f_human_signing.py:718-776 | For harmless ties, on readings with the amounts dropped, the approval evaluator reaches the settlement verdict, except exactly when two inclusions differ in amounts only |
| `ApprovalTwin.ApprovalTwinAgreesExactly` | qntyspot/ink_v0f_human_signing.py:718-776 | The two evaluators agree under all digests of the approval readings exactly when the ties are harmless |
| `ApprovalTwin.TiesBreakTheTwin` | qntyspot/ink_v0f_human_signing.py:718-723 | Readings of one provider in one second for which the two evaluators differ |
| `ApprovalSettlement.Reconcile` | qntyspot/ink_v0f_human_signing.py:808-867 | Reconciliation refuses exactly foreign bindings and an allowance read before the inclusion, and otherwise settles as the verdict and the allowance determine |
| `ApprovalSettlement.SettledExactly` | qntyspot/ink_v0f_human_signing.py:836-853 | An approval is settled exactly by one agreed, successful, deep inclusion and the exact allowance |
| `ApprovalSettlement.SettlesExactly` | qntyspot/ink_v0f_human_signing.py:836-867 | What settles, for every verdict and allowance, and that a revoke is required exactly at a halt that leaves an allowance |
| `ApprovalSettlement.NoAllowanceIsLeftStanding` | qntyspot/ink_v0f_human_signing.py:836-867 | On deep, failed inclusions alone the settlement halts, and asks for a revoke exactly when an allowance is left |
| `ApprovalSettlement.SettledStaysOrHalts` | qntyspot/ink_v0f_human_signing.py:836-853 | A settled approval never turns into a reverted one; with the allowance unchanged it halts only on ambiguous evidence |
| `Lifecycle.ReceiptMeansConfirmedWithinBounds` | qntyspot/execution_contract.py:1549-1601 | A receipt is minted exactly from a confirmed success with positive amounts within the bounds, and carries the amounts every inclusion reports |
| `Lifecycle.ReconcileAccepts` | qntyspot/execution_contract.py:1583-1601 | A confirmed settlement within the bounds is never rejected |
| `Lifecycle.ReconcilesExactly` | qntyspot/execution_contract.py:1549-1601 | A fill is accepted exactly when the truth is about this action, transaction, chain and taker, is confirmed, and reports positive amounts that take at most the committed input and pay in the committed proportion |
| `Lifecycle.TableExactly` | qntyspot/states.py:93-122 | The transition table, as a rule: the next state on the way, one shortcut for what was found on chain, giving up only before the signing, rejection only before the confirmation, a halt until the end |
| `Lifecycle.FillIsConfirmed` | qntyspot/states.py:93-122 | Every path of transitions from an uncommitted state to a fill ends through inclusion, confirmation and reconciliation, in this order |
| `Lifecycle.NeverAgain` | qntyspot/states.py:93-122 | No path of transitions visits a state twice |
| `Lifecycle.ReleaseExactly` | qntyspot/execution_contract.py:1624-1646 | Capital may be released at any time before the signing, from then to the confirmation exactly on a revert, and afterwards never |
| `Lifecycle.JustifiedMovesAreLegal` | qntyspot/execution_contract.py:1604-1621 | However the evidence of an inclusion grows, the state it justifies is the one reached or one the transition table allows; a confirmed action may only move to a halt |
| `Lifecycle.ReleasedIsNeverFilled` | qntyspot/execution_contract.py:1624-1646 | Over every run, capital released from SIGNED, SUBMITTED, INCLUDED or CONFIRMED is never also settled by a minted fill, whichever came first |
| `Lifecycle.CommittedStaysCommitted` | qntyspot/states.py:93-115 | From SIGNED on, no run of transitions returns to a state that counts as uncommitted |
| `Lifecycle.CommittedNeverReleasesAndMints` | qntyspot/execution_contract.py:1583-1646 | Every run that starts after commitment releases or mints, never both |
| `Lifecycle.ExclusiveExactlyAfterCommitment` | qntyspot/execution_contract.py:1583-1646 | For every finality and every start without evidence: no run of the two functions and the table both releases and mints exactly when the start state is not one before commitment |
| `ActionLedger.NeverReleasesAndMints` | qntyspot/ledger/store.py:607-622 | With every release a move to a terminal state, as the ledger has it, no run from any state both releases and mints |
| `ActionLedger.AbandonsExactly` | qntyspot/ledger/store.py:607-622 | When a move releases capital: to an ended state before the signing, to a rejection on a recorded revert from then on |
| `ActionLedger.ReleaseIsFinalExactlyAfterCommitment` | qntyspot/ledger/store.py:607-622 | No run ends with capital released and the chain confirming the action exactly when the start state is not one before commitment |
| `Calldata.Decode` | qntyspot/execution_contract.py:2158-2256 | The decoder accepts exactly the admitted calldata and reports the parts of the call it encodes |
| `CalldataFields.PartsLieHere` | qntyspot/execution_contract.py:2175-2199 | At which byte of the calldata and of the forwarded call every reported part lies |
| `CalldataFields.CallIsAdmittedExactly` | qntyspot/execution_contract.py:2166-2244 | Which canonical calls are admitted, expectation by expectation |
| `CalldataFields.SwapsAreBound` | qntyspot/execution_contract.py:1963-1978 | In accepted calldata every Uniswap V3 swap pays the expected taker, its path begins with the token sold and ends with the token bought, byte for byte, and its minimum is at least the expected one |
| `CalldataFields.HonestHopIsAccepted` | qntyspot/execution_contract.py:1963-1978 | Conversely, a one-hop swap that names the expected taker, tokens and minimum is accepted |
| `Calldata.DecodeInner` | qntyspot/execution_contract.py:2190-2213 | The forwarded call is accepted exactly in its canonical shape with a positive minimum and actions that settle |
| `Calldata.DecodeActions` | qntyspot/execution_contract.py:2052-2155 | The action array is accepted exactly when it is dense and every payload is admitted; the selectors are reported in order |
| `Calldata.ReadActions` | qntyspot/execution_contract.py:2077-2140 | The loop over the heads collects the starts and selectors of all admitted actions, or finds the one that is not |
| `Calldata.LieDensely` | qntyspot/execution_contract.py:2141-2147 | The order and adjacency checks accept exactly dense starts |
| `Calldata.EndAtTheNext` | qntyspot/execution_contract.py:2143-2147 | Each padded action ends where the next begins |
| `Calldata.DecodesExactlyCanonicalCalls` | qntyspot/execution_contract.py:2158-2256 | Accepted bytes are exactly the canonical ABI encodings of admitted calls, and the call is the only one they encode |
| `Calldata.ShapedIsCanonical` | qntyspot/execution_contract.py:1884-1895 | Bytes of the checked shape equal, byte for byte, the encoding of the call read from them |
| `Calldata.CanonicalIsShaped` | qntyspot/execution_contract.py:2052-2155 | Every canonical encoding passes the shape checks and reads back as its call |
| `Calldata.EncodingIsInjective` | qntyspot/execution_contract.py:2158-2256 | Different calls have different encodings |
| `AbiArrays.DenseIsEncoding` | qntyspot/execution_contract.py:2141-2154 | Densely lying elements are, byte for byte, the encoding of the array, with no gap, overlap or suffix |
| `AbiArrays.EncodingIsDense` | qntyspot/execution_contract.py:2064-2076 | The encoding of an array lies densely, with relative offsets into the element heads |
| `SettlerActions.AcceptedPayloadIsCanonical` | qntyspot/execution_contract.py:2089-2140 | An accepted payload is its selector, its argument words and the encoding of its dynamic value, nothing else |
| `SettlerFields.NativeCheckExactly` | qntyspot/execution_contract.py:1952-1959 | The payloads of NATIVE_CHECK that are accepted, by byte offset: its length, and no more native value than the transaction carries |
| `SettlerFields.CheckSlippageExactly` | qntyspot/execution_contract.py:1960-1962 | Likewise for CHECK_SLIPPAGE: its length and a canonical boolean |
| `SettlerFields.UniswapV3Exactly` | qntyspot/execution_contract.py:1970-1980 | Likewise for UNISWAPV3: recipient, proportion, minimum, and a path of whole hops from the token sold to the token bought |
| `SettlerFields.UniswapV2Exactly` | qntyspot/execution_contract.py:1981-1985 | Likewise for UNISWAPV2: recipient, token sold, proportion, pool, swap data and minimum |
| `SettlerFields.BasicExactly` | qntyspot/execution_contract.py:1986-1992 | Likewise for BASIC: token sold, proportion, pool, and the amount written inside the pool data or nowhere |
| `SettlerFields.DodoV1Exactly` | qntyspot/execution_contract.py:1993-1996 | Likewise for DODOV1 |
| `SettlerFields.DodoV2Exactly` | qntyspot/execution_contract.py:1997-2000 | No DODOV2 payload is accepted |
| `SettlerFields.VelodromeExactly` | qntyspot/execution_contract.py:2001-2005 | Likewise for VELODROME |
| `SettlerFields.MaverickV2Exactly` | qntyspot/execution_contract.py:2006-2011 | Likewise for MAVERICKV2 |
| `SettlerFields.EulerSwapExactly` | qntyspot/execution_contract.py:2012-2015 | Likewise for EULERSWAP |
| `SettlerFields.RenegadeExactly` | qntyspot/execution_contract.py:2016-2024 | Likewise for RENEGADE, which sells no more than the expected input |
| `SettlerFields.PositiveSlippageExactly` | qntyspot/execution_contract.py:2025-2028 | Likewise for POSITIVE_SLIPPAGE: the surplus of the token bought goes to the taker |
| `SettlerFields.OtherSelectorsAreRefused` | qntyspot/execution_contract.py:2029-2030 | No other selector is accepted |
| `AbiWords.PaddedIsRoundedUp` | qntyspot/execution_contract.py:1888-1892 | The padded length is the length rounded up to whole words |
| `AbiWords.LastByteIsLeast` | qntyspot/execution_contract.py:1870-1873 | A word is read most significant byte first: it is the last byte modulo 256, and just that byte behind 31 zeros |
| `AbiWords.BytesHeld` | qntyspot/execution_contract.py:1884-1895 | A length word, the bytes and zero padding are what the encoding of a byte string is |
| `Decimals.FormatCanonical` | qntyspot/canon.py:105-145 | The printer with its factor-counting loops computes the specified rendering or refusal |
| `Decimals.ParseThenFormat` | qntyspot/canon.py:69-145 | Printing what was parsed gives every canonical spelling back |
| `Decimals.FormatThenParse` | qntyspot/canon.py:83-145 | What is printed is a canonical spelling and parses to the fraction it was printed from |
| `Decimals.SpellingDenotes` | qntyspot/canon.py:99-102 | A spelling denotes its digits over the power of ten of its places |
| `Decimals.Formattable` | qntyspot/canon.py:117-145 | Exactly the non-negative values below 10^30 whose denominator divides 10^30 print |
| `Decimals.AcceptedExactly` | qntyspot/canon.py:69-102 | The parser accepts exactly a zero or up to thirty digits without a leading zero, then perhaps a point and up to thirty digits that end with no zero, and perhaps a newline |
| `Decimals.PlacesAreTens` | qntyspot/canon.py:99-102 | Two known readings: 1.5 is three halves, and 307 is 307 |
| `Decimals.SpellingIsUnique` | qntyspot/canon.py:69-80 | A value has one canonical spelling |
| `Decimals.LastDigitCounts` | qntyspot/canon.py:137-142 | For a reduced fraction with a positive scale the scaled digits never end in zero |
| `Decimals.PlacesAreScale` | qntyspot/canon.py:119-137 | The places of a spelling are exactly the scale of its value |
| `Decimals.RoundTripExactly` | qntyspot/canon.py:77-102 | Over everything the parser accepts, the round trip holds exactly without a final newline |
| `Decimals.NewlineIsTenth` | qntyspot/canon.py:77-102 | A final newline divides a value with a point by ten and is ignored without one |
| `Decimals.ToAtomicIsExact` | qntyspot/canon.py:173-188 | The conversion to atomic units is the one exact integer, or a refusal |
| `Decimals.AtomicRoundTrip` | qntyspot/canon.py:173-195 | Atomic units survive the way to a human amount and back |
| `Decimals.HumanRoundTrip` | qntyspot/canon.py:173-195 | A human amount that converts survives the way to atomic units and back |
| `Decimals.AtomicWhenFineEnough` | qntyspot/canon.py:182-187 | An amount converts exactly when it needs no more fractional digits than there are decimals |
| `PowersOfTen.DividesPowerOfTen` | qntyspot/canon.py:119-132 | The denominators that divide 10^k are those with only the factors two and five, each at most k times |
| `Fractions.MakeIsValid` | qntyspot/canon.py:100-102 | A fraction is made in lowest terms and keeps its value |
| `Identity.DecodeBase58` | qntyspot/identity.py:87-97 | The accumulating loop computes the decoded bytes, or refuses at the first foreign character |
| `Identity.ReadRefIsFaithful` | qntyspot/identity.py:204-243 | What is read is a valid reference and its identity view is the document it was read from |
| `Identity.IdentityRoundTrip` | qntyspot/identity.py:138-199 | Reading an identity view gives the reference back |
| `Mints.OneSpelling` | qntyspot/identity.py:87-97 | Decoding is injective: two base-58 texts with the same bytes are the same text, so a mint has one spelling |
| `Mints.DigitsExactly` | qntyspot/identity.py:54-55 | The digits: the decimal ones without the zero, the capitals without I and O, the small letters without l |
| `Mints.NumberExactly` | qntyspot/identity.py:87-94 | A text denotes a number by its digits, the first most significant |
| `Mints.MinimalExactly` | qntyspot/identity.py:95-97 | The bytes of a number spell it, most significant first, and begin with no zero |
| `Mints.EvmExactly` | qntyspot/identity.py:111-146 | Which documents read as a reference to a contract: its keys, the range of the chain id, and forty lower-case digits that are not all zero |
| `Mints.SolanaExactly` | qntyspot/identity.py:150-199 | Which documents read as a reference to a mint: its keys, the names of clusters and programs, and 32 bytes that are not all zero |
| `PolicyReader.Consumed.Take` | qntyspot/policy.py:71-74 | Taking a key yields its value once and removes it, or refuses |
| `PolicyReader.Consumed.TakeOptional` | qntyspot/policy.py:76-77 | Taking an optional key yields its value or its absence, and leaves every other key |
| `PolicyReader.Consumed.Done` | qntyspot/policy.py:79-84 | An object is done exactly when no key is left over |
| `PolicyReader.ParseLimits` | qntyspot/policy.py:310-324 | The limits block, consumed key by key, reads exactly as specified |
| `PolicyReader.ParseTiming` | qntyspot/policy.py:326-337 | The timing block, likewise |
| `PolicyReader.ParseReentry` | qntyspot/policy.py:339-348 | The re-entry block, likewise |
| `PolicyReader.ParseRecycling` | qntyspot/policy.py:350-371 | The recycling block, likewise |
| `PolicyReader.ParseCapital` | qntyspot/policy.py:274-291 | The capital block, likewise |
| `PolicyReader.ParseInstrument` | qntyspot/policy.py:134-159 | An instrument with its optional keys, likewise |
| `PolicyReader.ParseLevel` | qntyspot/policy.py:185-203 | A rung, likewise |
| `PolicyReader.ParseLadder` | qntyspot/policy.py:162-215 | The appending loop reads the ladder as specified and hands on every id used so far |
| `PolicyReader.TakeRoot` | qntyspot/policy.py:218-373 | A document is taken apart exactly when it has all blocks, at most the optional one, and no other key |
| `PolicyReader.ParseTerms` | qntyspot/policy.py:222-371 | All blocks together read as specified |
| `PolicyReader.ParsePolicy` | qntyspot/policy.py:218-481 | The reader admits exactly what the specification admits, with the same canonical document |
| `PolicyRoundTrips.ReadLevelsFit` | qntyspot/policy.py:182-215 | Rungs that were read are valid, in their places, and use no id twice, nor one of the other ladder |
| `PolicyRoundTrips.LadderRoundTrip` | qntyspot/domain.py:141-178 | The canonical ladder reads back as the ladder |
| `Policies.AdmittedDocument` | qntyspot/policy.py:218-420 | Every admitted document meets what the economic bounds rely on: ordered ladders, exit shares of at most one, coherent caps, and for a BUY policy exactly representable entries within the per-order cap |
| `Policies.AdmittedRungsAreAlive` | qntyspot/policy.py:375-420 | No admitted rung is dead on arrival: its limit is never tighter than its own trigger |
| `PolicyFields.AdmittedExactly` | qntyspot/policy.py:218-481 | A document is admitted exactly when its blocks read, the whole is coherent and every amount prints |
| `PolicyFields.RootExactly` | qntyspot/policy.py:218-373 | The keys of a document, the last optional, and nothing else |
| `PolicyFields.TermsExactly` | qntyspot/policy.py:222-371 | How the blocks read together: the schema, the side, two instruments of one network, exits on the other side with names of their own, and an omitted recycling block as zeros |
| `PolicyFields.CoherentExactly` | qntyspot/policy.py:258-420 | The cross-field checks: exit shares that sum to at most one, caps that cohere, every trigger within the hard limit of its side, and BUY entries that are whole amounts within the cap of an order |
| `PolicyFields.LadderExactly` | qntyspot/policy.py:162-215 | Which ladders read: one to sixty-four rungs, each said key by key, in its place, under a name of its own, with triggers that fall strictly when buying and rise strictly when selling |
| `PolicyFields.LimitsExactly` | qntyspot/policy.py:310-324 | Which limits read, key by key: positive prices in order, tolerances of at most ten thousand |
| `PolicyFields.CapitalExactly` | qntyspot/policy.py:274-291 | Which capital blocks read, key by key |
| `PolicyFields.BudgetExactly` | qntyspot/domain.py:196-220 | The caps convert exactly, and an order fits an allocation, an allocation an instrument, an instrument a network, a network the whole, with a reserve below the whole |
| `PolicyFields.TimingExactly` | qntyspot/policy.py:326-337 | Which timing blocks read, key by key, with their ranges |
| `PolicyFields.ReentryExactly` | qntyspot/policy.py:339-348 | Which re-entry blocks read, key by key, with their ranges |
| `PolicyFields.RecyclingExactly` | qntyspot/policy.py:350-371 | Which recycling blocks read: two ratios that sum to at most one |
| `PolicyFields.InstrumentExactly` | qntyspot/policy.py:134-159 | Which instruments read: reference, decimals of at most 36, and the two optional keys |
| `PolicyDocuments.BudgetIsExact` | qntyspot/policy.py:293-308 | Every cap of the budget is exactly the cap of the document in atomic units, and the caps cohere; otherwise it is refused |
| `Policies.CanonicalIsFixpoint` | qntyspot/policy.py:15-18 | The canonical form of every admitted policy is admissible and is a fixpoint: it reads as the same policy, labels aside, with the same canonical form |
| `PolicyFields.CanonicalIsWritten` | qntyspot/policy.py:422-458 | The canonical document, key by key: every amount as the notation writes it, the recycling block also when it was omitted, instruments without their labels |
| `Policies.SameCanonicalExactly` | qntyspot/policy.py:422-458 | Two admitted documents share one canonical form exactly when they say the same, labels aside |
| `Policies.LabelsShareCanonical` | qntyspot/identity.py:291-304 | Documents that differ only in display symbols share one canonical form |
| `Policies.OmittedRecyclingIsZero` | qntyspot/policy.py:350-371 | An omitted recycling block and any block that reads as all zero are the same document |
| `Policies.ZeroRecyclingExactly` | qntyspot/policy.py:355-366 | The blocks that read as all zero are exactly those whose two ratios are spelled 0, with or without a final newline |
| `PolicyReader.AdmittedIsFixpoint` | qntyspot/policy.py:15-18 | Both guarantees in the notation of the runtime |
| `PolicyDocuments.CanonicalIsFaithful` | qntyspot/canon.py:83-145 | The decimal notation reads back whatever it writes |
| `Domain.CeilDivIsLeast` | qntyspot/domain.py:50-54 | The ceiling is the least integer that reaches the quotient |
| `Economics.LimitIsClamped` | qntyspot/economics.py:56-68 | The limit price is positive, is the widened trigger or the hard price, and is no worse than either |
| `Economics.FactorIs` | qntyspot/economics.py:63-68 | The slippage factor is exactly the basis points over ten thousand |
| `Economics.MinOutputIsLeast` | qntyspot/economics.py:71-89 | The minimum output is the least output whose effective price is within the limit, for all decimals |
| `Economics.MinOutputIsPositive` | qntyspot/economics.py:179-190 | The minimum is always positive, so the refusal of a zero minimum is never taken |
| `Economics.DeadlineIsTightest` | qntyspot/economics.py:112-129 | A deadline exists exactly within the window, lies in the future, and is the tighter of expiry and quote lifetime |
| `Economics.ExitInputIsFloored` | qntyspot/economics.py:92-109 | An exit rung disposes of exactly the whole part of its share, and is refused exactly when that is none |
| `Economics.ExitsNeverOversell` | qntyspot/economics.py:92-109 | All exit rungs of an admitted policy, applied to one inventory, never dispose of more than it holds |
| `Economics.BoundsExist` | qntyspot/economics.py:147-207 | Bounds exist exactly within the window and when the rung has an input; the remaining refusals are never reached; a buy pays in the quote and receives the base, a sale the other way round |
| `Economics.EntryBoundsExactly` | qntyspot/economics.py:164-176 | An entry rung has bounds exactly within the window and when its amount is a whole number of atomic units, of the quote when it buys and of the base when it sells; that number is the committed input |
| `Economics.ExitBoundsExactly` | qntyspot/economics.py:92-109 | An exit rung has bounds exactly within the window and for an inventory of which its share is at least one unit; the committed input is the whole part of the share |
| `Economics.BoundsInIntegers` | qntyspot/economics.py:147-207 | Everything else that bounds commit to, in integers: instruments by side, the limit as the trigger moved by the slippage up to the hard price, the least output worth the limit, the tighter deadline |
| `Economics.BuyEntriesAlwaysBuild` | qntyspot/economics.py:210-252 | Every entry rung of an admitted BUY policy yields an intent throughout the window, with positive exposure within the per-order cap |
| `Economics.IntentExists` | qntyspot/economics.py:210-252 | For every rung an intent exists exactly when it has bounds and, for a buy, its input is within the per-order cap |
| `Economics.IntentInIntegers` | qntyspot/economics.py:210-252 | What an intent names, and that only a buy puts its input at risk |
| `Domain.ProratedIsLeast` | qntyspot/domain.py:513-523 | The prorated minimum is the least output at the committed price |
| `Domain.SatisfiesExactly` | qntyspot/domain.py:505-523 | A fill satisfies bounds exactly when it takes at most the committed input and pays for what it takes at least in the committed proportion |
| `Economics.SatisfyingPriceIsWithin` | qntyspot/domain.py:505-523 | Any receipt that satisfies the bounds built for a rung, partial fills included, is priced within the rung limit and the hard price; a full fill satisfies them exactly when it is priced within the limit |
| `LimitRendering.LimitRendersExactly` | qntyspot/economics.py:56-68 | With trigger and hard price representable, the limit price renders exactly when the hard price clamps it or the denominator of the trigger divides 10^26 times the slippage factor in basis points |
| `LimitRendering.ClampedExactly` | qntyspot/economics.py:63-68 | The limit is the hard price exactly when the widened trigger reaches it, and the widened trigger otherwise |
| `LimitRendering.LimitRendersAt26` | qntyspot/canon.py:132-136 | So it renders for every trigger of at most 26 places, or 27 at fifty basis points |
| `LimitRendering.CeilingIsSharp` | qntyspot/canon.py:132-136 | Where the slippage factor is coprime to ten, an unclamped limit renders exactly for triggers of at most 26 places |
| `LimitRendering.LimitCanFailToRender` | qntyspot/canon.py:132-136 | So from 27 places on, one basis point of slippage makes a limit price that does not render |
| `PriceNormalization.RoundsToNearest` | ops/ink_v0f_native_sell_roundtrip_prepare_v0.py:138-139 | The quantized price is the nearest multiple of the quantum, ties going to the even one, and nothing else is |
| `PriceNormalization.PriceTextIsCanonical` | ops/ink_v0f_native_sell_roundtrip_prepare_v0.py:133-141 | The text of a price is the canonical decimal of the rounded price, of at most 27 places, and reads back as it, exactly when the price is not negative and small enough |
| `PriceNormalization.WritesTheNearest` | ops/ink_v0f_native_sell_roundtrip_prepare_v0.py:133-141 | A price that is not negative is written exactly when, rounded to the nearest at the twenty-seventh place with ties to the even one, it has no more digits than the precision; a text that reads, reads as that |
| `PriceNormalization.NormalizedLimitRenders` | ops/ink_v0f_native_sell_roundtrip_prepare_v0.py:601-605 | With the trigger and the hard price as the successor policy writes them, the limit price at fifty basis points always renders |
| `Envelope.ApprovalIsForTheTarget` | qntyspot/execution_contract.py:2300-2374 | An approval is asked for exactly when only the allowance is missing, and only for the expected amount and for the spender that is also the transaction target |
| `Envelope.AssertAdmissible` | qntyspot/execution_contract.py:2415-2499 | The composite gate passes exactly admissible envelopes |
| `Envelope.ReadyExactly` | qntyspot/execution_contract.py:2304-2374 | When an answer of the venue is executable, field by field |
| `Envelope.ReasonsExactly` | qntyspot/execution_contract.py:2350-2365 | Every reason why it is not, and when it is given |
| `Envelope.MatchesExactly` | qntyspot/execution_contract.py:2377-2412 | What of the answer an envelope repeats, the instruments as the lower-case digits of the token addresses |
| `Envelope.CarriesExactly` | qntyspot/execution_contract.py:2476-2492 | An envelope spends at most the committed input, and it and the request to the venue ask for at least the committed proportion |
| `Envelope.CalldataFitsExactly` | qntyspot/execution_contract.py:2444-2462 | Which expectations the decoder is given, and that envelope and bytes agree |
| `Envelope.PassingAllIsAdmissible` | qntyspot/execution_contract.py:2415-2499 | Passing all of these checks suffices |
| `Envelope.ProratedIsMonotone` | qntyspot/prelive_economics.py:60-74 | A larger part of the committed input never has a smaller minimum |
| `Envelope.SettlementWithinBounds` | qntyspot/execution_contract.py:2415-2499 | Whatever the transaction of an admissible envelope can settle, full or partial, satisfies the original bounds |
| `Envelope.ReconciliationAccepts` | qntyspot/execution_contract.py:1597-1601 | Reconciliation never rejects a confirmed settlement of an admissible envelope as out of bounds |
| `Envelope.PolicyPriceSurvives` | qntyspot/execution_contract.py:2482-2493 | Any settlement of an admissible envelope is priced within the hard limit of the admitted policy |
| `Profit.ComputeProfitAllocation` | qntyspot/prelive_economics.py:222-318 | The loop computes the allocation of the books, with the reset at zero inventory changing nothing, and refuses exactly when the books do |
| `Profit.BookedIsSane` | qntyspot/prelive_economics.py:294-295 | Selling out releases the whole basis, so the reset is redundant |
| `Profit.Conservation` | qntyspot/prelive_economics.py:261-303 | Inventory is bought less sold, purchase cost is released plus remaining basis, and the result is net proceeds less released basis |
| `Profit.ProfitIsSplit` | qntyspot/prelive_economics.py:297-303 | Recycled, banked and retained profit make up the realized profit and none is negative |
| `Profit.CostIsWhatIsLost` | qntyspot/prelive_economics.py:261-303 | The reported external cost is exactly what separates the result from the quoted amounts of all trades |
| `Profit.AllocationExists` | qntyspot/prelive_economics.py:252-285 | The computation succeeds exactly for own trades that at no point sell more than was bought |
| `Profit.AverageCostIsBetween` | qntyspot/prelive_economics.py:276-293 | The average cost lies between the least and the greatest cost per unit ever paid |
| `Profit.SaleKeepsUnitCost` | qntyspot/prelive_economics.py:286-293 | A sale leaves the average cost of what remains as it was |
| `Profit.TwoBookAsOne` | qntyspot/prelive_economics.py:266-295 | Two adjacent trades of one side book like their sum, refusal included |
| `Profit.MergingChangesNothing` | qntyspot/prelive_economics.py:266-318 | Merging adjacent purchases or sales changes neither success nor anything the computation yields |
| `KeccakTables.RotationIsWalk` | qntyspot/keccak.py:43-49 | The table of rotations is the walk of section 3.2.2 of FIPS 202 |
| `KeccakTables.RoundConstantsAreRegister` | qntyspot/keccak.py:16-41 | The round constants are the output of the shift register of section 3.2.5 of FIPS 202 |
| `Keccak.ThetaInPlace` | qntyspot/keccak.py:60-67 | The in-place loops compute theta |
| `Keccak.Scatter` | qntyspot/keccak.py:69-74 | The rotating loop computes rho and pi |
| `Keccak.SourceIsInverse` | qntyspot/keccak.py:69-74 | Rho and pi put every lane into a place of its own |
| `Keccak.TargetIsInverse` | qntyspot/keccak.py:69-74 | Rho and pi fill every place |
| `Keccak.ChiInto` | qntyspot/keccak.py:75-79 | The in-place loops compute chi |
| `KeccakTables.ChiFlips` | qntyspot/keccak.py:75-79 | Chi flips a bit exactly when the next bit of its row is a zero and the one after that a one |
| `KeccakTables.ThetaFlips` | qntyspot/keccak.py:60-67 | Theta flips a bit exactly when one, but not both, of two columns is odd: the one before it, and the one after it a position lower |
| `Keccak.MaskLanes` | qntyspot/keccak.py:81-82 | Every lane stays below 2^64, so the final masks change nothing |
| `Keccak.RotateBit` | qntyspot/keccak.py:52-55 | The masked rotation of a lane moves every bit modulo 64 |
| `Keccak.RoundInPlace` | qntyspot/keccak.py:59-82 | One pass of the loop computes one round |
| `Keccak.Permute` | qntyspot/keccak.py:58-82 | The in-place loops compute Keccak-f of section 3.3 of FIPS 202 |
| `KeccakSpec.ThetaIsInjective` | qntyspot/keccak.py:60-67 | Theta is injective |
| `KeccakSpec.OnlyZeroIsItsOwnEffect` | qntyspot/keccak.py:60-64 | A plane of column parities that equals its own effect is zero |
| `KeccakSpec.ChiInverse` | qntyspot/keccak.py:75-79 | Every bit is recovered from the row that chi leaves |
| `KeccakSpec.RoundIsInjective` | qntyspot/keccak.py:59-82 | A round is injective |
| `KeccakSpec.PermutationIsInjective` | qntyspot/keccak.py:58-82 | The permutation is injective |
| `KeccakSponge.PadMessage` | qntyspot/keccak.py:89-92 | The padding steps append the pad of section 5.1 of FIPS 202 without a SHA-3 suffix |
| `KeccakSponge.PaddingFillsBlocks` | qntyspot/keccak.py:89-92 | Padding fills whole blocks of 136 bytes and adds at most one |
| `KeccakSponge.PaddingIsInjective` | qntyspot/keccak.py:89-92 | No two messages have the same padding |
| `KeccakSponge.LittleRoundTrip` | qntyspot/keccak.py:98-103 | The bytes of a lane are recovered from it |
| `KeccakSponge.ShortMessagesStayApart` | qntyspot/keccak.py:89-99 | Different messages shorter than a block never meet in one state |
| `KeccakSponge.AbsorbAll` | qntyspot/keccak.py:94-99 | The absorbing loop computes the sponge state |
| `KeccakSponge.SqueezeLanes` | qntyspot/keccak.py:101-104 | Writing out the rate and cutting at 32 bytes yields the first four lanes |
| `KeccakSponge.Keccak256` | qntyspot/keccak.py:85-104 | The digest is 32 bytes and is that of the specified sponge |
| `KeccakWords.RoundReads` | qntyspot/keccak.py:59-82 | A round computed on anything that reads as lanes, 64-bit words in particular, reads as the round |
| `KeccakAnswer.EmptyDigest` | qntyspot/keccak.py:85-104 | A known answer: the digest of the empty message, byte for byte |
| `EvidenceStore.SumSizes` | qntyspot/raw_evidence.py:151-157 | The sizes add up to the same total in whatever order the directory lists them |
| `EvidenceStore.Store.StoreResponse` | qntyspot/raw_evidence.py:172-175 | A response is written to a free address and never over other content |
| `EvidenceStore.Store.StoreManifest` | qntyspot/raw_evidence.py:43-50 | A manifest is written to a free address, or matches what is there, and issues the record |
| `EvidenceStore.Store.Capture` | qntyspot/raw_evidence.py:109-177 | A capture succeeds exactly for a well-formed request to a plain HTTPS endpoint, with room and without conflicting content; it keeps count and size bounds, and changes nothing stored, even when interrupted between its two writes |
| `EvidenceStore.Store.Read` | qntyspot/raw_evidence.py:179-215 | Every record ever issued reads back its exact bytes; any other only what matches its digests |
| `EvidenceStore.CaptureAll` | qntyspot/raw_evidence.py:109-177 | Over every sequence of captures the bounds hold, no content changes and every issued record stays readable |
| `CarryWalk.ReadSuccessors` | ops/ink_v0f_native_sell_roundtrip_prepare_v0.py:443-465 | The map of successors lists, for every source, its carries in event order, or refuses a malformed source |
| `CarryWalk.OneSuccessor` | ops/ink_v0f_native_sell_roundtrip_prepare_v0.py:443-465 | A cycle has exactly one successor when exactly one opening carries its inventory over, and which |
| `CarryWalk.RecoverableInventorySource` | ops/ink_v0f_native_sell_roundtrip_prepare_v0.py:428-589 | The walk terminates and finds a source exactly when there is a recovery path, and then its end: open, without successor, with the exact inventory, behind completed hops that each carried the exact amount to one successor |
| `CarryWalk.RecoveryExactly` | ops/ink_v0f_native_sell_roundtrip_prepare_v0.py:467-589 | What every cycle on a recovery path must be, by its place: completed, empty, with one exact carry, and untouched after the first; the last open with the exact inventory and no successor |
| `CarryWalk.RecoveryIsUnique` | ops/ink_v0f_native_sell_roundtrip_prepare_v0.py:467-589 | There is at most one recovery path |
| `CarryWalk.RecoveryDoesNotRepeat` | ops/ink_v0f_native_sell_roundtrip_prepare_v0.py:471-474 | A recovery path never visits a cycle twice, so the visited check rejects none |
| `CarryWalk.LoadExistingPrepare` | ops/ink_v0f_native_sell_roundtrip_prepare_v0.py:234-304 | The resume walk terminates and finds the one durable prepare exactly when it lies on the exact carry chain |
| `CarryWalk.PrepareLiesOnTheWay` | ops/ink_v0f_native_sell_roundtrip_prepare_v0.py:283-296 | A prepare found by the resume walk lies on the recovery path |
| `CarryWalk.PrepareTable.AdvancePhase` | qntyspot/ledger/execution.py:517-536 | Only the durable phase itself or its successor is admitted |
| `CarryWalk.PrepareTable.AdvanceToPhase` | ops/ink_v0f_native_sell_roundtrip_prepare_v0.py:732-741 | Advancing only moves forward, and succeeds exactly when the record read is at most one phase behind the durable one |
| `Transport.TransportedAtMostOnce` | ops/ink_v0f_native_sell_roundtrip_execute_v0.py:202-220 | Over all interleavings of concurrent and crashing invocations the bytes of each lane reach transport at most once, and only behind a guard that is durable then and ever after |
| `Transport.LaterInvocationsObserve` | ops/ink_v0f_native_sell_roundtrip_execute_v0.py:991-1000 | Once bytes were sent, no invocation of that lane gets past the creation of a guard |
| `Transport.StepKeepsGuarded` | ops/ink_v0f_native_sell_roundtrip_execute_v0.py:1069-1080 | What every step keeps: who may send owns the guard, and what was sent was sent once behind it |
| `Transport.PreparedOnlyWhenSafe` | ops/ink_v0f_native_sell_roundtrip_execute_v0.py:1279-1331 | A revoke is prepared for the frozen nonce only while no SELL guard exists, and for the next one only when the guard is whole and the ledger has the SELL as terminal |
| `Transport.SentOnlyWhenChecked` | ops/ink_v0f_native_sell_roundtrip_execute_v0.py:1515-1622 | Over all interleavings nothing is sent whose nonce the account had not reached, and a revoke only with the prepared nonce |
| `Transport.SellAndEarlyRevokeNeverBothLand` | ops/ink_v0f_native_sell_roundtrip_execute_v0.py:1279-1331 | Over all interleavings a revoke uses the frozen nonce, or the next one after the SELL has landed; the SELL and a revoke of the frozen nonce never both land |
| `Transport.EarlyRevokeStaysAloneExactly` | ops/ink_v0f_native_sell_roundtrip_execute_v0.py:1279-1294 | Over every run: no revoke of the frozen nonce is ever under way beside a SELL guard exactly when no step creates a SELL guard while such a revoke is under way |
| `Transport.EarlyRevokeMeansNoSell` | ops/ink_v0f_native_sell_roundtrip_execute_v0.py:1515-1622 | In those runs a revoke sends with the frozen nonce only when no SELL guard exists and no SELL was sent |
| `Transport.SequentialEarlyRevokeMeansNoSell` | ops/ink_v0f_native_sell_roundtrip_execute_v0.py:1515-1622 | Runs without overlap are among them |
| `Transport.OverlappingRevokeMayFollowSell` | ops/ink_v0f_native_sell_roundtrip_execute_v0.py:1515-1610 | With overlap that fails: a run in which a revoke that looked early sends after the SELL |

## Left out

- The SQLite ledger: only the reads and the few writes that the walks, the transport and the
  lifecycle need appear, as values or as steps; of the account of one action, `ActionLedger` keeps the
  state, the recorded verdict, and whether capital was released or a fill minted.
- RPC clients, HTTP, subprocesses, clocks, locks, backups and command-line modes: their results are
  parameters.
- RLP, ECDSA, Ed25519 and the JSON library: exact signed bytes are the bytes of a lane, and documents
  arrive as values.
- The authority root and the shape checks of sessions and grants: `Envelope.BoundToSession` keeps the
  identity, scope and window comparisons.
- Calldata given as a hexadecimal string (qntyspot/execution_contract.py:1858-1862): the decoder model
  starts at the bytes.
- The fixed-length router codecs: easier instances of the dynamic calldata property.
- The rebuilding of the successor policy, but for the text of its prices.
- `persist_index` and `load_index` of the evidence store, the text checks of its paths, how a URL is
  split (a parameter), and a file that was only partly written when a process died.
- The revoke preparation file is one atomic step in `Transport`; the checks of approval, allowance and
  fee that precede a transport only remove behaviours and are left out.
- The second guard in the ledger that `submit_exact_signed_bytes` consults: it only removes behaviours.
- The identity string of an instrument is the reference it spells.
