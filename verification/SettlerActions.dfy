/** The payloads of nested Settler actions: selector, argument layout, and the economic checks. */
module SettlerActions {
  import opened Outcomes
  import opened AbiWords

  datatype Kind =
    | NativeCheck | CheckSlippage | UniswapV3 | UniswapV2 | Basic | DodoV1 | DodoV2
    | Velodrome | MaverickV2 | EulerSwap | Renegade | PositiveSlippage

  /** What the caller binds a call to; an absent expectation binds nothing. */
  datatype Expected = Expected(
    entryPoint: Option<seq<byte>>, allowanceTarget: Option<seq<byte>>, sellToken: Option<seq<byte>>,
    buyToken: Option<seq<byte>>, taker: Option<seq<byte>>, sellAmount: Option<nat>, minOutput: Option<nat>)

  const BASIS: nat := 1_000_000

  /** The first four bytes of the Keccak-256 digest of the action's signature. */
  function Selector(kind: Kind): (r: seq<byte>)
    ensures |r| == 4
  {
    match kind
    case NativeCheck => [0xbd, 0x01, 0xc2, 0x26]
    case CheckSlippage => [0x13, 0x1a, 0xd4, 0x28]
    case UniswapV3 => [0x8d, 0x68, 0xa1, 0x56]
    case UniswapV2 => [0x10, 0x3b, 0x48, 0xbe]
    case Basic => [0x38, 0xc9, 0xc1, 0x47]
    case DodoV1 => [0xb8, 0xdf, 0x6d, 0x4d]
    case DodoV2 => [0xca, 0x9e, 0x5d, 0x0f]
    case Velodrome => [0xf5, 0xb9, 0x91, 0x89]
    case MaverickV2 => [0x9b, 0x59, 0x75, 0x6f]
    case EulerSwap => [0x64, 0x72, 0xb2, 0x76]
    case Renegade => [0xd1, 0x2b, 0x53, 0x47]
    case PositiveSlippage => [0x34, 0xee, 0x90, 0xca]
  }

  const KINDS: seq<Kind> := [
    NativeCheck, CheckSlippage, UniswapV3, UniswapV2, Basic, DodoV1, DodoV2,
    Velodrome, MaverickV2, EulerSwap, Renegade, PositiveSlippage]

  function Lookup(selector: seq<byte>, kinds: seq<Kind>): Option<Kind> {
    if kinds == [] then None
    else if selector == Selector(kinds[0]) then Some(kinds[0])
    else Lookup(selector, kinds[1..])
  }

  function KindOf(selector: seq<byte>): Option<Kind> {
    Lookup(selector, KINDS)
  }

  /** The number of argument words, and which of them is the offset of a dynamic value. */
  function Layout(kind: Kind): (r: (nat, Option<nat>))
    ensures r.1.Some? ==> r.1.value < r.0
  {
    match kind
    case NativeCheck => (2, None)
    case CheckSlippage => (1, None)
    case UniswapV3 => (4, Some(2))
    case UniswapV2 => (6, None)
    case Basic => (5, Some(4))
    case DodoV1 => (5, None)
    case DodoV2 => (6, None)
    case Velodrome => (5, None)
    case MaverickV2 => (7, None)
    case EulerSwap => (6, None)
    case Renegade => (8, Some(6))
    case PositiveSlippage => (4, None)
  }

  /** The arguments have the layout of their kind, with the dynamic value, if any, right behind
      the words and nothing behind it. */
  predicate ArgumentsFit(kind: Kind, args: seq<byte>) {
    var (words, dynamic) := Layout(kind);
    && 32 * words <= |args|
    && match dynamic
       case None => |args| == 32 * words
       case Some(i) => WordAt(args, 32 * i) == 32 * words && BytesAt(args, 32 * words) && PaddedEnd(args, 32 * words) == |args|
  }

  function DynamicValue(kind: Kind, args: seq<byte>): seq<byte>
    requires ArgumentsFit(kind, args)
  {
    var (words, dynamic) := Layout(kind);
    if dynamic.None? then [] else BytesOf(args, 32 * words)
  }

  predicate NonZero(a: seq<byte>) {
    exists k :: 0 <= k < |a| && a[k] != 0
  }

  /** A canonical address: twenty bytes that are not all zero. */
  predicate IsAddress(a: seq<byte>) {
    |a| == 20 && NonZero(a)
  }

  /** The word at `offset` holds a canonical address. */
  predicate AddressAt(data: seq<byte>, offset: nat) {
    offset + 32 <= |data| && AllZero(data, offset, offset + 12) && IsAddress(data[offset + 12..offset + 32])
  }

  function AddressOf(data: seq<byte>, offset: nat): (r: seq<byte>)
    requires AddressAt(data, offset)
    ensures IsAddress(r)
  {
    data[offset + 12..offset + 32]
  }

  predicate ArgIsAddress(args: seq<byte>, i: nat) {
    AddressAt(args, 32 * i)
  }

  predicate ArgIsBool(args: seq<byte>, i: nat) {
    32 * i + 32 <= |args| && WordAt(args, 32 * i) <= 1
  }

  predicate ArgAtMost(args: seq<byte>, i: nat, bound: nat) {
    32 * i + 32 <= |args| && WordAt(args, 32 * i) <= bound
  }

  /** An address argument that must agree with an expectation, when there is one. */
  predicate ArgMatches(args: seq<byte>, i: nat, expected: Option<seq<byte>>) {
    expected.Some? ==> ArgIsAddress(args, i) && AddressOf(args, 32 * i) == expected.value
  }

  /** A minimum-output argument that must be positive and carry the expected minimum. */
  predicate ArgIsMinimum(args: seq<byte>, i: nat, expected: Option<nat>) {
    && 32 * i + 32 <= |args|
    && 0 < WordAt(args, 32 * i)
    && (expected.Some? ==> expected.value <= WordAt(args, 32 * i))
  }

  predicate PathFits(path: seq<byte>, e: Expected) {
    && 43 <= |path| && (|path| - 20) % 23 == 0
    && (e.sellToken.Some? ==> path[..20] == e.sellToken.value)
    && (e.buyToken.Some? ==> path[|path| - 20..] == e.buyToken.value)
  }

  /** The economic fields each action exposes, bound to the expectations. A `DODOV2` action never
      passes: the program fails on it. */
  predicate Bound(kind: Kind, args: seq<byte>, e: Expected, transactionValue: nat)
    requires ArgumentsFit(kind, args)
  {
    match kind
    case NativeCheck => WordAt(args, 32) <= transactionValue
    case CheckSlippage => ArgIsBool(args, 0)
    case UniswapV3 =>
      && PathFits(DynamicValue(kind, args), e) && ArgAtMost(args, 1, BASIS)
      && ArgMatches(args, 0, e.taker) && ArgIsMinimum(args, 3, e.minOutput)
    case UniswapV2 =>
      && ArgIsAddress(args, 3) && ArgAtMost(args, 4, 0xFF_FFFF) && ArgAtMost(args, 2, BASIS)
      && ArgMatches(args, 0, e.taker) && ArgMatches(args, 1, e.sellToken) && ArgIsMinimum(args, 5, e.minOutput)
    case Basic =>
      var data, at := DynamicValue(kind, args), WordAt(args, 96);
      && ArgIsAddress(args, 2) && (if data != [] then at + 32 <= |data| else at == 0)
      && ArgAtMost(args, 1, BASIS) && ArgMatches(args, 0, e.sellToken)
    case DodoV1 =>
      && ArgIsAddress(args, 2) && ArgIsBool(args, 3) && ArgAtMost(args, 1, BASIS)
      && ArgMatches(args, 0, e.sellToken) && ArgIsMinimum(args, 4, e.minOutput)
    case DodoV2 => false
    case Velodrome =>
      && ArgIsAddress(args, 2) && ArgAtMost(args, 3, 0xFF_FFFF) && ArgAtMost(args, 1, BASIS)
      && ArgMatches(args, 0, e.taker) && ArgIsMinimum(args, 4, e.minOutput)
    case MaverickV2 =>
      && ArgIsAddress(args, 3) && ArgIsBool(args, 4) && ArgAtMost(args, 2, BASIS)
      && ArgMatches(args, 0, e.taker) && ArgMatches(args, 1, e.sellToken) && ArgIsMinimum(args, 6, e.minOutput)
    case EulerSwap =>
      && ArgIsAddress(args, 3) && ArgIsBool(args, 4) && ArgAtMost(args, 2, BASIS)
      && ArgMatches(args, 0, e.taker) && ArgMatches(args, 1, e.sellToken) && ArgIsMinimum(args, 5, e.minOutput)
    case Renegade =>
      && (e.sellAmount.Some? ==> WordAt(args, 96) <= e.sellAmount.value) && ArgIsBool(args, 4)
      && ArgMatches(args, 0, e.taker) && ArgMatches(args, 1, e.sellToken) && ArgMatches(args, 2, e.buyToken)
      && ArgIsMinimum(args, 7, e.minOutput)
    case PositiveSlippage => ArgMatches(args, 0, e.taker) && ArgMatches(args, 1, e.buyToken)
  }

  predicate ActionAccepted(payload: seq<byte>, e: Expected, transactionValue: nat) {
    && 4 <= |payload|
    && KindOf(payload[..4]).Some?
    && ArgumentsFit(KindOf(payload[..4]).value, payload[4..])
    && Bound(KindOf(payload[..4]).value, payload[4..], e, transactionValue)
  }

  /** Neither of the two checks that move nothing. */
  predicate SelectorSettles(selector: seq<byte>) {
    selector != Selector(NativeCheck) && selector != Selector(CheckSlippage)
  }

  predicate Settles(payload: seq<byte>) {
    4 <= |payload| && SelectorSettles(payload[..4])
  }

  // ---------------------------------------------------------------------------------
  // Canonical payloads
  // ---------------------------------------------------------------------------------

  lemma {:induction false} LookupFinds(selector: seq<byte>, kinds: seq<Kind>)
    ensures Lookup(selector, kinds).Some? ==> Selector(Lookup(selector, kinds).value) == selector
  {
    if kinds != [] && selector != Selector(kinds[0]) {
      LookupFinds(selector, kinds[1..]);
    }
  }

  /** An accepted payload is, byte for byte, the selector of its kind, its argument words, and the
      encoding of its dynamic value behind them, to which the offset word points. */
  lemma AcceptedPayloadIsCanonical(payload: seq<byte>, e: Expected, transactionValue: nat)
    requires ActionAccepted(payload, e, transactionValue)
    ensures var kind, args := KindOf(payload[..4]).value, payload[4..];
            var (words, dynamic) := Layout(kind);
            && 32 * words <= |args|
            && (dynamic.Some? ==> args[32 * dynamic.value..32 * dynamic.value + 32] == Word(32 * words))
            && payload == Selector(kind) + args[..32 * words]
                          + (if dynamic.Some? then EncodeBytes(DynamicValue(kind, args)) else [])
  {
    var kind := KindOf(payload[..4]).value;
    LookupFinds(payload[..4], KINDS);
    CanonicalAs(payload, kind);
  }

  lemma CanonicalAs(payload: seq<byte>, kind: Kind)
    requires 4 <= |payload| && Selector(kind) == payload[..4] && ArgumentsFit(kind, payload[4..])
    ensures var args := payload[4..];
            var (words, dynamic) := Layout(kind);
            && 32 * words <= |args|
            && (dynamic.Some? ==> args[32 * dynamic.value..32 * dynamic.value + 32] == Word(32 * words))
            && payload == Selector(kind) + args[..32 * words]
                          + (if dynamic.Some? then EncodeBytes(DynamicValue(kind, args)) else [])
  {
    ArgumentsAreCanonical(kind, payload[4..]);
    assert payload == payload[..4] + payload[4..];
  }

  lemma ArgumentsAreCanonical(kind: Kind, args: seq<byte>)
    requires ArgumentsFit(kind, args)
    ensures var (words, dynamic) := Layout(kind);
            && (dynamic.Some? ==> args[32 * dynamic.value..32 * dynamic.value + 32] == Word(32 * words))
            && args == args[..32 * words] + (if dynamic.Some? then EncodeBytes(DynamicValue(kind, args)) else [])
  {
    var (words, dynamic) := Layout(kind);
    if dynamic.Some? { DynamicIsCanonical(args, 32 * dynamic.value, 32 * words); }
  }

  lemma DynamicIsCanonical(args: seq<byte>, slot: nat, at: nat)
    requires slot + 32 <= at <= |args|
    requires WordAt(args, slot) == at && BytesAt(args, at) && PaddedEnd(args, at) == |args|
    ensures args[slot..slot + 32] == Word(at)
    ensures args == args[..at] + EncodeBytes(BytesOf(args, at))
  {
    WordAtFits(args, slot);
    WordHeld(args, slot, at);
    WordAtFits(args, at);
    BytesHeld(args, at, BytesOf(args, at));
    HoldsSuffix(args, at, EncodeBytes(BytesOf(args, at)));
    assert args == args[..at] + args[at..];
  }
}
