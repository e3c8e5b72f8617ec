/** What the decoder demands of every supported action, read off the bytes of its payload: the selector,
    then one word for each argument, and at most one dynamic value behind the words. */
module SettlerFields {
  import opened Outcomes
  import opened AbiWords
  import opened SettlerActions

  /** The word at `at` is that of the address `a`: twelve zero bytes and the twenty bytes of `a`, not all
      of them zero. */
  predicate HoldsAddress(p: seq<byte>, at: nat, a: seq<byte>) {
    && at + 32 <= |p| && |a| == 20 && (exists k :: 0 <= k < 20 && a[k] != 0)
    && p[at..at + 32] == [0, 0, 0, 0, 0, 0, 0, 0, 0, 0, 0, 0] + a
  }

  predicate HoldsSomeAddress(p: seq<byte>, at: nat) {
    at + 32 <= |p| && HoldsAddress(p, at, p[at + 12..at + 32])
  }

  /** If an address is expected at `at`, it is there. */
  predicate AddressAsExpected(p: seq<byte>, at: nat, expected: Option<seq<byte>>) {
    expected.Some? ==> HoldsAddress(p, at, expected.value)
  }

  predicate WordAtMost(p: seq<byte>, at: nat, bound: nat) {
    at + 32 <= |p| && WordAt(p, at) <= bound
  }

  /** A minimum that is positive and no weaker than the expected one. */
  predicate MinimumAsExpected(p: seq<byte>, at: nat, expected: Option<nat>) {
    && at + 32 <= |p| && 1 <= WordAt(p, at)
    && (expected.Some? ==> expected.value <= WordAt(p, at))
  }

  /** The dynamic value at `at` ends the payload: its length, its bytes, and zeros up to a whole word. */
  predicate EndsWithBytes(p: seq<byte>, at: nat) {
    && at + 32 <= |p| && |p| == at + 32 + (WordAt(p, at) + 31) / 32 * 32
    && forall k :: at + 32 + WordAt(p, at) <= k < |p| ==> p[k] == 0
  }

  // ---------------------------------------------------------------------------------
  // Arguments behind the selector
  // ---------------------------------------------------------------------------------

  lemma AddressBehind(p: seq<byte>, i: nat, a: seq<byte>)
    requires 4 <= |p|
    ensures ArgIsAddress(p[4..], i) && AddressOf(p[4..], 32 * i) == a <==> HoldsAddress(p, 4 + 32 * i, a)
  {
    var args, at := p[4..], 32 * i;
    if at + 32 <= |args| {
      var word := p[4 + at..4 + at + 32];
      assert args[at + 12..at + 32] == word[12..];
      assert forall k :: 0 <= k < 12 ==> word[k] == args[at + k];
      AddressWordIs(word, a);
      ZerosAhead(args, at, word);
    }
  }

  lemma AddressWordIs(word: seq<byte>, a: seq<byte>)
    requires |word| == 32
    ensures |a| == 20 && word == [0, 0, 0, 0, 0, 0, 0, 0, 0, 0, 0, 0] + a <==>
            (forall k :: 0 <= k < 12 ==> word[k] == 0) && word[12..] == a
  {
    if (forall k :: 0 <= k < 12 ==> word[k] == 0) && word[12..] == a {
      assert word[..12] == [0, 0, 0, 0, 0, 0, 0, 0, 0, 0, 0, 0];
      assert word == word[..12] + word[12..];
    }
  }

  lemma ZerosAhead(args: seq<byte>, at: nat, word: seq<byte>)
    requires at + 32 <= |args| && |word| == 32 && forall k :: 0 <= k < 12 ==> word[k] == args[at + k]
    ensures AllZero(args, at, at + 12) <==> forall k :: 0 <= k < 12 ==> word[k] == 0
  {
    if forall k :: 0 <= k < 12 ==> word[k] == 0 {
      forall k | at <= k < at + 12 ensures args[k] == 0 { assert word[k - at] == 0; }
    }
  }

  lemma SomeAddressBehind(p: seq<byte>, i: nat)
    requires 4 <= |p|
    ensures ArgIsAddress(p[4..], i) <==> HoldsSomeAddress(p, 4 + 32 * i)
  {
    if 4 + 32 * i + 32 <= |p| {
      AddressBehind(p, i, p[4 + 32 * i + 12..4 + 32 * i + 32]);
      assert p[4..][32 * i + 12..32 * i + 32] == p[4 + 32 * i + 12..4 + 32 * i + 32];
    }
  }

  lemma MatchBehind(p: seq<byte>, i: nat, expected: Option<seq<byte>>)
    requires 4 <= |p|
    ensures ArgMatches(p[4..], i, expected) <==> AddressAsExpected(p, 4 + 32 * i, expected)
  {
    if expected.Some? { AddressBehind(p, i, expected.value); }
  }

  lemma WordBehindSelector(p: seq<byte>, i: nat)
    requires 4 + 32 * i + 32 <= |p|
    ensures WordAt(p[4..], 32 * i) == WordAt(p, 4 + 32 * i)
  {
    WordBehind(p, 4, 32 * i);
  }

  lemma BoundBehind(p: seq<byte>, i: nat, bound: nat)
    requires 4 <= |p|
    ensures ArgAtMost(p[4..], i, bound) <==> WordAtMost(p, 4 + 32 * i, bound)
    ensures ArgIsBool(p[4..], i) <==> WordAtMost(p, 4 + 32 * i, 1)
  {
    if 4 + 32 * i + 32 <= |p| { WordBehindSelector(p, i); }
  }

  lemma MinimumBehind(p: seq<byte>, i: nat, expected: Option<nat>)
    requires 4 <= |p|
    ensures ArgIsMinimum(p[4..], i, expected) <==> MinimumAsExpected(p, 4 + 32 * i, expected)
  {
    if 4 + 32 * i + 32 <= |p| { WordBehindSelector(p, i); }
  }

  lemma BytesBehind(p: seq<byte>, i: nat)
    requires 4 + 32 * i + 32 <= |p|
    ensures BytesAt(p[4..], 32 * i) && PaddedEnd(p[4..], 32 * i) == |p[4..]| <==> EndsWithBytes(p, 4 + 32 * i)
    ensures EndsWithBytes(p, 4 + 32 * i) ==>
              BytesOf(p[4..], 32 * i) == p[36 + 32 * i..36 + 32 * i + WordAt(p, 4 + 32 * i)]
  {
    var args, at := p[4..], 32 * i;
    WordBehindSelector(p, i);
    var n := WordAt(args, at);
    PaddedIsRoundedUp(n);
    if at + 32 + Padded(n) == |args| {
      assert AllZero(args, at + 32 + n, |args|) <==> forall k :: 36 + at + n <= k < |p| ==> p[k] == 0 by {
        if forall k :: 36 + at + n <= k < |p| ==> p[k] == 0 {
          forall k | at + 32 + n <= k < |args| ensures args[k] == 0 { assert args[k] == p[4 + k]; }
        }
        if AllZero(args, at + 32 + n, |args|) {
          forall k | 36 + at + n <= k < |p| ensures p[k] == 0 { assert p[k] == args[k - 4]; }
        }
      }
    }
  }

  // ---------------------------------------------------------------------------------
  // Every selector names one kind
  // ---------------------------------------------------------------------------------

  lemma SelectorsDiffer(a: Kind, b: Kind)
    ensures a != b ==> Selector(a) != Selector(b)
  {
    if a != b { assert Selector(a)[0] != Selector(b)[0]; }
  }

  lemma {:induction false} LookupAt(kinds: seq<Kind>, i: nat)
    requires i < |kinds| && forall j :: 0 <= j < i ==> kinds[j] != kinds[i]
    ensures Lookup(Selector(kinds[i]), kinds) == Some(kinds[i])
  {
    if i != 0 {
      SelectorsDiffer(kinds[0], kinds[i]);
      LookupAt(kinds[1..], i - 1);
    }
  }

  function Index(kind: Kind): (i: nat)
    ensures i < |KINDS| && KINDS[i] == kind && forall j :: 0 <= j < i ==> KINDS[j] != kind
  {
    match kind
    case NativeCheck => 0
    case CheckSlippage => 1
    case UniswapV3 => 2
    case UniswapV2 => 3
    case Basic => 4
    case DodoV1 => 5
    case DodoV2 => 6
    case Velodrome => 7
    case MaverickV2 => 8
    case EulerSwap => 9
    case Renegade => 10
    case PositiveSlippage => 11
  }

  lemma KindIs(kind: Kind)
    ensures KindOf(Selector(kind)) == Some(kind)
  {
    LookupAt(KINDS, Index(kind));
  }

  lemma AcceptedAs(p: seq<byte>, kind: Kind, e: Expected, transactionValue: nat)
    requires 4 <= |p| && p[..4] == Selector(kind)
    ensures ActionAccepted(p, e, transactionValue) <==>
            ArgumentsFit(kind, p[4..]) && Bound(kind, p[4..], e, transactionValue)
  {
    KindIs(kind);
  }

  // ---------------------------------------------------------------------------------
  // What is demanded of each of them
  // ---------------------------------------------------------------------------------

  /** `NATIVE_CHECK(uint256,uint256)`: no more native value than the transaction carries. */
  lemma NativeCheckExactly(p: seq<byte>, e: Expected, transactionValue: nat)
    requires 4 <= |p| && p[..4] == [0xbd, 0x01, 0xc2, 0x26]
    ensures ActionAccepted(p, e, transactionValue) <==> |p| == 68 && WordAt(p, 36) <= transactionValue
  {
    AcceptedAs(p, NativeCheck, e, transactionValue);
    if |p| == 68 { WordBehindSelector(p, 1); }
  }

  /** `CHECK_SLIPPAGE(bool)`: a canonical boolean. */
  lemma CheckSlippageExactly(p: seq<byte>, e: Expected, transactionValue: nat)
    requires 4 <= |p| && p[..4] == [0x13, 0x1a, 0xd4, 0x28]
    ensures ActionAccepted(p, e, transactionValue) <==> |p| == 36 && WordAt(p, 4) <= 1
  {
    AcceptedAs(p, CheckSlippage, e, transactionValue);
    BoundBehind(p, 0, 1);
  }

  /** `UNISWAPV3(address,uint256,bytes,uint256)`: the recipient, a proportion of at most the basis, and the
      minimum as expected, and a path of whole hops from the token sold to the token bought. */
  lemma UniswapV3Exactly(p: seq<byte>, e: Expected, transactionValue: nat)
    requires 4 <= |p| && p[..4] == [0x8d, 0x68, 0xa1, 0x56]
    ensures ActionAccepted(p, e, transactionValue) <==>
            && 132 <= |p| && WordAt(p, 68) == 128 && EndsWithBytes(p, 132)
            && AddressAsExpected(p, 4, e.taker) && WordAtMost(p, 36, 1_000_000) && MinimumAsExpected(p, 100, e.minOutput)
            && var path := p[164..164 + WordAt(p, 132)];
               && 43 <= |path| && (|path| - 20) % 23 == 0
               && (e.sellToken.Some? ==> path[..20] == e.sellToken.value)
               && (e.buyToken.Some? ==> path[|path| - 20..] == e.buyToken.value)
  {
    AcceptedAs(p, UniswapV3, e, transactionValue);
    MatchBehind(p, 0, e.taker);
    BoundBehind(p, 1, 1_000_000);
    MinimumBehind(p, 3, e.minOutput);
    if 132 <= |p| { WordBehindSelector(p, 2); }
    if 164 <= |p| { BytesBehind(p, 4); }
  }

  /** `UNISWAPV2(address,address,uint256,address,uint24,uint256)`. */
  lemma UniswapV2Exactly(p: seq<byte>, e: Expected, transactionValue: nat)
    requires 4 <= |p| && p[..4] == [0x10, 0x3b, 0x48, 0xbe]
    ensures ActionAccepted(p, e, transactionValue) <==>
            && |p| == 196 && AddressAsExpected(p, 4, e.taker) && AddressAsExpected(p, 36, e.sellToken)
            && WordAtMost(p, 68, 1_000_000) && HoldsSomeAddress(p, 100) && WordAtMost(p, 132, 16_777_215)
            && MinimumAsExpected(p, 164, e.minOutput)
  {
    AcceptedAs(p, UniswapV2, e, transactionValue);
    MatchBehind(p, 0, e.taker);
    MatchBehind(p, 1, e.sellToken);
    BoundBehind(p, 2, 1_000_000);
    SomeAddressBehind(p, 3);
    BoundBehind(p, 4, 16_777_215);
    MinimumBehind(p, 5, e.minOutput);
  }

  /** `BASIC(address,uint256,address,uint256,bytes)`: the amount is written into the pool data at an offset
      inside it, or nowhere. */
  lemma BasicExactly(p: seq<byte>, e: Expected, transactionValue: nat)
    requires 4 <= |p| && p[..4] == [0x38, 0xc9, 0xc1, 0x47]
    ensures ActionAccepted(p, e, transactionValue) <==>
            && 164 <= |p| && WordAt(p, 132) == 160 && EndsWithBytes(p, 164)
            && AddressAsExpected(p, 4, e.sellToken) && WordAtMost(p, 36, 1_000_000) && HoldsSomeAddress(p, 68)
            && (if WordAt(p, 164) == 0 then WordAt(p, 100) == 0 else WordAt(p, 100) + 32 <= WordAt(p, 164))
  {
    AcceptedAs(p, Basic, e, transactionValue);
    MatchBehind(p, 0, e.sellToken);
    BoundBehind(p, 1, 1_000_000);
    SomeAddressBehind(p, 2);
    if 164 <= |p| {
      WordBehindSelector(p, 3);
      WordBehindSelector(p, 4);
    }
    if 196 <= |p| { BytesBehind(p, 5); }
  }

  /** `DODOV1(address,uint256,address,bool,uint256)`. */
  lemma DodoV1Exactly(p: seq<byte>, e: Expected, transactionValue: nat)
    requires 4 <= |p| && p[..4] == [0xb8, 0xdf, 0x6d, 0x4d]
    ensures ActionAccepted(p, e, transactionValue) <==>
            && |p| == 164 && AddressAsExpected(p, 4, e.sellToken) && WordAtMost(p, 36, 1_000_000)
            && HoldsSomeAddress(p, 68) && WordAtMost(p, 100, 1) && MinimumAsExpected(p, 132, e.minOutput)
  {
    AcceptedAs(p, DodoV1, e, transactionValue);
    MatchBehind(p, 0, e.sellToken);
    BoundBehind(p, 1, 1_000_000);
    SomeAddressBehind(p, 2);
    BoundBehind(p, 3, 1);
    MinimumBehind(p, 4, e.minOutput);
  }

  /** `DODOV2(address,address,uint256,address,bool,uint256)`: never. */
  lemma DodoV2Exactly(p: seq<byte>, e: Expected, transactionValue: nat)
    requires 4 <= |p| && p[..4] == [0xca, 0x9e, 0x5d, 0x0f]
    ensures !ActionAccepted(p, e, transactionValue)
  {
    AcceptedAs(p, DodoV2, e, transactionValue);
  }

  /** `VELODROME(address,uint256,address,uint24,uint256)`. */
  lemma VelodromeExactly(p: seq<byte>, e: Expected, transactionValue: nat)
    requires 4 <= |p| && p[..4] == [0xf5, 0xb9, 0x91, 0x89]
    ensures ActionAccepted(p, e, transactionValue) <==>
            && |p| == 164 && AddressAsExpected(p, 4, e.taker) && WordAtMost(p, 36, 1_000_000)
            && HoldsSomeAddress(p, 68) && WordAtMost(p, 100, 16_777_215) && MinimumAsExpected(p, 132, e.minOutput)
  {
    AcceptedAs(p, Velodrome, e, transactionValue);
    MatchBehind(p, 0, e.taker);
    BoundBehind(p, 1, 1_000_000);
    SomeAddressBehind(p, 2);
    BoundBehind(p, 3, 16_777_215);
    MinimumBehind(p, 4, e.minOutput);
  }

  /** `MAVERICKV2(address,address,uint256,address,bool,int32,uint256)`. */
  lemma MaverickV2Exactly(p: seq<byte>, e: Expected, transactionValue: nat)
    requires 4 <= |p| && p[..4] == [0x9b, 0x59, 0x75, 0x6f]
    ensures ActionAccepted(p, e, transactionValue) <==>
            && |p| == 228 && AddressAsExpected(p, 4, e.taker) && AddressAsExpected(p, 36, e.sellToken)
            && WordAtMost(p, 68, 1_000_000) && HoldsSomeAddress(p, 100) && WordAtMost(p, 132, 1)
            && MinimumAsExpected(p, 196, e.minOutput)
  {
    AcceptedAs(p, MaverickV2, e, transactionValue);
    MatchBehind(p, 0, e.taker);
    MatchBehind(p, 1, e.sellToken);
    BoundBehind(p, 2, 1_000_000);
    SomeAddressBehind(p, 3);
    BoundBehind(p, 4, 1);
    MinimumBehind(p, 6, e.minOutput);
  }

  /** `EULERSWAP(address,address,uint256,address,bool,uint256)`. */
  lemma EulerSwapExactly(p: seq<byte>, e: Expected, transactionValue: nat)
    requires 4 <= |p| && p[..4] == [0x64, 0x72, 0xb2, 0x76]
    ensures ActionAccepted(p, e, transactionValue) <==>
            && |p| == 196 && AddressAsExpected(p, 4, e.taker) && AddressAsExpected(p, 36, e.sellToken)
            && WordAtMost(p, 68, 1_000_000) && HoldsSomeAddress(p, 100) && WordAtMost(p, 132, 1)
            && MinimumAsExpected(p, 164, e.minOutput)
  {
    AcceptedAs(p, EulerSwap, e, transactionValue);
    MatchBehind(p, 0, e.taker);
    MatchBehind(p, 1, e.sellToken);
    BoundBehind(p, 2, 1_000_000);
    SomeAddressBehind(p, 3);
    BoundBehind(p, 4, 1);
    MinimumBehind(p, 5, e.minOutput);
  }

  /** `RENEGADE(address,address,address,uint256,bool,uint256,bytes,uint256)`: it sells no more than the
      expected input. */
  lemma RenegadeExactly(p: seq<byte>, e: Expected, transactionValue: nat)
    requires 4 <= |p| && p[..4] == [0xd1, 0x2b, 0x53, 0x47]
    ensures ActionAccepted(p, e, transactionValue) <==>
            && 260 <= |p| && WordAt(p, 196) == 256 && EndsWithBytes(p, 260)
            && AddressAsExpected(p, 4, e.taker) && AddressAsExpected(p, 36, e.sellToken) && AddressAsExpected(p, 68, e.buyToken)
            && (e.sellAmount.Some? ==> WordAt(p, 100) <= e.sellAmount.value) && WordAtMost(p, 132, 1)
            && MinimumAsExpected(p, 228, e.minOutput)
  {
    AcceptedAs(p, Renegade, e, transactionValue);
    MatchBehind(p, 0, e.taker);
    MatchBehind(p, 1, e.sellToken);
    MatchBehind(p, 2, e.buyToken);
    BoundBehind(p, 4, 1);
    MinimumBehind(p, 7, e.minOutput);
    if 260 <= |p| {
      WordBehindSelector(p, 3);
      WordBehindSelector(p, 6);
    }
    if 292 <= |p| { BytesBehind(p, 8); }
  }

  /** `POSITIVE_SLIPPAGE(address,address,uint256,uint256)`: the surplus of the token bought goes to the taker. */
  lemma PositiveSlippageExactly(p: seq<byte>, e: Expected, transactionValue: nat)
    requires 4 <= |p| && p[..4] == [0x34, 0xee, 0x90, 0xca]
    ensures ActionAccepted(p, e, transactionValue) <==>
            |p| == 132 && AddressAsExpected(p, 4, e.taker) && AddressAsExpected(p, 36, e.buyToken)
  {
    AcceptedAs(p, PositiveSlippage, e, transactionValue);
    MatchBehind(p, 0, e.taker);
    MatchBehind(p, 1, e.buyToken);
  }

  /** No other selector is accepted. */
  lemma OtherSelectorsAreRefused(p: seq<byte>, e: Expected, transactionValue: nat)
    requires ActionAccepted(p, e, transactionValue)
    ensures 4 <= |p| && p[..4] in {
              [0xbd, 0x01, 0xc2, 0x26], [0x13, 0x1a, 0xd4, 0x28], [0x8d, 0x68, 0xa1, 0x56], [0x10, 0x3b, 0x48, 0xbe],
              [0x38, 0xc9, 0xc1, 0x47], [0xb8, 0xdf, 0x6d, 0x4d], [0xf5, 0xb9, 0x91, 0x89], [0x9b, 0x59, 0x75, 0x6f],
              [0x64, 0x72, 0xb2, 0x76], [0xd1, 0x2b, 0x53, 0x47], [0x34, 0xee, 0x90, 0xca]}
  {
    LookupFinds(p[..4], KINDS);
  }

  /** An action settles unless it is one of the two checks. */
  lemma SettlesExactly(p: seq<byte>)
    ensures Settles(p) <==> 4 <= |p| && p[..4] != [0xbd, 0x01, 0xc2, 0x26] && p[..4] != [0x13, 0x1a, 0xd4, 0x28]
  {
  }
}
