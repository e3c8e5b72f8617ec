/** What the decoder reads and demands, in terms of the bytes of the calldata. */
module CalldataFields {
  import opened Outcomes
  import opened AbiWords
  import opened AbiArrays
  import opened SettlerActions
  import opened SettlerFields
  import opened Calldata

  /** The bytes that are forwarded, by their length word. */
  function Forwarded(data: seq<byte>): seq<byte>
    requires 196 <= |data| && 196 + WordAt(data, 164) <= |data|
  {
    data[196..196 + WordAt(data, 164)]
  }

  lemma ShapedForwards(data: seq<byte>)
    requires Shaped(data)
    ensures 196 <= |data| && 196 + WordAt(data, 164) <= |data| && Forwarded(data) == BytesOf(data, 164)
    ensures 196 <= |Forwarded(data)|
  {
  }

  /** Where the parts of an accepted call lie: the target is called with the recipient, the token bought and
      the minimum; the operator, the token sold and the amount surround it. */
  lemma PartsLieHere(data: seq<byte>)
    requires Shaped(data)
    ensures var c := CallOf(data);
            && 196 <= |data| && 196 + WordAt(data, 164) <= |data| && 196 <= |Forwarded(data)|
            && var inner := Forwarded(data);
               && data[..4] == [0x22, 0x13, 0xbc, 0x0b] && inner[..4] == [0x1f, 0xff, 0x99, 0x1f]
               && c.operator == data[16..36] && c.sellToken == data[48..68] && c.sellAmount == WordAt(data, 68)
               && c.target == data[112..132] && c.recipient == inner[16..36] && c.buyToken == inner[48..68]
               && c.minOutput == WordAt(inner, 68) && c.unread == inner[132..164] && |c.actions| == WordAt(inner, 164)
  {
    ShapedForwards(data);
  }

  /** An expected value, if any, is the actual one. */
  predicate AsExpected<T(==)>(expected: Option<T>, actual: T) {
    expected == None || expected == Some(actual)
  }

  predicate AddressIfAny(expected: Option<seq<byte>>) {
    expected.Some? ==> |expected.value| == 20 && exists k :: 0 <= k < 20 && expected.value[k] != 0
  }

  /** A canonical call is admitted exactly when: it carries no native value; it sells a positive amount for a
      positive minimum; the operator is the target, which is not the expected allowance target; the expected
      entry point and allowance target are one address; every other expectation is met, the minimum at
      least; and all actions are accepted, one of which settles. */
  lemma CallIsAdmittedExactly(c: Call, e: Expected, transactionValue: int)
    ensures ValuesAdmitted(c, e, transactionValue) <==>
              && transactionValue == 0 && 1 <= c.sellAmount && 1 <= c.minOutput && c.operator == c.target
              && AddressIfAny(e.entryPoint) && AddressIfAny(e.allowanceTarget) && e.allowanceTarget != Some(c.target)
              && (e.entryPoint != None && e.allowanceTarget != None ==> e.entryPoint == e.allowanceTarget)
              && AsExpected(e.sellToken, c.sellToken) && AsExpected(e.buyToken, c.buyToken)
              && AsExpected(e.sellAmount, c.sellAmount) && AsExpected(e.taker, c.recipient)
              && (e.minOutput.Some? ==> e.minOutput.value <= c.minOutput)
              && (forall p :: p in c.actions ==> ActionAccepted(p, e, 0))
              && (exists p :: p in c.actions && Settles(p))
  {
    AddressesFit(e.entryPoint);
    AddressesFit(e.allowanceTarget);
  }

  lemma AddressesFit(expected: Option<seq<byte>>)
    ensures (expected.Some? ==> IsAddress(expected.value)) <==> AddressIfAny(expected)
  {
  }

  lemma AdmittedActionIsAccepted(data: seq<byte>, e: Expected, transactionValue: int, p: seq<byte>)
    requires Admits(data, e, transactionValue) && p in CallOf(data).actions
    ensures ActionAccepted(p, e, 0)
  {
  }

  /** So in accepted calldata, a swap on a Uniswap V3 pool pays the taker, starts from the token sold, ends
      in the token bought, and keeps the minimum. */
  lemma SwapsAreBound(data: seq<byte>, e: Expected, transactionValue: int, p: seq<byte>, taker: seq<byte>,
      sellToken: seq<byte>, buyToken: seq<byte>, minimum: nat)
    requires Admits(data, e, transactionValue) && p in CallOf(data).actions
    requires 4 <= |p| && p[..4] == [0x8d, 0x68, 0xa1, 0x56]
    requires e.taker == Some(taker) && e.sellToken == Some(sellToken) && e.buyToken == Some(buyToken)
    requires e.minOutput == Some(minimum)
    ensures SwapIsFor(p, taker, sellToken, buyToken, minimum)
  {
    AdmittedActionIsAccepted(data, e, transactionValue, p);
    AcceptedSwapIsFor(p, e, taker, sellToken, buyToken, minimum);
  }

  predicate SwapIsFor(p: seq<byte>, taker: seq<byte>, sellToken: seq<byte>, buyToken: seq<byte>, minimum: nat) {
    && 164 <= |p| && 207 <= 164 + WordAt(p, 132) <= |p|
    && p[16..36] == taker && p[164..184] == sellToken
    && p[164 + WordAt(p, 132) - 20..164 + WordAt(p, 132)] == buyToken && minimum <= WordAt(p, 100)
  }

  lemma AcceptedSwapIsFor(p: seq<byte>, e: Expected, taker: seq<byte>, sellToken: seq<byte>, buyToken: seq<byte>, minimum: nat)
    requires ActionAccepted(p, e, 0) && 4 <= |p| && p[..4] == [0x8d, 0x68, 0xa1, 0x56]
    requires e.taker == Some(taker) && e.sellToken == Some(sellToken) && e.buyToken == Some(buyToken)
    requires e.minOutput == Some(minimum)
    ensures SwapIsFor(p, taker, sellToken, buyToken, minimum)
  {
    UniswapV3Exactly(p, e, 0);
    AddressLies(p, 4, taker);
    PathEnds(p, 164, WordAt(p, 132));
  }

  lemma AddressLies(p: seq<byte>, at: nat, a: seq<byte>)
    requires HoldsAddress(p, at, a)
    ensures p[at + 12..at + 32] == a
  {
    assert p[at + 12..at + 32] == p[at..at + 32][12..];
  }

  lemma PathEnds(p: seq<byte>, at: nat, n: nat)
    requires at + n <= |p| && 20 <= n
    ensures p[at..at + n][..20] == p[at..at + 20] && p[at..at + n][n - 20..] == p[at + n - 20..at + n]
  {
  }

  /** The payload of a swap in one hop. */
  ghost function Hop(taker: seq<byte>, proportion: nat, minimum: nat, sellToken: seq<byte>, fee: seq<byte>, buyToken: seq<byte>)
    : seq<byte>
  {
    var selector: seq<byte> := [0x8d, 0x68, 0xa1, 0x56];
    selector + (AddressWord(taker) + (Word(proportion) + (Word(128) + (Word(minimum) + EncodeBytes(sellToken + fee + buyToken)))))
  }

  /** And an honest one is accepted. */
  lemma HonestHopIsAccepted(taker: seq<byte>, proportion: nat, minimum: nat, sellToken: seq<byte>, fee: seq<byte>,
      buyToken: seq<byte>, e: Expected, transactionValue: nat)
    requires IsAddress(taker) && |sellToken| == |buyToken| == 20 && |fee| == 3
    requires proportion <= 1_000_000 && 1 <= minimum && FitsWord(minimum)
    requires AsExpected(e.taker, taker) && AsExpected(e.sellToken, sellToken) && AsExpected(e.buyToken, buyToken)
    requires e.minOutput.Some? ==> e.minOutput.value <= minimum
    ensures ActionAccepted(Hop(taker, proportion, minimum, sellToken, fee, buyToken), e, transactionValue)
  {
    var p, path := Hop(taker, proportion, minimum, sellToken, fee, buyToken), sellToken + fee + buyToken;
    HopLies(taker, proportion, minimum, sellToken, fee, buyToken);
    UniswapV3Exactly(p, e, transactionValue);
    assert path[..20] == sellToken && path[|path| - 20..] == buyToken;
  }

  lemma HopLies(taker: seq<byte>, proportion: nat, minimum: nat, sellToken: seq<byte>, fee: seq<byte>, buyToken: seq<byte>)
    requires IsAddress(taker) && |sellToken| == |buyToken| == 20 && |fee| == 3
    requires proportion <= 1_000_000 && FitsWord(minimum)
    ensures var p := Hop(taker, proportion, minimum, sellToken, fee, buyToken);
            && |p| == 228 && p[..4] == [0x8d, 0x68, 0xa1, 0x56] && HoldsAddress(p, 4, taker)
            && WordAt(p, 36) == proportion && WordAt(p, 68) == 128 && WordAt(p, 100) == minimum
            && EndsWithBytes(p, 132) && WordAt(p, 132) == 43 && p[164..207] == sellToken + fee + buyToken
  {
    var p, path := Hop(taker, proportion, minimum, sellToken, fee, buyToken), sellToken + fee + buyToken;
    PathEncoded(path);
    HopWords(p, AddressWord(taker), proportion, minimum, path);
    TwelveZeros();
  }

  lemma PathEncoded(path: seq<byte>)
    requires |path| == 43
    ensures EncodeBytes(path) == Word(43) + (path + Zeros(21))
  {
    assert Padded(43) == 64;
  }

  lemma TwelveZeros()
    ensures Zeros(12) == [0, 0, 0, 0, 0, 0, 0, 0, 0, 0, 0, 0]
  {
    assert Zeros(4) == [0, 0, 0, 0];
    assert Zeros(8) == Zeros(4) + [0, 0, 0, 0];
    assert Zeros(12) == Zeros(8) + [0, 0, 0, 0];
  }

  lemma HopWords(p: seq<byte>, first: seq<byte>, proportion: nat, minimum: nat, path: seq<byte>)
    requires |first| == 32 && |path| == 43 && FitsWord(proportion) && FitsWord(minimum)
    requires var selector: seq<byte> := [0x8d, 0x68, 0xa1, 0x56];
             p == selector + (first + (Word(proportion) + (Word(128) + (Word(minimum) + (Word(43) + (path + Zeros(21)))))))
    ensures |p| == 228 && p[..4] == [0x8d, 0x68, 0xa1, 0x56] && p[4..36] == first
    ensures WordAt(p, 36) == proportion && WordAt(p, 68) == 128 && WordAt(p, 100) == minimum
    ensures EndsWithBytes(p, 132) && WordAt(p, 132) == 43 && p[164..207] == path
  {
    var selector: seq<byte> := [0x8d, 0x68, 0xa1, 0x56];
    SevenHeld(p, selector, first, Word(proportion), Word(128), Word(minimum), Word(43), path + Zeros(21));
    assert p[0..4] == p[..4];
    WordHeld(p, 36, proportion);
    WordHeld(p, 68, 128);
    WordHeld(p, 100, minimum);
    PathLies(p, path);
  }

  lemma PathLies(p: seq<byte>, path: seq<byte>)
    requires |p| == 228 && |path| == 43 && Holds(p, 132, Word(43)) && p[164..] == path + Zeros(21)
    ensures EndsWithBytes(p, 132) && WordAt(p, 132) == 43 && p[164..207] == path
  {
    WordHeld(p, 132, 43);
    assert p[164..207] == p[164..][..43];
    assert p[207..228] == p[164..][43..];
    ZerosHeld(p, 207, 21);
  }
}
