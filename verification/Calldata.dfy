/** The strict decoder of AllowanceHolder.exec calldata that forwards to Settler.execute. It accepts
    exactly the canonical encodings (Solidity Contract ABI Specification, sections "Formal
    Specification of the Encoding" and "Strict Encoding Mode") of the calls it admits. */
module Calldata {
  import opened Outcomes
  import opened AbiWords
  import opened AbiArrays
  import opened SettlerActions

  const EXEC_SELECTOR: seq<byte> := [0x22, 0x13, 0xbc, 0x0b]
  const EXECUTE_SELECTOR: seq<byte> := [0x1f, 0xff, 0x99, 0x1f]

  /** The parts of a call. `unread` is the trailing bytes32 of Settler.execute. */
  datatype Call = Call(
    operator: seq<byte>, sellToken: seq<byte>, sellAmount: nat, target: seq<byte>, recipient: seq<byte>,
    buyToken: seq<byte>, minOutput: nat, unread: seq<byte>, actions: seq<seq<byte>>)

  /** What the decoder reports. */
  datatype Decoded = Decoded(
    operator: seq<byte>, sellToken: seq<byte>, sellAmount: nat, target: seq<byte>, recipient: seq<byte>,
    buyToken: seq<byte>, minOutput: nat, actionSelectors: seq<seq<byte>>)

  // ---------------------------------------------------------------------------------
  // The encoding
  // ---------------------------------------------------------------------------------

  ghost function AddressWord(a: seq<byte>): seq<byte> {
    Zeros(12) + a
  }

  ghost function EncodeInner(c: Call): seq<byte> {
    EXECUTE_SELECTOR + (AddressWord(c.recipient) + (AddressWord(c.buyToken) + (Word(c.minOutput)
      + (Word(160) + (c.unread + (Word(|c.actions|) + EncodeArray(c.actions)))))))
  }

  ghost function Encode(c: Call): seq<byte> {
    EXEC_SELECTOR + (AddressWord(c.operator) + (AddressWord(c.sellToken) + (Word(c.sellAmount)
      + (AddressWord(c.target) + (Word(160) + EncodeBytes(EncodeInner(c)))))))
  }

  /** The shape of a call: addresses, words, and between one and 64 actions. */
  ghost predicate WellFormed(c: Call) {
    && IsAddress(c.operator) && IsAddress(c.sellToken) && IsAddress(c.target)
    && IsAddress(c.recipient) && IsAddress(c.buyToken) && |c.unread| == 32
    && FitsWord(c.sellAmount) && FitsWord(c.minOutput) && 1 <= |c.actions| <= 64
    && FitsWord(|EncodeInner(c)|)
  }

  predicate Agrees<T(==)>(expected: Option<T>, actual: T) {
    expected.Some? ==> expected.value == actual
  }

  predicate ExpectationsFit(e: Expected) {
    && (e.entryPoint.Some? ==> IsAddress(e.entryPoint.value))
    && (e.allowanceTarget.Some? ==> IsAddress(e.allowanceTarget.value))
    && (e.entryPoint.Some? && e.allowanceTarget.Some? ==> e.entryPoint == e.allowanceTarget)
  }

  /** What the decoder demands of the values of a call. */
  ghost predicate ValuesAdmitted(c: Call, e: Expected, transactionValue: int) {
    && transactionValue == 0
    && 0 < c.sellAmount && c.operator == c.target && 0 < c.minOutput
    && ActionsSettle(c.actions, e)
    && ExpectationsFit(e) && e.allowanceTarget != Some(c.target)
    && Agrees(e.sellToken, c.sellToken) && Agrees(e.buyToken, c.buyToken)
    && Agrees(e.sellAmount, c.sellAmount) && Agrees(e.taker, c.recipient)
    && (e.minOutput.Some? ==> e.minOutput.value <= c.minOutput)
  }

  // ---------------------------------------------------------------------------------
  // What lies where
  // ---------------------------------------------------------------------------------

  lemma AddressHeld(data: seq<byte>, offset: nat, a: seq<byte>)
    requires IsAddress(a)
    ensures Holds(data, offset, AddressWord(a)) <==> AddressAt(data, offset) && AddressOf(data, offset) == a
  {
    HoldsBoth(data, offset, Zeros(12), a);
    ZerosHeld(data, offset, 12);
  }

  lemma SevenHeld(data: seq<byte>, p0: seq<byte>, p1: seq<byte>, p2: seq<byte>, p3: seq<byte>, p4: seq<byte>,
      p5: seq<byte>, rest: seq<byte>)
    requires |p0| == 4 && |p1| == |p2| == |p3| == |p4| == |p5| == 32
    ensures data == p0 + (p1 + (p2 + (p3 + (p4 + (p5 + rest))))) <==>
            && Holds(data, 0, p0) && Holds(data, 4, p1) && Holds(data, 36, p2) && Holds(data, 68, p3)
            && Holds(data, 100, p4) && Holds(data, 132, p5) && 164 <= |data| && data[164..] == rest
  {
  }

  lemma SuffixHeld(data: seq<byte>, at: nat, a: seq<byte>, b: seq<byte>)
    requires at <= |data|
    ensures data[at..] == a + b <==> at + |a| <= |data| && Holds(data, at, a) && data[at + |a|..] == b
  {
  }

  /** The forwarded bytes read as the inner part of the call. */
  ghost predicate InnerReads(inner: seq<byte>, c: Call) {
    && Holds(inner, 0, EXECUTE_SELECTOR)
    && AddressAt(inner, 4) && AddressOf(inner, 4) == c.recipient
    && AddressAt(inner, 36) && AddressOf(inner, 36) == c.buyToken
    && 196 <= |inner| && WordAt(inner, 68) == c.minOutput && WordAt(inner, 100) == 160
    && Holds(inner, 132, c.unread) && WordAt(inner, 164) == |c.actions|
    && ActionsRead(inner, c.actions)
  }

  ghost predicate ActionsRead(inner: seq<byte>, actions: seq<seq<byte>>) {
    ElementsAt(inner, 196, |actions|) && Dense(inner, 196, |actions|) && AreItems(inner, 196, actions)
  }

  lemma ActionsHeld(inner: seq<byte>, actions: seq<seq<byte>>)
    requires 196 <= |inner| && FitsWord(|inner|) && actions != []
    ensures inner[196..] == EncodeArray(actions) <==> ActionsRead(inner, actions)
  {
    if inner[196..] == EncodeArray(actions) {
      EncodingIsDense(inner, 196, actions);
    }
    if ActionsRead(inner, actions) {
      DenseIsEncoding(inner, 196, actions);
    }
  }

  lemma InnerHeld(inner: seq<byte>, c: Call)
    requires IsAddress(c.recipient) && IsAddress(c.buyToken) && |c.unread| == 32 && FitsWord(c.minOutput)
    requires 1 <= |c.actions| <= 64 && FitsWord(|inner|)
    ensures inner == EncodeInner(c) <==> InnerReads(inner, c)
  {
    var n := |c.actions|;
    SevenHeld(inner, EXECUTE_SELECTOR, AddressWord(c.recipient), AddressWord(c.buyToken), Word(c.minOutput), Word(160),
              c.unread, Word(n) + EncodeArray(c.actions));
    AddressHeld(inner, 4, c.recipient);
    AddressHeld(inner, 36, c.buyToken);
    WordHeld(inner, 68, c.minOutput);
    WordHeld(inner, 100, 160);
    if 164 <= |inner| { SuffixHeld(inner, 164, Word(n), EncodeArray(c.actions)); }
    WordHeld(inner, 164, n);
    if 196 <= |inner| { ActionsHeld(inner, c.actions); }
  }

  /** The calldata reads as the outer part of the call around the forwarded bytes. */
  ghost predicate OuterReads(data: seq<byte>, c: Call, inner: seq<byte>) {
    && Holds(data, 0, EXEC_SELECTOR)
    && AddressAt(data, 4) && AddressOf(data, 4) == c.operator
    && AddressAt(data, 36) && AddressOf(data, 36) == c.sellToken
    && 164 <= |data| && WordAt(data, 68) == c.sellAmount
    && AddressAt(data, 100) && AddressOf(data, 100) == c.target
    && WordAt(data, 132) == 160
    && BytesAt(data, 164) && BytesOf(data, 164) == inner && PaddedEnd(data, 164) == |data|
  }

  lemma OuterHeld(data: seq<byte>, c: Call, inner: seq<byte>)
    requires IsAddress(c.operator) && IsAddress(c.sellToken) && IsAddress(c.target)
    requires FitsWord(c.sellAmount) && FitsWord(|inner|) && inner == EncodeInner(c)
    ensures data == Encode(c) <==> OuterReads(data, c, inner)
  {
    SevenHeld(data, EXEC_SELECTOR, AddressWord(c.operator), AddressWord(c.sellToken), Word(c.sellAmount),
              AddressWord(c.target), Word(160), EncodeBytes(inner));
    AddressHeld(data, 4, c.operator);
    AddressHeld(data, 36, c.sellToken);
    WordHeld(data, 68, c.sellAmount);
    AddressHeld(data, 100, c.target);
    WordHeld(data, 132, 160);
    if 164 <= |data| { HoldsSuffix(data, 164, EncodeBytes(inner)); }
    BytesHeld(data, 164, inner);
  }

  // ---------------------------------------------------------------------------------
  // What the decoder accepts
  // ---------------------------------------------------------------------------------

  predicate OuterShape(data: seq<byte>) {
    && 164 <= |data| && data[..4] == EXEC_SELECTOR
    && AddressAt(data, 4) && AddressAt(data, 36) && AddressAt(data, 100) && WordAt(data, 132) == 160
    && BytesAt(data, 164) && PaddedEnd(data, 164) == |data|
  }

  predicate InnerShape(inner: seq<byte>) {
    && 196 <= |inner| && inner[..4] == EXECUTE_SELECTOR
    && AddressAt(inner, 4) && AddressAt(inner, 36) && WordAt(inner, 100) == 160
    && 1 <= WordAt(inner, 164) <= 64
    && ElementsAt(inner, 196, WordAt(inner, 164)) && Dense(inner, 196, WordAt(inner, 164))
  }

  predicate Shaped(data: seq<byte>) {
    OuterShape(data) && InnerShape(BytesOf(data, 164))
  }

  /** The parts, read from where they must lie. */
  function CallOf(data: seq<byte>): Call
    requires Shaped(data)
  {
    var inner := BytesOf(data, 164);
    Call(AddressOf(data, 4), AddressOf(data, 36), WordAt(data, 68), AddressOf(data, 100), AddressOf(inner, 4),
         AddressOf(inner, 36), WordAt(inner, 68), inner[132..164], Items(inner, 196, WordAt(inner, 164)))
  }

  lemma ShapedReads(data: seq<byte>)
    requires Shaped(data)
    ensures InnerReads(BytesOf(data, 164), CallOf(data)) && OuterReads(data, CallOf(data), BytesOf(data, 164))
  {
    assert data[0..4] == data[..4];
    var inner := BytesOf(data, 164);
    assert inner[0..4] == inner[..4];
  }

  /** Accepted calldata is, byte for byte, the canonical encoding of its parts: no gap, no overlap,
      no padding other than zeros, nothing behind it. */
  lemma ShapedIsCanonical(data: seq<byte>)
    requires Shaped(data)
    ensures WellFormed(CallOf(data)) && data == Encode(CallOf(data))
  {
    var inner, c := BytesOf(data, 164), CallOf(data);
    ShapedReads(data);
    WordAtFits(data, 68);
    WordAtFits(data, 164);
    WordAtFits(inner, 68);
    InnerHeld(inner, c);
    OuterHeld(data, c, inner);
  }

  lemma InnerReadsShaped(inner: seq<byte>, c: Call)
    requires InnerReads(inner, c) && |c.unread| == 32 && 1 <= |c.actions| <= 64
    ensures InnerShape(inner)
    ensures inner[132..164] == c.unread && Items(inner, 196, WordAt(inner, 164)) == c.actions
  {
  }

  lemma OuterReadsShaped(data: seq<byte>, c: Call, inner: seq<byte>)
    requires OuterReads(data, c, inner)
    ensures OuterShape(data) && BytesOf(data, 164) == inner
  {
  }

  /** The canonical encoding of any well-formed call has the shape, and reads back as that call. */
  lemma CanonicalIsShaped(data: seq<byte>, c: Call)
    requires WellFormed(c) && data == Encode(c)
    ensures Shaped(data) && CallOf(data) == c
  {
    var inner := EncodeInner(c);
    InnerHeld(inner, c);
    OuterHeld(data, c, inner);
    InnerReadsShaped(inner, c);
    OuterReadsShaped(data, c, inner);
  }

  /** Equal bytes come from equal parts: nothing in the calldata is left unread or ambiguous. */
  lemma EncodingIsInjective(c1: Call, c2: Call)
    requires WellFormed(c1) && WellFormed(c2) && Encode(c1) == Encode(c2)
    ensures c1 == c2
  {
    CanonicalIsShaped(Encode(c1), c1);
    CanonicalIsShaped(Encode(c2), c2);
  }

  ghost predicate Admits(data: seq<byte>, e: Expected, transactionValue: int) {
    Shaped(data) && ValuesAdmitted(CallOf(data), e, transactionValue)
  }

  lemma AdmitsExactlyEncodings(data: seq<byte>, e: Expected, transactionValue: int)
    ensures Admits(data, e, transactionValue) <==>
            exists c :: WellFormed(c) && ValuesAdmitted(c, e, transactionValue) && data == Encode(c)
  {
    if Admits(data, e, transactionValue) {
      ShapedIsCanonical(data);
    }
    if c :| WellFormed(c) && ValuesAdmitted(c, e, transactionValue) && data == Encode(c) {
      CanonicalIsShaped(data, c);
    }
  }

  // ---------------------------------------------------------------------------------
  // The decoder
  // ---------------------------------------------------------------------------------

  /** Element `i` of the actions is in place and its payload is accepted. */
  predicate ActionAdmitted(inner: seq<byte>, i: nat, e: Expected, transactionValue: nat) {
    && 196 + 32 * i + 32 <= |inner|
    && BytesAt(inner, Start(inner, 196, i))
    && ActionAccepted(BytesOf(inner, Start(inner, 196, i)), e, transactionValue)
  }

  /** The first four bytes of the payload of element `i`. */
  predicate IsSelector(inner: seq<byte>, i: nat, selector: seq<byte>) {
    && 196 + 32 * i + 32 <= |inner|
    && BytesAt(inner, Start(inner, 196, i)) && 4 <= |BytesOf(inner, Start(inner, 196, i))|
    && selector == BytesOf(inner, Start(inner, 196, i))[..4]
  }

  predicate ActionsAdmitted(inner: seq<byte>, e: Expected, transactionValue: nat) {
    && 196 <= |inner| && 1 <= WordAt(inner, 164) <= 64
    && ElementsAt(inner, 196, WordAt(inner, 164)) && Dense(inner, 196, WordAt(inner, 164))
    && forall i :: 0 <= i < WordAt(inner, 164) ==> ActionAdmitted(inner, i, e, transactionValue)
  }

  /** Density alone makes every offset a multiple of the word size that lies behind the head, and
      the starts strictly increasing. */
  lemma DenseOffsets(inner: seq<byte>, count: nat, i: nat)
    requires ElementsAt(inner, 196, count) && Dense(inner, 196, count) && i < count
    ensures WordAt(inner, 196 + 32 * i) % 32 == 0 && 32 * count <= WordAt(inner, 196 + 32 * i)
  {
    var items := Items(inner, 196, count);
    OffsetIs(inner, items, i, WordAt(inner, 196 + 32 * i));
    OffsetAligned(items, i);
  }

  lemma OffsetIs(inner: seq<byte>, items: seq<seq<byte>>, i: nat, offset: nat)
    requires ElementsAt(inner, 196, |items|) && Dense(inner, 196, |items|) && AreItems(inner, 196, items)
    requires i < |items| && offset == WordAt(inner, 196 + 32 * i)
    ensures offset == Offset(items, i)
  {
    DenseStarts(inner, 196, items, i);
    assert Start(inner, 196, i) == 196 + offset;
  }

  lemma StaysAligned(a: nat, b: nat, next: nat, least: nat)
    requires a % 32 == 0 && b % 32 == 0 && next == a + 32 + b && least <= a
    ensures next % 32 == 0 && least <= next
  {
  }

  lemma HeadIsAligned(items: seq<seq<byte>>)
    ensures Offset(items, 0) % 32 == 0 && Offset(items, 0) == 32 * |items|
  {
    assert Position(Slots(items), 0) == 0;
  }

  lemma {:induction false} OffsetAligned(items: seq<seq<byte>>, i: nat)
    requires i <= |items|
    ensures Offset(items, i) % 32 == 0 && 32 * |items| <= Offset(items, i)
  {
    if i == 0 {
      HeadIsAligned(items);
    } else {
      OffsetAligned(items, i - 1);
      OffsetStep(items, i - 1);
      PaddedIsAligned(|items[i - 1]|);
      StaysAligned(Offset(items, i - 1), Padded(|items[i - 1]|), Offset(items, i), 32 * |items|);
    }
  }

  lemma {:induction false} OffsetsIncrease(items: seq<seq<byte>>, i: nat, j: nat)
    requires i < j <= |items|
    ensures Offset(items, i) < Offset(items, j)
    decreases j
  {
    OffsetStep(items, j - 1);
    if i < j - 1 { OffsetsIncrease(items, i, j - 1); }
  }

  lemma DenseStartsIncrease(inner: seq<byte>, count: nat, i: nat, j: nat)
    requires ElementsAt(inner, 196, count) && Dense(inner, 196, count) && i < j < count
    ensures Start(inner, 196, i) < Start(inner, 196, j)
  {
    var items := Items(inner, 196, count);
    DenseStarts(inner, 196, items, i);
    DenseStarts(inner, 196, items, j);
    OffsetsIncrease(items, i, j);
  }

  /** The offset of element `i` is a multiple of the word size and points behind the head. */
  predicate OffsetFits(inner: seq<byte>, i: nat, count: nat)
    requires 196 + 32 * i + 32 <= |inner|
  {
    WordAt(inner, 196 + 32 * i) % 32 == 0 && 32 * count <= WordAt(inner, 196 + 32 * i)
  }

  /** Reads one action through its offset, wherever that points: where it starts, and its selector. */
  method ReadAction(inner: seq<byte>, index: nat, count: nat, e: Expected, transactionValue: nat)
      returns (r: Option<(nat, seq<byte>)>)
    requires 196 + 32 * index + 32 <= |inner|
    ensures r.Some? <==> OffsetFits(inner, index, count) && ActionAdmitted(inner, index, e, transactionValue)
    ensures r.Some? ==> r.value.0 == Start(inner, 196, index) && IsSelector(inner, index, r.value.1)
  {
    var relative := WordAt(inner, 196 + 32 * index);
    if relative % 32 != 0 || relative < 32 * count {
      return None;
    }
    var start := 196 + relative;
    if !BytesAt(inner, start) {
      return None;
    }
    var payload := BytesOf(inner, start);
    if !ActionAccepted(payload, e, transactionValue) {
      return None;
    }
    return Some((start, payload[..4]));
  }

  method ReadActions(inner: seq<byte>, count: nat, e: Expected, transactionValue: nat)
      returns (ok: bool, starts: seq<nat>, selectors: seq<seq<byte>>)
    requires 196 + 32 * count <= |inner|
    ensures ok <==> forall i :: 0 <= i < count ==> OffsetFits(inner, i, count) && ActionAdmitted(inner, i, e, transactionValue)
    ensures ok ==> |starts| == |selectors| == count
    ensures ok ==> forall i :: 0 <= i < count ==> starts[i] == Start(inner, 196, i)
    ensures ok ==> forall i :: 0 <= i < count ==> IsSelector(inner, i, selectors[i])
  {
    starts, selectors := [], [];
    for index := 0 to count
      invariant |starts| == |selectors| == index
      invariant forall i :: 0 <= i < index ==> OffsetFits(inner, i, count) && ActionAdmitted(inner, i, e, transactionValue)
      invariant forall i :: 0 <= i < index ==> starts[i] == Start(inner, 196, i)
      invariant forall i :: 0 <= i < index ==> IsSelector(inner, i, selectors[i])
    {
      var action := ReadAction(inner, index, count, e, transactionValue);
      if action.None? {
        return false, starts, selectors;
      }
      starts := starts + [action.value.0];
      selectors := selectors + [action.value.1];
    }
    ok := true;
  }

  lemma DisorderIsNotDense(inner: seq<byte>, starts: seq<nat>)
    requires ElementsAt(inner, 196, |starts|)
    requires forall i :: 0 <= i < |starts| ==> starts[i] == Start(inner, 196, i)
    requires exists i, j :: 0 <= i < j < |starts| && starts[j] <= starts[i]
    ensures !Dense(inner, 196, |starts|)
  {
    var i, j :| 0 <= i < j < |starts| && starts[j] <= starts[i];
    if Dense(inner, 196, |starts|) {
      DenseStartsIncrease(inner, |starts|, i, j);
    }
  }

  /** Whether the elements that were read lie densely: in strictly increasing order, the first one
      right behind the head, each where the one before it ends, and nothing behind the last. */
  method LieDensely(inner: seq<byte>, starts: seq<nat>) returns (ok: bool)
    requires 0 < |starts| && ElementsAt(inner, 196, |starts|)
    requires forall i :: 0 <= i < |starts| ==> starts[i] == Start(inner, 196, i)
    ensures ok <==> Dense(inner, 196, |starts|)
  {
    var count := |starts|;
    if exists i, j | 0 <= i < j < count :: starts[j] <= starts[i] {
      DisorderIsNotDense(inner, starts);
      return false;
    }
    if starts[0] != 196 + 32 * count {
      return false;
    }
    var following := EndAtTheNext(inner, starts);
    return following && PaddedEnd(inner, starts[count - 1]) == |inner|;
  }

  /** Whether every element but the last ends where the next one was found to start. */
  method EndAtTheNext(inner: seq<byte>, starts: seq<nat>) returns (ok: bool)
    requires 0 < |starts| && ElementsAt(inner, 196, |starts|)
    requires forall i :: 0 <= i < |starts| ==> starts[i] == Start(inner, 196, i)
    ensures ok <==> forall i :: 0 <= i < |starts| - 1 ==> Adjacent(inner, 196, i)
  {
    for index := 0 to |starts| - 1
      invariant forall i :: 0 <= i < index ==> Adjacent(inner, 196, i)
    {
      assert starts[index] == Start(inner, 196, index) && starts[index + 1] == Start(inner, 196, index + 1);
      assert BytesAt(inner, starts[index]);
      if PaddedEnd(inner, starts[index]) != starts[index + 1] {
        assert !Adjacent(inner, 196, index);
        return false;
      }
    }
    return true;
  }

  /** The selectors of the actions, when all of them are accepted and the array is canonical. */
  method DecodeActions(inner: seq<byte>, offset: nat, e: Expected, transactionValue: nat)
      returns (r: Option<seq<seq<byte>>>)
    ensures r.Some? <==> offset == 160 && ActionsAdmitted(inner, e, transactionValue)
    ensures r.Some? ==> |r.value| == WordAt(inner, 164)
    ensures r.Some? ==> forall i :: 0 <= i < |r.value| ==> IsSelector(inner, i, r.value[i])
  {
    if offset != 160 || |inner| < 196 {
      return None;
    }
    var count := WordAt(inner, 164);
    if count == 0 || 64 < count || |inner| < 196 + 32 * count {
      return None;
    }
    var ok, starts, selectors := ReadActions(inner, count, e, transactionValue);
    if !ok {
      RefusedActions(inner, count, e, transactionValue);
      return None;
    }
    AdmittedElements(inner, count, e, transactionValue);
    var dense := LieDensely(inner, starts);
    return if dense then Some(selectors) else None;
  }

  lemma RefusedActions(inner: seq<byte>, count: nat, e: Expected, transactionValue: nat)
    requires 196 + 32 * count <= |inner| && count == WordAt(inner, 164)
    requires !forall i :: 0 <= i < count ==> OffsetFits(inner, i, count) && ActionAdmitted(inner, i, e, transactionValue)
    ensures !ActionsAdmitted(inner, e, transactionValue)
  {
    var i :| 0 <= i < count && !(OffsetFits(inner, i, count) && ActionAdmitted(inner, i, e, transactionValue));
    if ActionsAdmitted(inner, e, transactionValue) {
      DenseOffsets(inner, count, i);
    }
  }

  lemma AdmittedElements(inner: seq<byte>, count: nat, e: Expected, transactionValue: nat)
    requires 196 + 32 * count <= |inner|
    requires forall i :: 0 <= i < count ==> ActionAdmitted(inner, i, e, transactionValue)
    ensures ElementsAt(inner, 196, count)
  {
    forall i | 0 <= i < count ensures BytesAt(inner, Start(inner, 196, i)) {
      assert ActionAdmitted(inner, i, e, transactionValue);
    }
  }

  /** The elements of the forwarded actions, read from where they must lie. */
  function ActionsOf(inner: seq<byte>): (r: seq<seq<byte>>)
    requires InnerShape(inner)
    ensures |r| == WordAt(inner, 164) && AreItems(inner, 196, r)
  {
    Items(inner, 196, WordAt(inner, 164))
  }

  lemma AdmittedPayload(inner: seq<byte>, i: nat, e: Expected, transactionValue: nat)
    requires InnerShape(inner) && i < WordAt(inner, 164)
    ensures ActionAdmitted(inner, i, e, transactionValue) <==> ActionAccepted(ActionsOf(inner)[i], e, transactionValue)
  {
  }

  lemma AdmittedPayloads(inner: seq<byte>, e: Expected, transactionValue: nat)
    requires InnerShape(inner)
    ensures ActionsAdmitted(inner, e, transactionValue)
       <==> forall p :: p in ActionsOf(inner) ==> ActionAccepted(p, e, transactionValue)
  {
    var actions := ActionsOf(inner);
    forall i | 0 <= i < |actions|
      ensures ActionAdmitted(inner, i, e, transactionValue) <==> ActionAccepted(actions[i], e, transactionValue)
    {
      AdmittedPayload(inner, i, e, transactionValue);
    }
    assert (forall p :: p in actions ==> ActionAccepted(p, e, transactionValue))
      <==> (forall i :: 0 <= i < |actions| ==> ActionAccepted(actions[i], e, transactionValue));
  }

  /** The selectors are the first four bytes of the payloads. */
  ghost predicate SelectorsOf(selectors: seq<seq<byte>>, actions: seq<seq<byte>>) {
    && |selectors| == |actions|
    && forall i :: 0 <= i < |actions| ==> 4 <= |actions[i]| && selectors[i] == actions[i][..4]
  }

  lemma SelectorsAreRead(inner: seq<byte>, selectors: seq<seq<byte>>)
    requires InnerShape(inner) && |selectors| == WordAt(inner, 164)
    requires forall i :: 0 <= i < |selectors| ==> IsSelector(inner, i, selectors[i])
    ensures SelectorsOf(selectors, ActionsOf(inner))
  {
    var actions := ActionsOf(inner);
    forall i | 0 <= i < |actions| ensures 4 <= |actions[i]| && selectors[i] == actions[i][..4] {
      assert IsSelector(inner, i, selectors[i]);
      assert actions[i] == BytesOf(inner, Start(inner, 196, i));
    }
  }

  lemma SomeSelectorSettles(selectors: seq<seq<byte>>, actions: seq<seq<byte>>)
    requires SelectorsOf(selectors, actions)
    ensures (exists s :: s in selectors && SelectorSettles(s)) <==> exists p :: p in actions && Settles(p)
  {
    if s :| s in selectors && SelectorSettles(s) {
      var i :| 0 <= i < |selectors| && selectors[i] == s;
      assert Settles(actions[i]);
    }
    if p :| p in actions && Settles(p) {
      var i :| 0 <= i < |actions| && actions[i] == p;
      assert selectors[i] in selectors;
    }
  }

  /** What the decoder demands of the forwarded actions. */
  ghost predicate ActionsSettle(actions: seq<seq<byte>>, e: Expected) {
    && (forall p :: p in actions ==> ActionAccepted(p, e, 0))
    && (exists p :: p in actions && Settles(p))
  }

  /** What comes before the actions. */
  predicate InnerHeadShape(inner: seq<byte>) {
    164 <= |inner| && inner[..4] == EXECUTE_SELECTOR && AddressAt(inner, 4) && AddressAt(inner, 36)
  }

  lemma InnerAdmittedMeans(inner: seq<byte>, e: Expected)
    requires InnerHeadShape(inner)
    ensures WordAt(inner, 100) == 160 && ActionsAdmitted(inner, e, 0) <==>
            InnerShape(inner) && forall p :: p in ActionsOf(inner) ==> ActionAccepted(p, e, 0)
  {
    if InnerShape(inner) { AdmittedPayloads(inner, e, 0); }
  }

  /** The selectors of the forwarded actions, when the forwarded bytes have the canonical shape, a
      positive minimum output, and acceptable actions one of which settles. */
  method DecodeInner(inner: seq<byte>, e: Expected) returns (r: Option<seq<seq<byte>>>)
    ensures r.Some? <==> InnerShape(inner) && 0 < WordAt(inner, 68) && ActionsSettle(ActionsOf(inner), e)
    ensures r.Some? ==> SelectorsOf(r.value, ActionsOf(inner))
  {
    if !InnerHeadShape(inner) || WordAt(inner, 68) == 0 {
      return None;
    }
    r := DecodeActions(inner, WordAt(inner, 100), e, 0);
    InnerAdmittedMeans(inner, e);
    if r.None? {
      return None;
    }
    SelectorsAreRead(inner, r.value);
    SomeSelectorSettles(r.value, ActionsOf(inner));
    if !exists s | s in r.value :: SelectorSettles(s) {
      return None;
    }
  }

  /** The report names the parts of the call. */
  ghost predicate Reports(d: Decoded, c: Call) {
    && d.operator == c.operator && d.sellToken == c.sellToken && d.sellAmount == c.sellAmount
    && d.target == c.target && d.recipient == c.recipient && d.buyToken == c.buyToken && d.minOutput == c.minOutput
    && SelectorsOf(d.actionSelectors, c.actions)
  }

  predicate ExpectationsMet(d: Decoded, e: Expected) {
    && ExpectationsFit(e) && e.allowanceTarget != Some(d.target)
    && Agrees(e.sellToken, d.sellToken) && Agrees(e.buyToken, d.buyToken)
    && Agrees(e.sellAmount, d.sellAmount) && Agrees(e.taker, d.recipient)
    && (e.minOutput.Some? ==> e.minOutput.value <= d.minOutput)
  }

  lemma ForwardedPartsLie(data: seq<byte>, inner: seq<byte>)
    requires BytesAt(data, 164) && inner == BytesOf(data, 164) && 100 <= |inner|
    ensures inner[16..36] == data[212..232] && inner[48..68] == data[244..264] && WordAt(inner, 68) == WordAt(data, 264)
  {
    assert inner == data[..196 + |inner|][196..];
    WordBehind(data[..196 + |inner|], 196, 68);
    WordAhead(data, 264, 196 + |inner|);
  }

  /** Decodes the calldata and binds it to the expectations. */
  method Decode(data: seq<byte>, e: Expected, transactionValue: int) returns (r: Result<Decoded>)
    ensures r.Ok? <==> Admits(data, e, transactionValue)
    ensures r.Ok? ==> Reports(r.value, CallOf(data))
    ensures r.Ok? ==>
              && 196 <= |data| && r.value.operator == r.value.target == data[16..36] == data[112..132]
              && r.value.sellToken == data[48..68] && r.value.sellAmount == WordAt(data, 68)
              && r.value.recipient == data[212..232] && r.value.buyToken == data[244..264]
              && r.value.minOutput == WordAt(data, 264)
  {
    if transactionValue != 0 || !OuterShape(data) {
      return Refused(Malformed);
    }
    var sellAmount, operator, target := WordAt(data, 68), AddressOf(data, 4), AddressOf(data, 100);
    if sellAmount == 0 || operator != target {
      return Refused(Malformed);
    }
    var inner := BytesOf(data, 164);
    var selectors := DecodeInner(inner, e);
    if selectors.None? {
      assert Shaped(data) ==> CallOf(data).actions == ActionsOf(inner);
      return Refused(Malformed);
    }
    var decoded := Decoded(operator, AddressOf(data, 36), sellAmount, target, AddressOf(inner, 4), AddressOf(inner, 36),
                           WordAt(inner, 68), selectors.value);
    assert CallOf(data).actions == ActionsOf(inner);
    if !ExpectationsMet(decoded, e) {
      return Refused(Malformed);
    }
    ForwardedPartsLie(data, inner);
    return Ok(decoded);
  }

  /** The decoder accepts exactly the canonical encodings of admitted calls, and what it reports is
      the one call the bytes encode. */
  lemma DecodesExactlyCanonicalCalls(data: seq<byte>, e: Expected, transactionValue: int)
    ensures Admits(data, e, transactionValue) <==>
            exists c :: WellFormed(c) && ValuesAdmitted(c, e, transactionValue) && data == Encode(c)
    ensures Admits(data, e, transactionValue) ==> forall c :: WellFormed(c) && data == Encode(c) ==> c == CallOf(data)
  {
    AdmitsExactlyEncodings(data, e, transactionValue);
    forall c | WellFormed(c) && data == Encode(c) ensures Shaped(data) && c == CallOf(data) {
      CanonicalIsShaped(data, c);
    }
  }
}
