/** Arrays of dynamic bytes: a head of offsets, relative to the start of the head, and the elements
    packed behind it without gap or overlap. */
module AbiArrays {
  import opened AbiWords

  // ---------------------------------------------------------------------------------
  // Chunks laid end to end
  // ---------------------------------------------------------------------------------

  function ConcatTo(chunks: seq<seq<byte>>, k: nat): seq<byte>
    requires k <= |chunks|
  {
    if k == 0 then [] else ConcatTo(chunks, k - 1) + chunks[k - 1]
  }

  function Position(chunks: seq<seq<byte>>, i: nat): nat
    requires i <= |chunks|
  {
    |ConcatTo(chunks, i)|
  }

  /** Chunk `i` lies in the data at its position behind `at`. */
  ghost predicate ChunkHeld(data: seq<byte>, at: nat, chunks: seq<seq<byte>>, i: nat)
    requires i < |chunks|
  {
    Holds(data, at + Position(chunks, i), chunks[i])
  }

  ghost predicate AllHeld(data: seq<byte>, at: nat, chunks: seq<seq<byte>>) {
    forall i :: 0 <= i < |chunks| ==> ChunkHeld(data, at, chunks, i)
  }

  /** Chunks laid end to end are in place exactly when each of them is. */
  lemma {:induction false} ChunksHeld(data: seq<byte>, at: nat, chunks: seq<seq<byte>>, k: nat)
    requires k <= |chunks| && at <= |data|
    ensures Holds(data, at, ConcatTo(chunks, k)) <==> forall i :: 0 <= i < k ==> ChunkHeld(data, at, chunks, i)
  {
    if k != 0 {
      ChunksHeld(data, at, chunks, k - 1);
      HoldsBoth(data, at, ConcatTo(chunks, k - 1), chunks[k - 1]);
      assert ChunkHeld(data, at, chunks, k - 1) <==> Holds(data, at + Position(chunks, k - 1), chunks[k - 1]);
      assert ConcatTo(chunks, k) == ConcatTo(chunks, k - 1) + chunks[k - 1];
    }
  }

  lemma {:induction false} PositionsGrow(chunks: seq<seq<byte>>, i: nat, k: nat)
    requires i <= k <= |chunks|
    ensures Position(chunks, i) <= Position(chunks, k)
    ensures i < k ==> Position(chunks, i) + |chunks[i]| <= Position(chunks, k)
  {
    if i < k { PositionsGrow(chunks, i, k - 1); }
  }

  lemma {:induction false} WordPositions(chunks: seq<seq<byte>>, k: nat)
    requires k <= |chunks| && forall i :: 0 <= i < |chunks| ==> |chunks[i]| == 32
    ensures Position(chunks, k) == 32 * k
  {
    if k != 0 { WordPositions(chunks, k - 1); }
  }

  // ---------------------------------------------------------------------------------
  // The encoding
  // ---------------------------------------------------------------------------------

  ghost function Slots(items: seq<seq<byte>>): (r: seq<seq<byte>>)
    ensures |r| == |items| && forall i :: 0 <= i < |r| ==> r[i] == EncodeBytes(items[i])
  {
    seq(|items|, i requires 0 <= i < |items| => EncodeBytes(items[i]))
  }

  /** Where element `i` starts, counted from the start of the head. */
  ghost function Offset(items: seq<seq<byte>>, i: nat): nat
    requires i <= |items|
  {
    32 * |items| + Position(Slots(items), i)
  }

  ghost function Heads(items: seq<seq<byte>>): (r: seq<seq<byte>>)
    ensures |r| == |items| && forall i :: 0 <= i < |r| ==> r[i] == Word(Offset(items, i))
  {
    seq(|items|, i requires 0 <= i < |items| => Word(Offset(items, i)))
  }

  ghost function EncodeArray(items: seq<seq<byte>>): seq<byte> {
    ConcatTo(Heads(items), |items|) + ConcatTo(Slots(items), |items|)
  }

  // ---------------------------------------------------------------------------------
  // The reader
  // ---------------------------------------------------------------------------------

  /** Where the offset in the head at `body` places element `i`. */
  function Start(data: seq<byte>, body: nat, i: nat): nat
    requires body + 32 * i + 32 <= |data|
  {
    body + WordAt(data, body + 32 * i)
  }

  predicate ElementsAt(data: seq<byte>, body: nat, count: nat) {
    body + 32 * count <= |data| && forall i :: 0 <= i < count ==> BytesAt(data, Start(data, body, i))
  }

  /** Element `i + 1` starts where element `i` ends. */
  predicate Adjacent(data: seq<byte>, body: nat, i: nat)
    requires body + 32 * i + 64 <= |data| && BytesAt(data, Start(data, body, i))
  {
    PaddedEnd(data, Start(data, body, i)) == Start(data, body, i + 1)
  }

  /** The elements follow the head and each other directly, and the last one ends the data. */
  predicate Dense(data: seq<byte>, body: nat, count: nat)
    requires ElementsAt(data, body, count)
  {
    && 0 < count
    && Start(data, body, 0) == body + 32 * count
    && (forall i :: 0 <= i < count - 1 ==> Adjacent(data, body, i))
    && PaddedEnd(data, Start(data, body, count - 1)) == |data|
  }

  ghost predicate AreItems(data: seq<byte>, body: nat, items: seq<seq<byte>>)
    requires ElementsAt(data, body, |items|)
  {
    forall i :: 0 <= i < |items| ==> items[i] == BytesOf(data, Start(data, body, i))
  }

  function Items(data: seq<byte>, body: nat, count: nat): (r: seq<seq<byte>>)
    requires ElementsAt(data, body, count)
    ensures |r| == count && AreItems(data, body, r)
  {
    seq(count, i requires 0 <= i < count => BytesOf(data, Start(data, body, i)))
  }

  // ---------------------------------------------------------------------------------
  // What is dense is the encoding of its elements, and conversely
  // ---------------------------------------------------------------------------------

  lemma TwoRuns(data: seq<byte>, body: nat, heads: seq<seq<byte>>, slots: seq<seq<byte>>, n: nat)
    requires n == |heads| == |slots| && body + 32 * n + Position(slots, n) == |data|
    requires forall i :: 0 <= i < |heads| ==> |heads[i]| == 32
    ensures data[body..] == ConcatTo(heads, n) + ConcatTo(slots, n)
       <==> AllHeld(data, body, heads) && AllHeld(data, body + 32 * n, slots)
  {
    WordPositions(heads, n);
    var a, b := ConcatTo(heads, n), ConcatTo(slots, n);
    assert |a + b| == 32 * n + |b|;
    HoldsSuffix(data, body, a + b);
    HoldsBoth(data, body, a, b);
    ChunksHeld(data, body, heads, n);
    ChunksHeld(data, body + 32 * n, slots, n);
  }

  /** The data from `body` on is the encoding of the elements exactly when every element lies at its
      canonical offset and its head word names that offset. */
  lemma EncodedMeansPlaced(data: seq<byte>, body: nat, items: seq<seq<byte>>)
    requires body + Offset(items, |items|) == |data|
    ensures data[body..] == EncodeArray(items)
       <==> AllHeld(data, body, Heads(items)) && AllHeld(data, body + 32 * |items|, Slots(items))
  {
    var heads, slots, n := Heads(items), Slots(items), |items|;
    assert EncodeArray(items) == ConcatTo(heads, n) + ConcatTo(slots, n);
    TwoRuns(data, body, heads, slots, n);
  }

  /** A head word is in place when it reads as the canonical offset. */
  lemma HeadReads(data: seq<byte>, body: nat, items: seq<seq<byte>>, i: nat)
    requires i < |items| && FitsWord(Offset(items, i)) && body + 32 * i + 32 <= |data|
    ensures ChunkHeld(data, body, Heads(items), i) <==> WordAt(data, body + 32 * i) == Offset(items, i)
  {
    WordPositions(Heads(items), i);
    WordHeld(data, body + 32 * i, Offset(items, i));
  }

  /** An element is in place when it reads back at its canonical offset. */
  lemma SlotReads(data: seq<byte>, body: nat, items: seq<seq<byte>>, i: nat)
    requires i < |items| && FitsWord(|items[i]|)
    ensures ChunkHeld(data, body + 32 * |items|, Slots(items), i) <==>
            BytesAt(data, body + Offset(items, i)) && BytesOf(data, body + Offset(items, i)) == items[i]
    ensures ChunkHeld(data, body + 32 * |items|, Slots(items), i) ==>
            PaddedEnd(data, body + Offset(items, i)) == body + Offset(items, i + 1)
  {
    var at := body + Offset(items, i);
    assert at == body + 32 * |items| + Position(Slots(items), i);
    assert ChunkHeld(data, body + 32 * |items|, Slots(items), i) <==> Holds(data, at, EncodeBytes(items[i]));
    BytesHeld(data, at, items[i]);
  }

  lemma OffsetStep(items: seq<seq<byte>>, i: nat)
    requires i < |items|
    ensures Offset(items, i + 1) == Offset(items, i) + 32 + Padded(|items[i]|)
    ensures Offset(items, 0) == 32 * |items|
  {
  }

  lemma EndsAtNext(data: seq<byte>, body: nat, items: seq<seq<byte>>, i: nat, start: nat)
    requires i < |items| && BytesAt(data, start) && items[i] == BytesOf(data, start) && start == body + Offset(items, i)
    ensures PaddedEnd(data, start) == body + Offset(items, i + 1)
  {
    OffsetStep(items, i);
    assert |items[i]| == WordAt(data, start);
  }

  /** Where the element before ends at its canonical offset, element `i` starts there. */
  predicate Reached(data: seq<byte>, body: nat, i: nat, place: nat) {
    && body + 32 * i <= |data|
    && (0 < i ==> BytesAt(data, Start(data, body, i - 1)) && PaddedEnd(data, Start(data, body, i - 1)) == place)
  }

  lemma StartsAtOffset(data: seq<byte>, body: nat, items: seq<seq<byte>>, i: nat)
    requires ElementsAt(data, body, |items|) && Dense(data, body, |items|) && i < |items|
    requires Reached(data, body, i, body + Offset(items, i))
    ensures Start(data, body, i) == body + Offset(items, i)
  {
    if i == 0 {
      OffsetStep(items, 0);
    } else {
      assert Adjacent(data, body, i - 1);
    }
  }

  lemma {:induction false} DenseReaches(data: seq<byte>, body: nat, items: seq<seq<byte>>, i: nat)
    requires ElementsAt(data, body, |items|) && Dense(data, body, |items|) && AreItems(data, body, items)
    requires i <= |items|
    ensures Reached(data, body, i, body + Offset(items, i))
  {
    if i != 0 {
      DenseReaches(data, body, items, i - 1);
      StartsAtOffset(data, body, items, i - 1);
      EndsAtNext(data, body, items, i - 1, Start(data, body, i - 1));
    }
  }

  lemma DenseStarts(data: seq<byte>, body: nat, items: seq<seq<byte>>, i: nat)
    requires ElementsAt(data, body, |items|) && Dense(data, body, |items|) && AreItems(data, body, items)
    requires i < |items|
    ensures Start(data, body, i) == body + Offset(items, i)
    ensures PaddedEnd(data, Start(data, body, i)) == body + Offset(items, i + 1)
  {
    DenseReaches(data, body, items, i);
    DenseReaches(data, body, items, i + 1);
    StartsAtOffset(data, body, items, i);
  }

  /** Element `i` starts at its canonical offset, reads back, and ends at the next offset. */
  ghost predicate ElementReads(data: seq<byte>, body: nat, items: seq<seq<byte>>, i: nat)
    requires i < |items| && body + 32 * |items| <= |data|
  {
    && WordAt(data, body + 32 * i) == Offset(items, i)
    && BytesAt(data, body + Offset(items, i)) && BytesOf(data, body + Offset(items, i)) == items[i]
    && PaddedEnd(data, body + Offset(items, i)) == body + Offset(items, i + 1)
  }

  ghost predicate AllRead(data: seq<byte>, body: nat, items: seq<seq<byte>>)
    requires body + 32 * |items| <= |data|
  {
    forall i :: 0 <= i < |items| ==> ElementReads(data, body, items, i)
  }

  lemma DenseReads(data: seq<byte>, body: nat, items: seq<seq<byte>>, i: nat)
    requires ElementsAt(data, body, |items|) && Dense(data, body, |items|) && AreItems(data, body, items)
    requires i < |items|
    ensures ElementReads(data, body, items, i)
  {
    DenseStarts(data, body, items, i);
    ReadsFrom(data, body, items, i, Start(data, body, i));
  }

  lemma ReadsFrom(data: seq<byte>, body: nat, items: seq<seq<byte>>, i: nat, start: nat)
    requires i < |items| && body + 32 * |items| <= |data| && start == Start(data, body, i)
    requires BytesAt(data, start) && BytesOf(data, start) == items[i]
    requires WordAt(data, body + 32 * i) == Offset(items, i) && PaddedEnd(data, start) == body + Offset(items, i + 1)
    ensures ElementReads(data, body, items, i)
  {
  }

  lemma DenseIsRead(data: seq<byte>, body: nat, items: seq<seq<byte>>)
    requires ElementsAt(data, body, |items|) && Dense(data, body, |items|) && AreItems(data, body, items)
    ensures AllRead(data, body, items) && body + Offset(items, |items|) == |data|
  {
    forall i | 0 <= i < |items| ensures ElementReads(data, body, items, i) {
      DenseReads(data, body, items, i);
    }
    DenseEnds(data, body, items);
  }

  lemma DenseEnds(data: seq<byte>, body: nat, items: seq<seq<byte>>)
    requires ElementsAt(data, body, |items|) && Dense(data, body, |items|) && AreItems(data, body, items)
    ensures body + Offset(items, |items|) == |data|
  {
    DenseReaches(data, body, items, |items|);
  }

  lemma ReadElementIsPlaced(data: seq<byte>, body: nat, items: seq<seq<byte>>, i: nat)
    requires i < |items| && body + 32 * |items| <= |data| && ElementReads(data, body, items, i)
    ensures ChunkHeld(data, body, Heads(items), i) && ChunkHeld(data, body + 32 * |items|, Slots(items), i)
  {
    WordAtFits(data, body + 32 * i);
    WordAtFits(data, body + Offset(items, i));
    HeadReads(data, body, items, i);
    SlotReads(data, body, items, i);
  }

  lemma ReadIsPlaced(data: seq<byte>, body: nat, items: seq<seq<byte>>)
    requires body + 32 * |items| <= |data| && AllRead(data, body, items)
    ensures AllHeld(data, body, Heads(items)) && AllHeld(data, body + 32 * |items|, Slots(items))
  {
    var heads, slots, mid := Heads(items), Slots(items), body + 32 * |items|;
    forall i | 0 <= i < |items| ensures ChunkHeld(data, body, heads, i) && ChunkHeld(data, mid, slots, i) {
      assert ElementReads(data, body, items, i);
      ReadElementIsPlaced(data, body, items, i);
    }
  }

  /** A dense array is, byte for byte, the encoding of its elements. */
  lemma DenseIsEncoding(data: seq<byte>, body: nat, items: seq<seq<byte>>)
    requires ElementsAt(data, body, |items|) && Dense(data, body, |items|) && AreItems(data, body, items)
    ensures data[body..] == EncodeArray(items)
  {
    DenseIsRead(data, body, items);
    ReadIsPlaced(data, body, items);
    EncodedMeansPlaced(data, body, items);
  }

  lemma EncodingLength(items: seq<seq<byte>>)
    ensures |EncodeArray(items)| == Offset(items, |items|)
  {
    var heads, slots, n := Heads(items), Slots(items), |items|;
    assert EncodeArray(items) == ConcatTo(heads, n) + ConcatTo(slots, n);
    WordPositions(heads, n);
  }

  lemma EncodingIsPlaced(data: seq<byte>, body: nat, items: seq<seq<byte>>)
    requires body <= |data| && data[body..] == EncodeArray(items)
    ensures body + Offset(items, |items|) == |data|
    ensures AllHeld(data, body, Heads(items)) && AllHeld(data, body + 32 * |items|, Slots(items))
  {
    EncodingLength(items);
    EncodedMeansPlaced(data, body, items);
  }

  lemma PlacedReads(data: seq<byte>, body: nat, items: seq<seq<byte>>, i: nat)
    requires FitsWord(|data|) && body + Offset(items, |items|) == |data| && i < |items|
    requires ChunkHeld(data, body, Heads(items), i) && ChunkHeld(data, body + 32 * |items|, Slots(items), i)
    ensures ElementReads(data, body, items, i)
  {
    var slots := Slots(items);
    PositionsGrow(slots, i, |items|);
    assert |slots[i]| == 32 + Padded(|items[i]|);
    HeadReads(data, body, items, i);
    SlotReads(data, body, items, i);
  }

  /** An element that reads back lies between its offset and the next one. */
  lemma ReadsBetween(data: seq<byte>, body: nat, items: seq<seq<byte>>, i: nat)
    requires body + 32 * |items| <= |data| && AllRead(data, body, items) && i < |items|
    ensures Start(data, body, i) == body + Offset(items, i) && BytesAt(data, Start(data, body, i))
    ensures PaddedEnd(data, Start(data, body, i)) == body + Offset(items, i + 1)
  {
    assert ElementReads(data, body, items, i);
  }

  lemma AllReadAreElements(data: seq<byte>, body: nat, items: seq<seq<byte>>)
    requires body + 32 * |items| <= |data| && AllRead(data, body, items)
    ensures ElementsAt(data, body, |items|)
  {
    forall i | 0 <= i < |items| ensures BytesAt(data, Start(data, body, i)) {
      assert ElementReads(data, body, items, i);
    }
  }

  lemma AllReadAreItems(data: seq<byte>, body: nat, items: seq<seq<byte>>)
    requires ElementsAt(data, body, |items|) && AllRead(data, body, items)
    ensures AreItems(data, body, items)
  {
    forall i | 0 <= i < |items| ensures items[i] == BytesOf(data, Start(data, body, i)) {
      ReadsBack(data, body, items, i);
    }
  }

  lemma ReadsBack(data: seq<byte>, body: nat, items: seq<seq<byte>>, i: nat)
    requires body + 32 * |items| <= |data| && AllRead(data, body, items) && i < |items|
    ensures BytesAt(data, Start(data, body, i)) && BytesOf(data, Start(data, body, i)) == items[i]
  {
    assert ElementReads(data, body, items, i);
  }

  lemma AllReadAreAdjacent(data: seq<byte>, body: nat, items: seq<seq<byte>>, i: nat)
    requires ElementsAt(data, body, |items|) && AllRead(data, body, items) && i + 1 < |items|
    ensures Adjacent(data, body, i)
  {
    ReadsBetween(data, body, items, i);
    ReadsBetween(data, body, items, i + 1);
  }

  lemma AllReadMeetTheEnds(data: seq<byte>, body: nat, items: seq<seq<byte>>)
    requires items != [] && body + Offset(items, |items|) == |data|
    requires ElementsAt(data, body, |items|) && AllRead(data, body, items)
    ensures Start(data, body, 0) == body + 32 * |items|
    ensures PaddedEnd(data, Start(data, body, |items| - 1)) == |data|
  {
    FirstReads(data, body, items);
    LastReads(data, body, items, |items| - 1);
  }

  lemma FirstReads(data: seq<byte>, body: nat, items: seq<seq<byte>>)
    requires body + 32 * |items| <= |data| && AllRead(data, body, items) && items != []
    ensures Start(data, body, 0) == body + 32 * |items|
  {
    ReadsBetween(data, body, items, 0);
    OffsetStep(items, 0);
  }

  lemma LastReads(data: seq<byte>, body: nat, items: seq<seq<byte>>, i: nat)
    requires body + 32 * |items| <= |data| && AllRead(data, body, items) && i + 1 == |items|
    requires body + Offset(items, |items|) == |data|
    ensures BytesAt(data, Start(data, body, i)) && PaddedEnd(data, Start(data, body, i)) == |data|
  {
    ReadsBetween(data, body, items, i);
  }

  lemma AllReadIsDense(data: seq<byte>, body: nat, items: seq<seq<byte>>)
    requires items != [] && body + Offset(items, |items|) == |data|
    requires ElementsAt(data, body, |items|) && AllRead(data, body, items)
    ensures Dense(data, body, |items|)
  {
    AllReadMeetTheEnds(data, body, items);
    forall i | 0 <= i < |items| - 1 ensures Adjacent(data, body, i) {
      AllReadAreAdjacent(data, body, items, i);
    }
  }

  lemma PlacedIsRead(data: seq<byte>, body: nat, items: seq<seq<byte>>)
    requires FitsWord(|data|) && body + Offset(items, |items|) == |data| && body + 32 * |items| <= |data|
    requires AllHeld(data, body, Heads(items)) && AllHeld(data, body + 32 * |items|, Slots(items))
    ensures AllRead(data, body, items)
  {
    forall i | 0 <= i < |items| ensures ElementReads(data, body, items, i) {
      PlacedItemReads(data, body, items, i);
    }
  }

  lemma BothHeldAt(data: seq<byte>, at: nat, heads: seq<seq<byte>>, mid: nat, slots: seq<seq<byte>>, i: nat)
    requires AllHeld(data, at, heads) && AllHeld(data, mid, slots) && i < |heads| == |slots|
    ensures ChunkHeld(data, at, heads, i) && ChunkHeld(data, mid, slots, i)
  {
  }

  lemma PlacedItemReads(data: seq<byte>, body: nat, items: seq<seq<byte>>, i: nat)
    requires FitsWord(|data|) && body + Offset(items, |items|) == |data| && body + 32 * |items| <= |data|
    requires AllHeld(data, body, Heads(items)) && AllHeld(data, body + 32 * |items|, Slots(items)) && i < |items|
    ensures ElementReads(data, body, items, i)
  {
    BothHeldAt(data, body, Heads(items), body + 32 * |items|, Slots(items), i);
    PlacedReads(data, body, items, i);
  }

  lemma ReadIsDense(data: seq<byte>, body: nat, items: seq<seq<byte>>)
    requires items != [] && body + Offset(items, |items|) == |data| && body + 32 * |items| <= |data|
    requires AllRead(data, body, items)
    ensures ElementsAt(data, body, |items|) && Dense(data, body, |items|) && AreItems(data, body, items)
  {
    AllReadAreElements(data, body, items);
    AllReadAreItems(data, body, items);
    AllReadIsDense(data, body, items);
  }

  /** The encoding of a non-empty list of elements is dense, and reads back as that list. */
  lemma EncodingIsDense(data: seq<byte>, body: nat, items: seq<seq<byte>>)
    requires body <= |data| && FitsWord(|data|) && data[body..] == EncodeArray(items) && items != []
    ensures ElementsAt(data, body, |items|) && Dense(data, body, |items|) && AreItems(data, body, items)
  {
    EncodingIsPlaced(data, body, items);
    HeadFits(items);
    PlacedIsRead(data, body, items);
    ReadIsDense(data, body, items);
  }

  lemma HeadFits(items: seq<seq<byte>>)
    ensures 32 * |items| <= Offset(items, |items|)
  {
  }
}
