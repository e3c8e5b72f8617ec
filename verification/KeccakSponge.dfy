/** The sponge around the permutation: padding, absorbing and squeezing (sections 4 and 5.1 of
    FIPS 202, with the original padding of Keccak, which appends no SHA-3 suffix). */
module KeccakSponge {

  import opened AbiWords
  import opened KeccakSpec
  import opened Keccak

  const RATE: nat := 136
  const RATE_LANES: nat := 17

  // ---------------------------------------------------------------------------------
  // Padding
  // ---------------------------------------------------------------------------------

  /** A one, the fewest zeros, and a final one: as bytes, `01 00 .. 80`, or `81` when one byte is
      all there is room for. */
  function Tail(room: nat): (r: seq<byte>)
    requires 0 < room
    ensures |r| == room
  {
    if room == 1 then [0x81] else [0x01] + Zeros(room - 2) + [0x80]
  }

  /** The room that a message leaves in its last block. */
  function Room(length: nat): (r: nat)
    ensures 0 < r <= RATE
  {
    RATE - length % RATE
  }

  function Pad(data: seq<byte>): seq<byte> {
    data + Tail(Room(|data|))
  }

  /** Sets the highest bit of a byte. */
  function WithHighBit(b: byte): byte {
    if b < 0x80 then b + 0x80 else b
  }

  method PadMessage(data: seq<byte>) returns (padded: seq<byte>)
    ensures padded == Pad(data)
  {
    padded := data;
    padded := padded + [0x01];
    padded := padded + Zeros((RATE - |padded| % RATE) % RATE);
    FillsUp(|data|);
    ghost var tail := [0x01] + Zeros(Room(|data|) - 1);
    assert padded == data + tail;
    HighBitEndsTail(Room(|data|));
    padded := padded[|padded| - 1 := WithHighBit(padded[|padded| - 1])];
    assert padded == data + tail[|tail| - 1 := WithHighBit(tail[|tail| - 1])];
  }

  lemma HighBitEndsTail(room: nat)
    requires 0 < room
    ensures var t := [0x01] + Zeros(room - 1);
            t[room - 1 := WithHighBit(t[room - 1])] == Tail(room)
  {
  }

  lemma {:induction false} ZeroAt(n: nat, k: nat)
    requires k < n
    ensures Zeros(n)[k] == 0
    decreases n
  {
    if k < n - 1 { ZeroAt(n - 1, k); }
  }

  lemma FillsUp(n: nat)
    ensures (RATE - (n + 1) % RATE) % RATE == Room(n) - 1
  {
  }

  /** Padding fills whole blocks, adding between one byte and one block. */
  lemma PaddingFillsBlocks(data: seq<byte>)
    ensures |Pad(data)| % RATE == 0 && |data| < |Pad(data)| <= |data| + RATE
  {
  }

  /** Where the tail of a message begins, its byte is odd; behind it, it is zero up to the end. */
  lemma TailBytes(room: nat, k: nat)
    requires 0 < room && k < room
    ensures Tail(room)[k] == (if k == 0 then 0x01 else 0x00) + (if k == room - 1 then 0x80 else 0x00)
  {
    if 0 < k < room - 1 { ZeroAt(room - 2, k - 1); }
  }

  /** The byte of a padded message where its tail begins, and those behind it. */
  lemma PadByte(data: seq<byte>, k: nat)
    requires |data| <= k < |Pad(data)|
    ensures Pad(data)[k] == (if k == |data| then 0x01 else 0x00) + (if k == |Pad(data)| - 1 then 0x80 else 0x00)
  {
    var room := Room(|data|);
    TailBytes(room, k - |data|);
    assert Pad(data)[k] == Tail(room)[k - |data|];
  }

  lemma ShorterPadsDifferently(a: seq<byte>, b: seq<byte>)
    requires |a| < |b|
    ensures Pad(a) != Pad(b)
  {
    PaddingFillsBlocks(a);
    PaddingFillsBlocks(b);
    if |Pad(a)| == |Pad(b)| {
      PadByte(a, |b|);
      PadByte(b, |b|);
    }
  }

  /** No two messages have the same padding. */
  lemma PaddingIsInjective(a: seq<byte>, b: seq<byte>)
    requires Pad(a) == Pad(b)
    ensures a == b
  {
    if |a| < |b| { ShorterPadsDifferently(a, b); }
    if |b| < |a| { ShorterPadsDifferently(b, a); }
    assert a == Pad(a)[..|a|] && b == Pad(b)[..|b|];
  }

  // ---------------------------------------------------------------------------------
  // Bytes and lanes
  // ---------------------------------------------------------------------------------

  function Halved(n: nat, times: nat): nat {
    if times == 0 then n else Halved(n, times - 1) / 2
  }

  predicate ByteBit(b: byte, j: nat) {
    Halved(b as int, j) % 2 == 1
  }

  function Weight(bit: bool, w: nat): nat {
    if bit then w else 0
  }

  function ByteAt(a: Bits, k: int): byte {
    (Weight(8 * k in a, 1) + Weight(8 * k + 1 in a, 2) + Weight(8 * k + 2 in a, 4) + Weight(8 * k + 3 in a, 8)
     + Weight(8 * k + 4 in a, 16) + Weight(8 * k + 5 in a, 32) + Weight(8 * k + 6 in a, 64)
     + Weight(8 * k + 7 in a, 128)) as byte
  }

  /** `int.from_bytes(block, "little")` of eight bytes. */
  function FromLittle(block: seq<byte>): (r: Bits)
    requires |block| == 8
    ensures Lane(r)
  {
    set i | 0 <= i < 64 && ByteBit(block[i / 8], i % 8)
  }

  /** `to_bytes(8, "little")`. */
  function ToLittle(a: Bits): (r: seq<byte>)
    ensures |r| == 8
  {
    seq(8, k => ByteAt(a, k))
  }

  lemma ByteIsItsBits(b: byte)
    ensures b as int == Weight(ByteBit(b, 0), 1) + Weight(ByteBit(b, 1), 2) + Weight(ByteBit(b, 2), 4)
                        + Weight(ByteBit(b, 3), 8) + Weight(ByteBit(b, 4), 16) + Weight(ByteBit(b, 5), 32)
                        + Weight(ByteBit(b, 6), 64) + Weight(ByteBit(b, 7), 128)
  {
    var n := b as int;
    var h := seq(9, (j: nat) => Halved(n, j));
    forall j | 0 <= j < 8 ensures h[j] == 2 * h[j + 1] + Weight(ByteBit(b, j), 1) { HalvesTo(n, j); }
    assert h[0] == n;
    BitSum(h[0], h[1], h[2], h[3], h[4], h[5], h[6], h[7], h[8], ByteBit(b, 0), ByteBit(b, 1), ByteBit(b, 2),
           ByteBit(b, 3), ByteBit(b, 4), ByteBit(b, 5), ByteBit(b, 6), ByteBit(b, 7));
  }

  lemma BitSum(h0: nat, h1: nat, h2: nat, h3: nat, h4: nat, h5: nat, h6: nat, h7: nat, h8: nat,
               b0: bool, b1: bool, b2: bool, b3: bool, b4: bool, b5: bool, b6: bool, b7: bool)
    requires h0 == 2 * h1 + Weight(b0, 1) && h1 == 2 * h2 + Weight(b1, 1) && h2 == 2 * h3 + Weight(b2, 1)
    requires h3 == 2 * h4 + Weight(b3, 1) && h4 == 2 * h5 + Weight(b4, 1) && h5 == 2 * h6 + Weight(b5, 1)
    requires h6 == 2 * h7 + Weight(b6, 1) && h7 == 2 * h8 + Weight(b7, 1) && h0 < 256
    ensures h0 == Weight(b0, 1) + Weight(b1, 2) + Weight(b2, 4) + Weight(b3, 8)
                  + Weight(b4, 16) + Weight(b5, 32) + Weight(b6, 64) + Weight(b7, 128)
  {
  }

  lemma HalvesTo(n: nat, j: nat)
    ensures Halved(n, j) == 2 * Halved(n, j + 1) + Weight(Halved(n, j) % 2 == 1, 1)
  {
  }

  /** Eight bytes are recovered from the lane they make. */
  lemma LittleRoundTrip(block: seq<byte>)
    requires |block| == 8
    ensures ToLittle(FromLittle(block)) == block
  {
    forall k | 0 <= k < 8 ensures ToLittle(FromLittle(block))[k] == block[k] {
      ByteRoundTrip(block, k);
    }
  }

  lemma ByteRoundTrip(block: seq<byte>, k: nat)
    requires |block| == 8 && k < 8
    ensures ByteAt(FromLittle(block), k) == block[k]
  {
    ByteIsItsBits(block[k]);
    LaneBit(block, k, 0);
    LaneBit(block, k, 1);
    LaneBit(block, k, 2);
    LaneBit(block, k, 3);
    LaneBit(block, k, 4);
    LaneBit(block, k, 5);
    LaneBit(block, k, 6);
    LaneBit(block, k, 7);
  }

  lemma LaneBit(block: seq<byte>, k: int, j: int)
    requires |block| == 8 && 0 <= k < 8 && 0 <= j < 8
    ensures 8 * k + j in FromLittle(block) <==> ByteBit(block[k], j)
  {
  }

  // ---------------------------------------------------------------------------------
  // The sponge
  // ---------------------------------------------------------------------------------

  function AbsorbedLane(s: State, block: seq<byte>, i: int): (r: Bits)
    requires |block| == RATE && 0 <= i < 25
    ensures Lane(r)
  {
    if i < RATE_LANES then
      XorIsLane(s[i], FromLittle(block[8 * i..8 * i + 8]));
      Xor(s[i], FromLittle(block[8 * i..8 * i + 8]))
    else s[i]
  }

  function AbsorbBlock(s: State, block: seq<byte>): State
    requires |block| == RATE
  {
    seq(25, i requires 0 <= i < 25 => AbsorbedLane(s, block, i))
  }

  /** Block after block: exclusive or into the outer part of the state, then permute. */
  function Absorb(s: State, padded: seq<byte>): State
    decreases |padded|
  {
    if |padded| < RATE then s else Absorb(Permutation(AbsorbBlock(s, padded[..RATE])), padded[RATE..])
  }

  function Zero(): State {
    seq(25, _ => {})
  }

  function Squeeze(s: State): seq<byte> {
    ToLittle(s[0]) + ToLittle(s[1]) + ToLittle(s[2]) + ToLittle(s[3])
  }

  function Digest(data: seq<byte>): seq<byte> {
    Squeeze(Absorb(Zero(), Pad(data)))
  }

  /** Different blocks take one state to different states. */
  lemma AbsorbingIsInjective(s: State, a: seq<byte>, b: seq<byte>)
    requires |a| == RATE && |b| == RATE && AbsorbBlock(s, a) == AbsorbBlock(s, b)
    ensures a == b
  {
    forall k | 0 <= k < RATE ensures a[k] == b[k] {
      SameLaneSameByte(s, a, b, k / 8, k % 8);
    }
  }

  lemma SameLaneSameByte(s: State, a: seq<byte>, b: seq<byte>, i: nat, j: nat)
    requires |a| == RATE && |b| == RATE && i < RATE_LANES && j < 8
    requires AbsorbBlock(s, a)[i] == AbsorbBlock(s, b)[i]
    ensures a[8 * i + j] == b[8 * i + j]
  {
    var c, d := a[8 * i..8 * i + 8], b[8 * i..8 * i + 8];
    XorCancels(s[i], FromLittle(c), FromLittle(d));
    LittleRoundTrip(c);
    LittleRoundTrip(d);
    assert c[j] == d[j];
  }

  lemma XorCancels(a: Bits, b: Bits, c: Bits)
    requires Xor(a, b) == Xor(a, c)
    ensures b == c
  {
  }

  /** Messages shorter than one block never meet in the state they are hashed from. */
  lemma ShortMessagesStayApart(a: seq<byte>, b: seq<byte>)
    requires |a| < RATE && |b| < RATE && Absorb(Zero(), Pad(a)) == Absorb(Zero(), Pad(b))
    ensures a == b
  {
    OneBlock(a);
    OneBlock(b);
    PermutationIsInjective(AbsorbBlock(Zero(), Pad(a)), AbsorbBlock(Zero(), Pad(b)));
    AbsorbingIsInjective(Zero(), Pad(a), Pad(b));
    PaddingIsInjective(a, b);
  }

  lemma OneBlock(a: seq<byte>)
    requires |a| < RATE
    ensures |Pad(a)| == RATE && Absorb(Zero(), Pad(a)) == Permutation(AbsorbBlock(Zero(), Pad(a)))
  {
    assert Pad(a)[..RATE] == Pad(a) && Pad(a)[RATE..] == [];
  }

  // ---------------------------------------------------------------------------------
  // The digest, in place
  // ---------------------------------------------------------------------------------

  method AbsorbInPlace(state: array<Bits>, block: seq<byte>)
    requires state.Length == 25 && IsState(state[..]) && |block| == RATE
    modifies state
    ensures state[..] == AbsorbBlock(old(state[..]), block)
  {
    ghost var s: State := state[..];
    for lane := 0 to RATE / 8
      invariant forall i :: 0 <= i < 25 ==> state[i] == if i < lane then AbsorbedLane(s, block, i) else s[i]
    {
      state[lane] := Xor(state[lane], FromLittle(block[lane * 8..lane * 8 + 8]));
    }
  }

  ghost function Lanes(s: seq<Bits>, n: nat): (r: seq<byte>)
    requires n <= |s|
    ensures |r| == 8 * n
  {
    if n == 0 then [] else Lanes(s, n - 1) + ToLittle(s[n - 1])
  }

  lemma {:induction false} LanesPrefix(s: seq<Bits>, m: nat, n: nat)
    requires m <= n <= |s|
    ensures Lanes(s, n)[..8 * m] == Lanes(s, m)
    decreases n
  {
    if m < n { LanesPrefix(s, m, n - 1); }
  }

  /** The absorbing loop. */
  method AbsorbAll(state: array<Bits>, padded: seq<byte>)
    requires state.Length == 25 && IsState(state[..]) && |padded| % RATE == 0
    modifies state
    ensures IsState(state[..]) && state[..] == Absorb(old(state[..]), padded)
  {
    var offset := 0;
    assert padded[0..] == padded;
    while offset < |padded|
      invariant offset % RATE == 0 && offset <= |padded|
      invariant IsState(state[..]) && Absorb(state[..], padded[offset..]) == Absorb(old(state[..]), padded)
      decreases |padded| - offset
    {
      WholeBlock(offset, |padded|);
      NextBlock(state[..], padded, offset);
      AbsorbInPlace(state, padded[offset..offset + RATE]);
      Permute(state);
      offset := offset + RATE;
    }
  }

  lemma NextBlock(s: State, padded: seq<byte>, offset: nat)
    requires offset + RATE <= |padded|
    ensures Absorb(s, padded[offset..])
         == Absorb(Permutation(AbsorbBlock(s, padded[offset..offset + RATE])), padded[offset + RATE..])
  {
    assert padded[offset..][..RATE] == padded[offset..offset + RATE];
    assert padded[offset..][RATE..] == padded[offset + RATE..];
  }

  /** The squeezing loop writes out every lane of the rate; the digest is the first 32 bytes. */
  method SqueezeLanes(state: array<Bits>) returns (r: seq<byte>)
    requires state.Length == 25 && IsState(state[..])
    ensures r == Squeeze(state[..])
  {
    var output: seq<byte> := [];
    for lane := 0 to RATE / 8
      invariant output == Lanes(state[..], lane)
    {
      output := output + ToLittle(state[lane]);
    }
    LanesPrefix(state[..], 4, 17);
    FourLanes(state[..]);
    r := output[..32];
  }

  /** Keccak-256. */
  method Keccak256(data: seq<byte>) returns (r: seq<byte>)
    ensures |r| == 32 && r == Digest(data)
  {
    var padded := PadMessage(data);
    PaddingFillsBlocks(data);
    var state := new Bits[25](_ => {});
    assert state[..] == Zero();
    AbsorbAll(state, padded);
    r := SqueezeLanes(state);
  }

  lemma WholeBlock(offset: nat, length: nat)
    requires offset < length && offset % RATE == 0 && length % RATE == 0
    ensures offset + RATE <= length && (offset + RATE) % RATE == 0
  {
  }

  lemma FourLanes(s: State)
    ensures Lanes(s, 4) == Squeeze(s)
  {
    assert Lanes(s, 1) == ToLittle(s[0]);
    assert Lanes(s, 2) == ToLittle(s[0]) + ToLittle(s[1]);
    assert Lanes(s, 3) == ToLittle(s[0]) + ToLittle(s[1]) + ToLittle(s[2]);
  }
}
