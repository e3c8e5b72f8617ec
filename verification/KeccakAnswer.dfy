/** A known answer: the Keccak-256 digest of the empty message, computed on words and carried over to the
    bitwise definition. */
module KeccakAnswer {

  import opened AbiWords
  import opened KeccakSpec
  import opened KeccakTables
  import opened Keccak
  import opened KeccakSponge
  import opened KeccakWords

  // ---------------------------------------------------------------------------------
  // The bits of some words
  // ---------------------------------------------------------------------------------

  /** The lowest eight bits. */
  lemma LowByte(w: bv64)
    ensures Has(w, 0) == (w & 0x1 != 0) && Has(w, 1) == (w & 0x2 != 0)
    ensures Has(w, 2) == (w & 0x4 != 0) && Has(w, 3) == (w & 0x8 != 0)
    ensures Has(w, 4) == (w & 0x10 != 0) && Has(w, 5) == (w & 0x20 != 0)
    ensures Has(w, 6) == (w & 0x40 != 0) && Has(w, 7) == (w & 0x80 != 0)
  {
    LowBit1(w);
    LowBit2(w);
    LowBit3(w);
    LowBit4(w);
    LowBit5(w);
    LowBit6(w);
    LowBit7(w);
  }

  lemma LowBit1(w: bv64)
    ensures Has(w, 1) == (w & 0x2 != 0)
  {
    HasTurned(w, 1, 0);
    Turn1(w);
  }

  lemma LowBit2(w: bv64)
    ensures Has(w, 2) == (w & 0x4 != 0)
  {
    HasTurned(w, 2, 0);
    Turn2(w);
  }

  lemma LowBit3(w: bv64)
    ensures Has(w, 3) == (w & 0x8 != 0)
  {
    HasTurned(w, 3, 0);
    Turn3(w);
  }

  lemma LowBit4(w: bv64)
    ensures Has(w, 4) == (w & 0x10 != 0)
  {
    HasTurned(w, 4, 0);
    Turn4(w);
  }

  lemma LowBit5(w: bv64)
    ensures Has(w, 5) == (w & 0x20 != 0)
  {
    HasTurned(w, 5, 0);
    Turn5(w);
  }

  lemma LowBit6(w: bv64)
    ensures Has(w, 6) == (w & 0x40 != 0)
  {
    HasTurned(w, 6, 0);
    Turn6(w);
  }

  lemma LowBit7(w: bv64)
    ensures Has(w, 7) == (w & 0x80 != 0)
  {
    HasTurned(w, 7, 0);
    Turn7(w);
  }

  /** The number that the lowest eight bits spell. */
  function LowValue(w: bv64): nat {
    Weight(w & 0x1 != 0, 1) + Weight(w & 0x2 != 0, 2) + Weight(w & 0x4 != 0, 4) + Weight(w & 0x8 != 0, 8)
    + Weight(w & 0x10 != 0, 16) + Weight(w & 0x20 != 0, 32) + Weight(w & 0x40 != 0, 64) + Weight(w & 0x80 != 0, 128)
  }

  /** Byte `k` of a word is the lowest one after `8 * k` rotations. */
  lemma ByteOfWord(w: bv64, k: nat, turned: bv64)
    requires k < 8 && Turned(w, 8 * k) == turned
    ensures ByteAt(BitsOf(w), k) as int == LowValue(turned)
  {
    LowByte(turned);
    forall j: nat | j < 8 ensures 8 * k + j in BitsOf(w) <==> Has(turned, j) {
      BitIs(w, 8 * k + j);
      HasTurned(w, 8 * k, j);
    }
    assert 8 * k in BitsOf(w) <==> Has(turned, 0) by { assert 8 * k + 0 == 8 * k; }
  }

  lemma BytesOfWord(w: bv64)
    ensures ByteAt(BitsOf(w), 0) as int == LowValue(w)
    ensures ByteAt(BitsOf(w), 1) as int == LowValue((w >> 8) | (w << 56))
    ensures ByteAt(BitsOf(w), 2) as int == LowValue((w >> 16) | (w << 48))
    ensures ByteAt(BitsOf(w), 3) as int == LowValue((w >> 24) | (w << 40))
    ensures ByteAt(BitsOf(w), 4) as int == LowValue((w >> 32) | (w << 32))
    ensures ByteAt(BitsOf(w), 5) as int == LowValue((w >> 40) | (w << 24))
    ensures ByteAt(BitsOf(w), 6) as int == LowValue((w >> 48) | (w << 16))
    ensures ByteAt(BitsOf(w), 7) as int == LowValue((w >> 56) | (w << 8))
  {
    ByteOfWord(w, 0, w);
    Turn8(w);
    ByteOfWord(w, 1, (w >> 8) | (w << 56));
    Turn16(w);
    ByteOfWord(w, 2, (w >> 16) | (w << 48));
    Turn24(w);
    ByteOfWord(w, 3, (w >> 24) | (w << 40));
    Turn32(w);
    ByteOfWord(w, 4, (w >> 32) | (w << 32));
    Turn40(w);
    ByteOfWord(w, 5, (w >> 40) | (w << 24));
    Turn48(w);
    ByteOfWord(w, 6, (w >> 48) | (w << 16));
    Turn56(w);
    ByteOfWord(w, 7, (w >> 56) | (w << 8));
  }

  lemma NoBits(w: bv64, z: nat)
    requires w == 0
    ensures !Has(w, z)
    decreases z
  {
    if z != 0 { NoBits(RotateRight(w), z - 1); }
  }

  lemma ZeroBits(w: bv64)
    requires w == 0
    ensures BitsOf(w) == {}
  {
    forall z ensures z !in BitsOf(w) {
      BitIs(w, z);
      if 0 <= z { NoBits(w, z); }
    }
  }

  /** The lowest bit alone: no other place holds it. */
  lemma OneBit(w: bv64)
    requires w == 1
    ensures BitsOf(w) == {0}
  {
    forall z ensures z in BitsOf(w) <==> z == 0 {
      BitIs(w, z);
      if 0 < z < 64 { OneBitElsewhere(w, z / 8, z % 8); }
    }
  }

  lemma OneBitElsewhere(w: bv64, k: nat, j: nat)
    requires w == 1 && k < 8 && j < 8 && 0 < 8 * k + j
    ensures !Has(w, 8 * k + j)
  {
    HasTurned(w, 8 * k, j);
    OneTurned(w, k);
    LowByte(Turned(w, 8 * k));
  }

  lemma OneTurned(w: bv64, k: nat)
    requires w == 1 && k < 8
    ensures if k == 0 then Turned(w, 8 * k) == 1 else Turned(w, 8 * k) & 0xff == 0
  {
    match k
    case 0 =>
    case 1 => Turn8(w);
    case 2 => Turn16(w);
    case 3 => Turn24(w);
    case 4 => Turn32(w);
    case 5 => Turn40(w);
    case 6 => Turn48(w);
    case 7 => Turn56(w);
  }

  lemma BitMoved(w: bv64, one: bv64, p: Position)
    requires one == 1 && Turned(w, p) == one
    ensures BitsOf(w) == {p as int}
  {
    OneBit(one);
    BitsOfLeft(one, w, p);
    RotateIsLane({0}, p);
    forall z ensures z in RotateLeft({0}, p) <==> z == p {
      if 0 <= z < 64 { RotateBit({0}, p, z); }
    }
  }

  lemma Bit1(w: bv64)
    requires w == 0x2
    ensures BitsOf(w) == {1}
  {
    Turn1(w);
    BitMoved(w, 1, 1);
  }

  lemma Bit3(w: bv64)
    requires w == 0x8
    ensures BitsOf(w) == {3}
  {
    Turn3(w);
    BitMoved(w, 1, 3);
  }

  lemma Bit7(w: bv64)
    requires w == 0x80
    ensures BitsOf(w) == {7}
  {
    Turn7(w);
    BitMoved(w, 1, 7);
  }

  lemma Bit15(w: bv64)
    requires w == 0x8000
    ensures BitsOf(w) == {15}
  {
    Turn15(w);
    BitMoved(w, 1, 15);
  }

  lemma Bit31(w: bv64)
    requires w == 0x80000000
    ensures BitsOf(w) == {31}
  {
    Turn31(w);
    BitMoved(w, 1, 31);
  }

  lemma Bit63(w: bv64)
    requires w == 0x8000000000000000
    ensures BitsOf(w) == {63}
  {
    Turn63(w);
    BitMoved(w, 1, 63);
  }

  lemma Joined(a: bv64, b: bv64, c: bv64, x: Bits, p: int)
    requires c == a ^ b && BitsOf(a) == x && BitsOf(b) == {p} && p !in x
    ensures BitsOf(c) == x + {p}
  {
    BitsOfXor(a, b, c);
    XorDisjoint(x, p);
  }

  lemma XorDisjoint(x: Bits, p: int)
    requires p !in x
    ensures Xor(x, {p}) == x + {p}
  {
  }

  // ---------------------------------------------------------------------------------
  // The round constants as words
  // ---------------------------------------------------------------------------------

  /** Where round constants have bits, and the words of those bits. */
  const PLACES: seq<int> := [0, 1, 3, 7, 15, 31, 63]
  const PLACE_WORDS: seq<bv64> := [0x1, 0x2, 0x8, 0x80, 0x8000, 0x80000000, 0x8000000000000000]

  lemma PlaceIs(i: nat)
    requires i < 7
    ensures BitsOf(PLACE_WORDS[i]) == {PLACES[i]}
  {
    match i
    case 0 => OneBit(0x1);
    case 1 => Bit1(0x2);
    case 2 => Bit3(0x8);
    case 3 => Bit7(0x80);
    case 4 => Bit15(0x8000);
    case 5 => Bit31(0x80000000);
    case 6 => Bit63(0x8000000000000000);
  }

  /** The word with the bits of `r` in the first `n` places. */
  function WordOf(r: Bits, n: nat): bv64
    requires n <= 7
    decreases n
  {
    if n == 0 then 0 else if PLACES[n - 1] in r then WordOf(r, n - 1) ^ PLACE_WORDS[n - 1] else WordOf(r, n - 1)
  }

  function InPlaces(r: Bits, n: nat): Bits
    requires n <= 7
    decreases n
  {
    if n == 0 then {} else if PLACES[n - 1] in r then InPlaces(r, n - 1) + {PLACES[n - 1]} else InPlaces(r, n - 1)
  }

  lemma {:induction false} PlacesBelow(r: Bits, n: nat, z: int)
    requires n <= 7
    ensures z in InPlaces(r, n) <==> z in r && z in PLACES[..n]
    decreases n
  {
    if n != 0 {
      PlacesBelow(r, n - 1, z);
      assert PLACES[..n] == PLACES[..n - 1] + [PLACES[n - 1]];
    }
  }

  lemma PlacesDiffer(i: nat, j: nat)
    requires i < j < 7
    ensures PLACES[i] != PLACES[j]
  {
  }

  lemma {:induction false} WordOfBits(r: Bits, n: nat)
    requires n <= 7
    ensures BitsOf(WordOf(r, n)) == InPlaces(r, n)
    decreases n
  {
    if n == 0 {
      ZeroBits(WordOf(r, 0));
    } else {
      WordOfBits(r, n - 1);
      if PLACES[n - 1] in r {
        PlaceIs(n - 1);
        NotYetPlaced(r, n - 1);
        Joined(WordOf(r, n - 1), PLACE_WORDS[n - 1], WordOf(r, n), InPlaces(r, n - 1), PLACES[n - 1]);
      }
    }
  }

  lemma NotYetPlaced(r: Bits, n: nat)
    requires n < 7
    ensures PLACES[n] !in InPlaces(r, n)
  {
    PlacesBelow(r, n, PLACES[n]);
    if PLACES[n] in PLACES[..n] {
      var i :| 0 <= i < n && PLACES[i] == PLACES[n];
      PlacesDiffer(i, n);
    }
  }

  lemma ConstantWord(r: Bits, w: bv64)
    requires (forall z :: z in r ==> z in PLACES) && WordOf(r, 7) == w
    ensures BitsOf(w) == r
  {
    WordOfBits(r, 7);
    forall z ensures z in InPlaces(r, 7) <==> z in r {
      PlacesBelow(r, 7, z);
      assert PLACES[..7] == PLACES;
    }
  }

  lemma Constant0()
    ensures BitsOf(0x1) == ROUND_CONSTANTS[0]
  {
    ConstantWord(ROUND_CONSTANTS[0], 0x1);
  }

  lemma Constant1()
    ensures BitsOf(0x8082) == ROUND_CONSTANTS[1]
  {
    ConstantWord(ROUND_CONSTANTS[1], 0x8082);
  }

  lemma Constant2()
    ensures BitsOf(0x800000000000808a) == ROUND_CONSTANTS[2]
  {
    ConstantWord(ROUND_CONSTANTS[2], 0x800000000000808a);
  }

  lemma Constant3()
    ensures BitsOf(0x8000000080008000) == ROUND_CONSTANTS[3]
  {
    ConstantWord(ROUND_CONSTANTS[3], 0x8000000080008000);
  }

  lemma Constant4()
    ensures BitsOf(0x808b) == ROUND_CONSTANTS[4]
  {
    ConstantWord(ROUND_CONSTANTS[4], 0x808b);
  }

  lemma Constant5()
    ensures BitsOf(0x80000001) == ROUND_CONSTANTS[5]
  {
    ConstantWord(ROUND_CONSTANTS[5], 0x80000001);
  }

  lemma Constant6()
    ensures BitsOf(0x8000000080008081) == ROUND_CONSTANTS[6]
  {
    ConstantWord(ROUND_CONSTANTS[6], 0x8000000080008081);
  }

  lemma Constant7()
    ensures BitsOf(0x8000000000008009) == ROUND_CONSTANTS[7]
  {
    ConstantWord(ROUND_CONSTANTS[7], 0x8000000000008009);
  }

  lemma Constant8()
    ensures BitsOf(0x8a) == ROUND_CONSTANTS[8]
  {
    ConstantWord(ROUND_CONSTANTS[8], 0x8a);
  }

  lemma Constant9()
    ensures BitsOf(0x88) == ROUND_CONSTANTS[9]
  {
    ConstantWord(ROUND_CONSTANTS[9], 0x88);
  }

  lemma Constant10()
    ensures BitsOf(0x80008009) == ROUND_CONSTANTS[10]
  {
    ConstantWord(ROUND_CONSTANTS[10], 0x80008009);
  }

  lemma Constant11()
    ensures BitsOf(0x8000000a) == ROUND_CONSTANTS[11]
  {
    ConstantWord(ROUND_CONSTANTS[11], 0x8000000a);
  }

  lemma Constant12()
    ensures BitsOf(0x8000808b) == ROUND_CONSTANTS[12]
  {
    ConstantWord(ROUND_CONSTANTS[12], 0x8000808b);
  }

  lemma Constant13()
    ensures BitsOf(0x800000000000008b) == ROUND_CONSTANTS[13]
  {
    ConstantWord(ROUND_CONSTANTS[13], 0x800000000000008b);
  }

  lemma Constant14()
    ensures BitsOf(0x8000000000008089) == ROUND_CONSTANTS[14]
  {
    ConstantWord(ROUND_CONSTANTS[14], 0x8000000000008089);
  }

  lemma Constant15()
    ensures BitsOf(0x8000000000008003) == ROUND_CONSTANTS[15]
  {
    ConstantWord(ROUND_CONSTANTS[15], 0x8000000000008003);
  }

  lemma Constant16()
    ensures BitsOf(0x8000000000008002) == ROUND_CONSTANTS[16]
  {
    ConstantWord(ROUND_CONSTANTS[16], 0x8000000000008002);
  }

  lemma Constant17()
    ensures BitsOf(0x8000000000000080) == ROUND_CONSTANTS[17]
  {
    ConstantWord(ROUND_CONSTANTS[17], 0x8000000000000080);
  }

  lemma Constant18()
    ensures BitsOf(0x800a) == ROUND_CONSTANTS[18]
  {
    ConstantWord(ROUND_CONSTANTS[18], 0x800a);
  }

  lemma Constant19()
    ensures BitsOf(0x800000008000000a) == ROUND_CONSTANTS[19]
  {
    ConstantWord(ROUND_CONSTANTS[19], 0x800000008000000a);
  }

  lemma Constant20()
    ensures BitsOf(0x8000000080008081) == ROUND_CONSTANTS[20]
  {
    ConstantWord(ROUND_CONSTANTS[20], 0x8000000080008081);
  }

  lemma Constant21()
    ensures BitsOf(0x8000000000008080) == ROUND_CONSTANTS[21]
  {
    ConstantWord(ROUND_CONSTANTS[21], 0x8000000000008080);
  }

  lemma Constant22()
    ensures BitsOf(0x80000001) == ROUND_CONSTANTS[22]
  {
    ConstantWord(ROUND_CONSTANTS[22], 0x80000001);
  }

  lemma Constant23()
    ensures BitsOf(0x8000000080008008) == ROUND_CONSTANTS[23]
  {
    ConstantWord(ROUND_CONSTANTS[23], 0x8000000080008008);
  }

  // ---------------------------------------------------------------------------------
  // The rounds
  // ---------------------------------------------------------------------------------

  /** The block of the empty message, and the state after every round. */
  const STATE_0: Lanes<bv64> := Lanes(
    0x1, 0x0, 0x0, 0x0, 0x0,
    0x0, 0x0, 0x0, 0x0, 0x0,
    0x0, 0x0, 0x0, 0x0, 0x0,
    0x0, 0x8000000000000000, 0x0, 0x0, 0x0,
    0x0, 0x0, 0x0, 0x0, 0x0)

  const STATE_1: Lanes<bv64> := Lanes(
    0x40000000001, 0x100000000000, 0x40000008000, 0x0, 0x100000008000,
    0x8, 0x300000200000, 0x1000000000000008, 0x300000000000, 0x1000000000200000,
    0x2, 0x220, 0x40000, 0x202, 0x40020,
    0x10000400, 0x1000004000, 0x400, 0x10004000, 0x1000000000,
    0x2000010000000000, 0x20000000000, 0x10000000004, 0x2000020000000000, 0x4)

  const STATE_2: Lanes<bv64> := Lanes(
    0x36305230006404e6, 0x10c339b88b760106, 0x2c31260010309901, 0xb402598888e60461, 0x8ec12c0011141902,
    0x479c441202162, 0xa9834204a1850002, 0x8002a96207243bf4, 0x2986b00442e20013, 0x88030ae2a44318c5,
    0x40002504a452186c, 0x298438083b9f34, 0x14c09a8c9df0c04b, 0x382e3020480c46, 0x54d1819819b14311,
    0x1bc065087388d40, 0x254056d141076300, 0x442c006724388184, 0x22881640e2122040, 0x425040a620050f84,
    0x10250ab408141191, 0xea18c00a90a046e2, 0x2252e3040181054, 0xd800c8a408a061a1, 0x2218340ad024160e)

  const STATE_3: Lanes<bv64> := Lanes(
    0x7308cf19f675a28c, 0x24c8413593a231e3, 0x9f099d478b237977, 0x2ab7f95c8ac310b3, 0x8e28a10fc66873fc,
    0x5d32e773b2b55c7d, 0x7d33980232045c83, 0xe28a2b70205085a5, 0xcc2cd7e324d2468e, 0xb74a863bf2536585,
    0x5d369d3c79ba85a5, 0x22ed7119e3c4e384, 0x4bcc0c935097f374, 0x2e5dc77a860ca66f, 0x2dbeea71f1e35a7a,
    0xc669dec7291539ab, 0x9f80d8ac374bb6cd, 0x91c77afe0262c26d, 0x2de8dbd4dcde6fb1, 0x46c24c7c739d6870,
    0x783e0513afeccc1a, 0xa29ac517088ad63a, 0x1d20df7ecb8e7067, 0x655b7bf46aae9a3c, 0x43c735309c4e1439)

  const STATE_4: Lanes<bv64> := Lanes(
    0x7eec1012f66baee6, 0xe6d2e4458cac18a9, 0x5096c520535f288f, 0x5adf5824750696d5, 0x2867f1088b8fd658,
    0xaccfdcb0bd9bcea8, 0x5fd9797e9164980, 0x44a2cbf947e16cee, 0xaceb2429db2cd55d, 0x6a48fc23515ee2a8,
    0xb94607983d4705bf, 0x1b1bd3901a486275, 0xf1c146f6afe51ec3, 0x10de9de4ef506c58, 0x6ac0b280c3c395bb,
    0xf97c5fbe14ff3bc6, 0x19cb20108c838c96, 0x982b0cf11854f22c, 0xd75032de9743a238, 0x27f400cc90c3447,
    0xf2facacde688afb6, 0x682013742aa1e73d, 0xce5665bb2df4e84, 0x279226377095e8d6, 0x634646675441ce51)

  const STATE_5: Lanes<bv64> := Lanes(
    0x2ca78d1fb0a64dc7, 0x6450dd6a88cd74e3, 0x6cce78e37be7ccf9, 0x5f5144ba9082b898, 0x50bd6ebb1a526d89,
    0x6b68cee4f00b096, 0x1d0fd475cb63df7b, 0xb871c02c5547e2ee, 0x54e2ff6b9c6e656e, 0xac2400ff8481b1e8,
    0x484fb645561a4af9, 0x5b2d34b2fa6df33c, 0x85ee3ce0c5e41191, 0x19852566623a33e5, 0x5623446d9c77334d,
    0xc0041cd3a2e7cde2, 0x268a41a57a642f48, 0x7f274ee5a657e34e, 0x23cb54ee34c79a96, 0x4087455b7b69c9a0,
    0x3c4eee45f0e96635, 0xf60516babe614702, 0xdd5dc346837e8117, 0x14a0e647eb74e246, 0x6875306431036be1)

  const STATE_6: Lanes<bv64> := Lanes(
    0x3714ec483b77561, 0x960390566a2c6ac8, 0x4c6550ed49562e97, 0x23dd64e6b0daaf2b, 0x91056dd06977d6c0,
    0xb956f647c80e8d70, 0xea5c2241fd7b94ba, 0x134bb59f1bcf0247, 0x91452a19caf34f91, 0xaeab563906cf2385,
    0xb866018a9e0bba63, 0x7f3ca8c6ba9c61d8, 0x8c679969c1cc1e85, 0xdac3103fbd2d1c5f, 0x9545a6fd2aa12e71,
    0x3b60ba0daf5dd647, 0xc61c9aef7a406aff, 0xfd48252495f77488, 0x3e35d8a1775921f2, 0x86ea5b33f7b4acad,
    0x7f2c4298932aa448, 0x75d1a9ec21ed8fd3, 0xb53baa7ab739a65, 0xfe0f5d774357647, 0x394cae2300e6c89b)

  const STATE_7: Lanes<bv64> := Lanes(
    0xff647574fd808ee5, 0xf7d9bdef0b0ecaf5, 0xc83d187faab6f1f9, 0x657b3d4b4f63bf5, 0x97300fca0282bba7,
    0x770101d976c15573, 0xf7271ade017febfa, 0x42b9f7d70c5705ae, 0xcaff990ef3c91833, 0x697c3c858a8e3440,
    0x75f63ab33135c188, 0x1c5de0b94e4e9954, 0xdca8d56a6eb23ee3, 0x6fbfb5a056e6c459, 0xeeebf6bff71634b1,
    0xebd520e879a78d6c, 0x4dd8667cd028f448, 0xdab9a465a90b554e, 0x753935893c57f357, 0xfb087fd2c2e521c5,
    0x72c54eb4855261a4, 0x82c7569247019817, 0xe136c0a064873906, 0xa729d20e42d31b67, 0x61eebd0e0e2d812b)

  const STATE_8: Lanes<bv64> := Lanes(
    0xb0fd17f53ae92e45, 0x1d4f440a212924c0, 0xb6b9f5785215876b, 0xa8ebc10d7b748a08, 0xe45dbb16d8ca36fb,
    0x2d50c83785b5ee32, 0x4646c94ffd3915f0, 0xd46e9a152672fd83, 0xec848c63bd941392, 0xd8968dcfed2d6f8b,
    0xac196b6d0c6ce375, 0xc3dad3c06d317f1c, 0x68797a3ce839047b, 0x96faa603fe34647, 0xdf9252373ac663fa,
    0xdf1772c56178e1b5, 0xa3e26e77ac8c9687, 0xb71dc8dd0a96284, 0x847c301eee5374b0, 0xca3604a2d2a6aa88,
    0xde41f7b3bce1aca2, 0xcf4d4de020d8c994, 0xe069595b550bef2e, 0xba1d7f0d189010d0, 0xf513233c28f4dda0)

  const STATE_9: Lanes<bv64> := Lanes(
    0xe6793e2397506542, 0x1ddb637d149a8a06, 0x5b35a54e14bcffff, 0xcb5aa90388eba654, 0xa3a4bfc5a60473eb,
    0x386aee2b513a1936, 0x6513d1f1219cb90f, 0xb8ec554e5f878440, 0x3580a2caed41269, 0x385bdf5eee3b532d,
    0xd41099a6aef35b05, 0x262bc24121ebed31, 0x258932bf7f92e37d, 0x57cf2d18c4cd4f90, 0x1bf18ba20cfb0ba5,
    0x9d56828b652f2b44, 0x8a1abfdf9d671216, 0xd32d5e80ee56ead9, 0x38c279ac8674cd62, 0x8e6b4f19f3ab9e48,
    0xa101a4b68570f00b, 0x3646245c26b464b4, 0x1a0312ee4becc874, 0xcb1c53d72f8f5bde, 0xa5533594f4a600fc)

  const STATE_10: Lanes<bv64> := Lanes(
    0xacb0712a8e67c328, 0xd12ee2d8ba7828bd, 0xe583c9f0adab0b75, 0xab20e819eccbaba, 0x40b16f59857c716d,
    0x39620378d318e17e, 0x424b4bfe05838eca, 0xd6cfd65c9c7dee34, 0xfaba550e389966f2, 0xc60a3ea32a5b1959,
    0x28643bbf7cf604cd, 0xd2dc698a5ffbaae, 0x4dee9a2cf0b9a120, 0xb0b47222035b2542, 0x1b67e710d1ae8703,
    0x75e4051c3c9dba3f, 0x3cc5f4d4261a20e4, 0xad1c26e0b9e4f3a, 0x9fcf6bbd5d3004ff, 0x9699d7bf2c1b0f8a,
    0xf32901aa2e4467db, 0xd4bd2c31d05f2a31, 0x77ef741da52cd5ab, 0xb7dd4de235ab46f0, 0x7f397de3f1cfb970)

  const STATE_11: Lanes<bv64> := Lanes(
    0x26a5233f6438b6dc, 0xace3df49a43e3fd6, 0xc4086346dc94dc2e, 0x20ea8bec3236b3c9, 0xf229827eff26d05a,
    0xfaf8f47d3f5f6884, 0x927d36f588a9b430, 0x11da5674194b4e64, 0x6da5e479dfd8191e, 0xbe1079143a68539f,
    0xcadbd0cabd32fc24, 0xe9dd3bbdeaa3dd94, 0x76f97cf8108e2ca0, 0xd1107b058a44218c, 0xeea97e5c08f8ac49,
    0xdaf2d4e0f2f78f95, 0x883160e013f90580, 0xb1a414213bf04ce4, 0xd44a7eda957d550e, 0x9e55b35d791cdc21,
    0xd1dec853a1015ae4, 0x4c926ef6a84eef87, 0x6f0576229fa8aa0c, 0xd59c1598f6ce72ca, 0xaff83d1cbad917ba)

  const STATE_12: Lanes<bv64> := Lanes(
    0xe215d0d659163823, 0x8683974493a469b1, 0xf64f37f10bf45b28, 0xfdee927ea471df68, 0x500c7269f3ee0799,
    0x45d78ea405a3a964, 0x3557220b429a4d3, 0x3195deb85a7107ab, 0x3d502ddda7398a8d, 0xc2febbf32d430d7b,
    0x917923e1a60bf1be, 0xc22dd9cf3e60efbe, 0x21ce54a25b74d00d, 0x9868de16a584c50e, 0xa62d01cd00859e89,
    0xd1c3d4f6f08da26f, 0xb0be6294f4d17ace, 0x69da1afce162547d, 0x3c8a7b614f3cab7, 0xc5b26f28bfdb70e2,
    0x795ad43d7a4beaea, 0x9d9bba34ab9d1948, 0x7be76f07d92b7c83, 0x1528c0dc1cce7e4e, 0x2831a3bf7aeeb33e)

  const STATE_13: Lanes<bv64> := Lanes(
    0x5c7f04a9eb415daa, 0x4c44e75259f5833e, 0xadff9fb8251de691, 0xecc21e383b00020c, 0xd7f4ee69f1415482,
    0x6e0e74df7917d016, 0x7ace3467e85790d7, 0x5c67f9bf8aa12768, 0x494f75d8f24f6d3b, 0xa06ab0f6f845067f,
    0xe5e6f8f52e665057, 0x95c81719483bcf1, 0x2e6ebd9c061c2477, 0x40d303d8da5e09a6, 0x6ba6b350bf2473cc,
    0x75ff6312b50b7ca0, 0x36e3e7649be5660d, 0x70815cace6248e90, 0x5d083f8a3f827fb4, 0x5b533d654e7c4f7c,
    0x827f66994d03d4b2, 0x6db7286666d1dd08, 0x4974356a95bf7635, 0xa4f8fb3b401c504d, 0xe6a9dd54d881ee17)

  const STATE_14: Lanes<bv64> := Lanes(
    0x94b8714a79b4f579, 0xdd97992da9cc5043, 0xa7969c8e19ee2e30, 0xe17cb08c2dcb80b2, 0x93b4c73a176a6e8b,
    0x930635ec94145a75, 0x62c1c8e04f0fe2f1, 0x6b8f7814668bd3b6, 0xfd3c7a8645daac15, 0x6664b42598dd1a9f,
    0xd02899cb42351935, 0x6e073a60688d2f43, 0xf7a3bf7901c8a1b4, 0xd28bf4a883d9f707, 0x69ac15f15bc3caa1,
    0xa10dff23d712efd6, 0xd25bf564ecb6bae4, 0xa2a205d32d1c77d5, 0x4cd0f337c02eb42d, 0xcd037f12b25f8c45,
    0x91009dea8a079812, 0x42f7644e5c9ce5fa, 0xebfeac5f99d4ec3d, 0xc1a9909371a9524e, 0x446967526ece2d32)

  const STATE_15: Lanes<bv64> := Lanes(
    0x1251936a8b5eeba5, 0x4aca96297139b192, 0x8182edc9f77fa479, 0x8293faa3877ace1b, 0x59cd706154e322ab,
    0xef6ec5cf7b1b7ab9, 0xee37513a4f7d4e0c, 0x3700d6c3b2e813ea, 0xc4d7b805fc59d00e, 0x852cc5aa82014eaa,
    0x8db34ca93c0a3c01, 0xc5c336fa1c78cbeb, 0x6f924cbebb1c8143, 0x20dd590c86345d40, 0x1927dbfe08689c5e,
    0xe9414eae99fd861a, 0xa1a4155038e1f6c2, 0x55954c3799242d13, 0xfec57f37f0fbb1c, 0x1215638fe6a8666e,
    0x1a6bf3c160d5e086, 0x1d936b379aaf3aae, 0x44be2462bf8d77fb, 0x24a8976ec4680654, 0x2714f4ee7154b4e5)

  const STATE_16: Lanes<bv64> := Lanes(
    0xc0a57522c1efe859, 0xe69b77ec2c9da6a6, 0x742a4601a5f0e5dc, 0x17c698335125eb15, 0xbd1d5da6cb6e5fc4,
    0x96de5a792e31754c, 0x4138ebae6a7cfb4d, 0x3b7cd6b3ea8ebf75, 0xf03c1a06392e26bc, 0x1612232072f44fa,
    0x31342913c82745e4, 0x68ddc2ed8bc8d24c, 0xd99975f96a92d1cc, 0x25e266c9373f7458, 0x1aab65f4df45f0e4,
    0xc5f388588cdaa834, 0x98c80570cb3a38e0, 0xbbd7e454c66c974, 0xb82928de1c884093, 0xed0519d874aeb66c,
    0x91c4350b275f2c14, 0x5bf7eaec860b83dc, 0x4afca4318f8727ca, 0x5c69ca452b9ac7a6, 0x773d4efcfe30e690)

  const STATE_17: Lanes<bv64> := Lanes(
    0x74cd1a0b5c45bb1d, 0x2fdbbfd5e26e6c80, 0x3664fd7ade3d2112, 0x4d596e0a2082fd39, 0xda9866f1ad50d45,
    0xd081df0aafb1c0f8, 0x3317bf0929c61cce, 0x8ac112aa8f94d330, 0xcdf09c15b803936b, 0x767832d8bbe71de,
    0xe97b6951d0f40780, 0xe37353aed69d93b7, 0xbf467d1c1715b186, 0x39348c0471d52bad, 0x6aa26979de1b4ebe,
    0x31d984e187fd0b3f, 0x787a7dda6b04518f, 0xf43c16480ad8a982, 0xe5d188994432a48d, 0x79d04865dbfcf654,
    0x85263fdf3c61fb76, 0xb5eb3e9de6322f32, 0xd3b3770d01bad296, 0x21c6091f1b07df3a, 0xec5be23d9a252e3)

  const STATE_18: Lanes<bv64> := Lanes(
    0x76a338eb96c92d7, 0x33484c2467da3a2f, 0xa00a123b70909768, 0xf9725637037dfec9, 0xb3c8df9ed9afe09f,
    0x4f560e9256792297, 0x23d8af656de816d5, 0x90b7983de0e67ebc, 0x9b875a7f1e4c593, 0x63d1d365572ff328,
    0x3cd41b33e0be651f, 0xfe2e681c51dcb871, 0xfa68ec5d2b44ce9e, 0xe209bf0e26dc6666, 0xd50e252d48f3400e,
    0xfee5680e61a436b8, 0x5da6fe223a46434e, 0x88874b94bd7f6d01, 0xac675b1c243a04b2, 0xaf29dfee768ec58e,
    0x3fc384cf44f72c9d, 0x77a9bfa813162312, 0xb31566f0585e1c84, 0x55a8e9df0c9dfd4, 0x53cb08a7274b89ba)

  const STATE_19: Lanes<bv64> := Lanes(
    0xef48b8bfeb2744bb, 0x654b0fed0f6f068a, 0xada6f64b2da58246, 0xe16ee8916777dd68, 0x351a1bc3205d7be8,
    0x7733a961dc396ec9, 0xfe4447c6fc297f31, 0xa2198697b28d31e6, 0x3315496c0eda1790, 0x484b014d0533adbc,
    0xc81f6372c288f986, 0xbcb01c04457d96e5, 0xa95796cf47e15612, 0xa030c2b49dda1ff, 0x8958ccf7679c3b5f,
    0x5cb577cd8075589f, 0x4a018f11bc97d772, 0xb8d323349e6a70b7, 0xe5dee69748add5ed, 0x30ffe2ae183b496,
    0x5cf98236a4ec69ca, 0x2604af7d93c245f6, 0xda0ad860a7ddf6d6, 0xdbd1670866d6a624, 0xa0a384a3442103c8)

  const STATE_20: Lanes<bv64> := Lanes(
    0xe7c975d8aefbf550, 0xa38f3460ada0ee7d, 0xe143b97d38d0df35, 0x40246aa05abb10ce, 0xe9b3782db6913304,
    0x30cbb8a9a0834beb, 0xa2b410364559d216, 0x67d074beb826412a, 0xca4e92687ef87d6d, 0x219bdcc027541342,
    0x7287620a39b8d589, 0x727a598d6e76600d, 0xacd076f2c449233, 0x4bdeec258e791d5d, 0x186d5406e4e958e3,
    0x4ce14c632358ed5a, 0x9e2c7e0a7a1ec320, 0xb28753789ace8da3, 0xa7b0c9991fe8fe4b, 0xceac19abf26f1851,
    0xcaeffec7b0507b05, 0x472ca39ea510f66a, 0xcc7b6b61bff78ba5, 0xf1764918625504ab, 0xcd384b9645c503a3)

  const STATE_21: Lanes<bv64> := Lanes(
    0xe4d287a01f080409, 0xf3b08fc3bf083f01, 0x7e680663c87e4f86, 0x90a8ece65af85627, 0x2a3116b3fc59ec77,
    0xbe7cfd4f0d27dd3, 0x30789d2a287bc677, 0x26b4f670e8cb0279, 0x1230a9c408798b1, 0xb903ec5ce1023cf2,
    0xe8836c0824ccbe8c, 0x5d8d0a5fe34f0ff0, 0x490cfab0b0389c56, 0x4036e0c46db89d14, 0x67030540a22e3684,
    0x33c47b3a83eeee7d, 0x3d0cbe5b21cca71c, 0xd084a6b8a202161a, 0x3cb73e2079d93726, 0x2e9ff3bf787fd2c8,
    0x12e9dc1ef75368ac, 0x74670f81db392bd8, 0x789557cc0cddc3f7, 0xa0c829c5d7dbd624, 0xe38f4f2843106a1a)

  const STATE_22: Lanes<bv64> := Lanes(
    0x67a6b668b7823e97, 0x6836c186c6896c37, 0x5228a82d35ea443d, 0x1147f1f0d89e6089, 0x9e61b976def8787e,
    0x425268b17d929984, 0xbb647912c69e8767, 0x7dfe5dcd8c02e555, 0x7d8a497e88d5bc58, 0x1fa3ea82647afdfd,
    0xd716262751ecd3f, 0xaddf2b6362a74ade, 0xd1ae1668ee1f7b6b, 0x22e411de1ce7ae26, 0xb573b3fa09ab1497,
    0x8a84d26fc954382a, 0x97ac3379cd19e543, 0x95b0a4d5625a494a, 0x1e25db0b8cba4e17, 0xd342634463487e3b,
    0x5ab2266e5f4f1133, 0x29ed02739defd2a4, 0x5ff62da7fb015c4a, 0xc488556b6dd3a215, 0x24b8bdcde0e9ebd8)

  const STATE_23: Lanes<bv64> := Lanes(
    0xb776c454221536a0, 0x2cc562aab665c6ac, 0x96854ec3f757a478, 0xbaf0e8c55c739718, 0x8263456ba091515a,
    0x76626ac752f6f6aa, 0x4e6fb95a23376335, 0x6dd890fa0ac6380b, 0xe63e22ac7de0af2a, 0x9ecfc93f76589eec,
    0xa0b01b1261ab6a01, 0xae3d547551959057, 0x16e9bf1d538d80d, 0x2167900ea6e5a7be, 0x7a406941f60cf465,
    0xd3881a5ca182984d, 0xbd5f1e80592136c8, 0x9b8a935ba0ddf5b0, 0x242c1ecef1782e23, 0xf105204297c34be6,
    0xcefb15ec5f89b0ad, 0xda47883fe04394bd, 0x668c64884a0ec53f, 0xa8511c9cfc53e49b, 0xf48efcf3a69e3a4e)

  const STATE_24: Lanes<bv64> := Lanes(
    0x3c23f7860146d2c5, 0xc003c7dcb27d7e92, 0x3b2782ca53b600e5, 0x70a4855d04d8fa7b, 0x74a97cd82c9abb3d,
    0xcb9b1161ecb0a2b9, 0x1f2211c4c0f9ed5c, 0x820dc6175fa24161, 0x81babfbcab8046d2, 0xb1d551b7242b765b,
    0x3cf26d5eba2553e8, 0x3bce6a98fe5b7210, 0xba7d9fa73545d2a2, 0xfa0d3cd3b03b15bb, 0x3bfed7eb12c7ce09,
    0xeb829c854e19a949, 0x1b5d1a6545a611ff, 0x64146f400e16b72, 0xfe8734e16471ab9f, 0x9c3088bdeebb0936,
    0xdee8b8eca7b2acba, 0x163b62b71dcf4521, 0x6b571b9910726d91, 0xb7fa22cf622318be, 0xa3fe1af7779fafd7)

  lemma Round0()
    ensures FlatWords(STATE_0, 0x1) == STATE_1
  {
    var s := STATE_0;
    var c0 := Sum(Sum(Sum(Sum(s.a0, s.a5), s.a10), s.a15), s.a20);
    var c1 := Sum(Sum(Sum(Sum(s.a1, s.a6), s.a11), s.a16), s.a21);
    var c2 := Sum(Sum(Sum(Sum(s.a2, s.a7), s.a12), s.a17), s.a22);
    var c3 := Sum(Sum(Sum(Sum(s.a3, s.a8), s.a13), s.a18), s.a23);
    var c4 := Sum(Sum(Sum(Sum(s.a4, s.a9), s.a14), s.a19), s.a24);
    assert c0 == 0x1; assert c1 == 0x8000000000000000; assert c2 == 0x0;
    assert c3 == 0x0; assert c4 == 0x0;
    var d0 := Sum(c4, Left(c1, 1));
    var d1 := Sum(c0, Left(c2, 1));
    var d2 := Sum(c1, Left(c3, 1));
    var d3 := Sum(c2, Left(c4, 1));
    var d4 := Sum(c3, Left(c0, 1));
    assert d0 == 0x1; assert d1 == 0x1; assert d2 == 0x8000000000000000;
    assert d3 == 0x0; assert d4 == 0x2;
    assert Left(Sum(s.a0, d0), 0) == 0x0; assert Left(Sum(s.a6, d1), 44) == 0x100000000000;
    assert Left(Sum(s.a12, d2), 43) == 0x40000000000; assert Left(Sum(s.a18, d3), 21) == 0x0;
    assert Left(Sum(s.a24, d4), 14) == 0x8000; assert Left(Sum(s.a3, d3), 28) == 0x0;
    assert Left(Sum(s.a9, d4), 20) == 0x200000; assert Left(Sum(s.a10, d0), 3) == 0x8;
    assert Left(Sum(s.a16, d1), 45) == 0x300000000000; assert Left(Sum(s.a22, d2), 61) == 0x1000000000000000;
    assert Left(Sum(s.a1, d1), 1) == 0x2; assert Left(Sum(s.a7, d2), 6) == 0x20;
    assert Left(Sum(s.a13, d3), 25) == 0x0; assert Left(Sum(s.a19, d4), 8) == 0x200;
    assert Left(Sum(s.a20, d0), 18) == 0x40000; assert Left(Sum(s.a4, d4), 27) == 0x10000000;
    assert Left(Sum(s.a5, d0), 36) == 0x1000000000; assert Left(Sum(s.a11, d1), 10) == 0x400;
    assert Left(Sum(s.a17, d2), 15) == 0x4000; assert Left(Sum(s.a23, d3), 56) == 0x0;
    assert Left(Sum(s.a2, d2), 62) == 0x2000000000000000; assert Left(Sum(s.a8, d3), 55) == 0x0;
    assert Left(Sum(s.a14, d4), 39) == 0x10000000000; assert Left(Sum(s.a15, d0), 41) == 0x20000000000;
    assert Left(Sum(s.a21, d1), 2) == 0x4;
  }

  lemma Round1()
    ensures FlatWords(STATE_1, 0x8082) == STATE_2
  {
    var s := STATE_1;
    var c0 := Sum(Sum(Sum(Sum(s.a0, s.a5), s.a10), s.a15), s.a20);
    var c1 := Sum(Sum(Sum(Sum(s.a1, s.a6), s.a11), s.a16), s.a21);
    var c2 := Sum(Sum(Sum(Sum(s.a2, s.a7), s.a12), s.a17), s.a22);
    var c3 := Sum(Sum(Sum(Sum(s.a3, s.a8), s.a13), s.a18), s.a23);
    var c4 := Sum(Sum(Sum(Sum(s.a4, s.a9), s.a14), s.a19), s.a24);
    assert c0 == 0x200005001000040b; assert c1 == 0x221000204220; assert c2 == 0x100005000004840c;
    assert c3 == 0x2000320010004202; assert c4 == 0x1000101000248024;
    var d0 := Sum(c4, Left(c1, 1));
    var d1 := Sum(c0, Left(c2, 1));
    var d2 := Sum(c1, Left(c3, 1));
    var d3 := Sum(c2, Left(c4, 1));
    var d4 := Sum(c3, Left(c0, 1));
    assert d0 == 0x1000543000640464; assert d1 == 0xf0010090c13; assert d2 == 0x400046102020c624;
    assert d3 == 0x30002520004d8444; assert d4 == 0x6000380030004a14;
    assert Left(Sum(s.a0, d0), 0) == 0x1000503000640465; assert Left(Sum(s.a6, d1), 44) == 0x90c1300003f00102;
    assert Left(Sum(s.a12, d2), 43) == 0x2631220002308101; assert Left(Sum(s.a18, d3), 21) == 0xa40209b888860004;
    assert Left(Sum(s.a24, d4), 14) == 0xe000c0012841800; assert Left(Sum(s.a3, d3), 28) == 0x4d84443000252;
    assert Left(Sum(s.a9, d4), 20) == 0x80030204a1470003; assert Left(Sum(s.a10, d0), 3) == 0x8002a18003202330;
    assert Left(Sum(s.a16, d1), 45) == 0x2982600001e20201; assert Left(Sum(s.a22, d2), 61) == 0x80008e2040418c4;
    assert Left(Sum(s.a1, d1), 1) == 0x3e0020121826; assert Left(Sum(s.a7, d2), 6) == 0x11840808318b14;
    assert Left(Sum(s.a13, d3), 25) == 0x40009b0c8c60004a; assert Left(Sum(s.a19, d4), 8) == 0x381030004a1460;
    assert Left(Sum(s.a20, d0), 18) == 0x54c001901190c001; assert Left(Sum(s.a4, d4), 27) == 0x1800650a3000140;
    assert Left(Sum(s.a5, d0), 36) == 0x64046c100054300; assert Left(Sum(s.a11, d1), 10) == 0x3c00402438cc00;
    assert Left(Sum(s.a17, d2), 15) == 0x2308101061122000; assert Left(Sum(s.a23, d3), 56) == 0x4410002720004d84;
    assert Left(Sum(s.a2, d2), 62) == 0x1000108408081189; assert Left(Sum(s.a8, d3), 55) == 0x2218000a900026c2;
    assert Left(Sum(s.a14, d4), 39) == 0x2251a30001c0018; assert Left(Sum(s.a15, d0), 41) == 0xc800c82000a86020;
    assert Left(Sum(s.a21, d1), 2) == 0x34004024304c;
  }

  lemma Round2()
    ensures FlatWords(STATE_2, 0x800000000000808a) == STATE_3
  {
    var s := STATE_2;
    var c0 := Sum(Sum(Sum(Sum(s.a0, s.a5), s.a10), s.a15), s.a20);
    var c1 := Sum(Sum(Sum(Sum(s.a1, s.a6), s.a11), s.a16), s.a21);
    var c2 := Sum(Sum(Sum(Sum(s.a2, s.a7), s.a12), s.a17), s.a22);
    var c3 := Sum(Sum(Sum(Sum(s.a3, s.a8), s.a13), s.a18), s.a23);
    var c4 := Sum(Sum(Sum(Sum(s.a4, s.a9), s.a14), s.a19), s.a24);
    assert c0 == 0x67ad02146a3aa139; assert c1 == 0x7631695ff36fbbd2; assert c2 == 0xfefa3bb9eec4f36e;
    assert c3 == 0x6734195800fe49d5; assert c4 == 0x325bd3d65cc75b5c;
    var d0 := Sum(c4, Left(c1, 1));
    var d1 := Sum(c0, Left(c2, 1));
    var d2 := Sum(c1, Left(c3, 1));
    var d3 := Sum(c2, Left(c4, 1));
    var d4 := Sum(c3, Left(c0, 1));
    assert d0 == 0xde390169ba182cf8; assert d1 == 0x9a597567b7b347e4; assert d2 == 0xb8595beff2932878;
    assert d3 == 0x9a4d9c15574a45d6; assert d4 == 0xa86e1d70d48b0ba7;
    assert Left(Sum(s.a0, d0), 0) == 0xe8095359ba7c281e; assert Left(Sum(s.a6, d1), 44) == 0x647e633da3763163;
    assert Left(Sum(s.a12, d2), 43) == 0x1f419d64ce0b1b7b; assert Left(Sum(s.a18, d3), 21) == 0x4ab6ab0cb2d718b1;
    assert Left(Sum(s.a24, d4), 14) == 0x8a5e812bc76a629d; assert Left(Sum(s.a3, d3), 28) == 0xddfac41b72e4fc59;
    assert Left(Sum(s.a9, d4), 20) == 0x79270c81362206d1; assert Left(Sum(s.a10, d0), 3) == 0xf1c92368f251a4a4;
    assert Left(Sum(s.a16, d1), 45) == 0x849c97e32476ded6; assert Left(Sum(s.a22, d2), 61) == 0x974f8ebbf6516705;
    assert Left(Sum(s.a1, d1), 1) == 0x153499be798a8dc5; assert Left(Sum(s.a7, d2), 6) == 0x16fca37d6dc4e30e;
    assert Left(Sum(s.a13, d3), 25) == 0x4aee04932134eb64; assert Left(Sum(s.a19, d4), 8) == 0x3e5dd6f48e0423ea;
    assert Left(Sum(s.a20, d0), 18) == 0x2f76c830f5a73870; assert Left(Sum(s.a4, d4), 27) == 0x862cf8952935798b;
    assert Left(Sum(s.a5, d0), 36) == 0xb380d9ade3d78adf; assert Left(Sum(s.a11, d1), 10) == 0xc3c57efe23634269;
    assert Left(Sum(s.a17, d2), 15) == 0xadc46b55d4fe7e3a; assert Left(Sum(s.a23, d3), 56) == 0x77424d54b15fea24;
    assert Left(Sum(s.a2, d2), 62) == 0x651a1f7bf8a8ec5e; assert Left(Sum(s.a8, d3), 55) == 0xe2d9e596088ad422;
    assert Left(Sum(s.a14, d4), 39) == 0x9d245b7e5fce7466; assert Left(Sum(s.a15, d0), 41) == 0x414371bf0a0e727a;
    assert Left(Sum(s.a21, d1), 2) == 0xc106d5b49c4c0419;
  }

  lemma Round3()
    ensures FlatWords(STATE_3, 0x8000000080008000) == STATE_4
  {
    var s := STATE_3;
    var c0 := Sum(Sum(Sum(Sum(s.a0, s.a5), s.a10), s.a15), s.a20);
    var c1 := Sum(Sum(Sum(Sum(s.a1, s.a6), s.a11), s.a16), s.a21);
    var c2 := Sum(Sum(Sum(Sum(s.a2, s.a7), s.a12), s.a17), s.a22);
    var c3 := Sum(Sum(Sum(Sum(s.a3, s.a8), s.a13), s.a18), s.a23);
    var c4 := Sum(Sum(Sum(Sum(s.a4, s.a9), s.a14), s.a19), s.a24);
    assert c0 == 0xcd5b6e82bb838ee5; assert c1 == 0x460cb5957da3ee13; assert c2 == 0xbaa81f243208bdac;
    assert c3 == 0x807549e59e6d05df; assert c4 == 0x11d9b4092a0b304a;
    var d0 := Sum(c4, Left(c1, 1));
    var d1 := Sum(c0, Left(c2, 1));
    var d2 := Sum(c1, Left(c3, 1));
    var d3 := Sum(c2, Left(c4, 1));
    var d4 := Sum(c3, Left(c0, 1));
    assert d0 == 0x9dc0df23d14cec6c; assert d1 == 0xb80b50cadf92f5bc; assert d2 == 0x46e6265e4179e5ac;
    assert d3 == 0x991b7736661edd38; assert d4 == 0x1ac394e0e96a1814;
    assert Left(Sum(s.a0, d0), 0) == 0xeec8103a27394ee0; assert Left(Sum(s.a6, d1), 44) == 0x6a93fc538c8c8ed9;
    assert Left(Sum(s.a12, d2), 43) == 0x70b6c0695156688f; assert Left(Sum(s.a18, d3), 21) == 0x9c57581651369e75;
    assert Left(Sum(s.a24, d4), 14) == 0x28741d49030b5641; assert Left(Sum(s.a3, d3), 28) == 0xaecddcd8bb3ac8e6;
    assert Left(Sum(s.a9, d4), 20) == 0x2db1b397d91ad891; assert Left(Sum(s.a10, d0), 3) == 0x7b210fd47b34e4e;
    assert Left(Sum(s.a16, d1), 45) == 0x286e24f1710cdd1b; assert Left(Sum(s.a22, d2), 61) == 0x6b78df24115ef2b9;
    assert Left(Sum(s.a1, d1), 1) == 0x398623fe986188bf; assert Left(Sum(s.a7, d2), 6) == 0x1b034b984a580269;
    assert Left(Sum(s.a13, d3), 25) == 0x99c024f6af6e8d60; assert Left(Sum(s.a19, d4), 8) == 0x1d89c9af770645c;
    assert Left(Sum(s.a20, d0), 18) == 0x68c1fa8081db97fb; assert Left(Sum(s.a4, d4), 27) == 0x7978135f44a759af;
    assert Left(Sum(s.a5, d0), 36) == 0x3f9b011c0f238506; assert Left(Sum(s.a11, d1), 10) == 0x98874cf15858e26b;
    assert Left(Sum(s.a17, d2), 15) == 0xae50218d93e0eb90; assert Left(Sum(s.a23, d3), 56) == 0x4fc400cc20cb047;
    assert Left(Sum(s.a2, d2), 62) == 0xf67beec67296a736; assert Left(Sum(s.a8, d3), 55) == 0xdb2a9bd06aa1664d;
    assert Left(Sum(s.a14, d4), 39) == 0x44a1371bbebf488c; assert Left(Sum(s.a15, d0), 41) == 0xb3ab8eb75203c9f0;
    assert Left(Sum(s.a21, d1), 2) == 0x6a4657775c608e18;
  }

  lemma Round4()
    ensures FlatWords(STATE_4, 0x808b) == STATE_5
  {
    var s := STATE_4;
    var c0 := Sum(Sum(Sum(Sum(s.a0, s.a5), s.a10), s.a15), s.a20);
    var c1 := Sum(Sum(Sum(Sum(s.a1, s.a6), s.a11), s.a16), s.a21);
    var c2 := Sum(Sum(Sum(Sum(s.a2, s.a7), s.a12), s.a17), s.a22);
    var c3 := Sum(Sum(Sum(Sum(s.a3, s.a8), s.a13), s.a18), s.a23);
    var c4 := Sum(Sum(Sum(Sum(s.a4, s.a9), s.a14), s.a19), s.a24);
    assert c0 == 0x60e35e4984c0f181; assert c1 == 0x89df9326d9d058f7; assert c2 == 0x713b228511d0e60a;
    assert c3 == 0x1628f500a6ac653e; assert c4 == 0x49d6b9c0845f5b5d;
    var d0 := Sum(c4, Left(c1, 1));
    var d1 := Sum(c0, Left(c2, 1));
    var d2 := Sum(c1, Left(c3, 1));
    var d3 := Sum(c2, Left(c4, 1));
    var d4 := Sum(c3, Left(c0, 1));
    assert d0 == 0x5a699f8d37ffeab2; assert d1 == 0x82951b43a7613d95; assert d2 == 0xa58e79279488928b;
    assert d3 == 0xe2965104196e50b0; assert d4 == 0xd7ee4993af2d863c;
    assert Left(Sum(s.a0, d0), 0) == 0x24858f9fc1944454; assert Left(Sum(s.a6, d1), 44) == 0x7741587688cd44e7;
    assert Left(Sum(s.a12, d2), 43) == 0x6c6242a279fe89db; assert Left(Sum(s.a18, d3), 21) == 0x7b51c5be5106b8cc;
    assert Left(Sum(s.a24, d4), 14) == 0x3fd3edb121b6d2a; assert Left(Sum(s.a3, d3), 28) == 0x6c68c665b849092;
    assert Left(Sum(s.a9, d4), 20) == 0x5b0fe736494bda6b; assert Left(Sum(s.a10, d0), 3) == 0x197cc0a855c7786f;
    assert Left(Sum(s.a16, d1), 45) == 0x5620736bc76a657c; assert Left(Sum(s.a22, d2), 61) == 0xf52d63ef84cafb81;
    assert Left(Sum(s.a1, d1), 1) == 0xc88ffe0c579a4a78; assert Left(Sum(s.a7, d2), 6) == 0x4b2cb7b4da7f9978;
    assert Left(Sum(s.a13, d3), 25) == 0xc1ec7c79d1e49199; assert Left(Sum(s.a19, d4), 8) == 0x91099f6621b27bd5;
    assert Left(Sum(s.a20, d0), 18) == 0x550345dd1412a24d; assert Left(Sum(s.a4, d4), 27) == 0xd925128327fc4dc4;
    assert Left(Sum(s.a5, d0), 36) == 0xa64241af6a6433d8; assert Left(Sum(s.a11, d1), 10) == 0x3b234ef4a57f8266;
    assert Left(Sum(s.a17, d2), 15) == 0xbaeb466e30539ed2; assert Left(Sum(s.a23, d3), 56) == 0x66c504773369fbb8;
    assert Left(Sum(s.a2, d2), 62) == 0x3d462f01f1f5ee81; assert Left(Sum(s.a8, d3), 55) == 0xf6a73eba96e12142;
    assert Left(Sum(s.a14, d4), 39) == 0x7709c3de977d89b6; assert Left(Sum(s.a15, d0), 41) == 0x1a2e9462b806646;
    assert Left(Sum(s.a21, d1), 2) == 0xaad420de37036aa3;
  }

  lemma Round5()
    ensures FlatWords(STATE_5, 0x80000001) == STATE_6
  {
    var s := STATE_5;
    var c0 := Sum(Sum(Sum(Sum(s.a0, s.a5), s.a10), s.a15), s.a20);
    var c1 := Sum(Sum(Sum(Sum(s.a1, s.a6), s.a11), s.a16), s.a21);
    var c2 := Sum(Sum(Sum(Sum(s.a2, s.a7), s.a12), s.a17), s.a22);
    var c3 := Sum(Sum(Sum(Sum(s.a3, s.a8), s.a13), s.a18), s.a23);
    var c4 := Sum(Sum(Sum(Sum(s.a4, s.a9), s.a14), s.a19), s.a24);
    assert c0 == 0x9e144522fbb21c7f; assert c1 == 0xf2fd6ab27dc630ee; assert c2 == 0xf32b098cce6d5ddf;
    assert c3 == 0x255d2c1eb16596c3; assert c4 == 0x82485f1648ce4d6d;
    var d0 := Sum(c4, Left(c1, 1));
    var d1 := Sum(c0, Left(c2, 1));
    var d2 := Sum(c1, Left(c3, 1));
    var d3 := Sum(c2, Left(c4, 1));
    var d4 := Sum(c3, Left(c0, 1));
    assert d0 == 0x67b28a72b3422cb0; assert d1 == 0x7842563b6768a7c0; assert d2 == 0xb847328f1f0d1d68;
    assert d3 == 0xf7bbb7a05ff1c704; assert d4 == 0x1975a65b4601ae3c;
    assert Left(Sum(s.a0, d0), 0) == 0x4b15076d03e46177; assert Left(Sum(s.a6, d1), 44) == 0xb78bb654d824eac0;
    assert Left(Sum(s.a12, d2), 43) == 0x4867c9ed48737ed7; assert Left(Sum(s.a18, d3), 21) == 0x69cd66cbb25a8e1c;
    assert Left(Sum(s.a24, d4), 14) == 0x258fddc0b1775c40; assert Left(Sum(s.a3, d3), 28) == 0xacf737f9ca8eaf31;
    assert Left(Sum(s.a9, d4), 20) == 0x6a4c2801fd4b551a; assert Left(Sum(s.a10, d0), 3) == 0x7fe9e1bf2ac33249;
    assert Left(Sum(s.a16, d1), 45) == 0x91110bd902f3c3a1; assert Left(Sum(s.a22, d2), 61) == 0xeca35e39338e738f;
    assert Left(Sum(s.a1, d1), 1) == 0x382516a3df4ba646; assert Left(Sum(s.a7, d2), 6) == 0xdbca8d292bfe180;
    assert Left(Sum(s.a13, d3), 25) == 0x8c7b97e9c3dc7d25; assert Left(Sum(s.a19, d4), 8) == 0xf2e3003d68679c59;
    assert Left(Sum(s.a20, d0), 18) == 0x90dd0ead2a156ff1; assert Left(Sum(s.a4, d4), 27) == 0x2e29e1daa4e4647;
    assert Left(Sum(s.a5, d0), 36) == 0xc429c266104069cf; assert Left(Sum(s.a11, d1), 10) == 0xbd8a26741553f08d;
    assert Left(Sum(s.a17, d2), 15) == 0x3e355cad7f1363b0; assert Left(Sum(s.a23, d3), 56) == 0x42e31b51e7b48525;
    assert Left(Sum(s.a2, d2), 62) == 0x7522529b193ab464; assert Left(Sum(s.a8, d3), 55) == 0x3551aca465e1cfd1;
    assert Left(Sum(s.a14, d4), 39) == 0x3b4eb8a7ab711b6d; assert Left(Sum(s.a15, d0), 41) == 0x4bc2a54f6d2d4223;
    assert Left(Sum(s.a21, d1), 2) == 0x391d02076427830a;
  }

  lemma Round6()
    ensures FlatWords(STATE_6, 0x8000000080008081) == STATE_7
  {
    var s := STATE_6;
    var c0 := Sum(Sum(Sum(Sum(s.a0, s.a5), s.a10), s.a15), s.a20);
    var c1 := Sum(Sum(Sum(Sum(s.a1, s.a6), s.a11), s.a16), s.a21);
    var c2 := Sum(Sum(Sum(Sum(s.a2, s.a7), s.a12), s.a17), s.a22);
    var c3 := Sum(Sum(Sum(Sum(s.a3, s.a8), s.a13), s.a18), s.a23);
    var c4 := Sum(Sum(Sum(Sum(s.a4, s.a9), s.a14), s.a19), s.a24);
    assert c0 == 0x460d419ce9c5307d; assert c1 == 0xb0ae29d276667a86; assert c2 == 0x2552e398add1dcb8;
    assert c3 == 0x598e73b6c468ab50; assert c4 == 0x154d6804b24bbf02;
    var d0 := Sum(c4, Left(c1, 1));
    var d1 := Sum(c0, Left(c2, 1));
    var d2 := Sum(c1, Left(c3, 1));
    var d3 := Sum(c2, Left(c4, 1));
    var d4 := Sum(c3, Left(c0, 1));
    assert d0 == 0x74113ba05e874a0f; assert d1 == 0xca886adb266890d; assert d2 == 0x3b2cebffeb72c26;
    assert d3 == 0xfc83391c946a2bc; assert d4 == 0xd594f08f17e2cbaa;
    assert Left(Sum(s.a0, d0), 0) == 0x77607564dd303f6e; assert Left(Sum(s.a6, d1), 44) == 0xd1db7e6f4a4ec4f1;
    assert Left(Sum(s.a12, d2), 43) == 0xd9951c7eaabeb1fb; assert Left(Sum(s.a18, d3), 21) == 0x6617c3f069c63fbd;
    assert Left(Sum(s.a24, d4), 14) == 0x17ab05c100cc7b36; assert Left(Sum(s.a3, d3), 28) == 0x7799c0d972c15577;
    assert Left(Sum(s.a9, d4), 20) == 0x6b6112de82f7b3fa; assert Left(Sum(s.a10, d0), 3) == 0x63b9d15604678366;
    assert Left(Sum(s.a16, d1), 45) == 0xdc7e595683885904; assert Left(Sum(s.a22, d2), 61) == 0x611c2e830ab896c8;
    assert Left(Sum(s.a1, d1), 1) == 0x35562df7b095c78b; assert Left(Sum(s.a7, d2), 6) == 0x3e5ec8395e0b9844;
    assert Left(Sum(s.a13, d3), 25) == 0x5ce8d77dc7aa1647; assert Left(Sum(s.a19, d4), 8) == 0x7eabbce056670753;
    assert Left(Sum(s.a20, d0), 18) == 0xe4e336b7b91c2cf5; assert Left(Sum(s.a4, d4), 27) == 0xfbf4a8eb52248cea;
    assert Left(Sum(s.a5, d0), 36) == 0x689c77fcd47cde79; assert Left(Sum(s.a11, d1), 10) == 0x50b9ac23eba355ce;
    assert Left(Sum(s.a17, d2), 15) == 0x75cdb5a02c577f7d; assert Left(Sum(s.a23, d3), 56) == 0xfb0028c646bd73d4;
    assert Left(Sum(s.a2, d2), 62) == 0x53f5e794adf840ac; assert Left(Sum(s.a8, d3), 55) == 0x96cf468cc401daf6;
    assert Left(Sum(s.a14, d4), 39) == 0xa1f2eda068ab391e; assert Left(Sum(s.a15, d0), 41) == 0xb538909ee3035be3;
    assert Left(Sum(s.a21, d1), 2) == 0xe5e4bd064e2c1b79;
  }

  lemma Round7()
    ensures FlatWords(STATE_7, 0x8000000000008009) == STATE_8
  {
    var s := STATE_7;
    var c0 := Sum(Sum(Sum(Sum(s.a0, s.a5), s.a10), s.a15), s.a20);
    var c1 := Sum(Sum(Sum(Sum(s.a1, s.a6), s.a11), s.a16), s.a21);
    var c2 := Sum(Sum(Sum(Sum(s.a2, s.a7), s.a12), s.a17), s.a22);
    var c3 := Sum(Sum(Sum(Sum(s.a3, s.a8), s.a13), s.a18), s.a23);
    var c4 := Sum(Sum(Sum(Sum(s.a4, s.a9), s.a14), s.a19), s.a24);
    assert c0 == 0x648320424681f6d6; assert c1 == 0xd3bc7766d316d404; assert c2 == 0x6da35e0705dfa6fc;
    assert c3 == 0x710778fd6f5d0faf; assert c4 == 0x8a41072cb3d21bb8;
    var d0 := Sum(c4, Left(c1, 1));
    var d1 := Sum(c0, Left(c2, 1));
    var d2 := Sum(c1, Left(c3, 1));
    var d3 := Sum(c2, Left(c4, 1));
    var d4 := Sum(c3, Left(c0, 1));
    assert d0 == 0x2d39e9e115ffb3b1; assert d1 == 0xbfc59c4c4d3ebb2e; assert d2 == 0x31b2869c0daccb5a;
    assert d3 == 0x7921505e627b918d; assert d4 == 0xb8013879e25ee203;
    assert Left(Sum(s.a0, d0), 0) == 0xd25d9c95e87f3d54; assert Left(Sum(s.a6, d1), 44) == 0x150d448e286924c4;
    assert Left(Sum(s.a12, d2), 43) == 0xf7adcf68d29fb318; assert Left(Sum(s.a18, d3), 21) == 0xbaebc58c5b41830c;
    assert Left(Sum(s.a24, d4), 14) == 0xe15dfb1cd8ca367b; assert Left(Sum(s.a3, d3), 28) == 0xad68daa787f76e38;
    assert Left(Sum(s.a9, d4), 20) == 0x4fc68d0d643d17d0; assert Left(Sum(s.a10, d0), 3) == 0xc67e9a91265391ca;
    assert Left(Sum(s.a16, d1), 45) == 0xc9ecde43bf4613a2; assert Left(Sum(s.a22, d2), 61) == 0x9a1088c78d257e4b;
    assert Left(Sum(s.a1, d1), 1) == 0x903843468c60e3b6; assert Left(Sum(s.a7, d2), 6) == 0xc2dc52c07ef3bd1c;
    assert Left(Sum(s.a13, d3), 25) == 0xfc693aaba82d3dcb; assert Left(Sum(s.a19, d4), 8) == 0x947ab20bbc3c643;
    assert Left(Sum(s.a20, d0), 18) == 0x9d5642b748557ff2; assert Left(Sum(s.a4, d4), 27) == 0x9f06e2cd217989bd;
    assert Left(Sum(s.a5, d0), 36) == 0x33ee6c25a38e8386; assert Left(Sum(s.a11, d1), 10) == 0x61f3d40dc089ea8e;
    assert Left(Sum(s.a17, d2), 15) == 0x917cd253cf0a7585; assert Left(Sum(s.a23, d3), 56) == 0xeade08825020a88a;
    assert Left(Sum(s.a2, d2), 62) == 0xfe63e7b8e9c68ea8; assert Left(Sum(s.a8, d3), 55) == 0xdf59ef64a848d944;
    assert Left(Sum(s.a14, d4), 39) == 0xa46b592b7567630a; assert Left(Sum(s.a15, d0), 41) == 0xb07dbb8dd99212d8;
    assert Left(Sum(s.a21, d1), 2) == 0xf40b2b7828fc8ce4;
  }

  lemma Round8()
    ensures FlatWords(STATE_8, 0x8a) == STATE_9
  {
    var s := STATE_8;
    var c0 := Sum(Sum(Sum(Sum(s.a0, s.a5), s.a10), s.a15), s.a20);
    var c1 := Sum(Sum(Sum(Sum(s.a1, s.a6), s.a11), s.a16), s.a21);
    var c2 := Sum(Sum(Sum(Sum(s.a2, s.a7), s.a12), s.a17), s.a22);
    var c3 := Sum(Sum(Sum(Sum(s.a3, s.a8), s.a13), s.a18), s.a23);
    var c4 := Sum(Sum(Sum(Sum(s.a4, s.a9), s.a14), s.a19), s.a24);
    assert c0 == 0x30e231d96ea96e15; assert c1 == 0xf47c7d123d75113f; assert c2 == 0xe1b6908719fcf339;
    assert c3 == 0x7361a81d0fc0bbbd; assert c4 == 0xdc7c4370f5734da2;
    var d0 := Sum(c4, Left(c1, 1));
    var d1 := Sum(c0, Left(c2, 1));
    var d2 := Sum(c1, Left(c3, 1));
    var d3 := Sum(c2, Left(c4, 1));
    var d4 := Sum(c3, Left(c0, 1));
    assert d0 == 0x3484b9548f996fdd; assert d1 == 0xf38f10d75d508866; assert d2 == 0x12bf2d2822f46645;
    assert d3 == 0x594e1666f31a687c; assert d4 == 0x12a5cbafd2926797;
    assert Left(Sum(s.a0, d0), 0) == 0x8479aea1b5704198; assert Left(Sum(s.a6, d1), 44) == 0x99d96b5c9d998a06;
    assert Left(Sum(s.a12, d2), 43) == 0x6b11f3d632b8a656; assert Left(Sum(s.a18, d3), 21) == 0xcf03a923999ba644;
    assert Left(Sum(s.a24, d4), 14) == 0xba24fe99ae8df9ed; assert Left(Sum(s.a3, d3), 28) == 0xb886ee274f1a5d76;
    assert Left(Sum(s.a9, d4), 20) == 0x6603fbf081cca334; assert Left(Sum(s.a10, d0), 3) == 0xc4ee91cc1fac6544;
    assert Left(Sum(s.a16, d1), 45) == 0x83dc2a0dafd41e3b; assert Left(Sum(s.a22, d2), 61) == 0x7e5ace8e6efff12d;
    assert Left(Sum(s.a1, d1), 1) == 0xdd80a9baf8f3594d; assert Left(Sum(s.a7, d2), 6) == 0xb46dcf4121a6f1b1;
    assert Left(Sum(s.a13, d3), 25) == 0xd99f25c76a04378; assert Left(Sum(s.a19, d4), 8) == 0x93cf0d0034cd1fd8;
    assert Left(Sum(s.a20, d0), 18) == 0x3b9ccde30dffab15; assert Left(Sum(s.a4, d4), 27) == 0xc852c28b67b7c385;
    assert Left(Sum(s.a5, d0), 36) == 0xa2c81ef19d471630; assert Left(Sum(s.a11, d1), 10) == 0x570c5cc187dde8c1;
    assert Left(Sum(s.a17, d2), 15) == 0x78d2f92e82608ce7; assert Left(Sum(s.a23, d3), 56) == 0xace353696beb8a78;
    assert Left(Sum(s.a2, d2), 62) == 0xa901b6141c38784b; assert Left(Sum(s.a8, d3), 55) == 0xf75ae54d02a7473d;
    assert Left(Sum(s.a14, d4), 39) == 0x2a0236e69bcccc74; assert Left(Sum(s.a15, d0), 41) == 0xc31cd1d7279723dd;
    assert Left(Sum(s.a21, d1), 2) == 0xf30974ddf62107c8;
  }

  lemma Round9()
    ensures FlatWords(STATE_9, 0x88) == STATE_10
  {
    var s := STATE_9;
    var c0 := Sum(Sum(Sum(Sum(s.a0, s.a5), s.a10), s.a15), s.a20);
    var c1 := Sum(Sum(Sum(Sum(s.a1, s.a6), s.a11), s.a16), s.a21);
    var c2 := Sum(Sum(Sum(Sum(s.a2, s.a7), s.a12), s.a17), s.a22);
    var c3 := Sum(Sum(Sum(Sum(s.a3, s.a8), s.a13), s.a18), s.a23);
    var c4 := Sum(Sum(Sum(Sum(s.a4, s.a9), s.a14), s.a19), s.a24);
    assert c0 == 0x36546f9388c6fc3e; assert c1 == 0xe2bfeb4eaf3ea89a; assert c2 == 0xf7e8ed19113ba6f;
    assert c3 == 0x6c13a44c4b096d11; assert c4 == 0xab3691b443c9b5d7;
    var d0 := Sum(c4, Left(c1, 1));
    var d1 := Sum(c0, Left(c2, 1));
    var d2 := Sum(c1, Left(c3, 1));
    var d3 := Sum(c2, Left(c4, 1));
    var d4 := Sum(c3, Left(c0, 1));
    assert d0 == 0x6e4947291db4e4e2; assert d1 == 0x28a97230aae188e0; assert d2 == 0x3a98a3d6392c72b8;
    assert d3 == 0x5913adb91680d1c0; assert d4 == 0xbb7b6b5a84956d;
    assert Left(Sum(s.a0, d0), 0) == 0x8830790a8ae481a0; assert Left(Sum(s.a6, d1), 44) == 0xd31ef4dbaa3c18b7;
    assert Left(Sum(s.a12, d2), 43) == 0xf48e28f88c8b4a35; assert Left(Sum(s.a18, d3), 21) == 0x82b21e83944c3a3a;
    assert Left(Sum(s.a24, d4), 14) == 0x13bfeb88a564697a; assert Left(Sum(s.a3, d3), 28) == 0xa9e6b7794924904b;
    assert Left(Sum(s.a9, d4), 20) == 0x435b4bfc64038e0a; assert Left(Sum(s.a10, d0), 3) == 0xd2cef47d9a3dff3d;
    assert Left(Sum(s.a16, d1), 45) == 0xd35ed45679bde6f0; assert Left(Sum(s.a22, d2), 61) == 0x841376270e581759;
    assert Left(Sum(s.a1, d1), 1) == 0x6ae4229b7cf605cc; assert Left(Sum(s.a7, d2), 6) == 0x9d3da619aafdbe20;
    assert Left(Sum(s.a13, d3), 25) == 0x43a49b3ca01db901; assert Left(Sum(s.a19, d4), 8) == 0xd03472a92f0b258e;
    assert Left(Sum(s.a20, d0), 18) == 0x8e7e631053a73d23; assert Left(Sum(s.a4, d4), 27) == 0x77e407343518fe25;
    assert Left(Sum(s.a5, d0), 36) == 0xc8efdd45623a9024; assert Left(Sum(s.a11, d1), 10) == 0xac1c62c2997443a;
    assert Left(Sum(s.a17, d2), 15) == 0xfeab6bbd4c30f4da; assert Left(Sum(s.a23, d3), 56) == 0x1e920ffe6e390f8a;
    assert Left(Sum(s.a2, d2), 62) == 0xd86b41a60b642351; assert Left(Sum(s.a8, d3), 55) == 0xd4ad25d3cadc2a61;
    assert Left(Sum(s.a14, d4), 39) == 0x3fcf640da57864ab; assert Left(Sum(s.a15, d0), 41) == 0x379f4de63f8b44f1;
    assert Left(Sum(s.a21, d1), 2) == 0x7bbd59b23157b150;
  }

  lemma Round10()
    ensures FlatWords(STATE_10, 0x80008009) == STATE_11
  {
    var s := STATE_10;
    var c0 := Sum(Sum(Sum(Sum(s.a0, s.a5), s.a10), s.a15), s.a20);
    var c1 := Sum(Sum(Sum(Sum(s.a1, s.a6), s.a11), s.a16), s.a21);
    var c2 := Sum(Sum(Sum(Sum(s.a2, s.a7), s.a12), s.a17), s.a22);
    var c3 := Sum(Sum(Sum(Sum(s.a3, s.a8), s.a13), s.a18), s.a23);
    var c4 := Sum(Sum(Sum(Sum(s.a4, s.a9), s.a14), s.a19), s.a24);
    assert c0 == 0x3b7b4d5b3350fb7f; assert c1 == 0x7630b75bec41160c; assert c2 == 0x39c33f36fdddef0;
    assert c3 == 0x68ae0ff2cd95bb05; assert c4 == 0x747c1cb6a35d59cd;
    var d0 := Sum(c4, Left(c1, 1));
    var d1 := Sum(c0, Left(c2, 1));
    var d2 := Sum(c1, Left(c3, 1));
    var d3 := Sum(c2, Left(c4, 1));
    var d4 := Sum(c3, Left(c0, 1));
    assert d0 == 0x981d72017bdf75d5; assert d1 == 0x3c432abdeceb469f; assert d2 == 0xa76ca8be776a6006;
    assert d3 == 0xeb640a9e29676d6a; assert d4 == 0x1e589544ab344dfb;
    assert Left(Sum(s.a0, d0), 0) == 0x34ad032bf5b8b6fd; assert Left(Sum(s.a6, d1), 44) == 0x8c8557e086143e96;
    assert Left(Sum(s.a12, d2), 43) == 0x9e0937541194943e; assert Left(Sum(s.a18, d3), 21) == 0x246e8aed32ae956c;
    assert Left(Sum(s.a24, d4), 14) == 0x7a29d6befd22d858; assert Left(Sum(s.a3, d3), 28) == 0xfb7abd7d0e1d6041;
    assert Left(Sum(s.a9, d4), 20) == 0xbe7816f54a2d852a; assert Left(Sum(s.a10, d0), 3) == 0x83ca4df0394b88c5;
    assert Left(Sum(s.a16, d1), 45) == 0x2ccf6010dbcd395e; assert Left(Sum(s.a22, d2), 61) == 0xba107b947a48d6b5;
    assert Left(Sum(s.a1, d1), 1) == 0xdadb90caad26dc45; assert Left(Sum(s.a7, d2), 6) == 0x68dfb8bac5e38c9c;
    assert Left(Sum(s.a13, d3), 25) == 0x7854789050b7a0f1; assert Left(Sum(s.a19, d4), 8) == 0xc142fb872f427188;
    assert Left(Sum(s.a20, d0), 18) == 0xcead566c4839acd1; assert Left(Sum(s.a4, d4), 27) == 0xe97241e4b2f74fd0;
    assert Left(Sum(s.a5, d0), 36) == 0x8c794aba17f7179a; assert Left(Sum(s.a11, d1), 10) == 0xbbb0952453f0c4c5;
    assert Left(Sum(s.a17, d2), 15) == 0xb5683e7a179e56de; assert Left(Sum(s.a23, d3), 56) == 0x9a5cb9477c1ccc2b;
    assert Left(Sum(s.a2, d2), 62) == 0xd0bbd853b6b05adc; assert Left(Sum(s.a8, d3), 55) == 0xcc08ef2fc808ff05;
    assert Left(Sum(s.a14, d4), 39) == 0x4d657c029fb92a3d; assert Left(Sum(s.a15, d0), 41) == 0x859fd5dbf2ee3a8e;
    assert Left(Sum(s.a21, d1), 2) == 0xa3f81a30f2d1b2bb;
  }

  lemma Round11()
    ensures FlatWords(STATE_11, 0x8000000a) == STATE_12
  {
    var s := STATE_11;
    var c0 := Sum(Sum(Sum(Sum(s.a0, s.a5), s.a10), s.a15), s.a20);
    var c1 := Sum(Sum(Sum(Sum(s.a1, s.a6), s.a11), s.a16), s.a21);
    var c2 := Sum(Sum(Sum(Sum(s.a2, s.a7), s.a12), s.a17), s.a22);
    var c3 := Sum(Sum(Sum(Sum(s.a3, s.a8), s.a13), s.a18), s.a23);
    var c4 := Sum(Sum(Sum(Sum(s.a4, s.a9), s.a14), s.a19), s.a24);
    assert c0 == 0x1daa1b3bb5a3f70d; assert c1 == 0x13e0dc177d83bc75; assert c2 == 0x7d8a2bc971095802;
    assert c3 == 0x9d897fd20419ac9f; assert c4 == 0x933d0b770e73e417;
    var d0 := Sum(c4, Left(c1, 1));
    var d1 := Sum(c0, Left(c2, 1));
    var d2 := Sum(c1, Left(c3, 1));
    var d3 := Sum(c2, Left(c4, 1));
    var d4 := Sum(c3, Left(c0, 1));
    assert d0 == 0xb4fcb359f5749cfd; assert d1 == 0xe6be4ca957b14709; assert d2 == 0x28f223b375b0e54a;
    assert d3 == 0x5bf03d276dee902d; assert d4 == 0xa6dd49a56f5e4285;
    assert Left(Sum(s.a0, d0), 0) == 0x92599066914c2a21; assert Left(Sum(s.a6, d1), 44) == 0x8f33974c37a5cdf1;
    assert Left(Sum(s.a12, d2), 43) == 0xf64f52f05afa5b29; assert Left(Sum(s.a18, d3), 21) == 0x7fbf1278a471f748;
    assert Left(Sum(s.a24, d4), 14) == 0x5d2e7561d54fc249; assert Left(Sum(s.a3, d3), 28) == 0xb5fd823e47b1ab6c;
    assert Left(Sum(s.a9, d4), 20) == 0xb15536111a18cd3; assert Left(Sum(s.a10, d0), 3) == 0xf13b1c9a423306cb;
    assert Left(Sum(s.a16, d1), 45) == 0x8512dd1e5892889; assert Left(Sum(s.a22, d2), 61) == 0xc8feeab23d4309e8;
    assert Left(Sum(s.a1, d1), 1) == 0x94bb27c1e71ef1be; assert Left(Sum(s.a7, d2), 6) == 0x4a1d71db3eeacb8e;
    assert Left(Sum(s.a13, d3), 25) == 0x45cf55634315c08c; assert Left(Sum(s.a19, d4), 8) == 0x88faf816429ea438;
    assert Left(Sum(s.a20, d0), 18) == 0xec2951d718659489; assert Left(Sum(s.a4, d4), 27) == 0xdc83c496faa7a65e;
    assert Left(Sum(s.a5, d0), 36) == 0xa2bf4794e044724c; assert Left(Sum(s.a11, d1), 10) == 0x8ddc52f44a6a743d;
    assert Left(Sum(s.a17, d2), 15) == 0x1bc9272054d74cab; assert Left(Sum(s.a23, d3), 56) == 0xe78e6c28bf9b20e2;
    assert Left(Sum(s.a2, d2), 62) == 0x3b3e903d6a490e59; assert Left(Sum(s.a8, d3), 55) == 0x999b2aecaf591b44;
    assert Left(Sum(s.a14, d4), 39) == 0xd37766243a1bfcb3; assert Left(Sum(s.a15, d0), 41) == 0x626d0dc1ccf720f;
    assert Left(Sum(s.a21, d1), 2) == 0xa8b0897ffffea23a;
  }

  lemma Round12()
    ensures FlatWords(STATE_12, 0x8000808b) == STATE_13
  {
    var s := STATE_12;
    var c0 := Sum(Sum(Sum(Sum(s.a0, s.a5), s.a10), s.a15), s.a20);
    var c1 := Sum(Sum(Sum(Sum(s.a1, s.a6), s.a11), s.a16), s.a21);
    var c2 := Sum(Sum(Sum(Sum(s.a2, s.a7), s.a12), s.a17), s.a22);
    var c3 := Sum(Sum(Sum(Sum(s.a3, s.a8), s.a13), s.a18), s.a23);
    var c4 := Sum(Sum(Sum(Sum(s.a4, s.a9), s.a14), s.a19), s.a24);
    assert c0 == 0x9e227d587078287c; assert c1 == 0x6adee40b46a1415a; assert c2 == 0xf429c81032b8a470;
    assert c3 == 0x4e3606dfaef12412; assert c4 == 0xd95c04c01b1d57b7;
    var d0 := Sum(c4, Left(c1, 1));
    var d1 := Sum(c0, Left(c2, 1));
    var d2 := Sum(c1, Left(c3, 1));
    var d3 := Sum(c2, Left(c4, 1));
    var d4 := Sum(c3, Left(c0, 1));
    assert d0 == 0xce1ccd6965fd503; assert d1 == 0x7671ed781509609d; assert d2 == 0xf6b2e9b41b43097e;
    assert d3 == 0x4691c19004820b1f; assert d4 == 0x7272fc6f4e0174eb;
    assert Left(Sum(s.a0, d0), 0) == 0xeef41c00cf49ed20; assert Left(Sum(s.a6, d1), 44) == 0xc44e75249f58a12;
    assert Left(Sum(s.a12, d2), 43) == 0xbecb9ebbe5e8b201; assert Left(Sum(s.a18, d3), 21) == 0xc4c20e383508ab2c;
    assert Left(Sum(s.a24, d4), 14) == 0xd7f40d3bf1f55690; assert Left(Sum(s.a3, d3), 28) == 0xea0f3d477bb7f53e;
    assert Left(Sum(s.a9, d4), 20) == 0x79c63427990b08c4; assert Left(Sum(s.a10, d0), 3) == 0xecc779b982a125ec;
    assert Left(Sum(s.a16, d1), 45) == 0x34a78d9f1fd9c3b; assert Left(Sum(s.a22, d2), 61) == 0xb1aab0d6784d0ebf;
    assert Left(Sum(s.a1, d1), 1) == 0xe1e4f4790d5a1259; assert Left(Sum(s.a7, d2), 6) == 0xc9cdc3104c83b571;
    assert Left(Sum(s.a13, d3), 25) == 0xd420d9c23bdf23f; assert Left(Sum(s.a19, d4), 8) == 0xc09347f1da0409b7;
    assert Left(Sum(s.a20, d0), 18) == 0x63afb050ffa5d6ec; assert Left(Sum(s.a4, d4), 27) == 0x35ef7b9b9113f470;
    assert Left(Sum(s.a5, d0), 36) == 0x3fc7c67493642729; assert Left(Sum(s.a11, d1), 10) == 0x70d2dcada63c8ed1;
    assert Left(Sum(s.a17, d2), 15) == 0x79a47d10ae81cfb4; assert Left(Sum(s.a23, d3), 56) == 0x5153b9014c184c75;
    assert Left(Sum(s.a2, d2), 62) == 0x803f7791442dd495; assert Left(Sum(s.a8, d3), 55) == 0xc93de0f626d1ddc0;
    assert Left(Sum(s.a14, d4), 39) == 0x4275316a2ffed127; assert Left(Sum(s.a15, d0), 41) == 0xa4eed9ba443040cd;
    assert Left(Sum(s.a21, d1), 2) == 0xafa95d32fa51e757;
  }

  lemma Round13()
    ensures FlatWords(STATE_13, 0x800000000000008b) == STATE_14
  {
    var s := STATE_13;
    var c0 := Sum(Sum(Sum(Sum(s.a0, s.a5), s.a10), s.a15), s.a20);
    var c1 := Sum(Sum(Sum(Sum(s.a1, s.a6), s.a11), s.a16), s.a21);
    var c2 := Sum(Sum(Sum(Sum(s.a2, s.a7), s.a12), s.a17), s.a22);
    var c3 := Sum(Sum(Sum(Sum(s.a3, s.a8), s.a13), s.a18), s.a23);
    var c4 := Sum(Sum(Sum(Sum(s.a4, s.a9), s.a14), s.a19), s.a24);
    assert c0 == 0x20178d08443875f9; assert c1 == 0x64829d46d815141d; assert c2 == 0xe603b25dda3b1d2b;
    assert c3 == 0x1caeac896c8f4968; assert c4 == 0xa1c20dfe20dd805a;
    var d0 := Sum(c4, Left(c1, 1));
    var d1 := Sum(c0, Left(c2, 1));
    var d2 := Sum(c1, Left(c3, 1));
    var d3 := Sum(c2, Left(c4, 1));
    var d4 := Sum(c3, Left(c0, 1));
    assert d0 == 0x68c7377390f7a860; assert d1 == 0xec10e9b3f04e4fae; assert d2 == 0x5ddfc454010b86cd;
    assert d3 == 0xa587a9a19b801d9e; assert d4 == 0x5c81b699e4ffa29a;
    assert Left(Sum(s.a0, d0), 0) == 0x34b833da7bb6f5ca; assert Left(Sum(s.a6, d1), 44) == 0x9df7996deddd4181;
    assert Left(Sum(s.a12, d2), 43) == 0xbd15d39d8bce4038; assert Left(Sum(s.a18, d3), 21) == 0xc574804c455f11f2;
    assert Left(Sum(s.a24, d4), 14) == 0x1af34f1f93236e8a; assert Left(Sum(s.a3, d3), 28) == 0x9a0801f924945b79;
    assert Left(Sum(s.a9, d4), 20) == 0x66f1cbaa4e5fceb0; assert Left(Sum(s.a10, d0), 3) == 0x690e7c35f48fc1bc;
    assert Left(Sum(s.a16, d1), 45) == 0x65347b5e61daed75; assert Left(Sum(s.a22, d2), 61) == 0x2957e27d2969e1f;
    assert Left(Sum(s.a1, d1), 1) == 0x40a81dc353779921; assert Left(Sum(s.a7, d2), 6) == 0x6e0f7ae2eaa86940;
    assert Left(Sum(s.a13, d3), 25) == 0xf283bc2871caa954; assert Left(Sum(s.a19, d4), 8) == 0xd28bfcaa83ede607;
    assert Left(Sum(s.a20, d0), 18) == 0x47ab77d1f34baae1; assert Left(Sum(s.a4, d4), 27) == 0x80adf7b0c45baac7;
    assert Left(Sum(s.a5, d0), 36) == 0x9e0787606c943ace; assert Left(Sum(s.a11, d1), 10) == 0x31a3099337cd7f95;
    assert Left(Sum(s.a17, d2), 15) == 0x4c7c7397842e96af; assert Left(Sum(s.a23, d3), 56) == 0xd3017f529adb9c4d;
    assert Left(Sum(s.a2, d2), 62) == 0x3c0816fb09059817; assert Left(Sum(s.a8, d3), 55) == 0x52f6646e3cb4e7b8;
    assert Left(Sum(s.a14, d4), 39) == 0xede8ab1b9382e4ad; assert Left(Sum(s.a15, d0), 41) == 0xf9a9803a70a8c24b;
    assert Left(Sum(s.a21, d1), 2) == 0x69f07565a7e4a9a;
  }

  lemma Round14()
    ensures FlatWords(STATE_14, 0x8000000000008089) == STATE_15
  {
    var s := STATE_14;
    var c0 := Sum(Sum(Sum(Sum(s.a0, s.a5), s.a10), s.a15), s.a20);
    var c1 := Sum(Sum(Sum(Sum(s.a1, s.a6), s.a11), s.a16), s.a21);
    var c2 := Sum(Sum(Sum(Sum(s.a2, s.a7), s.a12), s.a17), s.a22);
    var c3 := Sum(Sum(Sum(Sum(s.a3, s.a8), s.a13), s.a18), s.a23);
    var c4 := Sum(Sum(Sum(Sum(s.a4, s.a9), s.a14), s.a19), s.a24);
    assert c0 == 0xe79bbfa4f280c1fd; assert c1 == 0x41fdfa873e64c2ef; assert c2 == 0x72e6f26fca65c7da;
    assert c3 == 0x43b25d065a4f3dc3; assert c4 == 0x15167eae08e51fc2;
    var d0 := Sum(c4, Left(c1, 1));
    var d1 := Sum(c0, Left(c2, 1));
    var d2 := Sum(c1, Left(c3, 1));
    var d3 := Sum(c2, Left(c4, 1));
    var d4 := Sum(c3, Left(c0, 1));
    assert d0 == 0x96ed8ba0742c9a1c; assert d1 == 0x2565b7b664b4e49; assert d2 == 0xc699408b8afab969;
    assert d3 == 0x58ca0f33dbaff85e; assert d4 == 0x8c85224fbf4ebe38;
    assert Left(Sum(s.a0, d0), 0) == 0x255faea0d986f65; assert Left(Sum(s.a6, d1), 44) == 0x4acb86097939b294;
    assert Left(Sum(s.a12, d2), 43) == 0x90c6e989d7ff9459; assert Left(Sum(s.a18, d3), 21) == 0x808370298e62835f;
    assert Left(Sum(s.a24, d4), 14) == 0x1147746024c2b23b; assert Left(Sum(s.a3, d3), 28) == 0xff66478ecb9b6bfb;
    assert Left(Sum(s.a9, d4), 20) == 0x66a2793a4a7eae19; assert Left(Sum(s.a10, d0), 3) == 0x36289359b0cc194a;
    assert Left(Sum(s.a16, d1), 45) == 0xbe95ba01b5c3f15f; assert Left(Sum(s.a22, d2), 61) == 0x85acfd9a8265caaa;
    assert Left(Sum(s.a1, d1), 1) == 0xbf8384ad9f0e3c15; assert Left(Sum(s.a7, d2), 6) == 0x458e27fb1c5ab7eb;
    assert Left(Sum(s.a13, d3), 25) == 0x36b0ec1eb31483f7; assert Left(Sum(s.a19, d4), 8) == 0x865d5d0d11327d41;
    assert Left(Sum(s.a20, d0), 18) == 0x592bf8ac08381fb4; assert Left(Sum(s.a4, d4), 27) == 0xad41268598f98f2b;
    assert Left(Sum(s.a5, d0), 36) == 0x38c06905ebbe4ce; assert Left(Sum(s.a11, d1), 10) == 0x45846c3b198429b1;
    assert Left(Sum(s.a17, d2), 15) == 0xa2ac53f3675e321d; assert Left(Sum(s.a23, d3), 56) == 0x1099639fa0aa06aa;
    assert Left(Sum(s.a2, d2), 62) == 0x5843f70164c525d6; assert Left(Sum(s.a8, d3), 55) == 0x25d2fb3adacf3aaa;
    assert Left(Sum(s.a14, d4), 39) == 0x46ba4cf2949bdf72; assert Left(Sum(s.a15, d0), 41) == 0x7ceb946fc0e90746;
    assert Left(Sum(s.a21, d1), 2) == 0x284fcd4eb5eaecd;
  }

  lemma Round15()
    ensures FlatWords(STATE_15, 0x8000000000008003) == STATE_16
  {
    var s := STATE_15;
    var c0 := Sum(Sum(Sum(Sum(s.a0, s.a5), s.a10), s.a15), s.a20);
    var c1 := Sum(Sum(Sum(Sum(s.a1, s.a6), s.a11), s.a16), s.a21);
    var c2 := Sum(Sum(Sum(Sum(s.a2, s.a7), s.a12), s.a17), s.a22);
    var c3 := Sum(Sum(Sum(Sum(s.a3, s.a8), s.a13), s.a18), s.a23);
    var c4 := Sum(Sum(Sum(Sum(s.a4, s.a9), s.a14), s.a19), s.a24);
    assert c0 == 0x83a6a7633567cb81; assert c1 == 0xdd098f8e8072f819; assert c2 == 0xc83b1fe1d8226c38;
    assert c3 == 0x4ddddb374670fe1d; assert c4 == 0xf0c7f954497622d4;
    var d0 := Sum(c4, Left(c1, 1));
    var d1 := Sum(c0, Left(c2, 1));
    var d2 := Sum(c1, Left(c3, 1));
    var d3 := Sum(c2, Left(c4, 1));
    var d4 := Sum(c3, Left(c0, 1));
    assert d0 == 0x4ad4e6494993d2e7; assert d1 == 0x13d098a0852313f0; assert d2 == 0x46b239e00c930423;
    assert d3 == 0x29b4ed494ace2991; assert d4 == 0x4a9095f12cbf691e;
    assert Left(Sum(s.a0, d0), 0) == 0x58857523c2cd3942; assert Left(Sum(s.a6, d1), 44) == 0xe5dfcfde7c99aca5;
    assert Left(Sum(s.a12, d2), 43) == 0x7c2b014903aaf5bc; assert Left(Sum(s.a18, d3), 21) == 0x5746b83251a4cb17;
    assert Left(Sum(s.a24, d4), 14) == 0x1847d77af77edb61; assert Left(Sum(s.a3, d3), 28) == 0xacdb4e78aab2717e;
    assert Left(Sum(s.a9, d4), 20) == 0x5baebe27b4cfbc5; assert Left(Sum(s.a10, d0), 3) == 0x3b3d5703accf7736;
    assert Left(Sum(s.a16, d1), 45) == 0x5ca6564e91be17b8; assert Left(Sum(s.a22, d2), 61) == 0x4183b05663ce7b;
    assert Left(Sum(s.a1, d1), 1) == 0xb2341d13e83544c4; assert Left(Sum(s.a7, d2), 6) == 0x6cbbc8ef9ec5f25c;
    assert Left(Sum(s.a13, d3), 25) == 0x8b99f4e9a212d368; assert Left(Sum(s.a19, d4), 8) == 0x85f67eca170f7058;
    assert Left(Sum(s.a20, d0), 18) == 0x5620a518c98542fc; assert Left(Sum(s.a4, d4), 27) == 0x83c2e25da89aef2c;
    assert Left(Sum(s.a5, d0), 36) == 0x288a85ea5ba23863; assert Left(Sum(s.a11, d1), 10) == 0x4eb96a656f606f58;
    assert Left(Sum(s.a17, d2), 15) == 0xbaebcadb94980993; assert Left(Sum(s.a23, d3), 56) == 0xc50d1c7a278ea62f;
    assert Left(Sum(s.a2, d2), 62) == 0xb1cc350a7efb2816; assert Left(Sum(s.a8, d3), 55) == 0xcff6b1aaa65b4bfc;
    assert Left(Sum(s.a14, d4), 39) == 0x6bfaa029dba70792; assert Left(Sum(s.a15, d0), 41) == 0xdca9fb472b51cfa0;
    assert Left(Sum(s.a21, d1), 2) == 0x390fce5c7e30a578;
  }

  lemma Round16()
    ensures FlatWords(STATE_16, 0x8000000000008002) == STATE_17
  {
    var s := STATE_16;
    var c0 := Sum(Sum(Sum(Sum(s.a0, s.a5), s.a10), s.a15), s.a20);
    var c1 := Sum(Sum(Sum(Sum(s.a1, s.a6), s.a11), s.a16), s.a21);
    var c2 := Sum(Sum(Sum(Sum(s.a2, s.a7), s.a12), s.a17), s.a22);
    var c3 := Sum(Sum(Sum(Sum(s.a3, s.a8), s.a13), s.a18), s.a23);
    var c4 := Sum(Sum(Sum(Sum(s.a4, s.a9), s.a14), s.a19), s.a24);
    assert c0 == 0x3378bb1b8c7c5cd1; assert c1 == 0xc41b1338018349b; assert c2 == 0xd78e3f3fe60d65db;
    assert c3 == 0x2658066768263ec4; assert c4 == 0x3cef4d44999abb26;
    var d0 := Sum(c4, Left(c1, 1));
    var d1 := Sum(c0, Left(c2, 1));
    var d2 := Sum(c1, Left(c3, 1));
    var d3 := Sum(c2, Left(c4, 1));
    var d4 := Sum(c3, Left(c0, 1));
    assert d0 == 0x246c2f2399aad210; assert d1 == 0x9c64c56440669766; assert d2 == 0x40f1bdfd50544913;
    assert d3 == 0xae50a5b6d5381397; assert d4 == 0x40a9705070de8766;
    assert Left(Sum(s.a0, d0), 0) == 0xe4c95a0158453a49; assert Left(Sum(s.a6, d1), 44) == 0xa6c2bdd5c2eca2a1;
    assert Left(Sum(s.a12, d2), 43) == 0x34c6fccb464021d6; assert Left(Sum(s.a18, d3), 21) == 0xad19360a6082cf31;
    assert Left(Sum(s.a24, d4), 14) == 0xfab23bb987d8de5; assert Left(Sum(s.a3, d3), 28) == 0x5841df882b9963d8;
    assert Left(Sum(s.a9, d4), 20) == 0x26277f1c39c41c85; assert Left(Sum(s.a10, d0), 3) == 0xaac031828c6cbfa0;
    assert Left(Sum(s.a16, d1), 45) == 0x95f0c0959802916b; assert Left(Sum(s.a22, d2), 61) == 0x2141a3399bfa6ddb;
    assert Left(Sum(s.a1, d1), 1) == 0xf5ff6510d9f66380; assert Left(Sum(s.a7, d2), 6) == 0xe35ad3aeb6bd999e;
    assert Left(Sum(s.a13, d3), 25) == 0xffc40ecf9f176586; assert Left(Sum(s.a19, d4), 8) == 0xac69880470310aad;
    assert Left(Sum(s.a20, d0), 18) == 0x68a2fbd7f812d6a0; assert Left(Sum(s.a4, d4), 27) == 0xb5dd86c517eda16f;
    assert Left(Sum(s.a5, d0), 36) == 0x79ba75cb2b2755ab; assert Left(Sum(s.a11, d1), 10) == 0xe41e272eb914abd2;
    assert Left(Sum(s.a17, d2), 15) == 0x61dc0e194033a5a6; assert Left(Sum(s.a23, d3), 56) == 0x31f2396ff3fea2d4;
    assert Left(Sum(s.a2, d2), 62) == 0xcd36feff3d692b33; assert Left(Sum(s.a8, d3), 55) == 0x95af365fd8760b1a;
    assert Left(Sum(s.a14, d4), 39) == 0xcdbbc12d010ad257; assert Left(Sum(s.a15, d0), 41) == 0xe0f449c33f4ef62a;
    assert Left(Sum(s.a21, d1), 2) == 0x1e4cbe2319b452eb;
  }

  lemma Round17()
    ensures FlatWords(STATE_17, 0x8000000000000080) == STATE_18
  {
    var s := STATE_17;
    var c0 := Sum(Sum(Sum(Sum(s.a0, s.a5), s.a10), s.a15), s.a20);
    var c1 := Sum(Sum(Sum(Sum(s.a1, s.a6), s.a11), s.a16), s.a21);
    var c2 := Sum(Sum(Sum(Sum(s.a2, s.a7), s.a12), s.a17), s.a22);
    var c3 := Sum(Sum(Sum(Sum(s.a3, s.a8), s.a13), s.a18), s.a23);
    var c4 := Sum(Sum(Sum(Sum(s.a4, s.a9), s.a14), s.a19), s.a24);
    assert c0 == 0xf9c8176e989c8c2c; assert c1 == 0x322e103590039d44; assert c2 == 0x246cf3894dde38b0;
    assert c3 == 0x7d8aff9db6613e48; assert c4 == 0x17799a7d4d2e9692;
    var d0 := Sum(c4, Left(c1, 1));
    var d1 := Sum(c0, Left(c2, 1));
    var d2 := Sum(c1, Left(c3, 1));
    var d3 := Sum(c2, Left(c4, 1));
    var d4 := Sum(c3, Left(c0, 1));
    assert d0 == 0x7325ba166d29ac1a; assert d1 == 0xb111f07c0320fd4c; assert d2 == 0xc93bef0efcc1e1d4;
    assert d3 == 0xa9fc773d7831594; assert d4 == 0x8e1ad14087582611;
    assert Left(Sum(s.a0, d0), 0) == 0x7e8a01d316c1707; assert Left(Sum(s.a6, d1), 44) == 0x6e18282064f752ae;
    assert Left(Sum(s.a12, d2), 43) == 0xa28293b3ec90975e; assert Left(Sum(s.a18, d3), 21) == 0xfd527636233de9c9;
    assert Left(Sum(s.a24, d4), 14) == 0xdbd8d7be9d3ca037; assert Left(Sum(s.a3, d3), 28) == 0x9f701e8ad47c6a97;
    assert Left(Sum(s.a9, d4), 20) == 0x26d0ce657cf897d5; assert Left(Sum(s.a10, d0), 3) == 0xd2f69a3deeed5cd4;
    assert Left(Sum(s.a16, d1), 45) == 0x9598792d71b4cd04; assert Left(Sum(s.a22, d2), 61) == 0x435113007faf6668;
    assert Left(Sum(s.a1, d1), 1) == 0x3d949f53c29d2399; assert Left(Sum(s.a7, d2), 6) == 0xfebf691cd54cb910;
    assert Left(Sum(s.a13, d3), 25) == 0xef4cac7c72675696; assert Left(Sum(s.a19, d4), 8) == 0xca99255ca4d045f7;
    assert Left(Sum(s.a20, d0), 18) == 0x172545215db3d80e; assert Left(Sum(s.a4, d4), 27) == 0x7cec695aa41d9ab9;
    assert Left(Sum(s.a5, d0), 36) == 0x2986ce2a3a4651cc; assert Left(Sum(s.a11, d1), 10) == 0x8a8f4b56f5bbed49;
    assert Left(Sum(s.a17, d2), 15) == 0xfca37b0ca42b1e83; assert Left(Sum(s.a23, d3), 56) == 0xae2b59ce6ccc84ca;
    assert Left(Sum(s.a2, d2), 62) == 0xbfd7c49d08bf3031; assert Left(Sum(s.a8, d3), 55) == 0x7fe3b7adb337c043;
    assert Left(Sum(s.a14, d4), 39) == 0xa1b457f25c5c1cac; assert Left(Sum(s.a15, d0), 41) == 0xa94e4a85f87defd5;
    assert Left(Sum(s.a21, d1), 2) == 0x13eb3b87944b49f8;
  }

  lemma Round18()
    ensures FlatWords(STATE_18, 0x800a) == STATE_19
  {
    var s := STATE_18;
    var c0 := Sum(Sum(Sum(Sum(s.a0, s.a5), s.a10), s.a15), s.a20);
    var c1 := Sum(Sum(Sum(Sum(s.a1, s.a6), s.a11), s.a16), s.a21);
    var c2 := Sum(Sum(Sum(Sum(s.a2, s.a7), s.a12), s.a17), s.a22);
    var c3 := Sum(Sum(Sum(Sum(s.a3, s.a8), s.a13), s.a18), s.a23);
    var c4 := Sum(Sum(Sum(Sum(s.a4, s.a9), s.a14), s.a19), s.a24);
    assert c0 == 0xb5cecaee2af8cf7a; assert c1 == 0xc4b1cad772bef4d7; assert c2 == 0xf1474b3f5e1356cf;
    assert c3 == 0xbbfe491f00b6865a; assert c4 == 0xf9f5fe9f97b61f8d;
    var d0 := Sum(c4, Left(c1, 1));
    var d1 := Sum(c0, Left(c2, 1));
    var d2 := Sum(c1, Left(c3, 1));
    var d3 := Sum(c2, Left(c4, 1));
    var d4 := Sum(c3, Left(c0, 1));
    assert d0 == 0x70966b3172cbf622; assert d1 == 0x57405c9096de62e5; assert d2 == 0xb34d58e973d3f862;
    assert d3 == 0x2acb600717f69d4; assert d4 == 0xd063dcc3554718af;
    assert Left(Sum(s.a0, d0), 0) == 0x77fc58bfcba764f5; assert Left(Sum(s.a6, d1), 44) == 0x674307498f3f5fb3;
    assert Left(Sum(s.a12, d2), 43) == 0xb9b7e2492da5a2c4; assert Left(Sum(s.a18, d3), 21) == 0xa38aa8adacd5d97d;
    assert Left(Sum(s.a24, d4), 14) == 0x35191c83244560ea; assert Left(Sum(s.a3, d3), 28) == 0x77202971dfbdee03;
    assert Left(Sum(s.a9, d4), 20) == 0xfa60268eb87b3b20; assert Left(Sum(s.a10, d0), 3) == 0x6213801493ac99ea;
    assert Left(Sum(s.a16, d1), 45) == 0x435615cd4565593; assert Left(Sum(s.a22, d2), 61) == 0xc00b07c32571bc9c;
    assert Left(Sum(s.a1, d1), 1) == 0xc8102169e208b194; assert Left(Sum(s.a7, d2), 6) == 0xfeb03524cd61b788;
    assert Left(Sum(s.a13, d3), 25) == 0x1caf461f65c14a12; assert Left(Sum(s.a19, d4), 8) == 0x4a032d23c9dd217f;
    assert Left(Sum(s.a20, d0), 18) == 0xbff8d8f36afd3d57; assert Left(Sum(s.a4, d4), 27) == 0xec6747c1831d581a;
    assert Left(Sum(s.a5, d0), 36) == 0x4b2d4b53fc065a32; assert Left(Sum(s.a11, d1), 10) == 0xb8d2331c0b6a52a5;
    assert Left(Sum(s.a17, d2), 15) == 0x9bee7564ab19de5; assert Left(Sum(s.a23, d3), 56) == 0x7f6389d81b6b6;
    assert Left(Sum(s.a2, d2), 62) == 0x84d1d2b480d0dbc2; assert Left(Sum(s.a8, d3), 55) == 0x23858a61d3c04dd6;
    assert Left(Sum(s.a14, d4), 39) == 0xda2c5082b6fcf70e; assert Left(Sum(s.a15, d0), 41) == 0xdf81351ce6067e26;
    assert Left(Sum(s.a21, d1), 2) == 0x83a78ce2172107dc;
  }

  lemma Round19()
    ensures FlatWords(STATE_19, 0x800000008000000a) == STATE_20
  {
    var s := STATE_19;
    var c0 := Sum(Sum(Sum(Sum(s.a0, s.a5), s.a10), s.a15), s.a20);
    var c1 := Sum(Sum(Sum(Sum(s.a1, s.a6), s.a11), s.a16), s.a21);
    var c2 := Sum(Sum(Sum(Sum(s.a2, s.a7), s.a12), s.a17), s.a22);
    var c3 := Sum(Sum(Sum(Sum(s.a3, s.a8), s.a13), s.a18), s.a23);
    var c4 := Sum(Sum(Sum(Sum(s.a4, s.a9), s.a14), s.a19), s.a24);
    assert c0 == 0x50288757d10fe2a1; assert c1 == 0x4bba7443996e7dda; assert c2 == 0xc4311d47e17e63d3;
    assert c3 == 0xe6772c490e0b18ce; assert c4 == 0x57a5acf0e7505a55;
    var d0 := Sum(c4, Left(c1, 1));
    var d1 := Sum(c0, Left(c2, 1));
    var d2 := Sum(c1, Left(c3, 1));
    var d3 := Sum(c2, Left(c4, 1));
    var d4 := Sum(c3, Left(c0, 1));
    assert d0 == 0xc0d14477d58ca1e1; assert d1 == 0xd84abdd813f32506; assert d2 == 0x87542cd185784c47;
    assert d3 == 0x6b7a44a62fded779; assert d4 == 0x462622e6ac14dd8c;
    assert Left(Sum(s.a0, d0), 0) == 0x2f99fcc83eabe55a; assert Left(Sum(s.a6, d1), 44) == 0xa5a37260efa1eefd;
    assert Left(Sum(s.a12, d2), 43) == 0xc8d2a9701dd0f614; assert Left(Sum(s.a18, d3), 21) == 0x462cee605291d494;
    assert Left(Sum(s.a24, d4), 14) == 0x69917a0d779139a1; assert Left(Sum(s.a3, d3), 28) == 0x748a90a118a14ac3;
    assert Left(Sum(s.a9, d4), 20) == 0x3aba92770300e6d2; assert Left(Sum(s.a10, d0), 3) == 0x46713828b822c338;
    assert Left(Sum(s.a16, d1), 45) == 0x9e4e9249665935ec; assert Left(Sum(s.a22, d2), 61) == 0x2babde962454b752;
    assert Left(Sum(s.a1, d1), 1) == 0x7a03646a39384719; assert Left(Sum(s.a7, d2), 6) == 0x536a918dfd5f6849;
    assert Left(Sum(s.a13, d3), 25) == 0x1acc06ed0cc2f291; assert Left(Sum(s.a19, d4), 8) == 0x29dccc4d97691a45;
    assert Left(Sum(s.a20, d0), 18) == 0x1905c58320ae70a3; assert Left(Sum(s.a4, d4), 27) == 0x2c624d332399e1c9;
    assert Left(Sum(s.a5, d0), 36) == 0x9b5cf28b7e2ed160; assert Left(Sum(s.a11, d1), 10) == 0xea87715a3acf8d93;
    assert Left(Sum(s.a17, d2), 15) == 0x87f28d891e781fc3; assert Left(Sum(s.a23, d3), 56) == 0x5db0ab23ae490871;
    assert Left(Sum(s.a2, d2), 62) == 0x4abcb6a6aa377380; assert Left(Sum(s.a8, d3), 55) == 0x74ac3786e5108260;
    assert Left(Sum(s.a14, d4), 39) == 0xc47369e7bf7708e5; assert Left(Sum(s.a15, d0), 41) == 0xf3f2fd38c86774ab;
    assert Left(Sum(s.a21, d1), 2) == 0xf9384a9600c583c3;
  }

  lemma Round20()
    ensures FlatWords(STATE_20, 0x8000000080008081) == STATE_21
  {
    var s := STATE_20;
    var c0 := Sum(Sum(Sum(Sum(s.a0, s.a5), s.a10), s.a15), s.a20);
    var c1 := Sum(Sum(Sum(Sum(s.a1, s.a6), s.a11), s.a16), s.a21);
    var c2 := Sum(Sum(Sum(Sum(s.a2, s.a7), s.a12), s.a17), s.a22);
    var c3 := Sum(Sum(Sum(Sum(s.a3, s.a8), s.a13), s.a18), s.a23);
    var c4 := Sum(Sum(Sum(Sum(s.a4, s.a9), s.a14), s.a19), s.a24);
    assert c0 == 0x238b1ddfa4c8fd6d; assert c1 == 0xaa41a04f5981692c; assert c2 == 0xf2a2f2b5898b0a2a;
    assert c3 == 0x9772946cd7878a1e; assert c4 == 0xd3d1a2d6c2866357;
    var d0 := Sum(c4, Left(c1, 1));
    var d1 := Sum(c0, Left(c2, 1));
    var d2 := Sum(c1, Left(c3, 1));
    var d3 := Sum(c2, Left(c4, 1));
    var d4 := Sum(c3, Left(c0, 1));
    assert d0 == 0x8752e2487184b10e; assert d1 == 0xc6cef8b4b7dee938; assert d2 == 0x84a48896f68e7d11;
    assert d3 == 0x5501b7180c87cc85; assert d4 == 0xd064afd39e1670c4;
    assert Left(Sum(s.a0, d0), 0) == 0x609b9790df7f445e; assert Left(Sum(s.a6, d1), 44) == 0x73b2e647ae882f28;
    assert Left(Sum(s.a12, d2), 43) == 0x577914734c7fced6; assert Left(Sum(s.a18, d3), 21) == 0xd0226de659de562f;
    assert Left(Sum(s.a24, d4), 14) == 0x391176f4dcd9c757; assert Left(Sum(s.a3, d3), 28) == 0x8563cdc4b1525ddb;
    assert Left(Sum(s.a9, d4), 20) == 0x313b9426386f1ff7; assert Left(Sum(s.a10, d0), 3) == 0xaeac021241e3243f;
    assert Left(Sum(s.a16, d1), 45) == 0x5430b1c50d7d9b8; assert Left(Sum(s.a22, d2), 61) == 0x891bfc7ee92f3ed6;
    assert Left(Sum(s.a1, d1), 1) == 0xca8399a834fc0e8a; assert Left(Sum(s.a7, d2), 6) == 0xdd3f0a13aa0f0ef8;
    assert Left(Sum(s.a13, d3), 25) == 0x7b05fda3b03dbeb6; assert Left(Sum(s.a19, d4), 8) == 0xc8b6786c7968951e;
    assert Left(Sum(s.a20, d0), 18) == 0x723f0753282d36f4; assert Left(Sum(s.a4, d4), 27) == 0xf1443a1e01cebebf;
    assert Left(Sum(s.a5, d0), 36) == 0x107fae5b7995ae1d; assert Left(Sum(s.a11, d1), 10) == 0xd284e766a224d6d2;
    assert Left(Sum(s.a17, d2), 15) == 0xedf7362078591b11; assert Left(Sum(s.a23, d3), 56) == 0x2ea477fe006ed2c8;
    assert Left(Sum(s.a2, d2), 62) == 0x1979cc7af397a889; assert Left(Sum(s.a8, d3), 55) == 0xf44fa792b8393fd8;
    assert Left(Sum(s.a14, d4), 39) == 0x7f9413e404fdeabd; assert Left(Sum(s.a15, d0), 41) == 0xb8b8a997675c56a5;
    assert Left(Sum(s.a21, d1), 2) == 0x7896ca84b387d4a;
  }

  lemma Round21()
    ensures FlatWords(STATE_21, 0x8000000000008080) == STATE_22
  {
    var s := STATE_21;
    var c0 := Sum(Sum(Sum(Sum(s.a0, s.a5), s.a10), s.a15), s.a20);
    var c1 := Sum(Sum(Sum(Sum(s.a1, s.a6), s.a11), s.a16), s.a21);
    var c2 := Sum(Sum(Sum(Sum(s.a2, s.a7), s.a12), s.a17), s.a22);
    var c3 := Sum(Sum(Sum(Sum(s.a3, s.a8), s.a13), s.a18), s.a23);
    var c4 := Sum(Sum(Sum(Sum(s.a4, s.a9), s.a14), s.a19), s.a24);
    assert c0 == 0x269b8358bfab4187; assert c1 == 0xd72ea96c8ec97a42; assert c2 == 0xb9c1fbd73e520444;
    assert c3 == 0x4dc2115bd9c5b280; assert c4 == 0x39214338841a5ed3;
    var d0 := Sum(c4, Left(c1, 1));
    var d1 := Sum(c0, Left(c2, 1));
    var d2 := Sum(c1, Left(c3, 1));
    var d3 := Sum(c2, Left(c4, 1));
    var d4 := Sum(c3, Left(c0, 1));
    assert d0 == 0x977c11e19988aa56; assert d1 == 0x551874f6c30f490e; assert d2 == 0x4caa8bdb3d421f42;
    assert d3 == 0xcb837da63666b9e2; assert d4 == 0xf517eaa693318e;
    assert Left(Sum(s.a0, d0), 0) == 0x73ae96418680ae5f; assert Left(Sum(s.a6, d1), 44) == 0x48f796560e9dceb7;
    assert Left(Sum(s.a12, d2), 43) == 0xd418a02d338b5c6b; assert Left(Sum(s.a18, d3), 21) == 0x70c9f7f1d89ee688;
    assert Left(Sum(s.a24, d4), 14) == 0x9630b960d6e538de; assert Left(Sum(s.a3, d3), 28) == 0x6c9eefc55b2b914;
    assert Left(Sum(s.a9, d4), 20) == 0xbb647910d7cb9f6f; assert Left(Sum(s.a10, d0), 3) == 0xfffbef4dea20a6d3;
    assert Left(Sum(s.a16, d1), 45) == 0x7dc24d029955bc58; assert Left(Sum(s.a22, d2), 61) == 0xa687fb82e633fb96;
    assert Left(Sum(s.a1, d1), 1) == 0x4d51f66af80eec1f; assert Left(Sum(s.a7, d2), 6) == 0x879f6af562474eda;
    assert Left(Sum(s.a13, d3), 25) == 0xc4b7bc49ed176b3a; assert Left(Sum(s.a19, d4), 8) == 0x6ae455deece3462e;
    assert Left(Sum(s.a20, d0), 18) == 0x37fdbb6f0bea1657; assert Left(Sum(s.a4, d4), 27) == 0xcad656efc956200a;
    assert Left(Sum(s.a5, d0), 36) == 0x95ad7859c9bde356; assert Left(Sum(s.a11, d1), 10) == 0x55faa481011bf822;
    assert Left(Sum(s.a17, d2), 15) == 0x16b1cfa004ac4e17; assert Left(Sum(s.a23, d3), 56) == 0xc66b4b5463e1bd6f;
    assert Left(Sum(s.a2, d2), 62) == 0xcb0a36e3d4f1431; assert Left(Sum(s.a8, d3), 55) == 0xa9e5503b9d3b7090;
    assert Left(Sum(s.a14, d4), 39) == 0x5e838533fb095502; assert Left(Sum(s.a15, d0), 41) == 0xcc88574970d5b634;
    assert Left(Sum(s.a21, d1), 2) == 0x85fdeddc60d98b58;
  }

  lemma Round22()
    ensures FlatWords(STATE_22, 0x80000001) == STATE_23
  {
    var s := STATE_22;
    var c0 := Sum(Sum(Sum(Sum(s.a0, s.a5), s.a10), s.a15), s.a20);
    var c1 := Sum(Sum(Sum(Sum(s.a1, s.a6), s.a11), s.a16), s.a21);
    var c2 := Sum(Sum(Sum(Sum(s.a2, s.a7), s.a12), s.a17), s.a22);
    var c3 := Sum(Sum(Sum(Sum(s.a3, s.a8), s.a13), s.a18), s.a23);
    var c4 := Sum(Sum(Sum(Sum(s.a4, s.a9), s.a14), s.a19), s.a24);
    assert c0 == 0xf8b348ba29154335; assert c1 == 0xc0cca2fd32469669; assert c2 == 0x343e6afaceaccf03;
    assert c3 == 0x94842730adc59ef5; assert c4 == 0xc34b3e87308804f7;
    var d0 := Sum(c4, Left(c1, 1));
    var d1 := Sum(c0, Left(c2, 1));
    var d2 := Sum(c1, Left(c3, 1));
    var d3 := Sum(c2, Left(c4, 1));
    var d4 := Sum(c3, Left(c0, 1));
    assert d0 == 0x42d27b7d54052824; assert d1 == 0x90cf9d4fb44cdd33; assert d2 == 0xe9c4ec9c69cdab82;
    assert d3 == 0xb2a817f4afbcc6ec; assert d4 == 0x65e2b644ffef189e;
    assert Left(Sum(s.a0, d0), 0) == 0x2574cd15e38716b3; assert Left(Sum(s.a6, d1), 44) == 0x25a542babe45d72d;
    assert Left(Sum(s.a12, d2), 43) == 0x968749c357d7a43e; assert Left(Sum(s.a18, d3), 21) == 0x9fe460d11f7591b9;
    assert Left(Sum(s.a24, d4), 14) == 0x82e247c1bcd19056; assert Left(Sum(s.a3, d3), 28) == 0x47722a665a3efe60;
    assert Left(Sum(s.a9, d4), 20) == 0xcc69b95e5637a415; assert Left(Sum(s.a10, d0), 3) == 0x7d18c8f908df28da;
    assert Left(Sum(s.a16, d1), 45) == 0xa70e00ec75c6cf2a; assert Left(Sum(s.a22, d2), 61) == 0x16c6582772599ef9;
    assert Left(Sum(s.a1, d1), 1) == 0xf1f2b992e58b6209; assert Left(Sum(s.a7, d2), 6) == 0xeac547973d3b5e5;
    assert Left(Sum(s.a13, d3), 25) == 0x5566b6d19520980c; assert Left(Sum(s.a19, d4), 8) == 0xa0d5009ca766a5b6;
    assert Left(Sum(s.a20, d0), 18) == 0x744c2d28e45c6181; assert Left(Sum(s.a4, d4), 27) == 0x9108bb0707dc1879;
    assert Left(Sum(s.a5, d0), 36) == 0x997b1a0008013cc2; assert Left(Sum(s.a11, d1), 10) == 0x42d8b35bae5fb4f4;
    assert Left(Sum(s.a17, d2), 15) == 0x242485cbf1643e3a; assert Left(Sum(s.a23, d3), 56) == 0xf97620429fc26f64;
    assert Left(Sum(s.a2, d2), 62) == 0xeefb112c5709fbef; assert Left(Sum(s.a8, d3), 55) == 0x5a67912f4513b4bd;
    assert Left(Sum(s.a14, d4), 39) == 0x220604e84882df7b; assert Left(Sum(s.a15, d0), 41) == 0xa2201d90ad52253a;
    assert Left(Sum(s.a21, d1), 2) == 0xe48a7cf0a68c3e5e;
  }

  lemma Round23()
    ensures FlatWords(STATE_23, 0x8000000080008008) == STATE_24
  {
    var s := STATE_23;
    var c0 := Sum(Sum(Sum(Sum(s.a0, s.a5), s.a10), s.a15), s.a20);
    var c1 := Sum(Sum(Sum(Sum(s.a1, s.a6), s.a11), s.a16), s.a21);
    var c2 := Sum(Sum(Sum(Sum(s.a2, s.a7), s.a12), s.a17), s.a22);
    var c3 := Sum(Sum(Sum(Sum(s.a3, s.a8), s.a13), s.a18), s.a23);
    var c4 := Sum(Sum(Sum(Sum(s.a4, s.a9), s.a14), s.a19), s.a24);
    assert c0 == 0x7cd7ba31ef4382eb; assert c1 == 0xab8f193a7da597bb; assert c2 == 0x735b21bc27a74f1;
    assert c3 == 0xf1d458358a5d5534; assert c4 == 0x636739a411984a7b;
    var d0 := Sum(c4, Left(c1, 1));
    var d1 := Sum(c0, Left(c2, 1));
    var d2 := Sum(c1, Left(c3, 1));
    var d3 := Sum(c2, Left(c4, 1));
    var d4 := Sum(c3, Left(c0, 1));
    assert d0 == 0x34790bd0ead3650c; assert d1 == 0x72bcde066bb76b09; assert d2 == 0x4827a951691f3dd2;
    assert d3 == 0xc1fbc153e14ae007; assert d4 == 0x87b2c5654da50e2;
    assert Left(Sum(s.a0, d0), 0) == 0x830fcf84c8c653ac; assert Left(Sum(s.a6, d1), 44) == 0x83c3cd3675c488;
    assert Left(Sum(s.a12, d2), 43) == 0x3f2efa4a499505e1; assert Left(Sum(s.a18, d3), 21) == 0xf3a20659c49cbafb;
    assert Left(Sum(s.a24, d4), 14) == 0x74297c911aab3f3d; assert Left(Sum(s.a3, d3), 28) == 0x6bd39771f7b0b299;
    assert Left(Sum(s.a9, d4), 20) == 0x5692282ce0e96b4e; assert Left(Sum(s.a10, d0), 3) == 0xa64886145bc0786c;
    assert Left(Sum(s.a16, d1), 45) == 0xcbb839fc7810c652; assert Left(Sum(s.a22, d2), 61) == 0xa5d579bb24623f1d;
    assert Left(Sum(s.a1, d1), 1) == 0xbcf37959bba55b4a; assert Left(Sum(s.a7, d2), 6) == 0x7fce6ad8f6417649;
    assert Left(Sum(s.a13, d3), 25) == 0xba8f5e8f73c138a2; assert Left(Sum(s.a19, d4), 8) == 0x7e0c14c3191b04f9;
    assert Left(Sum(s.a20, d0), 18) == 0x78f2d56b5687ea08; assert Left(Sum(s.a4, d4), 27) == 0xefa2580dc450c349;
    assert Left(Sum(s.a5, d0), 36) == 0x82593a6421b6117b; assert Left(Sum(s.a11, d1), 10) == 0x629cce88bed7b72;
    assert Left(Sum(s.a17, d2), 15) == 0x9d0564e1643169d6; assert Left(Sum(s.a23, d3), 56) == 0x9c69aaddcf1d1904;
    assert Left(Sum(s.a2, d2), 62) == 0xb7a8b9e4a792266a; assert Left(Sum(s.a8, d3), 55) == 0x9693e2f1ffce5527;
    assert Left(Sum(s.a14, d4), 39) == 0x6b5243b91da28bd1; assert Left(Sum(s.a15, d0), 41) == 0xa3fa83cfe2231896;
    assert Left(Sum(s.a21, d1), 2) == 0xa3ed58e62fd3fed2;
  }

  /** The words read as the state. */
  ghost predicate Agrees(s: Lanes<bv64>, t: State) {
    Reads(ReadBits(), s.Seq(), t)
  }

  lemma Step(s: Lanes<bv64>, next: Lanes<bv64>, constant: bv64, t: State, n: nat)
    requires n < 24 && Agrees(s, Rounds(t, n)) && BitsOf(constant) == ROUND_CONSTANTS[n]
    requires FlatWords(s, constant) == next
    ensures Agrees(next, Rounds(t, n + 1))
  {
    WordsRespect();
    RoundConstantsAreRegister(n);
    RoundReads(WordOps(), ReadBits(), s.Seq(), Rounds(t, n), constant);
    RoundIsFlat(WordOps(), s, constant);
    FlatIsRound(WordOps(), s, constant);
    FlatOnWords(s, constant);
  }

  lemma Reach1(t: State)
    requires Agrees(STATE_0, Rounds(t, 0))
    ensures Agrees(STATE_1, Rounds(t, 1))
  {
    Round0();
    Constant0();
    Step(STATE_0, STATE_1, 0x1, t, 0);
  }

  lemma Reach2(t: State)
    requires Agrees(STATE_1, Rounds(t, 1))
    ensures Agrees(STATE_2, Rounds(t, 2))
  {
    Round1();
    Constant1();
    Step(STATE_1, STATE_2, 0x8082, t, 1);
  }

  lemma Reach3(t: State)
    requires Agrees(STATE_2, Rounds(t, 2))
    ensures Agrees(STATE_3, Rounds(t, 3))
  {
    Round2();
    Constant2();
    Step(STATE_2, STATE_3, 0x800000000000808a, t, 2);
  }

  lemma Reach4(t: State)
    requires Agrees(STATE_3, Rounds(t, 3))
    ensures Agrees(STATE_4, Rounds(t, 4))
  {
    Round3();
    Constant3();
    Step(STATE_3, STATE_4, 0x8000000080008000, t, 3);
  }

  lemma Reach5(t: State)
    requires Agrees(STATE_4, Rounds(t, 4))
    ensures Agrees(STATE_5, Rounds(t, 5))
  {
    Round4();
    Constant4();
    Step(STATE_4, STATE_5, 0x808b, t, 4);
  }

  lemma Reach6(t: State)
    requires Agrees(STATE_5, Rounds(t, 5))
    ensures Agrees(STATE_6, Rounds(t, 6))
  {
    Round5();
    Constant5();
    Step(STATE_5, STATE_6, 0x80000001, t, 5);
  }

  lemma Reach7(t: State)
    requires Agrees(STATE_6, Rounds(t, 6))
    ensures Agrees(STATE_7, Rounds(t, 7))
  {
    Round6();
    Constant6();
    Step(STATE_6, STATE_7, 0x8000000080008081, t, 6);
  }

  lemma Reach8(t: State)
    requires Agrees(STATE_7, Rounds(t, 7))
    ensures Agrees(STATE_8, Rounds(t, 8))
  {
    Round7();
    Constant7();
    Step(STATE_7, STATE_8, 0x8000000000008009, t, 7);
  }

  lemma Reach9(t: State)
    requires Agrees(STATE_8, Rounds(t, 8))
    ensures Agrees(STATE_9, Rounds(t, 9))
  {
    Round8();
    Constant8();
    Step(STATE_8, STATE_9, 0x8a, t, 8);
  }

  lemma Reach10(t: State)
    requires Agrees(STATE_9, Rounds(t, 9))
    ensures Agrees(STATE_10, Rounds(t, 10))
  {
    Round9();
    Constant9();
    Step(STATE_9, STATE_10, 0x88, t, 9);
  }

  lemma Reach11(t: State)
    requires Agrees(STATE_10, Rounds(t, 10))
    ensures Agrees(STATE_11, Rounds(t, 11))
  {
    Round10();
    Constant10();
    Step(STATE_10, STATE_11, 0x80008009, t, 10);
  }

  lemma Reach12(t: State)
    requires Agrees(STATE_11, Rounds(t, 11))
    ensures Agrees(STATE_12, Rounds(t, 12))
  {
    Round11();
    Constant11();
    Step(STATE_11, STATE_12, 0x8000000a, t, 11);
  }

  lemma Reach13(t: State)
    requires Agrees(STATE_12, Rounds(t, 12))
    ensures Agrees(STATE_13, Rounds(t, 13))
  {
    Round12();
    Constant12();
    Step(STATE_12, STATE_13, 0x8000808b, t, 12);
  }

  lemma Reach14(t: State)
    requires Agrees(STATE_13, Rounds(t, 13))
    ensures Agrees(STATE_14, Rounds(t, 14))
  {
    Round13();
    Constant13();
    Step(STATE_13, STATE_14, 0x800000000000008b, t, 13);
  }

  lemma Reach15(t: State)
    requires Agrees(STATE_14, Rounds(t, 14))
    ensures Agrees(STATE_15, Rounds(t, 15))
  {
    Round14();
    Constant14();
    Step(STATE_14, STATE_15, 0x8000000000008089, t, 14);
  }

  lemma Reach16(t: State)
    requires Agrees(STATE_15, Rounds(t, 15))
    ensures Agrees(STATE_16, Rounds(t, 16))
  {
    Round15();
    Constant15();
    Step(STATE_15, STATE_16, 0x8000000000008003, t, 15);
  }

  lemma Reach17(t: State)
    requires Agrees(STATE_16, Rounds(t, 16))
    ensures Agrees(STATE_17, Rounds(t, 17))
  {
    Round16();
    Constant16();
    Step(STATE_16, STATE_17, 0x8000000000008002, t, 16);
  }

  lemma Reach18(t: State)
    requires Agrees(STATE_17, Rounds(t, 17))
    ensures Agrees(STATE_18, Rounds(t, 18))
  {
    Round17();
    Constant17();
    Step(STATE_17, STATE_18, 0x8000000000000080, t, 17);
  }

  lemma Reach19(t: State)
    requires Agrees(STATE_18, Rounds(t, 18))
    ensures Agrees(STATE_19, Rounds(t, 19))
  {
    Round18();
    Constant18();
    Step(STATE_18, STATE_19, 0x800a, t, 18);
  }

  lemma Reach20(t: State)
    requires Agrees(STATE_19, Rounds(t, 19))
    ensures Agrees(STATE_20, Rounds(t, 20))
  {
    Round19();
    Constant19();
    Step(STATE_19, STATE_20, 0x800000008000000a, t, 19);
  }

  lemma Reach21(t: State)
    requires Agrees(STATE_20, Rounds(t, 20))
    ensures Agrees(STATE_21, Rounds(t, 21))
  {
    Round20();
    Constant20();
    Step(STATE_20, STATE_21, 0x8000000080008081, t, 20);
  }

  lemma Reach22(t: State)
    requires Agrees(STATE_21, Rounds(t, 21))
    ensures Agrees(STATE_22, Rounds(t, 22))
  {
    Round21();
    Constant21();
    Step(STATE_21, STATE_22, 0x8000000000008080, t, 21);
  }

  lemma Reach23(t: State)
    requires Agrees(STATE_22, Rounds(t, 22))
    ensures Agrees(STATE_23, Rounds(t, 23))
  {
    Round22();
    Constant22();
    Step(STATE_22, STATE_23, 0x80000001, t, 22);
  }

  lemma Reach24(t: State)
    requires Agrees(STATE_23, Rounds(t, 23))
    ensures Agrees(STATE_24, Rounds(t, 24))
  {
    Round23();
    Constant23();
    Step(STATE_23, STATE_24, 0x8000000080008008, t, 23);
  }

  lemma RoundsTo4(t: State)
    requires Agrees(STATE_0, Rounds(t, 0))
    ensures Agrees(STATE_4, Rounds(t, 4))
  {
    Reach1(t);
    Reach2(t);
    Reach3(t);
    Reach4(t);
  }

  lemma RoundsTo8(t: State)
    requires Agrees(STATE_4, Rounds(t, 4))
    ensures Agrees(STATE_8, Rounds(t, 8))
  {
    Reach5(t);
    Reach6(t);
    Reach7(t);
    Reach8(t);
  }

  lemma RoundsTo12(t: State)
    requires Agrees(STATE_8, Rounds(t, 8))
    ensures Agrees(STATE_12, Rounds(t, 12))
  {
    Reach9(t);
    Reach10(t);
    Reach11(t);
    Reach12(t);
  }

  lemma RoundsTo16(t: State)
    requires Agrees(STATE_12, Rounds(t, 12))
    ensures Agrees(STATE_16, Rounds(t, 16))
  {
    Reach13(t);
    Reach14(t);
    Reach15(t);
    Reach16(t);
  }

  lemma RoundsTo20(t: State)
    requires Agrees(STATE_16, Rounds(t, 16))
    ensures Agrees(STATE_20, Rounds(t, 20))
  {
    Reach17(t);
    Reach18(t);
    Reach19(t);
    Reach20(t);
  }

  lemma RoundsTo24(t: State)
    requires Agrees(STATE_20, Rounds(t, 20))
    ensures Agrees(STATE_24, Rounds(t, 24))
  {
    Reach21(t);
    Reach22(t);
    Reach23(t);
    Reach24(t);
  }

  lemma AllRounds(t: State)
    requires Agrees(STATE_0, t)
    ensures Agrees(STATE_24, Permutation(t))
  {
    RoundsTo4(t);
    RoundsTo8(t);
    RoundsTo12(t);
    RoundsTo16(t);
    RoundsTo20(t);
    RoundsTo24(t);
  }

  // ---------------------------------------------------------------------------------
  // The digest
  // ---------------------------------------------------------------------------------

  lemma ZeroLane(block: seq<byte>)
    requires |block| == 8 && forall k :: 0 <= k < 8 ==> block[k] == 0
    ensures FromLittle(block) == {}
  {
    forall i ensures i !in FromLittle(block) {
      if 0 <= i < 64 { assert block[i / 8] == 0; NoByteBits(i % 8); }
    }
  }

  lemma {:induction false} NoByteBits(j: nat)
    ensures Halved(0, j) == 0
  {
    if j != 0 { NoByteBits(j - 1); }
  }

  lemma OneHasOneBit(j: nat)
    requires j < 8
    ensures ByteBit(1, j) <==> j == 0
  {
    if j != 0 { HalfOfOne(j); }
  }

  lemma {:induction false} HalfOfOne(j: nat)
    requires 0 < j
    ensures Halved(1, j) == 0
  {
    if j == 1 { assert Halved(1, 0) == 1; } else { HalfOfOne(j - 1); }
  }

  /** `01 00 00 00 00 00 00 00` and `00 00 00 00 00 00 00 80`. */
  lemma LowLane(block: seq<byte>)
    requires |block| == 8 && block[0] == 1 && forall k :: 1 <= k < 8 ==> block[k] == 0
    ensures FromLittle(block) == {0}
  {
    forall i ensures i in FromLittle(block) <==> i == 0 {
      if 0 <= i < 64 {
        OneHasOneBit(i % 8);
        NoByteBits(i % 8);
        assert block[i / 8] == if i < 8 then 1 else 0;
      }
    }
  }

  lemma HighByte(j: nat)
    requires j < 8
    ensures ByteBit(0x80, j) <==> j == 7
  {
    assert Halved(0x80, 1) == 64 && Halved(0x80, 2) == 32;
    assert Halved(0x80, 3) == 16 && Halved(0x80, 4) == 8;
    assert Halved(0x80, 5) == 4 && Halved(0x80, 6) == 2;
    assert Halved(0x80, 7) == 1;
  }

  lemma HighLane(block: seq<byte>)
    requires |block| == 8 && block[7] == 0x80 && forall k :: 0 <= k < 7 ==> block[k] == 0
    ensures FromLittle(block) == {63}
  {
    forall i ensures i in FromLittle(block) <==> i == 63 {
      if 0 <= i < 64 {
        HighByte(i % 8);
        NoByteBits(i % 8);
        assert block[i / 8] == if 56 <= i then 0x80 else 0;
      }
    }
  }

  /** The padded empty message. */
  lemma EmptyPadded(k: nat)
    requires k < RATE
    ensures |Pad([])| == RATE
    ensures Pad([])[k] == if k == 0 then 1 else if k == RATE - 1 then 0x80 else 0
  {
    PaddingFillsBlocks([]);
    PadByte([], k);
  }

  lemma FirstState()
    ensures |Pad([])| == RATE && Agrees(STATE_0, AbsorbBlock(Zero(), Pad([])))
  {
    EmptyPadded(0);
    var t := AbsorbBlock(Zero(), Pad([]));
    forall i | 0 <= i < 25 ensures ReadBits()(STATE_0.At(i)) == t[i] {
      FirstLanes(i);
    }
  }

  lemma FirstLanes(i: nat)
    requires i < 25 && |Pad([])| == RATE
    ensures BitsOf(STATE_0.At(i)) == AbsorbBlock(Zero(), Pad([]))[i]
  {
    var p := Pad([]);
    forall k: nat | k < RATE ensures p[k] == if k == 0 then 1 else if k == RATE - 1 then 0x80 else 0 { EmptyPadded(k); }
    if i == 0 {
      LowLane(p[0..8]);
      OneBit(STATE_0.At(0));
    } else if i == 16 {
      HighLane(p[128..136]);
      Bit63(STATE_0.At(16));
    } else {
      if i < RATE_LANES { ZeroLane(p[8 * i..8 * i + 8]); }
      EmptyWord(i);
      ZeroBits(STATE_0.At(i));
    }
  }

  lemma EmptyWord(i: nat)
    requires i < 25 && i != 0 && i != 16
    ensures STATE_0.At(i) == 0
  {
  }

  lemma BytesAre(w: bv64, b: seq<byte>)
    requires |b| == 8 && LowValue(w) == b[0] as int
    requires LowValue((w >> 8) | (w << 56)) == b[1] as int
    requires LowValue((w >> 16) | (w << 48)) == b[2] as int
    requires LowValue((w >> 24) | (w << 40)) == b[3] as int
    requires LowValue((w >> 32) | (w << 32)) == b[4] as int
    requires LowValue((w >> 40) | (w << 24)) == b[5] as int
    requires LowValue((w >> 48) | (w << 16)) == b[6] as int
    requires LowValue((w >> 56) | (w << 8)) == b[7] as int
    ensures ToLittle(BitsOf(w)) == b
  {
    BytesOfWord(w);
    var l := ToLittle(BitsOf(w));
    assert l[0] == b[0] && l[1] == b[1] && l[2] == b[2] && l[3] == b[3];
    assert l[4] == b[4] && l[5] == b[5] && l[6] == b[6] && l[7] == b[7];
  }

  lemma Bytes0(w: bv64)
    requires w == 0x3c23f7860146d2c5
    ensures ToLittle(BitsOf(w)) == [0xc5, 0xd2, 0x46, 0x01, 0x86, 0xf7, 0x23, 0x3c]
  {
    BytesAre(w, [0xc5, 0xd2, 0x46, 0x01, 0x86, 0xf7, 0x23, 0x3c]);
  }

  lemma Bytes1(w: bv64)
    requires w == 0xc003c7dcb27d7e92
    ensures ToLittle(BitsOf(w)) == [0x92, 0x7e, 0x7d, 0xb2, 0xdc, 0xc7, 0x03, 0xc0]
  {
    BytesAre(w, [0x92, 0x7e, 0x7d, 0xb2, 0xdc, 0xc7, 0x03, 0xc0]);
  }

  lemma Bytes2(w: bv64)
    requires w == 0x3b2782ca53b600e5
    ensures ToLittle(BitsOf(w)) == [0xe5, 0x00, 0xb6, 0x53, 0xca, 0x82, 0x27, 0x3b]
  {
    BytesAre(w, [0xe5, 0x00, 0xb6, 0x53, 0xca, 0x82, 0x27, 0x3b]);
  }

  lemma Bytes3(w: bv64)
    requires w == 0x70a4855d04d8fa7b
    ensures ToLittle(BitsOf(w)) == [0x7b, 0xfa, 0xd8, 0x04, 0x5d, 0x85, 0xa4, 0x70]
  {
    BytesAre(w, [0x7b, 0xfa, 0xd8, 0x04, 0x5d, 0x85, 0xa4, 0x70]);
  }

  /** The Keccak-256 digest of the empty message. */
  lemma EmptyDigest()
    ensures Digest([])
         == [0xc5, 0xd2, 0x46, 0x01, 0x86, 0xf7, 0x23, 0x3c] + [0x92, 0x7e, 0x7d, 0xb2, 0xdc, 0xc7, 0x03, 0xc0]
          + [0xe5, 0x00, 0xb6, 0x53, 0xca, 0x82, 0x27, 0x3b] + [0x7b, 0xfa, 0xd8, 0x04, 0x5d, 0x85, 0xa4, 0x70]
  {
    FirstState();
    OneBlock([]);
    var t := AbsorbBlock(Zero(), Pad([]));
    AllRounds(t);
    var final := Permutation(t);
    var w0, w1, w2, w3 := FourWords(final);
    Bytes0(w0);
    Bytes1(w1);
    Bytes2(w2);
    Bytes3(w3);
  }

  lemma FourWords(t: State) returns (w0: bv64, w1: bv64, w2: bv64, w3: bv64)
    requires Agrees(STATE_24, t)
    ensures t[0] == BitsOf(w0) && t[1] == BitsOf(w1) && t[2] == BitsOf(w2) && t[3] == BitsOf(w3)
    ensures w0 == 0x3c23f7860146d2c5 && w1 == 0xc003c7dcb27d7e92 && w2 == 0x3b2782ca53b600e5 && w3 == 0x70a4855d04d8fa7b
  {
    w0, w1, w2, w3 := STATE_24.At(0), STATE_24.At(1), STATE_24.At(2), STATE_24.At(3);
    var s := STATE_24.Seq();
    assert ReadBits()(s[0]) == t[0] && ReadBits()(s[1]) == t[1] && ReadBits()(s[2]) == t[2] && ReadBits()(s[3]) == t[3];
  }
}
