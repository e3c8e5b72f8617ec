/** Keccak-f[1600] on 64-bit words, shown equal to the bitwise definition. */
module KeccakWords {

  import opened KeccakSpec
  import opened KeccakTables
  import opened Keccak

  // ---------------------------------------------------------------------------------
  // The round on anything that can be read as lanes
  // ---------------------------------------------------------------------------------

  /** What a round does with lanes: exclusive or, one lane masked by the complement of another, and
      rotation to the left. */
  datatype Ops<!W(!new)> = Ops(xor: (W, W) -> W, masked: (W, W) -> W, left: (W, Position) -> W)

  function Parity5<W(!new)>(o: Ops<W>, s: seq<W>, x: Coordinate): W
    requires |s| == 25
  {
    o.xor(o.xor(o.xor(o.xor(s[x], s[x + 5]), s[x + 10]), s[x + 15]), s[x + 20])
  }

  function Fix<W(!new)>(o: Ops<W>, s: seq<W>, x: Coordinate): W
    requires |s| == 25
  {
    o.xor(Parity5(o, s, Previous(x)), o.left(Parity5(o, s, Next(x)), 1))
  }

  function ThetaOn<W(!new)>(o: Ops<W>, s: seq<W>): (r: seq<W>)
    requires |s| == 25
    ensures |r| == 25
  {
    seq(25, i requires 0 <= i < 25 => o.xor(s[i], Fix(o, s, i % 5)))
  }

  function RhoPiOn<W(!new)>(o: Ops<W>, s: seq<W>): (r: seq<W>)
    requires |s| == 25
    ensures |r| == 25
  {
    seq(25, j requires 0 <= j < 25 => o.left(s[Source(j)], ROTATION[Source(j) % 5][Source(j) / 5]))
  }

  /** The index `n` columns on in the same row. */
  function Onward(i: nat, n: nat): (j: nat)
    requires i < 25
    ensures j < 25
  {
    (i % 5 + n) % 5 + 5 * (i / 5)
  }

  function ChiOn<W(!new)>(o: Ops<W>, s: seq<W>): (r: seq<W>)
    requires |s| == 25
    ensures |r| == 25
  {
    seq(25, i requires 0 <= i < 25 => o.xor(s[i], o.masked(s[Onward(i, 1)], s[Onward(i, 2)])))
  }

  function IotaOn<W(!new)>(o: Ops<W>, s: seq<W>, constant: W): (r: seq<W>)
    requires |s| == 25
    ensures |r| == 25
  {
    s[0 := o.xor(s[0], constant)]
  }

  function RoundOn<W(!new)>(o: Ops<W>, s: seq<W>, constant: W): (r: seq<W>)
    requires |s| == 25
    ensures |r| == 25
  {
    IotaOn(o, ChiOn(o, RhoPiOn(o, ThetaOn(o, s))), constant)
  }

  predicate XorAt<W(!new)>(o: Ops<W>, bits: W -> Bits, a: W, b: W) {
    bits(o.xor(a, b)) == Xor(bits(a), bits(b))
  }

  predicate MaskedAt<W(!new)>(o: Ops<W>, bits: W -> Bits, a: W, b: W) {
    bits(o.masked(a, b)) == bits(b) - bits(a)
  }

  predicate LeftAt<W(!new)>(o: Ops<W>, bits: W -> Bits, w: W, k: Position) {
    bits(o.left(w, k)) == RotateLeft(bits(w), k)
  }

  /** The offsets by which a round rotates. */
  predicate IsOffset(k: Position) {
    k == 1 || exists x: Coordinate, y: Coordinate :: ROTATION[x][y] == k
  }

  /** Reading as bits respects the operations. */
  ghost predicate Respects<W(!new)>(o: Ops<W>, bits: W -> Bits) {
    && (forall w :: Lane(bits(w)))
    && (forall a, b {:trigger XorAt(o, bits, a, b)} :: XorAt(o, bits, a, b))
    && (forall a, b {:trigger MaskedAt(o, bits, a, b)} :: MaskedAt(o, bits, a, b))
    && (forall w, k: Position {:trigger LeftAt(o, bits, w, k)} :: IsOffset(k) ==> LeftAt(o, bits, w, k))
  }

  ghost predicate Reads<W(!new)>(bits: W -> Bits, s: seq<W>, t: State)
    requires |s| == 25
  {
    forall i :: 0 <= i < 25 ==> bits(s[i]) == t[i]
  }

  lemma ParityReads<W(!new)>(o: Ops<W>, bits: W -> Bits, s: seq<W>, t: State, x: Coordinate)
    requires |s| == 25 && Respects(o, bits) && Reads(bits, s, t)
    ensures bits(Parity5(o, s, x)) == ColumnParity(t, x)
  {
    var ab := o.xor(s[x], s[x + 5]);
    var abc := o.xor(ab, s[x + 10]);
    var abcd := o.xor(abc, s[x + 15]);
    assert XorAt(o, bits, s[x], s[x + 5]);
    assert XorAt(o, bits, ab, s[x + 10]);
    assert XorAt(o, bits, abc, s[x + 15]);
    assert XorAt(o, bits, abcd, s[x + 20]);
  }

  lemma FixReads<W(!new)>(o: Ops<W>, bits: W -> Bits, s: seq<W>, t: State, x: Coordinate)
    requires |s| == 25 && Respects(o, bits) && Reads(bits, s, t)
    ensures bits(Fix(o, s, x)) == Correction(t, x)
  {
    assert (x - 1) % 5 == Previous(x) && (x + 1) % 5 == Next(x);
    ParityReads(o, bits, s, t, Previous(x));
    ParityReads(o, bits, s, t, Next(x));
    var after := Parity5(o, s, Next(x));
    assert LeftAt(o, bits, after, 1);
    assert XorAt(o, bits, Parity5(o, s, Previous(x)), o.left(after, 1));
  }

  lemma ThetaReads<W(!new)>(o: Ops<W>, bits: W -> Bits, s: seq<W>, t: State)
    requires |s| == 25 && Respects(o, bits) && Reads(bits, s, t)
    ensures Reads(bits, ThetaOn(o, s), Theta(t))
  {
    forall i | 0 <= i < 25 ensures bits(ThetaOn(o, s)[i]) == Theta(t)[i] {
      FixReads(o, bits, s, t, i % 5);
      ThetaLane(t, i);
      assert XorAt(o, bits, s[i], Fix(o, s, i % 5));
    }
  }

  lemma RhoPiReads<W(!new)>(o: Ops<W>, bits: W -> Bits, s: seq<W>, t: State)
    requires |s| == 25 && Respects(o, bits) && Reads(bits, s, t)
    ensures Reads(bits, RhoPiOn(o, s), Pi(Rho(t)))
  {
    forall j | 0 <= j < 25 ensures bits(RhoPiOn(o, s)[j]) == Pi(Rho(t))[j] {
      RhoPiLane(t, j);
      var x: Coordinate, y: Coordinate := Source(j) % 5, Source(j) / 5;
      assert ROTATION[x][y] == ROTATION[x][y];
      assert LeftAt(o, bits, s[Source(j)], ROTATION[x][y]);
    }
  }

  lemma ChiReads<W(!new)>(o: Ops<W>, bits: W -> Bits, s: seq<W>, t: State)
    requires |s| == 25 && Respects(o, bits) && Reads(bits, s, t)
    ensures Reads(bits, ChiOn(o, s), Chi(t))
  {
    forall i | 0 <= i < 25 ensures bits(ChiOn(o, s)[i]) == Chi(t)[i] {
      ChiAt(o, bits, s, t, i);
    }
  }

  lemma ChiAt<W(!new)>(o: Ops<W>, bits: W -> Bits, s: seq<W>, t: State, i: nat)
    requires |s| == 25 && Respects(o, bits) && Reads(bits, s, t) && i < 25
    ensures bits(ChiOn(o, s)[i]) == Chi(t)[i]
  {
    ChiLaneReads(o, bits, s, t, i, Onward(i, 1), Onward(i, 2));
    ChiLane(t, i);
    MaskedOnward(t, i);
  }

  lemma MaskedOnward(t: State, i: nat)
    requires i < 25
    ensures Masked(t, i) == Xor(t[i], t[Onward(i, 2)] - t[Onward(i, 1)])
  {
  }

  lemma ChiLaneReads<W(!new)>(o: Ops<W>, bits: W -> Bits, s: seq<W>, t: State, i: nat, j: nat, k: nat)
    requires |s| == 25 && Respects(o, bits) && Reads(bits, s, t) && i < 25 && j < 25 && k < 25
    ensures bits(o.xor(s[i], o.masked(s[j], s[k]))) == Xor(t[i], t[k] - t[j])
  {
    assert MaskedAt(o, bits, s[j], s[k]);
    assert XorAt(o, bits, s[i], o.masked(s[j], s[k]));
  }

  lemma IotaReads<W(!new)>(o: Ops<W>, bits: W -> Bits, s: seq<W>, t: State, constant: W)
    requires |s| == 25 && Respects(o, bits) && Reads(bits, s, t)
    ensures Reads(bits, IotaOn(o, s, constant), Iota(t, bits(constant)))
  {
    IotaLanes(t, bits(constant));
    assert XorAt(o, bits, s[0], constant);
  }

  /** A round on anything that reads as lanes reads as the round. */
  lemma RoundReads<W(!new)>(o: Ops<W>, bits: W -> Bits, s: seq<W>, t: State, constant: W)
    requires |s| == 25 && Respects(o, bits) && Reads(bits, s, t)
    ensures Reads(bits, RoundOn(o, s, constant), Round(t, bits(constant)))
  {
    var s1 := ThetaOn(o, s);
    var s2 := RhoPiOn(o, s1);
    var s3 := ChiOn(o, s2);
    ThetaReads(o, bits, s, t);
    RhoPiReads(o, bits, s1, Theta(t));
    ChiReads(o, bits, s2, Pi(Rho(Theta(t))));
    IotaReads(o, bits, s3, Chi(Pi(Rho(Theta(t)))), constant);
  }

  // ---------------------------------------------------------------------------------
  // The bits of a word
  // ---------------------------------------------------------------------------------

  function RotateRight(w: bv64): bv64 {
    (w >> 1) | (w << 63)
  }

  /** The word rotated right `n` times. */
  function Turned(w: bv64, n: nat): bv64
    decreases n, w
  {
    if n == 0 then w else Turned(RotateRight(w), n - 1)
  }

  predicate Low(w: bv64) {
    w & 1 != 0
  }

  /** The bit at `z`, which `z` rotations bring to the lowest place. */
  predicate Has(w: bv64, z: nat)
    decreases z, w
  {
    if z == 0 then Low(w) else Has(RotateRight(w), z - 1)
  }

  /** The positions of the one bits among the lowest `n`. */
  function BitsBelow(w: bv64, n: nat): Bits
    decreases n, w
  {
    if n == 0 then {} else BitsBelow(w, n - 1) + if Has(w, n - 1) then {n - 1} else {}
  }

  function BitsOf(w: bv64): Bits {
    BitsBelow(w, 64)
  }

  lemma {:induction false} BitBelow(w: bv64, n: nat, z: int)
    ensures z in BitsBelow(w, n) <==> 0 <= z < n && Has(w, z)
    decreases n
  {
    if n != 0 { BitBelow(w, n - 1, z); }
  }

  lemma BitIs(w: bv64, z: int)
    ensures z in BitsOf(w) <==> 0 <= z < 64 && Has(w, z)
  {
    BitBelow(w, 64, z);
  }

  lemma BitsAreLane(w: bv64)
    ensures Lane(BitsOf(w))
  {
    forall z | z in BitsOf(w) ensures 0 <= z < 64 { BitIs(w, z); }
  }

  lemma {:induction false} TurnsAdd(w: bv64, m: nat, n: nat)
    ensures Turned(w, m + n) == Turned(Turned(w, m), n)
    decreases m
  {
    if m != 0 { TurnsAdd(RotateRight(w), m - 1, n); }
  }

  lemma Turn1(w: bv64)
    ensures Turned(w, 1) == (w >> 1) | (w << 63)
  {
  }

  lemma Turn2(w: bv64)
    ensures Turned(w, 2) == (w >> 2) | (w << 62)
  {
    var x := (w >> 1) | (w << 63);
    TurnsAdd(w, 1, 1);
    Turn1(w);
    Turn1(x);
  }

  lemma Turn3(w: bv64)
    ensures Turned(w, 3) == (w >> 3) | (w << 61)
  {
    var x := (w >> 2) | (w << 62);
    TurnsAdd(w, 2, 1);
    Turn2(w);
    Turn1(x);
  }

  lemma Turn4(w: bv64)
    ensures Turned(w, 4) == (w >> 4) | (w << 60)
  {
    var x := (w >> 2) | (w << 62);
    TurnsAdd(w, 2, 2);
    Turn2(w);
    Turn2(x);
  }

  lemma Turn6(w: bv64)
    ensures Turned(w, 6) == (w >> 6) | (w << 58)
  {
    var x := (w >> 4) | (w << 60);
    TurnsAdd(w, 4, 2);
    Turn4(w);
    Turn2(x);
  }

  lemma Turn8(w: bv64)
    ensures Turned(w, 8) == (w >> 8) | (w << 56)
  {
    var x := (w >> 4) | (w << 60);
    TurnsAdd(w, 4, 4);
    Turn4(w);
    Turn4(x);
  }

  lemma Turn10(w: bv64)
    ensures Turned(w, 10) == (w >> 10) | (w << 54)
  {
    var x := (w >> 8) | (w << 56);
    TurnsAdd(w, 8, 2);
    Turn8(w);
    Turn2(x);
  }

  lemma Turn14(w: bv64)
    ensures Turned(w, 14) == (w >> 14) | (w << 50)
  {
    var x := (w >> 8) | (w << 56);
    TurnsAdd(w, 8, 6);
    Turn8(w);
    Turn6(x);
  }

  lemma Turn15(w: bv64)
    ensures Turned(w, 15) == (w >> 15) | (w << 49)
  {
    var x := (w >> 14) | (w << 50);
    TurnsAdd(w, 14, 1);
    Turn14(w);
    Turn1(x);
  }

  lemma Turn16(w: bv64)
    ensures Turned(w, 16) == (w >> 16) | (w << 48)
  {
    var x := (w >> 8) | (w << 56);
    TurnsAdd(w, 8, 8);
    Turn8(w);
    Turn8(x);
  }

  lemma Turn18(w: bv64)
    ensures Turned(w, 18) == (w >> 18) | (w << 46)
  {
    var x := (w >> 16) | (w << 48);
    TurnsAdd(w, 16, 2);
    Turn16(w);
    Turn2(x);
  }

  lemma Turn20(w: bv64)
    ensures Turned(w, 20) == (w >> 20) | (w << 44)
  {
    var x := (w >> 16) | (w << 48);
    TurnsAdd(w, 16, 4);
    Turn16(w);
    Turn4(x);
  }

  lemma Turn21(w: bv64)
    ensures Turned(w, 21) == (w >> 21) | (w << 43)
  {
    var x := (w >> 20) | (w << 44);
    TurnsAdd(w, 20, 1);
    Turn20(w);
    Turn1(x);
  }

  lemma Turn25(w: bv64)
    ensures Turned(w, 25) == (w >> 25) | (w << 39)
  {
    var x := (w >> 21) | (w << 43);
    TurnsAdd(w, 21, 4);
    Turn21(w);
    Turn4(x);
  }

  lemma Turn27(w: bv64)
    ensures Turned(w, 27) == (w >> 27) | (w << 37)
  {
    var x := (w >> 25) | (w << 39);
    TurnsAdd(w, 25, 2);
    Turn25(w);
    Turn2(x);
  }

  lemma Turn28(w: bv64)
    ensures Turned(w, 28) == (w >> 28) | (w << 36)
  {
    var x := (w >> 27) | (w << 37);
    TurnsAdd(w, 27, 1);
    Turn27(w);
    Turn1(x);
  }

  lemma Turn32(w: bv64)
    ensures Turned(w, 32) == (w >> 32) | (w << 32)
  {
    var x := (w >> 16) | (w << 48);
    TurnsAdd(w, 16, 16);
    Turn16(w);
    Turn16(x);
  }

  lemma Turn36(w: bv64)
    ensures Turned(w, 36) == (w >> 36) | (w << 28)
  {
    var x := (w >> 32) | (w << 32);
    TurnsAdd(w, 32, 4);
    Turn32(w);
    Turn4(x);
  }

  lemma Turn39(w: bv64)
    ensures Turned(w, 39) == (w >> 39) | (w << 25)
  {
    var x := (w >> 36) | (w << 28);
    TurnsAdd(w, 36, 3);
    Turn36(w);
    Turn3(x);
  }

  lemma Turn41(w: bv64)
    ensures Turned(w, 41) == (w >> 41) | (w << 23)
  {
    var x := (w >> 39) | (w << 25);
    TurnsAdd(w, 39, 2);
    Turn39(w);
    Turn2(x);
  }

  lemma Turn43(w: bv64)
    ensures Turned(w, 43) == (w >> 43) | (w << 21)
  {
    var x := (w >> 41) | (w << 23);
    TurnsAdd(w, 41, 2);
    Turn41(w);
    Turn2(x);
  }

  lemma Turn44(w: bv64)
    ensures Turned(w, 44) == (w >> 44) | (w << 20)
  {
    var x := (w >> 43) | (w << 21);
    TurnsAdd(w, 43, 1);
    Turn43(w);
    Turn1(x);
  }

  lemma Turn45(w: bv64)
    ensures Turned(w, 45) == (w >> 45) | (w << 19)
  {
    var x := (w >> 44) | (w << 20);
    TurnsAdd(w, 44, 1);
    Turn44(w);
    Turn1(x);
  }

  lemma Turn55(w: bv64)
    ensures Turned(w, 55) == (w >> 55) | (w << 9)
  {
    var x := (w >> 45) | (w << 19);
    TurnsAdd(w, 45, 10);
    Turn45(w);
    Turn10(x);
  }

  lemma Turn56(w: bv64)
    ensures Turned(w, 56) == (w >> 56) | (w << 8)
  {
    var x := (w >> 55) | (w << 9);
    TurnsAdd(w, 55, 1);
    Turn55(w);
    Turn1(x);
  }

  lemma Turn61(w: bv64)
    ensures Turned(w, 61) == (w >> 61) | (w << 3)
  {
    var x := (w >> 45) | (w << 19);
    TurnsAdd(w, 45, 16);
    Turn45(w);
    Turn16(x);
  }

  lemma Turn62(w: bv64)
    ensures Turned(w, 62) == (w >> 62) | (w << 2)
  {
    var x := (w >> 61) | (w << 3);
    TurnsAdd(w, 61, 1);
    Turn61(w);
    Turn1(x);
  }

  lemma Turn5(w: bv64)
    ensures Turned(w, 5) == (w >> 5) | (w << 59)
  {
    var x := (w >> 4) | (w << 60);
    TurnsAdd(w, 4, 1);
    Turn4(w);
    Turn1(x);
  }

  lemma Turn7(w: bv64)
    ensures Turned(w, 7) == (w >> 7) | (w << 57)
  {
    var x := (w >> 6) | (w << 58);
    TurnsAdd(w, 6, 1);
    Turn6(w);
    Turn1(x);
  }

  lemma Turn24(w: bv64)
    ensures Turned(w, 24) == (w >> 24) | (w << 40)
  {
    var x := (w >> 16) | (w << 48);
    TurnsAdd(w, 16, 8);
    Turn16(w);
    Turn8(x);
  }

  lemma Turn31(w: bv64)
    ensures Turned(w, 31) == (w >> 31) | (w << 33)
  {
    var x := (w >> 27) | (w << 37);
    TurnsAdd(w, 27, 4);
    Turn27(w);
    Turn4(x);
  }

  lemma Turn40(w: bv64)
    ensures Turned(w, 40) == (w >> 40) | (w << 24)
  {
    var x := (w >> 32) | (w << 32);
    TurnsAdd(w, 32, 8);
    Turn32(w);
    Turn8(x);
  }

  lemma Turn48(w: bv64)
    ensures Turned(w, 48) == (w >> 48) | (w << 16)
  {
    var x := (w >> 32) | (w << 32);
    TurnsAdd(w, 32, 16);
    Turn32(w);
    Turn16(x);
  }

  lemma Turn63(w: bv64)
    ensures Turned(w, 63) == (w >> 63) | (w << 1)
  {
    var x := (w >> 62) | (w << 2);
    TurnsAdd(w, 62, 1);
    Turn62(w);
    Turn1(x);
  }

  lemma Turn64(w: bv64)
    ensures Turned(w, 64) == w
  {
    var x := (w >> 32) | (w << 32);
    TurnsAdd(w, 32, 32);
    Turn32(w);
    Turn32(x);
  }

  lemma HasNext(w: bv64, r: bv64, z: nat)
    requires z != 0 && r == RotateRight(w)
    ensures Has(w, z) == Has(r, z - 1)
  {
  }

  lemma {:induction false} HasTurned(w: bv64, m: nat, z: nat)
    ensures Has(Turned(w, m), z) == Has(w, m + z)
    decreases m
  {
    if m != 0 { HasTurned(RotateRight(w), m - 1, z); }
  }

  lemma RightXor(a: bv64, b: bv64, c: bv64, ra: bv64, rb: bv64, rc: bv64)
    requires c == a ^ b && ra == RotateRight(a) && rb == RotateRight(b) && rc == RotateRight(c)
    ensures rc == ra ^ rb
  {
  }

  lemma LowXor(a: bv64, b: bv64, c: bv64)
    requires c == a ^ b
    ensures Low(c) == Odd(Low(a), Low(b))
  {
  }

  lemma {:induction false} HasXor(a: bv64, b: bv64, c: bv64, z: nat)
    requires c == a ^ b
    ensures Has(c, z) == Odd(Has(a, z), Has(b, z))
    decreases z
  {
    if z == 0 {
      LowXor(a, b, c);
    } else {
      var ra, rb, rc := RotateRight(a), RotateRight(b), RotateRight(c);
      RightXor(a, b, c, ra, rb, rc);
      HasXor(ra, rb, rc, z - 1);
      HasNext(a, ra, z);
      HasNext(b, rb, z);
      HasNext(c, rc, z);
    }
  }

  lemma RightMasked(a: bv64, b: bv64, c: bv64, ra: bv64, rb: bv64, rc: bv64)
    requires c == !a & b && ra == RotateRight(a) && rb == RotateRight(b) && rc == RotateRight(c)
    ensures rc == !ra & rb
  {
  }

  lemma LowMasked(a: bv64, b: bv64, c: bv64)
    requires c == !a & b
    ensures Low(c) == (!Low(a) && Low(b))
  {
  }

  lemma {:induction false} HasMasked(a: bv64, b: bv64, c: bv64, z: nat)
    requires c == !a & b
    ensures Has(c, z) == (!Has(a, z) && Has(b, z))
    decreases z
  {
    if z == 0 {
      LowMasked(a, b, c);
    } else {
      var ra, rb, rc := RotateRight(a), RotateRight(b), RotateRight(c);
      RightMasked(a, b, c, ra, rb, rc);
      HasMasked(ra, rb, rc, z - 1);
      HasNext(a, ra, z);
      HasNext(b, rb, z);
      HasNext(c, rc, z);
    }
  }

  lemma BitsOfXor(a: bv64, b: bv64, c: bv64)
    requires c == a ^ b
    ensures BitsOf(c) == Xor(BitsOf(a), BitsOf(b))
  {
    forall z ensures z in BitsOf(c) <==> z in Xor(BitsOf(a), BitsOf(b)) {
      BitIs(a, z);
      BitIs(b, z);
      BitIs(c, z);
      if 0 <= z { HasXor(a, b, c, z); }
    }
  }

  lemma BitsOfMasked(a: bv64, b: bv64, c: bv64)
    requires c == !a & b
    ensures BitsOf(c) == BitsOf(b) - BitsOf(a)
  {
    forall z ensures z in BitsOf(c) <==> z in BitsOf(b) - BitsOf(a) {
      BitIs(a, z);
      BitIs(b, z);
      BitIs(c, z);
      if 0 <= z { HasMasked(a, b, c, z); }
    }
  }

  /** A word that turns right into `w` has the bits of `w`, rotated left. */
  lemma BitsOfLeft(w: bv64, r: bv64, k: Position)
    requires Turned(r, k) == w
    ensures BitsOf(r) == RotateLeft(BitsOf(w), k)
  {
    BitsAreLane(w);
    BitsAreLane(r);
    RotateIsLane(BitsOf(w), k);
    forall z: Position ensures z in BitsOf(r) <==> z in RotateLeft(BitsOf(w), k) {
      RotateBit(BitsOf(w), k, z);
      HasBack(w, r, k, z);
      BitIs(r, z);
      BitIs(w, Back(z, k));
    }
    SameLane(BitsOf(r), RotateLeft(BitsOf(w), k));
  }

  lemma HasBack(w: bv64, r: bv64, k: Position, z: Position)
    requires Turned(r, k) == w
    ensures Has(r, z) == Has(w, Back(z, k))
  {
    if k <= z {
      HasTurned(r, k, z - k);
    } else {
      HasTurned(r, k, z + 64 - k);
      HasTurned(r, 64, z);
      Turn64(r);
    }
  }

  lemma SameLane(a: Bits, b: Bits)
    requires Lane(a) && Lane(b) && forall z: Position :: z in a <==> z in b
    ensures a == b
  {
    forall z ensures z in a <==> z in b {
      if 0 <= z < 64 {
        var p: Position := z;
        assert p in a <==> p in b;
      }
    }
  }

  lemma Left1(w: bv64)
    ensures BitsOf((w << 1) | (w >> 63)) == RotateLeft(BitsOf(w), 1)
  {
    var r := (w << 1) | (w >> 63);
    Turn1(r);
    BitsOfLeft(w, r, 1);
  }

  lemma Left2(w: bv64)
    ensures BitsOf((w << 2) | (w >> 62)) == RotateLeft(BitsOf(w), 2)
  {
    var r := (w << 2) | (w >> 62);
    Turn2(r);
    BitsOfLeft(w, r, 2);
  }

  lemma Left3(w: bv64)
    ensures BitsOf((w << 3) | (w >> 61)) == RotateLeft(BitsOf(w), 3)
  {
    var r := (w << 3) | (w >> 61);
    Turn3(r);
    BitsOfLeft(w, r, 3);
  }

  lemma Left6(w: bv64)
    ensures BitsOf((w << 6) | (w >> 58)) == RotateLeft(BitsOf(w), 6)
  {
    var r := (w << 6) | (w >> 58);
    Turn6(r);
    BitsOfLeft(w, r, 6);
  }

  lemma Left8(w: bv64)
    ensures BitsOf((w << 8) | (w >> 56)) == RotateLeft(BitsOf(w), 8)
  {
    var r := (w << 8) | (w >> 56);
    Turn8(r);
    BitsOfLeft(w, r, 8);
  }

  lemma Left10(w: bv64)
    ensures BitsOf((w << 10) | (w >> 54)) == RotateLeft(BitsOf(w), 10)
  {
    var r := (w << 10) | (w >> 54);
    Turn10(r);
    BitsOfLeft(w, r, 10);
  }

  lemma Left14(w: bv64)
    ensures BitsOf((w << 14) | (w >> 50)) == RotateLeft(BitsOf(w), 14)
  {
    var r := (w << 14) | (w >> 50);
    Turn14(r);
    BitsOfLeft(w, r, 14);
  }

  lemma Left15(w: bv64)
    ensures BitsOf((w << 15) | (w >> 49)) == RotateLeft(BitsOf(w), 15)
  {
    var r := (w << 15) | (w >> 49);
    Turn15(r);
    BitsOfLeft(w, r, 15);
  }

  lemma Left18(w: bv64)
    ensures BitsOf((w << 18) | (w >> 46)) == RotateLeft(BitsOf(w), 18)
  {
    var r := (w << 18) | (w >> 46);
    Turn18(r);
    BitsOfLeft(w, r, 18);
  }

  lemma Left20(w: bv64)
    ensures BitsOf((w << 20) | (w >> 44)) == RotateLeft(BitsOf(w), 20)
  {
    var r := (w << 20) | (w >> 44);
    Turn20(r);
    BitsOfLeft(w, r, 20);
  }

  lemma Left21(w: bv64)
    ensures BitsOf((w << 21) | (w >> 43)) == RotateLeft(BitsOf(w), 21)
  {
    var r := (w << 21) | (w >> 43);
    Turn21(r);
    BitsOfLeft(w, r, 21);
  }

  lemma Left25(w: bv64)
    ensures BitsOf((w << 25) | (w >> 39)) == RotateLeft(BitsOf(w), 25)
  {
    var r := (w << 25) | (w >> 39);
    Turn25(r);
    BitsOfLeft(w, r, 25);
  }

  lemma Left27(w: bv64)
    ensures BitsOf((w << 27) | (w >> 37)) == RotateLeft(BitsOf(w), 27)
  {
    var r := (w << 27) | (w >> 37);
    Turn27(r);
    BitsOfLeft(w, r, 27);
  }

  lemma Left28(w: bv64)
    ensures BitsOf((w << 28) | (w >> 36)) == RotateLeft(BitsOf(w), 28)
  {
    var r := (w << 28) | (w >> 36);
    Turn28(r);
    BitsOfLeft(w, r, 28);
  }

  lemma Left36(w: bv64)
    ensures BitsOf((w << 36) | (w >> 28)) == RotateLeft(BitsOf(w), 36)
  {
    var r := (w << 36) | (w >> 28);
    Turn36(r);
    BitsOfLeft(w, r, 36);
  }

  lemma Left39(w: bv64)
    ensures BitsOf((w << 39) | (w >> 25)) == RotateLeft(BitsOf(w), 39)
  {
    var r := (w << 39) | (w >> 25);
    Turn39(r);
    BitsOfLeft(w, r, 39);
  }

  lemma Left41(w: bv64)
    ensures BitsOf((w << 41) | (w >> 23)) == RotateLeft(BitsOf(w), 41)
  {
    var r := (w << 41) | (w >> 23);
    Turn41(r);
    BitsOfLeft(w, r, 41);
  }

  lemma Left43(w: bv64)
    ensures BitsOf((w << 43) | (w >> 21)) == RotateLeft(BitsOf(w), 43)
  {
    var r := (w << 43) | (w >> 21);
    Turn43(r);
    BitsOfLeft(w, r, 43);
  }

  lemma Left44(w: bv64)
    ensures BitsOf((w << 44) | (w >> 20)) == RotateLeft(BitsOf(w), 44)
  {
    var r := (w << 44) | (w >> 20);
    Turn44(r);
    BitsOfLeft(w, r, 44);
  }

  lemma Left45(w: bv64)
    ensures BitsOf((w << 45) | (w >> 19)) == RotateLeft(BitsOf(w), 45)
  {
    var r := (w << 45) | (w >> 19);
    Turn45(r);
    BitsOfLeft(w, r, 45);
  }

  lemma Left55(w: bv64)
    ensures BitsOf((w << 55) | (w >> 9)) == RotateLeft(BitsOf(w), 55)
  {
    var r := (w << 55) | (w >> 9);
    Turn55(r);
    BitsOfLeft(w, r, 55);
  }

  lemma Left56(w: bv64)
    ensures BitsOf((w << 56) | (w >> 8)) == RotateLeft(BitsOf(w), 56)
  {
    var r := (w << 56) | (w >> 8);
    Turn56(r);
    BitsOfLeft(w, r, 56);
  }

  lemma Left61(w: bv64)
    ensures BitsOf((w << 61) | (w >> 3)) == RotateLeft(BitsOf(w), 61)
  {
    var r := (w << 61) | (w >> 3);
    Turn61(r);
    BitsOfLeft(w, r, 61);
  }

  lemma Left62(w: bv64)
    ensures BitsOf((w << 62) | (w >> 2)) == RotateLeft(BitsOf(w), 62)
  {
    var r := (w << 62) | (w >> 2);
    Turn62(r);
    BitsOfLeft(w, r, 62);
  }

  // ---------------------------------------------------------------------------------
  // Words
  // ---------------------------------------------------------------------------------

  function Left(w: bv64, k: Position): bv64 {
    match k
    case 0 => w
    case 1 => (w << 1) | (w >> 63)
    case 2 => (w << 2) | (w >> 62)
    case 3 => (w << 3) | (w >> 61)
    case 6 => (w << 6) | (w >> 58)
    case 8 => (w << 8) | (w >> 56)
    case 10 => (w << 10) | (w >> 54)
    case 14 => (w << 14) | (w >> 50)
    case 15 => (w << 15) | (w >> 49)
    case 18 => (w << 18) | (w >> 46)
    case 20 => (w << 20) | (w >> 44)
    case 21 => (w << 21) | (w >> 43)
    case 25 => (w << 25) | (w >> 39)
    case 27 => (w << 27) | (w >> 37)
    case 28 => (w << 28) | (w >> 36)
    case 36 => (w << 36) | (w >> 28)
    case 39 => (w << 39) | (w >> 25)
    case 41 => (w << 41) | (w >> 23)
    case 43 => (w << 43) | (w >> 21)
    case 44 => (w << 44) | (w >> 20)
    case 45 => (w << 45) | (w >> 19)
    case 55 => (w << 55) | (w >> 9)
    case 56 => (w << 56) | (w >> 8)
    case 61 => (w << 61) | (w >> 3)
    case 62 => (w << 62) | (w >> 2)
    case _ => w
  }

  function Sum(a: bv64, b: bv64): bv64 {
    a ^ b
  }

  function Masking(a: bv64, b: bv64): bv64 {
    !a & b
  }

  /** The operations on 64-bit words; of the rotations, those that a round uses. */
  function WordOps(): Ops<bv64> {
    Ops((a, b) => Sum(a, b), (a, b) => Masking(a, b), (w, k) => Left(w, k))
  }

  function ReadBits(): bv64 -> Bits {
    (w: bv64) => BitsOf(w)
  }

  lemma LeftReads(w: bv64, k: Position)
    requires IsOffset(k)
    ensures BitsOf(Left(w, k)) == RotateLeft(BitsOf(w), k)
  {
    OffsetValues(k);
    match k
    case 0 =>
    case 1 => Left1(w);
    case 2 => Left2(w);
    case 3 => Left3(w);
    case 6 => Left6(w);
    case 8 => Left8(w);
    case 10 => Left10(w);
    case 14 => Left14(w);
    case 15 => Left15(w);
    case 18 => Left18(w);
    case 20 => Left20(w);
    case 21 => Left21(w);
    case 25 => Left25(w);
    case 27 => Left27(w);
    case 28 => Left28(w);
    case 36 => Left36(w);
    case 39 => Left39(w);
    case 41 => Left41(w);
    case 43 => Left43(w);
    case 44 => Left44(w);
    case 45 => Left45(w);
    case 55 => Left55(w);
    case 56 => Left56(w);
    case 61 => Left61(w);
    case 62 => Left62(w);
    case _ => assert false;
  }

  lemma OffsetValues(k: Position)
    requires IsOffset(k)
    ensures k in {0, 1, 2, 3, 6, 8, 10, 14, 15, 18, 20, 21, 25, 27, 28, 36, 39, 41, 43, 44, 45, 55, 56, 61, 62}
  {
    if k != 1 {
      var x: Coordinate, y: Coordinate :| ROTATION[x][y] == k;
    }
  }

  lemma WordsRespect()
    ensures Respects(WordOps(), ReadBits())
  {
    var o, bits := WordOps(), ReadBits();
    forall w ensures Lane(bits(w)) { BitsAreLane(w); }
    forall a, b ensures XorAt(o, bits, a, b) { BitsOfXor(a, b, a ^ b); }
    forall a, b ensures MaskedAt(o, bits, a, b) { BitsOfMasked(a, b, !a & b); }
    forall w, k: Position | IsOffset(k) ensures LeftAt(o, bits, w, k) { LeftReads(w, k); }
  }

  // ---------------------------------------------------------------------------------
  // The round, lane by lane
  // ---------------------------------------------------------------------------------

  /** The 25 lanes, by index. */
  datatype Lanes<!W(!new)> = Lanes(
      a0: W, a1: W, a2: W, a3: W, a4: W, a5: W, a6: W, a7: W, a8: W,
      a9: W, a10: W, a11: W, a12: W, a13: W, a14: W, a15: W, a16: W, a17: W,
      a18: W, a19: W, a20: W, a21: W, a22: W, a23: W, a24: W)
  {
    function At(i: nat): W
      requires i < 25
    {
      match i
      case 0 => a0
      case 1 => a1
      case 2 => a2
      case 3 => a3
      case 4 => a4
      case 5 => a5
      case 6 => a6
      case 7 => a7
      case 8 => a8
      case 9 => a9
      case 10 => a10
      case 11 => a11
      case 12 => a12
      case 13 => a13
      case 14 => a14
      case 15 => a15
      case 16 => a16
      case 17 => a17
      case 18 => a18
      case 19 => a19
      case 20 => a20
      case 21 => a21
      case 22 => a22
      case 23 => a23
      case 24 => a24
    }

    function Seq(): (r: seq<W>)
      ensures |r| == 25
    {
      seq(25, i requires 0 <= i < 25 => At(i))
    }
  }

  /** The steps written out: the column sums and their corrections; the rotated lanes in their new places;
      the masked sums of every row. */
  function ThetaFlat<W(!new)>(o: Ops<W>, s: Lanes<W>): Lanes<W> {
    var c0 := o.xor(o.xor(o.xor(o.xor(s.a0, s.a5), s.a10), s.a15), s.a20);
    var c1 := o.xor(o.xor(o.xor(o.xor(s.a1, s.a6), s.a11), s.a16), s.a21);
    var c2 := o.xor(o.xor(o.xor(o.xor(s.a2, s.a7), s.a12), s.a17), s.a22);
    var c3 := o.xor(o.xor(o.xor(o.xor(s.a3, s.a8), s.a13), s.a18), s.a23);
    var c4 := o.xor(o.xor(o.xor(o.xor(s.a4, s.a9), s.a14), s.a19), s.a24);
    var d0 := o.xor(c4, o.left(c1, 1));
    var d1 := o.xor(c0, o.left(c2, 1));
    var d2 := o.xor(c1, o.left(c3, 1));
    var d3 := o.xor(c2, o.left(c4, 1));
    var d4 := o.xor(c3, o.left(c0, 1));
    Lanes(
      o.xor(s.a0, d0), o.xor(s.a1, d1), o.xor(s.a2, d2), o.xor(s.a3, d3), o.xor(s.a4, d4),
      o.xor(s.a5, d0), o.xor(s.a6, d1), o.xor(s.a7, d2), o.xor(s.a8, d3), o.xor(s.a9, d4),
      o.xor(s.a10, d0), o.xor(s.a11, d1), o.xor(s.a12, d2), o.xor(s.a13, d3), o.xor(s.a14, d4),
      o.xor(s.a15, d0), o.xor(s.a16, d1), o.xor(s.a17, d2), o.xor(s.a18, d3), o.xor(s.a19, d4),
      o.xor(s.a20, d0), o.xor(s.a21, d1), o.xor(s.a22, d2), o.xor(s.a23, d3), o.xor(s.a24, d4))
  }

  function RhoPiFlat<W(!new)>(o: Ops<W>, s: Lanes<W>): Lanes<W> {
    Lanes(
      o.left(s.a0, 0), o.left(s.a6, 44), o.left(s.a12, 43), o.left(s.a18, 21), o.left(s.a24, 14),
      o.left(s.a3, 28), o.left(s.a9, 20), o.left(s.a10, 3), o.left(s.a16, 45), o.left(s.a22, 61),
      o.left(s.a1, 1), o.left(s.a7, 6), o.left(s.a13, 25), o.left(s.a19, 8), o.left(s.a20, 18),
      o.left(s.a4, 27), o.left(s.a5, 36), o.left(s.a11, 10), o.left(s.a17, 15), o.left(s.a23, 56),
      o.left(s.a2, 62), o.left(s.a8, 55), o.left(s.a14, 39), o.left(s.a15, 41), o.left(s.a21, 2))
  }

  function ChiFlat<W(!new)>(o: Ops<W>, s: Lanes<W>): Lanes<W> {
    Lanes(
      o.xor(s.a0, o.masked(s.a1, s.a2)), o.xor(s.a1, o.masked(s.a2, s.a3)), o.xor(s.a2, o.masked(s.a3, s.a4)),
      o.xor(s.a3, o.masked(s.a4, s.a0)), o.xor(s.a4, o.masked(s.a0, s.a1)), o.xor(s.a5, o.masked(s.a6, s.a7)),
      o.xor(s.a6, o.masked(s.a7, s.a8)), o.xor(s.a7, o.masked(s.a8, s.a9)), o.xor(s.a8, o.masked(s.a9, s.a5)),
      o.xor(s.a9, o.masked(s.a5, s.a6)), o.xor(s.a10, o.masked(s.a11, s.a12)), o.xor(s.a11, o.masked(s.a12, s.a13)),
      o.xor(s.a12, o.masked(s.a13, s.a14)), o.xor(s.a13, o.masked(s.a14, s.a10)), o.xor(s.a14, o.masked(s.a10, s.a11)),
      o.xor(s.a15, o.masked(s.a16, s.a17)), o.xor(s.a16, o.masked(s.a17, s.a18)), o.xor(s.a17, o.masked(s.a18, s.a19)),
      o.xor(s.a18, o.masked(s.a19, s.a15)), o.xor(s.a19, o.masked(s.a15, s.a16)), o.xor(s.a20, o.masked(s.a21, s.a22)),
      o.xor(s.a21, o.masked(s.a22, s.a23)), o.xor(s.a22, o.masked(s.a23, s.a24)), o.xor(s.a23, o.masked(s.a24, s.a20)),
      o.xor(s.a24, o.masked(s.a20, s.a21)))
  }

  function RoundFlat<W(!new)>(o: Ops<W>, s: Lanes<W>, constant: W): Lanes<W> {
    var t := ChiFlat(o, RhoPiFlat(o, ThetaFlat(o, s)));
    t.(a0 := o.xor(t.a0, constant))
  }

  lemma ThetaAt<W(!new)>(o: Ops<W>, s: Lanes<W>, i: nat, x: Coordinate, d: W)
    requires i < 25 && i % 5 == x && Fix(o, s.Seq(), x) == d
    ensures ThetaOn(o, s.Seq())[i] == o.xor(s.At(i), d)
  {
  }

  lemma ParityAt<W(!new)>(o: Ops<W>, s: Lanes<W>, x: Coordinate)
    ensures Parity5(o, s.Seq(), x)
         == o.xor(o.xor(o.xor(o.xor(s.At(x), s.At(x + 5)), s.At(x + 10)), s.At(x + 15)), s.At(x + 20))
  {
  }

  lemma SameLanes<W(!new)>(s: Lanes<W>, r: seq<W>)
    requires |r| == 25 && forall i :: 0 <= i < 25 ==> s.At(i) == r[i]
    ensures s.Seq() == r
  {
  }

  lemma ThetaIsFlat<W(!new)>(o: Ops<W>, s: Lanes<W>)
    ensures ThetaFlat(o, s).Seq() == ThetaOn(o, s.Seq())
  {
    var l := s.Seq();
    ParityAt(o, s, 0);
    ParityAt(o, s, 1);
    ParityAt(o, s, 2);
    ParityAt(o, s, 3);
    ParityAt(o, s, 4);
    ThetaAt(o, s, 0, 0, Fix(o, l, 0));
    ThetaAt(o, s, 1, 1, Fix(o, l, 1));
    ThetaAt(o, s, 2, 2, Fix(o, l, 2));
    ThetaAt(o, s, 3, 3, Fix(o, l, 3));
    ThetaAt(o, s, 4, 4, Fix(o, l, 4));
    ThetaAt(o, s, 5, 0, Fix(o, l, 0));
    ThetaAt(o, s, 6, 1, Fix(o, l, 1));
    ThetaAt(o, s, 7, 2, Fix(o, l, 2));
    ThetaAt(o, s, 8, 3, Fix(o, l, 3));
    ThetaAt(o, s, 9, 4, Fix(o, l, 4));
    ThetaAt(o, s, 10, 0, Fix(o, l, 0));
    ThetaAt(o, s, 11, 1, Fix(o, l, 1));
    ThetaAt(o, s, 12, 2, Fix(o, l, 2));
    ThetaAt(o, s, 13, 3, Fix(o, l, 3));
    ThetaAt(o, s, 14, 4, Fix(o, l, 4));
    ThetaAt(o, s, 15, 0, Fix(o, l, 0));
    ThetaAt(o, s, 16, 1, Fix(o, l, 1));
    ThetaAt(o, s, 17, 2, Fix(o, l, 2));
    ThetaAt(o, s, 18, 3, Fix(o, l, 3));
    ThetaAt(o, s, 19, 4, Fix(o, l, 4));
    ThetaAt(o, s, 20, 0, Fix(o, l, 0));
    ThetaAt(o, s, 21, 1, Fix(o, l, 1));
    ThetaAt(o, s, 22, 2, Fix(o, l, 2));
    ThetaAt(o, s, 23, 3, Fix(o, l, 3));
    ThetaAt(o, s, 24, 4, Fix(o, l, 4));
    SameLanes(ThetaFlat(o, s), ThetaOn(o, l));
  }

  lemma SourceIs(x: Coordinate, y: Coordinate)
    ensures Source(x + 5 * y) == Diagonal(x, y) + 5 * x
    ensures Source(x + 5 * y) % 5 == Diagonal(x, y) && Source(x + 5 * y) / 5 == x
  {
    assert (x + 5 * y) % 5 == x && (x + 5 * y) / 5 == y;
  }

  lemma RhoPiAt<W(!new)>(o: Ops<W>, s: Lanes<W>, x: Coordinate, y: Coordinate, d: Coordinate, k: Position)
    requires d == Diagonal(x, y) && ROTATION[d][x] == k
    ensures RhoPiOn(o, s.Seq())[x + 5 * y] == o.left(s.At(d + 5 * x), k)
  {
    SourceIs(x, y);
  }

  lemma RhoPiRow0<W(!new)>(o: Ops<W>, s: Lanes<W>)
    ensures var r, t := RhoPiOn(o, s.Seq()), RhoPiFlat(o, s);
            r[0] == t.a0 && r[1] == t.a1 && r[2] == t.a2 && r[3] == t.a3 && r[4] == t.a4
  {
    RhoPiAt(o, s, 0, 0, 0, 0);
    RhoPiAt(o, s, 1, 0, 1, 44);
    RhoPiAt(o, s, 2, 0, 2, 43);
    RhoPiAt(o, s, 3, 0, 3, 21);
    RhoPiAt(o, s, 4, 0, 4, 14);
  }

  lemma RhoPiRow1<W(!new)>(o: Ops<W>, s: Lanes<W>)
    ensures var r, t := RhoPiOn(o, s.Seq()), RhoPiFlat(o, s);
            r[5] == t.a5 && r[6] == t.a6 && r[7] == t.a7 && r[8] == t.a8 && r[9] == t.a9
  {
    RhoPiAt(o, s, 0, 1, 3, 28);
    RhoPiAt(o, s, 1, 1, 4, 20);
    RhoPiAt(o, s, 2, 1, 0, 3);
    RhoPiAt(o, s, 3, 1, 1, 45);
    RhoPiAt(o, s, 4, 1, 2, 61);
  }

  lemma RhoPiRow2<W(!new)>(o: Ops<W>, s: Lanes<W>)
    ensures var r, t := RhoPiOn(o, s.Seq()), RhoPiFlat(o, s);
            r[10] == t.a10 && r[11] == t.a11 && r[12] == t.a12 && r[13] == t.a13 && r[14] == t.a14
  {
    RhoPiAt(o, s, 0, 2, 1, 1);
    RhoPiAt(o, s, 1, 2, 2, 6);
    RhoPiAt(o, s, 2, 2, 3, 25);
    RhoPiAt(o, s, 3, 2, 4, 8);
    RhoPiAt(o, s, 4, 2, 0, 18);
  }

  lemma RhoPiRow3<W(!new)>(o: Ops<W>, s: Lanes<W>)
    ensures var r, t := RhoPiOn(o, s.Seq()), RhoPiFlat(o, s);
            r[15] == t.a15 && r[16] == t.a16 && r[17] == t.a17 && r[18] == t.a18 && r[19] == t.a19
  {
    RhoPiAt(o, s, 0, 3, 4, 27);
    RhoPiAt(o, s, 1, 3, 0, 36);
    RhoPiAt(o, s, 2, 3, 1, 10);
    RhoPiAt(o, s, 3, 3, 2, 15);
    RhoPiAt(o, s, 4, 3, 3, 56);
  }

  lemma RhoPiRow4<W(!new)>(o: Ops<W>, s: Lanes<W>)
    ensures var r, t := RhoPiOn(o, s.Seq()), RhoPiFlat(o, s);
            r[20] == t.a20 && r[21] == t.a21 && r[22] == t.a22 && r[23] == t.a23 && r[24] == t.a24
  {
    RhoPiAt(o, s, 0, 4, 2, 62);
    RhoPiAt(o, s, 1, 4, 3, 55);
    RhoPiAt(o, s, 2, 4, 4, 39);
    RhoPiAt(o, s, 3, 4, 0, 41);
    RhoPiAt(o, s, 4, 4, 1, 2);
  }

  lemma RhoPiIsFlat<W(!new)>(o: Ops<W>, s: Lanes<W>)
    ensures RhoPiFlat(o, s).Seq() == RhoPiOn(o, s.Seq())
  {
    RhoPiRow0(o, s);
    RhoPiRow1(o, s);
    RhoPiRow2(o, s);
    RhoPiRow3(o, s);
    RhoPiRow4(o, s);
    SameLanes(RhoPiFlat(o, s), RhoPiOn(o, s.Seq()));
  }

  lemma ChiOnAt<W(!new)>(o: Ops<W>, s: Lanes<W>, x: Coordinate, y: Coordinate)
    ensures ChiOn(o, s.Seq())[x + 5 * y]
         == o.xor(s.At(x + 5 * y), o.masked(s.At(Next(x) + 5 * y), s.At(Next(Next(x)) + 5 * y)))
  {
    OnwardIs(x, y);
  }

  lemma OnwardIs(x: Coordinate, y: Coordinate)
    ensures Onward(x + 5 * y, 1) == Next(x) + 5 * y && Onward(x + 5 * y, 2) == Next(Next(x)) + 5 * y
  {
    assert (x + 5 * y) % 5 == x && (x + 5 * y) / 5 == y;
  }

  lemma ChiRow0<W(!new)>(o: Ops<W>, s: Lanes<W>)
    ensures var r, t := ChiOn(o, s.Seq()), ChiFlat(o, s);
            r[0] == t.a0 && r[1] == t.a1 && r[2] == t.a2 && r[3] == t.a3 && r[4] == t.a4
  {
    ChiOnAt(o, s, 0, 0);
    ChiOnAt(o, s, 1, 0);
    ChiOnAt(o, s, 2, 0);
    ChiOnAt(o, s, 3, 0);
    ChiOnAt(o, s, 4, 0);
  }

  lemma ChiRow1<W(!new)>(o: Ops<W>, s: Lanes<W>)
    ensures var r, t := ChiOn(o, s.Seq()), ChiFlat(o, s);
            r[5] == t.a5 && r[6] == t.a6 && r[7] == t.a7 && r[8] == t.a8 && r[9] == t.a9
  {
    ChiOnAt(o, s, 0, 1);
    ChiOnAt(o, s, 1, 1);
    ChiOnAt(o, s, 2, 1);
    ChiOnAt(o, s, 3, 1);
    ChiOnAt(o, s, 4, 1);
  }

  lemma ChiRow2<W(!new)>(o: Ops<W>, s: Lanes<W>)
    ensures var r, t := ChiOn(o, s.Seq()), ChiFlat(o, s);
            r[10] == t.a10 && r[11] == t.a11 && r[12] == t.a12 && r[13] == t.a13 && r[14] == t.a14
  {
    ChiOnAt(o, s, 0, 2);
    ChiOnAt(o, s, 1, 2);
    ChiOnAt(o, s, 2, 2);
    ChiOnAt(o, s, 3, 2);
    ChiOnAt(o, s, 4, 2);
  }

  lemma ChiRow3<W(!new)>(o: Ops<W>, s: Lanes<W>)
    ensures var r, t := ChiOn(o, s.Seq()), ChiFlat(o, s);
            r[15] == t.a15 && r[16] == t.a16 && r[17] == t.a17 && r[18] == t.a18 && r[19] == t.a19
  {
    ChiOnAt(o, s, 0, 3);
    ChiOnAt(o, s, 1, 3);
    ChiOnAt(o, s, 2, 3);
    ChiOnAt(o, s, 3, 3);
    ChiOnAt(o, s, 4, 3);
  }

  lemma ChiRow4<W(!new)>(o: Ops<W>, s: Lanes<W>)
    ensures var r, t := ChiOn(o, s.Seq()), ChiFlat(o, s);
            r[20] == t.a20 && r[21] == t.a21 && r[22] == t.a22 && r[23] == t.a23 && r[24] == t.a24
  {
    ChiOnAt(o, s, 0, 4);
    ChiOnAt(o, s, 1, 4);
    ChiOnAt(o, s, 2, 4);
    ChiOnAt(o, s, 3, 4);
    ChiOnAt(o, s, 4, 4);
  }

  lemma ChiIsFlat<W(!new)>(o: Ops<W>, s: Lanes<W>)
    ensures ChiFlat(o, s).Seq() == ChiOn(o, s.Seq())
  {
    ChiRow0(o, s);
    ChiRow1(o, s);
    ChiRow2(o, s);
    ChiRow3(o, s);
    ChiRow4(o, s);
    SameLanes(ChiFlat(o, s), ChiOn(o, s.Seq()));
  }

  lemma RoundIsFlat<W(!new)>(o: Ops<W>, s: Lanes<W>, constant: W)
    ensures RoundFlat(o, s, constant).Seq() == RoundOn(o, s.Seq(), constant)
  {
    var t := ThetaFlat(o, s);
    var b := RhoPiFlat(o, t);
    var r := ChiFlat(o, b);
    ThetaIsFlat(o, s);
    RhoPiIsFlat(o, t);
    ChiIsFlat(o, b);
    IotaIsFlat(o, r, constant);
  }

  lemma IotaIsFlat<W(!new)>(o: Ops<W>, s: Lanes<W>, constant: W)
    ensures s.(a0 := o.xor(s.a0, constant)).Seq() == IotaOn(o, s.Seq(), constant)
  {
  }

  /** The whole round in one expression. */
  function Flat<W(!new)>(o: Ops<W>, s: Lanes<W>, constant: W): Lanes<W> {
    var c0 := o.xor(o.xor(o.xor(o.xor(s.a0, s.a5), s.a10), s.a15), s.a20);
    var c1 := o.xor(o.xor(o.xor(o.xor(s.a1, s.a6), s.a11), s.a16), s.a21);
    var c2 := o.xor(o.xor(o.xor(o.xor(s.a2, s.a7), s.a12), s.a17), s.a22);
    var c3 := o.xor(o.xor(o.xor(o.xor(s.a3, s.a8), s.a13), s.a18), s.a23);
    var c4 := o.xor(o.xor(o.xor(o.xor(s.a4, s.a9), s.a14), s.a19), s.a24);
    var d0 := o.xor(c4, o.left(c1, 1));
    var d1 := o.xor(c0, o.left(c2, 1));
    var d2 := o.xor(c1, o.left(c3, 1));
    var d3 := o.xor(c2, o.left(c4, 1));
    var d4 := o.xor(c3, o.left(c0, 1));
    var b0 := o.left(o.xor(s.a0, d0), 0);
    var b1 := o.left(o.xor(s.a6, d1), 44);
    var b2 := o.left(o.xor(s.a12, d2), 43);
    var b3 := o.left(o.xor(s.a18, d3), 21);
    var b4 := o.left(o.xor(s.a24, d4), 14);
    var b5 := o.left(o.xor(s.a3, d3), 28);
    var b6 := o.left(o.xor(s.a9, d4), 20);
    var b7 := o.left(o.xor(s.a10, d0), 3);
    var b8 := o.left(o.xor(s.a16, d1), 45);
    var b9 := o.left(o.xor(s.a22, d2), 61);
    var b10 := o.left(o.xor(s.a1, d1), 1);
    var b11 := o.left(o.xor(s.a7, d2), 6);
    var b12 := o.left(o.xor(s.a13, d3), 25);
    var b13 := o.left(o.xor(s.a19, d4), 8);
    var b14 := o.left(o.xor(s.a20, d0), 18);
    var b15 := o.left(o.xor(s.a4, d4), 27);
    var b16 := o.left(o.xor(s.a5, d0), 36);
    var b17 := o.left(o.xor(s.a11, d1), 10);
    var b18 := o.left(o.xor(s.a17, d2), 15);
    var b19 := o.left(o.xor(s.a23, d3), 56);
    var b20 := o.left(o.xor(s.a2, d2), 62);
    var b21 := o.left(o.xor(s.a8, d3), 55);
    var b22 := o.left(o.xor(s.a14, d4), 39);
    var b23 := o.left(o.xor(s.a15, d0), 41);
    var b24 := o.left(o.xor(s.a21, d1), 2);
    Lanes(
      o.xor(o.xor(b0, o.masked(b1, b2)), constant), o.xor(b1, o.masked(b2, b3)), o.xor(b2, o.masked(b3, b4)),
      o.xor(b3, o.masked(b4, b0)), o.xor(b4, o.masked(b0, b1)), o.xor(b5, o.masked(b6, b7)),
      o.xor(b6, o.masked(b7, b8)), o.xor(b7, o.masked(b8, b9)), o.xor(b8, o.masked(b9, b5)),
      o.xor(b9, o.masked(b5, b6)), o.xor(b10, o.masked(b11, b12)), o.xor(b11, o.masked(b12, b13)),
      o.xor(b12, o.masked(b13, b14)), o.xor(b13, o.masked(b14, b10)), o.xor(b14, o.masked(b10, b11)),
      o.xor(b15, o.masked(b16, b17)), o.xor(b16, o.masked(b17, b18)), o.xor(b17, o.masked(b18, b19)),
      o.xor(b18, o.masked(b19, b15)), o.xor(b19, o.masked(b15, b16)), o.xor(b20, o.masked(b21, b22)),
      o.xor(b21, o.masked(b22, b23)), o.xor(b22, o.masked(b23, b24)), o.xor(b23, o.masked(b24, b20)),
      o.xor(b24, o.masked(b20, b21)))
  }

  lemma FlatIsRound<W(!new)>(o: Ops<W>, s: Lanes<W>, constant: W)
    ensures Flat(o, s, constant) == RoundFlat(o, s, constant)
  {
  }

  /** The same on 64-bit words, in two steps. */
  function MovedWords(s: Lanes<bv64>): Lanes<bv64> {
    var c0 := Sum(Sum(Sum(Sum(s.a0, s.a5), s.a10), s.a15), s.a20);
    var c1 := Sum(Sum(Sum(Sum(s.a1, s.a6), s.a11), s.a16), s.a21);
    var c2 := Sum(Sum(Sum(Sum(s.a2, s.a7), s.a12), s.a17), s.a22);
    var c3 := Sum(Sum(Sum(Sum(s.a3, s.a8), s.a13), s.a18), s.a23);
    var c4 := Sum(Sum(Sum(Sum(s.a4, s.a9), s.a14), s.a19), s.a24);
    var d0 := Sum(c4, Left(c1, 1));
    var d1 := Sum(c0, Left(c2, 1));
    var d2 := Sum(c1, Left(c3, 1));
    var d3 := Sum(c2, Left(c4, 1));
    var d4 := Sum(c3, Left(c0, 1));
    Lanes(
      Left(Sum(s.a0, d0), 0), Left(Sum(s.a6, d1), 44), Left(Sum(s.a12, d2), 43), Left(Sum(s.a18, d3), 21),
      Left(Sum(s.a24, d4), 14), Left(Sum(s.a3, d3), 28), Left(Sum(s.a9, d4), 20), Left(Sum(s.a10, d0), 3),
      Left(Sum(s.a16, d1), 45), Left(Sum(s.a22, d2), 61), Left(Sum(s.a1, d1), 1), Left(Sum(s.a7, d2), 6),
      Left(Sum(s.a13, d3), 25), Left(Sum(s.a19, d4), 8), Left(Sum(s.a20, d0), 18), Left(Sum(s.a4, d4), 27),
      Left(Sum(s.a5, d0), 36), Left(Sum(s.a11, d1), 10), Left(Sum(s.a17, d2), 15), Left(Sum(s.a23, d3), 56),
      Left(Sum(s.a2, d2), 62), Left(Sum(s.a8, d3), 55), Left(Sum(s.a14, d4), 39), Left(Sum(s.a15, d0), 41),
      Left(Sum(s.a21, d1), 2))
  }

  function FlatWords(s: Lanes<bv64>, constant: bv64): Lanes<bv64> {
    var b := MovedWords(s);
    Lanes(
      Sum(Sum(b.a0, Masking(b.a1, b.a2)), constant), Sum(b.a1, Masking(b.a2, b.a3)), Sum(b.a2, Masking(b.a3, b.a4)),
      Sum(b.a3, Masking(b.a4, b.a0)), Sum(b.a4, Masking(b.a0, b.a1)), Sum(b.a5, Masking(b.a6, b.a7)),
      Sum(b.a6, Masking(b.a7, b.a8)), Sum(b.a7, Masking(b.a8, b.a9)), Sum(b.a8, Masking(b.a9, b.a5)),
      Sum(b.a9, Masking(b.a5, b.a6)), Sum(b.a10, Masking(b.a11, b.a12)), Sum(b.a11, Masking(b.a12, b.a13)),
      Sum(b.a12, Masking(b.a13, b.a14)), Sum(b.a13, Masking(b.a14, b.a10)), Sum(b.a14, Masking(b.a10, b.a11)),
      Sum(b.a15, Masking(b.a16, b.a17)), Sum(b.a16, Masking(b.a17, b.a18)), Sum(b.a17, Masking(b.a18, b.a19)),
      Sum(b.a18, Masking(b.a19, b.a15)), Sum(b.a19, Masking(b.a15, b.a16)), Sum(b.a20, Masking(b.a21, b.a22)),
      Sum(b.a21, Masking(b.a22, b.a23)), Sum(b.a22, Masking(b.a23, b.a24)), Sum(b.a23, Masking(b.a24, b.a20)),
      Sum(b.a24, Masking(b.a20, b.a21)))
  }

  lemma FlatOnWords(s: Lanes<bv64>, constant: bv64)
    ensures Flat(WordOps(), s, constant) == FlatWords(s, constant)
  {
  }
}
