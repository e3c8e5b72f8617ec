/** The tables of the permutation, and where FIPS 202 derives them from. */
module KeccakTables {

  import opened KeccakSpec

  /** The round constants, from 0x0000000000000001 to 0x8000000080008008. */
  const ROUND_CONSTANTS: seq<Bits> := [
    {0}, {1, 7, 15}, {1, 3, 7, 15, 63}, {15, 31, 63}, {0, 1, 3, 7, 15}, {0, 31},
    {0, 7, 15, 31, 63}, {0, 3, 15, 63}, {1, 3, 7}, {3, 7}, {0, 3, 15, 31}, {1, 3, 31},
    {0, 1, 3, 7, 15, 31}, {0, 1, 3, 7, 63}, {0, 3, 7, 15, 63}, {0, 1, 15, 63}, {1, 15, 63}, {7, 63},
    {1, 3, 15}, {1, 3, 31, 63}, {0, 7, 15, 31, 63}, {7, 15, 63}, {0, 31}, {3, 15, 31, 63}]

  /** The rotation offsets, by `x` and then `y`. */
  const ROTATION: seq<seq<Position>> := [
    [0, 36, 3, 41, 18],
    [1, 44, 10, 45, 2],
    [62, 6, 43, 15, 61],
    [28, 55, 25, 21, 56],
    [27, 20, 39, 8, 14]]

  lemma WalkValues()
    ensures Walk(0) == (1, 0) && Walk(1) == (0, 2) && Walk(2) == (2, 1) && Walk(3) == (1, 2)
    ensures Walk(4) == (2, 3) && Walk(5) == (3, 3) && Walk(6) == (3, 0) && Walk(7) == (0, 1)
    ensures Walk(8) == (1, 3) && Walk(9) == (3, 1) && Walk(10) == (1, 4) && Walk(11) == (4, 4)
    ensures Walk(12) == (4, 0) && Walk(13) == (0, 3) && Walk(14) == (3, 4) && Walk(15) == (4, 3)
    ensures Walk(16) == (3, 2) && Walk(17) == (2, 2) && Walk(18) == (2, 0) && Walk(19) == (0, 4)
    ensures Walk(20) == (4, 2) && Walk(21) == (2, 4) && Walk(22) == (4, 1) && Walk(23) == (1, 1)
  {
  }

  /** The walk meets every lane but the first once, so the offset is the one of its step. */
  lemma {:induction false} OffsetAtStep(t: nat, u: nat, x: Coordinate, y: Coordinate)
    requires t <= u < 24 && Walk(u) == (x, y) && forall v :: t <= v < u ==> Walk(v) != (x, y)
    ensures OffsetFrom(t, x, y) == ((u + 1) * (u + 2) / 2) % 64
    decreases u - t
  {
    if t < u { OffsetAtStep(t + 1, u, x, y); }
  }

  const STEPS: seq<(Coordinate, Coordinate)> := [
    (1, 0), (0, 2), (2, 1), (1, 2), (2, 3), (3, 3), (3, 0), (0, 1),
    (1, 3), (3, 1), (1, 4), (4, 4), (4, 0), (0, 3), (3, 4), (4, 3),
    (3, 2), (2, 2), (2, 0), (0, 4), (4, 2), (2, 4), (4, 1), (1, 1)]

  lemma WalkSteps(t: nat)
    requires t < 24
    ensures Walk(t) == STEPS[t]
  {
    WalkValues();
  }

  lemma NeverBefore(u: nat, v: nat)
    requires v < u < 24
    ensures Walk(v) != Walk(u)
  {
    WalkSteps(u);
    WalkSteps(v);
  }

  lemma RotationAtStep(u: nat)
    requires u < 24
    ensures var (x, y) := STEPS[u]; ROTATION[x][y] == ((u + 1) * (u + 2) / 2) % 64
  {
  }

  /** The step at which the walk meets a lane; the first lane is never met. */
  const STEP_OF: seq<seq<nat>> := [
    [24, 7, 1, 13, 19],
    [0, 23, 3, 8, 10],
    [18, 2, 17, 4, 21],
    [6, 9, 16, 5, 14],
    [12, 22, 20, 15, 11]]

  lemma StepIsFound(x: Coordinate, y: Coordinate)
    requires (x, y) != (0, 0)
    ensures STEP_OF[x][y] < 24 && STEPS[STEP_OF[x][y]] == (x, y)
  {
  }

  lemma {:induction false} FirstLaneStays(t: nat)
    requires t <= 24
    ensures OffsetFrom(t, 0, 0) == 0
    decreases 24 - t
  {
    if t < 24 {
      WalkSteps(t);
      FirstLaneStays(t + 1);
    }
  }

  /** The table of offsets is the walk of section 3.2.2. */
  lemma RotationIsWalk(x: Coordinate, y: Coordinate)
    ensures ROTATION[x][y] == Offset(x, y)
  {
    if (x, y) == (0, 0) {
      FirstLaneStays(0);
    } else {
      var u := STEP_OF[x][y];
      StepIsFound(x, y);
      WalkSteps(u);
      RotationAtStep(u);
      forall v | 0 <= v < u ensures Walk(v) != Walk(u) { NeverBefore(u, v); }
      OffsetAtStep(0, u, x, y);
    }
  }

  lemma SevenSteps(t: nat)
    ensures Register(t + 7) == Clocked(Clocked(Clocked(Clocked(Clocked(Clocked(Clocked(Register(t))))))))
    ensures Register(t + 6) == Clocked(Clocked(Clocked(Clocked(Clocked(Clocked(Register(t)))))))
  {
    assert Register(t + 1) == Clocked(Register(t));
    assert Register(t + 2) == Clocked(Register(t + 1));
    assert Register(t + 3) == Clocked(Register(t + 2));
    assert Register(t + 4) == Clocked(Register(t + 3));
    assert Register(t + 5) == Clocked(Register(t + 4));
    assert Register(t + 6) == Clocked(Register(t + 5));
    assert Register(t + 7) == Clocked(Register(t + 6));
  }

  lemma RegisterValues()
    ensures Register(0) == 0x1 && Register(7) == 0x80 && Register(14) == 0xd8 && Register(21) == 0x1a
    ensures Register(28) == 0xdf && Register(35) == 0x9 && Register(42) == 0x35 && Register(49) == 0x4f
    ensures Register(56) == 0xca && Register(63) == 0x70 && Register(70) == 0x41 && Register(77) == 0xec
    ensures Register(84) == 0xd5 && Register(91) == 0xcd && Register(98) == 0x63 && Register(105) == 0xab
    ensures Register(112) == 0xaa && Register(119) == 0x2a && Register(126) == 0xf2 && Register(133) == 0xe8
    ensures Register(140) == 0x37 && Register(147) == 0x3e && Register(154) == 0xb && Register(161) == 0x44
  {
    SevenSteps(0);
    SevenSteps(7);
    SevenSteps(14);
    SevenSteps(21);
    SevenSteps(28);
    SevenSteps(35);
    SevenSteps(42);
    SevenSteps(49);
    SevenSteps(56);
    SevenSteps(63);
    SevenSteps(70);
    SevenSteps(77);
    SevenSteps(84);
    SevenSteps(91);
    SevenSteps(98);
    SevenSteps(105);
    SevenSteps(112);
    SevenSteps(119);
    SevenSteps(126);
    SevenSteps(133);
    SevenSteps(140);
    SevenSteps(147);
    SevenSteps(154);
  }

  /** The constant that seven register bits from `r` on give. */
  function ConstantFrom(r: bv8): Bits {
    (if r & 1 == 1 then {0} else {})
    + (if Clocked(r) & 1 == 1 then {1} else {})
    + (if Clocked(Clocked(r)) & 1 == 1 then {3} else {})
    + (if Clocked(Clocked(Clocked(r))) & 1 == 1 then {7} else {})
    + (if Clocked(Clocked(Clocked(Clocked(r)))) & 1 == 1 then {15} else {})
    + (if Clocked(Clocked(Clocked(Clocked(Clocked(r))))) & 1 == 1 then {31} else {})
    + (if Clocked(Clocked(Clocked(Clocked(Clocked(Clocked(r)))))) & 1 == 1 then {63} else {})
  }

  lemma ConstantIsFrom(round: nat)
    ensures RoundConstant(round) == ConstantFrom(Register(7 * round))
  {
    var t := 7 * round;
    assert Register(t + 1) == Clocked(Register(t));
    assert Register(t + 2) == Clocked(Register(t + 1));
    assert Register(t + 3) == Clocked(Register(t + 2));
    assert Register(t + 4) == Clocked(Register(t + 3));
    assert Register(t + 5) == Clocked(Register(t + 4));
    assert Register(t + 6) == Clocked(Register(t + 5));
  }

  lemma ConstantsFrom0(round: nat)
    requires 0 <= round < 4
    ensures ROUND_CONSTANTS[round] == ConstantFrom(Register(7 * round))
  {
    RegisterValues();
  }

  lemma ConstantsFrom4(round: nat)
    requires 4 <= round < 8
    ensures ROUND_CONSTANTS[round] == ConstantFrom(Register(7 * round))
  {
    RegisterValues();
  }

  lemma ConstantsFrom8(round: nat)
    requires 8 <= round < 12
    ensures ROUND_CONSTANTS[round] == ConstantFrom(Register(7 * round))
  {
    RegisterValues();
  }

  lemma ConstantsFrom12(round: nat)
    requires 12 <= round < 16
    ensures ROUND_CONSTANTS[round] == ConstantFrom(Register(7 * round))
  {
    RegisterValues();
  }

  lemma ConstantsFrom16(round: nat)
    requires 16 <= round < 20
    ensures ROUND_CONSTANTS[round] == ConstantFrom(Register(7 * round))
  {
    RegisterValues();
  }

  lemma ConstantsFrom20(round: nat)
    requires 20 <= round < 24
    ensures ROUND_CONSTANTS[round] == ConstantFrom(Register(7 * round))
  {
    RegisterValues();
  }

  /** The round constants are the output of the shift register of section 3.2.5. */
  lemma RoundConstantsAreRegister(round: nat)
    requires round < 24
    ensures ROUND_CONSTANTS[round] == RoundConstant(round)
  {
    ConstantIsFrom(round);
    if round < 4 { ConstantsFrom0(round); }
    else if round < 8 { ConstantsFrom4(round); }
    else if round < 12 { ConstantsFrom8(round); }
    else if round < 16 { ConstantsFrom12(round); }
    else if round < 20 { ConstantsFrom16(round); }
    else { ConstantsFrom20(round); }
  }

  // ---------------------------------------------------------------------------------
  // The steps, by indices
  // ---------------------------------------------------------------------------------

  /** Whether an odd number of the five bits of a column are ones. */
  predicate OddColumn(s: State, x: Coordinate, z: Position) {
    ((((z in s[x]) != (z in s[x + 5])) != (z in s[x + 10])) != (z in s[x + 15])) != (z in s[x + 20])
  }

  lemma OddIsParity(s: State, x: Coordinate, z: Position)
    ensures OddColumn(s, x, z) == Parity(s, x, z)
  {
    var zero: Coordinate, one: Coordinate, two: Coordinate, three: Coordinate, four: Coordinate := 0, 1, 2, 3, 4;
    assert Bit(s, x, zero, z) == (z in s[x]) && Bit(s, x, one, z) == (z in s[x + 5]) && Bit(s, x, two, z) == (z in s[x + 10]);
    assert Bit(s, x, three, z) == (z in s[x + 15]) && Bit(s, x, four, z) == (z in s[x + 20]);
  }

  lemma ModuloFive(x: Coordinate)
    ensures (x + 4) % 5 == Previous(x) && (x + 1) % 5 == Next(x)
  {
  }

  lemma ModuloWidth(z: Position, k: Position)
    ensures (z + 64 - k) % 64 == Back(z, k)
  {
  }

  /** Theta flips a bit exactly when one, but not both, of two columns is odd: the one before it, at the same
      position, and the one after it, at the position before. */
  lemma ThetaFlips(s: State, x: Coordinate, y: Coordinate, z: Position, p: Coordinate, n: Coordinate, b: Position)
    requires p == (x + 4) % 5 && n == (x + 1) % 5 && b == (z + 63) % 64
    ensures Bit(Theta(s), x, y, z) != Bit(s, x, y, z) <==> OddColumn(s, p, z) != OddColumn(s, n, b)
  {
    ModuloFive(x);
    ModuloWidth(z, 1);
    OddIsParity(s, p, z);
    OddIsParity(s, n, b);
    ThetaBit(s, x, y, z);
  }

  /** Chi flips a bit exactly when the next bit of its row is a zero and the one after that a one. */
  lemma ChiFlips(s: State, x: Coordinate, y: Coordinate, z: Position)
    ensures Bit(Chi(s), x, y, z) != Bit(s, x, y, z) <==> !Bit(s, (x + 1) % 5, y, z) && Bit(s, (x + 2) % 5, y, z)
  {
    ChiStateBit(s, x, y, z);
    assert (x + 1) % 5 == Next(x) && (x + 2) % 5 == Next(Next(x));
  }

  /** Iota flips exactly the bits of the first lane that the constant has. */
  lemma IotaFlips(s: State, constant: Bits, x: Coordinate, y: Coordinate, z: Position)
    ensures Bit(Iota(s, constant), x, y, z) != Bit(s, x, y, z) <==> x == 0 && y == 0 && z in constant
  {
    IotaBit(s, constant, x, y, z);
  }
}
