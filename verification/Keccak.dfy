/** Keccak-256 in place, as the offline metadata path computes it, against the bitwise definition.

    The integers of the program are the sets of the positions of their one bits: exclusive or is the
    symmetric difference, a left shift adds to every position, and the complement of one integer
    masked by another is the difference of the two sets. */
module Keccak {

  import opened KeccakSpec
  import opened KeccakTables

  function Xor(a: Bits, b: Bits): Bits {
    (a - b) + (b - a)
  }

  function Low64(a: Bits): Bits {
    set z | z in a && 0 <= z < 64
  }

  function ShiftLeft(a: Bits, k: int): Bits {
    set z | z in a :: z + k
  }

  function ShiftRight(a: Bits, k: int): Bits {
    set z | z in a && k <= z :: z - k
  }

  function RotateLeft(a: Bits, k: Position): Bits {
    if k == 0 then a else Low64(ShiftLeft(a, k) + ShiftRight(a, 64 - k))
  }

  // ---------------------------------------------------------------------------------
  // Lanes and bits
  // ---------------------------------------------------------------------------------

  lemma XorBit(a: Bits, b: Bits, z: int)
    ensures z in Xor(a, b) <==> Odd(z in a, z in b)
  {
  }

  lemma XorIsLane(a: Bits, b: Bits)
    requires Lane(a) && Lane(b)
    ensures Lane(Xor(a, b))
  {
  }

  /** The masked rotation of a lane is a lane: the bit at `z` is the one `k` positions back. */
  lemma RotateBit(a: Bits, k: Position, z: Position)
    requires Lane(a)
    ensures z in RotateLeft(a, k) <==> Back(z, k) in a
  {
  }

  lemma RotateIsLane(a: Bits, k: Position)
    requires Lane(a)
    ensures Lane(RotateLeft(a, k))
  {
  }

  /** A lane is told by its bits. */
  lemma LaneIs(a: Bits, s: State, x: Coordinate, y: Coordinate)
    requires Lane(a) && forall z: Position :: z in a <==> Bit(s, x, y, z)
    ensures a == s[x + 5 * y]
  {
    forall z ensures z in a <==> z in s[x + 5 * y] {
      if 0 <= z < 64 {
        var p: Position := z;
        assert p in a <==> Bit(s, x, y, p);
      }
    }
  }

  /** A state is told by its lanes. */
  lemma StateIs(a: seq<Bits>, s: State)
    requires |a| == 25 && forall x: Coordinate, y: Coordinate :: LaneAt(a, s, x, y)
    ensures a == s
  {
    forall i | 0 <= i < 25 ensures a[i] == s[i] {
      var x: Coordinate, y: Coordinate := i % 5, i / 5;
      assert LaneAt(a, s, x, y);
      assert x + 5 * y == i;
    }
  }

  predicate LaneAt(a: seq<Bits>, s: State, x: Coordinate, y: Coordinate)
    requires |a| == 25
  {
    a[x + 5 * y] == s[x + 5 * y]
  }

  // ---------------------------------------------------------------------------------
  // Theta
  // ---------------------------------------------------------------------------------

  function ColumnParity(s: seq<Bits>, x: Coordinate): Bits
    requires |s| == 25
  {
    Xor(Xor(Xor(Xor(s[x], s[x + 5]), s[x + 10]), s[x + 15]), s[x + 20])
  }

  lemma ColumnParityBit(s: State, x: Coordinate, z: Position)
    ensures Lane(ColumnParity(s, x))
    ensures z in ColumnParity(s, x) <==> Parity(s, x, z)
  {
  }

  function Correction(s: seq<Bits>, x: Coordinate): Bits
    requires |s| == 25
  {
    Xor(ColumnParity(s, (x - 1) % 5), RotateLeft(ColumnParity(s, (x + 1) % 5), 1))
  }

  lemma CorrectionBit(s: State, x: Coordinate, z: Position)
    ensures Lane(Correction(s, x))
    ensures z in Correction(s, x) <==> Effect(s, x, z)
  {
    assert (x - 1) % 5 == Previous(x) && (x + 1) % 5 == Next(x);
    ColumnParityBit(s, Previous(x), z);
    ColumnParityBit(s, Next(x), Back(z, 1));
    RotateBit(ColumnParity(s, Next(x)), 1, z);
    RotateIsLane(ColumnParity(s, Next(x)), 1);
    XorBit(ColumnParity(s, Previous(x)), RotateLeft(ColumnParity(s, Next(x)), 1), z);
    XorIsLane(ColumnParity(s, Previous(x)), RotateLeft(ColumnParity(s, Next(x)), 1));
  }

  lemma ThetaLane(s: State, i: int)
    requires 0 <= i < 25
    ensures Xor(s[i], Correction(s, i % 5)) == Theta(s)[i]
  {
    var x: Coordinate, y: Coordinate := i % 5, i / 5;
    assert x + 5 * y == i;
    var a := Xor(s[i], Correction(s, x));
    CorrectionBit(s, x, 0);
    XorIsLane(s[i], Correction(s, x));
    forall z: Position ensures z in a <==> Bit(Theta(s), x, y, z) {
      CorrectionBit(s, x, z);
      XorBit(s[i], Correction(s, x), z);
      ThetaBit(s, x, y, z);
    }
    LaneIs(a, Theta(s), x, y);
  }

  /** The column parities, and what each column is corrected by. */
  method Corrections(state: array<Bits>) returns (correction: seq<Bits>)
    requires state.Length == 25
    ensures |correction| == 5 && forall x :: 0 <= x < 5 ==> correction[x] == Correction(state[..], x)
  {
    var s := state[..];
    var parity := seq(5, (x: int) requires 0 <= x < 5 => ColumnParity(s, x));
    correction := seq(5, (x: int) requires 0 <= x < 5 => Xor(parity[(x - 1) % 5], RotateLeft(parity[(x + 1) % 5], 1)));
  }

  /** The nested loops of the theta step. */
  method Correct(state: array<Bits>, correction: seq<Bits>)
    requires state.Length == 25 && |correction| == 5
    modifies state
    ensures forall i :: 0 <= i < 25 ==> state[i] == Xor(old(state[i]), correction[i % 5])
  {
    for y := 0 to 5
      invariant forall i :: 0 <= i < 25 ==>
        state[i] == if i < 5 * y then Xor(old(state[i]), correction[i % 5]) else old(state[i])
    {
      for x := 0 to 5
        invariant forall i :: 0 <= i < 25 ==>
          state[i] == if i < x + 5 * y then Xor(old(state[i]), correction[i % 5]) else old(state[i])
      {
        var n := x + 5 * y;
        assert n % 5 == x;
        state[n] := Xor(state[n], correction[x]);
      }
    }
  }

  method ThetaInPlace(state: array<Bits>)
    requires state.Length == 25 && IsState(state[..])
    modifies state
    ensures state[..] == Theta(old(state[..]))
  {
    ghost var s: State := state[..];
    var correction := Corrections(state);
    Correct(state, correction);
    forall i | 0 <= i < 25 ensures state[..][i] == Theta(s)[i] {
      assert correction[i % 5] == Correction(s, i % 5);
      ThetaLane(s, i);
    }
  }

  // ---------------------------------------------------------------------------------
  // Rho and pi
  // ---------------------------------------------------------------------------------

  /** Where the loop puts the lane at index `i`. */
  function Target(i: int): int
    requires 0 <= i < 25
    ensures 0 <= Target(i) < 25
  {
    i / 5 + 5 * ((2 * (i % 5) + 3 * (i / 5)) % 5)
  }

  function Rotated(s: seq<Bits>, i: int): Bits
    requires |s| == 25 && 0 <= i < 25
  {
    RotateLeft(s[i], ROTATION[i % 5][i / 5])
  }

  /** The lane that ends at index `j`. */
  function Source(j: int): int
    requires 0 <= j < 25
    ensures 0 <= Source(j) < 25
  {
    Diagonal(j % 5, j / 5) + 5 * (j % 5)
  }

  /** Rho and pi permute the lanes: every index is the target of exactly one. */
  lemma SourceIsInverse(i: int)
    requires 0 <= i < 25
    ensures Source(Target(i)) == i
  {
    var x: Coordinate, y: Coordinate := i % 5, i / 5;
    var j := Target(i);
    assert j % 5 == y && j / 5 == PiTarget(x, y);
    PiReaches(x, y);
  }

  lemma TargetIsInverse(j: int)
    requires 0 <= j < 25
    ensures Target(Source(j)) == j
  {
    var x: Coordinate, y: Coordinate := j % 5, j / 5;
    var d, q := (x + 3 * y) % 5, (x + 3 * y) / 5;
    var i := Source(j);
    assert i % 5 == d && i / 5 == x;
    assert 2 * d + 3 * x == y + 5 * (x + y - 2 * q);
    Residue(y, x + y - 2 * q);
  }

  lemma RhoPiLane(s: State, j: int)
    requires 0 <= j < 25
    ensures Rotated(s, Source(j)) == Pi(Rho(s))[j]
  {
    var x: Coordinate, y: Coordinate := j % 5, j / 5;
    assert x + 5 * y == j;
    var d := Diagonal(x, y);
    var i := Source(j);
    assert i % 5 == d && i / 5 == x;
    RotationIsWalk(d, x);
    RotateIsLane(s[i], Offset(d, x));
    forall z: Position ensures z in Rotated(s, i) <==> Bit(Pi(Rho(s)), x, y, z) {
      RotateBit(s[i], Offset(d, x), z);
      PiBit(Rho(s), x, y, z);
      RhoBit(s, d, x, z);
    }
    LaneIs(Rotated(s, i), Pi(Rho(s)), x, y);
  }

  lemma TargetsDiffer(n: int)
    requires 0 <= n < 25
    ensures forall i :: 0 <= i < n ==> Target(i) != Target(n)
  {
    SourceIsInverse(n);
    forall i | 0 <= i < n ensures Target(i) != Target(n) { SourceIsInverse(i); }
  }

  lemma TargetOf(x: Coordinate, y: Coordinate, n: int)
    requires n == x + 5 * y
    ensures n % 5 == x && n / 5 == y && Target(n) == y + 5 * ((2 * x + 3 * y) % 5)
  {
  }

  /** The loop that rotates every lane into its new place in a second list. */
  method Scatter(state: array<Bits>) returns (rotated: array<Bits>)
    requires state.Length == 25 && IsState(state[..])
    ensures fresh(rotated) && rotated.Length == 25
    ensures rotated[..] == Pi(Rho(state[..]))
  {
    ghost var s: State := state[..];
    rotated := new Bits[25](_ => {});
    for y := 0 to 5
      invariant forall i :: 0 <= i < 5 * y ==> rotated[Target(i)] == Rotated(s, i)
    {
      for x := 0 to 5
        invariant forall i :: 0 <= i < x + 5 * y ==> rotated[Target(i)] == Rotated(s, i)
      {
        ghost var n := x + 5 * y;
        TargetOf(x, y, n);
        TargetsDiffer(n);
        rotated[y + 5 * ((2 * x + 3 * y) % 5)] := RotateLeft(state[x + 5 * y], ROTATION[x][y]);
      }
    }
    AllScattered(s, rotated[..]);
  }

  lemma AllScattered(s: State, rotated: seq<Bits>)
    requires |rotated| == 25 && forall i :: 0 <= i < 25 ==> rotated[Target(i)] == Rotated(s, i)
    ensures rotated == Pi(Rho(s))
  {
    forall j | 0 <= j < 25 ensures rotated[j] == Pi(Rho(s))[j] {
      TargetIsInverse(j);
      assert rotated[Target(Source(j))] == Rotated(s, Source(j));
      RhoPiLane(s, j);
    }
  }

  // ---------------------------------------------------------------------------------
  // Chi and iota
  // ---------------------------------------------------------------------------------

  /** The lane at `i`, with the complement of its neighbour masked by the next one. */
  function Masked(s: seq<Bits>, i: int): Bits
    requires |s| == 25 && 0 <= i < 25
  {
    Xor(s[i], s[(i % 5 + 2) % 5 + 5 * (i / 5)] - s[(i % 5 + 1) % 5 + 5 * (i / 5)])
  }

  lemma ChiLane(s: State, i: int)
    requires 0 <= i < 25
    ensures Masked(s, i) == Chi(s)[i]
  {
    var x: Coordinate, y: Coordinate := i % 5, i / 5;
    assert x + 5 * y == i && (x + 1) % 5 == Next(x) && (x + 2) % 5 == Next(Next(x));
    var b, c := s[Next(x) + 5 * y], s[Next(Next(x)) + 5 * y];
    XorIsLane(s[i], c - b);
    forall z: Position ensures z in Masked(s, i) <==> Bit(Chi(s), x, y, z) {
      XorBit(s[i], c - b, z);
      ChiStateBit(s, x, y, z);
    }
    LaneIs(Masked(s, i), Chi(s), x, y);
  }

  method ChiInto(state: array<Bits>, rotated: array<Bits>)
    requires state.Length == 25 && rotated.Length == 25 && state != rotated && IsState(rotated[..])
    modifies state
    ensures state[..] == Chi(rotated[..])
  {
    ghost var s: State := rotated[..];
    for y := 0 to 5
      invariant forall i :: 0 <= i < 5 * y ==> state[i] == Masked(s, i)
    {
      for x := 0 to 5
        invariant forall i :: 0 <= i < x + 5 * y ==> state[i] == Masked(s, i)
      {
        assert (x + 5 * y) % 5 == x && (x + 5 * y) / 5 == y;
        state[x + 5 * y] := Xor(rotated[x + 5 * y], rotated[(x + 2) % 5 + 5 * y] - rotated[(x + 1) % 5 + 5 * y]);
      }
    }
    forall i | 0 <= i < 25 ensures state[..][i] == Chi(s)[i] {
      ChiLane(s, i);
    }
  }

  lemma IotaLanes(s: State, constant: Bits)
    requires Lane(constant)
    ensures s[0 := Xor(s[0], constant)] == Iota(s, constant)
  {
    var r := s[0 := Xor(s[0], constant)];
    XorIsLane(s[0], constant);
    forall x: Coordinate, y: Coordinate ensures LaneAt(r, Iota(s, constant), x, y) {
      forall z: Position ensures z in r[x + 5 * y] <==> Bit(Iota(s, constant), x, y, z) {
        XorBit(s[0], constant, z);
        IotaBit(s, constant, x, y, z);
      }
      LaneIs(r[x + 5 * y], Iota(s, constant), x, y);
    }
    StateIs(r, Iota(s, constant));
  }

  /** Every lane stays below 2^64, so the final masks change nothing. */
  method MaskLanes(state: array<Bits>)
    requires state.Length == 25 && IsState(state[..])
    modifies state
    ensures state[..] == old(state[..])
  {
    ghost var s := state[..];
    for i := 0 to 25
      invariant forall j :: 0 <= j < 25 ==> state[j] == s[j]
    {
      assert Lane(s[i]);
      assert Low64(s[i]) == s[i];
      state[i] := Low64(state[i]);
    }
  }

  // ---------------------------------------------------------------------------------
  // The permutation
  // ---------------------------------------------------------------------------------

  method RoundInPlace(state: array<Bits>, constant: Bits)
    requires state.Length == 25 && IsState(state[..]) && Lane(constant)
    modifies state
    ensures state[..] == Round(old(state[..]), constant)
  {
    ghost var s := state[..];
    ThetaInPlace(state);
    var rotated := Scatter(state);
    ChiInto(state, rotated);
    ghost var t := state[..];
    state[0] := Xor(state[0], constant);
    assert state[..] == t[0 := Xor(t[0], constant)];
    IotaLanes(t, constant);
    MaskLanes(state);
  }

  lemma ConstantIsLane(round: nat)
    ensures Lane(RoundConstant(round))
  {
  }

  method Permute(state: array<Bits>)
    requires state.Length == 25 && IsState(state[..])
    modifies state
    ensures state[..] == Permutation(old(state[..]))
  {
    for r := 0 to |ROUND_CONSTANTS|
      invariant IsState(state[..]) && state[..] == Rounds(old(state[..]), r)
    {
      RoundConstantsAreRegister(r);
      ConstantIsLane(r);
      RoundInPlace(state, ROUND_CONSTANTS[r]);
    }
  }
}
