/** The Keccak-f[1600] permutation as FIPS 202 defines it in section 3.2, bit by bit, and its
    injectivity.

    A lane, like any non-negative integer here, is the set of the positions of its one bits. */
module KeccakSpec {

  type Bits = set<int>

  /** A coordinate of a lane, and a position in a lane. */
  type Coordinate = x: int | 0 <= x < 5
  type Position = z: int | 0 <= z < 64

  predicate Lane(a: Bits) {
    forall z :: z in a ==> 0 <= z < 64
  }

  /** The lane of `x` and `y` is at index `x + 5 * y`. */
  predicate IsState(s: seq<Bits>) {
    |s| == 25 && forall i :: 0 <= i < 25 ==> Lane(s[i])
  }

  type State = s: seq<Bits> | IsState(s) witness seq(25, i => {})

  predicate Bit(s: State, x: Coordinate, y: Coordinate, z: Position) {
    z in s[x + 5 * y]
  }

  predicate Odd(a: bool, b: bool) {
    a != b
  }

  /** The neighbours of a coordinate, and a position rotated back, modulo the extents. */
  function Next(x: Coordinate): Coordinate {
    if x == 4 then 0 else x + 1
  }

  function Previous(x: Coordinate): Coordinate {
    if x == 0 then 4 else x - 1
  }

  function Back(z: Position, k: Position): Position {
    if k <= z then z - k else z - k + 64
  }

  type BitRule = (Coordinate, Coordinate, Position) -> bool

  /** The state whose bits are given. */
  function StateOf(rule: BitRule): State {
    seq(25, i requires 0 <= i < 25 => set z: Position | 0 <= z < 64 && rule(i % 5, i / 5, z) :: z as int)
  }

  // ---------------------------------------------------------------------------------
  // The step mappings
  // ---------------------------------------------------------------------------------

  /** Section 3.2.1: the parity of a column, and the effect of two neighbouring columns. */
  predicate Parity(s: State, x: Coordinate, z: Position) {
    Odd(Odd(Odd(Odd(Bit(s, x, 0, z), Bit(s, x, 1, z)), Bit(s, x, 2, z)), Bit(s, x, 3, z)), Bit(s, x, 4, z))
  }

  predicate Effect(s: State, x: Coordinate, z: Position) {
    Odd(Parity(s, Previous(x), z), Parity(s, Next(x), Back(z, 1)))
  }

  function ThetaRule(s: State): BitRule {
    (x: Coordinate, y: Coordinate, z: Position) => Odd(Bit(s, x, y, z), Effect(s, x, z))
  }

  function Theta(s: State): State {
    StateOf(ThetaRule(s))
  }

  /** Section 3.2.2: where the walk over the lanes is at step `t`. */
  function Walk(t: nat): (Coordinate, Coordinate)
    decreases t
  {
    if t == 0 then (1, 0) else var (x, y) := Walk(t - 1); (y, (2 * x + 3 * y) % 5)
  }

  /** The offset of a lane: zero for the first one, triangular numbers along the walk. */
  function OffsetFrom(t: nat, x: Coordinate, y: Coordinate): Position
    decreases 24 - t
  {
    if 24 <= t then 0
    else if Walk(t) == (x, y) then ((t + 1) * (t + 2) / 2) % 64
    else OffsetFrom(t + 1, x, y)
  }

  function Offset(x: Coordinate, y: Coordinate): Position {
    OffsetFrom(0, x, y)
  }

  function RhoRule(s: State): BitRule {
    (x: Coordinate, y: Coordinate, z: Position) => Bit(s, x, y, Back(z, Offset(x, y)))
  }

  function Rho(s: State): State {
    StateOf(RhoRule(s))
  }

  /** Section 3.2.3. */
  function Diagonal(x: Coordinate, y: Coordinate): Coordinate {
    (x + 3 * y) % 5
  }

  function PiRule(s: State): BitRule {
    (x: Coordinate, y: Coordinate, z: Position) => Bit(s, Diagonal(x, y), x, z)
  }

  function Pi(s: State): State {
    StateOf(PiRule(s))
  }

  /** Section 3.2.4. */
  predicate ChiBit(a: bool, b: bool, c: bool) {
    Odd(a, !b && c)
  }

  function ChiRule(s: State): BitRule {
    (x: Coordinate, y: Coordinate, z: Position) => ChiBit(Bit(s, x, y, z), Bit(s, Next(x), y, z), Bit(s, Next(Next(x)), y, z))
  }

  function Chi(s: State): State {
    StateOf(ChiRule(s))
  }

  /** Section 3.2.5: the linear feedback shift register of Algorithm 5, first bit lowest. */
  function Clocked(r: bv8): bv8 {
    (r << 1) ^ (if r & 0x80 == 0x80 then 0x71 else 0)
  }

  function Register(t: nat): bv8
    decreases t
  {
    if t == 0 then 1 else Clocked(Register(t - 1))
  }

  predicate RegisterBit(t: nat) {
    Register(t) & 1 == 1
  }

  function RoundConstant(round: nat): Bits {
    (if RegisterBit(7 * round) then {0} else {})
    + (if RegisterBit(7 * round + 1) then {1} else {})
    + (if RegisterBit(7 * round + 2) then {3} else {})
    + (if RegisterBit(7 * round + 3) then {7} else {})
    + (if RegisterBit(7 * round + 4) then {15} else {})
    + (if RegisterBit(7 * round + 5) then {31} else {})
    + (if RegisterBit(7 * round + 6) then {63} else {})
  }

  function IotaRule(s: State, constant: Bits): BitRule {
    (x: Coordinate, y: Coordinate, z: Position) => Odd(Bit(s, x, y, z), x == 0 && y == 0 && z in constant)
  }

  function Iota(s: State, constant: Bits): State {
    StateOf(IotaRule(s, constant))
  }

  function Round(s: State, constant: Bits): State {
    Iota(Chi(Pi(Rho(Theta(s)))), constant)
  }

  /** The first `n` rounds. */
  function Rounds(s: State, n: nat): State
    decreases n
  {
    if n == 0 then s else Round(Rounds(s, n - 1), RoundConstant(n - 1))
  }

  function Permutation(s: State): State {
    Rounds(s, 24)
  }

  // ---------------------------------------------------------------------------------
  // Bits
  // ---------------------------------------------------------------------------------

  lemma BitOfState(rule: BitRule, x: Coordinate, y: Coordinate, z: Position)
    ensures Bit(StateOf(rule), x, y, z) == rule(x, y, z)
  {
  }

  /** Two states with equal bits are equal. */
  lemma SameBits(s: State, t: State)
    requires forall x: Coordinate, y: Coordinate, z: Position :: Bit(s, x, y, z) == Bit(t, x, y, z)
    ensures s == t
  {
    forall i | 0 <= i < 25 ensures s[i] == t[i] {
      var x: Coordinate, y: Coordinate := i % 5, i / 5;
      assert x + 5 * y == i;
      forall z ensures z in s[i] <==> z in t[i] {
        if 0 <= z < 64 {
          assert Bit(s, x, y, z) == Bit(t, x, y, z);
        }
      }
    }
  }

  // ---------------------------------------------------------------------------------
  // Every step mapping is injective
  // ---------------------------------------------------------------------------------

  type Plane = (int, int) -> bool

  ghost predicate Periodic(p: Plane) {
    forall x, z :: RepeatsAt(p, x, z)
  }

  predicate RepeatsAt(p: Plane, x: int, z: int) {
    p(x, z) == p(x + 5, z) && p(x, z) == p(x, z + 64)
  }

  /** Every bit is the sum of the bit `i` columns back and the bit `j` columns on, rotated by `k`. */
  ghost predicate Sums(p: Plane, i: int, j: int, k: int) {
    forall x, z :: SumsAt(p, i, j, k, x, z)
  }

  predicate SumsAt(p: Plane, i: int, j: int, k: int, x: int, z: int) {
    p(x, z) == Odd(p(x - i, z), p(x + j, z - k))
  }

  /** Applying the relation to itself doubles it: the mixed terms cancel. */
  lemma SumsDouble(p: Plane, i: int, j: int, k: int)
    requires Sums(p, i, j, k)
    ensures Sums(p, 2 * i, 2 * j, 2 * k)
  {
    forall x, z ensures SumsAt(p, 2 * i, 2 * j, 2 * k, x, z) {
      assert SumsAt(p, i, j, k, x, z);
      assert SumsAt(p, i, j, k, x - i, z);
      assert SumsAt(p, i, j, k, x + j, z - k);
    }
  }

  lemma {:induction false} Shifted(p: Plane, x: int, z: int, n: nat)
    requires Periodic(p)
    ensures p(x + 5 * n, z) == p(x, z) && p(x, z + 64 * n) == p(x, z)
    decreases n
  {
    if n != 0 {
      Shifted(p, x, z, n - 1);
      assert RepeatsAt(p, x + 5 * (n - 1), z);
      assert RepeatsAt(p, x, z + 64 * (n - 1));
    }
  }

  /** A plane of parities that theta's effect leaves unchanged is zero. Six doublings turn the
      rotation by one into a rotation by 64, which is none; what remains is a Fibonacci recurrence
      of period three on a cycle of length five. */
  lemma OnlyZeroIsItsOwnEffect(p: Plane, x: int, z: int)
    requires Periodic(p) && Sums(p, 1, 1, 1)
    ensures !p(x, z)
  {
    SumsDouble(p, 1, 1, 1);
    SumsDouble(p, 2, 2, 2);
    SumsDouble(p, 4, 4, 4);
    SumsDouble(p, 8, 8, 8);
    SumsDouble(p, 16, 16, 16);
    SumsDouble(p, 32, 32, 32);
    NextIsSum(p, x, z);
    NextIsSum(p, x + 1, z);
    NextIsSum(p, x + 2, z);
    NextIsSum(p, x + 3, z);
    NextIsSum(p, x + 4, z);
    Shifted(p, x, z, 1);
    Shifted(p, x - 1, z, 1);
  }

  lemma NextIsSum(p: Plane, x: int, z: int)
    requires Periodic(p) && Sums(p, 64, 64, 64)
    ensures p(x, z) == Odd(p(x + 1, z), p(x - 1, z))
  {
    assert SumsAt(p, 64, 64, 64, x, z);
    Shifted(p, x - 64, z, 13);
    Shifted(p, x - 1, z - 64, 13);
    Shifted(p, x - 1, z - 64, 1);
  }

  /** A sheet of one bit per column and position, continued over all integers. */
  type Sheet = (Coordinate, Position) -> bool

  function Continued(q: Sheet): Plane {
    (x: int, z: int) => q(x % 5, z % 64)
  }

  predicate IsItsOwnEffectAt(q: Sheet, x: Coordinate, z: Position) {
    q(x, z) == Odd(q(Previous(x), z), q(Next(x), Back(z, 1)))
  }

  lemma Modulo(x: int, z: int)
    ensures (x - 1) % 5 == Previous(x % 5) && (x + 1) % 5 == Next(x % 5) && (z - 1) % 64 == Back(z % 64, 1)
    ensures (x + 5) % 5 == x % 5 && (z + 64) % 64 == z % 64
  {
  }

  /** So a sheet that is its own effect is zero. */
  lemma OwnEffectIsZero(q: Sheet, x: Coordinate, z: Position)
    requires forall a: Coordinate, c: Position :: IsItsOwnEffectAt(q, a, c)
    ensures !q(x, z)
  {
    var p := Continued(q);
    forall a, c ensures SumsAt(p, 1, 1, 1, a, c) {
      Modulo(a, c);
      assert IsItsOwnEffectAt(q, a % 5, c % 64);
    }
    forall a, c ensures RepeatsAt(p, a, c) { Modulo(a, c); }
    OnlyZeroIsItsOwnEffect(p, x, z);
    assert x % 5 == x && z % 64 == z;
  }

  lemma ThetaBit(s: State, x: Coordinate, y: Coordinate, z: Position)
    ensures Bit(Theta(s), x, y, z) == Odd(Bit(s, x, y, z), Effect(s, x, z))
  {
    BitOfState(ThetaRule(s), x, y, z);
  }

  /** The parity of a column after theta: five equal effects sum to one. */
  lemma ThetaParity(s: State, x: Coordinate, z: Position)
    ensures Parity(Theta(s), x, z) == Odd(Parity(s, x, z), Effect(s, x, z))
  {
    ThetaBit(s, x, 0, z);
    ThetaBit(s, x, 1, z);
    ThetaBit(s, x, 2, z);
    ThetaBit(s, x, 3, z);
    ThetaBit(s, x, 4, z);
  }

  predicate Differ(s: State, t: State, x: Coordinate, z: Position) {
    Odd(Parity(s, x, z), Parity(t, x, z))
  }

  /** The difference of the column parities, of two states with one image, is its own effect. */
  lemma DifferenceIsItsOwnEffect(s: State, t: State, x: Coordinate, z: Position)
    requires Theta(s) == Theta(t)
    ensures Differ(s, t, x, z) == Odd(Differ(s, t, Previous(x), z), Differ(s, t, Next(x), Back(z, 1)))
  {
    ThetaParity(s, x, z);
    ThetaParity(t, x, z);
  }

  lemma NoDifference(s: State, t: State, x: Coordinate, z: Position)
    requires Theta(s) == Theta(t)
    ensures Parity(s, x, z) == Parity(t, x, z)
  {
    var q: Sheet := (a: Coordinate, c: Position) => Differ(s, t, a, c);
    forall a: Coordinate, c: Position ensures IsItsOwnEffectAt(q, a, c) { DifferenceIsItsOwnEffect(s, t, a, c); }
    OwnEffectIsZero(q, x, z);
  }

  lemma ThetaIsInjective(s: State, t: State)
    requires Theta(s) == Theta(t)
    ensures s == t
  {
    forall x: Coordinate, y: Coordinate, z: Position ensures Bit(s, x, y, z) == Bit(t, x, y, z) {
      NoDifference(s, t, Previous(x), z);
      NoDifference(s, t, Next(x), Back(z, 1));
      ThetaBit(s, x, y, z);
      ThetaBit(t, x, y, z);
    }
    SameBits(s, t);
  }

  lemma RhoBit(s: State, x: Coordinate, y: Coordinate, z: Position)
    ensures Bit(Rho(s), x, y, z) == Bit(s, x, y, Back(z, Offset(x, y)))
  {
    BitOfState(RhoRule(s), x, y, z);
  }

  /** Every position is some other one rotated back. */
  lemma Forth(z: Position, k: Position) returns (f: Position)
    ensures Back(f, k) == z
  {
    f := if z + k < 64 then z + k else z + k - 64;
  }

  lemma RhoIsInjective(s: State, t: State)
    requires Rho(s) == Rho(t)
    ensures s == t
  {
    forall x: Coordinate, y: Coordinate, z: Position ensures Bit(s, x, y, z) == Bit(t, x, y, z) {
      var f := Forth(z, Offset(x, y));
      RhoBit(s, x, y, f);
      RhoBit(t, x, y, f);
    }
    SameBits(s, t);
  }

  lemma PiBit(s: State, x: Coordinate, y: Coordinate, z: Position)
    ensures Bit(Pi(s), x, y, z) == Bit(s, Diagonal(x, y), x, z)
  {
    BitOfState(PiRule(s), x, y, z);
  }

  /** Pi moves the lane of `x`, `y` to `y`, `2x + 3y`. */
  function PiTarget(x: Coordinate, y: Coordinate): Coordinate {
    (2 * x + 3 * y) % 5
  }

  lemma PiReaches(x: Coordinate, y: Coordinate)
    ensures Diagonal(y, PiTarget(x, y)) == x
  {
    var t, q := (2 * x + 3 * y) % 5, (2 * x + 3 * y) / 5;
    assert y + 3 * t == x + 5 * (x + 2 * y - 3 * q);
    Residue(x, x + 2 * y - 3 * q);
  }

  lemma Residue(x: Coordinate, k: int)
    ensures (x + 5 * k) % 5 == x
  {
  }

  lemma PiIsInjective(s: State, t: State)
    requires Pi(s) == Pi(t)
    ensures s == t
  {
    forall x: Coordinate, y: Coordinate, z: Position ensures Bit(s, x, y, z) == Bit(t, x, y, z) {
      PiReaches(x, y);
      PiBit(s, y, PiTarget(x, y), z);
      PiBit(t, y, PiTarget(x, y), z);
    }
    SameBits(s, t);
  }

  lemma ChiStateBit(s: State, x: Coordinate, y: Coordinate, z: Position)
    ensures Bit(Chi(s), x, y, z) == ChiBit(Bit(s, x, y, z), Bit(s, Next(x), y, z), Bit(s, Next(Next(x)), y, z))
  {
    BitOfState(ChiRule(s), x, y, z);
  }

  /** The five bits of a row are recovered from chi's. */
  lemma RowIsRecovered(a: bool, b: bool, c: bool, d: bool, e: bool)
    ensures var r0, r1, r2, r3, r4 := ChiBit(a, b, c), ChiBit(b, c, d), ChiBit(c, d, e), ChiBit(d, e, a), ChiBit(e, a, b);
            ChiBit(r0, r1, ChiBit(r2, r3, r4)) == a
  {
  }

  lemma ChiInverse(s: State, x: Coordinate, y: Coordinate, z: Position)
    ensures var r, x1 := Chi(s), Next(x);
            var x2 := Next(x1);
            var x3 := Next(x2);
            Bit(s, x, y, z) == ChiBit(Bit(r, x, y, z), Bit(r, x1, y, z),
                                      ChiBit(Bit(r, x2, y, z), Bit(r, x3, y, z), Bit(r, Next(x3), y, z)))
  {
    var x1 := Next(x);
    var x2 := Next(x1);
    var x3 := Next(x2);
    var x4 := Next(x3);
    assert Next(x4) == x;
    ChiStateBit(s, x, y, z);
    ChiStateBit(s, x1, y, z);
    ChiStateBit(s, x2, y, z);
    ChiStateBit(s, x3, y, z);
    ChiStateBit(s, x4, y, z);
    RowIsRecovered(Bit(s, x, y, z), Bit(s, x1, y, z), Bit(s, x2, y, z), Bit(s, x3, y, z), Bit(s, x4, y, z));
  }

  lemma ChiIsInjective(s: State, t: State)
    requires Chi(s) == Chi(t)
    ensures s == t
  {
    forall x: Coordinate, y: Coordinate, z: Position ensures Bit(s, x, y, z) == Bit(t, x, y, z) {
      ChiInverse(s, x, y, z);
      ChiInverse(t, x, y, z);
    }
    SameBits(s, t);
  }

  lemma IotaBit(s: State, constant: Bits, x: Coordinate, y: Coordinate, z: Position)
    ensures Bit(Iota(s, constant), x, y, z) == Odd(Bit(s, x, y, z), x == 0 && y == 0 && z in constant)
  {
    BitOfState(IotaRule(s, constant), x, y, z);
  }

  lemma IotaIsInjective(s: State, t: State, constant: Bits)
    requires Iota(s, constant) == Iota(t, constant)
    ensures s == t
  {
    forall x: Coordinate, y: Coordinate, z: Position ensures Bit(s, x, y, z) == Bit(t, x, y, z) {
      IotaBit(s, constant, x, y, z);
      IotaBit(t, constant, x, y, z);
    }
    SameBits(s, t);
  }

  lemma RoundIsInjective(s: State, t: State, constant: Bits)
    requires Round(s, constant) == Round(t, constant)
    ensures s == t
  {
    IotaIsInjective(Chi(Pi(Rho(Theta(s)))), Chi(Pi(Rho(Theta(t)))), constant);
    ChiIsInjective(Pi(Rho(Theta(s))), Pi(Rho(Theta(t))));
    PiIsInjective(Rho(Theta(s)), Rho(Theta(t)));
    RhoIsInjective(Theta(s), Theta(t));
    ThetaIsInjective(s, t);
  }

  lemma {:induction false} RoundsAreInjective(s: State, t: State, n: nat)
    requires Rounds(s, n) == Rounds(t, n)
    ensures s == t
    decreases n
  {
    if n != 0 {
      RoundIsInjective(Rounds(s, n - 1), Rounds(t, n - 1), RoundConstant(n - 1));
      RoundsAreInjective(s, t, n - 1);
    }
  }

  /** Keccak-f is a permutation: no two states have the same image. */
  lemma PermutationIsInjective(s: State, t: State)
    requires Permutation(s) == Permutation(t)
    ensures s == t
  {
    RoundsAreInjective(s, t, 24);
  }
}
