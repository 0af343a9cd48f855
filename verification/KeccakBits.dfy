/** The step mappings once more, bit by bit as FIPS 202 writes them: A[x, y, z] is bit z of
    lane (x, y), an exclusive or is a sum modulo 2, an and is a product. Neither rotations
    nor operations on lanes occur in what the lemmas state. */
module KeccakBits {
  import opened Bits
  import opened Lanes
  import opened KeccakSpec
  import opened KeccakTables

  /** A[x, y, z]. */
  function BitAt(s: State, x: nat, y: nat, z: nat): nat
    requires x < 5 && y < 5 && z < 64
  {
    if s[5 * y + x][z] then 1 else 0
  }

  /** C[x, z] of section 3.2.1: the sum of a column, modulo 2. */
  function ColumnSum(s: State, x: nat, z: nat): nat
    requires x < 5 && z < 64
  {
    (BitAt(s, x, 0, z) + BitAt(s, x, 1, z) + BitAt(s, x, 2, z) + BitAt(s, x, 3, z) + BitAt(s, x, 4, z)) % 2
  }

  lemma Index(x: nat, y: nat)
    requires x < 5 && y < 5
    ensures (5 * y + x) % 5 == x && (5 * y + x) / 5 == y
  {
  }

  lemma XorBit(a: Lane, b: Lane, z: nat)
    requires z < 64
    ensures Xor(a, b)[z] == (a[z] != b[z])
  {
  }

  lemma ParityBit(s: State, x: nat, z: nat)
    requires x < 5 && z < 64
    ensures Parity(s)[x][z] <==> ColumnSum(s, x, z) == 1
  {
    XorBit(s[x], s[x + 5], z);
    XorBit(Xor(s[x], s[x + 5]), s[x + 10], z);
    XorBit(Xor(Xor(s[x], s[x + 5]), s[x + 10]), s[x + 15], z);
    XorBit(Xor(Xor(Xor(s[x], s[x + 5]), s[x + 10]), s[x + 15]), s[x + 20], z);
    hide Xor;
  }

  lemma EffectBit(c: Plane, x: nat, z: nat)
    requires x < 5 && z < 64
    ensures Effect(c)[x][z] == (c[(x - 1) % 5][z] != c[(x + 1) % 5][(z - 1) % 64])
  {
    XorBit(c[(x - 1) % 5], Rot(c[(x + 1) % 5], 1), z);
    hide Xor;
  }

  lemma AddedBit(s: State, d: Plane, x: nat, y: nat, z: nat)
    requires x < 5 && y < 5 && z < 64
    ensures BitAt(AddPlane(s, d), x, y, z) == (BitAt(s, x, y, z) + if d[x][z] then 1 else 0) % 2
  {
    Index(x, y);
    var i := 5 * y + x;
    assert AddPlane(s, d)[i] == Xor(s[i], d[x]);
    XorBit(s[i], d[x], z);
    hide Xor, AddPlane;
  }

  lemma SumOfTwo(s: State, x: nat, z: nat, u: nat, v: nat)
    requires x < 5 && z < 64 && u < 5 && v < 64
    ensures (ColumnSum(s, x, z) + ColumnSum(s, u, v)) % 2 == if Parity(s)[x][z] != Parity(s)[u][v] then 1 else 0
  {
    ParityBit(s, x, z);
    ParityBit(s, u, v);
    hide BitAt, Parity;
  }

  /** Section 3.2.1, step 3: each bit is added to the columns to its left and, one bit
      below, to its right. */
  lemma ThetaBits(s: State, x: nat, y: nat, z: nat)
    requires x < 5 && y < 5 && z < 64
    ensures BitAt(Theta(s), x, y, z) ==
              (BitAt(s, x, y, z) + ColumnSum(s, (x - 1) % 5, z) + ColumnSum(s, (x + 1) % 5, (z - 1) % 64)) % 2
  {
    hide BitAt, ColumnSum, AddPlane, Effect, Parity;
    AddedBit(s, Effect(Parity(s)), x, y, z);
    EffectBit(Parity(s), x, z);
    SumOfTwo(s, (x - 1) % 5, z, (x + 1) % 5, (z - 1) % 64);
  }

  lemma RotBit(a: Lane, k: int, z: nat)
    requires z < 64
    ensures Rot(a, k)[z] == a[(z - k) % 64]
  {
  }

  lemma RotatedLane(s: State, i: nat, k: int, z: nat)
    requires i < 25 && z < 64 && OFFSETS[i] == k
    ensures Rho(s)[i][z] == s[i][(z - k) % 64]
  {
    RotBit(s[i], k, z);
    hide Rot;
  }

  /** Section 3.2.2: the lane that the walk meets at time t gets bit z from bit
      z - (t + 1)(t + 2)/2, and lane (0, 0) stays. */
  lemma RhoBits(s: State, t: nat, z: nat)
    requires t < 24 && z < 64
    ensures 0 <= Walk(t).0 < 5 && 0 <= Walk(t).1 < 5
    ensures BitAt(Rho(s), Walk(t).0, Walk(t).1, z) == BitAt(s, Walk(t).0, Walk(t).1, (z - (t + 1) * (t + 2) / 2) % 64)
    ensures BitAt(Rho(s), 0, 0, z) == BitAt(s, 0, 0, z)
  {
    hide Rho, Held, Walk;
    ChaseIsTheWalk(t);
    RotatedLane(s, Held(t), (t + 1) * (t + 2) / 2, z);
    RotatedLane(s, 0, 0, z);
  }

  /** The walk meets every other lane. */
  lemma WalkCovers(x: nat, y: nat) returns (t: nat)
    requires x < 5 && y < 5 && (x, y) != (0, 0)
    ensures t < 24 && Walk(t) == (x, y)
  {
    Index(x, y);
    var j := 5 * y + x;
    ChaseCovers(j);
    if WRITTEN_AT[j] == 23 {
      t := 0;
      assert j == 1;
    } else {
      t := WRITTEN_AT[j] + 1;
      assert Held(t) == j;
    }
    ChaseIsTheWalk(t);
  }

  /** Section 3.2.3. */
  lemma PiBits(s: State, x: nat, y: nat, z: nat)
    requires x < 5 && y < 5 && z < 64
    ensures BitAt(Pi(s), x, y, z) == BitAt(s, (x + 3 * y) % 5, x, z)
  {
    Index(x, y);
  }

  lemma AndNotBit(a: Lane, b: Lane, z: nat)
    requires z < 64
    ensures AndNot(a, b)[z] == (!a[z] && b[z])
  {
  }

  lemma RowIndex(x: nat, y: nat, k: nat)
    requires x < 5 && y < 5
    ensures Row(5 * y + x, k) == 5 * y + (x + k) % 5
  {
    Index(x, y);
    assert (5 * y + x + k) % 5 == (x + k) % 5;
  }

  lemma ChiLane(s: State, x: nat, y: nat)
    requires x < 5 && y < 5
    ensures Chi(s)[5 * y + x] == Xor(s[5 * y + x], AndNot(s[5 * y + (x + 1) % 5], s[5 * y + (x + 2) % 5]))
  {
    RowIndex(x, y, 1);
    RowIndex(x, y, 2);
    hide Xor, AndNot, Row;
  }

  lemma ChiBit(s: State, x: nat, y: nat, z: nat)
    requires x < 5 && y < 5 && z < 64
    ensures Chi(s)[5 * y + x][z] == (s[5 * y + x][z] != (!s[5 * y + (x + 1) % 5][z] && s[5 * y + (x + 2) % 5][z]))
  {
    hide *;
    ChiLane(s, x, y);
    AndNotBit(s[5 * y + (x + 1) % 5], s[5 * y + (x + 2) % 5], z);
    XorBit(s[5 * y + x], AndNot(s[5 * y + (x + 1) % 5], s[5 * y + (x + 2) % 5]), z);
  }

  lemma Modulo2(a: bool, b: bool, c: bool)
    ensures (if a != (!b && c) then 1 else 0) == (Bit(a) + (Bit(b) + 1) % 2 * Bit(c)) % 2
  {
  }

  lemma BitIs(s: State, x: nat, y: nat, z: nat)
    requires x < 5 && y < 5 && z < 64
    ensures BitAt(s, x, y, z) == Bit(s[5 * y + x][z]) == if s[5 * y + x][z] then 1 else 0
  {
  }

  /** Section 3.2.4. */
  lemma ChiBits(s: State, x: nat, y: nat, z: nat)
    requires x < 5 && y < 5 && z < 64
    ensures BitAt(Chi(s), x, y, z)
         == (BitAt(s, x, y, z) + (BitAt(s, (x + 1) % 5, y, z) + 1) % 2 * BitAt(s, (x + 2) % 5, y, z)) % 2
  {
    hide *;
    ChiBit(s, x, y, z);
    BitIs(Chi(s), x, y, z);
    BitIs(s, x, y, z);
    BitIs(s, (x + 1) % 5, y, z);
    BitIs(s, (x + 2) % 5, y, z);
    Modulo2(s[5 * y + x][z], s[5 * y + (x + 1) % 5][z], s[5 * y + (x + 2) % 5][z]);
  }

  lemma RoundConstantBits(ir: nat, z: nat)
    requires z < 64
    ensures (forall j :: 0 <= j <= 6 ==> z != Exp2(j) - 1) ==> !RoundConstant(ir)[z]
    ensures forall j :: 0 <= j <= 6 && z == Exp2(j) - 1 ==> RoundConstant(ir)[z] == Rc(j + 7 * ir)
  {
    SevenPowers();
    hide Exp2, Rc;
  }

  lemma FirstLaneBit(s: State, c: Lane, z: nat)
    requires z < 64
    ensures BitAt(s[0 := Xor(s[0], c)], 0, 0, z) == (BitAt(s, 0, 0, z) + if c[z] then 1 else 0) % 2
  {
    XorBit(s[0], c, z);
    hide Xor;
  }

  lemma OtherLaneBit(s: State, ir: nat, x: nat, y: nat, z: nat)
    requires x < 5 && y < 5 && z < 64 && (x, y) != (0, 0)
    ensures BitAt(Iota(s, ir), x, y, z) == BitAt(s, x, y, z)
  {
    assert 5 * y + x > 0;
    hide Xor, RoundConstant;
  }

  /** Section 3.2.5: only bits 2^j - 1 of lane (0, 0) change, by rc(j + 7 ir). */
  lemma IotaBits(s: State, ir: nat, x: nat, y: nat, z: nat)
    requires x < 5 && y < 5 && z < 64
    ensures (x, y) != (0, 0) ==> BitAt(Iota(s, ir), x, y, z) == BitAt(s, x, y, z)
    ensures (forall j :: 0 <= j <= 6 ==> z != Exp2(j) - 1) ==> BitAt(Iota(s, ir), 0, 0, z) == BitAt(s, 0, 0, z)
    ensures forall j :: 0 <= j <= 6 && z == Exp2(j) - 1 ==>
      BitAt(Iota(s, ir), 0, 0, z) == (BitAt(s, 0, 0, z) + if Rc(j + 7 * ir) then 1 else 0) % 2
  {
    if (x, y) != (0, 0) {
      OtherLaneBit(s, ir, x, y, z);
    }
    RoundConstantBits(ir, z);
    FirstLaneBit(s, RoundConstant(ir), z);
    BitIsBelowTwo(s, z);
    hide Xor, Exp2, Rc, RoundConstant, BitAt;
  }

  lemma BitIsBelowTwo(s: State, z: nat)
    requires z < 64
    ensures BitAt(s, 0, 0, z) % 2 == BitAt(s, 0, 0, z)
  {
  }

  lemma SevenPowers()
    ensures Exp2(0) == 1 && Exp2(1) == 2 && Exp2(2) == 4 && Exp2(3) == 8
    ensures Exp2(4) == 16 && Exp2(5) == 32 && Exp2(6) == 64
  {
  }
}
