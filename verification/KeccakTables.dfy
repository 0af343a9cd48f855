/** The tables of internal/config/keccak.go, and that they are the standard's. */
module KeccakTables {
  import opened Bits
  import opened Lanes
  import opened KeccakInverse
  import opened KeccakSpec

  const KECCAK_RC: seq<nat> := [
    0x0000000000000001, 0x0000000000008082, 0x800000000000808A, 0x8000000080008000,
    0x000000000000808B, 0x0000000080000001, 0x8000000080008081, 0x8000000000008009,
    0x000000000000008A, 0x0000000000000088, 0x0000000080008009, 0x000000008000000A,
    0x000000008000808B, 0x800000000000008B, 0x8000000000008089, 0x8000000000008003,
    0x8000000000008002, 0x8000000000000080, 0x000000000000800A, 0x800000008000000A,
    0x8000000080008081, 0x8000000000008080, 0x0000000080000001, 0x8000000080008008]

  const KECCAK_ROTC: seq<nat> :=
    [1, 3, 6, 10, 15, 21, 28, 36, 45, 55, 2, 14, 27, 41, 56, 8, 25, 43, 62, 18, 39, 61, 20, 44]

  const KECCAK_PILN: seq<nat> :=
    [10, 7, 11, 17, 18, 3, 5, 16, 8, 21, 24, 4, 15, 23, 19, 13, 12, 2, 20, 14, 22, 9, 6, 1]

  // ---- rho and pi ----

  /** Algorithm 2, step 3: the lane visited at time t, as (x, y). */
  function Walk(t: nat): (int, int) {
    if t == 0 then (1, 0)
    else
      var (x, y) := Walk(t - 1);
      (y, (2 * x + 3 * y) % 5)
  }

  /** The lane whose value the chase holds before step t. */
  function Held(t: nat): nat
    requires t <= 24
  {
    if t == 0 then 1 else KECCAK_PILN[t - 1]
  }

  /** When the chase writes each lane; lane 0 never. */
  const WRITTEN_AT: seq<nat> :=
    [24, 23, 17, 5, 11, 6, 22, 1, 8, 21, 0, 2, 16, 15, 19, 12, 7, 3, 4, 14, 18, 9, 20, 13, 10]

  /** The chase follows the walk of Algorithm 2, and Table 2 is its offsets. */
  lemma WalkStep(t: nat)
    requires t < 24
    ensures var (x, y) := (Held(t) % 5, Held(t) / 5); (y, (2 * x + 3 * y) % 5) == (Held(t + 1) % 5, Held(t + 1) / 5)
  {
    if t == 0 { } else if t == 1 { } else if t == 2 { } else if t == 3 { } else if t == 4 { } else
    if t == 5 { } else if t == 6 { } else if t == 7 { } else if t == 8 { } else if t == 9 { } else
    if t == 10 { } else if t == 11 { } else if t == 12 { } else if t == 13 { } else if t == 14 { } else
    if t == 15 { } else if t == 16 { } else if t == 17 { } else if t == 18 { } else if t == 19 { } else
    if t == 20 { } else if t == 21 { } else if t == 22 { }
  }

  lemma OffsetOfStep(t: nat)
    requires t < 24
    ensures Held(t) < 25 && OFFSETS[Held(t)] == (t + 1) * (t + 2) / 2
  {
    if t == 0 { } else if t == 1 { } else if t == 2 { } else if t == 3 { } else if t == 4 { } else
    if t == 5 { } else if t == 6 { } else if t == 7 { } else if t == 8 { } else if t == 9 { } else
    if t == 10 { } else if t == 11 { } else if t == 12 { } else if t == 13 { } else if t == 14 { } else
    if t == 15 { } else if t == 16 { } else if t == 17 { } else if t == 18 { } else if t == 19 { } else
    if t == 20 { } else if t == 21 { } else if t == 22 { }
  }

  /** The chase follows the walk of Algorithm 2, and Table 2 is its offsets. */
  lemma {:induction false} ChaseIsTheWalk(t: nat)
    requires t < 24
    ensures Walk(t) == (Held(t) % 5, Held(t) / 5)
    ensures Held(t) < 25 && OFFSETS[Held(t)] == (t + 1) * (t + 2) / 2
  {
    hide Held;
    OffsetOfStep(t);
    if t == 0 {
      assert Held(0) == 1 by { HeldFirst(); }
    } else {
      ChaseIsTheWalk(t - 1);
      WalkStep(t - 1);
    }
  }

  lemma HeldFirst()
    ensures Held(0) == 1
  {
  }

  lemma ChaseSource(t: nat)
    requires t < 24
    ensures Held(t) < 25 && KECCAK_PILN[t] < 25 && PiSource(KECCAK_PILN[t]) == Held(t)
  {
    hide PiSource;
    WalkStep(t);
    OffsetOfStep(t);
    PiIndices(Held(t));
  }

  lemma ChaseOffset(t: nat)
    requires t < 24
    ensures Held(t) < 25 && (OFFSETS[Held(t)] - KECCAK_ROTC[t]) % 64 == 0
  {
    if t == 0 { } else if t == 1 { } else if t == 2 { } else if t == 3 { } else if t == 4 { } else
    if t == 5 { } else if t == 6 { } else if t == 7 { } else if t == 8 { } else if t == 9 { } else
    if t == 10 { } else if t == 11 { } else if t == 12 { } else if t == 13 { } else if t == 14 { } else
    if t == 15 { } else if t == 16 { } else if t == 17 { } else if t == 18 { } else if t == 19 { } else
    if t == 20 { } else if t == 21 { } else if t == 22 { }
  }

  lemma ChaseOnce(t: nat)
    requires t < 24
    ensures 0 < KECCAK_PILN[t] < 25 && WRITTEN_AT[KECCAK_PILN[t]] == t
  {
    if t == 0 { } else if t == 1 { } else if t == 2 { } else if t == 3 { } else if t == 4 { } else
    if t == 5 { } else if t == 6 { } else if t == 7 { } else if t == 8 { } else if t == 9 { } else
    if t == 10 { } else if t == 11 { } else if t == 12 { } else if t == 13 { } else if t == 14 { } else
    if t == 15 { } else if t == 16 { } else if t == 17 { } else if t == 18 { } else if t == 19 { } else
    if t == 20 { } else if t == 21 { } else if t == 22 { }
  }

  lemma ChaseCovers(j: nat)
    requires 0 < j < 25
    ensures WRITTEN_AT[j] < 24 && KECCAK_PILN[WRITTEN_AT[j]] == j
  {
  }

  // ---- iota ----

  /** The register of Algorithm 5 before each round's seven steps. */
  function RoundRegister(ir: nat): Register {
    match ir
    case 0 => Register(true, false, false, false, false, false, false, false)
    case 1 => Register(false, false, false, false, false, false, false, true)
    case 2 => Register(false, false, false, true, true, false, true, true)
    case 3 => Register(false, true, false, true, true, false, false, false)
    case 4 => Register(true, true, true, true, true, false, true, true)
    case 5 => Register(true, false, false, true, false, false, false, false)
    case 6 => Register(true, false, true, false, true, true, false, false)
    case 7 => Register(true, true, true, true, false, false, true, false)
    case 8 => Register(false, true, false, true, false, false, true, true)
    case 9 => Register(false, false, false, false, true, true, true, false)
    case 10 => Register(true, false, false, false, false, false, true, false)
    case 11 => Register(false, false, true, true, false, true, true, true)
    case 12 => Register(true, false, true, false, true, false, true, true)
    case 13 => Register(true, false, true, true, false, false, true, true)
    case 14 => Register(true, true, false, false, false, true, true, false)
    case 15 => Register(true, true, false, true, false, true, false, true)
    case 16 => Register(false, true, false, true, false, true, false, true)
    case 17 => Register(false, true, false, true, false, true, false, false)
    case 18 => Register(false, true, false, false, true, true, true, true)
    case 19 => Register(false, false, false, true, false, true, true, true)
    case 20 => Register(true, true, true, false, true, true, false, false)
    case 21 => Register(false, true, true, true, true, true, false, false)
    case 22 => Register(true, true, false, true, false, false, false, false)
    case _ => Register(false, false, true, false, false, false, true, false)
  }

  function Lfsr7(r: Register): Register {
    Lfsr(Lfsr(Lfsr(Lfsr(Lfsr(Lfsr(Lfsr(r)))))))
  }

  lemma SevenSteps(t: nat)
    ensures RegisterAt(t + 7) == Lfsr7(RegisterAt(t))
  {
    hide Lfsr;
    assert RegisterAt(t + 1) == Lfsr(RegisterAt(t));
    assert RegisterAt(t + 2) == Lfsr(RegisterAt(t + 1));
    assert RegisterAt(t + 3) == Lfsr(RegisterAt(t + 2));
    assert RegisterAt(t + 4) == Lfsr(RegisterAt(t + 3));
    assert RegisterAt(t + 5) == Lfsr(RegisterAt(t + 4));
    assert RegisterAt(t + 6) == Lfsr(RegisterAt(t + 5));
    assert RegisterAt(t + 7) == Lfsr(RegisterAt(t + 6));
  }

  lemma NextRound(ir: nat)
    requires ir < 23
    ensures Lfsr7(RoundRegister(ir)) == RoundRegister(ir + 1)
  {
    if ir == 0 { } else if ir == 1 { } else if ir == 2 { } else if ir == 3 { } else if ir == 4 { } else
    if ir == 5 { } else if ir == 6 { } else if ir == 7 { } else if ir == 8 { } else if ir == 9 { } else
    if ir == 10 { } else if ir == 11 { } else if ir == 12 { } else if ir == 13 { } else if ir == 14 { } else
    if ir == 15 { } else if ir == 16 { } else if ir == 17 { } else if ir == 18 { } else if ir == 19 { } else
    if ir == 20 { } else if ir == 21 { }
  }

  lemma {:induction false} RegisterOfRound(ir: nat)
    requires ir < 24
    ensures RegisterAt(7 * ir) == RoundRegister(ir)
  {
    hide RoundRegister, Lfsr7;
    if ir == 0 {
      assert RoundRegister(0) == RegisterAt(0) by { FirstRegister(); }
    } else {
      RegisterOfRound(ir - 1);
      SevenSteps(7 * (ir - 1));
      NextRound(ir - 1);
    }
  }

  lemma FirstRegister()
    ensures RoundRegister(0) == RegisterAt(0)
  {
  }

  function Bit(b: bool): nat {
    if b then 1 else 0
  }

  function Sparse(b: Register): nat {
    Bit(b.b0) + 0x2 * (Bit(b.b1) + 0x4 * (Bit(b.b2) + 0x10 * (Bit(b.b3)
      + 0x100 * (Bit(b.b4) + 0x1_0000 * (Bit(b.b5) + 0x1_0000_0000 * Bit(b.b6))))))
  }

  lemma SparseStep(b: bool, n: nat, p: nat, g: nat, k: nat)
    requires g > 0 && p == Exp2(g)
    ensures ToBits(Bit(b) + p * n, g + k) == [b] + Zeros(g - 1) + ToBits(n, k)
  {
    ByteThenRest(Bit(b), n, g, k);
    ZeroBits(g - 1);
    assert ToBits(Bit(b), g) == [b] + ToBits(0, g - 1);
  }

  lemma LastBit(b: bool)
    ensures ToBits(Bit(b), 1) == [b]
  {
    OneBit(Bit(b));
  }

  lemma NestedBits(b: Register, n6: nat, n5: nat, n4: nat, n3: nat, n2: nat, n1: nat, n0: nat)
    requires n6 == Bit(b.b6)
    requires n5 == Bit(b.b5) + 0x1_0000_0000 * n6
    requires n4 == Bit(b.b4) + 0x1_0000 * n5
    requires n3 == Bit(b.b3) + 0x100 * n4
    requires n2 == Bit(b.b2) + 0x10 * n3
    requires n1 == Bit(b.b1) + 0x4 * n2
    requires n0 == Bit(b.b0) + 0x2 * n1
    ensures ToBits(n0, 64)
         == [b.b0] + Zeros(0) + ([b.b1] + Zeros(1) + ([b.b2] + Zeros(3) + ([b.b3] + Zeros(7)
          + ([b.b4] + Zeros(15) + ([b.b5] + Zeros(31) + [b.b6])))))
  {
    hide *;
    SmallPowers();
    LastBit(b.b6);
    SparseStep(b.b5, n6, 0x1_0000_0000, 32, 1);
    SparseStep(b.b4, n5, 0x1_0000, 16, 33);
    SparseStep(b.b3, n4, 0x100, 8, 49);
    SparseStep(b.b2, n3, 0x10, 4, 57);
    SparseStep(b.b1, n2, 0x4, 2, 61);
    SparseStep(b.b0, n1, 0x2, 1, 63);
  }

  lemma SparseBits(b: Register)
    ensures ToBits(Sparse(b), 64)
         == [b.b0] + Zeros(0) + ([b.b1] + Zeros(1) + ([b.b2] + Zeros(3) + ([b.b3] + Zeros(7)
          + ([b.b4] + Zeros(15) + ([b.b5] + Zeros(31) + [b.b6])))))
  {
    hide Bit, ToBits, Zeros;
    var n5 := Bit(b.b5) + 0x1_0000_0000 * Bit(b.b6);
    var n4 := Bit(b.b4) + 0x1_0000 * n5;
    var n3 := Bit(b.b3) + 0x100 * n4;
    var n2 := Bit(b.b2) + 0x10 * n3;
    var n1 := Bit(b.b1) + 0x4 * n2;
    NestedBits(b, Bit(b.b6), n5, n4, n3, n2, n1, Sparse(b));
  }

  lemma SmallPowers()
    ensures Exp2(1) == 2 && Exp2(2) == 4 && Exp2(4) == 0x10 && Exp2(8) == 0x100
    ensures Exp2(16) == 0x1_0000 && Exp2(32) == 0x1_0000_0000
  {
    Exp2Adds(8, 8);
    Exp2Adds(16, 16);
  }

  lemma SparseLane(b: Register)
    ensures ToBits(Sparse(b), 64)
         == ZeroLane()[0 := b.b0][1 := b.b1][3 := b.b2][7 := b.b3][15 := b.b4][31 := b.b5][63 := b.b6]
  {
    SparseBits(b);
    hide ToBits, Sparse;
  }

  /** The bits Algorithm 5 gives out over seven steps from r. */
  function Outputs(r: Register): Register {
    Register(r.b0, r.b7, r.b6, r.b5 != r.b7, (r.b4 != r.b6) != r.b7, (r.b3 != r.b5) != r.b6,
             (r.b2 != r.b4) != r.b5, false)
  }

  lemma OutputsOfSteps(r: Register)
    ensures var r1 := Lfsr(r); var r2 := Lfsr(r1); var r3 := Lfsr(r2);
            var r4 := Lfsr(r3); var r5 := Lfsr(r4); var r6 := Lfsr(r5);
            Outputs(r) == Register(r.b0, r1.b0, r2.b0, r3.b0, r4.b0, r5.b0, r6.b0, false)
  {
  }

  lemma OutputsOfRound(ir: nat)
    requires ir < 24
    ensures Outputs(RegisterAt(7 * ir))
         == Register(Rc(7 * ir), Rc(7 * ir + 1), Rc(7 * ir + 2), Rc(7 * ir + 3), Rc(7 * ir + 4),
                     Rc(7 * ir + 5), Rc(7 * ir + 6), false)
  {
    hide Lfsr, Rc, RegisterAt, Outputs;
    var t := 7 * ir;
    OutputsOfSteps(RegisterAt(t));
    RegisterSteps(t);
    RegisterSteps(t + 1);
    RegisterSteps(t + 2);
    RegisterSteps(t + 3);
    RegisterSteps(t + 4);
    RegisterSteps(t + 5);
    RegisterSteps(t + 6);
  }

  lemma RegisterSteps(t: nat)
    requires t < 255
    ensures Rc(t) == RegisterAt(t).b0
    ensures RegisterAt(t + 1) == Lfsr(RegisterAt(t))
  {
    hide Lfsr;
    assert t % 255 == t;
  }

  lemma FirstRows(ir: nat)
    requires ir < 12
    ensures KECCAK_RC[ir] == Sparse(Outputs(RoundRegister(ir)))
  {
    if ir == 0 { } else if ir == 1 { } else if ir == 2 { } else if ir == 3 { } else if ir == 4 { } else
    if ir == 5 { } else if ir == 6 { } else if ir == 7 { } else if ir == 8 { } else if ir == 9 { } else
    if ir == 10 { }
  }

  lemma LastRows(ir: nat)
    requires 12 <= ir < 24
    ensures KECCAK_RC[ir] == Sparse(Outputs(RoundRegister(ir)))
  {
    if ir == 12 { } else if ir == 13 { } else if ir == 14 { } else if ir == 15 { } else if ir == 16 { } else
    if ir == 17 { } else if ir == 18 { } else if ir == 19 { } else if ir == 20 { } else if ir == 21 { } else
    if ir == 22 { }
  }

  /** Every entry of keccakRC is the standard's round constant. */
  lemma RoundConstantsAgree(ir: nat)
    requires ir < 24
    ensures ToBits(KECCAK_RC[ir], 64) == RoundConstant(ir)
  {
    if ir < 12 {
      FirstRows(ir);
    } else {
      LastRows(ir);
    }
    RegisterOfRound(ir);
    OutputsOfRound(ir);
    SparseLane(Outputs(RoundRegister(ir)));
    hide ToBits, Sparse, Rc, Outputs, RoundRegister, RegisterAt;
  }
}
