/** internal/config/keccak.go: Keccak-256 as the source computes it, in place. */
module Keccak {
  import opened Bits
  import opened Lanes
  import opened KeccakSpec
  import opened KeccakSponge
  import opened KeccakTables

  lemma ParityAt(s: State)
    ensures |Parity(s)| == 5
    ensures forall x {:trigger Parity(s)[x]} :: 0 <= x < 5 ==>
      Parity(s)[x] == Xor(Xor(Xor(Xor(s[x], s[x + 5]), s[x + 10]), s[x + 15]), s[x + 20])
  {
    hide Xor;
  }

  method ColumnParities(a: array<Lane>) returns (c: array<Lane>)
    requires a.Length == 25
    ensures fresh(c) && c[..] == Parity(a[..])
  {
    hide *;
    ghost var s: State := a[..];
    ParityAt(s);
    c := new Lane[5];
    for x := 0 to 5
      invariant forall j :: 0 <= j < x ==> c[j] == Parity(s)[j]
    {
      c[x] := Xor(Xor(Xor(Xor(a[x], a[x + 5]), a[x + 10]), a[x + 15]), a[x + 20]);
    }
  }

  lemma ThetaAt(s: State, e: Plane)
    requires e == Effect(Parity(s))
    ensures forall x :: 0 <= x < 5 ==> e[x] == Xor(Parity(s)[(x + 4) % 5], Rot(Parity(s)[(x + 1) % 5], 1))
    ensures forall i :: 0 <= i < 25 ==> Theta(s)[i] == Xor(s[i], e[i % 5])
  {
    hide Xor, Rot, Parity;
    forall x | 0 <= x < 5
      ensures Effect(Parity(s))[x] == Xor(Parity(s)[(x + 4) % 5], Rot(Parity(s)[(x + 1) % 5], 1))
    {
      assert (x + 4) % 5 == (x - 1) % 5;
    }
  }

  method AddToColumn(a: array<Lane>, x: nat, d: Lane)
    requires a.Length == 25 && x < 5
    modifies a
    ensures forall i :: 0 <= i < 25 ==> a[i] == if i % 5 == x then Xor(old(a[i]), d) else old(a[i])
  {
    hide *;
    var y := 0;
    while y < 25
      invariant 0 <= y <= 25 && y % 5 == 0
      invariant forall i :: 0 <= i < 25 ==> a[i] == if i % 5 == x && i < y then Xor(old(a[i]), d) else old(a[i])
    {
      a[y + x] := Xor(a[y + x], d);
      y := y + 5;
    }
  }

  method ThetaInPlace(a: array<Lane>)
    requires a.Length == 25
    modifies a
    ensures a[..] == Theta(old(a[..]))
  {
    hide *;
    ghost var s: State := a[..];
    ghost var t: State := Theta(s);
    var c := ColumnParities(a);
    ThetaAt(s, Effect(Parity(s)));
    for x := 0 to 5
      invariant c[..] == Parity(s)
      invariant forall i :: 0 <= i < 25 ==> a[i] == if i % 5 < x then t[i] else s[i]
    {
      var d := Xor(c[(x + 4) % 5], Rot(c[(x + 1) % 5], 1));
      AddToColumn(a, x, d);
    }
  }

  lemma RotAgrees(l: Lane, j: int, k: int)
    requires (j - k) % 64 == 0
    ensures Rot(l, j) == Rot(l, k)
  {
    hide Rot;
    RotRot(l, k, j - k);
    RotFull(Rot(l, k), j - k);
  }

  /** What rho then pi leave in the lane the chase writes at step i. */
  lemma ChaseWrites(s: State, i: nat)
    requires i < 24
    ensures Held(i) < 25 && 0 < KECCAK_PILN[i] < 25 && WRITTEN_AT[KECCAK_PILN[i]] == i
    ensures Pi(Rho(s))[KECCAK_PILN[i]] == Rot(s[Held(i)], KECCAK_ROTC[i])
  {
    ChaseOnce(i);
    ChaseSource(i);
    ChaseOffset(i);
    RotAgrees(s[Held(i)], OFFSETS[Held(i)], KECCAK_ROTC[i]);
    hide Rot, Held, PiSource;
  }

  lemma ChaseLeaves(s: State)
    ensures Pi(Rho(s))[0] == s[0]
  {
    hide Rot;
    RotFull(s[0], 0);
  }

  lemma HeldNext(i: nat)
    requires i < 24
    ensures Held(0) == 1 && Held(i + 1) == KECCAK_PILN[i]
  {
  }

  lemma TableLengths()
    ensures |KECCAK_RC| == |KECCAK_ROTC| == |KECCAK_PILN| == 24 && |WRITTEN_AT| == 25
  {
  }

  method RhoPiInPlace(a: array<Lane>)
    requires a.Length == 25
    modifies a
    ensures a[..] == Pi(Rho(old(a[..])))
  {
    hide *;
    ghost var s: State := a[..];
    ghost var t: State := Pi(Rho(s));
    HeldNext(0);
    ChaseLeaves(s);
    TableLengths();
    forall j | 0 < j < 25
      ensures WRITTEN_AT[j] < 24 && KECCAK_PILN[WRITTEN_AT[j]] == j
    {
      ChaseCovers(j);
    }
    var l := a[1];
    for i := 0 to 24
      invariant Held(i) < 25 && l == s[Held(i)]
      invariant forall j :: 0 <= j < 25 ==> a[j] == if 0 < j && WRITTEN_AT[j] < i then t[j] else s[j]
    {
      ChaseWrites(s, i);
      HeldNext(i);
      var j := KECCAK_PILN[i];
      l, a[j] := a[j], Rot(l, KECCAK_ROTC[i]);
    }
  }

  lemma ChiAt(s: State, y: nat, x: nat)
    requires y < 25 && y % 5 == 0 && x < 5
    ensures Chi(s)[y + x] == Xor(s[y + x], AndNot(s[y + (x + 1) % 5], s[y + (x + 2) % 5]))
  {
    RowAt(y, x, 1);
    RowAt(y, x, 2);
    hide Xor, AndNot, Row;
  }

  lemma RowAt(y: nat, x: nat, k: nat)
    requires y < 25 && y % 5 == 0 && x < 5
    ensures Row(y + x, k) == y + (x + k) % 5
  {
    assert (y + x) / 5 == y / 5;
    assert (y + x + k) % 5 == (x + k) % 5;
  }

  /** The row from y on, given that the rows before it are done. */
  method ChiRow(a: array<Lane>, y: nat, ghost s: State)
    requires a.Length == 25 && y < 25 && y % 5 == 0
    requires forall i :: 0 <= i < 25 ==> a[i] == if i < y then Chi(s)[i] else s[i]
    modifies a
    ensures forall i :: 0 <= i < 25 ==> a[i] == if i < y + 5 then Chi(s)[i] else s[i]
  {
    hide *;
    var c: seq<Lane> := a[y..y + 5];
    for x := 0 to 5
      invariant forall i :: 0 <= i < 25 ==> a[i] == if i < y + x then Chi(s)[i] else s[i]
    {
      ChiAt(s, y, x);
      a[y + x] := Xor(c[x], AndNot(c[(x + 1) % 5], c[(x + 2) % 5]));
    }
  }

  method ChiInPlace(a: array<Lane>)
    requires a.Length == 25
    modifies a
    ensures a[..] == Chi(old(a[..]))
  {
    hide *;
    ghost var s: State := a[..];
    var y := 0;
    while y < 25
      invariant 0 <= y <= 25 && y % 5 == 0
      invariant forall i :: 0 <= i < 25 ==> a[i] == if i < y then Chi(s)[i] else s[i]
    {
      ChiRow(a, y, s);
      y := y + 5;
    }
  }

  /** keccakF1600 computes the permutation of the standard, in place. */
  method KeccakF1600(a: array<Lane>)
    requires a.Length == 25
    modifies a
    ensures a[..] == KeccakF(old(a[..]))
  {
    hide Rnd, RoundConstant, Theta, Rho, Pi, Chi;
    ghost var s: State := a[..];
    TableLengths();
    for round := 0 to 24
      invariant a[..] == Rounds(s, round)
    {
      ghost var b: State := a[..];
      ThetaInPlace(a);
      RhoPiInPlace(a);
      ChiInPlace(a);
      ghost var c: State := a[..];
      RoundConstantsAgree(round);
      a[0] := Xor(a[0], ToBits(KECCAK_RC[round], 64));
      assert a[..] == Iota(c, round);
      RndIs(b, round);
    }
  }

  lemma RndIs(s: State, ir: nat)
    ensures Rnd(s, ir) == Iota(Chi(Pi(Rho(Theta(s)))), ir)
  {
    hide Iota, Chi, Pi, Rho, Theta;
  }

  // ---- the sponge ----

  lemma LaneOfBlock(b: seq<Byte>, i: nat)
    requires |b| == 136 && i < 17
    ensures ToBits(LittleEndian(b[8 * i..8 * i + 8]), 64) == BytesToBits(b)[64 * i..64 * i + 64]
  {
    hide *;
    LittleEndianBits(b[8 * i..8 * i + 8]);
    BytesToBitsSlice(b, 8 * i, 8 * i + 8);
  }

  lemma AddBlockAt(s: State, p: seq<bool>, j: nat)
    requires |p| == 1088 && j < 25
    ensures RATE == 1088 && AddBlock(s, p)[j] == if j < 17 then Xor(s[j], p[64 * j..64 * j + 64]) else s[j]
  {
    hide Xor;
  }

  method Block(a: array<Lane>, b: seq<Byte>)
    requires a.Length == 25 && |b| == 136
    modifies a
    ensures RATE == 1088 && a[..] == KeccakF(AddBlock(old(a[..]), BytesToBits(b)))
  {
    assert RATE == 1088;
    hide *;
    ghost var s: State := a[..];
    ghost var t: State := AddBlock(s, BytesToBits(b));
    for i := 0 to 17
      invariant forall j :: 0 <= j < 25 ==> a[j] == if j < i then t[j] else s[j]
    {
      LaneOfBlock(b, i);
      AddBlockAt(s, BytesToBits(b), i);
      a[i] := Xor(a[i], ToBits(LittleEndian(b[8 * i..8 * i + 8]), 64));
    }
    forall j | 17 <= j < 25
      ensures t[j] == s[j]
    {
      AddBlockAt(s, BytesToBits(b), j);
    }
    assert a[..] == t;
    KeccakF1600(a);
  }

  function Padded(data: seq<Byte>): (r: seq<bool>) {
    BytesToBits(data) + Pad(8 * |data|)
  }

  /** No two byte strings are absorbed as the same blocks, also when both marker
      bits share byte 135. */
  lemma PaddedInjective(s: seq<Byte>, t: seq<Byte>)
    requires Padded(s) == Padded(t)
    ensures s == t
  {
    hide BytesToBits, Pad;
    PaddingInjective(BytesToBits(s), BytesToBits(t));
    BytesToBitsInjective(s, t);
  }

  lemma PadPeriodic(m: nat)
    ensures Pad(m + 1088) == Pad(m)
  {
    assert (0 - (m + 1088) - 2) % 1088 == (0 - m - 2) % 1088;
  }

  lemma AbsorbWholeBlock(s: State, data: seq<Byte>)
    requires |data| >= 136
    ensures RATE == 1088
    ensures Absorb(s, Padded(data)) == Absorb(KeccakF(AddBlock(s, BytesToBits(data[..136]))), Padded(data[136..]))
  {
    hide KeccakF, AddBlock, Pad;
    var p := Padded(data);
    PadPeriodic(8 * |data| - 1088);
    assert data == data[..136] + data[136..];
    BytesToBitsConcat(data[..136], data[136..]);
    assert p[..1088] == BytesToBits(data[..136]);
    assert p[1088..] == Padded(data[136..]);
  }

  lemma AbsorbLastBlock(s: State, b: seq<Byte>)
    requires |b| == 136
    ensures RATE == 1088 && Absorb(s, BytesToBits(b)) == KeccakF(AddBlock(s, BytesToBits(b)))
  {
    hide KeccakF, AddBlock, BytesToBits;
    var p := BytesToBits(b);
    assert p[..1088] == p && p[1088..] == [];
  }

  function ZeroBytes(k: nat): seq<Byte> {
    seq(k, _ => 0)
  }

  lemma {:induction false} BitsOfZeroBytes(k: nat)
    ensures BytesToBits(ZeroBytes(k)) == Zeros(8 * k)
  {
    if k > 0 {
      BitsOfZeroBytes(k - 1);
      ZeroBits(8);
      assert ZeroBytes(k)[1..] == ZeroBytes(k - 1);
      assert Zeros(8) + Zeros(8 * (k - 1)) == Zeros(8 * k);
    }
  }

  /** The last block: the two marker bits are in bytes of their own, or share the last. */
  function LastBlock(rest: seq<Byte>): (b: seq<Byte>)
    requires |rest| < 136
    ensures |b| == 136
  {
    if |rest| == 135 then rest + [0x81] else rest + [0x01] + ZeroBytes(134 - |rest|) + [0x80]
  }

  lemma MarkerBytes()
    ensures ToBits(0x01, 8) == [true] + Zeros(7)
    ensures ToBits(0x80, 8) == Zeros(7) + [true]
    ensures ToBits(0x81, 8) == [true] + Zeros(6) + [true]
  {
    assert Exp2(1) == 2 && Exp2(6) == 64 && Exp2(7) == 128;
    hide *;
    OneBit(1);
    ZeroBits(7);
    ByteThenRest(1, 0, 1, 7);
    ShiftedBits(1, 7, 1);
    ByteThenRest(1, 0x40, 1, 7);
    ShiftedBits(1, 6, 1);
  }

  lemma MarkerBits()
    ensures BytesToBits([0x01]) == [true] + Zeros(7)
    ensures BytesToBits([0x80]) == Zeros(7) + [true]
    ensures BytesToBits([0x81]) == [true] + Zeros(6) + [true]
  {
    hide *;
    MarkerBytes();
    SingleByteBits([0x01]);
    SingleByteBits([0x80]);
    SingleByteBits([0x81]);
  }

  lemma LastBlockBits(rest: seq<Byte>)
    requires |rest| < 136
    ensures BytesToBits(LastBlock(rest)) == Padded(rest)
  {
    hide BytesToBits;
    var m := |rest|;
    MarkerBits();
    assert (0 - 8 * m - 2) % 1088 == 1086 - 8 * m;
    if m == 135 {
      BytesToBitsConcat(rest, [0x81]);
    } else {
      BytesToBitsConcat(rest, [0x01]);
      BytesToBitsConcat(rest + [0x01], ZeroBytes(134 - m));
      BytesToBitsConcat(rest + [0x01] + ZeroBytes(134 - m), [0x80]);
      BitsOfZeroBytes(134 - m);
      assert Zeros(7) + Zeros(8 * (134 - m)) + Zeros(7) == Zeros(1086 - 8 * m);
    }
  }

  method PadLast(rest: seq<Byte>) returns (b: seq<Byte>)
    requires |rest| < 136
    ensures b == LastBlock(rest)
  {
    var last := new Byte[136](_ => 0);
    for i := 0 to |rest|
      invariant last[..] == rest[..i] + ZeroBytes(136 - i)
    {
      last[i] := rest[i];
    }
    ByteXorZero(0x01);
    ByteXorZero(0x80);
    MarkersShareAByte();
    last[|rest|] := ByteXor(last[|rest|], 0x01);
    last[135] := ByteXor(last[135], 0x80);
    b := last[..];
  }

  lemma MarkersShareAByte()
    ensures ByteXor(0x01, 0x80) == 0x81
  {
    hide ToBits, Value, Exp2;
    MarkerBytes();
    ByteOfBits(0x81);
    var s := seq(8, i requires 0 <= i < 8 => ToBits(0x01, 8)[i] != ToBits(0x80, 8)[i]);
    assert s == ToBits(0x81, 8);
  }

  /** binary.LittleEndian.PutUint64. */
  function LaneBytes(l: Lane): (r: seq<Byte>)
    ensures |r| == 8
  {
    seq(8, k requires 0 <= k < 8 => ByteAt(l, k))
  }

  function ByteAt(l: Lane, k: nat): Byte
    requires k < 8
  {
    ValueBounded(l[8 * k..8 * k + 8]);
    assert Exp2(8) == 256;
    Value(l[8 * k..8 * k + 8])
  }

  lemma BitsOfLaneBytes(l: Lane)
    ensures BytesToBits(LaneBytes(l)) == l
  {
    var bits: seq<bool> := l;
    var r := LaneBytes(l);
    forall k | 0 <= k < 8
      ensures BytesToBits(r)[8 * k..8 * k + 8] == bits[8 * k..8 * k + 8]
    {
      BytesToBitsSlice(r, k, k + 1);
      BitsOfValue(bits[8 * k..8 * k + 8]);
      SingleByteBits(r[k..k + 1]);
    }
    forall z | 0 <= z < 64
      ensures BytesToBits(r)[z] == bits[z]
    {
      var k := z / 8;
      assert BytesToBits(r)[8 * k..8 * k + 8][z % 8] == bits[8 * k..8 * k + 8][z % 8];
    }
  }

  lemma SingleByteBits(s: seq<Byte>)
    requires |s| == 1
    ensures BytesToBits(s) == ToBits(s[0], 8)
  {
    assert BytesToBits(s[1..]) == [];
  }

  lemma ZeroStateIs(s: seq<Lane>)
    requires |s| == 25 && forall i :: 0 <= i < 25 ==> s[i] == ZeroLane()
    ensures s == ZeroState()
  {
    hide ZeroLane;
  }

  function FirstLanes(s: State, n: nat): seq<bool>
    requires n <= 25
  {
    if n == 0 then [] else FirstLanes(s, n - 1) + s[n - 1]
  }

  lemma FirstLanesStart(s: State)
    ensures FirstLanes(s, 0) == [] == BytesToBits([])
  {
  }

  lemma FirstLanesStep(s: State, n: nat)
    requires n < 25
    ensures FirstLanes(s, n + 1) == FirstLanes(s, n) + s[n]
  {
  }

  lemma FirstLanesSqueezed(s: State)
    ensures FirstLanes(s, 4) == Squeeze(s)
  {
    FirstLanesStart(s);
    FirstLanesStep(s, 0);
    FirstLanesStep(s, 1);
    FirstLanesStep(s, 2);
    FirstLanesStep(s, 3);
    hide FirstLanes;
    var a: seq<bool>, b: seq<bool>, c: seq<bool>, d: seq<bool> := s[0], s[1], s[2], s[3];
    assert FirstLanes(s, 4) == [] + a + b + c + d == a + b + c + d == Squeeze(s);
  }

  lemma DigestOf(data: seq<Byte>)
    ensures Keccak512(BytesToBits(data)) == Squeeze(Absorb(ZeroState(), Padded(data)))
  {
    hide Absorb, Squeeze, Pad, BytesToBits, ZeroState;
  }

  /** keccak256 is KECCAK[512](M, 256) of the standard, for every message. */
  method Keccak256(data: seq<Byte>) returns (out: seq<Byte>)
    ensures |out| == 32
    ensures BytesToBits(out) == Keccak512(BytesToBits(data))
  {
    hide *;
    var a := new Lane[25](_ => ZeroLane());
    ZeroStateIs(a[..]);
    var rest := data;
    while |rest| >= 136
      invariant Absorb(a[..], Padded(rest)) == Absorb(ZeroState(), Padded(data))
    {
      AbsorbWholeBlock(a[..], rest);
      Block(a, rest[..136]);
      rest := rest[136..];
    }
    var last := PadLast(rest);
    LastBlockBits(rest);
    AbsorbLastBlock(a[..], last);
    Block(a, last);
    ghost var s: State := a[..];
    out := [];
    FirstLanesStart(s);
    for i := 0 to 4
      invariant a[..] == s && |out| == 8 * i
      invariant BytesToBits(out) == FirstLanes(s, i)
    {
      BitsOfLaneBytes(a[i]);
      BytesToBitsConcat(out, LaneBytes(a[i]));
      FirstLanesStep(s, i);
      out := out + LaneBytes(a[i]);
    }
    FirstLanesSqueezed(s);
    DigestOf(data);
  }
}
