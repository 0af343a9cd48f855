/** KECCAK-f[1600] is a bijection on states: an inverse of every step mapping,
    and both compositions over all 24 rounds. */
module KeccakInverse {
  import opened Bits
  import opened Lanes
  import opened KeccakSpec

  // ---- theta ----

  function AddPlanes(c: Plane, d: Plane): Plane {
    seq(5, x requires 0 <= x < 5 => Xor(c[x], d[x]))
  }

  /** The map theta induces on column parities, with its shifts scaled by k. */
  function SpreadAt(c: Plane, k: int, x: int): Lane {
    Xor(Xor(c[x % 5], c[(x - k) % 5]), Rot(c[(x + k) % 5], k))
  }

  function Spread(c: Plane, k: int): Plane {
    seq(5, x => SpreadAt(c, k, x))
  }

  function Iterate(c: Plane, n: nat): Plane {
    if n == 0 then c else Spread(Iterate(c, n - 1), 1)
  }

  lemma FiveCopies(a: Lane, b: Lane, c: Lane, d: Lane, e: Lane, v: Lane)
    ensures Sum5(Xor(a, v), Xor(b, v), Xor(c, v), Xor(d, v), Xor(e, v)) == Xor(Sum5(a, b, c, d, e), v)
  {
  }

  lemma ParityOfAddPlaneAt(s: State, d: Plane, x: int)
    requires 0 <= x < 5
    ensures Parity(AddPlane(s, d))[x] == Xor(Parity(s)[x], d[x])
  {
    hide Xor, Sum5;
    FiveCopies(s[x], s[x + 5], s[x + 10], s[x + 15], s[x + 20], d[x]);
  }

  lemma ParityOfAddPlane(s: State, d: Plane)
    ensures Parity(AddPlane(s, d)) == AddPlanes(Parity(s), d)
  {
    hide Xor, Parity, AddPlane;
    forall x | 0 <= x < 5
      ensures Parity(AddPlane(s, d))[x] == AddPlanes(Parity(s), d)[x]
    {
      ParityOfAddPlaneAt(s, d, x);
    }
  }

  lemma XorAssociates(a: Lane, b: Lane, c: Lane)
    ensures Xor(a, Xor(b, c)) == Xor(Xor(a, b), c)
  {
  }

  lemma AddEffectAt(c: Plane, x: int)
    requires 0 <= x < 5
    ensures Xor(c[x], Effect(c)[x]) == SpreadAt(c, 1, x)
  {
    hide Xor, Rot;
    XorAssociates(c[x], c[(x - 1) % 5], Rot(c[(x + 1) % 5], 1));
  }

  lemma AddEffect(c: Plane)
    ensures AddPlanes(c, Effect(c)) == Spread(c, 1)
  {
    hide Xor, Rot, Effect, SpreadAt;
    forall x | 0 <= x < 5
      ensures AddPlanes(c, Effect(c))[x] == Spread(c, 1)[x]
    {
      AddEffectAt(c, x);
    }
  }

  /** Theta replaces the parity plane C by Spread(C, 1): five copies of the effect
      are added to each column, and five is odd. */
  lemma ParityOfTheta(s: State)
    ensures Parity(Theta(s)) == Spread(Parity(s), 1)
  {
    hide Parity, AddPlane, AddPlanes, Effect, Spread;
    ParityOfAddPlane(s, Effect(Parity(s)));
    AddEffect(Parity(s));
  }

  /** Each of q, r and t is added twice. */
  lemma CrossTermsCancel(p: Lane, q: Lane, r: Lane, s: Lane, t: Lane, u: Lane)
    ensures Xor(Xor(Xor(Xor(p, q), r), Xor(Xor(q, s), t)), Xor(Xor(r, t), u)) == Xor(Xor(p, s), u)
  {
  }

  lemma ShiftBoth(x: int, j: int, k: int)
    ensures (x % 5 + k) % 5 == (x + k) % 5
    ensures ((x + j) % 5 + k) % 5 == (x + (j + k)) % 5
  {
    assert x % 5 + k == x + k + 5 * (-(x / 5));
    assert (x + j) % 5 + k == x + (j + k) + 5 * (-((x + j) / 5));
  }

  lemma SpreadIndex(c: Plane, k: int, y: int)
    ensures Spread(c, k)[y % 5] == SpreadAt(c, k, y)
  {
    hide Xor, Rot;
    ShiftBoth(y, 0, -k);
    ShiftBoth(y, 0, k);
  }

  lemma SpreadTwiceAt(c: Plane, k: int, x: int)
    ensures SpreadAt(Spread(c, k), k, x) == SpreadAt(c, 2 * k, x)
  {
    hide Xor, Rot, Spread;
    SpreadIndex(c, k, x);
    SpreadIndex(c, k, x - k);
    SpreadIndex(c, k, x + k);
    assert x - k - k == x - 2 * k && x + k + k == x + 2 * k;
    var p, l, r, ll, rr := c[x % 5], c[(x - k) % 5], c[(x + k) % 5], c[(x - 2 * k) % 5], c[(x + 2 * k) % 5];
    RotXor(Xor(r, p), Rot(rr, k), k);
    RotXor(r, p, k);
    RotRot(rr, k, k);
    CrossTermsCancel(p, l, Rot(r, k), ll, Rot(p, k), Rot(rr, 2 * k));
  }

  /** Over GF(2) squaring keeps only the squares of the three terms. */
  lemma SpreadTwice(c: Plane, k: int)
    ensures Spread(Spread(c, k), k) == Spread(c, 2 * k)
  {
    hide SpreadAt;
    forall x | 0 <= x < 5
      ensures Spread(Spread(c, k), k)[x] == Spread(c, 2 * k)[x]
    {
      SpreadTwiceAt(c, k, x);
    }
  }

  lemma {:induction false} IterateAdds(c: Plane, m: nat, n: nat)
    ensures Iterate(Iterate(c, m), n) == Iterate(c, m + n)
    decreases n
  {
    hide Spread;
    if n > 0 {
      IterateAdds(c, m, n - 1);
    }
  }

  lemma {:induction false} IteratePowerOfTwo(c: Plane, j: nat)
    ensures Iterate(c, Exp2(j)) == Spread(c, Exp2(j))
    decreases j
  {
    hide Spread;
    if j > 0 {
      var h := Exp2(j - 1);
      IterateAdds(c, h, h);
      IteratePowerOfTwo(c, j - 1);
      IteratePowerOfTwo(Spread(c, h), j - 1);
      SpreadTwice(c, h);
    } else {
      assert Iterate(c, 0) == c;
    }
  }

  lemma SevenTermsCancel(a: Lane, b: Lane, c: Lane, d: Lane, e: Lane)
    ensures Xor(Xor(Xor(Xor(a, c), d), Xor(Xor(b, d), e)), Xor(Xor(e, b), c)) == a
  {
  }

  /** A rotation by 128 is none, so 128 applications only shift x. */
  lemma Spread128(c: Plane, y: int)
    ensures Spread(c, 128)[y % 5] == Xor(Xor(c[y % 5], c[(y + 2) % 5]), c[(y + 3) % 5])
  {
    hide Xor, Rot, Spread;
    SpreadIndex(c, 128, y);
    RotFull(c[(y + 128) % 5], 128);
  }

  lemma Spread64(c: Plane, y: int)
    ensures SpreadAt(c, 64, y) == Xor(Xor(c[y % 5], c[(y + 1) % 5]), c[(y + 4) % 5])
  {
    hide Xor, Rot;
    RotFull(c[(y + 64) % 5], 64);
  }

  /** 64 and 128 applications only shift x, and (1 + u + 1/u)(1 + u^2 + 1/u^2) = 1 where
      u^5 = 1. */
  lemma SpreadsCancel(c: Plane, x: int)
    requires 0 <= x < 5
    ensures SpreadAt(Spread(c, 128), 64, x) == c[x]
  {
    hide *;
    Spread64(Spread(c, 128), x);
    Spread128(c, x);
    Spread128(c, x + 1);
    Spread128(c, x + 4);
    SevenTermsCancel(c[x], c[(x + 1) % 5], c[(x + 2) % 5], c[(x + 3) % 5], c[(x + 4) % 5]);
  }

  lemma Order192(c: Plane)
    ensures Iterate(c, 192) == c
  {
    hide Spread, SpreadAt;
    IterateAdds(c, 128, 64);
    IteratePowerOfTwo(c, 7);
    IteratePowerOfTwo(Iterate(c, 128), 6);
    SpreadsBothCancel(c);
  }

  lemma SpreadsBothCancel(c: Plane)
    ensures Spread(Spread(c, 128), 64) == c
  {
    hide SpreadAt;
    forall x | 0 <= x < 5
      ensures Spread(Spread(c, 128), 64)[x] == c[x]
    {
      SpreadsCancel(c, x);
    }
  }

  function ThetaInverse(s: State): State {
    AddPlane(s, Effect(Iterate(Parity(s), 191)))
  }

  lemma AddPlaneCancels(s: State, d: Plane)
    ensures AddPlane(AddPlane(s, d), d) == s
  {
    hide Xor;
    forall i | 0 <= i < 25
      ensures AddPlane(AddPlane(s, d), d)[i] == s[i]
    {
      XorCancels(s[i], d[i % 5]);
    }
  }

  lemma AddPlanesCancels(c: Plane, d: Plane)
    ensures AddPlanes(AddPlanes(c, d), d) == c
  {
    hide Xor;
    forall i | 0 <= i < 5
      ensures AddPlanes(AddPlanes(c, d), d)[i] == c[i]
    {
      XorCancels(c[i], d[i]);
    }
  }

  lemma ThetaBijective(s: State)
    ensures ThetaInverse(Theta(s)) == s
    ensures Theta(ThetaInverse(s)) == s
  {
    hide Parity, Effect, AddPlane, AddPlanes, Spread;
    var c := Parity(s);
    ParityOfTheta(s);
    IterateAdds(c, 1, 191);
    Order192(c);
    AddPlaneCancels(s, Effect(c));

    var d := Iterate(c, 191);
    ParityOfAddPlane(s, Effect(d));
    AddEffect(d);
    AddPlanesCancels(d, Effect(d));
    AddPlaneCancels(s, Effect(d));
  }

  // ---- rho and pi ----

  function RhoInverse(s: State): State {
    seq(25, i requires 0 <= i < 25 => Rot(s[i], -OFFSETS[i]))
  }

  lemma RhoBijective(s: State)
    ensures RhoInverse(Rho(s)) == s
    ensures Rho(RhoInverse(s)) == s
  {
    hide Rot;
    forall i | 0 <= i < 25
      ensures RhoInverse(Rho(s))[i] == s[i] && Rho(RhoInverse(s))[i] == s[i]
    {
      RotRot(s[i], OFFSETS[i], -OFFSETS[i]);
      RotRot(s[i], -OFFSETS[i], OFFSETS[i]);
      RotFull(s[i], 0);
    }
  }

  /** Where pi sends lane i: (x, y) to (y, 2x + 3y). */
  function PiTarget(i: nat): (j: nat)
    requires i < 25
    ensures j < 25
  {
    5 * ((2 * (i % 5) + 3 * (i / 5)) % 5) + i / 5
  }

  lemma PiCoordinates(x: nat, y: nat)
    requires x < 5 && y < 5
    ensures (y + 3 * ((2 * x + 3 * y) % 5)) % 5 == x
    ensures (2 * ((x + 3 * y) % 5) + 3 * x) % 5 == y
  {
    if x == 0 {
    } else if x == 1 {
    } else if x == 2 {
    } else if x == 3 {
    } else {
    }
  }

  lemma PiAt(x: nat, y: nat)
    requires x < 5 && y < 5
    ensures PiSource(5 * y + x) == 5 * x + (x + 3 * y) % 5
    ensures PiTarget(5 * y + x) == 5 * ((2 * x + 3 * y) % 5) + y
  {
    assert (5 * y + x) / 5 == y && (5 * y + x) % 5 == x;
  }

  lemma PiIndices(i: nat)
    requires i < 25
    ensures PiSource(PiTarget(i)) == i
    ensures PiTarget(PiSource(i)) == i
  {
    hide PiSource, PiTarget;
    var x, y := i % 5, i / 5;
    PiCoordinates(x, y);
    PiAt(x, y);
    PiAt(y, (2 * x + 3 * y) % 5);
    PiAt((x + 3 * y) % 5, x);
  }

  function PiInverse(s: State): State {
    seq(25, i requires 0 <= i < 25 => s[PiTarget(i)])
  }

  lemma PiBijective(s: State)
    ensures PiInverse(Pi(s)) == s
    ensures Pi(PiInverse(s)) == s
  {
    hide PiTarget, PiSource;
    forall i | 0 <= i < 25
      ensures PiInverse(Pi(s))[i] == s[i] && Pi(PiInverse(s))[i] == s[i]
    {
      PiIndices(i);
    }
  }

  // ---- chi ----

  /** The inverse of chi on the five lanes of a row, for the first of them. */
  function Unchi(a: Lane, b: Lane, c: Lane, d: Lane, e: Lane): Lane {
    Xor(a, AndNot(b, Xor(c, AndNot(d, e))))
  }

  function Chi1(a: Lane, b: Lane, c: Lane): Lane {
    Xor(a, AndNot(b, c))
  }

  lemma ChiOnRow(a: Lane, b: Lane, c: Lane, d: Lane, e: Lane)
    ensures Unchi(Chi1(a, b, c), Chi1(b, c, d), Chi1(c, d, e), Chi1(d, e, a), Chi1(e, a, b)) == a
    ensures Chi1(Unchi(a, b, c, d, e), Unchi(b, c, d, e, a), Unchi(c, d, e, a, b)) == a
  {
  }

  function ChiInverse(s: State): State {
    seq(25, i requires 0 <= i < 25 => Unchi(s[i], s[Row(i, 1)], s[Row(i, 2)], s[Row(i, 3)], s[Row(i, 4)]))
  }

  lemma RowWraps(i: nat, j: nat, k: nat)
    requires i < 25
    ensures Row(Row(i, j), k) == Row(i, j + k)
    ensures Row(i, 5 + k) == Row(i, k)
    ensures Row(i, 0) == i
  {
    ShiftBoth(i, j, k);
    assert Row(i, j) % 5 == (i + j) % 5;
    ShiftBoth(Row(i, j), 0, k);
    assert (i + (5 + k)) % 5 == (i + k) % 5;
  }

  lemma ChiIndex(s: State, i: nat, k: nat)
    requires i < 25
    ensures Chi(s)[Row(i, k)] == Chi1(s[Row(i, k)], s[Row(i, k + 1)], s[Row(i, k + 2)])
    ensures ChiInverse(s)[Row(i, k)]
         == Unchi(s[Row(i, k)], s[Row(i, k + 1)], s[Row(i, k + 2)], s[Row(i, k + 3)], s[Row(i, k + 4)])
  {
    hide Xor, AndNot, Row, Unchi;
    RowWraps(i, k, 1);
    RowWraps(i, k, 2);
    RowWraps(i, k, 3);
    RowWraps(i, k, 4);
  }

  lemma ChiBijectiveAt(s: State, i: nat)
    requires i < 25
    ensures ChiInverse(Chi(s))[Row(i, 0)] == s[Row(i, 0)]
    ensures Chi(ChiInverse(s))[Row(i, 0)] == s[Row(i, 0)]
  {
    hide Chi, ChiInverse, Unchi, Chi1, Row;
    ChiIndex(Chi(s), i, 0);
    ChiIndex(ChiInverse(s), i, 0);
    ChiIndex(s, i, 0);
    ChiIndex(s, i, 1);
    ChiIndex(s, i, 2);
    ChiIndex(s, i, 3);
    ChiIndex(s, i, 4);
    RowWraps(i, 0, 0);
    RowWraps(i, 0, 1);
    RowWraps(i, 0, 2);
    RowWraps(i, 0, 3);
    ChiOnRow(s[Row(i, 0)], s[Row(i, 1)], s[Row(i, 2)], s[Row(i, 3)], s[Row(i, 4)]);
  }

  lemma ChiBijective(s: State)
    ensures ChiInverse(Chi(s)) == s
    ensures Chi(ChiInverse(s)) == s
  {
    hide Chi, ChiInverse, Row;
    forall i | 0 <= i < 25
      ensures ChiInverse(Chi(s))[i] == s[i] && Chi(ChiInverse(s))[i] == s[i]
    {
      RowWraps(i, 0, 0);
      ChiBijectiveAt(s, i);
    }
  }

  // ---- iota and the rounds ----

  lemma IotaInvolutive(s: State, ir: nat)
    ensures Iota(Iota(s, ir), ir) == s
  {
    hide Xor, RoundConstant;
    XorCancels(s[0], RoundConstant(ir));
  }

  function RndInverse(s: State, ir: nat): State {
    ThetaInverse(RhoInverse(PiInverse(ChiInverse(Iota(s, ir)))))
  }

  lemma RndBijective(s: State, ir: nat)
    ensures RndInverse(Rnd(s, ir), ir) == s
    ensures Rnd(RndInverse(s, ir), ir) == s
  {
    hide Theta, ThetaInverse, Rho, RhoInverse, Pi, PiInverse, Chi, ChiInverse, Iota;
    ThetaBijective(s);
    RhoBijective(Theta(s));
    PiBijective(Rho(Theta(s)));
    ChiBijective(Pi(Rho(Theta(s))));
    IotaInvolutive(Chi(Pi(Rho(Theta(s)))), ir);

    var e := Iota(s, ir);
    IotaInvolutive(s, ir);
    ChiBijective(e);
    PiBijective(ChiInverse(e));
    RhoBijective(PiInverse(ChiInverse(e)));
    ThetaBijective(RhoInverse(PiInverse(ChiInverse(e))));
  }

  /** Undoes the first n rounds. */
  function Unwind(s: State, n: nat): State
    decreases n
  {
    if n == 0 then s else Unwind(RndInverse(s, n - 1), n - 1)
  }

  lemma {:induction false} RoundsBijective(s: State, n: nat)
    ensures Unwind(Rounds(s, n), n) == s
    ensures Rounds(Unwind(s, n), n) == s
    decreases n
  {
    hide Rnd, RndInverse;
    if n > 0 {
      RoundsBijective(s, n - 1);
      RndBijective(Rounds(s, n - 1), n - 1);
      RoundsBijective(RndInverse(s, n - 1), n - 1);
      RndBijective(s, n - 1);
    }
  }

  function KeccakFInverse(s: State): State {
    Unwind(s, 24)
  }

  lemma KeccakFBijective(s: State, t: State)
    ensures KeccakFInverse(KeccakF(s)) == s
    ensures KeccakF(KeccakFInverse(s)) == s
    ensures KeccakF(s) == KeccakF(t) ==> s == t
  {
    hide Rounds, Unwind;
    RoundsBijective(s, 24);
    RoundsBijective(t, 24);
  }
}
