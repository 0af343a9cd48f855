/** Numbers as digits, most significant first, in any base. */
module Positional {

  function Power(base: nat, n: nat): nat {
    if n == 0 then 1 else base * Power(base, n - 1)
  }

  predicate AreDigits(ds: seq<nat>, base: nat) {
    forall i :: 0 <= i < |ds| ==> ds[i] < base
  }

  function Number(ds: seq<nat>, base: nat): nat {
    if ds == [] then 0 else base * Number(ds[..|ds| - 1], base) + ds[|ds| - 1]
  }

  function Quotient(v: nat, base: nat): nat
    requires base > 0
  {
    v / base
  }

  function Remainder(v: nat, base: nat): (r: nat)
    requires base > 0
    ensures r < base
  {
    v % base
  }

  lemma DivMod(v: nat, base: nat)
    requires base > 0
    ensures v == base * Quotient(v, base) + Remainder(v, base)
  {
  }

  function Digits(v: nat, base: nat, n: nat): (ds: seq<nat>)
    requires base > 0
    ensures |ds| == n
    decreases n
  {
    if n == 0 then [] else Digits(Quotient(v, base), base, n - 1) + [Remainder(v, base)]
  }

  lemma {:induction false} DigitsInRange(v: nat, base: nat, n: nat)
    requires base > 0
    ensures AreDigits(Digits(v, base, n), base)
    decreases n
  {
    hide Quotient, Remainder;
    if n > 0 {
      DigitsInRange(Quotient(v, base), base, n - 1);
    }
  }

  lemma DivideStep(base: nat, q: nat, r: nat)
    requires r < base
    ensures Quotient(base * q + r, base) == q && Remainder(base * q + r, base) == r
  {
    var n := base * q + r;
    DivMod(n, base);
    hide *;
    var p := Quotient(n, base);
    if p < q {
      MulMonotone(base, p + 1, q);
    } else if p > q {
      MulMonotone(base, q + 1, p);
    }
  }

  lemma MulMonotone(k: nat, a: nat, b: nat)
    requires a <= b
    ensures k * a <= k * b
  {
  }

  lemma {:induction false} NumberBounded(ds: seq<nat>, base: nat)
    requires AreDigits(ds, base)
    ensures Number(ds, base) < Power(base, |ds|)
  {
    if ds != [] {
      var n := |ds| - 1;
      NumberBounded(ds[..n], base);
      MulMonotone(base, Number(ds[..n], base) + 1, Power(base, n));
    }
  }

  lemma {:induction false} NumberOfDigits(v: nat, base: nat, n: nat)
    requires base > 0 && v < Power(base, n)
    ensures Number(Digits(v, base, n), base) == v
    decreases n
  {
    hide Quotient, Remainder;
    if n > 0 {
      DivMod(v, base);
      var q, ds := Quotient(v, base), Digits(v, base, n);
      if q >= Power(base, n - 1) {
        MulMonotone(base, Power(base, n - 1), q);
      }
      NumberOfDigits(q, base, n - 1);
      assert ds[..n - 1] == Digits(q, base, n - 1);
    }
  }

  lemma {:induction false} DigitsOfNumber(ds: seq<nat>, base: nat)
    requires base > 0 && AreDigits(ds, base)
    ensures Digits(Number(ds, base), base, |ds|) == ds
  {
    hide Quotient, Remainder;
    if ds != [] {
      var n := |ds| - 1;
      DivideStep(base, Number(ds[..n], base), ds[n]);
      DigitsOfNumber(ds[..n], base);
      assert ds == ds[..n] + [ds[n]];
    }
  }

  /** Reading one more digit. */
  lemma NumberStep(ds: seq<nat>, base: nat, i: nat)
    requires i < |ds|
    ensures Number(ds[..i + 1], base) == base * Number(ds[..i], base) + ds[i]
  {
    assert ds[..i + 1][..i] == ds[..i];
  }

  /** A prefix is no larger than the whole. */
  lemma {:induction false} PrefixNoLarger(ds: seq<nat>, base: nat, i: nat)
    requires base > 0 && i <= |ds|
    ensures Number(ds[..i], base) <= Number(ds, base)
  {
    if i < |ds| {
      var n := |ds| - 1;
      PrefixNoLarger(ds[..n], base, i);
      assert ds[..n][..i] == ds[..i];
      MulMonotone(Number(ds[..n], base), 1, base);
    } else {
      assert ds[..i] == ds;
    }
  }

  /** Fewer digits of the same number are its last ones. */
  lemma {:induction false} LastDigits(v: nat, base: nat, n: nat, k: nat)
    requires base > 0 && k <= n
    ensures Digits(v, base, n)[n - k..] == Digits(v, base, k)
    decreases k
  {
    hide Quotient, Remainder;
    if k > 0 {
      var q, r := Quotient(v, base), Remainder(v, base);
      LastDigits(q, base, n - 1, k - 1);
      assert Digits(v, base, n)[n - k..] == Digits(q, base, n - 1)[n - k..] + [r];
    }
  }

  lemma QuotientZero(v: nat, m: nat)
    requires m > 0
    ensures Quotient(v, m) != 0 <==> v >= m
  {
    DivMod(v, m);
    hide *;
    if Quotient(v, m) >= 1 {
      MulMonotone(m, 1, Quotient(v, m));
    }
  }
}
