/** What the lane operations do to the 64-bit numbers that the lanes stand for: the source's
    bits.RotateLeft64, ^ and & on uint64. */
module LaneNumbers {
  import opened Bits
  import opened Lanes
  import opened Positional

  lemma RotIsTwoParts(a: Lane, k: nat)
    requires k < 64
    ensures Rot(a, k) == a[64 - k..] + a[..64 - k]
  {
    var bits: seq<bool> := a;
    forall z | 0 <= z < 64 ensures Rot(a, k)[z] == (bits[64 - k..] + bits[..64 - k])[z] {
      if z < k {
        assert (z - k) % 64 == z - k + 64;
      }
    }
  }

  lemma Scale(low: nat, e: nat, f: nat)
    requires low < e
    ensures f > 0 ==> low * f < e * f
  {
  }

  lemma TwoParts(a: Lane, k: nat) returns (low: nat, high: nat)
    requires k < 64
    ensures low < Exp2(64 - k) && Exp2(64) == Exp2(64 - k) * Exp2(k)
    ensures Value(a) == low + Exp2(64 - k) * high && Value(Rot(a, k)) == high + Exp2(k) * low
  {
    hide *;
    var bits: seq<bool> := a;
    RotIsTwoParts(a, k);
    assert bits == bits[..64 - k] + bits[64 - k..];
    ValueConcat(bits[..64 - k], bits[64 - k..]);
    ValueConcat(bits[64 - k..], bits[..64 - k]);
    ValueBounded(bits[..64 - k]);
    Exp2Adds(64 - k, k);
    low, high := Value(bits[..64 - k]), Value(bits[64 - k..]);
  }

  /** RotateLeft64 by k: the number times 2^k, what overflows coming back in at the bottom. */
  lemma RotIsRotateLeft(a: Lane, k: nat)
    requires k < 64
    ensures Value(Rot(a, k)) == Value(a) * Exp2(k) % Exp2(64) + Value(a) / Exp2(64 - k)
  {
    hide *;
    var low, high := TwoParts(a, k);
    Combine(low, high, Exp2(64 - k), Exp2(k), Exp2(64));
  }

  lemma Combine(low: nat, high: nat, e: nat, f: nat, g: nat)
    requires low < e && e > 0 && f > 0 && g == e * f
    ensures g > 0 && high + f * low == (low + e * high) * f % g + (low + e * high) / e
  {
    var n := low + e * high;
    DivideStep(e, high, low);
    Scale(low, e, f);
    Regroup(low, high, e, f);
    DivideStep(g, high, low * f);
    assert n * f == g * high + low * f;
    assert Remainder(n * f, g) == n * f % g && Quotient(n, e) == n / e;
  }

  lemma Regroup(low: nat, high: nat, e: nat, f: nat)
    ensures (low + e * high) * f == (e * f) * high + low * f
  {
  }

  /** ^ adds bit by bit, without carry. */
  lemma XorIsExclusiveOr(a: Lane, b: Lane, z: nat)
    requires z < 64
    ensures BitOf(Value(Xor(a, b)), z) == (BitOf(Value(a), z) + BitOf(Value(b), z)) % 2
  {
    BitOfValue(Xor(a, b), z);
    BitOfValue(a, z);
    BitOfValue(b, z);
    hide Value, BitOf;
  }

  /** ^a & b has the bits of b that a does not have. */
  lemma AndNotIsAndOfNot(a: Lane, b: Lane, z: nat)
    requires z < 64
    ensures BitOf(Value(AndNot(a, b)), z) == (1 - BitOf(Value(a), z)) * BitOf(Value(b), z)
  {
    BitOfValue(AndNot(a, b), z);
    BitOfValue(a, z);
    BitOfValue(b, z);
    hide Value, BitOf;
  }

  /** A lane is its number: the bits are all there is to it. */
  lemma NumberIsLane(a: Lane, b: Lane)
    requires Value(a) == Value(b)
    ensures a == b
  {
    BitsOfValue(a);
    BitsOfValue(b);
  }
}
