/** Bit strings, least significant bit first, and the numbers and bytes they stand for. */
module Bits {

  type Byte = b: nat | b < 256

  function Exp2(k: nat): (r: nat)
    ensures r > 0
  {
    if k == 0 then 1 else 2 * Exp2(k - 1)
  }

  lemma {:induction false} Exp2Adds(j: nat, k: nat)
    ensures Exp2(j + k) == Exp2(j) * Exp2(k)
  {
    if j > 0 {
      Exp2Adds(j - 1, k);
    }
  }

  /** The k low bits of n. */
  function ToBits(n: nat, k: nat): (r: seq<bool>)
    ensures |r| == k
  {
    if k == 0 then [] else [n % 2 == 1] + ToBits(n / 2, k - 1)
  }

  lemma OneBit(n: nat)
    requires n < 2
    ensures ToBits(n, 1) == [n == 1]
  {
    assert ToBits(n / 2, 0) == [];
  }

  function Value(s: seq<bool>): nat {
    if s == [] then 0 else (if s[0] then 1 else 0) + 2 * Value(s[1..])
  }

  lemma {:induction false} ValueBounded(s: seq<bool>)
    ensures Value(s) < Exp2(|s|)
  {
    if s != [] {
      ValueBounded(s[1..]);
    }
  }

  lemma {:induction false} BitsOfValue(s: seq<bool>)
    ensures ToBits(Value(s), |s|) == s
  {
    if s != [] {
      BitsOfValue(s[1..]);
      assert Value(s) / 2 == Value(s[1..]);
    }
  }

  lemma {:induction false} ValueConcat(s: seq<bool>, t: seq<bool>)
    ensures Value(s + t) == Value(s) + Exp2(|s|) * Value(t)
  {
    if s == [] {
      assert s + t == t;
    } else {
      ValueConcat(s[1..], t);
      assert (s + t)[1..] == s[1..] + t;
      TwiceTimes(Exp2(|s| - 1), Value(t));
    }
  }

  lemma TwiceTimes(x: nat, y: nat)
    ensures 2 * x * y == 2 * (x * y)
  {
  }

  /** Bit z of a number. */
  function BitOf(n: nat, z: nat): nat {
    if z == 0 then n % 2 else BitOf(n / 2, z - 1)
  }

  lemma {:induction false} BitOfValue(s: seq<bool>, z: nat)
    requires z < |s|
    ensures BitOf(Value(s), z) == if s[z] then 1 else 0
  {
    assert Value(s) / 2 == Value(s[1..]);
    if z > 0 {
      BitOfValue(s[1..], z - 1);
    }
  }

  function Zeros(k: nat): (r: seq<bool>)
    ensures |r| == k
  {
    seq(k, _ => false)
  }

  lemma {:induction false} ZeroBits(k: nat)
    ensures ToBits(0, k) == Zeros(k)
  {
    if k > 0 {
      ZeroBits(k - 1);
      assert [false] + Zeros(k - 1) == Zeros(k);
    }
  }

  /** Multiplying by 2^j puts j zeros in front. */
  lemma {:induction false} ShiftedBits(n: nat, j: nat, k: nat)
    ensures ToBits(n * Exp2(j), j + k) == Zeros(j) + ToBits(n, k)
  {
    if j == 0 {
      assert n * Exp2(0) == n;
    } else {
      var m := n * Exp2(j - 1);
      assert n * Exp2(j) == 2 * m;
      ShiftedBits(n, j - 1, k);
      assert [false] + Zeros(j - 1) == Zeros(j);
      assert ToBits(2 * m, j + k) == [false] + ToBits(m, j - 1 + k);
    }
  }

  function BytesToBits(s: seq<Byte>): (r: seq<bool>)
    ensures |r| == 8 * |s|
  {
    if s == [] then [] else ToBits(s[0], 8) + BytesToBits(s[1..])
  }

  lemma {:induction false} BytesToBitsConcat(s: seq<Byte>, t: seq<Byte>)
    ensures BytesToBits(s + t) == BytesToBits(s) + BytesToBits(t)
  {
    if s == [] {
      assert s + t == t;
    } else {
      assert (s + t)[1..] == s[1..] + t;
      BytesToBitsConcat(s[1..], t);
    }
  }

  lemma Middle(s: seq<bool>, t: seq<bool>, u: seq<bool>)
    ensures (s + t + u)[|s|..|s| + |t|] == t
  {
  }

  lemma BytesToBitsSlice(s: seq<Byte>, i: nat, j: nat)
    requires i <= j <= |s|
    ensures BytesToBits(s[i..j]) == BytesToBits(s)[8 * i..8 * j]
  {
    hide *;
    assert s[..i] + s[i..j] + s[j..] == s;
    BytesToBitsConcat(s[..i], s[i..j]);
    BytesToBitsConcat(s[..i] + s[i..j], s[j..]);
    Middle(BytesToBits(s[..i]), BytesToBits(s[i..j]), BytesToBits(s[j..]));
  }

  lemma {:induction false} BytesToBitsInjective(s: seq<Byte>, t: seq<Byte>)
    requires BytesToBits(s) == BytesToBits(t)
    ensures s == t
  {
    assert |s| == |t|;
    if s != [] {
      assert ToBits(s[0], 8) == BytesToBits(s)[..8] == BytesToBits(t)[..8] == ToBits(t[0], 8);
      ByteOfBits(s[0]);
      ByteOfBits(t[0]);
      assert BytesToBits(s[1..]) == BytesToBits(s)[8..] == BytesToBits(t)[8..] == BytesToBits(t[1..]);
      BytesToBitsInjective(s[1..], t[1..]);
    }
  }

  lemma {:induction false} ValueOfBits(n: nat, k: nat)
    requires n < Exp2(k)
    ensures Value(ToBits(n, k)) == n
  {
    if k > 0 {
      ValueOfBits(n / 2, k - 1);
      assert ToBits(n, k)[1..] == ToBits(n / 2, k - 1);
    }
  }

  lemma ByteOfBits(b: Byte)
    ensures Value(ToBits(b, 8)) == b
  {
    assert Exp2(8) == 256;
    ValueOfBits(b, 8);
  }

  /** binary.LittleEndian. */
  function LittleEndian(s: seq<Byte>): nat {
    if s == [] then 0 else s[0] + 256 * LittleEndian(s[1..])
  }

  lemma {:induction false} ByteThenRest(b: Byte, n: nat, j: nat, k: nat)
    requires b < Exp2(j)
    ensures ToBits(b + Exp2(j) * n, j + k) == ToBits(b, j) + ToBits(n, k)
    decreases j
  {
    if j == 0 {
      assert b + Exp2(0) * n == n;
    } else {
      var h := Exp2(j - 1) * n;
      assert Exp2(j) * n == 2 * h;
      ByteThenRest(b / 2, n, j - 1, k);
      assert (b + 2 * h) / 2 == b / 2 + h;
      assert (b + 2 * h) % 2 == b % 2;
    }
  }

  lemma {:induction false} LittleEndianBits(s: seq<Byte>)
    ensures ToBits(LittleEndian(s), 8 * |s|) == BytesToBits(s)
  {
    if s != [] {
      assert Exp2(8) == 256;
      ByteThenRest(s[0], LittleEndian(s[1..]), 8, 8 * (|s| - 1));
      LittleEndianBits(s[1..]);
    }
  }

  /** a ^ b on bytes. */
  function ByteXor(a: Byte, b: Byte): Byte {
    var s := seq(8, i requires 0 <= i < 8 => ToBits(a, 8)[i] != ToBits(b, 8)[i]);
    assert Value(s) < 256 by { ValueBounded(s); assert Exp2(8) == 256; }
    Value(s)
  }

  lemma ByteXorZero(b: Byte)
    ensures ByteXor(0, b) == b
  {
    ZeroBits(8);
    var s := seq(8, i requires 0 <= i < 8 => ToBits(0, 8)[i] != ToBits(b, 8)[i]);
    assert s == ToBits(b, 8);
    ByteOfBits(b);
  }

  function BitsToBytes(s: seq<bool>): (r: seq<Byte>)
    requires |s| % 8 == 0
    ensures |r| == |s| / 8
  {
    if s == [] then []
    else
      ValueBounded(s[..8]);
      assert Exp2(8) == 256;
      [Value(s[..8])] + BitsToBytes(s[8..])
  }

  lemma {:induction false} BitsToBytesInverse(s: seq<bool>)
    requires |s| % 8 == 0
    ensures BytesToBits(BitsToBytes(s)) == s
  {
    if s != [] {
      BitsOfValue(s[..8]);
      BitsToBytesInverse(s[8..]);
      assert BitsToBytes(s)[1..] == BitsToBytes(s[8..]);
    }
  }
}
