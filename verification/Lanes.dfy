/** Lanes of 64 bits, bit z of a lane being bit z of the source's uint64. */
module Lanes {

  type Lane = l: seq<bool> | |l| == 64 witness seq(64, _ => false)

  function ZeroLane(): Lane {
    seq(64, _ => false)
  }

  function Xor(a: Lane, b: Lane): Lane {
    seq(64, z requires 0 <= z < 64 => a[z] != b[z])
  }

  /** ^a & b */
  function AndNot(a: Lane, b: Lane): Lane {
    seq(64, z requires 0 <= z < 64 => !a[z] && b[z])
  }

  /** bits.RotateLeft64: bit z comes from bit z - k. */
  function Rot(a: Lane, k: int): Lane {
    seq(64, z requires 0 <= z < 64 => a[(z - k) % 64])
  }

  lemma XorCancels(a: Lane, b: Lane)
    ensures Xor(Xor(a, b), b) == a
  {
  }

  lemma RotXor(a: Lane, b: Lane, k: int)
    ensures Rot(Xor(a, b), k) == Xor(Rot(a, k), Rot(b, k))
  {
  }

  lemma ShiftTwice(z: int, j: int, k: int)
    ensures ((z - k) % 64 - j) % 64 == (z - (j + k)) % 64
  {
    var q := (z - k) / 64;
    assert (z - k) % 64 - j == z - (j + k) + 64 * (-q);
  }

  lemma RotRot(a: Lane, j: int, k: int)
    ensures Rot(Rot(a, j), k) == Rot(a, j + k)
  {
    forall z | 0 <= z < 64
      ensures Rot(Rot(a, j), k)[z] == Rot(a, j + k)[z]
    {
      ShiftTwice(z, j, k);
    }
  }

  lemma RotFull(a: Lane, k: int)
    requires k % 64 == 0
    ensures Rot(a, k) == a
  {
    forall z | 0 <= z < 64
      ensures Rot(a, k)[z] == a[z]
    {
      assert (z - k) % 64 == z;
    }
  }
}
