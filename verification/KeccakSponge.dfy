/** The sponge of FIPS 202, section 4, over pad10*1, section 5.1, with rate 1088
    and capacity 512: KECCAK[512](M, 256), without the SHA-3 suffix bits. */
module KeccakSponge {
  import opened Bits
  import opened Lanes
  import opened KeccakSpec

  const RATE: nat := 1088

  function ZeroState(): State {
    seq(25, _ => ZeroLane())
  }

  /** Algorithm 8, step 6: S xor (P || 0^c), before f. */
  function AddBlock(s: State, p: seq<bool>): State
    requires |p| == RATE
  {
    seq(25, i requires 0 <= i < 25 => if i < 17 then Xor(s[i], p[64 * i..64 * i + 64]) else s[i])
  }

  /** Algorithm 8, steps 5 and 6: the blocks of p into s. */
  function Absorb(s: State, p: seq<bool>): State
    decreases |p|
  {
    if |p| < RATE then s else Absorb(KeccakF(AddBlock(s, p[..RATE])), p[RATE..])
  }

  /** Algorithm 9: pad10*1(1088, m). */
  function Pad(m: nat): (r: seq<bool>)
  {
    [true] + Zeros((0 - m - 2) % RATE) + [true]
  }

  /** Algorithm 8, steps 7 to 10: 256 output bits are within one block. */
  function Squeeze(s: State): (digest: seq<bool>)
    ensures |digest| == 256
  {
    var a: seq<bool>, b: seq<bool>, c: seq<bool>, d: seq<bool> := s[0], s[1], s[2], s[3];
    a + b + c + d
  }

  function Keccak512(message: seq<bool>): seq<bool> {
    Squeeze(Absorb(ZeroState(), message + Pad(|message|)))
  }

  lemma PaddedLength(m: nat)
    ensures (m + |Pad(m)|) % RATE == 0
    ensures 2 <= |Pad(m)| <= RATE + 1
  {
    var q := (0 - m - 2) / RATE;
    assert 0 - m - 2 == RATE * q + (0 - m - 2) % RATE;
    assert m + |Pad(m)| == RATE * (-q);
  }

  /** No two messages pad to the same string: the last one bit but one is where
      the message ended. */
  lemma PaddingInjective(a: seq<bool>, b: seq<bool>)
    requires a + Pad(|a|) == b + Pad(|b|)
    ensures a == b
  {
    if |a| < |b| {
      PaddingEndsMessage(a, b);
    } else if |b| < |a| {
      PaddingEndsMessage(b, a);
    } else {
      assert a == (a + Pad(|a|))[..|a|];
      assert b == (b + Pad(|b|))[..|b|];
    }
  }

  lemma PaddingEndsMessage(a: seq<bool>, b: seq<bool>)
    requires |a| < |b|
    ensures a + Pad(|a|) != b + Pad(|b|)
  {
    var u, v := a + Pad(|a|), b + Pad(|b|);
    assert v[|b|];
    if |u| == |v| {
      assert !u[|b|];
    }
  }
}
