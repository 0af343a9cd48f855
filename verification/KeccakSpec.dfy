/** The step mappings and the permutation of FIPS 202, sections 3.2 to 3.4,
    on a state of 25 lanes; lane (x, y) is at index 5y + x. */
module KeccakSpec {
  import opened Lanes

  type State = s: seq<Lane> | |s| == 25 witness seq(25, _ => ZeroLane())

  type Plane = p: seq<Lane> | |p| == 5 witness seq(5, _ => ZeroLane())

  function Sum5(a: Lane, b: Lane, c: Lane, d: Lane, e: Lane): Lane {
    Xor(Xor(Xor(Xor(a, b), c), d), e)
  }

  /** Section 3.2.1, step 1: the parity of each column. */
  function Parity(s: State): Plane {
    seq(5, x requires 0 <= x < 5 => Sum5(s[x], s[x + 5], s[x + 10], s[x + 15], s[x + 20]))
  }

  /** Section 3.2.1, step 2. */
  function Effect(c: Plane): Plane {
    seq(5, x requires 0 <= x < 5 => Xor(c[(x - 1) % 5], Rot(c[(x + 1) % 5], 1)))
  }

  function AddPlane(s: State, d: Plane): State {
    seq(25, i requires 0 <= i < 25 => Xor(s[i], d[i % 5]))
  }

  function Theta(s: State): State {
    AddPlane(s, Effect(Parity(s)))
  }

  /** Table 2: the rho offset of each lane. */
  const OFFSETS: seq<int> := [
    0, 1, 190, 28, 91,
    36, 300, 6, 55, 276,
    3, 10, 171, 153, 231,
    105, 45, 15, 21, 136,
    210, 66, 253, 120, 78]

  function Rho(s: State): State {
    seq(25, i requires 0 <= i < 25 => Rot(s[i], OFFSETS[i]))
  }

  /** Section 3.2.3: A'[x, y] = A[(x + 3y) mod 5, x]. */
  function PiSource(i: nat): (j: nat)
    requires i < 25
    ensures j < 25
  {
    5 * (i % 5) + (i % 5 + 3 * (i / 5)) % 5
  }

  function Pi(s: State): State {
    seq(25, i requires 0 <= i < 25 => s[PiSource(i)])
  }

  function Row(i: nat, k: nat): (j: nat)
    requires i < 25
    ensures j < 25 && j / 5 == i / 5 && j % 5 == (i + k) % 5
  {
    5 * (i / 5) + (i + k) % 5
  }

  /** Section 3.2.4. */
  function Chi(s: State): State {
    seq(25, i requires 0 <= i < 25 => Xor(s[i], AndNot(s[Row(i, 1)], s[Row(i, 2)])))
  }

  datatype Register = Register(b0: bool, b1: bool, b2: bool, b3: bool, b4: bool, b5: bool, b6: bool, b7: bool)

  /** Algorithm 5, steps 3a to 3f: one step of the register. */
  function Lfsr(r: Register): Register {
    Register(r.b7, r.b0, r.b1, r.b2, r.b3 != r.b7, r.b4 != r.b7, r.b5 != r.b7, r.b6)
  }

  function RegisterAt(t: nat): Register {
    if t == 0 then Register(true, false, false, false, false, false, false, false) else Lfsr(RegisterAt(t - 1))
  }

  /** Algorithm 5. */
  function Rc(t: nat): bool {
    RegisterAt(t % 255).b0
  }

  /** Algorithm 6, steps 2 and 3: bit 2^j - 1 is rc(j + 7 ir), every other is zero. */
  function RoundConstant(ir: nat): Lane {
    ZeroLane()[0 := Rc(7 * ir)][1 := Rc(7 * ir + 1)][3 := Rc(7 * ir + 2)][7 := Rc(7 * ir + 3)]
      [15 := Rc(7 * ir + 4)][31 := Rc(7 * ir + 5)][63 := Rc(7 * ir + 6)]
  }

  function Iota(s: State, ir: nat): State {
    s[0 := Xor(s[0], RoundConstant(ir))]
  }

  /** Section 3.3. */
  function Rnd(s: State, ir: nat): State {
    Iota(Chi(Pi(Rho(Theta(s)))), ir)
  }

  /** Section 3.3, for the first n of the 24 rounds of KECCAK-f[1600] (section 3.4). */
  function Rounds(s: State, n: nat): State {
    if n == 0 then s else Rnd(Rounds(s, n - 1), n - 1)
  }

  function KeccakF(s: State): State {
    Rounds(s, 24)
  }
}
