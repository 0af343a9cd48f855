/** internal/config/wallet.go, decodeBase58, and its inverse in wallet_test.go:
    Monero's base58, in blocks of 8 bytes and 11 characters. */
module Base58 {
  import opened Bits
  import opened Positional

  const ALPHABET: string :=
    "123456789" + "ABCDEFGH" + "JKLMN" + "PQRSTUVWXYZ" + "abcdefghijk" + "mnopqrstuvwxyz"

  const TWO64: nat := 0x1_0000_0000_0000_0000

  datatype Decoded = Bytes(bytes: seq<Byte>) | Refused

  /** strings.IndexRune from i on; -1 when there is none. */
  function IndexFrom(c: char, i: nat): (r: int)
    decreases 58 - i
  {
    if i >= 58 then -1 else if ALPHABET[i] == c then i else IndexFrom(c, i + 1)
  }

  /** uint64(strings.IndexRune(base58, c)), where -1 wraps around. */
  function DigitOf(c: char): nat {
    if IndexFrom(c, 0) < 0 then TWO64 - 1 else IndexFrom(c, 0)
  }

  function DigitsOf(s: string): seq<nat> {
    seq(|s|, i requires 0 <= i < |s| => DigitOf(s[i]))
  }

  predicate InAlphabet(s: string) {
    forall c :: c in s ==> c in ALPHABET
  }

  function Value58(s: string): nat {
    Number(DigitsOf(s), 58)
  }

  /** How many bytes a block of n characters holds; 0 where there is no such block. */
  function BytesFor(n: nat): nat {
    if n == 2 then 1 else if n == 3 then 2 else if n == 5 then 3 else if n == 6 then 4
    else if n == 7 then 5 else if n == 9 then 6 else if n == 10 then 7 else if n == 11 then 8 else 0
  }

  function CharsFor(n: nat): nat {
    if n == 1 then 2 else if n == 2 then 3 else if n == 3 then 5 else if n == 4 then 6
    else if n == 5 then 7 else if n == 6 then 9 else if n == 7 then 10 else if n == 8 then 11 else 0
  }

  // ---- the alphabet ----

  /** The code of the character for digit d: the alphabet is six runs. */
  function CodeOf(d: nat): nat {
    if d < 9 then '1' as nat + d
    else if d < 17 then 'A' as nat + d - 9
    else if d < 22 then 'J' as nat + d - 17
    else if d < 33 then 'P' as nat + d - 22
    else if d < 44 then 'a' as nat + d - 33
    else 'm' as nat + d - 44
  }

  lemma LowCodes(d: nat)
    requires d < 22
    ensures |ALPHABET| == 58 && ALPHABET[d] as nat == CodeOf(d)
  {
  }

  lemma HighCodes(d: nat)
    requires 22 <= d < 58
    ensures |ALPHABET| == 58 && ALPHABET[d] as nat == CodeOf(d)
  {
  }

  lemma AlphabetCodes(d: nat)
    requires d < 58
    ensures |ALPHABET| == 58 && ALPHABET[d] as nat == CodeOf(d)
  {
    hide *;
    if d < 22 {
      LowCodes(d);
    } else {
      HighCodes(d);
    }
  }

  function DigitOfCode(n: nat): (d: nat)
    ensures '1' as nat <= n <= 'z' as nat ==> d < 58
  {
    if n <= '9' as nat then (if n < '1' as nat then 0 else n - '1' as nat)
    else if n < 'I' as nat then (if n < 'A' as nat then 9 else n - 'A' as nat + 9)
    else if n < 'O' as nat then (if n < 'J' as nat then 17 else n - 'J' as nat + 17)
    else if n <= 'Z' as nat then (if n < 'P' as nat then 22 else n - 'P' as nat + 22)
    else if n < 'l' as nat then (if n < 'a' as nat then 33 else n - 'a' as nat + 33)
    else if n < 'm' as nat then 44
    else n - 'm' as nat + 44
  }

  predicate LetterOrDigit(c: char) {
    '0' <= c <= '9' || 'A' <= c <= 'Z' || 'a' <= c <= 'z'
  }

  lemma CodesAscend(i: nat, j: nat)
    requires i < j < 58
    ensures CodeOf(i) < CodeOf(j)
  {
  }

  lemma CodeIsPlain(d: nat, c: char)
    requires d < 58 && CodeOf(d) == c as nat
    ensures LetterOrDigit(c) && c != '0' && c != 'O' && c != 'I' && c != 'l'
  {
  }

  lemma PlainHasCode(c: char)
    requires LetterOrDigit(c) && c != '0' && c != 'O' && c != 'I' && c != 'l'
    ensures DigitOfCode(c as nat) < 58 && CodeOf(DigitOfCode(c as nat)) == c as nat
  {
  }

  /** The digits are in the order of their characters' codes, and are the digits and letters
      but for those that are taken for one another. */
  lemma AlphabetIs(c: char)
    ensures |ALPHABET| == 58 && forall i, j :: 0 <= i < j < 58 ==> ALPHABET[i] < ALPHABET[j]
    ensures c in ALPHABET <==> LetterOrDigit(c) && c != '0' && c != 'O' && c != 'I' && c != 'l'
  {
    hide *;
    AlphabetCodes(0);
    forall i, j | 0 <= i < j < 58 ensures ALPHABET[i] < ALPHABET[j] {
      AlphabetCodes(i);
      AlphabetCodes(j);
      CodesAscend(i, j);
    }
    if c in ALPHABET {
      var d :| 0 <= d < 58 && ALPHABET[d] == c;
      AlphabetCodes(d);
      CodeIsPlain(d, c);
    } else if LetterOrDigit(c) && c != '0' && c != 'O' && c != 'I' && c != 'l' {
      PlainHasCode(c);
      AlphabetCodes(DigitOfCode(c as nat));
    }
  }

  lemma {:induction false} IndexFound(c: char, i: nat)
    requires i <= 58
    ensures IndexFrom(c, i) >= 0 ==> i <= IndexFrom(c, i) < 58 && ALPHABET[IndexFrom(c, i)] == c
    ensures IndexFrom(c, i) < 0 ==> forall d :: i <= d < 58 ==> ALPHABET[d] != c
    decreases 58 - i
  {
    hide ALPHABET;
    if i < 58 {
      IndexFound(c, i + 1);
    }
  }

  lemma DigitOfDigit(d: nat)
    requires d < 58
    ensures DigitOf(ALPHABET[d]) == d
  {
    var c := ALPHABET[d];
    IndexFound(c, 0);
    AlphabetCodes(d);
    var e := IndexFrom(c, 0);
    AlphabetCodes(e);
    assert CodeOf(e) == CodeOf(d);
  }

  lemma DigitInAlphabet(c: char)
    requires c in ALPHABET
    ensures DigitOf(c) < 58 && ALPHABET[DigitOf(c)] == c
  {
    hide ALPHABET;
    IndexFound(c, 0);
    AlphabetCodes(0);
  }

  lemma DigitsInAlphabet(s: string)
    requires InAlphabet(s)
    ensures AreDigits(DigitsOf(s), 58)
  {
    hide ALPHABET, DigitOf;
    forall i | 0 <= i < |s|
      ensures DigitOf(s[i]) < 58
    {
      DigitInAlphabet(s[i]);
    }
  }

  // ---- blocks ----

  function EncodeBlock(b: seq<Byte>): (s: string)
    ensures |s| == CharsFor(|b|)
  {
    var ds := Digits(Number(b, 256), 58, CharsFor(|b|));
    DigitsInRange(Number(b, 256), 58, CharsFor(|b|));
    seq(|ds|, i requires 0 <= i < |ds| => ALPHABET[ds[i]])
  }

  function Encode(b: seq<Byte>): string {
    if b == [] then []
    else if |b| < 8 then EncodeBlock(b)
    else EncodeBlock(b[..8]) + Encode(b[8..])
  }

  function BytesOf(v: nat, n: nat): (b: seq<Byte>)
    ensures |b| == n
  {
    DigitsInRange(v, 256, n);
    Digits(v, 256, n)
  }

  function DecodeBlock(s: string): Decoded {
    var size := BytesFor(|s|);
    if size == 0 || Value58(s) >= Power(256, size) then Refused else Bytes(BytesOf(Value58(s), size))
  }

  function Decode(s: string): Decoded {
    if s == [] then Bytes([])
    else
      var n := if |s| < 11 then |s| else 11;
      var first, rest := DecodeBlock(s[..n]), Decode(s[n..]);
      if first.Bytes? && rest.Bytes? then Bytes(first.bytes + rest.bytes) else Refused
  }

  lemma PowersFit(n: nat)
    requires 1 <= n <= 8
    ensures BytesFor(CharsFor(n)) == n
    ensures Power(256, n) <= Power(58, CharsFor(n))
  {
    SmallPowers58();
    SmallPowers256();
  }

  lemma SmallPowers58()
    ensures Power(58, 2) == 3364
    ensures Power(58, 3) == 195112
    ensures Power(58, 5) == 656356768
    ensures Power(58, 6) == 38068692544
    ensures Power(58, 7) == 2207984167552
    ensures Power(58, 9) == 7427658739644928
    ensures Power(58, 10) == 430804206899405824
    ensures Power(58, 11) == 24986644000165537792
  {
    assert Power(58, 1) == 58;
    assert Power(58, 4) == 11316496;
    assert Power(58, 8) == 128063081718016;
  }

  lemma SmallPowers256()
    ensures Power(256, 1) == 0x100
    ensures Power(256, 2) == 0x1_0000
    ensures Power(256, 3) == 0x100_0000
    ensures Power(256, 4) == 0x1_0000_0000
    ensures Power(256, 5) == 0x100_0000_0000
    ensures Power(256, 6) == 0x1_0000_0000_0000
    ensures Power(256, 7) == 0x100_0000_0000_0000
    ensures Power(256, 8) == TWO64
  {
  }

  lemma DecodeEncodedBlock(b: seq<Byte>)
    requires 1 <= |b| <= 8
    ensures DecodeBlock(EncodeBlock(b)) == Bytes(b)
    ensures InAlphabet(EncodeBlock(b))
  {
    hide ALPHABET, DigitOf, CodeOf, Power, Number, Digits;
    var n := CharsFor(|b|);
    var v := Number(b, 256);
    var ds := Digits(v, 58, n);
    var s := EncodeBlock(b);
    AlphabetCodes(0);
    PowersFit(|b|);
    NumberBounded(b, 256);
    DigitsInRange(v, 58, n);
    forall i | 0 <= i < n
      ensures DigitsOf(s)[i] == ds[i]
    {
      DigitOfDigit(ds[i]);
    }
    assert DigitsOf(s) == ds;
    NumberOfDigits(v, 58, n);
    DigitsOfNumber(b, 256);
  }

  lemma EncodeDecodedBlock(s: string)
    requires InAlphabet(s) && DecodeBlock(s).Bytes?
    ensures EncodeBlock(DecodeBlock(s).bytes) == s
    ensures |DecodeBlock(s).bytes| == BytesFor(|s|)
  {
    hide ALPHABET, DigitOf, CodeOf, Power, Number, Digits;
    var size := BytesFor(|s|);
    var b := DecodeBlock(s).bytes;
    NumberOfDigits(Value58(s), 256, size);
    DigitsInAlphabet(s);
    DigitsOfNumber(DigitsOf(s), 58);
    assert Digits(Number(b, 256), 58, |s|) == DigitsOf(s);
    forall i | 0 <= i < |s|
      ensures EncodeBlock(b)[i] == s[i]
    {
      assert s[i] in s;
      DigitInAlphabet(s[i]);
    }
  }

  // ---- whole strings ----

  function BlockLength(s: string): nat {
    if |s| < 11 then |s| else 11
  }

  lemma DecodeStep(s: string)
    requires s != []
    ensures var n := BlockLength(s);
            var first, rest := DecodeBlock(s[..n]), Decode(s[n..]);
            Decode(s) == if first.Bytes? && rest.Bytes? then Bytes(first.bytes + rest.bytes) else Refused
  {
    hide DecodeBlock;
  }

  /** decode(encode(b)) = b. */
  lemma {:induction false} DecodeEncode(b: seq<Byte>)
    ensures Decode(Encode(b)) == Bytes(b)
    ensures InAlphabet(Encode(b))
  {
    hide Decode, DecodeBlock, EncodeBlock;
    if b == [] {
      assert Decode([]) == Bytes([]) by { DecodeNothing(); }
    } else {
      var k := if |b| < 8 then |b| else 8;
      var first, rest := EncodeBlock(b[..k]), Encode(b[k..]);
      assert b[..k] + b[k..] == b;
      DecodeEncode(b[k..]);
      DecodeEncodedBlock(b[..k]);
      assert Encode(b) == first + rest by {
        if |b| < 8 {
          assert b[..k] == b;
          assert rest == [];
        }
      }
      assert (first + rest)[..|first|] == first && (first + rest)[|first|..] == rest;
      if |b| < 8 {
        assert rest == [];
      }
      DecodeStep(Encode(b));
    }
  }

  lemma DecodeNothing()
    ensures Decode([]) == Bytes([])
  {
  }

  /** encode(decode(s)) = s for every alphabet string decode accepts. */
  lemma {:induction false} EncodeDecode(s: string)
    requires InAlphabet(s) && Decode(s).Bytes?
    ensures Encode(Decode(s).bytes) == s
  {
    hide Decode, DecodeBlock, EncodeBlock;
    if s == [] {
      DecodeNothing();
    } else {
      var n := BlockLength(s);
      DecodeStep(s);
      var first, rest := DecodeBlock(s[..n]), Decode(s[n..]);
      EncodeDecodedBlock(s[..n]);
      EncodeDecode(s[n..]);
      var b := Decode(s).bytes;
      assert first.bytes + rest.bytes == b;
      assert |first.bytes| == BytesFor(n) > 0 by { SizeOfDecoded(s[..n]); }
      if |s| < 11 {
        DecodeNothing();
        assert b == first.bytes;
      } else {
        assert b[..8] == first.bytes && b[8..] == rest.bytes;
      }
      assert s[..n] + s[n..] == s;
    }
  }

  lemma SizeOfDecoded(s: string)
    requires DecodeBlock(s).Bytes?
    ensures |DecodeBlock(s).bytes| == BytesFor(|s|) > 0
  {
    hide Power, Value58;
  }

  /** Block i of s: 11 characters, or what is left. */
  function BlockAt(s: string, i: nat): string
    requires 11 * i < |s|
  {
    s[11 * i..][..BlockLength(s[11 * i..])]
  }

  predicate RefusedBlock(b: string) {
    BytesFor(|b|) == 0 || Value58(b) >= Power(256, BytesFor(|b|))
  }

  /** decode refuses exactly the strings with a block of no byte length, or whose
      value does not fit its bytes. */
  lemma {:induction false} DecodeRefuses(s: string)
    ensures Decode(s) == Refused <==> exists i: nat :: 11 * i < |s| && RefusedBlock(BlockAt(s, i))
  {
    hide Value58, Power, BytesFor;
    if s == [] {
      DecodeNothing();
    } else {
      var n := BlockLength(s);
      DecodeStep(s);
      DecodeRefuses(s[n..]);
      assert s[11 * 0..] == s;
      assert BlockAt(s, 0) == s[..n];
      forall i: nat | 11 * i < |s[n..]|
        ensures 11 * (i + 1) < |s| && BlockAt(s, i + 1) == BlockAt(s[n..], i)
      {
        assert s[n..][11 * i..] == s[11 * (i + 1)..];
      }
      forall i: nat | 11 * i < |s| && i > 0
        ensures 11 * (i - 1) < |s[n..]| && BlockAt(s, i) == BlockAt(s[n..], i - 1)
      {
        assert s[n..][11 * (i - 1)..] == s[11 * i..];
      }
    }
  }

  // ---- the loops ----

  /** The source's block loop: v * 58 + digit with the overflow of both steps detected. */
  method BlockValue(b: string) returns (v: nat, ok: bool)
    ensures ok <==> Value58(b) < TWO64
    ensures ok ==> v == Value58(b)
  {
    hide *;
    ghost var ds := DigitsOf(b);
    DigitsAre(b);
    TwoToThe64();
    v := 0;
    assert Number(ds[..0], 58) == 0 by { NothingRead(ds); }
    for i := 0 to |b|
      invariant v == Number(ds[..i], 58) < TWO64
    {
      NumberStep(ds, 58, i);
      var digit := DigitOf(b[i]);
      var hi, lo := (v * 58) / TWO64, (v * 58) % TWO64;
      var carry := (lo + digit) / TWO64;
      lo := (lo + digit) % TWO64;
      if hi != 0 || carry != 0 {
        PrefixNoLarger(ds, 58, i + 1);
        return 0, false;
      }
      v := lo;
    }
    assert ds[..|b|] == ds;
    return v, true;
  }

  lemma TwoToThe64()
    ensures TWO64 == 0x1_0000_0000_0000_0000
  {
  }

  lemma NothingRead(ds: seq<nat>)
    ensures Number(ds[..0], 58) == 0
  {
  }

  lemma DigitsAre(b: string)
    ensures |DigitsOf(b)| == |b| && forall i :: 0 <= i < |b| ==> DigitsOf(b)[i] == DigitOf(b[i]) < TWO64
    ensures Value58(b) == Number(DigitsOf(b), 58)
  {
    hide ALPHABET, Number;
    forall i | 0 <= i < |b|
      ensures DigitOf(b[i]) < TWO64
    {
      IndexFound(b[i], 0);
    }
  }

  lemma BlockBytes(b: string, v: nat)
    requires BytesFor(|b|) > 0 && v == Value58(b) < TWO64
    ensures 1 <= BytesFor(|b|) <= 8 && Power(256, BytesFor(|b|)) > 0
    ensures BytesFor(|b|) == 8 ==> v < Power(256, 8)
    ensures DecodeBlock(b) == if v >= Power(256, BytesFor(|b|)) then Refused
        else Bytes(BytesOf(v, 8)[8 - BytesFor(|b|)..])
  {
    hide Value58, Digits;
    SmallPowers256();
    LastDigits(v, 256, 8, BytesFor(|b|));
  }

  lemma TooLarge(b: string)
    requires Value58(b) >= TWO64
    ensures DecodeBlock(b) == Refused
  {
    hide Value58, Digits;
    SmallPowers256();
  }

  lemma NoSize(b: string)
    requires BytesFor(|b|) == 0
    ensures DecodeBlock(b) == Refused
  {
  }

  function Joined(first: seq<Byte>, rest: Decoded): Decoded {
    if rest.Bytes? then Bytes(first + rest.bytes) else Refused
  }

  /** decodeBase58. */
  method DecodeBase58(s: string) returns (out: seq<Byte>, ok: bool)
    ensures ok <==> Decode(s).Bytes?
    ensures ok ==> out == Decode(s).bytes
  {
    hide *;
    out := [];
    var rest := s;
    JoinedNothing(Decode(s));
    while rest != []
      invariant Joined(out, Decode(rest)) == Decode(s)
    {
      var n := if |rest| < 11 then |rest| else 11;
      BlockStep(out, rest, n);
      var size := BytesFor(n);
      if size == 0 {
        NoSize(rest[..n]);
        return [], false;
      }
      var v, fits := BlockValue(rest[..n]);
      if !fits {
        TooLarge(rest[..n]);
        return [], false;
      }
      BlockBytes(rest[..n], v);
      QuotientZero(v, Power(256, size));
      if size < 8 && Quotient(v, Power(256, size)) != 0 {
        return [], false;
      }
      var block := BytesOf(v, 8);
      out := out + block[8 - size..];
      rest := rest[n..];
    }
    DecodeNothing();
    JoinedNothing2(out);
    return out, true;
  }

  lemma JoinedNothing(d: Decoded)
    ensures Joined([], d) == d
  {
    if d.Bytes? {
      assert [] + d.bytes == d.bytes;
    }
  }

  lemma JoinedNothing2(out: seq<Byte>)
    ensures Joined(out, Bytes([])) == Bytes(out)
  {
    assert out + [] == out;
  }

  lemma BlockStep(out: seq<Byte>, rest: string, n: nat)
    requires rest != [] && n == if |rest| < 11 then |rest| else 11
    ensures var first := DecodeBlock(rest[..n]);
            Joined(out, Decode(rest)) == if first.Bytes? then Joined(out + first.bytes, Decode(rest[n..])) else Refused
  {
    hide Decode, DecodeBlock;
    DecodeStep(rest);
    assert n == BlockLength(rest);
    var first, last := DecodeBlock(rest[..n]), Decode(rest[n..]);
    if first.Bytes? && last.Bytes? {
      assert out + (first.bytes + last.bytes) == out + first.bytes + last.bytes;
    }
  }
}
