/** internal/config/wallet.go: CheckAddress. */
module Wallet {
  import opened Base58
  import opened Bits
  import opened Keccak
  import opened KeccakSponge
  import opened Positional
  import opened Text

  datatype AddressError =
    NoError | Empty | Prefix | Length | Charset | Checksum | Subaddress | Integrated

  /** How many bytes of UTF-8 a string is: what len reports. */
  function ByteLength(s: string): nat {
    if s == [] then 0 else RuneLength(s[0]) + ByteLength(s[1..])
  }

  function RuneLength(c: char): nat {
    var n := c as int;
    if n < 0x80 then 1 else if n < 0x800 then 2 else if n < 0x1_0000 then 3 else 4
  }

  /** As UTF-8 encodes it: the shortest form with room for the code point, 7 bits in one byte
      and 11, 16 and 21 in two to four. */
  lemma RuneLengthMeans(c: char)
    ensures var bits, n := [0, 7, 11, 16, 21], RuneLength(c);
            1 <= n <= 4 && c as int < Exp2(bits[n]) && (n > 1 ==> c as int >= Exp2(bits[n - 1]))
  {
    assert Exp2(7) == 0x80;
    Exp2Adds(7, 4);
    Exp2Adds(11, 5);
    Exp2Adds(16, 5);
  }

  function Digest(data: seq<Byte>): (d: seq<Byte>)
    ensures |d| == 32
  {
    BitsToBytes(Squeeze(Absorb(ZeroState(), Padded(data))))
  }

  lemma DigestIsKeccak(data: seq<Byte>, out: seq<Byte>)
    requires BytesToBits(out) == Keccak512(BytesToBits(data))
    ensures out == Digest(data)
  {
    hide BytesToBits, BitsToBytes, Squeeze, Absorb, ZeroState, Padded, Keccak512;
    DigestOf(data);
    BitsToBytesInverse(Squeeze(Absorb(ZeroState(), Padded(data))));
    BytesToBitsInjective(out, Digest(data));
  }

  /** What a wallet writes for tag and payload p. */
  function Address(tag: Byte, p: seq<Byte>): string {
    Encode([tag] + p + Digest([tag] + p)[..4])
  }

  /** t is the address of some payload of a primary address or subaddress (64 bytes),
      or of an integrated address (72). */
  ghost predicate IsAddress(t: string, tag: Byte) {
    exists p: seq<Byte> :: (|p| == 64 || |p| == 72) && t == Address(tag, p)
  }

  // ---- lengths and first characters ----

  lemma {:induction false} EncodedLength(b: seq<Byte>)
    ensures |Encode(b)| == 11 * (|b| / 8) + CharsFor(|b| % 8)
  {
    hide EncodeBlock;
    if |b| >= 8 {
      EncodedLength(b[8..]);
    }
  }

  lemma {:induction false} DecodedLength(s: string)
    requires Decode(s).Bytes?
    ensures |Decode(s).bytes| == 8 * (|s| / 11) + BytesFor(|s| % 11)
  {
    hide Decode, DecodeBlock;
    if s == [] {
      DecodeNothing();
    } else {
      DecodeStep(s);
      SizeOfDecoded(s[..BlockLength(s)]);
      DecodedLength(s[BlockLength(s)..]);
    }
  }

  lemma Distribute(base: nat, d: nat, p: nat, n: nat)
    ensures base * (d * p + n) == d * (base * p) + base * n
  {
  }

  lemma {:induction false} LeadingDigit(ds: seq<nat>, base: nat)
    requires ds != []
    ensures Number(ds, base) == ds[0] * Power(base, |ds| - 1) + Number(ds[1..], base)
  {
    var n := |ds| - 1;
    if n == 0 {
      assert ds[..0] == [] && ds[1..] == [];
    } else {
      var init := ds[..n];
      LeadingDigit(init, base);
      Distribute(base, ds[0], Power(base, n - 1), Number(init[1..], base));
      NumberStep(ds[1..], base, n - 1);
      assert init[1..] == ds[1..][..n - 1];
      assert ds[1..][..n] == ds[1..];
    }
  }

  /** The first character of an encoding whose first byte is tag: the digits of
      tag * 2^56 .. (tag + 1) * 2^56 - 1 in base 58 all begin alike. */
  lemma FirstCharacter(b: seq<Byte>)
    requires |b| >= 8
    ensures Encode(b) != []
    ensures b[0] == 18 || b[0] == 19 ==> Encode(b)[0] == '4'
    ensures b[0] == 42 ==> Encode(b)[0] == '8'
  {
    var first := b[..8];
    var v := Number(first, 256);
    FirstBlockRange(first);
    FirstDigit(v);
    var d := Digits(v, 58, 11)[0];
    assert Encode(b)[0] == ALPHABET[d] by { FirstOfBlock(b, d); }
    hide *;
    if b[0] == 18 || b[0] == 19 {
      assert d == 3;
    } else if b[0] == 42 {
      assert d == 7;
    }
    FourAndEight();
  }

  lemma FourAndEight()
    ensures |ALPHABET| == 58 && ALPHABET[3] == '4' && ALPHABET[7] == '8'
  {
  }

  lemma FirstBlockFirst(b: seq<Byte>)
    requires |b| >= 8
    ensures Encode(b) != [] && |EncodeBlock(b[..8])| == 11 && Encode(b)[0] == EncodeBlock(b[..8])[0]
  {
    hide EncodeBlock;
  }

  lemma FirstOfEncodeBlock(b: seq<Byte>, d: nat)
    requires |b| == 8 && d == Digits(Number(b, 256), 58, 11)[0]
    ensures d < 58 == |ALPHABET| && EncodeBlock(b) != [] && EncodeBlock(b)[0] == ALPHABET[d]
  {
    FourAndEight();
    DigitsInRange(Number(b, 256), 58, 11);
    assert CharsFor(8) == 11;
    hide ALPHABET, Digits, Number, CharsFor, Power;
  }

  lemma FirstOfBlock(b: seq<Byte>, d: nat)
    requires |b| >= 8 && d == Digits(Number(b[..8], 256), 58, 11)[0]
    ensures d < 58 == |ALPHABET| && Encode(b) != [] && Encode(b)[0] == ALPHABET[d]
  {
    hide *;
    FirstBlockFirst(b);
    FirstOfEncodeBlock(b[..8], d);
  }

  lemma FirstBlockRange(b: seq<Byte>)
    requires |b| == 8
    ensures var t: nat := b[0];
            t * 0x100_0000_0000_0000 <= Number(b, 256) < (t + 1) * 0x100_0000_0000_0000
  {
    LeadingDigit(b, 256);
    NumberBounded(b[1..], 256);
    SmallPowers256();
    hide Number, Power;
  }

  lemma FirstDigit(v: nat)
    requires v < TWO64
    ensures var d := Digits(v, 58, 11)[0];
            d * 430804206899405824 <= v < (d + 1) * 430804206899405824
  {
    SmallPowers58();
    NumberOfDigits(v, 58, 11);
    DigitsInRange(v, 58, 11);
    var ds := Digits(v, 58, 11);
    LeadingDigit(ds, 58);
    NumberBounded(ds[1..], 58);
    hide Number, Power, Digits;
  }

  // ---- what an accepted string is ----

  function Body(raw: seq<Byte>): seq<Byte>
    requires |raw| >= 4
  {
    raw[..|raw| - 4]
  }

  /** The decoded string ends in the checksum of what comes before. */
  predicate ChecksumHolds(t: string) {
    var d := Decode(t);
    d.Bytes? && |d.bytes| >= 5 && Digest(Body(d.bytes))[..4] == d.bytes[|d.bytes| - 4..]
  }

  lemma AddressIsWellFormed(tag: Byte, p: seq<Byte>)
    requires |p| == 64 || |p| == 72
    ensures var t := Address(tag, p);
            && |t| == (if |p| == 64 then 95 else 106)
            && InAlphabet(t) && ChecksumHolds(t)
            && Decode(t).bytes[0] == tag
            && t != [] && (tag == 18 || tag == 19 ==> t[0] == '4') && (tag == 42 ==> t[0] == '8')
  {
    hide Encode, Decode, Digest, ALPHABET;
    var raw := [tag] + p + Digest([tag] + p)[..4];
    DecodeEncode(raw);
    EncodedLength(raw);
    FirstCharacter(raw);
    assert Body(raw) == [tag] + p;
  }

  lemma WellFormedIsAddress(t: string)
    requires InAlphabet(t) && (|t| == 95 || |t| == 106) && ChecksumHolds(t)
    ensures IsAddress(t, Decode(t).bytes[0])
    ensures |Decode(t).bytes| == if |t| == 95 then 69 else 77
  {
    hide Encode, Decode, Digest, ALPHABET;
    var raw := Decode(t).bytes;
    DecodedLength(t);
    EncodeDecode(t);
    var tag, p := raw[0], raw[1..|raw| - 4];
    assert Body(raw) == [tag] + p;
    assert raw == [tag] + p + Digest([tag] + p)[..4];
    assert t == Address(tag, p);
  }

  /** An address has one tag. */
  lemma TagOfAddress(t: string, tag: Byte)
    requires IsAddress(t, tag)
    ensures InAlphabet(t) && (|t| == 95 || |t| == 106) && ChecksumHolds(t)
    ensures Decode(t).bytes[0] == tag
    ensures tag == 18 || tag == 19 ==> t[0] == '4'
    ensures tag == 42 ==> t[0] == '8'
  {
    hide ChecksumHolds, Address, InAlphabet, Decode;
    var p: seq<Byte> :| (|p| == 64 || |p| == 72) && t == Address(tag, p);
    AddressIsWellFormed(tag, p);
  }

  lemma {:induction false} AlphabetIsAscii(s: string)
    requires InAlphabet(s)
    ensures ByteLength(s) == |s|
  {
    hide ALPHABET;
    if s != [] {
      assert s[0] in s;
      DigitInAlphabet(s[0]);
      AlphabetCodes(DigitOf(s[0]));
      assert forall c :: c in s[1..] ==> c in s;
      AlphabetIsAscii(s[1..]);
    }
  }

  predicate PrefixAllowed(t: string) {
    t != [] && (t[0] == '4' || t[0] == '8')
  }

  predicate LengthAllowed(t: string) {
    ByteLength(t) == 95 || ByteLength(t) == 106
  }

  /** The tests that come before the checksum never turn an address away. */
  lemma AddressPassesEarlyTests(t: string, tag: Byte)
    requires IsAddress(t, tag)
    ensures LengthAllowed(t) && InAlphabet(t)
    ensures tag == 18 || tag == 19 || tag == 42 ==> PrefixAllowed(t)
  {
    hide ChecksumHolds, IsAddress, ByteLength;
    TagOfAddress(t, tag);
    AlphabetIsAscii(t);
  }

  lemma AnyTag(t: string)
    ensures forall tag: Byte :: IsAddress(t, tag) ==>
      && LengthAllowed(t) && InAlphabet(t) && (tag == 18 || tag == 19 || tag == 42 ==> PrefixAllowed(t))
      && ChecksumHolds(t) && Decode(t).bytes[0] == tag
  {
    hide IsAddress, ByteLength, InAlphabet, Digest, Decode, Encode;
    forall tag: Byte | IsAddress(t, tag)
      ensures LengthAllowed(t) && InAlphabet(t) && (tag == 18 || tag == 19 || tag == 42 ==> PrefixAllowed(t))
      ensures ChecksumHolds(t) && Decode(t).bytes[0] == tag
    {
      AddressPassesEarlyTests(t, tag);
      TagOfAddress(t, tag);
    }
  }

  method CheckAddress(addr: string) returns (e: AddressError)
    ensures e == NoError <==> IsAddress(TrimSpace(addr), 18)
    ensures e == Subaddress <==> IsAddress(TrimSpace(addr), 42)
    ensures e == Integrated <==> IsAddress(TrimSpace(addr), 19)
    ensures e == Empty <==> TrimSpace(addr) == []
    ensures e == Length <==> PrefixAllowed(TrimSpace(addr)) && !LengthAllowed(TrimSpace(addr))
    ensures e == Charset <==>
      PrefixAllowed(TrimSpace(addr)) && LengthAllowed(TrimSpace(addr)) && !InAlphabet(TrimSpace(addr))
    ensures e == Checksum <==>
      && PrefixAllowed(TrimSpace(addr)) && LengthAllowed(TrimSpace(addr)) && InAlphabet(TrimSpace(addr))
      && !exists tag: Byte :: IsAddress(TrimSpace(addr), tag)
  {
    hide IsAddress, ByteLength, InAlphabet, Digest, Decode, Encode, TrimSpace;
    var t := TrimSpace(addr);
    AnyTag(t);
    if t == [] {
      return Empty;
    }
    if !(t[0] == '4' || t[0] == '8') {
      return Prefix;
    }
    var n := ByteLength(t);
    if n != 95 && n != 106 {
      return Length;
    }
    if !InAlphabet(t) {
      return Charset;
    }
    var raw, ok := DecodeBase58(t);
    if !ok || |raw| < 5 {
      return Checksum;
    }
    var body, sum := raw[..|raw| - 4], raw[|raw| - 4..];
    var h := Keccak256(body);
    DigestIsKeccak(body, h);
    if h[..4] != sum {
      return Checksum;
    }
    AlphabetIsAscii(t);
    WellFormedIsAddress(t);
    match body[0]
    case 18 => return NoError;
    case 42 => return Subaddress;
    case 19 => return Integrated;
    case _ => return Prefix;
  }

  lemma {:induction false} NothingToTrim(s: string)
    requires InAlphabet(s)
    ensures TrimSpace(s) == s
  {
    hide ALPHABET;
    if s != [] {
      NoSpaceInAlphabet(s[0]);
      NoSpaceInAlphabet(s[|s| - 1]);
    }
  }

  lemma NoSpaceInAlphabet(c: char)
    requires c in ALPHABET
    ensures !IsSpace(c)
  {
    DigitInAlphabet(c);
    AlphabetCodes(DigitOf(c));
    hide ALPHABET, DigitOf;
  }

  /** The comment promises a primary address of 95 characters. CheckAddress accepts
      tag 18 at 106 characters too: every 72-byte payload is a witness, and the
      length tells the two apart. */
  lemma LongPrimaryAddress(p: seq<Byte>)
    requires |p| == 64 || |p| == 72
    ensures IsAddress(TrimSpace(Address(18, p)), 18)
    ensures |Address(18, p)| == 95 <==> |p| == 64
    ensures |Address(18, p)| == 106 <==> |p| == 72
  {
    AddressIsWellFormed(18, p);
    NothingToTrim(Address(18, p));
    hide Address, TrimSpace, InAlphabet;
  }

  /** Two addresses are the same only with the same tag and payload. */
  lemma AddressInjective(tag: Byte, p: seq<Byte>, tag': Byte, p': seq<Byte>)
    requires Address(tag, p) == Address(tag', p')
    ensures tag == tag' && p == p'
  {
    hide Encode, Decode, Digest;
    var body, body' := [tag] + p, [tag'] + p';
    DecodeEncode(body + Digest(body)[..4]);
    DecodeEncode(body' + Digest(body')[..4]);
    var raw, raw' := body + Digest(body)[..4], body' + Digest(body')[..4];
    assert raw == raw';
    assert body == raw[..|raw| - 4] == raw'[..|raw'| - 4] == body';
    assert p == body[1..] == body'[1..] == p';
    assert body[0] == tag && body'[0] == tag';
  }
}
