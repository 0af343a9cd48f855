/** RFC 4648: base64url without padding (section 5), base32 without padding (section 6)
    and base16 (section 8), as encoding/base64, encoding/base32 and encoding/hex do them. */
module Radix {
  import opened Bits
  import opened Positional
  import opened Wrappers

  datatype Alphabet = Base64Url | Base32 | Hex

  function Width(a: Alphabet): nat {
    match a case Base64Url => 6 case Base32 => 5 case Hex => 4
  }

  function Size(a: Alphabet): nat {
    match a case Base64Url => 64 case Base32 => 32 case Hex => 16
  }

  function From(c: char, d: int): char
    requires 0 <= c as int + d < 0x80
  {
    (c as int + d) as char
  }

  function CharOf(a: Alphabet, d: nat): char
    requires d < Size(a)
  {
    match a
    case Base64Url =>
      if d < 26 then From('A', d) else if d < 52 then From('a', d - 26) else if d < 62 then From('0', d - 52)
      else if d == 62 then '-' else '_'
    case Base32 => if d < 26 then From('A', d) else From('2', d - 26)
    case Hex => if d < 10 then From('0', d) else From('a', d - 10)
  }

  /** Decoding base16 forgives the case. */
  function DigitOf(a: Alphabet, c: char): (r: Option<nat>)
    ensures r.Some? ==> r.value < Size(a)
  {
    match a
    case Base64Url =>
      if 'A' <= c <= 'Z' then Some(c as int - 'A' as int) else if 'a' <= c <= 'z' then Some(c as int - 'a' as int + 26)
      else if '0' <= c <= '9' then Some(c as int - '0' as int + 52)
      else if c == '-' then Some(62) else if c == '_' then Some(63) else None
    case Base32 =>
      if 'A' <= c <= 'Z' then Some(c as int - 'A' as int)
          else if '2' <= c <= '7' then Some(c as int - '2' as int + 26) else None
    case Hex =>
      if '0' <= c <= '9' then Some(c as int - '0' as int) else if 'a' <= c <= 'f' then Some(c as int - 'a' as int + 10)
      else if 'A' <= c <= 'F' then Some(c as int - 'A' as int + 10) else None
  }

  lemma DigitOfChar(a: Alphabet, d: nat)
    requires d < Size(a)
    ensures DigitOf(a, CharOf(a, d)) == Some(d)
  {
  }

  /** The characters that Encode writes. */
  predicate Written(a: Alphabet, c: char) {
    DigitOf(a, c).Some? && (a.Hex? ==> !('A' <= c <= 'F'))
  }

  lemma CharOfDigit(a: Alphabet, c: char)
    ensures Written(a, c) ==> CharOf(a, DigitOf(a, c).value) == c
  {
  }

  lemma CharIsWritten(a: Alphabet, d: nat)
    requires d < Size(a)
    ensures Written(a, CharOf(a, d))
  {
  }

  // ---- bits, most significant first ----

  function Flat(ds: seq<nat>, w: nat): (r: seq<nat>)
    ensures |r| == w * |ds|
  {
    if ds == [] then [] else Digits(ds[0], 2, w) + Flat(ds[1..], w)
  }

  function Zeros(k: nat): (r: seq<nat>)
    ensures |r| == k && AreDigits(r, 2)
  {
    seq(k, _ => 0)
  }

  /** Groups of w bits, the last one filled up with zeros. */
  function Groups(bits: seq<nat>, w: nat): seq<nat>
    requires w > 0
  {
    if bits == [] then []
    else if |bits| < w then [Number(bits + Zeros(w - |bits|), 2)]
    else [Number(bits[..w], 2)] + Groups(bits[w..], w)
  }

  /** Whole groups of w bits, what is left over dropped. */
  function Whole(bits: seq<nat>, w: nat): seq<nat>
    requires w > 0
  {
    if |bits| < w then [] else [Number(bits[..w], 2)] + Whole(bits[w..], w)
  }

  predicate Fit(ds: seq<nat>, w: nat) {
    AreDigits(ds, Power(2, w))
  }

  lemma {:induction false} FlatAreBits(ds: seq<nat>, w: nat)
    ensures AreDigits(Flat(ds, w), 2)
  {
    if ds != [] {
      DigitsInRange(ds[0], 2, w);
      FlatAreBits(ds[1..], w);
    }
  }

  lemma {:induction false} GroupsFit(bits: seq<nat>, w: nat)
    requires w > 0 && AreDigits(bits, 2)
    ensures Fit(Groups(bits, w), w)
    decreases |bits|
  {
    hide Number, Power;
    if bits == [] {
    } else if |bits| < w {
      NumberBounded(bits + Zeros(w - |bits|), 2);
    } else {
      NumberBounded(bits[..w], 2);
      GroupsFit(bits[w..], w);
    }
  }

  /** The groups hold the bits, and fewer than w zeros after them. */
  lemma {:induction false} FlatGroups(bits: seq<nat>, w: nat)
    requires w > 0 && AreDigits(bits, 2)
    ensures |bits| <= |Flat(Groups(bits, w), w)| < |bits| + w
    ensures Flat(Groups(bits, w), w)[..|bits|] == bits
    decreases |bits|
  {
    hide Number, Digits, Flat;
    if bits == [] {
      assert Groups(bits, w) == [];
    } else if |bits| < w {
      var full := bits + Zeros(w - |bits|);
      DigitsOfNumber(full, 2);
      FlatCons(Number(full, 2), [], w);
      assert Groups(bits, w) == [Number(full, 2)] + [];
      hide Groups;
      assert Flat([], w) == [];
      assert full[..|bits|] == bits;
    } else {
      var front, back := bits[..w], bits[w..];
      DigitsOfNumber(front, 2);
      FlatGroups(back, w);
      FlatCons(Number(front, 2), Groups(back, w), w);
      assert Groups(bits, w) == [Number(front, 2)] + Groups(back, w);
      assert bits == front + back;
      hide Groups;
      var rest := Flat(Groups(back, w), w);
      assert (front + rest)[..|bits|] == front + rest[..|back|];
    }
  }

  lemma FlatCons(d: nat, ds: seq<nat>, w: nat)
    ensures Flat([d] + ds, w) == Digits(d, 2, w) + Flat(ds, w)
  {
    assert ([d] + ds)[1..] == ds;
  }

  /** Whole groups come back out of their bits, whatever little follows. */
  lemma {:induction false} WholeFlat(ds: seq<nat>, w: nat, more: seq<nat>)
    requires w > 0 && Fit(ds, w) && |more| < w
    ensures Whole(Flat(ds, w) + more, w) == ds
  {
    hide Number, Digits, Power;
    if ds == [] {
      assert Flat(ds, w) + more == more;
    } else {
      var bits := Flat(ds, w) + more;
      NumberOfDigits(ds[0], 2, w);
      assert bits[..w] == Digits(ds[0], 2, w);
      assert bits[w..] == Flat(ds[1..], w) + more;
      WholeFlat(ds[1..], w, more);
      assert ds == [ds[0]] + ds[1..];
    }
  }

  // ---- text ----

  function Spell(a: Alphabet, ds: seq<nat>): (s: string)
    requires forall i :: 0 <= i < |ds| ==> ds[i] < Size(a)
    ensures |s| == |ds|
  {
    if ds == [] then [] else [CharOf(a, ds[0])] + Spell(a, ds[1..])
  }

  function ReadDigits(a: Alphabet, s: string): (r: Option<seq<nat>>)
    ensures r.Some? ==> |r.value| == |s| && forall i :: 0 <= i < |s| ==> r.value[i] < Size(a)
  {
    if s == [] then Some([])
    else
      var d, rest := DigitOf(a, s[0]), ReadDigits(a, s[1..]);
      if d.Some? && rest.Some? then
        assert forall i :: 1 <= i < |s| ==> ([d.value] + rest.value)[i] == rest.value[i - 1];
        Some([d.value] + rest.value)
      else None
  }

  lemma {:induction false} ReadSpelled(a: Alphabet, ds: seq<nat>)
    requires forall i :: 0 <= i < |ds| ==> ds[i] < Size(a)
    ensures ReadDigits(a, Spell(a, ds)) == Some(ds)
  {
    hide DigitOf, CharOf;
    if ds != [] {
      DigitOfChar(a, ds[0]);
      ReadSpelled(a, ds[1..]);
      assert ds == [ds[0]] + ds[1..];
      assert Spell(a, ds)[1..] == Spell(a, ds[1..]);
    }
  }

  lemma {:induction false} SpellRead(a: Alphabet, s: string)
    requires forall c <- s :: Written(a, c)
    ensures ReadDigits(a, s).Some? && Spell(a, ReadDigits(a, s).value) == s
  {
    hide DigitOf, CharOf;
    if s != [] {
      assert s[0] in s && forall c <- s[1..] :: c in s;
      CharOfDigit(a, s[0]);
      SpellRead(a, s[1..]);
      assert ReadDigits(a, s).value[1..] == ReadDigits(a, s[1..]).value;
    }
  }

  lemma SizeIs(a: Alphabet)
    ensures Power(2, Width(a)) == Size(a) && Power(2, 8) == 256
  {
    assert Power(2, 3) == 8;
    assert Power(2, 6) == 64;
  }

  function Encode(a: Alphabet, bytes: seq<Byte>): string {
    FlatAreBits(bytes, 8);
    GroupsFit(Flat(bytes, 8), Width(a));
    SizeIs(a);
    Spell(a, Groups(Flat(bytes, 8), Width(a)))
  }

  /** The bytes the digits hold; bits after the last whole byte are not looked at. */
  function BytesIn(a: Alphabet, ds: seq<nat>): seq<Byte> {
    FlatAreBits(ds, Width(a));
    WholeAreBytes(Flat(ds, Width(a)));
    Whole(Flat(ds, Width(a)), 8)
  }

  lemma {:induction false} WholeAreBytes(bits: seq<nat>)
    requires AreDigits(bits, 2)
    ensures forall i :: 0 <= i < |Whole(bits, 8)| ==> Whole(bits, 8)[i] < 256
    decreases |bits|
  {
    if |bits| >= 8 {
      NumberBounded(bits[..8], 2);
      SizeIs(Hex);
      hide Number, Power;
      WholeAreBytes(bits[8..]);
    }
  }

  /** A base64 text cannot end in the first character of a group of four. */
  function Decode(a: Alphabet, s: string): Option<seq<Byte>> {
    var ds := ReadDigits(a, s);
    if ds.None? || (a.Base64Url? && |s| % 4 == 1) then None else Some(BytesIn(a, ds.value))
  }

  lemma DecodeEncode(a: Alphabet, bytes: seq<Byte>)
    ensures Decode(a, Encode(a, bytes)) == Some(bytes)
  {
    var bits, w := Flat(bytes, 8), Width(a);
    FlatAreBits(bytes, 8);
    GroupsFit(bits, w);
    SizeIs(a);
    var ds := Groups(bits, w);
    ReadSpelled(a, ds);
    FlatGroups(bits, w);
    hide Groups, Flat, ReadDigits, Spell, Whole, Power;
    LengthFits(|bytes|, |ds|, w);
    BytesComeBack(a, bytes, ds);
  }

  lemma BytesComeBack(a: Alphabet, bytes: seq<Byte>, ds: seq<nat>)
    requires 8 * |bytes| <= Width(a) * |ds| < 8 * |bytes| + Width(a)
    requires Flat(ds, Width(a))[..8 * |bytes|] == Flat(bytes, 8)
    ensures BytesIn(a, ds) == bytes
  {
    hide Groups, Flat, Whole, Power;
    SizeIs(a);
    var all, bits := Flat(ds, Width(a)), Flat(bytes, 8);
    var rest := all[|bits|..];
    assert all == bits + rest;
    WholeFlat(bytes, 8, rest);
  }

  /** n bytes in d digits of w bits, fewer than w of which are filling. */
  lemma LengthFits(n: nat, d: nat, w: nat)
    requires 8 * n <= w * d < 8 * n + w
    ensures w == 6 ==> d % 4 != 1
  {
  }

  lemma {:induction false} SpelledIsWritten(a: Alphabet, ds: seq<nat>)
    requires forall i :: 0 <= i < |ds| ==> ds[i] < Size(a)
    ensures forall c <- Spell(a, ds) :: Written(a, c)
  {
    hide Written, CharOf;
    if ds != [] {
      CharIsWritten(a, ds[0]);
      SpelledIsWritten(a, ds[1..]);
    }
  }

  lemma EncodedIsWritten(a: Alphabet, bytes: seq<Byte>)
    ensures forall c <- Encode(a, bytes) :: Written(a, c)
  {
    FlatAreBits(bytes, 8);
    GroupsFit(Flat(bytes, 8), Width(a));
    SizeIs(a);
    SpelledIsWritten(a, Groups(Flat(bytes, 8), Width(a)));
  }

  lemma EncodedLength(a: Alphabet, bytes: seq<Byte>)
    ensures 8 * |bytes| <= Width(a) * |Encode(a, bytes)| < 8 * |bytes| + Width(a)
  {
    FlatAreBits(bytes, 8);
    FlatGroups(Flat(bytes, 8), Width(a));
  }

  /** Where the characters hold whole bytes, with no bits left over, a text has only one
      reading back. */
  lemma EncodeDecode(a: Alphabet, s: string)
    requires (forall c <- s :: Written(a, c)) && Width(a) * |s| % 8 == 0
    ensures Decode(a, s).Some? && Encode(a, Decode(a, s).value) == s && 8 * |Decode(a, s).value| == Width(a) * |s|
  {
    hide Written, Flat, Groups, Whole, Spell, ReadDigits, BytesIn;
    SpellRead(a, s);
    SizeIs(a);
    GroupsOfBytes(a, ReadDigits(a, s).value);
  }

  lemma GroupsOfBytes(a: Alphabet, ds: seq<nat>)
    requires Fit(ds, Width(a)) && Width(a) * |ds| % 8 == 0
    ensures Groups(Flat(BytesIn(a, ds), 8), Width(a)) == ds && 8 * |BytesIn(a, ds)| == Width(a) * |ds|
  {
    hide Fit, Groups, Flat, Whole;
    var bits := Flat(ds, Width(a));
    FlatAreBits(ds, Width(a));
    FlatWhole(bits);
    GroupsOfFlat(ds, Width(a));
  }

  lemma {:induction false} FlatWhole(bits: seq<nat>)
    requires AreDigits(bits, 2) && |bits| % 8 == 0
    ensures Flat(Whole(bits, 8), 8) == bits
    decreases |bits|
  {
    hide Number, Digits, Flat;
    if bits == [] {
      assert Whole(bits, 8) == [];
    } else {
      var front, back := bits[..8], bits[8..];
      DigitsOfNumber(front, 2);
      FlatWhole(back);
      FlatCons(Number(front, 2), Whole(back, 8), 8);
      assert Whole(bits, 8) == [Number(front, 2)] + Whole(back, 8);
      assert bits == front + back;
    }
  }

  lemma {:induction false} GroupsOfFlat(ds: seq<nat>, w: nat)
    requires w > 0 && Fit(ds, w)
    ensures Groups(Flat(ds, w), w) == ds
  {
    hide Number, Digits, Power;
    if ds != [] {
      var bits := Flat(ds, w);
      NumberOfDigits(ds[0], 2, w);
      assert bits[..w] == Digits(ds[0], 2, w);
      assert bits[w..] == Flat(ds[1..], w);
      GroupsOfFlat(ds[1..], w);
    }
  }
}
