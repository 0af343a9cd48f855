/** internal/hub/code.go and internal/hub/onion.go: the one line that pairs a device with
    a hub, and the onion address in it. sum stands for the two bytes of SHA3-256 that check
    an onion key, isIP for net.ParseIP. */
module Pairing {
  import opened Bits
  import opened Radix
  import opened Text
  import opened Wrappers

  const TOKEN: nat := 16

  type Checksum = seq<Byte> -> (Byte, Byte)

  // ---- onion addresses ----

  function LowerChar(c: char): char {
    if 'A' <= c <= 'Z' then (c as int + 32) as char else c
  }

  function UpperChar(c: char): char {
    if 'a' <= c <= 'z' then (c as int - 32) as char else c
  }

  function Lower(s: string): string {
    seq(|s|, i requires 0 <= i < |s| => LowerChar(s[i]))
  }

  function Upper(s: string): string {
    seq(|s|, i requires 0 <= i < |s| => UpperChar(s[i]))
  }

  function StripNewlines(s: string): string {
    if s == [] then [] else (if s[0] == '\n' || s[0] == '\r' then [] else [s[0]]) + StripNewlines(s[1..])
  }

  const SUFFIX: string := ".onion"

  function OnionBytes(sum: Checksum, key: seq<Byte>): seq<Byte> {
    key + [sum(key).0, sum(key).1] + [3]
  }

  function OnionAddress(sum: Checksum, key: seq<Byte>): string {
    Lower(Encode(Base32, OnionBytes(sum, key))) + SUFFIX
  }

  function OnionKey(sum: Checksum, addr: string): Option<seq<Byte>> {
    var t := Lower(TrimSpace(addr));
    if !(|t| >= 6 && t[|t| - 6..] == SUFFIX) || |t| - 6 != 56 then None
    else
      var raw := Decode(Base32, StripNewlines(Upper(t[..56])));
      if raw.None? || |raw.value| != 35 || raw.value[34] != 3 then None
      else
        var key := raw.value[..32];
        if raw.value[32] != sum(key).0 || raw.value[33] != sum(key).1 then None else Some(key)
  }

  lemma {:induction false} NoNewlines(s: string)
    ensures |StripNewlines(s)| <= |s|
    ensures |StripNewlines(s)| == |s| ==> StripNewlines(s) == s
    ensures (forall c <- s :: Written(Base32, c) || Written(Base64Url, c)) ==> StripNewlines(s) == s
  {
    if s != [] {
      NoNewlines(s[1..]);
      assert forall c <- s[1..] :: c in s;
      assert s[0] in s;
    }
  }

  lemma UpperOfLower(s: string)
    requires forall c <- s :: Written(Base32, c)
    ensures Upper(Lower(s)) == s
  {
    forall i | 0 <= i < |s| ensures UpperChar(LowerChar(s[i])) == s[i] {
      assert s[i] in s;
    }
  }

  /** A base32 text of 56 characters is that of its 35 bytes. */
  lemma Base32OfName(name: string)
    requires var raw := Decode(Base32, StripNewlines(name)); raw.Some? && |raw.value| == 35
    requires |name| == 56
    ensures Encode(Base32, Decode(Base32, StripNewlines(name)).value) == name
    ensures forall c <- name :: Written(Base32, c)
  {
    NoNewlines(name);
    var s := StripNewlines(name);
    DecodedLength(Base32, s);
    ReadIsWritten(s);
    EncodeDecode(Base32, s);
    hide Encode, Decode, StripNewlines;
  }

  lemma DecodedLength(a: Alphabet, s: string)
    requires Decode(a, s).Some?
    ensures 8 * |Decode(a, s).value| <= Width(a) * |s|
  {
    WholeLength(Flat(ReadDigits(a, s).value, Width(a)));
  }

  lemma {:induction false} WholeLength(bits: seq<nat>)
    ensures 8 * |Whole(bits, 8)| <= |bits|
    decreases |bits|
  {
    if |bits| >= 8 {
      WholeLength(bits[8..]);
    }
  }

  lemma {:induction false} ReadIsWritten(s: string)
    requires ReadDigits(Base32, s).Some?
    ensures forall c <- s :: Written(Base32, c)
  {
    if s != [] {
      ReadIsWritten(s[1..]);
    }
  }

  lemma LowerOfUpper(t: string)
    requires forall c <- Upper(t) :: Written(Base32, c)
    requires forall i :: 0 <= i < |t| ==> !('A' <= t[i] <= 'Z')
    ensures Lower(Upper(t)) == t
  {
    forall i | 0 <= i < |t| ensures LowerChar(UpperChar(t[i])) == t[i] {
      assert Upper(t)[i] in Upper(t);
    }
  }

  lemma OnionLength(sum: Checksum, key: seq<Byte>)
    requires |key| == 32
    ensures |Encode(Base32, OnionBytes(sum, key))| == 56
  {
    EncodedLength(Base32, OnionBytes(sum, key));
  }

  /** onionKey reads a text as a key exactly when, white space and case aside, the text is
      that key's address. */
  lemma OnionKeyIff(sum: Checksum, addr: string, key: seq<Byte>)
    requires |key| == 32
    ensures OnionKey(sum, addr) == Some(key) <==> Lower(TrimSpace(addr)) == OnionAddress(sum, key)
  {
    hide TrimSpace, Encode, Decode, StripNewlines, Lower, Upper;
    var t := Lower(TrimSpace(addr));
    if t == OnionAddress(sum, key) {
      KeyOfAddress(sum, t, key);
      var raw := OnionBytes(sum, key);
      assert raw[..32] == key && raw[32] == sum(key).0 && raw[33] == sum(key).1 && raw[34] == 3;
    }
    if OnionKey(sum, addr) == Some(key) {
      var name := t[..56];
      Base32OfName(Upper(name)) by { UpperLength(name); }
      var raw := Decode(Base32, StripNewlines(Upper(name))).value;
      assert raw == OnionBytes(sum, key);
      NameIsLower(TrimSpace(addr), name);
      LowerOfUpper(name);
      assert t == name + t[56..];
    }
  }

  lemma UpperLength(s: string)
    ensures |Upper(s)| == |s| && |Lower(s)| == |s|
  {
  }

  lemma NameIsLower(s: string, name: string)
    requires |Lower(s)| >= 56 && name == Lower(s)[..56]
    ensures forall i :: 0 <= i < |name| ==> !('A' <= name[i] <= 'Z')
  {
  }

  lemma KeyOfAddress(sum: Checksum, t: string, key: seq<Byte>)
    requires |key| == 32 && t == OnionAddress(sum, key)
    ensures |t| == 62 && t[56..] == SUFFIX
    ensures Decode(Base32, StripNewlines(Upper(t[..56]))) == Some(OnionBytes(sum, key))
  {
    hide Encode, Decode, StripNewlines, Lower, Upper;
    var e := Encode(Base32, OnionBytes(sum, key));
    OnionLength(sum, key);
    EncodedIsWritten(Base32, OnionBytes(sum, key));
    UpperOfLower(e);
    UpperLength(e);
    assert t[..56] == Lower(e);
    NoNewlines(e);
    DecodeEncode(Base32, OnionBytes(sum, key));
  }

  // ---- pairings ----

  /** host is the bytes of the name, fingerprint those of the certificate's SHA-256. */
  datatype Pairing = Pairing(host: seq<Byte>, stratumPort: int, apiPort: int, fingerprint: seq<Byte>, token: string,
      onion: string)

  datatype Parsed = Parsed(p: Pairing) | BadPrefix | CutShort | Damaged

  /** How many pairs of hex digits a text begins with. */
  function HexPairs(s: string): (n: nat)
    ensures 2 * n <= |s|
  {
    if |s| >= 2 && DigitOf(Hex, s[0]).Some? && DigitOf(Hex, s[1]).Some? then 1 + HexPairs(s[2..]) else 0
  }

  /** hex.DecodeString, with its error ignored. */
  function HexBytes(s: string): seq<Byte> {
    var r := Decode(Hex, s[..2 * HexPairs(s)]);
    if r.Some? then r.value else []
  }

  function Uint16(v: int): seq<Byte> {
    var w: int := v % 65536;
    [w / 256, w % 256]
  }

  function FromUint16(s: seq<Byte>): nat
    requires |s| >= 2
  {
    (s[0] as int) * 256 + s[1] as int
  }

  function Front(p: Pairing): seq<Byte> {
    p.fingerprint + HexBytes(p.token) + Uint16(p.stratumPort) + Uint16(p.apiPort)
  }

  const PREFIX: string := "km1-"
  const ONION_PREFIX: string := "km2-"

  function Code(sum: Checksum, p: Pairing): string {
    var key := OnionKey(sum, p.onion);
    if key.Some? then ONION_PREFIX + Encode(Base64Url, Front(p) + key.value + p.host)
    else PREFIX + Encode(Base64Url, Front(p) + p.host)
  }

  predicate NameByte(b: Byte) {
    b == '.' as int || b == '-' as int || '0' as int <= b <= '9' as int || 'a' as int <= b <= 'z' as int
        || 'A' as int <= b <= 'Z' as int
  }

  predicate ValidHost(isIP: seq<Byte> -> bool, h: seq<Byte>) {
    isIP(h) || (h != [] && |h| <= 253 && forall i :: 0 <= i < |h| ==> NameByte(h[i]))
  }

  /** A host that is no IP address is made of letters, digits, dots and hyphens, so that it
      cannot end before its port does. */
  lemma HostMeans(isIP: seq<Byte> -> bool, h: seq<Byte>)
    requires !isIP(h)
    ensures ValidHost(isIP, h) <==>
              && 1 <= |h| <= 253
              && forall b <- h :: b in {0x2D, 0x2E} || 0x30 <= b <= 0x39 || 0x41 <= b <= 0x5A || 0x61 <= b <= 0x7A
    ensures ValidHost(isIP, h) ==> forall c <- ":/?#[]@% " :: c as nat !in h
  {
    if ValidHost(isIP, h) {
      forall c <- ":/?#[]@% " ensures c as nat !in h {
        assert !PlainName(c as nat);
      }
    }
    assert forall b: Byte :: PlainName(b) <==> NameByte(b);
    if forall b <- h :: PlainName(b) {
      assert forall i :: 0 <= i < |h| ==> h[i] in h;
    }
  }

  predicate PlainName(b: nat) {
    b in {0x2D, 0x2E} || 0x30 <= b <= 0x39 || 0x41 <= b <= 0x5A || 0x61 <= b <= 0x7A
  }

  function Fixed(withOnion: bool): nat {
    32 + TOKEN + 4 + if withOnion then 32 else 0
  }

  /** The pairing in the bytes of a code. */
  function Unpacked(sum: Checksum, raw: seq<Byte>, withOnion: bool): Pairing
    requires |raw| > Fixed(withOnion)
  {
    Pairing(raw[Fixed(withOnion)..], FromUint16(raw[48..50]), FromUint16(raw[50..52]), raw[..32],
        Encode(Hex, raw[32..48]),
            if withOnion then OnionAddress(sum, raw[52..84]) else "")
  }

  predicate Usable(isIP: seq<Byte> -> bool, p: Pairing) {
    p.stratumPort != 0 && p.apiPort != 0 && ValidHost(isIP, p.host)
  }

  function ParseCode(sum: Checksum, isIP: seq<Byte> -> bool, code: string): Parsed {
    ParseTrimmed(sum, isIP, TrimSpace(code))
  }

  function ParseTrimmed(sum: Checksum, isIP: seq<Byte> -> bool, s: string): Parsed {
    var withOnion := ONION_PREFIX <= s;
    if !withOnion && !(PREFIX <= s) then BadPrefix
    else
      var raw := Decode(Base64Url, StripNewlines(s[4..]));
      if raw.None? || |raw.value| <= Fixed(withOnion) then CutShort
      else
        var p := Unpacked(sum, raw.value, withOnion);
        if Usable(isIP, p) then Parsed(p) else Damaged
  }

  // ---- round trips ----

  predicate LowerHex(s: string) {
    forall c <- s :: Written(Hex, c)
  }

  /** What a hub hands out: ports that fit, a host that can be dialled, a token as the hub
      writes it, and no onion or one in the form the hub's own address has. */
  ghost predicate Valid(sum: Checksum, isIP: seq<Byte> -> bool, p: Pairing) {
    && 0 < p.stratumPort < 65536 && 0 < p.apiPort < 65536
    && p.host != [] && ValidHost(isIP, p.host)
    && |p.fingerprint| == 32
    && |p.token| == 2 * TOKEN && LowerHex(p.token)
    && (p.onion == "" || exists key: seq<Byte> :: |key| == 32 && p.onion == OnionAddress(sum, key))
  }

  lemma TokenComesBack(token: string)
    requires LowerHex(token) && |token| % 2 == 0
    ensures |HexBytes(token)| == |token| / 2 && Encode(Hex, HexBytes(token)) == token
  {
    AllPairs(token);
    assert token[..|token|] == token;
    EncodeDecode(Hex, token);
    hide Encode, Decode;
  }

  lemma {:induction false} AllPairs(s: string)
    requires LowerHex(s) && |s| % 2 == 0
    ensures HexPairs(s) == |s| / 2
  {
    if s != [] {
      assert s[0] in s && s[1] in s && forall c <- s[2..] :: c in s;
      AllPairs(s[2..]);
    }
  }

  lemma PortComesBack(v: int)
    requires 0 <= v < 65536
    ensures FromUint16(Uint16(v)) == v
  {
  }

  /** The bytes of a valid pairing unpack to it. */
  lemma UnpackedIs(sum: Checksum, isIP: seq<Byte> -> bool, p: Pairing, key: seq<Byte>)
    requires Valid(sum, isIP, p) && (key == [] || |key| == 32)
    requires p.onion == if key == [] then "" else OnionAddress(sum, key)
    ensures |Front(p) + key + p.host| > Fixed(key != [])
    ensures Unpacked(sum, Front(p) + key + p.host, key != []) == p
  {
    TokenComesBack(p.token);
    PortComesBack(p.stratumPort);
    PortComesBack(p.apiPort);
    hide Encode, HexBytes, OnionAddress, FromUint16, Uint16, ValidHost, LowerHex;
    var raw, front := Front(p) + key + p.host, Front(p);
    var token := HexBytes(p.token);
    assert |front| == 52;
    assert raw[..32] == p.fingerprint && raw[32..48] == token;
    assert raw[48..50] == Uint16(p.stratumPort) && raw[50..52] == Uint16(p.apiPort);
    assert raw[Fixed(key != [])..] == p.host;
    assert key != [] ==> raw[52..84] == key;
  }

  lemma CodeText(prefix: string, raw: seq<Byte>)
    requires prefix == PREFIX || prefix == ONION_PREFIX
    ensures var s := prefix + Encode(Base64Url, raw);
            && TrimSpace(s) == s && s[4..] == Encode(Base64Url, raw)
            && Decode(Base64Url, StripNewlines(s[4..])) == Some(raw)
  {
    var e := Encode(Base64Url, raw);
    EncodedIsWritten(Base64Url, raw);
    NoNewlines(e);
    DecodeEncode(Base64Url, raw);
    var s := prefix + e;
    hide Encode, Decode, StripNewlines, TrimSpace;
    assert Bare(s) by {
      if e != [] {
        assert e[|e| - 1] in e;
        WrittenIsNoSpace(e[|e| - 1]);
      }
    }
    TrimAround("", s, "");
    assert "" + s + "" == s;
  }

  lemma WrittenIsNoSpace(c: char)
    requires Written(Base64Url, c)
    ensures !IsSpace(c)
  {
  }

  lemma KeyOf(sum: Checksum, onion: string, key: seq<Byte>)
    requires |key| == 32 && onion == OnionAddress(sum, key)
    ensures OnionKey(sum, onion) == Some(key)
  {
    OnionKeyIff(sum, onion, key);
    AddressIsPlain(sum, key);
    hide OnionKey, OnionAddress;
  }

  lemma AddressIsPlain(sum: Checksum, key: seq<Byte>)
    requires |key| == 32
    ensures TrimSpace(OnionAddress(sum, key)) == OnionAddress(sum, key) == Lower(OnionAddress(sum, key))
  {
    var e := Encode(Base32, OnionBytes(sum, key));
    OnionLength(sum, key);
    EncodedIsWritten(Base32, OnionBytes(sum, key));
    var s := OnionAddress(sum, key);
    hide Encode, TrimSpace;
    assert s[0] == LowerChar(e[0]) && e[0] in e;
    TrimAround("", s, "");
    assert "" + s + "" == s;
    forall i | 0 <= i < |s| ensures LowerChar(s[i]) == s[i] {
      if i < 56 {
        assert e[i] in e && s[i] == LowerChar(e[i]);
      }
    }
  }

  lemma NoKey(sum: Checksum)
    ensures OnionKey(sum, "").None?
  {
    assert TrimSpace("") == "";
  }

  /** Whatever ParseCode accepts is a valid pairing. */
  lemma ParsedIsValid(sum: Checksum, isIP: seq<Byte> -> bool, code: string)
    requires ParseCode(sum, isIP, code).Parsed?
    ensures Valid(sum, isIP, ParseCode(sum, isIP, code).p)
  {
    hide TrimSpace, Decode, StripNewlines, Encode, OnionAddress, ValidHost;
    var s := TrimSpace(code);
    var withOnion := ONION_PREFIX <= s;
    var raw := Decode(Base64Url, StripNewlines(s[4..])).value;
    var p := ParseCode(sum, isIP, code).p;
    assert p == Unpacked(sum, raw, withOnion);
    EncodedLength(Hex, raw[32..48]);
    EncodedIsWritten(Hex, raw[32..48]);
    if withOnion {
      assert |raw[52..84]| == 32 && p.onion == OnionAddress(sum, raw[52..84]);
    }
  }

  lemma ValidComesBack(sum: Checksum, isIP: seq<Byte> -> bool, p: Pairing)
    requires Valid(sum, isIP, p)
    ensures ParseCode(sum, isIP, Code(sum, p)) == Parsed(p)
  {
    hide TrimSpace, Decode, StripNewlines, Encode, OnionAddress, OnionKey, Front, Unpacked, ValidHost;
    var key: seq<Byte> := [];
    NoKey(sum);
    if p.onion != "" {
      key :| |key| == 32 && p.onion == OnionAddress(sum, key);
      KeyOf(sum, p.onion, key);
    }
    UnpackedIs(sum, isIP, p, key);
    var raw := Front(p) + key + p.host;
    var prefix := if key == [] then PREFIX else ONION_PREFIX;
    assert Front(p) + [] + p.host == Front(p) + p.host;
    CodeText(prefix, raw);
    var s := Code(sum, p);
    assert s == prefix + Encode(Base64Url, raw);
    assert s[2] == prefix[2];
    assert ONION_PREFIX <= s <==> key != [];
    assert prefix <= s;
  }

  /** Two ports, most significant byte first. */
  function Ports(stratum: nat, api: nat): seq<Byte>
    requires stratum < 65536 && api < 65536
  {
    [stratum / 256, stratum % 256, api / 256, api % 256]
  }

  lemma FrontIs(p: Pairing)
    requires 0 <= p.stratumPort < 65536 && 0 <= p.apiPort < 65536
    ensures Front(p) == p.fingerprint + HexBytes(p.token) + Ports(p.stratumPort, p.apiPort)
  {
    hide HexBytes;
  }

  lemma AddressForm(sum: Checksum, key: seq<Byte>)
    requires |key| == 32
    ensures var s := OnionAddress(sum, key); |s| == 62 && s[56..] == ".onion"
  {
    OnionLength(sum, key);
    hide Encode;
  }

  lemma CodeOfKey(sum: Checksum, p: Pairing, key: seq<Byte>)
    requires OnionKey(sum, p.onion) == if key == [] then None else Some(key)
    ensures Code(sum, p) == (if key == [] then "km1-" else "km2-") + Encode(Base64Url, Front(p) + key + p.host)
  {
    hide OnionKey, Front, Encode;
    assert Front(p) + [] + p.host == Front(p) + p.host;
  }

  /** The form of a code: km1 without an onion and km2 with one, then the fingerprint, the
      token's bytes, the ports, the onion's key and the host. */
  lemma CodeForm(sum: Checksum, isIP: seq<Byte> -> bool, p: Pairing) returns (token: seq<Byte>, key: seq<Byte>)
    requires Valid(sum, isIP, p)
    ensures |token| == 16 && Encode(Hex, token) == p.token
    ensures if p.onion == "" then key == [] else |key| == 32 && p.onion == OnionAddress(sum, key)
    ensures Code(sum, p) == (if p.onion == "" then "km1-" else "km2-")
                          + Encode(Base64Url, p.fingerprint + token + Ports(p.stratumPort, p.apiPort) + key + p.host)
  {
    token, key := HexBytes(p.token), [];
    NoKey(sum);
    TokenComesBack(p.token);
    FrontIs(p);
    if p.onion != "" {
      key :| |key| == 32 && p.onion == OnionAddress(sum, key);
      KeyOf(sum, p.onion, key);
    }
    hide *;
    CodeOfKey(sum, p, key);
  }

  /** No character of a code needs quoting. */
  lemma CodeCharacters(sum: Checksum, p: Pairing)
    ensures forall c <- Code(sum, p) :: LetterOrDigit(c) || c == '-' || c == '_'
  {
    var raw := Front(p) + (if OnionKey(sum, p.onion).Some? then OnionKey(sum, p.onion).value else []) + p.host;
    CodeOfKey(sum, p, if OnionKey(sum, p.onion).Some? then OnionKey(sum, p.onion).value else []);
    hide OnionKey, Front, Encode, Code;
    EncodedIsWritten(Base64Url, raw);
    UrlCharacters(Encode(Base64Url, raw));
    assert forall c <- "km1-" + "km2-" :: LetterOrDigit(c) || c == '-';
  }

  predicate LetterOrDigit(c: char) {
    '0' <= c <= '9' || 'A' <= c <= 'Z' || 'a' <= c <= 'z'
  }

  lemma UrlCharacters(s: string)
    requires forall c <- s :: Written(Base64Url, c)
    ensures forall c <- s :: LetterOrDigit(c) || c == '-' || c == '_'
  {
  }

  /** A code reads back as the pairing it was made from exactly when that pairing is valid:
      with or without an onion, whatever the checksum and whatever counts as an IP address. */
  lemma CodeRoundTripIff(sum: Checksum, isIP: seq<Byte> -> bool, p: Pairing)
    ensures ParseCode(sum, isIP, Code(sum, p)) == Parsed(p) <==> Valid(sum, isIP, p)
  {
    hide ParseCode, Code, Valid;
    if Valid(sum, isIP, p) {
      ValidComesBack(sum, isIP, p);
    }
    if ParseCode(sum, isIP, Code(sum, p)) == Parsed(p) {
      ParsedIsValid(sum, isIP, Code(sum, p));
    }
  }

  /** "Whitespace around it is forgiven": the pairing is the same. */
  lemma WhitespaceForgiven(sum: Checksum, isIP: seq<Byte> -> bool, before: string, code: string, after: string)
    requires Spaces(before) && Spaces(after)
    ensures ParseCode(sum, isIP, before + TrimSpace(code) + after) == ParseCode(sum, isIP, code)
  {
    TrimmedIsBare(code);
    TrimAround(before, TrimSpace(code), after);
    hide TrimSpace, ParseTrimmed;
  }
}
