/** internal/nodes/zmtp.go: one side of a ZMTP 3.0 NULL handshake (ZeroMQ RFC 23)
    on a connection, and the relay's two handshakes before it splices. */
module Zmtp {
  import opened Bits
  import opened Positional

  const GREETING_LEN: nat := 64
  const MAX_COMMAND: nat := 0x1_0000

  function Fill(n: nat): (r: seq<Byte>)
    ensures |r| == n
  {
    seq(n, _ => 0)
  }

  /** "NULL" and "READY" in ASCII. */
  const NULL: seq<Byte> := [0x4E, 0x55, 0x4C, 0x4C]
  const READY: seq<Byte> := [0x52, 0x45, 0x41, 0x44, 0x59]
  const SOCKET_TYPE: seq<Byte> := [0x53, 0x6F, 0x63, 0x6B, 0x65, 0x74, 0x2D, 0x54, 0x79, 0x70, 0x65]
  const PUB: seq<Byte> := [0x50, 0x55, 0x42]
  const SUB: seq<Byte> := [0x53, 0x55, 0x42]

  /** zmtpGreeting. */
  function Greeting(): (g: seq<Byte>)
    ensures |g| == GREETING_LEN
  {
    [0xFF] + Fill(8) + [0x7F, 3, 0] + NULL + Fill(48)
  }

  function TrimRightZeros(s: seq<Byte>): seq<Byte> {
    if s != [] && s[|s| - 1] == 0 then TrimRightZeros(s[..|s| - 1]) else s
  }

  /** checkGreeting. */
  predicate GreetingAccepted(g: seq<Byte>) {
    && |g| >= GREETING_LEN
    && g[0] == 0xFF && g[9] == 0x7F && g[10] >= 3
    && TrimRightZeros(g[12..32]) == NULL
  }

  lemma {:induction false} TrimmedTail(s: seq<Byte>)
    ensures |TrimRightZeros(s)| <= |s| && s == TrimRightZeros(s) + Fill(|s| - |TrimRightZeros(s)|)
    ensures TrimRightZeros(s) != [] ==> TrimRightZeros(s)[|TrimRightZeros(s)| - 1] != 0
  {
    if s != [] && s[|s| - 1] == 0 {
      TrimmedTail(s[..|s| - 1]);
      assert s == s[..|s| - 1] + [0];
    }
  }

  lemma {:induction false} TrimPadded(s: seq<Byte>, n: nat)
    requires s != [] && s[|s| - 1] != 0
    ensures TrimRightZeros(s + Fill(n)) == s
  {
    if n == 0 {
      assert s + Fill(0) == s;
    } else {
      assert (s + Fill(n))[..|s| + n - 1] == s + Fill(n - 1);
      TrimPadded(s, n - 1);
    }
  }

  /** The mechanism test is the RFC's: "NULL" padded with zeros to 20 bytes. */
  lemma MechanismIsNull(g: seq<Byte>)
    requires |g| >= GREETING_LEN
    ensures TrimRightZeros(g[12..32]) == NULL <==> g[12..32] == NULL + Fill(16)
  {
    TrimmedTail(g[12..32]);
    TrimPadded(NULL, 16);
  }

  lemma OwnGreetingAccepted()
    ensures GreetingAccepted(Greeting())
  {
    assert Greeting()[12..32] == NULL + Fill(16);
    MechanismIsNull(Greeting());
  }

  // ---- the RFC's fields ----

  function Code(c: char): Byte {
    if c as nat < 128 then c as nat else 0
  }

  function Ascii(s: string): (r: seq<Byte>)
    ensures |r| == |s|
  {
    seq(|s|, i requires 0 <= i < |s| => Code(s[i]))
  }

  /** Signature, version 3.0, mechanism in 20 bytes, as-server, filler. */
  lemma GreetingFields()
    ensures Greeting() == [0xFF] + Fill(8) + [0x7F] + [3, 0] + (Ascii("NULL") + Fill(16)) + [0] + Fill(31)
  {
    assert Ascii("NULL") == NULL;
    assert Fill(48) == Fill(16) + [0] + Fill(31);
  }

  /** A greeting by its fields; rest is as-server and filler. */
  predicate IsGreeting(g: seq<Byte>, padding: seq<Byte>, major: Byte, minor: Byte, rest: seq<Byte>) {
    && |padding| == 8 && |rest| == 32
    && g == [0xFF] + padding + [0x7F] + [major, minor] + (Ascii("NULL") + Fill(16)) + rest
  }

  /** Of a greeting the two bytes that frame the signature, the major version and the
      mechanism matter, and nothing else does. */
  lemma GreetingAcceptedIff(g: seq<Byte>)
    requires |g| == 64
    ensures GreetingAccepted(g) <==>
              exists padding, major, minor, rest :: IsGreeting(g, padding, major, minor, rest) && major >= 3
  {
    MechanismIsNull(g);
    assert Ascii("NULL") == NULL;
    hide TrimRightZeros, Ascii, Fill;
    if GreetingAccepted(g) {
      assert IsGreeting(g, g[1..9], g[10], g[11], g[32..]);
    }
    forall padding, major, minor, rest | IsGreeting(g, padding, major, minor, rest) && major >= 3
      ensures GreetingAccepted(g)
    {
      assert g[12..32] == NULL + Fill(16);
    }
  }

  /** zmtpReady. */
  function ReadyFrame(socketType: seq<Byte>): seq<Byte>
    requires |socketType| <= 233
  {
    var body := [5] + READY + [11] + SOCKET_TYPE + [0, 0, 0, |socketType|] + socketType;
    [0x04, |body|] + body
  }

  predicate Bit2(b: Byte) { b / 2 % 2 == 1 }

  predicate Bit4(b: Byte) { b / 4 % 2 == 1 }

  /** How long the frame at the start of s is by its header; none while the header
      is not all there. */
  datatype Length = Unknown | Known(n: nat)

  function FrameLength(s: seq<Byte>): Length {
    if s == [] then Unknown
    else if Bit2(s[0]) then if |s| < 9 then Unknown else Known(9 + Number(s[1..9], 256))
    else if |s| < 2 then Unknown
    else
      var n: nat := s[1];
      Known(2 + n)
  }

  function HeaderLength(flags: Byte): nat {
    if Bit2(flags) then 9 else 2
  }

  /** A READY command, short or long: what RFC 23 lets a peer send here, up to
      the size the relay allows. */
  predicate IsReady(f: seq<Byte>) {
    && f != [] && Bit4(f[0])
    && FrameLength(f) == Known(|f|)
    && |f| - HeaderLength(f[0]) <= MAX_COMMAND
    && (var body := f[HeaderLength(f[0])..]; |body| >= 6 && body[0] == 5 && body[1..6] == READY)
  }

  lemma OwnReadyIsReady(socketType: seq<Byte>)
    requires |socketType| <= 233
    ensures IsReady(ReadyFrame(socketType))
    ensures |ReadyFrame(socketType)| == 24 + |socketType|
  {
    var f := ReadyFrame(socketType);
    assert f[2..][1..6] == READY;
  }

  /** A short command frame: its length, the command's name, and one property with the
      length of its value in four bytes, most significant first. */
  lemma ReadyFields(socketType: seq<Byte>)
    requires |socketType| <= 233
    ensures var size: seq<Byte> := [0, 0, 0, |socketType|];
            && Number(size, 256) == |socketType|
            && ReadyFrame(socketType)
            == [4] + [22 + |socketType|] + [5] + Ascii("READY") + [11] + Ascii("Socket-Type") + size + socketType
    ensures PUB == Ascii("PUB") && SUB == Ascii("SUB")
  {
    assert READY == Ascii("READY") && SOCKET_TYPE == Ascii("Socket-Type");
    SmallNumber(|socketType|);
    hide Number, Ascii;
  }

  lemma SmallNumber(n: Byte)
    ensures Number([0, 0, 0, n], 256) == n
  {
    assert [0, 0, 0, n][..3] == [0, 0, 0] && [0, 0, 0][..2] == [0, 0] && [0, 0][..1] == [0] && [0][..0] == [];
    assert Number([0], 256) == 0 && Number([0, 0], 256) == 0 && Number([0, 0, 0], 256) == 0;
  }

  /** The bits of the flags: 1 for a long frame, 2 for a command. */
  lemma FlagBits(flags: Byte)
    ensures Bit2(flags) == ToBits(flags, 8)[1] && Bit4(flags) == ToBits(flags, 8)[2]
  {
    assert ToBits(flags, 8)[1] == ToBits(flags / 2, 7)[0];
    assert ToBits(flags, 8)[2] == ToBits(flags / 2, 7)[1] == ToBits(flags / 2 / 2, 6)[0];
  }

  /** A frame with this header and body: the size is one byte, or eight in a long frame. */
  predicate IsFrame(f: seq<Byte>, flags: Byte, size: seq<Byte>, body: seq<Byte>) {
    && f == [flags] + size + body
    && |size| == (if ToBits(flags, 8)[1] then 8 else 1)
    && Number(size, 256) == |body|
  }

  lemma ReadyIsFrame(f: seq<Byte>)
    requires IsReady(f)
    ensures var h := HeaderLength(f[0]);
            IsFrame(f, f[0], f[1..h], f[h..]) && ToBits(f[0], 8)[2] && [5] + READY <= f[h..]
  {
    hide Number, ToBits;
    FlagBits(f[0]);
    OneByteNumber(f[1]);
    var h := HeaderLength(f[0]);
    assert f == [f[0]] + f[1..h] + f[h..];
    assert h == 2 ==> f[1..h] == [f[1]];
    assert f[h..][..6] == [5] + READY;
  }

  lemma FrameIsReady(f: seq<Byte>, flags: Byte, size: seq<Byte>, body: seq<Byte>)
    requires IsFrame(f, flags, size, body) && ToBits(flags, 8)[2] && |body| <= 65536 && [5] + READY <= body
    ensures IsReady(f)
  {
    hide Number, ToBits;
    FlagBits(flags);
    OneByteNumber(size[0]);
    assert f[1..1 + |size|] == size && f[1 + |size|..] == body;
    assert |size| == 1 ==> size == [f[1]];
    assert body[..6] == [5] + READY;
    assert body[1..6] == READY;
  }

  /** READY is a command frame, short or long, of at most 65536 bytes whose body begins with
      the length of its name and its name. */
  lemma IsReadyIff(f: seq<Byte>)
    ensures IsReady(f) <==>
              exists flags: Byte, size: seq<Byte>, body: seq<Byte> ::
                && IsFrame(f, flags, size, body) && ToBits(flags, 8)[2]
                && |body| <= 65536 && [5] + Ascii("READY") <= body
  {
    assert READY == Ascii("READY");
    hide *;
    if IsReady(f) {
      ReadyIsFrame(f);
    }
    forall flags: Byte, size: seq<Byte>, body: seq<Byte>
      | IsFrame(f, flags, size, body) && ToBits(flags, 8)[2] && |body| <= 65536 && [5] + READY <= body
      ensures IsReady(f)
    {
      FrameIsReady(f, flags, size, body);
    }
  }

  lemma OneByteNumber(n: Byte)
    ensures Number([n], 256) == n
  {
    assert [n][..0] == [];
  }

  /** The header fixes the length, so no READY is the beginning of another stream's. */
  lemma LengthFromPrefix(f: seq<Byte>, rest: seq<Byte>)
    requires FrameLength(f).Known?
    ensures FrameLength(f + rest) == FrameLength(f)
  {
    if Bit2(f[0]) {
      assert (f + rest)[1..9] == f[1..9];
    }
  }

  lemma ReadyPrefixFree(f: seq<Byte>, g: seq<Byte>, x: seq<Byte>, y: seq<Byte>)
    requires IsReady(f) && IsReady(g) && f + x == g + y
    ensures f == g && x == y
  {
    LengthFromPrefix(f, x);
    LengthFromPrefix(g, y);
    assert f == (f + x)[..|f|] && g == (g + y)[..|g|];
    assert x == (f + x)[|f|..] && y == (g + y)[|g|..];
  }

  /** The READY at the start of a stream, if there is one. */
  function ReadyAtStart(s: seq<Byte>): Length {
    match FrameLength(s)
    case Known(n) => if n <= |s| && IsReady(s[..n]) then Known(n) else Unknown
    case Unknown => Unknown
  }

  lemma ReadyAtStartIs(s: seq<Byte>, n: nat)
    ensures ReadyAtStart(s) == Known(n) <==> n <= |s| && IsReady(s[..n])
  {
    if n <= |s| && IsReady(s[..n]) {
      LengthFromPrefix(s[..n], s[n..]);
      assert s[..n] + s[n..] == s;
    }
  }

  // ---- connections ----

  /** A connection: the bytes still to come in, the bytes gone out, and whether it
      is closed, after which every call on it fails. */
  class Conn {
    var input: seq<Byte>
    var output: seq<Byte>
    var closed: bool

    constructor (input: seq<Byte>)
      ensures this.input == input && output == [] && !closed
    {
      this.input, output, closed := input, [], false;
    }

    method Write(b: seq<Byte>) returns (ok: bool)
      modifies this`output
      ensures ok == !closed
      ensures output == if ok then old(output) + b else old(output)
    {
      ok := !closed;
      if ok {
        output := output + b;
      }
    }

    /** io.ReadFull: n bytes, or an error when the stream ends first. */
    method ReadFull(n: nat) returns (b: seq<Byte>, ok: bool)
      modifies this`input
      ensures ok <==> !closed && n <= |old(input)|
      ensures ok ==> b == old(input)[..n] && input == old(input)[n..]
    {
      if closed {
        return [], false;
      } else if |input| < n {
        b, ok, input := input, false, [];
      } else {
        b, ok, input := input[..n], true, input[n..];
      }
    }

    method Close()
      modifies this`closed
      ensures closed
    {
      closed := true;
    }
  }

  /** readReady: the reads follow the header, so exactly the frame is taken. */
  method ReadReady(c: Conn) returns (ok: bool)
    modifies c`input
    ensures ok <==> !c.closed && ReadyAtStart(old(c.input)).Known?
    ensures ok ==> c.input == old(c.input)[ReadyAtStart(old(c.input)).n..]
  {
    hide Number, READY, TrimRightZeros;
    ghost var s := c.input;
    var flags, got := c.ReadFull(1);
    if !got || !Bit4(flags[0]) {
      return false;
    }
    var size: nat;
    if Bit2(flags[0]) {
      var n, gotSize := c.ReadFull(8);
      if !gotSize {
        return false;
      }
      assert n == s[1..9];
      size := Number(n, 256);
    } else {
      var n, gotSize := c.ReadFull(1);
      if !gotSize {
        return false;
      }
      size := n[0];
    }
    ghost var h := HeaderLength(flags[0]);
    assert FrameLength(s) == Known(h + size) && c.input == s[h..];
    if size > MAX_COMMAND {
      return false;
    }
    var body, gotBody := c.ReadFull(size);
    if !gotBody {
      return false;
    }
    assert s[..h + size][h..] == body;
    LengthOfTaken(s, h + size);
    if |body| < 6 || body[0] != 5 || body[1..6] != READY {
      return false;
    }
    assert IsReady(s[..h + size]);
    return true;
  }

  lemma LengthOfTaken(s: seq<Byte>, n: nat)
    requires FrameLength(s) == Known(n) && n <= |s|
    ensures FrameLength(s[..n]) == Known(n)
  {
    if Bit2(s[0]) {
      assert s[..n][1..9] == s[1..9];
    }
  }

  /** What a handshake needs at the start of its stream. */
  predicate Acceptable(s: seq<Byte>) {
    |s| >= GREETING_LEN && GreetingAccepted(s[..GREETING_LEN]) && ReadyAtStart(s[GREETING_LEN..]).Known?
  }

  /** How much of an acceptable stream is its handshake. */
  function HandshakeLength(s: seq<Byte>): nat
    requires Acceptable(s)
  {
    GREETING_LEN + ReadyAtStart(s[GREETING_LEN..]).n
  }

  /** zmtpHandshake. It reads exactly the peer's greeting and READY. */
  method Handshake(c: Conn, socketType: seq<Byte>) returns (ok: bool)
    requires |socketType| <= 233
    modifies c`input, c`output
    ensures ok <==> !c.closed && Acceptable(old(c.input))
    ensures ok ==> c.input == old(c.input)[HandshakeLength(old(c.input))..]
    ensures ok ==> c.output == old(c.output) + Greeting() + ReadyFrame(socketType)
    ensures old(c.output) <= c.output <= old(c.output) + Greeting() + ReadyFrame(socketType)
  {
    hide Greeting, ReadyFrame, GreetingAccepted, ReadyAtStart;
    var written := c.Write(Greeting());
    if !written {
      return false;
    }
    var g, got := c.ReadFull(GREETING_LEN);
    if !got || !GreetingAccepted(g) {
      return false;
    }
    written := c.Write(ReadyFrame(socketType));
    if !written {
      return false;
    }
    ok := ReadReady(c);
    assert old(c.input)[..GREETING_LEN] == g;
    if ok {
      ghost var n := ReadyAtStart(old(c.input)[GREETING_LEN..]).n;
      ReadyAtStartIs(old(c.input)[GREETING_LEN..], n);
      assert old(c.input)[GREETING_LEN..][n..] == old(c.input)[GREETING_LEN + n..];
    }
  }

  /** Where one io.Copy is: about to read, holding what it read, or over. */
  datatype Copy = Reading | Writing(chunk: seq<Byte>) | Over

  function CopyRank(c: Copy, input: seq<Byte>): nat {
    match c
    case Reading => 2 * |input| + 1
    case Writing(_) => 2 * |input| + 2
    case Over => 0
  }

  /** What a copy has done with the stream it started on: put some of it out and, before
      anything was closed, lost none. */
  predicate Copied(c: Copy, stream: seq<Byte>, input: seq<Byte>, put: nat, closing: bool) {
    && put <= |stream|
    && (c.Reading? ==> stream[put..] == input)
    && (c.Writing? ==> stream[put..] == c.chunk + input)
    && (c.Over? && !closing ==> put == |stream|)
  }

  /** One read or one write of a copy. A read takes any part of what is still to come, and
      finds the end only when nothing is; a closed connection fails both, and a chunk that
      cannot be written is lost. */
  method CopyStep(src: Conn, dst: Conn, c: Copy, ghost stream: seq<Byte>, put: nat, ghost base: seq<Byte>)
    returns (d: Copy, out: nat)
    requires src != dst && !c.Over?
    requires Copied(c, stream, src.input, put, src.closed || dst.closed) && dst.output == base + stream[..put]
    modifies src`input, dst`output
    ensures Copied(d, stream, src.input, out, src.closed || dst.closed) && dst.output == base + stream[..out]
    ensures put <= out && (c.Reading? || dst.closed ==> out == put)
    ensures CopyRank(d, src.input) < CopyRank(c, old(src.input))
  {
    out := put;
    match c
    case Reading =>
      if src.closed || src.input == [] {
        return Over, out;
      }
      var n :| 1 <= n <= |src.input|;
      d := Writing(src.input[..n]);
      src.input := src.input[n..];
      assert old(src.input) == d.chunk + src.input;
    case Writing(chunk) =>
      var ok := dst.Write(chunk);
      if ok {
        assert base + stream[..put] + chunk == base + (stream[..put] + chunk);
        out := put + |chunk|;
      }
      d := if ok then Reading else Over;
  }

  /** splice: both copies run, chunk by chunk and in any order, until one of them is over,
      which has both connections closed, at any moment of the other copy; sent and received
      are how far each copy got. */
  method Splice(local: Conn, node: Conn) returns (sent: nat, received: nat)
    requires local != node && !local.closed && !node.closed
    modifies local, node
    ensures sent <= |old(local.input)| && received <= |old(node.input)|
    ensures sent == |old(local.input)| || received == |old(node.input)|
    ensures node.output == old(node.output) + old(local.input)[..sent]
    ensures local.output == old(local.output) + old(node.input)[..received]
    ensures local.closed && node.closed
  {
    ghost var up, down := local.input, node.input;
    ghost var toNode, toLocal := node.output, local.output;
    var there, back := Reading, Reading;
    sent, received := 0, 0;
    assert Copied(there, up, local.input, 0, false) && Copied(back, down, node.input, 0, false);
    hide Copied, CopyRank;
    while !(there.Over? && back.Over? && local.closed && node.closed)
      invariant sent <= |up| && received <= |down|
      invariant Copied(there, up, local.input, sent, local.closed || node.closed)
      invariant Copied(back, down, node.input, received, local.closed || node.closed)
      invariant local.closed || node.closed || there.Over? || back.Over? ==> sent == |up| || received == |down|
      invariant node.output == toNode + up[..sent] && local.output == toLocal + down[..received]
      decreases CopyRank(there, local.input) + CopyRank(back, node.input) +
                (if local.closed then 0 else 1) + (if node.closed then 0 else 1)
    {
      if {
        case !there.Over? =>
          there, sent := CopyStep(local, node, there, up, sent, toNode);
        case !back.Over? =>
          back, received := CopyStep(node, local, back, down, received, toLocal);
        case (there.Over? || back.Over?) && !local.closed =>
          local.Close();
        case (there.Over? || back.Over?) && local.closed && !node.closed =>
          node.Close();
      }
    }
  }

  /** forwardZMQ once the node is dialled: both handshakes, then the splice. The
      node hears the relay's own handshake and then, byte for byte, what p2pool sent
      after its own, and the other way round; a failed handshake forwards nothing. */
  method ForwardZmq(local: Conn, node: Conn) returns (ok: bool, sent: nat, received: nat)
    requires local != node && !local.closed && !node.closed && local.output == [] && node.output == []
    modifies local, node
    ensures ok <==> Acceptable(old(local.input)) && Acceptable(old(node.input))
    ensures ok ==>
      && var subscriptions := old(local.input)[HandshakeLength(old(local.input))..];
      && var published := old(node.input)[HandshakeLength(old(node.input))..];
      && sent <= |subscriptions| && received <= |published|
      && (sent == |subscriptions| || received == |published|)
      && node.output == Greeting() + ReadyFrame(SUB) + subscriptions[..sent]
      && local.output == Greeting() + ReadyFrame(PUB) + published[..received]
    ensures !ok ==> node.output <= Greeting() + ReadyFrame(SUB) && local.output <= Greeting() + ReadyFrame(PUB)
    ensures local.closed && node.closed
  {
    hide Greeting, ReadyFrame, Acceptable, HandshakeLength;
    sent, received := 0, 0;
    var nodeOk := Handshake(node, SUB);
    var localOk := Handshake(local, PUB);
    assert [] + Greeting() == Greeting();
    ok := nodeOk && localOk;
    if ok {
      sent, received := Splice(local, node);
    } else {
      local.Close();
      node.Close();
    }
  }

  /** Any peer that greets acceptably and sends a READY, short or long, leaves the
      relay at the first byte after them. */
  lemma PeerStream(g: seq<Byte>, f: seq<Byte>, rest: seq<Byte>)
    requires |g| == GREETING_LEN && GreetingAccepted(g) && IsReady(f)
    ensures Acceptable(g + f + rest)
    ensures HandshakeLength(g + f + rest) == |g| + |f|
    ensures (g + f + rest)[HandshakeLength(g + f + rest)..] == rest
  {
    hide GreetingAccepted, IsReady;
    var s := g + f + rest;
    assert s[..GREETING_LEN] == g;
    assert s[GREETING_LEN..] == f + rest;
    assert (f + rest)[..|f|] == f;
    ReadyAtStartIs(f + rest, |f|);
  }
}
