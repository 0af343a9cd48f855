/** Two peers running zmtpHandshake against each other over two FIFO byte streams
    of bounded size, with every interleaving and fragmentation of the writes and
    reads: when they both finish, when they never do, and what they consume. */
module ZmtpPeers {
  import opened Bits
  import opened Zmtp

  /** What one side sends, and how many bytes its direction can hold unread. */
  datatype Side = Side(greeting: seq<Byte>, ready: seq<Byte>, room: nat) {
    predicate Valid() {
      |greeting| == GREETING_LEN && GreetingAccepted(greeting) && IsReady(ready)
    }

    function Out(): seq<Byte> {
      greeting + ready
    }
  }

  datatype Peer = Peer(sent: nat, got: seq<Byte>)

  datatype Config = Config(a: Side, b: Side) {
    predicate Valid() {
      a.Valid() && b.Valid()
    }
  }

  datatype State = State(a: Peer, b: Peer, ab: seq<Byte>, ba: seq<Byte>)

  datatype Step = WriteA(k: nat) | ReadA(k: nat) | WriteB(k: nat) | ReadB(k: nat)

  function Init(): State {
    State(Peer(0, []), Peer(0, []), [], [])
  }

  /** What the read in progress inside readReady still waits for. */
  function Need(f: seq<Byte>): nat {
    match FrameLength(f)
    case Known(n) => if n > |f| then n - |f| else 0
    case Unknown => if f == [] then 1 else if Bit2(f[0]) then 9 - |f| else 1
  }

  /** What the Write in progress still has to put: the greeting before anything is
      read, READY once the peer's greeting has been. */
  function ToWrite(s: Side, p: Peer): nat {
    if p.sent < GREETING_LEN then GREETING_LEN - p.sent
    else if |p.got| >= GREETING_LEN && p.sent < GREETING_LEN + |s.ready| then GREETING_LEN + |s.ready| - p.sent
    else 0
  }

  function ToRead(s: Side, p: Peer): nat {
    if p.sent < GREETING_LEN then 0
    else if |p.got| < GREETING_LEN then GREETING_LEN - |p.got|
    else if p.sent < GREETING_LEN + |s.ready| then 0
    else Need(p.got[GREETING_LEN..])
  }

  predicate Finished(s: Side, p: Peer) {
    ToWrite(s, p) == 0 && ToRead(s, p) == 0
  }

  predicate Enabled(c: Config, s: State, e: Step) {
    match e
    case WriteA(k) => 1 <= k <= ToWrite(c.a, s.a) && |s.ab| + k <= c.a.room
    case WriteB(k) => 1 <= k <= ToWrite(c.b, s.b) && |s.ba| + k <= c.b.room
    case ReadA(k) => 1 <= k <= ToRead(c.a, s.a) && k <= |s.ba|
    case ReadB(k) => 1 <= k <= ToRead(c.b, s.b) && k <= |s.ab|
  }

  function Next(c: Config, s: State, e: Step): State
    requires c.Valid() && Enabled(c, s, e)
  {
    match e
    case WriteA(k) => s.(a := Peer(s.a.sent + k, s.a.got), ab := s.ab + c.a.Out()[s.a.sent..s.a.sent + k])
    case WriteB(k) => s.(b := Peer(s.b.sent + k, s.b.got), ba := s.ba + c.b.Out()[s.b.sent..s.b.sent + k])
    case ReadA(k) => s.(a := Peer(s.a.sent, s.a.got + s.ba[..k]), ba := s.ba[k..])
    case ReadB(k) => s.(b := Peer(s.b.sent, s.b.got + s.ab[..k]), ab := s.ab[k..])
  }

  /** One side: what it sent is what the other read and what is still in between, and
      its own writes and reads have kept the order of the code. */
  predicate SideInv(s: Side, p: Peer, stream: seq<Byte>, other: Peer, otherLength: nat) {
    && s.Valid()
    && p.sent <= GREETING_LEN + |s.ready|
    && other.got + stream == s.Out()[..p.sent]
    && |stream| <= s.room
    && |p.got| <= otherLength
    && (p.got != [] ==> p.sent >= GREETING_LEN)
    && (|p.got| > GREETING_LEN ==> p.sent == GREETING_LEN + |s.ready|)
    && (p.sent > GREETING_LEN ==> |p.got| >= GREETING_LEN)
  }

  predicate Inv(c: Config, s: State) {
    && SideInv(c.a, s.a, s.ab, s.b, |c.b.Out()|)
    && SideInv(c.b, s.b, s.ba, s.a, |c.a.Out()|)
  }

  // ---- readReady never asks for a byte past the frame ----

  lemma NeedWithinFrame(f: seq<Byte>, n: nat)
    requires IsReady(f) && n <= |f|
    ensures n < |f| ==> 0 < Need(f[..n]) <= |f| - n
    ensures n == |f| ==> Need(f[..n]) == 0
  {
    if n == |f| {
      assert f[..n] == f;
    } else if FrameLength(f[..n]).Known? {
      LengthFromPrefix(f[..n], f[n..]);
      assert f[..n] + f[n..] == f;
    }
  }

  /** A peer that has read a prefix of the other's stream wants no more of it than
      is there, and nothing exactly when it has it all. */
  lemma WantsWithinStream(me: Side, p: Peer, other: Side)
    requires other.Valid() && |p.got| <= |other.Out()| && p.got == other.Out()[..|p.got|]
    ensures ToRead(me, p) <= |other.Out()| - |p.got|
    ensures p.sent >= GREETING_LEN + |me.ready| ==> (ToRead(me, p) == 0 <==> p.got == other.Out())
  {
    if |p.got| >= GREETING_LEN {
      assert p.got[GREETING_LEN..] == other.ready[..|p.got| - GREETING_LEN];
      NeedWithinFrame(other.ready, |p.got| - GREETING_LEN);
      if p.got == other.Out() {
      } else {
        assert |p.got| < |other.Out()|;
      }
    }
  }

  lemma GotIsPrefix(c: Config, s: State)
    requires Inv(c, s)
    ensures s.a.got == c.b.Out()[..|s.a.got|] && s.b.got == c.a.Out()[..|s.b.got|]
    ensures |s.a.got| + |s.ba| == s.b.sent && |s.b.got| + |s.ab| == s.a.sent
  {
    assert s.a.got == (s.a.got + s.ba)[..|s.a.got|];
    assert s.b.got == (s.b.got + s.ab)[..|s.b.got|];
  }

  // ---- every step ----

  function Measure(c: Config, s: State): int {
    2 * |c.a.Out()| + 2 * |c.b.Out()| - s.a.sent - s.b.sent - |s.a.got| - |s.b.got|
  }

  function Flip(s: State): State {
    State(s.b, s.a, s.ba, s.ab)
  }

  function FlipConfig(c: Config): Config {
    Config(c.b, c.a)
  }

  function FlipStep(e: Step): Step {
    match e
    case WriteA(k) => WriteB(k)
    case WriteB(k) => WriteA(k)
    case ReadA(k) => ReadB(k)
    case ReadB(k) => ReadA(k)
  }

  lemma WriteOfA(c: Config, s: State, k: nat)
    requires Inv(c, s) && Enabled(c, s, WriteA(k))
    ensures Inv(c, Next(c, s, WriteA(k)))
    ensures 0 <= Measure(c, Next(c, s, WriteA(k))) < Measure(c, s)
  {
    hide GreetingAccepted, IsReady, Need;
    GotIsPrefix(c, s);
    var t, out := Next(c, s, WriteA(k)), c.a.Out();
    ghost var more := out[s.a.sent..s.a.sent + k];
    assert out[..s.a.sent + k] == out[..s.a.sent] + more;
    assert t.b.got + t.ab == (s.b.got + s.ab) + more;
    assert SideInv(c.a, t.a, t.ab, t.b, |c.b.Out()|);
    assert SideInv(c.b, t.b, t.ba, t.a, |c.a.Out()|);
  }

  lemma ReadOfA(c: Config, s: State, k: nat)
    requires Inv(c, s) && Enabled(c, s, ReadA(k))
    ensures Inv(c, Next(c, s, ReadA(k)))
    ensures 0 <= Measure(c, Next(c, s, ReadA(k))) < Measure(c, s)
  {
    hide GreetingAccepted, IsReady, Need;
    GotIsPrefix(c, s);
    WantsWithinStream(c.a, s.a, c.b);
    var t := Next(c, s, ReadA(k));
    assert s.ba == s.ba[..k] + s.ba[k..];
    assert t.a.got + t.ba == s.a.got + s.ba;
    assert SideInv(c.a, t.a, t.ab, t.b, |c.b.Out()|);
    assert SideInv(c.b, t.b, t.ba, t.a, |c.a.Out()|);
  }

  lemma StepOfA(c: Config, s: State, e: Step)
    requires Inv(c, s) && Enabled(c, s, e) && (e.WriteA? || e.ReadA?)
    ensures Inv(c, Next(c, s, e))
    ensures 0 <= Measure(c, Next(c, s, e)) < Measure(c, s)
  {
    hide Inv, Enabled, Next, Measure;
    if e.WriteA? {
      WriteOfA(c, s, e.k);
    } else {
      ReadOfA(c, s, e.k);
    }
  }

  lemma StepKeepsInv(c: Config, s: State, e: Step)
    requires Inv(c, s) && Enabled(c, s, e)
    ensures Inv(c, Next(c, s, e))
    ensures 0 <= Measure(c, Next(c, s, e)) < Measure(c, s)
  {
    if e.WriteA? || e.ReadA? {
      StepOfA(c, s, e);
    } else {
      StepOfA(FlipConfig(c), Flip(s), FlipStep(e));
      assert Flip(Next(FlipConfig(c), Flip(s), FlipStep(e))) == Next(c, s, e);
    }
  }

  // ---- when the handshake finishes ----

  /** Both directions carry bytes, one of them holds the whole greeting, and one of
      them its whole READY. */
  predicate RoomEnough(c: Config) {
    && c.a.room >= 1 && c.b.room >= 1
    && (c.a.room >= GREETING_LEN || c.b.room >= GREETING_LEN)
    && (c.a.room >= |c.a.ready| || c.b.room >= |c.b.ready|)
  }

  predicate BothFinished(c: Config, s: State) {
    Finished(c.a, s.a) && Finished(c.b, s.b)
  }

  /** A that has not finished, in a state where nobody can move: it is writing into a
      full direction, and so is the other. */
  lemma StuckWriting(c: Config, s: State)
    requires Inv(c, s) && c.a.room >= 1 && c.b.room >= 1
    requires forall e :: !Enabled(c, s, e)
    requires !Finished(c.a, s.a)
    ensures ToWrite(c.a, s.a) > 0 && |s.ab| == c.a.room && ToWrite(c.b, s.b) > 0 && |s.ba| == c.b.room
  {
    hide GreetingAccepted, IsReady, Need;
    GotIsPrefix(c, s);
    WantsWithinStream(c.a, s.a, c.b);
    WantsWithinStream(c.b, s.b, c.a);
    assert !Enabled(c, s, WriteA(1)) && !Enabled(c, s, WriteB(1));
    assert !Enabled(c, s, ReadA(1)) && !Enabled(c, s, ReadB(1));
  }

  lemma FlipEnabled(c: Config, s: State, e: Step)
    ensures Enabled(FlipConfig(c), Flip(s), FlipStep(e)) <==> Enabled(c, s, e)
    ensures FlipStep(FlipStep(e)) == e
  {
  }

  lemma NoDeadlock(c: Config, s: State)
    requires Inv(c, s) && RoomEnough(c)
    requires forall e :: !Enabled(c, s, e)
    ensures BothFinished(c, s)
  {
    hide GreetingAccepted, IsReady, Need;
    if !Finished(c.a, s.a) {
      StuckWriting(c, s);
      BothWriting(c, s);
    } else if !Finished(c.b, s.b) {
      forall e
        ensures !Enabled(FlipConfig(c), Flip(s), e)
      {
        FlipEnabled(c, s, FlipStep(e));
        FlipEnabled(FlipConfig(c), Flip(s), e);
      }
      StuckWriting(FlipConfig(c), Flip(s));
      BothWriting(c, s);
    }
  }

  /** Both writing into full directions is exactly what too little room allows. */
  lemma BothWriting(c: Config, s: State)
    requires Inv(c, s)
    requires ToWrite(c.a, s.a) > 0 && |s.ab| == c.a.room && ToWrite(c.b, s.b) > 0 && |s.ba| == c.b.room
    ensures !RoomEnough(c)
  {
    hide GreetingAccepted, IsReady, Need;
    GotIsPrefix(c, s);
  }

  /** With too little room some write is never over. */
  predicate Held(c: Config, s: State) {
    && (c.a.room == 0 ==> s.b.got == [])
    && (c.b.room == 0 ==> s.a.got == [])
    && (c.a.room < GREETING_LEN && c.b.room < GREETING_LEN ==> s.a.sent < GREETING_LEN && s.b.sent < GREETING_LEN)
    && (c.a.room < |c.a.ready| && c.b.room < |c.b.ready| ==>
          s.a.sent < GREETING_LEN + |c.a.ready| && s.b.sent < GREETING_LEN + |c.b.ready|)
  }

  lemma HeldStep(c: Config, s: State, e: Step)
    requires Inv(c, s) && Held(c, s) && Enabled(c, s, e)
    ensures Held(c, Next(c, s, e))
  {
    hide GreetingAccepted, IsReady, Need;
    GotIsPrefix(c, s);
  }

  lemma HeldUnfinished(c: Config, s: State)
    requires Inv(c, s) && Held(c, s) && !RoomEnough(c)
    ensures !BothFinished(c, s)
  {
    hide GreetingAccepted, IsReady, Need;
  }

  // ---- whole runs ----

  predicate StepsTo(c: Config, r: State, e: Step, s: State)
    requires c.Valid()
  {
    Enabled(c, r, e) && s == Next(c, r, e)
  }

  ghost predicate IsRun(c: Config, steps: seq<Step>, s: State)
    requires c.Valid()
    decreases |steps|
  {
    if steps == [] then s == Init()
    else
      var n := |steps| - 1;
      exists r :: IsRun(c, steps[..n], r) && StepsTo(c, r, steps[n], s)
  }

  lemma {:induction false} RunsKeepInv(c: Config, steps: seq<Step>, s: State)
    requires c.Valid() && IsRun(c, steps, s)
    ensures Inv(c, s) && Held(c, s)
    ensures |steps| + Measure(c, s) <= 2 * |c.a.Out()| + 2 * |c.b.Out()| && Measure(c, s) >= 0
    decreases |steps|
  {
    hide GreetingAccepted, IsReady, Next, Enabled;
    if steps != [] {
      var n := |steps| - 1;
      var r :| IsRun(c, steps[..n], r) && StepsTo(c, r, steps[n], s);
      RunsKeepInv(c, steps[..n], r);
      StepKeepsInv(c, r, steps[n]);
      HeldStep(c, r, steps[n]);
    }
  }

  /** Every run is short, and one that cannot go on has both sides finished if and
      only if there was room enough; then each has read exactly what the other's
      handshake sent, and nothing is left between them. */
  lemma HandshakesFinishIffRoom(c: Config, steps: seq<Step>, s: State)
    requires c.Valid() && IsRun(c, steps, s)
    ensures |steps| <= 2 * |c.a.Out()| + 2 * |c.b.Out()|
    ensures (forall e :: !Enabled(c, s, e)) ==> (BothFinished(c, s) <==> RoomEnough(c))
    ensures BothFinished(c, s) ==> RoomEnough(c)
    ensures BothFinished(c, s) ==>
      s.a.got == c.b.Out() && s.b.got == c.a.Out() && s.ab == [] && s.ba == []
  {
    hide GreetingAccepted, IsReady, Enabled, Next, IsRun, Need;
    RunsKeepInv(c, steps, s);
    if !RoomEnough(c) {
      HeldUnfinished(c, s);
    } else if forall e :: !Enabled(c, s, e) {
      NoDeadlock(c, s);
    }
    if BothFinished(c, s) {
      GotIsPrefix(c, s);
      WantsWithinStream(c.a, s.a, c.b);
      WantsWithinStream(c.b, s.b, c.a);
    }
  }

  /** Between two of the source's own handshakes READY is shorter than the greeting,
      so one direction that buffers a greeting is enough, and needed. */
  lemma OwnPeersFinish(roomA: nat, roomB: nat, typeA: seq<Byte>, typeB: seq<Byte>)
    requires |typeA| <= 40 && |typeB| <= 40
    ensures var c := Config(Side(Greeting(), ReadyFrame(typeA), roomA), Side(Greeting(), ReadyFrame(typeB), roomB));
            && c.Valid()
            && (RoomEnough(c) <==>
                  roomA >= 1 && roomB >= 1 && (roomA >= GREETING_LEN || roomB >= GREETING_LEN))
  {
    OwnGreetingAccepted();
    OwnReadyIsReady(typeA);
    OwnReadyIsReady(typeB);
    hide GreetingAccepted, IsReady, Greeting, ReadyFrame;
  }
}
