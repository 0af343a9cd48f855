/** internal/nodes/relay.go as a state machine: acceptors, forwarders, the dialling
    child of a ZMQ forwarder, the tracked connections, and Close. One step is one
    locked section, one call on a connection, or one channel operation. */
module Relay {
  import opened Runs
  import opened Wrappers

  /** A connection: whether it is open, whether it is in the conns map, and the
      forwarder it belongs to, or the acceptor still holding it. */
  datatype Conn = Conn(open: bool, tracked: bool, owner: int)

  const RPC_ACCEPTOR: int := -1
  const ZMQ_ACCEPTOR: int := -2

  datatype Acceptor = Listening | Handing(c: nat) | Exited

  /** Where a forwarder is. Only forward dials and tracks the remote itself; only
      forwardZMQ handshakes, and gets the remote from its child. */
  datatype Pc =
    | Start
    | Refused
    | Dialling
    | Handshaking
    | AbandonClose
    | AbandonWait
    | DropUntrack(r: nat)
    | DropClose(r: nat)
    | Receive
    | Note(d: Option<nat>)
    | TrackRemote(r: nat)
    | RefuseRemote(r: nat)
    | CloseLocal
    | Splicing(r: nat)
    | SpliceCloseLocal(r: nat)
    | SpliceCloseRemote(r: nat)
    | Draining(r: nat)
    | UntrackRemote(r: nat)
    | UntrackLocal
    | Finished

  datatype Child =
    | NoChild
    | ChildDial
    | ChildTrack(r: nat)
    | ChildRefused(r: nat)
    | ChildHandshake(r: nat)
    | ChildUntrack(r: nat)
    | ChildClose(r: nat)
    | Sent(d: Option<nat>)
    | Taken

  /** abandoned: the forwarder has cancelled its own dial context. */
  datatype Forwarder = Forwarder(zmq: bool, local: nat, pc: Pc, child: Child, abandoned: bool)

  /** The call of Close that found the relay open. */
  datatype Closer = NotCalled | Holding | Waiting | Returned

  datatype State = State(
    table: seq<Conn>, fwds: seq<Forwarder>, rpc: Acceptor, zmq: Acceptor,
    closed: bool, listening: bool, closer: Closer, wg: int, laterReturned: bool)

  datatype Event =
    | Accept(zmq: bool)
    | AcceptError(zmq: bool)
    | Spawn(zmq: bool)
    | Forward(i: nat, ok: bool)
    | Childs(i: nat, ok: bool)
    | CloseBegin
    | CloseListeners
    | CloseConn(c: nat)
    | CloseUnlock
    | CloseReturn
    | CloseAgain

  function Init(): State {
    State([], [], Listening, Listening, false, true, NotCalled, 2, false)
  }

  /** The relay's mutex: only Close holds it over more than one step. */
  predicate LockFree(s: State) {
    !s.closer.Holding?
  }

  // ---- steps ----

  function AcceptorOf(s: State, zmq: bool): Acceptor {
    if zmq then s.zmq else s.rpc
  }

  function WithAcceptor(s: State, zmq: bool, a: Acceptor): State {
    if zmq then s.(zmq := a) else s.(rpc := a)
  }

  function AcceptorId(zmq: bool): int {
    if zmq then ZMQ_ACCEPTOR else RPC_ACCEPTOR
  }

  /** What a step does to the connections. */
  datatype Effect = Nothing | Opens | Closes(c: nat) | Tracks(c: nat) | Untracks(c: nat)

  /** The connections after a step of forwarder i. */
  function Apply(table: seq<Conn>, i: int, e: Effect): seq<Conn> {
    match e
    case Nothing => table
    case Opens => table + [Conn(true, false, i)]
    case Closes(c) => if c < |table| then table[c := table[c].(open := false)] else table
    case Tracks(c) => if c < |table| then table[c := table[c].(tracked := true)] else table
    case Untracks(c) => if c < |table| then table[c := table[c].(tracked := false)] else table
  }

  predicate NeedsLock(pc: Pc) {
    pc.Start? || pc.Note? || pc.TrackRemote? || pc.UntrackRemote? || pc.UntrackLocal? || pc.DropUntrack?
  }

  /** Only dials and handshakes can fail. */
  predicate ForwardEnabled(s: State, f: Forwarder, ok: bool) {
    && (NeedsLock(f.pc) ==> LockFree(s))
    && (ok || f.pc.Dialling? || f.pc.Handshaking?)
    && match f.pc
       case Finished => false
       case Receive => f.child.Sent?
       case AbandonWait => f.child.Sent?
       case Handshaking => ok ==> f.local < |s.table| && s.table[f.local].open
       case _ => true
  }

  predicate ChildEnabled(s: State, f: Forwarder, ok: bool) {
    && (ok || f.child.ChildDial? || f.child.ChildHandshake?)
    && match f.child
       case NoChild => false
       case Sent(_) => false
       case Taken => false
       case ChildTrack(_) => LockFree(s)
       case ChildUntrack(_) => LockFree(s)
       case ChildHandshake(r) => ok ==> r < |s.table| && s.table[r].open
       case _ => true
  }

  predicate Enabled(s: State, e: Event) {
    match e
    case Accept(zmq) => AcceptorOf(s, zmq).Listening? && s.listening
    case AcceptError(zmq) => AcceptorOf(s, zmq).Listening?
    case Spawn(zmq) => AcceptorOf(s, zmq).Handing?
    case Forward(i, ok) => i < |s.fwds| && ForwardEnabled(s, s.fwds[i], ok)
    case Childs(i, ok) => i < |s.fwds| && ChildEnabled(s, s.fwds[i], ok)
    case CloseBegin => s.closer.NotCalled?
    case CloseListeners => s.closer.Holding? && s.listening
    case CloseConn(c) => s.closer.Holding? && !s.listening && c < |s.table| && s.table[c].tracked && s.table[c].open
    case CloseUnlock =>
      s.closer.Holding? && !s.listening && forall c :: 0 <= c < |s.table| && s.table[c].tracked ==> !s.table[c].open
    case CloseReturn => s.closer.Waiting? && s.wg == 0
    case CloseAgain => s.closed && LockFree(s) && !s.laterReturned
  }

  /** Where a forwarder goes from its step; next is the connection a dial would make. */
  function ForwardPc(f: Forwarder, closed: bool, next: nat, ok: bool): Pc {
    match f.pc
    case Start => if closed then Refused else if f.zmq then Handshaking else Dialling
    case Refused => Finished
    case Dialling => Note(if ok then Some(next) else None)
    case Handshaking => if ok then Receive else AbandonClose
    case AbandonClose => AbandonWait
    case AbandonWait => if f.child.Sent? && f.child.d.Some? then DropUntrack(f.child.d.value) else UntrackLocal
    case DropUntrack(r) => DropClose(r)
    case DropClose(_) => UntrackLocal
    case Receive => Note(if f.child.Sent? then f.child.d else None)
    case Note(d) => if d.None? then CloseLocal else if f.zmq then Splicing(d.value) else TrackRemote(d.value)
    case TrackRemote(r) => if closed then RefuseRemote(r) else Splicing(r)
    case RefuseRemote(_) => CloseLocal
    case CloseLocal => UntrackLocal
    case Splicing(r) => SpliceCloseLocal(r)
    case SpliceCloseLocal(r) => SpliceCloseRemote(r)
    case SpliceCloseRemote(r) => Draining(r)
    case Draining(r) => UntrackRemote(r)
    case UntrackRemote(_) => UntrackLocal
    case UntrackLocal => Finished
    case Finished => Finished
  }

  function ForwardStep(f: Forwarder, closed: bool, next: nat, ok: bool): Forwarder {
    var pc := ForwardPc(f, closed, next, ok);
    var child := if pc.Handshaking? then ChildDial else if f.pc.Receive? || f.pc.AbandonWait? then Taken else f.child;
    Forwarder(f.zmq, f.local, pc, child, f.abandoned || f.pc.AbandonClose?)
  }

  function ForwardEffect(f: Forwarder, closed: bool, ok: bool): Effect {
    match f.pc
    case Start => if closed then Nothing else Tracks(f.local)
    case Refused => Closes(f.local)
    case Dialling => if ok then Opens else Nothing
    case AbandonClose => Closes(f.local)
    case DropUntrack(r) => Untracks(r)
    case DropClose(r) => Closes(r)
    case TrackRemote(r) => if closed then Nothing else Tracks(r)
    case RefuseRemote(r) => Closes(r)
    case CloseLocal => Closes(f.local)
    case SpliceCloseLocal(_) => Closes(f.local)
    case SpliceCloseRemote(r) => Closes(r)
    case UntrackRemote(r) => Untracks(r)
    case UntrackLocal => Untracks(f.local)
    case _ => Nothing
  }

  function ChildStep(f: Forwarder, closed: bool, next: nat, ok: bool): Forwarder {
    f.(child :=
      match f.child
      case ChildDial => if ok then ChildTrack(next) else Sent(None)
      case ChildTrack(r) => if closed then ChildRefused(r) else ChildHandshake(r)
      case ChildRefused(_) => Sent(None)
      case ChildHandshake(r) => if ok then Sent(Some(r)) else ChildUntrack(r)
      case ChildUntrack(r) => ChildClose(r)
      case ChildClose(_) => Sent(None)
      case c => c)
  }

  function ChildEffect(f: Forwarder, closed: bool, ok: bool): Effect {
    match f.child
    case ChildDial => if ok then Opens else Nothing
    case ChildTrack(r) => if closed then Nothing else Tracks(r)
    case ChildRefused(r) => Closes(r)
    case ChildUntrack(r) => Untracks(r)
    case ChildClose(r) => Closes(r)
    case _ => Nothing
  }

  /** Forwarder i becomes f, with effect e on the connections. */
  function WithForwarder(s: State, i: nat, f: Forwarder, e: Effect): State
    requires i < |s.fwds|
  {
    s.(fwds := s.fwds[i := f], table := Apply(s.table, i, e),
       wg := if f.pc.Finished? && !s.fwds[i].pc.Finished? then s.wg - 1 else s.wg)
  }

  function Next(s: State, e: Event): State
    requires Enabled(s, e)
  {
    match e
    case Accept(zmq) =>
      WithAcceptor(s, zmq, Handing(|s.table|)).(table := s.table + [Conn(true, false, AcceptorId(zmq))])
    case AcceptError(zmq) => WithAcceptor(s, zmq, Exited).(wg := s.wg - 1)
    case Spawn(zmq) =>
      var c := AcceptorOf(s, zmq).c;
      WithAcceptor(s, zmq, Listening).(
        table := if c < |s.table| then s.table[c := s.table[c].(owner := |s.fwds|)] else s.table,
        fwds := s.fwds + [Forwarder(zmq, c, Start, NoChild, false)],
        wg := s.wg + 1)
    case Forward(i, ok) =>
      WithForwarder(s, i, ForwardStep(s.fwds[i], s.closed, |s.table|, ok), ForwardEffect(s.fwds[i], s.closed, ok))
    case Childs(i, ok) =>
      WithForwarder(s, i, ChildStep(s.fwds[i], s.closed, |s.table|, ok), ChildEffect(s.fwds[i], s.closed, ok))
    case CloseBegin => s.(closed := true, closer := Holding)
    case CloseListeners => s.(listening := false)
    case CloseConn(c) => s.(table := Apply(s.table, 0, Closes(c)))
    case CloseUnlock => s.(closer := Waiting)
    case CloseReturn => s.(closer := Returned)
    case CloseAgain => s.(laterReturned := true)
  }

  // ---- the invariant ----

  /** The remote a forwarder or its child has in the conns map. */
  function TrackedRemote(f: Forwarder): Option<nat> {
    match f.pc
    case Splicing(r) => Some(r)
    case SpliceCloseLocal(r) => Some(r)
    case SpliceCloseRemote(r) => Some(r)
    case Draining(r) => Some(r)
    case UntrackRemote(r) => Some(r)
    case DropUntrack(r) => Some(r)
    case Note(d) => if f.zmq then d else None
    case _ =>
      match f.child
      case ChildHandshake(r) => Some(r)
      case ChildUntrack(r) => Some(r)
      case Sent(d) => d
      case _ => None
  }

  /** The remote it has that is not, or no longer, in the map. */
  function UntrackedRemote(f: Forwarder): Option<nat> {
    match f.pc
    case TrackRemote(r) => Some(r)
    case RefuseRemote(r) => Some(r)
    case DropClose(r) => Some(r)
    case Note(d) => if f.zmq then None else d
    case _ =>
      match f.child
      case ChildTrack(r) => Some(r)
      case ChildRefused(r) => Some(r)
      case ChildClose(r) => Some(r)
      case _ => None
  }

  predicate IsTracked(f: Forwarder, c: nat) {
    || (c == f.local && !f.pc.Start? && !f.pc.Refused? && !f.pc.Finished?)
    || TrackedRemote(f) == Some(c)
  }

  predicate LocalClosed(pc: Pc) {
    || pc.AbandonWait? || pc.DropUntrack? || pc.DropClose? || pc.SpliceCloseRemote? || pc.Draining?
    || pc.UntrackRemote? || pc.UntrackLocal? || pc.Finished?
  }

  predicate MayBeOpen(f: Forwarder, c: nat) {
    || (c == f.local && !LocalClosed(f.pc))
    || (TrackedRemote(f) == Some(c) && !f.pc.Draining? && !f.pc.UntrackRemote?)
    || UntrackedRemote(f) == Some(c)
  }

  predicate OwnsConn(s: State, i: nat, c: nat) {
    c < |s.table| && s.table[c].owner == i
  }

  predicate Owns(s: State, i: nat)
    requires i < |s.fwds|
  {
    var f := s.fwds[i];
    && OwnsConn(s, i, f.local)
    && (TrackedRemote(f).Some? ==> OwnsConn(s, i, TrackedRemote(f).value) && TrackedRemote(f).value != f.local)
    && (UntrackedRemote(f).Some? ==> OwnsConn(s, i, UntrackedRemote(f).value) && UntrackedRemote(f).value != f.local)
  }

  /** forward has no child; forwardZMQ has one from its handshake until it has taken
      the child's answer. */
  predicate Coherent(f: Forwarder) {
    if f.zmq then
      && !f.pc.Dialling? && !f.pc.TrackRemote? && !f.pc.RefuseRemote?
      && (f.pc.Start? || f.pc.Refused? ==> f.child.NoChild?)
      && (f.pc.Handshaking? || f.pc.Receive? || f.pc.AbandonClose? || f.pc.AbandonWait? ==>
            !f.child.NoChild? && !f.child.Taken?)
      && (f.pc.Note? || f.pc.CloseLocal? || f.pc.DropClose? || f.pc.UntrackLocal? ==> f.child.Taken?)
      && (TrackedRemote(f.(child := Taken)).Some? ==> f.child.Taken?)
      && (f.pc.Finished? ==> f.child.Taken? || f.child.NoChild?)
      && (f.pc.AbandonWait? ==> f.abandoned)
    else
      && f.child.NoChild?
      && !f.pc.Handshaking? && !f.pc.Receive? && !f.pc.AbandonClose? && !f.pc.AbandonWait?
      && !f.pc.DropUntrack? && !f.pc.DropClose?
  }

  /** What holds of connection c: it is in the conns map exactly when its forwarder
      put it there, and open only while somebody is still to close it. */
  predicate ConnInv(s: State, c: nat)
    requires c < |s.table|
  {
    var k := s.table[c];
    if k.owner >= 0 then
      && k.owner < |s.fwds|
      && (k.tracked <==> IsTracked(s.fwds[k.owner], c))
      && (k.open ==> MayBeOpen(s.fwds[k.owner], c))
    else
      && !k.tracked
      && (k.owner == RPC_ACCEPTOR || k.owner == ZMQ_ACCEPTOR)
      && AcceptorOf(s, k.owner == ZMQ_ACCEPTOR) == Handing(c)
  }

  function Running(fwds: seq<Forwarder>): nat {
    if fwds == [] then 0
    else Running(fwds[..|fwds| - 1]) + (if fwds[|fwds| - 1].pc.Finished? then 0 else 1)
  }

  function AcceptorRunning(a: Acceptor): nat {
    if a.Exited? then 0 else 1
  }

  predicate HandingInv(s: State, zmq: bool) {
    var a := AcceptorOf(s, zmq);
    a.Handing? ==> a.c < |s.table| && s.table[a.c].owner == AcceptorId(zmq) && s.table[a.c].open
  }

  predicate Inv(s: State) {
    && (forall c :: 0 <= c < |s.table| ==> ConnInv(s, c))
    && (forall i :: 0 <= i < |s.fwds| ==> Owns(s, i) && Coherent(s.fwds[i]))
    && HandingInv(s, false) && HandingInv(s, true)
    && s.wg == Running(s.fwds) + AcceptorRunning(s.rpc) + AcceptorRunning(s.zmq)
    && (s.closed <==> !s.closer.NotCalled?)
    && (s.closer.NotCalled? ==> s.listening)
    && (s.closer.Waiting? || s.closer.Returned? ==>
          !s.listening && forall c :: 0 <= c < |s.table| && s.table[c].tracked ==> !s.table[c].open)
    && (s.closer.Returned? ==> s.wg == 0)
  }

  // ---- every step keeps it ----

  lemma {:induction false} RunningUpdate(fwds: seq<Forwarder>, i: nat, f: Forwarder)
    requires i < |fwds|
    ensures Running(fwds[i := f]) + (if fwds[i].pc.Finished? then 0 else 1)
         == Running(fwds) + (if f.pc.Finished? then 0 else 1)
  {
    var n := |fwds| - 1;
    if i == n {
      assert fwds[i := f][..n] == fwds[..n];
    } else {
      RunningUpdate(fwds[..n], i, f);
      assert fwds[i := f][..n] == fwds[..n][i := f];
    }
  }

  /** The remotes f has are among its connections. */
  predicate Remote(f: Forwarder, c: nat) {
    TrackedRemote(f) == Some(c) || UntrackedRemote(f) == Some(c)
  }

  /** A step of a forwarder or its child from f to g has the effect its flags say. */
  predicate Matches(f: Forwarder, g: Forwarder, e: Effect, next: nat, c: nat) {
    && (c != next ==> (IsTracked(g, c) <==> (e == Tracks(c) || (IsTracked(f, c) && e != Untracks(c)))))
    && (c != next && MayBeOpen(f, c) && e != Closes(c) ==> MayBeOpen(g, c))
    && ((e == Closes(c) || e == Tracks(c) || e == Untracks(c)) ==> (c == f.local || Remote(f, c)))
    && (Remote(g, c) ==> (Remote(f, c) || (e.Opens? && c == next)))
    && (e.Opens? ==> MayBeOpen(g, next) && !IsTracked(g, next))
  }

  predicate Apart(f: Forwarder, next: nat) {
    f.local < next && !Remote(f, f.local) && !Remote(f, next)
  }

  lemma RpcMatches(f: Forwarder, closed: bool, next: nat, ok: bool, c: nat)
    requires !f.zmq && Coherent(f) && Apart(f, next) && !f.pc.Finished?
    ensures var g := ForwardStep(f, closed, next, ok);
            Coherent(g) && g.local == f.local && Matches(f, g, ForwardEffect(f, closed, ok), next, c)
  {
  }

  lemma ZmqMatches(f: Forwarder, closed: bool, next: nat, ok: bool, c: nat)
    requires f.zmq && Coherent(f) && Apart(f, next) && !f.pc.Finished?
    requires f.pc.Receive? || f.pc.AbandonWait? ==> f.child.Sent?
    ensures var g := ForwardStep(f, closed, next, ok);
            Coherent(g) && g.local == f.local && Matches(f, g, ForwardEffect(f, closed, ok), next, c)
  {
  }

  lemma ChildMatches(f: Forwarder, closed: bool, next: nat, ok: bool, c: nat)
    requires Coherent(f) && Apart(f, next) && !f.child.NoChild? && !f.child.Sent? && !f.child.Taken?
    ensures var g := ChildStep(f, closed, next, ok);
            Coherent(g) && g.local == f.local && Matches(f, g, ChildEffect(f, closed, ok), next, c)
  {
  }

  lemma IsApart(s: State, i: nat)
    requires Inv(s) && i < |s.fwds|
    ensures Apart(s.fwds[i], |s.table|)
  {
    hide ConnInv, Coherent, TrackedRemote, UntrackedRemote, Running;
    assert Owns(s, i);
  }

  lemma KeepsOwns(s: State, i: nat, g: Forwarder, e: Effect)
    requires Inv(s) && i < |s.fwds| && g.local == s.fwds[i].local
    requires forall c: nat :: Matches(s.fwds[i], g, e, |s.table|, c)
    ensures var t := WithForwarder(s, i, g, e); forall j :: 0 <= j < |t.fwds| ==> Owns(t, j)
  {
    hide ConnInv, Coherent, TrackedRemote, UntrackedRemote, Running, IsTracked, MayBeOpen;
    var t := WithForwarder(s, i, g, e);
    forall j | 0 <= j < |t.fwds|
      ensures Owns(t, j)
    {
      assert Owns(s, j);
      if j == i {
        IsApart(s, i);
        if TrackedRemote(g).Some? {
          assert Matches(s.fwds[i], g, e, |s.table|, TrackedRemote(g).value);
          assert Remote(g, TrackedRemote(g).value);
        }
        if UntrackedRemote(g).Some? {
          assert Matches(s.fwds[i], g, e, |s.table|, UntrackedRemote(g).value);
          assert Remote(g, UntrackedRemote(g).value);
        }
      }
    }
  }

  lemma KeepsConns(s: State, i: nat, g: Forwarder, e: Effect)
    requires Inv(s) && i < |s.fwds| && g.local == s.fwds[i].local
    requires forall c: nat :: Matches(s.fwds[i], g, e, |s.table|, c)
    ensures var t := WithForwarder(s, i, g, e); forall c :: 0 <= c < |t.table| ==> ConnInv(t, c)
  {
    hide Coherent, TrackedRemote, UntrackedRemote, Running, IsTracked, MayBeOpen;
    var t := WithForwarder(s, i, g, e);
    assert Owns(s, i);
    forall c | 0 <= c < |t.table|
      ensures ConnInv(t, c)
    {
      assert Matches(s.fwds[i], g, e, |s.table|, c);
      if c < |s.table| {
        assert ConnInv(s, c);
      }
    }
  }

  lemma {:induction false} RunningCounts(fwds: seq<Forwarder>, i: nat)
    requires i < |fwds| && !fwds[i].pc.Finished?
    ensures Running(fwds) > 0
  {
    if i < |fwds| - 1 {
      RunningCounts(fwds[..|fwds| - 1], i);
    }
  }

  lemma KeepsHanding(s: State, i: nat, g: Forwarder, e: Effect)
    requires Inv(s) && i < |s.fwds| && forall c: nat :: Matches(s.fwds[i], g, e, |s.table|, c)
    ensures var t := WithForwarder(s, i, g, e); HandingInv(t, false) && HandingInv(t, true)
  {
    assert HandingInv(s, false) && HandingInv(s, true);
    assert Owns(s, i);
    if e.Closes? {
      assert Matches(s.fwds[i], g, e, |s.table|, e.c);
    }
    hide Coherent, TrackedRemote, UntrackedRemote, Running, IsTracked, MayBeOpen, ConnInv;
  }

  /** What both kinds of forwarder step keep. */
  lemma ForwarderStepKeepsInv(s: State, i: nat, g: Forwarder, e: Effect)
    requires Inv(s) && i < |s.fwds| && !s.fwds[i].pc.Finished?
    requires g.local == s.fwds[i].local && Coherent(g)
    requires forall c: nat :: Matches(s.fwds[i], g, e, |s.table|, c)
    requires s.closed ==> !e.Tracks?
    ensures Inv(WithForwarder(s, i, g, e))
  {
    hide Coherent, TrackedRemote, UntrackedRemote, Running, IsTracked, MayBeOpen, ConnInv, Matches, Owns;
    var t := WithForwarder(s, i, g, e);
    KeepsOwns(s, i, g, e);
    KeepsConns(s, i, g, e);
    RunningUpdate(s.fwds, i, g);
    RunningCounts(s.fwds, i);
    KeepsHanding(s, i, g, e);
  }

  lemma ForwardKeepsInv(s: State, i: nat, ok: bool)
    requires Inv(s) && Enabled(s, Forward(i, ok))
    ensures Inv(Next(s, Forward(i, ok)))
  {
    hide Running, ConnInv, Matches, Coherent, Apart, ForwardStep;
    var f := s.fwds[i];
    IsApart(s, i);
    var g, e := ForwardStep(f, s.closed, |s.table|, ok), ForwardEffect(f, s.closed, ok);
    forall c: nat
      ensures Coherent(g) && g.local == f.local && Matches(f, g, e, |s.table|, c)
    {
      if f.zmq {
        ZmqMatches(f, s.closed, |s.table|, ok, c);
      } else {
        RpcMatches(f, s.closed, |s.table|, ok, c);
      }
    }
    assert Matches(f, g, e, |s.table|, 0);
    ForwarderStepKeepsInv(s, i, g, e);
  }

  lemma ChildKeepsInv(s: State, i: nat, ok: bool)
    requires Inv(s) && Enabled(s, Childs(i, ok))
    ensures Inv(Next(s, Childs(i, ok)))
  {
    var f := s.fwds[i];
    assert !f.pc.Finished? by { assert Coherent(f); }
    hide Running, ConnInv, Matches, Coherent, Apart, ChildStep;
    IsApart(s, i);
    var g, e := ChildStep(f, s.closed, |s.table|, ok), ChildEffect(f, s.closed, ok);
    forall c: nat
      ensures Coherent(g) && g.local == f.local && Matches(f, g, e, |s.table|, c)
    {
      ChildMatches(f, s.closed, |s.table|, ok, c);
    }
    assert Matches(f, g, e, |s.table|, 0);
    ForwarderStepKeepsInv(s, i, g, e);
  }

  lemma AcceptKeepsInv(s: State, zmq: bool)
    requires Inv(s) && Enabled(s, Accept(zmq))
    ensures Inv(Next(s, Accept(zmq)))
  {
    hide Coherent, TrackedRemote, UntrackedRemote, Running, IsTracked, MayBeOpen;
    var t := Next(s, Accept(zmq));
    forall c | 0 <= c < |t.table|
      ensures ConnInv(t, c)
    {
      if c < |s.table| {
        assert ConnInv(s, c);
      }
    }
    forall i | 0 <= i < |t.fwds|
      ensures Owns(t, i)
    {
      assert Owns(s, i);
    }
    assert HandingInv(s, false) && HandingInv(s, true);
  }

  lemma SpawnKeepsInv(s: State, zmq: bool)
    requires Inv(s) && Enabled(s, Spawn(zmq))
    ensures Inv(Next(s, Spawn(zmq)))
  {
    hide Running;
    var t := Next(s, Spawn(zmq));
    var k := AcceptorOf(s, zmq).c;
    assert HandingInv(s, false) && HandingInv(s, true);
    assert ConnInv(s, k);
    forall c | 0 <= c < |t.table|
      ensures ConnInv(t, c)
    {
      assert ConnInv(s, c);
    }
    forall i | 0 <= i < |t.fwds|
      ensures Owns(t, i) && Coherent(t.fwds[i])
    {
      if i < |s.fwds| {
        assert Owns(s, i);
      }
    }
    RunningAppend(s.fwds, t.fwds[|s.fwds|]);
  }

  lemma RunningAppend(fwds: seq<Forwarder>, f: Forwarder)
    ensures Running(fwds + [f]) == Running(fwds) + (if f.pc.Finished? then 0 else 1)
  {
    assert (fwds + [f])[..|fwds|] == fwds;
  }

  lemma AcceptErrorKeepsInv(s: State, zmq: bool)
    requires Inv(s) && Enabled(s, AcceptError(zmq))
    ensures Inv(Next(s, AcceptError(zmq)))
  {
    hide Coherent, TrackedRemote, UntrackedRemote, Running, IsTracked, MayBeOpen;
    var t := Next(s, AcceptError(zmq));
    forall c | 0 <= c < |t.table|
      ensures ConnInv(t, c)
    {
      assert ConnInv(s, c);
    }
    forall i | 0 <= i < |t.fwds|
      ensures Owns(t, i)
    {
      assert Owns(s, i);
    }
    assert HandingInv(s, false) && HandingInv(s, true);
  }

  lemma CloseConnKeepsInv(s: State, k: nat)
    requires Inv(s) && Enabled(s, CloseConn(k))
    ensures Inv(Next(s, CloseConn(k)))
  {
    hide Coherent, TrackedRemote, UntrackedRemote, Running, IsTracked, MayBeOpen;
    var t := Next(s, CloseConn(k));
    forall c | 0 <= c < |t.table|
      ensures ConnInv(t, c)
    {
      assert ConnInv(s, c);
    }
    forall i | 0 <= i < |t.fwds|
      ensures Owns(t, i)
    {
      assert Owns(s, i);
    }
    assert ConnInv(s, k);
    assert HandingInv(s, false) && HandingInv(s, true);
  }

  lemma CloseKeepsInv(s: State, e: Event)
    requires Inv(s) && Enabled(s, e)
    requires e.CloseBegin? || e.CloseListeners? || e.CloseUnlock? || e.CloseReturn? || e.CloseAgain?
    ensures Inv(Next(s, e))
  {
    hide Coherent, TrackedRemote, UntrackedRemote, Running, IsTracked, MayBeOpen;
    var t := Next(s, e);
    assert t.table == s.table && t.fwds == s.fwds && t.rpc == s.rpc && t.zmq == s.zmq;
    forall c | 0 <= c < |t.table|
      ensures ConnInv(t, c)
    {
      assert ConnInv(s, c);
    }
    forall i | 0 <= i < |t.fwds|
      ensures Owns(t, i)
    {
      assert Owns(s, i);
    }
  }

  lemma StepKeepsInv(s: State, e: Event)
    requires Inv(s) && Enabled(s, e)
    ensures Inv(Next(s, e))
  {
    hide Inv, Enabled, Next;
    match e
    case Accept(zmq) => AcceptKeepsInv(s, zmq);
    case AcceptError(zmq) => AcceptErrorKeepsInv(s, zmq);
    case Spawn(zmq) => SpawnKeepsInv(s, zmq);
    case Forward(i, ok) => ForwardKeepsInv(s, i, ok);
    case Childs(i, ok) => ChildKeepsInv(s, i, ok);
    case CloseConn(c) => CloseConnKeepsInv(s, c);
    case _ => CloseKeepsInv(s, e);
  }

  // ---- what Close leaves behind ----

  predicate StepsTo(r: State, e: Event, s: State) {
    Enabled(r, e) && s == Next(r, e)
  }

  lemma {:induction false} RunsKeepInv(events: seq<Event>, s: State)
    requires IsRun(StepsTo, Init(), events, s)
    ensures Inv(s)
    decreases |events|
  {
    if events == [] {
      assert Inv(Init());
    } else {
      hide Inv, Enabled, Next;
      var n := |events| - 1;
      var r :| IsRun(StepsTo, Init(), events[..n], r) && StepsTo(r, events[n], s);
      RunsKeepInv(events[..n], r);
      StepKeepsInv(r, events[n]);
    }
  }

  predicate NothingLeft(s: State) {
    && (forall c :: 0 <= c < |s.table| ==> !s.table[c].open && !s.table[c].tracked)
    && (forall i :: 0 <= i < |s.fwds| ==>
          s.fwds[i].pc.Finished? && (s.fwds[i].child.NoChild? || s.fwds[i].child.Taken?))
    && s.rpc.Exited? && s.zmq.Exited?
  }

  lemma FinishedHasNothing(f: Forwarder, c: nat)
    requires f.pc.Finished? && (f.child.NoChild? || f.child.Taken?)
    ensures !IsTracked(f, c) && !MayBeOpen(f, c)
  {
  }

  lemma NothingLeftWhenReturned(s: State)
    requires Inv(s) && s.closer.Returned?
    ensures NothingLeft(s)
  {
    forall i | 0 <= i < |s.fwds|
      ensures s.fwds[i].pc.Finished? && (s.fwds[i].child.NoChild? || s.fwds[i].child.Taken?)
    {
      assert Coherent(s.fwds[i]);
      if !s.fwds[i].pc.Finished? {
        RunningCounts(s.fwds, i);
      }
    }
    hide IsTracked, MayBeOpen, Coherent, Running, Owns;
    forall c | 0 <= c < |s.table|
      ensures !s.table[c].open && !s.table[c].tracked
    {
      assert ConnInv(s, c);
      if s.table[c].owner >= 0 {
        FinishedHasNothing(s.fwds[s.table[c].owner], c);
      }
    }
  }

  /** In every interleaving, when the Close that closed the relay has returned, every
      connection ever accepted or dialled is closed, none is in the map, no forwarder,
      child or acceptor is left, and nothing happens any more. */
  lemma CloseLeavesNothing(events: seq<Event>, s: State)
    requires IsRun(StepsTo, Init(), events, s) && s.closer.Returned?
    ensures NothingLeft(s)
    ensures forall e :: Enabled(s, e) ==> e.CloseAgain?
  {
    RunsKeepInv(events, s);
    NothingLeftWhenReturned(s);
    hide IsTracked, MayBeOpen, Coherent, Running, Owns, ConnInv;
  }

  // ---- that Close comes back ----

  function MainRank(pc: Pc): nat {
    match pc
    case Start => 40
    case Dialling => 20
    case Handshaking => 20
    case AbandonClose => 18
    case Receive => 18
    case AbandonWait => 17
    case Note(_) => 16
    case TrackRemote(_) => 14
    case Splicing(_) => 12
    case DropUntrack(_) => 12
    case SpliceCloseLocal(_) => 11
    case DropClose(_) => 11
    case SpliceCloseRemote(_) => 10
    case Draining(_) => 9
    case UntrackRemote(_) => 8
    case RefuseRemote(_) => 8
    case CloseLocal => 6
    case UntrackLocal => 4
    case Refused => 2
    case Finished => 0
  }

  function ChildRank(child: Child): nat {
    match child
    case NoChild => 0
    case ChildDial => 10
    case ChildTrack(_) => 8
    case ChildRefused(_) => 6
    case ChildHandshake(_) => 6
    case ChildUntrack(_) => 4
    case ChildClose(_) => 2
    case Sent(_) => 1
    case Taken => 0
  }

  function Rank(f: Forwarder): nat {
    MainRank(f.pc) + ChildRank(f.child)
  }

  function Ranks(fwds: seq<Forwarder>): nat {
    if fwds == [] then 0 else Ranks(fwds[..|fwds| - 1]) + Rank(fwds[|fwds| - 1])
  }

  lemma {:induction false} RanksUpdate(fwds: seq<Forwarder>, i: nat, f: Forwarder)
    requires i < |fwds|
    ensures Ranks(fwds[i := f]) + Rank(fwds[i]) == Ranks(fwds) + Rank(f)
  {
    hide Rank;
    var n := |fwds| - 1;
    if i == n {
      assert fwds[i := f][..n] == fwds[..n];
    } else {
      RanksUpdate(fwds[..n], i, f);
      assert fwds[i := f][..n] == fwds[..n][i := f];
    }
  }

  /** The connections Close has still to close. */
  function ToClose(table: seq<Conn>): nat {
    if table == [] then 0
    else
      var k := table[|table| - 1];
      ToClose(table[..|table| - 1]) + if k.open && k.tracked then 1 else 0
  }

  lemma {:induction false} ToCloseUpdate(table: seq<Conn>, c: nat, k: Conn)
    requires c < |table|
    ensures ToClose(table[c := k]) + (if table[c].open && table[c].tracked then 1 else 0)
         == ToClose(table) + (if k.open && k.tracked then 1 else 0)
  {
    var n := |table| - 1;
    if c == n {
      assert table[c := k][..n] == table[..n];
    } else {
      ToCloseUpdate(table[..n], c, k);
      assert table[c := k][..n] == table[..n][c := k];
    }
  }

  lemma ToCloseApply(table: seq<Conn>, i: int, e: Effect)
    requires !e.Tracks?
    ensures ToClose(Apply(table, i, e)) <= ToClose(table)
  {
    match e
    case Opens =>
      var k := Conn(true, false, i);
      assert (table + [k])[..|table|] == table;
    case Closes(c) =>
      if c < |table| {
        ToCloseUpdate(table, c, table[c].(open := false));
      }
    case Untracks(c) =>
      if c < |table| {
        ToCloseUpdate(table, c, table[c].(tracked := false));
      }
    case _ =>
  }

  function AcceptorRank(a: Acceptor): nat {
    match a
    case Listening => 1
    case Handing(_) => 42
    case Exited => 0
  }

  function CloserRank(c: Closer): nat {
    match c
    case NotCalled => 3
    case Holding => 2
    case Waiting => 1
    case Returned => 0
  }

  function Measure(s: State): nat {
    Ranks(s.fwds) + AcceptorRank(s.rpc) + AcceptorRank(s.zmq) + ToClose(s.table) + CloserRank(s.closer)
      + (if s.laterReturned then 0 else 1)
  }

  lemma RankFalls(f: Forwarder, closed: bool, next: nat, ok: bool)
    requires Coherent(f) && !f.pc.Finished?
    requires f.pc.Receive? || f.pc.AbandonWait? ==> f.child.Sent?
    ensures Rank(ForwardStep(f, closed, next, ok)) < Rank(f)
  {
    hide TrackedRemote;
  }

  lemma ChildRankFalls(f: Forwarder, closed: bool, next: nat, ok: bool)
    requires !f.child.NoChild? && !f.child.Sent? && !f.child.Taken?
    ensures Rank(ChildStep(f, closed, next, ok)) < Rank(f)
  {
  }

  /** Once Close has closed the listeners, every step of anybody is one of finitely
      many that are left. */
  lemma EveryStepCounts(s: State, e: Event)
    requires Inv(s) && !s.listening && Enabled(s, e)
    ensures Measure(Next(s, e)) < Measure(s)
  {
    hide IsTracked, MayBeOpen, Running, Owns, ConnInv, Rank, ForwardStep, ChildStep, Apply, Ranks, ToClose;
    match e
    case Forward(i, ok) =>
      var f := s.fwds[i];
      assert Coherent(f);
      var g, eff := ForwardStep(f, s.closed, |s.table|, ok), ForwardEffect(f, s.closed, ok);
      RankFalls(f, s.closed, |s.table|, ok);
      RanksUpdate(s.fwds, i, g);
      ToCloseApply(s.table, i, eff);
    case Childs(i, ok) =>
      var f := s.fwds[i];
      var g, eff := ChildStep(f, s.closed, |s.table|, ok), ChildEffect(f, s.closed, ok);
      ChildRankFalls(f, s.closed, |s.table|, ok);
      RanksUpdate(s.fwds, i, g);
      ToCloseApply(s.table, i, eff);
    case CloseConn(c) => CloseConnCounts(s.table, c);
    case Spawn(zmq) => SpawnCounts(s, zmq);
    case _ =>
  }

  lemma {:induction false} CloseConnCounts(table: seq<Conn>, c: nat)
    requires c < |table| && table[c].open && table[c].tracked
    ensures ToClose(Apply(table, 0, Closes(c))) < ToClose(table)
  {
    ToCloseUpdate(table, c, table[c].(open := false));
  }

  lemma SpawnCounts(s: State, zmq: bool)
    requires Inv(s) && Enabled(s, Spawn(zmq))
    ensures Ranks(Next(s, Spawn(zmq)).fwds) == Ranks(s.fwds) + 40
    ensures ToClose(Next(s, Spawn(zmq)).table) == ToClose(s.table)
  {
    hide IsTracked, MayBeOpen, Running, Owns, ConnInv;
    assert HandingInv(s, false) && HandingInv(s, true);
    var f := Forwarder(zmq, AcceptorOf(s, zmq).c, Start, NoChild, false);
    assert (s.fwds + [f])[..|s.fwds|] == s.fwds;
    var c := AcceptorOf(s, zmq).c;
    ToCloseUpdate(s.table, c, s.table[c].(owner := |s.fwds|));
  }

  /** Steps that wait for no peer and no timer: a call on a closed connection, a dial
      or a handshake under a cancelled context, and the relay's own bookkeeping. */
  predicate Prompt(s: State, e: Event)
    requires Enabled(s, e)
  {
    match e
    case Forward(i, ok) =>
      var f := s.fwds[i];
      (match f.pc
       case Dialling => s.closed && !ok
       case Handshaking => !ok && f.local < |s.table| && !s.table[f.local].open
       case Splicing(r) => f.local < |s.table| && r < |s.table| && (!s.table[f.local].open || !s.table[r].open)
       case _ => true)
    case Childs(i, ok) =>
      var f := s.fwds[i];
      (match f.child
       case ChildDial => !ok && (s.closed || f.abandoned)
       case ChildHandshake(r) => !ok && (s.closed || f.abandoned || (r < |s.table| && !s.table[r].open))
       case _ => true)
    case Accept(_) => false
    case AcceptError(_) => !s.listening
    case CloseBegin => false
    case CloseAgain => false
    case _ => true
  }

  lemma {:induction false} SomeRunning(fwds: seq<Forwarder>) returns (i: nat)
    requires Running(fwds) > 0
    ensures i < |fwds| && !fwds[i].pc.Finished?
  {
    var n := |fwds| - 1;
    if fwds[n].pc.Finished? {
      i := SomeRunning(fwds[..n]);
    } else {
      i := n;
    }
  }

  lemma ForwarderCanMove(s: State, i: nat) returns (e: Event)
    requires Inv(s) && s.closer.Waiting? && i < |s.fwds| && !s.fwds[i].pc.Finished?
    ensures Enabled(s, e) && Prompt(s, e)
  {
    hide Running, MayBeOpen;
    var f := s.fwds[i];
    assert Owns(s, i) && Coherent(f);
    assert ConnInv(s, f.local);
    if (f.pc.Receive? || f.pc.AbandonWait?) && !f.child.Sent? {
      e := Childs(i, !f.child.ChildDial? && !f.child.ChildHandshake?);
    } else {
      e := Forward(i, !f.pc.Dialling? && !f.pc.Handshaking?);
    }
  }

  /** A Close that has begun always has a prompt step to take or to wait for, until it
      returns: with EveryStepCounts, it does. */
  lemma CloseNeverStuck(s: State) returns (e: Event)
    requires Inv(s) && (s.closer.Holding? || s.closer.Waiting?)
    ensures Enabled(s, e) && Prompt(s, e)
  {
    hide IsTracked, MayBeOpen, Owns, ConnInv, Coherent;
    if s.closer.Holding? {
      if s.listening {
        e := CloseListeners;
      } else if c :| 0 <= c < |s.table| && s.table[c].tracked && s.table[c].open {
        e := CloseConn(c);
      } else {
        e := CloseUnlock;
      }
    } else if !s.rpc.Exited? {
      e := if s.rpc.Listening? then AcceptError(false) else Spawn(false);
    } else if !s.zmq.Exited? {
      e := if s.zmq.Listening? then AcceptError(true) else Spawn(true);
    } else if s.wg == 0 {
      e := CloseReturn;
    } else {
      var i := SomeRunning(s.fwds);
      e := ForwarderCanMove(s, i);
    }
  }

  lemma Extend(events: seq<Event>, s: State, e: Event)
    requires IsRun(StepsTo, Init(), events, s) && Enabled(s, e)
    ensures Inv(s) && IsRun(StepsTo, Init(), events + [e], Next(s, e))
  {
    hide Inv, IsRun, Enabled, Next;
    RunsKeepInv(events, s);
    Append(StepsTo, Init(), events, s, e, Next(s, e));
  }

  lemma CloserMovesOn(s: State, e: Event)
    requires Inv(s) && Enabled(s, e) && (s.closer.Holding? || s.closer.Waiting?)
    ensures var t := Next(s, e);
            && (t.closer.Holding? || t.closer.Waiting? || t.closer.Returned?)
            && (t.listening ==> s.listening)
            && (s.listening && e.CloseListeners? ==> !t.listening)
  {
    hide Inv;
  }

  /** From any reachable state in which Close has begun it returns, by prompt steps
      alone, and no order of anybody's steps is longer than the measure. */
  lemma {:induction false} CloseReturns(events: seq<Event>, s: State) returns (more: seq<Event>, t: State)
    requires IsRun(StepsTo, Init(), events, s) && (s.closer.Holding? || s.closer.Waiting?)
    ensures IsRun(StepsTo, Init(), events + more, t) && t.closer.Returned? && NothingLeft(t)
    ensures |more| <= Measure(s) + if s.listening then 1 else 0
    decreases s.listening, Measure(s)
  {
    hide Inv, Enabled, Next, Prompt, IsRun, Measure, NothingLeft;
    RunsKeepInv(events, s);
    var e: Event;
    if s.listening {
      e := CloseListeners;
      ListenersFirst(s);
    } else {
      e := CloseNeverStuck(s);
      EveryStepCounts(s, e);
    }
    Extend(events, s, e);
    CloserMovesOn(s, e);
    var u := Next(s, e);
    if u.closer.Returned? {
      more, t := [e], u;
      CloseLeavesNothing(events + [e], u);
    } else {
      var rest;
      rest, t := CloseReturns(events + [e], u);
      more := [e] + rest;
      assert events + more == events + [e] + rest;
    }
  }

  lemma ListenersFirst(s: State)
    requires Inv(s) && s.listening && (s.closer.Holding? || s.closer.Waiting?)
    ensures Enabled(s, CloseListeners)
    ensures Measure(Next(s, CloseListeners)) == Measure(s) && !Next(s, CloseListeners).listening
  {
    hide ConnInv, Owns, Coherent, Running;
  }

  /** One connection accepted, its forwarder about to dial. */
  function OneForwarder(open: bool, closed: bool, listening: bool, closer: Closer, later: bool): State {
    State([Conn(open, true, 0)], [Forwarder(false, 0, Dialling, NoChild, false)],
          Listening, Listening, closed, listening, closer, 3, later)
  }

  lemma OneAccepted() returns (events: seq<Event>, s: State)
    ensures IsRun(StepsTo, Init(), events, s)
    ensures s == State([Conn(true, false, RPC_ACCEPTOR)], [], Handing(0), Listening, false, true, NotCalled, 2, false)
  {
    s, events := Init(), [];
    assert IsRun(StepsTo, Init(), [], s);
    hide Inv, IsRun, ForwardStep, ChildStep, ForwardEffect, ChildEffect, WithForwarder, ForwardEnabled, ChildEnabled;
    s, events := Take(events, s, Accept(false));
  }

  lemma OneSpawned() returns (events: seq<Event>, s: State)
    ensures IsRun(StepsTo, Init(), events, s)
    ensures s == State([Conn(true, false, 0)], [Forwarder(false, 0, Start, NoChild, false)], Listening, Listening,
        false, true, NotCalled, 3, false)
  {
    events, s := OneAccepted();
    hide Inv, IsRun, ForwardStep, ChildStep, ForwardEffect, ChildEffect, WithForwarder, ForwardEnabled, ChildEnabled;
    s, events := Take(events, s, Spawn(false));
  }

  lemma OneForwarderRun() returns (events: seq<Event>, s: State)
    ensures IsRun(StepsTo, Init(), events, s) && s == OneForwarder(true, false, true, NotCalled, false)
  {
    events, s := OneSpawned();
    hide Inv, IsRun, ChildStep, ChildEffect, ChildEnabled;
    s, events := Take(events, s, Forward(0, true));
  }

  /** Only that Close promises it. Another call of Close, made while the first one
      still waits, returns at once: here with a forwarder about to dial. */
  lemma LaterCloseReturnsEarly() returns (events: seq<Event>, s: State)
    ensures IsRun(StepsTo, Init(), events, s) && s.laterReturned && !s.closer.Returned?
    ensures |s.fwds| == 1 && s.fwds[0].pc.Dialling? && Enabled(s, Forward(0, true))
  {
    events, s := OneForwarderRun();
    hide Inv, IsRun;
    s, events := Take(events, s, CloseBegin);
    s, events := Take(events, s, CloseListeners);
    assert s == OneForwarder(true, true, false, Holding, false);
    s, events := Take(events, s, CloseConn(0));
    assert s == OneForwarder(false, true, false, Holding, false);
    s, events := Take(events, s, CloseUnlock);
    s, events := Take(events, s, CloseAgain);
  }

  lemma {:induction false} NoneRunning(fwds: seq<Forwarder>)
    requires forall i :: 0 <= i < |fwds| ==> fwds[i].pc.Finished?
    ensures Running(fwds) == 0
  {
    if fwds != [] {
      NoneRunning(fwds[..|fwds| - 1]);
    }
  }

  lemma NothingLeftWhenDrained(s: State)
    requires Inv(s) && s.closer.Waiting? && s.wg == 0
    ensures NothingLeft(s)
  {
    StepKeepsInv(s, CloseReturn);
    NothingLeftWhenReturned(Next(s, CloseReturn));
    hide Inv, ConnInv, Owns, Coherent;
  }

  lemma DrainedWhenNothingLeft(s: State)
    requires Inv(s) && NothingLeft(s)
    ensures s.wg == 0
  {
    NoneRunning(s.fwds);
    hide ConnInv, Owns, Coherent, Running;
  }

  /** What any later call of Close finds when it returns: nothing is left exactly when the
      wait group is empty, that is when the first call has returned or is about to. */
  lemma LaterCloseIff(events: seq<Event>, s: State)
    requires IsRun(StepsTo, Init(), events, s) && s.closed && LockFree(s)
    ensures NothingLeft(s) <==> s.wg == 0
    ensures s.wg == 0 <==> s.closer.Returned? || Enabled(s, CloseReturn)
  {
    RunsKeepInv(events, s);
    assert s.closer.Waiting? || s.closer.Returned?;
    assert s.closer.Returned? ==> s.wg == 0;
    hide Inv, IsRun, NothingLeft;
    if s.closer.Returned? {
      NothingLeftWhenReturned(s);
    } else if s.wg == 0 {
      NothingLeftWhenDrained(s);
    }
    if NothingLeft(s) {
      DrainedWhenNothingLeft(s);
    }
  }

  lemma Take(events: seq<Event>, s: State, e: Event) returns (t: State, longer: seq<Event>)
    requires IsRun(StepsTo, Init(), events, s) && Enabled(s, e)
    ensures Inv(s) && t == Next(s, e) && longer == events + [e] && IsRun(StepsTo, Init(), longer, t)
  {
    Extend(events, s, e);
    t, longer := Next(s, e), events + [e];
  }
}
