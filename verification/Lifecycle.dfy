/** internal/engine/p2pool.go, tor.go and monerod.go: Start, Stop, Close, Reconnect and
    Retarget in any number of threads beside the readers of the processes' output. One
    step is one locked section, or one operation on a channel. */
module Lifecycle {
  import opened Runs
  import opened Wrappers

  datatype Kind = P2Pool | Tor | Monerod

  /** The fields that decide p2pool's arguments and that can change while it runs. */
  datatype Node = Node(host: nat, rpcPort: nat, zmqPort: nat, socks: nat, login: nat)

  datatype Change = Reconnect(zmqPort: nat, login: nat) | Retarget(host: nat, rpcPort: nat, zmqPort: nat, socks: nat)

  function Changed(n: Node, c: Change): Node {
    match c
    case Reconnect(zmqPort, login) => n.(zmqPort := zmqPort, login := login)
    case Retarget(host, rpcPort, zmqPort, socks) => Node(host, rpcPort, zmqPort, socks, 0)
  }

  datatype Op = DoStart | DoStop | DoClose | DoChange(c: Change)

  datatype Result = Ready | Already | Refused | LaunchFailed | Exited | TimedOut | Stopped

  datatype Pc =
    | Starting | Waiting(p: nat) | Stopping | Closing | StoppingForGood | StoppingFirst | Setting | Done(r: Result)

  datatype Thread = Thread(op: Op, pc: Pc)

  /** A reader has seen the line, waits for the lock, and then has the channel to fill. */
  datatype Reader = Reading | Announcing | Sending | Ended

  datatype Proc = Proc(args: Node, alive: bool, reaped: bool, reader: Reader, signalled: bool)

  /** lock: the thread that keeps the mutex over more than one step. */
  datatype State = State(kind: Kind, node: Node, cmd: Option<nat>, closed: bool, ready: bool, lock: Option<nat>,
                         procs: seq<Proc>, threads: seq<Thread>)

  datatype Event =
    | Call(op: Op)
    | Step(i: nat, ok: bool)
    | ReturnsReady(i: nat)
    | ReturnsExited(i: nat)
    | TimesOut(i: nat)
    | Dies(p: nat)
    | SeesLine(p: nat)
    | Announces(p: nat)
    | Sends(p: nat)
    | Ends(p: nat)

  function Init(kind: Kind, node: Node): State {
    State(kind, node, None, false, false, None, [], [])
  }

  predicate NeedsLock(pc: Pc) {
    !pc.Waiting? && !pc.Done?
  }

  predicate Offers(kind: Kind, op: Op) {
    (op.DoClose? ==> !kind.Monerod?) && (op.DoChange? ==> kind.P2Pool?)
  }

  predicate Waits(s: State, i: nat) {
    i < |s.threads| && s.threads[i].pc.Waiting? && s.threads[i].pc.p < |s.procs|
  }

  predicate Enabled(s: State, e: Event) {
    match e
    case Call(op) => Offers(s.kind, op)
    case Step(i, ok) => i < |s.threads| && NeedsLock(s.threads[i].pc) && s.lock.None?
    case ReturnsReady(i) => Waits(s, i) && s.procs[s.threads[i].pc.p].signalled
    case ReturnsExited(i) => s.kind.P2Pool? && Waits(s, i) && s.procs[s.threads[i].pc.p].reader.Ended?
    case TimesOut(i) => Waits(s, i)
    case Dies(p) => p < |s.procs| && s.procs[p].alive
    case SeesLine(p) => p < |s.procs| && s.procs[p].reader.Reading? && !s.procs[p].signalled
    case Announces(p) => p < |s.procs| && s.procs[p].reader.Announcing? && s.lock.None?
    case Sends(p) => p < |s.procs| && s.procs[p].reader.Sending?
    case Ends(p) => p < |s.procs| && s.procs[p].reader.Reading? && !s.procs[p].alive
  }

  function Entry(op: Op): Pc {
    match op
    case DoStart => Starting
    case DoStop => Stopping
    case DoClose => Closing
    case DoChange(_) => StoppingFirst
  }

  function At(s: State, i: nat, pc: Pc): State
    requires i < |s.threads|
  {
    s.(threads := s.threads[i := s.threads[i].(pc := pc)])
  }

  function WithProc(s: State, p: nat, q: Proc): State
    requires p < |s.procs|
  {
    s.(procs := s.procs[p := q])
  }

  /** The locked body of Stop. */
  function StopNow(s: State): State {
    if s.cmd.None? || s.cmd.value >= |s.procs| then s
    else WithProc(s, s.cmd.value, s.procs[s.cmd.value].(alive := false, reaped := true)).(cmd := None, ready := false)
  }

  /** The locked body of Start. Monerod's keeps the lock while it waits. */
  function StartNow(s: State, i: nat, ok: bool): State
    requires i < |s.threads|
  {
    if s.closed then At(s, i, Done(Refused))
    else if s.cmd.Some? then At(s, i, Done(Already))
    else if !ok then At(s, i, Done(LaunchFailed))
    else
      var p := |s.procs|;
      At(s, i, Waiting(p)).(
        cmd := Some(p), ready := false, procs := s.procs + [Proc(s.node, true, false, Reading, false)],
        lock := if s.kind.Monerod? then Some(i) else None)
  }

  function Returns(s: State, i: nat, r: Result): State
    requires i < |s.threads|
  {
    At(s, i, Done(r)).(lock := if s.lock == Some(i) then None else s.lock)
  }

  function Next(s: State, e: Event): State
    requires Enabled(s, e)
  {
    match e
    case Call(op) => s.(threads := s.threads + [Thread(op, Entry(op))])
    case Step(i, ok) =>
      (match s.threads[i].pc
       case Starting => StartNow(s, i, ok)
       case Stopping => At(StopNow(s), i, Done(Stopped))
       case Closing => At(s.(closed := true), i, StoppingForGood)
       case StoppingForGood => At(StopNow(s), i, Done(Stopped))
       case StoppingFirst => At(StopNow(s), i, Setting)
       case Setting =>
         At(if s.threads[i].op.DoChange? then s.(node := Changed(s.node, s.threads[i].op.c)) else s, i, Starting)
       case _ => s)
    case ReturnsReady(i) => Returns(s, i, Ready)
    case ReturnsExited(i) => Returns(s, i, Exited)
    case TimesOut(i) => Returns(s, i, TimedOut)
    case Dies(p) => WithProc(s, p, s.procs[p].(alive := false))
    case SeesLine(p) => WithProc(s, p, s.procs[p].(reader := Announcing))
    case Announces(p) => WithProc(s, p, s.procs[p].(reader := Sending)).(ready := true)
    case Sends(p) => WithProc(s, p, s.procs[p].(reader := Reading, signalled := true))
    case Ends(p) => WithProc(s, p, s.procs[p].(reader := Ended))
  }

  predicate StepsTo(s: State, e: Event, t: State) {
    Enabled(s, e) && t == Next(s, e)
  }

  // ---- processes ----

  /** Only the manager's process has not been waited for. */
  predicate ProcsInv(s: State) {
    && (s.cmd.Some? ==> s.cmd.value < |s.procs|)
    && forall p :: 0 <= p < |s.procs| ==>
         (s.procs[p].reaped <==> s.cmd != Some(p)) && (s.procs[p].reaped ==> !s.procs[p].alive)
  }

  predicate Closed(t: Thread) {
    t.op.DoClose? && t.pc.Done?
  }

  /** Once a Close has set the flag it stays, and once it has also stopped there is
      nothing running. */
  predicate ClosedInv(s: State) {
    && (forall t <- s.threads :: t.op.DoClose? && !t.pc.Closing? ==> s.closed)
    && (forall t <- s.threads :: t.op.DoClose? ==> t.pc.Closing? || t.pc.StoppingForGood? || t.pc.Done?)
    && ((exists t <- s.threads :: Closed(t)) ==> s.cmd.None?)
  }

  lemma StopKeepsProcs(s: State)
    requires ProcsInv(s)
    ensures ProcsInv(StopNow(s)) && StopNow(s).cmd.None? && StopNow(s).threads == s.threads
        && StopNow(s).closed == s.closed
    ensures StopNow(s).node == s.node && StopNow(s).lock == s.lock && StopNow(s).kind == s.kind
  {
  }

  lemma StartKeepsProcs(s: State, i: nat, ok: bool)
    requires ProcsInv(s) && i < |s.threads|
    ensures ProcsInv(StartNow(s, i, ok)) && StartNow(s, i, ok).closed == s.closed
    ensures s.closed ==> StartNow(s, i, ok).cmd == s.cmd
  {
  }

  lemma StepKeepsProcs(s: State, e: Event)
    requires ProcsInv(s) && Enabled(s, e)
    ensures ProcsInv(Next(s, e))
    ensures s.closed ==> Next(s, e).closed && (s.cmd.None? ==> Next(s, e).cmd.None?)
  {
    hide Changed, Offers, Waits, Entry, StopNow, StartNow;
    if e.Step? {
      LockedKeepsProcs(s, e.i, e.ok);
    } else if e.Call? || e.ReturnsReady? || e.ReturnsExited? || e.TimesOut? {
      SameProcs(s, Next(s, e));
    } else {
      ReaderKeepsProcs(s, e.p, Next(s, e).procs[e.p]);
      SameProcs(WithProc(s, e.p, Next(s, e).procs[e.p]), Next(s, e));
    }
  }

  lemma SameProcs(s: State, t: State)
    requires ProcsInv(s) && t.cmd == s.cmd && t.procs == s.procs
    ensures ProcsInv(t)
  {
  }

  lemma ReaderKeepsProcs(s: State, p: nat, q: Proc)
    requires ProcsInv(s) && p < |s.procs| && q.reaped == s.procs[p].reaped && (q.alive ==> s.procs[p].alive)
    ensures ProcsInv(WithProc(s, p, q))
  {
  }

  lemma LockedKeepsProcs(s: State, i: nat, ok: bool)
    requires ProcsInv(s) && Enabled(s, Step(i, ok))
    ensures var t := Next(s, Step(i, ok)); ProcsInv(t) && (s.closed ==> t.closed && (s.cmd.None? ==> t.cmd.None?))
  {
    hide Changed, Offers, Waits, Entry, StopNow, StartNow;
    StopKeepsProcs(s);
    StartKeepsProcs(s, i, ok);
  }

  /** What a step does to the threads: one more, or one moved on. */
  lemma StepKeepsClosed(s: State, e: Event)
    requires ProcsInv(s) && ClosedInv(s) && Enabled(s, e)
    ensures ClosedInv(Next(s, e))
  {
    StepKeepsProcs(s, e);
    StopKeepsProcs(s);
    var t := Next(s, e);
    if e.Step? {
      ThreadStep(s, e.i, e.ok);
      OneMoved(s, t, e.i);
    } else if e.ReturnsReady? || e.ReturnsExited? || e.TimesOut? {
      OneMoved(s, t, e.i);
    } else if e.Call? {
      assert forall q <- t.threads :: q in s.threads || q == Thread(e.op, Entry(e.op));
    } else {
      assert t.threads == s.threads;
    }
  }

  lemma ThreadStep(s: State, i: nat, ok: bool)
    requires ProcsInv(s) && ClosedInv(s) && Enabled(s, Step(i, ok))
    ensures var t := Next(s, Step(i, ok));
            && |t.threads| == |s.threads| && t.threads == s.threads[i := t.threads[i]]
            && t.threads[i].op == s.threads[i].op
            && (t.threads[i].op.DoClose? ==>
                  t.closed && (t.threads[i].pc.StoppingForGood? || (t.threads[i].pc.Done? && t.cmd.None?)))
  {
    StopKeepsProcs(s);
    assert s.threads[i] in s.threads;
    hide StopNow;
  }

  lemma OneMoved(s: State, t: State, i: nat)
    requires ClosedInv(s) && i < |s.threads| && |t.threads| == |s.threads| && t.threads == s.threads[i := t.threads[i]]
    requires s.closed ==> t.closed && (s.cmd.None? ==> t.cmd.None?)
    requires t.threads[i].op == s.threads[i].op
    requires t.threads[i].op.DoClose? ==>
               t.closed && (t.threads[i].pc.StoppingForGood? || (t.threads[i].pc.Done? && t.cmd.None?))
    ensures ClosedInv(t)
  {
    forall q | q in t.threads && q.op.DoClose?
      ensures q.pc.Closing? || (t.closed && (q.pc.StoppingForGood? || (q.pc.Done? && t.cmd.None?)))
    {
      var j :| 0 <= j < |t.threads| && t.threads[j] == q;
      if j != i {
        assert s.threads[j] in s.threads;
        assert Closed(q) ==> Closed(s.threads[j]);
      }
    }
  }

  lemma {:induction false} RunsKeepInv(kind: Kind, node: Node, es: seq<Event>, s: State)
    requires IsRun(StepsTo, Init(kind, node), es, s)
    ensures ProcsInv(s) && ClosedInv(s) && s.kind == kind
    decreases |es|
  {
    hide StepsTo, ProcsInv, ClosedInv;
    if |es| == 0 {
      InitInv(kind, node);
    } else {
      var before, e := es[..|es| - 1], es[|es| - 1];
      var u :| IsRun(StepsTo, Init(kind, node), before, u) && StepsTo(u, e, s);
      RunsKeepInv(kind, node, before, u);
      StepMeans(u, e, s);
      StepKeepsProcs(u, e);
      StepKeepsClosed(u, e);
      KindStays(u, e);
    }
  }

  lemma InitInv(kind: Kind, node: Node)
    ensures ProcsInv(Init(kind, node)) && ClosedInv(Init(kind, node)) && Init(kind, node).kind == kind
  {
  }

  lemma KindStays(s: State, e: Event)
    requires Enabled(s, e)
    ensures Next(s, e).kind == s.kind
  {
  }

  lemma StepMeans(s: State, e: Event, t: State)
    requires StepsTo(s, e, t)
    ensures Enabled(s, e) && t == Next(s, e)
  {
  }

  /** At most one process of a manager lives, and none once a Close has returned, with any
      Start, Reconnect or Retarget under way at the time, and for ever after. */
  lemma AtMostOneLives(kind: Kind, node: Node, es: seq<Event>, s: State)
    requires IsRun(StepsTo, Init(kind, node), es, s)
    ensures forall p, q :: 0 <= p < |s.procs| && 0 <= q < |s.procs| && s.procs[p].alive && s.procs[q].alive ==> p == q
    ensures (exists t <- s.threads :: Closed(t)) ==>
              forall p :: 0 <= p < |s.procs| ==> !s.procs[p].alive && s.procs[p].reaped
  {
    RunsKeepInv(kind, node, es, s);
    hide IsRun;
    forall p | 0 <= p < |s.procs| && s.procs[p].alive ensures s.cmd == Some(p) {
    }
  }

  // ---- what a locked section does ----

  predicate Stops(pc: Pc) {
    pc.Stopping? || pc.StoppingForGood? || pc.StoppingFirst?
  }

  /** Stop ends the manager's process and waits for it, and touches nothing else. */
  lemma StopEnds(s: State, i: nat, ok: bool)
    requires ProcsInv(s) && Enabled(s, Step(i, ok)) && Stops(s.threads[i].pc)
    ensures var t := Next(s, Step(i, ok));
            && t.cmd.None? && t.node == s.node && t.closed == s.closed
            && (s.cmd.None? ==> t.procs == s.procs && t.ready == s.ready)
            && (s.cmd.Some? ==>
                  && !t.ready && |t.procs| == |s.procs|
                  && !t.procs[s.cmd.value].alive && t.procs[s.cmd.value].reaped)
            && forall p :: 0 <= p < |s.procs| && s.cmd != Some(p) ==> t.procs[p] == s.procs[p]
  {
  }

  /** Start launches one process, with the stored settings, unless it is closed or has one. */
  lemma StartLaunches(s: State, i: nat, ok: bool)
    requires Enabled(s, Step(i, ok)) && s.threads[i].pc.Starting?
    ensures var t := Next(s, Step(i, ok));
            && t.node == s.node && t.closed == s.closed
            && (!s.closed && s.cmd.None? && ok ==>
                  && t.cmd == Some(|s.procs|) && t.threads[i].pc == Waiting(|s.procs|) && !t.ready
                  && t.procs == s.procs + [Proc(s.node, true, false, Reading, false)]
                  && (t.lock.Some? <==> s.kind.Monerod?))
            && (s.closed || s.cmd.Some? || !ok ==>
                  && t.cmd == s.cmd && t.procs == s.procs && t.ready == s.ready && t.lock.None?
                  && t.threads[i].pc ==
                       Done(if s.closed then Refused else if s.cmd.Some? then Already else LaunchFailed))
  {
  }

  /** What the callers of Reconnect and Retarget ask for: new ports and a new login for the
      same node, or another node, reached in another way and without a login. */
  predicate AsAsked(n: Node, c: Change, m: Node) {
    match c
    case Reconnect(zmqPort, login) =>
      && m.zmqPort == zmqPort && m.login == login
      && m.host == n.host && m.rpcPort == n.rpcPort && m.socks == n.socks
    case Retarget(host, rpcPort, zmqPort, socks) =>
      m.host == host && m.rpcPort == rpcPort && m.zmqPort == zmqPort && m.socks == socks && m.login == 0
  }

  /** With nobody in between, a Reconnect or a Retarget ends the running p2pool, and the new
      one has the settings that were asked for. */
  lemma ChangeTakesEffect(s: State, i: nat, c: Change)
    requires ProcsInv(s) && !s.closed && s.lock.None? && s.kind.P2Pool?
    requires i < |s.threads| && s.threads[i] == Thread(DoChange(c), StoppingFirst)
    ensures Enabled(s, Step(i, true))
    ensures var t := Next(s, Step(i, true));
            && Enabled(t, Step(i, true))
            && var u := Next(t, Step(i, true));
               && Enabled(u, Step(i, true))
               && var v := Next(u, Step(i, true));
                  && v.cmd == Some(|s.procs|) && |v.procs| == |s.procs| + 1
                  && v.procs[|s.procs|].alive && AsAsked(s.node, c, v.procs[|s.procs|].args)
                  && v.node == v.procs[|s.procs|].args
                  && forall p :: 0 <= p < |s.procs| ==> !v.procs[p].alive && v.procs[p].reaped
  {
    var t := Next(s, Step(i, true));
    StopEnds(s, i, true);
    assert ProcsInv(t) && t.threads[i] == Thread(DoChange(c), Setting) && t.lock.None? by {
      StepKeepsProcs(s, Step(i, true));
    }
    var u := Next(t, Step(i, true));
    assert u.procs == t.procs && u.cmd.None? && u.threads[i].pc.Starting? && AsAsked(s.node, c, u.node);
    StartLaunches(u, i, true);
    hide StopNow, StartNow, Changed, AsAsked;
  }

  // ---- arguments ----

  /** A thread that is going to launch a process, or may. */
  predicate IsStarter(t: Thread) {
    t.pc.Starting? || t.pc.StoppingFirst? || t.pc.Setting?
  }

  predicate OneStarter(s: State) {
    forall i, j ::
      0 <= i < |s.threads| && 0 <= j < |s.threads| && IsStarter(s.threads[i]) && IsStarter(s.threads[j]) ==> i == j
  }

  /** A run in which nobody begins to start or reconfigure while somebody else does. */
  ghost predicate OrderlyRun(s: State, es: seq<Event>, t: State)
    decreases |es|
  {
    if |es| == 0 then s == t
    else
      var before, e := es[..|es| - 1], es[|es| - 1];
      exists u :: OrderlyRun(s, before, u) && StepsTo(u, e, t) && OneStarter(t)
  }

  predicate ArgumentsMatch(s: State) {
    s.cmd.Some? ==> s.cmd.value < |s.procs| && s.procs[s.cmd.value].args == s.node
  }

  /** One step parts them only by storing settings while another thread's process runs. */
  lemma PartsOnlyBySetting(s: State, e: Event)
    requires ProcsInv(s) && ArgumentsMatch(s) && Enabled(s, e)
    ensures !ArgumentsMatch(Next(s, e)) <==>
              && e.Step? && s.threads[e.i].pc.Setting? && s.threads[e.i].op.DoChange?
              && s.cmd.Some? && Changed(s.node, s.threads[e.i].op.c) != s.node
  {
    StopKeepsProcs(s);
    hide Changed, Offers, Entry, StopNow, Waits;
  }

  predicate ArgsInv(s: State) {
    ArgumentsMatch(s) && forall t <- s.threads :: t.pc.Setting? ==> s.cmd.None?
  }

  lemma SettingStep(s: State, e: Event, q: Thread)
    requires ProcsInv(s) && ArgsInv(s) && Enabled(s, e) && OneStarter(s)
    requires q in Next(s, e).threads && q.pc.Setting?
    ensures Next(s, e).cmd.None?
  {
    StopKeepsProcs(s);
    hide Changed, Offers, StopNow, Waits;
    var t := Next(s, e);
    var j :| 0 <= j < |t.threads| && t.threads[j] == q;
    if j < |s.threads| && s.threads[j].pc.Setting? {
      assert s.threads[j] in s.threads;
      if e.Step? && e.i != j && t.cmd.Some? {
        assert false;
      }
    }
  }

  lemma ArgsStep(s: State, e: Event)
    requires ProcsInv(s) && ArgsInv(s) && Enabled(s, e) && OneStarter(s)
    ensures ArgsInv(Next(s, e))
  {
    PartsOnlyBySetting(s, e);
    if e.Step? {
      assert s.threads[e.i] in s.threads;
    }
    hide Next, ProcsInv, OneStarter, ArgumentsMatch;
    forall q | q in Next(s, e).threads && q.pc.Setting? ensures Next(s, e).cmd.None? {
      SettingStep(s, e, q);
    }
  }

  /** With one thread at a time starting or reconfiguring, and any number of others
      stopping and closing, a running process always has the stored settings as its
      arguments. */
  lemma {:induction false} ArgumentsAreTheSettings(kind: Kind, node: Node, es: seq<Event>, s: State)
    requires OrderlyRun(Init(kind, node), es, s)
    ensures s.cmd.Some? ==> s.cmd.value < |s.procs| && s.procs[s.cmd.value].args == s.node
    ensures ArgsInv(s) && ProcsInv(s) && OneStarter(s)
    decreases |es|
  {
    if |es| == 0 {
      InitInv(kind, node);
    } else {
      hide StepsTo, ProcsInv, OneStarter;
      var before, e := es[..|es| - 1], es[|es| - 1];
      var u :| OrderlyRun(Init(kind, node), before, u) && StepsTo(u, e, s) && OneStarter(s);
      ArgumentsAreTheSettings(kind, node, before, u);
      StepMeans(u, e, s);
      hide Next, Enabled;
      StepKeepsProcs(u, e);
      ArgsStep(u, e);
    }
  }

  lemma RunOne(s: State, es: seq<Event>, u: State, e: Event) returns (more: seq<Event>, t: State)
    requires IsRun(StepsTo, s, es, u) && Enabled(u, e)
    ensures t == Next(u, e) && more == es + [e] && IsRun(StepsTo, s, more, t)
  {
    hide IsRun, Next, Enabled;
    more, t := es + [e], Next(u, e);
    Append(StepsTo, s, es, u, e, t);
  }

  /** Two threads reconnect; both have stopped the process, and the first has launched one
      of its own when the second stores its settings, finds it running and is content. */
  lemma TwoReconfigure(node: Node) returns (es: seq<Event>, s: State)
    requires node.zmqPort == 0
    ensures IsRun(StepsTo, Init(P2Pool, node), es, s)
    ensures s.cmd == Some(0) && |s.procs| == 1 && s.procs[0].args.zmqPort == 1 && s.node.zmqPort == 2
    ensures |s.threads| == 2 && s.threads[1].pc == Done(Already)
  {
    es, s := BothStopped(node);
    hide IsRun;
    es, s := RunOne(Init(P2Pool, node), es, s, Step(0, true));
    es, s := RunOne(Init(P2Pool, node), es, s, Step(0, true));
    assert s.cmd == Some(0) && s.procs == [Proc(node.(zmqPort := 1, login := 0), true, false, Reading, false)];
    es, s := RunOne(Init(P2Pool, node), es, s, Step(1, true));
    es, s := RunOne(Init(P2Pool, node), es, s, Step(1, true));
  }

  lemma BothStopped(node: Node) returns (es: seq<Event>, s: State)
    ensures IsRun(StepsTo, Init(P2Pool, node), es, s)
    ensures s == State(P2Pool, node, None, false, false, None, [],
                       [Thread(DoChange(Reconnect(1, 0)), Setting), Thread(DoChange(Reconnect(2, 0)), Setting)])
  {
    var i := Init(P2Pool, node);
    es, s := [], i;
    assert IsRun(StepsTo, i, [], i);
    hide IsRun;
    es, s := RunOne(i, es, s, Call(DoChange(Reconnect(1, 0))));
    es, s := RunOne(i, es, s, Call(DoChange(Reconnect(2, 0))));
    es, s := RunOne(i, es, s, Step(0, true));
    es, s := RunOne(i, es, s, Step(1, true));
  }

  // ---- readiness ----

  /** Monerod's Start waits with the lock, and the reader cannot fill the channel without
      it. */
  predicate MonerodInv(s: State) {
    forall i :: 0 <= i < |s.threads| ==> MonerodThread(s, i)
  }

  predicate MonerodThread(s: State, i: nat)
    requires i < |s.threads|
  {
    && (s.threads[i].pc.Waiting? ==>
          && s.lock == Some(i) && s.threads[i].pc.p < |s.procs|
          && !s.procs[s.threads[i].pc.p].signalled && !s.procs[s.threads[i].pc.p].reader.Sending?)
    && s.threads[i].pc != Done(Ready)
  }

  lemma MonerodStep(s: State, e: Event)
    requires s.kind.Monerod? && MonerodInv(s) && Enabled(s, e)
    ensures MonerodInv(Next(s, e))
  {
    var t := Next(s, e);
    forall j | 0 <= j < |t.threads| ensures MonerodThread(t, j) {
      if e.Step? {
        MonerodLockStep(s, e.i, e.ok, j);
      } else {
        if j < |s.threads| {
          assert MonerodThread(s, j);
        }
        if e.ReturnsReady? {
          NotReady(s, e.i);
        }
        hide StopNow, StartNow, Changed, Offers;
      }
    }
  }

  lemma NotReady(s: State, i: nat)
    requires MonerodInv(s)
    ensures !Enabled(s, ReturnsReady(i))
    ensures i < |s.threads| ==> s.threads[i].pc != Done(Ready)
  {
    if i < |s.threads| {
      assert MonerodThread(s, i);
    }
  }

  /** A locked step finds nobody waiting, or it could not have the lock. */
  lemma MonerodLockStep(s: State, i: nat, ok: bool, j: nat)
    requires s.kind.Monerod? && MonerodInv(s) && Enabled(s, Step(i, ok)) && j < |Next(s, Step(i, ok)).threads|
    ensures MonerodThread(Next(s, Step(i, ok)), j)
  {
    hide Changed, Offers;
    assert MonerodThread(s, i) && s.lock.None?;
    assert |Next(s, Step(i, ok)).threads| == |s.threads|;
    assert MonerodThread(s, j);
    hide MonerodInv;
    match s.threads[i].pc
    case Starting => hide StopNow;
    case _ => hide StartNow;
  }

  /** Monerod.Start never returns because the node reported itself synchronised: that
      branch is dead, and every Start that launches a process waits out its timeout. */
  lemma {:induction false} MonerodStartTimesOut(node: Node, es: seq<Event>, s: State)
    requires IsRun(StepsTo, Init(Monerod, node), es, s)
    ensures forall i: nat :: i < |s.threads| ==> s.threads[i].pc != Done(Ready) && !Enabled(s, ReturnsReady(i))
    ensures MonerodInv(s) && s.kind.Monerod?
    decreases |es|
  {
    if |es| == 0 {
      assert s == Init(Monerod, node);
    } else {
      hide StepsTo, MonerodInv, Next, Enabled;
      var before, e := es[..|es| - 1], es[|es| - 1];
      var u :| IsRun(StepsTo, Init(Monerod, node), before, u) && StepsTo(u, e, s);
      MonerodStartTimesOut(node, before, u);
      StepMeans(u, e, s);
      MonerodStep(u, e);
      KindStays(u, e);
      forall i: nat | i < |s.threads| ensures s.threads[i].pc != Done(Ready) && !Enabled(s, ReturnsReady(i)) {
        NotReady(s, i);
      }
    }
  }

  // ---- that a waiting Start returns ----

  predicate WaitInv(s: State) {
    && (s.kind.Monerod? || s.lock.None?)
    && forall i :: 0 <= i < |s.threads| && s.threads[i].pc.Waiting? ==> s.threads[i].pc.p < |s.procs|
  }

  lemma WaitLockStep(s: State, i: nat, ok: bool)
    requires WaitInv(s) && Enabled(s, Step(i, ok))
    ensures WaitInv(Next(s, Step(i, ok)))
  {
    hide Changed, Offers;
    match s.threads[i].pc
    case Starting => hide StopNow;
    case _ => hide StartNow;
  }

  lemma WaitStep(s: State, e: Event)
    requires WaitInv(s) && Enabled(s, e)
    ensures WaitInv(Next(s, e))
  {
    if e.Step? {
      WaitLockStep(s, e.i, e.ok);
    }
    hide Changed, Offers, StartNow, StopNow;
  }

  /** No Start waits for ever: its timeout can always come. */
  lemma {:induction false} WaitersCanTimeOut(kind: Kind, node: Node, es: seq<Event>, s: State)
    requires IsRun(StepsTo, Init(kind, node), es, s)
    ensures WaitInv(s)
    ensures forall i: nat :: i < |s.threads| && s.threads[i].pc.Waiting? ==>
      && Enabled(s, TimesOut(i))
      && Next(s, TimesOut(i)).threads == s.threads[i := s.threads[i].(pc := Done(TimedOut))]
      && Next(s, TimesOut(i)).lock != Some(i)
    decreases |es|
  {
    if |es| > 0 {
      var before, e := es[..|es| - 1], es[|es| - 1];
      var u :| IsRun(StepsTo, Init(kind, node), before, u) && StepsTo(u, e, s);
      hide ProcsInv, Next, IsRun, WaitInv, ClosedInv;
      WaitersCanTimeOut(kind, node, before, u);
      WaitStep(u, e);
    }
    CanTimeOut(s);
  }

  lemma CanTimeOut(s: State)
    requires WaitInv(s) || s.threads == []
    ensures forall i: nat :: i < |s.threads| && s.threads[i].pc.Waiting? ==>
      && Enabled(s, TimesOut(i))
      && Next(s, TimesOut(i)).threads == s.threads[i := s.threads[i].(pc := Done(TimedOut))]
      && Next(s, TimesOut(i)).lock != Some(i)
  {
  }

  function LinesLeft(r: Reader): nat {
    match r
    case Announcing => 3
    case Sending => 2
    case Reading => 1
    case Ended => 0
  }

  predicate OfReader(e: Event, p: nat) {
    e == Announces(p) || e == Sends(p) || e == Ends(p)
  }

  predicate WaitsForDead(s: State, i: nat, p: nat) {
    && s.kind.P2Pool? && i < |s.threads| && s.threads[i].pc == Waiting(p)
    && p < |s.procs| && !s.procs[p].alive && s.lock.None?
  }

  lemma ReaderGoesOn(s: State, i: nat, p: nat) returns (e: Event)
    requires WaitsForDead(s, i, p) && p < |s.procs| && !s.procs[p].reader.Ended?
    ensures OfReader(e, p) && Enabled(s, e)
    ensures var t := Next(s, e);
            WaitsForDead(t, i, p) && t.threads == s.threads && p < |t.procs|
            && LinesLeft(t.procs[p].reader) < LinesLeft(s.procs[p].reader)
  {
    e := if s.procs[p].reader.Announcing? then Announces(p)
         else if s.procs[p].reader.Sending? then Sends(p) else Ends(p);
  }

  /** Steps of p's reader alone after which thread i can return. */
  ghost predicate Frees(i: State, es: seq<Event>, thread: nat, p: nat, more: seq<Event>, t: State) {
    && IsRun(StepsTo, i, es + more, t) && Enabled(t, ReturnsExited(thread))
    && thread < |t.threads| && Next(t, ReturnsExited(thread)).threads[thread].pc == Done(Exited)
    && forall e <- more :: OfReader(e, p)
  }

  lemma FreesAfter(i: State, es: seq<Event>, e: Event, thread: nat, p: nat, rest: seq<Event>, t: State)
    requires Frees(i, es + [e], thread, p, rest, t) && OfReader(e, p)
    ensures Frees(i, es, thread, p, [e] + rest, t)
  {
    hide IsRun, Enabled, OfReader, Next;
    assert es + ([e] + rest) == es + [e] + rest;
  }

  lemma FreesNow(i: State, es: seq<Event>, s: State, thread: nat, p: nat)
    requires IsRun(StepsTo, i, es, s) && WaitsForDead(s, thread, p) && s.procs[p].reader.Ended?
    ensures Frees(i, es, thread, p, [], s)
  {
    hide IsRun;
    assert es + [] == es;
  }

  lemma {:induction false} ReaderFrees(i: State, es: seq<Event>, s: State, thread: nat, p: nat)
    returns (more: seq<Event>, t: State)
    requires IsRun(StepsTo, i, es, s) && WaitsForDead(s, thread, p) && p < |s.procs|
    ensures Frees(i, es, thread, p, more, t) && |more| <= LinesLeft(s.procs[p].reader)
    decreases LinesLeft(s.procs[p].reader)
  {
    hide *;
    if s.procs[p].reader.Ended? {
      FreesNow(i, es, s, thread, p);
      more, t := [], s;
    } else {
      var e := ReaderGoesOn(s, thread, p);
      var next, u := RunOne(i, es, s, e);
      var rest;
      rest, t := ReaderFrees(i, next, u, thread, p);
      FreesAfter(i, es, e, thread, p, rest, t);
      more := [e] + rest;
    }
  }

  /** A Start of p2pool does not wait for a process that has died: whatever the reader of its
      output was at, at most three more of its steps let the Start return. */
  lemma DeathEndsTheWait(node: Node, es: seq<Event>, s: State, i: nat, p: nat) returns (more: seq<Event>, t: State)
    requires IsRun(StepsTo, Init(P2Pool, node), es, s)
    requires i < |s.threads| && s.threads[i].pc == Waiting(p) && p < |s.procs| && !s.procs[p].alive
    ensures IsRun(StepsTo, Init(P2Pool, node), es + more, t) && Enabled(t, ReturnsExited(i)) && i < |t.threads|
    ensures Next(t, ReturnsExited(i)).threads[i].pc == Done(Exited)
    ensures |more| <= 3 && forall e <- more :: e == Announces(p) || e == Sends(p) || e == Ends(p)
  {
    DeadIsWaitedFor(node, es, s, i, p);
    more, t := ReaderFrees(Init(P2Pool, node), es, s, i, p);
    hide IsRun, Enabled, Next, WaitsForDead;
  }

  lemma DeadIsWaitedFor(node: Node, es: seq<Event>, s: State, i: nat, p: nat)
    requires IsRun(StepsTo, Init(P2Pool, node), es, s)
    requires i < |s.threads| && s.threads[i].pc == Waiting(p) && p < |s.procs| && !s.procs[p].alive
    ensures WaitsForDead(s, i, p)
  {
    WaitersCanTimeOut(P2Pool, node, es, s);
    RunsKeepInv(P2Pool, node, es, s);
    hide IsRun, ProcsInv, ClosedInv, Enabled;
  }

  lemma Launched(kind: Kind, node: Node) returns (es: seq<Event>, s: State)
    requires !kind.Monerod?
    ensures IsRun(StepsTo, Init(kind, node), es, s)
    ensures s == State(kind, node, Some(0), false, false, None, [Proc(node, true, false, Reading, false)],
        [Thread(DoStart, Waiting(0))])
  {
    var i := Init(kind, node);
    es, s := [], i;
    assert IsRun(StepsTo, i, [], i);
    hide IsRun, StopNow, Changed, Returns, WithProc;
    es, s := RunOne(i, es, s, Call(DoStart));
    var called := [Thread(DoStart, Starting)];
    assert s.threads == called;
    assert called[0 := Thread(DoStart, Waiting(0))] == [Thread(DoStart, Waiting(0))];
    es, s := RunOne(i, es, s, Step(0, true));
  }

  /** A Start whose process has printed its line, the reader about to take the lock. */
  lemma LineSeen(kind: Kind, node: Node) returns (es: seq<Event>, s: State)
    requires !kind.Monerod?
    ensures IsRun(StepsTo, Init(kind, node), es, s)
    ensures s == State(kind, node, Some(0), false, false, None, [Proc(node, true, false, Announcing, false)],
        [Thread(DoStart, Waiting(0))])
  {
    es, s := Launched(kind, node);
    hide IsRun, StartNow, StopNow, At, Changed;
    es, s := RunOne(Init(kind, node), es, s, SeesLine(0));
  }

  /** P2Pool's and Tor's can, because they let the lock go first. */
  lemma OthersReturnReady(kind: Kind, node: Node) returns (es: seq<Event>, s: State)
    requires !kind.Monerod?
    ensures IsRun(StepsTo, Init(kind, node), es, s) && |s.threads| == 1 && s.threads[0].pc == Done(Ready) && s.ready
  {
    es, s := StartedReady(kind, node);
  }

  lemma StartedReady(kind: Kind, node: Node) returns (es: seq<Event>, s: State)
    requires !kind.Monerod?
    ensures IsRun(StepsTo, Init(kind, node), es, s)
    ensures s == State(kind, node, Some(0), false, true, None, [Proc(node, true, false, Reading, true)],
                       [Thread(DoStart, Done(Ready))])
  {
    es, s := LineSeen(kind, node);
    hide IsRun, StartNow, StopNow;
    es, s := RunOne(Init(kind, node), es, s, Announces(0));
    es, s := RunOne(Init(kind, node), es, s, Sends(0));
    es, s := RunOne(Init(kind, node), es, s, ReturnsReady(0));
  }

  // ---- what Ready and the stored settings say of the process ----

  /** The reader of process p has announced it. */
  predicate Announced(s: State, p: nat) {
    p < |s.procs| && (s.procs[p].reader.Sending? || s.procs[p].signalled)
  }

  /** The manager has a process, it is alive, and it was announced. */
  predicate Up(s: State) {
    s.cmd.Some? && s.cmd.value < |s.procs| && s.procs[s.cmd.value].alive && Announced(s, s.cmd.value)
  }

  /** What a caller is told: by Ready, that the manager's process is up; by the fields, what
      the arguments of a running process are. */
  datatype Claim = ReadyMeansUp | FieldsAreArguments

  predicate Right(c: Claim, s: State) {
    match c
    case ReadyMeansUp => s.ready ==> Up(s)
    case FieldsAreArguments => ArgumentsMatch(s)
  }

  predicate StopsOne(s: State, e: Event) {
    e.Step? && e.i < |s.threads| && Stops(s.threads[e.i].pc) && s.cmd.Some?
  }

  predicate Launches(s: State, e: Event) {
    e.Step? && e.i < |s.threads| && s.threads[e.i].pc.Starting? && !s.closed && s.cmd.None? && e.ok
  }

  /** A reader takes the lock for the process that the manager has, and it still lives. */
  predicate AnnouncesIt(s: State, e: Event) {
    e.Announces? && s.cmd == Some(e.p) && e.p < |s.procs| && s.procs[e.p].alive
  }

  /** New settings are stored while a process runs. */
  predicate StoresOver(s: State, e: Event) {
    && e.Step? && e.i < |s.threads| && s.threads[e.i].pc.Setting? && s.threads[e.i].op.DoChange?
    && s.cmd.Some? && s.cmd.value < |s.procs|
  }

  predicate StoresItsArguments(s: State, e: Event)
    requires StoresOver(s, e)
  {
    Changed(s.node, s.threads[e.i].op.c) == s.procs[s.cmd.value].args
  }

  /** Ready goes wrong with a reader that announces anything but the manager's own living
      process, unless that one is up, and with the end of that process by itself; the
      fields, with settings that are not the running process's arguments. */
  predicate Breaks(c: Claim, s: State, e: Event) {
    match c
    case ReadyMeansUp =>
      || (e.Announces? && !AnnouncesIt(s, e) && !Up(s))
      || (e.Dies? && s.cmd == Some(e.p) && s.ready)
    case FieldsAreArguments => StoresOver(s, e) && !StoresItsArguments(s, e)
  }

  /** A Stop that finds a process sets both right; a launch and the right announcement, the
      one; storing what the process runs with, the other. */
  predicate Restores(c: Claim, s: State, e: Event) {
    match c
    case ReadyMeansUp => StopsOne(s, e) || Launches(s, e) || AnnouncesIt(s, e)
    case FieldsAreArguments => StopsOne(s, e) || (StoresOver(s, e) && StoresItsArguments(s, e))
  }

  lemma LockedReady(s: State, i: nat, ok: bool)
    requires ProcsInv(s) && Enabled(s, Step(i, ok))
    ensures !Right(ReadyMeansUp, Next(s, Step(i, ok))) <==>
              !Right(ReadyMeansUp, s) && !Restores(ReadyMeansUp, s, Step(i, ok))
  {
    hide Changed, Offers, Waits, Entry, ArgumentsMatch, StoresOver;
    match s.threads[i].pc
    case Starting => hide StopNow;
    case _ => hide StartNow;
  }

  lemma ReadyStepIff(s: State, e: Event)
    requires ProcsInv(s) && Enabled(s, e)
    ensures !Right(ReadyMeansUp, Next(s, e)) <==>
              Breaks(ReadyMeansUp, s, e) || (!Right(ReadyMeansUp, s) && !Restores(ReadyMeansUp, s, e))
  {
    if e.Step? {
      LockedReady(s, e.i, e.ok);
    }
    hide StopNow, StartNow, Changed, Offers, Waits, Entry, ArgumentsMatch, StoresOver;
  }

  lemma ArgumentsStepIff(s: State, e: Event)
    requires ProcsInv(s) && Enabled(s, e)
    ensures !Right(FieldsAreArguments, Next(s, e)) <==>
              Breaks(FieldsAreArguments, s, e) || (!Right(FieldsAreArguments, s) && !Restores(FieldsAreArguments, s, e))
  {
    hide Changed, Offers, Waits, Entry, Up, Launches, AnnouncesIt;
    if e.Step? && !s.threads[e.i].pc.Starting? {
      hide StartNow;
    } else {
      hide StopNow;
    }
  }

  lemma StepIff(c: Claim, s: State, e: Event)
    requires ProcsInv(s) && Enabled(s, e)
    ensures !Right(c, Next(s, e)) <==> Breaks(c, s, e) || (!Right(c, s) && !Restores(c, s, e))
  {
    hide *;
    match c
    case ReadyMeansUp => ReadyStepIff(s, e);
    case FieldsAreArguments => ArgumentsStepIff(s, e);
  }

  /** A run none of whose steps sets the claim right. */
  ghost predicate Unrestored(c: Claim, s: State, es: seq<Event>, t: State)
    decreases |es|
  {
    if |es| == 0 then s == t
    else
      var before, e := es[..|es| - 1], es[|es| - 1];
      exists u :: Unrestored(c, s, before, u) && StepsTo(u, e, t) && !Restores(c, u, e)
  }

  /** Step k of the run broke the claim, and nothing has set it right since. */
  ghost predicate BrokenAt(c: Claim, i: State, es: seq<Event>, t: State, k: nat, u: State) {
    && k < |es| && IsRun(StepsTo, i, es[..k], u)
    && Enabled(u, es[k]) && Breaks(c, u, es[k])
    && Unrestored(c, Next(u, es[k]), es[k + 1..], t)
  }

  lemma {:induction false} WrongStays(c: Claim, s: State, es: seq<Event>, t: State)
    requires ProcsInv(s) && !Right(c, s) && Unrestored(c, s, es, t)
    ensures ProcsInv(t) && !Right(c, t)
    decreases |es|
  {
    hide StepsTo, ProcsInv, Right, Restores;
    if |es| > 0 {
      var before, e := es[..|es| - 1], es[|es| - 1];
      var u :| Unrestored(c, s, before, u) && StepsTo(u, e, t) && !Restores(c, u, e);
      WrongStays(c, s, before, u);
      StepMeans(u, e, t);
      StepKeepsProcs(u, e);
      StepIff(c, u, e);
    }
  }

  lemma UnrestoredMore(c: Claim, s: State, es: seq<Event>, u: State, e: Event, t: State)
    requires Unrestored(c, s, es, u) && StepsTo(u, e, t) && !Restores(c, u, e)
    ensures Unrestored(c, s, es + [e], t)
  {
    hide StepsTo, Restores;
    var longer := es + [e];
    assert longer[..|longer| - 1] == es && longer[|longer| - 1] == e;
  }

  lemma BrokenMore(c: Claim, i: State, es: seq<Event>, u: State, e: Event, t: State, k: nat, r: State)
    requires BrokenAt(c, i, es, u, k, r) && StepsTo(u, e, t) && !Restores(c, u, e)
    ensures BrokenAt(c, i, es + [e], t, k, r)
  {
    hide StepsTo, Restores, Breaks, IsRun, Enabled, Next, Unrestored;
    var longer := es + [e];
    assert longer[..k] == es[..k] && longer[k] == es[k];
    assert longer[k + 1..] == es[k + 1..] + [e];
    UnrestoredMore(c, Next(r, es[k]), es[k + 1..], u, e, t);
  }

  lemma BrokenNow(c: Claim, i: State, es: seq<Event>, u: State, e: Event, t: State)
    requires IsRun(StepsTo, i, es, u) && StepsTo(u, e, t) && Breaks(c, u, e)
    ensures BrokenAt(c, i, es + [e], t, |es|, u)
  {
    StepMeans(u, e, t);
    hide StepsTo, Restores, Breaks, IsRun, Enabled, Next;
    var longer := es + [e];
    assert longer[..|es|] == es && longer[|es|] == e && longer[|es| + 1..] == [];
  }

  lemma {:induction false} WrongWasBroken(c: Claim, kind: Kind, node: Node, es: seq<Event>, t: State)
    returns (k: nat, u: State)
    requires IsRun(StepsTo, Init(kind, node), es, t) && !Right(c, t)
    ensures BrokenAt(c, Init(kind, node), es, t, k, u)
    decreases |es|
  {
    if |es| == 0 {
      assert false;
    } else {
      hide StepsTo, ProcsInv, ClosedInv, Right, Restores, Breaks, BrokenAt, Next, Enabled;
      var before, e := es[..|es| - 1], es[|es| - 1];
      var r :| IsRun(StepsTo, Init(kind, node), before, r) && StepsTo(r, e, t);
      hide IsRun;
      assert es == before + [e];
      RunsKeepInv(kind, node, before, r);
      StepMeans(r, e, t);
      StepIff(c, r, e);
      if Breaks(c, r, e) {
        k, u := |before|, r;
        BrokenNow(c, Init(kind, node), before, r, e, t);
      } else {
        k, u := WrongWasBroken(c, kind, node, before, r);
        BrokenMore(c, Init(kind, node), before, r, e, t, k, u);
      }
    }
  }

  lemma BrokenIsWrong(c: Claim, kind: Kind, node: Node, es: seq<Event>, t: State, k: nat, u: State)
    requires BrokenAt(c, Init(kind, node), es, t, k, u)
    ensures !Right(c, t)
  {
    hide Right, Breaks, Restores, Next, Enabled, IsRun, Unrestored, ProcsInv, ClosedInv;
    RunsKeepInv(kind, node, es[..k], u);
    StepIff(c, u, es[k]);
    StepKeepsProcs(u, es[k]);
    WrongStays(c, Next(u, es[k]), es[k + 1..], t);
  }

  lemma WrongIff(c: Claim, kind: Kind, node: Node, es: seq<Event>, t: State)
    requires IsRun(StepsTo, Init(kind, node), es, t)
    ensures !Right(c, t) <==> exists k: nat, u :: BrokenAt(c, Init(kind, node), es, t, k, u)
  {
    hide IsRun, Right, BrokenAt;
    if !Right(c, t) {
      var k, u := WrongWasBroken(c, kind, node, es, t);
    }
    forall k: nat, u | BrokenAt(c, Init(kind, node), es, t, k, u) ensures !Right(c, t) {
      BrokenIsWrong(c, kind, node, es, t, k, u);
    }
  }

  /** Over every run of every kind of manager, Ready is set with no announced living process
      exactly when a reader announced something else, or the process ended by itself, and
      neither a launch, a Stop that found a process nor the right announcement came after. */
  lemma ReadyIsWrongIff(kind: Kind, node: Node, es: seq<Event>, t: State)
    requires IsRun(StepsTo, Init(kind, node), es, t)
    ensures t.ready && !Up(t) <==> exists k: nat, u :: BrokenAt(ReadyMeansUp, Init(kind, node), es, t, k, u)
  {
    WrongIff(ReadyMeansUp, kind, node, es, t);
    hide IsRun, BrokenAt, Up;
  }

  /** Over every run, a process runs with other arguments than the fields say exactly when
      other settings were stored over a running one, and neither a Stop that found it nor
      its own settings came after. */
  lemma ArgumentsPartIff(kind: Kind, node: Node, es: seq<Event>, t: State)
    requires IsRun(StepsTo, Init(kind, node), es, t)
    ensures t.cmd.Some? && t.cmd.value < |t.procs| && t.procs[t.cmd.value].args != t.node <==>
              exists k: nat, u :: BrokenAt(FieldsAreArguments, Init(kind, node), es, t, k, u)
  {
    WrongIff(FieldsAreArguments, kind, node, es, t);
    RunsKeepInv(kind, node, es, t);
    hide IsRun, BrokenAt;
  }

  /** An ordinary crash: announced, started, and dead, with Ready still set. */
  lemma ReadyOutlivesACrash(kind: Kind, node: Node) returns (es: seq<Event>, s: State)
    requires !kind.Monerod?
    ensures IsRun(StepsTo, Init(kind, node), es, s)
    ensures s.ready && s.cmd == Some(0) && |s.procs| == 1 && !s.procs[0].alive
    ensures s.threads == [Thread(DoStart, Done(Ready))]
  {
    es, s := StartedReady(kind, node);
    hide IsRun, StartNow, StopNow;
    es, s := RunOne(Init(kind, node), es, s, Dies(0));
  }

  /** It happens with a newer process too: the line was the old one's. */
  lemma ReadyForANewerProcess(kind: Kind, node: Node) returns (es: seq<Event>, s: State)
    requires !kind.Monerod?
    ensures IsRun(StepsTo, Init(kind, node), es, s) && s.ready && s.cmd == Some(1) && |s.procs| == 2 && !Announced(s, 1)
  {
    es, s := OldOneStopped(kind, node);
    hide IsRun;
    es, s := RunOne(Init(kind, node), es, s, Call(DoStart));
    assert s.threads[2] == Thread(DoStart, Starting);
    es, s := RunOne(Init(kind, node), es, s, Step(2, true));
    assert s.cmd == Some(1) && |s.procs| == 2 && s.procs[0].reader.Announcing? && s.procs[1].reader.Reading?;
    hide StopNow, StartNow, At;
    es, s := RunOne(Init(kind, node), es, s, Announces(0));
  }

  lemma OldOneStopped(kind: Kind, node: Node) returns (es: seq<Event>, s: State)
    requires !kind.Monerod?
    ensures IsRun(StepsTo, Init(kind, node), es, s)
    ensures s == State(kind, node, None, false, false, None, [Proc(node, false, true, Announcing, false)],
                       [Thread(DoStart, Waiting(0)), Thread(DoStop, Done(Stopped))])
  {
    es, s := LineSeen(kind, node);
    hide IsRun;
    es, s := RunOne(Init(kind, node), es, s, Call(DoStop));
    es, s := RunOne(Init(kind, node), es, s, Step(1, true));
  }

  /** They pay for it: a reader that saw the line before a Stop and takes the lock after
      it leaves the manager ready with no process at all. */
  lemma ReadyCanOutliveTheProcess(kind: Kind, node: Node) returns (es: seq<Event>, s: State)
    requires !kind.Monerod?
    ensures IsRun(StepsTo, Init(kind, node), es, s) && s.ready && s.cmd.None?
  {
    es, s := OldOneStopped(kind, node);
    hide IsRun;
    es, s := RunOne(Init(kind, node), es, s, Announces(0));
  }
}
