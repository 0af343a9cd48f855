/** internal/engine/xmrig.go: the miner's process under its mutex. Start, Stop, Close,
    suspend and unsuspend each hold the lock from end to end, so a run is any sequence of
    them, by any threads, with duty loops of processes long gone still among them. */
module Miner {
  import opened Wrappers

  /** The stop channel of a process's duty loop, and how often it has been closed; a process
      that failed in its scope never gets one. */
  datatype Channel = NoLoop | Loop(closes: nat)

  /** A process: running or ended, waited for or not, stopped by SIGSTOP or not. reaped
      processes may have had their PID given to somebody else. */
  datatype Process = Process(alive: bool, reaped: bool, frozen: bool, loop: Channel)

  function CloseChannel(q: Process): Process {
    if q.loop.Loop? then q.(loop := Loop(q.loop.closes + 1)) else q
  }

  /** The manager's fields, with the processes it ever launched, newest last, and every
      signal it has sent, to which process, and whether that one had been reaped. */
  datatype State = State(cmd: Option<nat>, paused: bool, closed: bool, dutyStop: Option<nat>,
                         procs: seq<Process>, signals: seq<Signal>)

  datatype Signal = Signal(to: nat, stop: bool, reaped: bool)

  /** launched: the process starts. scopeFails: it did not become the miner inside its
      scope, was ended, and a second one is started directly. sent: the signal could be
      delivered. A Loop event is one of the duty loop bound to process p. */
  datatype Event =
    | Start(launched: bool, scopeFails: bool)
    | Stop
    | Close
    | Suspend(p: nat, sent: bool)
    | Unsuspend(p: nat, sent: bool)
    | Dies(p: nat)

  const FRESH: State := State(None, false, false, None, [], [])

  function Launch(s: State): State {
    var p := |s.procs|;
    s.(cmd := Some(p), paused := false, dutyStop := Some(p), procs := s.procs + [Process(true, false, false, Loop(0))])
  }

  /** A process launched in a scope and ended again: no duty loop was ever bound to it. */
  function FailedScope(s: State): State {
    s.(procs := s.procs + [Process(false, true, false, NoLoop)])
  }

  function Stopped(s: State): State {
    if s.cmd.None? || s.cmd.value >= |s.procs| then s
    else
      var q := s.procs[s.cmd.value];
      var procs := s.procs[s.cmd.value := Process(false, true, q.frozen, q.loop)];
      var closed :=
        if s.dutyStop.Some? && s.dutyStop.value < |procs|
        then procs[s.dutyStop.value := CloseChannel(procs[s.dutyStop.value])]
        else procs;
      s.(cmd := None, paused := false, dutyStop := None, procs := closed)
  }

  function Signalled(s: State, p: nat, stop: bool): State {
    if p >= |s.procs| then s
    else s.(paused := stop, procs := s.procs[p := s.procs[p].(frozen := stop)],
            signals := s.signals + [Signal(p, stop, s.procs[p].reaped)])
  }

  function Next(s: State, e: Event): State {
    match e
    case Start(launched, scopeFails) =>
      if s.closed || s.cmd.Some? then s
      else
        var t := if scopeFails then FailedScope(s) else s;
        if launched then Launch(t) else t
    case Stop => Stopped(s)
    case Close => Stopped(s.(closed := true))
    case Suspend(p, sent) => if s.cmd != Some(p) || s.paused || !sent then s else Signalled(s, p, true)
    case Unsuspend(p, sent) => if s.cmd != Some(p) || !s.paused || !sent then s else Signalled(s, p, false)
    case Dies(p) => if p < |s.procs| then s.(procs := s.procs[p := s.procs[p].(alive := false)]) else s
  }

  // ---- the manager as the source has it ----

  class XMRig {
    var cmd: Option<nat>
    var paused: bool
    var closed: bool
    var dutyStop: Option<nat>
    var procs: seq<Process>
    var signals: seq<Signal>

    function Fields(): State
      reads this
    {
      State(cmd, paused, closed, dutyStop, procs, signals)
    }

    constructor ()
      ensures Fields() == FRESH
    {
      cmd, paused, closed, dutyStop, procs, signals := None, false, false, None, [], [];
    }

    method Start(launched: bool, scopeFails: bool) returns (running: bool)
      modifies this
      ensures Fields() == Next(old(Fields()), Event.Start(launched, scopeFails))
      ensures running <==> !old(closed) && (old(cmd).Some? || launched)
      ensures old(closed) || old(cmd).Some? ==> Fields() == old(Fields())
      ensures !old(closed) && old(cmd).None? && launched ==>
                && cmd.Some? && |old(procs)| <= cmd.value < |procs| && dutyStop == cmd && !paused
                && procs[cmd.value] == Process(true, false, false, Loop(0))
      ensures !launched && old(cmd).None? ==> cmd.None? && dutyStop == old(dutyStop)
      ensures old(procs) <= procs && signals == old(signals) && closed == old(closed)
    {
      if closed {
        return false;
      }
      if cmd.Some? {
        return true;
      }
      if scopeFails {
        procs := procs + [Process(false, true, false, NoLoop)];
      }
      if !launched {
        return false;
      }
      cmd, dutyStop, paused := Some(|procs|), Some(|procs|), false;
      procs := procs + [Process(true, false, false, Loop(0))];
      return true;
    }

    method StopLocked()
      requires Safe(Fields())
      modifies this
      ensures Fields() == Stopped(old(Fields()))
    {
      if cmd.None? {
        return;
      }
      var p := cmd.value;
      if dutyStop.Some? {
        procs := procs[dutyStop.value := CloseChannel(procs[dutyStop.value])];
        dutyStop := None;
      }
      procs := procs[p := procs[p].(alive := false, reaped := true)];
      cmd, paused := None, false;
    }

    method Stop()
      requires Safe(Fields())
      modifies this
      ensures Fields() == Next(old(Fields()), Event.Stop)
      ensures Ended(old(Fields()), Fields()) && closed == old(closed)
    {
      StopEnds(Fields());
      StopLocked();
    }

    method Close()
      requires Safe(Fields())
      modifies this
      ensures Fields() == Next(old(Fields()), Event.Close)
      ensures Ended(old(Fields()), Fields()) && closed
    {
      ClosedSafe(Fields());
      StopEnds(Fields().(closed := true));
      closed := true;
      StopLocked();
    }

    method Suspend(p: nat, sent: bool)
      requires Safe(Fields())
      modifies this
      ensures Fields() == Next(old(Fields()), Event.Suspend(p, sent))
      ensures old(cmd) == Some(p) && (sent || old(paused)) ==>
                paused && p < |procs| && procs == old(procs)[p := old(procs)[p].(frozen := true)]
      ensures old(cmd) == Some(p) && !old(paused) && sent ==> signals == old(signals) + [Signal(p, true, false)]
      ensures old(cmd) != Some(p) || old(paused) || !sent ==> Fields() == old(Fields())
      ensures cmd == old(cmd) && closed == old(closed) && dutyStop == old(dutyStop)
    {
      if cmd.Some? {
        CurrentIsOurs(Fields());
      }
      if cmd != Some(p) || paused {
        return;
      }
      if sent {
        signals := signals + [Signal(p, true, procs[p].reaped)];
        procs := procs[p := procs[p].(frozen := true)];
        paused := true;
      }
    }

    method Unsuspend(p: nat, sent: bool)
      requires Safe(Fields())
      modifies this
      ensures Fields() == Next(old(Fields()), Event.Unsuspend(p, sent))
      ensures old(cmd) == Some(p) && (sent || !old(paused)) ==>
                !paused && p < |procs| && procs == old(procs)[p := old(procs)[p].(frozen := false)]
      ensures old(cmd) == Some(p) && old(paused) && sent ==> signals == old(signals) + [Signal(p, false, false)]
      ensures old(cmd) != Some(p) || !old(paused) || !sent ==> Fields() == old(Fields())
      ensures cmd == old(cmd) && closed == old(closed) && dutyStop == old(dutyStop)
    {
      if cmd.Some? {
        CurrentIsOurs(Fields());
      }
      if cmd != Some(p) || !paused {
        return;
      }
      if sent {
        signals := signals + [Signal(p, false, procs[p].reaped)];
        procs := procs[p := procs[p].(frozen := false)];
        paused := false;
      }
    }
  }

  // ---- what every run keeps ----

  predicate Safe(s: State) {
    && (s.cmd.Some? ==> s.cmd.value < |s.procs|)
    && s.dutyStop == s.cmd
    && (forall p :: 0 <= p < |s.procs| ==> ProcessSafe(s, p))
    && s.paused == (s.cmd.Some? && s.procs[s.cmd.value].frozen)
    && forall g <- s.signals :: !g.reaped
  }

  /** The manager's process has not been waited for and its loop's channel is open; every
      other one has ended, was waited for, and had its channel, if any, closed once. */
  predicate ProcessSafe(s: State, p: int)
    requires 0 <= p < |s.procs|
  {
    var q := s.procs[p];
    if s.cmd == Some(p) then !q.reaped && q.loop == Loop(0)
    else q.reaped && !q.alive && (q.loop.Loop? ==> q.loop.closes == 1)
  }

  lemma CurrentIsOurs(s: State)
    requires Safe(s) && s.cmd.Some?
    ensures s.cmd.value < |s.procs| && !s.procs[s.cmd.value].reaped && s.procs[s.cmd.value].frozen == s.paused
  {
    assert ProcessSafe(s, s.cmd.value);
  }

  /** Nothing is the manager's any more: the process that was has ended and was waited for,
      and its channel was closed. No other process changed, and nothing was signalled. */
  predicate Ended(s: State, t: State) {
    && t.cmd.None? && t.dutyStop.None? && !t.paused && t.signals == s.signals && |t.procs| == |s.procs|
    && (s.cmd.Some? ==>
          && s.cmd.value < |s.procs| && s.procs[s.cmd.value].loop == Loop(0)
          && t.procs[s.cmd.value] == Process(false, true, s.procs[s.cmd.value].frozen, Loop(1)))
    && forall p :: 0 <= p < |s.procs| && s.cmd != Some(p) ==> t.procs[p] == s.procs[p]
  }

  lemma StopEnds(s: State)
    requires Safe(s)
    ensures Ended(s, Stopped(s))
  {
    if s.cmd.Some? {
      assert ProcessSafe(s, s.cmd.value);
    }
  }

  lemma StopKeepsSafe(s: State)
    requires Safe(s)
    ensures Safe(Stopped(s)) && Stopped(s).cmd.None? && Stopped(s).closed == s.closed
  {
    if s.cmd.Some? {
      var t := Stopped(s);
      forall p | 0 <= p < |t.procs| ensures ProcessSafe(t, p) {
        assert ProcessSafe(s, p);
      }
    }
  }

  lemma SignalKeepsSafe(s: State, p: nat, stop: bool)
    requires Safe(s) && s.cmd == Some(p)
    ensures Safe(Signalled(s, p, stop))
  {
    var t := Signalled(s, p, stop);
    assert ProcessSafe(s, p);
    forall q | 0 <= q < |t.procs| ensures ProcessSafe(t, q) {
      assert ProcessSafe(s, q);
    }
  }

  lemma StartKeepsSafe(s: State, launched: bool, scopeFails: bool)
    requires Safe(s) && s.cmd.None?
    ensures Safe(Next(s, Start(launched, scopeFails)))
  {
    var t := Next(s, Start(launched, scopeFails));
    forall q | 0 <= q < |t.procs| ensures ProcessSafe(t, q) {
      if q < |s.procs| {
        assert ProcessSafe(s, q);
      }
    }
  }

  lemma DeathKeepsSafe(s: State, p: nat)
    requires Safe(s)
    ensures Safe(Next(s, Dies(p)))
  {
    var t := Next(s, Dies(p));
    forall q | 0 <= q < |t.procs| ensures ProcessSafe(t, q) {
      assert ProcessSafe(s, q);
    }
  }

  lemma StepKeepsSafe(s: State, e: Event)
    requires Safe(s)
    ensures Safe(Next(s, e))
    ensures s.closed ==> Next(s, e).closed && (s.cmd.None? ==> Next(s, e) == s || e.Dies?)
    ensures e.Close? ==> Next(s, e).closed && Next(s, e).cmd.None?
  {
    match e
    case Start(launched, scopeFails) =>
      if !s.closed && s.cmd.None? {
        StartKeepsSafe(s, launched, scopeFails);
      }
    case Stop => StopKeepsSafe(s);
    case Close => assert Safe(s.(closed := true)) by { ClosedSafe(s); } StopKeepsSafe(s.(closed := true));
    case Suspend(p, sent) =>
      if s.cmd == Some(p) {
        SignalKeepsSafe(s, p, true);
      }
    case Unsuspend(p, sent) =>
      if s.cmd == Some(p) {
        SignalKeepsSafe(s, p, false);
      }
    case Dies(p) => DeathKeepsSafe(s, p);
  }

  lemma ClosedSafe(s: State)
    requires Safe(s)
    ensures Safe(s.(closed := true))
  {
    var t := s.(closed := true);
    forall p | 0 <= p < |t.procs| ensures ProcessSafe(t, p) {
      assert ProcessSafe(s, p);
    }
  }

  function After(es: seq<Event>): State {
    if |es| == 0 then FRESH else Next(After(es[..|es| - 1]), es[|es| - 1])
  }

  lemma {:induction false} RunsKeepSafe(es: seq<Event>)
    ensures Safe(After(es))
    ensures (exists e :: e in es && e.Close?) ==> After(es).closed && After(es).cmd.None?
  {
    if |es| > 0 {
      hide Next, Safe;
      RunsKeepSafe(es[..|es| - 1]);
      StepKeepsSafe(After(es[..|es| - 1]), es[|es| - 1]);
      if e :| e in es && e.Close? {
        assert es == es[..|es| - 1] + [es[|es| - 1]];
        if es[|es| - 1] != e {
          StayClosed(After(es[..|es| - 1]), es[|es| - 1]);
        }
      }
    } else {
      assert Safe(FRESH);
    }
  }

  lemma StayClosed(s: State, e: Event)
    requires Safe(s) && s.closed && s.cmd.None?
    ensures Next(s, e).closed && Next(s, e).cmd.None?
  {
  }

  /** No run ever signals a process that was waited for, pause and SIGSTOP agree, and the
      channels of all loops but the running one's have been closed exactly once. */
  lemma DutyLoopsAreSafe(es: seq<Event>)
    ensures var s := After(es);
            && (forall g <- s.signals :: !g.reaped)
            && (s.cmd.Some? ==> s.cmd.value < |s.procs| && (s.paused <==> s.procs[s.cmd.value].frozen))
            && (s.cmd.None? ==> !s.paused)
            && (s.cmd.Some? ==> s.dutyStop == s.cmd && s.procs[s.cmd.value].loop == Loop(0))
            && forall p :: 0 <= p < |s.procs| && s.cmd != Some(p) && s.procs[p].loop.Loop? ==>
                 s.procs[p].loop.closes == 1
  {
    RunsKeepSafe(es);
    var s := After(es);
    hide After;
    if s.cmd.Some? {
      assert ProcessSafe(s, s.cmd.value);
    }
    forall p | 0 <= p < |s.procs| && s.cmd != Some(p) && s.procs[p].loop.Loop? ensures s.procs[p].loop.closes == 1 {
      assert ProcessSafe(s, p);
    }
  }

  /** At most one process lives, and after a Close none does, whatever was under way. */
  lemma AtMostOneLives(es: seq<Event>)
    ensures var s := After(es);
            && (forall p, q :: 0 <= p < |s.procs| && 0 <= q < |s.procs| && s.procs[p].alive && s.procs[q].alive ==>
                  p == q)
            && ((exists e :: e in es && e.Close?) ==>
                  forall p :: 0 <= p < |s.procs| ==> !s.procs[p].alive && s.procs[p].reaped)
  {
    RunsKeepSafe(es);
    var s := After(es);
    hide After;
    forall p | 0 <= p < |s.procs| ensures s.cmd != Some(p) ==> !s.procs[p].alive && s.procs[p].reaped {
      assert ProcessSafe(s, p);
    }
  }

  // ---- what the signals have left ----

  /** Whether the newest signal to process p was a stop. */
  function LastIsStop(signals: seq<Signal>, p: nat): bool {
    if |signals| == 0 then false
    else
      var g := signals[|signals| - 1];
      if g.to == p then g.stop else LastIsStop(signals[..|signals| - 1], p)
  }

  lemma SignalIsLast(signals: seq<Signal>, g: Signal, p: nat)
    ensures LastIsStop(signals + [g], p) == if g.to == p then g.stop else LastIsStop(signals, p)
  {
    assert (signals + [g])[..|signals|] == signals;
  }

  lemma {:induction false} NeverSignalled(signals: seq<Signal>, p: nat)
    requires forall g <- signals :: g.to != p
    ensures !LastIsStop(signals, p)
  {
    if |signals| > 0 {
      NeverSignalled(signals[..|signals| - 1], p);
    }
  }

  predicate Obeyed(s: State) {
    && (forall p: nat :: p < |s.procs| ==> s.procs[p].frozen == LastIsStop(s.signals, p))
    && forall g <- s.signals :: g.to < |s.procs|
  }

  lemma StepKeepsObeyed(s: State, e: Event)
    requires Safe(s) && Obeyed(s)
    ensures Obeyed(Next(s, e))
  {
    var t := Next(s, e);
    forall p: nat | p < |t.procs| ensures t.procs[p].frozen == LastIsStop(t.signals, p) {
      if t.signals != s.signals {
        SignalIsLast(s.signals, t.signals[|s.signals|], p);
      } else if p >= |s.procs| {
        NeverSignalled(s.signals, p);
      }
    }
  }

  /** Over every run each process is stopped exactly when the newest signal it was sent told
      it to be, and the manager is paused exactly when that is so of its own. */
  lemma {:induction false} FrozenIsLastSignal(es: seq<Event>)
    ensures Obeyed(After(es))
    ensures var s := After(es);
            s.paused <==> s.cmd.Some? && LastIsStop(s.signals, s.cmd.value)
  {
    hide Next;
    if |es| > 0 {
      FrozenIsLastSignal(es[..|es| - 1]);
      RunsKeepSafe(es[..|es| - 1]);
      hide Obeyed, Safe;
      StepKeepsObeyed(After(es[..|es| - 1]), es[|es| - 1]);
    }
    PausedIsStop(es);
  }

  lemma PausedIsStop(es: seq<Event>)
    requires Obeyed(After(es))
    ensures var s := After(es);
            s.paused <==> s.cmd.Some? && LastIsStop(s.signals, s.cmd.value)
  {
    RunsKeepSafe(es);
    hide After;
  }
}
