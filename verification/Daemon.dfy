/** cmd/kind-minerd/engines.go and the reload loop of cmd/kind-minerd/main.go, over every
    history of upgrades, restarts, reloads and verdicts. A write of the memory succeeds. */
module Daemon {
  import opened Rollout
  import opened Runs
  import opened Wrappers

  /** One call of mine. It works on its own copy of the memory, read when it chose. */
  datatype Run = Run(current: Pair, memory: Memory, choice: Choice, canRollBack: bool,
                     started: bool, watched: bool, since: int, looks: seq<Look>)

  /** The two pairs on disk, the memory on disk, the call of mine under way, and the
      watchers of earlier ones that have not yet seen their stop channel closed. passed is
      every pair that ever passed here. The counters: packages installed, reloads of mine
      because a pair failed, and verdicts written by a watcher whose run was over or whose
      pair was no longer the installed one. */
  datatype State = State(current: Pair, previous: Option<Pair>, memory: Memory, live: Option<Run>, stale: seq<Run>,
                         passed: set<Pair>, installs: nat, reloads: nat, late: nat)

  datatype Event =
    | Install(p: Pair)
    | Restart
    | Begin
    | Started(now: int)
    | StartFails
    | Observes(l: Look)
    | Leave
    | StaleObserves(i: nat, l: Look)

  function Init(p: Pair): State {
    State(p, None, Memory(None, None), None, [], {}, 1, 0, 0)
  }

  /** Whether the run is judging its pair. */
  predicate OnProbation(r: Run) {
    r.choice.probation && (!r.started || r.watched)
  }

  predicate Enabled(s: State, e: Event) {
    match e
    case Install(p) => true
    case Restart => true
    case Begin => s.live.None?
    case Started(now) => s.live.Some? && !s.live.value.started
    case StartFails => s.live.Some? && !s.live.value.started
    case Observes(l) => s.live.Some? && s.live.value.started && s.live.value.watched
    case Leave => s.live.Some? && s.live.value.started
    case StaleObserves(i, l) => i < |s.stale|
  }

  function Chosen(s: State): Run {
    Run(s.current, s.memory, Choose(s.current, s.previous, s.memory), CanRollBackTo(s.current, s.previous, s.memory),
        false, false, 0, [])
  }

  function LookAt(r: Run, l: Look): Run {
    r.(looks := r.looks + [l])
  }

  function VerdictOf(r: Run, l: Look): Verdict {
    Judge(r.since, Seen(r.looks + [l]), l)
  }

  /** The run records that its pair passed. */
  function Pass(s: State, r: Run): State {
    s.(memory := Passed(r.memory, r.current), passed := s.passed + {r.current},
       late := s.late + Late(s, r))
  }

  function Reject(s: State, r: Run): State {
    s.(memory := RejectedFor(r.memory, r.current), late := s.late + Late(s, r))
  }

  /** For the run under way; a stale watcher's verdict is late in any case. */
  function Late(s: State, r: Run): nat {
    if r.current == s.current then 0 else 1
  }

  function Next(s: State, e: Event): State
    requires Enabled(s, e)
  {
    match e
    case Install(p) =>
      s.(current := p, previous := if p == s.current then s.previous else Some(s.current), installs := s.installs + 1)
    case Restart => s.(live := None, stale := [])
    case Begin => s.(live := Some(Chosen(s)))
    case Started(now) => s.(live := Some(s.live.value.(started := true, watched := s.live.value.choice.probation,
        since := now)))
    case StartFails =>
      var r := s.live.value;
      if r.choice.probation then
        var t := Reject(s, r);
        if r.canRollBack then t.(live := None, reloads := s.reloads + 1) else t.(live := None, stale := [])
      else s.(live := None, stale := [])
    case Observes(l) =>
      var r := s.live.value;
      var v := VerdictOf(r, l);
      if v.Pending? then s.(live := Some(LookAt(r, l)))
      else if v.Healthy? then Pass(s, r).(live := Some(r.(watched := false, memory := Passed(r.memory, r.current))))
      else if r.canRollBack then Reject(s, r).(live := None, reloads := s.reloads + 1)
      else Reject(s, r).(live := Some(r.(watched := false, memory := RejectedFor(r.memory, r.current))))
    case Leave =>
      var r := s.live.value;
      s.(live := None, stale := if r.watched then s.stale + [r] else s.stale)
    case StaleObserves(i, l) =>
      var r := s.stale[i];
      var v := VerdictOf(r, l);
      if v.Pending? then s.(stale := s.stale[i := LookAt(r, l)])
      else
        var t := s.(stale := s.stale[..i] + s.stale[i + 1..]);
        (if v.Healthy? then Pass(t, r) else Reject(t, r)).(late := s.late + 1)
  }

  // ---- the invariant ----

  predicate NeverBoth(m: Memory) {
    m.healthy.None? || m.healthy != m.rejected
  }

  predicate Earned(m: Memory, passed: set<Pair>) {
    m.healthy.Some? ==> m.healthy.value in passed
  }

  predicate RunInv(r: Run, passed: set<Pair>) {
    && Earned(r.memory, passed)
    && (OnProbation(r) ==> Unjudged(r.current, r.memory))
    && (r.watched ==> r.choice.probation && r.started)
    && (r.choice.notice.WentBack? ==> r.choice.use in passed && r.choice.use != r.current)
    && (!r.choice.notice.WentBack? ==> r.choice.use == r.current)
  }

  /** Reloads that may still come without a new package: one for the run judging its pair,
      and one for an installed pair that nobody is judging yet and nothing is known of. */
  function Credit(s: State): nat {
    (if s.live.Some? && OnProbation(s.live.value) then 1 else 0)
    + (if Unjudged(s.current, s.memory)
        && !(s.live.Some? && OnProbation(s.live.value) && s.live.value.current == s.current)
       then 1 else 0)
  }

  predicate Inv(s: State) {
    && NeverBoth(s.memory) && Earned(s.memory, s.passed)
    && (s.live.Some? ==> RunInv(s.live.value, s.passed))
    && (forall r <- s.stale :: RunInv(r, s.passed) && r.watched)
    && s.reloads + Credit(s) <= s.installs + s.late
  }

  lemma PassKeepsInv(s: State, r: Run)
    requires Inv(s) && RunInv(r, s.passed) && OnProbation(r)
    ensures NeverBoth(Passed(r.memory, r.current)) && Earned(Passed(r.memory, r.current), s.passed + {r.current})
    ensures NeverBoth(RejectedFor(r.memory, r.current)) && Earned(RejectedFor(r.memory, r.current), s.passed)
    ensures !Unjudged(r.current, Passed(r.memory, r.current)) && !Unjudged(r.current, RejectedFor(r.memory, r.current))
  {
  }

  lemma MorePassed(r: Run, passed: set<Pair>, more: set<Pair>)
    requires RunInv(r, passed) && passed <= more
    ensures RunInv(r, more)
  {
  }

  lemma BeginKeepsInv(s: State)
    requires Inv(s) && s.live.None?
    ensures Inv(Next(s, Begin))
  {
    ChoiceIs(s.current, s.previous, s.memory);
    hide Choose;
  }

  lemma StepKeepsInv(s: State, e: Event)
    requires Inv(s) && Enabled(s, e)
    ensures Inv(Next(s, e))
  {
    hide VerdictOf, Choose;
    match e
    case Begin => BeginKeepsInv(s);
    case Observes(l) => ObservesKeepsInv(s, l);
    case StaleObserves(i, l) => StaleKeepsInv(s, i, l);
    case StartFails =>
      if s.live.value.choice.probation {
        PassKeepsInv(s, s.live.value);
      }
    case _ =>
  }

  lemma ObservesKeepsInv(s: State, l: Look)
    requires Inv(s) && Enabled(s, Observes(l))
    ensures Inv(Next(s, Observes(l)))
  {
    hide VerdictOf, Choose, NeverBoth;
    var r := s.live.value;
    PassKeepsInv(s, r);
    forall q | q in s.stale ensures RunInv(q, s.passed + {r.current}) {
      MorePassed(q, s.passed, s.passed + {r.current});
    }
  }

  lemma StaleKeepsInv(s: State, i: nat, l: Look)
    requires Inv(s) && Enabled(s, StaleObserves(i, l))
    ensures Inv(Next(s, StaleObserves(i, l)))
  {
    hide VerdictOf, Choose, NeverBoth;
    var r := s.stale[i];
    assert r in s.stale;
    PassKeepsInv(s, r);
    forall q | q in s.stale ensures RunInv(q, s.passed + {r.current}) {
      MorePassed(q, s.passed, s.passed + {r.current});
    }
    if s.live.Some? {
      MorePassed(s.live.value, s.passed, s.passed + {r.current});
    }
  }

  predicate StepsTo(s: State, e: Event, t: State) {
    Enabled(s, e) && t == Next(s, e)
  }

  lemma {:induction false} RunsKeepInv(p: Pair, es: seq<Event>, s: State)
    requires IsRun(StepsTo, Init(p), es, s)
    ensures Inv(s)
    decreases |es|
  {
    hide StepsTo, Inv;
    if |es| == 0 {
      assert Inv(s) by { InitInv(p); }
    } else {
      var before, e := es[..|es| - 1], es[|es| - 1];
      var u :| IsRun(StepsTo, Init(p), before, u) && StepsTo(u, e, s);
      RunsKeepInv(p, before, u);
      assert Enabled(u, e) && s == Next(u, e) by { StepMeans(u, e, s); }
      StepKeepsInv(u, e);
    }
  }

  lemma InitInv(p: Pair)
    ensures Inv(Init(p))
  {
  }

  lemma StepMeans(s: State, e: Event, t: State)
    requires StepsTo(s, e, t)
    ensures Enabled(s, e) && t == Next(s, e)
  {
  }

  // ---- what it gives ----

  /** The memory never calls one pair both healthy and rejected, and a run that went back
      runs a pair that passed here: stale watchers and all. */
  lemma RollbackIsSafe(p: Pair, es: seq<Event>, s: State)
    requires IsRun(StepsTo, Init(p), es, s)
    ensures s.memory.healthy.Some? ==> s.memory.healthy != s.memory.rejected && s.memory.healthy.value in s.passed
    ensures s.live.Some? && s.live.value.choice.notice.WentBack? ==>
              s.live.value.choice.use in s.passed && s.live.value.choice.use != s.live.value.current
  {
    RunsKeepInv(p, es, s);
    hide Credit;
  }

  // ---- when a verdict comes ----

  /** The run that looks, or that fails to start. */
  function Actor(s: State, e: Event): Option<Run> {
    match e
    case StartFails => s.live
    case Observes(l) => s.live
    case StaleObserves(i, l) => if i < |s.stale| then Some(s.stale[i]) else None
    case _ => None
  }

  /** The step writes a verdict to the memory on disk. */
  predicate WritesVerdict(s: State, e: Event) {
    Enabled(s, e) &&
    match e
    case StartFails => s.live.value.choice.probation
    case Observes(l) => !VerdictOf(s.live.value, l).Pending?
    case StaleObserves(i, l) => !VerdictOf(s.stale[i], l).Pending?
    case _ => false
  }

  /** How long its pair has been watched by then: a run that has not started, not at all. */
  function WatchedFor(s: State, e: Event): int
    requires Enabled(s, e)
  {
    match e
    case Observes(l) => l.now - s.live.value.since
    case StaleObserves(i, l) => l.now - s.stale[i].since
    case _ => 0
  }

  /** A look is the last of its run's; a pair that passes is the healthy one from then on,
      and no longer the rejected one, a pair that fails is the rejected one, and so is one
      that on probation does not start. All else of that run's copy of the memory is kept,
      and nothing else changes the memory, or what has passed. */
  lemma OnlyVerdictsWrite(s: State, e: Event)
    requires Enabled(s, e)
    ensures var t, r := Next(s, e), Actor(s, e);
            if e.Observes? || e.StaleObserves? then
              && r.Some?
              && (var q, ls := r.value, r.value.looks + [e.l];
                  if Passes(q.since, ls) then
                    && t.memory == Memory(Some(q.current),
                                          if q.memory.rejected == Some(q.current) then None else q.memory.rejected)
                    && t.passed == s.passed + {q.current}
                  else if TimeIsUp(q.since, e.l) then
                    t.memory == Memory(q.memory.healthy, Some(q.current)) && t.passed == s.passed
                  else t.memory == s.memory && t.passed == s.passed)
            else if e.StartFails? && s.live.value.choice.probation then
              t.memory == Memory(s.live.value.memory.healthy, Some(s.live.value.current)) && t.passed == s.passed
            else t.memory == s.memory && t.passed == s.passed
  {
    hide Choose, VerdictOf, Passes, TimeIsUp;
    if e.Observes? || e.StaleObserves? {
      LookedAt(if e.Observes? then s.live.value else s.stale[e.i], e.l);
    }
  }

  lemma LookedAt(r: Run, l: Look)
    ensures VerdictOf(r, l).Healthy? <==> Passes(r.since, r.looks + [l])
    ensures VerdictOf(r, l).Pending? <==> !TimeIsUp(r.since, l)
  {
    PassesIff(r.since, r.looks + [l]);
    hide Judge, Seen, Passes;
  }

  lemma VerdictIsOne(s: State, e: Event)
    requires Enabled(s, e)
    ensures !WritesVerdict(s, e) ==> Next(s, e).memory == s.memory && Next(s, e).passed == s.passed
    ensures WritesVerdict(s, e) ==>
              var r := Actor(s, e);
              && r.Some?
              && (|| Next(s, e).memory == RejectedFor(r.value.memory, r.value.current)
                  || Next(s, e).memory == Passed(r.value.memory, r.value.current))
              && (Next(s, e).passed == s.passed || Next(s, e).passed == s.passed + {r.value.current})
  {
    hide Choose, VerdictOf;
  }

  /** When the installed pair fails, a run that could go back ends, and the next one runs the
      pair before it; one that could not goes on, unwatched. */
  lemma FailedPairIsReplaced(s: State, l: Look)
    requires Enabled(s, Observes(l)) && s.live.value.current == s.current
    requires !Passes(s.live.value.since, s.live.value.looks + [l]) && TimeIsUp(s.live.value.since, l)
    ensures var r, t := s.live.value, Next(s, Observes(l));
            if r.canRollBack then
              && t.live.None? && t.reloads == s.reloads + 1
              && (s.previous.Some? && s.previous.value != s.current && r.memory.healthy == s.previous ==>
                    Next(t, Begin).live.value.choice == Choice(s.previous.value, false, WentBack))
            else t.live.Some? && t.live.value.choice == r.choice && !t.live.value.watched && t.reloads == s.reloads
  {
    LookedAt(s.live.value, l);
    hide VerdictOf, Passes;
  }

  /** A run finds out when it begins whether it could go back. */
  lemma BeginFindsOut(s: State)
    requires Enabled(s, Begin)
    ensures var r := Next(s, Begin).live.value;
            && r.current == s.current && r.memory == s.memory && !r.started && !r.watched
            && r.choice == Choose(s.current, s.previous, s.memory)
            && (r.canRollBack <==> s.previous.Some? && s.previous.value != s.current && s.memory.healthy == s.previous)
  {
    hide Choose;
  }

  /** A verdict is written on less than fifteen minutes of watching exactly when a run on
      probation fails to start, and it is then a rejection. */
  lemma EarlyVerdictIff(s: State, e: Event)
    requires Enabled(s, e)
    ensures WritesVerdict(s, e) && WatchedFor(s, e) < 900_000_000_000 <==>
              e.StartFails? && s.live.Some? && OnProbation(s.live.value)
    ensures WritesVerdict(s, e) && WatchedFor(s, e) < 900_000_000_000 ==>
              Next(s, e).memory.rejected == Some(s.live.value.current) && Next(s, e).passed == s.passed
  {
    hide Choose, Seen;
  }

  /** Step k of the run wrote a verdict on pair p: after fifteen minutes, or because a run
      of it on probation could not start. */
  ghost predicate JudgedAt(q: Pair, es: seq<Event>, p: Pair, k: nat, u: State, early: bool) {
    && k < |es| && IsRun(StepsTo, Init(q), es[..k], u) && WritesVerdict(u, es[k])
    && Actor(u, es[k]).Some? && Actor(u, es[k]).value.current == p
    && if early then es[k].StartFails? && OnProbation(u.live.value) else WatchedFor(u, es[k]) >= 900_000_000_000
  }

  lemma JudgedMore(q: Pair, es: seq<Event>, e: Event, p: Pair, k: nat, u: State, early: bool)
    requires JudgedAt(q, es, p, k, u, early)
    ensures JudgedAt(q, es + [e], p, k, u, early)
  {
    hide IsRun, WritesVerdict, Actor, OnProbation;
    var longer := es + [e];
    assert longer[..k] == es[..k] && longer[k] == es[k];
  }

  lemma JudgedNow(q: Pair, es: seq<Event>, u: State, e: Event, p: Pair) returns (early: bool)
    requires IsRun(StepsTo, Init(q), es, u) && WritesVerdict(u, e)
    requires Actor(u, e).Some? && Actor(u, e).value.current == p
    ensures JudgedAt(q, es + [e], p, |es|, u, early)
    ensures Next(u, e).passed != u.passed ==> !early
  {
    EarlyVerdictIff(u, e);
    assert Enabled(u, e);
    hide IsRun, WritesVerdict, Actor, OnProbation, Next, Enabled;
    early := WatchedFor(u, e) < PROBATION;
    var longer := es + [e];
    assert longer[..|es|] == es && longer[|es|] == e;
  }

  /** Over every run: whatever passed here was watched for fifteen minutes. */
  lemma {:induction false} PassedWasWatched(q: Pair, es: seq<Event>, s: State, p: Pair) returns (k: nat, u: State)
    requires IsRun(StepsTo, Init(q), es, s) && p in s.passed
    ensures JudgedAt(q, es, p, k, u, false)
    decreases |es|
  {
    if |es| == 0 {
      assert false;
    } else {
      hide StepsTo, JudgedAt, Next, WritesVerdict, Actor, Enabled;
      var before, e := es[..|es| - 1], es[|es| - 1];
      assert es == before + [e];
      var r :| IsRun(StepsTo, Init(q), before, r) && StepsTo(r, e, s);
      hide IsRun;
      StepMeans(r, e, s);
      VerdictIsOne(r, e);
      if p in r.passed {
        k, u := PassedWasWatched(q, before, r, p);
        JudgedMore(q, before, e, p, k, u, false);
      } else {
        k, u := |before|, r;
        var early := JudgedNow(q, before, r, e, p);
      }
    }
  }

  // ---- what a run remembers ----

  /** r has started and is being watched, now or by a watcher that is still out. */
  predicate IsWatched(s: State, r: Run) {
    (s.live == Some(r) && r.started) || r in s.stale
  }

  /** Step j of the run started the watched pair, and its time is the one that is kept. */
  ghost predicate StartedAt(q: Pair, es: seq<Event>, r: Run, j: nat, v: State) {
    && j < |es| && IsRun(StepsTo, Init(q), es[..j], v) && es[j] == Started(r.since)
    && v.live.Some? && !v.live.value.started && v.live.value.current == r.current
  }

  lemma StartedEarlier(q: Pair, es: seq<Event>, e: Event, r: Run, x: Run, j: nat, v: State)
    requires StartedAt(q, es, x, j, v) && r.since == x.since && r.current == x.current
    ensures StartedAt(q, es + [e], r, j, v)
  {
    hide IsRun;
    assert (es + [e])[..j] == es[..j] && (es + [e])[j] == es[j];
  }

  predicate StartsNow(s: State, e: Event, r: Run) {
    e == Started(r.since) && s.live.Some? && !s.live.value.started && s.live.value.current == r.current
  }

  /** A watched run has just started, or was watched before, with a look less or the same. */
  lemma WatchedBefore(s: State, e: Event, t: State, r: Run) returns (x: Run)
    requires StepsTo(s, e, t) && IsWatched(t, r)
    ensures StartsNow(s, e, r) || (IsWatched(s, x) && x.since == r.since && x.current == r.current)
  {
    x := r;
    hide VerdictOf, Choose;
    if e.Observes? && t.live == Some(r) && r !in s.stale {
      x := s.live.value;
    } else if e.StaleObserves? && r !in s.stale && !(s.live == Some(r) && r.started) {
      x := s.stale[e.i];
    }
  }

  /** Over every run, the time from which a pair is watched is the time it started at. */
  lemma {:induction false} WatchBeganWithStart(q: Pair, es: seq<Event>, s: State, r: Run) returns (j: nat, v: State)
    requires IsRun(StepsTo, Init(q), es, s) && IsWatched(s, r)
    ensures StartedAt(q, es, r, j, v)
    decreases |es|
  {
    if |es| == 0 {
      assert false;
    } else {
      hide StepsTo, StartedAt, IsWatched;
      var before, e := es[..|es| - 1], es[|es| - 1];
      assert es == before + [e];
      var u :| IsRun(StepsTo, Init(q), before, u) && StepsTo(u, e, s);
      var x := WatchedBefore(u, e, s, r);
      if StartsNow(u, e, r) {
        j, v := |before|, u;
        StartedHere(q, before, u, e, r);
      } else {
        hide IsRun;
        j, v := WatchBeganWithStart(q, before, u, x);
        StartedEarlier(q, before, e, r, x, j, v);
      }
    }
  }

  lemma StartedHere(q: Pair, es: seq<Event>, u: State, e: Event, r: Run)
    requires IsRun(StepsTo, Init(q), es, u) && StartsNow(u, e, r)
    ensures StartedAt(q, es + [e], r, |es|, u)
  {
    hide IsRun;
    assert (es + [e])[..|es|] == es && (es + [e])[|es|] == e;
  }

  /** A look that settles nothing is kept, in the run that took it alone. */
  lemma LooksAreKept(s: State, e: Event)
    requires Enabled(s, e) && (e.Observes? || e.StaleObserves?)
    requires !TimeIsUp(Actor(s, e).value.since, e.l)
    ensures var t, r := Next(s, e), Actor(s, e).value;
            if e.Observes? then t == s.(live := Some(r.(looks := r.looks + [e.l])))
            else t == s.(stale := s.stale[e.i := r.(looks := r.looks + [e.l])])
  {
    LookedAt(Actor(s, e).value, e.l);
    hide VerdictOf;
  }

  /** No watcher outlives the process: after a restart, and until a run is left, none is out. */
  lemma {:induction false} RestartEndsTheWatchers(s: State, es: seq<Event>, t: State)
    requires IsRun(StepsTo, Next(s, Restart), es, t) && forall e <- es :: !e.Leave?
    ensures t.stale == []
    decreases |es|
  {
    if |es| > 0 {
      hide StepsTo;
      var before, e := es[..|es| - 1], es[|es| - 1];
      var u :| IsRun(StepsTo, Next(s, Restart), before, u) && StepsTo(u, e, t);
      assert e in es;
      RestartEndsTheWatchers(s, before, u);
      NoWatcherComes(u, e, t);
    }
  }

  lemma NoWatcherComes(s: State, e: Event, t: State)
    requires StepsTo(s, e, t) && s.stale == [] && !e.Leave?
    ensures t.stale == []
  {
    hide VerdictOf, Choose;
  }

  /** A memory on disk, or a copy a run works on. */
  predicate Holds(s: State, m: Memory) {
    || s.memory == m
    || (s.live.Some? && s.live.value.memory == m)
    || exists i :: 0 <= i < |s.stale| && s.stale[i].memory == m
  }

  lemma NewMemory(s: State, e: Event, t: State, m: Memory)
    requires StepsTo(s, e, t) && Holds(t, m)
    ensures var r := Actor(s, e);
            || Holds(s, m)
            || (&& WritesVerdict(s, e) && r.Some?
                && (m == RejectedFor(r.value.memory, r.value.current) || m == Passed(r.value.memory, r.value.current)))
    ensures Actor(s, e).Some? && WritesVerdict(s, e) ==> Holds(s, Actor(s, e).value.memory)
  {
    hide VerdictOf, Choose, RejectedFor, Passed;
  }

  /** And whatever stands rejected, on disk or in any copy, was watched for as long, or a
      run of it could not start. */
  lemma {:induction false} RejectedWasJudged(q: Pair, es: seq<Event>, s: State, m: Memory, p: Pair)
    returns (k: nat, u: State, early: bool)
    requires IsRun(StepsTo, Init(q), es, s) && Holds(s, m) && m.rejected == Some(p)
    ensures JudgedAt(q, es, p, k, u, early)
    decreases |es|
  {
    if |es| == 0 {
      assert false;
    } else {
      hide StepsTo, JudgedAt, Next, WritesVerdict, Actor, Enabled, Holds;
      var before, e := es[..|es| - 1], es[|es| - 1];
      assert es == before + [e];
      var r :| IsRun(StepsTo, Init(q), before, r) && StepsTo(r, e, s);
      hide IsRun;
      NewMemory(r, e, s, m);
      if Holds(r, m) {
        k, u, early := RejectedWasJudged(q, before, r, m, p);
        JudgedMore(q, before, e, p, k, u, early);
      } else if Actor(r, e).value.current == p {
        k, u := |before|, r;
        early := JudgedNow(q, before, r, e, p);
      } else {
        k, u, early := RejectedWasJudged(q, before, r, Actor(r, e).value.memory, p);
        JudgedMore(q, before, e, p, k, u, early);
      }
    }
  }

  // ---- that the reload loop ends ----

  /** As long as no verdict comes late, at most one reload for a failed pair for every
      package installed; a late verdict may cost one more. */
  lemma ReloadsAreBounded(p: Pair, es: seq<Event>, s: State)
    requires IsRun(StepsTo, Init(p), es, s)
    ensures s.reloads <= s.installs + s.late
    ensures s.late == 0 ==> s.reloads <= s.installs
  {
    RunsKeepInv(p, es, s);
  }

  /** The step writes a verdict that leaves nothing known of the installed pair, which was
      judged, and that costs a reload: the step is one itself, or, for a verdict that came
      late, no run under way is judging that pair already. */
  predicate Unjudges(s: State, e: Event) {
    && WritesVerdict(s, e)
    && !Unjudged(s.current, s.memory) && Unjudged(s.current, Next(s, e).memory)
    && if e.StaleObserves?
       then !(s.live.Some? && OnProbation(s.live.value) && s.live.value.current == s.current)
       else Next(s, e).reloads > s.reloads
  }

  lemma UnjudgesObserves(s: State, l: Look)
    requires Inv(s) && Enabled(s, Observes(l))
    ensures var e := Observes(l);
            var t := Next(s, e);
            t.reloads + Credit(t) <= s.reloads + Credit(s) + (if Unjudges(s, e) then 1 else 0)
            && (Unjudges(s, e) ==> t.reloads + Credit(t) == s.reloads + Credit(s) + 1)
  {
    hide VerdictOf, NeverBoth, Earned, Choose;
  }

  lemma UnjudgesStale(s: State, i: nat, l: Look)
    requires Inv(s) && Enabled(s, StaleObserves(i, l))
    ensures var e := StaleObserves(i, l);
            var t := Next(s, e);
            t.reloads + Credit(t) <= s.reloads + Credit(s) + (if Unjudges(s, e) then 1 else 0)
            && (Unjudges(s, e) ==> t.reloads + Credit(t) == s.reloads + Credit(s) + 1)
  {
    hide VerdictOf, NeverBoth, Earned, RunInv, Choose;
  }

  /** A step that installs nothing raises the reloads made and to come exactly when it
      unjudges the installed pair, and then by one. */
  lemma UnjudgesIff(s: State, e: Event)
    requires Inv(s) && Enabled(s, e) && !e.Install?
    ensures var t := Next(s, e);
            && (t.reloads + Credit(t) > s.reloads + Credit(s) <==> Unjudges(s, e))
            && t.reloads + Credit(t) <= s.reloads + Credit(s) + 1
  {
    match e
    case Observes(l) =>
      UnjudgesObserves(s, l);
      hide Unjudges, Credit, Next;
    case StaleObserves(i, l) =>
      UnjudgesStale(s, i, l);
      hide Unjudges, Credit, Next;
    case Begin =>
      ChoiceIs(s.current, s.previous, s.memory);
      hide Choose;
    case _ => hide VerdictOf, NeverBoth, Earned, Choose;
  }

  lemma InstallCosts(s: State, p: Pair)
    requires Inv(s)
    ensures var t := Next(s, Install(p));
            t.reloads + Credit(t) <= s.reloads + Credit(s) + 1 && t.installs == s.installs + 1
  {
    hide RunInv, NeverBoth, Earned;
  }

  /** A run with n steps that unjudge the installed pair. */
  ghost predicate UnjudgingRun(s: State, es: seq<Event>, t: State, n: nat)
    decreases |es|
  {
    if |es| == 0 then s == t && n == 0
    else
      var before, e := es[..|es| - 1], es[|es| - 1];
      exists u, m: nat ::
        UnjudgingRun(s, before, u, m) && StepsTo(u, e, t) && n == m + (if Unjudges(u, e) then 1 else 0)
  }

  /** Every run is one for some n. */
  lemma {:induction false} UnjudgingsOf(s: State, es: seq<Event>, t: State) returns (n: nat)
    requires IsRun(StepsTo, s, es, t)
    ensures UnjudgingRun(s, es, t, n)
    decreases |es|
  {
    hide StepsTo, Unjudges;
    if |es| == 0 {
      n := 0;
    } else {
      var before, e := es[..|es| - 1], es[|es| - 1];
      var u :| IsRun(StepsTo, s, before, u) && StepsTo(u, e, t);
      var m := UnjudgingsOf(s, before, u);
      n := m + (if Unjudges(u, e) then 1 else 0);
    }
  }

  lemma InstallsStay(s: State, e: Event, t: State)
    requires StepsTo(s, e, t) && !e.Install?
    ensures t.installs == s.installs
  {
    hide VerdictOf, Choose;
  }

  lemma {:induction false} UnjudgingBound(p: Pair, es: seq<Event>, s: State, n: nat)
    requires UnjudgingRun(Init(p), es, s, n)
    ensures Inv(s) && s.reloads + Credit(s) <= s.installs + n
    decreases |es|
  {
    hide StepsTo, Inv, Unjudges, Credit;
    if |es| == 0 {
      InitInv(p);
      InitCredit(p);
    } else {
      var before, e := es[..|es| - 1], es[|es| - 1];
      var u, m: nat :|
        UnjudgingRun(Init(p), before, u, m) && StepsTo(u, e, s) && n == m + (if Unjudges(u, e) then 1 else 0);
      UnjudgingBound(p, before, u, m);
      StepMeans(u, e, s);
      StepKeepsInv(u, e);
      hide UnjudgingRun, Next, Enabled;
      if e.Install? {
        InstallCosts(u, e.p);
      } else {
        InstallsStay(u, e, s);
        UnjudgesIff(u, e);
      }
    }
  }

  lemma InitCredit(p: Pair)
    ensures Init(p).reloads + Credit(Init(p)) == Init(p).installs
  {
  }

  /** Over every run, reloads for failed pairs are at most the packages installed and the
      steps that unjudged the installed pair: one for each package, but for those. */
  lemma ReloadsFollowUnjudgings(p: Pair, es: seq<Event>, s: State, n: nat)
    requires UnjudgingRun(Init(p), es, s, n)
    ensures s.reloads <= s.installs + n
  {
    UnjudgingBound(p, es, s, n);
    hide UnjudgingRun;
  }

  /** The run under way judges a pair that another package has replaced. */
  function Underneath(s: State): nat {
    if s.live.Some? && OnProbation(s.live.value) && s.live.value.current != s.current then 1 else 0
  }

  /** Reloads that may still come, late verdicts included, before something is installed
      or a run under way is left. */
  function Potential(s: State): nat {
    Credit(s) + |s.stale| + Underneath(s)
  }

  /** What a step may add to it. */
  function Allows(e: Event): nat {
    match e
    case Install(_) => 2
    case Leave => 1
    case _ => 0
  }

  lemma StaleStep(s: State, i: nat, l: Look)
    requires Inv(s) && Enabled(s, StaleObserves(i, l))
    ensures var t := Next(s, StaleObserves(i, l)); t.reloads + Potential(t) <= s.reloads + Potential(s)
  {
    hide VerdictOf, NeverBoth, Earned, RunInv, Choose;
  }

  lemma PotentialStep(s: State, e: Event)
    requires Inv(s) && Enabled(s, e)
    ensures var t := Next(s, e); t.reloads + Potential(t) <= s.reloads + Potential(s) + Allows(e)
  {
    match e
    case StaleObserves(i, l) => StaleStep(s, i, l);
    case Begin =>
      ChoiceIs(s.current, s.previous, s.memory);
      hide Choose;
    case _ => hide VerdictOf, NeverBoth, Earned, Choose;
  }

  function AllowedBy(es: seq<Event>): nat {
    if |es| == 0 then 0 else AllowedBy(es[..|es| - 1]) + Allows(es[|es| - 1])
  }

  lemma {:induction false} PotentialBounds(s: State, es: seq<Event>, t: State)
    requires Inv(s) && IsRun(StepsTo, s, es, t)
    ensures t.reloads + Potential(t) <= s.reloads + Potential(s) + AllowedBy(es)
    decreases |es|
  {
    hide StepsTo, Inv, Potential, Allows;
    if |es| > 0 {
      var before, e := es[..|es| - 1], es[|es| - 1];
      var u :| IsRun(StepsTo, s, before, u) && StepsTo(u, e, t);
      PotentialBounds(s, before, u);
      RunsFromInv(s, before, u);
      StepMeans(u, e, t);
      PotentialStep(u, e);
    }
  }

  /** How many packages were installed and how many runs were left, by a signal or for a
      change of wallet. */
  function Installs(es: seq<Event>): nat {
    if |es| == 0 then 0 else Installs(es[..|es| - 1]) + if es[|es| - 1].Install? then 1 else 0
  }

  function Leaves(es: seq<Event>): nat {
    if |es| == 0 then 0 else Leaves(es[..|es| - 1]) + if es[|es| - 1].Leave? then 1 else 0
  }

  lemma {:induction false} AllowedIs(es: seq<Event>)
    ensures AllowedBy(es) == 2 * Installs(es) + Leaves(es)
  {
    if |es| > 0 {
      AllowedIs(es[..|es| - 1]);
    }
  }

  /** Over every history, stale watchers and all: no more reloads for failed pairs than one,
      two for every later package and one for every run that was left. */
  lemma ReloadsAreCounted(p: Pair, es: seq<Event>, s: State)
    requires IsRun(StepsTo, Init(p), es, s)
    ensures s.reloads + Potential(s) <= 1 + 2 * Installs(es) + Leaves(es)
  {
    InitInv(p);
    PotentialBounds(Init(p), es, s);
    AllowedIs(es);
    assert Potential(Init(p)) == 1 && Init(p).reloads == 0;
    hide IsRun;
  }

  /** The loop ends: from any reachable point on, while nothing is installed and no run is
      left, there are at most Potential more such reloads, however late the verdicts of
      earlier watchers come. */
  lemma LoopEnds(p: Pair, es: seq<Event>, s: State, more: seq<Event>, t: State)
    requires IsRun(StepsTo, Init(p), es, s) && IsRun(StepsTo, s, more, t)
    requires Installs(more) == 0 && Leaves(more) == 0
    ensures t.reloads + Potential(t) <= s.reloads + Potential(s)
    ensures Potential(s) <= 3 + |s.stale|
  {
    RunsKeepInv(p, es, s);
    PotentialBounds(s, more, t);
    AllowedIs(more);
    PotentialIsSmall(s);
    hide IsRun, Potential;
  }

  lemma PotentialIsSmall(s: State)
    ensures Potential(s) <= 3 + |s.stale|
  {
  }

  lemma {:induction false} RunsFromInv(s: State, es: seq<Event>, t: State)
    requires Inv(s) && IsRun(StepsTo, s, es, t)
    ensures Inv(t)
    decreases |es|
  {
    hide StepsTo, Inv;
    if |es| > 0 {
      var before, e := es[..|es| - 1], es[|es| - 1];
      var u :| IsRun(StepsTo, s, before, u) && StepsTo(u, e, t);
      RunsFromInv(s, before, u);
      StepMeans(u, e, t);
      StepKeepsInv(u, e);
    }
  }

  // ---- that the late verdicts do count ----

  function Fine(): Look {
    Look(PROBATION, Observation(false, false, false, false, false))
  }

  lemma FineLook()
    ensures Judge(0, Seen([Fine()]), Fine()).Healthy?
  {
    assert [Fine()][..0] == [];
  }

  /** A watcher of pair 0 whose run was left before anything was known of it. */
  function Watcher(): Run {
    Run(0, Memory(None, None), Choice(0, true, Quiet), false, true, true, 0, [])
  }

  function Watchers(n: nat): seq<Run> {
    seq(n, _ => Watcher())
  }

  function Waiting(n: nat): State {
    State(0, None, Memory(None, None), None, Watchers(n), {}, 1, 0, 0)
  }

  /** Pair 1 installed over pair 0; what the memory says, and how many reloads it took. */
  function Upgraded(m: Memory, stale: nat, passed: set<Pair>, reloads: nat): State {
    State(1, Some(0), m, None, Watchers(stale), passed, 2, reloads, reloads)
  }

  /** Leaving a watched run of pair 0 leaves one more watcher behind. */
  lemma OneLeft(n: nat)
    ensures var r := Watcher().(started := false, watched := false);
            && StepsTo(Waiting(n), Begin, Waiting(n).(live := Some(r)))
            && StepsTo(Waiting(n).(live := Some(r)), Started(0), Waiting(n).(live := Some(Watcher())))
            && StepsTo(Waiting(n).(live := Some(Watcher())), Leave, Waiting(n + 1))
  {
    assert Watchers(n) + [Watcher()] == Watchers(n + 1);
  }

  lemma {:induction false} AllLeft(n: nat) returns (es: seq<Event>)
    ensures IsRun(StepsTo, Init(0), es, Waiting(n)) && Installs(es) == 0
  {
    if n == 0 {
      es := [];
      assert Waiting(0) == Init(0);
    } else {
      es := AllLeft(n - 1);
      OneLeft(n - 1);
      hide StepsTo, IsRun;
      var r := Watcher().(started := false, watched := false);
      Append(StepsTo, Init(0), es, Waiting(n - 1), Begin, Waiting(n - 1).(live := Some(r)));
      InstallsMore(es, Begin);
      es := es + [Begin];
      Append(StepsTo, Init(0), es, Waiting(n - 1).(live := Some(r)), Started(0),
             Waiting(n - 1).(live := Some(Watcher())));
      InstallsMore(es, Started(0));
      es := es + [Started(0)];
      Append(StepsTo, Init(0), es, Waiting(n - 1).(live := Some(Watcher())), Leave, Waiting(n));
      InstallsMore(es, Leave);
      es := es + [Leave];
    }
  }

  lemma InstallsMore(es: seq<Event>, e: Event)
    ensures Installs(es + [e]) == Installs(es) + if e.Install? then 1 else 0
  {
    assert (es + [e])[..|es|] == es;
  }

  /** A late pass of pair 0 clears what is known of pair 1, which then fails once more. */
  lemma LatePassSteps(m: Memory, n: nat, passed: set<Pair>, k: nat)
    requires n > 0
    ensures var ok := Memory(Some(0), None);
            var r := Run(1, ok, Choice(1, true, Quiet), true, false, false, 0, []);
            var u := Upgraded(ok, n - 1, passed + {0}, k).(late := k + 1);
            && StepsTo(Upgraded(m, n, passed, k), StaleObserves(0, Fine()), u)
            && StepsTo(u, Begin, u.(live := Some(r)))
            && StepsTo(u.(live := Some(r)), StartFails, Upgraded(Memory(Some(0), Some(1)), n - 1, passed + {0}, k + 1))
  {
    FineLook();
    assert [] + [Fine()] == [Fine()];
    hide Judge, Seen;
    assert Watchers(n)[0] == Watcher();
    assert Watchers(n)[..0] + Watchers(n)[1..] == Watchers(n - 1);
  }

  lemma {:induction false} AllFail(es: seq<Event>, m: Memory, n: nat, passed: set<Pair>, k: nat)
    returns (more: seq<Event>, s: State)
    requires IsRun(StepsTo, Init(0), es, Upgraded(m, n, passed, k)) && Installs(es) == 1
    ensures IsRun(StepsTo, Init(0), more, s) && s.reloads == k + n && Installs(more) == 1
    decreases n
  {
    if n == 0 {
      more, s := es, Upgraded(m, n, passed, k);
    } else {
      LatePassSteps(m, n, passed, k);
      hide StepsTo, IsRun;
      var ok := Memory(Some(0), None);
      var r := Run(1, ok, Choice(1, true, Quiet), true, false, false, 0, []);
      var u := Upgraded(ok, n - 1, passed + {0}, k).(late := k + 1);
      Append(StepsTo, Init(0), es, Upgraded(m, n, passed, k), StaleObserves(0, Fine()), u);
      InstallsMore(es, StaleObserves(0, Fine()));
      var a := es + [StaleObserves(0, Fine())];
      Append(StepsTo, Init(0), a, u, Begin, u.(live := Some(r)));
      InstallsMore(a, Begin);
      a := a + [Begin];
      var v := Upgraded(Memory(Some(0), Some(1)), n - 1, passed + {0}, k + 1);
      Append(StepsTo, Init(0), a, u.(live := Some(r)), StartFails, v);
      InstallsMore(a, StartFails);
      a := a + [StartFails];
      more, s := AllFail(a, Memory(Some(0), Some(1)), n - 1, passed + {0}, k + 1);
    }
  }

  /** One for every installed pair is too few when verdicts come late: with a single upgrade,
      any number of reloads, each made possible by a watcher that outlived its run. */
  lemma LateVerdictsReload(n: nat) returns (es: seq<Event>, s: State)
    ensures IsRun(StepsTo, Init(0), es, s) && Installs(es) == 1 && s.reloads == n
  {
    es := AllLeft(n);
    assert StepsTo(Waiting(n), Install(1), Upgraded(Memory(None, None), n, {}, 0));
    hide StepsTo, IsRun;
    Append(StepsTo, Init(0), es, Waiting(n), Install(1), Upgraded(Memory(None, None), n, {}, 0));
    InstallsMore(es, Install(1));
    es, s := AllFail(es + [Install(1)], Memory(None, None), n, {}, 0);
  }

  /** The exception to the fifteen minutes: a pair rejected by its second step. */
  lemma RejectedAtOnce(p: Pair) returns (es: seq<Event>, s: State)
    ensures IsRun(StepsTo, Init(p), es, s) && s.memory.rejected == Some(p)
    ensures exists u :: JudgedAt(p, es, p, 1, u, true)
  {
    var i := Init(p);
    var r := Run(p, Memory(None, None), Choice(p, true, Quiet), false, false, false, 0, []);
    var u := i.(live := Some(r));
    s := i.(memory := Memory(None, Some(p)));
    assert IsRun(StepsTo, i, [], i);
    assert StepsTo(i, Begin, u) && StepsTo(u, StartFails, s);
    assert WritesVerdict(u, StartFails) && Actor(u, StartFails) == Some(r) && OnProbation(r);
    hide StepsTo, IsRun, WritesVerdict, Actor;
    Append(StepsTo, i, [], i, Begin, u);
    Append(StepsTo, i, [] + [Begin], u, StartFails, s);
    es := [] + [Begin] + [StartFails];
    assert es[..1] == [] + [Begin] && es[1] == StartFails;
    assert JudgedAt(p, es, p, 1, u, true);
  }
}
