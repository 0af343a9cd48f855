/** The user's pause against the tick, internal/scheduler/scheduler.go: any number of
    threads in setOverride beside the one that ticks, interleaved wherever the lock is
    released. One step is one locked section, or one call into the engine. */
module Pause {
  import opened Kindness
  import opened Allowance
  import opened Controller
  import opened Runs
  import opened Wrappers

  /** A thread in setOverride: about to store, then, for a pause, in apply. */
  datatype SetterPc = Storing | Applying | Setting | Returned
  datatype Setter = Setter(o: Override, until: Option<int>, pc: SetterPc)

  /** The ticking thread. From Deciding on it works with the override it found. */
  datatype Ticker =
    | Idle
    | Checking
    | Lifting
    | Reading
    | Deciding(o: Override)
    | Applying(allowed: real)
    | Setting(duty: real)

  /** clock is the time the last tick began at. */
  datatype State = State(override: Override, until: Option<int>, allowed: real, duty: real, engine: real,
                         clock: int, ticker: Ticker, setters: seq<Setter>)

  datatype Event =
    | Begin(now: int)
    | Check
    | Lift
    | Read
    | Decides(m: Moment)
    | Apply(full: real)
    | SetEngine
    | Call(o: Override, until: Option<int>)
    | Store(i: nat)
    | SetterApplies(i: nat)
    | SetterSets(i: nat)

  function Init(): State {
    State(NoOverride, None, 0.0, 0.0, 0.0, 0, Idle, [])
  }

  predicate Enabled(s: State, e: Event) {
    match e
    case Begin(now) => s.ticker.Idle? && now >= s.clock
    case Check => s.ticker.Checking?
    case Lift => s.ticker.Lifting?
    case Read => s.ticker.Reading?
    case Decides(m) => s.ticker.Deciding? && m.o == s.ticker.o && Sound(m)
    case Apply(full) => s.ticker.Applying?
    case SetEngine => s.ticker.Setting?
    case Call(o, until) => true
    case Store(i) => i < |s.setters| && s.setters[i].pc.Storing?
    case SetterApplies(i) => i < |s.setters| && s.setters[i].pc.Applying?
    case SetterSets(i) => i < |s.setters| && s.setters[i].pc.Setting?
  }

  function Advance(s: State, i: nat, pc: SetterPc): State
    requires i < |s.setters|
  {
    s.(setters := s.setters[i := s.setters[i].(pc := pc)])
  }

  function Next(s: State, e: Event): State
    requires Enabled(s, e)
  {
    match e
    case Begin(now) => s.(clock := now, ticker := Checking)
    case Check => s.(ticker := if s.override.Pause? && SnoozeOver(s.until, s.clock) then Lifting else Reading)
    case Lift => s.(override := NoOverride, until := None, ticker := Reading)
    case Read => s.(ticker := Deciding(s.override))
    case Decides(m) => var a := Step(s.allowed, m); s.(allowed := a, ticker := Ticker.Applying(a))
    case Apply(full) => var d := DutyFor(s.ticker.allowed, full); s.(duty := d, ticker := Ticker.Setting(d))
    case SetEngine => s.(engine := s.ticker.duty, ticker := Idle)
    case Call(o, until) => s.(setters := s.setters + [Setter(o, if o.Pause? then until else None, Storing)])
    case Store(i) =>
      var c := s.setters[i];
      Advance(s, i, if c.o.Pause? then SetterPc.Applying else Returned).(override := c.o, until := c.until)
    case SetterApplies(i) => Advance(s, i, SetterPc.Setting).(duty := 0.0)
    case SetterSets(i) => Advance(s, i, Returned).(engine := 0.0)
  }

  predicate StepsTo(s: State, e: Event, t: State) {
    Enabled(s, e) && t == Next(s, e)
  }

  /** Nobody's instruction reaches the scheduler during these steps. */
  predicate NoStore(es: seq<Event>) {
    forall e <- es :: !e.Store?
  }

  /** Setters may still store, but only pauses, and no lift goes through. */
  predicate Keeps(s: State, e: Event) {
    Enabled(s, e) && !e.Lift? && (e.Store? ==> s.setters[e.i].o.Pause?)
  }

  /** A run through which the pause stands. */
  ghost predicate PausedRun(s: State, es: seq<Event>, t: State)
    decreases |es|
  {
    if |es| == 0 then s == t && s.override.Pause?
    else
      var before, e := es[..|es| - 1], es[|es| - 1];
      exists u :: PausedRun(s, before, u) && Keeps(u, e) && StepsTo(u, e, t)
  }

  // ---- after a pause ----

  /** The tick under way, if any, found the pause or will find it. */
  predicate Quiet(s: State) {
    && s.override.Pause?
    && (s.ticker.Deciding? ==> s.ticker.o.Pause?)
    && (s.ticker.Applying? ==> s.ticker.allowed == 0.0 == s.allowed)
    && (s.ticker.Setting? ==> s.ticker.duty == 0.0 == s.allowed == s.duty)
  }

  predicate Still(s: State) {
    Quiet(s) && s.allowed == 0.0 && s.duty == 0.0 && s.engine == 0.0
  }

  /** How many ticks have come to their end. */
  function Ended(es: seq<Event>): nat {
    if |es| == 0 then 0 else Ended(es[..|es| - 1]) + if es[|es| - 1].SetEngine? then 1 else 0
  }

  predicate GivesDuty(s: State, e: Event)
    requires Enabled(s, e)
  {
    var t := Next(s, e);
    || (e.Apply? && t.duty != 0.0)
    || (e.SetEngine? && t.engine != 0.0)
    || (e.Decides? && t.allowed != 0.0)
  }

  lemma PausedDecision(a: real, m: Moment)
    requires m.o.Pause?
    ensures Step(a, m) == 0.0
  {
    DecideMeans(m);
    hide Decide;
  }

  lemma QuietStep(s: State, e: Event)
    requires Enabled(s, e) && Quiet(s) && Keeps(s, e)
    ensures Quiet(Next(s, e)) && !GivesDuty(s, e)
    ensures Still(s) ==> Still(Next(s, e))
    ensures e.SetEngine? ==> Still(Next(s, e))
  {
    if e.Decides? {
      PausedDecision(s.allowed, e.m);
    }
    hide Step;
  }

  /** The tick that found no pause runs to its end and no further. */
  lemma LateStep(s: State, e: Event)
    requires Enabled(s, e) && s.override.Pause? && Keeps(s, e)
    ensures Next(s, e).override.Pause?
    ensures e.SetEngine? || e.Begin? ==> Quiet(Next(s, e))
    ensures GivesDuty(s, e) ==> !Quiet(s)
  {
    if Quiet(s) {
      QuietStep(s, e);
    }
    hide Step;
  }

  /** While the pause stands, only the tick that was past its reading of the override can
      give the miner any duty. Once one tick has ended, no step does; once two have, the
      allowance, the duty and the engine are at zero and stay there. */
  lemma {:induction false} PauseHolds(s: State, es: seq<Event>, t: State)
    requires PausedRun(s, es, t)
    ensures t.override.Pause?
    ensures Quiet(s) || Ended(es) >= 1 ==> Quiet(t)
    ensures (Quiet(s) && Ended(es) >= 1) || Ended(es) >= 2 ==> Still(t)
    decreases |es|
  {
    hide Quiet, Still, Enabled, Next;
    if |es| > 0 {
      var before, e := es[..|es| - 1], es[|es| - 1];
      var u :| PausedRun(s, before, u) && Keeps(u, e) && StepsTo(u, e, t);
      PauseHolds(s, before, u);
      LateStep(u, e);
      if Quiet(u) {
        QuietStep(u, e);
      }
    }
  }

  /** And no step taken from there gives any duty. */
  lemma NothingAfterwards(s: State, es: seq<Event>, t: State, e: Event)
    requires PausedRun(s, es, t) && (Quiet(s) || Ended(es) >= 1)
    requires Enabled(t, e) && Keeps(t, e)
    ensures !GivesDuty(t, e)
  {
    PauseHolds(s, es, t);
    QuietStep(t, e);
  }

  lemma AtOnceStep(s: State, e: Event)
    requires Enabled(s, e) && Quiet(s) && Keeps(s, e)
    ensures s.duty == 0.0 || e.SetterApplies? ==> Next(s, e).duty == 0.0
    ensures s.engine == 0.0 || e.SetterSets? ==> Next(s, e).engine == 0.0
  {
    if e.Apply? {
      DutyStays(s.ticker.allowed, e.full);
    }
    hide Step, DutyFor;
  }

  /** A pause does not wait for the tick: once its own thread has applied it the duty is at
      zero, and once that thread has told the engine the engine is, and both stay there. */
  lemma {:induction false} PauseStopsAtOnce(s: State, es: seq<Event>, t: State)
    requires Quiet(s) && PausedRun(s, es, t)
    ensures (exists e :: e in es && e.SetterApplies?) ==> t.duty == 0.0
    ensures (exists e :: e in es && e.SetterSets?) ==> t.engine == 0.0
    decreases |es|
  {
    hide Quiet, Enabled, Next, Keeps;
    if |es| > 0 {
      var before, e := es[..|es| - 1], es[|es| - 1];
      var u :| PausedRun(s, before, u) && Keeps(u, e) && StepsTo(u, e, t);
      assert es == before + [e];
      PauseStopsAtOnce(s, before, u);
      PauseHolds(s, before, u);
      AtOnceStep(u, e);
    }
  }

  // ---- which pauses are followed by duty ----

  /** What every run keeps of the ticking thread's own copies. */
  predicate TickerInv(s: State) {
    && s.allowed >= 0.0
    && (s.ticker.Applying? ==> s.ticker.allowed == s.allowed)
    && (s.ticker.Setting? ==> s.ticker.duty >= 0.0)
  }

  lemma TickerStep(s: State, e: Event, t: State)
    requires TickerInv(s) && StepsTo(s, e, t)
    ensures TickerInv(t)
  {
    if e.Decides? {
      AllowanceStays(s.allowed, e.m);
    } else if e.Apply? {
      DutyStays(s.ticker.allowed, e.full);
    }
    hide Step, DutyFor, SnoozeOver;
  }

  lemma AllowanceStays(a: real, m: Moment)
    requires a >= 0.0 && Sound(m)
    ensures Step(a, m) >= 0.0
  {
    DecideMeans(m);
    ApproachGap(a, Decide(m.p, m.c, m.o).target, m.p.preset);
    hide Decide, Approach;
  }

  lemma DutyStays(a: real, full: real)
    ensures DutyFor(a, full) >= 0.0
    ensures a <= 0.0 ==> DutyFor(a, full) == 0.0
  {
    if a > 0.0 && full > 0.0 {
      Divides(a, full);
    }
  }

  lemma {:induction false} RunsKeepTicker(es: seq<Event>, s: State)
    requires IsRun(StepsTo, Init(), es, s)
    ensures TickerInv(s)
    decreases |es|
  {
    hide StepsTo;
    if |es| > 0 {
      hide TickerInv;
      var before, e := es[..|es| - 1], es[|es| - 1];
      var u :| IsRun(StepsTo, Init(), before, u) && StepsTo(u, e, s);
      RunsKeepTicker(before, u);
      TickerStep(u, e, s);
    }
  }

  /** The tick under way is past its reading of the override, found no pause, and has
      nothing decided that keeps it at zero. */
  predicate Past(s: State) {
    || (s.ticker.Deciding? && !s.ticker.o.Pause?)
    || (s.ticker.Applying? && s.ticker.allowed > 0.0)
    || (s.ticker.Setting? && s.ticker.duty > 0.0)
  }

  lemma NotPastStep(s: State, e: Event, t: State)
    requires TickerInv(s) && s.override.Pause? && !Past(s) && StepsTo(s, e, t) && Keeps(s, e)
    ensures !Past(t) && !(e.SetEngine? && t.engine > 0.0)
  {
    if e.Decides? {
      PausedDecision(s.allowed, e.m);
    } else if e.Apply? {
      DutyStays(s.ticker.allowed, e.full);
    }
    hide Step, DutyFor, SnoozeOver;
  }

  lemma {:induction false} NotPastStays(s: State, es: seq<Event>, t: State)
    requires TickerInv(s) && !Past(s) && PausedRun(s, es, t)
    ensures TickerInv(t) && !Past(t) && t.override.Pause?
    decreases |es|
  {
    hide StepsTo, Keeps, Past, TickerInv;
    if |es| > 0 {
      var before, e := es[..|es| - 1], es[|es| - 1];
      var u :| PausedRun(s, before, u) && Keeps(u, e) && StepsTo(u, e, t);
      NotPastStays(s, before, u);
      TickerStep(u, e, t);
      NotPastStep(u, e, t);
      PauseGoesOn(u, e, t);
    }
  }

  lemma PauseGoesOn(s: State, e: Event, t: State)
    requires s.override.Pause? && StepsTo(s, e, t) && Keeps(s, e)
    ensures t.override.Pause?
  {
    hide Step, DutyFor, SnoozeOver;
  }

  /** While the pause stands the engine is given a duty, at the end of these steps. */
  ghost predicate Feeds(s: State, es: seq<Event>, t: State) {
    PausedRun(s, es, t) && t.ticker.Setting? && t.ticker.duty > 0.0 && Next(t, SetEngine).engine > 0.0
  }

  lemma PausedMore(s: State, es: seq<Event>, u: State, e: Event, t: State)
    requires PausedRun(s, es, u) && Keeps(u, e) && StepsTo(u, e, t)
    ensures PausedRun(s, es + [e], t)
  {
    hide StepsTo, Keeps;
    var longer := es + [e];
    assert longer[..|longer| - 1] == es && longer[|longer| - 1] == e;
  }

  function Plain(): Moment {
    Moment(Policy(false, Table(Level.Full), false, false, 0.0, false),
           Conditions(0.0, false, 0.0, false, false, false, false, false, false), NoOverride)
  }

  /** A moment in which nothing is said against mining but the override. */
  function PlainFor(o: Override): Moment {
    Plain().(o := o)
  }

  lemma PlainGives(a: real, o: Override)
    requires a >= 0.0 && !o.Pause?
    ensures Sound(PlainFor(o)) && Step(a, PlainFor(o)) > 0.0
  {
    var m := PlainFor(o);
    assert Decide(m.p, m.c, m.o) == Decision(1.0, Reason.Nothing, false);
    hide Approach, Power, Decide;
    ApproachGap(a, 1.0, m.p.preset);
  }

  lemma FeedsFromApplying(s: State, es: seq<Event>, u: State)
    requires PausedRun(s, es, u) && u.ticker.Applying? && u.ticker.allowed > 0.0
    ensures exists more, t :: Feeds(s, more, t)
  {
    hide PausedRun;
    var d := DutyFor(u.ticker.allowed, 1.0);
    assert d > 0.0;
    hide DutyFor;
    var t := u.(duty := d, ticker := Ticker.Setting(d));
    assert StepsTo(u, Apply(1.0), t) && Keeps(u, Apply(1.0));
    PausedMore(s, es, u, Apply(1.0), t);
    assert Feeds(s, es + [Apply(1.0)], t);
  }

  lemma FeedsFromDeciding(s: State)
    requires s.override.Pause? && s.ticker.Deciding? && !s.ticker.o.Pause? && s.allowed >= 0.0
    ensures exists more, t :: Feeds(s, more, t)
  {
    var m := PlainFor(s.ticker.o);
    PlainGives(s.allowed, s.ticker.o);
    assert PausedRun(s, [], s);
    assert m.o == s.ticker.o;
    hide PausedRun, PlainFor, Step, Sound;
    var a := Step(s.allowed, m);
    var u := s.(allowed := a, ticker := Ticker.Applying(a));
    assert StepsTo(s, Decides(m), u) && Keeps(s, Decides(m));
    PausedMore(s, [], s, Decides(m), u);
    FeedsFromApplying(s, [] + [Decides(m)], u);
  }

  /** In every state that a run reaches, a pause can still be followed by a tick that gives
      the engine a duty, with nobody resuming and nothing lifted, exactly when the tick
      under way is past its reading and has not decided on nothing. */
  lemma DutyAfterPauseIff(before: seq<Event>, s: State)
    requires IsRun(StepsTo, Init(), before, s) && s.override.Pause?
    ensures (exists es, t :: Feeds(s, es, t)) <==> Past(s)
  {
    RunsKeepTicker(before, s);
    hide IsRun;
    forall es, t | Feeds(s, es, t) ensures Past(s) {
      if !Past(s) {
        NotPastStays(s, es, t);
      }
    }
    if Past(s) {
      assert PausedRun(s, [], s);
      hide PausedRun;
      if s.ticker.Deciding? {
        FeedsFromDeciding(s);
      } else if s.ticker.Applying? {
        FeedsFromApplying(s, [], s);
      } else {
        assert Feeds(s, [], s);
      }
    }
  }

  // ---- when the pause stands ----

  /** What a tick that runs by itself makes of a timed pause: it is lifted by the first
      tick that begins at or after its deadline, before that tick reads the override, and
      by none that begins earlier. */
  predicate LiftedInTime(s: State) {
    (s.ticker.Reading? || s.ticker.Deciding?) && s.override.Pause? ==> s.until.None? || s.clock < s.until.value
  }

  lemma {:induction false} SnoozeIsLifted(s: State, es: seq<Event>, t: State)
    requires IsRun(StepsTo, s, es, t) && NoStore(es) && s.ticker.Idle?
    ensures LiftedInTime(t)
    decreases |es|
  {
    hide StepsTo, LiftedInTime;
    if |es| > 0 {
      var before, e := es[..|es| - 1], es[|es| - 1];
      var u :| IsRun(StepsTo, s, before, u) && StepsTo(u, e, t);
      assert e in es;
      SnoozeIsLifted(s, before, u);
      LiftedStep(u, e, t);
    } else {
      NotTicking(s);
    }
  }

  lemma NotTicking(s: State)
    requires s.ticker.Idle?
    ensures LiftedInTime(s)
  {
  }

  lemma LiftedStep(s: State, e: Event, t: State)
    requires LiftedInTime(s) && StepsTo(s, e, t) && !e.Store?
    ensures LiftedInTime(t)
  {
    hide Step, DutyFor;
  }

  /** The clock readings the ticks of a run begin with. */
  predicate BeforeDeadline(es: seq<Event>, until: Option<int>) {
    forall e <- es :: e.Begin? ==> until.None? || e.now < until.value
  }

  lemma {:induction false} PauseStands(s: State, es: seq<Event>, t: State)
    requires IsRun(StepsTo, s, es, t) && NoStore(es) && BeforeDeadline(es, s.until)
    requires s.override.Pause? && (s.until.None? || s.clock < s.until.value) && !s.ticker.Lifting?
    ensures t.override == s.override && t.until == s.until
    ensures (t.until.None? || t.clock < t.until.value) && !t.ticker.Lifting?
    decreases |es|
  {
    hide StepsTo;
    if |es| > 0 {
      var before, e := es[..|es| - 1], es[|es| - 1];
      var u :| IsRun(StepsTo, s, before, u) && StepsTo(u, e, t);
      assert e in es;
      PauseStands(s, before, u);
      StandsStep(u, e, t);
    }
  }

  lemma StandsStep(s: State, e: Event, t: State)
    requires StepsTo(s, e, t) && !e.Store? && (e.Begin? ==> s.until.None? || e.now < s.until.value)
    requires s.override.Pause? && (s.until.None? || s.clock < s.until.value) && !s.ticker.Lifting?
    ensures t.override == s.override && t.until == s.until
    ensures (t.until.None? || t.clock < t.until.value) && !t.ticker.Lifting?
  {
    hide Step, DutyFor;
  }

  /** The pause is gone, although nobody resumed and no tick reached its deadline. */
  ghost predicate Loses(s: State, es: seq<Event>, t: State) {
    IsRun(StepsTo, s, es, t) && NoStore(es) && BeforeDeadline(es, s.until) && !t.override.Pause?
  }

  /** A pause can be lost exactly when it was stored between the tick's look at an earlier
      one, which was over, and its lifting of whatever it then finds. */
  lemma PauseLostIff(s: State)
    requires s.override.Pause? && (s.until.None? || s.clock < s.until.value)
    ensures (exists es, t :: Loses(s, es, t)) <==> s.ticker.Lifting?
  {
    hide IsRun, NoStore, BeforeDeadline, Enabled, Next;
    if s.ticker.Lifting? {
      LiftsNow(s);
    } else {
      forall es, t | Loses(s, es, t) ensures false {
        PauseStands(s, es, t);
      }
    }
  }

  lemma LiftsNow(s: State)
    requires s.override.Pause? && s.ticker.Lifting?
    ensures Loses(s, [Lift], Next(s, Lift))
  {
    RunOne(s, [], s, Lift);
    assert [] + [Lift] == [Lift];
  }

  lemma RunOne(s: State, es: seq<Event>, u: State, e: Event)
    requires IsRun(StepsTo, s, es, u) && Enabled(u, e)
    ensures IsRun(StepsTo, s, es + [e], Next(u, e))
  {
    hide IsRun, Next, Enabled;
    Append(StepsTo, s, es, u, e, Next(u, e));
  }

  /** It does happen: a snooze until 10 is stored, a tick at 10 finds it over, the user
      asks for a pause without an end, and the tick takes that one away. */
  lemma FreshPauseLost() returns (es: seq<Event>, s: State)
    ensures IsRun(StepsTo, Init(), es, s) && s.override.Pause? && s.until.None? && s.ticker.Lifting?
    ensures Loses(s, [Lift], Next(s, Lift))
  {
    var t1 := SnoozedState();
    es := SnoozedRun();
    hide IsRun, Step, DutyFor;
    RunOne(Init(), es, t1, Begin(10));
    var t2 := Next(t1, Begin(10));
    RunOne(Init(), es + [Begin(10)], t2, Check);
    var t3 := Next(t2, Check);
    RunOne(Init(), es + [Begin(10)] + [Check], t3, Call(Pause, None));
    var t4 := Next(t3, Call(Pause, None));
    RunOne(Init(), es + [Begin(10)] + [Check] + [Call(Pause, None)], t4, Store(1));
    es, s := es + [Begin(10)] + [Check] + [Call(Pause, None)] + [Store(1)], Next(t4, Store(1));
    LiftsNow(s);
  }

  function SnoozedState(): State {
    State(Pause, Some(10), 0.0, 0.0, 0.0, 0, Idle, [Setter(Pause, Some(10), SetterPc.Applying)])
  }

  lemma SnoozedRun() returns (es: seq<Event>)
    ensures IsRun(StepsTo, Init(), es, SnoozedState())
  {
    hide IsRun, Step, DutyFor, Sound, SnoozeOver;
    var i, call := Init(), Call(Pause, Some(10));
    var c := Setter(Pause, Some(10), Storing);
    es := [];
    assert i.setters + [c] == [c];
    Append(StepsTo, i, es, i, call, i.(setters := [c]));
    es := es + [call];
    assert [c][0 := c.(pc := SetterPc.Applying)] == [c.(pc := SetterPc.Applying)];
    Append(StepsTo, i, es, i.(setters := [c]), Store(0), SnoozedState());
    es := es + [Store(0)];
  }

  // ---- the one late tick is real ----

  function Decided(a: real, o: Override, setters: seq<Setter>): State {
    State(o, None, a, 0.0, 0.0, 0, Ticker.Applying(a), setters)
  }

  lemma ReadRun() returns (es: seq<Event>)
    ensures IsRun(StepsTo, Init(), es, Init().(ticker := Deciding(NoOverride)))
  {
    hide IsRun, Step, DutyFor, Sound, SnoozeOver;
    var i := Init();
    es := [];
    Append(StepsTo, Init(), es, i, Begin(0), i.(ticker := Checking));
    es := es + [Begin(0)];
    Append(StepsTo, Init(), es, i.(ticker := Checking), Check, i.(ticker := Reading));
    es := es + [Check];
    Append(StepsTo, Init(), es, i.(ticker := Reading), Read, i.(ticker := Deciding(NoOverride)));
    es := es + [Read];
  }

  lemma DecidesIs(m: Moment)
    requires m.o.NoOverride? && Sound(m)
    ensures StepsTo(Init().(ticker := Deciding(NoOverride)), Decides(m), Decided(Step(0.0, m), NoOverride, []))
  {
    hide Step, Sound;
  }

  lemma DecidedRun(m: Moment) returns (es: seq<Event>)
    requires m.o.NoOverride? && Sound(m)
    ensures IsRun(StepsTo, Init(), es, Decided(Step(0.0, m), NoOverride, []))
  {
    hide IsRun, Step, Sound, StepsTo;
    es := ReadRun();
    DecidesIs(m);
    Append(StepsTo, Init(), es, Init().(ticker := Deciding(NoOverride)), Decides(m),
           Decided(Step(0.0, m), NoOverride, []));
    es := es + [Decides(m)];
  }

  lemma PausedRunFrom(a: real, es: seq<Event>) returns (more: seq<Event>)
    requires IsRun(StepsTo, Init(), es, Decided(a, NoOverride, []))
    ensures IsRun(StepsTo, Init(), more, Decided(a, Pause, [Setter(Pause, None, Returned)]))
  {
    hide IsRun;
    var call := Call(Pause, None);
    var c := Setter(Pause, None, Storing);
    Append(StepsTo, Init(), es, Decided(a, NoOverride, []), call, Decided(a, NoOverride, [c]));
    more := es + [call];
    assert [c][0 := c.(pc := SetterPc.Applying)] == [c.(pc := SetterPc.Applying)];
    Append(StepsTo, Init(), more, Decided(a, NoOverride, [c]), Store(0),
           Decided(a, Pause, [c.(pc := SetterPc.Applying)]));
    more := more + [Store(0)];
    c := c.(pc := SetterPc.Applying);
    assert [c][0 := c.(pc := SetterPc.Setting)] == [c.(pc := SetterPc.Setting)];
    Append(StepsTo, Init(), more, Decided(a, Pause, [c]), SetterApplies(0),
           Decided(a, Pause, [c.(pc := SetterPc.Setting)]));
    more := more + [SetterApplies(0)];
    c := c.(pc := SetterPc.Setting);
    assert [c][0 := c.(pc := Returned)] == [c.(pc := Returned)];
    Append(StepsTo, Init(), more, Decided(a, Pause, [c]), SetterSets(0), Decided(a, Pause, [c.(pc := Returned)]));
    more := more + [SetterSets(0)];
  }

  /** A pause has been stored and applied, and its caller has returned; the tick that had
      already decided then gives the engine the duty it had in mind. */
  lemma LateTickRuns() returns (es: seq<Event>, s: State)
    ensures IsRun(StepsTo, Init(), es, s) && s.override.Pause? && s.ticker.Idle?
    ensures s.setters == [Setter(Pause, None, Returned)] && s.engine > 0.0 && s.duty > 0.0
  {
    var m := Plain();
    PlainRises();
    hide IsRun, Step, Plain, Sound;
    es := DecidedRun(m);
    es := PausedRunFrom(Step(0.0, m), es);
    es, s := LateTickEnds(Step(0.0, m), es);
  }

  lemma LateTickEnds(a: real, es: seq<Event>) returns (more: seq<Event>, s: State)
    requires a > 0.0 && IsRun(StepsTo, Init(), es, Decided(a, Pause, [Setter(Pause, None, Returned)]))
    ensures IsRun(StepsTo, Init(), more, s) && s.override.Pause? && s.ticker.Idle?
    ensures s.setters == [Setter(Pause, None, Returned)] && s.engine > 0.0 && s.duty > 0.0
  {
    hide IsRun;
    var d := DutyFor(a, 1.0);
    assert d > 0.0;
    hide DutyFor;
    var u := Decided(a, Pause, [Setter(Pause, None, Returned)]);
    var v := u.(duty := d, ticker := Ticker.Setting(d));
    Append(StepsTo, Init(), es, u, Apply(1.0), v);
    s := v.(engine := d, ticker := Idle);
    Append(StepsTo, Init(), es + [Apply(1.0)], v, SetEngine, s);
    more := es + [Apply(1.0)] + [SetEngine];
  }

  lemma PlainRises()
    ensures Sound(Plain()) && Plain().o.NoOverride? && 0.0 < Step(0.0, Plain())
  {
    var m := Plain();
    assert Decide(m.p, m.c, m.o) == Decision(1.0, Reason.Nothing, false);
    hide Approach, Power, Decide;
    ApproachGap(0.0, 1.0, m.p.preset);
  }
}
