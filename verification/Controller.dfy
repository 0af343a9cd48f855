/** internal/scheduler/scheduler.go: the Scheduler's fields and the methods that update
    them, the duty the engine is given, and what share of the machine that comes to. */
module Controller {
  import opened Kindness
  import opened Allowance
  import opened Wrappers

  // ---- from the allowance to the machine ----

  /** Threads over cores, where the miner may be confined to fewer cores than threads. */
  function MinerFullShare(cores: int, maxThreads: int, layoutThreads: int, activeCores: int): real {
    if cores <= 0 then 1.0
    else
      var wanted := if layoutThreads > 0 then layoutThreads else maxThreads;
      var threads := if 0 < activeCores < wanted then activeCores else wanted;
      Min(threads as real / cores as real, 1.0)
  }

  /** The miner at full duty takes as many cores as it has threads, which are no more than
      the cores there are, the threads the layout asks for, or else all that are possible,
      and the cores it is confined to: the least of these. */
  lemma FullShareMeans(cores: int, maxThreads: int, layoutThreads: int, activeCores: int)
    ensures var wanted := if layoutThreads > 0 then layoutThreads else maxThreads;
            var taken := MinerFullShare(cores, maxThreads, layoutThreads, activeCores) * cores as real;
            && (cores > 0 ==> taken <= cores as real && taken <= wanted as real)
            && (cores > 0 && activeCores > 0 ==> taken <= activeCores as real)
            && (cores > 0 ==> taken == cores as real || taken == wanted as real
                              || (activeCores > 0 && taken == activeCores as real))
            && (cores <= 0 ==> MinerFullShare(cores, maxThreads, layoutThreads, activeCores) == 1.0)
  {
    if cores > 0 {
      var wanted := if layoutThreads > 0 then layoutThreads else maxThreads;
      var threads := if 0 < activeCores < wanted then activeCores else wanted;
      Divides(threads as real, cores as real);
    }
  }

  function DutyFor(allowed: real, fullShare: real): real {
    if allowed <= 0.0 || fullShare <= 0.0 then 0.0
    else Min(allowed / fullShare, 1.0)
  }

  const PERIOD_NS: int := 500_000_000
  const MIN_SLICE_NS: int := 80_000_000

  /** How long of one period the duty loop lets the process run. */
  function RunNs(duty: real): int {
    if duty <= 0.0 then 0
    else if duty >= 1.0 then PERIOD_NS
    else
      var on := (duty * PERIOD_NS as real).Floor;
      if on < MIN_SLICE_NS then MIN_SLICE_NS else on
  }

  /** The share of the machine the miner occupies over a period. */
  function Occupancy(duty: real, fullShare: real): real {
    Times(RunNs(duty) as real / PERIOD_NS as real, fullShare)
  }

  const SLICE: real := 0.16

  lemma RunNsRange(d: real)
    requires 0.0 < d < 1.0
    ensures var share := RunNs(d) as real / PERIOD_NS as real;
            && share <= Max(d, SLICE) && SLICE <= share
            && d - 0.000_000_002 < share
            && (d <= SLICE ==> share == SLICE)
  {
    var on := (d * PERIOD_NS as real).Floor;
    var x := d * 500_000_000.0;
    assert on as real <= x < on as real + 1.0;
    assert SLICE == MIN_SLICE_NS as real / PERIOD_NS as real;
  }

  lemma ScaledOrder(x: real, y: real, k: real)
    requires x <= y && k >= 0.0
    ensures Times(x, k) <= Times(y, k)
    ensures x < y && k > 0.0 ==> Times(x, k) < Times(y, k)
  {
    if x < y && k > 0.0 {
      Positive(y - x, k);
      assert Times(y, k) == Times(x, k) + Times(y - x, k);
    }
  }

  lemma Divides(x: real, y: real)
    requires y > 0.0
    ensures Times(x / y, y) == x
    ensures x > 0.0 ==> x / y > 0.0
    ensures (x / y < 1.0 <==> x < y) && (x / y < SLICE <==> x < Times(SLICE, y))
  {
    var q := x / y;
    assert q * y == x;
    if q < 1.0 { ScaledOrder(q, 1.0, y); } else { ScaledOrder(1.0, q, y); }
    if q < SLICE { ScaledOrder(q, SLICE, y); } else { ScaledOrder(SLICE, q, y); }
    if x > 0.0 && q <= 0.0 { ScaledOrder(q, 0.0, y); }
  }

  /** What the miner occupies is what it was allowed, up to two nanoseconds in a second
      and the shortest slice; it gets more than allowed exactly when it is allowed
      something less than that slice. */
  lemma OccupancyTracksAllowance(allowed: real, full: real)
    requires 0.0 < full
    ensures var occupied := Occupancy(DutyFor(allowed, full), full);
            && (allowed <= 0.0 ==> occupied == 0.0)
            && (allowed > 0.0 ==> Min(allowed, full) - 0.000_000_002 * full < occupied <= Max(allowed, SLICE * full))
            && (occupied > allowed && allowed >= 0.0 <==> 0.0 < allowed < SLICE * full)
  {
    hide Times, RunNs;
    Divides(allowed, full);
    One(full);
    Commute(1.0, full);
    var d := DutyFor(allowed, full);
    assert Times(SLICE, full) == SLICE * full by { Unfold(SLICE, full); }
    assert Times(0.000_000_002, full) == 0.000_000_002 * full by { Unfold(0.000_000_002, full); }
    if allowed <= 0.0 {
      RunNsEnds(d);
    } else if allowed >= full {
      RunNsEnds(d);
      assert Times(SLICE, full) < full by { ScaledOrder(SLICE, 1.0, full); }
    } else {
      RunNsRange(d);
      var share := RunNs(d) as real / PERIOD_NS as real;
      ScaledOrder(share, Max(d, SLICE), full);
      ScaledOrder(SLICE, share, full);
      ScaledOrder(d - 0.000_000_002, share, full);
      Difference(d, 0.000_000_002, full);
      if d < SLICE {
        ScaledOrder(d, SLICE, full);
      } else {
        ScaledOrder(SLICE, d, full);
      }
    }
  }

  lemma Unfold(x: real, y: real)
    ensures Times(x, y) == x * y
  {
  }

  lemma RunNsEnds(d: real)
    ensures d <= 0.0 ==> RunNs(d) as real / PERIOD_NS as real == 0.0
    ensures d >= 1.0 ==> RunNs(d) as real / PERIOD_NS as real == 1.0
  {
  }

  /** The ceiling, kept. After a tick the miner and everything else together take no more
      than the ceiling, or than the others alone where these are over it, but for the
      share of the miner's excess that one fall leaves and for the shortest slice. A hard
      stop leaves the miner nothing. */
  lemma CeilingPromise(a: real, m: Moment, full: real)
    requires 0.0 <= a <= 1.0 && Sound(m) && 0.0 < full
    ensures var d := Decide(m.p, m.c, m.o);
            var taken := Occupancy(DutyFor(Step(a, m), full), full);
            if d.hard then taken == 0.0
            else taken + m.c.otherCPU <=
                   Max(if m.c.idleGated then Min(0.52, m.p.preset.ceiling) else m.p.preset.ceiling, m.c.otherCPU)
                   + Times(Max(a - d.target, 0.0), Left(m.p.preset.fall)) + SLICE * full
  {
    var d := Decide(m.p, m.c, m.o);
    StepInRange(a, m);
    if d.hard {
      OccupancyTracksAllowance(0.0, full);
    } else {
      ApproachGap(a, d.target, m.p.preset);
      hide Times, Left, Approach, Decide, Occupancy, DutyFor;
      PromiseKept(Step(a, m), a, d.target, m.p.preset, m, full, Left(m.p.preset.fall),
          Left(Rate(a, d.target, m.p.preset)));
    }
  }

  /** The same over n ticks at a steady target: the excess left is the first one times
      (1-Fall)^(8n). */
  lemma SteadyCeilingPromise(a: real, ms: seq<Moment>, t: real, p: Preset, full: real)
    requires 0.0 <= a <= 1.0 && Kind(p) && Steady(ms, t, p) && |ms| > 0 && 0.0 < full
    requires forall m <- ms :: Sound(m)
    ensures var last := ms[|ms| - 1];
            Occupancy(DutyFor(Run(a, ms), full), full) + last.c.otherCPU <=
              Max(if last.c.idleGated then Min(0.52, p.ceiling) else p.ceiling, last.c.otherCPU)
              + Times(Max(a - t, 0.0), Power(1.0 - p.fall, 8 * |ms|)) + SLICE * full
  {
    hide Steady, Sound, Kind, Power, Run, Decide, Times, Occupancy, DutyFor, Heat, Max;
    var last := ms[|ms| - 1];
    LastOf(ms, t, p);
    Converges(a, ms, t, p);
    DecideMeans(last);
    OccupancyTracksAllowance(Run(a, ms), full);
    AllowanceInRange(a, ms);
    PromiseKept(Run(a, ms), a, t, p, last, full, Power(1.0 - p.fall, 8 * |ms|), Power(1.0 - Rate(a, t, p), 8 * |ms|));
  }

  lemma LastOf(ms: seq<Moment>, t: real, p: Preset)
    requires Steady(ms, t, p) && |ms| > 0 && forall m <- ms :: Sound(m)
    ensures var m := ms[|ms| - 1];
            && m.p.preset == p && Sound(m)
            && !Decide(m.p, m.c, m.o).hard && Decide(m.p, m.c, m.o).target == t
  {
    hide Decide, Sound;
    assert ms[|ms| - 1] in ms;
  }

  /** b is what the allowance a came to, aiming at t. */
  lemma PromiseKept(b: real, a: real, t: real, p: Preset, m: Moment, full: real, left: real, share: real)
    requires 0.0 < full && 0.0 <= b && m.p.preset == p
    requires !Decide(m.p, m.c, m.o).hard && Decide(m.p, m.c, m.o).target == t
    requires b - t == Times(a - t, share) && (t < a ==> share == left) && (a < t ==> b < t)
    ensures Occupancy(DutyFor(b, full), full) + m.c.otherCPU <=
              Max(Ceiling(m), m.c.otherCPU) + Times(Max(a - t, 0.0), left) + SLICE * full
  {
    DecideMeans(m);
    OccupancyTracksAllowance(b, full);
    One(left);
    One(share);
    hide Decide, Occupancy, DutyFor, Times, Ceiling, Heat, HardCause, AtLimit;
  }

  // ---- the scheduler's fields ----

  datatype MinerState = Paused | Minimal | Reduced | Full

  function StateForDuty(duty: real): MinerState {
    if duty <= 0.0 then Paused
    else if duty >= 0.9 then MinerState.Full
    else if duty <= 0.15 then Minimal
    else Reduced
  }

  /** A timed pause whose time has come. */
  predicate SnoozeOver(until: Option<int>, now: int) {
    until.Some? && now >= until.value
  }

  /** Whether the user still being there holds the miner to the kindest ceiling. */
  predicate IdleGated(o: Override, preset: Preset, after: int, idleFor: Option<int>) {
    after > 0 && !o.Mine? && preset.waitsForIdle && idleFor.Some? && idleFor.value < after
  }

  class Scheduler {
    var policy: Policy
    var idleFullAfter: int
    var cores: int
    var maxThreads: int
    var layoutThreads: int
    var activeCores: int
    var override: Override
    var pauseUntil: Option<int>
    var allowed: real
    var duty: real
    var state: MinerState
    var pausedBy: Reason
    /** The duty the engine was last given. */
    var engineDuty: real

    ghost predicate Valid()
      reads this
    {
      && 0.0 <= allowed <= 1.0 && 0.0 <= duty <= 1.0
      && Kind(policy.preset)
      && engineDuty == duty && state == StateForDuty(duty)
      && (override.Pause? ==> duty == 0.0)
      && (!override.Pause? ==> pauseUntil.None?)
    }

    predicate SameMachine(c: int, m: int, l: int, a: int)
      reads this
    {
      cores == c && maxThreads == m && layoutThreads == l && activeCores == a
    }

    method Apply(allowance: real, reason: Reason)
      modifies `duty, `state, `pausedBy, `engineDuty
      ensures duty == engineDuty == DutyFor(allowance, MinerFullShare(cores, maxThreads, layoutThreads, activeCores))
      ensures state == StateForDuty(duty) && pausedBy == reason
      ensures 0.0 <= duty <= 1.0
      ensures (state.Paused? <==> duty == 0.0) && (state.Full? <==> duty >= 0.9)
          && (state.Minimal? <==> 0.0 < duty <= 0.15)
    {
      var share := MinerFullShare(cores, maxThreads, layoutThreads, activeCores);
      if allowance > 0.0 && share > 0.0 {
        Divides(allowance, share);
      }
      duty := DutyFor(allowance, share);
      state := StateForDuty(duty);
      pausedBy := reason;
      engineDuty := duty;
    }

    /** A pause stops the miner at once; anything else waits for the next tick. */
    method SetOverride(o: Override, until: Option<int>)
      requires Valid()
      modifies this
      ensures Valid()
      ensures override == o && pauseUntil == (if o.Pause? then until else None)
      ensures o.Pause? ==> duty == 0.0 && state.Paused? && pausedBy.ManualPause?
      ensures !o.Pause? ==> duty == old(duty) && state == old(state) && pausedBy == old(pausedBy)
      ensures policy == old(policy) && allowed == old(allowed) && idleFullAfter == old(idleFullAfter)
          && SameMachine(old(cores), old(maxThreads), old(layoutThreads), old(activeCores))
    {
      override := o;
      pauseUntil := if o.Pause? then until else None;
      if o.Pause? {
        Apply(0.0, ManualPause);
      }
    }

    method EndExpiredSnooze(now: int)
      requires Valid()
      modifies this
      ensures Valid()
      ensures override == (if old(override).Pause? && old(pauseUntil).Some? && now >= old(pauseUntil).value
                           then NoOverride else old(override))
      ensures pauseUntil == (if override.Pause? then old(pauseUntil) else None)
      ensures policy == old(policy) && allowed == old(allowed) && idleFullAfter == old(idleFullAfter)
          && SameMachine(old(cores), old(maxThreads), old(layoutThreads), old(activeCores))
    {
      if override.Pause? && SnoozeOver(pauseUntil, now) {
        SetOverride(NoOverride, None);
      }
    }

    /** One tick nobody interrupts: the machine's readings in, the allowance moved, the
        duty applied. While the user's pause stands, both are zero. */
    method Tick(now: int, readings: Conditions, idleFor: Option<int>)
      requires Valid() && 0.0 <= readings.otherCPU
      modifies this
      ensures Valid()
      ensures override == (if old(override).Pause? && old(pauseUntil).Some? && now >= old(pauseUntil).value
                           then NoOverride else old(override))
      ensures var gated := && idleFullAfter > 0 && !override.Mine? && policy.preset.waitsForIdle
                           && idleFor.Some? && idleFor.value < idleFullAfter;
              var m := Moment(policy, readings.(idleGated := gated), override);
              && allowed == Step(old(allowed), m)
              && duty == DutyFor(allowed, MinerFullShare(cores, maxThreads, layoutThreads, activeCores))
              && pausedBy == Decide(m.p, m.c, m.o).reason
      ensures override.Pause? ==> allowed == duty == 0.0 && state.Paused?
      ensures policy == old(policy) && idleFullAfter == old(idleFullAfter)
          && SameMachine(old(cores), old(maxThreads), old(layoutThreads), old(activeCores))
    {
      EndExpiredSnooze(now);
      var c := readings.(idleGated := IdleGated(override, policy.preset, idleFullAfter, idleFor));
      var d := Decide(policy, c, override);
      StepInRange(allowed, Moment(policy, c, override));
      DecideMeans(Moment(policy, c, override));
      hide Decide, Approach;
      if d.hard {
        allowed := 0.0;
      } else {
        allowed := Approach(allowed, d.target, policy.preset);
      }
      Apply(allowed, d.reason);
    }
  }
}
