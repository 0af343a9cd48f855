/** internal/scheduler/scheduler.go: what one tick decides, how the allowance follows it,
    and the duty that reaches the engine. Shares of the machine are reals. */
module Allowance {
  import opened Kindness
  import opened Wrappers

  datatype Override = NoOverride | Pause | Mine

  datatype Policy = Policy(hold: bool, preset: Preset, pauseOnBattery: bool, onlyWhenLocked: bool,
                           tempLimit: real, thermalGovernor: bool)

  datatype Conditions = Conditions(otherCPU: real, onBattery: bool, tempC: real, locked: bool, lockKnown: bool,
                                   idleGated: bool, nodeSyncing: bool, gameActive: bool, memoryShort: bool)

  datatype Reason =
    | Nothing | ManualPause | MemoryShort | Hold | OnBattery | Unlocked | Game | NodeSyncing
    | WaitingForIdle | Busy | CoolingDown | EasingOff

  datatype Decision = Decision(target: real, reason: Reason, hard: bool)

  const THERMAL_BAND: real := 8.0
  const TICK_MS: nat := 2000
  const REFERENCE_MS: nat := 250

  function Min(x: real, y: real): real { if x < y then x else y }

  function Max(x: real, y: real): real { if x < y then y else x }

  // ---- decide ----

  function EffectiveCeiling(preset: Preset, idleGated: bool): real {
    if idleGated && GHOST_CEILING < preset.ceiling then GHOST_CEILING else preset.ceiling
  }

  function ThermalFactor(tempC: real, limit: real): real {
    var soft := limit - THERMAL_BAND;
    if tempC <= soft then 1.0
    else if tempC >= limit then 0.0
    else (limit - tempC) / (limit - soft)
  }

  function Decide(p: Policy, c: Conditions, o: Override): Decision {
    if o.Pause? then Decision(0.0, ManualPause, true)
    else if c.memoryShort then Decision(0.0, MemoryShort, true)
    else if p.hold then Decision(0.0, Hold, true)
    else if p.pauseOnBattery && c.onBattery then Decision(0.0, OnBattery, true)
    else if p.onlyWhenLocked && c.lockKnown && !c.locked then Decision(0.0, Unlocked, true)
    else if c.gameActive then Decision(0.0, Game, true)
    else if c.nodeSyncing then Decision(0.0, NodeSyncing, true)
    else
      var ceiling := EffectiveCeiling(p.preset, c.idleGated);
      var reason := if ceiling < p.preset.ceiling then WaitingForIdle else Nothing;
      var target := ceiling - c.otherCPU;
      if target <= 0.0 then Decision(0.0, Busy, false)
      else if p.tempLimit > 0.0 && c.tempC > 0.0 then
        if c.tempC >= p.tempLimit then Decision(0.0, CoolingDown, true)
        else if p.thermalGovernor then
          var factor := ThermalFactor(c.tempC, p.tempLimit);
          Decision(if factor < 1.0 then Times(target, factor) else target,
                   if factor < 0.85 && reason.Nothing? then EasingOff else reason, false)
        else Decision(target, reason, false)
      else Decision(target, reason, false)
  }

  // ---- approach ----

  function ScaleRate(r: real): real {
    if r <= 0.0 then 0.0
    else if r >= 1.0 then 1.0
    else 1.0 - Power(1.0 - r, TICK_MS / REFERENCE_MS)
  }

  function Rate(allowed: real, target: real, p: Preset): real {
    if target < allowed then p.fall else p.rise
  }

  function Approach(allowed: real, target: real, p: Preset): real {
    allowed + Times(target - allowed, ScaleRate(Rate(allowed, target, p)))
  }

  /** What one tick reads: the rules and the user's override as it found them under the
      lock, and what it then observed. */
  datatype Moment = Moment(p: Policy, c: Conditions, o: Override)

  function Step(allowed: real, m: Moment): real {
    var d := Decide(m.p, m.c, m.o);
    if d.hard then 0.0 else Approach(allowed, d.target, m.p.preset)
  }

  /** The allowance after a whole run of ticks. */
  function Run(allowed: real, ms: seq<Moment>): real {
    if |ms| == 0 then allowed else Step(Run(allowed, ms[..|ms| - 1]), ms[|ms| - 1])
  }

  // ---- what a decision means ----

  /** The causes that stop mining outright before the load is looked at. */
  predicate HardCause(m: Moment) {
    || m.o.Pause? || m.c.memoryShort || m.p.hold
    || (m.p.pauseOnBattery && m.c.onBattery)
    || (m.p.onlyWhenLocked && m.c.lockKnown && !m.c.locked)
    || m.c.gameActive || m.c.nodeSyncing
  }

  /** The ceiling the miner is held to: while the user is about, at most Ghost's. */
  function Ceiling(m: Moment): real {
    if m.c.idleGated then Min(0.52, m.p.preset.ceiling) else m.p.preset.ceiling
  }

  predicate IsBusy(m: Moment) {
    m.c.otherCPU >= Ceiling(m)
  }

  predicate AtLimit(m: Moment) {
    m.p.tempLimit > 0.0 && m.c.tempC > 0.0 && m.c.tempC >= m.p.tempLimit
  }

  /** The share of the room that the temperature leaves: all of it up to eight degrees
      below the limit, none at the limit, in proportion between. */
  function Heat(m: Moment): real {
    if m.p.tempLimit > 0.0 && m.c.tempC > 0.0 && m.p.thermalGovernor
    then Max(0.0, Min(1.0, (m.p.tempLimit - m.c.tempC) / 8.0)) else 1.0
  }

  lemma CodeAgrees(m: Moment)
    ensures EffectiveCeiling(m.p.preset, m.c.idleGated) == Ceiling(m)
    ensures m.p.tempLimit > 0.0 && m.c.tempC > 0.0 && m.p.thermalGovernor ==>
      ThermalFactor(m.c.tempC, m.p.tempLimit) == Heat(m)
  {
  }

  /** The target is the share left under the ceiling, as far as the heat leaves it. With the
      user about, miner and others are not to take more than 0.52 of the machine together;
      otherwise not more than the preset's ceiling. */
  lemma DecideMeans(m: Moment)
    ensures var d := Decide(m.p, m.c, m.o);
            && (d.hard <==> HardCause(m) || (!IsBusy(m) && AtLimit(m)))
            && (d.hard || IsBusy(m) ==> d.target == 0.0)
            && (!d.hard && !IsBusy(m) ==> 0.0 < d.target && d.target == Times(Ceiling(m) - m.c.otherCPU, Heat(m)))
            && (d.target > 0.0 ==> d.target + m.c.otherCPU <= m.p.preset.ceiling)
            && (d.target > 0.0 && m.c.idleGated ==> d.target + m.c.otherCPU <= 0.52)
  {
    CodeAgrees(m);
    hide ThermalFactor, EffectiveCeiling;
    if !HardCause(m) && !IsBusy(m) && !AtLimit(m) {
      hide Times, Heat;
      var room := Ceiling(m) - m.c.otherCPU;
      if Heat(m) < 1.0 {
        Shrinks(room, Heat(m));
      }
      One(room);
    }
  }

  /** The reason that is shown is there, and nothing that comes before it is. */
  lemma ReasonMeans(m: Moment)
    ensures var r := Decide(m.p, m.c, m.o).reason;
            && (r.Busy? <==> !HardCause(m) && IsBusy(m))
            && (r.CoolingDown? <==> !HardCause(m) && !IsBusy(m) && AtLimit(m))
            && (!HardCause(m) && !IsBusy(m) && !AtLimit(m) ==>
                  && (r.WaitingForIdle? <==> m.c.idleGated && m.p.preset.ceiling > 0.52)
                  && (r.EasingOff? <==> !r.WaitingForIdle? && Heat(m) < 0.85)
                  && (r.Nothing? <==> !r.WaitingForIdle? && !r.EasingOff?))
  {
    CodeAgrees(m);
    hide ThermalFactor, Times, Heat;
    HeatIsOne(m);
  }

  lemma HeatIsOne(m: Moment)
    ensures !(m.p.tempLimit > 0.0 && m.c.tempC > 0.0 && m.p.thermalGovernor) ==> Heat(m) == 1.0
  {
  }

  /** The causes in the order in which they are named; one is shown when it is there and no
      earlier one is. */
  lemma HardReasonMeans(m: Moment)
    ensures var r := Decide(m.p, m.c, m.o).reason;
            && (r.ManualPause? <==> m.o.Pause?)
            && (r.MemoryShort? ==> m.c.memoryShort)
            && (r.Hold? ==> m.p.hold && !m.c.memoryShort)
            && (r.OnBattery? ==> m.p.pauseOnBattery && m.c.onBattery && !m.p.hold && !m.c.memoryShort)
            && (r.Unlocked? ==> m.p.onlyWhenLocked && m.c.lockKnown && !m.c.locked)
            && (r.Unlocked? || r.Game? || r.NodeSyncing? ==>
                  !m.c.memoryShort && !m.p.hold && !(m.p.pauseOnBattery && m.c.onBattery))
            && (r.Game? || r.NodeSyncing? ==> !(m.p.onlyWhenLocked && m.c.lockKnown && !m.c.locked))
            && (r.Game? ==> m.c.gameActive)
            && (r.NodeSyncing? ==> m.c.nodeSyncing && !m.c.gameActive)
            && (HardCause(m) <==> r.ManualPause? || r.MemoryShort? || r.Hold? || r.OnBattery? || r.Unlocked?
                                  || r.Game? || r.NodeSyncing?)
  {
    hide EffectiveCeiling, ThermalFactor, Times;
  }

  /** The README lists "temperature at the limit" among the conditions that set the
      allowance to zero. It does so only while there is room under the ceiling: a
      machine that is busy as well is let down gently. */
  lemma AtLimitStopsUnlessBusy(m: Moment)
    requires AtLimit(m) && !HardCause(m)
    ensures Decide(m.p, m.c, m.o).hard <==>
      m.c.otherCPU < if m.c.idleGated then Min(0.52, m.p.preset.ceiling) else m.p.preset.ceiling
  {
    DecideMeans(m);
  }

  lemma BusyAndHotKeepsMining(m: Moment, a: real)
    requires AtLimit(m) && !HardCause(m) && IsBusy(m)
    requires Kind(m.p.preset) && 0.0 < a
    ensures 0.0 < Step(a, m) < a
  {
    DecideMeans(m);
    ApproachGap(a, 0.0, m.p.preset);
    hide Power;
  }

  lemma BusyAndHotExists() returns (m: Moment)
    ensures AtLimit(m) && !HardCause(m) && IsBusy(m) && Kind(m.p.preset) && Step(1.0, m) > 0.0
  {
    m := Moment(Policy(false, Get("polite"), true, false, 85.0, true),
                Conditions(0.9, false, 90.0, false, false, false, false, false, false), NoOverride);
    BusyAndHotKeepsMining(m, 1.0);
  }

  // ---- products ----

  function Times(x: real, y: real): real {
    x * y
  }

  lemma Positive(x: real, y: real)
    requires 0.0 < x && 0.0 < y
    ensures 0.0 < Times(x, y)
  {
  }

  /** A share of something is less than all of it. */
  lemma Shrinks(x: real, k: real)
    requires 0.0 < k < 1.0
    ensures 0.0 < x ==> 0.0 < Times(x, k) < x
    ensures x < 0.0 ==> x < Times(x, k) < 0.0
  {
    if 0.0 < x {
      Positive(x, k);
      Positive(x, 1.0 - k);
      assert Times(x, 1.0 - k) == x - Times(x, k);
    } else if x < 0.0 {
      Positive(-x, k);
      Positive(-x, 1.0 - k);
      assert Times(-x, 1.0 - k) == -x + Times(x, k);
      assert Times(-x, k) == -Times(x, k);
    }
  }

  lemma Associate(x: real, y: real, z: real)
    ensures Times(Times(x, y), z) == Times(x, Times(y, z))
  {
  }

  lemma Difference(x: real, y: real, k: real)
    ensures Times(x - y, k) == Times(x, k) - Times(y, k)
  {
  }

  function Power(x: real, n: nat): real {
    if n == 0 then 1.0 else Times(x, Power(x, n - 1))
  }

  lemma {:induction false} PowerRange(x: real, n: nat)
    requires 0.0 < x < 1.0
    ensures 0.0 < Power(x, n) <= 1.0
    ensures n > 0 ==> Power(x, n) < 1.0
  {
    hide Times;
    if n > 0 {
      PowerRange(x, n - 1);
      Shrinks(Power(x, n - 1), x);
      Commute(x, Power(x, n - 1));
    }
  }

  lemma Commute(x: real, y: real)
    ensures Times(x, y) == Times(y, x)
  {
  }

  lemma One(x: real)
    ensures Times(x, 1.0) == x && Times(0.0, x) == 0.0
  {
  }

  lemma {:induction false} PowerAdd(x: real, m: nat, n: nat)
    ensures Power(x, m + n) == Times(Power(x, m), Power(x, n))
  {
    hide Times;
    if m == 0 {
      One(Power(x, n));
      Commute(1.0, Power(x, n));
    } else {
      PowerAdd(x, m - 1, n);
      assert m + n - 1 == m - 1 + n;
      Associate(x, Power(x, m - 1), Power(x, n));
    }
  }

  /** A smaller share left each time is a smaller share left in the end. */
  lemma {:induction false} PowerGrows(x: real, y: real, n: nat)
    requires 0.0 < x < y < 1.0
    ensures Power(x, n) <= Power(y, n)
    ensures n > 0 ==> Power(x, n) < Power(y, n)
  {
    hide Times;
    if n > 0 {
      PowerGrows(x, y, n - 1);
      PowerRange(x, n - 1);
      PowerRange(y, n - 1);
      Widen(x, y, Power(x, n - 1), Power(y, n - 1));
    }
  }

  lemma Widen(x: real, y: real, p: real, q: real)
    requires 0.0 < x < y && 0.0 < p <= q
    ensures Times(x, p) < Times(y, q)
  {
    Positive(y - x, p);
    assert Times(y, p) == Times(x, p) + Times(y - x, p);
    if p < q {
      Positive(y, q - p);
      assert Times(y, q) == Times(y, p) + Times(y, q - p);
    }
  }

  // ---- approach, one tick ----

  /** The share of a gap that one tick leaves. */
  function Left(r: real): real {
    Power(1.0 - r, 8)
  }

  /** One tick leaves (1-r)^8 of the gap, r being Fall or Rise by direction, and never
      reaches or crosses the target. */
  lemma ApproachGap(a: real, t: real, p: Preset)
    requires Kind(p)
    ensures 0.0 < Left(Rate(a, t, p)) < 1.0
    ensures Approach(a, t, p) - t == Times(a - t, Left(Rate(a, t, p)))
    ensures t < a ==> t < Approach(a, t, p) < a
    ensures a < t ==> a < Approach(a, t, p) < t
    ensures a == t ==> Approach(a, t, p) == t
  {
    var r := Rate(a, t, p);
    PowerRange(1.0 - r, 8);
    assert TICK_MS / REFERENCE_MS == 8;
    GapLeft(a, t, Left(r));
    assert Approach(a, t, p) == a + Times(t - a, 1.0 - Left(r)) by { hide Power; }
    hide Times, Power, Approach;
    Shrinks(a - t, Left(r));
    One(Left(r));
  }

  lemma GapLeft(a: real, t: real, left: real)
    ensures a + Times(t - a, 1.0 - left) - t == Times(a - t, left)
  {
  }

  /** n steps at the reference interval, each closing r of the gap. */
  function Reference(a: real, t: real, r: real, n: nat): real {
    if n == 0 then a else var b := Reference(a, t, r, n - 1); b + Times(t - b, r)
  }

  lemma {:induction false} ReferenceGap(a: real, t: real, r: real, n: nat)
    ensures Reference(a, t, r, n) - t == Times(a - t, Power(1.0 - r, n))
  {
    hide Times;
    if n == 0 {
      One(a - t);
    } else {
      ReferenceGap(a, t, r, n - 1);
      var b := Reference(a, t, r, n - 1);
      GapLeft(b, t, 1.0 - r);
      Associate(a - t, Power(1.0 - r, n - 1), 1.0 - r);
      Commute(1.0 - r, Power(1.0 - r, n - 1));
    }
  }

  /** One tick is exactly eight reference ticks at the preset's own rate: the presets
      mean the same thing whatever the sampling interval. */
  lemma TickIsEightReferenceTicks(a: real, t: real, p: Preset)
    requires Kind(p)
    ensures Approach(a, t, p) == Reference(a, t, Rate(a, t, p), TICK_MS / REFERENCE_MS)
  {
    ApproachGap(a, t, p);
    ReferenceGap(a, t, Rate(a, t, p), 8);
    hide Power, Reference, Approach, Times;
  }

  // ---- whole runs ----

  predicate Sound(m: Moment) {
    Kind(m.p.preset) && 0.0 <= m.c.otherCPU
  }

  lemma StepInRange(a: real, m: Moment)
    requires 0.0 <= a <= 1.0 && Sound(m)
    ensures 0.0 <= Step(a, m) <= 1.0
  {
    DecideMeans(m);
    ApproachGap(a, Decide(m.p, m.c, m.o).target, m.p.preset);
    hide Power, Approach, Decide, Heat;
  }

  lemma {:induction false} AllowanceInRange(a: real, ms: seq<Moment>)
    requires 0.0 <= a <= 1.0 && forall m <- ms :: Sound(m)
    ensures 0.0 <= Run(a, ms) <= 1.0
  {
    hide Step;
    if |ms| > 0 {
      AllowanceInRange(a, ms[..|ms| - 1]);
      StepInRange(Run(a, ms[..|ms| - 1]), ms[|ms| - 1]);
    }
  }

  /** Ticks that all aim softly at t with preset p. */
  predicate Steady(ms: seq<Moment>, t: real, p: Preset) {
    forall m <- ms :: m.p.preset == p && !Decide(m.p, m.c, m.o).hard && Decide(m.p, m.c, m.o).target == t
  }

  /** After n ticks at a steady target the gap is what it was times (1-r)^(8n), on the
      same side of the target: no crossing, no oscillation. */
  lemma {:induction false} Converges(a: real, ms: seq<Moment>, t: real, p: Preset)
    requires Kind(p) && Steady(ms, t, p)
    ensures Run(a, ms) - t == Times(a - t, Power(1.0 - Rate(a, t, p), 8 * |ms|))
    ensures t < a ==> t < Run(a, ms) <= a
    ensures a < t ==> a <= Run(a, ms) < t
  {
    hide Times, Approach, Decide;
    var n, r := |ms|, Rate(a, t, p);
    if n == 0 {
      One(a - t);
    } else {
      hide Power;
      var b := Run(a, ms[..n - 1]);
      Converges(a, ms[..n - 1], t, p);
      assert ms[n - 1] in ms;
      assert Run(a, ms) == Approach(b, t, p);
      ApproachGap(b, t, p);
      if a == t {
        One(Power(1.0 - r, 8 * (n - 1)));
        One(Power(1.0 - r, 8 * n));
      } else {
        PowerAdd(1.0 - r, 8 * (n - 1), 8);
        assert 8 * (n - 1) + 8 == 8 * n;
        Associate(a - t, Power(1.0 - r, 8 * (n - 1)), Left(r));
      }
    }
  }

  /** Over the same number of ticks a gap above the target is always closed further than
      the same gap below one. */
  lemma FallOutpacesRise(a: real, down: seq<Moment>, t: real, b: real, up: seq<Moment>, u: real, p: Preset)
    requires Kind(p) && Steady(down, t, p) && Steady(up, u, p) && |down| == |up| > 0
    requires a - t == u - b > 0.0
    ensures a - Run(a, down) > Run(b, up) - b > 0.0
  {
    Converges(a, down, t, p);
    Converges(b, up, u, p);
    hide Run, Steady, Power;
    var n := 8 * |up|;
    PowerGrows(1.0 - p.fall, 1.0 - p.rise, n);
    PowerRange(1.0 - p.rise, n);
    Positive(a - t, Power(1.0 - p.rise, n) - Power(1.0 - p.fall, n));
    Shrinks(a - t, Power(1.0 - p.rise, n));
    Remains(a - t, Power(1.0 - p.fall, n), Power(1.0 - p.rise, n));
  }

  lemma Remains(g: real, f: real, r: real)
    ensures Times(g, r - f) == Times(g, r) - Times(g, f) && Times(-g, r) == -Times(g, r)
  {
  }
}
