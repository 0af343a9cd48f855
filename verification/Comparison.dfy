/** Two runs of the controller side by side: a machine that has more to do, or whose user
    is more present, never ends up with a larger allowance, unless one of the two ran
    into its temperature limit in a way the other one hid by being busy. */
module Comparison {
  import opened Kindness
  import opened Allowance

  /** x sees everything y sees that argues against mining, under the same rules and the
      same override. */
  predicate Burdened(x: Moment, y: Moment) {
    && x.p == y.p && x.o == y.o
    && x.c.otherCPU >= y.c.otherCPU >= 0.0
    && x.c.tempC >= y.c.tempC
    && (y.c.idleGated ==> x.c.idleGated)
    && (HardCause(y) ==> HardCause(x))
  }

  /** Other work hides x's temperature stop while y, with room left, makes its own. */
  predicate Hides(x: Moment, y: Moment) {
    && !HardCause(x) && IsBusy(x)
    && !IsBusy(y) && AtLimit(y)
  }

  lemma BurdenedOrder(x: Moment, y: Moment)
    requires Burdened(x, y)
    ensures Ceiling(x) <= Ceiling(y)
    ensures IsBusy(y) ==> IsBusy(x)
    ensures AtLimit(y) ==> AtLimit(x)
    ensures Heat(x) <= Heat(y)
  {
    hide HardCause;
  }

  /** The more burdened moment has the smaller target, and stops hard whenever the other
      one does: except where x hides it. */
  lemma BurdenedTarget(x: Moment, y: Moment)
    requires Burdened(x, y)
    ensures Decide(y.p, y.c, y.o).hard && !Decide(x.p, x.c, x.o).hard ==> Hides(x, y)
    ensures !Decide(y.p, y.c, y.o).hard && !Decide(x.p, x.c, x.o).hard ==>
              0.0 <= Decide(x.p, x.c, x.o).target <= Decide(y.p, y.c, y.o).target
  {
    DecideMeans(x);
    DecideMeans(y);
    BurdenedOrder(x, y);
    hide Decide, Heat, Times, Ceiling, HardCause;
    if !IsBusy(x) {
      var r := Ceiling(x) - x.c.otherCPU;
      var s := Ceiling(y) - y.c.otherCPU;
      Grow(r, s, Heat(x), Heat(y));
    }
  }

  lemma Grow(r: real, s: real, f: real, g: real)
    requires 0.0 < r <= s && 0.0 <= f <= g
    ensures Times(r, f) <= Times(s, g)
  {
    if r < s && 0.0 < f < g {
      Widen(f, g, r, s);
      Commute(f, r);
      Commute(g, s);
    } else if f < g {
      if 0.0 < f {
        Widen(f, g, r, s);
        Commute(f, r);
        Commute(g, s);
      } else {
        Positive(s, g);
      }
    } else if 0.0 < f && r < s {
      Positive(s - r, f);
      assert Times(s, f) == Times(r, f) + Times(s - r, f);
    }
  }

  /** Approach is monotone in where it starts and in where it is going. */
  lemma ApproachMonotone(a: real, b: real, t: real, u: real, p: Preset)
    requires Kind(p) && a <= b && t <= u
    ensures Approach(a, t, p) <= Approach(b, u, p)
  {
    ApproachGap(a, t, p);
    ApproachGap(b, u, p);
    hide Approach, Power, Times, Left;
    if t <= a && b <= u {
    } else if a < t {
      if b < u {
        Mix(a, b, t, u, Left(p.rise));
      }
    } else if u < b {
      if t < a {
        Mix(a, b, t, u, Left(p.fall));
      }
    }
  }

  lemma Mix(a: real, b: real, t: real, u: real, k: real)
    requires 0.0 < k < 1.0 && a <= b && t <= u
    ensures t + Times(a - t, k) <= u + Times(b - u, k)
  {
    if a < b {
      Positive(b - a, k);
    }
    if t < u {
      Positive(u - t, 1.0 - k);
    }
    Difference(b, a, k);
    Difference(b, u, k);
    Difference(a, t, k);
    Difference(u, t, k);
    hide Times;
  }

  /** One tick keeps the order of any two allowances exactly when x does not hide the
      stop that y makes. */
  lemma TickKeepsOrderIff(x: Moment, y: Moment)
    requires Burdened(x, y) && Kind(x.p.preset)
    ensures (forall a, b | 0.0 <= a <= b <= 1.0 :: Step(a, x) <= Step(b, y)) <==> !Hides(x, y)
  {
    hide Step, Burdened, Hides, Decide;
    if Hides(x, y) {
      HiddenStep(x, y);
    } else {
      forall a, b | 0.0 <= a <= b <= 1.0 ensures Step(a, x) <= Step(b, y) {
        OrderedStep(a, b, x, y);
      }
    }
  }

  lemma OrderedStep(a: real, b: real, x: Moment, y: Moment)
    requires Burdened(x, y) && Kind(x.p.preset) && !Hides(x, y) && 0.0 <= a <= b
    ensures Step(a, x) <= Step(b, y)
  {
    BurdenedTarget(x, y);
    DecideMeans(y);
    hide HardCause, Decide, Hides, IsBusy, AtLimit, Heat, Times, Approach;
    var d, e := Decide(x.p, x.c, x.o), Decide(y.p, y.c, y.o);
    if !d.hard {
      ApproachMonotone(a, b, d.target, e.target, x.p.preset);
    } else if !e.hard {
      assert 0.0 <= e.target;
      ApproachGap(b, e.target, y.p.preset);
    }
  }

  lemma HiddenStep(x: Moment, y: Moment)
    requires Burdened(x, y) && Kind(x.p.preset) && Hides(x, y)
    ensures Step(1.0, y) < Step(1.0, x)
  {
    DecideMeans(x);
    DecideMeans(y);
    ApproachGap(1.0, 0.0, x.p.preset);
    hide Decide, Approach, Heat, Times;
  }

  /** Over whole runs of any length, through any changes of rules, override and load, the
      more burdened machine never has the larger allowance. */
  lemma {:induction false} Compared(a: real, xs: seq<Moment>, b: real, ys: seq<Moment>)
    requires 0.0 <= a <= b && |xs| == |ys|
    requires forall i :: 0 <= i < |xs| ==> Burdened(xs[i], ys[i]) && Kind(xs[i].p.preset) && !Hides(xs[i], ys[i])
    ensures 0.0 <= Run(a, xs) <= Run(b, ys)
  {
    hide Step, Burdened, Hides, Kind;
    var n := |xs|;
    if n > 0 {
      Compared(a, xs[..n - 1], b, ys[..n - 1]);
      OrderedStep(Run(a, xs[..n - 1]), Run(b, ys[..n - 1]), xs[n - 1], ys[n - 1]);
      StepNonNegative(Run(a, xs[..n - 1]), xs[n - 1]);
    }
  }

  lemma StepNonNegative(a: real, m: Moment)
    requires 0.0 <= a && Kind(m.p.preset)
    ensures 0.0 <= Step(a, m)
  {
    DecideMeans(m);
    ApproachGap(a, Decide(m.p, m.c, m.o).target, m.p.preset);
    hide Decide, Approach, Heat, Times;
  }

  /** In particular on any two runs that both stay below the temperature limit. */
  lemma ComparedBelowTheLimit(a: real, xs: seq<Moment>, b: real, ys: seq<Moment>)
    requires 0.0 <= a <= b && |xs| == |ys|
    requires forall i :: 0 <= i < |xs| ==> Burdened(xs[i], ys[i]) && Kind(xs[i].p.preset)
    requires forall y <- ys :: !AtLimit(y)
    ensures Run(a, xs) <= Run(b, ys)
  {
    Compared(a, xs, b, ys);
  }

  /** The witness: the same hot machine, with and without other work on it. */
  lemma BusyAndHotOvertakes() returns (x: Moment, y: Moment)
    ensures Burdened(x, y) && Kind(x.p.preset) && AtLimit(x) && AtLimit(y)
    ensures Run(1.0, [y]) < Run(1.0, [x])
  {
    var p := Policy(false, Get("polite"), true, false, 85.0, true);
    x := Moment(p, Conditions(0.9, false, 90.0, false, false, false, false, false, false), NoOverride);
    y := Moment(p, Conditions(0.1, false, 90.0, false, false, false, false, false, false), NoOverride);
    assert Hides(x, y) && Burdened(x, y);
    HiddenStep(x, y);
    hide Step, Burdened, Hides, AtLimit, Kind;
    assert [x][..0] == [] && [y][..0] == [];
  }
}
