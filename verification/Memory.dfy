/** internal/scheduler/memory.go: the guard that ends the miner when memory runs short,
    as statements about everything it has read. Times are nanoseconds, memory bytes. */
module Memory {
  import opened Wrappers

  const STALL_LIMIT: real := 5.0
  const STALL_TICKS: nat := 3
  const FLOOR: int := 512 * 1024 * 1024
  const QUIET: int := 600_000_000_000
  const QUIET_STALL: real := 1.0

  /** One reading, with the time it was taken at. */
  datatype Reading = Reading(now: int, psiKnown: bool, fullAvg10: real, memKnown: bool, available: int, total: nat)

  datatype Guard = Guard(stopped: bool, stallTicks: nat, calmSince: Option<int>)

  const FRESH: Guard := Guard(false, 0, None)

  function Margin(total: nat): int {
    if total / 20 < FLOOR then FLOOR else total / 20
  }

  /** What is kept free: half a gibibyte and a twentieth of the memory, whichever is more. */
  lemma MarginMeans(total: nat)
    ensures Margin(total) >= 536_870_912 && 20 * (Margin(total) + 1) > total
    ensures Margin(total) == 536_870_912 || 20 * Margin(total) <= total
  {
  }

  // ---- readings ----

  predicate Short(r: Reading) {
    r.memKnown && (r.available < 536_870_912 || r.available < r.total / 20)
  }

  predicate Stalled(r: Reading) {
    r.psiKnown && r.fullAvg10 >= 5.0
  }

  predicate Calm(r: Reading) {
    r.psiKnown ==> r.fullAvg10 < 1.0
  }

  /** There is room for the miner above what is kept free. */
  predicate Roomy(r: Reading, footprint: int) {
    r.memKnown ==> r.available - footprint >= 536_870_912 && r.available - footprint >= r.total / 20
  }

  predicate Ready(r: Reading, footprint: int) {
    Calm(r) && Roomy(r, footprint)
  }

  function Step(g: Guard, r: Reading, footprint: int): Guard {
    var ticks := if Stalled(r) then g.stallTicks + 1 else 0;
    if !g.stopped then
      if Short(r) || ticks >= STALL_TICKS then Guard(true, ticks, None) else Guard(false, ticks, g.calmSince)
    else if !Ready(r, footprint) then Guard(true, ticks, None)
    else
      var since := if g.calmSince.None? then r.now else g.calmSince.value;
      if r.now - since >= QUIET then Guard(false, ticks, None) else Guard(true, ticks, Some(since))
  }

  datatype Action = Leave | Stop | Start

  /** The guard with the scheduler's own note of whether it has ended the miner. */
  class MemoryGuard {
    var stopped: bool
    var stallTicks: nat
    var calmSince: Option<int>
    const footprint: int
    var memStopped: bool

    ghost function State(): Guard
      reads this
    {
      Guard(stopped, stallTicks, calmSince)
    }

    constructor (footprint: int)
      ensures State() == FRESH && !memStopped && this.footprint == footprint
    {
      stopped, stallTicks, calmSince, memStopped := false, 0, None, false;
      this.footprint := footprint;
    }

    method Observe(r: Reading) returns (stop: bool)
      modifies `stopped, `stallTicks, `calmSince
      ensures State() == Step(old(State()), r, footprint) && stop == stopped
    {
      var short := r.memKnown && r.available < Margin(r.total);
      var stalled := r.psiKnown && r.fullAvg10 >= STALL_LIMIT;
      if stalled {
        stallTicks := stallTicks + 1;
      } else {
        stallTicks := 0;
      }
      if !stopped {
        if short || stallTicks >= STALL_TICKS {
          stopped, calmSince := true, None;
        }
        return stopped;
      }
      var calm := !stalled && (!r.psiKnown || r.fullAvg10 < QUIET_STALL);
      var roomy := !r.memKnown || r.available >= Margin(r.total) + footprint;
      if !calm || !roomy {
        calmSince := None;
        return true;
      }
      if calmSince.None? {
        calmSince := Some(r.now);
      }
      if r.now - calmSince.value >= QUIET {
        stopped, calmSince := false, None;
      }
      return stopped;
    }

    /** Acts on the verdict when it changes: the miner is ended once, and started once
        for every time it was ended. */
    method StopOrRestart(short: bool) returns (action: Action)
      modifies `memStopped
      ensures memStopped == short
      ensures action == if short == old(memStopped) then Leave else if short then Stop else Start
    {
      if short && !memStopped {
        memStopped := true;
        return Stop;
      }
      if !short && memStopped {
        memStopped := false;
        return Start;
      }
      return Leave;
    }
  }

  // ---- whole runs ----

  function After(rs: seq<Reading>, footprint: int): Guard {
    if |rs| == 0 then FRESH else Step(After(rs[..|rs| - 1], footprint), rs[|rs| - 1], footprint)
  }

  predicate LastStalled(rs: seq<Reading>, n: nat) {
    n <= |rs| && forall i :: |rs| - n <= i < |rs| ==> Stalled(rs[i])
  }

  /** stallTicks counts the stalled readings the run ends with. */
  lemma {:induction false} StallTicksIs(rs: seq<Reading>, footprint: int)
    ensures var n := After(rs, footprint).stallTicks;
            LastStalled(rs, n) && (n < |rs| ==> !Stalled(rs[|rs| - 1 - n]))
  {
    if |rs| > 0 {
      hide Short, Stalled, Ready;
      StallTicksIs(rs[..|rs| - 1], footprint);
    }
  }

  /** A running miner is stopped by a reading exactly when that reading is short, or is
      the third stalled one in a row. */
  lemma StopsIff(rs: seq<Reading>, footprint: int)
    requires |rs| > 0 && !After(rs[..|rs| - 1], footprint).stopped
    ensures After(rs, footprint).stopped <==> Short(rs[|rs| - 1]) || LastStalled(rs, 3)
  {
    StallTicksIs(rs, footprint);
    hide Short, Stalled;
    var n := After(rs, footprint).stallTicks;
    if LastStalled(rs, 3) && n < 3 {
      assert false;
    }
    if n >= 3 {
      assert LastStalled(rs, 3);
    }
  }

  /** The three are readings of one and the same miner: the reading that starts it again
      is not stalled. */
  lemma RestartIsNotStalled(rs: seq<Reading>, footprint: int)
    requires |rs| > 0 && After(rs[..|rs| - 1], footprint).stopped && !After(rs, footprint).stopped
    ensures !Stalled(rs[|rs| - 1]) && After(rs, footprint) == FRESH
  {
  }

  /** Reading k ended the miner, and it has not come back since. */
  ghost predicate EndedAt(rs: seq<Reading>, footprint: int, k: nat) {
    && k < |rs| && !After(rs[..k], footprint).stopped
    && forall j: nat :: k < j <= |rs| ==> After(rs[..j], footprint).stopped
  }

  /** The readings from i on are all calm and leave room for the miner, and no longer
      stretch of them since reading k does. */
  ghost predicate ReadySince(rs: seq<Reading>, footprint: int, k: nat, i: nat) {
    && k < i < |rs|
    && (forall j :: i <= j < |rs| ==> Ready(rs[j], footprint))
    && (i > k + 1 ==> !Ready(rs[i - 1], footprint))
  }

  lemma EndedBefore(rs: seq<Reading>, footprint: int, k: nat)
    requires EndedAt(rs, footprint, k) && k + 1 < |rs|
    ensures EndedAt(rs[..|rs| - 1], footprint, k)
  {
    hide After;
    var n := |rs| - 1;
    assert rs[..n][..k] == rs[..k];
    forall j: nat | k < j <= n ensures After(rs[..n][..j], footprint).stopped {
      assert rs[..n][..j] == rs[..j];
    }
  }

  /** calmSince is when that stretch began. */
  lemma {:induction false} CalmSinceIs(rs: seq<Reading>, footprint: int, k: nat) returns (i: nat)
    requires EndedAt(rs, footprint, k)
    ensures var since := After(rs, footprint).calmSince;
            && (since.Some? ==> ReadySince(rs, footprint, k, i) && since.value == rs[i].now)
            && (since.None? ==> k + 1 == |rs| || !Ready(rs[|rs| - 1], footprint))
  {
    i := 0;
    var n := |rs| - 1;
    assert rs[..n + 1] == rs;
    if k == n {
      EndsFresh(After(rs[..n], footprint), rs[n], footprint);
    } else {
      EndedBefore(rs, footprint, k);
      i := CalmSinceIs(rs[..n], footprint, k);
      assert After(rs[..n], footprint).stopped && After(rs, footprint).stopped;
      hide EndedAt, Short, Stalled, Ready;
      if After(rs[..n], footprint).calmSince.None? {
        i := n;
      }
    }
  }

  lemma EndsFresh(g: Guard, r: Reading, footprint: int)
    requires !g.stopped && Step(g, r, footprint).stopped
    ensures Step(g, r, footprint).calmSince.None?
  {
  }

  /** A stopped miner comes back exactly when every reading over at least ten minutes
      since the stop was calm with room for it. */
  lemma RestartsIff(rs: seq<Reading>, footprint: int, k: nat)
    requires |rs| > 0 && EndedAt(rs[..|rs| - 1], footprint, k)
    ensures !After(rs, footprint).stopped <==>
              exists i: nat :: ReadySince(rs, footprint, k, i) && rs[|rs| - 1].now - rs[i].now >= 600_000_000_000
  {
    var n := |rs| - 1;
    var before, r := After(rs[..n], footprint), rs[n];
    var i := CalmSinceIs(rs[..n], footprint, k);
    assert before.stopped by { assert rs[..n][..n] == rs[..n]; }
    assert After(rs, footprint) == Step(before, r, footprint);
    hide EndedAt, After, Step, Ready;
    forall j: nat | ReadySince(rs, footprint, k, j) ensures Ready(r, footprint) {
      assert j <= n;
    }
    if Ready(r, footprint) {
      var at := if before.calmSince.None? then n else i;
      StretchTo(rs, footprint, k, i, before.calmSince.Some?);
      forall j: nat | ReadySince(rs, footprint, k, j) ensures j == at {
        ReadyOnce(rs, footprint, k, at, j);
      }
    }
  }

  /** A ready reading carries the stretch on, or begins one. */
  lemma StretchTo(rs: seq<Reading>, footprint: int, k: nat, i: nat, running: bool)
    requires |rs| > 0 && k < |rs| - 1 && Ready(rs[|rs| - 1], footprint)
    requires if running then ReadySince(rs[..|rs| - 1], footprint, k, i)
             else k + 1 == |rs| - 1 || !Ready(rs[|rs| - 2], footprint)
    ensures ReadySince(rs, footprint, k, if running then i else |rs| - 1)
  {
    hide Ready;
  }

  lemma ReadyOnce(rs: seq<Reading>, footprint: int, k: nat, i: nat, j: nat)
    requires ReadySince(rs, footprint, k, i) && ReadySince(rs, footprint, k, j)
    ensures i == j
  {
    hide Ready;
    if i != j {
      assert false;
    }
  }

  /** A restart that knows the memory leaves room: whatever the miner itself then takes,
      up to its footprint, the next reading is not short. */
  lemma RestartLeavesRoom(g: Guard, r: Reading, footprint: int, next: Reading)
    requires g.stopped && !Step(g, r, footprint).stopped && r.memKnown
    requires next.total == r.total && next.available >= r.available - footprint
    ensures !Short(next)
    ensures !Step(Step(g, r, footprint), next, footprint).stopped
  {
  }

  /** One that does not know it leaves no such room. */
  lemma BlindRestartCanBeShort(footprint: int) returns (g: Guard, r: Reading, next: Reading)
    requires footprint > 0
    ensures g.stopped && !Step(g, r, footprint).stopped && !r.memKnown
    ensures next.available >= r.available - footprint && next.total == r.total && Short(next)
    ensures g == After([Reading(0, false, 0.0, true, 0, 0), Reading(1, false, 0.0, false, 0, 0)], footprint)
  {
    var short, calm := Reading(0, false, 0.0, true, 0, 0), Reading(1, false, 0.0, false, 0, 0);
    assert [short, calm][..1] == [short] && [short][..0] == [];
    assert After([short], footprint) == Guard(true, 0, None);
    g := After([short, calm], footprint);
    assert g == Guard(true, 0, Some(1));
    r := Reading(QUIET + 1, false, 0.0, false, 0, 0);
    next := Reading(QUIET + 2, false, 0.0, true, 0, 0);
  }

  // ---- readings that know nothing ----

  predicate Unknown(r: Reading) {
    !r.psiKnown && !r.memKnown
  }

  /** The comment on step says that a reading that knows nothing changes nothing. It
      clears the count of stalled readings, and to a stopped guard it is a calm one. It
      leaves the guard as it is exactly when there is no count to clear and, with the
      miner stopped, a calm stretch has begun and is not yet ten minutes old. */
  lemma UnknownChangesNothingIff(g: Guard, r: Reading, footprint: int)
    requires Unknown(r)
    ensures Step(g, r, footprint) == g <==>
              && g.stallTicks == 0
              && (g.stopped ==> g.calmSince.Some? && r.now - g.calmSince.value < 600_000_000_000)
  {
  }

  /** So the third stalled reading is missed when one that knows nothing comes in between,
      and ten minutes of knowing nothing bring the miner back. */
  lemma UnknownHidesStall(footprint: int)
    ensures var stalled := Reading(0, true, 50.0, false, 0, 0);
            var unknown := Reading(0, false, 0.0, false, 0, 0);
            && After([stalled, stalled, stalled], footprint).stopped
            && !After([stalled, stalled, unknown, stalled], footprint).stopped
  {
    var stalled := Reading(0, true, 50.0, false, 0, 0);
    var unknown := Reading(0, false, 0.0, false, 0, 0);
    var two := [stalled, stalled];
    assert two[..1] == [stalled] && [stalled][..0] == [];
    assert [stalled, stalled, stalled][..2] == two;
    assert [stalled, stalled, unknown, stalled][..3] == two + [unknown] && (two + [unknown])[..2] == two;
    assert After([stalled], footprint) == Guard(false, 1, None);
    assert After(two, footprint) == Guard(false, 2, None);
    assert After(two + [unknown], footprint) == Guard(false, 0, None);
  }

  lemma UnknownRestarts(g: Guard, first: Reading, last: Reading, footprint: int)
    requires g.stopped && g.calmSince.None? && Unknown(first) && Unknown(last)
    ensures Step(Step(g, first, footprint), last, footprint).stopped <==> last.now - first.now < 600_000_000_000
  {
  }
}
