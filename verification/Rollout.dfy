/** internal/rollout/rollout.go: a pair's probation, and the choice between the installed
    pair of engines and the one before it. Times are nanoseconds. */
module Rollout {
  import opened Wrappers

  const PROBATION: int := 900_000_000_000

  /** island: the island check is holding the miner. */
  datatype Observation = Observation(p2poolExpected: bool, p2poolSynced: bool, island: bool, minerAllowed: bool,
      hashing: bool)

  datatype Verdict = Pending | Healthy | NeverSynced | OnIsland | NeverHashed

  /** One look at a pair. */
  datatype Look = Look(now: int, o: Observation)

  /** What the check has accumulated. */
  datatype Progress = Progress(synced: bool, hashed: bool, allowed: bool)

  function Add(p: Progress, o: Observation): Progress {
    Progress(p.synced || !o.p2poolExpected || o.p2poolSynced, p.hashed || o.hashing, p.allowed || o.minerAllowed)
  }

  function Judge(started: int, p: Progress, l: Look): Verdict {
    if l.now - started < PROBATION then Pending
    else if !p.synced then NeverSynced
    else if l.o.island then OnIsland
    else if p.allowed && !p.hashed then NeverHashed
    else Healthy
  }

  class Check {
    const started: int
    var synced: bool
    var hashed: bool
    var allowed: bool
    var last: Option<Observation>

    function State(): Progress
      reads this
    {
      Progress(synced, hashed, allowed)
    }

    constructor (now: int)
      ensures started == now && State() == Progress(false, false, false)
    {
      started := now;
      synced, hashed, allowed, last := false, false, false, None;
    }

    method Observe(l: Look) returns (v: Verdict)
      modifies this
      ensures State() == Add(old(State()), l.o) && last == Some(l.o)
      ensures v == Judge(started, State(), l)
    {
      last := Some(l.o);
      synced := synced || !l.o.p2poolExpected || l.o.p2poolSynced;
      allowed := allowed || l.o.minerAllowed;
      hashed := hashed || l.o.hashing;
      if l.now - started < PROBATION {
        return Pending;
      }
      if !synced {
        return NeverSynced;
      }
      if last.value.island {
        return OnIsland;
      }
      if allowed && !hashed {
        return NeverHashed;
      }
      return Healthy;
    }
  }

  /** The check after a whole series of looks. */
  function Seen(ls: seq<Look>): Progress {
    if |ls| == 0 then Progress(false, false, false) else Add(Seen(ls[..|ls| - 1]), ls[|ls| - 1].o)
  }

  lemma {:induction false} SeenIs(ls: seq<Look>)
    ensures Seen(ls).synced <==> exists l :: l in ls && (!l.o.p2poolExpected || l.o.p2poolSynced)
    ensures Seen(ls).hashed <==> exists l :: l in ls && l.o.hashing
    ensures Seen(ls).allowed <==> exists l :: l in ls && l.o.minerAllowed
  {
    if |ls| > 0 {
      var n := |ls| - 1;
      SeenIs(ls[..n]);
      assert ls == ls[..n] + [ls[n]];
    }
  }

  /** Fifteen minutes are over since the pair started. */
  predicate TimeIsUp(started: int, l: Look) {
    l.now - started >= 900_000_000_000
  }

  predicate EverSynced(ls: seq<Look>) {
    exists l :: l in ls && (!l.o.p2poolExpected || l.o.p2poolSynced)
  }

  /** xmrig hashed at some look, if it was allowed to at any. */
  predicate HashedIfAllowed(ls: seq<Look>) {
    (exists l :: l in ls && l.o.minerAllowed) ==> exists l :: l in ls && l.o.hashing
  }

  /** Over all looks at a pair. */
  predicate Passes(started: int, ls: seq<Look>)
    requires |ls| > 0
  {
    TimeIsUp(started, ls[|ls| - 1]) && EverSynced(ls) && !ls[|ls| - 1].o.island && HashedIfAllowed(ls)
  }

  /** A pair passes exactly when fifteen minutes are over, p2pool was synced at some look
      or not expected, the last look saw no island, and xmrig, if ever it was allowed to,
      hashed at some look. Before that time nothing is judged, and after it a pair that
      does not pass fails, for the first of these that is not so. */
  lemma PassesIff(started: int, ls: seq<Look>)
    requires |ls| > 0
    ensures var last := ls[|ls| - 1];
            var v := Judge(started, Seen(ls), last);
            && (v.Healthy? <==> Passes(started, ls))
            && (v.Pending? <==> !TimeIsUp(started, last))
            && (v.NeverSynced? <==> TimeIsUp(started, last) && !EverSynced(ls))
            && (v.OnIsland? <==> TimeIsUp(started, last) && EverSynced(ls) && last.o.island)
            && (v.NeverHashed? <==>
                  TimeIsUp(started, last) && EverSynced(ls) && !last.o.island && !HashedIfAllowed(ls))
  {
    SeenIs(ls);
  }

  // ---- which pair to run ----

  /** A pair on disk, by the ID that names its exact build. */
  type Pair = nat

  /** What the daemon remembers between runs: the pair that passed last and the pair that
      failed last. */
  datatype Memory = Memory(healthy: Option<Pair>, rejected: Option<Pair>)

  datatype Notice = Quiet | WentBack | NowhereToGo

  datatype Choice = Choice(use: Pair, probation: bool, notice: Notice)

  predicate CanRollBackTo(current: Pair, previous: Option<Pair>, m: Memory) {
    previous.Some? && previous.value != current && m.healthy == previous
  }

  function Choose(current: Pair, previous: Option<Pair>, m: Memory): Choice {
    if m.rejected == Some(current) && CanRollBackTo(current, previous, m) then Choice(previous.value, false, WentBack)
    else if m.rejected == Some(current) then Choice(current, false, NowhereToGo)
    else if m.healthy == Some(current) then Choice(current, false, Quiet)
    else Choice(current, true, Quiet)
  }

  /** Nothing is known of a pair. */
  predicate Unjudged(p: Pair, m: Memory) {
    m.healthy != Some(p) && m.rejected != Some(p)
  }

  function Passed(m: Memory, p: Pair): Memory {
    Memory(Some(p), if m.rejected == Some(p) then None else m.rejected)
  }

  function RejectedFor(m: Memory, p: Pair): Memory {
    m.(rejected := Some(p))
  }

  /** A rolled-back choice runs the pair that passed, which is neither the installed nor
      the rejected one; probation is for exactly the pairs nothing is known of. */
  lemma ChoiceIs(current: Pair, previous: Option<Pair>, m: Memory)
    ensures var c := Choose(current, previous, m);
            && (c.notice.WentBack? <==>
                  m.rejected == Some(current) && previous.Some? && previous.value != current && m.healthy == previous)
            && (c.notice.NowhereToGo? <==> m.rejected == Some(current) && !c.notice.WentBack?)
            && (c.notice.WentBack? ==> m.healthy == Some(c.use) && c.use != current && m.rejected != Some(c.use))
            && (c.probation <==> Unjudged(current, m))
            && (c.use == current || c.notice.WentBack?)
  {
  }
}
