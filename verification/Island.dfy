/** internal/core/island.go: what the watch's five fields say about every sample it has
    ever been given. Times are nanoseconds. */
module Island {
  import opened Wrappers

  newtype uint64 = x: int | 0 <= x < 0x1_0000_0000_0000_0000

  const MINUTE: int := 60_000_000_000
  const GRACE: int := 3 * MINUTE
  const STALL_AFTER: int := 5 * MINUTE
  const MIN_DIFFICULTY: uint64 := 100_000
  const WINDOW: uint64 := 2160
  const POOL_RATIO: int := 2

  datatype Sample = Sample(at: int, peers: uint64, peersKnown: bool, height: uint64, difficulty: uint64,
                           pool: uint64, own: uint64)

  datatype Fault = Healthy | NoPeers | NotSynced | OwnChain | Stalled | Alone

  /** The product is taken in 64 bits. */
  function Beaten(own: uint64): int {
    (POOL_RATIO * own as int) % 0x1_0000_0000_0000_0000
  }

  function FaultOf(s: Sample, lastAdvance: int, own: uint64): Fault {
    if s.peersKnown && s.peers == 0 then NoPeers
    else if s.height == 0 then NotSynced
    else if s.difficulty <= MIN_DIFFICULTY && s.height < WINDOW then OwnChain
    else if s.at - lastAdvance >= STALL_AFTER then Stalled
    else if own > 0 && 0 < s.pool as int < Beaten(own) then Alone
    else Healthy
  }

  datatype Watch = Watch(lastHeight: uint64, lastAdvance: Option<int>, failingSince: Option<int>, held: bool,
      heldOwn: uint64)

  const FRESH: Watch := Watch(0, None, None, false, 0)

  function Advanced(w: Watch, s: Sample): int {
    if w.lastAdvance.None? || s.height != w.lastHeight then s.at else w.lastAdvance.value
  }

  function FaultAt(w: Watch, s: Sample): Fault {
    FaultOf(s, Advanced(w, s), if w.held then w.heldOwn else s.own)
  }

  function Step(w: Watch, s: Sample): Watch {
    var advance := Some(Advanced(w, s));
    if FaultAt(w, s).Healthy? then Watch(s.height, advance, None, false, 0)
    else
      var since := if w.failingSince.None? then s.at else w.failingSince.value;
      if !w.held && s.at - since >= GRACE then Watch(s.height, advance, Some(since), true, s.own)
      else Watch(s.height, advance, Some(since), w.held, w.heldOwn)
  }

  class IslandWatch {
    var lastHeight: uint64
    var lastAdvance: Option<int>
    var failingSince: Option<int>
    var held: bool
    var heldOwn: uint64

    function State(): Watch
      reads this
    {
      Watch(lastHeight, lastAdvance, failingSince, held, heldOwn)
    }

    constructor ()
      ensures State() == FRESH
    {
      lastHeight, lastAdvance, failingSince, held, heldOwn := 0, None, None, false, 0;
    }

    method Observe(s: Sample) returns (hold: bool, reason: Fault)
      modifies this
      ensures State() == Step(old(State()), s)
      ensures hold == held && reason == FaultAt(old(State()), s)
    {
      if lastAdvance.None? || s.height != lastHeight {
        lastHeight, lastAdvance := s.height, Some(s.at);
      }
      var own := s.own;
      if held {
        own := heldOwn;
      }
      reason := FaultOf(s, lastAdvance.value, own);
      if reason.Healthy? {
        failingSince, held, heldOwn := None, false, 0;
        return false, reason;
      }
      if failingSince.None? {
        failingSince := Some(s.at);
      }
      if !held && s.at - failingSince.value >= GRACE {
        held, heldOwn := true, s.own;
      }
      return held, reason;
    }
  }

  // ---- whole runs ----

  function After(ss: seq<Sample>): Watch {
    if |ss| == 0 then FRESH else Step(After(ss[..|ss| - 1]), ss[|ss| - 1])
  }

  predicate InOrder(ss: seq<Sample>) {
    forall i, j :: 0 <= i <= j < |ss| ==> ss[i].at <= ss[j].at
  }

  /** The verdict on sample k of a run. */
  function Verdict(ss: seq<Sample>, k: nat): Fault
    requires k < |ss|
  {
    FaultAt(After(ss[..k]), ss[k])
  }

  lemma VerdictOfPrefix(ss: seq<Sample>, n: nat, k: nat)
    requires k < n <= |ss|
    ensures Verdict(ss[..n], k) == Verdict(ss, k)
  {
    assert ss[..n][..k] == ss[..k];
  }

  /** Sample i begins the stretch of one height that the run ends with. */
  ghost predicate HeightSince(ss: seq<Sample>, i: nat) {
    && i < |ss|
    && (forall j :: i <= j < |ss| ==> ss[j].height == ss[|ss| - 1].height)
    && (i > 0 ==> ss[i - 1].height != ss[i].height)
  }

  /** lastAdvance is the time that stretch began. */
  lemma {:induction false} AdvanceIs(ss: seq<Sample>) returns (i: nat)
    requires |ss| > 0
    ensures HeightSince(ss, i)
    ensures After(ss).lastAdvance == Some(ss[i].at) && After(ss).lastHeight == ss[|ss| - 1].height
  {
    hide FaultAt;
    var n := |ss| - 1;
    if n == 0 {
      i := 0;
    } else {
      i := AdvanceIs(ss[..n]);
      if ss[n].height != ss[n - 1].height {
        i := n;
      }
    }
  }

  /** Sample i begins the stretch of faults that the run ends with. */
  ghost predicate FaultySince(ss: seq<Sample>, i: nat) {
    && i < |ss|
    && (forall k :: i <= k < |ss| ==> !Verdict(ss, k).Healthy?)
    && (i > 0 ==> Verdict(ss, i - 1).Healthy?)
  }

  lemma {:induction false} FailingSinceIs(ss: seq<Sample>) returns (i: nat)
    ensures After(ss).failingSince.Some? ==> FaultySince(ss, i) && After(ss).failingSince == Some(ss[i].at)
    ensures After(ss).failingSince.None? ==> |ss| == 0 || Verdict(ss, |ss| - 1).Healthy?
  {
    i := 0;
    if |ss| > 0 {
      var n := |ss| - 1;
      i := FailingSinceIs(ss[..n]);
      hide FaultOf, Advanced;
      if After(ss[..n]).failingSince.None? {
        i := n;
        if n > 0 {
          VerdictOfPrefix(ss, n, n - 1);
        }
      } else if !Verdict(ss, n).Healthy? {
        StretchGrows(ss, i);
      }
    }
  }

  lemma StretchGrows(ss: seq<Sample>, i: nat)
    requires |ss| > 0 && FaultySince(ss[..|ss| - 1], i) && !Verdict(ss, |ss| - 1).Healthy?
    ensures FaultySince(ss, i)
  {
    hide Verdict;
    var n := |ss| - 1;
    forall k | i <= k < |ss| ensures !Verdict(ss, k).Healthy? {
      if k < n {
        VerdictOfPrefix(ss, n, k);
      }
    }
    if i > 0 {
      VerdictOfPrefix(ss, n, i - 1);
    }
  }

  /** held says that the stretch of faults spans the grace. */
  lemma {:induction false} HeldIsSpan(ss: seq<Sample>)
    requires InOrder(ss)
    ensures After(ss).held <==> After(ss).failingSince.Some? && ss[|ss| - 1].at - After(ss).failingSince.value >= GRACE
    ensures After(ss).failingSince.Some? ==> |ss| > 0
  {
    hide FaultAt, Advanced;
    if |ss| > 0 {
      HeldIsSpan(ss[..|ss| - 1]);
      if |ss| > 1 {
        assert ss[|ss| - 2].at <= ss[|ss| - 1].at;
      }
    }
  }

  /** Mining is held after a sample exactly when every check has failed, without a break,
      over at least three minutes. */
  lemma HeldIff(ss: seq<Sample>)
    requires InOrder(ss)
    ensures After(ss).held <==> exists i: nat :: FaultySince(ss, i) && ss[|ss| - 1].at - ss[i].at >= 180_000_000_000
  {
    HeldIsSpan(ss);
    var i := FailingSinceIs(ss);
    hide Verdict, After;
    forall j: nat | FaultySince(ss, j) ensures After(ss).failingSince == Some(ss[j].at) {
      StretchIsOne(ss, i, j);
    }
  }

  lemma StretchIsOne(ss: seq<Sample>, i: nat, j: nat)
    requires FaultySince(ss, j) && (After(ss).failingSince.Some? ==> FaultySince(ss, i))
    requires After(ss).failingSince.None? ==> |ss| == 0 || Verdict(ss, |ss| - 1).Healthy?
    ensures i == j && After(ss).failingSince.Some?
  {
    hide Verdict, After;
    if After(ss).failingSince.None? || i != j {
      assert false;
    }
  }

  /** The hashrate the pool has to beat is the one this machine had when the hold began. */
  ghost predicate HoldBegan(ss: seq<Sample>, j: nat) {
    && j < |ss| && !After(ss[..j]).held
    && forall k: nat :: j < k <= |ss| ==> After(ss[..k]).held
  }

  lemma {:induction false} HeldOwnIs(ss: seq<Sample>) returns (j: nat)
    requires After(ss).held
    ensures HoldBegan(ss, j) && After(ss).heldOwn == ss[j].own
  {
    var n := |ss| - 1;
    assert ss[..n + 1] == ss;
    if After(ss[..n]).held {
      j := HeldOwnIs(ss[..n]);
      HoldGoesOn(ss, j);
    } else {
      j := n;
    }
  }

  lemma HoldGoesOn(ss: seq<Sample>, j: nat)
    requires |ss| > 0 && After(ss).held && HoldBegan(ss[..|ss| - 1], j)
    ensures HoldBegan(ss, j)
  {
    hide After;
    var n := |ss| - 1;
    assert ss[..n][..j] == ss[..j] && ss[..n + 1] == ss;
    forall k | j < k <= |ss| ensures After(ss[..k]).held {
      if k <= n {
        assert ss[..n][..k] == ss[..k];
      }
    }
  }

  /** The height was the same in every sample of at least the five minutes before. */
  ghost predicate StandsStill(ss: seq<Sample>, k: nat)
    requires k < |ss|
  {
    exists i: nat :: i <= k && SameHeight(ss, i, k) && ss[k].at - ss[i].at >= 300_000_000_000
  }

  /** "The sidechain has not moved": its height was the same in every sample of at least
      the last five minutes. And when no earlier check fails, that is always said. */
  lemma StalledIff(ss: seq<Sample>, k: nat)
    requires InOrder(ss) && k < |ss|
    ensures Verdict(ss, k).Stalled? <==>
              && !(ss[k].peersKnown && ss[k].peers == 0) && ss[k].height != 0
              && !(ss[k].difficulty <= 100_000 && ss[k].height < 2160)
              && StandsStill(ss, k)
  {
    var i := AdvanceIs(ss[..k + 1]);
    assert ss[..k + 1][..k] == ss[..k];
    hide After, HeightSince;
    assert Advanced(After(ss[..k]), ss[k]) == ss[i].at by { AdvancedIs(ss, k, i); }
    StretchIsSame(ss, k, i);
    forall j: nat | j <= k && SameHeight(ss, j, k) ensures ss[i].at <= ss[j].at {
      SameNotBefore(ss, k, i, j);
    }
  }

  predicate SameHeight(ss: seq<Sample>, i: nat, k: nat)
    requires k < |ss|
  {
    forall j :: i <= j <= k ==> ss[j].height == ss[k].height
  }

  lemma AdvancedIs(ss: seq<Sample>, k: nat, i: nat)
    requires k < |ss| && HeightSince(ss[..k + 1], i) && After(ss[..k + 1]).lastAdvance == Some(ss[i].at)
    ensures Advanced(After(ss[..k]), ss[k]) == ss[i].at
  {
    hide FaultAt;
    assert ss[..k + 1][..k] == ss[..k];
  }

  lemma StretchIsSame(ss: seq<Sample>, k: nat, i: nat)
    requires k < |ss| && HeightSince(ss[..k + 1], i)
    ensures i <= k && SameHeight(ss, i, k) && (i > 0 ==> ss[i - 1].height != ss[k].height)
  {
    if i > 0 {
      assert ss[..k + 1][i - 1].height != ss[..k + 1][i].height;
      assert ss[..k + 1][i].height == ss[..k + 1][k].height;
    }
    forall j | i <= j <= k ensures ss[j].height == ss[k].height {
      assert ss[..k + 1][j].height == ss[..k + 1][k].height;
    }
  }

  lemma SameNotBefore(ss: seq<Sample>, k: nat, i: nat, j: nat)
    requires InOrder(ss) && i <= k < |ss| && j <= k && SameHeight(ss, j, k)
    requires i > 0 ==> ss[i - 1].height != ss[k].height
    ensures ss[i].at <= ss[j].at
  {
    if j < i {
      assert false;
    }
  }

  lemma HoldBeganOnce(ss: seq<Sample>, i: nat, j: nat)
    requires HoldBegan(ss, i) && HoldBegan(ss, j)
    ensures i == j
  {
    hide After;
    if i != j {
      assert false;
    }
  }

  /** The hashrate that the pool is held against: this machine's, and while mining is held
      the one it had when the hold began. */
  ghost predicate ComparedWith(ss: seq<Sample>, k: nat, h: uint64)
    requires k < |ss|
  {
    if After(ss[..k]).held then exists j: nat :: j < k && HoldBegan(ss[..k], j) && h == ss[j].own
    else h == ss[k].own
  }

  lemma ComparedWithIs(ss: seq<Sample>, k: nat, h: uint64)
    requires k < |ss| && ComparedWith(ss, k, h)
    ensures h == if After(ss[..k]).held then After(ss[..k]).heldOwn else ss[k].own
  {
    if After(ss[..k]).held {
      var j: nat :| j < k && HoldBegan(ss[..k], j) && h == ss[j].own;
      var i := HeldOwnIs(ss[..k]);
      HoldBeganOnce(ss[..k], i, j);
    }
  }

  lemma ComparedWithOne(ss: seq<Sample>, k: nat) returns (h: uint64)
    requires k < |ss|
    ensures ComparedWith(ss, k, h)
  {
    if After(ss[..k]).held {
      var j := HeldOwnIs(ss[..k]);
      h := ss[j].own;
    } else {
      h := ss[k].own;
    }
  }

  /** Each verdict is given exactly when its check is the first to fail, and a sample is
      healthy exactly when none does. The double wraps at 64 bits, see BeatenIff. */
  lemma VerdictIff(ss: seq<Sample>, k: nat, h: uint64)
    requires InOrder(ss) && k < |ss| && ComparedWith(ss, k, h)
    ensures var s, v := ss[k], Verdict(ss, k);
            var noPeers, young := s.peersKnown && s.peers == 0, s.difficulty <= 100_000 && s.height < 2160;
            var small := h > 0 && s.pool > 0 && s.pool as int < 2 * h as int % 0x1_0000_0000_0000_0000;
            && (v.NoPeers? <==> noPeers)
            && (v.NotSynced? <==> !noPeers && s.height == 0)
            && (v.OwnChain? <==> !noPeers && s.height > 0 && young)
            && (v.Stalled? <==> !noPeers && s.height > 0 && !young && StandsStill(ss, k))
            && (v.Alone? <==> !noPeers && s.height > 0 && !young && !StandsStill(ss, k) && small)
            && (v.Healthy? <==> !noPeers && s.height > 0 && !young && !StandsStill(ss, k) && !small)
  {
    StalledIff(ss, k);
    ComparedWithIs(ss, k, h);
    hide After, FaultAt, ComparedWith, StandsStill;
  }

  /** A chain whose only fault is that it stands still is held no sooner than eight
      minutes after its last advance: the stall itself, and then the grace. */
  lemma StallHeldAfterEight(ss: seq<Sample>)
    requires InOrder(ss) && After(ss).held
    requires forall k :: 0 <= k < |ss| ==> Verdict(ss, k).Healthy? || Verdict(ss, k).Stalled?
    ensures ss[|ss| - 1].at - After(ss).lastAdvance.value >= 480_000_000_000
  {
    hide After, FaultAt, Verdict;
    HeldIff(ss);
    var i: nat :| FaultySince(ss, i) && ss[|ss| - 1].at - ss[i].at >= GRACE;
    forall j | i <= j <= |ss| - 1 ensures Verdict(ss, j).Stalled? {
      assert !Verdict(ss, j).Healthy?;
    }
    StallSpan(ss, i, |ss| - 1);
    assert ss[..|ss| - 1 + 1] == ss;
  }

  /** Through a stretch of stalls the last advance stays where it was. */
  lemma {:induction false} StallSpan(ss: seq<Sample>, i: nat, k: nat)
    requires i <= k < |ss| && forall j :: i <= j <= k ==> Verdict(ss, j).Stalled?
    ensures After(ss[..k + 1]).lastAdvance.Some?
    ensures ss[i].at - After(ss[..k + 1]).lastAdvance.value >= STALL_AFTER
  {
    assert ss[..k + 1][..k] == ss[..k] && Verdict(ss, k).Stalled?;
    if i < k {
      StallSpan(ss, i, k - 1);
      StalledStep(After(ss[..k]), ss[k]);
    } else {
      StalledStep(After(ss[..k]), ss[k]);
    }
  }

  lemma StalledStep(w: Watch, s: Sample)
    requires FaultAt(w, s).Stalled?
    ensures Step(w, s).lastAdvance == Some(Advanced(w, s)) && s.at - Advanced(w, s) >= STALL_AFTER
    ensures w.lastAdvance.Some? ==> Step(w, s).lastAdvance == w.lastAdvance
  {
  }

  /** Once held at h > 0 the hold lasts through any samples whose pool is known and not
      yet twice h, however far this machine's own average decays. */
  lemma {:induction false} HoldLasts(ss: seq<Sample>, more: seq<Sample>)
    requires After(ss).held && 0 < After(ss).heldOwn
    requires forall s <- more :: 0 < s.pool as int < 2 * After(ss).heldOwn as int % 0x1_0000_0000_0000_0000
    ensures After(ss + more).held && After(ss + more).heldOwn == After(ss).heldOwn
  {
    hide After;
    var n := |more|;
    if n == 0 {
      assert ss + more == ss;
    } else {
      HoldLasts(ss, more[..n - 1]);
      assert (ss + more)[..|ss + more| - 1] == ss + more[..n - 1];
      AfterLast(ss + more);
    }
  }

  lemma AfterLast(ss: seq<Sample>)
    requires |ss| > 0
    ensures After(ss) == Step(After(ss[..|ss| - 1]), ss[|ss| - 1])
  {
  }

  /** "Twice" fails only for a hashrate whose double does not fit 64 bits. */
  lemma BeatenIff(own: uint64)
    ensures Beaten(own) == 2 * own as int <==> own < 0x8000_0000_0000_0000
  {
  }
}
