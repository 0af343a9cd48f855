/** internal/stats/ledger.go: a pruned record, one entry a minute, that answers as if it
    had kept every sample. Times are nanoseconds since the epoch; a minute is known by the
    Unix second it starts at. */
module Ledger {
  import opened Wrappers

  const SECOND: int := 1_000_000_000
  const MINUTE: int := 60 * SECOND
  const SPAN: int := 1440 * MINUTE

  datatype Sample = Sample(at: int, rate: real)

  datatype Minute = Minute(at: int, sum: real, n: int)

  function MinuteOf(t: int): int {
    t / MINUTE * 60
  }

  function Unix(t: int): int {
    t / SECOND
  }

  lemma TimesAreOrdered(t: int, u: int)
    ensures t <= u ==> MinuteOf(t) <= MinuteOf(u) && Unix(t) <= Unix(u)
    ensures MinuteOf(t) <= Unix(t) < MinuteOf(t) + 60
    ensures Unix(t - SPAN) == Unix(t) - 86400
    ensures MinuteOf(t) % 60 == 0 && Unix(t) * 1_000_000_000 <= t < (Unix(t) + 1) * 1_000_000_000
  {
  }

  // ---- the ledger ----

  predicate SameMinute(ms: seq<Minute>, s: Sample) {
    |ms| > 0 && ms[|ms| - 1].at == MinuteOf(s.at)
  }

  function AddTo(ms: seq<Minute>, s: Sample): seq<Minute> {
    if SameMinute(ms, s)
    then ms[|ms| - 1 := Minute(ms[|ms| - 1].at, ms[|ms| - 1].sum + s.rate, ms[|ms| - 1].n + 1)]
    else ms + [Minute(MinuteOf(s.at), s.rate, 1)]
  }

  function Prune(ms: seq<Minute>, cutoff: int): seq<Minute> {
    if |ms| > 0 && ms[0].at < cutoff then Prune(ms[1..], cutoff) else ms
  }

  function Kept(ms: seq<Minute>, s: Sample): seq<Minute> {
    if SameMinute(ms, s) then AddTo(ms, s) else Prune(AddTo(ms, s), Unix(s.at - SPAN))
  }

  /** Totals of the minutes at the end that are not before the cutoff. */
  datatype Totals = Totals(sum: real, n: int, covered: nat)

  function Window(ms: seq<Minute>, cutoff: int): Totals {
    if |ms| == 0 || ms[|ms| - 1].at < cutoff then Totals(0.0, 0, 0)
    else
      var t := Window(ms[..|ms| - 1], cutoff);
      Totals(t.sum + ms[|ms| - 1].sum, t.n + ms[|ms| - 1].n, t.covered + 1)
  }

  function Mean(t: Totals, window: nat): Option<real> {
    if t.n == 0 || t.covered * MINUTE < window / 2 then None else Some(t.sum / t.n as real)
  }

  function RateOf(ms: seq<Minute>, window: nat, now: int): Option<real> {
    Mean(Window(ms, Unix(now - window)), window)
  }

  function Loaded(file: seq<Minute>, now: int): seq<Minute> {
    if |file| == 0 then []
    else
      var ms, m := Loaded(file[..|file| - 1], now), file[|file| - 1];
      if m.n <= 0 || m.at > Unix(now) || (|ms| > 0 && m.at <= ms[|ms| - 1].at) then ms else ms + [m]
  }

  class Ledger {
    var minutes: seq<Minute>

    constructor ()
      ensures minutes == []
    {
      minutes := [];
    }

    method Add(s: Sample)
      modifies this
      ensures minutes == Kept(old(minutes), s)
    {
      var at, n := MinuteOf(s.at), |minutes|;
      if n > 0 && minutes[n - 1].at == at {
        minutes := minutes[n - 1 := Minute(at, minutes[n - 1].sum + s.rate, minutes[n - 1].n + 1)];
        return;
      }
      minutes := minutes + [Minute(at, s.rate, 1)];
      PruneBefore(s.at);
    }

    method PruneBefore(now: int)
      modifies this
      ensures minutes == Prune(old(minutes), Unix(now - SPAN))
    {
      var cutoff, i := Unix(now - SPAN), 0;
      while i < |minutes| && minutes[i].at < cutoff
        invariant 0 <= i <= |minutes| && minutes == old(minutes)
        invariant Prune(minutes[i..], cutoff) == Prune(minutes, cutoff)
      {
        i := i + 1;
      }
      minutes := minutes[i..];
    }

    method Rate(window: nat, now: int) returns (rate: Option<real>)
      ensures rate == RateOf(minutes, window, now)
    {
      var cutoff, i := Unix(now - window), |minutes|;
      var sum, n, covered: nat := 0.0, 0, 0;
      assert minutes[..i] == minutes;
      while i > 0 && minutes[i - 1].at >= cutoff
        invariant 0 <= i <= |minutes|
        invariant var t, u := Window(minutes[..i], cutoff), Window(minutes, cutoff);
                  u.sum == sum + t.sum && u.n == n + t.n && u.covered == covered + t.covered
      {
        assert minutes[..i][..i - 1] == minutes[..i - 1];
        i := i - 1;
        sum, n, covered := sum + minutes[i].sum, n + minutes[i].n, covered + 1;
      }
      assert Window(minutes[..i], cutoff) == Totals(0.0, 0, 0);
      if n == 0 || covered * MINUTE < window / 2 {
        return None;
      }
      return Some(sum / n as real);
    }

    method Load(file: seq<Minute>, now: int)
      modifies this
      ensures minutes == Prune(Loaded(file, now), Unix(now - SPAN))
    {
      minutes := [];
      for k := 0 to |file|
        invariant minutes == Loaded(file[..k], now)
      {
        assert file[..k + 1][..k] == file[..k];
        var m := file[k];
        if !(m.n <= 0 || m.at > Unix(now) || (|minutes| > 0 && m.at <= minutes[|minutes| - 1].at)) {
          minutes := minutes + [m];
        }
      }
      assert file[..|file|] == file;
      PruneBefore(now);
    }
  }

  // ---- every sample ever added ----

  predicate InOrder(ss: seq<Sample>) {
    forall i, j :: 0 <= i <= j < |ss| ==> ss[i].at <= ss[j].at
  }

  /** The ledger after a series of samples, and what it would be without pruning. */
  function After(ss: seq<Sample>): seq<Minute> {
    if |ss| == 0 then [] else Kept(After(ss[..|ss| - 1]), ss[|ss| - 1])
  }

  function Everything(ss: seq<Sample>): seq<Minute> {
    if |ss| == 0 then [] else AddTo(Everything(ss[..|ss| - 1]), ss[|ss| - 1])
  }

  predicate Increasing(ms: seq<Minute>) {
    forall i, j :: 0 <= i < j < |ms| ==> ms[i].at < ms[j].at
  }

  /** What the samples themselves come to, from the cutoff on. */
  function SumFrom(ss: seq<Sample>, cutoff: int): real {
    if |ss| == 0 then 0.0
    else SumFrom(ss[..|ss| - 1], cutoff) + if MinuteOf(ss[|ss| - 1].at) >= cutoff then ss[|ss| - 1].rate else 0.0
  }

  function CountFrom(ss: seq<Sample>, cutoff: int): nat {
    if |ss| == 0 then 0
    else CountFrom(ss[..|ss| - 1], cutoff) + if MinuteOf(ss[|ss| - 1].at) >= cutoff then 1 else 0
  }

  function MinutesFrom(ss: seq<Sample>, cutoff: int): set<int> {
    set s <- ss | MinuteOf(s.at) >= cutoff :: MinuteOf(s.at)
  }

  /** The mean of the samples in the window, unless their minutes are less than half of it. */
  function TrueRate(ss: seq<Sample>, window: nat, now: int): Option<real> {
    var cutoff := (now - window) / 1_000_000_000;
    var n, minutes := CountFrom(ss, cutoff), |MinutesFrom(ss, cutoff)|;
    if n == 0 || minutes * 60_000_000_000 < window / 2 then None else Some(SumFrom(ss, cutoff) / n as real)
  }

  lemma {:induction false} EverythingIsOrdered(ss: seq<Sample>)
    requires InOrder(ss)
    ensures Increasing(Everything(ss)) && (|ss| > 0 ==> |Everything(ss)| > 0)
    ensures forall m <- Everything(ss) :: m.n > 0 && m.at % 60 == 0
    ensures |ss| > 0 ==> Everything(ss)[|Everything(ss)| - 1].at == MinuteOf(ss[|ss| - 1].at)
  {
    if |ss| > 0 {
      var before, s := ss[..|ss| - 1], ss[|ss| - 1];
      EverythingIsOrdered(before);
      TimesAreOrdered(s.at, s.at);
      if |before| > 0 {
        TimesAreOrdered(before[|before| - 1].at, s.at);
      }
      hide MinuteOf;
    }
  }

  /** The minutes of the window, counted from the samples. */
  lemma {:induction false} WindowIsSamples(ss: seq<Sample>, cutoff: int)
    requires InOrder(ss)
    ensures Window(Everything(ss), cutoff) == Totals(SumFrom(ss, cutoff), CountFrom(ss, cutoff),
        |MinutesFrom(ss, cutoff)|)
    decreases |ss|
  {
    if |ss| == 0 {
      assert MinutesFrom(ss, cutoff) == {};
    } else {
      var before, s := ss[..|ss| - 1], ss[|ss| - 1];
      assert ss == before + [s];
      Prefix(before, s);
      WindowIsSamples(before, cutoff);
      LastSample(before, s, cutoff);
      hide Window, Everything, SumFrom, CountFrom, MinutesFrom, InOrder, MinuteOf;
      if MinuteOf(s.at) >= cutoff {
        WindowGrows(Everything(before), s, cutoff);
        MinutesGrow(before, s, cutoff);
      } else {
        NothingBefore(before, s, cutoff);
        MinutesEmpty(ss, cutoff, s);
      }
    }
  }

  lemma LastSample(ss: seq<Sample>, s: Sample, cutoff: int)
    ensures Everything(ss + [s]) == AddTo(Everything(ss), s)
    ensures SumFrom(ss + [s], cutoff) == SumFrom(ss, cutoff) + if MinuteOf(s.at) >= cutoff then s.rate else 0.0
    ensures CountFrom(ss + [s], cutoff) == CountFrom(ss, cutoff) + if MinuteOf(s.at) >= cutoff then 1 else 0
  {
    hide MinuteOf, AddTo;
    assert (ss + [s])[..|ss|] == ss;
  }

  lemma WindowGrows(ms: seq<Minute>, s: Sample, cutoff: int)
    requires MinuteOf(s.at) >= cutoff
    ensures var t, u := Window(ms, cutoff), Window(AddTo(ms, s), cutoff);
            u == Totals(t.sum + s.rate, t.n + 1, if SameMinute(ms, s) then t.covered else t.covered + 1)
  {
    hide MinuteOf;
    var ns := AddTo(ms, s);
    if SameMinute(ms, s) {
      assert ns[..|ns| - 1] == ms[..|ms| - 1];
    } else {
      assert ns[..|ns| - 1] == ms;
    }
  }

  lemma MinutesEmpty(ss: seq<Sample>, cutoff: int, s: Sample)
    requires InOrder(ss) && |ss| > 0 && s == ss[|ss| - 1] && MinuteOf(s.at) < cutoff
    ensures MinutesFrom(ss, cutoff) == {}
  {
    forall q | q in ss ensures MinuteOf(q.at) < cutoff {
      TimesAreOrdered(q.at, s.at);
    }
  }

  lemma MinutesGrow(ss: seq<Sample>, s: Sample, cutoff: int)
    requires InOrder(ss + [s]) && MinuteOf(s.at) >= cutoff
    ensures |MinutesFrom(ss + [s], cutoff)| == |MinutesFrom(ss, cutoff)| + if SameMinute(Everything(ss), s) then 0
        else 1
  {
    hide Everything, SameMinute, MinuteOf, InOrder;
    var m := MinuteOf(s.at);
    assert MinutesFrom(ss + [s], cutoff) == MinutesFrom(ss, cutoff) + {m};
    if SameMinute(Everything(ss), s) {
      IsTheSame(ss, s);
      assert m in MinutesFrom(ss, cutoff);
      assert MinutesFrom(ss, cutoff) + {m} == MinutesFrom(ss, cutoff);
    } else {
      forall q | q in ss ensures MinuteOf(q.at) != m {
        NotTheSame(ss, s, q);
      }
    }
  }

  lemma IsTheSame(ss: seq<Sample>, s: Sample)
    requires InOrder(ss + [s]) && SameMinute(Everything(ss), s)
    ensures |ss| > 0 && ss[|ss| - 1] in ss && MinuteOf(ss[|ss| - 1].at) == MinuteOf(s.at)
  {
    Prefix(ss, s);
    EverythingIsOrdered(ss);
    var last := ss[|ss| - 1];
    hide Everything, MinuteOf, InOrder;
    assert last in ss;
  }

  lemma Prefix(ss: seq<Sample>, s: Sample)
    requires InOrder(ss + [s])
    ensures InOrder(ss)
  {
    forall i, j | 0 <= i <= j < |ss| ensures ss[i].at <= ss[j].at {
      assert (ss + [s])[i].at <= (ss + [s])[j].at;
    }
  }

  lemma NotTheSame(ss: seq<Sample>, s: Sample, q: Sample)
    requires InOrder(ss + [s]) && q in ss && !SameMinute(Everything(ss), s)
    ensures MinuteOf(q.at) != MinuteOf(s.at)
  {
    Prefix(ss, s);
    EverythingIsOrdered(ss);
    hide Everything;
    var i :| 0 <= i < |ss| && ss[i] == q;
    var last := ss[|ss| - 1];
    assert (ss + [s])[|ss| - 1].at <= (ss + [s])[|ss|].at;
    TimesAreOrdered(q.at, last.at);
    TimesAreOrdered(last.at, s.at);
  }

  lemma NothingBefore(ss: seq<Sample>, s: Sample, cutoff: int)
    requires InOrder(ss + [s]) && MinuteOf(s.at) < cutoff
    ensures SumFrom(ss, cutoff) == 0.0 && CountFrom(ss, cutoff) == 0
    decreases |ss|
  {
    if |ss| > 0 {
      var n := |ss| - 1;
      assert (ss + [s])[n].at <= (ss + [s])[n + 1].at;
      TimesAreOrdered(ss[n].at, s.at);
      Prefix(ss, s);
      assert ss[..n] + [ss[n]] == ss;
      NothingBefore(ss[..n], ss[n], cutoff);
    }
  }

  // ---- what pruning loses ----

  /** ms is what is left of all when its first k minutes, all before the cutoff, go. */
  predicate LeftOver(ms: seq<Minute>, all: seq<Minute>, k: nat, cutoff: int) {
    k <= |all| && ms == all[k..] && forall i :: 0 <= i < k ==> all[i].at < cutoff
  }

  lemma {:induction false} WindowOfRest(all: seq<Minute>, k: nat, cutoff: int)
    requires k <= |all| && Increasing(all) && forall i :: 0 <= i < k ==> all[i].at < cutoff
    ensures Window(all[k..], cutoff) == Window(all, cutoff)
    decreases |all|
  {
    if k < |all| && all[|all| - 1].at >= cutoff {
      var rest := all[..|all| - 1];
      WindowOfRest(rest, k, cutoff);
      assert all[k..][..|all[k..]| - 1] == rest[k..];
    }
  }

  lemma {:induction false} PruneIs(ms: seq<Minute>, cutoff: int) returns (k: nat)
    ensures LeftOver(Prune(ms, cutoff), ms, k, cutoff)
    ensures k < |ms| ==> ms[k].at >= cutoff
  {
    if |ms| > 0 && ms[0].at < cutoff {
      var j := PruneIs(ms[1..], cutoff);
      k := j + 1;
      assert ms[1..][j..] == ms[k..];
      assert forall i :: 0 <= i < j ==> ms[1..][i] == ms[i + 1];
    } else {
      k := 0;
    }
  }

  /** The ledger is the end of the unpruned record; what is missing is more than a day
      older than the newest sample. */
  lemma {:induction false} AfterIsTheEnd(ss: seq<Sample>) returns (k: nat)
    requires InOrder(ss)
    ensures |ss| == 0 ==> After(ss) == Everything(ss) == []
    ensures |ss| > 0 ==> LeftOver(After(ss), Everything(ss), k, Unix(ss[|ss| - 1].at - SPAN)) && k < |Everything(ss)|
  {
    k := 0;
    if |ss| > 0 {
      var before, s := ss[..|ss| - 1], ss[|ss| - 1];
      var cutoff := Unix(s.at - SPAN);
      k := AfterIsTheEnd(before);
      if |before| > 0 {
        TimesAreOrdered(before[|before| - 1].at - SPAN, s.at - SPAN);
      } else {
        k := 0;
      }
      TimesAreOrdered(s.at, s.at);
      assert After(ss) == Kept(After(before), s) && Everything(ss) == AddTo(Everything(before), s);
      hide MinuteOf, Unix, After, Everything, InOrder;
      k := KeptIsTheEnd(After(before), Everything(before), k, s, cutoff);
    }
  }

  lemma KeptIsTheEnd(ms: seq<Minute>, all: seq<Minute>, j: nat, s: Sample, cutoff: int) returns (k: nat)
    requires LeftOver(ms, all, j, cutoff) && MinuteOf(s.at) >= cutoff == Unix(s.at - SPAN)
    ensures LeftOver(Kept(ms, s), AddTo(all, s), k, cutoff) && k < |AddTo(all, s)|
  {
    AddedIsTheEnd(ms, all, j, s, cutoff);
    hide MinuteOf, Unix, AddTo, SameMinute;
    var more, rest := AddTo(all, s), AddTo(ms, s);
    k := j;
    if !SameMinute(ms, s) {
      var i := PruneIs(rest, cutoff);
      k := j + i;
      hide Prune;
      assert more[j..][i..] == more[k..];
      LeftOverTwice(more, j, i, cutoff);
    }
  }

  lemma AddedIsTheEnd(ms: seq<Minute>, all: seq<Minute>, j: nat, s: Sample, cutoff: int)
    requires LeftOver(ms, all, j, cutoff) && MinuteOf(s.at) >= cutoff
    ensures LeftOver(AddTo(ms, s), AddTo(all, s), j, cutoff) && j < |AddTo(all, s)|
    ensures |AddTo(ms, s)| > 0 && AddTo(ms, s)[|AddTo(ms, s)| - 1].at == MinuteOf(s.at)
  {
    hide MinuteOf;
    assert SameMinute(ms, s) <==> SameMinute(all, s);
    assert AddTo(ms, s) == AddTo(all, s)[j..];
  }

  lemma LeftOverTwice(all: seq<Minute>, j: nat, i: nat, cutoff: int)
    requires j + i <= |all| && (forall x :: 0 <= x < j ==> all[x].at < cutoff)
        && (forall x :: 0 <= x < i ==> all[j..][x].at < cutoff)
    ensures forall x :: 0 <= x < j + i ==> all[x].at < cutoff
  {
    forall x | 0 <= x < j + i ensures all[x].at < cutoff {
      if x >= j {
        assert all[j..][x - j] == all[x];
      }
    }
  }

  /** For samples in time order, any window up to a day that ends at or after the newest
      one gets the rate, or the refusal, that the full history would give. */
  lemma {:induction false} RateIsTrue(ss: seq<Sample>, window: nat, now: int)
    requires InOrder(ss) && window <= SPAN && (|ss| > 0 ==> now >= ss[|ss| - 1].at)
    ensures RateOf(After(ss), window, now) == TrueRate(ss, window, now)
  {
    var cutoff := Unix(now - window);
    var k := AfterIsTheEnd(ss);
    WindowIsSamples(ss, cutoff);
    EverythingIsOrdered(ss);
    if |ss| > 0 {
      TimesAreOrdered(ss[|ss| - 1].at - SPAN, now - window);
      WindowOfRest(Everything(ss), k, cutoff);
    }
  }

  lemma {:induction false} Spread(ms: seq<Minute>)
    requires Increasing(ms) && |ms| > 0 && forall m <- ms :: m.at % 60 == 0
    ensures ms[|ms| - 1].at >= ms[0].at + 60 * (|ms| - 1)
    decreases |ms|
  {
    if |ms| > 1 {
      var n := |ms| - 1;
      Spread(ms[..n]);
      assert ms[n] in ms && ms[n - 1] in ms && ms[n - 1].at < ms[n].at;
    }
  }

  /** The first minute kept is within a day of the sample that last pruned. */
  lemma {:induction false} OldestIsRecent(ss: seq<Sample>)
    requires InOrder(ss) && |ss| > 0
    ensures |After(ss)| > 0 && After(ss)[|After(ss)| - 1].at == MinuteOf(ss[|ss| - 1].at)
    ensures After(ss)[0].at >= MinuteOf(ss[|ss| - 1].at) - 86400
  {
    var before, s := ss[..|ss| - 1], ss[|ss| - 1];
    TimesAreOrdered(s.at, s.at);
    if |before| > 0 {
      OldestIsRecent(before);
      TimesAreOrdered(before[|before| - 1].at, s.at);
    }
    hide MinuteOf, Unix;
    if !SameMinute(After(before), s) {
      var all := AddTo(After(before), s);
      var k := PruneIs(all, Unix(s.at - SPAN));
      assert all[|all| - 1].at == MinuteOf(s.at);
    }
  }

  /** However long it runs, the ledger holds at most 1441 minutes. */
  lemma LedgerIsSmall(ss: seq<Sample>)
    requires InOrder(ss)
    ensures |After(ss)| <= 1441
  {
    if |ss| > 0 {
      OldestIsRecent(ss);
      var k := AfterIsTheEnd(ss);
      EverythingIsOrdered(ss);
      hide MinuteOf, Unix, After, Everything;
      assert forall m <- After(ss) :: m in Everything(ss);
      Spread(After(ss));
    }
  }

  // ---- saving and loading ----

  lemma {:induction false} LoadKeepsAll(file: seq<Minute>, now: int)
    requires Increasing(file) && forall m <- file :: m.n > 0 && m.at <= Unix(now)
    ensures Loaded(file, now) == file
  {
    if |file| > 0 {
      hide Unix;
      LoadKeepsAll(file[..|file| - 1], now);
    }
  }

  predicate Usable(m: Minute, now: int) {
    m.n > 0 && m.at <= now / 1_000_000_000
  }

  /** Whatever a file holds, what is kept of it is in order, counts something and is not from
      the future. */
  lemma {:induction false} LoadedIsUsable(file: seq<Minute>, now: int)
    ensures Increasing(Loaded(file, now))
    ensures forall m :: m in Loaded(file, now) ==> m in file && Usable(m, now)
  {
    if |file| > 0 {
      var n := |file| - 1;
      LoadedIsUsable(file[..n], now);
      assert file == file[..n] + [file[n]];
    }
  }

  /** Of the minutes that are usable only those are dropped that do not come after one kept
      before them. */
  lemma {:induction false} DroppedIsLate(file: seq<Minute>, now: int, k: nat)
    requires k < |file| && Usable(file[k], now) && file[k] !in Loaded(file, now)
    ensures exists m :: m in Loaded(file[..k], now) && m.at >= file[k].at
  {
    var n := |file| - 1;
    var ms := Loaded(file[..n], now);
    if k < n {
      assert file[..n][k] == file[k] && file[..n][..k] == file[..k];
      if file[k] in ms {
        KeepsOn(file, now, file[k]);
      }
      DroppedIsLate(file[..n], now, k);
    } else {
      assert |ms| > 0 && file[n].at <= ms[|ms| - 1].at && ms[|ms| - 1] in ms;
    }
  }

  lemma KeepsOn(file: seq<Minute>, now: int, m: Minute)
    requires |file| > 0 && m in Loaded(file[..|file| - 1], now)
    ensures m in Loaded(file, now)
  {
  }

  /** Samples added one after the other to a ledger that is already there. */
  function KeptAll(ms: seq<Minute>, ss: seq<Sample>): seq<Minute> {
    if |ss| == 0 then ms else Kept(KeptAll(ms, ss[..|ss| - 1]), ss[|ss| - 1])
  }

  function SavedAndLoaded(ss: seq<Sample>, loaded: int): seq<Minute> {
    Prune(Loaded(After(ss), loaded), Unix(loaded - SPAN))
  }

  /** The newest of the loading and the samples since. */
  function Latest(loaded: int, more: seq<Sample>): int {
    if |more| == 0 then loaded else more[|more| - 1].at
  }

  lemma LoadedIsTheEnd(ss: seq<Sample>, loaded: int) returns (k: nat)
    requires InOrder(ss) && (|ss| > 0 ==> ss[|ss| - 1].at <= loaded)
    ensures LeftOver(SavedAndLoaded(ss, loaded), Everything(ss), k, Unix(loaded - SPAN))
  {
    k := AfterIsTheEnd(ss);
    EverythingIsOrdered(ss);
    var ms, cutoff := After(ss), Unix(loaded - SPAN);
    if |ss| == 0 {
      k := 0;
    } else {
      TimesAreOrdered(ss[|ss| - 1].at, loaded);
      TimesAreOrdered(ss[|ss| - 1].at, ss[|ss| - 1].at);
      TimesAreOrdered(ss[|ss| - 1].at - SPAN, loaded - SPAN);
      hide MinuteOf, Unix, After, Everything, InOrder;
      k := LoadedRest(ms, Everything(ss), k, loaded, cutoff);
    }
  }

  lemma LoadedRest(ms: seq<Minute>, all: seq<Minute>, j: nat, loaded: int, cutoff: int) returns (k: nat)
    requires LeftOver(ms, all, j, cutoff) && Increasing(all) && |all| > 0
    requires all[|all| - 1].at <= Unix(loaded) && forall m <- all :: m.n > 0
    ensures LeftOver(Prune(Loaded(ms, loaded), cutoff), all, k, cutoff)
  {
    hide Unix, Loaded, Prune;
    assert forall m <- ms :: m in all;
    LoadKeepsAll(ms, loaded);
    var i := PruneIs(ms, cutoff);
    hide Increasing;
    assert all[j..][i..] == all[j + i..];
    LeftOverTwice(all, j, i, cutoff);
    k := j + i;
  }

  /** Later samples leave a loaded ledger the end of the record of all of them. */
  lemma {:induction false} LoadedStaysTheEnd(ss: seq<Sample>, loaded: int, more: seq<Sample>) returns (k: nat)
    requires InOrder(ss + more) && (|ss| > 0 ==> ss[|ss| - 1].at <= loaded)
    requires forall s <- more :: loaded <= s.at
    ensures LeftOver(KeptAll(SavedAndLoaded(ss, loaded), more), Everything(ss + more), k,
        Unix(Latest(loaded, more) - SPAN))
    decreases |more|
  {
    if |more| == 0 {
      assert ss + more == ss;
      k := LoadedIsTheEnd(ss, loaded);
    } else {
      var before, s := more[..|more| - 1], more[|more| - 1];
      assert ss + more == (ss + before) + [s];
      Prefix(ss + before, s);
      assert s in more && forall q <- before :: q in more;
      k := LoadedStaysTheEnd(ss, loaded, before);
      LatestIsOrdered(loaded, before, ss, s);
      TimesAreOrdered(Latest(loaded, before) - SPAN, s.at - SPAN);
      TimesAreOrdered(s.at, s.at);
      LastSample(ss + before, s, 0);
      var ms, all := KeptAll(SavedAndLoaded(ss, loaded), before), Everything(ss + before);
      assert KeptAll(SavedAndLoaded(ss, loaded), more) == Kept(ms, s);
      hide Everything, KeptAll, SavedAndLoaded, MinuteOf, Unix, InOrder;
      k := KeptIsTheEnd(ms, all, k, s, Unix(s.at - SPAN));
    }
  }

  lemma LatestIsOrdered(loaded: int, before: seq<Sample>, ss: seq<Sample>, s: Sample)
    requires InOrder(ss + before + [s]) && loaded <= s.at
    ensures Latest(loaded, before) <= s.at
  {
    var all := ss + before + [s];
    if |before| > 0 {
      assert all[|all| - 2] == before[|before| - 1] && all[|all| - 1] == s;
    }
  }

  /** A ledger saved, and loaded at a later time, from then on gives every rate the full
      history gives, whatever is added to it. */
  lemma {:induction false} LoadedRateIsTrue(ss: seq<Sample>, loaded: int, more: seq<Sample>, window: nat, now: int)
    requires InOrder(ss + more) && (|ss| > 0 ==> ss[|ss| - 1].at <= loaded)
    requires forall s <- more :: loaded <= s.at
    requires window <= SPAN && now >= Latest(loaded, more)
    ensures RateOf(KeptAll(SavedAndLoaded(ss, loaded), more), window, now) == TrueRate(ss + more, window, now)
  {
    var cutoff := Unix(now - window);
    var k := LoadedStaysTheEnd(ss, loaded, more);
    TimesAreOrdered(Latest(loaded, more) - SPAN, now - window);
    EverythingIsOrdered(ss + more);
    WindowIsSamples(ss + more, cutoff);
    hide MinuteOf, Unix, Everything, KeptAll, SavedAndLoaded, InOrder;
    WindowOfRest(Everything(ss + more), k, cutoff);
  }
}
