/** internal/stats/payouts.go: the fifty highest payouts of everything ever recorded. */
module Payouts {

  datatype Payout = Payout(height: nat, atomic: nat, seenAt: int)

  const KEPT: nat := 50

  // ---- the library's stable sort, highest first ----

  function Insert(ps: seq<Payout>, x: Payout): (r: seq<Payout>)
    ensures |r| == |ps| + 1
  {
    if |ps| == 0 || ps[0].height < x.height then [x] + ps else [ps[0]] + Insert(ps[1..], x)
  }

  function Sort(ps: seq<Payout>): seq<Payout> {
    if |ps| == 0 then [] else Insert(Sort(ps[..|ps| - 1]), ps[|ps| - 1])
  }

  predicate Descending(ps: seq<Payout>) {
    forall i, j :: 0 <= i < j < |ps| ==> ps[i].height > ps[j].height
  }

  predicate HasHeight(ps: seq<Payout>, h: nat) {
    exists x :: x in ps && x.height == h
  }

  lemma {:induction false} InsertIs(ps: seq<Payout>, x: Payout)
    ensures multiset(Insert(ps, x)) == multiset(ps + [x])
  {
    if |ps| > 0 && !(ps[0].height < x.height) {
      InsertIs(ps[1..], x);
      assert ps + [x] == [ps[0]] + (ps[1..] + [x]);
      assert Insert(ps, x) == [ps[0]] + Insert(ps[1..], x);
    } else {
      assert multiset([x] + ps) == multiset(ps + [x]);
    }
  }

  lemma {:induction false} InsertHas(ps: seq<Payout>, x: Payout)
    ensures forall y :: y in Insert(ps, x) <==> y in ps || y == x
  {
    InsertIs(ps, x);
    hide Insert;
    forall y ensures y in Insert(ps, x) <==> y in ps || y == x {
      assert y in Insert(ps, x) <==> y in multiset(Insert(ps, x));
      assert y in ps + [x] <==> y in multiset(ps + [x]);
    }
  }

  lemma {:induction false} InsertDescends(ps: seq<Payout>, x: Payout)
    requires Descending(ps) && !HasHeight(ps, x.height)
    ensures Descending(Insert(ps, x))
  {
    if |ps| > 0 {
      assert ps[0] in ps;
      if ps[0].height > x.height {
        assert forall y :: y in ps[1..] ==> y in ps;
        InsertDescends(ps[1..], x);
        InsertHas(ps[1..], x);
        Lead(ps[0], Insert(ps[1..], x));
      } else {
        Lead(x, ps);
      }
    }
  }

  lemma Lead(x: Payout, ps: seq<Payout>)
    requires Descending(ps) && forall y :: y in ps ==> y.height < x.height
    ensures Descending([x] + ps)
  {
    forall j | 0 <= j < |ps| ensures ps[j].height < x.height {
      assert ps[j] in ps;
    }
  }

  /** Two strictly descending lists of the same payouts are the same list, so what the
      library's sort returns for distinct heights is this one. */
  lemma {:induction false} DescendingIsUnique(ps: seq<Payout>, qs: seq<Payout>)
    requires Descending(ps) && Descending(qs) && multiset(ps) == multiset(qs)
    ensures ps == qs
    decreases |ps|
  {
    assert |ps| == |multiset(ps)| == |multiset(qs)| == |qs|;
    if |ps| > 0 {
      FirstIsHighest(ps, qs);
      FirstIsHighest(qs, ps);
      TailMultiset(ps);
      TailMultiset(qs);
      assert ps[0] == qs[0] by { SameFirst(ps, qs); }
      DescendingIsUnique(ps[1..], qs[1..]);
      assert ps == [ps[0]] + ps[1..] && qs == [qs[0]] + qs[1..];
    }
  }

  lemma FirstIsHighest(ps: seq<Payout>, qs: seq<Payout>)
    requires Descending(ps) && |ps| > 0 && |qs| > 0 && multiset(ps) == multiset(qs)
    ensures qs[0] in ps && qs[0].height <= ps[0].height && (qs[0].height == ps[0].height ==> qs[0] == ps[0])
  {
    assert qs[0] in multiset(qs);
    assert qs[0] in ps;
  }

  lemma SameFirst(ps: seq<Payout>, qs: seq<Payout>)
    requires |ps| > 0 && |qs| > 0
    requires qs[0].height <= ps[0].height && (qs[0].height == ps[0].height ==> qs[0] == ps[0])
    requires ps[0].height <= qs[0].height
    ensures ps[0] == qs[0]
  {
  }

  lemma TailMultiset(ps: seq<Payout>)
    requires |ps| > 0
    ensures multiset(ps[1..]) == multiset(ps) - multiset{ps[0]}
  {
    assert ps == [ps[0]] + ps[1..];
  }

  lemma {:induction false} InsertLast(ps: seq<Payout>, x: Payout)
    requires forall y :: y in ps ==> y.height > x.height
    ensures Insert(ps, x) == ps + [x]
  {
    if |ps| > 0 {
      assert ps[0] in ps;
      assert forall y :: y in ps[1..] ==> y in ps;
      InsertLast(ps[1..], x);
      assert ps + [x] == [ps[0]] + (ps[1..] + [x]);
    }
  }

  lemma {:induction false} SortKeeps(ps: seq<Payout>)
    requires Descending(ps)
    ensures Sort(ps) == ps
  {
    if |ps| > 0 {
      var n := |ps| - 1;
      SortKeeps(ps[..n]);
      InsertLast(ps[..n], ps[n]);
      assert ps == ps[..n] + [ps[n]];
    }
  }

  lemma SortAppended(ps: seq<Payout>, x: Payout)
    requires Descending(ps)
    ensures Sort(ps + [x]) == Insert(ps, x)
  {
    SortKeeps(ps);
    assert (ps + [x])[..|ps|] == ps;
  }

  // ---- the record ----

  function Top(ps: seq<Payout>): seq<Payout> {
    if |ps| > KEPT then ps[..KEPT] else ps
  }

  function Recorded(ps: seq<Payout>, x: Payout): seq<Payout> {
    if HasHeight(ps, x.height) then ps else Top(Insert(ps, x))
  }

  class Payouts {
    var list: seq<Payout>

    ghost predicate Valid()
      reads this
    {
      Descending(list) && |list| <= KEPT
    }

    constructor ()
      ensures Valid() && list == []
    {
      list := [];
    }

    method Record(x: Payout) returns (isNew: bool)
      requires Valid()
      modifies this
      ensures Valid()
      ensures list == Recorded(old(list), x) && (isNew <==> !HasHeight(old(list), x.height))
    {
      for i := 0 to |list|
        invariant forall k :: 0 <= k < i ==> list[k].height != x.height
      {
        if list[i].height == x.height {
          assert list[i] in list;
          return false;
        }
      }
      assert !HasHeight(list, x.height);
      SortAppended(list, x);
      InsertDescends(list, x);
      list := Sort(list + [x]);
      if |list| > KEPT {
        list := list[..KEPT];
      }
      return true;
    }

    method Recent(n: nat) returns (ps: seq<Payout>)
      ensures |ps| == (if n > |list| then |list| else n) && ps <= list
    {
      return list[..if n > |list| then |list| else n];
    }

    /** Load replays the file's sound entries into an empty record. */
    method Load(file: seq<Payout>)
      modifies this
      ensures Valid() && list == After(Sound(file))
    {
      list := [];
      for i := 0 to |file|
        invariant Valid() && list == After(Sound(file[..i]))
      {
        SoundStep(file, i);
        if file[i].height > 0 && file[i].atomic > 0 {
          var isNew := Record(file[i]);
        }
      }
      assert file[..|file|] == file;
    }
  }

  predicate IsSound(x: Payout) {
    x.height > 0 && x.atomic > 0
  }

  function Sound(file: seq<Payout>): seq<Payout> {
    if |file| == 0 then []
    else Sound(file[..|file| - 1]) + if IsSound(file[|file| - 1]) then [file[|file| - 1]] else []
  }

  /** Entries without a height or an amount are left out, and no others. */
  lemma {:induction false} SoundIs(file: seq<Payout>)
    ensures forall x :: x in Sound(file) <==> x in file && x.height > 0 && x.atomic > 0
  {
    if |file| > 0 {
      var n := |file| - 1;
      SoundIs(file[..n]);
      assert file == file[..n] + [file[n]];
    }
  }

  lemma SoundStep(file: seq<Payout>, i: nat)
    requires i < |file|
    ensures After(Sound(file[..i + 1])) ==
              if IsSound(file[i]) then Recorded(After(Sound(file[..i])), file[i]) else After(Sound(file[..i]))
  {
    hide Recorded;
    var next := file[..i + 1];
    assert next[..|next| - 1] == file[..i] && next[|next| - 1] == file[i];
    assert Sound(next) == Sound(file[..i]) + if IsSound(file[i]) then [file[i]] else [];
    assert Sound(file[..i]) + [] == Sound(file[..i]);
  }

  // ---- everything ever recorded ----

  function After(rs: seq<Payout>): seq<Payout> {
    if |rs| == 0 then [] else Recorded(After(rs[..|rs| - 1]), rs[|rs| - 1])
  }

  /** The same without a limit. */
  function Everything(rs: seq<Payout>): seq<Payout> {
    if |rs| == 0 then []
    else
      var ps, x := Everything(rs[..|rs| - 1]), rs[|rs| - 1];
      if HasHeight(ps, x.height) then ps else Insert(ps, x)
  }

  /** x is the first payout recorded for its height. */
  ghost predicate FirstSeen(rs: seq<Payout>, x: Payout) {
    exists i :: 0 <= i < |rs| && rs[i] == x && forall j :: 0 <= j < i ==> rs[j].height != x.height
  }

  lemma FirstSeenGrows(rs: seq<Payout>, r: Payout, x: Payout)
    ensures FirstSeen(rs + [r], x) <==> FirstSeen(rs, x) || (x == r && !HasHeight(rs, x.height))
  {
    var more := rs + [r];
    if FirstSeen(rs, x) {
      var i :| 0 <= i < |rs| && rs[i] == x && forall j :: 0 <= j < i ==> rs[j].height != x.height;
      assert more[i] == x && forall j :: 0 <= j < i ==> more[j].height != x.height;
    }
    if FirstSeen(more, x) {
      var i :| 0 <= i < |more| && more[i] == x && forall j :: 0 <= j < i ==> more[j].height != x.height;
      if i < |rs| {
        assert rs[i] == x && forall j :: 0 <= j < i ==> rs[j] == more[j];
      } else {
        forall y | y in rs ensures y.height != x.height {
          var j :| 0 <= j < |rs| && rs[j] == y;
          assert more[j] == y;
        }
      }
    }
    if x == r && !HasHeight(rs, x.height) {
      forall j | 0 <= j < |rs| ensures more[j].height != x.height {
        assert more[j] in rs;
      }
      assert more[|rs|] == x;
    }
  }

  lemma {:induction false} EverythingIs(rs: seq<Payout>)
    ensures Descending(Everything(rs))
    ensures forall x :: x in Everything(rs) <==> FirstSeen(rs, x)
    ensures forall h: nat :: HasHeight(Everything(rs), h) <==> HasHeight(rs, h)
    decreases |rs|
  {
    if |rs| > 0 {
      var before, r := rs[..|rs| - 1], rs[|rs| - 1];
      assert rs == before + [r];
      EverythingIs(before);
      InsertHas(Everything(before), r);
      if !HasHeight(Everything(before), r.height) {
        InsertDescends(Everything(before), r);
      }
      var all := Everything(rs);
      forall x ensures x in all <==> FirstSeen(rs, x) {
        FirstSeenGrows(before, r, x);
      }
      forall h: nat ensures HasHeight(all, h) <==> HasHeight(rs, h) {
        HeightsGrow(before, r, h);
      }
    }
  }

  lemma HeightsGrow(rs: seq<Payout>, r: Payout, h: nat)
    requires HasHeight(Everything(rs), h) <==> HasHeight(rs, h)
    requires forall y :: y in Insert(Everything(rs), r) <==> y in Everything(rs) || y == r
    requires HasHeight(Everything(rs), r.height) <==> HasHeight(rs, r.height)
    ensures HasHeight(Everything(rs + [r]), h) <==> HasHeight(rs + [r], h)
  {
    var ps := Everything(rs);
    assert (rs + [r])[..|rs|] == rs;
    hide Everything, Insert;
    assert HasHeight(rs + [r], h) <==> HasHeight(rs, h) || r.height == h by {
      assert forall x :: x in rs + [r] <==> x in rs || x == r;
    }
    if !HasHeight(ps, r.height) {
      assert HasHeight(Insert(ps, r), h) <==> HasHeight(ps, h) || r.height == h by {
        assert r in Insert(ps, r);
      }
    }
  }

  /** Cutting a list off before or after an insertion comes to the same top fifty. */
  lemma {:induction false} TakeInsert(ps: seq<Payout>, x: Payout, n: nat)
    requires n < |ps|
    ensures Insert(ps[..n], x)[..n] == Insert(ps, x)[..n]
  {
    if n > 0 && !(ps[0].height < x.height) {
      TakeInsert(ps[1..], x, n - 1);
      assert ps[..n][1..] == ps[1..][..n - 1];
      assert Insert(ps, x)[..n] == [ps[0]] + Insert(ps[1..], x)[..n - 1];
      assert Insert(ps[..n], x)[..n] == [ps[0]] + Insert(ps[1..][..n - 1], x)[..n - 1];
    } else if n > 0 {
      assert Insert(ps, x)[..n] == [x] + ps[..n - 1];
      assert Insert(ps[..n], x)[..n] == [x] + ps[..n][..n - 1];
    }
  }

  lemma TopHas(all: seq<Payout>, k: nat)
    requires k < |all| && Descending(all)
    ensures k < KEPT ==> all[k] in Top(all) && HasHeight(Top(all), all[k].height)
    ensures k >= KEPT ==> |Top(all)| == KEPT && !HasHeight(Top(all), all[k].height) && all[k] !in Top(all)
    ensures k >= KEPT ==> forall y :: y in Top(all) ==> y.height > all[k].height
  {
    if k < KEPT {
      assert Top(all)[k] == all[k];
    }
  }

  lemma StepIsTop(all: seq<Payout>, x: Payout)
    requires Descending(all)
    ensures Recorded(Top(all), x) == Top(if HasHeight(all, x.height) then all else Insert(all, x))
  {
    if HasHeight(Top(all), x.height) {
      assert HasHeight(all, x.height);
    } else if |all| <= KEPT {
    } else if HasHeight(all, x.height) {
      var y :| y in all && y.height == x.height;
      var k :| 0 <= k < |all| && all[k] == y;
      TopHas(all, k);
      InsertLast(all[..KEPT], x);
    } else {
      TakeInsert(all, x, KEPT);
    }
  }

  lemma {:induction false} AfterIsTop(rs: seq<Payout>)
    ensures After(rs) == Top(Everything(rs))
  {
    if |rs| > 0 {
      hide Top, Recorded, Insert;
      AfterIsTop(rs[..|rs| - 1]);
      EverythingIs(rs[..|rs| - 1]);
      StepIsTop(Everything(rs[..|rs| - 1]), rs[|rs| - 1]);
    } else {
      assert Top([]) == [];
    }
  }

  /** Whatever was recorded, in whatever order and however often, the record is the fifty
      greatest of the heights ever recorded, highest first, each with what was seen for it
      first. */
  lemma ListIsTheBest(rs: seq<Payout>)
    ensures var ps := After(rs);
            && Descending(ps) && |ps| <= 50
            && (forall x :: x in ps ==> FirstSeen(rs, x))
            && (forall x :: FirstSeen(rs, x) && x !in ps ==>
                  |ps| == 50 && forall y :: y in ps ==> y.height > x.height)
  {
    AfterIsTop(rs);
    EverythingIs(rs);
    var all := Everything(rs);
    hide Everything, FirstSeen, After;
    forall x | x in all && x !in Top(all)
      ensures |Top(all)| == KEPT && forall y :: y in Top(all) ==> y.height > x.height
    {
      var k :| 0 <= k < |all| && all[k] == x;
      TopHas(all, k);
    }
  }

  /** "Reports whether it was new": new to the fifty. A payout recorded before is reported
      as new exactly when the list is full and all of it is higher. */
  lemma NewIsNotFirstIff(rs: seq<Payout>, x: Payout)
    ensures var ps := After(rs);
            HasHeight(rs, x.height) && !HasHeight(ps, x.height) <==>
              HasHeight(rs, x.height) && |ps| == 50 && ps[49].height > x.height
  {
    AfterIsTop(rs);
    EverythingIs(rs);
    var all := Everything(rs);
    hide Everything, FirstSeen, After;
    var ps := Top(all);
    if HasHeight(rs, x.height) {
      var y :| y in all && y.height == x.height;
      var k :| 0 <= k < |all| && all[k] == y;
      TopHas(all, k);
      if k >= KEPT {
        assert ps[KEPT - 1] in ps;
      } else if |ps| == KEPT {
        assert ps[KEPT - 1] == all[KEPT - 1];
      }
    }
  }

  /** Heights 1 to n, recorded in that order, and what is left of them without a limit. */
  function Rising(n: nat): seq<Payout> {
    seq(n, i requires 0 <= i < n => Payout(i + 1, 1, 0))
  }

  function Falling(n: nat): seq<Payout> {
    seq(n, i requires 0 <= i < n => Payout(n - i, 1, 0))
  }

  lemma {:induction false} EverythingOfRising(n: nat)
    ensures Everything(Rising(n)) == Falling(n)
  {
    if n > 0 {
      EverythingOfRising(n - 1);
      assert Rising(n)[..n - 1] == Rising(n - 1);
      var x := Payout(n, 1, 0);
      assert !HasHeight(Falling(n - 1), n);
      assert Insert(Falling(n - 1), x) == [x] + Falling(n - 1);
      assert [x] + Falling(n - 1) == Falling(n);
    }
  }

  /** It takes one payout more than the list holds: the first of 51 rising ones is not in
      the list, and recorded again it is reported new. */
  lemma CrowdedOutIsNewAgain() returns (rs: seq<Payout>, x: Payout)
    ensures |rs| == 51 && rs[0] == x
    ensures HasHeight(rs, x.height) && !HasHeight(After(rs), x.height)
    ensures After(rs + [x]) == After(rs)
  {
    rs, x := Rising(KEPT + 1), Payout(1, 1, 0);
    assert rs[0] == x && x in rs;
    AfterIsTop(rs);
    EverythingOfRising(KEPT + 1);
    var ps := After(rs);
    assert ps == Falling(KEPT + 1)[..KEPT];
    hide After, Everything, Insert;
    assert forall y :: y in ps ==> y.height > 1;
    InsertLast(ps, x);
    assert (ps + [x])[..KEPT] == ps;
  }

  /** What was saved is what is loaded, given that p2pool announced heights and amounts. */
  lemma {:induction false} LoadRestores(ps: seq<Payout>)
    requires Descending(ps) && |ps| <= KEPT && forall x :: x in ps ==> x.height > 0 && x.atomic > 0
    ensures Sound(ps) == ps && After(ps) == ps
  {
    if |ps| > 0 {
      var n := |ps| - 1;
      var before, x := ps[..n], ps[n];
      assert ps == before + [x] && x in ps;
      hide Insert, Descending, HasHeight, Top, Recorded, Sound, After;
      PrefixOf(before, x);
      LoadRestores(before);
      RecordLast(before, x);
    }
  }

  lemma RecordLast(ps: seq<Payout>, x: Payout)
    requires |ps| < KEPT && !HasHeight(ps, x.height) && forall y :: y in ps ==> y.height > x.height
    ensures Recorded(ps, x) == ps + [x]
  {
    hide Insert, HasHeight;
    InsertLast(ps, x);
  }

  lemma PrefixOf(ps: seq<Payout>, x: Payout)
    requires Descending(ps + [x])
    ensures Descending(ps) && !HasHeight(ps, x.height)
    ensures forall y :: y in ps ==> y.height > x.height && y in ps + [x]
  {
    var more := ps + [x];
    forall i, j | 0 <= i < j < |ps| ensures ps[i].height > ps[j].height {
      assert more[i].height > more[j].height;
    }
    forall y | y in ps ensures y.height > x.height {
      var i :| 0 <= i < |ps| && ps[i] == y;
      assert more[i].height > more[|ps|].height;
    }
  }
}
