/** What the relay is for: while nobody closes it, a connection whose dial and handshakes
    succeed is carried, and no other connection is. */
module RelayCarries {
  import opened Relay
  import opened Runs
  import opened Wrappers

  /** Forwarder i copies between its two connections, both open and in the conns map: the one
      that it was started for and the only other one that belongs to it, which it dialled. */
  predicate Carrying(s: State, i: nat, r: nat) {
    && i < |s.fwds| && s.fwds[i].pc == Splicing(r)
    && r != s.fwds[i].local
    && (forall c :: 0 <= c < |s.table| ==>
          (s.table[c].owner == i <==> c == s.fwds[i].local || c == r))
    && r < |s.table| && s.table[r].open && s.table[r].tracked
    && s.fwds[i].local < |s.table| && s.table[s.fwds[i].local].open && s.table[s.fwds[i].local].tracked
  }

  /** No dial and no handshake of forwarder i, or of its child, has failed. */
  predicate AllWell(events: seq<Event>, i: nat) {
    Forward(i, false) !in events && Childs(i, false) !in events
  }

  // ---- the way to a splice ----

  predicate OnTheWay(f: Forwarder) {
    if f.zmq then
      || (f.pc.Start? && f.child.NoChild?)
      || ((f.pc.Handshaking? || f.pc.Receive?) &&
            (f.child.ChildDial? || f.child.ChildTrack? || f.child.ChildHandshake? ||
               (f.child.Sent? && f.child.d.Some?)))
      || (f.pc.Note? && f.pc.d.Some? && f.child.Taken?)
      || (f.pc.Splicing? && f.child.Taken?)
    else
      && f.child.NoChild?
      && (f.pc.Start? || f.pc.Dialling? || (f.pc.Note? && f.pc.d.Some?) || f.pc.TrackRemote? || f.pc.Splicing?)
  }

  /** Its connections are the local one and at most a remote one it knows of, and all are open. */
  predicate AllOpen(s: State, i: nat)
    requires i < |s.fwds|
  {
    forall c :: 0 <= c < |s.table| && s.table[c].owner == i ==>
      s.table[c].open && (c == s.fwds[i].local || Remote(s.fwds[i], c))
  }

  predicate Coming(s: State, i: nat) {
    i < |s.fwds| && OnTheWay(s.fwds[i]) && AllOpen(s, i)
  }

  lemma ComingSplices(s: State, i: nat)
    requires Inv(s) && Coming(s, i) && s.fwds[i].pc.Splicing?
    ensures Carrying(s, i, s.fwds[i].pc.r)
  {
    var f := s.fwds[i];
    assert Owns(s, i);
    assert TrackedRemote(f) == Some(f.pc.r) && UntrackedRemote(f) == None;
    assert ConnInv(s, f.local) && ConnInv(s, f.pc.r);
    hide ConnInv, Owns, Coherent, Running;
  }

  lemma ForwardStaysOnTheWay(f: Forwarder, next: nat)
    requires OnTheWay(f) && !f.pc.Splicing? && (f.pc.Receive? ==> f.child.Sent?)
    ensures var g, e := ForwardStep(f, false, next, true), ForwardEffect(f, false, true);
            && OnTheWay(g) && g.local == f.local && !e.Closes?
            && (forall c: nat :: Remote(f, c) ==> Remote(g, c)) && (e.Opens? ==> Remote(g, next))
  {
  }

  lemma ChildStaysOnTheWay(f: Forwarder, next: nat)
    requires OnTheWay(f) && !f.child.NoChild? && !f.child.Sent? && !f.child.Taken?
    ensures var g, e := ChildStep(f, false, next, true), ChildEffect(f, false, true);
            && OnTheWay(g) && g.local == f.local && !e.Closes?
            && (forall c: nat :: Remote(f, c) ==> Remote(g, c)) && (e.Opens? ==> Remote(g, next))
  {
  }

  lemma OwnStepStaysOpen(s: State, i: nat, g: Forwarder, e: Effect)
    requires Coming(s, i) && OnTheWay(g) && g.local == s.fwds[i].local && !e.Closes?
    requires forall c: nat :: Remote(s.fwds[i], c) ==> Remote(g, c)
    requires e.Opens? ==> Remote(g, |s.table|)
    ensures Coming(WithForwarder(s, i, g, e), i)
  {
    hide Remote, OnTheWay;
  }

  /** A step of another forwarder closes only what is its own. */
  lemma OtherStepStaysOpen(s: State, i: nat, j: nat, g: Forwarder, e: Effect)
    requires Coming(s, i) && j < |s.fwds| && j != i
    requires e.Closes? && e.c < |s.table| ==> s.table[e.c].owner == j
    ensures Coming(WithForwarder(s, j, g, e), i)
  {
    hide Remote, OnTheWay;
  }

  lemma ClosesItsOwn(s: State, j: nat, e: Effect)
    requires Inv(s) && j < |s.fwds| && e.Closes? && (e.c == s.fwds[j].local || Remote(s.fwds[j], e.c))
    ensures e.c < |s.table| && s.table[e.c].owner == j
  {
    assert Owns(s, j);
    hide ConnInv, Coherent, Running, TrackedRemote, UntrackedRemote;
  }

  lemma ForwardCloses(f: Forwarder, closed: bool, ok: bool)
    requires Coherent(f) && ForwardEffect(f, closed, ok).Closes?
    ensures var c := ForwardEffect(f, closed, ok).c; c == f.local || Remote(f, c)
  {
  }

  lemma ChildCloses(f: Forwarder, closed: bool, ok: bool)
    requires Coherent(f) && !f.child.NoChild? && ChildEffect(f, closed, ok).Closes?
    ensures Remote(f, ChildEffect(f, closed, ok).c)
  {
  }

  lemma ForwardKeepsComing(s: State, i: nat, j: nat, ok: bool)
    requires Inv(s) && !s.closed && Coming(s, i) && Enabled(s, Forward(j, ok))
    requires j == i ==> ok && !s.fwds[i].pc.Splicing?
    ensures Coming(Next(s, Forward(j, ok)), i)
  {
    var f, e := s.fwds[j], ForwardEffect(s.fwds[j], s.closed, ok);
    assert Coherent(f);
    hide Inv, Coherent, AllOpen, ForwardStep, ForwardEffect, WithForwarder, Remote, OnTheWay;
    if j == i {
      ForwardStaysOnTheWay(f, |s.table|);
      OwnStepStaysOpen(s, i, ForwardStep(f, false, |s.table|, true), e);
    } else {
      if e.Closes? {
        ForwardCloses(f, s.closed, ok);
        ClosesItsOwn(s, j, e);
      }
      OtherStepStaysOpen(s, i, j, ForwardStep(f, s.closed, |s.table|, ok), e);
    }
  }

  lemma ChildKeepsComing(s: State, i: nat, j: nat, ok: bool)
    requires Inv(s) && !s.closed && Coming(s, i) && Enabled(s, Childs(j, ok))
    requires j == i ==> ok
    ensures Coming(Next(s, Childs(j, ok)), i)
  {
    var f, e := s.fwds[j], ChildEffect(s.fwds[j], s.closed, ok);
    assert Coherent(f);
    hide Inv, Coherent, AllOpen, ChildStep, ChildEffect, WithForwarder, Remote, OnTheWay;
    if j == i {
      ChildStaysOnTheWay(f, |s.table|);
      OwnStepStaysOpen(s, i, ChildStep(f, false, |s.table|, true), e);
    } else {
      if e.Closes? {
        ChildCloses(f, s.closed, ok);
        ClosesItsOwn(s, j, e);
      }
      OtherStepStaysOpen(s, i, j, ChildStep(f, s.closed, |s.table|, ok), e);
    }
  }

  lemma AcceptorsKeepComing(s: State, i: nat, e: Event)
    requires Inv(s) && Enabled(s, e) && (e.Accept? || e.AcceptError? || e.Spawn?) && Coming(s, i)
    ensures Coming(Next(s, e), i)
  {
    assert HandingInv(s, false) && HandingInv(s, true);
    hide Inv, Coherent, OnTheWay, Remote;
  }

  lemma SpawnedIsComing(s: State, zmq: bool)
    requires Inv(s) && Enabled(s, Spawn(zmq))
    ensures Coming(Next(s, Spawn(zmq)), |s.fwds|)
  {
    var k := AcceptorOf(s, zmq).c;
    assert HandingInv(s, false) && HandingInv(s, true);
    assert ConnInv(s, k);
    forall c | 0 <= c < |s.table|
      ensures s.table[c].owner < |s.fwds|
    {
      assert ConnInv(s, c);
    }
    hide Coherent, Remote, Running, IsTracked, Owns, ConnInv;
  }

  /** Before Close, one step of anybody. */
  lemma StepKeepsComing(s: State, i: nat, e: Event)
    requires Inv(s) && Enabled(s, e) && Next(s, e).closer.NotCalled? && Coming(s, i)
    requires e != Forward(i, false) && e != Childs(i, false) && (s.fwds[i].pc.Splicing? ==> e != Forward(i, true))
    ensures Coming(Next(s, e), i)
  {
    match e
    case Forward(j, ok) =>
      hide ForwardStep, ForwardEffect, AllOpen, OnTheWay, Coherent, ForwardEnabled;
      ForwardKeepsComing(s, i, j, ok);
    case Childs(j, ok) => ChildKeepsComing(s, i, j, ok);
    case CloseConn(_) =>
    case _ => AcceptorsKeepComing(s, i, e);
  }

  // ---- whole runs ----

  lemma RunOfNone(s: State)
    ensures IsRun(StepsTo, s, [], s)
  {
  }

  lemma RunOfOne(s: State, e: Event, t: State)
    requires StepsTo(s, e, t)
    ensures IsRun(StepsTo, s, [e], t)
  {
    hide StepsTo;
    assert IsRun(StepsTo, s, [], s);
    Append(StepsTo, s, [], s, e, t);
    assert [] + [e] == [e];
  }

  lemma BeforeClose(s: State, i: nat, e: Event)
    requires Enabled(s, e) && Next(s, e).closer.NotCalled? && i < |Next(s, e).fwds|
    ensures s.closer.NotCalled?
    ensures i >= |s.fwds| ==> e.Spawn? && i == |s.fwds|
  {
    hide ForwardStep, ForwardEffect, ChildStep, ChildEffect, Apply;
  }

  /** After the first k events forwarder i was carrying, at u, or it is on its way there. */
  ghost predicate Way(events: seq<Event>, s: State, i: nat, k: nat, u: State, r: nat) {
    && k <= |events| && IsRun(StepsTo, Init(), events[..k], u) && IsRun(StepsTo, u, events[k..], s)
    && if k == |events| then u == s && Coming(s, i) else Carrying(u, i, r)
  }

  lemma WayNow(events: seq<Event>, s: State, i: nat)
    requires IsRun(StepsTo, Init(), events, s) && Coming(s, i)
    ensures Way(events, s, i, |events|, s, 0)
  {
    hide Coming;
    assert events[|events|..] == [] && events[..|events|] == events;
  }

  lemma WayGoesOn(events: seq<Event>, q: State, e: Event, s: State, i: nat, k: nat, u: State, r: nat)
    requires Way(events, q, i, k, u, r) && k < |events| && StepsTo(q, e, s)
    ensures Way(events + [e], s, i, k, u, r)
  {
    hide StepsTo, Coming, Carrying, IsRun;
    assert (events + [e])[..k] == events[..k] && (events + [e])[k..] == events[k..] + [e];
    Append(StepsTo, u, events[k..], q, e, s);
  }

  lemma WayBegins(events: seq<Event>, q: State, e: Event, s: State, i: nat)
    requires IsRun(StepsTo, Init(), events, q) && StepsTo(q, e, s) && Inv(q)
    requires Coming(q, i) && q.fwds[i].pc.Splicing?
    ensures Way(events + [e], s, i, |events|, q, q.fwds[i].pc.r)
  {
    ComingSplices(q, i);
    RunOfOne(q, e, s);
    hide StepsTo, Carrying, IsRun, Inv;
    assert (events + [e])[..|events|] == events && (events + [e])[|events|..] == [e];
  }

  lemma WayStep(events: seq<Event>, q: State, e: Event, s: State, i: nat) returns (k: nat, u: State, r: nat)
    requires IsRun(StepsTo, Init(), events, q) && StepsTo(q, e, s) && s.closer.NotCalled?
    requires i < |q.fwds| && Coming(q, i) && e != Forward(i, false) && e != Childs(i, false)
    ensures Way(events + [e], s, i, k, u, r)
  {
    RunsKeepInv(events, q);
    hide Inv, Enabled, Next, Way, IsRun, OnTheWay, AllOpen;
    if q.fwds[i].pc.Splicing? && e == Forward(i, true) {
      WayBegins(events, q, e, s, i);
      k, u, r := |events|, q, q.fwds[i].pc.r;
    } else {
      StepKeepsComing(q, i, e);
      Append(StepsTo, Init(), events, q, e, s);
      WayNow(events + [e], s, i);
      k, u, r := |events| + 1, s, 0;
    }
  }

  lemma WayStarts(events: seq<Event>, q: State, e: Event, s: State, i: nat)
    requires IsRun(StepsTo, Init(), events, q) && StepsTo(q, e, s) && e.Spawn? && i == |q.fwds|
    ensures Way(events + [e], s, i, |events| + 1, s, 0)
  {
    RunsKeepInv(events, q);
    hide Inv, Next, Way, IsRun, Coming, Enabled;
    SpawnedIsComing(q, e.zmq);
    Append(StepsTo, Init(), events, q, e, s);
    WayNow(events + [e], s, i);
  }

  /** Before Close, with all well: the splice has begun, or everything it needs is open. */
  lemma {:induction false} WayOfRun(events: seq<Event>, s: State, i: nat) returns (k: nat, u: State, r: nat)
    requires IsRun(StepsTo, Init(), events, s) && s.closer.NotCalled?
    requires i < |s.fwds| && AllWell(events, i)
    ensures Way(events, s, i, k, u, r)
    decreases |events|
  {
    NoForwarderYet(events, s);
    var n := |events| - 1;
    var before, e := events[..n], events[n];
    var q :| IsRun(StepsTo, Init(), before, q) && StepsTo(q, e, s);
    assert events == before + [e];
    ForwarderBefore(q, e, s, i);
    AllWellBefore(before, e, i);
    hide *;
    if i < |q.fwds| {
      k, u, r := WayOfRun(before, q, i);
      if k < n {
        WayGoesOn(before, q, e, s, i, k, u, r);
      } else {
        IsComing(before, q, i, k, u, r);
        k, u, r := WayStep(before, q, e, s, i);
      }
    } else {
      WayStarts(before, q, e, s, i);
      k, u, r := n + 1, s, 0;
    }
  }

  lemma AllWellBefore(events: seq<Event>, e: Event, i: nat)
    requires AllWell(events + [e], i)
    ensures AllWell(events, i) && e != Forward(i, false) && e != Childs(i, false)
  {
    assert e in events + [e];
  }

  lemma ForwarderBefore(q: State, e: Event, s: State, i: nat)
    requires StepsTo(q, e, s) && s.closer.NotCalled? && i < |s.fwds|
    ensures q.closer.NotCalled? && (i >= |q.fwds| ==> e.Spawn? && i == |q.fwds|)
  {
    BeforeClose(q, i, e);
    hide Enabled, Next;
  }

  lemma NoForwarderYet(events: seq<Event>, s: State)
    requires IsRun(StepsTo, Init(), events, s) && |s.fwds| > 0
    ensures events != []
  {
  }

  lemma IsComing(events: seq<Event>, s: State, i: nat, k: nat, u: State, r: nat)
    requires Way(events, s, i, k, u, r) && k >= |events|
    ensures Coming(s, i)
  {
    hide Coming;
  }

  // ---- going on ----

  function ToGo(f: Forwarder): nat {
    (match f.child
     case ChildDial => 3
     case ChildTrack(_) => 2
     case ChildHandshake(_) => 1
     case _ => 0)
    + (match f.pc
       case Start => if f.zmq then 7 else 4
       case Dialling => 3
       case Handshaking => 3
       case Receive => 2
       case Note(_) => if f.zmq then 1 else 2
       case TrackRemote(_) => 1
       case _ => 0)
  }

  lemma NextOnTheWay(s: State, i: nat) returns (e: Event)
    requires Inv(s) && s.closer.NotCalled? && Coming(s, i) && !s.fwds[i].pc.Splicing?
    ensures (e == Forward(i, true) || e == Childs(i, true)) && Enabled(s, e)
    ensures Next(s, e).closer.NotCalled? && i < |Next(s, e).fwds| && ToGo(Next(s, e).fwds[i]) < ToGo(s.fwds[i])
  {
    var f := s.fwds[i];
    OpenForHandshakes(s, i);
    e := if f.zmq && (f.child.ChildDial? || f.child.ChildTrack? || f.child.ChildHandshake?)
         then Childs(i, true) else Forward(i, true);
    if e.Forward? {
      ForwardComesCloser(f, |s.table|);
    } else {
      ChildComesCloser(f, |s.table|);
    }
    hide Inv, Apply, AllOpen, ForwardEffect, ChildEffect, ForwardStep, ChildStep, ToGo;
  }

  lemma ForwardComesCloser(f: Forwarder, next: nat)
    requires OnTheWay(f) && !f.pc.Splicing? && (f.pc.Receive? ==> f.child.Sent?)
    ensures ToGo(ForwardStep(f, false, next, true)) < ToGo(f)
  {
  }

  lemma ChildComesCloser(f: Forwarder, next: nat)
    requires f.child.ChildDial? || f.child.ChildTrack? || f.child.ChildHandshake?
    ensures ToGo(ChildStep(f, false, next, true)) < ToGo(f)
  {
  }

  lemma OpenForHandshakes(s: State, i: nat)
    requires Inv(s) && Coming(s, i)
    ensures !s.closed <==> s.closer.NotCalled?
    ensures s.fwds[i].local < |s.table| && s.table[s.fwds[i].local].open
    ensures s.fwds[i].child.ChildHandshake? ==>
      s.fwds[i].child.r < |s.table| && s.table[s.fwds[i].child.r].open
  {
    assert Owns(s, i);
    hide ConnInv, Coherent, Running;
  }

  /** All that is asked of the rest of the way. */
  ghost predicate GoesOn(events: seq<Event>, s: State, i: nat, more: seq<Event>, u: State, r: nat) {
    && IsRun(StepsTo, Init(), events + more, u) && Carrying(u, i, r)
    && i < |s.fwds| && |more| <= ToGo(s.fwds[i])
    && forall e :: e in more ==> e == Forward(i, true) || e == Childs(i, true)
  }

  lemma AlreadyThere(events: seq<Event>, s: State, i: nat)
    requires IsRun(StepsTo, Init(), events, s) && Inv(s) && Coming(s, i) && s.fwds[i].pc.Splicing?
    ensures GoesOn(events, s, i, [], s, s.fwds[i].pc.r)
  {
    ComingSplices(s, i);
    assert events + [] == events;
    hide IsRun, Inv, Coming, Carrying;
  }

  lemma StepFirst(events: seq<Event>, s: State, e: Event, t: State, i: nat, rest: seq<Event>, u: State, r: nat)
    requires GoesOn(events + [e], t, i, rest, u, r) && (e == Forward(i, true) || e == Childs(i, true))
    requires i < |s.fwds| && ToGo(t.fwds[i]) < ToGo(s.fwds[i])
    ensures GoesOn(events, s, i, [e] + rest, u, r)
  {
    hide IsRun, Carrying, ToGo;
    assert events + ([e] + rest) == events + [e] + rest;
  }

  lemma {:induction false} GoOn(events: seq<Event>, s: State, i: nat) returns (more: seq<Event>, u: State, r: nat)
    requires IsRun(StepsTo, Init(), events, s) && s.closer.NotCalled? && Coming(s, i)
    ensures GoesOn(events, s, i, more, u, r)
    decreases ToGo(s.fwds[i])
  {
    RunsKeepInv(events, s);
    hide Inv, Enabled, Next, IsRun, OnTheWay, AllOpen, ToGo, GoesOn;
    if s.fwds[i].pc.Splicing? {
      AlreadyThere(events, s, i);
      more, u, r := [], s, s.fwds[i].pc.r;
    } else {
      var e := NextOnTheWay(s, i);
      var t := Next(s, e);
      StepKeepsComing(s, i, e);
      Append(StepsTo, Init(), events, s, e, t);
      var rest;
      rest, u, r := GoOn(events + [e], t, i);
      StepFirst(events, s, e, t, i, rest, u, r);
      more := [e] + rest;
    }
  }

  // ---- what the relay promises ----

  /** In every run in which Close has not been called, a connection none of whose dials and
      handshakes failed is being carried, has been, or comes to be by at most seven steps of
      its own forwarder and child, all of which go well; until then nothing of it is closed. */
  lemma CarriesWhatIsWell(events: seq<Event>, s: State, i: nat)
    returns (k: nat, more: seq<Event>, u: State, r: nat)
    requires IsRun(StepsTo, Init(), events, s) && s.closer.NotCalled?
    requires i < |s.fwds| && Forward(i, false) !in events && Childs(i, false) !in events
    ensures k <= |events| && IsRun(StepsTo, Init(), events[..k] + more, u) && Carrying(u, i, r)
    ensures k < |events| ==> more == [] && IsRun(StepsTo, u, events[k..], s)
    ensures |more| <= 7 && forall e :: e in more ==> e == Forward(i, true) || e == Childs(i, true)
    ensures k == |events| ==> forall c :: 0 <= c < |s.table| && s.table[c].owner == i ==> s.table[c].open
  {
    k, u, r := WayOfRun(events, s, i);
    more := [];
    hide IsRun, Carrying, OnTheWay, ToGo;
    if k == |events| {
      assert events[..k] == events;
      more, u, r := GoOn(events, s, i);
      AtMostSeven(s.fwds[i]);
    } else {
      assert events[..k] + [] == events[..k];
    }
  }

  lemma AtMostSeven(f: Forwarder)
    requires OnTheWay(f)
    ensures ToGo(f) <= 7
  {
  }

  // ---- nothing else is carried ----

  /** How many steps a forwarder on the way has taken, and how many its child has. */
  predicate Tally(f: Forwarder, own: nat, child: nat, ownFailed: nat, childFailed: nat) {
    && (f.pc.Start? ==> own == 0 && ownFailed == 0)
    && (f.pc.Dialling? || f.pc.Handshaking? ==> own == 1 && ownFailed == 0)
    && (f.pc.Receive? || (f.pc.Note? && f.pc.d.Some? && !f.zmq) ==> own == 2 && ownFailed == 0)
    && ((f.pc.Note? && f.zmq) || f.pc.TrackRemote? ==> own == 3 && ownFailed == 0)
    && (f.pc.Splicing? ==> own == 4 && ownFailed == 0)
    && (f.child.NoChild? || f.child.ChildDial? ==> child == 0 && childFailed == 0)
    && (f.child.ChildTrack? ==> child == 1 && childFailed == 0)
    && (f.child.ChildHandshake? ==> child == 2 && childFailed == 0)
    && (f.child.Sent? && f.child.d.Some? ==> child == 3 && childFailed == 0)
    && (f.zmq && (f.pc.Splicing? || (f.pc.Note? && f.pc.d.Some?)) ==> child == 3 && childFailed == 0)
  }

  predicate Tallied(s: State, i: nat, m: multiset<Event>) {
    if i < |s.fwds| then
      Tally(s.fwds[i], m[Forward(i, true)], m[Childs(i, true)], m[Forward(i, false)], m[Childs(i, false)])
    else
      m[Forward(i, true)] == m[Childs(i, true)] == m[Forward(i, false)] == m[Childs(i, false)] == 0
  }

  lemma ForwardTallies(f: Forwarder, closed: bool, next: nat, ok: bool,
      own: nat, child: nat, ownFailed: nat, childFailed: nat)
    requires Coherent(f) && Tally(f, own, child, ownFailed, childFailed) && !f.pc.Finished?
    requires (ok || f.pc.Dialling? || f.pc.Handshaking?) && (f.pc.Receive? || f.pc.AbandonWait? ==> f.child.Sent?)
    ensures var g := ForwardStep(f, closed, next, ok);
            if ok then Tally(g, own + 1, child, ownFailed, childFailed)
            else Tally(g, own, child, ownFailed + 1, childFailed)
  {
    hide TrackedRemote;
  }

  lemma ChildTallies(f: Forwarder, closed: bool, next: nat, ok: bool,
      own: nat, child: nat, ownFailed: nat, childFailed: nat)
    requires Coherent(f) && Tally(f, own, child, ownFailed, childFailed)
    requires !f.child.NoChild? && !f.child.Taken? && !f.child.Sent?
    requires ok || f.child.ChildDial? || f.child.ChildHandshake?
    ensures var g := ChildStep(f, closed, next, ok);
            if ok then Tally(g, own, child + 1, ownFailed, childFailed)
            else Tally(g, own, child, ownFailed, childFailed + 1)
  {
    assert f.pc.Splicing? ==> TrackedRemote(f.(child := Taken)).Some?;
  }

  lemma {:induction false} RunIsTallied(events: seq<Event>, s: State, i: nat)
    requires IsRun(StepsTo, Init(), events, s)
    ensures Tallied(s, i, multiset(events))
    decreases |events|
  {
    if events != [] {
      var n := |events| - 1;
      var before, e := events[..n], events[n];
      var q :| IsRun(StepsTo, Init(), before, q) && StepsTo(q, e, s);
      assert events == before + [e];
      hide Inv, Enabled, Next, IsRun, Tallied;
      RunIsTallied(before, q, i);
      RunsKeepInv(before, q);
      StepIsTallied(q, e, i, multiset(before));
    }
  }

  lemma ForwardIsTallied(s: State, j: nat, ok: bool, i: nat, m: multiset<Event>)
    requires Inv(s) && Enabled(s, Forward(j, ok)) && Tallied(s, i, m)
    ensures Tallied(Next(s, Forward(j, ok)), i, m + multiset{Forward(j, ok)})
  {
    var f := s.fwds[j];
    assert Coherent(f);
    hide Inv, Coherent, ForwardStep, ForwardEffect, Apply, Tally;
    if j == i {
      ForwardTallies(f, s.closed, |s.table|, ok, m[Forward(i, true)], m[Childs(i, true)],
                     m[Forward(i, false)], m[Childs(i, false)]);
    }
  }

  lemma ChildIsTallied(s: State, j: nat, ok: bool, i: nat, m: multiset<Event>)
    requires Inv(s) && Enabled(s, Childs(j, ok)) && Tallied(s, i, m)
    ensures Tallied(Next(s, Childs(j, ok)), i, m + multiset{Childs(j, ok)})
  {
    var f := s.fwds[j];
    assert Coherent(f);
    hide Inv, Coherent, ChildStep, ChildEffect, Apply, Tally;
    if j == i {
      ChildTallies(f, s.closed, |s.table|, ok, m[Forward(i, true)], m[Childs(i, true)],
                   m[Forward(i, false)], m[Childs(i, false)]);
    }
  }

  lemma StepIsTallied(s: State, e: Event, i: nat, m: multiset<Event>)
    requires Inv(s) && Enabled(s, e) && Tallied(s, i, m)
    ensures Tallied(Next(s, e), i, m + multiset{e})
  {
    hide Inv;
    match e
    case Forward(j, ok) =>
      hide Next, Enabled, Tallied;
      ForwardIsTallied(s, j, ok, i, m);
    case Childs(j, ok) =>
      hide Next, Enabled, Tallied;
      ChildIsTallied(s, j, ok, i, m);
    case _ =>
  }

  /** What is being carried was dialled and greeted: in every run, closed or not, a forwarder
      that splices has taken its four steps, its child the three of a successful dial, track
      and handshake when it has one, and no dial or handshake of theirs failed. */
  lemma CarriesOnlyWhatIsWell(events: seq<Event>, s: State, i: nat)
    requires IsRun(StepsTo, Init(), events, s) && i < |s.fwds| && s.fwds[i].pc.Splicing?
    ensures Forward(i, false) !in events && Childs(i, false) !in events
    ensures multiset(events)[Forward(i, true)] == 4
    ensures multiset(events)[Childs(i, true)] == if s.fwds[i].zmq then 3 else 0
  {
    RunIsTallied(events, s, i);
    RunsKeepInv(events, s);
    assert Coherent(s.fwds[i]);
    hide Inv, IsRun, Coherent;
    assert Childs(i, false) in events ==> multiset(events)[Childs(i, false)] > 0;
    assert Forward(i, false) in events ==> multiset(events)[Forward(i, false)] > 0;
  }
}
