/**
 When an older response can take the place of a newer one in the snapshot cache: only while some
 download that leads a flight of an earlier epoch has asked in the current one.
 */
module SnapshotOrder {
  import opened SnapshotCache

  /** A leader that asked in this epoch although its flight began in an earlier one. */
  predicate Stray(s: State, i: nat)
    requires i < |s.downloads|
  {
    var d := s.downloads[i];
    && d.asked == Some(s.cache.epoch)
    && d.flight < |s.cache.flights| && s.cache.flights[d.flight].epoch < s.cache.epoch
  }

  predicate Strays(s: State) { exists i :: 0 <= i < |s.downloads| && Stray(s, i) }

  predicate Leads(d: Download) { d.leader && !d.phase.Returned? }

  // Leads a flight of the current epoch.
  predicate AtHome(s: State, d: Download) {
    Leads(d) && d.flight < |s.cache.flights| && s.cache.flights[d.flight].epoch == s.cache.epoch
  }

  predicate Newer(s: State, d: Download) {
    AtHome(s, d) && s.cache.valid && d.phase.Replied? && d.phase.at == s.cache.epoch && d.phase.reply.Body? ==>
      s.cache.snapshot <= d.phase.reply.version
  }

  predicate SingleLeaders(s: State) {
    forall i, j :: 0 <= i < |s.downloads| && 0 <= j < |s.downloads| && i != j && s.downloads[i].leader && s.downloads[j].leader ==>
      s.downloads[i].flight != s.downloads[j].flight
  }

  predicate Listed(s: State) {
    forall i :: 0 <= i < |s.downloads| && AtHome(s, s.downloads[i]) ==> s.cache.flight == Some(s.downloads[i].flight)
  }

  predicate AsksNoted(s: State) {
    forall i :: 0 <= i < |s.downloads| && (s.downloads[i].phase.Asked? || s.downloads[i].phase.Replied?) ==>
      s.downloads[i].asked == Some(s.downloads[i].phase.at)
  }

  predicate NewerAtHome(s: State) {
    Strays(s) || forall i :: 0 <= i < |s.downloads| ==> Newer(s, s.downloads[i])
  }

  predicate Ordered(s: State) {
    Invariant(s) && SingleLeaders(s) && Listed(s) && AsksNoted(s) && NewerAtHome(s)
  }

  lemma FlightsAreOld(s: State, i: nat)
    requires Invariant(s) && i < |s.downloads|
    ensures s.downloads[i].flight < |s.cache.flights| && s.cache.flights[s.downloads[i].flight].epoch <= s.cache.epoch
  {
    assert DownloadFits(s, i);
  }

  lemma SingleLeadersStay(s: State, e: Event)
    requires Invariant(s) && SingleLeaders(s) && Enabled(s, e)
    ensures SingleLeaders(Next(s, e))
  {
    var t := Next(s, e);
    forall i, j | 0 <= i < |t.downloads| && 0 <= j < |t.downloads| && i != j && t.downloads[i].leader && t.downloads[j].leader
      ensures t.downloads[i].flight != t.downloads[j].flight
    {
      if i < |s.downloads| { FlightsAreOld(s, i); }
      if j < |s.downloads| { FlightsAreOld(s, j); }
    }
  }

  lemma AsksStayNoted(s: State, e: Event)
    requires AsksNoted(s) && Enabled(s, e)
    ensures AsksNoted(Next(s, e))
  {
  }

  lemma EpochStep(s: State, e: Event)
    requires Invariant(s) && Enabled(s, e)
    ensures s.cache.epoch <= Next(s, e).cache.epoch
    ensures Next(s, e).cache.epoch != s.cache.epoch ==> !Next(s, e).cache.valid
  {
  }

  // Only a begin and an end touch the listed flight.
  lemma ListedStay(s: State, e: Event)
    requires Invariant(s) && SingleLeaders(s) && Listed(s) && Enabled(s, e)
    ensures Listed(Next(s, e))
  {
    var t := Next(s, e);
    EpochStep(s, e);
    forall i | 0 <= i < |t.downloads| && AtHome(t, t.downloads[i])
      ensures t.cache.flight == Some(t.downloads[i].flight)
    {
      if i < |s.downloads| {
        FlightsAreOld(s, i);
        assert AtHome(s, s.downloads[i]);
        if e.Finish? { assert DownloadFits(s, e.d) && i != e.d; }
      }
    }
  }

  lemma StraysStay(s: State, e: Event)
    requires Ordered(s) && Strays(s) && Enabled(s, e) && Next(s, e).cache.epoch == s.cache.epoch
    ensures Strays(Next(s, e))
  {
    var t := Next(s, e);
    var i :| 0 <= i < |s.downloads| && Stray(s, i);
    assert Stray(t, i);
  }

  // A response that gets into the cache is a stray's or that of the only leader at home.
  lemma ReceiverIsAlone(s: State, d: nat, i: nat)
    requires Ordered(s) && Enabled(s, Receive(d)) && s.downloads[d].phase.at == s.cache.epoch
    requires i < |s.downloads| && i != d && AtHome(s, s.downloads[i])
    ensures Stray(s, d)
  {
    FlightsAreOld(s, d);
    assert DownloadFits(s, d);
    if AtHome(s, s.downloads[d]) {
      assert false;
    }
  }

  lemma ReceiveStaysNewer(s: State, d: nat, i: nat)
    requires Ordered(s) && Enabled(s, Receive(d)) && !Strays(s) && i < |s.downloads|
    ensures Newer(Next(s, Receive(d)), Next(s, Receive(d)).downloads[i])
  {
    var t := Next(s, Receive(d));
    if AtHome(t, t.downloads[i]) && t.cache.valid {
      EpochStep(s, Receive(d));
      assert Newer(s, s.downloads[i]);
      if i != d && t.cache != s.cache {
        ReceiverIsAlone(s, d, i);
        assert false;
      }
    }
  }

  lemma OthersStayNewer(s: State, e: Event, i: nat)
    requires Ordered(s) && Enabled(s, e) && !e.Receive? && !Strays(s) && i < |Next(s, e).downloads|
    ensures Newer(Next(s, e), Next(s, e).downloads[i])
  {
    EpochStep(s, e);
    if i < |s.downloads| {
      FlightsAreOld(s, i);
      assert Newer(s, s.downloads[i]);
    }
  }

  lemma NewerStay(s: State, e: Event)
    requires Ordered(s) && Enabled(s, e)
    ensures NewerAtHome(Next(s, e))
  {
    var t := Next(s, e);
    EpochStep(s, e);
    if t.cache.epoch == s.cache.epoch {
      if Strays(s) {
        StraysStay(s, e);
      } else {
        hide Ordered, Strays, Newer;
        forall i | 0 <= i < |t.downloads| ensures Newer(t, t.downloads[i]) {
          if e.Receive? { ReceiveStaysNewer(s, e.d, i); } else { OthersStayNewer(s, e, i); }
        }
      }
    }
  }

  lemma OrderedStep(s: State, e: Event)
    requires Ordered(s) && Enabled(s, e)
    ensures Ordered(Next(s, e))
  {
    hide Invariant, SingleLeaders, Listed, AsksNoted, NewerAtHome, Enabled;
    StepKeeps(s, e);
    SingleLeadersStay(s, e);
    ListedStay(s, e);
    AsksStayNoted(s, e);
    NewerStay(s, e);
  }

  lemma {:induction false} OrderedRun(s: State, events: seq<Event>, t: State)
    requires Ordered(s) && Reaches(s, events, t)
    ensures Ordered(t)
    decreases |events|
  {
    hide Ordered;
    if events != [] {
      OrderedStep(s, events[0]);
      OrderedRun(Next(s, events[0]), events[1..], t);
    }
  }

  lemma ReachableIsOrdered(s: State)
    requires Reachable(s)
    ensures Ordered(s)
  {
    var hub, events :| Reaches(Start(hub), events, s);
    OrderedRun(Start(hub), events, s);
  }

  lemma OnlyStraysLower(s: State, e: Event)
    requires Ordered(s) && Enabled(s, e) && s.cache.valid
    requires Next(s, e).cache.valid && Next(s, e).cache.snapshot < s.cache.snapshot
    ensures Strays(s)
  {
    assert e.Receive?;
    assert DownloadFits(s, e.d);
    FlightsAreOld(s, e.d);
    if !AtHome(s, s.downloads[e.d]) {
      assert Stray(s, e.d);
    } else if !Strays(s) && Newer(s, s.downloads[e.d]) {
      assert false;
    }
  }

  /**
   In every reachable state, a step can leave an older version in place of a newer one only after a
   leader of an earlier epoch's flight has asked in the current epoch.
   */
  lemma OlderWinsOnlyThroughStrays(s: State, e: Event)
    requires Reachable(s) && Enabled(s, e) && s.cache.valid
    requires Next(s, e).cache.valid && Next(s, e).cache.snapshot < s.cache.snapshot
    ensures e.Receive? && Strays(s)
  {
    ReachableIsOrdered(s);
    OnlyStraysLower(s, e);
  }

  lemma StepRises(s: State, e: Event)
    requires Ordered(s) && Enabled(s, e) && s.cache.valid && Next(s, e).cache.epoch == s.cache.epoch
    ensures Next(s, e).cache.valid
    ensures Strays(s) || s.cache.snapshot <= Next(s, e).cache.snapshot
  {
    if Next(s, e).cache.snapshot < s.cache.snapshot { OnlyStraysLower(s, e); }
  }

  lemma {:induction false} RunRises(s: State, events: seq<Event>, t: State)
    requires Ordered(s) && Reaches(s, events, t) && s.cache.epoch == t.cache.epoch
    ensures Strays(s) ==> Strays(t)
    ensures s.cache.valid ==> t.cache.valid && (Strays(t) || s.cache.snapshot <= t.cache.snapshot)
    decreases |events|
  {
    hide Ordered, Strays;
    if events != [] {
      var next := Next(s, events[0]);
      OrderedStep(s, events[0]);
      EpochGrows(s, [events[0]], next);
      EpochGrows(next, events[1..], t);
      RunRises(next, events[1..], t);
      if Strays(s) { StraysStay(s, events[0]); }
      if s.cache.valid { StepRises(s, events[0]); }
    }
  }

  /**
   Within one epoch a valid entry stays valid, and the stored version never falls, as long as every
   leader asks in the epoch its flight began in.
   */
  lemma VersionsOnlyRise(s: State, events: seq<Event>, t: State)
    requires Reachable(s) && Reaches(s, events, t) && s.cache.epoch == t.cache.epoch && s.cache.valid
    ensures t.cache.valid
    ensures !Strays(t) ==> s.cache.snapshot <= t.cache.snapshot
  {
    ReachableIsOrdered(s);
    RunRises(s, events, t);
  }

  lemma Continue(s: State, events: seq<Event>, t: State, e: Event) returns (more: seq<Event>, u: State)
    requires Reaches(s, events, t) && Enabled(t, e)
    ensures Reaches(s, more, u) && u == Next(t, e)
  {
    more, u := events + [e], Next(t, e);
    Extend(s, events, t, e);
  }

  /**
   The condition cannot be dropped: wherever a leader has yet to ask while no flight of the current
   epoch is listed, a run follows in which its older response takes the place of a newer one.
   */
  lemma OlderResponseCanWin(s: State, d: nat) returns (events: seq<Event>, t: State)
    requires d < |s.downloads| && s.downloads[d].phase.Fresh? && !Shareable(s.cache)
    ensures Reaches(s, events, t) && Enabled(t, Receive(d)) && t.cache.valid
    ensures Next(t, Receive(d)).cache.valid && Next(t, Receive(d)).cache.snapshot < t.cache.snapshot
  {
    hide Reaches;
    var e := |s.downloads|;
    events, t := AskedAndAnswered(s, d);
    events, t := Continue(s, events, t, OtherPush);
    events, t := Continue(s, events, t, Begin);
    events, t := Continue(s, events, t, Ask(e));
    events, t := Continue(s, events, t, Answer(e, Body(s.hub + 1, true)));
    events, t := Continue(s, events, t, Receive(e));
  }

  lemma AskedAndAnswered(s: State, d: nat) returns (events: seq<Event>, t: State)
    requires d < |s.downloads| && s.downloads[d].phase.Fresh?
    ensures Reaches(s, events, t) && t.cache == s.cache && t.hub == s.hub && |t.downloads| == |s.downloads|
    ensures t.downloads[d].phase.Replied? && t.downloads[d].phase.at == s.cache.epoch
    ensures t.downloads[d].phase.reply == Body(s.hub, true)
  {
    assert Reaches(s, [], s);
    hide Reaches;
    events, t := Continue(s, [], s, Ask(d));
    events, t := Continue(s, events, t, Answer(d, Body(s.hub, true)));
  }
}
