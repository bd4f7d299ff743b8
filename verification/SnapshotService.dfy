/**
 What the snapshot cache is for: a download ends after two requests at most, everyone who joined it
 gets what its leader got, and what nobody disturbed is the hub's answer.
 */
module SnapshotService {
  import opened SnapshotCache

  // ----- Leaders and those who joined -----

  predicate LeadsFlight(s: State, d: nat, f: nat) { d < |s.downloads| && s.downloads[d].leader && s.downloads[d].flight == f }

  // A leader's flight has no result before the leader returns, and its outcome afterwards.
  predicate RoleFits(s: State, d: nat)
    requires d < |s.downloads|
  {
    var download := s.downloads[d];
    && download.flight < |s.cache.flights|
    && var result := s.cache.flights[download.flight].result;
       if download.leader then !download.phase.Waiting? && result == if download.phase.Returned? then Some(download.phase.outcome) else None
       else
         && (download.phase.Waiting? || download.phase.Returned?)
         && (download.phase.Returned? && download.phase.outcome.Snapshot? ==> result == Some(download.phase.outcome))
  }

  predicate Listed(c: Cache) {
    var last := |c.flights| - 1;
    c.flight == if last >= 0 && c.flights[last].result == None then Some(last) else None
  }

  ghost predicate Roles(s: State) {
    && Listed(s.cache)
    && (forall d :: 0 <= d < |s.downloads| ==> RoleFits(s, d))
    && (forall f :: 0 <= f < |s.cache.flights| ==> HasLeader(s, f))
    && (forall d: nat, e: nat, f: nat :: LeadsFlight(s, d, f) && LeadsFlight(s, e, f) ==> d == e)
  }

  ghost predicate HasLeader(s: State, f: nat) { exists d: nat :: LeadsFlight(s, d, f) }

  lemma BeginRoles(s: State)
    requires Roles(s)
    ensures Roles(Next(s, Begin))
  {
    var t := Next(s, Begin);
    forall d | 0 <= d < |t.downloads| ensures RoleFits(t, d) {
      if d < |s.downloads| { assert RoleFits(s, d); }
    }
    forall f | 0 <= f < |t.cache.flights| ensures HasLeader(t, f) {
      if f < |s.cache.flights| {
        assert HasLeader(s, f);
        var d: nat :| LeadsFlight(s, d, f);
        assert LeadsFlight(t, d, f);
      } else {
        assert LeadsFlight(t, |s.downloads|, f);
      }
    }
    forall d: nat, e: nat, f: nat | LeadsFlight(t, d, f) && LeadsFlight(t, e, f) ensures d == e {
      if d < |s.downloads| { assert RoleFits(s, d); }
      if e < |s.downloads| { assert RoleFits(s, e); }
      assert d < |s.downloads| && e < |s.downloads| ==> LeadsFlight(s, d, f) && LeadsFlight(s, e, f);
    }
  }

  lemma FinishRoles(s: State, d: nat)
    requires Roles(s) && Enabled(s, Finish(d))
    ensures Roles(Next(s, Finish(d)))
  {
    var t := Next(s, Finish(d));
    assert RoleFits(s, d);
    forall f | 0 <= f < |t.cache.flights| ensures HasLeader(t, f) {
      assert HasLeader(s, f);
      var e: nat :| LeadsFlight(s, e, f);
      assert LeadsFlight(t, e, f);
    }
    forall e: nat, k: nat, f: nat | LeadsFlight(t, e, f) && LeadsFlight(t, k, f) ensures e == k {
      assert LeadsFlight(s, e, f) && LeadsFlight(s, k, f);
    }
    forall e | 0 <= e < |t.downloads| ensures RoleFits(t, e) {
      assert RoleFits(s, e);
      assert LeadsFlight(s, d, s.downloads[d].flight);
      if s.downloads[e].leader { assert LeadsFlight(s, e, s.downloads[e].flight); }
    }
  }

  // Every other step leaves the flights alone.
  lemma FlightsStay(s: State, e: Event)
    requires Enabled(s, e) && !e.Begin? && !e.Finish?
    ensures Next(s, e).cache.flights == s.cache.flights && Next(s, e).cache.flight == s.cache.flight
    ensures |Next(s, e).downloads| == |s.downloads|
    ensures forall d :: 0 <= d < |s.downloads| ==>
              Next(s, e).downloads[d].leader == s.downloads[d].leader && Next(s, e).downloads[d].flight == s.downloads[d].flight
  {
  }

  lemma RoleStays(s: State, e: Event, d: nat)
    requires Enabled(s, e) && !e.Begin? && !e.Finish? && d < |s.downloads| && RoleFits(s, d)
    ensures d < |Next(s, e).downloads| && RoleFits(Next(s, e), d)
  {
    FlightsStay(s, e);
  }

  lemma StepRoles(s: State, e: Event)
    requires Roles(s) && Enabled(s, e)
    ensures Roles(Next(s, e))
  {
    match e
    case Begin => BeginRoles(s);
    case Finish(d) => FinishRoles(s, d);
    case _ => OtherStepRoles(s, e);
  }

  lemma OtherStepRoles(s: State, e: Event)
    requires Roles(s) && Enabled(s, e) && !e.Begin? && !e.Finish?
    ensures Roles(Next(s, e))
  {
    hide Next, Enabled, RoleFits;
    var t := Next(s, e);
    FlightsStay(s, e);
    forall d | 0 <= d < |t.downloads| ensures RoleFits(t, d) { RoleStays(s, e, d); }
    forall f | 0 <= f < |t.cache.flights| ensures HasLeader(t, f) {
      assert HasLeader(s, f);
      var d: nat :| LeadsFlight(s, d, f);
      assert LeadsFlight(t, d, f);
    }
    forall d: nat, e: nat, f: nat | LeadsFlight(t, d, f) && LeadsFlight(t, e, f) ensures d == e {
      assert LeadsFlight(s, d, f) && LeadsFlight(s, e, f);
    }
  }

  lemma {:induction false} RunRoles(s: State, events: seq<Event>, t: State)
    requires Roles(s) && Reaches(s, events, t)
    ensures Roles(t)
    decreases |events|
  {
    hide Roles, Next;
    if events != [] {
      StepRoles(s, events[0]);
      RunRoles(Next(s, events[0]), events[1..], t);
    }
  }

  /**
   A new download joins the newest flight exactly if that flight's leader has not returned and nothing
   was invalidated since it began; otherwise it leads a flight of its own.
   */
  lemma JoinsIff(hub: nat, events: seq<Event>, s: State)
    requires Reaches(Start(hub), events, s)
    ensures var t, d, newest := Next(s, Begin), |s.downloads|, |s.cache.flights| - 1;
            && |t.downloads| == d + 1
            && (!t.downloads[d].leader <==>
                  newest >= 0 && s.cache.flights[newest].epoch == s.cache.epoch
                  && exists e: nat :: LeadsFlight(s, e, newest) && !s.downloads[e].phase.Returned?)
            && t.downloads[d].flight == if t.downloads[d].leader then newest + 1 else newest
  {
    RunRoles(Start(hub), events, s);
    var newest := |s.cache.flights| - 1;
    if newest >= 0 {
      assert HasLeader(s, newest);
      var e: nat :| LeadsFlight(s, e, newest);
      assert RoleFits(s, e);
      forall x: nat | LeadsFlight(s, x, newest) ensures x == e { }
    }
  }

  /** Whoever joined a download returns with what its leader returned with, and can do so from then on. */
  lemma JoinersShareTheOutcome(hub: nat, events: seq<Event>, s: State, d: nat)
    requires Reaches(Start(hub), events, s) && d < |s.downloads| && !s.downloads[d].leader
    ensures exists e: nat :: LeadsFlight(s, e, s.downloads[d].flight)
    ensures forall e: nat :: LeadsFlight(s, e, s.downloads[d].flight) ==>
              var leader := s.downloads[e].phase;
              && (s.downloads[d].phase.Waiting? ==> (Enabled(s, Leave(d, false)) <==> leader.Returned?))
              && (s.downloads[d].phase.Waiting? && leader.Returned? ==> Next(s, Leave(d, false)).downloads[d].phase == leader)
              && (s.downloads[d].phase.Returned? && s.downloads[d].phase.outcome.Snapshot? ==> leader == s.downloads[d].phase)
  {
    RunRoles(Start(hub), events, s);
    var f := s.downloads[d].flight;
    assert RoleFits(s, d) && HasLeader(s, f);
    forall e: nat | LeadsFlight(s, e, f) ensures RoleFits(s, e) { }
  }

  // ----- Every download ends -----

  predicate OwnStep(e: Event, d: nat) {
    match e
    case Ask(k) => k == d
    case Answer(k, _) => k == d
    case Receive(k) => k == d
    case Fetch(k) => k == d
    case Finish(k) => k == d
    case Leave(k, _) => k == d
    case _ => false
  }

  function AsksLeft(p: Phase): nat {
    match p
    case Fresh(attempt) => if attempt == 0 then 2 else 1
    case Asked(attempt, _, _) => if attempt == 0 then 1 else 0
    case Replied(attempt, _, _, _) => if attempt == 0 then 1 else 0
    case Kept(attempt, _, _) => if attempt == 0 then 1 else 0
    case _ => 0
  }

  // The steps a download has left at most; a try takes four.
  function StepsLeft(p: Phase): nat {
    match p
    case Fresh(_) => 4 * AsksLeft(p) + 1
    case Asked(_, _, _) => 4 * AsksLeft(p) + 4
    case Replied(_, _, _, _) => 4 * AsksLeft(p) + 3
    case Kept(_, _, _) => 4 * AsksLeft(p) + 2
    case Ended(_) => 1
    case Waiting => 1
    case Returned(_) => 0
  }

  lemma StepMoves(s: State, e: Event, d: nat)
    requires Enabled(s, e) && d < |s.downloads|
    ensures d < |Next(s, e).downloads|
    ensures var p, q := s.downloads[d].phase, Next(s, e).downloads[d].phase;
            && StepsLeft(q) + (if OwnStep(e, d) then 1 else 0) <= StepsLeft(p)
            && AsksLeft(q) + (if e == Ask(d) then 1 else 0) <= AsksLeft(p)
  {
  }

  function OwnSteps(events: seq<Event>, d: nat): nat {
    if events == [] then 0 else (if OwnStep(events[0], d) then 1 else 0) + OwnSteps(events[1..], d)
  }

  function AsksIn(events: seq<Event>, d: nat): nat {
    if events == [] then 0 else (if events[0] == Ask(d) then 1 else 0) + AsksIn(events[1..], d)
  }

  lemma {:induction false} StepsAreBounded(s: State, events: seq<Event>, t: State, d: nat)
    requires Reaches(s, events, t) && d < |s.downloads|
    ensures d < |t.downloads|
    ensures OwnSteps(events, d) + StepsLeft(t.downloads[d].phase) <= StepsLeft(s.downloads[d].phase)
    ensures AsksIn(events, d) + AsksLeft(t.downloads[d].phase) <= AsksLeft(s.downloads[d].phase)
    decreases |events|
  {
    hide Next, StepsLeft, AsksLeft, OwnStep;
    if events != [] {
      StepMoves(s, events[0], d);
      StepsAreBounded(Next(s, events[0]), events[1..], t, d);
    }
  }

  /** A download sends two requests at most and ends after nine steps of its own; a joiner takes one. */
  lemma EveryDownloadEnds(s: State, events: seq<Event>, t: State)
    requires Reaches(Next(s, Begin), events, t)
    ensures var d := |s.downloads|;
            && d < |t.downloads| && d < |Next(s, Begin).downloads|
            && AsksIn(events, d) <= (if Next(s, Begin).downloads[d].leader then 2 else 0)
            && OwnSteps(events, d) <= (if Next(s, Begin).downloads[d].leader then 9 else 1)
  {
    StepsAreBounded(Next(s, Begin), events, t, |s.downloads|);
  }

  /** A leader that has not returned has a step, and so has a joiner once its leader has returned. */
  lemma SomebodyCanMove(hub: nat, events: seq<Event>, s: State, d: nat)
    requires Reaches(Start(hub), events, s) && d < |s.downloads| && !s.downloads[d].phase.Returned?
    ensures s.downloads[d].leader ==>
              Enabled(s, Ask(d)) || Enabled(s, Answer(d, Broken)) || Enabled(s, Receive(d)) || Enabled(s, Fetch(d)) || Enabled(s, Finish(d))
    ensures !s.downloads[d].leader ==>
              Enabled(s, Leave(d, true))
              && (Enabled(s, Leave(d, false)) || exists e: nat :: LeadsFlight(s, e, s.downloads[d].flight) && !s.downloads[e].phase.Returned?)
  {
    RunRoles(Start(hub), events, s);
    assert RoleFits(s, d);
    if !s.downloads[d].leader {
      assert HasLeader(s, s.downloads[d].flight);
      var e: nat :| LeadsFlight(s, e, s.downloads[d].flight);
      assert RoleFits(s, e);
    }
  }

  // ----- What nobody disturbs -----

  // No upload begins or returns, and no other response comes in.
  predicate Quiet(events: seq<Event>) { forall i :: 0 <= i < |events| ==> !Invalidates(events[i]) && !events[i].Receive? }

  predicate SameEntry(a: Cache, b: Cache) { a.etag == b.etag && a.snapshot == b.snapshot && a.epoch == b.epoch && a.valid == b.valid }

  lemma {:induction false} QuietKeepsEntry(s: State, events: seq<Event>, t: State)
    requires Reaches(s, events, t) && Quiet(events)
    ensures SameEntry(t.cache, s.cache)
    decreases |events|
  {
    if events != [] {
      QuietRest(events);
      assert SameEntry(Next(s, events[0]).cache, s.cache);
      QuietKeepsEntry(Next(s, events[0]), events[1..], t);
    }
  }

  // Without a response a download that asked still waits for it, and none gets hold of an entry.
  lemma {:induction false} QuietPhase(s: State, events: seq<Event>, t: State, d: nat)
    requires Reaches(s, events, t) && Quiet(events) && d < |s.downloads|
    ensures d < |t.downloads|
    ensures var p, q := s.downloads[d].phase, t.downloads[d].phase;
            && (p.Asked? ==> q == p || (q.Replied? && q.attempt == p.attempt && q.validator == p.validator && q.at == p.at))
            && (p.Replied? ==> q == p)
            && (q.Kept? ==> q == p)
    decreases |events|
  {
    if events != [] {
      QuietRest(events);
      QuietPhase(Next(s, events[0]), events[1..], t, d);
    }
  }

  lemma QuietRest(events: seq<Event>)
    requires Quiet(events) && events != []
    ensures Quiet(events[1..]) && !Invalidates(events[0]) && !events[0].Receive?
  {
    forall i | 0 <= i < |events[1..]| ensures !Invalidates(events[1..][i]) && !events[1..][i].Receive? { assert events[1..][i] == events[i + 1]; }
  }

  /** A body that comes in in the epoch it was asked for is kept, returned if nothing disturbs it, and its tag sent from then on. */
  lemma BodyIsServed(s: State, d: nat, events: seq<Event>, t: State)
    requires Enabled(s, Receive(d)) && s.downloads[d].phase.reply.Body? && s.downloads[d].phase.at == s.cache.epoch
    requires Reaches(Next(s, Receive(d)), events, t) && Quiet(events)
    ensures var reply := s.downloads[d].phase.reply;
            && (!reply.tagged ==> Next(s, Receive(d)).downloads[d].phase == Ended(Snapshot(reply.version)) && !Next(s, Receive(d)).cache.valid)
            && (reply.tagged ==> Validator(t.cache) == Some(reply.version))
            && (reply.tagged && Enabled(t, Fetch(d)) ==> Next(t, Fetch(d)).downloads[d].phase == Ended(Snapshot(reply.version)))
  {
    QuietPhase(Next(s, Receive(d)), events, t, d);
    QuietKeepsEntry(Next(s, Receive(d)), events, t);
  }

  /**
   A request sends the tag of a valid entry, and a hub that answers 304 to it has the entry served, if
   nothing disturbs it. Under another tag, or for a conflict, the entry is forgotten.
   */
  lemma EntryIsServed(s: State, d: nat, events: seq<Event>, t: State)
    requires Enabled(s, Ask(d)) && s.cache.valid && Reaches(Next(s, Ask(d)), events, t) && Quiet(events)
    requires Enabled(t, Receive(d))
    ensures t.downloads[d].phase.validator == s.cache.etag && SameEntry(t.cache, s.cache)
    ensures var reply, u := t.downloads[d].phase.reply, Next(t, Receive(d));
            && (reply.NotModified? && (reply.header == None || reply.header == s.cache.etag) ==>
                  u.downloads[d].phase == Ended(Snapshot(s.cache.snapshot)) && u.cache == t.cache)
            && (reply.NotModified? && reply.header.Some? && reply.header != s.cache.etag ==>
                  !u.cache.valid && u.cache.epoch == t.cache.epoch + 1
                  && u.downloads[d].phase == if s.downloads[d].phase.attempt == 0 then Fresh(1) else Ended(Failed))
            && (reply.Conflict? ==>
                  u.downloads[d].phase == Ended(Failed) && (s.cache.etag.Some? ==> !u.cache.valid && u.cache.epoch == t.cache.epoch + 1))
  {
    QuietKeepsEntry(Next(s, Ask(d)), events, t);
    QuietPhase(Next(s, Ask(d)), events, t, d);
  }
}
