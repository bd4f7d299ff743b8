/**
 The gate in front of tasks that change the machine: a FIFO mutex whose waiters may give up. Calls
 are numbered in the order in which they first take the gate's lock.
 */
module TaskGate {

  /** What the lock protects: the held flag, the queue, and the waiters flagged as granted. */
  datatype Gate = Gate(held: bool, waiters: seq<nat>, granted: set<nat>)

  function Without(waiters: seq<nat>, id: nat): seq<nat> {
    if waiters == [] then []
    else if waiters[0] == id then waiters[1..]
    else [waiters[0]] + Without(waiters[1..], id)
  }

  function Entered(g: Gate, id: nat): Gate {
    if !g.held && g.waiters == [] then g.(held := true) else g.(waiters := g.waiters + [id])
  }

  function Released(g: Gate): Gate {
    if g.waiters == [] then g.(held := false)
    else Gate(true, g.waiters[1..], g.granted + {g.waiters[0]})
  }

  function Abandoned(g: Gate, id: nat): Gate {
    if id in g.granted then g else g.(waiters := Without(g.waiters, id))
  }

  class TaskGate {
    var held: bool
    var waiters: seq<nat>
    var granted: set<nat>

    constructor ()
      ensures View() == Gate(false, [], {})
    {
      held, waiters, granted := false, [], {};
    }

    function View(): Gate
      reads this
    {
      Gate(held, waiters, granted)
    }

    /** The locked part of an acquire: an idle gate is taken at once, otherwise the call queues up. */
    method Enter(id: nat) returns (taken: bool)
      modifies this
      ensures View() == Entered(old(View()), id)
      ensures taken == (!old(held) && old(waiters) == [])
    {
      if !held && |waiters| == 0 {
        held := true;
        return true;
      }
      waiters := waiters + [id];
      return false;
    }

    /** Hands the gate to the first waiter, or leaves it idle. */
    method Release()
      modifies this
      ensures View() == Released(old(View()))
    {
      if |waiters| > 0 {
        var waiter := waiters[0];
        waiters := waiters[1..];
        granted := granted + {waiter};
        held := true;
        return;
      }
      held := false;
    }

    /** A cancelled waiter leaves the queue, unless the gate is already its own and has to be passed on. */
    method Abandon(id: nat) returns (mustRelease: bool)
      modifies this
      ensures View() == Abandoned(old(View()), id)
      ensures mustRelease == (id in old(granted))
    {
      if id in granted {
        return true;
      }
      var i := 0;
      while i < |waiters|
        invariant i <= |waiters| && View() == old(View())
        invariant id !in waiters[..i]
      {
        if waiters[i] == id {
          WithoutAt(waiters, i, id);
          waiters := waiters[..i] + waiters[i + 1..];
          return false;
        }
        i := i + 1;
      }
      WithoutNone(waiters, id);
      return false;
    }
  }

  lemma {:induction false} WithoutAt(waiters: seq<nat>, i: nat, id: nat)
    requires i < |waiters| && waiters[i] == id && id !in waiters[..i]
    ensures Without(waiters, id) == waiters[..i] + waiters[i + 1..]
  {
    if i > 0 {
      assert waiters[..i] == [waiters[0]] + waiters[1..][..i - 1];
      WithoutAt(waiters[1..], i - 1, id);
    }
  }

  lemma {:induction false} WithoutNone(waiters: seq<nat>, id: nat)
    requires id !in waiters
    ensures Without(waiters, id) == waiters
  {
    if waiters != [] { WithoutNone(waiters[1..], id); }
  }

  // ----- Interleavings -----

  /** Where a call stands between its locked steps. */
  datatype Phase = Waiting | Holding | Passing | Gone

  datatype State = State(gate: Gate, phase: seq<Phase>, log: seq<nat>)

  /** The atomic steps: arrive, wake up with the gate, be cancelled, release. */
  datatype Event = Arrive | Wake(id: nat, cancelled: bool) | Cancel(id: nat) | Release(id: nat)

  const START := State(Gate(false, [], {}), [], [])

  predicate Enabled(s: State, e: Event) {
    match e
    case Arrive => true
    case Wake(id, _) => id < |s.phase| && s.phase[id] == Waiting && id in s.gate.granted
    case Cancel(id) => id < |s.phase| && s.phase[id] == Waiting
    case Release(id) => id < |s.phase| && (s.phase[id] == Holding || s.phase[id] == Passing)
  }

  function Next(s: State, e: Event): State
    requires Enabled(s, e)
  {
    match e
    case Arrive =>
      var id := |s.phase|;
      var taken := !s.gate.held && s.gate.waiters == [];
      State(Entered(s.gate, id), s.phase + [if taken then Holding else Waiting], if taken then s.log + [id] else s.log)
    case Wake(id, cancelled) => s.(phase := s.phase[id := if cancelled then Passing else Holding])
    case Cancel(id) =>
      State(Abandoned(s.gate, id), s.phase[id := if id in s.gate.granted then Passing else Gone], s.log)
    case Release(id) => State(Released(s.gate), s.phase[id := Gone], s.log + s.gate.waiters[..if s.gate.waiters == [] then 0 else 1])
  }

  ghost predicate Reaches(s: State, events: seq<Event>, t: State)
    decreases |events|
  {
    if events == [] then t == s else Enabled(s, events[0]) && Reaches(Next(s, events[0]), events[1..], t)
  }

  /** A call has the gate when it owns it, was granted it, or has yet to pass it on. */
  predicate HasGate(s: State, id: nat) {
    id < |s.phase| && (s.phase[id] == Holding || s.phase[id] == Passing || (s.phase[id] == Waiting && id in s.gate.granted))
  }

  predicate Queued(s: State, id: nat) { id < |s.phase| && s.phase[id] == Waiting && id !in s.gate.granted }

  predicate Rising(ids: seq<nat>) { forall i, j :: 0 <= i < j < |ids| ==> ids[i] < ids[j] }

  ghost predicate Invariant(s: State) {
    // Whoever has the gate is the last one in the log, and only while it is held.
    && (forall id :: HasGate(s, id) <==> s.gate.held && s.log != [] && id == s.log[|s.log| - 1])
    && (s.gate.held ==> s.log != [])
    && (forall id :: id in s.gate.waiters <==> Queued(s, id))
    && (!s.gate.held ==> s.gate.waiters == [])
    && Rising(s.log + s.gate.waiters)
    && (forall id :: id in s.log ==> id < |s.phase|)
    && (forall id :: id in s.gate.granted ==> id in s.log)
  }

  lemma {:induction false} WithoutIs(waiters: seq<nat>, id: nat)
    requires Rising(waiters)
    ensures forall x :: x in Without(waiters, id) <==> x in waiters && x != id
    ensures Rising(Without(waiters, id))
  {
    if waiters != [] {
      var first, rest := waiters[0], waiters[1..];
      WithoutIs(rest, id);
      assert waiters == [first] + rest;
      RisingParts([first], rest);
      if first != id { RisingFrom(first, Without(rest, id)); }
    }
  }

  lemma RisingFrom(first: nat, rest: seq<nat>)
    requires Rising(rest) && forall x :: x in rest ==> first < x
    ensures Rising([first] + rest)
  {
    assert forall j :: 0 <= j < |rest| ==> rest[j] in rest;
  }

  lemma RisingJoin(a: seq<nat>, b: seq<nat>, c: seq<nat>)
    requires Rising(a + b) && Rising(c) && forall x :: x in c ==> x in b
    ensures Rising(a + c)
  {
    RisingParts(a, b);
    var ac := a + c;
    forall i, j | 0 <= i < j < |ac| ensures ac[i] < ac[j] {
      if i < |a| <= j { assert ac[i] in a && ac[j] in c; }
    }
  }

  lemma RisingParts(a: seq<nat>, b: seq<nat>)
    requires Rising(a + b)
    ensures Rising(a) && Rising(b)
    ensures forall x, y :: x in a && y in b ==> x < y
  {
    var ab := a + b;
    assert forall i :: 0 <= i < |a| ==> a[i] == ab[i];
    assert forall i :: 0 <= i < |b| ==> b[i] == ab[|a| + i];
  }

  lemma ArriveKeeps(s: State)
    requires Invariant(s)
    ensures Invariant(Next(s, Arrive))
  {
    var t, id := Next(s, Arrive), |s.phase|;
    var all := s.log + s.gate.waiters;
    assert forall x :: x in s.gate.waiters ==> Queued(s, x);
    assert forall i :: 0 <= i < |all| ==> all[i] in s.log || all[i] in s.gate.waiters;
    assert t.log + t.gate.waiters == all + [id];
    assert Rising(all + [id]);
    assert id !in s.gate.granted;
    if !s.gate.held {
      assert forall x :: !HasGate(s, x);
      assert HasGate(t, id);
      assert forall x :: HasGate(t, x) && x != id ==> HasGate(s, x);
    } else {
      assert forall x :: HasGate(t, x) == HasGate(s, x);
    }
    assert forall x :: Queued(t, x) <==> if x == id then s.gate.held else Queued(s, x);
  }

  lemma WakeKeeps(s: State, id: nat, cancelled: bool)
    requires Invariant(s) && Enabled(s, Wake(id, cancelled))
    ensures Invariant(Next(s, Wake(id, cancelled)))
  {
    var t := Next(s, Wake(id, cancelled));
    assert HasGate(s, id) && !Queued(s, id);
    assert forall x :: HasGate(t, x) == HasGate(s, x) && Queued(t, x) == Queued(s, x);
  }

  lemma CancelKeeps(s: State, id: nat)
    requires Invariant(s) && Enabled(s, Cancel(id))
    ensures Invariant(Next(s, Cancel(id)))
  {
    var t := Next(s, Cancel(id));
    RisingParts(s.log, s.gate.waiters);
    WithoutIs(s.gate.waiters, id);
    RisingJoin(s.log, s.gate.waiters, t.gate.waiters);
    assert forall x :: HasGate(t, x) == HasGate(s, x);
    assert forall x :: Queued(t, x) <==> x != id && Queued(s, x);
  }

  lemma ReleaseKeeps(s: State, id: nat)
    requires Invariant(s) && Enabled(s, Release(id))
    ensures Invariant(Next(s, Release(id)))
  {
    var t := Next(s, Release(id));
    assert HasGate(s, id);
    assert forall x :: HasGate(s, x) ==> x == id;
    RisingParts(s.log, s.gate.waiters);
    if s.gate.waiters == [] {
      assert t.log + t.gate.waiters == s.log + s.gate.waiters;
      assert forall x :: HasGate(t, x) ==> HasGate(s, x);
      assert forall x :: Queued(t, x) == Queued(s, x);
    } else {
      var first, rest := s.gate.waiters[0], s.gate.waiters[1..];
      assert s.gate.waiters == [first] + rest && s.gate.waiters[..1] == [first];
      assert t.log + t.gate.waiters == s.log + s.gate.waiters;
      assert Queued(s, first) && first != id && first !in rest;
      assert HasGate(t, first);
      assert forall x :: HasGate(t, x) && x != first ==> HasGate(s, x);
      assert forall x :: Queued(t, x) <==> x != first && Queued(s, x);
    }
  }

  lemma StepKeeps(s: State, e: Event)
    requires Invariant(s) && Enabled(s, e)
    ensures Invariant(Next(s, e))
  {
    hide Invariant;
    match e
    case Arrive => ArriveKeeps(s);
    case Wake(id, cancelled) => WakeKeeps(s, id, cancelled);
    case Cancel(id) => CancelKeeps(s, id);
    case Release(id) => ReleaseKeeps(s, id);
  }

  lemma {:induction false} RunKeeps(s: State, events: seq<Event>, t: State)
    requires Invariant(s) && Reaches(s, events, t)
    ensures Invariant(t)
    decreases |events|
  {
    hide Invariant;
    if events != [] {
      StepKeeps(s, events[0]);
      RunKeeps(Next(s, events[0]), events[1..], t);
    }
  }

  lemma StartHolds()
    ensures Invariant(START)
  {
  }

  /** In every run: one holder at most, exactly one while held, and nobody waits at an idle gate. */
  lemma MutualExclusion(events: seq<Event>, s: State)
    requires Reaches(START, events, s)
    ensures forall i, j :: HasGate(s, i) && HasGate(s, j) ==> i == j
    ensures s.gate.held <==> exists i :: HasGate(s, i)
    ensures (exists i :: Queued(s, i)) ==> s.gate.held
  {
    StartHolds();
    RunKeeps(START, events, s);
    if s.gate.held { assert HasGate(s, s.log[|s.log| - 1]); }
  }

  /** Nobody is overtaken: when a call has been granted, no earlier call is still queued. */
  lemma FirstComeFirstServed(events: seq<Event>, s: State, early: nat, late: nat)
    requires Reaches(START, events, s) && early < late && late in s.log
    ensures !Queued(s, early)
    ensures Rising(s.log)
  {
    StartHolds();
    RunKeeps(START, events, s);
    RisingParts(s.log, s.gate.waiters);
  }

  function Releases(events: seq<Event>): nat {
    if events == [] then 0 else (if events[0].Release? then 1 else 0) + Releases(events[1..])
  }

  // How many stand before a waiter.
  function Place(waiters: seq<nat>, id: nat): nat {
    if waiters == [] || waiters[0] == id then 0 else 1 + Place(waiters[1..], id)
  }

  lemma {:induction false} PlaceInLonger(waiters: seq<nat>, more: seq<nat>, id: nat)
    requires id in waiters
    ensures Place(waiters + more, id) == Place(waiters, id)
  {
    assert (waiters + more)[1..] == waiters[1..] + more;
    if waiters[0] != id { PlaceInLonger(waiters[1..], more, id); }
  }

  lemma {:induction false} PlaceInShorter(waiters: seq<nat>, other: nat, id: nat)
    requires id in waiters && other != id
    ensures Place(Without(waiters, other), id) <= Place(waiters, id)
  {
    if waiters[0] != id && waiters[0] != other { PlaceInShorter(waiters[1..], other, id); }
  }

  lemma StepMovesUp(s: State, e: Event, id: nat)
    requires Invariant(s) && Enabled(s, e) && Queued(s, id) && Queued(Next(s, e), id)
    ensures Place(Next(s, e).gate.waiters, id) + (if e.Release? then 1 else 0) <= Place(s.gate.waiters, id)
  {
    assert id in s.gate.waiters;
    match e
    case Arrive => PlaceInLonger(s.gate.waiters, [|s.phase|], id);
    case Wake(_, _) =>
    case Cancel(other) => if other != id { PlaceInShorter(s.gate.waiters, other, id); }
    case Release(_) =>
  }

  lemma OnceGone(s: State, e: Event, id: nat)
    requires Invariant(s) && Enabled(s, e) && id < |s.phase| && !Queued(s, id)
    ensures !Queued(Next(s, e), id)
  {
  }

  lemma {:induction false} StaysUnqueued(s: State, events: seq<Event>, t: State, id: nat)
    requires Invariant(s) && Reaches(s, events, t) && id < |s.phase| && !Queued(s, id)
    ensures !Queued(t, id)
    decreases |events|
  {
    hide Invariant, Queued;
    if events != [] {
      OnceGone(s, events[0], id);
      StepKeeps(s, events[0]);
      StaysUnqueued(Next(s, events[0]), events[1..], t, id);
    }
  }

  /** No grant is lost: every release moves each waiter up, so it waits for no more of them than stand before it. */
  lemma {:induction false} WaitIsBounded(s: State, events: seq<Event>, t: State, id: nat)
    requires Invariant(s) && Reaches(s, events, t) && Queued(s, id) && Queued(t, id)
    ensures Releases(events) + Place(t.gate.waiters, id) <= Place(s.gate.waiters, id)
    decreases |events|
  {
    hide Invariant;
    if events != [] {
      var mid := Next(s, events[0]);
      StepKeeps(s, events[0]);
      if !Queued(mid, id) { StaysUnqueued(mid, events[1..], t, id); }
      StepMovesUp(s, events[0], id);
      WaitIsBounded(mid, events[1..], t, id);
    }
  }

  /** While somebody waits there is a step that brings the gate closer, up to the release that passes it on. */
  lemma SomebodyCanMove(events: seq<Event>, s: State)
    requires Reaches(START, events, s) && s.gate.waiters != []
    ensures exists id :: HasGate(s, id) && (Enabled(s, Release(id)) || (Enabled(s, Wake(id, false)) && Enabled(s, Cancel(id))))
    ensures forall id :: Enabled(s, Release(id)) ==> HasGate(Next(s, Release(id)), s.gate.waiters[0])
  {
    StartHolds();
    RunKeeps(START, events, s);
    assert HasGate(s, s.log[|s.log| - 1]);
    forall id | Enabled(s, Release(id)) ensures HasGate(Next(s, Release(id)), s.gate.waiters[0]) {
      assert HasGate(s, id) && Queued(s, s.gate.waiters[0]);
    }
  }

  /** A waiter cancelled after its grant still has the gate, and all it can do is pass it on. */
  lemma CancelledGrantIsPassedOn(events: seq<Event>, s: State, id: nat)
    requires Reaches(START, events, s) && Enabled(s, Cancel(id)) && id in s.gate.granted
    ensures var t := Next(s, Cancel(id));
            && HasGate(t, id) && t.gate == s.gate
            && Enabled(t, Release(id)) && !Enabled(t, Cancel(id)) && !Enabled(t, Wake(id, false)) && !Enabled(t, Wake(id, true))
            && var u := Next(t, Release(id));
               u.gate.held == (s.gate.waiters != []) && (s.gate.waiters != [] ==> HasGate(u, s.gate.waiters[0]))
  {
    StartHolds();
    RunKeeps(START, events, s);
    if s.gate.waiters != [] {
      assert HasGate(s, id) && Queued(s, s.gate.waiters[0]);
    }
  }
}
