/**
 The requests a stream session serves. A call's state leaves zero once: to one by its handler, which
 then answers, or to two by a cancel or by the end of the session. Handlers, cancels, and the end of
 the session interleave freely between the regions under the session's lock and, for the answers,
 inside those under the queue's lock.
 */
module SessionRequests {

  datatype Option<T> = None | Some(value: T)

  /** The atomic state of a call. */
  datatype Fate = Open | Answering | Cancelled

  /** What the lock protects, with the state of every call accepted so far. */
  datatype Table = Table(inflight: map<string, nat>, fates: seq<Fate>, max: nat, done: bool)

  datatype Verdict = Duplicate | Overloaded | UnknownMethod | Accepted(call: nat)

  function Judged(t: Table, id: string, known: bool): Verdict {
    if id in t.inflight then Duplicate
    else if |t.inflight| >= t.max then Overloaded
    else if !known then UnknownMethod
    else Accepted(|t.fates|)
  }

  function Requested(t: Table, id: string, known: bool): Table {
    if Judged(t, id, known).Accepted? then t.(inflight := t.inflight[id := |t.fates|], fates := t.fates + [Open]) else t
  }

  /** A compare-and-swap away from the open state. */
  function Swapped(fates: seq<Fate>, call: nat, fate: Fate): seq<Fate> {
    if call < |fates| && fates[call] == Open then fates[call := fate] else fates
  }

  function CancelledBy(t: Table, id: string): Table {
    if id in t.inflight && t.inflight[id] < |t.fates| && t.fates[t.inflight[id]] == Open then
      t.(fates := t.fates[t.inflight[id] := Cancelled], inflight := t.inflight - {id})
    else t
  }

  function Cleaned(t: Table, id: string, call: nat): Table {
    if id in t.inflight && t.inflight[id] == call then t.(inflight := t.inflight - {id}) else t
  }

  /** Every open call among `calls` is cancelled. */
  function Swept(fates: seq<Fate>, calls: set<nat>): seq<Fate> {
    seq(|fates|, i requires 0 <= i < |fates| => if i in calls && fates[i] == Open then Cancelled else fates[i])
  }

  function Ended(t: Table): Table {
    if t.done then t else t.(inflight := map[], done := true, fates := Swept(t.fates, t.inflight.Values))
  }

  lemma SweptNone(fates: seq<Fate>)
    ensures Swept(fates, {}) == fates
  {
  }

  lemma SweptMore(fates: seq<Fate>, calls: set<nat>, call: nat)
    ensures Swapped(Swept(fates, calls), call, Cancelled) == Swept(fates, calls + {call})
  {
  }

  class Session {
    var inflight: map<string, nat>
    var fates: seq<Fate>
    const max: nat
    var done: bool

    constructor (max: nat)
      ensures View() == Table(map[], [], max, false)
    {
      inflight, fates, done := map[], [], false;
      this.max := max;
    }

    function View(): Table
      reads this
    {
      Table(inflight, fates, max, done)
    }

    /** The locked part of a request: it is refused, or becomes an open call. */
    method HandleRequest(id: string, known: bool) returns (verdict: Verdict)
      modifies this
      ensures View() == Requested(old(View()), id, known) && verdict == Judged(old(View()), id, known)
    {
      if id in inflight {
        return Duplicate;
      }
      if |inflight| >= max {
        return Overloaded;
      }
      if !known {
        return UnknownMethod;
      }
      verdict := Accepted(|fates|);
      inflight := inflight[id := |fates|];
      fates := fates + [Open];
    }

    method CompareAndSwap(call: nat, fate: Fate) returns (won: bool)
      modifies this`fates
      ensures fates == Swapped(old(fates), call, fate)
      ensures won == (call < |old(fates)| && old(fates)[call] == Open)
    {
      if call < |fates| && fates[call] == Open {
        fates := fates[call := fate];
        return true;
      }
      return false;
    }

    method HandleCancel(id: string) returns (cancelled: bool)
      modifies this
      ensures View() == CancelledBy(old(View()), id)
      ensures cancelled == (id in old(inflight) && old(inflight)[id] < |old(fates)| && old(fates)[old(inflight)[id]] == Open)
    {
      if id !in inflight {
        return false;
      }
      cancelled := CompareAndSwap(inflight[id], Cancelled);
      if cancelled {
        inflight := inflight - {id};
      }
    }

    /** The last step of a handler removes its own entry only. */
    method Cleanup(id: string, call: nat)
      modifies this
      ensures View() == Cleaned(old(View()), id, call)
    {
      if id in inflight && inflight[id] == call {
        inflight := inflight - {id};
      }
    }

    method Terminate()
      modifies this
      ensures View() == Ended(old(View()))
    {
      if done {
        return;
      }
      hide Swept, Swapped;
      ghost var swept: set<nat> := {};
      assert fates == Swept(fates, {}) by { SweptNone(fates); }
      while inflight.Keys != {}
        invariant done == old(done) && fates == Swept(old(fates), swept) && swept <= old(inflight).Values
        invariant forall id :: id in inflight ==> id in old(inflight) && inflight[id] == old(inflight)[id]
        invariant forall id :: id in old(inflight) && id !in inflight ==> old(inflight)[id] in swept
        decreases |inflight.Keys|
      {
        var id :| id in inflight.Keys;
        var call := inflight[id];
        SweptMore(old(fates), swept, call);
        assert inflight.Keys - {id} == (inflight - {id}).Keys;
        inflight, swept := inflight - {id}, swept + {call};
        var _ := CompareAndSwap(call, Cancelled);
      }
      assert swept == old(inflight).Values;
      done := true;
    }
  }

  // ----- Interleavings -----

  /** A handler runs, then has won or lost the swap; a winner sends its answer; finally it cleans up. */
  datatype Stage = Running | Won | Sending | Cleaning | Gone

  datatype Call = Call(id: string, stage: Stage)

  /**
   The table, the handlers, the call whose handler holds the queue's lock after finding the session
   open, and the calls whose answers were enqueued so far, in order.
   */
  datatype State = State(table: Table, calls: seq<Call>, sender: Option<nat>, answers: seq<nat>)

  datatype Event =
    | Request(id: string, known: bool)
    | Swap(call: nat)
    | Look(call: nat)
    | Enqueue(call: nat)
    | Wait(call: nat)
    | Cleanup(call: nat)
    | Cancel(id: string)
    | Terminate

  function Start(max: nat): State { State(Table(map[], [], max, false), [], None, []) }

  predicate At(s: State, k: nat, stage: Stage) { k < |s.calls| && s.calls[k].stage == stage }

  /**
   Under the queue's lock a handler looks whether the session is over, and then enqueues its answer or,
   if the queue is full, waits and looks again. The session ends under another lock, maybe in between.
   */
  predicate Enabled(s: State, e: Event) {
    match e
    case Swap(k) => At(s, k, Running)
    case Look(k) => At(s, k, Won) && s.sender == None
    case Enqueue(k) => At(s, k, Sending) && s.sender == Some(k)
    case Wait(k) => At(s, k, Sending) && s.sender == Some(k)
    case Cleanup(k) => At(s, k, Cleaning)
    case _ => true
  }

  function Staged(s: State, k: nat, stage: Stage): seq<Call>
    requires k < |s.calls|
  {
    s.calls[k := s.calls[k].(stage := stage)]
  }

  function Next(s: State, e: Event): State
    requires Enabled(s, e)
  {
    match e
    case Request(id, known) =>
      s.(table := Requested(s.table, id, known),
         calls := if Judged(s.table, id, known).Accepted? then s.calls + [Call(id, Running)] else s.calls)
    case Swap(k) =>
      var won := k < |s.table.fates| && s.table.fates[k] == Open;
      s.(table := s.table.(fates := Swapped(s.table.fates, k, Answering)),
         calls := Staged(s, k, if won then Won else Cleaning))
    case Look(k) =>
      if s.table.done then s.(calls := Staged(s, k, Cleaning)) else s.(calls := Staged(s, k, Sending), sender := Some(k))
    case Enqueue(k) => s.(calls := Staged(s, k, Cleaning), sender := None, answers := s.answers + [k])
    case Wait(k) => s.(calls := Staged(s, k, Won), sender := None)
    case Cleanup(k) => s.(table := Cleaned(s.table, s.calls[k].id, k), calls := Staged(s, k, Gone))
    case Cancel(id) => s.(table := CancelledBy(s.table, id))
    case Terminate => s.(table := Ended(s.table))
  }

  ghost predicate Reaches(s: State, events: seq<Event>, t: State)
    decreases |events|
  {
    if events == [] then t == s else Enabled(s, events[0]) && Reaches(Next(s, events[0]), events[1..], t)
  }

  function Answers(s: State, k: nat): nat { multiset(s.answers)[k] }

  predicate CallFits(s: State, k: nat)
    requires k < |s.calls| == |s.table.fates|
  {
    var fate, stage := s.table.fates[k], s.calls[k].stage;
    && (fate == Open ==> stage == Running)
    && (fate == Answering ==> stage != Running)
    && (stage == Won || stage == Sending ==> fate == Answering)
    && Answers(s, k) <= (if fate == Answering && (stage == Cleaning || stage == Gone) then 1 else 0)
    && (!s.table.done && fate == Answering && stage != Won && stage != Sending ==> Answers(s, k) == 1)
    && (!s.table.done && fate != Cancelled && stage != Gone ==> s.calls[k].id in s.table.inflight && s.table.inflight[s.calls[k].id] == k)
  }

  predicate SenderFits(s: State) {
    && (s.sender.Some? ==> At(s, s.sender.value, Sending))
    && forall k :: 0 <= k < |s.calls| && s.calls[k].stage == Sending ==> s.sender == Some(k)
  }

  predicate Invariant(s: State) {
    && |s.calls| == |s.table.fates| && SenderFits(s)
    && |s.table.inflight| <= s.table.max
    && (forall id :: id in s.table.inflight ==> s.table.inflight[id] < |s.calls| && EntryFits(s, id))
    && (forall k :: 0 <= k < |s.calls| ==> CallFits(s, k))
    && (forall k :: k in s.answers ==> k < |s.calls|)
  }

  predicate EntryFits(s: State, id: string)
    requires id in s.table.inflight && s.table.inflight[id] < |s.calls| == |s.table.fates|
  {
    var k := s.table.inflight[id];
    s.calls[k].id == id && s.calls[k].stage != Gone && s.table.fates[k] != Cancelled
  }

  lemma OtherFits(s: State, t: State, k: nat)
    requires k < |s.calls| == |s.table.fates| && CallFits(s, k)
    requires k < |t.calls| == |t.table.fates| && t.calls[k] == s.calls[k] && t.table.fates[k] == s.table.fates[k]
    requires Answers(t, k) == Answers(s, k) && t.table.done == s.table.done
    requires s.calls[k].id in s.table.inflight && s.table.inflight[s.calls[k].id] == k ==>
               s.calls[k].id in t.table.inflight && t.table.inflight[s.calls[k].id] == k
    ensures CallFits(t, k)
  {
  }

  lemma SwapKeeps(s: State, k: nat)
    requires Invariant(s) && Enabled(s, Swap(k))
    ensures Invariant(Next(s, Swap(k)))
  {
    var t := Next(s, Swap(k));
    assert CallFits(s, k);
    forall i | 0 <= i < |t.calls| ensures CallFits(t, i) {
      assert CallFits(s, i);
      if i != k { OtherFits(s, t, i); }
    }
    forall id | id in t.table.inflight ensures EntryFits(t, id) { assert EntryFits(s, id); }
  }

  lemma SendingKeeps(s: State, e: Event, k: nat)
    requires Invariant(s) && Enabled(s, e) && (e == Look(k) || e == Enqueue(k) || e == Wait(k))
    ensures Invariant(Next(s, e))
  {
    var t := Next(s, e);
    assert CallFits(s, k);
    forall i | 0 <= i < |t.calls| ensures CallFits(t, i) {
      assert CallFits(s, i);
      if i != k { OtherFits(s, t, i); }
    }
    forall id | id in t.table.inflight ensures EntryFits(t, id) { assert EntryFits(s, id); }
  }

  lemma CleanupKeeps(s: State, k: nat)
    requires Invariant(s) && Enabled(s, Cleanup(k))
    ensures Invariant(Next(s, Cleanup(k)))
  {
    var t := Next(s, Cleanup(k));
    assert CallFits(s, k);
    forall i | 0 <= i < |t.calls| ensures CallFits(t, i) {
      assert CallFits(s, i);
      if i != k { OtherFits(s, t, i); }
    }
    forall id | id in t.table.inflight ensures EntryFits(t, id) { assert EntryFits(s, id); }
  }

  lemma CancelKeeps(s: State, id: string)
    requires Invariant(s)
    ensures Invariant(Next(s, Cancel(id)))
  {
    var t := Next(s, Cancel(id));
    if id in s.table.inflight {
      var k := s.table.inflight[id];
      assert EntryFits(s, id) && CallFits(s, k);
      forall i | 0 <= i < |t.calls| ensures CallFits(t, i) {
        assert CallFits(s, i);
        if i != k { OtherFits(s, t, i); }
      }
      forall other | other in t.table.inflight ensures EntryFits(t, other) { assert EntryFits(s, other); }
    }
  }

  lemma RequestedCallFits(s: State, id: string, known: bool, i: nat)
    requires Invariant(s) && Judged(s.table, id, known).Accepted? && i <= |s.calls|
    ensures CallFits(Next(s, Request(id, known)), i)
  {
    var t := Next(s, Request(id, known));
    if i < |s.calls| {
      assert CallFits(s, i);
      OtherFits(s, t, i);
    } else {
      assert i !in s.answers && i !in multiset(s.answers);
    }
  }

  lemma RequestedEntryFits(s: State, id: string, known: bool, other: string)
    requires Invariant(s) && Judged(s.table, id, known).Accepted? && other in Next(s, Request(id, known)).table.inflight
    ensures var t := Next(s, Request(id, known)); t.table.inflight[other] < |t.calls| && EntryFits(t, other)
  {
    hide CallFits;
    if other != id { assert EntryFits(s, other); }
  }

  lemma RequestKeeps(s: State, id: string, known: bool)
    requires Invariant(s)
    ensures Invariant(Next(s, Request(id, known)))
  {
    hide CallFits, EntryFits;
    var t := Next(s, Request(id, known));
    if Judged(s.table, id, known).Accepted? {
      forall i | 0 <= i < |t.calls| ensures CallFits(t, i) { RequestedCallFits(s, id, known, i); }
      forall other | other in t.table.inflight ensures t.table.inflight[other] < |t.calls| && EntryFits(t, other) {
        RequestedEntryFits(s, id, known, other);
      }
      assert |t.table.inflight| == |s.table.inflight| + 1;
    }
  }

  lemma TerminateKeeps(s: State)
    requires Invariant(s)
    ensures Invariant(Next(s, Terminate))
  {
    var t := Next(s, Terminate);
    forall i | 0 <= i < |t.calls| ensures CallFits(t, i) { assert CallFits(s, i); }
  }

  lemma StepKeeps(s: State, e: Event)
    requires Invariant(s) && Enabled(s, e)
    ensures Invariant(Next(s, e))
  {
    hide Invariant;
    match e
    case Request(id, known) => RequestKeeps(s, id, known);
    case Swap(k) => SwapKeeps(s, k);
    case Look(k) => SendingKeeps(s, e, k);
    case Enqueue(k) => SendingKeeps(s, e, k);
    case Wait(k) => SendingKeeps(s, e, k);
    case Cleanup(k) => CleanupKeeps(s, k);
    case Cancel(id) => CancelKeeps(s, id);
    case Terminate => TerminateKeeps(s);
  }

  lemma {:induction false} RunKeeps(s: State, events: seq<Event>, t: State)
    requires Invariant(s) && Reaches(s, events, t)
    ensures Invariant(t)
    decreases |events|
  {
    hide Invariant;
    if events != [] {
      StepKeeps(s, events[0]);
      RunKeeps(Next(s, events[0]), events[1..], t);
    }
  }

  /**
   The bound on requests in flight holds in every run, and an accepted request is answered at most
   once: never when it was cancelled, and exactly once when its handler is through with it while the
   session is open.
   */
  lemma AtMostOneAnswer(max: nat, events: seq<Event>, s: State, k: nat)
    requires Reaches(Start(max), events, s) && k < |s.calls|
    ensures |s.table.inflight| <= s.table.max
    ensures k < |s.table.fates| && Answers(s, k) <= 1
    ensures s.table.fates[k] != Answering ==> Answers(s, k) == 0
    ensures !s.table.done && s.calls[k].stage == Gone && s.table.fates[k] != Cancelled ==> Answers(s, k) == 1
  {
    RunKeeps(Start(max), events, s);
    assert CallFits(s, k);
  }

  /** A call's state leaves zero once and for all, and a cancelled call is never answered later. */
  lemma {:induction false} FateIsFinal(s: State, events: seq<Event>, t: State, k: nat)
    requires Invariant(s) && Reaches(s, events, t) && k < |s.calls| && k < |s.table.fates| && s.table.fates[k] != Open
    ensures k < |t.calls| && k < |t.table.fates| && t.table.fates[k] == s.table.fates[k]
    ensures s.table.fates[k] == Cancelled ==> Answers(t, k) == 0
    decreases |events|
  {
    assert CallFits(s, k);
    if events != [] {
      StepKeeps(s, events[0]);
      FateIsFinal(Next(s, events[0]), events[1..], t, k);
    }
  }

  lemma {:induction false} LateRun(s: State, events: seq<Event>, t: State)
    requires Reaches(s, events, t) && s.table.done
    ensures t.table.done && (t.sender == None || t.sender == s.sender)
    ensures t.answers == s.answers || (s.sender.Some? && t.sender == None && t.answers == s.answers + [s.sender.value])
    decreases |events|
  {
    if events != [] {
      LateRun(Next(s, events[0]), events[1..], t);
    }
  }

  // Position `i` of the run is the look of this call's handler, and the session still open there.
  ghost predicate LooksAt(s: State, events: seq<Event>, k: nat, i: nat) {
    && i < |events| && events[i] == Look(k)
    && exists u :: Reaches(s, events[..i], u) && !u.table.done
  }

  lemma LooksLater(s: State, events: seq<Event>, k: nat, i: nat)
    requires events != [] && Enabled(s, events[0]) && LooksAt(Next(s, events[0]), events[1..], k, i)
    ensures LooksAt(s, events, k, i + 1)
  {
    hide Next, Enabled;
    var u :| Reaches(Next(s, events[0]), events[1..][..i], u) && !u.table.done;
    var more := events[..i + 1];
    assert more[0] == events[0] && more[1..] == events[1..][..i];
    assert Reaches(s, more, u);
  }

  lemma {:induction false} SenderLooked(s: State, events: seq<Event>, t: State)
    requires Reaches(s, events, t) && t.sender.Some? && s.sender != t.sender
    ensures exists i: nat :: LooksAt(s, events, t.sender.value, i)
    decreases |events|
  {
    var next := Next(s, events[0]);
    if next.sender == t.sender {
      assert Reaches(s, events[..0], s);
      assert LooksAt(s, events, t.sender.value, 0);
    } else {
      SenderLooked(next, events[1..], t);
      var i: nat :| LooksAt(next, events[1..], t.sender.value, i);
      LooksLater(s, events, t.sender.value, i);
    }
  }

  /**
   After the end of the session at most one more answer is enqueued. It is that of a call in state one
   whose handler looked before the end and holds the queue's lock at the end; and that one can be.
   */
  lemma OneLateAnswer(max: nat, past: seq<Event>, s: State, events: seq<Event>, t: State)
    requires Reaches(Start(max), past, s) && s.table.done && Reaches(s, events, t)
    ensures s.sender == None ==> t.answers == s.answers
    ensures s.sender.Some? ==>
              var k := s.sender.value;
              && (t.answers == s.answers || t.answers == s.answers + [k])
              && k < |s.table.fates| && s.table.fates[k] == Answering && k < |t.table.fates| && t.table.fates[k] == Answering
              && (exists i: nat :: LooksAt(Start(max), past, k, i))
              && Enabled(s, Enqueue(k)) && Next(s, Enqueue(k)).answers == s.answers + [k]
  {
    RunKeeps(Start(max), past, s);
    LateRun(s, events, t);
    if s.sender.Some? {
      var k := s.sender.value;
      assert CallFits(s, k);
      FateIsFinal(s, events, t, k);
      SenderLooked(Start(max), past, s);
    }
  }

  /** A run in which an answer is enqueued after the end of the session. */
  lemma AnswerAfterEnd() returns (past: seq<Event>, s: State, t: State)
    ensures Reaches(Start(1), past, s) && s.table.done && s.answers == []
    ensures Reaches(s, [Enqueue(0)], t) && t.answers == [0]
  {
    past := [Request("a", true), Swap(0), Look(0), Terminate];
    var s1 := Next(Start(1), past[0]);
    var s2 := Next(s1, past[1]);
    var s3 := Next(s2, past[2]);
    s := Next(s3, past[3]);
    t := Next(s, Enqueue(0));
    OneStep(s, Enqueue(0));
    OneStep(s3, Terminate);
    assert past[1..][1..][1..] == [Terminate];
    hide Next, Enabled;
    assert Reaches(s2, past[1..][1..], s) && Reaches(s1, past[1..], s);
  }

  lemma OneStep(s: State, e: Event)
    requires Enabled(s, e)
    ensures Reaches(s, [e], Next(s, e))
  {
    assert [e][1..] == [];
  }

  /** A cancel ends an open call on the spot, and leaves one whose handler has won to its answer. */
  lemma CancelDecides(max: nat, events: seq<Event>, s: State, id: string)
    requires Reaches(Start(max), events, s) && id in s.table.inflight
    ensures var k, t := s.table.inflight[id], Next(s, Cancel(id));
            && k < |s.table.fates| == |t.table.fates|
            && (s.table.fates[k] == Open ==> t.table.fates[k] == Cancelled && id !in t.table.inflight)
            && (s.table.fates[k] != Open ==> s.table.fates[k] == Answering && t == s)
  {
    RunKeeps(Start(max), events, s);
    assert EntryFits(s, id) && CallFits(s, s.table.inflight[id]);
  }

  /** A finishing handler frees its own entry only: a newer call under the same number stays in flight. */
  lemma CleanupSparesNewer(max: nat, events: seq<Event>, s: State, k: nat, newer: nat)
    requires Reaches(Start(max), events, s) && Enabled(s, Cleanup(k)) && newer < |s.calls| && newer != k
    ensures s.calls[newer].id in s.table.inflight && s.table.inflight[s.calls[newer].id] == newer ==>
              s.calls[newer].id in Next(s, Cleanup(k)).table.inflight && Next(s, Cleanup(k)).table.inflight[s.calls[newer].id] == newer
    ensures forall id :: id in Next(s, Cleanup(k)).table.inflight ==> Next(s, Cleanup(k)).table.inflight[id] != k
  {
    RunKeeps(Start(max), events, s);
    forall id | id in Next(s, Cleanup(k)).table.inflight ensures Next(s, Cleanup(k)).table.inflight[id] != k {
      assert EntryFits(s, id);
    }
  }

  // ----- What a request meets -----

  /** A call that was neither cancelled nor cleaned up. */
  predicate Live(s: State, k: nat) { k < |s.calls| && k < |s.table.fates| && s.table.fates[k] != Cancelled && s.calls[k].stage != Gone }

  predicate LiveUnder(s: State, k: nat, id: string) { Live(s, k) && s.calls[k].id == id }

  lemma InFlightIsLive(s: State, id: string)
    requires Invariant(s) && !s.table.done
    ensures id in s.table.inflight ==> LiveUnder(s, s.table.inflight[id], id)
    ensures forall k :: LiveUnder(s, k, id) ==> id in s.table.inflight && s.table.inflight[id] == k
  {
    if id in s.table.inflight { assert EntryFits(s, id); }
    forall k: nat | LiveUnder(s, k, id) ensures id in s.table.inflight && s.table.inflight[id] == k { assert CallFits(s, k); }
  }

  lemma {:induction false} DistinctValues(m: map<string, nat>, keys: set<string>, values: set<nat>)
    requires keys <= m.Keys && (forall a, b :: a in keys && b in keys && m[a] == m[b] ==> a == b)
    requires forall k :: k in values <==> exists a :: a in keys && m[a] == k
    ensures |values| == |keys|
    decreases |keys|
  {
    if keys == {} {
      assert forall k :: k !in values;
      assert values == {};
    } else {
      var a :| a in keys;
      assert m[a] in values;
      forall k | k in values - {m[a]} ensures exists b :: b in keys - {a} && m[b] == k {
        var b :| b in keys && m[b] == k;
        assert b in keys - {a};
      }
      DistinctValues(m, keys - {a}, values - {m[a]});
    }
  }

  lemma LiveCount(s: State)
    requires Invariant(s) && !s.table.done
    ensures |s.table.inflight| == |set k | 0 <= k < |s.calls| && Live(s, k)|
  {
    hide Invariant;
    var m, living := s.table.inflight, set k | 0 <= k < |s.calls| && Live(s, k);
    forall id | id in m ensures LiveUnder(s, m[id], id) { InFlightIsLive(s, id); }
    forall k | k in living ensures exists id :: id in m.Keys && m[id] == k {
      InFlightIsLive(s, s.calls[k].id);
      assert LiveUnder(s, k, s.calls[k].id);
    }
    DistinctValues(m, m.Keys, living);
    assert |m| == |m.Keys|;
  }

  /**
   A request of an open session is a duplicate exactly if a live call has its number, then refused
   exactly if as many calls live as may, or if nobody knows its method, and otherwise becomes a call.
   */
  lemma RequestIsJudged(max: nat, events: seq<Event>, s: State, id: string, known: bool)
    requires Reaches(Start(max), events, s) && !s.table.done
    ensures var verdict, t, k := Judged(s.table, id, known), Next(s, Request(id, known)), |s.calls|;
            var living := |set j | 0 <= j < |s.calls| && Live(s, j)|;
            && (verdict == Duplicate <==> exists j :: LiveUnder(s, j, id))
            && (verdict == Overloaded <==> (forall j :: !LiveUnder(s, j, id)) && living >= max)
            && (verdict == UnknownMethod <==> (forall j :: !LiveUnder(s, j, id)) && living < max && !known)
            && (verdict.Accepted? ==> t.calls == s.calls + [Call(id, Running)] && LiveUnder(t, k, id) && t.table.fates[k] == Open)
            && (!verdict.Accepted? ==> t == s)
  {
    RunKeeps(Start(max), events, s);
    MaxStays(Start(max), events, s);
    InFlightIsLive(s, id);
    LiveCount(s);
  }

  lemma {:induction false} MaxStays(s: State, events: seq<Event>, t: State)
    requires Reaches(s, events, t)
    ensures t.table.max == s.table.max
    decreases |events|
  {
    if events != [] { MaxStays(Next(s, events[0]), events[1..], t); }
  }

  /** An open call of an open session is decided by its handler's swap, a cancel of its number, or the end, and by nothing else. */
  lemma FirstEventDecides(max: nat, events: seq<Event>, s: State, e: Event, k: nat)
    requires Reaches(Start(max), events, s) && !s.table.done && Enabled(s, e)
    requires k < |s.calls| && k < |s.table.fates| && s.table.fates[k] == Open
    ensures k < |Next(s, e).table.fates|
    ensures Next(s, e).table.fates[k] ==
            if e == Swap(k) then Answering else if e == Cancel(s.calls[k].id) || e == Terminate then Cancelled else Open
  {
    RunKeeps(Start(max), events, s);
    assert CallFits(s, k);
    if e.Cancel? && e.id in s.table.inflight { assert EntryFits(s, e.id); }
    hide Invariant, CallFits, EntryFits, Reaches, Cleaned, Judged;
  }

  /** While a handler is not through there is a step for it, or for the one that holds the queue's lock. */
  lemma HandlersCanMove(max: nat, events: seq<Event>, s: State, k: nat)
    requires Reaches(Start(max), events, s) && k < |s.calls| && s.calls[k].stage != Gone
    ensures Enabled(s, Swap(k)) || Enabled(s, Look(k)) || Enabled(s, Enqueue(k)) || Enabled(s, Cleanup(k))
            || (s.calls[k].stage == Won && s.sender.Some? && Enabled(s, Enqueue(s.sender.value)))
    ensures Enabled(s, Enqueue(k)) ==> Next(s, Enqueue(k)).answers == s.answers + [k] && Enabled(Next(s, Enqueue(k)), Cleanup(k))
  {
    RunKeeps(Start(max), events, s);
  }
}
