/**
 The calls a stream session makes: each registers under a fresh number, and its single-slot result
 channel is filled by the response handler or by the end of the session. A call may also listen to
 progress, which waits for it in a ring of its own. Every region under the session's lock is one
 step, every channel operation of a call is one, and any interleaving of steps is a run.
 */
module SessionCalls {

  datatype Option<T> = None | Some(value: T)

  /** A response frame: a payload, an error, or a failure without one. */
  datatype Reply = Ok(payload: string) | Error(message: string) | Malformed

  datatype Result = Replied(reply: Reply) | Closed(cause: string)

  /** The result channel: one slot, and whether its value was taken. */
  datatype Slot = Empty | Full(result: Result) | Taken(result: Result)

  const PROGRESS_QUEUE_SIZE := 64

  /** The progress channel of a call; without a callback nothing ever goes in. */
  datatype Ring = Ring(listens: bool, waiting: seq<string>)

  /** What the lock protects, and the channels of the calls. */
  datatype Table = Table(pending: set<nat>, slots: seq<Slot>, rings: seq<Ring>, closeRequest: Option<string>, done: bool, cause: string)

  // A send on a slot that is not empty would block with the lock held.
  predicate Blocks(t: Table, id: nat) { id in t.pending && (id >= |t.slots| || t.slots[id] != Empty) }

  function Registered(t: Table, listens: bool): Table {
    var grown := t.(slots := t.slots + [Empty], rings := t.rings + [Ring(listens, [])]);
    if t.done then grown else grown.(pending := t.pending + {|t.slots|})
  }

  predicate Hears(t: Table, id: nat) { id in t.pending && id < |t.rings| && t.rings[id].listens }

  // The oldest frame makes room; nothing does in an empty ring.
  function Pushed(ring: Ring, payload: string, evicts: bool): Ring {
    ring.(waiting := (if evicts && ring.waiting != [] then ring.waiting[1..] else ring.waiting) + [payload])
  }

  function Progressed(t: Table, id: nat, payload: string, evicts: bool): Table {
    if Hears(t, id) then t.(rings := t.rings[id := Pushed(t.rings[id], payload, evicts)]) else t
  }

  function Removed(t: Table, id: nat): Table { t.(pending := t.pending - {id}) }

  function Responded(t: Table, id: nat, reply: Reply): Table
    requires !Blocks(t, id)
  {
    if id in t.pending then t.(pending := t.pending - {id}, slots := t.slots[id := Full(Replied(reply))]) else t
  }

  /** A local close announces its reason first, unless the session is over. */
  function CloseRequested(t: Table, reason: string): Table {
    if t.done || t.closeRequest.Some? then t else t.(closeRequest := Some(reason))
  }

  function Cause(t: Table, err: string): string { if t.closeRequest.Some? then t.closeRequest.value else err }

  function Terminated(t: Table, err: string): Table
    requires forall id :: id in t.pending ==> !Blocks(t, id)
  {
    if t.done then t
    else
      var cause := Cause(t, err);
      t.(pending := {}, done := true, cause := cause,
         slots := seq(|t.slots|, i requires 0 <= i < |t.slots| => if i in t.pending then Full(Closed(cause)) else t.slots[i]))
  }

  function Drained(t: Table, id: nat): Table
    requires id < |t.slots| && t.slots[id].Full?
  {
    t.(slots := t.slots[id := Taken(t.slots[id].result)])
  }

  class Session {
    var pending: set<nat>
    var slots: seq<Slot>
    var rings: seq<Ring>
    var closeRequest: Option<string>
    var done: bool
    var cause: string
    var progressDropped: nat

    constructor ()
      ensures View() == Table({}, [], [], None, false, "")
    {
      pending, slots, rings, closeRequest, done, cause := {}, [], [], None, false, "";
      progressDropped := 0;
    }

    function View(): Table
      reads this
    {
      Table(pending, slots, rings, closeRequest, done, cause)
    }

    method Register(listens: bool) returns (id: nat, ok: bool)
      modifies this
      ensures View() == Registered(old(View()), listens) && id == |old(slots)| && ok == !old(done)
    {
      id := |slots|;
      slots, rings := slots + [Empty], rings + [Ring(listens, [])];
      if done {
        return id, false;
      }
      pending := pending + {id};
      ok := true;
    }

    method RemovePending(id: nat) returns (removed: bool)
      modifies this
      ensures View() == Removed(old(View()), id) && removed == (id in old(pending))
    {
      removed := id in pending;
      pending := pending - {id};
    }

    method HandleResponse(id: nat, reply: Reply)
      requires !Blocks(View(), id)
      modifies this
      ensures View() == Responded(old(View()), id, reply)
    {
      if id in pending {
        pending := pending - {id};
        slots := slots[id := Full(Replied(reply))];
      }
    }

    /** A frame for a call that listens; a full ring loses its oldest. */
    method HandleProgress(id: nat, payload: string)
      modifies this
      ensures View() == Progressed(old(View()), id, payload, Hears(old(View()), id) && |old(rings)[id].waiting| == PROGRESS_QUEUE_SIZE)
      ensures progressDropped == old(progressDropped) +
              if Hears(old(View()), id) && |old(rings)[id].waiting| == PROGRESS_QUEUE_SIZE then 1 else 0
    {
      if id !in pending || id >= |rings| || !rings[id].listens {
        return;
      }
      var waiting := rings[id].waiting;
      if |waiting| == PROGRESS_QUEUE_SIZE {
        waiting := waiting[1..];
        progressDropped := progressDropped + 1;
      }
      rings := rings[id := Ring(true, waiting + [payload])];
    }

    /** Ends the session once: every registered call gets the closed error. */
    method Terminate(err: string)
      requires forall id :: id in pending ==> !Blocks(View(), id)
      modifies this
      ensures View() == Terminated(old(View()), err)
    {
      if done {
        return;
      }
      cause := if closeRequest.Some? then closeRequest.value else err;
      while pending != {}
        invariant pending <= old(pending) && |slots| == |old(slots)| && rings == old(rings)
        invariant done == old(done) && closeRequest == old(closeRequest)
        invariant cause == Cause(old(View()), err)
        invariant forall i :: 0 <= i < |slots| ==>
          slots[i] == if i in old(pending) && i !in pending then Full(Closed(cause)) else old(slots)[i]
        decreases |pending|
      {
        var id :| id in pending;
        assert !Blocks(old(View()), id);
        pending := pending - {id};
        slots := slots[id := Full(Closed(cause))];
      }
      done := true;
    }
  }

  // ----- Interleavings -----

  /** How a call ends; `drained` tells that it emptied its ring before it returned its result. */
  datatype Outcome = Got(result: Result, drained: bool) | CallerGaveUp | NotSent(cause: string) | SessionClosed(cause: string)

  datatype Stage = Sending | Failing(err: string) | Waiting | Draining(result: Result) | Checking | Ended(outcome: Outcome)

  /** What became of a progress frame that left its ring. */
  datatype Fate = Shown(payload: string) | Dropped(payload: string)

  /** The progress frames a call was sent, and the fate of those no longer in its ring. */
  datatype Story = Story(arrived: seq<string>, fates: seq<Fate>)

  /** The table, the stage and the progress of every call, and every response handled so far. */
  datatype State = State(table: Table, stages: seq<Stage>, stories: seq<Story>, handled: seq<(nat, Reply)>)

  datatype Event =
    | Call(listens: bool)
    | Sent(id: nat)
    | SendFails(id: nat, err: string)
    | Report(id: nat)
    | Take(id: nat)
    | TakeProgress(id: nat)
    | Return(id: nat)
    | GiveUp(id: nat)
    | Check(id: nat)
    | SeeDone(id: nat)
    | Response(id: nat, reply: Reply)
    | Progress(id: nat, payload: string, evicts: bool)
    | Close(reason: string)
    | Terminate(err: string)

  const START := State(Table({}, [], [], None, false, ""), [], [], [])

  predicate At(s: State, id: nat, stage: Stage) { id < |s.stages| && s.stages[id] == stage }

  predicate IsDraining(s: State, id: nat) { id < |s.stages| && s.stages[id].Draining? }

  predicate HasProgress(s: State, id: nat) {
    id < |s.table.rings| == |s.stories| && s.table.rings[id].listens && s.table.rings[id].waiting != []
  }

  /**
   A full ring always loses a frame to the next one. It may also lose one after its call has just made
   room: the handler looks, evicts, and pushes in three operations, between which the call may take.
   */
  predicate Enabled(s: State, e: Event) {
    match e
    case Sent(id) => At(s, id, Sending)
    case SendFails(id, _) => At(s, id, Sending)
    case Report(id) => id < |s.stages| && s.stages[id].Failing?
    case Take(id) => At(s, id, Waiting) && id < |s.table.slots| && s.table.slots[id].Full?
    case TakeProgress(id) => (At(s, id, Waiting) || IsDraining(s, id)) && HasProgress(s, id)
    case Return(id) => IsDraining(s, id) && !HasProgress(s, id)
    case GiveUp(id) => At(s, id, Waiting)
    case Check(id) => At(s, id, Checking)
    case SeeDone(id) => At(s, id, Waiting) && s.table.done
    case Response(id, _) => !Blocks(s.table, id)
    case Progress(id, _, evicts) =>
      Hears(s.table, id) ==> id < |s.stories| && (|s.table.rings[id].waiting| >= PROGRESS_QUEUE_SIZE ==> evicts)
    case Terminate(_) => forall id :: id in s.table.pending ==> !Blocks(s.table, id)
    case _ => true
  }

  // Looks into the channel without waiting.
  function Poll(s: State, id: nat, otherwise: Outcome): State
    requires id < |s.stages|
  {
    if id < |s.table.slots| && s.table.slots[id].Full? then
      s.(table := Drained(s.table, id), stages := s.stages[id := Ended(Got(s.table.slots[id].result, false))])
    else
      s.(stages := s.stages[id := Ended(otherwise)])
  }

  /** A call takes its result; one that listens first empties its ring. */
  function Took(s: State, id: nat): State
    requires id < |s.stages| && id < |s.table.slots| && s.table.slots[id].Full?
  {
    var result := s.table.slots[id].result;
    var listens := id < |s.table.rings| && s.table.rings[id].listens;
    s.(table := Drained(s.table, id), stages := s.stages[id := if listens then Draining(result) else Ended(Got(result, true))])
  }

  function ShownNext(s: State, id: nat): State
    requires HasProgress(s, id)
  {
    var ring, story := s.table.rings[id], s.stories[id];
    s.(table := s.table.(rings := s.table.rings[id := ring.(waiting := ring.waiting[1..])]),
       stories := s.stories[id := story.(fates := story.fates + [Shown(ring.waiting[0])])])
  }

  function Told(story: Story, ring: Ring, payload: string, evicts: bool): Story {
    Story(story.arrived + [payload], if evicts && ring.waiting != [] then story.fates + [Dropped(ring.waiting[0])] else story.fates)
  }

  function Next(s: State, e: Event): State
    requires Enabled(s, e)
  {
    match e
    case Call(listens) =>
      s.(table := Registered(s.table, listens), stories := s.stories + [Story([], [])],
         stages := s.stages + [if s.table.done then Ended(SessionClosed(s.table.cause)) else Sending])
    case Sent(id) => s.(stages := s.stages[id := Waiting])
    case SendFails(id, err) => s.(table := Removed(s.table, id), stages := s.stages[id := Failing(err)])
    case Report(id) =>
      s.(stages := s.stages[id := Ended(if s.table.done then SessionClosed(s.table.cause) else NotSent(s.stages[id].err))])
    case Take(id) => Took(s, id)
    case TakeProgress(id) => ShownNext(s, id)
    case Return(id) => s.(stages := s.stages[id := Ended(Got(s.stages[id].result, true))])
    case GiveUp(id) =>
      if id in s.table.pending then s.(table := Removed(s.table, id), stages := s.stages[id := Ended(CallerGaveUp)])
      else s.(stages := s.stages[id := Checking])
    case Check(id) => Poll(s, id, CallerGaveUp)
    case SeeDone(id) => Poll(s, id, SessionClosed(s.table.cause))
    case Response(id, reply) => s.(table := Responded(s.table, id, reply), handled := s.handled + [(id, reply)])
    case Progress(id, payload, evicts) =>
      if Hears(s.table, id) then
        s.(table := Progressed(s.table, id, payload, evicts),
           stories := s.stories[id := Told(s.stories[id], s.table.rings[id], payload, evicts)])
      else s
    case Close(reason) => s.(table := CloseRequested(s.table, reason))
    case Terminate(err) => s.(table := Terminated(s.table, err))
  }

  ghost predicate Reaches(s: State, events: seq<Event>, t: State)
    decreases |events|
  {
    if events == [] then t == s else Enabled(s, events[0]) && Reaches(Next(s, events[0]), events[1..], t)
  }

  // ----- Invariant -----

  /** A result is a handled response for this call, or the end of the session. */
  predicate Genuine(s: State, id: nat, result: Result) {
    match result
    case Replied(reply) => (id, reply) in s.handled
    case Closed(cause) => s.table.done && cause == s.table.cause
  }

  predicate CallFits(s: State, id: nat)
    requires id < |s.stages| == |s.table.slots|
  {
    var slot, stage := s.table.slots[id], s.stages[id];
    && (id in s.table.pending ==> slot == Empty && (stage == Sending || stage == Waiting) && !s.table.done)
    && (id !in s.table.pending && (stage == Sending || stage == Waiting || stage == Checking) ==> slot.Full?)
    && (stage.Failing? ==> id !in s.table.pending)
    && (stage.Draining? ==> slot == Taken(stage.result))
    && (slot.Taken? ==> stage == Draining(slot.result) || (stage.Ended? && stage.outcome.Got? && stage.outcome.result == slot.result))
    && (stage.Ended? && stage.outcome.Got? ==> slot == Taken(stage.outcome.result))
    && (slot != Empty ==> Genuine(s, id, slot.result))
    && (stage.Ended? && stage.outcome.SessionClosed? ==> s.table.done && stage.outcome.cause == s.table.cause)
  }

  predicate Invariant(s: State) {
    && |s.stages| == |s.table.slots| == |s.table.rings| == |s.stories|
    && (forall id :: id in s.table.pending ==> id < |s.stages|)
    && (forall id :: 0 <= id < |s.stages| ==> CallFits(s, id))
  }

  lemma NeverBlocks(s: State, id: nat)
    requires Invariant(s)
    ensures !Blocks(s.table, id)
  {
    if id in s.table.pending { assert CallFits(s, id); }
  }

  // The calls a step does not touch keep fitting.
  lemma OtherFits(s: State, t: State, id: nat)
    requires id < |s.stages| == |s.table.slots| && CallFits(s, id)
    requires id < |t.stages| == |t.table.slots| && t.stages[id] == s.stages[id] && t.table.slots[id] == s.table.slots[id]
    requires id in t.table.pending <==> id in s.table.pending
    requires t.table.done == s.table.done || (t.table.done && id !in s.table.pending)
    requires s.table.done ==> t.table.cause == s.table.cause
    requires forall h :: h in s.handled ==> h in t.handled
    ensures CallFits(t, id)
  {
  }

  /** The steps of the calling side of a call. */
  predicate OwnStep(e: Event, id: nat) {
    match e
    case Sent(k) => k == id
    case SendFails(k, _) => k == id
    case Report(k) => k == id
    case Take(k) => k == id
    case TakeProgress(k) => k == id
    case Return(k) => k == id
    case GiveUp(k) => k == id
    case Check(k) => k == id
    case SeeDone(k) => k == id
    case _ => false
  }

  lemma OwnStepKeeps(s: State, e: Event, id: nat)
    requires Invariant(s) && Enabled(s, e)
    requires OwnStep(e, id)
    ensures Invariant(Next(s, e))
  {
    var t := Next(s, e);
    assert CallFits(s, id);
    forall k | 0 <= k < |t.stages| ensures CallFits(t, k) {
      assert CallFits(s, k);
      if k != id { OtherFits(s, t, k); }
    }
  }

  lemma CallKeeps(s: State, listens: bool)
    requires Invariant(s)
    ensures Invariant(Next(s, Call(listens)))
  {
    var t := Next(s, Call(listens));
    forall k | 0 <= k < |t.stages| ensures CallFits(t, k) {
      if k < |s.stages| {
        assert CallFits(s, k);
        OtherFits(s, t, k);
      }
    }
  }

  lemma ResponseKeeps(s: State, id: nat, reply: Reply)
    requires Invariant(s) && Enabled(s, Response(id, reply))
    ensures Invariant(Next(s, Response(id, reply)))
  {
    var t := Next(s, Response(id, reply));
    assert t.handled[|s.handled|] == (id, reply);
    assert forall h :: h in s.handled ==> h in t.handled;
    forall k | 0 <= k < |t.stages| ensures CallFits(t, k) {
      assert CallFits(s, k);
      if k != id { OtherFits(s, t, k); }
    }
  }

  lemma ProgressKeeps(s: State, e: Event)
    requires Invariant(s) && Enabled(s, e) && e.Progress?
    ensures Invariant(Next(s, e))
  {
    var t := Next(s, e);
    forall k | 0 <= k < |t.stages| ensures CallFits(t, k) {
      assert CallFits(s, k);
      OtherFits(s, t, k);
    }
  }

  lemma TerminateKeeps(s: State, err: string)
    requires Invariant(s) && Enabled(s, Terminate(err))
    ensures Invariant(Next(s, Terminate(err)))
  {
    var t := Next(s, Terminate(err));
    forall k | 0 <= k < |t.stages| ensures CallFits(t, k) {
      assert CallFits(s, k);
      if k !in s.table.pending { OtherFits(s, t, k); }
    }
  }

  lemma CloseKeeps(s: State, reason: string)
    requires Invariant(s)
    ensures Invariant(Next(s, Close(reason)))
  {
    var t := Next(s, Close(reason));
    forall k | 0 <= k < |t.stages| ensures CallFits(t, k) {
      assert CallFits(s, k);
      OtherFits(s, t, k);
    }
  }

  lemma StepKeeps(s: State, e: Event)
    requires Invariant(s) && Enabled(s, e)
    ensures Invariant(Next(s, e))
  {
    hide Invariant;
    match e
    case Call(listens) => CallKeeps(s, listens);
    case Response(id, reply) => ResponseKeeps(s, id, reply);
    case Progress(_, _, _) => ProgressKeeps(s, e);
    case Close(reason) => CloseKeeps(s, reason);
    case Terminate(err) => TerminateKeeps(s, err);
    case _ => OwnStepKeeps(s, e, e.id);
  }

  lemma {:induction false} RunKeeps(s: State, events: seq<Event>, t: State)
    requires Invariant(s) && Reaches(s, events, t)
    ensures Invariant(t)
    decreases |events|
  {
    hide Invariant;
    if events != [] {
      StepKeeps(s, events[0]);
      RunKeeps(Next(s, events[0]), events[1..], t);
    }
  }

  // ----- What every run keeps -----

  /** A pending call has an empty channel: no response and no termination ever blocks under the lock. */
  lemma SendersNeverBlock(events: seq<Event>, s: State)
    requires Reaches(START, events, s)
    ensures forall id, reply :: Enabled(s, Response(id, reply))
    ensures forall err :: Enabled(s, Terminate(err))
  {
    RunKeeps(START, events, s);
    forall id: nat ensures !Blocks(s.table, id) { NeverBlocks(s, id); }
  }

  /** A call returns a reply only if a response with its number was handled, and the closed error only after the end. */
  lemma ResultsAreGenuine(events: seq<Event>, s: State, id: nat)
    requires Reaches(START, events, s) && id < |s.stages| && s.stages[id].Ended?
    ensures match s.stages[id].outcome
            case Got(Replied(reply), _) => (id, reply) in s.handled
            case Got(Closed(cause), _) => s.table.done && cause == s.table.cause
            case SessionClosed(cause) => s.table.done && cause == s.table.cause
            case _ => true
  {
    RunKeeps(START, events, s);
    assert CallFits(s, id);
  }

  /** Its own steps a call has left at most, if no more progress arrives. */
  function StepsLeft(s: State, id: nat): nat
    requires id < |s.stages| && id < |s.table.rings|
  {
    match s.stages[id]
    case Sending => 3 + |s.table.rings[id].waiting|
    case Waiting => 2 + |s.table.rings[id].waiting|
    case Draining(_) => 1 + |s.table.rings[id].waiting|
    case Failing(_) => 1
    case Checking => 1
    case Ended(_) => 0
  }

  predicate Arrives(e: Event, id: nat) { e.Progress? && e.id == id }

  lemma StepMoves(s: State, e: Event, id: nat)
    requires Invariant(s) && Enabled(s, e) && id < |s.stages|
    ensures var t := Next(s, e);
            && id < |t.stages| && id < |t.table.rings|
            && StepsLeft(t, id) + (if OwnStep(e, id) then 1 else 0) <= StepsLeft(s, id) + (if Arrives(e, id) then 1 else 0)
            && (s.stages[id].Ended? ==> t.stages[id] == s.stages[id] && !OwnStep(e, id))
  {
    assert CallFits(s, id);
  }

  function OwnSteps(events: seq<Event>, id: nat): nat {
    if events == [] then 0 else (if OwnStep(events[0], id) then 1 else 0) + OwnSteps(events[1..], id)
  }

  function Arrivals(events: seq<Event>, id: nat): nat {
    if events == [] then 0 else (if Arrives(events[0], id) then 1 else 0) + Arrivals(events[1..], id)
  }

  lemma {:induction false} StepsAreBounded(s: State, events: seq<Event>, t: State, id: nat)
    requires Invariant(s) && Reaches(s, events, t) && id < |s.stages|
    ensures Invariant(t) && id < |t.stages|
    ensures OwnSteps(events, id) + StepsLeft(t, id) <= StepsLeft(s, id) + Arrivals(events, id)
    ensures s.stages[id].Ended? ==> t.stages[id] == s.stages[id] && OwnSteps(events, id) == 0
    decreases |events|
  {
    hide CallFits, StepsLeft;
    if events != [] {
      StepKeeps(s, events[0]);
      StepMoves(s, events[0], id);
      StepsAreBounded(Next(s, events[0]), events[1..], t, id);
    }
  }

  /**
   From any moment of a run on, a call makes at most three steps of its own, and one more for each
   progress frame that waits for it or still arrives; once ended it stays as it ended.
   */
  lemma EveryCallEndsOnce(past: seq<Event>, s: State, events: seq<Event>, t: State, id: nat)
    requires Reaches(START, past, s) && Reaches(s, events, t) && id < |s.stages|
    ensures id < |t.stages| && id < |s.table.rings|
    ensures OwnSteps(events, id) <= 3 + |s.table.rings[id].waiting| + Arrivals(events, id)
    ensures s.stages[id].Ended? ==> t.stages[id] == s.stages[id] && OwnSteps(events, id) == 0
  {
    RunKeeps(START, past, s);
    StepsAreBounded(s, events, t, id);
  }

  /**
   No call hangs: one that waits can take its result, or is still pending, and one that empties its
   ring can go on. After the end of the session nothing is pending, so whoever has not ended holds a
   result or is about to report, and the branches that fall through an empty channel are never taken.
   */
  lemma NobodyIsLeftBehind(events: seq<Event>, s: State, id: nat)
    requires Reaches(START, events, s) && id < |s.stages|
    ensures s.table.done ==> s.table.pending == {}
    ensures s.stages[id] == Waiting && id !in s.table.pending ==> Enabled(s, Take(id))
    ensures s.stages[id] == Waiting && s.table.done ==> Enabled(s, Take(id))
    ensures s.stages[id].Draining? ==> Enabled(s, TakeProgress(id)) || Enabled(s, Return(id))
    ensures Enabled(s, Check(id)) ==> Next(s, Check(id)).stages[id].outcome.Got?
    ensures Enabled(s, SeeDone(id)) ==> Next(s, SeeDone(id)).stages[id].outcome.Got?
  {
    RunKeeps(START, events, s);
    assert CallFits(s, id);
    DoneMeansIdle(s);
  }

  /** The end of the session reaches every call still registered. */
  lemma TerminationReachesAll(events: seq<Event>, s: State, err: string, id: nat)
    requires Reaches(START, events, s) && Enabled(s, Terminate(err)) && id in s.table.pending
    ensures id < |s.table.slots| == |Next(s, Terminate(err)).table.slots|
    ensures Next(s, Terminate(err)).table.slots[id] == Full(Closed(Cause(s.table, err)))
  {
    RunKeeps(START, events, s);
    assert CallFits(s, id);
  }

  lemma DoneMeansIdle(s: State)
    requires Invariant(s)
    ensures s.table.done ==> s.table.pending == {}
  {
    forall k | k in s.table.pending ensures !s.table.done { assert CallFits(s, k); }
  }

  /** The session ends once: afterwards its cause is fixed and nothing is registered any more. */
  lemma {:induction false} EndIsFinal(s: State, events: seq<Event>, t: State)
    requires Invariant(s) && Reaches(s, events, t) && s.table.done
    ensures t.table.done && t.table.cause == s.table.cause && t.table.pending == {}
    decreases |events|
  {
    DoneMeansIdle(s);
    if events != [] {
      StepKeeps(s, events[0]);
      EndIsFinal(Next(s, events[0]), events[1..], t);
    }
  }

  // ----- Progress -----

  function Payloads(fates: seq<Fate>): seq<string> { seq(|fates|, i requires 0 <= i < |fates| => fates[i].payload) }

  predicate RingFits(s: State, id: nat)
    requires id < |s.stages| && id < |s.table.rings| && id < |s.stories|
  {
    var ring, story, stage := s.table.rings[id], s.stories[id], s.stages[id];
    && |ring.waiting| <= PROGRESS_QUEUE_SIZE && (!ring.listens ==> story.arrived == [])
    && Payloads(story.fates) + ring.waiting == story.arrived
    && (stage.Ended? && stage.outcome.Got? && stage.outcome.drained ==> ring.waiting == [])
  }

  predicate RingsFit(s: State) {
    && |s.stages| == |s.table.rings| == |s.stories|
    && forall id :: 0 <= id < |s.stages| ==> RingFits(s, id)
  }

  lemma PayloadsSnoc(fates: seq<Fate>, fate: Fate)
    ensures Payloads(fates + [fate]) == Payloads(fates) + [fate.payload]
  {
  }

  lemma ToldFits(story: Story, ring: Ring, payload: string, evicts: bool)
    requires Payloads(story.fates) + ring.waiting == story.arrived
    ensures var told := Told(story, ring, payload, evicts);
            Payloads(told.fates) + Pushed(ring, payload, evicts).waiting == told.arrived
  {
    if evicts && ring.waiting != [] { PayloadsSnoc(story.fates, Dropped(ring.waiting[0])); }
  }

  lemma ProgressFits(s: State, e: Event, id: nat)
    requires Invariant(s) && RingsFit(s) && Enabled(s, e) && e.Progress? && id < |s.stages|
    ensures RingFits(Next(s, e), id)
  {
    hide Told, Payloads;
    assert RingFits(s, id) && CallFits(s, id);
    ToldFits(s.stories[id], s.table.rings[id], e.payload, e.evicts);
  }

  lemma ShownFits(s: State, id: nat)
    requires RingsFit(s) && Enabled(s, TakeProgress(id))
    ensures RingFits(Next(s, TakeProgress(id)), id)
  {
    hide Payloads;
    assert RingFits(s, id);
    PayloadsSnoc(s.stories[id].fates, Shown(s.table.rings[id].waiting[0]));
  }

  lemma OtherStepFits(s: State, e: Event, id: nat)
    requires Invariant(s) && RingsFit(s) && Enabled(s, e) && !e.Progress? && !(e.TakeProgress? && e.id == id) && id < |s.stages|
    ensures RingFits(Next(s, e), id)
  {
    hide Payloads;
    assert RingFits(s, id) && CallFits(s, id);
  }

  lemma RingsStep(s: State, e: Event)
    requires Invariant(s) && RingsFit(s) && Enabled(s, e)
    ensures RingsFit(Next(s, e))
  {
    var t := Next(s, e);
    assert |t.stages| == |t.table.rings| == |t.stories|;
    forall id | 0 <= id < |t.stages| ensures RingFits(t, id) {
      if id < |s.stages| {
        hide RingFits, RingsFit, CallFits;
        if e.Progress? {
          ProgressFits(s, e, id);
        } else if e.TakeProgress? && e.id == id {
          ShownFits(s, id);
        } else {
          OtherStepFits(s, e, id);
        }
      }
    }
  }

  lemma {:induction false} RingsRun(s: State, events: seq<Event>, t: State)
    requires Invariant(s) && RingsFit(s) && Reaches(s, events, t)
    ensures Invariant(t) && RingsFit(t)
    decreases |events|
  {
    hide Invariant, RingsFit;
    if events != [] {
      StepKeeps(s, events[0]);
      RingsStep(s, events[0]);
      RingsRun(Next(s, events[0]), events[1..], t);
    }
  }

  /**
   Progress is conserved and keeps its order: what a call was shown, what was dropped, and what still
   waits, in this order, are the frames that arrived for it while it was pending. The ring never
   overflows, and a call that emptied it leaves none behind.
   */
  lemma ProgressIsConserved(events: seq<Event>, s: State, id: nat)
    requires Reaches(START, events, s) && id < |s.stages|
    ensures id < |s.table.rings| == |s.stories| == |s.stages|
    ensures Payloads(s.stories[id].fates) + s.table.rings[id].waiting == s.stories[id].arrived
    ensures |s.table.rings[id].waiting| <= PROGRESS_QUEUE_SIZE
    ensures s.stages[id].Ended? && s.stages[id].outcome.Got? && s.stages[id].outcome.drained ==>
              Payloads(s.stories[id].fates) == s.stories[id].arrived
  {
    RingsRun(START, events, s);
    assert RingFits(s, id);
  }
}
