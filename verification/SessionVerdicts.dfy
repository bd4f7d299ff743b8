/**
 How every call of a session ends, read off the run alone: the first event that concerns the call
 after its registration decides it, unless its own send fails.
 */
module SessionVerdicts {
  import opened SessionCalls

  function Front(events: seq<Event>): seq<Event>
    requires events != []
  {
    events[..|events| - 1]
  }

  function Last(events: seq<Event>): Event
    requires events != []
  {
    events[|events| - 1]
  }

  /** The reason of the first local close. */
  function Closing(events: seq<Event>): Option<string> {
    if events == [] then None
    else if Closing(Front(events)).Some? || !Last(events).Close? then Closing(Front(events))
    else Some(Last(events).reason)
  }

  /** The cause of the first end: the reason of a local close before it, or else its own error. */
  function Ending(events: seq<Event>): Option<string> {
    if events == [] then None
    else if Ending(Front(events)).Some? || !Last(events).Terminate? then Ending(Front(events))
    else Some(if Closing(Front(events)).Some? then Closing(Front(events)).value else Last(events).err)
  }

  function CallsIn(events: seq<Event>): nat {
    if events == [] then 0 else CallsIn(Front(events)) + (if Last(events).Call? then 1 else 0)
  }

  datatype Verdict =
    | Unborn
    | Open
    | Answered(reply: Reply)
    | CutOff
    | Abandoned
    | Unsent(err: string)
    | Reported(err: string)
    | Refused

  function VerdictOf(events: seq<Event>, id: nat): Verdict {
    if events == [] then Unborn
    else
      var past := Front(events);
      Judged(VerdictOf(past, id), CallsIn(past) == id, Ending(past).Some?, Last(events), id)
  }

  // One more event: `next` tells that the next call has this number, `over` that the session has ended.
  function Judged(verdict: Verdict, next: bool, over: bool, e: Event, id: nat): Verdict {
    match verdict
    case Unborn => if !e.Call? || !next then Unborn else if over then Refused else Open
    case Open =>
      (match e
       case Response(k, reply) => if k == id then Answered(reply) else Open
       case GiveUp(k) => if k == id then Abandoned else Open
       case SendFails(k, err) => if k == id then Unsent(err) else Open
       case Terminate(_) => CutOff
       case _ => Open)
    case Answered(_) => if e.SendFails? && e.id == id then Unsent(e.err) else verdict
    case CutOff => if e.SendFails? && e.id == id then Unsent(e.err) else verdict
    case Unsent(err) => if e != Report(id) then verdict else if over then Refused else Reported(err)
    case _ => verdict
  }

  predicate Listens(events: seq<Event>, id: nat) {
    if events == [] then false
    else Listens(Front(events), id) || (CallsIn(Front(events)) == id && Last(events).Call? && Last(events).listens)
  }

  /** The progress a call is sent while it is open, if it listens. */
  function Heard(events: seq<Event>, id: nat): seq<string> {
    if events == [] then []
    else
      var past, e := Front(events), Last(events);
      Heard(past, id) + (if e.Progress? && e.id == id && VerdictOf(past, id) == Open && Listens(past, id) then [e.payload] else [])
  }

  predicate Holds(slot: Slot, result: Result) { slot == Full(result) || slot == Taken(result) }

  // The call has its result, or will take it.
  predicate Takes(stage: Stage) { !stage.Failing? && (stage.Ended? ==> stage.outcome.Got?) }

  /** Where the verdict puts a call: in the table, in its channel, and at the end of its stages. */
  predicate Stands(s: State, id: nat, verdict: Verdict)
    requires id < |s.stages| && id < |s.table.slots|
  {
    var stage, slot := s.stages[id], s.table.slots[id];
    && (id in s.table.pending <==> verdict == Open)
    && match verdict
       case Unborn => false
       case Open => slot == Empty && (stage == Sending || stage == Waiting)
       case Answered(reply) => Holds(slot, Replied(reply)) && Takes(stage)
       case CutOff => s.table.done && Holds(slot, Closed(s.table.cause)) && Takes(stage)
       case Abandoned => stage == Ended(CallerGaveUp)
       case Unsent(err) => stage == Failing(err)
       case Reported(err) => stage == Ended(NotSent(err))
       case Refused => s.table.done && stage == Ended(SessionClosed(s.table.cause))
  }

  predicate TableTold(s: State, events: seq<Event>) {
    && |s.stages| == CallsIn(events) && s.table.done == Ending(events).Some?
    && (s.table.done ==> s.table.cause == Ending(events).value)
    && (!s.table.done ==> s.table.closeRequest == Closing(events))
  }

  predicate CallTold(s: State, events: seq<Event>, id: nat) {
    if id < |s.stages| && id < |s.table.slots| && id < |s.table.rings| && id < |s.stories| then
      && Stands(s, id, VerdictOf(events, id))
      && s.table.rings[id].listens == Listens(events, id) && s.stories[id].arrived == Heard(events, id)
    else VerdictOf(events, id) == Unborn && !Listens(events, id) && Heard(events, id) == []
  }

  lemma Snoc(events: seq<Event>, e: Event)
    ensures Front(events + [e]) == events && Last(events + [e]) == e
  {
  }

  lemma TableStep(s: State, events: seq<Event>, e: Event)
    requires Invariant(s) && TableTold(s, events) && Enabled(s, e)
    ensures TableTold(Next(s, e), events + [e])
  {
    Snoc(events, e);
  }

  lemma OwnStepStands(s: State, e: Event, id: nat, verdict: Verdict)
    requires Invariant(s) && Enabled(s, e) && id < |s.stages| && Stands(s, id, verdict) && OwnStep(e, id)
    ensures var t := Next(s, e); id < |t.stages| && id < |t.table.slots|
    ensures Stands(Next(s, e), id, Judged(verdict, false, s.table.done, e, id))
  {
    assert CallFits(s, id);
    hide Genuine, CallFits, ShownNext;
  }

  lemma OtherStepStands(s: State, e: Event, id: nat, verdict: Verdict)
    requires Invariant(s) && Enabled(s, e) && id < |s.stages| && Stands(s, id, verdict) && !OwnStep(e, id)
    ensures var t := Next(s, e); id < |t.stages| && id < |t.table.slots|
    ensures Stands(Next(s, e), id, Judged(verdict, false, s.table.done, e, id))
  {
    hide Genuine, Pushed, Told;
    assert CallFits(s, id);
  }

  lemma NewCallStands(s: State, e: Event, id: nat)
    requires Invariant(s) && Enabled(s, e) && id >= |s.stages|
    ensures var t := Next(s, e); |t.stages| == |t.table.slots| == |t.table.rings| == |t.stories|
    ensures var t := Next(s, e);
            if id < |t.stages| then
              && id == |s.stages| && e.Call? && Stands(t, id, Judged(Unborn, true, s.table.done, e, id))
              && t.table.rings[id].listens == e.listens && t.stories[id].arrived == []
            else !(e.Call? && |s.stages| == id)
  {
    hide Genuine, Pushed, Told;
  }

  lemma UnbornStays(e: Event, id: nat, next: bool, over: bool)
    ensures Judged(Unborn, next, over, e, id) == if e.Call? && next then (if over then Refused else Open) else Unborn
  {
  }

  // The frames a step adds for a call.
  function HeardNow(open: bool, listens: bool, e: Event, id: nat): seq<string> {
    if e.Progress? && e.id == id && open && listens then [e.payload] else []
  }

  lemma OldCallHears(s: State, e: Event, id: nat)
    requires Invariant(s) && Enabled(s, e) && id < |s.stages|
    ensures var t := Next(s, e);
            && id < |t.table.rings| && id < |t.stories| && t.table.rings[id].listens == s.table.rings[id].listens
            && t.stories[id].arrived == s.stories[id].arrived + HeardNow(id in s.table.pending, s.table.rings[id].listens, e, id)
  {
  }

  lemma OpenIsPending(s: State, id: nat, verdict: Verdict)
    requires id < |s.stages| && id < |s.table.slots| && Stands(s, id, verdict)
    ensures id in s.table.pending <==> verdict == Open
  {
  }

  lemma CallStep(s: State, events: seq<Event>, e: Event, id: nat)
    requires Invariant(s) && TableTold(s, events) && CallTold(s, events, id) && Enabled(s, e)
    ensures CallTold(Next(s, e), events + [e], id)
  {
    hide Closing, Ending, Stands, CallFits, Judged, Next, Enabled;
    Snoc(events, e);
    if id < |s.stages| {
      if OwnStep(e, id) { OwnStepStands(s, e, id, VerdictOf(events, id)); } else { OtherStepStands(s, e, id, VerdictOf(events, id)); }
      OldCallHears(s, e, id);
      OpenIsPending(s, id, VerdictOf(events, id));
      assert CallsIn(events) != id;
    } else {
      NewCallStands(s, e, id);
      UnbornStays(e, id, |s.stages| == id, s.table.done);
    }
  }

  ghost predicate AllTold(s: State, events: seq<Event>) { TableTold(s, events) && forall id: nat :: CallTold(s, events, id) }

  lemma {:induction false} RunTells(past: seq<Event>, s: State, events: seq<Event>, t: State)
    requires Invariant(s) && AllTold(s, past) && Reaches(s, events, t)
    ensures AllTold(t, past + events)
    decreases |events|
  {
    hide Invariant, TableTold, CallTold, Next, Enabled;
    if events == [] {
      assert past + events == past;
    } else {
      var e, u := events[0], Next(s, events[0]);
      StepKeeps(s, e);
      TableStep(s, past, e);
      forall id: nat ensures CallTold(u, past + [e], id) { CallStep(s, past, e, id); }
      RunTells(past + [e], u, events[1..], t);
      assert past + [e] + events[1..] == past + events;
    }
  }

  lemma FromStart(events: seq<Event>, s: State)
    requires Reaches(START, events, s)
    ensures Invariant(s) && AllTold(s, events)
  {
    assert AllTold(START, []);
    hide AllTold;
    RunKeeps(START, events, s);
    RunTells([], START, events, s);
    assert [] + events == events;
  }

  /**
   Every run determines how each of its calls stands: pending until the first event that concerns it,
   then with that response, with the end of the session, given up, or unsent, and nothing later changes
   that but a failed send, which is reported whatever the channel holds. The end's cause is the first
   local close's reason, or else the error that ended the session.
   */
  lemma CallsStandAsTold(events: seq<Event>, s: State, id: nat)
    requires Reaches(START, events, s)
    ensures s.table.done == Ending(events).Some? && (s.table.done ==> s.table.cause == Ending(events).value)
    ensures |s.stages| == |s.table.slots| == |s.table.rings| == |s.stories| == CallsIn(events)
    ensures id < |s.stages| ==> Stands(s, id, VerdictOf(events, id)) && s.stories[id].arrived == Heard(events, id)
  {
    hide Stands, VerdictOf, Heard, CallsIn, Ending, Closing, CallFits;
    FromStart(events, s);
    assert CallTold(s, events, id);
  }

  predicate EndsAs(verdict: Verdict, outcome: Outcome, cause: string) {
    match verdict
    case Answered(reply) => outcome.Got? && outcome.result == Replied(reply)
    case CutOff => outcome.Got? && outcome.result == Closed(cause)
    case Abandoned => outcome == CallerGaveUp
    case Reported(err) => outcome == NotSent(err)
    case Refused => outcome == SessionClosed(cause)
    case _ => false
  }

  lemma StandingEnds(s: State, id: nat, verdict: Verdict)
    requires id < |s.stages| && id < |s.table.slots| && |s.stages| == |s.table.slots|
    requires CallFits(s, id) && Stands(s, id, verdict) && s.stages[id].Ended?
    ensures EndsAs(verdict, s.stages[id].outcome, s.table.cause)
    ensures verdict.CutOff? || verdict.Refused? ==> s.table.done
  {
  }

  /** The outcome of a call is the one its verdict names. */
  lemma OutcomeIs(events: seq<Event>, s: State, id: nat)
    requires Reaches(START, events, s) && id < |s.stages| && s.stages[id].Ended?
    ensures EndsAs(VerdictOf(events, id), s.stages[id].outcome, if Ending(events).Some? then Ending(events).value else "")
  {
    hide Stands, VerdictOf, Heard, CallsIn, Ending, Closing, CallFits, EndsAs;
    FromStart(events, s);
    CallsStandAsTold(events, s, id);
    StandingEnds(s, id, VerdictOf(events, id));
    if !Ending(events).Some? { CauseIsIdle(VerdictOf(events, id), s.stages[id].outcome, s.table.cause); }
  }

  lemma CauseIsIdle(verdict: Verdict, outcome: Outcome, cause: string)
    requires !verdict.CutOff? && !verdict.Refused? && EndsAs(verdict, outcome, cause)
    ensures EndsAs(verdict, outcome, "")
  {
  }
}
