/**
 Status scans shared between readers. A scan may be joined only as long as no write has begun or
 ended since it was started, and only then may its result become the drift shown in heartbeats.
 */
module StatusFlight {

  datatype Option<T> = None | Some(value: T)

  /** A scan runs, may hand its drift to the cache, and then releases its readers. */
  datatype Progress = Scanning | Offered | Done

  datatype Call = Call(generation: nat, epoch: nat, waiters: int, progress: Progress)

  /** What the lock protects; `drift` names the scan whose drift is cached. */
  datatype Table = Table(writeGen: nat, scanEpoch: nat, flights: map<nat, nat>, calls: seq<Call>, drift: Option<nat>)

  predicate WellFormed(t: Table) { forall e :: e in t.flights ==> t.flights[e] < |t.calls| }

  function Begun(t: Table): Table { t.(scanEpoch := t.scanEpoch + 1) }

  function Bumped(t: Table): Table { t.(writeGen := t.writeGen + 1, scanEpoch := t.scanEpoch + 1) }

  predicate StartsScan(t: Table)
    requires WellFormed(t)
  {
    t.scanEpoch !in t.flights || t.calls[t.flights[t.scanEpoch]].generation != t.writeGen
  }

  /** The call a reader ends up waiting for. */
  function JoinedCall(t: Table): nat
    requires WellFormed(t)
  {
    if StartsScan(t) then |t.calls| else t.flights[t.scanEpoch]
  }

  function Joined(t: Table): Table
    requires WellFormed(t)
  {
    if StartsScan(t) then
      t.(calls := t.calls + [Call(t.writeGen, t.scanEpoch, 1, Scanning)], flights := t.flights[t.scanEpoch := |t.calls|])
    else
      var c := t.flights[t.scanEpoch];
      t.(calls := t.calls[c := t.calls[c].(waiters := t.calls[c].waiters + 1)])
  }

  predicate Current(t: Table, c: nat)
    requires c < |t.calls|
  {
    t.writeGen == t.calls[c].generation && t.scanEpoch == t.calls[c].epoch
  }

  function OfferedDrift(t: Table, c: nat): Table
    requires c < |t.calls|
  {
    t.(calls := t.calls[c := t.calls[c].(progress := Offered)], drift := if Current(t, c) then Some(c) else t.drift)
  }

  function Finished(t: Table, c: nat): Table
    requires c < |t.calls|
  {
    var epoch := t.calls[c].epoch;
    t.(calls := t.calls[c := t.calls[c].(progress := Done)],
       flights := if epoch in t.flights && t.flights[epoch] == c then t.flights - {epoch} else t.flights)
  }

  function Left(t: Table, c: nat): Table
    requires c < |t.calls|
  {
    t.(calls := t.calls[c := t.calls[c].(waiters := t.calls[c].waiters - 1)])
  }

  class StatusFlight {
    var writeGen: nat
    var scanEpoch: nat
    var flights: map<nat, nat>
    var calls: seq<Call>
    var drift: Option<nat>

    constructor ()
      ensures View() == Table(0, 0, map[], [], None)
    {
      writeGen, scanEpoch, flights, calls, drift := 0, 0, map[], [], None;
    }

    function View(): Table
      reads this
    {
      Table(writeGen, scanEpoch, flights, calls, drift)
    }

    method BeginWriteGen()
      modifies this
      ensures View() == Begun(old(View()))
    {
      scanEpoch := scanEpoch + 1;
    }

    method BumpWriteGen()
      modifies this
      ensures View() == Bumped(old(View()))
    {
      writeGen := writeGen + 1;
      scanEpoch := scanEpoch + 1;
    }

    /** A reader joins the scan of the current epoch, or starts one. */
    method Join() returns (call: nat, start: bool)
      requires WellFormed(View())
      modifies this
      ensures View() == Joined(old(View()))
      ensures call == JoinedCall(old(View())) && start == StartsScan(old(View()))
    {
      if scanEpoch in flights {
        call := flights[scanEpoch];
        start := calls[call].generation != writeGen;
      } else {
        start := true;
      }
      if start {
        call := |calls|;
        calls := calls + [Call(writeGen, scanEpoch, 0, Scanning)];
        flights := flights[scanEpoch := call];
      }
      calls := calls[call := calls[call].(waiters := calls[call].waiters + 1)];
    }

    method Offer(call: nat)
      requires call < |calls|
      modifies this
      ensures View() == OfferedDrift(old(View()), call)
    {
      var current := writeGen == calls[call].generation && scanEpoch == calls[call].epoch;
      if current {
        drift := Some(call);
      }
      calls := calls[call := calls[call].(progress := Offered)];
    }

    method Finish(call: nat)
      requires call < |calls|
      modifies this
      ensures View() == Finished(old(View()), call)
    {
      var epoch := calls[call].epoch;
      calls := calls[call := calls[call].(progress := Done)];
      if epoch in flights && flights[epoch] == call {
        flights := flights - {epoch};
      }
    }

    method Leave(call: nat)
      requires call < |calls|
      modifies this
      ensures View() == Left(old(View()), call)
    {
      calls := calls[call := calls[call].(waiters := calls[call].waiters - 1)];
    }
  }

  // ----- Interleavings -----

  /**
   A write begins or ends, a reader joins, a scan offers its drift or finishes, a reader leaves with
   a result or because it was cancelled, and the cached drift is forgotten.
   */
  datatype Event = Begin | Bump | Join | Offer(call: nat) | Finish(call: nat) | Leave(reader: nat) | Forget

  predicate IsWrite(e: Event) { e.Begin? || e.Bump? }

  /** A reader knows its scan, when it joined, and whether it has left. */
  datatype Reader = Reader(call: nat, joined: nat, left: bool)

  /** The table with the history behind it: when each scan was created and the drift was cached. */
  datatype State = State(table: Table, history: seq<Event>, created: seq<nat>, readers: seq<Reader>, cached: nat)

  const START := State(Table(0, 0, map[], [], None), [], [], [], 0)

  predicate Enabled(s: State, e: Event) {
    match e
    case Offer(c) => c < |s.table.calls| && s.table.calls[c].progress == Scanning
    case Finish(c) => c < |s.table.calls| && s.table.calls[c].progress != Done
    case Join => WellFormed(s.table)
    case Leave(r) => r < |s.readers| && !s.readers[r].left && s.readers[r].call < |s.table.calls|
    case _ => true
  }

  function Next(s: State, e: Event): State
    requires Enabled(s, e)
  {
    var past := s.history + [e];
    match e
    case Begin => s.(table := Begun(s.table), history := past)
    case Bump => s.(table := Bumped(s.table), history := past)
    case Join =>
      s.(table := Joined(s.table), history := past,
         created := if StartsScan(s.table) then s.created + [|s.history|] else s.created,
         readers := s.readers + [Reader(JoinedCall(s.table), |s.history|, false)])
    case Offer(c) =>
      s.(table := OfferedDrift(s.table, c), history := past, cached := if Current(s.table, c) then |s.history| else s.cached)
    case Finish(c) => s.(table := Finished(s.table, c), history := past)
    case Leave(r) =>
      s.(table := Left(s.table, s.readers[r].call), history := past, readers := s.readers[r := s.readers[r].(left := true)])
    case Forget => s.(table := s.table.(drift := None), history := past)
  }

  function Writes(history: seq<Event>): nat {
    if history == [] then 0
    else Writes(history[..|history| - 1]) + (if IsWrite(history[|history| - 1]) then 1 else 0)
  }

  function Bumps(history: seq<Event>): nat {
    if history == [] then 0
    else Bumps(history[..|history| - 1]) + (if history[|history| - 1].Bump? then 1 else 0)
  }

  /** Nothing was written between two moments. */
  predicate Undisturbed(history: seq<Event>, from: nat, to: nat) {
    forall i :: from <= i < to && i < |history| ==> !IsWrite(history[i])
  }

  function Pending(readers: seq<Reader>, c: nat): nat {
    if readers == [] then 0
    else Pending(readers[..|readers| - 1], c) + (if readers[|readers| - 1].call == c && !readers[|readers| - 1].left then 1 else 0)
  }

  // A call carries the counters of the moment it was created at.
  predicate CallFits(s: State, c: nat)
    requires c < |s.table.calls| == |s.created|
  {
    && s.created[c] <= |s.history|
    && s.table.calls[c].epoch == Writes(s.history[..s.created[c]])
    && s.table.calls[c].generation == Bumps(s.history[..s.created[c]])
    && s.table.calls[c].waiters == Pending(s.readers, c)
    && (s.table.calls[c].progress != Done <==>
        s.table.calls[c].epoch in s.table.flights && s.table.flights[s.table.calls[c].epoch] == c)
  }

  predicate ReaderFits(s: State, r: nat)
    requires r < |s.readers|
  {
    var reader := s.readers[r];
    && reader.call < |s.created| && s.created[reader.call] <= reader.joined < |s.history|
    && Undisturbed(s.history, s.created[reader.call], reader.joined)
  }

  predicate DriftFits(s: State) {
    s.table.drift.Some? ==>
      && s.table.drift.value < |s.created|
      && s.created[s.table.drift.value] <= s.cached < |s.history|
      && Undisturbed(s.history, s.created[s.table.drift.value], s.cached)
  }

  predicate Invariant(s: State) {
    && s.table.scanEpoch == Writes(s.history)
    && s.table.writeGen == Bumps(s.history)
    && |s.table.calls| == |s.created|
    && (forall e :: e in s.table.flights ==> s.table.flights[e] < |s.table.calls| && s.table.calls[s.table.flights[e]].epoch == e)
    && (forall c :: 0 <= c < |s.created| ==> CallFits(s, c))
    && (forall r :: 0 <= r < |s.readers| ==> ReaderFits(s, r))
    && DriftFits(s)
  }

  ghost predicate Reaches(s: State, events: seq<Event>, t: State)
    decreases |events|
  {
    if events == [] then t == s
    else Enabled(s, events[0]) && Reaches(Next(s, events[0]), events[1..], t)
  }

  // ----- Counters and history -----

  lemma {:induction false} WritesGrow(history: seq<Event>, k: nat)
    requires k <= |history|
    ensures Writes(history[..k]) <= Writes(history)
    ensures Writes(history[..k]) == Writes(history) <==> Undisturbed(history, k, |history|)
  {
    if k == |history| {
      assert history[..k] == history;
    } else {
      var shorter := history[..|history| - 1];
      assert shorter[..k] == history[..k];
      WritesGrow(shorter, k);
    }
  }

  lemma {:induction false} QuietBumps(history: seq<Event>, k: nat)
    requires k <= |history| && Undisturbed(history, k, |history|)
    ensures Bumps(history[..k]) == Bumps(history)
  {
    if k == |history| {
      assert history[..k] == history;
    } else {
      var shorter := history[..|history| - 1];
      assert shorter[..k] == history[..k];
      QuietBumps(shorter, k);
    }
  }

  /** Equal epochs mean that nothing was written since the scan was created, so the generations agree too. */
  lemma EpochDecides(s: State, c: nat)
    requires Invariant(s) && c < |s.created|
    ensures s.table.calls[c].epoch == s.table.scanEpoch <==> Undisturbed(s.history, s.created[c], |s.history|)
    ensures s.table.calls[c].epoch == s.table.scanEpoch ==> s.table.calls[c].generation == s.table.writeGen
    ensures Current(s.table, c) <==> s.table.calls[c].epoch == s.table.scanEpoch
  {
    assert CallFits(s, c);
    WritesGrow(s.history, s.created[c]);
    if Undisturbed(s.history, s.created[c], |s.history|) { QuietBumps(s.history, s.created[c]); }
  }

  /** The generation test of a joining reader decides nothing beyond the epoch. */
  lemma GenerationCheckIsRedundant(s: State)
    requires Invariant(s)
    ensures StartsScan(s.table) <==> s.table.scanEpoch !in s.table.flights
    ensures s.table.scanEpoch in s.table.flights ==> s.table.calls[s.table.flights[s.table.scanEpoch]].progress != Done
  {
    if s.table.scanEpoch in s.table.flights {
      var c := s.table.flights[s.table.scanEpoch];
      assert CallFits(s, c);
      EpochDecides(s, c);
    }
  }

  // ----- Steps keep the invariant -----

  lemma CountsAfter(history: seq<Event>, e: Event)
    ensures Writes(history + [e]) == Writes(history) + (if IsWrite(e) then 1 else 0)
    ensures Bumps(history + [e]) == Bumps(history) + (if e.Bump? then 1 else 0)
    ensures forall k :: 0 <= k <= |history| ==> (history + [e])[..k] == history[..k]
  {
    assert (history + [e])[..|history|] == history;
  }

  lemma {:induction false} PendingNone(readers: seq<Reader>, c: nat)
    requires forall r :: 0 <= r < |readers| ==> readers[r].call != c
    ensures Pending(readers, c) == 0
  {
    if readers != [] { PendingNone(readers[..|readers| - 1], c); }
  }

  lemma {:induction false} PendingLeave(readers: seq<Reader>, r: nat, c: nat)
    requires r < |readers| && !readers[r].left
    ensures Pending(readers[r := readers[r].(left := true)], c) + (if readers[r].call == c then 1 else 0) == Pending(readers, c)
  {
    var last := |readers| - 1;
    var after := readers[r := readers[r].(left := true)];
    if r == last {
      assert after[..last] == readers[..last];
    } else {
      assert after[..last] == readers[..last][r := readers[r].(left := true)];
      PendingLeave(readers[..last], r, c);
    }
  }

  lemma PendingJoin(readers: seq<Reader>, reader: Reader, c: nat)
    ensures Pending(readers + [reader], c) == Pending(readers, c) + (if reader.call == c && !reader.left then 1 else 0)
  {
    assert (readers + [reader])[..|readers|] == readers;
  }

  // A step that leaves calls, flights, and readers alone.
  lemma HistoryKeeps(s: State, t: State, e: Event)
    requires Invariant(s) && t.history == s.history + [e] && t.created == s.created && t.readers == s.readers
    requires t.table.calls == s.table.calls && t.table.flights == s.table.flights
    requires t.table.scanEpoch == s.table.scanEpoch + (if IsWrite(e) then 1 else 0)
    requires t.table.writeGen == s.table.writeGen + (if e.Bump? then 1 else 0)
    requires t.table.drift == None || (t.table.drift == s.table.drift && t.cached == s.cached)
    ensures Invariant(t)
  {
    hide Writes, Bumps, Pending;
    CountsAfter(s.history, e);
    forall c | 0 <= c < |t.created| ensures CallFits(t, c) { assert CallFits(s, c); }
    forall r | 0 <= r < |t.readers| ensures ReaderFits(t, r) { assert ReaderFits(s, r); }
  }

  // A step that changes the progress of one call, its place in the flights, and maybe the drift.
  lemma ProgressKeeps(s: State, t: State, e: Event, c: nat)
    requires Invariant(s) && Enabled(s, e) && (e == Offer(c) || e == Finish(c)) && t == Next(s, e)
    ensures Invariant(t)
  {
    hide Writes, Bumps, Pending;
    CountsAfter(s.history, e);
    assert CallFits(s, c);
    EpochDecides(s, c);
    forall d | 0 <= d < |t.created| ensures CallFits(t, d) { assert CallFits(s, d); }
    forall r | 0 <= r < |t.readers| ensures ReaderFits(t, r) { assert ReaderFits(s, r); }
  }

  lemma LeaveKeeps(s: State, r: nat)
    requires Invariant(s) && Enabled(s, Leave(r))
    ensures Invariant(Next(s, Leave(r)))
  {
    hide Writes, Bumps, Pending;
    var t, e := Next(s, Leave(r)), Leave(r);
    CountsAfter(s.history, e);
    assert ReaderFits(s, r);
    forall c | 0 <= c < |t.created| ensures CallFits(t, c) {
      assert CallFits(s, c);
      PendingLeave(s.readers, r, c);
    }
    forall k | 0 <= k < |t.readers| ensures ReaderFits(t, k) { assert ReaderFits(s, k); }
  }

  lemma JoinedReaderFits(s: State, t: State)
    requires Invariant(s) && Enabled(s, Join) && t == Next(s, Join)
    ensures forall r :: 0 <= r < |t.readers| ==> ReaderFits(t, r)
  {
    hide Writes, Bumps, Pending;
    var call := JoinedCall(s.table);
    GenerationCheckIsRedundant(s);
    if call < |s.created| {
      assert CallFits(s, call);
      EpochDecides(s, call);
    }
    forall r | 0 <= r < |t.readers| ensures ReaderFits(t, r) {
      if r < |s.readers| { assert ReaderFits(s, r); }
    }
  }

  lemma JoinKeeps(s: State)
    requires Invariant(s)
    ensures Enabled(s, Join) && Invariant(Next(s, Join))
  {
    hide Writes, Bumps, Pending;
    var t, call := Next(s, Join), JoinedCall(s.table);
    CountsAfter(s.history, Join);
    GenerationCheckIsRedundant(s);
    JoinedReaderFits(s, t);
    forall c | 0 <= c < |t.created| ensures CallFits(t, c) {
      PendingJoin(s.readers, Reader(call, |s.history|, false), c);
      if c < |s.created| {
        assert CallFits(s, c);
      } else {
        forall r | 0 <= r < |s.readers| ensures s.readers[r].call != c { assert ReaderFits(s, r); }
        PendingNone(s.readers, c);
        assert t.history[..t.created[c]] == s.history;
      }
    }
  }

  lemma StepKeeps(s: State, e: Event)
    requires Invariant(s) && Enabled(s, e)
    ensures Invariant(Next(s, e))
  {
    hide Invariant;
    var t := Next(s, e);
    match e
    case Join => JoinKeeps(s);
    case Leave(r) => LeaveKeeps(s, r);
    case Offer(c) => ProgressKeeps(s, t, e, c);
    case Finish(c) => ProgressKeeps(s, t, e, c);
    case _ => HistoryKeeps(s, t, e);
  }

  lemma {:induction false} RunKeeps(s: State, events: seq<Event>, t: State)
    requires Invariant(s) && Reaches(s, events, t)
    ensures Invariant(t) && t.history == s.history + events
    decreases |events|
  {
    hide Invariant;
    if events != [] {
      StepKeeps(s, events[0]);
      RunKeeps(Next(s, events[0]), events[1..], t);
      assert [events[0]] + events[1..] == events;
    }
  }

  lemma FromStart(events: seq<Event>, s: State)
    requires Reaches(START, events, s)
    ensures Invariant(s) && s.history == events
  {
    RunKeeps(START, events, s);
    assert [] + events == events;
  }

  /** A reader that joins after a write began or ended gets a scan created after that. */
  lemma ReportsAreFresh(events: seq<Event>, s: State, write: nat, r: nat)
    requires Reaches(START, events, s) && write < |events| && IsWrite(events[write])
    requires r < |s.readers| && write < s.readers[r].joined
    ensures s.readers[r].call < |s.created| && write < s.created[s.readers[r].call] <= s.readers[r].joined
  {
    FromStart(events, s);
    assert ReaderFits(s, r);
  }

  /** Drift enters the cache only from a scan with no write between its creation and that moment. */
  lemma DriftIsFresh(events: seq<Event>, s: State, write: nat)
    requires Reaches(START, events, s) && write < |events| && IsWrite(events[write])
    requires s.table.drift.Some? && write < s.cached
    ensures s.table.drift.value < |s.created| && write < s.created[s.table.drift.value] <= s.cached
  {
    FromStart(events, s);
  }

  /** A scan created before a write never gets its drift into the cache after that write. */
  lemma StaleScanIsIgnored(events: seq<Event>, s: State, write: nat, c: nat)
    requires Reaches(START, events, s) && write < |events| && IsWrite(events[write])
    requires Enabled(s, Offer(c)) && c < |s.created| && s.created[c] <= write
    ensures Next(s, Offer(c)).table.drift == s.table.drift
  {
    FromStart(events, s);
    EpochDecides(s, c);
  }

  /** A scan counts exactly the readers still waiting for it, and only unfinished scans can be joined. */
  lemma ScansServeTheirReaders(events: seq<Event>, s: State, c: nat)
    requires Reaches(START, events, s) && c < |s.table.calls|
    ensures s.table.calls[c].waiters == Pending(s.readers, c)
    ensures WellFormed(s.table) && JoinedCall(s.table) == c ==> s.table.calls[c].progress != Done
  {
    FromStart(events, s);
    assert CallFits(s, c);
    GenerationCheckIsRedundant(s);
  }

  // A scan that still runs and has seen no write since it was created.
  predicate Joinable(s: State, c: nat) {
    && c < |s.created| && c < |s.table.calls|
    && s.table.calls[c].progress != Done && Undisturbed(s.history, s.created[c], |s.history|)
  }

  /**
   Readers share scans: a reader joins the scan that still runs and has seen no write, if there is one,
   and there is one at most. Only without it the reader starts a scan of its own.
   */
  lemma ReadersShareScans(events: seq<Event>, s: State)
    requires Reaches(START, events, s)
    ensures Enabled(s, Join)
    ensures var t, reader := Next(s, Join), |s.readers|;
            && |t.readers| == reader + 1
            && (forall c :: Joinable(s, c) ==> t.readers[reader].call == c && t.created == s.created)
            && ((forall c :: !Joinable(s, c)) ==> t.readers[reader].call == |s.created| && t.created == s.created + [|s.history|])
  {
    FromStart(events, s);
    JoinKeeps(s);
    GenerationCheckIsRedundant(s);
    forall c: nat | Joinable(s, c) ensures s.table.scanEpoch in s.table.flights && s.table.flights[s.table.scanEpoch] == c {
      assert CallFits(s, c);
      EpochDecides(s, c);
    }
    if s.table.scanEpoch in s.table.flights {
      var c := s.table.flights[s.table.scanEpoch];
      assert CallFits(s, c);
      EpochDecides(s, c);
      assert Joinable(s, c);
    }
  }

  /** A scan's drift gets into the cache exactly when nothing was written since the scan was created. */
  lemma DriftIsCachedIff(events: seq<Event>, s: State, c: nat)
    requires Reaches(START, events, s) && Enabled(s, Offer(c))
    ensures c < |s.created|
    ensures Next(s, Offer(c)).table.drift == if Undisturbed(s.history, s.created[c], |s.history|) then Some(c) else s.table.drift
  {
    FromStart(events, s);
    EpochDecides(s, c);
  }
}
