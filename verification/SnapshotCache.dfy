/**
 The agent's cache of the hub's snapshot: one decoded version with its validator, an epoch that
 counts invalidations, and one download shared by all who ask for it in the same epoch.

 The hub's content is numbered by version, and a version's number stands for its entity tag.
 */
module SnapshotCache {

  datatype Option<T> = None | Some(value: T)

  datatype Outcome = Snapshot(version: nat) | Failed

  datatype Flight = Flight(epoch: nat, result: Option<Outcome>)

  datatype Cache = Cache(etag: Option<nat>, snapshot: nat, epoch: nat, valid: bool, flight: Option<nat>, flights: seq<Flight>)

  predicate Shareable(c: Cache) {
    c.flight.Some? && c.flight.value < |c.flights| && c.flights[c.flight.value].epoch == c.epoch
  }

  function Begun(c: Cache): Cache {
    if Shareable(c) then c else c.(flight := Some(|c.flights|), flights := c.flights + [Flight(c.epoch, None)])
  }

  function BegunFlight(c: Cache): nat { if Shareable(c) then c.flight.value else |c.flights| }

  function Finished(c: Cache, f: nat, result: Outcome): Cache
    requires f < |c.flights|
  {
    c.(flights := c.flights[f := c.flights[f].(result := Some(result))], flight := if c.flight == Some(f) then None else c.flight)
  }

  function Cleared(c: Cache): Cache { c.(etag := None, snapshot := 0, valid := false, epoch := c.epoch + 1) }

  function ClearedIf(c: Cache, etag: Option<nat>, epoch: nat): Cache {
    if c.valid && c.etag == etag && c.epoch == epoch then Cleared(c) else c
  }

  /** What a request sends along: the validator of a valid entry. */
  function Validator(c: Cache): Option<nat> { if c.valid then c.etag else None }

  function Got(c: Cache, etag: Option<nat>, epoch: nat): Option<nat> {
    if c.valid && c.epoch == epoch && c.etag == etag then Some(c.snapshot) else None
  }

  function Stored(c: Cache, epoch: nat, etag: Option<nat>, snapshot: nat): Cache {
    if c.epoch != epoch then c
    else if etag == None then Cleared(c)
    else c.(etag := etag, snapshot := snapshot, valid := true)
  }

  class SnapshotCache {
    var etag: Option<nat>
    var snapshot: nat
    var epoch: nat
    var valid: bool
    var flight: Option<nat>
    var flights: seq<Flight>

    constructor ()
      ensures View() == Cache(None, 0, 0, false, None, [])
    {
      etag, snapshot, epoch, valid, flight, flights := None, 0, 0, false, None, [];
    }

    function View(): Cache
      reads this
    {
      Cache(etag, snapshot, epoch, valid, flight, flights)
    }

    /** Joins the download of this epoch, or becomes the leader of a new one. */
    method BeginDownload() returns (f: nat, leader: bool)
      modifies this
      ensures View() == Begun(old(View()))
      ensures f == BegunFlight(old(View())) && leader == !Shareable(old(View()))
    {
      if flight.Some? && flight.value < |flights| && flights[flight.value].epoch == epoch {
        return flight.value, false;
      }
      f := |flights|;
      flights := flights + [Flight(epoch, None)];
      flight := Some(f);
      leader := true;
    }

    method FinishDownload(f: nat, result: Outcome)
      requires f < |flights|
      modifies this
      ensures View() == Finished(old(View()), f, result)
    {
      flights := flights[f := flights[f].(result := Some(result))];
      if flight == Some(f) {
        flight := None;
      }
    }

    method RequestState() returns (validator: Option<nat>, at: nat)
      ensures validator == Validator(View()) && at == epoch
    {
      return if valid then etag else None, epoch;
    }

    method Get(tag: Option<nat>, at: nat) returns (found: Option<nat>)
      ensures found == Got(View(), tag, at)
    {
      if !valid || epoch != at || etag != tag {
        return None;
      }
      return Some(snapshot);
    }

    /** Takes a response in unless the cache was invalidated since the request. */
    method Store(at: nat, tag: Option<nat>, content: nat) returns (now: nat)
      modifies this
      ensures View() == Stored(old(View()), at, tag, content) && now == epoch
    {
      if epoch != at {
        return epoch;
      }
      if tag == None {
        Invalidate();
        return epoch;
      }
      etag, snapshot, valid := tag, content, true;
      return epoch;
    }

    method Invalidate()
      modifies this
      ensures View() == Cleared(old(View()))
    {
      etag, snapshot, valid := None, 0, false;
      epoch := epoch + 1;
    }

    method InvalidateIf(tag: Option<nat>, at: nat)
      modifies this
      ensures View() == ClearedIf(old(View()), tag, at)
    {
      if valid && etag == tag && epoch == at {
        Invalidate();
      }
    }
  }

  // ----- Downloads, uploads, and the hub -----

  /** The hub's answer, fixed at one instant between request and response. */
  datatype Reply = Body(version: nat, tagged: bool) | NotModified(header: Option<nat>) | Conflict | Broken

  /** A download leads (`attempt` is 0 or 1) or waits for the flight it joined. */
  datatype Phase =
    | Fresh(attempt: nat)
    | Asked(attempt: nat, validator: Option<nat>, at: nat)
    | Replied(attempt: nat, validator: Option<nat>, at: nat, reply: Reply)
    | Kept(attempt: nat, version: nat, at: nat)
    | Ended(outcome: Outcome)
    | Waiting
    | Returned(outcome: Outcome)

  /**
   `hubThen` and `uploadsThen` record, at the begin, the hub's version and the newest returned upload;
   `hubLast` is the hub's version at the download's latest step, `asked` the epoch it last asked in.
   */
  datatype Download = Download(
    flight: nat, leader: bool, phase: Phase, hubThen: nat, uploadsThen: nat, hubLast: nat, asked: Option<nat>)

  /** An upload invalidates, posts, and invalidates again before it returns. */
  datatype Upload = Sending | Sent(accepted: Option<nat>) | Over

  /** `floors` holds the hub's version at the start of every epoch, `newest` that of the newest returned upload. */
  datatype State = State(hub: nat, cache: Cache, downloads: seq<Download>, uploads: seq<Upload>, floors: seq<nat>, newest: nat)

  datatype Event =
    | Begin
    | Ask(d: nat)
    | Answer(d: nat, reply: Reply)
    | Receive(d: nat)
    | Fetch(d: nat)
    | Finish(d: nat)
    | Leave(d: nat, cancelled: bool)
    | StartUpload
    | Post(u: nat, accepted: bool)
    | EndUpload(u: nat)
    | OtherPush

  function Start(hub: nat): State { State(hub, Cache(None, 0, 0, false, None, []), [], [], [hub], 0) }

  /** A hub that keeps the promise of its tags: its body is current, and 304 means the tag is current. */
  predicate Honest(hub: nat, validator: Option<nat>, reply: Reply) {
    && (reply.Body? ==> reply.version == hub)
    && (reply.NotModified? ==> validator == Some(hub))
  }

  predicate Enabled(s: State, e: Event) {
    match e
    case Ask(d) => d < |s.downloads| && s.downloads[d].phase.Fresh?
    case Answer(d, reply) =>
      d < |s.downloads| && s.downloads[d].phase.Asked? && Honest(s.hub, s.downloads[d].phase.validator, reply)
    case Receive(d) => d < |s.downloads| && s.downloads[d].phase.Replied?
    case Fetch(d) => d < |s.downloads| && s.downloads[d].phase.Kept?
    case Finish(d) => d < |s.downloads| && s.downloads[d].phase.Ended? && s.downloads[d].flight < |s.cache.flights|
    case Leave(d, cancelled) =>
      && d < |s.downloads| && s.downloads[d].phase.Waiting? && s.downloads[d].flight < |s.cache.flights|
      && (!cancelled ==> s.cache.flights[s.downloads[d].flight].result.Some?)
    case Post(u, _) => u < |s.uploads| && s.uploads[u].Sending?
    case EndUpload(u) => u < |s.uploads| && s.uploads[u].Sent?
    case _ => true
  }

  /** A failed try starts over once. */
  function Retry(attempt: nat): Phase { if attempt == 0 then Fresh(1) else Ended(Failed) }

  /** The cache, and the phase of the download, after a reply has come in. */
  function Received(c: Cache, attempt: nat, validator: Option<nat>, at: nat, reply: Reply): (Cache, Phase) {
    match reply
    case Body(version, tagged) =>
      var kept := Stored(c, at, if tagged then Some(version) else None, version);
      (kept, if tagged then Kept(attempt, version, kept.epoch) else Ended(Snapshot(version)))
    case NotModified(header) =>
      if header.Some? && header != validator then (ClearedIf(c, validator, at), Retry(attempt))
      else if Got(c, validator, at).Some? then (c, Ended(Snapshot(Got(c, validator, at).value)))
      else (c, Retry(attempt))
    case Conflict => (if validator.Some? then ClearedIf(c, validator, at) else c, Ended(Failed))
    case Broken => (c, Ended(Failed))
  }

  function Moved(s: State, d: nat, phase: Phase): State
    requires d < |s.downloads|
  {
    s.(downloads := s.downloads[d := s.downloads[d].(phase := phase, hubLast := s.hub)])
  }

  /** A cache step; a new epoch notes the hub's version. */
  function WithCache(s: State, c: Cache): State {
    s.(cache := c, floors := if c.epoch > s.cache.epoch then s.floors + [s.hub] else s.floors)
  }

  function Next(s: State, e: Event): State
    requires Enabled(s, e)
  {
    match e
    case Begin =>
      var leader := !Shareable(s.cache);
      s.(cache := Begun(s.cache),
         downloads := s.downloads + [Download(BegunFlight(s.cache), leader, if leader then Fresh(0) else Waiting, s.hub, s.newest, s.hub, None)])
    case Ask(d) =>
      var t := Moved(s, d, Asked(s.downloads[d].phase.attempt, Validator(s.cache), s.cache.epoch));
      t.(downloads := t.downloads[d := t.downloads[d].(asked := Some(s.cache.epoch))])
    case Answer(d, reply) =>
      var p := s.downloads[d].phase;
      Moved(s, d, Replied(p.attempt, p.validator, p.at, reply))
    case Receive(d) =>
      var p := s.downloads[d].phase;
      var (c, phase) := Received(s.cache, p.attempt, p.validator, p.at, p.reply);
      Moved(WithCache(s, c), d, phase)
    case Fetch(d) =>
      var p := s.downloads[d].phase;
      var found := Got(s.cache, Some(p.version), p.at);
      Moved(s, d, if found.Some? then Ended(Snapshot(found.value)) else Retry(p.attempt))
    case Finish(d) =>
      var download := s.downloads[d];
      Moved(s.(cache := Finished(s.cache, download.flight, download.phase.outcome)), d, Returned(download.phase.outcome))
    case Leave(d, cancelled) =>
      Moved(s, d, Returned(if cancelled then Failed else s.cache.flights[s.downloads[d].flight].result.value))
    case StartUpload => WithCache(s, Cleared(s.cache)).(uploads := s.uploads + [Sending])
    case Post(u, accepted) =>
      if accepted then s.(hub := s.hub + 1, uploads := s.uploads[u := Sent(Some(s.hub + 1))])
      else s.(uploads := s.uploads[u := Sent(None)])
    case EndUpload(u) =>
      var accepted := s.uploads[u].accepted;
      WithCache(s, Cleared(s.cache)).(
        uploads := s.uploads[u := Over],
        newest := if accepted.Some? && accepted.value > s.newest then accepted.value else s.newest)
    case OtherPush => s.(hub := s.hub + 1)
  }

  ghost predicate Reaches(s: State, events: seq<Event>, t: State)
    decreases |events|
  {
    if events == [] then t == s else Enabled(s, events[0]) && Reaches(Next(s, events[0]), events[1..], t)
  }

  // ----- Invariant -----

  predicate CacheFits(s: State) {
    && |s.floors| == s.cache.epoch + 1
    && (forall i, j :: 0 <= i <= j < |s.floors| ==> s.floors[i] <= s.floors[j])
    && s.newest <= s.floors[s.cache.epoch] <= s.hub
    && (s.cache.valid ==> s.cache.etag == Some(s.cache.snapshot) && s.floors[s.cache.epoch] <= s.cache.snapshot <= s.hub)
    && (s.cache.flight.Some? ==> s.cache.flight.value < |s.cache.flights|)
  }

  predicate FlightFits(s: State, f: nat)
    requires f < |s.cache.flights|
  {
    var flight := s.cache.flights[f];
    && flight.epoch < |s.floors|
    && (flight.result.Some? && flight.result.value.Snapshot? ==>
          s.floors[flight.epoch] <= flight.result.value.version <= s.hub)
  }

  // A version the download may end with.
  predicate Good(s: State, d: Download, version: nat)
    requires d.flight < |s.cache.flights| && s.cache.flights[d.flight].epoch < |s.floors|
  {
    s.floors[s.cache.flights[d.flight].epoch] <= version <= s.hub && (d.leader ==> d.hubThen <= version)
  }

  predicate PhaseFits(s: State, d: Download)
    requires d.flight < |s.cache.flights| && s.cache.flights[d.flight].epoch < |s.floors|
  {
    var begun := s.cache.flights[d.flight].epoch;
    match d.phase
    case Fresh(_) => d.leader
    case Asked(_, _, at) => d.leader && begun <= at < |s.floors|
    case Replied(_, validator, at, reply) =>
      && d.leader && begun <= at < |s.floors|
      && (reply.Body? ==> Good(s, d, reply.version) && s.floors[at] <= reply.version)
      && (reply.NotModified? ==> validator.Some? && Good(s, d, validator.value))
    case Kept(_, version, at) => d.leader && begun <= at < |s.floors| && Good(s, d, version)
    case Ended(outcome) => d.leader && (outcome.Snapshot? ==> Good(s, d, outcome.version))
    case Waiting => !d.leader
    case Returned(outcome) => outcome.Snapshot? ==> Good(s, d, outcome.version) && outcome.version <= d.hubLast
  }

  predicate DownloadFits(s: State, i: nat)
    requires i < |s.downloads|
  {
    var d := s.downloads[i];
    && d.flight < |s.cache.flights| && s.cache.flights[d.flight].epoch < |s.floors|
    && d.uploadsThen <= s.floors[s.cache.flights[d.flight].epoch]
    && d.hubThen <= s.hub
    && PhaseFits(s, d)
  }

  predicate Invariant(s: State) {
    && CacheFits(s)
    && (forall f :: 0 <= f < |s.cache.flights| ==> FlightFits(s, f))
    && (forall i :: 0 <= i < |s.downloads| ==> DownloadFits(s, i))
    && (forall u :: 0 <= u < |s.uploads| ==> UploadFits(s, u))
  }

  predicate UploadFits(s: State, u: nat)
    requires u < |s.uploads|
  {
    s.uploads[u].Sent? && s.uploads[u].accepted.Some? ==> s.uploads[u].accepted.value <= s.hub
  }

  // The rest of the system stays as it was; only the hub, the floors, and the flights may have grown.
  predicate Grows(s: State, t: State) {
    && s.hub <= t.hub && s.floors <= t.floors
    && |s.cache.flights| <= |t.cache.flights|
    && forall f :: 0 <= f < |s.cache.flights| ==> t.cache.flights[f].epoch == s.cache.flights[f].epoch
  }

  lemma OthersFit(s: State, t: State, i: nat, j: nat)
    requires Grows(s, t) && i < |s.downloads| && DownloadFits(s, i) && j < |t.downloads| && t.downloads[j] == s.downloads[i]
    ensures DownloadFits(t, j)
  {
  }

  lemma UploadsFit(s: State, t: State)
    requires Grows(s, t) && forall u :: 0 <= u < |s.uploads| ==> UploadFits(s, u)
    requires t.uploads == s.uploads
    ensures forall u :: 0 <= u < |t.uploads| ==> UploadFits(t, u)
  {
    forall u | 0 <= u < |t.uploads| ensures UploadFits(t, u) { assert UploadFits(s, u); }
  }

  // A step of one download that leaves the flights alone.
  lemma MoveKeeps(s: State, t: State, d: nat)
    requires Invariant(s) && CacheFits(t) && Grows(s, t) && d < |s.downloads| == |t.downloads| && DownloadFits(t, d)
    requires t.cache.flights == s.cache.flights && t.uploads == s.uploads
    requires forall i :: 0 <= i < |s.downloads| && i != d ==> t.downloads[i] == s.downloads[i]
    ensures Invariant(t)
  {
    forall f | 0 <= f < |t.cache.flights| ensures FlightFits(t, f) { assert FlightFits(s, f); }
    forall i | 0 <= i < |t.downloads| ensures DownloadFits(t, i) {
      assert DownloadFits(s, i);
      if i != d { OthersFit(s, t, i, i); }
    }
    UploadsFit(s, t);
  }

  // A step that leaves the downloads alone.
  lemma QuietKeeps(s: State, t: State)
    requires Invariant(s) && CacheFits(t) && Grows(s, t)
    requires t.cache.flights == s.cache.flights && t.downloads == s.downloads
    requires forall u :: 0 <= u < |t.uploads| ==> UploadFits(t, u)
    ensures Invariant(t)
  {
    forall f | 0 <= f < |t.cache.flights| ensures FlightFits(t, f) { assert FlightFits(s, f); }
    forall i | 0 <= i < |t.downloads| ensures DownloadFits(t, i) {
      assert DownloadFits(s, i);
      OthersFit(s, t, i, i);
    }
  }

  lemma ClearKeeps(s: State)
    requires CacheFits(s)
    ensures CacheFits(WithCache(s, Cleared(s.cache))) && Grows(s, WithCache(s, Cleared(s.cache)))
  {
  }

  lemma BeginKeeps(s: State)
    requires Invariant(s)
    ensures Invariant(Next(s, Begin))
  {
    var t := Next(s, Begin);
    forall f | 0 <= f < |t.cache.flights| ensures FlightFits(t, f) {
      if f < |s.cache.flights| { assert FlightFits(s, f); }
    }
    forall i | 0 <= i < |t.downloads| ensures DownloadFits(t, i) {
      if i < |s.downloads| {
        assert DownloadFits(s, i);
        OthersFit(s, t, i, i);
      }
    }
    UploadsFit(s, t);
  }

  lemma ReceiveMoves(s: State, d: nat)
    requires Invariant(s) && Enabled(s, Receive(d))
    ensures var t := Next(s, Receive(d));
            CacheFits(t) && Grows(s, t) && t.cache.flights == s.cache.flights
  {
    assert DownloadFits(s, d);
    var p := s.downloads[d].phase;
    var (c, _) := Received(s.cache, p.attempt, p.validator, p.at, p.reply);
    ClearKeeps(s);
    assert c.epoch == s.cache.epoch || c == Cleared(s.cache);
  }

  lemma ReceiveFits(s: State, d: nat)
    requires Invariant(s) && Enabled(s, Receive(d))
    ensures DownloadFits(Next(s, Receive(d)), d)
  {
    assert DownloadFits(s, d);
    var p := s.downloads[d].phase;
    var (c, _) := Received(s.cache, p.attempt, p.validator, p.at, p.reply);
    assert c.flights == s.cache.flights;
    assert c.epoch == s.cache.epoch || c == Cleared(s.cache);
  }

  lemma ReceiveKeeps(s: State, d: nat)
    requires Invariant(s) && Enabled(s, Receive(d))
    ensures Invariant(Next(s, Receive(d)))
  {
    hide CacheFits, Grows, DownloadFits, Invariant, Received;
    ReceiveMoves(s, d);
    ReceiveFits(s, d);
    MoveKeeps(s, Next(s, Receive(d)), d);
  }

  lemma AskKeeps(s: State, d: nat)
    requires Invariant(s) && Enabled(s, Ask(d))
    ensures Invariant(Next(s, Ask(d)))
  {
    assert DownloadFits(s, d);
    MoveKeeps(s, Next(s, Ask(d)), d);
  }

  lemma AnswerKeeps(s: State, d: nat, reply: Reply)
    requires Invariant(s) && Enabled(s, Answer(d, reply))
    ensures Invariant(Next(s, Answer(d, reply)))
  {
    assert DownloadFits(s, d);
    MoveKeeps(s, Next(s, Answer(d, reply)), d);
  }

  lemma FetchKeeps(s: State, d: nat)
    requires Invariant(s) && Enabled(s, Fetch(d))
    ensures Invariant(Next(s, Fetch(d)))
  {
    assert DownloadFits(s, d);
    MoveKeeps(s, Next(s, Fetch(d)), d);
  }

  lemma PushKeeps(s: State)
    requires Invariant(s)
    ensures Invariant(Next(s, OtherPush))
  {
    var t := Next(s, OtherPush);
    UploadsFit(s, t);
    QuietKeeps(s, t);
  }

  lemma FinishKeeps(s: State, d: nat)
    requires Invariant(s) && Enabled(s, Finish(d))
    ensures Invariant(Next(s, Finish(d)))
  {
    var t := Next(s, Finish(d));
    assert DownloadFits(s, d);
    forall f | 0 <= f < |t.cache.flights| ensures FlightFits(t, f) { assert FlightFits(s, f); }
    forall i | 0 <= i < |t.downloads| ensures DownloadFits(t, i) {
      assert DownloadFits(s, i);
      if i != d { OthersFit(s, t, i, i); }
    }
    UploadsFit(s, t);
  }

  lemma LeaveKeeps(s: State, d: nat, cancelled: bool)
    requires Invariant(s) && Enabled(s, Leave(d, cancelled))
    ensures Invariant(Next(s, Leave(d, cancelled)))
  {
    assert DownloadFits(s, d) && FlightFits(s, s.downloads[d].flight);
    MoveKeeps(s, Next(s, Leave(d, cancelled)), d);
  }

  lemma UploadKeeps(s: State, e: Event)
    requires Invariant(s) && Enabled(s, e) && (e.StartUpload? || e.Post? || e.EndUpload?)
    ensures Invariant(Next(s, e))
  {
    var t := Next(s, e);
    ClearKeeps(s);
    if e.EndUpload? { assert UploadFits(s, e.u); }
    forall u | 0 <= u < |t.uploads| ensures UploadFits(t, u) {
      if u < |s.uploads| { assert UploadFits(s, u); }
    }
    QuietKeeps(s, t);
  }

  lemma StepKeeps(s: State, e: Event)
    requires Invariant(s) && Enabled(s, e)
    ensures Invariant(Next(s, e))
  {
    hide Invariant;
    match e
    case Begin => BeginKeeps(s);
    case Ask(d) => AskKeeps(s, d);
    case Answer(d, reply) => AnswerKeeps(s, d, reply);
    case Receive(d) => ReceiveKeeps(s, d);
    case Fetch(d) => FetchKeeps(s, d);
    case Finish(d) => FinishKeeps(s, d);
    case Leave(d, cancelled) => LeaveKeeps(s, d, cancelled);
    case OtherPush => PushKeeps(s);
    case _ => UploadKeeps(s, e);
  }

  lemma {:induction false} RunKeeps(s: State, events: seq<Event>, t: State)
    requires Invariant(s) && Reaches(s, events, t)
    ensures Invariant(t)
    decreases |events|
  {
    hide Invariant;
    if events != [] {
      StepKeeps(s, events[0]);
      RunKeeps(Next(s, events[0]), events[1..], t);
    }
  }

  // ----- What downloads yield -----

  /** A download begun or joined after an upload returned never yields an older version. */
  lemma ReadsSeeUploads(hub: nat, events: seq<Event>, s: State, d: nat)
    requires Reaches(Start(hub), events, s) && d < |s.downloads|
    requires s.downloads[d].phase.Returned? && s.downloads[d].phase.outcome.Snapshot?
    ensures s.downloads[d].uploadsThen <= s.downloads[d].phase.outcome.version <= s.downloads[d].hubLast
  {
    RunKeeps(Start(hub), events, s);
    assert DownloadFits(s, d);
  }

  /**
   A leader's download is as good as an uncached read: it yields a version that was current between
   its begin and its end (the hub's version moves in steps of one).
   */
  lemma LeadersReadTheHub(hub: nat, events: seq<Event>, s: State, d: nat)
    requires Reaches(Start(hub), events, s) && d < |s.downloads| && s.downloads[d].leader
    requires s.downloads[d].phase.Returned? && s.downloads[d].phase.outcome.Snapshot?
    ensures s.downloads[d].hubThen <= s.downloads[d].phase.outcome.version <= s.downloads[d].hubLast
  {
    RunKeeps(Start(hub), events, s);
    assert DownloadFits(s, d);
  }

  /** A valid entry is never older than the last invalidation, nor than any upload that returned. */
  lemma CacheIsNotStale(hub: nat, events: seq<Event>, s: State)
    requires Reaches(Start(hub), events, s) && s.cache.valid
    ensures s.cache.etag == Some(s.cache.snapshot)
    ensures |s.floors| == s.cache.epoch + 1 && s.newest <= s.floors[s.cache.epoch] <= s.cache.snapshot <= s.hub
  {
    RunKeeps(Start(hub), events, s);
  }

  predicate Invalidates(e: Event) { e.StartUpload? || e.EndUpload? }

  lemma {:induction false} EpochGrows(s: State, events: seq<Event>, t: State)
    requires Reaches(s, events, t)
    ensures s.cache.epoch <= t.cache.epoch
    ensures (exists i :: 0 <= i < |events| && Invalidates(events[i])) ==> s.cache.epoch < t.cache.epoch
    decreases |events|
  {
    if events != [] {
      EpochGrows(Next(s, events[0]), events[1..], t);
      if i :| 0 <= i < |events| && Invalidates(events[i]) {
        if i > 0 { assert Invalidates(events[1..][i - 1]); }
      }
    }
  }

  /** A response to a request sent before an invalidation never gets into the cache. */
  lemma LateResponseIsDropped(s: State, events: seq<Event>, t: State, d: nat)
    requires Enabled(s, Ask(d)) && Reaches(Next(s, Ask(d)), events, t)
    requires exists i :: 0 <= i < |events| && Invalidates(events[i])
    requires Enabled(t, Receive(d)) && t.downloads[d].phase.at == s.cache.epoch && t.downloads[d].phase.reply.Body?
    ensures Next(t, Receive(d)).cache == t.cache
  {
    EpochGrows(Next(s, Ask(d)), events, t);
  }

  lemma {:induction false} Extend(s: State, events: seq<Event>, t: State, e: Event)
    requires Reaches(s, events, t) && Enabled(t, e)
    ensures Reaches(s, events + [e], Next(t, e))
    decreases |events|
  {
    var more := events + [e];
    if events == [] {
      assert more[1..] == [];
    } else {
      assert more[0] == events[0] && more[1..] == events[1..] + [e];
      Extend(Next(s, events[0]), events[1..], t, e);
    }
  }

  ghost predicate Reachable(s: State) { exists hub, events :: Reaches(Start(hub), events, s) }

  lemma StepReaches(s: State, e: Event)
    requires Reachable(s) && Enabled(s, e)
    ensures Reachable(Next(s, e))
  {
    var hub, events :| Reaches(Start(hub), events, s);
    Extend(Start(hub), events, s, e);
  }

  lemma StartIsReachable(hub: nat)
    ensures Reachable(Start(hub))
  {
    assert Reaches(Start(hub), [], Start(hub));
  }

  /**
   Within one epoch an older response can still take the place of a newer one: a download that
   began before an upload asks in the new epoch, and is answered before but received after a second
   download that began in it.
   */
  lemma OlderResponseMayWin() returns (s: State, d: nat)
    ensures Reachable(s) && Enabled(s, Receive(d)) && s.cache.valid
    ensures Next(s, Receive(d)).cache.valid && Next(s, Receive(d)).cache.snapshot < s.cache.snapshot
  {
    hide Reachable;
    s := TwoLeaders();
    StepReaches(s, Ask(0));
    s := Next(s, Ask(0));
    StepReaches(s, Answer(0, Body(5, true)));
    s := Next(s, Answer(0, Body(5, true)));
    StepReaches(s, OtherPush);
    s := Next(s, OtherPush);
    StepReaches(s, Ask(1));
    s := Next(s, Ask(1));
    StepReaches(s, Answer(1, Body(6, true)));
    s := Next(s, Answer(1, Body(6, true)));
    StepReaches(s, Receive(1));
    s := Next(s, Receive(1));
    d := 0;
  }

  lemma TwoLeaders() returns (s: State)
    ensures Reachable(s) && s.hub == 5 && !s.cache.valid && s.cache.epoch == 1 && |s.downloads| == 2
    ensures s.downloads[0].phase == Fresh(0) && s.downloads[1].phase == Fresh(0)
  {
    hide Reachable;
    StartIsReachable(5);
    s := Start(5);
    StepReaches(s, Begin);
    s := Next(s, Begin);
    StepReaches(s, StartUpload);
    s := Next(s, StartUpload);
    StepReaches(s, Begin);
    s := Next(s, Begin);
  }
}
