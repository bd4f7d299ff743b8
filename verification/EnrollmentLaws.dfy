/**
 Who can use a secret after any history of restarts and failing saves. A failed save is only logged,
 so an event counts after a restart exactly if some later save reached the file first.
 */
module EnrollmentLaws {
  import opened Enrollment

  /** An event that brings the bindings on file up to date. */
  predicate Saves(b: Book, e: Event) {
    b.durable &&
    match e
    case Bind(agent, secret, saved) => agent != "" && secret != "" && saved
    case Enroll(agent, code, now, random, saved) => EnrollOutcome(b, agent, code, now, random).Secret? && saved
    case Revoke(agent, saved) => agent != "" && agent in b.secrets && saved
    case _ => false
  }

  predicate SavesAt(durable: bool, history: seq<Event>, k: nat)
    requires k < |history|
  {
    Saves(After(durable, history[..k]), history[k])
  }

  predicate RestartsIn(history: seq<Event>, from: nat, to: nat)
    requires to <= |history|
  {
    exists t :: from <= t < to && history[t].Restart?
  }

  predicate SavesIn(durable: bool, history: seq<Event>, from: nat, to: nat)
    requires to <= |history|
  {
    exists k :: from <= k < to && SavesAt(durable, history, k)
  }

  lemma Shorter(durable: bool, history: seq<Event>)
    requires history != []
    ensures var past := history[..|history| - 1];
            && (forall k :: 0 <= k <= |past| ==> past[..k] == history[..k])
            && (forall k :: 0 <= k < |past| ==> SavesAt(durable, past, k) == SavesAt(durable, history, k))
            && After(durable, history) == Next(After(durable, past), history[|past|])
  {
    hide Saves, Next;
    var past := history[..|history| - 1];
    forall k | 0 <= k <= |past| ensures past[..k] == history[..k] { }
    forall k | 0 <= k < |past| ensures SavesAt(durable, past, k) == SavesAt(durable, history, k) {
      assert past[..k] == history[..k];
    }
  }

  lemma FileStep(b: Book, e: Event)
    ensures Next(b, e).file == if Saves(b, e) then Next(b, e).secrets else b.file
    ensures Next(b, e).durable == b.durable
    ensures e.Restart? ==> Next(b, e).secrets == if b.durable then b.file else map[]
  {
  }

  lemma BindingStep(b: Book, e: Event, agent: string)
    requires !e.Restart? && !EndsBinding(b, e, agent)
    ensures agent in Next(b, e).secrets <==> agent in b.secrets
    ensures agent in b.secrets ==> Next(b, e).secrets[agent] == b.secrets[agent]
  {
  }

  lemma {:induction false} NobodyNameless(durable: bool, history: seq<Event>)
    ensures After(durable, history).durable == durable
    ensures "" !in After(durable, history).secrets && "" !in After(durable, history).file
    ensures !durable ==> After(durable, history).file == map[]
  {
    if history != [] {
      var past := history[..|history| - 1];
      NobodyNameless(durable, past);
      FileStep(After(durable, past), history[|past|]);
    }
  }

  // ----- The fate of a revocation -----

  /** After position `r` a restart comes before any save from `r` on has reached the file. */
  predicate LostAfter(durable: bool, history: seq<Event>, r: nat) {
    exists t :: r < t < |history| && history[t].Restart? && !SavesIn(durable, history, r, t)
  }

  lemma LostStep(durable: bool, history: seq<Event>, r: nat)
    requires r < |history| - 1
    ensures var past := history[..|history| - 1];
            && (SavesIn(durable, history, r, |history|) <==> SavesIn(durable, past, r, |past|) || SavesAt(durable, history, |past|))
            && (LostAfter(durable, history, r) <==>
                LostAfter(durable, past, r) || (history[|past|].Restart? && !SavesIn(durable, past, r, |past|)))
  {
    hide SavesAt;
    var past := history[..|history| - 1];
    Shorter(durable, history);
    forall t | 0 <= t <= |past| ensures SavesIn(durable, history, r, t) == SavesIn(durable, past, r, t) {
      if SavesIn(durable, history, r, t) {
        var k :| r <= k < t && SavesAt(durable, history, k);
        assert SavesAt(durable, past, k);
      }
    }
    if SavesAt(durable, history, |past|) { assert SavesIn(durable, history, r, |history|); }
    if LostAfter(durable, past, r) {
      var t :| r < t < |past| && past[t].Restart? && !SavesIn(durable, past, r, t);
      assert history[t].Restart?;
    }
  }

  // What is left of a binding that was revoked: `was` is its digest on file, if any.
  predicate Remains(b: Book, agent: string, was: Option<Digest>, lost: bool, saved: bool) {
    && (agent in b.secrets <==> was.Some? && lost)
    && (agent in b.file <==> was.Some? && (lost || !saved))
    && (agent in b.secrets ==> b.secrets[agent] == was.value)
    && (agent in b.file ==> b.file[agent] == was.value)
  }

  function OnFile(b: Book, agent: string): Option<Digest> {
    if agent in b.file then Some(b.file[agent]) else None
  }

  lemma RevokeLeaves(b: Book, agent: string, saved: bool)
    requires "" !in b.secrets
    ensures Remains(Next(b, Revoke(agent, saved)), agent, OnFile(b, agent), false, Saves(b, Revoke(agent, saved)))
  {
  }

  lemma RemainsStep(b: Book, e: Event, agent: string, was: Option<Digest>, lost: bool, saved: bool)
    requires b.durable && Remains(b, agent, was, lost, saved) && !EndsBinding(b, e, agent)
    ensures Remains(Next(b, e), agent, was, lost || (e.Restart? && !saved), saved || Saves(b, e))
  {
    hide Next, EndsBinding;
    FileStep(b, e);
    if !e.Restart? { BindingStep(b, e, agent); }
    assert e.Restart? ==> !Saves(b, e);
  }

  lemma {:induction false} RevocationRun(history: seq<Event>, r: nat, agent: string, saved: bool)
    requires r < |history| && history[r] == Revoke(agent, saved)
    requires forall j :: r < j < |history| ==> !EndsBinding(After(true, history[..j]), history[j], agent)
    ensures Remains(After(true, history), agent, OnFile(After(true, history[..r]), agent),
                    LostAfter(true, history, r), SavesIn(true, history, r, |history|))
    decreases |history|
  {
    hide Next, EndsBinding, Remains, Saves;
    var past := history[..|history| - 1];
    var b := After(true, past);
    Shorter(true, history);
    NobodyNameless(true, past);
    if r == |past| {
      RevokeLeaves(b, agent, saved);
      assert SavesIn(true, history, r, |history|) <==> SavesAt(true, history, r);
    } else {
      forall j | r < j < |past| ensures !EndsBinding(After(true, past[..j]), past[j], agent) {
        assert past[..j] == history[..j];
      }
      RevocationRun(past, r, agent, saved);
      assert history[..|past|] == past;
      RemainsStep(b, history[|past|], agent, OnFile(After(true, history[..r]), agent), LostAfter(true, past, r), SavesIn(true, past, r, |past|));
      LostStep(true, history, r);
    }
  }

  /**
   An agent whose last revocation is at `r` has a binding again exactly if it was on file then and a
   restart comes before the first successful save from `r` on; it then has the binding of that file.
   */
  lemma RevokedReturnsIff(history: seq<Event>, r: nat, agent: string, saved: bool)
    requires r < |history| && history[r] == Revoke(agent, saved)
    requires forall j :: r < j < |history| ==> !EndsBinding(After(true, history[..j]), history[j], agent)
    ensures agent in After(true, history).secrets <==> agent in After(true, history[..r]).file && LostAfter(true, history, r)
    ensures agent in After(true, history).secrets ==>
              After(true, history).secrets[agent] == After(true, history[..r]).file[agent]
  {
    hide Next, EndsBinding, LostAfter, SavesIn;
    RevocationRun(history, r, agent, saved);
  }

  /** Such a history: the save of a revocation fails, and a restart brings the binding back. */
  lemma RevocationCanBeLost(agent: string, secret: string)
    requires agent != "" && secret != ""
    ensures var history := [Bind(agent, secret, true), Revoke(agent, false), Restart];
            && !Verifies(After(true, history[..2]), agent, secret)
            && Verifies(After(true, history), agent, secret)
  {
    var history := [Bind(agent, secret, true), Revoke(agent, false), Restart];
    assert history == [] + [Bind(agent, secret, true)] + [Revoke(agent, false)] + [Restart];
    assert history[..2] == [] + [Bind(agent, secret, true)] + [Revoke(agent, false)];
    AfterStep(true, [], Bind(agent, secret, true));
    AfterStep(true, [] + [Bind(agent, secret, true)], Revoke(agent, false));
    AfterStep(true, [] + [Bind(agent, secret, true)] + [Revoke(agent, false)], Restart);
  }

  lemma AfterStep(durable: bool, history: seq<Event>, e: Event)
    ensures After(durable, history + [e]) == Next(After(durable, history), e)
  {
    assert (history + [e])[..|history|] == history;
  }

  // ----- Which events count -----

  /** Whether the event at `i` still counts: nothing restarted since, or a save from `i` on came before the first restart. */
  predicate Counts(durable: bool, history: seq<Event>, i: nat) {
    i < |history| && (RestartsIn(history, i + 1, |history|) ==> Kept(durable, history, i))
  }

  /** The event at `i` is in the file: some save from `i` on came before any restart. */
  predicate Kept(durable: bool, history: seq<Event>, i: nat) {
    exists k :: i <= k < |history| && SavesAt(durable, history, k) && !RestartsIn(history, i + 1, k)
  }

  ghost predicate LastAt(durable: bool, history: seq<Event>, of: iset<nat>, agent: string, secret: string, i: nat) {
    && i < |history| && i in of
    && BindsSecret(After(durable, history[..i]), history[i], agent, secret)
    && forall j :: i < j < |history| && j in of ==> !EndsBinding(After(durable, history[..j]), history[j], agent)
  }

  /** Among the given events, the last one to end the agent's binding bound this secret. */
  ghost predicate LastAmong(durable: bool, history: seq<Event>, of: iset<nat>, agent: string, secret: string) {
    exists i :: LastAt(durable, history, of, agent, secret, i)
  }

  ghost function Counting(durable: bool, history: seq<Event>): iset<nat> { iset i: nat | Counts(durable, history, i) }

  ghost function OnRecord(durable: bool, history: seq<Event>): iset<nat> { iset i: nat | Kept(durable, history, i) }

  lemma CountsStep(durable: bool, history: seq<Event>, i: nat)
    requires history != [] && i < |history| - 1
    ensures var past, e := history[..|history| - 1], history[|history| - 1];
            && Counts(durable, history, i) == (if e.Restart? then Kept(durable, past, i) else Counts(durable, past, i))
            && Kept(durable, history, i) == (if SavesAt(durable, history, |past|) then Counts(durable, past, i) else Kept(durable, past, i))
  {
    hide After;
    var last := |history| - 1;
    var past := history[..last];
    assert forall k :: 0 <= k < last ==> SavesAt(durable, past, k) == SavesAt(durable, history, k) by { Shorter(durable, history); }
    assert history[last].Restart? ==> !SavesAt(durable, history, last);
    hide SavesAt;
    forall from: nat, k: nat | k <= last ensures RestartsIn(history, from, k) == RestartsIn(past, from, k) {
      if RestartsIn(history, from, k) {
        var t :| from <= t < k && history[t].Restart?;
        assert past[t].Restart?;
      }
      if RestartsIn(past, from, k) {
        var t :| from <= t < k && past[t].Restart?;
        assert history[t].Restart?;
      }
    }
    RestartsStep(history, i);
    KeptStep(durable, history, i);
  }

  lemma RestartsStep(history: seq<Event>, i: nat)
    requires history != [] && i < |history| - 1
    ensures RestartsIn(history, i + 1, |history|) <==> RestartsIn(history, i + 1, |history| - 1) || history[|history| - 1].Restart?
  {
  }

  lemma KeptStep(durable: bool, history: seq<Event>, i: nat)
    requires history != [] && i < |history| - 1
    requires forall k :: 0 <= k < |history| - 1 ==> SavesAt(durable, history[..|history| - 1], k) == SavesAt(durable, history, k)
    requires forall from: nat, k: nat :: k <= |history| - 1 ==> RestartsIn(history, from, k) == RestartsIn(history[..|history| - 1], from, k)
    ensures Kept(durable, history, i) <==>
            || Kept(durable, history[..|history| - 1], i)
            || (SavesAt(durable, history, |history| - 1) && !RestartsIn(history, i + 1, |history| - 1))
  {
    hide SavesAt, RestartsIn;
    var past := history[..|history| - 1];
    if Kept(durable, past, i) {
      var k :| i <= k < |past| && SavesAt(durable, past, k) && !RestartsIn(past, i + 1, k);
      assert SavesAt(durable, history, k);
    }
    if Kept(durable, history, i) {
      var k :| i <= k < |history| && SavesAt(durable, history, k) && !RestartsIn(history, i + 1, k);
      if k < |past| { assert SavesAt(durable, past, k); }
    }
  }

  lemma LastStays(durable: bool, history: seq<Event>, of: iset<nat>, was: iset<nat>, agent: string, secret: string, i: nat)
    requires history != [] && i < |history| - 1
    requires forall j: nat :: j < |history| - 1 ==> (j in of <==> j in was)
    ensures var past, e := history[..|history| - 1], history[|history| - 1];
            LastAt(durable, history, of, agent, secret, i) <==>
            LastAt(durable, past, was, agent, secret, i) && !(|past| in of && EndsBinding(After(durable, past), e, agent))
  {
    hide After, BindsSecret, EndsBinding;
    var past := history[..|history| - 1];
    assert forall j :: 0 <= j <= |past| ==> past[..j] == history[..j];
    assert history[..|past|] == past;
  }

  lemma LastStep(durable: bool, history: seq<Event>, of: iset<nat>, was: iset<nat>, agent: string, secret: string)
    requires history != []
    requires forall j: nat :: j < |history| - 1 ==> (j in of <==> j in was)
    ensures var past, e := history[..|history| - 1], history[|history| - 1];
            LastAmong(durable, history, of, agent, secret) <==>
            || (|past| in of && BindsSecret(After(durable, past), e, agent, secret))
            || (!(|past| in of && EndsBinding(After(durable, past), e, agent)) && LastAmong(durable, past, was, agent, secret))
  {
    hide After, BindsSecret, EndsBinding;
    var past := history[..|history| - 1];
    forall i: nat | i < |past|
      ensures LastAt(durable, history, of, agent, secret, i) <==>
              LastAt(durable, past, was, agent, secret, i) &&
              !(|past| in of && EndsBinding(After(durable, past), history[|past|], agent))
    {
      LastStays(durable, history, of, was, agent, secret, i);
    }
    assert LastAt(durable, history, of, agent, secret, |past|) <==>
           |past| in of && BindsSecret(After(durable, past), history[|past|], agent, secret)
    by { assert history[..|past|] == past; }
  }

  predicate Holds(bindings: map<string, Digest>, agent: string, secret: string) {
    agent in bindings && bindings[agent] == Digest(secret)
  }

  lemma HoldsStep(b: Book, e: Event, agent: string, secret: string)
    requires agent != "" && secret != "" && !e.Restart?
    ensures Holds(Next(b, e).secrets, agent, secret) <==>
            BindsSecret(b, e, agent, secret) || (!EndsBinding(b, e, agent) && Holds(b.secrets, agent, secret))
  {
  }

  lemma {:induction false} BooksShowTheLast(durable: bool, history: seq<Event>, agent: string, secret: string)
    requires agent != "" && secret != ""
    ensures Holds(After(durable, history).secrets, agent, secret) <==>
            LastAmong(durable, history, Counting(durable, history), agent, secret)
    ensures Holds(After(durable, history).file, agent, secret) <==>
            LastAmong(durable, history, OnRecord(durable, history), agent, secret)
  {
    if history != [] {
      BooksShowTheLast(durable, history[..|history| - 1], agent, secret);
      BooksStep(durable, history, agent, secret);
    }
  }

  lemma BooksStep(durable: bool, history: seq<Event>, agent: string, secret: string)
    requires agent != "" && secret != "" && history != []
    requires var past := history[..|history| - 1];
             && (Holds(After(durable, past).secrets, agent, secret) <==>
                 LastAmong(durable, past, Counting(durable, past), agent, secret))
             && (Holds(After(durable, past).file, agent, secret) <==>
                 LastAmong(durable, past, OnRecord(durable, past), agent, secret))
    ensures Holds(After(durable, history).secrets, agent, secret) <==>
            LastAmong(durable, history, Counting(durable, history), agent, secret)
    ensures Holds(After(durable, history).file, agent, secret) <==>
            LastAmong(durable, history, OnRecord(durable, history), agent, secret)
  {
    var last := |history| - 1;
    var past, e := history[..last], history[last];
    var b := After(durable, past);
    var counting, onRecord := Counting(durable, history), OnRecord(durable, history);
    NobodyNameless(durable, past);
    FileStep(b, e);
    Shorter(durable, history);
    assert SavesAt(durable, history, last) == Saves(b, e);
    assert last in counting && (last in onRecord <==> Saves(b, e)) by { NewestCounts(durable, history); }
    assert e.Restart? ==> !Saves(b, e) && !BindsSecret(b, e, agent, secret) && !EndsBinding(b, e, agent);
    if !e.Restart? { HoldsStep(b, e, agent, secret); }
    hide After, Next, Saves, SavesAt, BindsSecret, EndsBinding, Counts, Kept, LastAmong;
    forall i: nat | i < last
      ensures i in counting <==> i in if e.Restart? then OnRecord(durable, past) else Counting(durable, past)
      ensures i in onRecord <==> i in if Saves(b, e) then Counting(durable, past) else OnRecord(durable, past)
    {
      CountsStep(durable, history, i);
    }
    LastStep(durable, history, counting, if e.Restart? then OnRecord(durable, past) else Counting(durable, past), agent, secret);
    LastStep(durable, history, onRecord, if Saves(b, e) then Counting(durable, past) else OnRecord(durable, past), agent, secret);
  }

  lemma NewestCounts(durable: bool, history: seq<Event>)
    requires history != []
    ensures Counts(durable, history, |history| - 1)
    ensures Kept(durable, history, |history| - 1) <==> SavesAt(durable, history, |history| - 1)
  {
    hide SavesAt;
    assert !RestartsIn(history, |history|, |history|) && !RestartsIn(history, |history|, |history| - 1);
  }

  /**
   After any history, with any restarts and failing saves, a secret verifies exactly if among the
   events that still count it was the last one bound to the agent, and was not revoked since.
   */
  lemma VerifiesIffLastCounting(durable: bool, history: seq<Event>, agent: string, secret: string)
    ensures Verifies(After(durable, history), agent, secret) <==>
            agent != "" && secret != "" && LastAmong(durable, history, Counting(durable, history), agent, secret)
  {
    if agent != "" && secret != "" { BooksShowTheLast(durable, history, agent, secret); }
  }
}
