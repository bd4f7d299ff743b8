/**
 What a one-time code is worth, and who is turned away because its binding is confirmed, after any
 history: both are read off the last events that concern the code and the agent.
 */
module EnrollmentCodes {
  import opened Enrollment

  /** The agent's binding is set by the hub itself, proves its use, or comes from the file. */
  predicate Confirms(b: Book, e: Event, agent: string) {
    match e
    case Bind(a, secret, _) => a == agent && secret != ""
    case Confirm(a) => a == agent && agent in b.secrets
    case Restart => b.durable && agent in b.file
    case _ => false
  }

  /** A new secret is not confirmed yet; a revoked one, or one that is not on file, is gone. */
  predicate Unconfirms(b: Book, e: Event, agent: string) {
    match e
    case Enroll(a, code, now, random, _) => a == agent && EnrollOutcome(b, a, code, now, random).Secret?
    case Revoke(a, _) => a == agent && agent in b.secrets
    case Restart => true
    case _ => false
  }

  /** Whoever asks with a code burns it, unless the asking ends before the code is looked at. */
  predicate Burns(b: Book, e: Event, code: string) {
    match e
    case Mint(c, _) => c == code
    case Redeem(c, _, _) => c == code
    case Enroll(a, c, _, _, _) => c == code && a != "" && !(a in b.secrets && a in b.confirmed)
    case Restart => true
    case _ => false
  }

  predicate Since(n: nat, starts: nat -> bool, stops: nat -> bool) {
    exists i :: 0 <= i < n && starts(i) && forall j :: i < j < n ==> !stops(j)
  }

  // A state that events start and stop holds exactly since the last start no stop has followed.
  lemma {:induction false} HoldsSince(n: nat, holds: nat -> bool, starts: nat -> bool, stops: nat -> bool)
    requires !holds(0) && forall k :: 0 <= k < n ==> (holds(k + 1) <==> starts(k) || (holds(k) && !stops(k)))
    ensures holds(n) <==> Since(n, starts, stops)
  {
    if n > 0 {
      var m := n - 1;
      HoldsSince(m, holds, starts, stops);
      assert holds(m + 1) <==> starts(m) || (holds(m) && !stops(m));
      if starts(m) { assert Since(n, starts, stops); }
    }
  }

  lemma ConfirmedNext(b: Book, e: Event, agent: string)
    requires agent != ""
    ensures agent in Next(b, e).confirmed <==> Confirms(b, e, agent) || (agent in b.confirmed && !Unconfirms(b, e, agent))
  {
  }

  predicate Good(b: Book, code: string, expiry: int) { code in b.codes && b.codes[code] == expiry }

  lemma GoodNext(b: Book, e: Event, code: string, expiry: int)
    ensures Good(Next(b, e), code, expiry) <==> e == Mint(code, expiry) || (Good(b, code, expiry) && !Burns(b, e, code))
  {
  }

  function Until(durable: bool, history: seq<Event>, k: nat): Book
    requires k <= |history|
  {
    After(durable, history[..k])
  }

  lemma UntilNext(durable: bool, history: seq<Event>, k: nat)
    requires k < |history|
    ensures Until(durable, history, k + 1) == Next(Until(durable, history, k), history[k])
  {
    assert history[..k + 1][..k] == history[..k];
  }

  /** An agent is turned away since the last event that confirmed its binding, if none took that back. */
  predicate Held(durable: bool, history: seq<Event>, agent: string) {
    exists i :: 0 <= i < |history| && Confirms(Until(durable, history, i), history[i], agent)
                && forall j :: i < j < |history| ==> !Unconfirms(Until(durable, history, j), history[j], agent)
  }

  /** A code is good since it was last minted, if nobody burned it. */
  predicate Usable(durable: bool, history: seq<Event>, code: string, expiry: int) {
    exists i :: 0 <= i < |history| && history[i] == Mint(code, expiry)
                && forall j :: i < j < |history| ==> !Burns(Until(durable, history, j), history[j], code)
  }

  lemma ConfirmedIffHeld(durable: bool, history: seq<Event>, agent: string)
    requires agent != ""
    ensures agent in After(durable, history).confirmed <==> Held(durable, history, agent)
  {
    hide Next, After, Confirms, Unconfirms;
    var n := |history|;
    var holds := (k: nat) => k <= n && agent in Until(durable, history, k).confirmed;
    var starts := (k: nat) => k < n && Confirms(Until(durable, history, k), history[k], agent);
    var stops := (k: nat) => k < n && Unconfirms(Until(durable, history, k), history[k], agent);
    forall k | 0 <= k < n ensures holds(k + 1) <==> starts(k) || (holds(k) && !stops(k)) {
      UntilNext(durable, history, k);
      ConfirmedNext(Until(durable, history, k), history[k], agent);
    }
    NothingYet(durable, history);
    HoldsSince(n, holds, starts, stops);
    assert history[..n] == history;
    if Since(n, starts, stops) {
      var i: nat :| i < n && starts(i) && forall j: nat :: i < j < n ==> !stops(j);
      assert forall j: nat :: i < j < n ==> !stops(j);
      forall j | i < j < n ensures !Unconfirms(Until(durable, history, j), history[j], agent) { assert !stops(j); }
    }
    if Held(durable, history, agent) {
      var i :| 0 <= i < n && Confirms(Until(durable, history, i), history[i], agent)
               && forall j :: i < j < n ==> !Unconfirms(Until(durable, history, j), history[j], agent);
      assert starts(i);
    }
  }

  lemma NothingYet(durable: bool, history: seq<Event>)
    ensures Until(durable, history, 0) == Book(map[], map[], {}, durable, map[])
  {
  }

  lemma GoodIffUsable(durable: bool, history: seq<Event>, code: string, expiry: int)
    ensures Good(After(durable, history), code, expiry) <==> Usable(durable, history, code, expiry)
  {
    hide Next, After, Burns;
    var n := |history|;
    var holds := (k: nat) => k <= n && Good(Until(durable, history, k), code, expiry);
    var starts := (k: nat) => k < n && history[k] == Mint(code, expiry);
    var stops := (k: nat) => k < n && Burns(Until(durable, history, k), history[k], code);
    forall k | 0 <= k < n ensures holds(k + 1) <==> starts(k) || (holds(k) && !stops(k)) {
      UntilNext(durable, history, k);
      GoodNext(Until(durable, history, k), history[k], code, expiry);
    }
    NothingYet(durable, history);
    HoldsSince(n, holds, starts, stops);
    assert history[..n] == history;
    if Since(n, starts, stops) {
      var i: nat :| i < n && starts(i) && forall j: nat :: i < j < n ==> !stops(j);
      forall j | i < j < n ensures !Burns(Until(durable, history, j), history[j], code) { assert !stops(j); }
    }
    if Usable(durable, history, code, expiry) {
      var i :| 0 <= i < n && history[i] == Mint(code, expiry)
               && forall j :: i < j < n ==> !Burns(Until(durable, history, j), history[j], code);
      assert starts(i);
    }
  }

  /**
   What an agent gets for a code after any history: nothing without a name, a refusal while it is held,
   and otherwise a fresh secret exactly if the code is good and its time has not passed.
   */
  lemma EnrollmentDecides(durable: bool, history: seq<Event>, agent: string, code: string, now: int, random: Option<string>)
    ensures var outcome := EnrollOutcome(After(durable, history), agent, code, now, random);
            var asks := agent != "" && !Held(durable, history, agent);
            && (outcome == NoAgent <==> agent == "")
            && (outcome == AlreadyBound <==> agent != "" && Held(durable, history, agent))
            && (outcome == UnknownCode <==> asks && forall x :: !Usable(durable, history, code, x))
            && (outcome == ExpiredCode <==> asks && exists x :: Usable(durable, history, code, x) && now > x)
            && (outcome == NoRandomness <==> asks && random == None && exists x :: Usable(durable, history, code, x) && now <= x)
            && (forall s :: outcome == Secret(s) <==>
                  asks && random == Some(s) && exists x :: Usable(durable, history, code, x) && now <= x)
  {
    hide Next, After, Held, Usable;
    var b := After(durable, history);
    if agent != "" { ConfirmedIffHeld(durable, history, agent); }
    ConfirmedAreBound(durable, history);
    forall x ensures Good(b, code, x) <==> Usable(durable, history, code, x) { GoodIffUsable(durable, history, code, x); }
    if code in b.codes {
      assert Good(b, code, b.codes[code]);
      assert forall x :: Usable(durable, history, code, x) ==> x == b.codes[code];
    } else {
      assert forall x :: !Good(b, code, x);
    }
  }

  /** A code the hub calls valid is worth a secret, and one worth a secret is valid but for the instant of its expiry. */
  lemma ValidIsWorth(b: Book, code: string, now: int, random: Option<string>)
    requires code != "" && random.Some?
    ensures Valid(b, code, now) <==> Worth(b, code, now, random).Secret? && b.codes[code] != now
  {
  }
}
