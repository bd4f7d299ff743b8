/**
 Enrollment of agents: a one-time code is traded for a secret, of which the hub keeps a digest. Time
 and the random source are inputs, and digests are taken as collision-free.
 */
module Enrollment {

  datatype Option<T> = None | Some(value: T)

  datatype Digest = Digest(secret: string)

  /** Codes with their expiry, live bindings, those known to be held, and the bindings on file. */
  datatype Book = Book(codes: map<string, int>, secrets: map<string, Digest>, confirmed: set<string>, durable: bool, file: map<string, Digest>)

  datatype Outcome = Secret(value: string) | AlreadyBound | NoAgent | UnknownCode | ExpiredCode | NoRandomness

  function Minted(b: Book, code: string, expiry: int): Book { b.(codes := b.codes[code := expiry]) }

  predicate Valid(b: Book, code: string, now: int) { code != "" && code in b.codes && now < b.codes[code] }

  /** What a code is worth at a time, given the next random secret, if the source has one. */
  function Worth(b: Book, code: string, now: int, random: Option<string>): Outcome {
    if code !in b.codes then UnknownCode
    else if now > b.codes[code] then ExpiredCode
    else if random == None then NoRandomness
    else Secret(random.value)
  }

  function Saved(b: Book, saved: bool): Book { if b.durable && saved then b.(file := b.secrets) else b }

  function Bound(b: Book, agent: string, secret: string, saved: bool): Book {
    if agent == "" || secret == "" then b
    else Saved(b.(secrets := b.secrets[agent := Digest(secret)], confirmed := b.confirmed + {agent}), saved)
  }

  function Confirmed(b: Book, agent: string): Book {
    if agent != "" && agent in b.secrets then b.(confirmed := b.confirmed + {agent}) else b
  }

  /** A confirmed binding answers for itself; otherwise the code decides. */
  function EnrollOutcome(b: Book, agent: string, code: string, now: int, random: Option<string>): Outcome {
    if agent == "" then NoAgent
    else if agent in b.secrets && agent in b.confirmed then AlreadyBound
    else Worth(b, code, now, random)
  }

  function Enrolled(b: Book, agent: string, code: string, now: int, random: Option<string>, saved: bool): Book {
    var outcome := EnrollOutcome(b, agent, code, now, random);
    if outcome == NoAgent || outcome == AlreadyBound then b
    else
      var burned := b.(codes := b.codes - {code});
      if outcome.Secret? then
        Saved(burned.(secrets := b.secrets[agent := Digest(outcome.value)], confirmed := b.confirmed - {agent}), saved)
      else burned
  }

  predicate Verifies(b: Book, agent: string, secret: string) {
    agent != "" && secret != "" && agent in b.secrets && b.secrets[agent] == Digest(secret)
  }

  function Revoked(b: Book, agent: string, saved: bool): Book {
    if agent == "" || agent !in b.secrets then b
    else Saved(b.(secrets := b.secrets - {agent}, confirmed := b.confirmed - {agent}), saved)
  }

  /** A restart keeps the file only; what it lists counts as held. */
  function Restarted(b: Book): Book {
    var file := if b.durable then b.file else map[];
    b.(codes := map[], secrets := file, confirmed := file.Keys)
  }

  class EnrollmentManager {
    var codes: map<string, int>
    var secrets: map<string, Digest>
    var confirmed: set<string>
    var durable: bool
    var file: map<string, Digest>

    /** Opens the manager over the bindings on file. */
    constructor (durable: bool, file: map<string, Digest>)
      ensures View() == Restarted(Book(map[], map[], {}, durable, file))
    {
      codes := map[];
      secrets := if durable then file else map[];
      confirmed := if durable then file.Keys else {};
      this.durable := durable;
      this.file := file;
    }

    function View(): Book
      reads this
    {
      Book(codes, secrets, confirmed, durable, file)
    }

    method Mint(code: string, now: int, ttl: int)
      modifies this
      ensures View() == Minted(old(View()), code, now + ttl)
    {
      codes := codes[code := now + ttl];
    }

    method ValidCode(code: string, now: int) returns (valid: bool)
      ensures valid == Valid(View(), code, now)
    {
      if code == "" {
        return false;
      }
      return code in codes && now < codes[code];
    }

    method Redeem(code: string, now: int, random: Option<string>) returns (outcome: Outcome)
      modifies this
      ensures outcome == Worth(old(View()), code, now, random)
      ensures View() == old(View()).(codes := old(codes) - {code})
    {
      if code !in codes {
        assert codes - {code} == codes;
        return UnknownCode;
      }
      var expiresAt := codes[code];
      codes := codes - {code};
      if now > expiresAt {
        return ExpiredCode;
      }
      return if random.None? then NoRandomness else Secret(random.value);
    }

    method Save(saved: bool)
      modifies this
      ensures View() == Saved(old(View()), saved)
    {
      if durable && saved {
        file := secrets;
      }
    }

    method BindAgent(agent: string, secret: string, saved: bool)
      modifies this
      ensures View() == Bound(old(View()), agent, secret, saved)
    {
      if agent == "" || secret == "" {
        return;
      }
      secrets := secrets[agent := Digest(secret)];
      confirmed := confirmed + {agent};
      Save(saved);
    }

    method MarkConfirmed(agent: string)
      modifies this
      ensures View() == Confirmed(old(View()), agent)
    {
      if agent != "" && agent in secrets {
        confirmed := confirmed + {agent};
      }
    }

    method RedeemAndBindIfUnbound(agent: string, code: string, now: int, random: Option<string>, saved: bool)
      returns (outcome: Outcome)
      modifies this
      ensures outcome == EnrollOutcome(old(View()), agent, code, now, random)
      ensures View() == Enrolled(old(View()), agent, code, now, random, saved)
    {
      if agent == "" {
        return NoAgent;
      }
      if agent in secrets && agent in confirmed {
        return AlreadyBound;
      }
      outcome := Redeem(code, now, random);
      if !outcome.Secret? {
        return;
      }
      secrets := secrets[agent := Digest(outcome.value)];
      confirmed := confirmed - {agent};
      Save(saved);
    }

    method VerifySecret(agent: string, secret: string) returns (valid: bool)
      ensures valid == Verifies(View(), agent, secret)
    {
      if agent == "" || secret == "" || agent !in secrets {
        return false;
      }
      return secrets[agent] == Digest(secret);
    }

    method Revoke(agent: string, saved: bool) returns (dropped: bool)
      modifies this
      ensures View() == Revoked(old(View()), agent, saved)
      ensures dropped == (agent != "" && agent in old(secrets))
    {
      if agent == "" || agent !in secrets {
        return false;
      }
      secrets := secrets - {agent};
      confirmed := confirmed - {agent};
      Save(saved);
      return true;
    }

    /** Finds an agent by its secret alone. */
    method AuthorizedAgent(bearer: string) returns (agent: string)
      ensures agent != "" ==> Verifies(View(), agent, bearer)
      ensures agent == "" ==> forall a :: !Verifies(View(), a, bearer)
    {
      if bearer == "" {
        return "";
      }
      var todo := secrets.Keys;
      while todo != {}
        invariant todo <= secrets.Keys
        invariant forall a :: a in secrets && a !in todo && a != "" ==> secrets[a] != Digest(bearer)
        decreases |todo|
      {
        var a :| a in todo;
        if secrets[a] == Digest(bearer) && a != "" {
          return a;
        }
        todo := todo - {a};
      }
      return "";
    }
  }

  // ----- Runs -----

  datatype Event =
    | Mint(code: string, expiry: int)
    | Redeem(code: string, now: int, random: Option<string>)
    | Bind(agent: string, secret: string, saved: bool)
    | Confirm(agent: string)
    | Enroll(agent: string, code: string, now: int, random: Option<string>, saved: bool)
    | Revoke(agent: string, saved: bool)
    | Restart

  function Next(b: Book, e: Event): Book {
    match e
    case Mint(code, expiry) => Minted(b, code, expiry)
    case Redeem(code, now, random) => b.(codes := b.codes - {code})
    case Bind(agent, secret, saved) => Bound(b, agent, secret, saved)
    case Confirm(agent) => Confirmed(b, agent)
    case Enroll(agent, code, now, random, saved) => Enrolled(b, agent, code, now, random, saved)
    case Revoke(agent, saved) => Revoked(b, agent, saved)
    case Restart => Restarted(b)
  }

  /** The book after a history, newest event last. */
  function After(durable: bool, history: seq<Event>): Book {
    if history == [] then Book(map[], map[], {}, durable, map[])
    else Next(After(durable, history[..|history| - 1]), history[|history| - 1])
  }

  /** What an event handed out for a code. */
  predicate YieldsSecret(b: Book, e: Event, code: string) {
    match e
    case Redeem(c, now, random) => c == code && Worth(b, c, now, random).Secret?
    case Enroll(agent, c, now, random, _) => c == code && EnrollOutcome(b, agent, c, now, random).Secret?
    case _ => false
  }

  function Yields(durable: bool, history: seq<Event>, code: string): nat {
    if history == [] then 0
    else
      var past, e := history[..|history| - 1], history[|history| - 1];
      Yields(durable, past, code) + (if YieldsSecret(After(durable, past), e, code) then 1 else 0)
  }

  function Mints(history: seq<Event>, code: string): nat {
    if history == [] then 0
    else Mints(history[..|history| - 1], code) + (if history[|history| - 1].Mint? && history[|history| - 1].code == code then 1 else 0)
  }

  lemma CodeStep(b: Book, e: Event, code: string)
    ensures (if YieldsSecret(b, e, code) then 1 else 0) + (if code in Next(b, e).codes then 1 else 0)
         <= (if code in b.codes then 1 else 0) + (if e.Mint? && e.code == code then 1 else 0)
  {
  }

  /** A code yields at most one secret each time it is minted, and none any more once it is gone. */
  lemma {:induction false} OneSecretPerCode(durable: bool, history: seq<Event>, code: string)
    ensures Yields(durable, history, code) + (if code in After(durable, history).codes then 1 else 0) <= Mints(history, code)
  {
    hide Next, YieldsSecret;
    if history != [] {
      var past := history[..|history| - 1];
      OneSecretPerCode(durable, past, code);
      CodeStep(After(durable, past), history[|past|], code);
    }
  }

  lemma ConfirmedStep(b: Book, e: Event)
    requires b.confirmed <= b.secrets.Keys
    ensures Next(b, e).confirmed <= Next(b, e).secrets.Keys
  {
  }

  /** Whoever counts as confirmed has a binding. */
  lemma {:induction false} ConfirmedAreBound(durable: bool, history: seq<Event>)
    ensures After(durable, history).confirmed <= After(durable, history).secrets.Keys
  {
    hide Next;
    if history != [] {
      var past := history[..|history| - 1];
      ConfirmedAreBound(durable, past);
      ConfirmedStep(After(durable, past), history[|past|]);
    }
  }

  predicate Touches(e: Event, agent: string) {
    (e.Bind? && e.agent == agent) || (e.Revoke? && e.agent == agent) || e.Restart?
  }

  lemma BindingStaysStep(b: Book, e: Event, agent: string)
    requires agent in b.confirmed && agent in b.secrets && agent != "" && !Touches(e, agent)
    ensures agent in Next(b, e).confirmed && agent in Next(b, e).secrets && Next(b, e).secrets[agent] == b.secrets[agent]
  {
  }

  /** A confirmed binding stays what it is, and confirmed, until it is bound anew, revoked, or read back from file. */
  lemma {:induction false} ConfirmedBindingStays(durable: bool, history: seq<Event>, more: seq<Event>, agent: string)
    requires agent in After(durable, history).confirmed && agent != ""
    requires forall i :: 0 <= i < |more| ==> !Touches(more[i], agent)
    ensures agent in After(durable, history + more).confirmed && agent in After(durable, history + more).secrets
    ensures agent in After(durable, history).secrets
    ensures After(durable, history + more).secrets[agent] == After(durable, history).secrets[agent]
    decreases |more|
  {
    hide Next, Touches;
    ConfirmedAreBound(durable, history);
    if more == [] {
      assert history + more == history;
    } else {
      var last := |more| - 1;
      ConfirmedBindingStays(durable, history, more[..last], agent);
      assert (history + more)[..|history + more| - 1] == history + more[..last];
      BindingStaysStep(After(durable, history + more[..last]), more[last], agent);
    }
  }

  // ----- Who verifies -----

  /** An event binds a secret to an agent. */
  predicate BindsSecret(b: Book, e: Event, agent: string, secret: string) {
    match e
    case Bind(a, x, _) => a == agent && x == secret && secret != ""
    case Enroll(a, code, now, random, _) => a == agent && EnrollOutcome(b, a, code, now, random) == Secret(secret)
    case _ => false
  }

  /** An event ends whatever binding the agent had. */
  predicate EndsBinding(b: Book, e: Event, agent: string) {
    match e
    case Bind(a, x, _) => a == agent && x != ""
    case Enroll(a, code, now, random, _) => a == agent && EnrollOutcome(b, a, code, now, random).Secret?
    case Revoke(a, _) => a == agent
    case _ => false
  }
}
