/**
 The caching token-introspection validator, with responses as in section 2.2 of
 RFC 7662 and status 429 as in section 4 of RFC 6585.  Times are milliseconds.
 */
module Introspection {
  import opened Common
  import opened Text
  import TextLaws

  /** What the HTTP exchange yields, if there is one; a body is `active` and `scope`. */
  datatype Reply =
    | NoRequest
    | TransportError
    | Response(status: int, body: Option<(bool, string)>)

  datatype Verdict = Accepted | InBackoff | Inactive | MissingScope | Unreachable | Throttled | BadStatus | BadBody

  datatype Entry = Entry(active: bool, scope: string, exp: int)

  datatype Settings = Settings(ttl: int, requiredScopes: seq<string>)

  const FIRST_STEP := 250
  const MAX_BACKOFF := 5000

  datatype Cache = Cache(entries: map<string, Entry>, backoffUntil: Option<int>, backoffStep: int)

  const EMPTY := Cache(map[], None, FIRST_STEP)

  predicate HasScopes(required: seq<string>, granted: string) {
    forall need :: need in required ==> need in Fields(granted)
  }

  function Judge(cfg: Settings, active: bool, scope: string): Verdict {
    if !active then Inactive else if !HasScopes(cfg.requiredScopes, scope) then MissingScope else Accepted
  }

  predicate InWait(c: Cache, now: int) { c.backoffUntil.Some? && c.backoffUntil.value > now }

  predicate Cached(c: Cache, token: string, now: int) { token in c.entries && c.entries[token].exp > now }

  /** Whether this call asks the server. */
  predicate Asks(c: Cache, now: int, token: string, reply: Reply) {
    !InWait(c, now) && !Cached(c, token, now) && !reply.NoRequest?
  }

  function NextStep(step: int): int {
    if step < MAX_BACKOFF then (if step * 2 > MAX_BACKOFF then MAX_BACKOFF else step * 2) else step
  }

  function Success(status: int): bool { 200 <= status <= 299 }

  function AfterValidate(cfg: Settings, c: Cache, now: int, token: string, reply: Reply): (Cache, Verdict) {
    if InWait(c, now) then (c, InBackoff)
    else if Cached(c, token, now) then (c, Judge(cfg, c.entries[token].active, c.entries[token].scope))
    else
      match reply
      case NoRequest => (c, Unreachable)
      case TransportError => (c, Unreachable)
      case Response(status, body) =>
        if status == 429 then
          (c.(backoffStep := NextStep(c.backoffStep), backoffUntil := Some(now + NextStep(c.backoffStep))), Throttled)
        else
          var d := c.(backoffStep := FIRST_STEP, backoffUntil := None);
          if !Success(status) then (d, BadStatus)
          else if body.None? then (d, BadBody)
          else
            (d.(entries := d.entries[token := Entry(body.value.0, body.value.1, now + cfg.ttl)]),
             Judge(cfg, body.value.0, body.value.1))
  }

  class Validator {
    const cfg: Settings
    var entries: map<string, Entry>
    var backoffUntil: Option<int>
    var backoffStep: int

    function Value(): Cache
      reads this
    {
      Cache(entries, backoffUntil, backoffStep)
    }

    /** A cache time of 0 seconds or less becomes 30 seconds. */
    constructor (cacheSeconds: int, requiredScopes: seq<string>)
      ensures Value() == EMPTY && cfg.requiredScopes == requiredScopes
      ensures cfg.ttl == if cacheSeconds > 0 then 1000 * cacheSeconds else 30000
    {
      var ttl := cacheSeconds * 1000;
      if ttl <= 0 {
        ttl := 30 * 1000;
      }
      cfg := Settings(ttl, requiredScopes);
      entries, backoffUntil, backoffStep := map[], None, FIRST_STEP;
    }

    method HasAllScopes(granted: string) returns (ok: bool)
      ensures ok == HasScopes(cfg.requiredScopes, granted)
    {
      if |cfg.requiredScopes| == 0 {
        return true;
      }
      var parts := Fields(granted);
      var have: set<string> := {};
      for i := 0 to |parts|
        invariant have == set s | s in parts[..i]
      {
        have := have + {parts[i]};
      }
      assert parts[..|parts|] == parts;
      for i := 0 to |cfg.requiredScopes|
        invariant forall k :: 0 <= k < i ==> cfg.requiredScopes[k] in parts
      {
        if cfg.requiredScopes[i] !in have {
          return false;
        }
      }
      ok := true;
    }

    method Validate(now: int, token: string, reply: Reply) returns (verdict: Verdict)
      modifies this
      ensures (Value(), verdict) == AfterValidate(cfg, old(Value()), now, token, reply)
    {
      if backoffUntil.Some? && backoffUntil.value > now {
        return InBackoff;
      }
      if token in entries && entries[token].exp > now {
        verdict := Check(entries[token].active, entries[token].scope);
        return;
      }
      if reply.NoRequest? || reply.TransportError? {
        return Unreachable;
      }
      if reply.status == 429 {
        if backoffStep < MAX_BACKOFF {
          backoffStep := backoffStep * 2;
          if backoffStep > MAX_BACKOFF {
            backoffStep := MAX_BACKOFF;
          }
        }
        backoffUntil := Some(now + backoffStep);
        return Throttled;
      }
      backoffStep, backoffUntil := FIRST_STEP, None;
      if reply.status < 200 || reply.status > 299 {
        return BadStatus;
      }
      if reply.body.None? {
        return BadBody;
      }
      var (active, scope) := reply.body.value;
      entries := entries[token := Entry(active, scope, now + cfg.ttl)];
      verdict := Check(active, scope);
    }

    method Check(active: bool, scope: string) returns (verdict: Verdict)
      ensures verdict == Judge(cfg, active, scope)
    {
      if !active {
        return Inactive;
      }
      var ok := HasAllScopes(scope);
      verdict := if ok then Accepted else MissingScope;
    }
  }

  // ---------- sequential runs ----------

  datatype Call = Call(now: int, token: string, reply: Reply)

  /** An exchange with the server, started at `at`. */
  datatype Exchange = Exchange(at: int, token: string, reply: Reply)

  datatype State = State(cache: Cache, log: seq<Exchange>)

  function Step(cfg: Settings, s: State, c: Call): State {
    State(AfterValidate(cfg, s.cache, c.now, c.token, c.reply).0,
          if Asks(s.cache, c.now, c.token, c.reply) then s.log + [Exchange(c.now, c.token, c.reply)] else s.log)
  }

  function Exec(cfg: Settings, calls: seq<Call>): State {
    if calls == [] then State(EMPTY, []) else Step(cfg, Exec(cfg, calls[..|calls| - 1]), calls[|calls| - 1])
  }

  /** A successful, decodable answer about this token. */
  predicate Answers(x: Exchange, token: string) {
    x.token == token && x.reply.Response? && Success(x.reply.status) && x.reply.body.Some?
  }

  /** The server's latest answer about a token. */
  function Latest(log: seq<Exchange>, token: string): Option<Exchange> {
    if log == [] then None
    else if Answers(log[|log| - 1], token) then Some(log[|log| - 1]) else Latest(log[..|log| - 1], token)
  }

  predicate IsThrottle(x: Exchange) { x.reply.Response? && x.reply.status == 429 }

  /** How many 429s came since any other response; failed transports are no response. */
  function Streak(log: seq<Exchange>): nat {
    if log == [] then 0
    else
      var last, front := log[|log| - 1], log[..|log| - 1];
      if IsThrottle(last) then Streak(front) + 1 else if last.reply.Response? then 0 else Streak(front)
  }

  function LastThrottle(log: seq<Exchange>): int {
    if log == [] then 0
    else if IsThrottle(log[|log| - 1]) then log[|log| - 1].at else LastThrottle(log[..|log| - 1])
  }

  function Pow2(k: nat): nat { if k == 0 then 1 else 2 * Pow2(k - 1) }

  function Min(a: int, b: int): int { if a < b then a else b }

  /** The wait after `k` throttled answers in a row. */
  function Wait(k: nat): int { Min(250 * Pow2(k), 5000) }

  lemma {:induction false} WaitDoubles(k: nat)
    ensures NextStep(Wait(k)) == Wait(k + 1)
  {
  }

  /** No exchange starts inside the wait that the exchanges before it imposed. */
  ghost predicate Patient(log: seq<Exchange>) {
    forall j :: 0 <= j < |log| && Streak(log[..j]) > 0 ==>
      log[j].at >= LastThrottle(log[..j]) + Wait(Streak(log[..j]))
  }

  /** The entry the cache keeps for an answer. */
  function EntryOf(cfg: Settings, x: Exchange): Entry
    requires x.reply.Response? && x.reply.body.Some?
  {
    Entry(x.reply.body.value.0, x.reply.body.value.1, x.at + cfg.ttl)
  }

  ghost predicate EntryOk(cfg: Settings, s: State, token: string) {
    && (Latest(s.log, token).Some? ==> Answers(Latest(s.log, token).value, token))
    && (token in s.cache.entries <==> Latest(s.log, token).Some?)
    && (token in s.cache.entries ==> s.cache.entries[token] == EntryOf(cfg, Latest(s.log, token).value))
  }

  ghost predicate BackoffOk(s: State) {
    && s.cache.backoffStep == Wait(Streak(s.log))
    && s.cache.backoffUntil
       == (if Streak(s.log) == 0 then None else Some(LastThrottle(s.log) + Wait(Streak(s.log))))
    && Patient(s.log)
  }

  ghost predicate Invariant(cfg: Settings, s: State) {
    (forall token :: EntryOk(cfg, s, token)) && BackoffOk(s)
  }

  lemma {:induction false} Snoc(log: seq<Exchange>, x: Exchange, token: string)
    ensures Latest(log + [x], token) == if Answers(x, token) then Some(x) else Latest(log, token)
  {
    assert (log + [x])[..|log|] == log;
  }

  lemma {:induction false} PatientSnoc(log: seq<Exchange>, x: Exchange)
    requires Patient(log) && (Streak(log) > 0 ==> x.at >= LastThrottle(log) + Wait(Streak(log)))
    ensures Patient(log + [x])
  {
    var l := log + [x];
    forall j | 0 <= j < |l| && Streak(l[..j]) > 0
      ensures l[j].at >= LastThrottle(l[..j]) + Wait(Streak(l[..j]))
    {
      if j < |log| {
        assert l[..j] == log[..j];
      } else {
        assert l[..j] == log;
      }
    }
  }

  lemma {:induction false} EntryKept(cfg: Settings, s: State, c: Call, token: string)
    requires EntryOk(cfg, s, token) && Asks(s.cache, c.now, c.token, c.reply)
    ensures EntryOk(cfg, Step(cfg, s, c), token)
  {
    Snoc(s.log, Exchange(c.now, c.token, c.reply), token);
  }

  lemma {:induction false} BackoffKept(cfg: Settings, s: State, c: Call)
    requires BackoffOk(s) && Asks(s.cache, c.now, c.token, c.reply)
    ensures BackoffOk(Step(cfg, s, c))
  {
    var x := Exchange(c.now, c.token, c.reply);
    SnocStreak(s.log, x);
    PatientSnoc(s.log, x);
    if IsThrottle(x) {
      ThrottleKept(cfg, s, c);
    } else if c.reply.Response? {
      AnswerKept(cfg, s, c);
    }
  }

  /** A throttled answer doubles the wait. */
  lemma {:induction false} ThrottleKept(cfg: Settings, s: State, c: Call)
    requires BackoffOk(s) && Asks(s.cache, c.now, c.token, c.reply) && c.reply.Response? && c.reply.status == 429
    ensures var d := Step(cfg, s, c);
            && d.cache.backoffStep == Wait(Streak(d.log))
            && Streak(d.log) > 0
            && d.cache.backoffUntil == Some(LastThrottle(d.log) + Wait(Streak(d.log)))
  {
    SnocStreak(s.log, Exchange(c.now, c.token, c.reply));
    WaitDoubles(Streak(s.log));
  }

  /** Any other answer ends it. */
  lemma {:induction false} AnswerKept(cfg: Settings, s: State, c: Call)
    requires Asks(s.cache, c.now, c.token, c.reply) && c.reply.Response? && c.reply.status != 429
    ensures var d := Step(cfg, s, c);
            d.cache.backoffStep == Wait(Streak(d.log)) && Streak(d.log) == 0 && d.cache.backoffUntil == None
  {
    SnocStreak(s.log, Exchange(c.now, c.token, c.reply));
    assert Wait(0) == FIRST_STEP;
  }

  lemma {:induction false} SnocStreak(log: seq<Exchange>, x: Exchange)
    ensures Streak(log + [x]) == if IsThrottle(x) then Streak(log) + 1 else if x.reply.Response? then 0 else Streak(log)
    ensures LastThrottle(log + [x]) == if IsThrottle(x) then x.at else LastThrottle(log)
  {
    assert (log + [x])[..|log|] == log;
  }

  lemma {:induction false} StepKeeps(cfg: Settings, s: State, c: Call)
    requires Invariant(cfg, s)
    ensures Invariant(cfg, Step(cfg, s, c))
  {
    if Asks(s.cache, c.now, c.token, c.reply) {
      BackoffKept(cfg, s, c);
      forall token
        ensures EntryOk(cfg, Step(cfg, s, c), token)
      {
        EntryKept(cfg, s, c, token);
      }
    } else {
      assert Step(cfg, s, c) == s;
    }
  }

  lemma {:induction false} Reachable(cfg: Settings, calls: seq<Call>)
    ensures Invariant(cfg, Exec(cfg, calls))
    decreases |calls|
  {
    if calls == [] {
      assert Wait(0) == FIRST_STEP;
    } else {
      Reachable(cfg, calls[..|calls| - 1]);
      StepKeeps(cfg, Exec(cfg, calls[..|calls| - 1]), calls[|calls| - 1]);
    }
  }

  /** A live answer that grants the token. */
  ghost predicate Granted(cfg: Settings, log: seq<Exchange>, token: string, now: int) {
    var x := Latest(log, token);
    && x.Some? && x.value.reply.Response? && x.value.reply.body.Some?
    && now < x.value.at + cfg.ttl
    && x.value.reply.body.value.0
    && HasScopes(cfg.requiredScopes, x.value.reply.body.value.1)
  }

  /**
   In every sequential run, a token is accepted at `now` if and only if no wait is in
   force and the server's latest answer about it, counting one obtained by this very
   call, is younger than the cache time, active, and grants every required scope.
   */
  lemma {:induction false} AcceptedIffGranted(cfg: Settings, calls: seq<Call>, c: Call)
    requires cfg.ttl > 0
    ensures var s := Exec(cfg, calls);
            AfterValidate(cfg, s.cache, c.now, c.token, c.reply).1 == Accepted
            <==> !InWait(s.cache, c.now) && Granted(cfg, Step(cfg, s, c).log, c.token, c.now)
  {
    Reachable(cfg, calls);
    var s := Exec(cfg, calls);
    assert EntryOk(cfg, s, c.token);
    if Asks(s.cache, c.now, c.token, c.reply) {
      Snoc(s.log, Exchange(c.now, c.token, c.reply), c.token);
    }
  }

  /** After `k` throttled answers in a row the wait is min(250 * 2^k, 5000) ms from the last
      of them; inside it every call is refused and no exchange starts, in the whole run. */
  lemma {:induction false} BackoffRespected(cfg: Settings, calls: seq<Call>, c: Call)
    ensures var s := Exec(cfg, calls);
            && Patient(s.log)
            && (InWait(s.cache, c.now) <==> Streak(s.log) > 0 && c.now < LastThrottle(s.log) + Wait(Streak(s.log)))
            && (InWait(s.cache, c.now) ==>
                  AfterValidate(cfg, s.cache, c.now, c.token, c.reply) == (s.cache, InBackoff) && Step(cfg, s, c) == s)
  {
    Reachable(cfg, calls);
  }

  /** The scopes granted by a list of words, however they are spaced, are those words. */
  lemma {:induction false} ScopesOfJoined(required: seq<string>, pads: seq<string>, words: seq<string>)
    requires TextLaws.Separates(pads, words)
    ensures HasScopes(required, TextLaws.Joined(pads, words)) <==> forall need :: need in required ==> need in words
  {
    TextLaws.FieldsOfJoined(pads, words);
  }

  /** An answer about the token that is younger than the cache time. */
  predicate Fresh(cfg: Settings, log: seq<Exchange>, token: string, now: int) {
    Latest(log, token).Some? && now < Latest(log, token).value.at + cfg.ttl
  }

  /**
   Every verdict, in every sequential run: inside a wait the refusal says so; otherwise a fresh
   answer, counting one obtained by this very call, decides by its activity and then by its
   scopes; and without one the verdict is the reason why this call obtained none.
   */
  lemma {:induction false} VerdictMeans(cfg: Settings, calls: seq<Call>, c: Call)
    requires cfg.ttl > 0
    ensures var s := Exec(cfg, calls);
            var v, log := AfterValidate(cfg, s.cache, c.now, c.token, c.reply).1, Step(cfg, s, c).log;
            var x := Latest(log, c.token);
            if InWait(s.cache, c.now) then v == InBackoff
            else if Fresh(cfg, log, c.token, c.now) then
              && x.value.reply.Response? && x.value.reply.body.Some?
              && var (active, scope) := x.value.reply.body.value;
                 v == if !active then Inactive
                      else if forall need :: need in cfg.requiredScopes ==> need in Fields(scope) then Accepted
                      else MissingScope
            else if !c.reply.Response? then v == Unreachable
            else if c.reply.status == 429 then v == Throttled
            else if c.reply.status < 200 || 300 <= c.reply.status then v == BadStatus
            else c.reply.body.None? && v == BadBody
  {
    Reachable(cfg, calls);
    var s := Exec(cfg, calls);
    assert EntryOk(cfg, s, c.token);
    if Asks(s.cache, c.now, c.token, c.reply) {
      Snoc(s.log, Exchange(c.now, c.token, c.reply), c.token);
    }
  }

  /** No exchange about a token starts while the latest answer about it is fresh. */
  ghost predicate Spared(cfg: Settings, log: seq<Exchange>) {
    forall j :: 0 <= j < |log| ==> !Fresh(cfg, log[..j], log[j].token, log[j].at)
  }

  /** The cache spares the server, in every sequential run. */
  lemma {:induction false} CacheSparesServer(cfg: Settings, calls: seq<Call>)
    ensures Spared(cfg, Exec(cfg, calls).log)
    decreases |calls|
  {
    if calls != [] {
      var front, c := calls[..|calls| - 1], calls[|calls| - 1];
      var s := Exec(cfg, front);
      CacheSparesServer(cfg, front);
      Reachable(cfg, front);
      assert EntryOk(cfg, s, c.token);
      if Asks(s.cache, c.now, c.token, c.reply) {
        SparedSnoc(cfg, s.log, Exchange(c.now, c.token, c.reply));
      }
    }
  }

  lemma {:induction false} SparedSnoc(cfg: Settings, log: seq<Exchange>, x: Exchange)
    requires Spared(cfg, log) && !Fresh(cfg, log, x.token, x.at)
    ensures Spared(cfg, log + [x])
  {
    var l := log + [x];
    forall j | 0 <= j < |l|
      ensures !Fresh(cfg, l[..j], l[j].token, l[j].at)
    {
      assert l[..j] == if j < |log| then log[..j] else log;
    }
  }
}
