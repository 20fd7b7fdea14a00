/**
 The circuit breaker.  Callers read the clock before they take the lock, so a run in
 lock order carries arbitrary, not necessarily increasing, times.
 */
module CircuitBreaker {
  import opened Common

  /** The policy; `debounce` 0 disables it, a window of 0 or less never holds back. */
  datatype Policy = Policy(threshold: int, window: int, debounce: int)

  datatype Breaker = Breaker(allowed: bool, errorCount: int, lastError: Option<int>, lastTripped: int)

  const CLOSED := Breaker(true, 0, None, 0)

  /** What happens under the lock, and on the one-slot reset channel, in order.  A signal names
      the position in the log of the reset whose call sends it. */
  datatype Event =
    | ErrorCounted(at: int)
    | Tripped(at: int, byErrors: bool)
    | Reopened(at: int, byAllow: bool)
    | Asked(at: int, granted: bool)
    | SignalSent(reset: nat)
    | Received

  function WindowOver(p: Policy, b: Breaker, now: int): bool {
    p.window <= 0 || now - b.lastTripped >= p.window
  }

  function AfterAllow(p: Policy, b: Breaker, now: int): (Breaker, seq<Event>) {
    if !b.allowed && WindowOver(p, b, now) then
      (b.(allowed := true, errorCount := 0), [Reopened(now, true), Asked(now, true)])
    else (b, [Asked(now, b.allowed)])
  }

  function AfterError(p: Policy, b: Breaker, now: int): (Breaker, seq<Event>) {
    if p.debounce > 0 && b.lastError.Some? && now - b.lastError.value < p.debounce then (b, [])
    else
      var c := b.(lastError := Some(now), errorCount := b.errorCount + 1);
      if c.allowed && c.errorCount >= p.threshold then
        (c.(allowed := false, lastTripped := now), [ErrorCounted(now), Tripped(now, true)])
      else (c, [ErrorCounted(now)])
  }

  function AfterReset(b: Breaker, now: int): (Breaker, seq<Event>) {
    if b.allowed then (b, []) else (b.(allowed := true, errorCount := 0), [Reopened(now, false)])
  }

  function AfterTrip(b: Breaker, now: int): (Breaker, seq<Event>) {
    if !b.allowed then (b, []) else (b.(allowed := false, lastTripped := now), [Tripped(now, false)])
  }

  /** The breaker object; a call's critical section and then its signal. */
  class CircuitBreaker {
    const policy: Policy
    var allowed: bool
    var errorCount: int
    var lastError: Option<int>
    var lastTripped: int
    var signal: bool

    function Value(): Breaker
      reads this
    {
      Breaker(allowed, errorCount, lastError, lastTripped)
    }

    constructor (policy: Policy)
      ensures this.policy == policy && Value() == CLOSED && !signal
    {
      this.policy := policy;
      allowed, errorCount, lastError, lastTripped, signal := true, 0, None, 0, false;
    }

    method Allow(now: int) returns (granted: bool)
      modifies this
      ensures Value() == AfterAllow(policy, old(Value()), now).0
      ensures granted == (old(allowed) || policy.window <= 0 || now - old(lastTripped) >= policy.window)
      ensures signal == (old(signal) || (!old(allowed) && granted))
    {
      granted := allowed;
      var shouldReset := false;
      if !granted && (policy.window <= 0 || now - lastTripped >= policy.window) {
        allowed, errorCount := true, 0;
        granted, shouldReset := true, true;
      }
      if shouldReset {
        SignalReset();
      }
    }

    method RecordError(now: int)
      modifies this`errorCount, this`lastError, this`allowed, this`lastTripped
      ensures Value() == AfterError(policy, old(Value()), now).0
    {
      if policy.debounce > 0 && lastError.Some? && now - lastError.value < policy.debounce {
        return;
      }
      lastError := Some(now);
      errorCount := errorCount + 1;
      if allowed && errorCount >= policy.threshold {
        allowed, lastTripped := false, now;
      }
    }

    method Reset(now: int)
      modifies this
      ensures Value() == AfterReset(old(Value()), now).0
      ensures signal == (old(signal) || !old(allowed))
    {
      if allowed {
        return;
      }
      allowed, errorCount := true, 0;
      SignalReset();
    }

    method Trip(now: int)
      modifies this`allowed, this`lastTripped
      ensures Value() == AfterTrip(old(Value()), now).0
    {
      if !allowed {
        return;
      }
      allowed, lastTripped := false, now;
    }

    /** A send on the one-slot channel that never blocks. */
    method SignalReset()
      modifies this`signal
      ensures signal
    {
      if !signal {
        signal := true;
      }
    }
  }

  // ---------- runs in lock order ----------

  datatype Action = AllowAt(now: int) | ErrorAt(now: int) | ResetAt(now: int) | TripAt(now: int)
                  | Signal(reset: nat) | Receive

  /** `owed` holds the resets, by their position in the log, whose call has left the lock but
      not signalled yet. */
  datatype State = State(breaker: Breaker, signal: bool, owed: set<nat>, log: seq<Event>)

  const START := State(CLOSED, false, {}, [])

  function Locked(s: State, r: (Breaker, seq<Event>)): State {
    s.(breaker := r.0, log := s.log + r.1,
       owed := if !s.breaker.allowed && r.0.allowed then s.owed + {|s.log|} else s.owed)
  }

  function Step(p: Policy, s: State, a: Action): State {
    match a
    case AllowAt(now) => Locked(s, AfterAllow(p, s.breaker, now))
    case ErrorAt(now) => Locked(s, AfterError(p, s.breaker, now))
    case ResetAt(now) => Locked(s, AfterReset(s.breaker, now))
    case TripAt(now) => Locked(s, AfterTrip(s.breaker, now))
    case Signal(i) =>
      if i !in s.owed then s else s.(signal := true, owed := s.owed - {i}, log := s.log + [SignalSent(i)])
    case Receive => if !s.signal then s else s.(signal := false, log := s.log + [Received])
  }

  function Exec(p: Policy, acts: seq<Action>): State {
    if acts == [] then START else Step(p, Exec(p, acts[..|acts| - 1]), acts[|acts| - 1])
  }

  /** Whether the latest trip or reset in the log is a trip. */
  function IsOpen(log: seq<Event>): bool {
    if log == [] then false
    else
      var last := log[|log| - 1];
      if last.Tripped? then true else if last.Reopened? then false else IsOpen(log[..|log| - 1])
  }

  function LastTrip(log: seq<Event>): int {
    if log == [] then 0
    else if log[|log| - 1].Tripped? then log[|log| - 1].at else LastTrip(log[..|log| - 1])
  }

  /** The times of the errors counted since the latest reset. */
  function CountedSince(log: seq<Event>): seq<int> {
    if log == [] then []
    else
      var last, front := log[|log| - 1], log[..|log| - 1];
      if last.Reopened? then [] else if last.ErrorCounted? then CountedSince(front) + [last.at] else CountedSince(front)
  }

  function AllCounted(log: seq<Event>): seq<int> {
    if log == [] then []
    else
      var last, front := log[|log| - 1], log[..|log| - 1];
      if last.ErrorCounted? then AllCounted(front) + [last.at] else AllCounted(front)
  }

  /** Whether a signal was sent after the latest receive. */
  function Signalled(log: seq<Event>): bool {
    if log == [] then false
    else
      var last := log[|log| - 1];
      if last.SignalSent? then true else if last.Received? then false else Signalled(log[..|log| - 1])
  }

  /** The resets that have not been signalled. */
  function Owed(log: seq<Event>): set<nat> {
    if log == [] then {}
    else
      var front, last := Owed(log[..|log| - 1]), log[|log| - 1];
      if last.Reopened? then front + {|log| - 1} else if last.SignalSent? then front - {last.reset} else front
  }

  /** Each of the times is at least `d` after the one before it. */
  ghost predicate Spaced(ts: seq<int>, d: int) {
    forall k :: 0 <= k < |ts| - 1 ==> ts[k + 1] - ts[k] >= d
  }

  /** What every event in the log respects, given the events before it. */
  ghost predicate EventOk(p: Policy, before: seq<Event>, e: Event) {
    match e
    case Tripped(at, byErrors) =>
      !IsOpen(before)
      && (byErrors ==> CountedSince(before) != [] && |CountedSince(before)| >= p.threshold
                       && CountedSince(before)[|CountedSince(before)| - 1] == at)
    case Reopened(at, byAllow) =>
      IsOpen(before) && (byAllow ==> p.window <= 0 || at - LastTrip(before) >= p.window)
    case Asked(at, granted) =>
      if granted then !IsOpen(before)
      else IsOpen(before) && p.window > 0 && at - LastTrip(before) < p.window
    case _ => true
  }

  ghost predicate LogOk(p: Policy, log: seq<Event>) {
    forall i :: 0 <= i < |log| ==> EventOk(p, log[..i], log[i])
  }

  ghost predicate Invariant(p: Policy, s: State) {
    && Faithful(p, s)
    && (s.breaker.allowed ==> s.breaker.errorCount == 0 || s.breaker.errorCount < p.threshold)
  }

  /** The breaker's fields are what the log says. */
  ghost predicate Faithful(p: Policy, s: State) {
    && LogOk(p, s.log)
    && s.breaker.allowed == !IsOpen(s.log)
    && (!s.breaker.allowed ==> s.breaker.lastTripped == LastTrip(s.log))
    && s.breaker.errorCount == |CountedSince(s.log)|
    && s.signal == Signalled(s.log)
    && s.owed == Owed(s.log)
    && (if AllCounted(s.log) == [] then s.breaker.lastError == None
        else s.breaker.lastError == Some(AllCounted(s.log)[|AllCounted(s.log)| - 1]))
    && (p.debounce > 0 ==> Spaced(AllCounted(s.log), p.debounce))
  }

  /** Everything about one more event. */
  lemma {:induction false} Snoc(log: seq<Event>, e: Event)
    ensures IsOpen(log + [e]) == if e.Tripped? then true else if e.Reopened? then false else IsOpen(log)
    ensures LastTrip(log + [e]) == if e.Tripped? then e.at else LastTrip(log)
    ensures CountedSince(log + [e])
            == if e.Reopened? then [] else if e.ErrorCounted? then CountedSince(log) + [e.at] else CountedSince(log)
    ensures AllCounted(log + [e]) == if e.ErrorCounted? then AllCounted(log) + [e.at] else AllCounted(log)
    ensures Signalled(log + [e]) == if e.SignalSent? then true else if e.Received? then false else Signalled(log)
    ensures Owed(log + [e])
            == if e.Reopened? then Owed(log) + {|log|} else if e.SignalSent? then Owed(log) - {e.reset} else Owed(log)
  {
    assert (log + [e])[..|log|] == log;
  }

  lemma {:induction false} LogSnoc(p: Policy, log: seq<Event>, e: Event)
    requires LogOk(p, log) && EventOk(p, log, e)
    ensures LogOk(p, log + [e])
  {
    var l := log + [e];
    forall i | 0 <= i < |l|
      ensures EventOk(p, l[..i], l[i])
    {
      if i < |log| {
        assert l[..i] == log[..i];
      } else {
        assert l[..i] == log;
      }
    }
  }

  lemma {:induction false} SpacedSnoc(ts: seq<int>, d: int, t: int)
    requires Spaced(ts, d) && (ts != [] ==> t - ts[|ts| - 1] >= d)
    ensures Spaced(ts + [t], d)
  {
  }

  lemma {:induction false} CountKeeps(p: Policy, s: State, now: int)
    requires Faithful(p, s)
    requires p.debounce > 0 && s.breaker.lastError.Some? ==> now - s.breaker.lastError.value >= p.debounce
    ensures Faithful(p, s.(breaker := s.breaker.(lastError := Some(now), errorCount := s.breaker.errorCount + 1),
                           log := s.log + [ErrorCounted(now)]))
  {
    Snoc(s.log, ErrorCounted(now));
    LogSnoc(p, s.log, ErrorCounted(now));
    if p.debounce > 0 {
      SpacedSnoc(AllCounted(s.log), p.debounce, now);
    }
  }

  lemma {:induction false} TripKeeps(p: Policy, s: State, e: Event)
    requires Faithful(p, s) && s.breaker.allowed && e.Tripped? && EventOk(p, s.log, e)
    ensures Invariant(p, s.(breaker := s.breaker.(allowed := false, lastTripped := e.at), log := s.log + [e]))
  {
    Snoc(s.log, e);
    LogSnoc(p, s.log, e);
  }

  /** The state after an error is counted, before a trip. */
  function AfterCount(s: State, now: int): State {
    s.(breaker := s.breaker.(lastError := Some(now), errorCount := s.breaker.errorCount + 1),
       log := s.log + [ErrorCounted(now)])
  }

  /** An error that reaches the threshold trips. */
  lemma {:induction false} ErrorTrips(p: Policy, s: State, now: int)
    requires Invariant(p, s) && Faithful(p, AfterCount(s, now)) && s.breaker.allowed
    requires s.breaker.errorCount + 1 >= p.threshold
    ensures var t := AfterCount(s, now);
            Invariant(p, t.(breaker := t.breaker.(allowed := false, lastTripped := now),
                            log := t.log + [Tripped(now, true)]))
  {
    Snoc(s.log, ErrorCounted(now));
    TripKeeps(p, AfterCount(s, now), Tripped(now, true));
  }

  /** What an error does, in terms of the counted state. */
  lemma {:induction false} ErrorSteps(p: Policy, s: State, now: int)
    ensures var t := AfterCount(s, now);
            Step(p, s, ErrorAt(now))
            == if p.debounce > 0 && s.breaker.lastError.Some? && now - s.breaker.lastError.value < p.debounce then s
               else if s.breaker.allowed && s.breaker.errorCount + 1 >= p.threshold then
                 t.(breaker := t.breaker.(allowed := false, lastTripped := now), log := t.log + [Tripped(now, true)])
               else t
  {
    assert s.log + [] == s.log;
    assert s.log + [ErrorCounted(now), Tripped(now, true)] == s.log + [ErrorCounted(now)] + [Tripped(now, true)];
  }

  lemma {:induction false} ErrorKeeps(p: Policy, s: State, now: int)
    requires Invariant(p, s)
    ensures Invariant(p, Step(p, s, ErrorAt(now)))
  {
    ErrorSteps(p, s, now);
    if !(p.debounce > 0 && s.breaker.lastError.Some? && now - s.breaker.lastError.value < p.debounce) {
      CountKeeps(p, s, now);
      if s.breaker.allowed && s.breaker.errorCount + 1 >= p.threshold {
        ErrorTrips(p, s, now);
      } else {
        ErrorCounts(p, s, now);
      }
    }
  }

  /** An error below the threshold, or on an open breaker, is only counted. */
  lemma {:induction false} ErrorCounts(p: Policy, s: State, now: int)
    requires Faithful(p, AfterCount(s, now)) && !(s.breaker.allowed && s.breaker.errorCount + 1 >= p.threshold)
    ensures Invariant(p, AfterCount(s, now))
  {
  }

  lemma {:induction false} ReopenKeeps(p: Policy, s: State, e: Event)
    requires Invariant(p, s) && !s.breaker.allowed && e.Reopened? && (e.byAllow ==> WindowOver(p, s.breaker, e.at))
    ensures Invariant(p, s.(breaker := s.breaker.(allowed := true, errorCount := 0), owed := s.owed + {|s.log|},
                            log := s.log + [e]))
  {
    Snoc(s.log, e);
    LogSnoc(p, s.log, e);
  }

  lemma {:induction false} AskKeeps(p: Policy, s: State, e: Event)
    requires Invariant(p, s) && e.Asked? && e.granted == s.breaker.allowed
    requires e.granted || !WindowOver(p, s.breaker, e.at)
    ensures Invariant(p, s.(log := s.log + [e]))
  {
    Snoc(s.log, e);
    LogSnoc(p, s.log, e);
  }

  /** An Allow after the window: first the reset, then the grant. */
  lemma {:induction false} AllowReopens(p: Policy, s: State, now: int)
    requires Invariant(p, s) && !s.breaker.allowed && WindowOver(p, s.breaker, now)
    ensures Invariant(p, Step(p, s, AllowAt(now)))
  {
    var e, f := Reopened(now, true), Asked(now, true);
    var t := s.(breaker := s.breaker.(allowed := true, errorCount := 0), owed := s.owed + {|s.log|},
               log := s.log + [e]);
    ReopenKeeps(p, s, e);
    AskKeeps(p, t, f);
    AllowInTwo(p, s, now, t);
  }

  lemma {:induction false} AllowInTwo(p: Policy, s: State, now: int, t: State)
    requires !s.breaker.allowed && WindowOver(p, s.breaker, now)
    requires t == s.(breaker := s.breaker.(allowed := true, errorCount := 0), owed := s.owed + {|s.log|},
                     log := s.log + [Reopened(now, true)])
    ensures Step(p, s, AllowAt(now)) == t.(log := t.log + [Asked(now, true)])
  {
    assert s.log + [Reopened(now, true), Asked(now, true)] == t.log + [Asked(now, true)];
  }

  lemma {:induction false} AllowKeeps(p: Policy, s: State, now: int)
    requires Invariant(p, s)
    ensures Invariant(p, Step(p, s, AllowAt(now)))
  {
    if !s.breaker.allowed && WindowOver(p, s.breaker, now) {
      AllowReopens(p, s, now);
    } else {
      AskKeeps(p, s, Asked(now, s.breaker.allowed));
      assert Step(p, s, AllowAt(now)) == s.(log := s.log + [Asked(now, s.breaker.allowed)]);
    }
  }

  lemma {:induction false} StepKeeps(p: Policy, s: State, a: Action)
    requires Invariant(p, s)
    ensures Invariant(p, Step(p, s, a))
  {
    match a
    case AllowAt(now) => AllowKeeps(p, s, now);
    case ErrorAt(now) => ErrorKeeps(p, s, now);
    case ResetAt(now) =>
      assert s.log + [] == s.log;
      if !s.breaker.allowed {
        ReopenKeeps(p, s, Reopened(now, false));
      }
    case TripAt(now) =>
      assert s.log + [] == s.log;
      if s.breaker.allowed {
        TripKeeps(p, s, Tripped(now, false));
      }
    case Signal(i) => EventKeeps(p, s, a, SignalSent(i));
    case Receive => EventKeeps(p, s, a, Received);
  }

  /** The actions on the signal channel. */
  lemma {:induction false} EventKeeps(p: Policy, s: State, a: Action, e: Event)
    requires Invariant(p, s)
    requires match a
             case Signal(i) => e == SignalSent(i)
             case Receive => e == Received
             case _ => false
    ensures Invariant(p, Step(p, s, a))
  {
    Snoc(s.log, e);
    assert s.log + [] == s.log;
    if Step(p, s, a).log != s.log {
      LogSnoc(p, s.log, e);
    }
  }

  lemma {:induction false} Reachable(p: Policy, acts: seq<Action>)
    ensures Invariant(p, Exec(p, acts))
    decreases |acts|
  {
    if acts != [] {
      Reachable(p, acts[..|acts| - 1]);
      StepKeeps(p, Exec(p, acts[..|acts| - 1]), acts[|acts| - 1]);
    }
  }

  // ---------- what a run guarantees ----------

  /** Trips and resets alternate, starting with a trip; while closed the count is 0 or below the threshold. */
  lemma {:induction false} TripsAndResetsAlternate(p: Policy, acts: seq<Action>)
    ensures var s := Exec(p, acts);
            && (forall i :: 0 <= i < |s.log| && s.log[i].Tripped? ==> !IsOpen(s.log[..i]))
            && (forall i :: 0 <= i < |s.log| && s.log[i].Reopened? ==> IsOpen(s.log[..i]))
            && s.breaker.allowed == !IsOpen(s.log)
            && (s.breaker.allowed ==> s.breaker.errorCount == 0 || s.breaker.errorCount < p.threshold)
  {
    Reachable(p, acts);
    var log := Exec(p, acts).log;
    assert forall i :: 0 <= i < |log| ==> EventOk(p, log[..i], log[i]);
  }

  lemma {:induction false} OpenAfter(log: seq<Event>, j: nat)
    requires j < |log|
    ensures IsOpen(log[..j + 1])
            == if log[j].Tripped? then true else if log[j].Reopened? then false else IsOpen(log[..j])
    ensures LastTrip(log[..j + 1]) == if log[j].Tripped? then log[j].at else LastTrip(log[..j])
  {
    assert log[..j + 1][..j] == log[..j];
  }

  /** After a trip the log stays open, with that trip time, until the next reset. */
  lemma {:induction false} StaysOpen(p: Policy, log: seq<Event>, i: nat, j: nat)
    requires LogOk(p, log) && i < j <= |log| && log[i].Tripped?
    requires forall k :: i < k < j ==> !log[k].Reopened?
    ensures IsOpen(log[..j]) && LastTrip(log[..j]) == log[i].at
    decreases j
  {
    OpenAfter(log, j - 1);
    if i < j - 1 {
      StaysOpen(p, log, i, j - 1);
      assert EventOk(p, log[..j - 1], log[j - 1]);
    }
  }

  /**
   The window.  Let the breaker trip at `i` and an Allow be granted at `j`, with no manual
   reset in between: then some Allow reopened the breaker in between, at least the whole
   window after the trip, whatever errors or further trips were reported meanwhile.
   */
  lemma {:induction false} WindowRespected(p: Policy, acts: seq<Action>, i: nat, j: nat) returns (k: nat)
    requires p.window > 0
    requires var log := Exec(p, acts).log;
             && i < j < |log| && log[i].Tripped? && log[j].Asked? && log[j].granted
             && forall m :: i < m < j && log[m].Reopened? ==> log[m].byAllow
    ensures var log := Exec(p, acts).log;
            i < k < j && log[k].Reopened? && log[k].byAllow && log[k].at - log[i].at >= p.window
  {
    Reachable(p, acts);
    var log := Exec(p, acts).log;
    k := FirstReset(p, log, i, j);
    StaysOpen(p, log, i, k);
    assert EventOk(p, log[..k], log[k]);
  }

  lemma {:induction false} FirstReset(p: Policy, log: seq<Event>, i: nat, j: nat) returns (k: nat)
    requires LogOk(p, log) && i < j < |log| && log[i].Tripped? && log[j].Asked? && log[j].granted
    ensures i < k < j && log[k].Reopened? && forall m :: i < m < k ==> !log[m].Reopened?
  {
    assert EventOk(p, log[..j], log[j]);
    k := i + 1;
    while k < j && !log[k].Reopened?
      invariant i < k <= j && forall m :: i < m < k ==> !log[m].Reopened?
    {
      k := k + 1;
    }
    if k == j {
      StaysOpen(p, log, i, j);
      assert false;
    }
  }

  /** Allow is granted if and only if the breaker is closed or the window since the latest trip is
      over, and leaves the breaker closed exactly if it was granted. */
  lemma {:induction false} AllowedIff(p: Policy, acts: seq<Action>, now: int)
    ensures var s, s' := Exec(p, acts), Exec(p, acts + [AllowAt(now)]);
            var granted := !IsOpen(s.log) || p.window <= 0 || now - LastTrip(s.log) >= p.window;
            && s'.log != [] && s'.log[|s'.log| - 1] == Asked(now, granted)
            && IsOpen(s'.log) == !granted && s'.breaker.allowed == granted
  {
    Reachable(p, acts);
    Reachable(p, acts + [AllowAt(now)]);
    assert (acts + [AllowAt(now)])[..|acts|] == acts;
  }

  /** A Reset leaves the breaker closed with no error counted against it, and writes down a reset
      exactly if it was open. */
  lemma {:induction false} ResetCloses(p: Policy, acts: seq<Action>, now: int)
    ensures var s, s' := Exec(p, acts), Exec(p, acts + [ResetAt(now)]);
            && !IsOpen(s'.log) && s'.breaker.allowed
            && s'.log == s.log + (if IsOpen(s.log) then [Reopened(now, false)] else [])
            && (IsOpen(s.log) ==> CountedSince(s'.log) == [] && s'.breaker.errorCount == 0 && |s.log| in s'.owed)
  {
    Reachable(p, acts);
    Reachable(p, acts + [ResetAt(now)]);
    assert (acts + [ResetAt(now)])[..|acts|] == acts;
    assert Exec(p, acts).log + [] == Exec(p, acts).log;
    Snoc(Exec(p, acts).log, Reopened(now, false));
  }

  /** A Trip leaves the breaker open; it dates the trip exactly if the breaker was closed. */
  lemma {:induction false} TripOpens(p: Policy, acts: seq<Action>, now: int)
    ensures var s, s' := Exec(p, acts), Exec(p, acts + [TripAt(now)]);
            && IsOpen(s'.log) && !s'.breaker.allowed
            && s'.log == s.log + (if IsOpen(s.log) then [] else [Tripped(now, false)])
            && LastTrip(s'.log) == if IsOpen(s.log) then LastTrip(s.log) else now
  {
    Reachable(p, acts);
    Reachable(p, acts + [TripAt(now)]);
    assert (acts + [TripAt(now)])[..|acts|] == acts;
    assert Exec(p, acts).log + [] == Exec(p, acts).log;
    Snoc(Exec(p, acts).log, Tripped(now, false));
  }

  /** An error counts unless it follows the last counted one within the debounce time, and it trips
      if and only if it counts, the breaker is closed, and it is the threshold's worth since the
      latest reset. */
  lemma {:induction false} ErrorCountedIff(p: Policy, acts: seq<Action>, now: int)
    ensures var s, s' := Exec(p, acts), Exec(p, acts + [ErrorAt(now)]);
            var all := AllCounted(s.log);
            var counts := p.debounce <= 0 || all == [] || now - all[|all| - 1] >= p.debounce;
            var trips := counts && !IsOpen(s.log) && |CountedSince(s.log)| + 1 >= p.threshold;
            s'.log == s.log + (if counts then [ErrorCounted(now)] else [])
                      + (if trips then [Tripped(now, true)] else [])
  {
    Reachable(p, acts);
    assert (acts + [ErrorAt(now)])[..|acts|] == acts;
    ErrorSteps(p, Exec(p, acts), now);
    var s := Exec(p, acts);
    assert s.log + [] + [] == s.log && s.log + [ErrorCounted(now)] + [] == s.log + [ErrorCounted(now)];
  }

  /** A call that owes a signal pays it when it comes to send, which fills the slot; a receive from
      a full slot empties it. */
  lemma {:induction false} SignalFillsSlot(p: Policy, acts: seq<Action>, i: nat)
    requires i in Exec(p, acts).owed
    ensures var s, s' := Exec(p, acts), Exec(p, acts + [Signal(i)]);
            && i < |s.log| && s.log[i].Reopened? && s'.signal && s'.owed == s.owed - {i}
            && !Exec(p, acts + [Signal(i)] + [Receive]).signal
  {
    Reachable(p, acts);
    OwedIsReset(Exec(p, acts).log, i);
    assert (acts + [Signal(i)])[..|acts|] == acts;
    assert (acts + [Signal(i)] + [Receive])[..|acts| + 1] == acts + [Signal(i)];
  }

  lemma {:induction false} OwedIsReset(log: seq<Event>, i: nat)
    requires i in Owed(log)
    ensures i < |log| && log[i].Reopened?
    decreases |log|
  {
    if !(i == |log| - 1 && log[i].Reopened?) {
      OwedIsReset(log[..|log| - 1], i);
    }
  }

  lemma {:induction false} SpacedFar(ts: seq<int>, d: int, i: nat, j: nat)
    requires Spaced(ts, d) && i <= j < |ts|
    ensures ts[j] - ts[i] >= (j - i) * d
    decreases j
  {
    if i < j {
      SpacedFar(ts, d, i, j - 1);
      assert (j - i) * d == (j - 1 - i) * d + d;
    }
  }

  /** The errors since the latest reset are the last ones counted. */
  lemma {:induction false} CountedSinceIsSuffix(log: seq<Event>)
    ensures |CountedSince(log)| <= |AllCounted(log)|
    ensures AllCounted(log)[|AllCounted(log)| - |CountedSince(log)|..] == CountedSince(log)
    decreases |log|
  {
    if log != [] {
      CountedSinceIsSuffix(log[..|log| - 1]);
    }
  }

  lemma {:induction false} CountedMonotone(log: seq<Event>, i: nat)
    requires i <= |log|
    ensures AllCounted(log[..i]) <= AllCounted(log)
    decreases |log|
  {
    if i < |log| {
      var front := log[..|log| - 1];
      assert front[..i] == log[..i];
      CountedMonotone(front, i);
    } else {
      assert log[..i] == log;
    }
  }

  /** Debounce: in lock order any two counted errors are at least `debounce` apart per step. */
  lemma {:induction false} ErrorsDebounced(p: Policy, acts: seq<Action>, i: nat, j: nat)
    requires p.debounce > 0 && i < j < |AllCounted(Exec(p, acts).log)|
    ensures var ts := AllCounted(Exec(p, acts).log);
            ts[j] - ts[i] >= (j - i) * p.debounce
  {
    Reachable(p, acts);
    SpacedFar(AllCounted(Exec(p, acts).log), p.debounce, i, j);
  }

  /** So an automatic trip comes no sooner than `(threshold - 1) * debounce` after the
      first error counted since the latest reset. */
  lemma {:induction false} NoEarlyTrip(p: Policy, acts: seq<Action>, i: nat)
    requires p.debounce > 0
    requires var log := Exec(p, acts).log;
             i < |log| && log[i].Tripped? && log[i].byErrors
    ensures var log := Exec(p, acts).log;
            var ts := CountedSince(log[..i]);
            ts != [] && log[i].at - ts[0] >= (p.threshold - 1) * p.debounce
  {
    Reachable(p, acts);
    var log := Exec(p, acts).log;
    assert EventOk(p, log[..i], log[i]);
    var ts, all := CountedSince(log[..i]), AllCounted(log[..i]);
    CountedSinceIsSuffix(log[..i]);
    CountedMonotone(log, i);
    forall k | 0 <= k < |ts| - 1
      ensures ts[k + 1] - ts[k] >= p.debounce
    {
      var m := |all| - |ts| + k;
      assert all[m] == AllCounted(log)[m] && all[m + 1] == AllCounted(log)[m + 1];
    }
    SpacedFar(ts, p.debounce, 0, |ts| - 1);
    MulMonotone(p.threshold - 1, |ts| - 1, p.debounce);
  }

  lemma MulMonotone(a: int, b: int, d: int)
    requires a <= b && d > 0
    ensures a * d <= b * d
  {
  }

  lemma {:induction false} SignalledAfter(log: seq<Event>, k: nat)
    requires k < |log| && log[k].SignalSent? && forall m :: k < m < |log| ==> !log[m].Received?
    ensures Signalled(log)
    decreases |log|
  {
    if k < |log| - 1 {
      SignalledAfter(log[..|log| - 1], k);
    }
  }

  /** A reset that is not owed any more was signalled by its own call. */
  lemma {:induction false} PaidBySignal(log: seq<Event>, i: nat) returns (k: nat)
    requires i < |log| && log[i].Reopened? && i !in Owed(log)
    ensures i < k < |log| && log[k] == SignalSent(i)
    decreases |log|
  {
    var front, last := log[..|log| - 1], log[|log| - 1];
    assert i < |log| - 1;
    if last == SignalSent(i) {
      k := |log| - 1;
    } else {
      k := PaidBySignal(front, i);
    }
  }

  /**
   Reset by reset.  Once the call that made the reset at `i` has sent its signal, whatever
   other calls still owe, the signal is in the log behind the reset; and as long as nobody
   has received since, the one slot is full.
   */
  lemma {:induction false} ResetIsSignalled(p: Policy, acts: seq<Action>, i: nat) returns (k: nat)
    requires var s := Exec(p, acts);
             i < |s.log| && s.log[i].Reopened? && i !in s.owed
    ensures var s := Exec(p, acts);
            && i < k < |s.log| && s.log[k] == SignalSent(i)
            && ((forall m :: k < m < |s.log| ==> !s.log[m].Received?) ==> s.signal)
  {
    Reachable(p, acts);
    var log := Exec(p, acts).log;
    k := PaidBySignal(log, i);
    if forall m :: k < m < |log| ==> !log[m].Received? {
      SignalledAfter(log, k);
    }
  }
}
