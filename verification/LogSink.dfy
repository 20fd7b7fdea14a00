/**
 The relay log sink: any number of concurrent writers, syncers and closers, one
 consumer, a bounded channel and an atomic counter.  Each action is one atomic
 step.  A caller that waits for the writer lock has no shared state, so only the
 lock's holder appears in the state.
 */
module LogSink {
  import opened Common

  /** Where the lock's holder stands inside `Write`; `Leaving` runs the deferred unlock. */
  datatype WriterAt<P> = Entered(p: P) | Cleared(p: P) | Enqueued(p: P) | Leaving(fate: Fate)

  datatype Fate = Accepted | Dropped | Ignored

  datatype Lock<P> = Free | Writing(at: WriterAt<P>) | Closing

  /** `Counting`: `relay.Submit` has returned, `pending` is not decremented yet. */
  datatype Consumer<P> = Ready | Submitting(p: P) | Counting | Stopped

  datatype CloseState = NotClosed | Draining | CloseReturned

  datatype Settings = Settings(capacity: nat, dropOnFull: bool)

  /**
   `pending`, `dropped`, `queue`, `closing` and `lock` are the sink's own state.  The
   rest is history: payloads accepted by the channel and handed to the relay, in
   order; how many accepting writes have released the lock; writes finished, ignored
   and dropped; and, for each Sync that returned on an empty counter, how many
   accepting writes had released the lock by then.
   */
  datatype State<P> = State(
    lock: Lock<P>,
    closing: CloseState,
    queue: seq<P>,
    pending: int,
    dropped: Uint64,
    consumer: Consumer<P>,
    panicked: bool,
    accepted: seq<P>,
    submitted: seq<P>,
    released: nat,
    finished: nat,
    ignored: nat,
    drops: nat,
    synced: seq<nat>)

  datatype Action<P> =
    | EnterWrite(p: P) | CheckClosed | Offer | Count | LeaveWrite
    | Take | SubmitReturns | Uncount | StopConsumer
    | EnterClose | DoClose | FinishClose
    | SyncSeesZero

  function Initial<P>(): State<P> {
    State(Free, NotClosed, [], 0, 0, Ready, false, [], [], 0, 0, 0, 0, [])
  }

  /** The steps of `Write`. A send on the closed channel panics. */
  function WriteStep<P>(cfg: Settings, s: State<P>, a: Action<P>): Option<State<P>> {
    if a.EnterWrite? then
      if s.lock.Free? then Some(s.(lock := Writing(Entered(a.p)))) else None
    else if !s.lock.Writing? then None
    else
      var at := s.lock.at;
      if a.CheckClosed? && at.Entered? then
        Some(s.(lock := Writing(if s.closing.NotClosed? then Cleared(at.p) else Leaving(Ignored))))
      else if a.Offer? && at.Cleared? then
        if !s.closing.NotClosed? then Some(s.(panicked := true))
        else if |s.queue| < cfg.capacity then
          Some(s.(lock := Writing(Enqueued(at.p)), queue := s.queue + [at.p], accepted := s.accepted + [at.p]))
        else if cfg.dropOnFull then
          Some(s.(lock := Writing(Leaving(Dropped)), dropped := Inc64(s.dropped), drops := s.drops + 1))
        else None
      else if a.Count? && at.Enqueued? then
        Some(s.(lock := Writing(Leaving(Accepted)), pending := s.pending + 1))
      else if a.LeaveWrite? && at.Leaving? then
        Some(s.(lock := Free, finished := s.finished + 1,
                released := if at.fate.Accepted? then s.released + 1 else s.released,
                ignored := if at.fate.Ignored? then s.ignored + 1 else s.ignored))
      else None
  }

  /** The consumer goroutine: `run` and `submit`. */
  function ConsumeStep<P>(s: State<P>, a: Action<P>): Option<State<P>> {
    var c := s.consumer;
    if a.Take? && c.Ready? && s.queue != [] then Some(s.(queue := s.queue[1..], consumer := Submitting(s.queue[0])))
    else if a.SubmitReturns? && c.Submitting? then Some(s.(submitted := s.submitted + [c.p], consumer := Counting))
    else if a.Uncount? && c.Counting? then Some(s.(pending := s.pending - 1, consumer := Ready))
    else if a.StopConsumer? && c.Ready? && s.queue == [] && !s.closing.NotClosed? then Some(s.(consumer := Stopped))
    else None
  }

  /** `Close`: only the first caller closes the channel and waits for the consumer. */
  function CloseStep<P>(s: State<P>, a: Action<P>): Option<State<P>> {
    if a.EnterClose? && s.lock.Free? then Some(s.(lock := Closing))
    else if a.DoClose? && s.lock.Closing? then
      Some(s.(lock := Free, closing := if s.closing.NotClosed? then Draining else s.closing))
    else if a.FinishClose? && s.closing.Draining? && s.consumer.Stopped? then Some(s.(closing := CloseReturned))
    else None
  }

  /** An action that is not enabled yields `None`. */
  function Step<P>(cfg: Settings, s: State<P>, a: Action<P>): Option<State<P>> {
    if a.SyncSeesZero? then
      if s.pending <= 0 then Some(s.(synced := s.synced + [s.released])) else None
    else if a.EnterClose? || a.DoClose? || a.FinishClose? then CloseStep(s, a)
    else if a.Take? || a.SubmitReturns? || a.Uncount? || a.StopConsumer? then ConsumeStep(s, a)
    else WriteStep(cfg, s, a)
  }

  /** Any interleaving: the state after a list of enabled actions. */
  function Exec<P>(cfg: Settings, acts: seq<Action<P>>): Option<State<P>> {
    if acts == [] then Some(Initial())
    else
      var before := Exec(cfg, acts[..|acts| - 1]);
      if before.None? then None else Step(cfg, before.value, acts[|acts| - 1])
  }

  function InFlight<P>(s: State<P>): seq<P> { if s.consumer.Submitting? then [s.consumer.p] else [] }

  /** An accepted write whose increment is still to come. */
  function Uncounted<P>(s: State<P>): nat { if s.lock.Writing? && s.lock.at.Enqueued? then 1 else 0 }

  /** An accepted write that still holds the lock. */
  function Unreleased<P>(s: State<P>): nat {
    if s.lock.Writing? && (s.lock.at.Enqueued? || s.lock.at == Leaving(Accepted)) then 1 else 0
  }

  ghost predicate Invariant<P>(cfg: Settings, s: State<P>) {
    && !s.panicked
    && s.accepted == s.submitted + InFlight(s) + s.queue
    && |s.queue| <= cfg.capacity
    && s.pending == |s.accepted| - Uncounted(s) - |s.submitted| + (if s.consumer.Counting? then 1 else 0)
    && s.released + Unreleased(s) == |s.accepted|
    && (s.lock.Writing? && (s.lock.at.Cleared? || s.lock.at.Enqueued?) ==> s.closing.NotClosed?)
    && (s.consumer.Stopped? ==> !s.closing.NotClosed? && s.queue == [])
    && (s.closing.CloseReturned? ==> s.consumer.Stopped?)
    && s.finished + (if s.lock == Writing(Leaving(Dropped)) then 1 else 0) == s.released + s.ignored + s.drops
    && s.dropped == s.drops % TWO64
    && forall i :: 0 <= i < |s.synced| ==> s.synced[i] <= |s.submitted|
  }

  lemma {:induction false} WriteKeeps<P>(cfg: Settings, s: State<P>, a: Action<P>)
    requires Invariant(cfg, s) && WriteStep(cfg, s, a).Some?
    ensures Invariant(cfg, WriteStep(cfg, s, a).value)
  {
  }

  lemma {:induction false} ConsumeKeeps<P>(cfg: Settings, s: State<P>, a: Action<P>)
    requires Invariant(cfg, s) && ConsumeStep(s, a).Some?
    ensures Invariant(cfg, ConsumeStep(s, a).value)
  {
    var t := ConsumeStep(s, a).value;
    assert t.accepted == t.submitted + InFlight(t) + t.queue;
  }

  lemma {:induction false} CloseKeeps<P>(cfg: Settings, s: State<P>, a: Action<P>)
    requires Invariant(cfg, s) && CloseStep(s, a).Some?
    ensures Invariant(cfg, CloseStep(s, a).value)
  {
  }

  /** What a Sync may conclude from the counter. */
  lemma {:induction false} SyncKeeps<P>(cfg: Settings, s: State<P>)
    requires Invariant(cfg, s) && s.pending <= 0
    ensures Invariant(cfg, s.(synced := s.synced + [s.released]))
  {
    assert s.released <= |s.submitted|;
  }

  lemma {:induction false} StepKeeps<P>(cfg: Settings, s: State<P>, a: Action<P>)
    requires Invariant(cfg, s) && Step(cfg, s, a).Some?
    ensures Invariant(cfg, Step(cfg, s, a).value)
  {
    if a.SyncSeesZero? {
      SyncKeeps(cfg, s);
    } else if a.EnterClose? || a.DoClose? || a.FinishClose? {
      CloseKeeps(cfg, s, a);
    } else if a.Take? || a.SubmitReturns? || a.Uncount? || a.StopConsumer? {
      ConsumeKeeps(cfg, s, a);
    } else {
      WriteKeeps(cfg, s, a);
    }
  }

  /** The invariant holds in every interleaving. */
  lemma {:induction false} Reachable<P>(cfg: Settings, acts: seq<Action<P>>)
    requires Exec(cfg, acts).Some?
    ensures Invariant(cfg, Exec(cfg, acts).value)
    decreases |acts|
  {
    if acts != [] {
      Reachable(cfg, acts[..|acts| - 1]);
      StepKeeps(cfg, Exec(cfg, acts[..|acts| - 1]).value, acts[|acts| - 1]);
    }
  }

  /** `pending` dips to -1 at most, and never exceeds the capacity by more than one. */
  lemma {:induction false} PendingBounds<P>(cfg: Settings, acts: seq<Action<P>>)
    requires Exec(cfg, acts).Some?
    ensures -1 <= Exec(cfg, acts).value.pending <= cfg.capacity + 1
  {
    Reachable(cfg, acts);
  }

  lemma {:induction false} Then<P>(cfg: Settings, acts: seq<Action<P>>, s: State<P>, a: Action<P>, s': State<P>)
    requires Exec(cfg, acts) == Some(s) && Step(cfg, s, a) == Some(s')
    ensures Exec(cfg, acts + [a]) == Some(s')
  {
    assert (acts + [a])[..|acts|] == acts;
  }

  /** The lower bound is reached: the consumer overtakes the writer between its send and its increment. */
  lemma {:induction false} PendingCanBeNegative<P>(cfg: Settings, p: P) returns (acts: seq<Action<P>>)
    requires cfg.capacity > 0
    ensures Exec(cfg, acts).Some? && Exec(cfg, acts).value.pending == -1
  {
    var s2 := Initial<P>().(lock := Writing(Cleared(p)));
    acts := EntersWrite(cfg, p);
    var s3 := s2.(lock := Writing(Enqueued(p)), queue := [p], accepted := [p]);
    assert [] + [p] == [p] && [p][1..] == [];
    Then(cfg, acts, s2, Offer, s3);
    acts := Overtakes(cfg, acts + [Offer], s3, p);
  }

  lemma {:induction false} EntersWrite<P>(cfg: Settings, p: P) returns (acts: seq<Action<P>>)
    ensures Exec(cfg, acts) == Some(Initial<P>().(lock := Writing(Cleared(p))))
  {
    var s0 := Initial<P>();
    var s1 := s0.(lock := Writing(Entered(p)));
    Then(cfg, [], s0, EnterWrite(p), s1);
    Then(cfg, [] + [EnterWrite(p)], s1, CheckClosed, s0.(lock := Writing(Cleared(p))));
    acts := [] + [EnterWrite(p)] + [CheckClosed];
  }

  /** The consumer takes, submits and uncounts the payload. */
  lemma {:induction false} Overtakes<P>(cfg: Settings, acts: seq<Action<P>>, s: State<P>, p: P)
    returns (more: seq<Action<P>>)
    requires Exec(cfg, acts) == Some(s) && s.consumer.Ready? && s.queue == [p]
    ensures Exec(cfg, more).Some? && Exec(cfg, more).value.pending == s.pending - 1
  {
    var s1 := s.(queue := [], consumer := Submitting(p));
    var s2 := s1.(submitted := s.submitted + [p], consumer := Counting);
    assert s.queue[1..] == [];
    Then(cfg, acts, s, Take, s1);
    Then(cfg, acts + [Take], s1, SubmitReturns, s2);
    more := acts + [Take] + [SubmitReturns];
    Then(cfg, more, s2, Uncount, s2.(pending := s.pending - 1, consumer := Ready));
    more := more + [Uncount];
  }

  /**
   The Sync guarantee.  A Sync that returned because it saw `pending <= 0` covers
   every payload whose Write had released the lock by then: those payloads, in
   acceptance order, have been through `relay.Submit`.
   */
  lemma {:induction false} SyncFlushes<P>(cfg: Settings, acts: seq<Action<P>>, i: nat)
    requires Exec(cfg, acts).Some? && i < |Exec(cfg, acts).value.synced|
    ensures var s := Exec(cfg, acts).value;
            s.synced[i] <= |s.submitted| <= |s.accepted| && s.submitted[..s.synced[i]] == s.accepted[..s.synced[i]]
  {
    Reachable(cfg, acts);
  }

  /** Conservation: every finished write was accepted, dropped or ignored after close;
      nothing is ever sent on the closed channel; the channel never overfills. */
  lemma {:induction false} WritesConserved<P>(cfg: Settings, acts: seq<Action<P>>)
    requires Exec(cfg, acts).Some?
    ensures var s := Exec(cfg, acts).value;
            && !s.panicked
            && |s.queue| <= cfg.capacity
            && s.submitted <= s.accepted
            && (s.lock.Free? ==> s.finished == |s.accepted| + s.drops + s.ignored)
            && s.dropped == s.drops % TWO64
  {
    Reachable(cfg, acts);
  }

  /** When the first Close returns, the relay got exactly the accepted payloads, once each and in order. */
  lemma {:induction false} CloseDrains<P>(cfg: Settings, acts: seq<Action<P>>)
    requires Exec(cfg, acts).Some? && Exec(cfg, acts).value.closing.CloseReturned?
    ensures var s := Exec(cfg, acts).value;
            s.submitted == s.accepted && s.queue == [] && s.pending == 0
  {
    Reachable(cfg, acts);
  }

  // ---------- when a line is dropped, ignored or has to wait ----------

  lemma {:induction false} Last<P>(cfg: Settings, acts: seq<Action<P>>, a: Action<P>)
    requires Exec(cfg, acts).Some?
    ensures Exec(cfg, acts + [a]) == Step(cfg, Exec(cfg, acts).value, a)
  {
    assert (acts + [a])[..|acts|] == acts;
  }

  /** A line is dropped only with `dropOnFull`, and only when the queue is full to its capacity. */
  lemma {:induction false} DropsOnlyWhenFull<P>(cfg: Settings, acts: seq<Action<P>>, a: Action<P>)
    requires Exec(cfg, acts).Some? && Exec(cfg, acts + [a]).Some?
    ensures var s, s' := Exec(cfg, acts).value, Exec(cfg, acts + [a]).value;
            && s.drops <= s'.drops <= s.drops + 1
            && (s'.drops == s.drops + 1 ==>
                  cfg.dropOnFull && |s.queue| == cfg.capacity && s'.queue == s.queue && s'.accepted == s.accepted)
  {
    Reachable(cfg, acts);
    Last(cfg, acts, a);
  }

  /**
   A writer past the closed check, at any point of any run.  With room it can offer at once and
   its payload is the last one accepted; at a full queue it is dropped with `dropOnFull` and
   waits without.
   */
  lemma {:induction false} OfferDecided<P>(cfg: Settings, acts: seq<Action<P>>, p: P)
    requires Exec(cfg, acts).Some? && Exec(cfg, acts).value.lock == Writing(Cleared(p))
    ensures var s, r := Exec(cfg, acts).value, Exec(cfg, acts + [Offer]);
            if |s.queue| < cfg.capacity then
              && r.Some? && r.value.accepted == s.accepted + [p] && r.value.queue == s.queue + [p]
              && r.value.drops == s.drops && r.value.lock == Writing(Enqueued(p)) && !r.value.panicked
            else if cfg.dropOnFull then
              r.Some? && r.value.drops == s.drops + 1 && r.value.accepted == s.accepted
              && r.value.lock == Writing(Leaving(Dropped))
            else r == None
  {
    Reachable(cfg, acts);
    Last(cfg, acts, Offer);
  }

  lemma {:induction false} NoDropsKept<P>(cfg: Settings, acts: seq<Action<P>>)
    requires Exec(cfg, acts).Some? && !cfg.dropOnFull
    ensures Exec(cfg, acts).value.drops == 0 && Exec(cfg, acts).value.dropped == 0
    decreases |acts|
  {
    if acts != [] {
      NoDropsKept(cfg, acts[..|acts| - 1]);
    }
  }

  /** Without `dropOnFull` nothing is ever dropped, and before anybody closes nothing is ignored. */
  lemma {:induction false} NothingLostInUse<P>(cfg: Settings, acts: seq<Action<P>>)
    requires Exec(cfg, acts).Some?
    ensures var s := Exec(cfg, acts).value;
            && (!cfg.dropOnFull ==> s.drops == 0 && s.dropped == 0)
            && (DoClose !in acts ==> s.closing == NotClosed && s.ignored == 0 && s.lock != Writing(Leaving(Ignored)))
    decreases |acts|
  {
    if !cfg.dropOnFull {
      NoDropsKept(cfg, acts);
    }
    if acts != [] {
      var front := acts[..|acts| - 1];
      NothingLostInUse(cfg, front);
      assert acts == front + [acts[|acts| - 1]];
    }
  }

  /** Once somebody has closed, every write that comes to the check is ignored. */
  lemma {:induction false} IgnoredOnceClosed<P>(cfg: Settings, acts: seq<Action<P>>, p: P)
    requires Exec(cfg, acts).Some? && Exec(cfg, acts).value.lock == Writing(Entered(p))
    ensures var s, r := Exec(cfg, acts).value, Exec(cfg, acts + [CheckClosed]);
            r.Some? && r.value.lock == Writing(if DoClose in acts then Leaving(Ignored) else Cleared(p))
  {
    ClosedOnce(cfg, acts);
    Last(cfg, acts, CheckClosed);
  }

  lemma {:induction false} ClosedOnce<P>(cfg: Settings, acts: seq<Action<P>>)
    requires Exec(cfg, acts).Some?
    ensures DoClose in acts <==> !Exec(cfg, acts).value.closing.NotClosed?
    decreases |acts|
  {
    if acts != [] {
      ClosedOnce(cfg, acts[..|acts| - 1]);
      assert acts == acts[..|acts| - 1] + [acts[|acts| - 1]];
    }
  }

  /** The first to close starts the drain, and any later Close finds nothing to do: it gives the
      lock back and waits for nobody. */
  lemma {:induction false} LaterCloseIsIdle<P>(cfg: Settings, acts: seq<Action<P>>)
    requires Exec(cfg, acts).Some? && Exec(cfg, acts).value.lock.Closing?
    ensures var s, r := Exec(cfg, acts).value, Exec(cfg, acts + [DoClose]);
            r == Some(if DoClose in acts then s.(lock := Free) else s.(lock := Free, closing := Draining))
  {
    ClosedOnce(cfg, acts);
    Last(cfg, acts, DoClose);
  }

  // ---------- nobody waits for ever ----------

  /** The steps are the consumer's. */
  predicate Consuming<P(==)>(acts: seq<Action<P>>) {
    forall k :: 0 <= k < |acts| ==> acts[k].Take? || acts[k].SubmitReturns? || acts[k].Uncount?
  }

  /** How many steps the consumer is away from an empty queue. */
  function Backlog<P>(s: State<P>): nat {
    3 * |s.queue| + match s.consumer
                    case Submitting(_) => 2
                    case Counting => 1
                    case _ => 0
  }

  lemma {:induction false} ConsumesOne<P>(cfg: Settings, acts: seq<Action<P>>, s: State<P>)
    returns (a: Action<P>, s': State<P>)
    requires Exec(cfg, acts) == Some(s) && Backlog(s) > 0
    ensures Exec(cfg, acts + [a]) == Some(s') && Consuming([a]) && Backlog(s') == Backlog(s) - 1
    ensures s'.lock == s.lock && s'.closing == s.closing && s'.accepted == s.accepted
    ensures s'.released == s.released && s'.synced == s.synced
  {
    Reachable(cfg, acts);
    a := match s.consumer
         case Submitting(_) => SubmitReturns
         case Counting => Uncount
         case _ => Take;
    Last(cfg, acts, a);
    s' := Step(cfg, s, a).value;
  }

  /**
   From every reachable state the consumer alone can empty the queue: then every payload that
   was accepted has been through the relay, in order, and only a write that has not counted
   yet keeps the counter from zero.
   */
  lemma {:induction false} ConsumerDrains<P>(cfg: Settings, acts: seq<Action<P>>, s: State<P>)
    returns (more: seq<Action<P>>, s': State<P>)
    requires Exec(cfg, acts) == Some(s)
    ensures Exec(cfg, acts + more) == Some(s') && Consuming(more)
    ensures s'.queue == [] && s'.submitted == s'.accepted == s.accepted && (s'.consumer.Ready? || s'.consumer.Stopped?)
    ensures s'.pending + Uncounted(s') == 0 && s'.lock == s.lock && s'.closing == s.closing
    ensures s'.released == s.released && s'.synced == s.synced
    decreases Backlog(s)
  {
    if Backlog(s) == 0 {
      Reachable(cfg, acts);
      more, s' := [], s;
      assert acts + more == acts;
    } else {
      var a, s1 := ConsumesOne(cfg, acts, s);
      var rest;
      rest, s' := ConsumerDrains(cfg, acts + [a], s1);
      more := [a] + rest;
      assert acts + [a] + rest == acts + more;
    }
  }

  /** So a Sync that polls long enough can always return on an empty counter. */
  lemma {:induction false} SyncCanReturn<P>(cfg: Settings, acts: seq<Action<P>>, s: State<P>)
    returns (more: seq<Action<P>>)
    requires Exec(cfg, acts) == Some(s)
    ensures Consuming(more) && Exec(cfg, acts + more + [SyncSeesZero]).Some?
    ensures Exec(cfg, acts + more + [SyncSeesZero]).value.synced == s.synced + [s.released]
  {
    var s';
    more, s' := ConsumerDrains(cfg, acts, s);
    Last(cfg, acts + more, SyncSeesZero);
  }

  /** A free lock can be taken by any writer and by any closer, closed or not. */
  lemma {:induction false} FreeLockIsTaken<P>(cfg: Settings, acts: seq<Action<P>>, s: State<P>, p: P)
    requires Exec(cfg, acts) == Some(s) && s.lock.Free?
    ensures Exec(cfg, acts + [EnterWrite(p)]) == Some(s.(lock := Writing(Entered(p))))
    ensures Exec(cfg, acts + [EnterClose]) == Some(s.(lock := Closing))
  {
    Last(cfg, acts, EnterWrite(p));
    Last(cfg, acts, EnterClose);
  }

  /** So a Close that has begun can always return. */
  lemma {:induction false} CloseCanReturn<P>(cfg: Settings, acts: seq<Action<P>>, s: State<P>)
    returns (more: seq<Action<P>>)
    requires Exec(cfg, acts) == Some(s) && s.closing.Draining?
    ensures Exec(cfg, acts + more).Some? && Exec(cfg, acts + more).value.closing.CloseReturned?
  {
    var drain, s1 := ConsumerDrains(cfg, acts, s);
    var run := acts + drain;
    more := drain;
    if s1.consumer.Ready? {
      Last(cfg, run, StopConsumer);
      run, more := run + [StopConsumer], more + [StopConsumer];
    }
    Last(cfg, run, FinishClose);
    more := more + [FinishClose];
    assert acts + more == run + [FinishClose];
  }

  /** And whoever holds the lock can always give it back, if need be after the consumer has made room. */
  lemma {:induction false} LockComesFree<P>(cfg: Settings, acts: seq<Action<P>>, s: State<P>)
    returns (more: seq<Action<P>>)
    requires cfg.capacity > 0 && Exec(cfg, acts) == Some(s)
    ensures Exec(cfg, acts + more).Some? && Exec(cfg, acts + more).value.lock.Free?
  {
    if s.lock.Free? {
      more := [];
      assert acts + more == acts;
    } else if s.lock.Closing? {
      Last(cfg, acts, DoClose);
      more := [DoClose];
    } else if s.lock.at.Entered? {
      Last(cfg, acts, CheckClosed);
      var run := acts + [CheckClosed];
      var rest := WriterFinishes(cfg, run, Exec(cfg, run).value);
      more := [CheckClosed] + rest;
      assert acts + more == run + rest;
    } else {
      more := WriterFinishes(cfg, acts, s);
    }
  }

  /** A writer past the check. */
  lemma {:induction false} WriterFinishes<P>(cfg: Settings, acts: seq<Action<P>>, s: State<P>)
    returns (more: seq<Action<P>>)
    requires cfg.capacity > 0 && Exec(cfg, acts) == Some(s) && s.lock.Writing? && !s.lock.at.Entered?
    ensures Exec(cfg, acts + more).Some? && Exec(cfg, acts + more).value.lock.Free?
  {
    if s.lock.at.Cleared? {
      var offer, s1 := WriterOffers(cfg, acts, s);
      var rest := WriterLeaves(cfg, acts + offer, s1);
      more := offer + rest;
      assert acts + more == acts + offer + rest;
    } else {
      more := WriterLeaves(cfg, acts, s);
    }
  }

  lemma {:induction false} WriterOffers<P>(cfg: Settings, acts: seq<Action<P>>, s: State<P>)
    returns (more: seq<Action<P>>, s': State<P>)
    requires cfg.capacity > 0 && Exec(cfg, acts) == Some(s) && s.lock.Writing? && s.lock.at.Cleared?
    ensures Exec(cfg, acts + more) == Some(s') && s'.lock.Writing? && s'.lock.at.Enqueued?
  {
    var drain, s1 := ConsumerDrains(cfg, acts, s);
    OfferDecided(cfg, acts + drain, s.lock.at.p);
    more := drain + [Offer];
    assert acts + more == acts + drain + [Offer];
    s' := Exec(cfg, acts + more).value;
  }

  lemma {:induction false} WriterLeaves<P>(cfg: Settings, acts: seq<Action<P>>, s: State<P>)
    returns (more: seq<Action<P>>)
    requires Exec(cfg, acts) == Some(s) && s.lock.Writing? && (s.lock.at.Enqueued? || s.lock.at.Leaving?)
    ensures Exec(cfg, acts + more).Some? && Exec(cfg, acts + more).value.lock.Free?
  {
    var run := acts;
    more := [];
    if s.lock.at.Enqueued? {
      Last(cfg, acts, Count);
      run, more := acts + [Count], [Count];
    }
    assert acts + more == run;
    Last(cfg, run, LeaveWrite);
    more := more + [LeaveWrite];
    assert acts + more == run + [LeaveWrite];
  }
}
