/**
 The forward relay's session table under concurrent submitters.  Each action is one
 atomic step: a critical section on the table, a channel operation, or one step of a
 session's send loop.  Sessions are numbered in the order they are opened.
 */
module StreamSessions {
  import opened Common

  /** What travels in a send channel: a payload numbered `n` by submitter `t`, or the close message. */
  datatype Item = Data(t: nat, n: nat) | CloseMessage

  /** The send loop: `Ending` is between its last send and closing `doneCh`. */
  datatype Loop = Running | Ending | Done

  /** The last four are history: whether the table ever held the session, which submitter
      still has to publish or close it, the payloads ever enqueued on it, and the one that a
      failed send took. */
  datatype Session = Session(
    target: nat,
    channel: seq<Item>,
    closed: bool,
    loop: Loop,
    published: bool,
    owner: Option<nat>,
    given: seq<Item>,
    lost: seq<Item>)

  /** Where a submitter stands, with its sequence number and the targets still to serve. */
  datatype At =
    | Choosing
    | Found(sid: nat)
    | Stale(sid: nat)
    | Opening
    | Opened(ns: nat)
    | RaceLost(ns: nat, sid: nat)
    | ClosingOwn(ns: nat, sid: nat)
    | OfferedOwn(ns: nat, sid: nat)
    | AwaitingDone(ns: nat, sid: nat)
    | Holding(sid: nat)

  datatype Submit = Submit(n: nat, todo: seq<nat>, at: At)

  /** A transmitted payload, with the session that carried it. */
  datatype Sent = Sent(sid: nat, target: nat, t: nat, n: nat)

  /** `closeAllStreams`: the sessions of the table it took that are still to be closed, and
      how far the close of the one for target `g` has come. */
  datatype Stop =
    | NotStopping
    | StopNext(left: map<nat, nat>)
    | StopChosen(g: nat, left: map<nat, nat>)
    | StopOffered(g: nat, left: map<nat, nat>)
    | StopWaiting(g: nat, left: map<nat, nat>)

  datatype State = State(
    streams: map<nat, nat>,
    sessions: seq<Session>,
    submits: map<nat, Submit>,
    issued: nat,
    stop: Stop,
    panicked: bool,
    wire: seq<Sent>,
    last: map<(nat, nat), nat>)

  datatype Settings = Settings(targets: seq<nat>, buffer: nat)

  datatype Action =
    | Begin(t: nat) | Lookup(t: nat) | CheckDone(t: nat) | Delete(t: nat)
    | OpenSucceeds(t: nat) | OpenFails(t: nat) | Publish(t: nat)
    | CloseCheck(t: nat) | CloseOffer(t: nat) | CloseChannel(t: nat) | AwaitDone(t: nat)
    | Enqueue(t: nat) | Abort(t: nat)
    | Transmit(i: nat) | SendFails(i: nat) | ChannelDrained(i: nat) | DoneCloses(i: nat)
    | StopBegins | StopChooses(g: nat) | StopOffers | StopCloses | StopMovesOn | StopReturns

  const INITIAL := State(map[], [], map[], 0, NotStopping, false, [], map[])

  function Left(s: State): map<nat, nat> { if s.stop.NotStopping? then map[] else s.stop.left }

  function SetSession(s: State, i: nat, x: Session): State
    requires i < |s.sessions|
  {
    s.(sessions := s.sessions[i := x])
  }

  function MoveTo(s: State, t: nat, at: At): State
    requires t in s.submits
  {
    s.(submits := s.submits[t := s.submits[t].(at := at)])
  }

  /** The submitter is done with its current target. */
  function NextTarget(s: State, t: nat): State
    requires t in s.submits && s.submits[t].todo != []
  {
    s.(submits := s.submits[t := Submit(s.submits[t].n, s.submits[t].todo[1..], Choosing)])
  }

  function BeginStep(cfg: Settings, s: State, t: nat): Option<State> {
    if !s.stop.NotStopping? || t in s.submits then None
    else Some(s.(issued := s.issued + 1, submits := s.submits[t := Submit(s.issued + 1, cfg.targets, Choosing)]))
  }

  /** The first critical section of `getOrCreateStreamSession`, or the end of `Submit`. */
  function LookupStep(s: State, t: nat): Option<State>
    requires t in s.submits
  {
    var u := s.submits[t];
    if !u.at.Choosing? then None
    else if u.todo == [] then Some(s.(submits := s.submits - {t}))
    else if u.todo[0] in s.streams then Some(MoveTo(s, t, Found(s.streams[u.todo[0]])))
    else Some(MoveTo(s, t, Opening))
  }

  /** The non-blocking receive on `doneCh`. */
  function CheckDoneStep(s: State, t: nat): Option<State>
    requires t in s.submits
  {
    var at := s.submits[t].at;
    if !at.Found? || at.sid >= |s.sessions| then None
    else Some(MoveTo(s, t, if s.sessions[at.sid].loop.Done? then Stale(at.sid) else Holding(at.sid)))
  }

  function DeleteStep(s: State, t: nat): Option<State>
    requires t in s.submits
  {
    var u := s.submits[t];
    if !u.at.Stale? || u.todo == [] then None
    else
      var g := u.todo[0];
      Some(MoveTo(s.(streams := if g in s.streams && s.streams[g] == u.at.sid then s.streams - {g} else s.streams),
                  t, Opening))
  }

  function OpenStep(s: State, t: nat, ok: bool): Option<State>
    requires t in s.submits
  {
    var u := s.submits[t];
    if !u.at.Opening? || u.todo == [] then None
    else if !ok then Some(NextTarget(s, t))
    else
      var x := Session(u.todo[0], [], false, Running, false, Some(t), [], []);
      Some(MoveTo(s.(sessions := s.sessions + [x]), t, Opened(|s.sessions|)))
  }

  /** The second critical section: publish, or lose the race to an existing session. */
  function PublishStep(s: State, t: nat): Option<State>
    requires t in s.submits
  {
    var u := s.submits[t];
    if !u.at.Opened? || u.todo == [] || u.at.ns >= |s.sessions| then None
    else
      var g, ns := u.todo[0], u.at.ns;
      if g in s.streams then Some(MoveTo(s, t, RaceLost(ns, s.streams[g])))
      else
        var x := s.sessions[ns].(published := true, owner := None);
        Some(MoveTo(SetSession(s, ns, x).(streams := s.streams[g := ns]), t, Holding(ns)))
  }

  function CloseMessages(cfg: Settings, x: Session): seq<Item> {
    if |x.channel| < cfg.buffer then x.channel + [CloseMessage] else x.channel
  }

  /** `close` on the losing session begins with a look at its `doneCh`. */
  function CloseCheckStep(s: State, t: nat): Option<State>
    requires t in s.submits
  {
    var at := s.submits[t].at;
    if !at.RaceLost? || at.ns >= |s.sessions| then None
    else if s.sessions[at.ns].loop.Done? then
      Some(MoveTo(SetSession(s, at.ns, s.sessions[at.ns].(owner := None)), t, Holding(at.sid)))
    else Some(MoveTo(s, t, ClosingOwn(at.ns, at.sid)))
  }

  /** The close message, if it fits. */
  function CloseOfferStep(cfg: Settings, s: State, t: nat): Option<State>
    requires t in s.submits
  {
    var at := s.submits[t].at;
    if !at.ClosingOwn? || at.ns >= |s.sessions| then None
    else
      var x := s.sessions[at.ns];
      if x.closed then Some(s.(panicked := true))
      else Some(MoveTo(SetSession(s, at.ns, x.(channel := CloseMessages(cfg, x))), t, OfferedOwn(at.ns, at.sid)))
  }

  /** `close(sendCh)`; closing twice panics. */
  function CloseChannelStep(s: State, t: nat): Option<State>
    requires t in s.submits
  {
    var at := s.submits[t].at;
    if !at.OfferedOwn? || at.ns >= |s.sessions| then None
    else
      var x := s.sessions[at.ns];
      if x.closed then Some(s.(panicked := true))
      else Some(MoveTo(SetSession(s, at.ns, x.(closed := true)), t, AwaitingDone(at.ns, at.sid)))
  }

  function AwaitDoneStep(s: State, t: nat): Option<State>
    requires t in s.submits
  {
    var at := s.submits[t].at;
    if at.AwaitingDone? && at.ns < |s.sessions| && s.sessions[at.ns].loop.Done? then
      Some(MoveTo(SetSession(s, at.ns, s.sessions[at.ns].(owner := None)), t, Holding(at.sid)))
    else None
  }

  /** The send on the channel; sending on a closed channel panics. */
  function EnqueueStep(cfg: Settings, s: State, t: nat): Option<State>
    requires t in s.submits
  {
    var u := s.submits[t];
    if !u.at.Holding? || u.todo == [] || u.at.sid >= |s.sessions| then None
    else
      var x := s.sessions[u.at.sid];
      if x.closed then Some(s.(panicked := true))
      else if |x.channel| < cfg.buffer then
        var item := Data(t, u.n);
        Some(NextTarget(SetSession(s, u.at.sid, x.(channel := x.channel + [item], given := x.given + [item]))
                        .(last := s.last[(t, u.todo[0]) := u.at.sid]), t))
      else None
  }

  /** A cancelled context ends a submitter that waits for room in the channel. */
  function AbortStep(s: State, t: nat): Option<State>
    requires t in s.submits
  {
    if s.submits[t].at.Holding? then Some(s.(submits := s.submits - {t})) else None
  }

  /** The send loop of one session. */
  function LoopStep(s: State, a: Action): Option<State>
    requires IsLoop(a)
  {
    if a.i >= |s.sessions| then None
    else
      var x := s.sessions[a.i];
      if a.Transmit? && x.loop.Running? && x.channel != [] then
        var head := x.channel[0];
        Some(SetSession(s, a.i, x.(channel := x.channel[1..]))
             .(wire := if head.Data? then s.wire + [Sent(a.i, x.target, head.t, head.n)] else s.wire))
      else if a.SendFails? && x.loop.Running? && x.channel != [] then
        var head := x.channel[0];
        Some(SetSession(s, a.i, x.(channel := x.channel[1..], loop := Ending,
                                   lost := if head.Data? then x.lost + [head] else x.lost)))
      else if a.ChannelDrained? && x.loop.Running? && x.channel == [] && x.closed then
        Some(SetSession(s, a.i, x.(loop := Ending)))
      else if a.DoneCloses? && x.loop.Ending? then Some(SetSession(s, a.i, x.(loop := Done)))
      else None
  }

  predicate IsStop(a: Action) {
    a.StopBegins? || a.StopChooses? || a.StopOffers? || a.StopCloses? || a.StopMovesOn? || a.StopReturns?
  }

  predicate IsClose(a: Action) { a.CloseCheck? || a.CloseOffer? || a.CloseChannel? || a.AwaitDone? }

  predicate IsLoop(a: Action) {
    a.Transmit? || a.SendFails? || a.ChannelDrained? || a.DoneCloses?
  }

  /** `closeAllStreams` takes the table and closes its sessions one after the other, in any
      order: each is checked for its end, offered the close message, closed and awaited.
      Stop does not overlap a Submit. */
  function StopStep(cfg: Settings, s: State, a: Action): Option<State>
    requires IsStop(a)
  {
    if s.stop.NotStopping? then
      if a.StopBegins? && s.submits == map[] then Some(s.(stop := StopNext(s.streams), streams := map[])) else None
    else if s.stop.StopNext? then
      if a.StopReturns? && s.stop.left == map[] then Some(s.(stop := NotStopping))
      else if a.StopChooses? && a.g in s.stop.left && s.stop.left[a.g] < |s.sessions| then
        Some(s.(stop := if s.sessions[s.stop.left[a.g]].loop.Done? then StopNext(s.stop.left - {a.g})
                        else StopChosen(a.g, s.stop.left)))
      else None
    else CloseForStop(cfg, s, a)
  }

  /** The close of the chosen session. */
  function CloseForStop(cfg: Settings, s: State, a: Action): Option<State>
    requires s.stop.StopChosen? || s.stop.StopOffered? || s.stop.StopWaiting?
  {
    var g, left := s.stop.g, s.stop.left;
    if g !in left || left[g] >= |s.sessions| then None
    else
      var x := s.sessions[left[g]];
      if a.StopOffers? && s.stop.StopChosen? then
        if x.closed then Some(s.(panicked := true))
        else Some(SetSession(s, left[g], x.(channel := CloseMessages(cfg, x))).(stop := StopOffered(g, left)))
      else if a.StopCloses? && s.stop.StopOffered? then
        if x.closed then Some(s.(panicked := true))
        else Some(SetSession(s, left[g], x.(closed := true)).(stop := StopWaiting(g, left)))
      else if a.StopMovesOn? && s.stop.StopWaiting? && x.loop.Done? then Some(s.(stop := StopNext(left - {g})))
      else None
  }

  function Step(cfg: Settings, s: State, a: Action): Option<State> {
    if a.Begin? then BeginStep(cfg, s, a.t)
    else if IsStop(a) then StopStep(cfg, s, a)
    else if IsLoop(a) then LoopStep(s, a)
    else if a.t !in s.submits then None
    else SubmitterStep(cfg, s, a)
  }

  function SubmitterStep(cfg: Settings, s: State, a: Action): Option<State>
    requires !IsStop(a) && !IsLoop(a) && a.t in s.submits
  {
    if a.Lookup? then LookupStep(s, a.t)
    else if a.CheckDone? then CheckDoneStep(s, a.t)
    else if a.Delete? then DeleteStep(s, a.t)
    else if a.OpenSucceeds? || a.OpenFails? then OpenStep(s, a.t, a.OpenSucceeds?)
    else if a.Publish? then PublishStep(s, a.t)
    else if a.Enqueue? then EnqueueStep(cfg, s, a.t)
    else if a.Abort? then AbortStep(s, a.t)
    else if a.CloseCheck? then CloseCheckStep(s, a.t)
    else if a.CloseOffer? then CloseOfferStep(cfg, s, a.t)
    else if a.CloseChannel? then CloseChannelStep(s, a.t)
    else if a.AwaitDone? then AwaitDoneStep(s, a.t)
    else None
  }

  function Exec(cfg: Settings, acts: seq<Action>): Option<State> {
    if acts == [] then Some(INITIAL)
    else
      var before := Exec(cfg, acts[..|acts| - 1]);
      if before.None? then None else Step(cfg, before.value, acts[|acts| - 1])
  }

  lemma Extend(cfg: Settings, acts: seq<Action>, s: State, a: Action, s': State)
    requires Exec(cfg, acts) == Some(s) && Step(cfg, s, a) == Some(s')
    ensures Exec(cfg, acts + [a]) == Some(s')
  {
    assert (acts + [a])[..|acts|] == acts;
  }

  // ---------- who holds what ----------

  function OwnSession(at: At): Option<nat> {
    match at
    case Opened(ns) => Some(ns)
    case RaceLost(ns, _) => Some(ns)
    case ClosingOwn(ns, _) => Some(ns)
    case OfferedOwn(ns, _) => Some(ns)
    case AwaitingDone(ns, _) => Some(ns)
    case _ => None
  }

  function HeldSession(at: At): Option<nat> {
    match at
    case Found(sid) => Some(sid)
    case Stale(sid) => Some(sid)
    case RaceLost(_, sid) => Some(sid)
    case ClosingOwn(_, sid) => Some(sid)
    case OfferedOwn(_, sid) => Some(sid)
    case AwaitingDone(_, sid) => Some(sid)
    case Holding(sid) => Some(sid)
    case _ => None
  }

  /** A session a submitter may send on: the table held it for this target, and its channel is open. */
  ghost predicate Usable(s: State, sid: nat, g: nat) {
    sid < |s.sessions| && s.sessions[sid].target == g && s.sessions[sid].published && !s.sessions[sid].closed
  }

  ghost predicate SubmitOk(s: State, t: nat)
    requires t in s.submits
  {
    var u := s.submits[t];
    && (!u.at.Choosing? ==> u.todo != [])
    && (HeldSession(u.at).Some? ==> u.todo != [] && Usable(s, HeldSession(u.at).value, u.todo[0]))
    && (u.at.Stale? ==> s.sessions[u.at.sid].loop.Done?)
    && (OwnSession(u.at).Some? ==>
          && OwnSession(u.at).value < |s.sessions| && u.todo != []
          && s.sessions[OwnSession(u.at).value].owner == Some(t)
          && s.sessions[OwnSession(u.at).value].target == u.todo[0]
          && (s.sessions[OwnSession(u.at).value].closed <==> u.at.AwaitingDone?))
  }

  ghost predicate SessionOk(s: State, i: nat)
    requires i < |s.sessions|
  {
    var x := s.sessions[i];
    && (x.owner.Some? ==>
          x.owner.value in s.submits && OwnSession(s.submits[x.owner.value].at) == Some(i) && !x.published)
    && (!x.published && !x.loop.Done? ==> x.owner.Some?)
    && (x.published && !x.loop.Done? ==>
          (x.target in s.streams && s.streams[x.target] == i) || (x.target in Left(s) && Left(s)[x.target] == i))
  }

  /** A session that Stop still has to deal with is closed only while Stop waits for it. */
  ghost predicate LeftOk(s: State, g: nat)
    requires g in Left(s)
  {
    var sid := Left(s)[g];
    && sid < |s.sessions| && s.sessions[sid].target == g && s.sessions[sid].published
    && (s.sessions[sid].closed ==> s.stop.StopWaiting? && s.stop.g == g)
  }

  ghost predicate StopOk(s: State) {
    && (!s.stop.NotStopping? ==> s.submits == map[] && s.streams == map[])
    && (s.stop.StopChosen? || s.stop.StopOffered? || s.stop.StopWaiting? ==> s.stop.g in s.stop.left)
    && (forall g :: g in Left(s) ==> LeftOk(s, g))
  }

  ghost predicate Structure(s: State) {
    && !s.panicked
    && StopOk(s)
    && (forall g :: g in s.streams ==> Usable(s, s.streams[g], g))
    && (forall i :: 0 <= i < |s.sessions| ==> SessionOk(s, i))
    && (forall t :: t in s.submits ==> SubmitOk(s, t))
  }

  /** Checking the new state piece by piece from the old one. */
  lemma {:induction false} Rebuild(s: State, s': State)
    requires Structure(s) && !s'.panicked && StopOk(s')
    requires forall g :: g in s'.streams ==> Usable(s', s'.streams[g], g)
    requires |s.sessions| <= |s'.sessions|
    requires forall i :: 0 <= i < |s.sessions| && SessionOk(s, i) ==> SessionOk(s', i)
    requires forall i :: |s.sessions| <= i < |s'.sessions| ==> SessionOk(s', i)
    requires forall t :: t in s'.submits && (t in s.submits ==> SubmitOk(s, t)) ==> SubmitOk(s', t)
    ensures Structure(s')
  {
  }

  /** A submitter moves, holding on to the session it owns if it owns one. */
  lemma {:induction false} MoverKeeps(s: State, s': State, t: nat)
    requires Structure(s) && t in s.submits && t in s'.submits && s' == s.(submits := s.submits[t := s'.submits[t]])
    requires OwnSession(s'.submits[t].at) == OwnSession(s.submits[t].at) && SubmitOk(s', t)
    ensures Structure(s')
  {
    forall i | 0 <= i < |s.sessions|
      ensures SessionOk(s', i)
    {
      assert SessionOk(s, i);
    }
    forall t' | t' in s'.submits
      ensures SubmitOk(s', t')
    {
      assert t' != t ==> SubmitOk(s, t');
    }
  }

  /** A submitter that owns no session leaves. */
  lemma {:induction false} LeaverKeeps(s: State, t: nat)
    requires Structure(s) && t in s.submits && OwnSession(s.submits[t].at).None?
    ensures Structure(s.(submits := s.submits - {t}))
  {
    var s' := s.(submits := s.submits - {t});
    forall i | 0 <= i < |s.sessions|
      ensures SessionOk(s', i)
    {
      assert SessionOk(s, i);
    }
    forall t' | t' in s'.submits
      ensures SubmitOk(s', t')
    {
      assert SubmitOk(s, t');
    }
  }

  lemma {:induction false} BeginKeeps(cfg: Settings, s: State, t: nat)
    requires Structure(s) && BeginStep(cfg, s, t).Some?
    ensures Structure(BeginStep(cfg, s, t).value)
  {
    Rebuild(s, BeginStep(cfg, s, t).value);
  }

  lemma {:induction false} LookupKeeps(s: State, t: nat)
    requires Structure(s) && t in s.submits && LookupStep(s, t).Some?
    ensures Structure(LookupStep(s, t).value)
  {
    if s.submits[t].todo == [] {
      LeaverKeeps(s, t);
    } else {
      MoverKeeps(s, LookupStep(s, t).value, t);
    }
  }

  lemma {:induction false} CheckDoneKeeps(s: State, t: nat)
    requires Structure(s) && t in s.submits && CheckDoneStep(s, t).Some?
    ensures Structure(CheckDoneStep(s, t).value)
  {
    assert SubmitOk(s, t);
    MoverKeeps(s, CheckDoneStep(s, t).value, t);
  }

  lemma {:induction false} DeleteKeeps(s: State, t: nat)
    requires Structure(s) && t in s.submits && DeleteStep(s, t).Some?
    ensures Structure(DeleteStep(s, t).value)
  {
    assert SubmitOk(s, t);
    Rebuild(s, DeleteStep(s, t).value);
  }

  lemma {:induction false} OpenKeeps(s: State, t: nat, ok: bool)
    requires Structure(s) && t in s.submits && OpenStep(s, t, ok).Some?
    ensures Structure(OpenStep(s, t, ok).value)
  {
    assert SubmitOk(s, t);
    if ok {
      Rebuild(s, OpenStep(s, t, ok).value);
    } else {
      MoverKeeps(s, OpenStep(s, t, ok).value, t);
    }
  }

  lemma {:induction false} PublishKeeps(s: State, t: nat)
    requires Structure(s) && t in s.submits && PublishStep(s, t).Some?
    ensures Structure(PublishStep(s, t).value)
  {
    assert SubmitOk(s, t);
    if s.submits[t].todo[0] in s.streams {
      MoverKeeps(s, PublishStep(s, t).value, t);
    } else {
      PublishWins(s, t);
    }
  }

  lemma {:induction false} PublishWins(s: State, t: nat)
    requires Structure(s) && t in s.submits && s.submits[t].at.Opened? && s.submits[t].todo != []
    requires s.submits[t].todo[0] !in s.streams && PublishStep(s, t).Some?
    ensures Structure(PublishStep(s, t).value)
  {
    var s', ns, g := PublishStep(s, t).value, s.submits[t].at.ns, s.submits[t].todo[0];
    assert SubmitOk(s, t) && SessionOk(s, ns);
    assert s.stop.NotStopping?;
    forall i | 0 <= i < |s'.sessions|
      ensures SessionOk(s', i)
    {
      assert SessionOk(s, i);
    }
    forall t' | t' in s'.submits
      ensures SubmitOk(s', t')
    {
      assert SubmitOk(s, t');
    }
    forall h | h in s'.streams
      ensures Usable(s', s'.streams[h], h)
    {
      assert h != g ==> Usable(s, s.streams[h], h);
    }
  }

  /** A submitter works on the session it owns, which is not published. */
  lemma {:induction false} OwnerKeeps(s: State, s': State, t: nat, ns: nat)
    requires Structure(s) && t in s.submits && t in s'.submits && OwnSession(s.submits[t].at) == Some(ns)
    requires ns < |s.sessions| == |s'.sessions|
    requires s' == s.(sessions := s.sessions[ns := s'.sessions[ns]], submits := s.submits[t := s'.submits[t]])
    requires SessionOk(s', ns) && SubmitOk(s', t)
    ensures Structure(s')
  {
    assert SubmitOk(s, t) && SessionOk(s, ns);
    assert s.stop.NotStopping?;
    forall i | 0 <= i < |s'.sessions|
      ensures SessionOk(s', i)
    {
      assert SessionOk(s, i);
    }
    forall t' | t' in s'.submits
      ensures SubmitOk(s', t')
    {
      assert SubmitOk(s, t');
    }
    forall g | g in s'.streams
      ensures Usable(s', s'.streams[g], g)
    {
      assert Usable(s, s.streams[g], g);
    }
  }

  lemma {:induction false} DropOwn(s: State, t: nat)
    requires Structure(s) && t in s.submits && s.submits[t].at.RaceLost? && s.submits[t].at.ns < |s.sessions|
    requires s.sessions[s.submits[t].at.ns].loop.Done?
    ensures Structure(CloseCheckStep(s, t).value)
  {
    assert SubmitOk(s, t);
    assert SessionOk(s, s.submits[t].at.ns);
    OwnerKeeps(s, CloseCheckStep(s, t).value, t, s.submits[t].at.ns);
  }

  lemma {:induction false} CloseCheckKeeps(s: State, t: nat)
    requires Structure(s) && t in s.submits && CloseCheckStep(s, t).Some?
    ensures Structure(CloseCheckStep(s, t).value)
  {
    assert SubmitOk(s, t);
    var ns := s.submits[t].at.ns;
    assert SessionOk(s, ns);
    if s.sessions[ns].loop.Done? {
      DropOwn(s, t);
    } else {
      MoverKeeps(s, CloseCheckStep(s, t).value, t);
    }
  }

  lemma {:induction false} CloseOfferKeeps(cfg: Settings, s: State, t: nat)
    requires Structure(s) && t in s.submits && CloseOfferStep(cfg, s, t).Some?
    ensures Structure(CloseOfferStep(cfg, s, t).value)
  {
    assert SubmitOk(s, t);
    assert SessionOk(s, s.submits[t].at.ns);
    OwnerKeeps(s, CloseOfferStep(cfg, s, t).value, t, s.submits[t].at.ns);
  }

  lemma {:induction false} CloseChannelKeeps(s: State, t: nat)
    requires Structure(s) && t in s.submits && CloseChannelStep(s, t).Some?
    ensures Structure(CloseChannelStep(s, t).value)
  {
    assert SubmitOk(s, t);
    assert SessionOk(s, s.submits[t].at.ns);
    OwnerKeeps(s, CloseChannelStep(s, t).value, t, s.submits[t].at.ns);
  }

  lemma {:induction false} AwaitDoneKeeps(s: State, t: nat)
    requires Structure(s) && t in s.submits && AwaitDoneStep(s, t).Some?
    ensures Structure(AwaitDoneStep(s, t).value)
  {
    assert SubmitOk(s, t);
    assert SessionOk(s, s.submits[t].at.ns);
    OwnerKeeps(s, AwaitDoneStep(s, t).value, t, s.submits[t].at.ns);
  }

  lemma {:induction false} EnqueueKeeps(cfg: Settings, s: State, t: nat)
    requires Structure(s) && t in s.submits && EnqueueStep(cfg, s, t).Some?
    ensures Structure(EnqueueStep(cfg, s, t).value)
  {
    assert SubmitOk(s, t);
    Rebuild(s, EnqueueStep(cfg, s, t).value);
  }

  lemma {:induction false} AbortKeeps(s: State, t: nat)
    requires Structure(s) && t in s.submits && AbortStep(s, t).Some?
    ensures Structure(AbortStep(s, t).value)
  {
    LeaverKeeps(s, t);
  }

  /** The send loops run, or channels fill, and no session changes hands. */
  ghost predicate Advanced(s: State, s': State) {
    && s'.submits == s.submits && s'.streams == s.streams && s'.stop == s.stop && s'.panicked == s.panicked
    && |s'.sessions| == |s.sessions|
    && forall i :: 0 <= i < |s.sessions| ==> SameHands(s.sessions[i], s'.sessions[i])
  }

  ghost predicate SameHands(x: Session, y: Session) {
    && y.target == x.target && y.published == x.published && y.closed == x.closed && y.owner == x.owner
    && (x.loop.Done? ==> y.loop.Done?)
  }

  lemma {:induction false} AdvanceKeeps(s: State, s': State)
    requires Structure(s) && Advanced(s, s')
    ensures Structure(s')
  {
    forall i | 0 <= i < |s'.sessions|
      ensures SessionOk(s', i)
    {
      assert SessionOk(s, i) && SameHands(s.sessions[i], s'.sessions[i]);
    }
    forall t | t in s'.submits
      ensures SubmitOk(s', t)
    {
      assert SubmitOk(s, t);
    }
    forall g | g in s'.streams
      ensures Usable(s', s'.streams[g], g)
    {
      assert Usable(s, s.streams[g], g);
    }
    forall g | g in Left(s')
      ensures LeftOk(s', g)
    {
      assert LeftOk(s, g);
    }
  }

  lemma {:induction false} LoopKeeps(s: State, a: Action)
    requires Structure(s) && IsLoop(a) && LoopStep(s, a).Some?
    ensures Structure(LoopStep(s, a).value)
  {
    AdvanceKeeps(s, LoopStep(s, a).value);
  }

  lemma {:induction false} StopKeeps(cfg: Settings, s: State, a: Action)
    requires Structure(s) && IsStop(a) && StopStep(cfg, s, a).Some?
    ensures Structure(StopStep(cfg, s, a).value)
  {
    if s.stop.StopChosen? || s.stop.StopOffered? || s.stop.StopWaiting? {
      CloseForStopKeeps(cfg, s, a);
    } else {
      assert s.stop.StopNext? && a.StopChooses? ==> LeftOk(s, a.g);
      Rebuild(s, StopStep(cfg, s, a).value);
    }
  }

  lemma {:induction false} CloseForStopKeeps(cfg: Settings, s: State, a: Action)
    requires Structure(s) && (s.stop.StopChosen? || s.stop.StopOffered? || s.stop.StopWaiting?)
    requires CloseForStop(cfg, s, a).Some?
    ensures Structure(CloseForStop(cfg, s, a).value)
  {
    assert LeftOk(s, s.stop.g);
    Rebuild(s, CloseForStop(cfg, s, a).value);
  }

  lemma {:induction false} StepKeeps(cfg: Settings, s: State, a: Action)
    requires Structure(s) && Step(cfg, s, a).Some?
    ensures Structure(Step(cfg, s, a).value)
  {
    if IsStop(a) {
      StopKeeps(cfg, s, a);
    } else if IsLoop(a) {
      LoopKeeps(s, a);
    } else if a.Begin? {
      BeginKeeps(cfg, s, a.t);
    } else if IsClose(a) {
      CloseKeeps(cfg, s, a);
    } else {
      SubmitterKeeps(cfg, s, a);
    }
  }

  lemma {:induction false} SubmitterKeeps(cfg: Settings, s: State, a: Action)
    requires Structure(s) && !IsStop(a) && !IsLoop(a) && !IsClose(a) && a.t in s.submits
    requires SubmitterStep(cfg, s, a).Some?
    ensures Structure(SubmitterStep(cfg, s, a).value)
  {
    match a
    case Lookup(t) => LookupKeeps(s, t);
    case CheckDone(t) => CheckDoneKeeps(s, t);
    case Delete(t) => DeleteKeeps(s, t);
    case OpenSucceeds(t) => OpenKeeps(s, t, true);
    case OpenFails(t) => OpenKeeps(s, t, false);
    case Publish(t) => PublishKeeps(s, t);
    case Enqueue(t) => EnqueueKeeps(cfg, s, t);
    case Abort(t) => AbortKeeps(s, t);
    case Begin(_) =>
  }

  /** The steps of a submitter that lost the race. */
  lemma {:induction false} CloseKeeps(cfg: Settings, s: State, a: Action)
    requires Structure(s) && IsClose(a) && a.t in s.submits && SubmitterStep(cfg, s, a).Some?
    ensures Structure(SubmitterStep(cfg, s, a).value)
  {
    match a
    case CloseCheck(t) => CloseCheckKeeps(s, t);
    case CloseOffer(t) => CloseOfferKeeps(cfg, s, t);
    case CloseChannel(t) => CloseChannelKeeps(s, t);
    case AwaitDone(t) => AwaitDoneKeeps(s, t);
  }

  lemma {:induction false} Reachable(cfg: Settings, acts: seq<Action>)
    requires Exec(cfg, acts).Some?
    ensures Structure(Exec(cfg, acts).value)
    decreases |acts|
  {
    if acts != [] {
      Reachable(cfg, acts[..|acts| - 1]);
      StepKeeps(cfg, Exec(cfg, acts[..|acts| - 1]).value, acts[|acts| - 1]);
    }
  }

  /** The table holds the session, or Stop or the submitter that opened it still has to deal with it. */
  ghost predicate Attached(s: State, i: nat)
    requires i < |s.sessions|
  {
    var x := s.sessions[i];
    || (x.target in s.streams && s.streams[x.target] == i)
    || (x.target in Left(s) && Left(s)[x.target] == i)
    || (x.owner.Some? && x.owner.value in s.submits && OwnSession(s.submits[x.owner.value].at) == Some(i))
  }

  /** Two sessions that were both published for one target are not both live. */
  ghost predicate NotBothLive(s: State, i: nat, j: nat)
    requires i < |s.sessions| && j < |s.sessions|
  {
    var x, y := s.sessions[i], s.sessions[j];
    x.published && y.published && x.target == y.target ==> x.loop.Done? || y.loop.Done?
  }

  /**
   In every interleaving: no send on a closed channel and no second close; a session
   whose loop has not ended is attached, so none leaks; and at most one published
   session per target is live.
   */
  lemma {:induction false} NoLeakNoPanic(cfg: Settings, acts: seq<Action>)
    requires Exec(cfg, acts).Some?
    ensures var s := Exec(cfg, acts).value;
            && !s.panicked
            && (forall i :: 0 <= i < |s.sessions| && !s.sessions[i].loop.Done? ==> Attached(s, i))
            && (forall i, j :: 0 <= i < j < |s.sessions| ==> NotBothLive(s, i, j))
  {
    Reachable(cfg, acts);
    var s := Exec(cfg, acts).value;
    forall i | 0 <= i < |s.sessions| && !s.sessions[i].loop.Done?
      ensures Attached(s, i)
    {
      assert SessionOk(s, i);
    }
    forall i, j | 0 <= i < j < |s.sessions|
      ensures NotBothLive(s, i, j)
    {
      assert SessionOk(s, i) && SessionOk(s, j);
    }
  }

  /** When Stop returns, every session ever opened has ended and the table is empty. */
  lemma {:induction false} StopEndsAll(cfg: Settings, acts: seq<Action>)
    requires Exec(cfg, acts).Some? && Step(cfg, Exec(cfg, acts).value, StopReturns).Some?
    ensures var s := Step(cfg, Exec(cfg, acts).value, StopReturns).value;
            s.streams == map[] && forall i :: 0 <= i < |s.sessions| ==> s.sessions[i].loop.Done?
  {
    Reachable(cfg, acts);
    var s := Exec(cfg, acts).value;
    forall i | 0 <= i < |s.sessions|
      ensures s.sessions[i].loop.Done?
    {
      assert SessionOk(s, i);
    }
  }

  /** How many steps a send loop still has to take once its channel is closed. */
  function StepsLeft(x: Session): nat {
    match x.loop
    case Running => |x.channel| + 2
    case Ending => 1
    case Done => 0
  }

  /** A step of a send loop on which no send fails. */
  predicate Loops(a: Action) { IsLoop(a) && !a.SendFails? }

  /** The next step of the send loop of a closed session is enabled and brings its end nearer. */
  lemma {:induction false} NextLoopStep(s: State, i: nat) returns (a: Action, s': State)
    requires i < |s.sessions| && s.sessions[i].closed && !s.sessions[i].loop.Done?
    ensures Loops(a) && LoopStep(s, a) == Some(s') && i < |s'.sessions| && s'.sessions[i].closed
    ensures s'.stop == s.stop && |s'.sessions| == |s.sessions|
    ensures StepsLeft(s'.sessions[i]) == StepsLeft(s.sessions[i]) - 1
  {
    var x := s.sessions[i];
    a := if x.loop.Ending? then DoneCloses(i) else if x.channel == [] then ChannelDrained(i) else Transmit(i);
    s' := LoopStep(s, a).value;
  }

  /** The run `acts` ends in `s`.  The quantifier has one instance; it only keeps `Exec` folded
      in proofs that do not look inside. */
  ghost predicate Reaches(cfg: Settings, acts: seq<Action>, s: State) {
    forall c :: c == cfg ==> Exec(c, acts) == Some(s)
  }

  lemma {:induction false} ReachesNext(cfg: Settings, acts: seq<Action>, s: State, a: Action, s': State)
    requires Reaches(cfg, acts, s) && IsLoop(a) && LoopStep(s, a) == Some(s')
    ensures Reaches(cfg, acts + [a], s')
  {
    Extend(cfg, acts, s, a, s');
  }

  lemma {:induction false} DrainSession(cfg: Settings, acts: seq<Action>, s: State, i: nat)
    returns (more: seq<Action>, s': State)
    requires Reaches(cfg, acts, s) && i < |s.sessions| && s.sessions[i].closed
    ensures Reaches(cfg, acts + more, s') && i < |s'.sessions| && s'.sessions[i].loop.Done?
    ensures |more| == StepsLeft(s.sessions[i]) && forall k :: 0 <= k < |more| ==> Loops(more[k])
    ensures s'.stop == s.stop && |s'.sessions| == |s.sessions|
    decreases StepsLeft(s.sessions[i])
  {
    if s.sessions[i].loop.Done? {
      more, s' := [], s;
      assert acts + more == acts;
    } else {
      var a, s1 := NextLoopStep(s, i);
      ReachesNext(cfg, acts, s, a, s1);
      var rest;
      rest, s' := DrainSession(cfg, acts + [a], s1, i);
      more := [a] + rest;
      assert acts + [a] + rest == acts + more;
    }
  }

  /** A closed session never gets stuck: the send loop alone can always run to its end, which
      is what every `close` waits for. */
  lemma {:induction false} ClosedSessionEnds(cfg: Settings, acts: seq<Action>, s: State, i: nat)
    returns (more: seq<Action>, s': State)
    requires Exec(cfg, acts) == Some(s) && i < |s.sessions| && s.sessions[i].closed
    ensures Exec(cfg, acts + more) == Some(s') && i < |s'.sessions| && s'.sessions[i].loop.Done?
    ensures s'.stop == s.stop && |s'.sessions| == |s.sessions|
    ensures forall k :: 0 <= k < |more| ==> Loops(more[k])
  {
    more, s' := DrainSession(cfg, acts, s, i);
  }

  // ---------- the order of sequence numbers ----------

  /** Everything submitter `t` already sent or queued for target `g` is numbered below `n`. */
  ghost predicate Below(s: State, t: nat, g: nat, n: nat) {
    && (forall k :: 0 <= k < |s.wire| && s.wire[k].target == g && s.wire[k].t == t ==> s.wire[k].n < n)
    && (forall i, k :: 0 <= i < |s.sessions| && s.sessions[i].target == g && 0 <= k < |s.sessions[i].channel|
                       && s.sessions[i].channel[k].Data? && s.sessions[i].channel[k].t == t ==>
                       s.sessions[i].channel[k].n < n)
  }

  ghost predicate WireOrdered(wire: seq<Sent>) {
    forall a, b :: 0 <= a < b < |wire| && wire[a].target == wire[b].target && wire[a].t == wire[b].t ==>
      wire[a].n < wire[b].n
  }

  /** A running session's queue is in order, ahead of the wire, and the latest its submitters used. */
  ghost predicate ChannelOrdered(s: State, i: nat)
    requires i < |s.sessions|
  {
    var x := s.sessions[i];
    x.loop.Running? ==>
      && (forall a, b :: 0 <= a < b < |x.channel| && x.channel[a].Data? && x.channel[b].Data?
                         && x.channel[a].t == x.channel[b].t ==>
                         x.channel[a].n < x.channel[b].n)
      && (forall k, b :: 0 <= k < |s.wire| && 0 <= b < |x.channel| && x.channel[b].Data?
                         && s.wire[k].target == x.target && s.wire[k].t == x.channel[b].t ==>
                         s.wire[k].n < x.channel[b].n)
      && (forall b :: 0 <= b < |x.channel| && x.channel[b].Data? ==>
            (x.channel[b].t, x.target) in s.last && s.last[(x.channel[b].t, x.target)] == i)
  }

  ghost predicate LastOk(s: State, key: (nat, nat))
    requires key in s.last
  {
    s.last[key] < |s.sessions| && s.sessions[s.last[key]].target == key.1 && s.sessions[s.last[key]].published
  }

  ghost predicate Distinct(xs: seq<nat>) {
    forall a, b :: 0 <= a < b < |xs| ==> xs[a] != xs[b]
  }

  /** The session a submitter used before for this target no longer sends, unless it is this one. */
  ghost predicate Superseded(s: State, t: nat, g: nat, sid: nat) {
    (t, g) in s.last && s.last[(t, g)] != sid && s.last[(t, g)] < |s.sessions| ==>
      !s.sessions[s.last[(t, g)]].loop.Running?
  }

  ghost predicate SubmitOrdered(s: State, t: nat)
    requires t in s.submits
  {
    var u := s.submits[t];
    && u.n <= s.issued && Distinct(u.todo)
    && (forall g :: g in u.todo ==> Below(s, t, g, u.n))
    && (HeldSession(u.at).Some? && u.todo != [] ==> Superseded(s, t, u.todo[0], HeldSession(u.at).value))
  }

  /** No number beyond the counter is in use. */
  ghost predicate Numbered(s: State, t: nat, g: nat) { Below(s, t, g, s.issued + 1) }

  ghost predicate Order(s: State) {
    && WireOrdered(s.wire)
    && (forall t, g :: Numbered(s, t, g))
    && (forall i :: 0 <= i < |s.sessions| ==> ChannelOrdered(s, i))
    && (forall key :: key in s.last ==> LastOk(s, key))
    && (forall t :: t in s.submits ==> SubmitOrdered(s, t))
  }

  /** How a channel may change without a payload entering it or going out. */
  ghost predicate Shrinks(before: seq<Item>, after: seq<Item>) {
    || after == before
    || after == before + [CloseMessage]
    || (before != [] && after == before[1..])
  }

  /** Steps that neither enqueue nor transmit a payload. */
  ghost predicate Quiet(s: State, s': State) {
    && s'.wire == s.wire && s'.last == s.last && s.issued <= s'.issued
    && |s.sessions| <= |s'.sessions|
    && (forall i :: |s.sessions| <= i < |s'.sessions| ==> s'.sessions[i].channel == [])
    && (forall i :: 0 <= i < |s.sessions| ==>
          && s'.sessions[i].target == s.sessions[i].target
          && Shrinks(s.sessions[i].channel, s'.sessions[i].channel)
          && (s.sessions[i].published ==> s'.sessions[i].published)
          && (s'.sessions[i].loop.Running? ==> s.sessions[i].loop.Running?))
  }

  lemma {:induction false} QuietMove(s: State, s': State)
    requires s'.sessions == s.sessions && s'.wire == s.wire && s'.last == s.last && s.issued <= s'.issued
    ensures Quiet(s, s')
  {
  }

  lemma {:induction false} QuietChange(s: State, s': State, i: nat, x: Session)
    requires i < |s.sessions| && s'.sessions == s.sessions[i := x]
    requires s'.wire == s.wire && s'.last == s.last && s.issued <= s'.issued
    requires x.target == s.sessions[i].target && Shrinks(s.sessions[i].channel, x.channel)
    requires (s.sessions[i].published ==> x.published) && (x.loop.Running? ==> s.sessions[i].loop.Running?)
    ensures Quiet(s, s')
  {
  }

  lemma {:induction false} QuietBelow(s: State, s': State, t: nat, g: nat, n: nat)
    requires Quiet(s, s') && Below(s, t, g, n)
    ensures Below(s', t, g, n)
  {
    forall i, k | 0 <= i < |s'.sessions| && s'.sessions[i].target == g && 0 <= k < |s'.sessions[i].channel|
                  && s'.sessions[i].channel[k].Data? && s'.sessions[i].channel[k].t == t
      ensures s'.sessions[i].channel[k].n < n
    {
      var c, c' := s.sessions[i].channel, s'.sessions[i].channel;
      assert Shrinks(c, c');
      if c' != c && c' != c + [CloseMessage] {
        assert c'[k] == c[k + 1];
      } else {
        assert c'[k] == c[k];
      }
    }
  }

  lemma {:induction false} QuietChannel(s: State, s': State, i: nat)
    requires Quiet(s, s') && i < |s.sessions| && ChannelOrdered(s, i)
    ensures ChannelOrdered(s', i)
  {
    var c, c' := s.sessions[i].channel, s'.sessions[i].channel;
    assert Shrinks(c, c');
    var shift := if c' != c && c' != c + [CloseMessage] then 1 else 0;
    assert forall k :: 0 <= k < |c'| && c'[k].Data? ==> k + shift < |c| && c'[k] == c[k + shift];
  }

  /** A quiet step keeps the order, if it does so for the one submitter it moves. */
  lemma {:induction false} QuietKeeps(s: State, s': State, mover: nat)
    requires Order(s) && Quiet(s, s')
    requires forall t :: t in s'.submits && t != mover ==> t in s.submits && s'.submits[t] == s.submits[t]
    requires mover in s'.submits ==> SubmitOrdered(s', mover)
    ensures Order(s')
  {
    forall t, g
      ensures Numbered(s', t, g)
    {
      assert Numbered(s, t, g);
      QuietBelow(s, s', t, g, s.issued + 1);
    }
    forall i | 0 <= i < |s'.sessions|
      ensures ChannelOrdered(s', i)
    {
      if i < |s.sessions| {
        QuietChannel(s, s', i);
      }
    }
    forall key | key in s'.last
      ensures LastOk(s', key)
    {
      assert LastOk(s, key);
    }
    forall t | t in s'.submits
      ensures SubmitOrdered(s', t)
    {
      if t != mover {
        QuietSubmit(s, s', t);
      }
    }
  }

  lemma {:induction false} QuietSubmit(s: State, s': State, t: nat)
    requires Order(s) && Quiet(s, s') && t in s.submits && t in s'.submits && s'.submits[t] == s.submits[t]
    ensures SubmitOrdered(s', t)
  {
    assert SubmitOrdered(s, t);
    var u := s.submits[t];
    forall g | g in u.todo
      ensures Below(s', t, g, u.n)
    {
      QuietBelow(s, s', t, g, u.n);
    }
    if u.todo != [] && (t, u.todo[0]) in s.last {
      assert LastOk(s, (t, u.todo[0]));
    }
  }

  lemma {:induction false} QuietAll(s: State, s': State)
    requires Order(s) && Quiet(s, s') && s'.submits == s.submits
    ensures Order(s')
  {
    if 0 in s.submits {
      QuietSubmit(s, s', 0);
    }
    QuietKeeps(s, s', 0);
  }

  /** The table's session supersedes whatever a submitter used before. */
  lemma {:induction false} TableSupersedes(s: State, t: nat, g: nat)
    requires Structure(s) && Order(s) && s.stop.NotStopping? && g in s.streams
    ensures Superseded(s, t, g, s.streams[g])
  {
    if (t, g) in s.last {
      assert LastOk(s, (t, g));
      assert SessionOk(s, s.last[(t, g)]);
    }
  }

  /** So does a session published into an empty slot. */
  lemma {:induction false} EmptySlotSupersedes(s: State, t: nat, g: nat, sid: nat)
    requires Structure(s) && Order(s) && s.stop.NotStopping? && g !in s.streams
    ensures Superseded(s, t, g, sid)
  {
    if (t, g) in s.last {
      assert LastOk(s, (t, g));
      assert SessionOk(s, s.last[(t, g)]);
    }
  }

  /** The moved submitter keeps its number and targets, or some of the targets. */
  lemma {:induction false} MoverOrdered(s: State, s': State, t: nat)
    requires Order(s) && Quiet(s, s') && t in s.submits && t in s'.submits
    requires s'.submits[t].n == s.submits[t].n
    requires || s'.submits[t].todo == s.submits[t].todo
             || (s.submits[t].todo != [] && s'.submits[t].todo == s.submits[t].todo[1..])
    requires HeldSession(s'.submits[t].at).Some? && s'.submits[t].todo != [] ==>
               Superseded(s, t, s'.submits[t].todo[0], HeldSession(s'.submits[t].at).value)
    ensures SubmitOrdered(s', t)
  {
    assert SubmitOrdered(s, t);
    var u, u' := s.submits[t], s'.submits[t];
    forall g | g in u'.todo
      ensures Below(s', t, g, u'.n)
    {
      assert g in u.todo;
      QuietBelow(s, s', t, g, u.n);
    }
    if u'.todo != [] && (t, u'.todo[0]) in s.last {
      assert LastOk(s, (t, u'.todo[0]));
    }
  }

  lemma {:induction false} LookupOrder(s: State, t: nat)
    requires Structure(s) && Order(s) && t in s.submits && LookupStep(s, t).Some?
    ensures Order(LookupStep(s, t).value)
  {
    var u, s' := s.submits[t], LookupStep(s, t).value;
    assert s.stop.NotStopping?;
    if u.todo != [] && u.todo[0] in s.streams {
      TableSupersedes(s, t, u.todo[0]);
    }
    if t in s'.submits {
      MoverOrdered(s, s', t);
    }
    QuietKeeps(s, s', t);
  }

  lemma {:induction false} CheckDoneOrder(s: State, t: nat)
    requires Structure(s) && Order(s) && t in s.submits && CheckDoneStep(s, t).Some?
    ensures Order(CheckDoneStep(s, t).value)
  {
    var s' := CheckDoneStep(s, t).value;
    assert SubmitOrdered(s, t);
    MoverOrdered(s, s', t);
    QuietKeeps(s, s', t);
  }

  lemma {:induction false} AwaitDoneOrder(s: State, t: nat)
    requires Structure(s) && Order(s) && t in s.submits && AwaitDoneStep(s, t).Some?
    ensures Order(AwaitDoneStep(s, t).value)
  {
    var s' := AwaitDoneStep(s, t).value;
    assert SubmitOrdered(s, t);
    var ns := s.submits[t].at.ns;
    assert SubmitOk(s, t) && SessionOk(s, ns);
    QuietChange(s, s', ns, s'.sessions[ns]);
    MoverOrdered(s, s', t);
    QuietKeeps(s, s', t);
  }

  lemma {:induction false} DeleteOrder(s: State, t: nat)
    requires Structure(s) && Order(s) && t in s.submits && DeleteStep(s, t).Some?
    ensures Order(DeleteStep(s, t).value)
  {
    var s' := DeleteStep(s, t).value;
    MoverOrdered(s, s', t);
    QuietKeeps(s, s', t);
  }

  lemma {:induction false} OpenOrder(s: State, t: nat, ok: bool)
    requires Structure(s) && Order(s) && t in s.submits && OpenStep(s, t, ok).Some?
    ensures Order(OpenStep(s, t, ok).value)
  {
    var s' := OpenStep(s, t, ok).value;
    MoverOrdered(s, s', t);
    QuietKeeps(s, s', t);
  }

  lemma {:induction false} AbortOrder(s: State, t: nat)
    requires Structure(s) && Order(s) && t in s.submits && AbortStep(s, t).Some?
    ensures Order(AbortStep(s, t).value)
  {
    var s' := AbortStep(s, t).value;
    QuietKeeps(s, s', t);
  }

  lemma {:induction false} PublishOrder(s: State, t: nat)
    requires Structure(s) && Order(s) && t in s.submits && PublishStep(s, t).Some?
    ensures Order(PublishStep(s, t).value)
  {
    assert s.stop.NotStopping?;
    var u, s' := s.submits[t], PublishStep(s, t).value;
    if u.todo[0] in s.streams {
      QuietMove(s, s');
      TableSupersedes(s, t, u.todo[0]);
    } else {
      QuietChange(s, s', u.at.ns, s'.sessions[u.at.ns]);
      EmptySlotSupersedes(s, t, u.todo[0], u.at.ns);
    }
    MoverOrdered(s, s', t);
    QuietKeeps(s, s', t);
  }

  lemma {:induction false} CloseCheckOrder(s: State, t: nat)
    requires Structure(s) && Order(s) && t in s.submits && CloseCheckStep(s, t).Some?
    ensures Order(CloseCheckStep(s, t).value)
  {
    var s' := CloseCheckStep(s, t).value;
    assert SubmitOrdered(s, t);
    var ns := s.submits[t].at.ns;
    QuietChange(s, s', ns, s'.sessions[ns]);
    MoverOrdered(s, s', t);
    QuietKeeps(s, s', t);
  }

  lemma {:induction false} CloseOfferOrder(cfg: Settings, s: State, t: nat)
    requires Structure(s) && Order(s) && t in s.submits && CloseOfferStep(cfg, s, t).Some?
    ensures Order(CloseOfferStep(cfg, s, t).value)
  {
    var s' := CloseOfferStep(cfg, s, t).value;
    assert SubmitOrdered(s, t);
    var ns := s.submits[t].at.ns;
    assert SubmitOk(s, t) && SessionOk(s, ns);
    QuietChange(s, s', ns, s'.sessions[ns]);
    MoverOrdered(s, s', t);
    QuietKeeps(s, s', t);
  }

  lemma {:induction false} CloseChannelOrder(s: State, t: nat)
    requires Structure(s) && Order(s) && t in s.submits && CloseChannelStep(s, t).Some?
    ensures Order(CloseChannelStep(s, t).value)
  {
    var s' := CloseChannelStep(s, t).value;
    assert SubmitOrdered(s, t);
    var ns := s.submits[t].at.ns;
    assert SubmitOk(s, t) && SessionOk(s, ns);
    QuietChange(s, s', ns, s'.sessions[ns]);
    MoverOrdered(s, s', t);
    QuietKeeps(s, s', t);
  }

  lemma {:induction false} BeginOrder(cfg: Settings, s: State, t: nat)
    requires Structure(s) && Order(s) && Distinct(cfg.targets) && BeginStep(cfg, s, t).Some?
    ensures Order(BeginStep(cfg, s, t).value)
  {
    var s' := BeginStep(cfg, s, t).value;
    forall g | g in cfg.targets
      ensures Below(s', t, g, s.issued + 1)
    {
      assert Numbered(s, t, g);
      QuietBelow(s, s', t, g, s.issued + 1);
    }
    QuietKeeps(s, s', t);
  }

  lemma {:induction false} StopOrder(cfg: Settings, s: State, a: Action)
    requires Structure(s) && Order(s) && IsStop(a) && StopStep(cfg, s, a).Some?
    ensures Order(StopStep(cfg, s, a).value)
  {
    var s' := StopStep(cfg, s, a).value;
    if s.stop.NotStopping? || s.stop.StopNext? || s.stop.StopWaiting? {
      QuietMove(s, s');
    } else {
      assert LeftOk(s, s.stop.g);
      var sid := s.stop.left[s.stop.g];
      QuietChange(s, s', sid, s'.sessions[sid]);
    }
    QuietAll(s, s');
  }

  // ---------- the two steps that move payloads ----------

  /** The only running session with payloads of `t` for its target is the latest `t` used. */
  lemma {:induction false} EnqueueChannel(cfg: Settings, s: State, t: nat, i: nat)
    requires Structure(s) && Order(s) && t in s.submits && EnqueueStep(cfg, s, t).Some? && i < |s.sessions|
    ensures ChannelOrdered(EnqueueStep(cfg, s, t).value, i)
  {
    assert SubmitOk(s, t) && SubmitOrdered(s, t);
    var u := s.submits[t];
    var sid, g := u.at.sid, u.todo[0];
    assert Usable(s, sid, g) && Below(s, t, g, u.n);
    assert ChannelOrdered(s, i);
    if i != sid && s.sessions[i].target == g && s.sessions[i].loop.Running? {
      assert forall b :: 0 <= b < |s.sessions[i].channel| && s.sessions[i].channel[b].Data? ==>
                           s.sessions[i].channel[b].t != t;
    }
  }

  lemma {:induction false} EnqueueOrder(cfg: Settings, s: State, t: nat)
    requires Structure(s) && Order(s) && t in s.submits && EnqueueStep(cfg, s, t).Some?
    ensures Order(EnqueueStep(cfg, s, t).value)
  {
    assert SubmitOk(s, t) && SubmitOrdered(s, t);
    var u, s' := s.submits[t], EnqueueStep(cfg, s, t).value;
    var sid, g := u.at.sid, u.todo[0];
    forall i | 0 <= i < |s'.sessions|
      ensures ChannelOrdered(s', i)
    {
      EnqueueChannel(cfg, s, t, i);
    }
    forall key | key in s'.last
      ensures LastOk(s', key)
    {
      assert key in s.last ==> LastOk(s, key);
    }
    forall t', g'
      ensures Numbered(s', t', g')
    {
      EnqueueNumbered(cfg, s, t, t', g');
    }
    forall t' | t' in s'.submits
      ensures SubmitOrdered(s', t')
    {
      EnqueueOthers(cfg, s, t, t');
    }
  }

  lemma {:induction false} EnqueueNumbered(cfg: Settings, s: State, t: nat, t': nat, g': nat)
    requires Structure(s) && Order(s) && t in s.submits && EnqueueStep(cfg, s, t).Some?
    ensures Numbered(EnqueueStep(cfg, s, t).value, t', g')
  {
    assert SubmitOk(s, t) && SubmitOrdered(s, t) && Numbered(s, t', g');
  }

  /** The number goes out on one target; on the others everything is as it was. */
  lemma {:induction false} EnqueueBelow(cfg: Settings, s: State, t: nat, t': nat, g': nat, n: nat)
    requires Structure(s) && t in s.submits && EnqueueStep(cfg, s, t).Some? && Below(s, t', g', n)
    requires t' != t || g' != s.submits[t].todo[0]
    ensures Below(EnqueueStep(cfg, s, t).value, t', g', n)
  {
    assert SubmitOk(s, t);
  }

  lemma {:induction false} EnqueueOthers(cfg: Settings, s: State, t: nat, t': nat)
    requires Structure(s) && Order(s) && t in s.submits && EnqueueStep(cfg, s, t).Some? && t' in s.submits
    ensures SubmitOrdered(EnqueueStep(cfg, s, t).value, t')
  {
    assert SubmitOk(s, t) && SubmitOrdered(s, t) && SubmitOrdered(s, t');
    var u, s' := s.submits[t], EnqueueStep(cfg, s, t).value;
    var u' := s'.submits[t'];
    forall g' | g' in u'.todo
      ensures Below(s', t', g', u'.n)
    {
      assert g' in s.submits[t'].todo;
      assert t' == t ==> g' != u.todo[0];
      EnqueueBelow(cfg, s, t, t', g', u'.n);
    }
    if u'.todo != [] && (t', u'.todo[0]) in s.last {
      assert LastOk(s, (t', u'.todo[0]));
    }
  }

  lemma {:induction false} TransmitOwn(s: State, a: Action)
    requires a.Transmit? && LoopStep(s, a).Some? && s.sessions[a.i].channel[0].Data? && ChannelOrdered(s, a.i)
    ensures ChannelOrdered(LoopStep(s, a).value, a.i)
  {
    var s', x := LoopStep(s, a).value, s.sessions[a.i];
    assert forall k :: 0 <= k < |x.channel| - 1 ==> s'.sessions[a.i].channel[k] == x.channel[k + 1];
  }

  lemma {:induction false} TransmitElsewhere(s: State, a: Action, i: nat)
    requires a.Transmit? && LoopStep(s, a).Some? && s.sessions[a.i].channel[0].Data? && ChannelOrdered(s, a.i)
    requires i < |s.sessions| && i != a.i && ChannelOrdered(s, i)
    ensures ChannelOrdered(LoopStep(s, a).value, i)
  {
    var head, g := s.sessions[a.i].channel[0], s.sessions[a.i].target;
    assert (head.t, g) in s.last && s.last[(head.t, g)] == a.i;
  }

  /** A transmitted payload is beyond everything its submitter transmitted before. */
  lemma {:induction false} TransmitOrder(s: State, a: Action)
    requires Structure(s) && Order(s) && a.Transmit? && LoopStep(s, a).Some?
    requires s.sessions[a.i].channel[0].Data?
    ensures Order(LoopStep(s, a).value)
  {
    var s' := LoopStep(s, a).value;
    assert ChannelOrdered(s, a.i);
    forall i | 0 <= i < |s'.sessions|
      ensures ChannelOrdered(s', i)
    {
      assert ChannelOrdered(s, i);
      if i == a.i {
        TransmitOwn(s, a);
      } else {
        TransmitElsewhere(s, a, i);
      }
    }
    forall key | key in s'.last
      ensures LastOk(s', key)
    {
      assert LastOk(s, key);
    }
    forall t, g
      ensures Numbered(s', t, g)
    {
      assert Numbered(s, t, g);
      TransmitBelow(s, a, t, g, s.issued + 1);
    }
    forall t | t in s'.submits
      ensures SubmitOrdered(s', t)
    {
      assert SubmitOrdered(s, t);
      forall g | g in s.submits[t].todo
        ensures Below(s', t, g, s.submits[t].n)
      {
        TransmitBelow(s, a, t, g, s.submits[t].n);
      }
    }
  }

  lemma {:induction false} TransmitBelow(s: State, a: Action, t: nat, g: nat, n: nat)
    requires a.Transmit? && LoopStep(s, a).Some? && Below(s, t, g, n)
    ensures Below(LoopStep(s, a).value, t, g, n)
  {
    var s', x := LoopStep(s, a).value, s.sessions[a.i];
    assert forall k :: 0 <= k < |x.channel| - 1 ==> s'.sessions[a.i].channel[k] == x.channel[k + 1];
  }

  lemma {:induction false} LoopOrder(s: State, a: Action)
    requires Structure(s) && Order(s) && IsLoop(a)
    requires LoopStep(s, a).Some?
    ensures Order(LoopStep(s, a).value)
  {
    if a.Transmit? && s.sessions[a.i].channel[0].Data? {
      TransmitOrder(s, a);
    } else {
      QuietAll(s, LoopStep(s, a).value);
    }
  }

  lemma {:induction false} StepOrder(cfg: Settings, s: State, a: Action)
    requires Structure(s) && Order(s) && Distinct(cfg.targets) && Step(cfg, s, a).Some?
    ensures Order(Step(cfg, s, a).value)
  {
    if IsStop(a) {
      StopOrder(cfg, s, a);
    } else if IsLoop(a) {
      LoopOrder(s, a);
    } else if a.Begin? {
      BeginOrder(cfg, s, a.t);
    } else {
      SubmitterOrder(cfg, s, a);
    }
  }

  lemma {:induction false} SubmitterOrder(cfg: Settings, s: State, a: Action)
    requires Structure(s) && Order(s) && !IsStop(a) && !IsLoop(a) && a.t in s.submits
    requires SubmitterStep(cfg, s, a).Some?
    ensures Order(SubmitterStep(cfg, s, a).value)
  {
    if IsClose(a) {
      CloseOrder(cfg, s, a);
    } else if a.Lookup? || a.CheckDone? || a.Delete? || a.OpenSucceeds? || a.OpenFails? {
      FindOrder(cfg, s, a);
    } else {
      match a
      case Publish(t) => PublishOrder(s, t);
      case Enqueue(t) => EnqueueOrder(cfg, s, t);
      case Abort(t) => AbortOrder(s, t);
      case Begin(_) =>
    }
  }

  /** The steps of a submitter that looks for a session. */
  lemma {:induction false} FindOrder(cfg: Settings, s: State, a: Action)
    requires a.Lookup? || a.CheckDone? || a.Delete? || a.OpenSucceeds? || a.OpenFails?
    requires Structure(s) && Order(s) && a.t in s.submits && SubmitterStep(cfg, s, a).Some?
    ensures Order(SubmitterStep(cfg, s, a).value)
  {
    match a
    case Lookup(t) => LookupOrder(s, t);
    case CheckDone(t) => CheckDoneOrder(s, t);
    case Delete(t) => DeleteOrder(s, t);
    case OpenSucceeds(t) => OpenOrder(s, t, true);
    case OpenFails(t) => OpenOrder(s, t, false);
  }

  /** The steps of a submitter that lost the race. */
  lemma {:induction false} CloseOrder(cfg: Settings, s: State, a: Action)
    requires Structure(s) && Order(s) && IsClose(a) && a.t in s.submits && SubmitterStep(cfg, s, a).Some?
    ensures Order(SubmitterStep(cfg, s, a).value)
  {
    match a
    case CloseCheck(t) => CloseCheckOrder(s, t);
    case CloseOffer(t) => CloseOfferOrder(cfg, s, t);
    case CloseChannel(t) => CloseChannelOrder(s, t);
    case AwaitDone(t) => AwaitDoneOrder(s, t);
  }

  lemma {:induction false} ReachableOrder(cfg: Settings, acts: seq<Action>)
    requires Distinct(cfg.targets) && Exec(cfg, acts).Some?
    ensures Order(Exec(cfg, acts).value)
    decreases |acts|
  {
    if acts != [] {
      var front := acts[..|acts| - 1];
      ReachableOrder(cfg, front);
      Reachable(cfg, front);
      StepOrder(cfg, Exec(cfg, front).value, acts[|acts| - 1]);
    }
  }

  /** The `Seq` field of the n-th submission: the counter is a `uint64`. */
  function SeqNumber(n: nat): Uint64 { n % TWO64 }

  /**
   In every interleaving, what one submitter transmits to one target carries strictly
   increasing sequence numbers, also across session replacement, as long as the
   counter has not wrapped.
   */
  lemma {:induction false} SequenceNumbersIncrease(cfg: Settings, acts: seq<Action>, a: nat, b: nat)
    requires Distinct(cfg.targets) && Exec(cfg, acts).Some?
    requires var s := Exec(cfg, acts).value;
             s.issued < TWO64 && a < b < |s.wire| && s.wire[a].target == s.wire[b].target && s.wire[a].t == s.wire[b].t
    ensures var s := Exec(cfg, acts).value;
            SeqNumber(s.wire[a].n) < SeqNumber(s.wire[b].n)
  {
    ReachableOrder(cfg, acts);
    var s := Exec(cfg, acts).value;
    WireIncreases(s, a, b);
    Unwrapped(s.wire[a].n);
    Unwrapped(s.wire[b].n);
  }

  lemma {:induction false} WireIncreases(s: State, a: nat, b: nat)
    requires Order(s) && a < b < |s.wire| && s.wire[a].target == s.wire[b].target && s.wire[a].t == s.wire[b].t
    ensures s.wire[a].n < s.wire[b].n <= s.issued
  {
    assert Numbered(s, s.wire[b].t, s.wire[b].target);
  }

  lemma Unwrapped(n: nat)
    requires n < TWO64
    ensures SeqNumber(n) == n
  {
  }
}
