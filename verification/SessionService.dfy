/**
 What the session table is for: an ended session is replaced, a live one is used again, and a
 Submit that returns has put its payload on a session of every target it could dial.
 */
module SessionService {
  import opened Common
  import opened StreamSessions

  // ---------- replacing an ended session ----------

  /** A submitter that looks at a session whose loop has ended does not go on with it; one that
      looks at any other session does. */
  lemma {:induction false} EndedSessionNotHeld(cfg: Settings, acts: seq<Action>, t: nat)
    requires Exec(cfg, acts).Some? && Exec(cfg, acts + [CheckDone(t)]).Some?
    requires t in Exec(cfg, acts).value.submits && Exec(cfg, acts).value.submits[t].at.Found?
    ensures var s, s' := Exec(cfg, acts).value, Exec(cfg, acts + [CheckDone(t)]).value;
            var sid := s.submits[t].at.sid;
            && sid < |s.sessions| && t in s'.submits && s'.sessions == s.sessions && s'.streams == s.streams
            && s'.submits[t].at == if s.sessions[sid].loop == Done then Stale(sid) else Holding(sid)
  {
    Reachable(cfg, acts);
    assert (acts + [CheckDone(t)])[..|acts|] == acts;
    assert SubmitOk(Exec(cfg, acts).value, t);
  }

  /** The steps are the submitter's own. */
  predicate Own(t: nat, acts: seq<Action>) {
    forall k :: 0 <= k < |acts| ==>
      acts[k] in {Lookup(t), CheckDone(t), Delete(t), OpenSucceeds(t), Publish(t), Enqueue(t)}
  }

  /** The last of them, and only that one, enqueues. */
  predicate EndsEnqueuing(t: nat, acts: seq<Action>) {
    && acts != [] && acts[|acts| - 1] == Enqueue(t)
    && forall k :: 0 <= k < |acts| - 1 ==> acts[k] != Enqueue(t)
  }

  /** A new session for the submitter's target, in the table, running, with its payload in the channel. */
  function Replaced(s: State, t: nat): State
    requires t in s.submits && s.submits[t].todo != []
  {
    var u, sid := s.submits[t], |s.sessions|;
    var g, item := u.todo[0], Data(t, u.n);
    s.(sessions := s.sessions + [Session(g, [item], false, Running, true, None, [item], [])],
       streams := s.streams[g := sid],
       submits := s.submits[t := Submit(u.n, u.todo[1..], Choosing)],
       last := s.last[(t, g) := sid])
  }

  lemma {:induction false} Goes(cfg: Settings, acts: seq<Action>, s: State, a: Action, s': State)
    requires Reaches(cfg, acts, s) && Step(cfg, s, a) == Some(s')
    ensures Reaches(cfg, acts + [a], s')
  {
    Extend(cfg, acts, s, a, s');
  }

  /** Where the submitter stands makes no difference to what replaces the session. */
  lemma {:induction false} SameReplacement(s: State, s1: State, t: nat)
    requires t in s.submits && t in s1.submits && s.submits[t].todo != []
    requires s1 == s.(submits := s.submits[t := s.submits[t].(at := s1.submits[t].at)])
    ensures Replaced(s1, t) == Replaced(s, t)
  {
    assert Replaced(s1, t).submits == Replaced(s, t).submits;
  }

  lemma {:induction false} OpensNew(cfg: Settings, acts: seq<Action>, s: State, t: nat) returns (s1: State)
    requires Reaches(cfg, acts, s) && t in s.submits && s.submits[t].at.Opening? && s.submits[t].todo != []
    ensures Reaches(cfg, acts + [OpenSucceeds(t)], s1)
    ensures var u := s.submits[t];
            s1 == s.(sessions := s.sessions + [Session(u.todo[0], [], false, Running, false, Some(t), [], [])],
                     submits := s.submits[t := u.(at := Opened(|s.sessions|))])
  {
    s1 := OpenStep(s, t, true).value;
    Goes(cfg, acts, s, OpenSucceeds(t), s1);
  }

  lemma {:induction false} PublishesNew(cfg: Settings, acts: seq<Action>, s: State, t: nat, ns: nat)
    returns (s1: State)
    requires Reaches(cfg, acts, s) && t in s.submits && s.submits[t].at == Opened(ns) && ns < |s.sessions|
    requires s.submits[t].todo != [] && s.submits[t].todo[0] !in s.streams
    ensures Reaches(cfg, acts + [Publish(t)], s1)
    ensures var u := s.submits[t];
            s1 == s.(sessions := s.sessions[ns := s.sessions[ns].(published := true, owner := None)],
                     streams := s.streams[u.todo[0] := ns],
                     submits := s.submits[t := u.(at := Holding(ns))])
  {
    s1 := PublishStep(s, t).value;
    Goes(cfg, acts, s, Publish(t), s1);
  }

  lemma {:induction false} EnqueuesHeld(cfg: Settings, acts: seq<Action>, s: State, t: nat, sid: nat)
    returns (s1: State)
    requires Reaches(cfg, acts, s) && t in s.submits && s.submits[t].at == Holding(sid) && sid < |s.sessions|
    requires s.submits[t].todo != [] && !s.sessions[sid].closed && |s.sessions[sid].channel| < cfg.buffer
    ensures Reaches(cfg, acts + [Enqueue(t)], s1)
    ensures var u, x := s.submits[t], s.sessions[sid];
            var item := Data(t, u.n);
            s1 == s.(sessions := s.sessions[sid := x.(channel := x.channel + [item], given := x.given + [item])],
                     submits := s.submits[t := Submit(u.n, u.todo[1..], Choosing)],
                     last := s.last[(t, u.todo[0]) := sid])
  {
    s1 := EnqueueStep(cfg, s, t).value;
    Goes(cfg, acts, s, Enqueue(t), s1);
  }

  /** Dial, publish, enqueue. */
  lemma {:induction false} DialsAndServes(cfg: Settings, acts: seq<Action>, s: State, t: nat)
    requires Reaches(cfg, acts, s) && t in s.submits && s.submits[t].at.Opening? && s.submits[t].todo != []
    requires cfg.buffer > 0 && s.submits[t].todo[0] !in s.streams
    ensures Reaches(cfg, acts + [OpenSucceeds(t)] + [Publish(t)] + [Enqueue(t)], Replaced(s, t))
  {
    var ns, u := |s.sessions|, s.submits[t];
    var g, item := u.todo[0], Data(t, u.n);
    var s1 := OpensNew(cfg, acts, s, t);
    var s2 := PublishesNew(cfg, acts + [OpenSucceeds(t)], s1, t, ns);
    var s3 := EnqueuesHeld(cfg, acts + [OpenSucceeds(t)] + [Publish(t)], s2, t, ns);
    assert [] + [item] == [item];
    var y := Session(g, [item], false, Running, true, None, [item], []);
    assert s3.sessions[ns] == y;
    assert s3.sessions == s.sessions + [y];
    assert s3.submits == Replaced(s, t).submits;
  }

  lemma {:induction false} DeletesStale(cfg: Settings, acts: seq<Action>, s: State, t: nat) returns (s1: State)
    requires Reaches(cfg, acts, s) && t in s.submits && s.submits[t].todo != []
    requires s.submits[t].todo[0] in s.streams && s.submits[t].at == Stale(s.streams[s.submits[t].todo[0]])
    ensures Reaches(cfg, acts + [Delete(t)], s1)
    ensures var u := s.submits[t];
            s1 == s.(streams := s.streams - {u.todo[0]}, submits := s.submits[t := u.(at := Opening)])
  {
    s1 := DeleteStep(s, t).value;
    Goes(cfg, acts, s, Delete(t), s1);
  }

  /** From the stale session in the table. */
  lemma {:induction false} ServesFromStale(cfg: Settings, acts: seq<Action>, s: State, t: nat)
    returns (more: seq<Action>)
    requires Reaches(cfg, acts, s) && cfg.buffer > 0 && t in s.submits && s.submits[t].todo != []
    requires s.submits[t].todo[0] in s.streams && s.submits[t].at == Stale(s.streams[s.submits[t].todo[0]])
    ensures Own(t, more) && EndsEnqueuing(t, more) && Reaches(cfg, acts + more, Replaced(s, t))
  {
    var g := s.submits[t].todo[0];
    var s1 := DeletesStale(cfg, acts, s, t);
    DialsAndServes(cfg, acts + [Delete(t)], s1, t);
    assert (s.streams - {g})[g := |s.sessions|] == s.streams[g := |s.sessions|];
    assert Replaced(s1, t).submits == Replaced(s, t).submits;
    more := [Delete(t), OpenSucceeds(t), Publish(t), Enqueue(t)];
    assert acts + more == acts + [Delete(t)] + [OpenSucceeds(t)] + [Publish(t)] + [Enqueue(t)];
  }

  /** The submitter is about to look its target up, or stands before the very session in the table. */
  predicate LooksAtTable(s: State, t: nat)
    requires t in s.submits && s.submits[t].todo != [] && s.submits[t].todo[0] in s.streams
  {
    var at, sid := s.submits[t].at, s.streams[s.submits[t].todo[0]];
    at.Choosing? || at == Found(sid) || at == Stale(sid)
  }

  lemma {:induction false} Looks(cfg: Settings, acts: seq<Action>, s: State, t: nat, sid: nat) returns (s1: State)
    requires Reaches(cfg, acts, s) && t in s.submits && s.submits[t].todo != [] && s.submits[t].at.Choosing?
    requires s.submits[t].todo[0] in s.streams && s.streams[s.submits[t].todo[0]] == sid
    ensures Reaches(cfg, acts + [Lookup(t)], s1)
    ensures s1 == s.(submits := s.submits[t := s.submits[t].(at := Found(sid))])
  {
    s1 := LookupStep(s, t).value;
    Goes(cfg, acts, s, Lookup(t), s1);
  }

  lemma {:induction false} Checks(cfg: Settings, acts: seq<Action>, s: State, t: nat, sid: nat) returns (s1: State)
    requires Reaches(cfg, acts, s) && t in s.submits && s.submits[t].at == Found(sid) && sid < |s.sessions|
    ensures Reaches(cfg, acts + [CheckDone(t)], s1)
    ensures s1 == s.(submits := s.submits[t := s.submits[t].(
                                at := if s.sessions[sid].loop == Done then Stale(sid) else Holding(sid))])
  {
    s1 := CheckDoneStep(s, t).value;
    Goes(cfg, acts, s, CheckDone(t), s1);
  }

  lemma {:induction false} ServesFromFound(cfg: Settings, acts: seq<Action>, s: State, t: nat)
    returns (more: seq<Action>)
    requires Reaches(cfg, acts, s) && cfg.buffer > 0 && t in s.submits && s.submits[t].todo != []
    requires s.submits[t].todo[0] in s.streams && s.streams[s.submits[t].todo[0]] < |s.sessions|
    requires s.sessions[s.streams[s.submits[t].todo[0]]].loop.Done?
    requires s.submits[t].at == Found(s.streams[s.submits[t].todo[0]])
    ensures Own(t, more) && EndsEnqueuing(t, more) && Reaches(cfg, acts + more, Replaced(s, t))
  {
    var s1 := Checks(cfg, acts, s, t, s.submits[t].at.sid);
    var rest := ServesFromStale(cfg, acts + [CheckDone(t)], s1, t);
    SameReplacement(s, s1, t);
    more := [CheckDone(t)] + rest;
    assert acts + more == acts + [CheckDone(t)] + rest;
  }

  /**
   From every reachable state: if the session in the table has ended, a submitter that comes
   to look can, by its own steps and with a dial that succeeds, get its payload onto a new,
   running session that is in the table from then on; nobody else's business is touched.
   */
  lemma {:induction false} EndedSessionReplaced(cfg: Settings, acts: seq<Action>, s: State, t: nat)
    returns (more: seq<Action>)
    requires Exec(cfg, acts) == Some(s) && cfg.buffer > 0
    requires t in s.submits && s.submits[t].todo != [] && s.submits[t].todo[0] in s.streams && LooksAtTable(s, t)
    requires s.streams[s.submits[t].todo[0]] < |s.sessions|
    requires s.sessions[s.streams[s.submits[t].todo[0]]].loop.Done?
    ensures Own(t, more) && EndsEnqueuing(t, more) && Exec(cfg, acts + more) == Some(Replaced(s, t))
  {
    more := ServesFromTable(cfg, acts, s, t);
  }

  lemma {:induction false} ServesFromTable(cfg: Settings, acts: seq<Action>, s: State, t: nat)
    returns (more: seq<Action>)
    requires Reaches(cfg, acts, s) && cfg.buffer > 0
    requires t in s.submits && s.submits[t].todo != [] && s.submits[t].todo[0] in s.streams && LooksAtTable(s, t)
    requires s.streams[s.submits[t].todo[0]] < |s.sessions|
    requires s.sessions[s.streams[s.submits[t].todo[0]]].loop.Done?
    ensures Own(t, more) && EndsEnqueuing(t, more) && Reaches(cfg, acts + more, Replaced(s, t))
  {
    var sid := s.streams[s.submits[t].todo[0]];
    if s.submits[t].at.Choosing? {
      var s1 := Looks(cfg, acts, s, t, sid);
      var rest := ServesFromFound(cfg, acts + [Lookup(t)], s1, t);
      SameReplacement(s, s1, t);
      more := [Lookup(t)] + rest;
      assert acts + more == acts + [Lookup(t)] + rest;
    } else if s.submits[t].at.Found? {
      more := ServesFromFound(cfg, acts, s, t);
    } else {
      more := ServesFromStale(cfg, acts, s, t);
    }
  }

  /** The same for a target without a session. */
  lemma {:induction false} FirstSessionOpened(cfg: Settings, acts: seq<Action>, s: State, t: nat)
    returns (more: seq<Action>)
    requires Exec(cfg, acts) == Some(s) && cfg.buffer > 0
    requires t in s.submits && s.submits[t].todo != [] && s.submits[t].todo[0] !in s.streams
    requires s.submits[t].at.Choosing?
    ensures Own(t, more) && EndsEnqueuing(t, more) && Exec(cfg, acts + more) == Some(Replaced(s, t))
  {
    var s1 := LookupStep(s, t).value;
    Extend(cfg, acts, s, Lookup(t), s1);
    DialsAndServes(cfg, acts + [Lookup(t)], s1, t);
    SameReplacement(s, s1, t);
    more := [Lookup(t), OpenSucceeds(t), Publish(t), Enqueue(t)];
    assert acts + more == acts + [Lookup(t)] + [OpenSucceeds(t)] + [Publish(t)] + [Enqueue(t)];
  }

  /** The payload joins the channel of session `sid`. */
  function Joined(s: State, t: nat, sid: nat): State
    requires t in s.submits && s.submits[t].todo != [] && sid < |s.sessions|
  {
    var u, x := s.submits[t], s.sessions[sid];
    var item := Data(t, u.n);
    s.(sessions := s.sessions[sid := x.(channel := x.channel + [item], given := x.given + [item])],
       submits := s.submits[t := Submit(u.n, u.todo[1..], Choosing)],
       last := s.last[(t, u.todo[0]) := sid])
  }

  /** And a session that has not ended is used again as long as its channel has room. */
  lemma {:induction false} LiveSessionUsed(cfg: Settings, acts: seq<Action>, s: State, t: nat, sid: nat)
    requires Exec(cfg, acts) == Some(s) && t in s.submits && s.submits[t].todo != [] && s.submits[t].at.Choosing?
    requires s.submits[t].todo[0] in s.streams && s.streams[s.submits[t].todo[0]] == sid < |s.sessions|
    requires !s.sessions[sid].loop.Done? && |s.sessions[sid].channel| < cfg.buffer
    ensures Exec(cfg, acts + [Lookup(t), CheckDone(t), Enqueue(t)]) == Some(Joined(s, t, sid))
  {
    Reachable(cfg, acts);
    assert Usable(s, sid, s.submits[t].todo[0]);
    var s1 := Looks(cfg, acts, s, t, sid);
    var s2 := Checks(cfg, acts + [Lookup(t)], s1, t, sid);
    var s3 := EnqueuesHeld(cfg, acts + [Lookup(t)] + [CheckDone(t)], s2, t, sid);
    assert s3.submits == Joined(s, t, sid).submits;
    assert acts + [Lookup(t), CheckDone(t), Enqueue(t)] == acts + [Lookup(t)] + [CheckDone(t)] + [Enqueue(t)];
  }

  /** A session is dialled only by a submitter that found none in the table, or one that has ended. */
  lemma {:induction false} DialsOnlyIfNeeded(cfg: Settings, acts: seq<Action>, a: Action, t: nat)
    requires Exec(cfg, acts).Some? && Exec(cfg, acts + [a]).Some?
    requires t in Exec(cfg, acts).value.submits && t in Exec(cfg, acts + [a]).value.submits
    ensures var s, s' := Exec(cfg, acts).value, Exec(cfg, acts + [a]).value;
            var u := s.submits[t];
            && (|s'.sessions| > |s.sessions| ==> a.OpenSucceeds? && |s'.sessions| == |s.sessions| + 1)
            && (a == OpenSucceeds(t) ==> u.at == Opening)
            && (s'.submits[t].at == Opening && u.at != Opening ==>
                  u.todo != []
                  && (u.todo[0] !in s.streams
                      || (u.at.Stale? && u.at.sid < |s.sessions| && s.sessions[u.at.sid].loop == Done)))
  {
    Reachable(cfg, acts);
    var s := Exec(cfg, acts).value;
    assert (acts + [a])[..|acts|] == acts;
    assert SubmitOk(s, t);
    StepShape(cfg, s, a);
  }

  /** A submitter that finds the table taken when it comes to publish closes its own session and
      goes on with the one in the table, whatever has become of that one: it holds it throughout,
      and gets to send on it only when its own session has ended. */
  lemma {:induction false} LoserTakesWinner(cfg: Settings, acts: seq<Action>, a: Action, t: nat)
    requires Exec(cfg, acts).Some? && Exec(cfg, acts + [a]).Some?
    requires t in Exec(cfg, acts).value.submits && t in Exec(cfg, acts + [a]).value.submits && !IsStop(a) && !IsLoop(a)
    requires a.t == t && OwnSession(Exec(cfg, acts).value.submits[t].at).Some?
    ensures var s, s' := Exec(cfg, acts).value, Exec(cfg, acts + [a]).value;
            var u, u' := s.submits[t], s'.submits[t];
            var ns := OwnSession(u.at).value;
            && u.todo != [] && u'.todo == u.todo && ns < |s.sessions| == |s'.sessions|
            && (if u.at.Opened? && u.todo[0] !in s.streams then u'.at == Holding(ns)
                else
                  var winner := if u.at.Opened? then s.streams[u.todo[0]] else HeldSession(u.at).value;
                  && HeldSession(u'.at) == Some(winner) && s'.streams == s.streams
                  && (OwnSession(u'.at) == Some(ns) || (u'.at == Holding(winner) && s'.sessions[ns].loop == Done)))
  {
    Reachable(cfg, acts);
    assert (acts + [a])[..|acts|] == acts;
    assert SubmitOk(Exec(cfg, acts).value, t) && SessionOk(Exec(cfg, acts).value, OwnSession(
      Exec(cfg, acts).value.submits[t].at).value);
  }

  // ---------- what one step does to sessions and submitters ----------

  /** Targets stay, and what was given stays given. */
  ghost predicate GivenKept(s: State, s': State) {
    && |s.sessions| <= |s'.sessions|
    && forall i :: 0 <= i < |s.sessions| ==>
         s'.sessions[i].target == s.sessions[i].target && s.sessions[i].given <= s'.sessions[i].given
  }

  /** Only the acting submitter moves; only an open adds a session. */
  ghost predicate Shaped(s: State, a: Action, s': State) {
    && GivenKept(s, s')
    && (|s'.sessions| > |s.sessions| ==> a.OpenSucceeds? && |s'.sessions| == |s.sessions| + 1)
    && (forall t :: t in s.submits && (IsStop(a) || IsLoop(a) || a.t != t) ==>
          t in s'.submits && s'.submits[t] == s.submits[t])
    && (forall t :: t in s'.submits && t !in s.submits ==> a == Begin(t))
    && (forall t :: t in s.submits && t !in s'.submits ==>
          a == Abort(t) || (a == Lookup(t) && s.submits[t].todo == []))
  }

  lemma {:induction false} LoopShape(s: State, a: Action)
    requires IsLoop(a) && LoopStep(s, a).Some?
    ensures Shaped(s, a, LoopStep(s, a).value)
  {
  }

  lemma {:induction false} StopShape(cfg: Settings, s: State, a: Action)
    requires IsStop(a) && StopStep(cfg, s, a).Some?
    ensures Shaped(s, a, StopStep(cfg, s, a).value)
  {
    if s.stop.StopChosen? || s.stop.StopOffered? || s.stop.StopWaiting? {
      CloseForStopShape(cfg, s, a);
    }
  }

  lemma {:induction false} CloseForStopShape(cfg: Settings, s: State, a: Action)
    requires IsStop(a) && (s.stop.StopChosen? || s.stop.StopOffered? || s.stop.StopWaiting?)
    requires CloseForStop(cfg, s, a).Some?
    ensures Shaped(s, a, CloseForStop(cfg, s, a).value)
  {
  }

  lemma {:induction false} ReleaseShape(s: State, t: nat)
    requires t in s.submits
    ensures CloseCheckStep(s, t).Some? ==> Shaped(s, CloseCheck(t), CloseCheckStep(s, t).value)
    ensures AwaitDoneStep(s, t).Some? ==> Shaped(s, AwaitDone(t), AwaitDoneStep(s, t).value)
  {
  }

  lemma {:induction false} OfferShape(cfg: Settings, s: State, t: nat)
    requires t in s.submits
    ensures CloseOfferStep(cfg, s, t).Some? ==> Shaped(s, CloseOffer(t), CloseOfferStep(cfg, s, t).value)
    ensures CloseChannelStep(s, t).Some? ==> Shaped(s, CloseChannel(t), CloseChannelStep(s, t).value)
  {
  }

  lemma {:induction false} PublishShape(s: State, t: nat)
    requires t in s.submits
    ensures PublishStep(s, t).Some? ==> Shaped(s, Publish(t), PublishStep(s, t).value)
  {
  }

  lemma {:induction false} EnqueueShape(cfg: Settings, s: State, t: nat)
    requires t in s.submits
    ensures EnqueueStep(cfg, s, t).Some? ==> Shaped(s, Enqueue(t), EnqueueStep(cfg, s, t).value)
  {
  }

  lemma {:induction false} SubmitterShape(cfg: Settings, s: State, a: Action)
    requires !IsStop(a) && !IsLoop(a) && a.t in s.submits && SubmitterStep(cfg, s, a).Some?
    ensures Shaped(s, a, SubmitterStep(cfg, s, a).value)
  {
    if IsClose(a) {
      ReleaseShape(s, a.t);
      OfferShape(cfg, s, a.t);
    } else if a.Publish? {
      PublishShape(s, a.t);
    } else if a.Enqueue? {
      EnqueueShape(cfg, s, a.t);
    }
  }

  lemma {:induction false} StepShape(cfg: Settings, s: State, a: Action)
    requires Step(cfg, s, a).Some?
    ensures Shaped(s, a, Step(cfg, s, a).value)
  {
    if IsStop(a) {
      StopShape(cfg, s, a);
    } else if IsLoop(a) {
      LoopShape(s, a);
    } else if !a.Begin? {
      SubmitterShape(cfg, s, a);
    }
  }

  // ---------- every target is served ----------

  /** The dials that failed: by whom, in which submission, to which target. */
  function FailedDials(cfg: Settings, acts: seq<Action>): set<(nat, nat, nat)> {
    if acts == [] then {}
    else
      var front, a := acts[..|acts| - 1], acts[|acts| - 1];
      var before := Exec(cfg, front);
      if before.Some? && a.OpenFails? && a.t in before.value.submits && before.value.submits[a.t].todo != []
      then FailedDials(cfg, front) + {(a.t, before.value.submits[a.t].n, before.value.submits[a.t].todo[0])}
      else FailedDials(cfg, front)
  }

  /** A session for target `g` was given the payload. */
  ghost predicate Given(s: State, t: nat, n: nat, g: nat) {
    exists i :: 0 <= i < |s.sessions| && s.sessions[i].target == g && Data(t, n) in s.sessions[i].given
  }

  /** Target by target, the submission has been given out or its dial failed. */
  ghost predicate ServedSoFar(targets: seq<nat>, failed: set<(nat, nat, nat)>, s: State, t: nat)
    requires t in s.submits
  {
    var u := s.submits[t];
    && |u.todo| <= |targets| && u.todo == targets[|targets| - |u.todo|..]
    && forall k :: 0 <= k < |targets| - |u.todo| ==>
         (t, u.n, targets[k]) in failed || Given(s, t, u.n, targets[k])
  }

  lemma {:induction false} GivenStays(s: State, s': State, t: nat, n: nat, g: nat)
    requires GivenKept(s, s') && Given(s, t, n, g)
    ensures Given(s', t, n, g)
  {
    var i :| 0 <= i < |s.sessions| && s.sessions[i].target == g && Data(t, n) in s.sessions[i].given;
    assert s'.sessions[i].target == g;
  }

  lemma {:induction false} BystanderServed(
    targets: seq<nat>, failed: set<(nat, nat, nat)>, failed': set<(nat, nat, nat)>, s: State, s': State, t: nat)
    requires t in s.submits && t in s'.submits && ServedSoFar(targets, failed, s, t) && failed <= failed'
    requires GivenKept(s, s') && s'.submits[t].n == s.submits[t].n && s'.submits[t].todo == s.submits[t].todo
    ensures ServedSoFar(targets, failed', s', t)
  {
    var u := s.submits[t];
    forall k | 0 <= k < |targets| - |u.todo|
      ensures (t, u.n, targets[k]) in failed' || Given(s', t, u.n, targets[k])
    {
      if Given(s, t, u.n, targets[k]) {
        GivenStays(s, s', t, u.n, targets[k]);
      }
    }
  }

  /** The target at the head of the list has been dealt with. */
  lemma {:induction false} OneMoreServed(
    targets: seq<nat>, failed: set<(nat, nat, nat)>, failed': set<(nat, nat, nat)>, s: State, s': State, t: nat)
    requires t in s.submits && t in s'.submits && ServedSoFar(targets, failed, s, t) && failed <= failed'
    requires GivenKept(s, s') && s'.submits[t].n == s.submits[t].n
    requires s.submits[t].todo != [] && s'.submits[t].todo == s.submits[t].todo[1..]
    requires var (n, g) := (s.submits[t].n, s.submits[t].todo[0]);
             (t, n, g) in failed' || Given(s', t, n, g)
    ensures ServedSoFar(targets, failed', s', t)
  {
    var u := s.submits[t];
    var m := |targets| - |u.todo|;
    assert u.todo[0] == targets[m] && u.todo[1..] == targets[m + 1..];
    forall k | 0 <= k < m + 1
      ensures (t, u.n, targets[k]) in failed' || Given(s', t, u.n, targets[k])
    {
      if k < m && Given(s, t, u.n, targets[k]) {
        GivenStays(s, s', t, u.n, targets[k]);
      }
    }
  }

  /** How a step changes the acting submitter's list. */
  lemma {:induction false} ActorStep(cfg: Settings, s: State, a: Action)
    requires !s.panicked && !IsStop(a) && !IsLoop(a) && !a.Begin? && a.t in s.submits && Step(cfg, s, a).Some?
    ensures var s' := Step(cfg, s, a).value;
            a.t in s'.submits ==>
              && s'.submits[a.t].n == s.submits[a.t].n
              && (if a.OpenFails? || (a.Enqueue? && !s'.panicked) then
                    s.submits[a.t].todo != [] && s'.submits[a.t].todo == s.submits[a.t].todo[1..]
                  else s'.submits[a.t].todo == s.submits[a.t].todo)
  {
  }

  lemma {:induction false} EnqueueGives(cfg: Settings, s: State, t: nat)
    requires Structure(s) && t in s.submits && EnqueueStep(cfg, s, t).Some?
    ensures var s' := EnqueueStep(cfg, s, t).value;
            !s'.panicked && Given(s', t, s.submits[t].n, s.submits[t].todo[0])
  {
    assert SubmitOk(s, t);
    var s', sid := EnqueueStep(cfg, s, t).value, s.submits[t].at.sid;
    var item := Data(t, s.submits[t].n);
    assert s'.sessions[sid].given[|s.sessions[sid].given|] == item;
    assert s'.sessions[sid].target == s.submits[t].todo[0] && item in s'.sessions[sid].given;
  }

  lemma {:induction false} ActorServed(
    cfg: Settings, failed: set<(nat, nat, nat)>, failed': set<(nat, nat, nat)>, s: State, a: Action)
    requires !IsStop(a) && !IsLoop(a) && !a.Begin? && a.t in s.submits && Step(cfg, s, a).Some? && Structure(s)
    requires a.t in Step(cfg, s, a).value.submits
    requires ServedSoFar(cfg.targets, failed, s, a.t) && failed <= failed'
    requires a.OpenFails? && s.submits[a.t].todo != [] ==>
               (a.t, s.submits[a.t].n, s.submits[a.t].todo[0]) in failed'
    ensures ServedSoFar(cfg.targets, failed', Step(cfg, s, a).value, a.t)
  {
    var s' := Step(cfg, s, a).value;
    StepShape(cfg, s, a);
    ActorStep(cfg, s, a);
    if a.Enqueue? {
      EnqueueGives(cfg, s, a.t);
    }
    if a.OpenFails? || a.Enqueue? {
      OneMoreServed(cfg.targets, failed, failed', s, s', a.t);
    } else {
      BystanderServed(cfg.targets, failed, failed', s, s', a.t);
    }
  }

  lemma {:induction false} StepServed(
    cfg: Settings, failed: set<(nat, nat, nat)>, failed': set<(nat, nat, nat)>, s: State, a: Action, t: nat)
    requires Structure(s) && Step(cfg, s, a).Some? && t in Step(cfg, s, a).value.submits
    requires t in s.submits ==> ServedSoFar(cfg.targets, failed, s, t)
    requires failed <= failed'
    requires a.OpenFails? && a.t in s.submits && s.submits[a.t].todo != [] ==>
               (a.t, s.submits[a.t].n, s.submits[a.t].todo[0]) in failed'
    ensures ServedSoFar(cfg.targets, failed', Step(cfg, s, a).value, t)
  {
    StepShape(cfg, s, a);
    if t !in s.submits {
      assert cfg.targets[0..] == cfg.targets;
    } else if IsStop(a) || IsLoop(a) || a.t != t {
      BystanderServed(cfg.targets, failed, failed', s, Step(cfg, s, a).value, t);
    } else {
      ActorServed(cfg, failed, failed', s, a);
    }
  }

  /**
   In every interleaving: the targets a submission has left behind were each given its payload
   on a session of their own, or could not be dialled.  A Submit that is about to return has
   left all of them behind.
   */
  lemma {:induction false} EveryTargetServed(cfg: Settings, acts: seq<Action>, t: nat)
    requires Exec(cfg, acts).Some? && t in Exec(cfg, acts).value.submits
    ensures var s := Exec(cfg, acts).value;
            var u := s.submits[t];
            && |u.todo| <= |cfg.targets| && u.todo == cfg.targets[|cfg.targets| - |u.todo|..]
            && (forall k :: 0 <= k < |cfg.targets| - |u.todo| ==>
                  (t, u.n, cfg.targets[k]) in FailedDials(cfg, acts) || Given(s, t, u.n, cfg.targets[k]))
    decreases |acts|
  {
    var front, a := acts[..|acts| - 1], acts[|acts| - 1];
    var s := Exec(cfg, front).value;
    Reachable(cfg, front);
    if t in s.submits {
      EveryTargetServed(cfg, front, t);
    }
    StepServed(cfg, FailedDials(cfg, front), FailedDials(cfg, acts), s, a, t);
  }

  /** A submission leaves only when its list is done, or by a cancelled context while it waits for room. */
  lemma {:induction false} LeavesWhenServed(cfg: Settings, acts: seq<Action>, a: Action, t: nat)
    requires Exec(cfg, acts).Some? && Exec(cfg, acts + [a]).Some?
    requires t in Exec(cfg, acts).value.submits && t !in Exec(cfg, acts + [a]).value.submits
    ensures var u := Exec(cfg, acts).value.submits[t];
            (a == Lookup(t) && u.todo == []) || (a == Abort(t) && u.at.Holding?)
  {
    assert (acts + [a])[..|acts|] == acts;
    StepShape(cfg, Exec(cfg, acts).value, a);
  }

  // ---------- numbers, ends and farewells ----------

  function Begins(acts: seq<Action>): nat {
    if acts == [] then 0 else Begins(acts[..|acts| - 1]) + if acts[|acts| - 1].Begin? then 1 else 0
  }

  lemma {:induction false} StepIssues(cfg: Settings, s: State, a: Action)
    requires Step(cfg, s, a).Some?
    ensures Step(cfg, s, a).value.issued == s.issued + if a.Begin? then 1 else 0
  {
  }

  lemma {:induction false} Issued(cfg: Settings, acts: seq<Action>)
    requires Exec(cfg, acts).Some?
    ensures Exec(cfg, acts).value.issued == Begins(acts)
    decreases |acts|
  {
    if acts != [] {
      Issued(cfg, acts[..|acts| - 1]);
      StepIssues(cfg, Exec(cfg, acts[..|acts| - 1]).value, acts[|acts| - 1]);
    }
  }

  /** A submission can begin exactly if Stop is not at work and the submitter has none under way.
      The first is number 1, and each takes the next number. */
  lemma {:induction false} NumbersConsecutive(cfg: Settings, acts: seq<Action>, t: nat)
    requires Exec(cfg, acts).Some?
    ensures var s, r := Exec(cfg, acts).value, Exec(cfg, acts + [Begin(t)]);
            && (r.Some? <==> s.stop == NotStopping && t !in s.submits)
            && (r.Some? ==> r.value == s.(issued := Begins(acts) + 1,
                                          submits := s.submits[t := Submit(Begins(acts) + 1, cfg.targets, Choosing)]))
  {
    Issued(cfg, acts);
    assert (acts + [Begin(t)])[..|acts|] == acts;
  }

  /** A send loop that no longer runs had its channel closed, or a send failed on it. */
  lemma {:induction false} LoopEndsForAReason(cfg: Settings, acts: seq<Action>, i: nat)
    requires Exec(cfg, acts).Some? && i < |Exec(cfg, acts).value.sessions|
    ensures var x := Exec(cfg, acts).value.sessions[i];
            !x.loop.Running? ==> x.closed || SendFails(i) in acts
    decreases |acts|
  {
    if acts != [] {
      var front, a := acts[..|acts| - 1], acts[|acts| - 1];
      var s := Exec(cfg, front).value;
      StepEnds(cfg, s, a);
      if i < |s.sessions| {
        LoopEndsForAReason(cfg, front, i);
        assert EndsOnlySo(a, i, s.sessions[i], Exec(cfg, acts).value.sessions[i]);
      }
      assert acts == front + [a];
    }
  }

  ghost predicate EndsOnlySo(a: Action, i: nat, x: Session, y: Session) {
    && (x.closed ==> y.closed)
    && (y.loop.Running? || !x.loop.Running? || x.closed || a == SendFails(i))
  }

  /** Sessions stay closed, loops end by these two ways only, new ones run. */
  ghost predicate EndsSo(s: State, a: Action, s': State) {
    && |s.sessions| <= |s'.sessions|
    && (forall i :: 0 <= i < |s.sessions| ==> EndsOnlySo(a, i, s.sessions[i], s'.sessions[i]))
    && (forall i :: |s.sessions| <= i < |s'.sessions| ==> s'.sessions[i].loop.Running?)
  }

  lemma {:induction false} ReleaseEnds(s: State, t: nat)
    requires t in s.submits
    ensures CloseCheckStep(s, t).Some? ==> EndsSo(s, CloseCheck(t), CloseCheckStep(s, t).value)
    ensures AwaitDoneStep(s, t).Some? ==> EndsSo(s, AwaitDone(t), AwaitDoneStep(s, t).value)
  {
  }

  lemma {:induction false} OfferEnds(cfg: Settings, s: State, t: nat)
    requires t in s.submits
    ensures CloseOfferStep(cfg, s, t).Some? ==> EndsSo(s, CloseOffer(t), CloseOfferStep(cfg, s, t).value)
    ensures CloseChannelStep(s, t).Some? ==> EndsSo(s, CloseChannel(t), CloseChannelStep(s, t).value)
  {
  }

  lemma {:induction false} SubmitterEnds(cfg: Settings, s: State, a: Action)
    requires !IsStop(a) && !IsLoop(a) && !a.Begin? && a.t in s.submits && SubmitterStep(cfg, s, a).Some?
    ensures EndsSo(s, a, SubmitterStep(cfg, s, a).value)
  {
    if IsClose(a) {
      ReleaseEnds(s, a.t);
      OfferEnds(cfg, s, a.t);
    }
  }

  lemma {:induction false} CloseForStopEnds(cfg: Settings, s: State, a: Action)
    requires IsStop(a) && (s.stop.StopChosen? || s.stop.StopOffered? || s.stop.StopWaiting?)
    requires CloseForStop(cfg, s, a).Some?
    ensures EndsSo(s, a, CloseForStop(cfg, s, a).value)
  {
  }

  lemma {:induction false} StepEnds(cfg: Settings, s: State, a: Action)
    requires Step(cfg, s, a).Some?
    ensures EndsSo(s, a, Step(cfg, s, a).value)
  {
    if IsStop(a) {
      if s.stop.StopChosen? || s.stop.StopOffered? || s.stop.StopWaiting? {
        CloseForStopEnds(cfg, s, a);
      }
    } else if !IsLoop(a) && !a.Begin? {
      SubmitterEnds(cfg, s, a);
    }
  }

  /** Every close first offers the close message, which goes in behind all payloads if there is room. */
  lemma {:induction false} CloseIsAnnounced(cfg: Settings, acts: seq<Action>, a: Action, sid: nat)
    requires Exec(cfg, acts).Some?
    requires var s := Exec(cfg, acts).value;
             || (a == StopOffers && s.stop.StopChosen? && s.stop.g in s.stop.left && s.stop.left[s.stop.g] == sid)
             || (a.CloseOffer? && a.t in s.submits && s.submits[a.t].at.ClosingOwn? && s.submits[a.t].at.ns == sid)
    ensures var s, r := Exec(cfg, acts).value, Exec(cfg, acts + [a]);
            && sid < |s.sessions| && r.Some? && sid < |r.value.sessions|
            && r.value.sessions[sid].channel
               == if |s.sessions[sid].channel| < cfg.buffer then s.sessions[sid].channel + [CloseMessage]
                  else s.sessions[sid].channel
  {
    Reachable(cfg, acts);
    var s := Exec(cfg, acts).value;
    assert (acts + [a])[..|acts|] == acts;
    if a == StopOffers {
      assert LeftOk(s, s.stop.g);
    } else {
      assert SubmitOk(s, a.t) && SessionOk(s, sid);
    }
  }
}
