/**
 Who is too late to replace a session that has ended.  A submitter that has passed the table by, or
 looked at an earlier session, dials, finds the table taken, and goes on with the session there
 without a look at its `doneCh`; if that one has ended, the payload goes where nobody sends it.
 */
module LateDials {
  import opened Common
  import opened StreamSessions
  import opened SessionService

  /** The table's session for the target the submitter is serving has ended. */
  ghost predicate TableEnded(s: State, t: nat) {
    && s.stop.NotStopping? && t in s.submits && s.submits[t].todo != []
    && s.submits[t].todo[0] in s.streams && s.streams[s.submits[t].todo[0]] < |s.sessions|
    && s.sessions[s.streams[s.submits[t].todo[0]]].loop.Done?
  }

  /** The steps of one submission on the way to one target, and those of send loops. */
  predicate OnTheWay(t: nat, a: Action) {
    || IsLoop(a)
    || a in {Lookup(t), CheckDone(t), Delete(t), OpenSucceeds(t), Publish(t)}
    || a in {CloseCheck(t), CloseOffer(t), CloseChannel(t), AwaitDone(t)}
  }

  predicate Directly(t: nat, acts: seq<Action>) { forall k :: 0 <= k < |acts| ==> OnTheWay(t, acts[k]) }

  /** The Enqueue that ends the run leaves the payload on a running session that is in the table. */
  ghost predicate Lands(cfg: Settings, run: seq<Action>, t: nat, n: nat, g: nat) {
    && Exec(cfg, run + [Enqueue(t)]).Some?
    && var s := Exec(cfg, run + [Enqueue(t)]).value;
    && g in s.streams && s.streams[g] < |s.sessions| && s.sessions[s.streams[g]].loop.Running?
    && Data(t, n) in s.sessions[s.streams[g]].channel
  }

  lemma {:induction false} HeldHasEnded(s: State, t: nat)
    requires Structure(s) && TableEnded(s, t) && HeldSession(s.submits[t].at).Some?
    ensures HeldSession(s.submits[t].at).value < |s.sessions|
    ensures s.sessions[HeldSession(s.submits[t].at).value].loop.Done?
  {
    assert SubmitOk(s, t);
    assert SessionOk(s, HeldSession(s.submits[t].at).value);
  }

  /** Still too late, with the same target and the same table. */
  ghost predicate StillLate(s: State, s': State, t: nat)
    requires t in s.submits && s.submits[t].todo != []
  {
    var g := s.submits[t].todo[0];
    && TableEnded(s', t) && !LooksAtTable(s', t) && s'.submits[t].todo == s.submits[t].todo
    && s'.submits[t].n == s.submits[t].n
    && g in s.streams && s'.streams[g] == s.streams[g]
  }

  lemma {:induction false} LoopStaysLate(s: State, a: Action, t: nat)
    requires TableEnded(s, t) && !LooksAtTable(s, t) && IsLoop(a) && LoopStep(s, a).Some?
    ensures StillLate(s, LoopStep(s, a).value, t)
  {
  }

  lemma {:induction false} ReleaseStaysLate(s: State, t: nat)
    requires TableEnded(s, t) && !LooksAtTable(s, t)
    ensures CloseCheckStep(s, t).Some? ==> StillLate(s, CloseCheckStep(s, t).value, t)
    ensures AwaitDoneStep(s, t).Some? ==> StillLate(s, AwaitDoneStep(s, t).value, t)
  {
  }

  lemma {:induction false} OfferStaysLate(cfg: Settings, s: State, t: nat)
    requires TableEnded(s, t) && !LooksAtTable(s, t)
    ensures CloseOfferStep(cfg, s, t).Some? ==> StillLate(s, CloseOfferStep(cfg, s, t).value, t)
    ensures CloseChannelStep(s, t).Some? ==> StillLate(s, CloseChannelStep(s, t).value, t)
  {
  }

  lemma {:induction false} DialStaysLate(cfg: Settings, s: State, a: Action, t: nat)
    requires TableEnded(s, t) && !LooksAtTable(s, t)
    requires a in {Lookup(t), CheckDone(t), Delete(t), OpenSucceeds(t), Publish(t)}
    requires Structure(s) && SubmitterStep(cfg, s, a).Some?
    ensures StillLate(s, SubmitterStep(cfg, s, a).value, t)
  {
    if HeldSession(s.submits[t].at).Some? {
      HeldHasEnded(s, t);
    }
  }

  lemma {:induction false} StepStaysLate(cfg: Settings, s: State, a: Action, t: nat)
    requires TableEnded(s, t) && !LooksAtTable(s, t) && OnTheWay(t, a)
    requires Structure(s) && Step(cfg, s, a).Some?
    ensures StillLate(s, Step(cfg, s, a).value, t)
  {
    if IsLoop(a) {
      LoopStaysLate(s, a, t);
    } else if IsClose(a) {
      ReleaseStaysLate(s, t);
      OfferStaysLate(cfg, s, t);
    } else {
      DialStaysLate(cfg, s, a, t);
    }
  }

  lemma {:induction false} RunStaysLate(cfg: Settings, acts: seq<Action>, more: seq<Action>, t: nat)
    requires Exec(cfg, acts).Some? && TableEnded(Exec(cfg, acts).value, t) && !LooksAtTable(Exec(cfg, acts).value, t)
    requires Directly(t, more) && Exec(cfg, acts + more).Some?
    ensures StillLate(Exec(cfg, acts).value, Exec(cfg, acts + more).value, t)
    decreases |more|
  {
    if more == [] {
      assert acts + more == acts;
    } else {
      var front, a := more[..|more| - 1], more[|more| - 1];
      assert (acts + more)[..|acts + more| - 1] == acts + front;
      RunStaysLate(cfg, acts, front, t);
      Reachable(cfg, acts + front);
      StepStaysLate(cfg, Exec(cfg, acts + front).value, a, t);
    }
  }

  lemma {:induction false} EnqueueKeepsTable(cfg: Settings, s: State, t: nat, g: nat)
    requires t in s.submits && EnqueueStep(cfg, s, t).Some? && g in s.streams && s.streams[g] < |s.sessions|
    ensures var s' := EnqueueStep(cfg, s, t).value;
            && s'.streams == s.streams && |s'.sessions| == |s.sessions|
            && s'.sessions[s.streams[g]].loop == s.sessions[s.streams[g]].loop
  {
  }

  lemma {:induction false} Snoc(cfg: Settings, run: seq<Action>, a: Action)
    ensures Exec(cfg, run + [a]) == if Exec(cfg, run).None? then None else Step(cfg, Exec(cfg, run).value, a)
  {
    assert (run + [a])[..|run|] == run;
  }

  lemma {:induction false} EnqueuesLate(cfg: Settings, run: seq<Action>, s: State, s1: State, t: nat)
    requires Exec(cfg, run) == Some(s1) && t in s.submits && s.submits[t].todo != [] && StillLate(s, s1, t)
    ensures !Lands(cfg, run, t, s.submits[t].n, s.submits[t].todo[0])
  {
    Snoc(cfg, run, Enqueue(t));
    if EnqueueStep(cfg, s1, t).Some? {
      EnqueueKeepsTable(cfg, s1, t, s.submits[t].todo[0]);
    }
  }

  lemma {:induction false} LateMisses(cfg: Settings, acts: seq<Action>, more: seq<Action>, t: nat)
    requires Exec(cfg, acts).Some? && TableEnded(Exec(cfg, acts).value, t) && !LooksAtTable(Exec(cfg, acts).value, t)
    requires Directly(t, more)
    ensures var u := Exec(cfg, acts).value.submits[t];
            !Lands(cfg, acts + more, t, u.n, u.todo[0])
  {
    if Exec(cfg, acts + more).Some? {
      RunStaysLate(cfg, acts, more, t);
      EnqueuesLate(cfg, acts + more, Exec(cfg, acts).value, Exec(cfg, acts + more).value, t);
    } else {
      Snoc(cfg, acts + more, Enqueue(t));
    }
  }

  /** What a replacement leaves behind is where a payload should be. */
  lemma {:induction false} ReplacedHolds(s: State, t: nat)
    requires t in s.submits && s.submits[t].todo != []
    ensures var g, s' := s.submits[t].todo[0], Replaced(s, t);
            && g in s'.streams && s'.streams[g] < |s'.sessions| && s'.sessions[s'.streams[g]].loop.Running?
            && Data(t, s.submits[t].n) in s'.sessions[s'.streams[g]].channel
  {
    assert Replaced(s, t).sessions[|s.sessions|].channel[0] == Data(t, s.submits[t].n);
  }

  lemma {:induction false} LookerLands(cfg: Settings, acts: seq<Action>, t: nat) returns (more: seq<Action>)
    requires Exec(cfg, acts).Some? && TableEnded(Exec(cfg, acts).value, t) && LooksAtTable(Exec(cfg, acts).value, t)
    requires cfg.buffer > 0
    ensures Directly(t, more)
    ensures var u := Exec(cfg, acts).value.submits[t];
            Lands(cfg, acts + more, t, u.n, u.todo[0])
  {
    var all := EndedSessionReplaced(cfg, acts, Exec(cfg, acts).value, t);
    more := all[..|all| - 1];
    assert acts + more + [Enqueue(t)] == acts + all;
    ReplacedHolds(Exec(cfg, acts).value, t);
  }

  /**
   Exactly who gets a payload past an ended session.  From every reachable state in which Stop is
   not at work and the table's session has ended, a submitter can reach an Enqueue on a running
   session of the table, by its own steps with dials that succeed and those of send loops, if and
   only if it is about to look its target up or stands before that very session.
   */
  lemma {:induction false} ReplacedIffLooking(cfg: Settings, acts: seq<Action>, t: nat)
    requires Exec(cfg, acts).Some? && TableEnded(Exec(cfg, acts).value, t) && cfg.buffer > 0
    ensures var s := Exec(cfg, acts).value;
            (exists more :: Directly(t, more) && Lands(cfg, acts + more, t, s.submits[t].n, s.submits[t].todo[0]))
            <==> LooksAtTable(s, t)
  {
    var s := Exec(cfg, acts).value;
    if LooksAtTable(s, t) {
      var more := LookerLands(cfg, acts, t);
    } else {
      forall more | Directly(t, more)
        ensures !Lands(cfg, acts + more, t, s.submits[t].n, s.submits[t].todo[0])
      {
        LateMisses(cfg, acts, more, t);
      }
    }
  }

  // ---------- it happens ----------

  /** Submitters 0 and 1 both find no session for the first target. */
  lemma {:induction false} BothMiss(cfg: Settings) returns (acts: seq<Action>, s: State)
    requires cfg.targets != []
    ensures Exec(cfg, acts) == Some(s) && s.stop.NotStopping? && s.streams == map[] && s.sessions == []
    ensures 0 in s.submits && 1 in s.submits
    ensures s.submits[0] == Submit(1, cfg.targets, Opening) && s.submits[1] == Submit(2, cfg.targets, Opening)
  {
    var s1 := BeginStep(cfg, INITIAL, 0).value;
    Extend(cfg, [], INITIAL, Begin(0), s1);
    var s2 := BeginStep(cfg, s1, 1).value;
    Extend(cfg, [] + [Begin(0)], s1, Begin(1), s2);
    var s3 := LookupStep(s2, 0).value;
    Extend(cfg, [] + [Begin(0)] + [Begin(1)], s2, Lookup(0), s3);
    s := LookupStep(s3, 1).value;
    acts := [] + [Begin(0)] + [Begin(1)] + [Lookup(0)];
    Extend(cfg, acts, s3, Lookup(1), s);
    acts := acts + [Lookup(1)];
  }

  /** Submitter 0 opens one and uses it, its first send fails, and its loop ends. */
  lemma {:induction false} ServesAndEnds(cfg: Settings, acts: seq<Action>, s: State)
    returns (run: seq<Action>, s': State)
    requires Exec(cfg, acts) == Some(s) && cfg.buffer > 0 && cfg.targets != []
    requires s.stop.NotStopping? && s.streams == map[] && s.sessions == [] && 0 in s.submits && 1 in s.submits
    requires s.submits[0] == Submit(1, cfg.targets, Opening) && s.submits[1] == Submit(2, cfg.targets, Opening)
    ensures Exec(cfg, run) == Some(s') && TableEnded(s', 1) && s'.submits[1] == s.submits[1]
  {
    DialsAndServes(cfg, acts, s, 0);
    run := acts + [OpenSucceeds(0)] + [Publish(0)] + [Enqueue(0)];
    var s1 := Replaced(s, 0);
    var s2 := LoopStep(s1, SendFails(0)).value;
    Extend(cfg, run, s1, SendFails(0), s2);
    s' := LoopStep(s2, DoneCloses(0)).value;
    Extend(cfg, run + [SendFails(0)], s2, DoneCloses(0), s');
    run := run + [SendFails(0)] + [DoneCloses(0)];
  }

  /** Two submitters suffice: one dials late. */
  lemma {:induction false} LateDialHappens(cfg: Settings) returns (acts: seq<Action>)
    requires cfg.buffer > 0 && cfg.targets != []
    ensures Exec(cfg, acts).Some? && TableEnded(Exec(cfg, acts).value, 1) && !LooksAtTable(Exec(cfg, acts).value, 1)
  {
    var front, s := BothMiss(cfg);
    var s';
    acts, s' := ServesAndEnds(cfg, front, s);
  }
}
