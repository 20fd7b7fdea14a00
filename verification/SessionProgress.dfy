/** What can always happen next: a Stop that has begun can be brought to its end, a send can go
    through or fail, an ended loop closes its `doneCh`, and a waiting submitter can give up. */
module SessionProgress {
  import opened Common
  import opened StreamSessions

  /** Steps of Stop itself and of send loops on which no send fails. */
  predicate StopOrLoop(acts: seq<Action>) {
    forall k :: 0 <= k < |acts| ==> IsStop(acts[k]) || Loops(acts[k])
  }

  // ---------- Stop can return ----------

  /** Stop awaits a session only after closing its channel. */
  lemma {:induction false} AwaitsClosed(cfg: Settings, acts: seq<Action>)
    requires Exec(cfg, acts).Some?
    ensures Awaiting(Exec(cfg, acts).value)
    decreases |acts|
  {
    if acts != [] {
      var front, a := acts[..|acts| - 1], acts[|acts| - 1];
      AwaitsClosed(cfg, front);
      Reachable(cfg, front);
      StepAwaits(cfg, Exec(cfg, front).value, a);
    }
  }

  ghost predicate Awaiting(s: State) {
    s.stop.StopWaiting? && s.stop.g in s.stop.left && s.stop.left[s.stop.g] < |s.sessions| ==>
      s.sessions[s.stop.left[s.stop.g]].closed
  }

  lemma {:induction false} StepAwaits(cfg: Settings, s: State, a: Action)
    requires Structure(s) && Awaiting(s) && Step(cfg, s, a).Some?
    ensures Awaiting(Step(cfg, s, a).value)
  {
    if IsStop(a) {
      StopAwaits(cfg, s, a);
    } else if IsLoop(a) {
      LoopAwaits(s, a);
    } else if a.Begin? {
      assert s.stop.NotStopping?;
    } else {
      assert s.stop.NotStopping? && a.t in s.submits;
      SubmitterLeavesStop(cfg, s, a);
    }
  }

  lemma {:induction false} StopAwaits(cfg: Settings, s: State, a: Action)
    requires Structure(s) && Awaiting(s) && IsStop(a) && StopStep(cfg, s, a).Some?
    ensures Awaiting(StopStep(cfg, s, a).value)
  {
    if s.stop.StopChosen? || s.stop.StopOffered? || s.stop.StopWaiting? {
      assert LeftOk(s, s.stop.g);
      assert a.StopOffers? || a.StopCloses? || a.StopMovesOn?;
    }
  }

  lemma {:induction false} LoopAwaits(s: State, a: Action)
    requires Awaiting(s) && IsLoop(a) && LoopStep(s, a).Some?
    ensures Awaiting(LoopStep(s, a).value)
  {
    assert LoopStep(s, a).value.stop == s.stop;
  }

  lemma {:induction false} SubmitterLeavesStop(cfg: Settings, s: State, a: Action)
    requires !IsStop(a) && !IsLoop(a) && !a.Begin? && a.t in s.submits && SubmitterStep(cfg, s, a).Some?
    ensures SubmitterStep(cfg, s, a).value.stop == s.stop
  {
  }

  /** Where a Stop stands, by what it still has to do: four steps for each session left. */
  function Ahead(stop: Stop): int {
    match stop
    case NotStopping => 0
    case StopNext(left) => 4 * |left| + 1
    case StopChosen(_, left) => 4 * |left|
    case StopOffered(_, left) => 4 * |left| - 1
    case StopWaiting(_, left) => 4 * |left| - 2
  }

  lemma {:induction false} Without(left: map<nat, nat>, g: nat)
    requires g in left
    ensures |left - {g}| == |left| - 1
  {
    var rest := left - {g};
    assert left == rest[g := left[g]];
    assert left.Keys == rest.Keys + {g};
    assert |left.Keys| == |left| && |rest.Keys| == |rest|;
  }

  lemma {:induction false} Then(cfg: Settings, acts: seq<Action>, s: State, a: Action, s': State)
    requires Reaches(cfg, acts, s) && Step(cfg, s, a) == Some(s')
    ensures Reaches(cfg, acts + [a], s')
  {
    Extend(cfg, acts, s, a, s');
  }

  /** Stop turns to the next session, or returns. */
  lemma {:induction false} TurnsToNext(cfg: Settings, acts: seq<Action>, s: State) returns (a: Action, s': State)
    requires Reaches(cfg, acts, s) && Structure(s) && s.stop.StopNext?
    ensures IsStop(a) && Reaches(cfg, acts + [a], s') && Ahead(s'.stop) < Ahead(s.stop)
  {
    if s.stop.left == map[] {
      a := StopReturns;
    } else {
      var g :| g in s.stop.left;
      a := StopChooses(g);
      assert LeftOk(s, g);
      Without(s.stop.left, g);
    }
    s' := StopStep(cfg, s, a).value;
    Then(cfg, acts, s, a, s');
  }

  /** Stop offers the close message, and then closes. */
  lemma {:induction false} ClosesChosen(cfg: Settings, acts: seq<Action>, s: State) returns (a: Action, s': State)
    requires Reaches(cfg, acts, s) && Structure(s) && (s.stop.StopChosen? || s.stop.StopOffered?)
    ensures IsStop(a) && Reaches(cfg, acts + [a], s') && Ahead(s'.stop) < Ahead(s.stop)
  {
    assert LeftOk(s, s.stop.g);
    a := if s.stop.StopChosen? then StopOffers else StopCloses;
    s' := StopStep(cfg, s, a).value;
    Then(cfg, acts, s, a, s');
  }

  /** The closed session runs to its end, and Stop moves on. */
  lemma {:induction false} AwaitsEnd(cfg: Settings, acts: seq<Action>, s: State)
    returns (more: seq<Action>, s': State)
    requires Reaches(cfg, acts, s) && Structure(s) && Awaiting(s) && s.stop.StopWaiting?
    ensures StopOrLoop(more) && Reaches(cfg, acts + more, s') && Ahead(s'.stop) < Ahead(s.stop)
  {
    var g, left := s.stop.g, s.stop.left;
    assert LeftOk(s, g);
    var drain, s1 := DrainSession(cfg, acts, s, left[g]);
    s' := s1.(stop := StopNext(left - {g}));
    Then(cfg, acts + drain, s1, StopMovesOn, s');
    Without(left, g);
    more := drain + [StopMovesOn];
    assert acts + drain + [StopMovesOn] == acts + more;
  }

  lemma {:induction false} Continues(cfg: Settings, acts: seq<Action>, s: State)
    requires Reaches(cfg, acts, s)
    ensures Exec(cfg, acts) == Some(s) && Structure(s) && Awaiting(s)
  {
    Reachable(cfg, acts);
    AwaitsClosed(cfg, acts);
  }

  lemma {:induction false} StopGoesOn(cfg: Settings, acts: seq<Action>, s: State)
    returns (more: seq<Action>, s': State)
    requires Reaches(cfg, acts, s) && !s.stop.NotStopping?
    ensures StopOrLoop(more) && Reaches(cfg, acts + more, s') && Ahead(s'.stop) < Ahead(s.stop)
  {
    Continues(cfg, acts, s);
    if s.stop.StopWaiting? {
      more, s' := AwaitsEnd(cfg, acts, s);
    } else {
      var a;
      if s.stop.StopNext? {
        a, s' := TurnsToNext(cfg, acts, s);
      } else {
        a, s' := ClosesChosen(cfg, acts, s);
      }
      more := [a];
    }
  }

  lemma {:induction false} StopRuns(cfg: Settings, acts: seq<Action>, s: State)
    returns (more: seq<Action>, s': State)
    requires Reaches(cfg, acts, s) && !s.stop.NotStopping?
    ensures StopOrLoop(more) && Reaches(cfg, acts + more, s') && s'.stop.NotStopping?
    decreases Ahead(s.stop) + 2
  {
    var first, s1 := StopGoesOn(cfg, acts, s);
    if s1.stop.NotStopping? {
      more, s' := first, s1;
    } else {
      var rest;
      rest, s' := StopRuns(cfg, acts + first, s1);
      more := first + rest;
      assert acts + first + rest == acts + more;
    }
  }

  /** However far a Stop has come, it and the send loops alone can bring it to its return, without
      a failed send. */
  lemma {:induction false} StopCanReturn(cfg: Settings, acts: seq<Action>)
    returns (more: seq<Action>)
    requires Exec(cfg, acts).Some? && Exec(cfg, acts).value.stop != NotStopping
    ensures StopOrLoop(more) && Exec(cfg, acts + more).Some? && Exec(cfg, acts + more).value.stop == NotStopping
  {
    var s';
    more, s' := StopRuns(cfg, acts, Exec(cfg, acts).value);
  }

  /** A Stop can begin exactly if none is at work and no submission is under way; it takes over
      the whole table and leaves it empty. */
  lemma {:induction false} StopBeginsIff(cfg: Settings, acts: seq<Action>)
    requires Exec(cfg, acts).Some?
    ensures var s, r := Exec(cfg, acts).value, Exec(cfg, acts + [StopBegins]);
            && (r.Some? <==> s.stop == NotStopping && s.submits == map[])
            && (r.Some? ==> r.value == s.(stop := StopNext(s.streams), streams := map[]))
  {
    assert (acts + [StopBegins])[..|acts|] == acts;
  }

  /** Stop may turn to any session left, and passes over one that has already ended without
      touching it. */
  lemma {:induction false} AnyNextEndedPassedOver(cfg: Settings, acts: seq<Action>, g: nat)
    requires Exec(cfg, acts).Some?
    requires var s := Exec(cfg, acts).value; s.stop.StopNext? && g in s.stop.left
    ensures var s, r := Exec(cfg, acts).value, Exec(cfg, acts + [StopChooses(g)]);
            var sid := s.stop.left[g];
            && sid < |s.sessions|
            && r == Some(s.(stop := if s.sessions[sid].loop == Done then StopNext(s.stop.left - {g})
                                    else StopChosen(g, s.stop.left)))
  {
    Reachable(cfg, acts);
    assert LeftOk(Exec(cfg, acts).value, g);
    assert (acts + [StopChooses(g)])[..|acts|] == acts;
  }

  // ---------- sends ----------

  /** Whenever something waits on a running session, and only then, its send can go through and can
      fail.  Either takes it off the channel; the one puts a payload on the wire, the other ends
      the loop. */
  lemma {:induction false} SendsOrFails(cfg: Settings, acts: seq<Action>, i: nat)
    requires Exec(cfg, acts).Some? && i < |Exec(cfg, acts).value.sessions|
    ensures var s := Exec(cfg, acts).value;
            var x, sent, failed := s.sessions[i], Exec(cfg, acts + [Transmit(i)]), Exec(cfg, acts + [SendFails(i)]);
            && (sent.Some? <==> x.loop == Running && x.channel != [])
            && (failed.Some? <==> x.loop == Running && x.channel != [])
            && (sent.Some? ==>
                  && sent.value.sessions == s.sessions[i := x.(channel := x.channel[1..])]
                  && (x.channel[0] == CloseMessage ==> sent.value.wire == s.wire)
                  && (forall t, n :: x.channel[0] == Data(t, n) ==>
                        sent.value.wire == s.wire + [Sent(i, x.target, t, n)]))
            && (failed.Some? ==>
                  && failed.value.wire == s.wire && |failed.value.sessions| == |s.sessions|
                  && failed.value.sessions[i].channel == x.channel[1..] && failed.value.sessions[i].loop == Ending
                  && failed.value.sessions[i].closed == x.closed)
  {
    assert (acts + [Transmit(i)])[..|acts|] == acts;
    assert (acts + [SendFails(i)])[..|acts|] == acts;
  }

  /** A running loop on a closed, empty channel can leave, and a loop that has left closes its
      `doneCh`; nothing else can do either. */
  lemma {:induction false} LoopEnds(cfg: Settings, acts: seq<Action>, i: nat)
    requires Exec(cfg, acts).Some? && i < |Exec(cfg, acts).value.sessions|
    ensures var s := Exec(cfg, acts).value;
            var x := s.sessions[i];
            var left, ended := Exec(cfg, acts + [ChannelDrained(i)]), Exec(cfg, acts + [DoneCloses(i)]);
            && left == (if x.loop == Running && x.channel == [] && x.closed then
                          Some(s.(sessions := s.sessions[i := x.(loop := Ending)])) else None)
            && ended == (if x.loop == Ending then Some(s.(sessions := s.sessions[i := x.(loop := Done)])) else None)
  {
    assert (acts + [ChannelDrained(i)])[..|acts|] == acts;
    assert (acts + [DoneCloses(i)])[..|acts|] == acts;
  }

  /** A submitter that holds a session may give up whether or not there is room, and leaves
      nothing behind. */
  lemma {:induction false} HolderCanGiveUp(cfg: Settings, acts: seq<Action>, t: nat)
    requires Exec(cfg, acts).Some?
    requires var s := Exec(cfg, acts).value; t in s.submits && s.submits[t].at.Holding?
    ensures var s := Exec(cfg, acts).value;
            Exec(cfg, acts + [Abort(t)]) == Some(s.(submits := s.submits - {t}))
  {
    assert (acts + [Abort(t)])[..|acts|] == acts;
  }
}
