/** Where the payloads go that submitters enqueue on a session of the forward relay. */
module SessionConservation {
  import opened Common
  import opened StreamSessions

  /** The payloads of a channel, without the close message. */
  function Payloads(channel: seq<Item>): seq<Item> {
    if channel == [] then []
    else
      var front, last := Payloads(channel[..|channel| - 1]), channel[|channel| - 1];
      if last.Data? then front + [last] else front
  }

  /** What session `i` transmitted, in order. */
  function OnWire(wire: seq<Sent>, i: nat): seq<Item> {
    if wire == [] then []
    else
      var front, last := OnWire(wire[..|wire| - 1], i), wire[|wire| - 1];
      if last.sid == i then front + [Data(last.t, last.n)] else front
  }

  lemma PayloadsSnoc(channel: seq<Item>, item: Item)
    ensures Payloads(channel + [item]) == Payloads(channel) + if item.Data? then [item] else []
  {
    assert (channel + [item])[..|channel|] == channel;
  }

  lemma {:induction false} PayloadsHead(channel: seq<Item>)
    requires channel != []
    ensures Payloads(channel) == (if channel[0].Data? then [channel[0]] else []) + Payloads(channel[1..])
    decreases |channel|
  {
    var front, last := channel[..|channel| - 1], channel[|channel| - 1];
    if |channel| > 1 {
      PayloadsHead(front);
      assert channel[1..] == front[1..] + [last];
      PayloadsSnoc(front[1..], last);
    }
  }

  lemma OnWireSnoc(wire: seq<Sent>, e: Sent, i: nat)
    ensures OnWire(wire + [e], i) == OnWire(wire, i) + if e.sid == i then [Data(e.t, e.n)] else []
  {
    assert (wire + [e])[..|wire|] == wire;
  }

  /** Everything enqueued on session `i`: transmitted, then taken by the failed send if there
      was one, then still in the channel. */
  ghost predicate Conserves(s: State, i: nat)
    requires i < |s.sessions|
  {
    var x := s.sessions[i];
    x.given == OnWire(s.wire, i) + x.lost + Payloads(x.channel) && (x.loop.Running? ==> x.lost == []) && |x.lost| <= 1
  }

  ghost predicate Conserved(s: State) {
    && (forall i :: 0 <= i < |s.sessions| ==> Conserves(s, i))
    && (forall i :: |s.sessions| <= i ==> OnWire(s.wire, i) == [])
  }

  lemma {:induction false} CloseMessagesStill(cfg: Settings, x: Session)
    ensures Payloads(CloseMessages(cfg, x)) == Payloads(x.channel)
  {
    PayloadsSnoc(x.channel, CloseMessage);
  }

  /** A step that enqueues nothing and runs no loop: channels at most gain a close message while open. */
  ghost predicate Tidy(cfg: Settings, s: State, s': State) {
    && s'.wire == s.wire && |s.sessions| <= |s'.sessions|
    && (forall i :: 0 <= i < |s.sessions| ==> TidySession(cfg, s.sessions[i], s'.sessions[i]))
    && (forall i :: |s.sessions| <= i < |s'.sessions| ==> NewSession(s'.sessions[i]))
  }

  ghost predicate TidySession(cfg: Settings, x: Session, y: Session) {
    && y.given == x.given && y.lost == x.lost && y.loop == x.loop && (x.closed ==> y.closed)
    && (y.channel == x.channel || (y.channel == CloseMessages(cfg, x) && !x.closed))
  }

  ghost predicate NewSession(x: Session) {
    x.given == [] && x.lost == [] && x.channel == [] && x.loop.Running?
  }

  lemma {:induction false} PublishTidy(cfg: Settings, s: State, t: nat)
    requires t in s.submits && PublishStep(s, t).Some?
    ensures Tidy(cfg, s, PublishStep(s, t).value)
  {
  }

  lemma {:induction false} OpenTidy(cfg: Settings, s: State, t: nat, ok: bool)
    requires t in s.submits && OpenStep(s, t, ok).Some?
    ensures Tidy(cfg, s, OpenStep(s, t, ok).value)
  {
  }

  lemma {:induction false} CloseTidy(cfg: Settings, s: State, t: nat)
    requires t in s.submits
    ensures CloseOfferStep(cfg, s, t).Some? ==> Tidy(cfg, s, CloseOfferStep(cfg, s, t).value)
    ensures CloseChannelStep(s, t).Some? ==> Tidy(cfg, s, CloseChannelStep(s, t).value)
  {
  }

  lemma {:induction false} ReleaseTidy(cfg: Settings, s: State, t: nat)
    requires t in s.submits
    ensures CloseCheckStep(s, t).Some? ==> Tidy(cfg, s, CloseCheckStep(s, t).value)
    ensures AwaitDoneStep(s, t).Some? ==> Tidy(cfg, s, AwaitDoneStep(s, t).value)
  {
  }

  /** A submitter's step other than an enqueue. */
  lemma {:induction false} SubmitterTidy(cfg: Settings, s: State, a: Action)
    requires !IsStop(a) && !IsLoop(a) && !a.Enqueue? && a.t in s.submits && SubmitterStep(cfg, s, a).Some?
    ensures Tidy(cfg, s, SubmitterStep(cfg, s, a).value)
  {
    if a.Publish? {
      PublishTidy(cfg, s, a.t);
    } else if a.OpenSucceeds? || a.OpenFails? {
      OpenTidy(cfg, s, a.t, a.OpenSucceeds?);
    } else if a.CloseOffer? || a.CloseChannel? {
      CloseTidy(cfg, s, a.t);
    } else if a.CloseCheck? || a.AwaitDone? {
      ReleaseTidy(cfg, s, a.t);
    } else {
      assert SubmitterStep(cfg, s, a).value.sessions == s.sessions;
    }
  }

  lemma {:induction false} StopTidy(cfg: Settings, s: State, a: Action)
    requires IsStop(a) && StopStep(cfg, s, a).Some?
    ensures Tidy(cfg, s, StopStep(cfg, s, a).value)
  {
    if s.stop.StopChosen? || s.stop.StopOffered? || s.stop.StopWaiting? {
      CloseForStopTidy(cfg, s, a);
    } else {
      assert StopStep(cfg, s, a).value.sessions == s.sessions;
    }
  }

  lemma {:induction false} CloseForStopTidy(cfg: Settings, s: State, a: Action)
    requires (s.stop.StopChosen? || s.stop.StopOffered? || s.stop.StopWaiting?) && CloseForStop(cfg, s, a).Some?
    ensures Tidy(cfg, s, CloseForStop(cfg, s, a).value)
  {
  }

  /** The steps of submitters and Stop, other than an enqueue. */
  lemma {:induction false} OtherTidy(cfg: Settings, s: State, a: Action)
    requires !IsLoop(a) && !a.Enqueue? && Step(cfg, s, a).Some?
    ensures Tidy(cfg, s, Step(cfg, s, a).value)
  {
    if IsStop(a) {
      StopTidy(cfg, s, a);
    } else if !a.Begin? {
      SubmitterTidy(cfg, s, a);
    }
  }

  lemma {:induction false} TidyConserves(cfg: Settings, s: State, s': State)
    requires Conserved(s) && Tidy(cfg, s, s')
    ensures Conserved(s')
  {
    forall i | 0 <= i < |s'.sessions|
      ensures Conserves(s', i)
    {
      if i < |s.sessions| {
        assert Conserves(s, i) && TidySession(cfg, s.sessions[i], s'.sessions[i]);
        CloseMessagesStill(cfg, s.sessions[i]);
      } else {
        assert NewSession(s'.sessions[i]);
      }
    }
  }

  lemma {:induction false} EnqueueConservesOwn(cfg: Settings, s: State, t: nat)
    requires t in s.submits && EnqueueStep(cfg, s, t).Some? && Conserves(s, s.submits[t].at.sid)
    ensures Conserves(EnqueueStep(cfg, s, t).value, s.submits[t].at.sid)
  {
    var sid, item := s.submits[t].at.sid, Data(t, s.submits[t].n);
    var x := s.sessions[sid];
    var wired, held := OnWire(s.wire, sid), Payloads(x.channel);
    PayloadsSnoc(x.channel, item);
    assert wired + x.lost + held + [item] == wired + x.lost + (held + [item]);
  }

  lemma {:induction false} EnqueueConserves(cfg: Settings, s: State, t: nat)
    requires Conserved(s) && t in s.submits && EnqueueStep(cfg, s, t).Some?
    ensures Conserved(EnqueueStep(cfg, s, t).value)
  {
    var s' := EnqueueStep(cfg, s, t).value;
    forall i | 0 <= i < |s'.sessions|
      ensures Conserves(s', i)
    {
      assert Conserves(s, i);
      if i == s.submits[t].at.sid {
        EnqueueConservesOwn(cfg, s, t);
      }
    }
  }

  /** The head of the channel goes out. */
  lemma {:induction false} TransmitConserves(s: State, i: nat)
    requires LoopStep(s, Transmit(i)).Some? && Conserves(s, i)
    ensures Conserves(LoopStep(s, Transmit(i)).value, i)
  {
    var x := s.sessions[i];
    var head, wired, held := x.channel[0], OnWire(s.wire, i), Payloads(x.channel[1..]);
    PayloadsHead(x.channel);
    if head.Data? {
      OnWireSnoc(s.wire, Sent(i, x.target, head.t, head.n), i);
      assert wired + [] + ([head] + held) == wired + [head] + [] + held;
    } else {
      assert [] + held == held;
    }
  }

  /** The head of the channel is lost. */
  lemma {:induction false} FailureConserves(s: State, i: nat)
    requires LoopStep(s, SendFails(i)).Some? && Conserves(s, i)
    ensures Conserves(LoopStep(s, SendFails(i)).value, i)
  {
    var x := s.sessions[i];
    var head, wired, held := x.channel[0], OnWire(s.wire, i), Payloads(x.channel[1..]);
    PayloadsHead(x.channel);
    if head.Data? {
      assert wired + [] + ([head] + held) == wired + [head] + held;
    } else {
      assert [] + held == held;
    }
  }

  /** One step of the send loop of session `i`, for session `i` itself. */
  lemma {:induction false} LoopConservesOwn(s: State, a: Action)
    requires IsLoop(a) && LoopStep(s, a).Some? && Conserves(s, a.i)
    ensures Conserves(LoopStep(s, a).value, a.i)
  {
    if a.Transmit? {
      TransmitConserves(s, a.i);
    } else if a.SendFails? {
      FailureConserves(s, a.i);
    }
  }

  lemma {:induction false} LoopElsewhere(s: State, a: Action, i: nat)
    requires IsLoop(a) && LoopStep(s, a).Some? && i != a.i
    ensures OnWire(LoopStep(s, a).value.wire, i) == OnWire(s.wire, i)
    ensures i < |s.sessions| ==> LoopStep(s, a).value.sessions[i] == s.sessions[i]
  {
    var x := s.sessions[a.i];
    if a.Transmit? && x.channel[0].Data? {
      OnWireSnoc(s.wire, Sent(a.i, x.target, x.channel[0].t, x.channel[0].n), i);
    }
  }

  lemma {:induction false} LoopConserves(s: State, a: Action)
    requires Conserved(s) && IsLoop(a) && LoopStep(s, a).Some?
    ensures Conserved(LoopStep(s, a).value)
  {
    var s' := LoopStep(s, a).value;
    forall i | 0 <= i < |s'.sessions|
      ensures Conserves(s', i)
    {
      assert Conserves(s, i);
      if i == a.i {
        LoopConservesOwn(s, a);
      } else {
        LoopElsewhere(s, a, i);
      }
    }
    forall i | |s'.sessions| <= i
      ensures OnWire(s'.wire, i) == []
    {
      LoopElsewhere(s, a, i);
    }
  }

  lemma {:induction false} StepConserves(cfg: Settings, s: State, a: Action)
    requires Conserved(s) && Step(cfg, s, a).Some?
    ensures Conserved(Step(cfg, s, a).value)
  {
    if IsLoop(a) {
      LoopConserves(s, a);
    } else if a.Enqueue? {
      EnqueueConserves(cfg, s, a.t);
    } else {
      OtherTidy(cfg, s, a);
      TidyConserves(cfg, s, Step(cfg, s, a).value);
    }
  }

  /**
   In every interleaving, what was enqueued on a session is, in order: what the session
   transmitted, at most one payload that a failed send took, and what is still in its
   channel.  Nothing is lost, repeated or reordered in any other way.
   */
  lemma {:induction false} PayloadsConserved(cfg: Settings, acts: seq<Action>)
    requires Exec(cfg, acts).Some?
    ensures Conserved(Exec(cfg, acts).value)
    decreases |acts|
  {
    if acts != [] {
      PayloadsConserved(cfg, acts[..|acts| - 1]);
      StepConserves(cfg, Exec(cfg, acts[..|acts| - 1]).value, acts[|acts| - 1]);
    }
  }

  // ---------- runs without a failed send ----------

  ghost predicate NoFailure(acts: seq<Action>) {
    forall k :: 0 <= k < |acts| ==> !acts[k].SendFails?
  }

  /** A loop ends only after its closed channel has drained. */
  ghost predicate Drained(s: State) {
    forall i :: 0 <= i < |s.sessions| ==> DrainedSession(s.sessions[i])
  }

  ghost predicate DrainedSession(x: Session) {
    x.lost == [] && (x.loop.Running? || (x.closed && x.channel == []))
  }

  lemma {:induction false} TidyDrained(cfg: Settings, s: State, s': State)
    requires Drained(s) && Tidy(cfg, s, s')
    ensures Drained(s')
  {
    forall i | 0 <= i < |s'.sessions|
      ensures DrainedSession(s'.sessions[i])
    {
      if i < |s.sessions| {
        assert DrainedSession(s.sessions[i]) && TidySession(cfg, s.sessions[i], s'.sessions[i]);
      } else {
        assert NewSession(s'.sessions[i]);
      }
    }
  }

  /** A submitter enqueues on an open channel only. */
  lemma {:induction false} EnqueueDrained(cfg: Settings, s: State, t: nat)
    requires Structure(s) && Drained(s) && t in s.submits && EnqueueStep(cfg, s, t).Some?
    ensures Drained(EnqueueStep(cfg, s, t).value)
  {
    var s' := EnqueueStep(cfg, s, t).value;
    assert SubmitOk(s, t);
    forall i | 0 <= i < |s'.sessions|
      ensures DrainedSession(s'.sessions[i])
    {
      assert DrainedSession(s.sessions[i]);
    }
  }

  lemma {:induction false} LoopDrains(s: State, a: Action)
    requires Drained(s) && IsLoop(a) && !a.SendFails? && LoopStep(s, a).Some?
    ensures Drained(LoopStep(s, a).value)
  {
    var s' := LoopStep(s, a).value;
    forall i | 0 <= i < |s'.sessions|
      ensures DrainedSession(s'.sessions[i])
    {
      assert DrainedSession(s.sessions[i]);
    }
  }

  lemma {:induction false} ReachableDrained(cfg: Settings, acts: seq<Action>)
    requires Exec(cfg, acts).Some? && NoFailure(acts)
    ensures Drained(Exec(cfg, acts).value)
    decreases |acts|
  {
    if acts != [] {
      var front, a := acts[..|acts| - 1], acts[|acts| - 1];
      var s := Exec(cfg, front).value;
      ReachableDrained(cfg, front);
      Reachable(cfg, front);
      if IsLoop(a) {
        LoopDrains(s, a);
      } else if a.Enqueue? {
        EnqueueDrained(cfg, s, a.t);
      } else {
        OtherTidy(cfg, s, a);
        TidyDrained(cfg, s, Exec(cfg, acts).value);
      }
    }
  }

  /**
   If no send fails, then when Stop returns every session has transmitted exactly what was
   enqueued on it, each payload once and in order.
   */
  lemma {:induction false} StopFlushesAll(cfg: Settings, acts: seq<Action>)
    requires Exec(cfg, acts).Some? && NoFailure(acts) && Step(cfg, Exec(cfg, acts).value, StopReturns).Some?
    ensures var s := Step(cfg, Exec(cfg, acts).value, StopReturns).value;
            forall i :: 0 <= i < |s.sessions| ==> OnWire(s.wire, i) == s.sessions[i].given
  {
    StopEndsAll(cfg, acts);
    ReachableDrained(cfg, acts);
    PayloadsConserved(cfg, acts);
    var s := Exec(cfg, acts).value;
    forall i | 0 <= i < |s.sessions|
      ensures OnWire(s.wire, i) == s.sessions[i].given
    {
      assert DrainedSession(s.sessions[i]) && Conserves(s, i);
    }
  }
}
