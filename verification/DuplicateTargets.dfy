/** A target listed twice gets one sequence number twice: the order of `StreamSessions` needs distinct targets. */
module DuplicateTargets {
  import opened Common
  import opened StreamSessions

  /** Submitter 0, alone, on its first submission. */
  function Alone(s: State, todo: seq<nat>, at: At): State {
    s.(submits := map[0 := Submit(1, todo, at)])
  }

  lemma Moves(s: State, todo: seq<nat>, at: At, at': At)
    ensures MoveTo(Alone(s, todo, at), 0, at') == Alone(s, todo, at')
    ensures todo != [] ==> NextTarget(Alone(s, todo, at), 0) == Alone(s, todo[1..], Choosing)
  {
  }

  /** A target that has no session and cannot be dialled is skipped. */
  lemma {:induction false} SkipTarget(cfg: Settings, acts: seq<Action>, s: State, todo: seq<nat>)
    requires Exec(cfg, acts) == Some(Alone(s, todo, Choosing)) && todo != [] && todo[0] !in s.streams
    ensures Exec(cfg, acts + [Lookup(0)] + [OpenFails(0)]) == Some(Alone(s, todo[1..], Choosing))
  {
    Moves(s, todo, Choosing, Opening);
    Extend(cfg, acts, Alone(s, todo, Choosing), Lookup(0), Alone(s, todo, Opening));
    Moves(s, todo, Opening, Choosing);
    Extend(cfg, acts + [Lookup(0)], Alone(s, todo, Opening), OpenFails(0), Alone(s, todo[1..], Choosing));
  }

  lemma {:induction false} SkipTargets(cfg: Settings, acts: seq<Action>, s: State, todo: seq<nat>, m: nat)
    returns (more: seq<Action>)
    requires Exec(cfg, acts) == Some(Alone(s, todo, Choosing))
    requires m <= |todo| && forall k :: 0 <= k < m ==> todo[k] !in s.streams
    ensures Exec(cfg, more) == Some(Alone(s, todo[m..], Choosing))
    decreases m
  {
    if m == 0 {
      more := acts;
      assert todo[0..] == todo;
    } else {
      SkipTarget(cfg, acts, s, todo);
      more := SkipTargets(cfg, acts + [Lookup(0)] + [OpenFails(0)], s, todo[1..], m - 1);
      assert todo[1..][m - 1..] == todo[m..];
    }
  }

  const ITEM := Data(0, 1)

  /** One published session, for `g`, with `channel` waiting out of all it was `given`. */
  function Serving(g: nat, channel: seq<Item>, given: seq<Item>, wire: seq<Sent>, last: map<(nat, nat), nat>): State {
    State(map[g := 0], [Session(g, channel, false, Running, true, None, given, [])],
          map[], 1, NotStopping, false, wire, last)
  }

  const FRESH := INITIAL.(issued := 1)

  /** What holds once submitter 0 has transmitted `wire` to `g`. */
  function Served(g: nat, given: seq<Item>, wire: seq<Sent>): State {
    Serving(g, [], given, wire, map[(0, g) := 0])
  }

  lemma {:induction false} EnqueueAlone(
    cfg: Settings, todo: seq<nat>, given: seq<Item>, wire: seq<Sent>, last: map<(nat, nat), nat>)
    requires cfg.buffer > 0 && todo != []
    ensures EnqueueStep(cfg, Alone(Serving(todo[0], [], given, wire, last), todo, Holding(0)), 0)
            == Some(Alone(Serving(todo[0], [ITEM], given + [ITEM], wire, last[(0, todo[0]) := 0]), todo[1..], Choosing))
  {
    var s0 := Alone(Serving(todo[0], [], given, wire, last), todo, Holding(0));
    var x := s0.sessions[0];
    var y := x.(channel := [ITEM], given := given + [ITEM]);
    assert x.channel + [ITEM] == [ITEM];
    assert s0.sessions[0 := y] == [y];
    assert s0.submits[0 := Submit(1, todo[1..], Choosing)] == map[0 := Submit(1, todo[1..], Choosing)];
  }

  lemma {:induction false} TransmitAlone(g: nat, todo: seq<nat>, given: seq<Item>, wire: seq<Sent>)
    ensures LoopStep(Alone(Serving(g, [ITEM], given, wire, map[(0, g) := 0]), todo, Choosing), Transmit(0))
            == Some(Alone(Served(g, given, wire + [Sent(0, g, 0, 1)]), todo, Choosing))
  {
    var x := Session(g, [ITEM], false, Running, true, None, given, []);
    assert x.channel[1..] == [];
    assert [x][0 := x.(channel := [])] == [x.(channel := [])];
  }

  lemma {:induction false} OpenAlone(todo: seq<nat>)
    requires todo != []
    ensures OpenStep(Alone(FRESH, todo, Opening), 0, true) == Some(Alone(Own(todo[0]), todo, Opened(0)))
    ensures PublishStep(Alone(Own(todo[0]), todo, Opened(0)), 0)
            == Some(Alone(Serving(todo[0], [], [], [], map[]), todo, Holding(0)))
  {
    var own, open := Own(todo[0]), Serving(todo[0], [], [], [], map[]);
    Moves(own, todo, Opening, Opened(0));
    Moves(open, todo, Opened(0), Holding(0));
    assert FRESH.sessions + own.sessions == own.sessions;
    assert own.streams[todo[0] := 0] == open.streams;
    assert own.sessions[0 := open.sessions[0]] == open.sessions;
  }

  /** One session for `g`, not yet in the table. */
  function Own(g: nat): State {
    FRESH.(sessions := [Session(g, [], false, Running, false, Some(0), [], [])])
  }

  /** Enqueue on the session in hand, and transmit. */
  lemma {:induction false} Deliver(
    cfg: Settings, acts: seq<Action>, todo: seq<nat>, given: seq<Item>, wire: seq<Sent>, last: map<(nat, nat), nat>)
    requires cfg.buffer > 0 && todo != [] && last[(0, todo[0]) := 0] == map[(0, todo[0]) := 0]
    requires Exec(cfg, acts) == Some(Alone(Serving(todo[0], [], given, wire, last), todo, Holding(0)))
    ensures Exec(cfg, acts + [Enqueue(0)] + [Transmit(0)])
            == Some(Alone(Served(todo[0], given + [ITEM], wire + [Sent(0, todo[0], 0, 1)]), todo[1..], Choosing))
  {
    var g := todo[0];
    var s0 := Alone(Serving(g, [], given, wire, last), todo, Holding(0));
    var s1 := Alone(Serving(g, [ITEM], given + [ITEM], wire, map[(0, g) := 0]), todo[1..], Choosing);
    var s2 := Alone(Served(g, given + [ITEM], wire + [Sent(0, g, 0, 1)]), todo[1..], Choosing);
    EnqueueAlone(cfg, todo, given, wire, last);
    Extend(cfg, acts, s0, Enqueue(0), s1);
    TransmitAlone(g, todo[1..], given + [ITEM], wire);
    Extend(cfg, acts + [Enqueue(0)], s1, Transmit(0), s2);
  }

  lemma {:induction false} LookupFresh(cfg: Settings, acts: seq<Action>, todo: seq<nat>)
    requires todo != [] && Exec(cfg, acts) == Some(Alone(FRESH, todo, Choosing))
    ensures Exec(cfg, acts + [Lookup(0)]) == Some(Alone(FRESH, todo, Opening))
  {
    Moves(FRESH, todo, Choosing, Opening);
    Extend(cfg, acts, Alone(FRESH, todo, Choosing), Lookup(0), Alone(FRESH, todo, Opening));
  }

  /** The first time: dial and publish. */
  lemma {:induction false} DialFirst(cfg: Settings, acts: seq<Action>, todo: seq<nat>)
    requires todo != [] && Exec(cfg, acts) == Some(Alone(FRESH, todo, Opening))
    ensures Exec(cfg, acts + [OpenSucceeds(0)]) == Some(Alone(Own(todo[0]), todo, Opened(0)))
  {
    OpenAlone(todo);
    Extend(cfg, acts, Alone(FRESH, todo, Opening), OpenSucceeds(0), Alone(Own(todo[0]), todo, Opened(0)));
  }

  lemma {:induction false} PublishFirst(cfg: Settings, acts: seq<Action>, todo: seq<nat>)
    requires todo != [] && Exec(cfg, acts) == Some(Alone(Own(todo[0]), todo, Opened(0)))
    ensures Exec(cfg, acts + [Publish(0)]) == Some(Alone(Serving(todo[0], [], [], [], map[]), todo, Holding(0)))
  {
    OpenAlone(todo);
    var holding := Alone(Serving(todo[0], [], [], [], map[]), todo, Holding(0));
    Extend(cfg, acts, Alone(Own(todo[0]), todo, Opened(0)), Publish(0), holding);
  }

  lemma {:induction false} ServeFirst(cfg: Settings, acts: seq<Action>, todo: seq<nat>) returns (more: seq<Action>)
    requires cfg.buffer > 0 && todo != [] && Exec(cfg, acts) == Some(Alone(FRESH, todo, Choosing))
    ensures Exec(cfg, more) == Some(Alone(Served(todo[0], [ITEM], [Sent(0, todo[0], 0, 1)]), todo[1..], Choosing))
  {
    LookupFresh(cfg, acts, todo);
    DialFirst(cfg, acts + [Lookup(0)], todo);
    more := acts + [Lookup(0)] + [OpenSucceeds(0)];
    PublishFirst(cfg, more, todo);
    more := more + [Publish(0)];
    Deliver(cfg, more, todo, [], [], map[]);
    more := more + [Enqueue(0)] + [Transmit(0)];
    assert [] + [ITEM] == [ITEM] && [] + [Sent(0, todo[0], 0, 1)] == [Sent(0, todo[0], 0, 1)];
  }

  /** The second time: find the session again. */
  lemma {:induction false} ServeAgain(
    cfg: Settings, acts: seq<Action>, todo: seq<nat>, given: seq<Item>, wire: seq<Sent>)
    returns (more: seq<Action>)
    requires cfg.buffer > 0 && todo != []
    requires Exec(cfg, acts) == Some(Alone(Served(todo[0], given, wire), todo, Choosing))
    ensures Exec(cfg, more)
            == Some(Alone(Served(todo[0], given + [ITEM], wire + [Sent(0, todo[0], 0, 1)]), todo[1..], Choosing))
  {
    var s := Served(todo[0], given, wire);
    Moves(s, todo, Choosing, Found(0));
    Extend(cfg, acts, Alone(s, todo, Choosing), Lookup(0), Alone(s, todo, Found(0)));
    more := acts + [Lookup(0)];
    Moves(s, todo, Found(0), Holding(0));
    Extend(cfg, more, Alone(s, todo, Found(0)), CheckDone(0), Alone(s, todo, Holding(0)));
    more := more + [CheckDone(0)];
    Deliver(cfg, more, todo, given, wire, s.last);
    more := more + [Enqueue(0)] + [Transmit(0)];
  }

  /** The earliest repetition: between the two places the target does not occur. */
  lemma {:induction false} ClosestPair(xs: seq<nat>, i: nat, j: nat) returns (a: nat, b: nat)
    requires i < j < |xs| && xs[i] == xs[j]
    ensures a < b < |xs| && xs[a] == xs[b] && forall k :: a < k < b ==> xs[k] != xs[a]
    decreases j - i
  {
    a, b := i, j;
    if k :| i < k < j && xs[k] == xs[i] {
      a, b := ClosestPair(xs, i, k);
    }
  }

  /**
   Whenever the target list repeats a target there is a run, without a single send failure,
   that transmits the same number twice to it: distinct targets are needed for
   `SequenceNumbersIncrease`, which shows that they suffice.
   */
  lemma {:induction false} RepeatedTargetRepeatsNumbers(cfg: Settings) returns (acts: seq<Action>, g: nat)
    requires cfg.buffer > 0 && !Distinct(cfg.targets)
    ensures Exec(cfg, acts).Some?
    ensures Exec(cfg, acts).value.wire == [Sent(0, g, 0, 1), Sent(0, g, 0, 1)]
  {
    var i, j :| 0 <= i < j < |cfg.targets| && cfg.targets[i] == cfg.targets[j];
    var a, b := ClosestPair(cfg.targets, i, j);
    g := cfg.targets[a];
    var first := Alone(FRESH, cfg.targets, Choosing);
    assert BeginStep(cfg, INITIAL, 0).value.submits == first.submits;
    Extend(cfg, [], INITIAL, Begin(0), first);
    acts := SkipTargets(cfg, [] + [Begin(0)], FRESH, cfg.targets, a);
    var todo := cfg.targets[a..];
    acts := ServeFirst(cfg, acts, todo);
    acts := SkipTargets(cfg, acts, Served(g, [ITEM], [Sent(0, g, 0, 1)]), todo[1..], b - a - 1);
    acts := ServeAgain(cfg, acts, todo[1..][b - a - 1..], [ITEM], [Sent(0, g, 0, 1)]);
  }
}
