/** The two receiving loops compared, and the QUIC loop's authentication gate. */
module ReceiverEquivalence {
  import opened Common
  import opened RelayMessages
  import opened AckLoop
  import Grpc = GrpcReceiver
  import Quic = QuicReceiver

  /** A trace without the header checks, which only the QUIC loop performs. */
  function Visible<T>(trace: seq<Note<T>>): seq<Note<T>> {
    if trace == [] then []
    else
      var front := Visible(trace[..|trace| - 1]);
      var last := trace[|trace| - 1];
      if last.Checked? then front else front + [last]
  }

  lemma VisibleSnoc<T>(trace: seq<Note<T>>, n: Note<T>)
    ensures Visible(trace + [n]) == Visible(trace) + if n.Checked? then [] else [n]
  {
    assert (trace + [n])[..|trace|] == trace;
  }

  /** Equal but for header checks, and for a stale `ackEveryN` outside batch mode. */
  ghost predicate Alike<T(!new)>(c: Conn<T>, d: Conn<T>) {
    && c.trace == Visible(d.trace)
    && c.(trace := [], ackEveryN := 0) == d.(trace := [], ackEveryN := 0)
    && (c.ackMode == Batch ==> c.ackEveryN == d.ackEveryN)
  }

  /** Authentication is optional, or there is nothing to check. */
  predicate NeverRefuses(policy: Quic.Policy) {
    !policy.authRequired || (policy.dynamicValidator.None? && policy.staticHeaders == [])
  }

  ghost predicate SendsSucceed<T(!new)>(cfg: Config<T>) {
    forall k: nat :: cfg.sendOk(k)
  }

  lemma NoteAlike<T(!new)>(c: Conn<T>, d: Conn<T>, n: Note<T>)
    requires Alike(c, d)
    ensures Alike(c.(trace := c.trace + if n.Checked? then [] else [n]), d.(trace := d.trace + [n]))
  {
    VisibleSnoc(d.trace, n);
  }

  lemma SendAlike<T(!new)>(c: Conn<T>, d: Conn<T>, ack: Ack)
    requires Alike(c, d)
    ensures Alike(Send(c, ack), Send(d, ack))
  {
    VisibleSnoc(d.trace, Sent(ack));
  }

  lemma FlushAlike<T(!new)>(c: Conn<T>, d: Conn<T>, message: string)
    requires Alike(c, d)
    ensures Alike(Flush(c, message), Flush(d, message))
  {
    SendAlike(c, d, BatchAck(c, message));
  }

  lemma TallyAlike<T(!new)>(c: Conn<T>, d: Conn<T>, ok: bool)
    requires Alike(c, d) && c.ackMode == Batch
    ensures Alike(Tally(c, ok), Tally(d, ok))
  {
    var c' := (if ok then c.(batchOK := Inc32(c.batchOK)) else c.(batchErr := Inc32(c.batchErr)))
              .(batchSeen := Inc64(c.batchSeen));
    var d' := (if ok then d.(batchOK := Inc32(d.batchOK)) else d.(batchErr := Inc32(d.batchErr)))
              .(batchSeen := Inc64(d.batchSeen));
    FlushAlike(c', d', "Batch ack");
  }

  /** The parameters of an Open leave the loops alike. */
  lemma {:induction false} ReparamAlike<T(!new)>(c: Conn<T>, d: Conn<T>, env: Envelope)
    requires Alike(c, d) && env.Open?
    ensures var mode := ModeAfter(c.ackMode, env.ackMode);
            Alike(c.(streamId := env.streamId, defaults := env.defaults, ackMode := mode,
                     ackEveryN := if mode == Batch then BatchSize(env.ackEveryN) else 0,
                     trace := c.trace + [Opened]),
                  Quic.Reparam(d, env))
  {
    NoteAlike(c, d, Opened);
  }

  /** A header check that does not refuse the stream leaves the loops alike. */
  lemma {:induction false} CheckAlike<T(!new)>(policy: Quic.Policy, c: Conn<T>, g: Quic.Gate<T>, meta: Option<Metadata>)
    requires Alike(c, g.conn)
    ensures var q := Quic.CheckOpen(policy, g, meta);
            q.exit == Some(AuthFailed) || (q.exit.None? && Alike(c, q.gate.conn))
  {
    NoteAlike(c, g.conn, Checked(Quic.MetadataHeaders(meta), g.asked));
    assert c.trace + [] == c.trace;
  }

  lemma {:induction false} AdmitAlike<T(!new)>(
    policy: Quic.Policy, c: Conn<T>, g: Quic.Gate<T>, p: WrappedPayload, meta: Option<Metadata>)
    requires Alike(c, g.conn)
    ensures var q := Quic.Admit(policy, g, p, meta);
            q.exit == Some(AuthFailed) || (q.exit.None? && Alike(c, q.gate.conn))
  {
    NoteAlike(c, g.conn, Checked(Quic.MetadataHeaders(meta), g.asked));
    assert c.trace + [] == c.trace;
  }

  lemma {:induction false} OpenSimulates<T(!new)>(
    cfg: Config<T>, policy: Quic.Policy, c: Conn<T>, g: Quic.Gate<T>, env: Envelope)
    requires SendsSucceed(cfg) && Alike(c, g.conn) && env.Open?
    ensures var o, q := Grpc.OnOpen(cfg, c, env), Quic.OnOpen(cfg, policy, g, env);
            q.exit == Some(AuthFailed) || (o.exit == q.exit && Alike(o.conn, q.gate.conn))
  {
    var mode := ModeAfter(c.ackMode, env.ackMode);
    var c1 := c.(streamId := env.streamId, defaults := env.defaults, ackMode := mode,
                 ackEveryN := if mode == Batch then BatchSize(env.ackEveryN) else 0,
                 trace := c.trace + [Opened]);
    ReparamAlike(c, g.conn, env);
    var h := g.(conn := Quic.Reparam(g.conn, env));
    CheckAlike(policy, c1, h, env.defaults);
    var q := Quic.CheckOpen(policy, h, env.defaults);
    if q.exit.None? {
      SendAlike(c1, q.gate.conn, OpenAck(env.streamId));
    }
  }

  lemma SettleSimulates<T(!new)>(cfg: Config<T>, c: Conn<T>, d: Conn<T>, p: WrappedPayload)
    requires !cfg.grpcWeb && SendsSucceed(cfg) && Alike(c, d)
    ensures var o, q := Grpc.OnPayload(cfg, c, p),
                        Quic.Settle(cfg, d, p, if p.metadata.Some? then p.metadata else d.defaults);
            o.exit == q.exit && Alike(o.conn, q.conn)
  {
    var meta := if p.metadata.Some? then p.metadata else c.defaults;
    var c1, d1 := c.(lastSeq := p.seqNo), d.(lastSeq := p.seqNo);
    assert Alike(c1, d1);
    var r := Decode(cfg, Rebuilt(p, meta));
    var n := if r.Ok? then Delivered(r.value, c.ackMode == Batch) else Failed(c.ackMode == Batch);
    NoteAlike(c1, d1, n);
    var c2, d2 := c1.(trace := c1.trace + [n]), d1.(trace := d1.trace + [n]);
    if c.ackMode == Batch {
      TallyAlike(c2, d2, r.Ok?);
    } else if c.ackMode == PerMessage {
      SendAlike(c2, d2, if r.Ok? then OkAck(c2, p) else ErrorAck(c2, p, FailureText(cfg.passthrough, r.error), 1));
    }
  }

  /** One envelope keeps the loops alike, unless the QUIC loop refuses the stream. */
  lemma StepSimulates<T(!new)>(cfg: Config<T>, policy: Quic.Policy, c: Conn<T>, g: Quic.Gate<T>, r: Recv)
    requires !cfg.grpcWeb && SendsSucceed(cfg) && Alike(c, g.conn) && !r.RecvError?
    ensures var o, q := Grpc.Step(cfg, c, r), Quic.Step(cfg, policy, g, r);
            q.exit == Some(AuthFailed) || (o.exit == q.exit && Alike(o.conn, q.gate.conn))
  {
    match r
    case EndOfStream => FlushAlike(c, g.conn, "EOF");
    case Message(env) =>
      match env
      case Open(_, _, _, _) => OpenSimulates(cfg, policy, c, g, env);
      case Close(_) => FlushAlike(c, g.conn, "Stream closed");
      case NoMessage =>
      case Payload(p) =>
        var meta := if p.metadata.Some? then p.metadata else g.conn.defaults;
        AdmitAlike(policy, c, g, p, meta);
        var a := Quic.Admit(policy, g, p, meta);
        if a.exit.None? {
          SettleSimulates(cfg, c, a.gate.conn, p);
        }
  }

  lemma {:induction false} StepNeverRefuses<T>(cfg: Config<T>, policy: Quic.Policy, g: Quic.Gate<T>, r: Recv)
    requires NeverRefuses(policy)
    ensures Quic.Step(cfg, policy, g, r).exit != Some(AuthFailed)
  {
  }

  lemma {:induction false} RunNeverRefuses<T>(cfg: Config<T>, policy: Quic.Policy, g: Quic.Gate<T>, input: seq<Recv>)
    requires NeverRefuses(policy)
    ensures Quic.Run(cfg, policy, g, input).1 != AuthFailed
    decreases |input|
  {
    if input != [] {
      StepNeverRefuses(cfg, policy, g, input[0]);
      var q := Quic.Step(cfg, policy, g, input[0]);
      if q.exit.None? {
        RunNeverRefuses(cfg, policy, q.gate, input[1..]);
      }
    }
  }

  /** Whatever the policy, the loops stay alike until the QUIC loop refuses the stream. */
  lemma {:induction false} RunSimulates<T(!new)>(
    cfg: Config<T>, policy: Quic.Policy, c: Conn<T>, g: Quic.Gate<T>, input: seq<Recv>)
    requires !cfg.grpcWeb && SendsSucceed(cfg) && Alike(c, g.conn)
    requires forall i :: 0 <= i < |input| ==> !input[i].RecvError?
    ensures var (c', x), (g', y) := Grpc.Run(cfg, c, input), Quic.Run(cfg, policy, g, input);
            y == AuthFailed || (x == y && Alike(c', g'.conn))
    decreases |input|
  {
    if input != [] {
      StepSimulates(cfg, policy, c, g, input[0]);
      var o, q := Grpc.Step(cfg, c, input[0]), Quic.Step(cfg, policy, g, input[0]);
      if q.exit.None? {
        RunSimulates(cfg, policy, o.conn, q.gate, input[1..]);
      }
    }
  }

  lemma ItemsVisible<T>(trace: seq<Note<T>>)
    ensures Items(Visible(trace)) == Items(trace)
  {
    if trace != [] {
      var front, last := trace[..|trace| - 1], trace[|trace| - 1];
      ItemsVisible(front);
      var v := Visible(front) + [last];
      assert v[..|v| - 1] == Visible(front);
    }
  }

  /** Trace equivalence: same acknowledgements, deliveries and failures in the same order, same exit. */
  lemma ReceiversEquivalent<T(!new)>(cfg: Config<T>, policy: Quic.Policy, input: seq<Recv>)
    requires !cfg.grpcWeb && NeverRefuses(policy) && SendsSucceed(cfg)
    requires forall i :: 0 <= i < |input| ==> !input[i].RecvError?
    ensures var (c, x), (g, y) := Grpc.Run(cfg, Start(), input), Quic.Run(cfg, policy, Quic.Begin(), input);
            && x == y
            && c.trace == Visible(g.conn.trace)
            && Items(c.trace) == Items(g.conn.trace)
            && c.batchOK == g.conn.batchOK && c.batchErr == g.conn.batchErr
  {
    RunSimulates(cfg, policy, Start(), Quic.Begin(), input);
    RunNeverRefuses(cfg, policy, Quic.Begin(), input);
    ItemsVisible(Quic.Run(cfg, policy, Quic.Begin(), input).0.conn.trace);
  }

  // ---------- the authentication gate ----------

  ghost predicate Passed<T>(policy: Quic.Policy, n: Note<T>) {
    n.Checked? && Quic.Satisfies(policy, n.asked, n.headers)
  }

  /** Headers that satisfy the policy were checked before position `i`, with no Open in between. */
  ghost predicate Guarded<T>(policy: Quic.Policy, trace: seq<Note<T>>, i: nat)
    requires i <= |trace|
  {
    exists j :: 0 <= j < i && Passed(policy, trace[j]) && forall k :: j < k < i ==> !trace[k].Opened?
  }

  ghost predicate DeliveriesGuarded<T>(policy: Quic.Policy, trace: seq<Note<T>>) {
    forall i :: 0 <= i < |trace| && trace[i].Delivered? ==> Guarded(policy, trace, i)
  }

  ghost predicate GateInvariant<T>(policy: Quic.Policy, g: Quic.Gate<T>) {
    && DeliveriesGuarded(policy, g.conn.trace)
    && (g.validated ==> Guarded(policy, g.conn.trace, |g.conn.trace|))
  }

  /** Appending notes that are not Opens keeps earlier guards; a delivery needs the guard itself. */
  lemma GuardsExtend<T>(policy: Quic.Policy, t: seq<Note<T>>, n: Note<T>)
    requires DeliveriesGuarded(policy, t)
    requires n.Delivered? ==> Guarded(policy, t, |t|)
    ensures DeliveriesGuarded(policy, t + [n])
    ensures !n.Opened? && Guarded(policy, t, |t|) ==> Guarded(policy, t + [n], |t| + 1)
    ensures Passed(policy, n) ==> Guarded(policy, t + [n], |t| + 1)
  {
    var u := t + [n];
    forall i | 0 <= i <= |t| && Guarded(policy, t, i)
      ensures Guarded(policy, u, i)
    {
      var j :| 0 <= j < i && Passed(policy, t[j]) && forall k :: j < k < i ==> !t[k].Opened?;
      assert Passed(policy, u[j]);
      forall k | j < k < i
        ensures !u[k].Opened?
      {
        assert u[k] == t[k];
      }
    }
    if Guarded(policy, u, |t|) && !n.Opened? {
      var j :| 0 <= j < |t| && Passed(policy, u[j]) && forall k :: j < k < |t| ==> !u[k].Opened?;
      assert forall k :: j < k < |t| + 1 ==> !u[k].Opened?;
    }
    if Passed(policy, n) {
      assert Passed(policy, u[|t|]);
    }
  }

  lemma FlushGuarded<T>(policy: Quic.Policy, c: Conn<T>, message: string)
    requires DeliveriesGuarded(policy, c.trace)
    ensures DeliveriesGuarded(policy, Flush(c, message).trace)
    ensures Guarded(policy, c.trace, |c.trace|) ==> Guarded(policy, Flush(c, message).trace, |Flush(c, message).trace|)
  {
    GuardsExtend(policy, c.trace, Sent(BatchAck(c, message)));
  }

  lemma TallyGuarded<T>(policy: Quic.Policy, c: Conn<T>, ok: bool)
    requires DeliveriesGuarded(policy, c.trace)
    ensures DeliveriesGuarded(policy, Tally(c, ok).trace)
    ensures Guarded(policy, c.trace, |c.trace|) ==> Guarded(policy, Tally(c, ok).trace, |Tally(c, ok).trace|)
  {
    var d := (if ok then c.(batchOK := Inc32(c.batchOK)) else c.(batchErr := Inc32(c.batchErr)))
             .(batchSeen := Inc64(c.batchSeen));
    FlushGuarded(policy, d, "Batch ack");
  }

  lemma SettleGuarded<T>(policy: Quic.Policy, cfg: Config<T>, c: Conn<T>, p: WrappedPayload, meta: Option<Metadata>)
    requires DeliveriesGuarded(policy, c.trace) && Guarded(policy, c.trace, |c.trace|)
    ensures var t := Quic.Settle(cfg, c, p, meta).conn.trace;
            DeliveriesGuarded(policy, t) && Guarded(policy, t, |t|)
  {
    var r := Decode(cfg, Rebuilt(p, meta));
    var n := if r.Ok? then Delivered(r.value, c.ackMode == Batch) else Failed(c.ackMode == Batch);
    GuardsExtend(policy, c.trace, n);
    var d := c.(lastSeq := p.seqNo, trace := c.trace + [n]);
    TallyGuarded(policy, d, r.Ok?);
    var ack := if r.Ok? then OkAck(d, p) else ErrorAck(d, p, FailureText(cfg.passthrough, r.error), 1);
    GuardsExtend(policy, d.trace, Sent(ack));
  }

  lemma OpenGuarded<T>(cfg: Config<T>, policy: Quic.Policy, g: Quic.Gate<T>, env: Envelope)
    requires policy.authRequired && GateInvariant(policy, g) && env.Open?
    ensures var o := Quic.OnOpen(cfg, policy, g, env);
            DeliveriesGuarded(policy, o.gate.conn.trace) && (o.exit.None? ==> GateInvariant(policy, o.gate))
  {
    var t := g.conn.trace + [Opened];
    GuardsExtend(policy, g.conn.trace, Opened);
    var md := Quic.MetadataHeaders(env.defaults);
    Quic.ValidateMeaning(policy, g.asked, md);
    GuardsExtend(policy, t, Checked(md, g.asked));
    GuardsExtend(policy, t + [Checked(md, g.asked)], Sent(OpenAck(env.streamId)));
    GuardsExtend(policy, t, Sent(OpenAck(env.streamId)));
    var v := Quic.Validate(policy, g.asked, md).0;
    if v.Rejected? {
      GuardsExtend(policy, t, Sent(Quic.OpenRefusal(env.streamId, v)));
    }
  }

  lemma StepGuarded<T>(cfg: Config<T>, policy: Quic.Policy, g: Quic.Gate<T>, r: Recv)
    requires policy.authRequired && GateInvariant(policy, g)
    ensures var o := Quic.Step(cfg, policy, g, r);
            DeliveriesGuarded(policy, o.gate.conn.trace) && (o.exit.None? ==> GateInvariant(policy, o.gate))
  {
    match r
    case EndOfStream => FlushGuarded(policy, g.conn, "EOF");
    case RecvError(_) => FlushGuarded(policy, g.conn, "recv error");
    case Message(env) =>
      match env
      case Open(_, _, _, _) => OpenGuarded(cfg, policy, g, env);
      case Close(_) => FlushGuarded(policy, g.conn, "Stream closed");
      case NoMessage =>
      case Payload(p) =>
        var meta := if p.metadata.Some? then p.metadata else g.conn.defaults;
        var a := Quic.Admit(policy, g, p, meta);
        Quic.ValidateMeaning(policy, g.asked, Quic.MetadataHeaders(meta));
        GuardsExtend(policy, g.conn.trace, Checked(Quic.MetadataHeaders(meta), g.asked));
        if a.exit.None? {
          SettleGuarded(policy, cfg, a.gate.conn, p, meta);
        } else {
          var v := Quic.Validate(policy, g.asked, Quic.MetadataHeaders(meta)).0;
          GuardsExtend(policy, g.conn.trace, Sent(ErrorAck(g.conn, p, "auth failed: " + Quic.ErrorText(v), 401)));
        }
  }

  lemma {:induction false} RunGuarded<T>(cfg: Config<T>, policy: Quic.Policy, g: Quic.Gate<T>, input: seq<Recv>)
    requires policy.authRequired && GateInvariant(policy, g)
    ensures DeliveriesGuarded(policy, Quic.Run(cfg, policy, g, input).0.conn.trace)
    decreases |input|
  {
    if input != [] {
      StepGuarded(cfg, policy, g, input[0]);
      var o := Quic.Step(cfg, policy, g, input[0]);
      if o.exit.None? {
        RunGuarded(cfg, policy, o.gate, input[1..]);
      }
    }
  }

  /** With authentication required, no item reaches the data channel without a
      successful header check since the latest Open. */
  lemma OnlyValidatedItems<T>(cfg: Config<T>, policy: Quic.Policy, input: seq<Recv>)
    requires policy.authRequired
    ensures DeliveriesGuarded(policy, Quic.Run(cfg, policy, Quic.Begin(), input).0.conn.trace)
  {
    RunGuarded(cfg, policy, Quic.Begin(), input);
  }
}
