/** Which failed sends end a receiving loop, and that nothing else is sent after one. */
module SendFailures {
  import opened Common
  import opened RelayMessages
  import opened AckLoop
  import Grpc = GrpcReceiver
  import Quic = QuicReceiver

  /** How many sends a trace holds. */
  function Sends<T>(trace: seq<Note<T>>): nat {
    if trace == [] then 0 else Sends(trace[..|trace| - 1]) + if trace[|trace| - 1].Sent? then 1 else 0
  }

  /** The acknowledgements that must go out: on gRPC every one but the batch reports, on QUIC
      only the positive ones among those. */
  predicate Vital(quic: bool, a: Ack) { a.okCount == 0 && a.errCount == 0 && (quic ==> a.success) }

  /** Every vital send went out. */
  predicate Through<T>(cfg: Config<T>, quic: bool, trace: seq<Note<T>>) {
    if trace == [] then true
    else
      var front, last := trace[..|trace| - 1], trace[|trace| - 1];
      Through(cfg, quic, front) && (last.Sent? && Vital(quic, last.ack) ==> cfg.sendOk(Sends(front)))
  }

  /** The last entry is the first vital send that failed. */
  predicate Broke<T>(cfg: Config<T>, quic: bool, trace: seq<Note<T>>) {
    && trace != [] && Through(cfg, quic, trace[..|trace| - 1])
    && trace[|trace| - 1].Sent? && Vital(quic, trace[|trace| - 1].ack) && !cfg.sendOk(Sends(trace[..|trace| - 1]))
  }

  ghost predicate Fine<T>(cfg: Config<T>, quic: bool, c: Conn<T>) {
    c.sent == Sends(c.trace) && Through(cfg, quic, c.trace)
  }

  lemma {:induction false} NoteFine<T>(cfg: Config<T>, quic: bool, c: Conn<T>, n: Note<T>)
    requires Fine(cfg, quic, c) && !n.Sent?
    ensures Fine(cfg, quic, c.(trace := c.trace + [n]))
  {
    assert (c.trace + [n])[..|c.trace|] == c.trace;
  }

  /** A send leaves things fine, or is the one that breaks the stream. */
  lemma {:induction false} SendFine<T>(cfg: Config<T>, quic: bool, c: Conn<T>, a: Ack)
    requires Fine(cfg, quic, c)
    ensures if Vital(quic, a) && !cfg.sendOk(c.sent) then Broke(cfg, quic, Send(c, a).trace)
            else Fine(cfg, quic, Send(c, a))
  {
    assert (c.trace + [Sent(a)])[..|c.trace|] == c.trace;
  }

  lemma {:induction false} FlushFine<T>(cfg: Config<T>, quic: bool, c: Conn<T>, message: string)
    requires Fine(cfg, quic, c)
    ensures Fine(cfg, quic, Flush(c, message))
  {
    SendFine(cfg, quic, c, BatchAck(c, message));
  }

  lemma {:induction false} TallyFine<T>(cfg: Config<T>, quic: bool, c: Conn<T>, ok: bool)
    requires Fine(cfg, quic, c)
    ensures Fine(cfg, quic, Tally(c, ok))
  {
    var d := (if ok then c.(batchOK := Inc32(c.batchOK)) else c.(batchErr := Inc32(c.batchErr)))
             .(batchSeen := Inc64(c.batchSeen));
    FlushFine(cfg, quic, d, "Batch ack");
  }

  /** A step goes on in good order, or leaves; it leaves with `SendFailed` exactly if a vital send failed. */
  ghost predicate Leaves<T>(cfg: Config<T>, quic: bool, c: Conn<T>, exit: Option<Exit>) {
    if exit == Some(SendFailed) then Broke(cfg, quic, c.trace) else Fine(cfg, quic, c)
  }

  lemma {:induction false} GrpcOpenLeaves<T>(cfg: Config<T>, c: Conn<T>, env: Envelope)
    requires Fine(cfg, false, c) && env.Open?
    ensures var o := Grpc.OnOpen(cfg, c, env);
            Leaves(cfg, false, o.conn, o.exit)
  {
    NoteFine(cfg, false, c, Opened);
    var mode := ModeAfter(c.ackMode, env.ackMode);
    var d := c.(streamId := env.streamId, defaults := env.defaults, ackMode := mode,
                ackEveryN := if mode == Batch then BatchSize(env.ackEveryN) else 0,
                trace := c.trace + [Opened]);
    assert Fine(cfg, false, d);
    SendFine(cfg, false, d, OpenAck(d.streamId));
  }

  lemma {:induction false} GrpcPayloadLeaves<T>(cfg: Config<T>, c: Conn<T>, p: WrappedPayload)
    requires Fine(cfg, false, c)
    ensures var o := Grpc.OnPayload(cfg, c, p);
            Leaves(cfg, false, o.conn, o.exit)
  {
    var (meta, defaults) := Grpc.WebDefaults(cfg.grpcWeb, p, c.defaults);
    var r := Decode(cfg, Rebuilt(p, meta));
    var n := if r.Ok? then Note.Delivered(r.value, c.ackMode == Batch) else Failed(c.ackMode == Batch);
    NoteFine(cfg, false, c, n);
    var e := c.(defaults := defaults, lastSeq := p.seqNo, trace := c.trace + [n]);
    assert Fine(cfg, false, e);
    TallyFine(cfg, false, e, r.Ok?);
    SendFine(cfg, false, e,
             if r.Ok? then OkAck(e, p) else ErrorAck(e, p, FailureText(cfg.passthrough, r.error), 1));
  }

  lemma {:induction false} GrpcRunLeaves<T>(cfg: Config<T>, c: Conn<T>, input: seq<Recv>)
    requires Fine(cfg, false, c)
    ensures var (d, exit) := Grpc.Run(cfg, c, input);
            Leaves(cfg, false, d, Some(exit))
    decreases |input|
  {
    if input != [] {
      FlushFine(cfg, false, c, "EOF");
      FlushFine(cfg, false, c, "context done");
      FlushFine(cfg, false, c, "Stream closed");
      if input[0].Message? && input[0].env.Open? {
        GrpcOpenLeaves(cfg, c, input[0].env);
      } else if input[0].Message? && input[0].env.Payload? {
        GrpcPayloadLeaves(cfg, c, input[0].env.wrapped);
      }
      var o := Grpc.Step(cfg, c, input[0]);
      if o.exit.None? {
        GrpcRunLeaves(cfg, o.conn, input[1..]);
      }
    }
  }

  /**
   The gRPC loop leaves with a send failure if and only if sending the acknowledgement of an
   Open or of a payload failed, at once and with that as its last act; failed batch reports
   are ignored.
   */
  lemma {:induction false} GrpcSendFailedIff<T>(cfg: Config<T>, input: seq<Recv>)
    ensures var (c, exit) := Grpc.Run(cfg, Start(), input);
            && (exit == SendFailed <==> !Through(cfg, false, c.trace))
            && (exit == SendFailed ==> Broke(cfg, false, c.trace))
  {
    GrpcRunLeaves(cfg, Start(), input);
  }

  lemma {:induction false} CheckOpenFine<T>(
    cfg: Config<T>, policy: Quic.Policy, g: Quic.Gate<T>, meta: Option<Metadata>)
    requires Fine(cfg, true, g.conn)
    ensures Fine(cfg, true, Quic.CheckOpen(policy, g, meta).gate.conn)
  {
    var (verdict, asked) := Quic.Validate(policy, g.asked, Quic.MetadataHeaders(meta));
    NoteFine(cfg, true, g.conn, Checked(Quic.MetadataHeaders(meta), g.asked));
    if !verdict.Valid? {
      SendFine(cfg, true, g.conn, Quic.OpenRefusal(g.conn.streamId, verdict));
    }
  }

  lemma {:induction false} QuicOpenLeaves<T>(cfg: Config<T>, policy: Quic.Policy, g: Quic.Gate<T>, env: Envelope)
    requires Fine(cfg, true, g.conn) && env.Open?
    ensures var o := Quic.OnOpen(cfg, policy, g, env);
            Leaves(cfg, true, o.gate.conn, o.exit)
  {
    NoteFine(cfg, true, g.conn, Opened);
    var h := g.(conn := Quic.Reparam(g.conn, env));
    assert Fine(cfg, true, h.conn);
    CheckOpenFine(cfg, policy, h, env.defaults);
    var a := Quic.CheckOpen(policy, h, env.defaults);
    SendFine(cfg, true, a.gate.conn, OpenAck(a.gate.conn.streamId));
  }

  lemma {:induction false} AdmitFine<T>(
    cfg: Config<T>, policy: Quic.Policy, g: Quic.Gate<T>, p: WrappedPayload, meta: Option<Metadata>)
    requires Fine(cfg, true, g.conn)
    ensures Fine(cfg, true, Quic.Admit(policy, g, p, meta).gate.conn)
  {
    var (verdict, asked) := Quic.Validate(policy, g.asked, Quic.MetadataHeaders(meta));
    NoteFine(cfg, true, g.conn, Checked(Quic.MetadataHeaders(meta), g.asked));
    if !verdict.Valid? {
      SendFine(cfg, true, g.conn, ErrorAck(g.conn, p, "auth failed: " + Quic.ErrorText(verdict), 401));
    }
  }

  lemma {:induction false} SettleLeaves<T>(cfg: Config<T>, c: Conn<T>, p: WrappedPayload, meta: Option<Metadata>)
    requires Fine(cfg, true, c)
    ensures var o := Quic.Settle(cfg, c, p, meta);
            Leaves(cfg, true, o.conn, o.exit)
  {
    var r := Decode(cfg, Rebuilt(p, meta));
    var n := if r.Ok? then Note.Delivered(r.value, c.ackMode == Batch) else Failed(c.ackMode == Batch);
    NoteFine(cfg, true, c, n);
    var e := c.(lastSeq := p.seqNo, trace := c.trace + [n]);
    assert Fine(cfg, true, e);
    TallyFine(cfg, true, e, r.Ok?);
    SendFine(cfg, true, e,
             if r.Ok? then OkAck(e, p) else ErrorAck(e, p, FailureText(cfg.passthrough, r.error), 1));
  }

  lemma {:induction false} QuicPayloadLeaves<T>(
    cfg: Config<T>, policy: Quic.Policy, g: Quic.Gate<T>, p: WrappedPayload)
    requires Fine(cfg, true, g.conn)
    ensures var o := Quic.OnPayload(cfg, policy, g, p);
            Leaves(cfg, true, o.gate.conn, o.exit)
  {
    var meta := if p.metadata.Some? then p.metadata else g.conn.defaults;
    AdmitFine(cfg, policy, g, p, meta);
    var a := Quic.Admit(policy, g, p, meta);
    SettleLeaves(cfg, a.gate.conn, p, meta);
  }

  lemma {:induction false} QuicRunLeaves<T>(cfg: Config<T>, policy: Quic.Policy, g: Quic.Gate<T>, input: seq<Recv>)
    requires Fine(cfg, true, g.conn)
    ensures var (h, exit) := Quic.Run(cfg, policy, g, input);
            Leaves(cfg, true, h.conn, Some(exit))
    decreases |input|
  {
    if input != [] {
      FlushFine(cfg, true, g.conn, "EOF");
      FlushFine(cfg, true, g.conn, "recv error");
      FlushFine(cfg, true, g.conn, "Stream closed");
      if input[0].Message? && input[0].env.Open? {
        QuicOpenLeaves(cfg, policy, g, input[0].env);
      } else if input[0].Message? && input[0].env.Payload? {
        QuicPayloadLeaves(cfg, policy, g, input[0].env.wrapped);
      }
      var o := Quic.Step(cfg, policy, g, input[0]);
      if o.exit.None? {
        QuicRunLeaves(cfg, policy, o.gate, input[1..]);
      }
    }
  }

  /** The same for the QUIC loop, under any policy, except that failed negative acknowledgements
      are ignored as well. */
  lemma {:induction false} QuicSendFailedIff<T>(cfg: Config<T>, policy: Quic.Policy, input: seq<Recv>)
    ensures var (g, exit) := Quic.Run(cfg, policy, Quic.Begin(), input);
            && (exit == SendFailed <==> !Through(cfg, true, g.conn.trace))
            && (exit == SendFailed ==> Broke(cfg, true, g.conn.trace))
  {
    QuicRunLeaves(cfg, policy, Quic.Begin(), input);
  }
}
