/** Conservation without remainder, from a bound on the input alone. */
module AckExactness {
  import opened Common
  import opened RelayMessages
  import opened AckLoop
  import opened AckAccounting
  import Grpc = GrpcReceiver
  import Quic = QuicReceiver

  predicate CarriesPayload(r: Recv) { r.Message? && r.env.Payload? }

  /** The payload envelopes of an input. */
  function PayloadCount(input: seq<Recv>): nat {
    if input == [] then 0 else (if CarriesPayload(input[0]) then 1 else 0) + PayloadCount(input[1..])
  }

  /** The payloads a trace has dealt with, in any mode. */
  function Settled<T>(trace: seq<Note<T>>): nat {
    if trace == [] then 0
    else
      var last := trace[|trace| - 1];
      Settled(trace[..|trace| - 1]) + if last.Delivered? || last.Failed? then 1 else 0
  }

  lemma SettledSnoc<T>(t: seq<Note<T>>, n: Note<T>)
    ensures Settled(t + [n]) == Settled(t) + if n.Delivered? || n.Failed? then 1 else 0
  {
    assert (t + [n])[..|t|] == t;
  }

  lemma {:induction false} HandledWasSettled<T>(t: seq<Note<T>>, ok: bool)
    ensures Handled(t, ok) <= Settled(t)
    decreases |t|
  {
    if t != [] {
      HandledWasSettled(t[..|t| - 1], ok);
    }
  }

  lemma {:induction false} FlushSettles<T>(c: Conn<T>, message: string)
    ensures Settled(Flush(c, message).trace) == Settled(c.trace)
  {
    SettledSnoc(c.trace, Sent(BatchAck(c, message)));
  }

  lemma {:induction false} TallySettles<T>(c: Conn<T>, ok: bool)
    ensures Settled(Tally(c, ok).trace) == Settled(c.trace)
  {
    var d := (if ok then c.(batchOK := Inc32(c.batchOK)) else c.(batchErr := Inc32(c.batchErr)))
             .(batchSeen := Inc64(c.batchSeen));
    FlushSettles(d, "Batch ack");
    assert Tally(c, ok) == if BatchFull(d.batchSeen, d.ackEveryN) then Flush(d, "Batch ack") else d;
  }

  /** Whatever its outcome and mode, a payload is settled once. */
  lemma {:induction false} NoteSettles<T>(c: Conn<T>, n: Note<T>, ack: Ack, ok: bool)
    requires n.Delivered? || n.Failed?
    ensures var d := c.(trace := c.trace + [n]);
            && Settled(d.trace) == Settled(c.trace) + 1
            && Settled(Send(d, ack).trace) == Settled(c.trace) + 1
            && Settled(Tally(d, ok).trace) == Settled(c.trace) + 1
  {
    var d := c.(trace := c.trace + [n]);
    SettledSnoc(c.trace, n);
    SettledSnoc(d.trace, Sent(ack));
    TallySettles(d, ok);
  }

  /** A note, then possibly an acknowledgement or a tally. */
  ghost predicate Noted<T>(c: Conn<T>, n: Note<T>, ack: Ack, ok: bool, e: Conn<T>) {
    var d := c.(trace := c.trace + [n]);
    e == d || e == Send(d, ack) || e == Tally(d, ok)
  }

  lemma {:induction false} NotedSettles<T>(c: Conn<T>, n: Note<T>, ack: Ack, ok: bool, e: Conn<T>)
    requires Noted(c, n, ack, ok, e) && (n.Delivered? || n.Failed?)
    ensures Settled(e.trace) == Settled(c.trace) + 1
  {
    NoteSettles(c, n, ack, ok);
  }

  lemma {:induction false} GrpcNotes<T>(cfg: Config<T>, c: Conn<T>, p: WrappedPayload)
    returns (d: Conn<T>, n: Note<T>, ack: Ack, ok: bool)
    ensures Noted(d, n, ack, ok, Grpc.OnPayload(cfg, c, p).conn) && d.trace == c.trace && (n.Delivered? || n.Failed?)
  {
    var (meta, defaults) := Grpc.WebDefaults(cfg.grpcWeb, p, c.defaults);
    d := c.(defaults := defaults, lastSeq := p.seqNo);
    var r := Decode(cfg, Rebuilt(p, meta));
    ok := r.Ok?;
    n := if ok then Delivered(r.value, d.ackMode == Batch) else Failed(d.ackMode == Batch);
    ack := if ok then OkAck(d, p) else ErrorAck(d, p, FailureText(cfg.passthrough, r.error), 1);
  }

  lemma {:induction false} GrpcPayloadSettles<T>(cfg: Config<T>, c: Conn<T>, p: WrappedPayload)
    ensures Settled(Grpc.OnPayload(cfg, c, p).conn.trace) == Settled(c.trace) + 1
  {
    var d, n, ack, ok := GrpcNotes(cfg, c, p);
    NotedSettles(d, n, ack, ok, Grpc.OnPayload(cfg, c, p).conn);
  }

  lemma {:induction false} GrpcStepSettles<T>(cfg: Config<T>, c: Conn<T>, r: Recv)
    ensures Settled(Grpc.Step(cfg, c, r).conn.trace) == Settled(c.trace) + if CarriesPayload(r) then 1 else 0
  {
    match r
    case EndOfStream => FlushSettles(c, "EOF");
    case RecvError(_) => FlushSettles(c, "context done");
    case Message(env) =>
      match env
      case Open(sid, _, _, _) =>
        SettledSnoc(c.trace, Opened);
        SettledSnoc(c.trace + [Opened], Sent(OpenAck(sid)));
      case Close(_) => FlushSettles(c, "Stream closed");
      case NoMessage =>
      case Payload(p) => GrpcPayloadSettles(cfg, c, p);
  }

  lemma {:induction false} GrpcRunSettles<T>(cfg: Config<T>, c: Conn<T>, input: seq<Recv>)
    ensures Settled(Grpc.Run(cfg, c, input).0.trace) <= Settled(c.trace) + PayloadCount(input)
    decreases |input|
  {
    if input != [] {
      GrpcStepSettles(cfg, c, input[0]);
      var o := Grpc.Step(cfg, c, input[0]);
      if o.exit.None? {
        GrpcRunSettles(cfg, o.conn, input[1..]);
      }
    }
  }

  lemma {:induction false} CheckOpenSettles<T>(policy: Quic.Policy, g: Quic.Gate<T>, meta: Option<Metadata>)
    ensures Settled(Quic.CheckOpen(policy, g, meta).gate.conn.trace) == Settled(g.conn.trace)
  {
    var md := Quic.MetadataHeaders(meta);
    var v := Quic.Validate(policy, g.asked, md).0;
    if v.Valid? {
      SettledSnoc(g.conn.trace, Checked(md, g.asked));
    } else if v.Rejected? {
      SettledSnoc(g.conn.trace, Sent(Quic.OpenRefusal(g.conn.streamId, v)));
    }
  }

  lemma {:induction false} QuicOpenSettles<T>(cfg: Config<T>, policy: Quic.Policy, g: Quic.Gate<T>, env: Envelope)
    requires env.Open?
    ensures Settled(Quic.OnOpen(cfg, policy, g, env).gate.conn.trace) == Settled(g.conn.trace)
  {
    var h := g.(conn := Quic.Reparam(g.conn, env));
    SettledSnoc(g.conn.trace, Opened);
    CheckOpenSettles(policy, h, env.defaults);
    var c := Quic.CheckOpen(policy, h, env.defaults).gate.conn;
    SettledSnoc(c.trace, Sent(OpenAck(c.streamId)));
  }

  lemma {:induction false} AdmitSettles<T>(
    policy: Quic.Policy, g: Quic.Gate<T>, p: WrappedPayload, meta: Option<Metadata>)
    ensures Settled(Quic.Admit(policy, g, p, meta).gate.conn.trace) == Settled(g.conn.trace)
  {
    var md := Quic.MetadataHeaders(meta);
    var v := Quic.Validate(policy, g.asked, md).0;
    SettledSnoc(g.conn.trace, Checked(md, g.asked));
    if !v.Valid? {
      SettledSnoc(g.conn.trace, Sent(ErrorAck(g.conn, p, "auth failed: " + Quic.ErrorText(v), 401)));
    }
  }

  lemma {:induction false} QuicNotes<T>(cfg: Config<T>, c: Conn<T>, p: WrappedPayload, meta: Option<Metadata>)
    returns (d: Conn<T>, n: Note<T>, ack: Ack, ok: bool)
    ensures Noted(d, n, ack, ok, Quic.Settle(cfg, c, p, meta).conn) && d.trace == c.trace && (n.Delivered? || n.Failed?)
  {
    d := c.(lastSeq := p.seqNo);
    var r := Decode(cfg, Rebuilt(p, meta));
    ok := r.Ok?;
    n := if ok then Delivered(r.value, d.ackMode == Batch) else Failed(d.ackMode == Batch);
    ack := if ok then OkAck(d, p) else ErrorAck(d, p, FailureText(cfg.passthrough, r.error), 1);
  }

  lemma {:induction false} QuicSettles<T>(cfg: Config<T>, c: Conn<T>, p: WrappedPayload, meta: Option<Metadata>)
    ensures Settled(Quic.Settle(cfg, c, p, meta).conn.trace) == Settled(c.trace) + 1
  {
    var d, n, ack, ok := QuicNotes(cfg, c, p, meta);
    NotedSettles(d, n, ack, ok, Quic.Settle(cfg, c, p, meta).conn);
  }

  lemma {:induction false} QuicStepSettles<T>(cfg: Config<T>, policy: Quic.Policy, g: Quic.Gate<T>, r: Recv)
    ensures Settled(Quic.Step(cfg, policy, g, r).gate.conn.trace)
            <= Settled(g.conn.trace) + if CarriesPayload(r) then 1 else 0
  {
    match r
    case EndOfStream => FlushSettles(g.conn, "EOF");
    case RecvError(_) => FlushSettles(g.conn, "recv error");
    case Message(env) =>
      match env
      case Close(_) => FlushSettles(g.conn, "Stream closed");
      case NoMessage =>
      case Open(_, _, _, _) => QuicOpenSettles(cfg, policy, g, env);
      case Payload(p) =>
        var meta := if p.metadata.Some? then p.metadata else g.conn.defaults;
        AdmitSettles(policy, g, p, meta);
        QuicSettles(cfg, Quic.Admit(policy, g, p, meta).gate.conn, p, meta);
  }

  lemma {:induction false} QuicRunSettles<T>(cfg: Config<T>, policy: Quic.Policy, g: Quic.Gate<T>, input: seq<Recv>)
    ensures Settled(Quic.Run(cfg, policy, g, input).0.conn.trace) <= Settled(g.conn.trace) + PayloadCount(input)
    decreases |input|
  {
    if input != [] {
      QuicStepSettles(cfg, policy, g, input[0]);
      var o := Quic.Step(cfg, policy, g, input[0]);
      if o.exit.None? {
        QuicRunSettles(cfg, policy, o.gate, input[1..]);
      }
    }
  }

  /** Reported plus pending is handled; after a flush nothing is pending. */
  ghost predicate Exact<T>(c: Conn<T>, flushed: bool) {
    forall ok :: ExactFor(c, flushed, ok)
  }

  ghost predicate ExactFor<T>(c: Conn<T>, flushed: bool, ok: bool) {
    && Reported(c.trace, ok) + Pending(c, ok) == Handled(c.trace, ok)
    && (flushed ==> Reported(c.trace, ok) == Handled(c.trace, ok))
  }

  lemma {:induction false} FewAreExact<T>(c: Conn<T>, flushed: bool)
    requires Accounted(c, flushed) && Settled(c.trace) < TWO32
    ensures Exact(c, flushed)
  {
    forall ok
      ensures ExactFor(c, flushed, ok)
    {
      HandledWasSettled(c.trace, ok);
    }
  }

  /**
   On every input with fewer than 2^32 payload envelopes, whatever its re-opens and mode
   switches, both receivers conserve exactly at every loop point, and have reported
   everything after an exit through `flushBatch` in batch mode.
   */
  lemma {:induction false} FewPayloadsConserve<T>(cfg: Config<T>, policy: Quic.Policy, input: seq<Recv>)
    requires PayloadCount(input) < TWO32
    ensures var (c, exit) := Grpc.Run(cfg, Start(), input);
            Exact(c, exit in {Finished, ContextDone} && c.ackMode == Batch)
    ensures var (g, exit) := Quic.Run(cfg, policy, Quic.Begin(), input);
            Exact(g.conn, exit in {Finished, RecvFailed} && g.conn.ackMode == Batch)
  {
    AckConservation(cfg, policy, input);
    GrpcRunSettles(cfg, Start(), input);
    var (c, x) := Grpc.Run(cfg, Start(), input);
    FewAreExact(c, x in {Finished, ContextDone} && c.ackMode == Batch);
    QuicRunSettles(cfg, policy, Quic.Begin(), input);
    var (g, y) := Quic.Run(cfg, policy, Quic.Begin(), input);
    FewAreExact(g.conn, y in {Finished, RecvFailed} && g.conn.ackMode == Batch);
  }
}
