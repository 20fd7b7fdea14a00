/** What the acknowledgements of a stream add up to, over every run. */
module AckAccounting {
  import opened Common
  import opened RelayMessages
  import opened AckLoop
  import Grpc = GrpcReceiver
  import Quic = QuicReceiver

  /** Deliveries (`ok`) or failures (`!ok`) while the stream was in batch mode. */
  function Handled<T>(trace: seq<Note<T>>, ok: bool): nat {
    if trace == [] then 0
    else
      var last := trace[|trace| - 1];
      Handled(trace[..|trace| - 1], ok)
      + if ok && last.Delivered? && last.inBatch then 1
        else if !ok && last.Failed? && last.inBatch then 1
        else 0
  }

  /** The sum of the counts that the sent acknowledgements reported. */
  function Reported<T>(trace: seq<Note<T>>, ok: bool): nat {
    if trace == [] then 0
    else
      var last := trace[|trace| - 1];
      Reported(trace[..|trace| - 1], ok)
      + if last.Sent? then (if ok then last.ack.okCount else last.ack.errCount) else 0
  }

  function Pending<T>(c: Conn<T>, ok: bool): Uint32 { if ok then c.batchOK else c.batchErr }

  /** `low` is `x` reduced to 32 bits. */
  ghost predicate Low32(x: nat, low: Uint32) {
    if x < TWO32 then low == x else Low32(x - TWO32, low)
  }

  lemma {:induction false} Low32Facts(x: nat, low: Uint32)
    requires Low32(x, low)
    ensures low <= x && (low == x <==> x < TWO32)
    ensures Low32(x + 1, Inc32(low))
    ensures Low32(x - low, 0)
  {
    if TWO32 <= x {
      Low32Facts(x - TWO32, low);
      assert (x + 1) - TWO32 == (x - TWO32) + 1;
      assert (x - low) - TWO32 == (x - TWO32) - low;
    } else if x + 1 == TWO32 {
      assert Low32(0, 0);
    }
  }

  /** Conservation for one outcome: the pending counter is what is handled but not
      yet reported, reduced to the counter's 32 bits. */
  ghost predicate Conserved<T>(trace: seq<Note<T>>, batchOK: Uint32, batchErr: Uint32, ok: bool) {
    && Reported(trace, ok) <= Handled(trace, ok)
    && Low32(Handled(trace, ok) - Reported(trace, ok), if ok then batchOK else batchErr)
  }

  ghost predicate BalancedCounts<T>(trace: seq<Note<T>>, batchOK: Uint32, batchErr: Uint32) {
    forall ok :: Conserved(trace, batchOK, batchErr, ok)
  }

  ghost predicate Balanced<T>(c: Conn<T>) { BalancedCounts(c.trace, c.batchOK, c.batchErr) }

  lemma {:induction false} Snoc<T>(t: seq<Note<T>>, n: Note<T>, ok: bool)
    ensures Handled(t + [n], ok) == Handled(t, ok)
              + if ok && n.Delivered? && n.inBatch then 1 else if !ok && n.Failed? && n.inBatch then 1 else 0
    ensures Reported(t + [n], ok) == Reported(t, ok)
              + if n.Sent? then (if ok then n.ack.okCount else n.ack.errCount) else 0
  {
    assert (t + [n])[..|t|] == t;
  }

  lemma {:induction false} FlushBalanced<T>(c: Conn<T>, message: string)
    requires Balanced(c)
    ensures Balanced(Flush(c, message))
    ensures c.ackMode == Batch ==> Flush(c, message).batchOK == 0 && Flush(c, message).batchErr == 0
  {
    Snoc(c.trace, Sent(BatchAck(c, message)), true);
    Snoc(c.trace, Sent(BatchAck(c, message)), false);
    assert Conserved(c.trace, c.batchOK, c.batchErr, true);
    Low32Facts(Handled(c.trace, true) - Reported(c.trace, true), Pending(c, true));
    assert Conserved(c.trace, c.batchOK, c.batchErr, false);
    Low32Facts(Handled(c.trace, false) - Reported(c.trace, false), Pending(c, false));
  }

  /** A batch-mode payload: its note, and one more in the counter. */
  lemma {:induction false} CountBalanced<T>(c: Conn<T>, n: Note<T>, ok: bool)
    requires Balanced(c) && (if ok then n.Delivered? else n.Failed?) && n.inBatch
    ensures BalancedCounts(c.trace + [n], if ok then Inc32(c.batchOK) else c.batchOK,
                           if ok then c.batchErr else Inc32(c.batchErr))
  {
    assert Conserved(c.trace, c.batchOK, c.batchErr, !ok);
    Snoc(c.trace, n, true);
    Snoc(c.trace, n, false);
    assert Conserved(c.trace, c.batchOK, c.batchErr, ok);
    Low32Facts(Handled(c.trace, ok) - Reported(c.trace, ok), Pending(c, ok));
  }

  lemma {:induction false} TallyBalanced<T>(c: Conn<T>, n: Note<T>, ok: bool)
    requires Balanced(c)
    requires (if ok then n.Delivered? else n.Failed?) && n.inBatch
    ensures Balanced(Tally(c.(trace := c.trace + [n]), ok))
  {
    CountBalanced(c, n, ok);
    var d := c.(trace := c.trace + [n]);
    var e := (if ok then d.(batchOK := Inc32(d.batchOK)) else d.(batchErr := Inc32(d.batchErr)))
             .(batchSeen := Inc64(d.batchSeen));
    FlushBalanced(e, "Batch ack");
  }

  lemma {:induction false} SilentBalanced<T>(c: Conn<T>, n: Note<T>)
    requires Balanced(c)
    requires n.Sent? ==> n.ack.okCount == 0 && n.ack.errCount == 0
    requires n.Delivered? || n.Failed? ==> !n.inBatch
    ensures Balanced(c.(trace := c.trace + [n]))
  {
    assert Conserved(c.trace, c.batchOK, c.batchErr, true) && Conserved(c.trace, c.batchOK, c.batchErr, false);
    Snoc(c.trace, n, true);
    Snoc(c.trace, n, false);
  }

  lemma {:induction false} PayloadBalanced<T>(cfg: Config<T>, c: Conn<T>, p: WrappedPayload, r: Result<T, string>)
    requires Balanced(c)
    ensures var batch := c.ackMode == Batch;
            var n := if r.Ok? then Delivered(r.value, batch) else Failed(batch);
            var d := c.(trace := c.trace + [n]);
            && (batch ==> Balanced(Tally(d, r.Ok?)))
            && (!batch ==> Balanced(d) && Balanced(Send(d, OkAck(d, p)))
                           && forall text :: Balanced(Send(d, ErrorAck(d, p, text, 1))))
  {
    var batch := c.ackMode == Batch;
    var n := if r.Ok? then Delivered(r.value, batch) else Failed(batch);
    if batch {
      TallyBalanced(c, n, r.Ok?);
    } else {
      SilentBalanced(c, n);
      var d := c.(trace := c.trace + [n]);
      SilentBalanced(d, Sent(OkAck(d, p)));
      forall text
        ensures Balanced(Send(d, ErrorAck(d, p, text, 1)))
      {
        SilentBalanced(d, Sent(ErrorAck(d, p, text, 1)));
      }
    }
  }

  lemma {:induction false} GrpcStepBalanced<T>(cfg: Config<T>, c: Conn<T>, r: Recv)
    requires Balanced(c)
    ensures Balanced(Grpc.Step(cfg, c, r).conn)
  {
    match r
    case EndOfStream => FlushBalanced(c, "EOF");
    case RecvError(_) => FlushBalanced(c, "context done");
    case Message(env) =>
      match env
      case Open(sid, _, _, _) =>
        SilentBalanced(c, Opened);
        SilentBalanced(c.(trace := c.trace + [Opened]), Sent(OpenAck(sid)));
      case Close(_) => FlushBalanced(c, "Stream closed");
      case NoMessage =>
      case Payload(p) =>
        var (meta, defaults) := Grpc.WebDefaults(cfg.grpcWeb, p, c.defaults);
        PayloadBalanced(cfg, c.(defaults := defaults, lastSeq := p.seqNo), p, Decode(cfg, Rebuilt(p, meta)));
  }

  /** Nothing is pending after an exit through `flushBatch` in batch mode. */
  lemma {:induction false} GrpcExitFlushed<T>(cfg: Config<T>, c: Conn<T>, r: Recv)
    ensures var o := Grpc.Step(cfg, c, r);
            (o.exit == Some(Finished) || o.exit == Some(ContextDone)) && o.conn.ackMode == Batch ==>
              o.conn.batchOK == 0 && o.conn.batchErr == 0
  {
  }

  lemma {:induction false} GrpcRunBalanced<T>(cfg: Config<T>, c: Conn<T>, input: seq<Recv>)
    requires Balanced(c)
    ensures var (d, exit) := Grpc.Run(cfg, c, input);
            Balanced(d) && (exit in {Finished, ContextDone} && d.ackMode == Batch ==> d.batchOK == 0 && d.batchErr == 0)
    decreases |input|
  {
    if input != [] {
      GrpcStepBalanced(cfg, c, input[0]);
      GrpcExitFlushed(cfg, c, input[0]);
      var o := Grpc.Step(cfg, c, input[0]);
      if o.exit.None? {
        GrpcRunBalanced(cfg, o.conn, input[1..]);
      }
    }
  }

  lemma {:induction false} QuicOpenBalanced<T>(cfg: Config<T>, policy: Quic.Policy, g: Quic.Gate<T>, env: Envelope)
    requires Balanced(g.conn) && env.Open?
    ensures Balanced(Quic.OnOpen(cfg, policy, g, env).gate.conn)
  {
    SilentBalanced(g.conn, Opened);
    var d := Quic.Reparam(g.conn, env);
    assert Balanced(d);
    var md := Quic.MetadataHeaders(env.defaults);
    SilentBalanced(d, Checked(md, g.asked));
    var v := Quic.Validate(policy, g.asked, md).0;
    if v.Rejected? {
      SilentBalanced(d, Sent(Quic.OpenRefusal(env.streamId, v)));
    }
    var a := Quic.CheckOpen(policy, g.(conn := d), env.defaults);
    SilentBalanced(a.gate.conn, Sent(OpenAck(env.streamId)));
  }

  lemma {:induction false} QuicPayloadBalanced<T>(
    cfg: Config<T>, policy: Quic.Policy, g: Quic.Gate<T>, p: WrappedPayload)
    requires Balanced(g.conn)
    ensures Balanced(Quic.OnPayload(cfg, policy, g, p).gate.conn)
  {
    var meta := if p.metadata.Some? then p.metadata else g.conn.defaults;
    var md := Quic.MetadataHeaders(meta);
    SilentBalanced(g.conn, Checked(md, g.asked));
    var a := Quic.Admit(policy, g, p, meta);
    if a.exit.None? {
      var c := a.gate.conn.(lastSeq := p.seqNo);
      assert Balanced(c);
      PayloadBalanced(cfg, c, p, Decode(cfg, Rebuilt(p, meta)));
    } else {
      var v := Quic.Validate(policy, g.asked, md).0;
      SilentBalanced(g.conn, Sent(ErrorAck(g.conn, p, "auth failed: " + Quic.ErrorText(v), 401)));
    }
  }

  lemma {:induction false} QuicStepBalanced<T>(cfg: Config<T>, policy: Quic.Policy, g: Quic.Gate<T>, r: Recv)
    requires Balanced(g.conn)
    ensures Balanced(Quic.Step(cfg, policy, g, r).gate.conn)
  {
    match r
    case EndOfStream => FlushBalanced(g.conn, "EOF");
    case RecvError(_) => FlushBalanced(g.conn, "recv error");
    case Message(env) =>
      match env
      case Close(_) => FlushBalanced(g.conn, "Stream closed");
      case NoMessage =>
      case Open(_, _, _, _) => QuicOpenBalanced(cfg, policy, g, env);
      case Payload(p) => QuicPayloadBalanced(cfg, policy, g, p);
  }

  lemma {:induction false} QuicExitFlushed<T>(cfg: Config<T>, policy: Quic.Policy, g: Quic.Gate<T>, r: Recv)
    ensures var o := Quic.Step(cfg, policy, g, r);
            (o.exit == Some(Finished) || o.exit == Some(RecvFailed)) && o.gate.conn.ackMode == Batch ==>
              o.gate.conn.batchOK == 0 && o.gate.conn.batchErr == 0
  {
  }

  lemma {:induction false} QuicRunBalanced<T>(cfg: Config<T>, policy: Quic.Policy, g: Quic.Gate<T>, input: seq<Recv>)
    requires Balanced(g.conn)
    ensures var (h, exit) := Quic.Run(cfg, policy, g, input);
            && Balanced(h.conn)
            && (exit in {Finished, RecvFailed} && h.conn.ackMode == Batch ==>
                  h.conn.batchOK == 0 && h.conn.batchErr == 0)
    decreases |input|
  {
    if input != [] {
      QuicStepBalanced(cfg, policy, g, input[0]);
      QuicExitFlushed(cfg, policy, g, input[0]);
      var o := Quic.Step(cfg, policy, g, input[0]);
      if o.exit.None? {
        QuicRunBalanced(cfg, policy, o.gate, input[1..]);
      }
    }
  }

  /** What conservation means for a reader of the acknowledgements: reported plus
      pending is exactly what was handled, precisely while fewer than 2^32 payloads
      of that outcome are unreported; and a run that ended through `flushBatch` in
      batch mode has then reported everything. */
  ghost predicate Accounted<T>(c: Conn<T>, flushed: bool) {
    forall ok ::
      && Reported(c.trace, ok) <= Handled(c.trace, ok)
      && (Reported(c.trace, ok) + Pending(c, ok) == Handled(c.trace, ok)
          <==> Handled(c.trace, ok) - Reported(c.trace, ok) < TWO32)
      && (flushed ==> (Reported(c.trace, ok) == Handled(c.trace, ok)
                       <==> Handled(c.trace, ok) - Reported(c.trace, ok) < TWO32))
  }

  lemma {:induction false} BalancedIsAccounted<T>(c: Conn<T>, flushed: bool)
    requires Balanced(c)
    requires flushed ==> c.batchOK == 0 && c.batchErr == 0
    ensures Accounted(c, flushed)
  {
    assert Conserved(c.trace, c.batchOK, c.batchErr, true);
    Low32Facts(Handled(c.trace, true) - Reported(c.trace, true), c.batchOK);
    assert Conserved(c.trace, c.batchOK, c.batchErr, false);
    Low32Facts(Handled(c.trace, false) - Reported(c.trace, false), c.batchErr);
  }

  /** Conservation at every loop point of every run of either receiver. */
  lemma {:induction false} AckConservation<T>(cfg: Config<T>, policy: Quic.Policy, input: seq<Recv>)
    ensures var (c, exit) := Grpc.Run(cfg, Start(), input);
            Accounted(c, exit in {Finished, ContextDone} && c.ackMode == Batch)
    ensures var (g, exit) := Quic.Run(cfg, policy, Quic.Begin(), input);
            Accounted(g.conn, exit in {Finished, RecvFailed} && g.conn.ackMode == Batch)
  {
    GrpcRunBalanced(cfg, Start(), input);
    var (c, x) := Grpc.Run(cfg, Start(), input);
    BalancedIsAccounted(c, x in {Finished, ContextDone} && c.ackMode == Batch);
    QuicRunBalanced(cfg, policy, Quic.Begin(), input);
    var (g, y) := Quic.Run(cfg, policy, Quic.Begin(), input);
    BalancedIsAccounted(g.conn, y in {Finished, RecvFailed} && g.conn.ackMode == Batch);
  }
}
