/** The gRPC receiving loop, `StreamReceive`. */
module GrpcReceiver {
  import opened Common
  import opened RelayMessages
  import opened AckLoop

  const EMPTY_METADATA := Metadata([], "", None, None, "", 0)

  /**
   The content-type default of the gRPC-Web configuration.  The Go code writes
   through a reference, so when a payload without metadata uses the stream
   defaults the stream defaults themselves change.  Yields the effective
   metadata and the stream defaults afterwards.
   */
  function WebDefaults(grpcWeb: bool, p: WrappedPayload, defaults: Option<Metadata>)
    : (r: (Option<Metadata>, Option<Metadata>))
  {
    var meta := if p.metadata.Some? then p.metadata else defaults;
    if !grpcWeb then (meta, defaults)
    else
      var m := if meta.Some? then meta.value else EMPTY_METADATA;
      var json := m.contentType == "" && (p.encoding == Gob || p.encoding == EncodingUnspecified);
      var m' := if json then m.(contentType := "application/json") else m;
      (Some(m'), if p.metadata.None? && defaults.Some? then Some(m') else defaults)
  }

  /** After a per-message acknowledgement: a failed send ends the loop. */
  function AfterSend<T>(cfg: Config<T>, before: nat, c: Conn<T>): Outcome<T> {
    Outcome(c, if cfg.sendOk(before) then None else Some(SendFailed))
  }

  function OnOpen<T>(cfg: Config<T>, c: Conn<T>, env: Envelope): Outcome<T>
    requires env.Open?
  {
    var mode := ModeAfter(c.ackMode, env.ackMode);
    var d := c.(streamId := env.streamId, defaults := env.defaults, ackMode := mode,
                ackEveryN := if mode == Batch then BatchSize(env.ackEveryN) else 0,
                trace := c.trace + [Opened]);
    if mode == NoAck then Outcome(d, None)
    else AfterSend(cfg, d.sent, Send(d, OpenAck(d.streamId)))
  }

  function OnPayload<T>(cfg: Config<T>, c: Conn<T>, p: WrappedPayload): Outcome<T> {
    var (meta, defaults) := WebDefaults(cfg.grpcWeb, p, c.defaults);
    var d := c.(defaults := defaults, lastSeq := p.seqNo);
    match Decode(cfg, Rebuilt(p, meta))
    case Ok(item) =>
      var e := d.(trace := d.trace + [Delivered(item, d.ackMode == Batch)]);
      if e.ackMode == PerMessage then AfterSend(cfg, e.sent, Send(e, OkAck(e, p)))
      else if e.ackMode == Batch then Outcome(Tally(e, true), None)
      else Outcome(e, None)
    case Err(error) =>
      var e := d.(trace := d.trace + [Failed(d.ackMode == Batch)]);
      if e.ackMode == PerMessage then
        AfterSend(cfg, e.sent, Send(e, ErrorAck(e, p, FailureText(cfg.passthrough, error), 1)))
      else if e.ackMode == Batch then Outcome(Tally(e, false), None)
      else Outcome(e, None)
  }

  function Step<T>(cfg: Config<T>, c: Conn<T>, r: Recv): Outcome<T> {
    match r
    case EndOfStream => Outcome(Flush(c, "EOF"), Some(Finished))
    case RecvError(done) =>
      if done then Outcome(Flush(c, "context done"), Some(ContextDone)) else Outcome(c, Some(RecvFailed))
    case Message(env) =>
      match env
      case Open(_, _, _, _) => OnOpen(cfg, c, env)
      case Close(_) => Outcome(Flush(c, "Stream closed"), Some(Finished))
      case Payload(p) => OnPayload(cfg, c, p)
      case NoMessage => Outcome(c, None)
  }

  /** The loop over a whole input; `Waiting` means it is blocked in `Recv`. */
  function Run<T>(cfg: Config<T>, c: Conn<T>, input: seq<Recv>): (r: (Conn<T>, Exit))
    decreases |input|
  {
    if input == [] then (c, Waiting)
    else
      var o := Step(cfg, c, input[0]);
      if o.exit.Some? then (o.conn, o.exit.value) else Run(cfg, o.conn, input[1..])
  }

  /** One iteration that goes on. */
  lemma {:induction false} RunStep<T>(cfg: Config<T>, c: Conn<T>, r: Recv, d: Conn<T>, rest: seq<Recv>)
    requires Step(cfg, c, r) == Outcome(d, None)
    ensures Run(cfg, c, [r] + rest) == Run(cfg, d, rest)
  {
    assert ([r] + rest)[1..] == rest;
  }

  /** Running `input` from `c` comes to running `rest` from `d`.  The quantifier has one instance;
      it only keeps `Run` folded in proofs that do not look inside. */
  ghost predicate LeadsTo<T(!new)>(cfg: Config<T>, c: Conn<T>, input: seq<Recv>, d: Conn<T>, rest: seq<Recv>) {
    forall x :: x == cfg ==> Run(x, c, input) == Run(x, d, rest)
  }

  lemma {:induction false} LeadsOn<T(!new)>(
    cfg: Config<T>, c: Conn<T>, input: seq<Recv>, e: Conn<T>, more: seq<Recv>, d: Conn<T>, rest: seq<Recv>)
    requires LeadsTo(cfg, c, input, e, more) && LeadsTo(cfg, e, more, d, rest)
    ensures LeadsTo(cfg, c, input, d, rest)
  {
    assert Run(cfg, c, input) == Run(cfg, e, more) == Run(cfg, d, rest);
  }

  method StreamReceive<T>(cfg: Config<T>, input: seq<Recv>)
    returns (s: StreamLoop<T>, exit: Exit)
    ensures fresh(s)
    ensures (s.Value(), exit) == Run(cfg, Start(), input)
  {
    s := new StreamLoop(cfg.sendOk);
    var i := 0;
    while i < |input|
      invariant 0 <= i <= |input|
      invariant fresh(s) && s.sendOk == cfg.sendOk
      invariant Run(cfg, s.Value(), input[i..]) == Run(cfg, Start(), input)
    {
      var r := input[i];
      assert input[i..][1..] == input[i + 1..];
      i := i + 1;
      if r.EndOfStream? {
        s.FlushBatch("EOF");
        return s, Finished;
      }
      if r.RecvError? {
        if r.done {
          s.FlushBatch("context done");
          return s, ContextDone;
        }
        return s, RecvFailed;
      }
      match r.env {
        case Open(_, _, _, _) =>
          var ok := Reopen(cfg, s, r.env);
          if !ok {
            return s, SendFailed;
          }
        case Close(_) =>
          s.FlushBatch("Stream closed");
          return s, Finished;
        case NoMessage =>
        case Payload(p) =>
          var ok := Accept(cfg, s, p);
          if !ok {
            return s, SendFailed;
          }
      }
    }
    exit := Waiting;
  }

  /** The Open branch of the loop body. */
  method Reopen<T>(cfg: Config<T>, s: StreamLoop<T>, open: Envelope) returns (ok: bool)
    requires open.Open? && s.sendOk == cfg.sendOk
    modifies s
    ensures Outcome(s.Value(), if ok then None else Some(SendFailed)) == OnOpen(cfg, old(s.Value()), open)
  {
    s.streamId, s.defaults := open.streamId, open.defaults;
    s.trace := s.trace + [Opened];
    if open.ackMode != ModeUnspecified {
      s.ackMode := open.ackMode;
    }
    if s.ackMode == Batch {
      var n := open.ackEveryN;
      if n == 0 {
        n := DEFAULT_BATCH;
      }
      s.ackEveryN := n;
    } else {
      s.ackEveryN := 0;
    }
    ok := true;
    if s.ackMode != NoAck {
      ok := s.SendAck(OpenAck(s.streamId));
    }
  }

  /** The payload branch of the loop body. */
  method Accept<T>(cfg: Config<T>, s: StreamLoop<T>, p: WrappedPayload) returns (ok: bool)
    requires s.sendOk == cfg.sendOk
    modifies s
    ensures Outcome(s.Value(), if ok then None else Some(SendFailed)) == OnPayload(cfg, old(s.Value()), p)
  {
    var (meta, defaults) := WebDefaults(cfg.grpcWeb, p, s.defaults);
    s.defaults := defaults;
    s.lastSeq := p.seqNo;
    var wp := Rebuilt(p, meta);
    var data := if cfg.passthrough then cfg.asItem(wp) else cfg.unwrap(wp);
    ok := true;
    if data.Err? {
      s.trace := s.trace + [Failed(s.ackMode == Batch)];
      match s.ackMode {
        case PerMessage =>
          ok := s.SendAck(Ack(false, FailureText(cfg.passthrough, data.error), s.streamId, p.id, p.seqNo, 1, 0, 0, 0));
        case Batch => s.TallyBatch(false);
        case _ =>
      }
      return;
    }
    s.trace := s.trace + [Delivered(data.value, s.ackMode == Batch)];
    match s.ackMode {
      case PerMessage => ok := s.SendAck(Ack(true, "OK", s.streamId, p.id, p.seqNo, 0, 0, 0, 0));
      case Batch => s.TallyBatch(true);
      case _ =>
    }
  }
}
