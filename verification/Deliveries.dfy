/** What a receiver delivers, read off the envelopes alone. */
module Deliveries {
  import opened Common
  import opened RelayMessages
  import opened AckLoop
  import opened ReceiverEquivalence
  import opened RelayHops
  import Grpc = GrpcReceiver
  import Quic = QuicReceiver

  /** The content type gRPC-Web clients may leave out. */
  predicate Untyped(p: WrappedPayload, m: Metadata) {
    m.contentType == "" && (p.encoding.Gob? || p.encoding.EncodingUnspecified?)
  }

  /** The metadata a payload is handled under: its own or the stream's, with the content type
      of gRPC-Web clients filled in. */
  function MetadataFor(grpcWeb: bool, p: WrappedPayload, defaults: Option<Metadata>): Option<Metadata> {
    var meta := if p.metadata.Some? then p.metadata else defaults;
    if !grpcWeb then meta
    else
      var m := if meta.Some? then meta.value else Metadata([], "", None, None, "", 0);
      Some(if Untyped(p, m)
           then Metadata(m.headers, "application/json", m.performance, m.security, m.traceId, m.rest) else m)
  }

  /** The payload with which the loop goes to the decoder. */
  function HandedOn(grpcWeb: bool, p: WrappedPayload, defaults: Option<Metadata>): WrappedPayload {
    WrappedPayload(p.id, p.timestamp, p.payload, MetadataFor(grpcWeb, p, defaults), p.errorInfo, p.seqNo, p.encoding,
                   p.payloadType, "")
  }

  function Decoded<T>(cfg: Config<T>, p: WrappedPayload): seq<T> {
    var r := if cfg.passthrough then cfg.asItem(p) else cfg.unwrap(p);
    if r.Ok? then [r.value] else []
  }

  /** The items that an input is worth: everything that decodes, up to the end of the stream.  Filling
      in a content type on behalf of a payload without metadata changes the stream's own defaults. */
  function Worth<T>(cfg: Config<T>, defaults: Option<Metadata>, input: seq<Recv>): seq<T>
    decreases |input|
  {
    if input == [] || !input[0].Message? || input[0].env.Close? then []
    else
      var env := input[0].env;
      Now(cfg, defaults, env) + Worth(cfg, DefaultsBehind(cfg.grpcWeb, defaults, env), input[1..])
  }

  /** What one envelope is worth, */
  function Now<T>(cfg: Config<T>, defaults: Option<Metadata>, env: Envelope): seq<T> {
    if env.Payload? then Decoded(cfg, HandedOn(cfg.grpcWeb, env.wrapped, defaults)) else []
  }

  /** and the stream defaults behind it. */
  function DefaultsBehind(grpcWeb: bool, defaults: Option<Metadata>, env: Envelope): Option<Metadata> {
    if env.Open? then env.defaults
    else if env.Payload? && env.wrapped.metadata.None? && defaults.Some? then
      MetadataFor(grpcWeb, env.wrapped, defaults)
    else defaults
  }

  lemma {:induction false} PayloadWorth<T(!new)>(cfg: Config<T>, c: Conn<T>, p: WrappedPayload)
    requires SendsSucceed(cfg)
    ensures var o, h := Grpc.OnPayload(cfg, c, p), HandedOn(cfg.grpcWeb, p, c.defaults);
            && o.exit.None?
            && o.conn.defaults == DefaultsBehind(cfg.grpcWeb, c.defaults, Payload(p))
            && Items(o.conn.trace) == Items(c.trace) + Decoded(cfg, h)
  {
    var (meta, defaults) := Grpc.WebDefaults(cfg.grpcWeb, p, c.defaults);
    assert Rebuilt(p, meta) == HandedOn(cfg.grpcWeb, p, c.defaults);
    var d := c.(defaults := defaults);
    var n := NoteOf(cfg, c, p, meta);
    ItemsSnoc(c.trace, n);
    var e := d.(lastSeq := p.seqNo, trace := c.trace + [n]);
    var r := Decode(cfg, Rebuilt(p, meta));
    if c.ackMode == Batch {
      TallyItems(e, r.Ok?);
    } else if c.ackMode == PerMessage {
      ItemsSnoc(e.trace, Sent(if r.Ok? then OkAck(e, p) else ErrorAck(e, p, FailureText(cfg.passthrough, r.error), 1)));
    }
  }

  function NoteOf<T>(cfg: Config<T>, c: Conn<T>, p: WrappedPayload, meta: Option<Metadata>): Note<T> {
    var r := Decode(cfg, Rebuilt(p, meta));
    if r.Ok? then Delivered(r.value, c.ackMode == Batch) else Failed(c.ackMode == Batch)
  }

  lemma {:induction false} OpenWorth<T(!new)>(cfg: Config<T>, c: Conn<T>, open: Envelope)
    requires open.Open? && SendsSucceed(cfg)
    ensures var o := Grpc.OnOpen(cfg, c, open);
            o.exit.None? && o.conn.defaults == open.defaults && Items(o.conn.trace) == Items(c.trace)
  {
    ItemsSnoc(c.trace, Opened);
    ItemsSnoc(c.trace + [Opened], Sent(OpenAck(open.streamId)));
  }

  lemma {:induction false} EndWorth<T(!new)>(cfg: Config<T>, c: Conn<T>, r: Recv)
    requires !r.Message? || r.env.Close?
    ensures Grpc.Step(cfg, c, r).exit.Some? && Items(Grpc.Step(cfg, c, r).conn.trace) == Items(c.trace)
  {
    FlushItems(c, "EOF");
    FlushItems(c, "context done");
    FlushItems(c, "Stream closed");
  }

  lemma {:induction false} StepWorth<T(!new)>(cfg: Config<T>, c: Conn<T>, env: Envelope)
    requires SendsSucceed(cfg) && !env.Close?
    ensures var o := Grpc.Step(cfg, c, Message(env));
            && o.exit.None? && o.conn.defaults == DefaultsBehind(cfg.grpcWeb, c.defaults, env)
            && Items(o.conn.trace) == Items(c.trace) + Now(cfg, c.defaults, env)
  {
    match env
    case Open(_, _, _, _) => OpenWorth(cfg, c, env);
    case Payload(p) => PayloadWorth(cfg, c, p);
    case NoMessage =>
  }

  lemma {:induction false} RunWorth<T(!new)>(cfg: Config<T>, c: Conn<T>, input: seq<Recv>)
    requires SendsSucceed(cfg)
    ensures Items(Grpc.Run(cfg, c, input).0.trace) == Items(c.trace) + Worth(cfg, c.defaults, input)
    decreases |input|
  {
    if input != [] {
      var r := input[0];
      if !r.Message? || r.env.Close? {
        EndWorth(cfg, c, r);
      } else {
        StepWorth(cfg, c, r.env);
        RunWorth(cfg, Grpc.Step(cfg, c, r).conn, input[1..]);
      }
    }
  }

  /**
   As long as sends succeed, the gRPC receiver delivers exactly what its input is worth, in
   order: no acknowledgement mode, batch size or re-open loses, repeats or reorders an item.
   */
  lemma {:induction false} DeliversItsWorth<T(!new)>(cfg: Config<T>, input: seq<Recv>)
    requires SendsSucceed(cfg)
    ensures Items(Grpc.Run(cfg, Start(), input).0.trace) == Worth(cfg, None, input)
  {
    RunWorth(cfg, Start(), input);
  }

  /** So does the QUIC receiver, under any policy, if it does not refuse the stream. */
  lemma {:induction false} QuicDeliversItsWorth<T(!new)>(cfg: Config<T>, policy: Quic.Policy, input: seq<Recv>)
    requires SendsSucceed(cfg) && !cfg.grpcWeb && forall i :: 0 <= i < |input| ==> !input[i].RecvError?
    ensures var (g, exit) := Quic.Run(cfg, policy, Quic.Begin(), input);
            exit != AuthFailed ==> Items(g.conn.trace) == Worth(cfg, None, input)
  {
    var (g, exit) := Quic.Run(cfg, policy, Quic.Begin(), input);
    RunSimulates(cfg, policy, Start(), Quic.Begin(), input);
    ItemsVisible(g.conn.trace);
    DeliversItsWorth(cfg, input);
  }
}
