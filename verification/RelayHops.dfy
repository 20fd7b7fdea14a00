/** Values travelling from a wrapping relay through passthrough hops to an unwrapping receiver. */
module RelayHops {
  import opened Common
  import opened RelayMessages
  import opened AckLoop
  import opened PayloadCodec
  import opened ReceiverEquivalence
  import Grpc = GrpcReceiver
  import Quic = QuicReceiver
  import BatchCadence

  /** What one session transmits: its Open, the payloads in order, a Close. */
  datatype Stream = Stream(open: Envelope, payloads: seq<WrappedPayload>)

  function Input(s: Stream): seq<Recv> {
    [Message(s.open)] + BatchCadence.Messages(s.payloads) + [Message(Close("relay stop"))]
  }

  /** A passthrough relay: a receiver of either kind, feeding a forward relay whose
      session announces `open`, whatever its defaults and ack mode. */
  datatype Hop = Hop(quic: bool, grpcWeb: bool, sendOk: nat -> bool, open: Envelope)

  ghost predicate Working(h: Hop) {
    h.open.Open? && forall k: nat :: h.sendOk(k)
  }

  const OPEN_HOUSE := Quic.Policy(false, [], None)

  /** A receiver of either kind, without an authentication policy, run to the end of its stream. */
  function Delivered<T>(quic: bool, cfg: Config<T>, s: Stream): seq<T> {
    if quic then Items(Quic.Run(cfg.(grpcWeb := false), OPEN_HOUSE, Quic.Begin(), Input(s)).0.conn.trace)
    else Items(Grpc.Run(cfg, Start(), Input(s)).0.trace)
  }

  function PassthroughConfig(h: Hop): Config<WrappedPayload> {
    Config(true, h.grpcWeb, wp => Ok(wp), wp => Err(""), h.sendOk)
  }

  function Forwarded(h: Hop, s: Stream): Stream {
    Stream(h.open, Delivered(h.quic, PassthroughConfig(h), s))
  }

  function Through(hops: seq<Hop>, s: Stream): Stream {
    if hops == [] then s else Through(hops[1..], Forwarded(hops[0], s))
  }

  /** The metadata under which a payload of this stream is handled. */
  function Effective(s: Stream, p: WrappedPayload): Option<Metadata>
    requires s.open.Open?
  {
    if p.metadata.Some? then p.metadata else s.open.defaults
  }

  /** Every payload resolves to metadata with a content type, so gRPC-Web defaults never apply. */
  ghost predicate Typed(s: Stream) {
    s.open.Open? && forall p :: p in s.payloads ==> Effective(s, p).Some? && Effective(s, p).value.contentType != ""
  }

  function Oks<T>(cfg: Config<T>, s: Stream, k: nat): seq<T>
    requires s.open.Open? && k <= |s.payloads|
  {
    if k == 0 then []
    else
      var p := s.payloads[k - 1];
      var r := Decode(cfg, Rebuilt(p, Effective(s, p)));
      if r.Ok? then Oks(cfg, s, k - 1) + [r.value] else Oks(cfg, s, k - 1)
  }

  lemma ItemsSnoc<T>(t: seq<Note<T>>, n: Note<T>)
    ensures Items(t + [n]) == Items(t) + if n.Delivered? then [n.item] else []
  {
    assert (t + [n])[..|t|] == t;
  }

  lemma {:induction false} FlushItems<T>(c: Conn<T>, message: string)
    ensures Items(Flush(c, message).trace) == Items(c.trace) && Flush(c, message).defaults == c.defaults
  {
    ItemsSnoc(c.trace, Sent(BatchAck(c, message)));
  }

  lemma {:induction false} TallyItems<T>(c: Conn<T>, ok: bool)
    ensures Items(Tally(c, ok).trace) == Items(c.trace) && Tally(c, ok).defaults == c.defaults
  {
    var d := (if ok then c.(batchOK := Inc32(c.batchOK)) else c.(batchErr := Inc32(c.batchErr)))
             .(batchSeen := Inc64(c.batchSeen));
    FlushItems(d, "Batch ack");
  }

  lemma {:induction false} OnPayloadItems<T(!new)>(
    cfg: Config<T>, c: Conn<T>, p: WrappedPayload, meta: Option<Metadata>)
    requires SendsSucceed(cfg) && Grpc.WebDefaults(cfg.grpcWeb, p, c.defaults) == (meta, c.defaults)
    ensures var o, r := Grpc.OnPayload(cfg, c, p), Decode(cfg, Rebuilt(p, meta));
            && o.exit.None? && o.conn.defaults == c.defaults
            && Items(o.conn.trace) == if r.Ok? then Items(c.trace) + [r.value] else Items(c.trace)
  {
    var r := Decode(cfg, Rebuilt(p, meta));
    var n := if r.Ok? then Note.Delivered(r.value, c.ackMode == Batch) else Failed(c.ackMode == Batch);
    ItemsSnoc(c.trace, n);
    var d := c.(lastSeq := p.seqNo, trace := c.trace + [n]);
    if c.ackMode == Batch {
      TallyItems(d, r.Ok?);
    } else if c.ackMode == PerMessage {
      ItemsSnoc(d.trace, Sent(if r.Ok? then OkAck(d, p) else ErrorAck(d, p, FailureText(cfg.passthrough, r.error), 1)));
    }
  }

  lemma {:induction false} PayloadItems<T(!new)>(cfg: Config<T>, s: Stream, c: Conn<T>, k: nat)
    requires Typed(s) && SendsSucceed(cfg) && k < |s.payloads|
    requires c.defaults == s.open.defaults && Items(c.trace) == Oks(cfg, s, k)
    ensures var o := Grpc.OnPayload(cfg, c, s.payloads[k]);
            o.exit.None? && o.conn.defaults == s.open.defaults && Items(o.conn.trace) == Oks(cfg, s, k + 1)
  {
    var p := s.payloads[k];
    assert p in s.payloads;
    OnPayloadItems(cfg, c, p, Effective(s, p));
  }

  lemma {:induction false} PayloadStepItems<T(!new)>(
    cfg: Config<T>, s: Stream, c: Conn<T>, k: nat, more: seq<Recv>)
    returns (e: Conn<T>)
    requires Typed(s) && SendsSucceed(cfg) && k < |s.payloads|
    requires c.defaults == s.open.defaults && Items(c.trace) == Oks(cfg, s, k)
    ensures Grpc.LeadsTo(cfg, c, [Message(Payload(s.payloads[k]))] + more, e, more)
    ensures e.defaults == s.open.defaults && Items(e.trace) == Oks(cfg, s, k + 1)
  {
    PayloadItems(cfg, s, c, k);
    e := Grpc.OnPayload(cfg, c, s.payloads[k]).conn;
    Grpc.RunStep(cfg, c, Message(Payload(s.payloads[k])), e, more);
  }

  lemma {:induction false} PayloadsItems<T(!new)>(cfg: Config<T>, s: Stream, c: Conn<T>, k: nat, rest: seq<Recv>)
    returns (d: Conn<T>)
    requires Typed(s) && SendsSucceed(cfg) && k <= |s.payloads|
    requires c.defaults == s.open.defaults && Items(c.trace) == Oks(cfg, s, k)
    ensures Items(d.trace) == Oks(cfg, s, |s.payloads|)
    ensures Grpc.LeadsTo(cfg, c, BatchCadence.Messages(s.payloads)[k..] + rest, d, rest)
    decreases |s.payloads| - k
  {
    if k == |s.payloads| {
      assert BatchCadence.Messages(s.payloads)[k..] + rest == rest;
      d := c;
    } else {
      var input := BatchCadence.Messages(s.payloads)[k..] + rest;
      var more := BatchCadence.Messages(s.payloads)[k + 1..] + rest;
      BatchCadence.MessagesFrom(s.payloads, k, rest);
      var e := PayloadStepItems(cfg, s, c, k, more);
      d := PayloadsItems(cfg, s, e, k + 1, rest);
      Grpc.LeadsOn(cfg, c, input, e, more, d, rest);
    }
  }

  lemma {:induction false} OpenItems<T(!new)>(cfg: Config<T>, open: Envelope)
    requires open.Open? && SendsSucceed(cfg)
    ensures var o := Grpc.OnOpen(cfg, Start(), open);
            o.exit.None? && o.conn.defaults == open.defaults && Items(o.conn.trace) == []
  {
    ItemsSnoc<T>([], Opened);
    ItemsSnoc<T>([] + [Opened], Sent(OpenAck(open.streamId)));
  }

  lemma {:induction false} GrpcDelivers<T(!new)>(cfg: Config<T>, s: Stream)
    requires Typed(s) && SendsSucceed(cfg)
    ensures Items(Grpc.Run(cfg, Start(), Input(s)).0.trace) == Oks(cfg, s, |s.payloads|)
  {
    var close := [Message(Close("relay stop"))];
    var input, messages := Input(s), BatchCadence.Messages(s.payloads);
    assert input[0] == Message(s.open) && input[1..] == messages[0..] + close;
    OpenItems(cfg, s.open);
    var c := Grpc.OnOpen(cfg, Start(), s.open).conn;
    var d := PayloadsItems(cfg, s, c, 0, close);
    FlushItems(d, "Stream closed");
    assert Grpc.Run(cfg, d, close) == (Flush(d, "Stream closed"), Finished);
  }

  /** Either receiver delivers exactly the decodable payloads, in order. */
  lemma {:induction false} DeliveredIsOks<T(!new)>(quic: bool, cfg: Config<T>, s: Stream)
    requires Typed(s) && SendsSucceed(cfg)
    ensures Delivered(quic, cfg, s) == Oks(cfg, s, |s.payloads|)
  {
    if quic {
      var cfg', input := cfg.(grpcWeb := false), Input(s);
      assert SendsSucceed(cfg');
      assert forall i :: 0 <= i < |input| ==> !input[i].RecvError?;
      ReceiversEquivalent(cfg', OPEN_HOUSE, input);
      GrpcDelivers(cfg', s);
      OksSame(cfg, cfg', s, |s.payloads|);
    } else {
      GrpcDelivers(cfg, s);
    }
  }

  lemma OksSame<T>(a: Config<T>, b: Config<T>, s: Stream, k: nat)
    requires s.open.Open? && k <= |s.payloads|
    requires a.passthrough == b.passthrough && a.asItem == b.asItem && a.unwrap == b.unwrap
    ensures Oks(a, s, k) == Oks(b, s, k)
  {
  }

  /** The payloads with the stream's defaults filled in: what a receiver hands on. */
  function Resolved(s: Stream, k: nat): seq<WrappedPayload>
    requires s.open.Open? && k <= |s.payloads|
  {
    if k == 0 then [] else Resolved(s, k - 1) + [Rebuilt(s.payloads[k - 1], Effective(s, s.payloads[k - 1]))]
  }

  lemma {:induction false} ResolvedAt(s: Stream, k: nat)
    requires s.open.Open? && k <= |s.payloads|
    ensures |Resolved(s, k)| == k
    ensures forall i :: 0 <= i < k ==> Resolved(s, k)[i] == Rebuilt(s.payloads[i], Effective(s, s.payloads[i]))
  {
    if k > 0 {
      ResolvedAt(s, k - 1);
    }
  }

  lemma PassthroughOks(h: Hop, s: Stream, k: nat)
    requires s.open.Open? && k <= |s.payloads|
    ensures Oks(PassthroughConfig(h), s, k) == Resolved(s, k)
  {
  }

  /** A hop keeps a typed stream typed and its resolved payloads as they are. */
  lemma {:induction false} HopKeeps(h: Hop, s: Stream)
    requires Working(h) && Typed(s)
    ensures var t := Forwarded(h, s);
            Typed(t) && |t.payloads| == |s.payloads| && Resolved(t, |t.payloads|) == Resolved(s, |s.payloads|)
  {
    var n := |s.payloads|;
    var t := Forwarded(h, s);
    DeliveredIsOks(h.quic, PassthroughConfig(h), s);
    PassthroughOks(h, s, n);
    ResolvedAt(s, n);
    forall i | 0 <= i < n
      ensures t.payloads[i] == Rebuilt(s.payloads[i], Effective(s, s.payloads[i])) && t.payloads[i].metadata.Some?
      ensures Effective(t, t.payloads[i]).Some? && Effective(t, t.payloads[i]).value.contentType != ""
    {
      assert s.payloads[i] in s.payloads;
    }
    ResolvedAt(t, n);
    assert Resolved(t, n) == Resolved(s, n);
  }

  lemma {:induction false} HopsKeep(hops: seq<Hop>, s: Stream)
    requires (forall h :: h in hops ==> Working(h)) && Typed(s)
    ensures var t := Through(hops, s);
            Typed(t) && |t.payloads| == |s.payloads| && Resolved(t, |t.payloads|) == Resolved(s, |s.payloads|)
    decreases |hops|
  {
    if hops != [] {
      HopKeeps(hops[0], s);
      HopsKeep(hops[1..], Forwarded(hops[0], s));
    }
  }

  /** One value as the edge submits it. */
  datatype Submission<V> = Submission(value: V, nonce: Bytes, id: string, now: int, seqNo: Uint64)

  predicate Wraps<V>(c: Codecs<V>, e: Edge, x: Submission<V>) {
    |x.nonce| == NONCE_SIZE && WrapPayload(c, x.value, e, x.nonce, x.id, x.now).Ok?
  }

  /** `Submit` without passthrough: wrap, number, strip the metadata. */
  function Submitted<V>(c: Codecs<V>, e: Edge, x: Submission<V>): WrappedPayload
    requires Wraps(c, e, x)
  {
    WrapPayload(c, x.value, e, x.nonce, x.id, x.now).value.(seqNo := x.seqNo, metadata := None)
  }

  /** The edge's session: its Open carries the settings the payloads were wrapped with. */
  function EdgeStream<V>(c: Codecs<V>, e: Edge, streamId: string, traceId: string, xs: seq<Submission<V>>): Stream
    requires forall x :: x in xs ==> Wraps(c, e, x)
  {
    Stream(Open(streamId, Some(StandardMetadata(e.perf, e.sec, traceId)), Batch, 1024),
           seq(|xs|, i requires 0 <= i < |xs| => Submitted(c, e, xs[i])))
  }

  function Values<V>(xs: seq<Submission<V>>): seq<V> {
    seq(|xs|, i requires 0 <= i < |xs| => xs[i].value)
  }

  /** The last receiver decodes a payload from its resolved form alone. */
  lemma {:induction false} OksOfResolved<T>(cfg: Config<T>, s: Stream, t: Stream, k: nat)
    requires s.open.Open? && t.open.Open? && k <= |s.payloads| && k <= |t.payloads|
    requires forall i :: 0 <= i < k ==> SameResolved(s, t, i)
    ensures Oks(cfg, s, k) == Oks(cfg, t, k)
  {
    if k > 0 {
      OksOfResolved(cfg, s, t, k - 1);
      assert SameResolved(s, t, k - 1);
    }
  }

  ghost predicate SameResolved(s: Stream, t: Stream, i: nat)
    requires s.open.Open? && t.open.Open? && i < |s.payloads| && i < |t.payloads|
  {
    Rebuilt(s.payloads[i], Effective(s, s.payloads[i])) == Rebuilt(t.payloads[i], Effective(t, t.payloads[i]))
  }

  /** Keys the receiver can use. */
  predicate UsableKey(e: Edge) { !Encrypts(e.sec) || AesKeyLength(|e.key|) }

  function UnwrapConfig<V>(c: Codecs<V>, key: Bytes, grpcWeb: bool, sendOk: nat -> bool): Config<V> {
    Config(false, grpcWeb, wp => Err(""), wp => UnwrapPayload(c, wp, key), sendOk)
  }

  lemma {:induction false} EdgeDecodes<V(!new)>(
    c: Codecs<V>, e: Edge, streamId: string, traceId: string, xs: seq<Submission<V>>, i: nat)
    requires Lawful(c) && !c.protoTarget && i < |xs|
    requires forall x :: x in xs ==> Wraps(c, e, x)
    ensures var s := EdgeStream(c, e, streamId, traceId, xs);
            var r := UnwrapPayload(c, Rebuilt(s.payloads[i], Effective(s, s.payloads[i])), e.key);
            if UsableKey(e) then r == Ok(xs[i].value) else r.Err?
  {
    var x := xs[i];
    assert x in xs;
    var s := EdgeStream(c, e, streamId, traceId, xs);
    var p := s.payloads[i];
    assert p == Submitted(c, e, x);
    assert Rebuilt(p, Effective(s, p))
           == AsReceived(WrapPayload(c, x.value, e, x.nonce, x.id, x.now).value, e, traceId, x.seqNo);
    UnwrapUndoesWrap(c, x.value, e, x.nonce, x.id, x.now, traceId, x.seqNo);
  }

  /** What payload `i` decodes to at a receiver. */
  function DecodedAt<T>(cfg: Config<T>, s: Stream, i: nat): Result<T, string>
    requires s.open.Open? && i < |s.payloads|
  {
    Decode(cfg, Rebuilt(s.payloads[i], Effective(s, s.payloads[i])))
  }

  lemma {:induction false} OksAll<T>(cfg: Config<T>, s: Stream, vs: seq<T>, k: nat)
    requires s.open.Open? && k <= |s.payloads| && |vs| == |s.payloads|
    requires forall i :: 0 <= i < k ==> DecodedAt(cfg, s, i) == Ok(vs[i])
    ensures Oks(cfg, s, k) == vs[..k]
  {
    if k > 0 {
      OksAll(cfg, s, vs, k - 1);
      assert DecodedAt(cfg, s, k - 1) == Ok(vs[k - 1]);
    }
  }

  lemma {:induction false} OksNone<T>(cfg: Config<T>, s: Stream, k: nat)
    requires s.open.Open? && k <= |s.payloads|
    requires forall i :: 0 <= i < k ==> DecodedAt(cfg, s, i).Err?
    ensures Oks(cfg, s, k) == []
  {
    if k > 0 {
      OksNone(cfg, s, k - 1);
      assert DecodedAt(cfg, s, k - 1).Err?;
    }
  }

  lemma {:induction false} EdgeOks<V(!new)>(
    c: Codecs<V>, e: Edge, streamId: string, traceId: string, xs: seq<Submission<V>>, cfg: Config<V>)
    requires Lawful(c) && !c.protoTarget
    requires forall x :: x in xs ==> Wraps(c, e, x)
    requires !cfg.passthrough && forall wp :: cfg.unwrap(wp) == UnwrapPayload(c, wp, e.key)
    ensures Oks(cfg, EdgeStream(c, e, streamId, traceId, xs), |xs|) == if UsableKey(e) then Values(xs) else []
  {
    var s, vs := EdgeStream(c, e, streamId, traceId, xs), Values(xs);
    forall i | 0 <= i < |xs|
      ensures if UsableKey(e) then DecodedAt(cfg, s, i) == Ok(vs[i]) else DecodedAt(cfg, s, i).Err?
    {
      EdgeDecodes(c, e, streamId, traceId, xs, i);
    }
    if UsableKey(e) {
      OksAll(cfg, s, vs, |xs|);
      assert vs[..|xs|] == vs;
    } else {
      OksNone(cfg, s, |xs|);
    }
  }

  /**
   End to end.  Any values wrapped at the edge, stripped of their metadata and sent
   through any number of passthrough hops of either kind, with whatever stream
   defaults of their own, are delivered by the unwrapping receiver: all of them, in
   order, if and only if the key is usable, and otherwise none.
   */
  lemma {:induction false} EndToEnd<V(!new)>(
    c: Codecs<V>, e: Edge, streamId: string, traceId: string, xs: seq<Submission<V>>,
    hops: seq<Hop>, quic: bool, grpcWeb: bool, sendOk: nat -> bool)
    requires Lawful(c) && !c.protoTarget
    requires forall x :: x in xs ==> Wraps(c, e, x)
    requires forall h :: h in hops ==> Working(h)
    requires forall k: nat :: sendOk(k)
    ensures Delivered(quic, UnwrapConfig(c, e.key, grpcWeb, sendOk),
                      Through(hops, EdgeStream(c, e, streamId, traceId, xs)))
            == if UsableKey(e) then Values(xs) else []
  {
    var s := EdgeStream(c, e, streamId, traceId, xs);
    var cfg := UnwrapConfig(c, e.key, grpcWeb, sendOk);
    assert Typed(s);
    HopsKeep(hops, s);
    var t := Through(hops, s);
    DeliveredIsOks(quic, cfg, t);
    ResolvedAt(s, |s.payloads|);
    ResolvedAt(t, |s.payloads|);
    forall i | 0 <= i < |s.payloads| ensures SameResolved(s, t, i) {
      assert Resolved(s, |s.payloads|)[i] == Resolved(t, |s.payloads|)[i];
    }
    OksOfResolved(cfg, s, t, |s.payloads|);
    EdgeOks(c, e, streamId, traceId, xs, cfg);
  }
}
