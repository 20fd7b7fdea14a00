/** Acknowledgements outside batch mode: one per message, or none. */
module MessageAcks {
  import opened Common
  import opened RelayMessages
  import opened AckLoop
  import opened BatchCadence
  import Grpc = GrpcReceiver
  import Quic = QuicReceiver
  import Same = ReceiverEquivalence

  /** The mode a first Open leads to: per message unless it asks for another. */
  function Asked(open: Envelope): AckMode
    requires open.Open?
  {
    if open.ackMode == ModeUnspecified then PerMessage else open.ackMode
  }

  /** The acknowledgement that answers payload `i`: its own ID and number, whether it decoded, and why not. */
  ghost predicate Answers<T>(cfg: Config<T>, open: Envelope, ps: seq<WrappedPayload>, i: nat, a: Ack)
    requires open.Open? && i < |ps|
  {
    && a.streamId == open.streamId && a.id == ps[i].id && a.seqNo == ps[i].seqNo
    && (a.success <==> Decodes(cfg, open.defaults, ps, i))
    && a.code == (if a.success then 0 else 1)
    && a.message == (if a.success then "OK" else Complaint(cfg, DecodeOf(cfg, open.defaults, ps, i).error))
    && a.lastSeq == 0 && a.okCount == 0 && a.errCount == 0
  }

  function Complaint<T>(cfg: Config<T>, error: string): string {
    if cfg.passthrough then "passthrough failed: " + error else "unwrap failed: " + error
  }

  /** What answers the Open itself. */
  function Greeting(open: Envelope): seq<Ack>
    requires open.Open?
  {
    if open.ackMode == NoAck then [] else [Ack(true, "Stream open accepted", open.streamId, "", 0, 0, 0, 0, 0)]
  }

  /** After `first`, one answer to each of the first `k` payloads, in order, if answers were asked for
      per message, and otherwise nothing. */
  ghost predicate Answered<T>(
    cfg: Config<T>, open: Envelope, ps: seq<WrappedPayload>, k: nat, first: seq<Ack>, acks: seq<Ack>)
    requires open.Open? && k <= |ps|
  {
    if Asked(open) != PerMessage then acks == first
    else first <= acks && InOrder(cfg, open, ps, k, acks[|first|..])
  }

  ghost predicate InOrder<T>(cfg: Config<T>, open: Envelope, ps: seq<WrappedPayload>, k: nat, answers: seq<Ack>)
    requires open.Open? && k <= |ps|
  {
    |answers| == k && forall j :: 0 <= j < k ==> Answers(cfg, open, ps, j, answers[j])
  }

  /** What has been sent after `k` payloads. */
  ghost predicate InTurn<T>(
    cfg: Config<T>, open: Envelope, ps: seq<WrappedPayload>, k: nat, first: seq<Ack>, c: Conn<T>)
    requires open.Open? && k <= |ps|
  {
    && c.streamId == open.streamId && c.ackMode == Asked(open)
    && c.defaults == DefaultsAfter(cfg.grpcWeb, open.defaults, ps[..k])
    && Answered(cfg, open, ps, k, first, Acks(c.trace))
  }

  /** Outside batch mode a payload is answered at once, or not at all. */
  lemma {:induction false} PayloadAnswered<T>(cfg: Config<T>, c: Conn<T>, p: WrappedPayload)
    returns (a: Ack, e: Conn<T>)
    requires c.ackMode != Batch && cfg.sendOk(c.sent)
    ensures Grpc.OnPayload(cfg, c, p) == Outcome(e, None)
    ensures e.streamId == c.streamId && e.ackMode == c.ackMode
    ensures e.defaults == Grpc.WebDefaults(cfg.grpcWeb, p, c.defaults).1
    ensures Acks(e.trace) == Acks(c.trace) + if c.ackMode == PerMessage then [a] else []
    ensures a.streamId == c.streamId && a.id == p.id && a.seqNo == p.seqNo
    ensures a.success <==> Decode(cfg, Rebuilt(p, Grpc.WebDefaults(cfg.grpcWeb, p, c.defaults).0)).Ok?
    ensures a.code == (if a.success then 0 else 1) && a.lastSeq == 0 && a.okCount == 0 && a.errCount == 0
    ensures var r := Decode(cfg, Rebuilt(p, Grpc.WebDefaults(cfg.grpcWeb, p, c.defaults).0));
            a.message == if r.Ok? then "OK" else Complaint(cfg, r.error)
  {
    var (meta, defaults) := Grpc.WebDefaults(cfg.grpcWeb, p, c.defaults);
    var r := Decode(cfg, Rebuilt(p, meta));
    var note := if r.Ok? then Delivered(r.value, false) else Failed(false);
    a := if r.Ok? then OkAck(c, p) else ErrorAck(c, p, FailureText(cfg.passthrough, r.error), 1);
    e := Grpc.OnPayload(cfg, c, p).conn;
    AcksSnoc(c.trace, note);
    AcksSnoc(c.trace + [note], Sent(a));
  }

  /** One answer more. */
  lemma {:induction false} AnsweredNext<T>(
    cfg: Config<T>, open: Envelope, ps: seq<WrappedPayload>, k: nat, first: seq<Ack>, acks: seq<Ack>, a: Ack)
    requires open.Open? && k < |ps| && Answered(cfg, open, ps, k, first, acks) && Answers(cfg, open, ps, k, a)
    ensures Answered(cfg, open, ps, k + 1, first, acks + if Asked(open) == PerMessage then [a] else [])
  {
    if Asked(open) == PerMessage {
      assert (acks + [a])[|first|..] == acks[|first|..] + [a];
    }
  }

  lemma {:induction false} PayloadInTurn<T>(
    cfg: Config<T>, open: Envelope, ps: seq<WrappedPayload>, k: nat, first: seq<Ack>, c: Conn<T>)
    requires open.Open? && Asked(open) != Batch
    requires k < |ps| && InTurn(cfg, open, ps, k, first, c) && cfg.sendOk(c.sent)
    ensures var o := Grpc.OnPayload(cfg, c, ps[k]);
            o.exit.None? && InTurn(cfg, open, ps, k + 1, first, o.conn)
  {
    assert ps[..k + 1][..k] == ps[..k];
    var a, e := PayloadAnswered(cfg, c, ps[k]);
    AnsweredNext(cfg, open, ps, k, first, Acks(c.trace), a);
  }

  lemma {:induction false} StepInTurn<T(!new)>(
    cfg: Config<T>, open: Envelope, ps: seq<WrappedPayload>, k: nat, first: seq<Ack>, c: Conn<T>, more: seq<Recv>)
    returns (e: Conn<T>)
    requires open.Open? && Asked(open) != Batch
    requires k < |ps| && InTurn(cfg, open, ps, k, first, c) && cfg.sendOk(c.sent)
    ensures InTurn(cfg, open, ps, k + 1, first, e) && Grpc.LeadsTo(cfg, c, [Message(Payload(ps[k]))] + more, e, more)
  {
    PayloadInTurn(cfg, open, ps, k, first, c);
    e := Grpc.OnPayload(cfg, c, ps[k]).conn;
    Grpc.RunStep(cfg, c, Message(Payload(ps[k])), e, more);
  }

  lemma {:induction false} RunInTurn<T(!new)>(
    cfg: Config<T>, open: Envelope, ps: seq<WrappedPayload>, k: nat, first: seq<Ack>, c: Conn<T>, rest: seq<Recv>)
    returns (d: Conn<T>)
    requires open.Open? && Asked(open) != Batch
    requires k <= |ps| && InTurn(cfg, open, ps, k, first, c) && Same.SendsSucceed(cfg)
    ensures InTurn(cfg, open, ps, |ps|, first, d) && Grpc.LeadsTo(cfg, c, Messages(ps)[k..] + rest, d, rest)
    decreases |ps| - k
  {
    if k == |ps| {
      assert Messages(ps)[k..] + rest == rest;
      d := c;
    } else {
      var input, more := Messages(ps)[k..] + rest, Messages(ps)[k + 1..] + rest;
      MessagesFrom(ps, k, rest);
      var e := StepInTurn(cfg, open, ps, k, first, c, more);
      d := RunInTurn(cfg, open, ps, k + 1, first, e, rest);
      Grpc.LeadsOn(cfg, c, input, e, more, d, rest);
    }
  }

  /**
   One Open that does not ask for batches, any payloads, then Close or end of stream: exactly
   one answer to each payload, in order, with its own ID, number and outcome, and nothing more
   at the end, if the Open asks for that or has no wish; no answers in any other mode; and
   with acknowledgements off, nothing at all is sent.
   */
  lemma {:induction false} AnsweredOneByOne<T(!new)>(
    cfg: Config<T>, open: Envelope, ps: seq<WrappedPayload>, last: Recv)
    requires open.Open? && Asked(open) != Batch && Same.SendsSucceed(cfg)
    requires last.EndOfStream? || (last.Message? && last.env.Close?)
    ensures var (c, exit) := Grpc.Run(cfg, Start(), [Message(open)] + Messages(ps) + [last]);
            && exit == Finished
            && Answered(cfg, open, ps, |ps|, Greeting(open), Acks(c.trace))
  {
    var input := [Message(open)] + Messages(ps) + [last];
    assert input[0] == Message(open) && input[1..] == Messages(ps)[0..] + [last];
    OpenInTurn(cfg, open, ps);
    var d := RunInTurn(cfg, open, ps, 0, Greeting(open), Grpc.OnOpen(cfg, Start(), open).conn, [last]);
    EndInTurn(cfg, d, last);
  }

  lemma {:induction false} OpenInTurn<T(!new)>(cfg: Config<T>, open: Envelope, ps: seq<WrappedPayload>)
    requires open.Open? && Asked(open) != Batch && Same.SendsSucceed(cfg)
    ensures var o := Grpc.OnOpen(cfg, Start(), open);
            o.exit.None? && InTurn(cfg, open, ps, 0, Greeting(open), o.conn)
  {
    AcksSnoc<T>([], Opened);
    AcksSnoc<T>([] + [Opened], Sent(OpenAck(open.streamId)));
  }

  lemma {:induction false} EndInTurn<T>(cfg: Config<T>, d: Conn<T>, last: Recv)
    requires d.ackMode != Batch && (last.EndOfStream? || (last.Message? && last.env.Close?))
    ensures Grpc.Run(cfg, d, [last]) == (d, Finished)
  {
    assert [last][0] == last;
  }

  /** The QUIC receiver answers in the same way. */
  lemma {:induction false} QuicAnsweredOneByOne<T(!new)>(
    cfg: Config<T>, policy: Quic.Policy, open: Envelope, ps: seq<WrappedPayload>, last: Recv)
    requires open.Open? && Asked(open) != Batch
    requires !cfg.grpcWeb && Same.NeverRefuses(policy) && Same.SendsSucceed(cfg)
    requires last.EndOfStream? || (last.Message? && last.env.Close?)
    ensures var (g, exit) := Quic.Run(cfg, policy, Quic.Begin(), [Message(open)] + Messages(ps) + [last]);
            && exit == Finished
            && Answered(cfg, open, ps, |ps|, Greeting(open), Acks(g.conn.trace))
  {
    var input := [Message(open)] + Messages(ps) + [last];
    AnsweredOneByOne(cfg, open, ps, last);
    Same.ReceiversEquivalent(cfg, policy, input);
    AcksVisible(Quic.Run(cfg, policy, Quic.Begin(), input).0.conn.trace);
  }

  /** Payloads that come before any Open are answered one by one under the empty stream ID. */
  lemma {:induction false} UnopenedAnswered<T(!new)>(cfg: Config<T>, ps: seq<WrappedPayload>, last: Recv)
    requires Same.SendsSucceed(cfg) && (last.EndOfStream? || (last.Message? && last.env.Close?))
    ensures var (c, exit) := Grpc.Run(cfg, Start(), Messages(ps) + [last]);
            && exit == Finished
            && Answered(cfg, Open("", None, PerMessage, 0), ps, |ps|, [], Acks(c.trace))
  {
    var open := Open("", None, PerMessage, 0);
    assert Messages(ps)[0..] + [last] == Messages(ps) + [last];
    assert InTurn(cfg, open, ps, 0, [], Start());
    var d := RunInTurn(cfg, open, ps, 0, [], Start(), [last]);
    EndInTurn(cfg, d, last);
  }
}
