/** Runs on which the 32-bit counters wrap: exact conservation really needs its bound. */
module CounterWrap {
  import opened Common
  import opened RelayMessages
  import opened AckLoop
  import opened AckAccounting
  import opened AckExactness
  import opened BatchMeter
  import opened BatchCadence
  import Grpc = GrpcReceiver
  import Quic = QuicReceiver

  function Repeated(p: WrappedPayload, m: nat): seq<Recv> {
    seq(m, _ => Message(Payload(p)))
  }

  /** A payload that decodes, under a configuration whose sends succeed. */
  ghost predicate Plain<T>(cfg: Config<T>, p: WrappedPayload) {
    !cfg.grpcWeb && p.metadata.Some? && Decode(cfg, Rebuilt(p, p.metadata)).Ok? && forall k: nat :: cfg.sendOk(k)
  }

  /** The totals of the two traces for delivered payloads agree up to `more` deliveries. */
  ghost predicate Grown<T>(c: Conn<T>, d: Conn<T>, more: nat) {
    && Handled(d.trace, true) == Handled(c.trace, true) + more
    && Reported(d.trace, true) == Reported(c.trace, true)
  }

  lemma RepeatedCons(p: WrappedPayload, m: nat, rest: seq<Recv>)
    requires m > 0
    ensures Repeated(p, m) + rest == [Message(Payload(p))] + (Repeated(p, m - 1) + rest)
  {
    assert Repeated(p, m) == [Message(Payload(p))] + Repeated(p, m - 1);
  }

  /** An Open that asks for batches of `n`. */
  lemma {:induction false} OpenBatch<T>(cfg: Config<T>, c: Conn<T>, p: WrappedPayload, n: Uint32) returns (d: Conn<T>)
    requires Plain(cfg, p) && n > 0
    ensures Grpc.Step(cfg, c, Message(Open("s", None, Batch, n))) == Outcome(d, None)
    ensures d == c.(streamId := "s", defaults := None, ackMode := Batch, ackEveryN := n,
                    sent := d.sent, trace := d.trace)
    ensures Grown(c, d, 0)
  {
    d := Grpc.OnOpen(cfg, c, Open("s", None, Batch, n)).conn;
    Snoc(c.trace, Opened, true);
    Snoc(c.trace + [Opened], Sent(OpenAck("s")), true);
  }

  /** One payload acknowledged by itself. */
  lemma {:induction false} OnePlain<T>(cfg: Config<T>, c: Conn<T>, p: WrappedPayload) returns (d: Conn<T>)
    requires Plain(cfg, p) && c.ackMode == PerMessage
    ensures Grpc.Step(cfg, c, Message(Payload(p))) == Outcome(d, None)
    ensures d == c.(lastSeq := p.seqNo, sent := d.sent, trace := d.trace) && Grown(c, d, 0)
  {
    var note := Delivered(Decode(cfg, Rebuilt(p, p.metadata)).value, false);
    d := Grpc.OnPayload(cfg, c, p).conn;
    Snoc(c.trace, note, true);
    Snoc(c.trace + [note], Sent(OkAck(c, p)), true);
  }

  lemma {:induction false} ManyPlain<T>(cfg: Config<T>, c: Conn<T>, p: WrappedPayload, m: nat, rest: seq<Recv>)
    returns (d: Conn<T>)
    requires Plain(cfg, p) && c.ackMode == PerMessage
    ensures Grpc.Run(cfg, c, Repeated(p, m) + rest) == Grpc.Run(cfg, d, rest)
    ensures d == c.(lastSeq := d.lastSeq, sent := d.sent, trace := d.trace) && Grown(c, d, 0)
    decreases m
  {
    if m == 0 {
      assert Repeated(p, m) + rest == rest;
      d := c;
    } else {
      RepeatedCons(p, m, rest);
      var e := OnePlain(cfg, c, p);
      Grpc.RunStep(cfg, c, Message(Payload(p)), e, Repeated(p, m - 1) + rest);
      d := ManyPlain(cfg, e, p, m - 1, rest);
    }
  }

  /** One more delivered payload, none of them acknowledged. */
  lemma {:induction false} OneMore<T>(cfg: Config<T>, c: Conn<T>, p: WrappedPayload) returns (d: Conn<T>)
    requires Plain(cfg, p) && c.ackMode == Batch && c.batchErr == 0
    requires c.ackEveryN > 0 && Inc64(c.batchSeen) % c.ackEveryN != 0
    ensures Grpc.Step(cfg, c, Message(Payload(p))) == Outcome(d, None)
    ensures d == c.(lastSeq := p.seqNo, batchOK := Inc32(c.batchOK), batchSeen := Inc64(c.batchSeen), trace := d.trace)
    ensures Grown(c, d, 1)
  {
    var note := Delivered(Decode(cfg, Rebuilt(p, p.metadata)).value, true);
    Snoc(c.trace, note, true);
    d := Grpc.OnPayload(cfg, c, p).conn;
  }

  lemma {:induction false} ManyMore<T>(cfg: Config<T>, c: Conn<T>, p: WrappedPayload, m: nat, rest: seq<Recv>)
    returns (d: Conn<T>)
    requires Plain(cfg, p) && c.ackMode == Batch && c.batchErr == 0 && c.batchOK == c.batchSeen
    requires c.batchSeen + m < c.ackEveryN < TWO32
    ensures Grpc.Run(cfg, c, Repeated(p, m) + rest) == Grpc.Run(cfg, d, rest)
    ensures d == c.(lastSeq := d.lastSeq, batchOK := c.batchOK + m, batchSeen := c.batchSeen + m, trace := d.trace)
    ensures Grown(c, d, m)
    decreases m
  {
    if m == 0 {
      assert Repeated(p, m) + rest == rest;
      d := c;
    } else {
      RepeatedCons(p, m, rest);
      SmallRest(c.batchSeen + 1, c.ackEveryN);
      var e := OneMore(cfg, c, p);
      Grpc.RunStep(cfg, c, Message(Payload(p)), e, Repeated(p, m - 1) + rest);
      d := ManyMore(cfg, e, p, m - 1, rest);
    }
  }

  const CLOSE := Message(Close("done"))

  /** With batches one smaller than what is pending, two payloads step over the multiple
      and wrap the counter; Close then sends nothing. */
  lemma {:induction false} WrapAtTheEnd<T>(cfg: Config<T>, c: Conn<T>, p: WrappedPayload) returns (d: Conn<T>)
    requires Plain(cfg, p) && c.ackMode == Batch && c.batchErr == 0
    requires c.batchOK == c.batchSeen == c.ackEveryN == TWO32 - 2
    ensures Grpc.Run(cfg, c, Repeated(p, 2) + [CLOSE]) == (d, Finished)
    ensures d.ackMode == Batch && d.batchOK == 0 && d.batchErr == 0 && Grown(c, d, 2)
  {
    var e := OneMore(cfg, c, p);
    d := OneMore(cfg, e, p);
    RepeatedCons(p, 2, [CLOSE]);
    Grpc.RunStep(cfg, c, Message(Payload(p)), e, Repeated(p, 1) + [CLOSE]);
    RepeatedCons(p, 1, [CLOSE]);
    assert Repeated(p, 0) + [CLOSE] == [CLOSE];
    Grpc.RunStep(cfg, e, Message(Payload(p)), d, [CLOSE]);
    CloseSilently(cfg, d);
  }

  lemma {:induction false} CloseSilently<T>(cfg: Config<T>, c: Conn<T>)
    requires c.batchOK == 0 && c.batchErr == 0
    ensures Grpc.Run(cfg, c, [CLOSE]) == (c, Finished)
  {
    assert [CLOSE][0] == CLOSE && Flush(c, "Stream closed") == c;
  }

  /** Re-open with a batch size one below what is pending, send two more, close. */
  function Tail(p: WrappedPayload): seq<Recv> {
    [Message(Open("s", None, Batch, TWO32 - 2))] + (Repeated(p, 2) + [CLOSE])
  }

  /** `extra` payloads acknowledged one by one, then an Open with batches of 2^32 - 1, one
      payload less than that, and the tail. */
  function WrappingInput(p: WrappedPayload, extra: nat): seq<Recv> {
    Repeated(p, extra) + ([Message(Open("s", None, Batch, TWO32 - 1))] + (Repeated(p, TWO32 - 2) + Tail(p)))
  }

  /** 2^32 payloads were delivered in batch mode, the stream closed normally, and no
      acknowledgement ever counted one of them. */
  lemma {:induction false} WrapLosesAcks<T>(cfg: Config<T>, p: WrappedPayload, extra: nat)
    requires Plain(cfg, p)
    ensures var (c, exit) := Grpc.Run(cfg, Start(), WrappingInput(p, extra));
            && exit == Finished && c.ackMode == Batch
            && Handled(c.trace, true) == TWO32 && Reported(c.trace, true) == 0 && Pending(c, true) == 0
  {
    var batch := Repeated(p, TWO32 - 2) + Tail(p);
    var open, again := Message(Open("s", None, Batch, TWO32 - 1)), Message(Open("s", None, Batch, TWO32 - 2));
    var c1 := ManyPlain(cfg, Start(), p, extra, [open] + batch);
    var c2 := OpenBatch(cfg, c1, p, TWO32 - 1);
    Grpc.RunStep(cfg, c1, open, c2, batch);
    var c3 := ManyMore(cfg, c2, p, TWO32 - 2, Tail(p));
    var c4 := OpenBatch(cfg, c3, p, TWO32 - 2);
    Grpc.RunStep(cfg, c3, again, c4, Repeated(p, 2) + [CLOSE]);
    var c5 := WrapAtTheEnd(cfg, c4, p);
  }

  lemma {:induction false} CountSplits(a: seq<Recv>, b: seq<Recv>)
    ensures PayloadCount(a + b) == PayloadCount(a) + PayloadCount(b)
    decreases |a|
  {
    if a == [] {
      assert a + b == b;
    } else {
      assert (a + b)[1..] == a[1..] + b;
      CountSplits(a[1..], b);
    }
  }

  lemma {:induction false} CountRepeated(p: WrappedPayload, m: nat)
    ensures PayloadCount(Repeated(p, m)) == m
  {
    if m > 0 {
      assert Repeated(p, m)[1..] == Repeated(p, m - 1);
      CountRepeated(p, m - 1);
    }
  }

  lemma {:induction false} CountWrapping(p: WrappedPayload, extra: nat)
    ensures PayloadCount(WrappingInput(p, extra)) == extra + TWO32
  {
    var open, again := Message(Open("s", None, Batch, TWO32 - 1)), Message(Open("s", None, Batch, TWO32 - 2));
    var batch := Repeated(p, TWO32 - 2) + Tail(p);
    CountSplits(Repeated(p, extra), [open] + batch);
    CountRepeated(p, extra);
    CountSplits([open], batch);
    CountSplits(Repeated(p, TWO32 - 2), Tail(p));
    CountRepeated(p, TWO32 - 2);
    CountSplits([again], Repeated(p, 2) + [CLOSE]);
    CountSplits(Repeated(p, 2), [CLOSE]);
    CountRepeated(p, 2);
    CountSingle(open);
    CountSingle(again);
    CountSingle(CLOSE);
  }

  lemma CountSingle(r: Recv)
    ensures PayloadCount([r]) == if CarriesPayload(r) then 1 else 0
  {
    assert [r][1..] == [];
  }

  /** Every Open that may start or continue batch mode asks for one and the same size. */
  ghost predicate Uniform(input: seq<Recv>) { exists size :: OneSize(input, size) }

  lemma {:induction false} UniformConserves<T(!new)>(cfg: Config<T>, input: seq<Recv>)
    requires Uniform(input) || PayloadCount(input) < TWO32
    ensures GrpcConserves(cfg, input)
  {
    if size :| OneSize(input, size) {
      OneSizeIsSafe(input, size);
    } else {
      FewIsSafe(input);
    }
    SafeConserves(cfg, Quic.Policy(false, [], None), input);
  }

  lemma {:induction false} WrappingFails<T(!new)>(cfg: Config<T>, p: WrappedPayload, extra: nat)
    requires Plain(cfg, p)
    ensures !GrpcConserves(cfg, WrappingInput(p, extra))
  {
    var input := WrappingInput(p, extra);
    WrapLosesAcks(cfg, p, extra);
    var (c, exit) := Grpc.Run(cfg, Start(), input);
    assert !ExactFor(c, true, true);
    assert input[..|input|] == input;
    assert !GrpcRunExact(cfg, Start(), input[..|input|]);
  }

  /**
   The worst case by numbers.  All inputs with `n` payload envelopes, or all of those that
   keep to one batch size if `uniform` is set, are conserved exactly at every loop point if and
   only if `n` is below 2^32 or `uniform` is set.
   */
  lemma {:induction false} ConservedIffFewer<T(!new)>(cfg: Config<T>, p: WrappedPayload, n: nat, uniform: bool)
    requires Plain(cfg, p)
    ensures (forall input :: PayloadCount(input) == n && (uniform ==> Uniform(input)) ==> GrpcConserves(cfg, input))
            <==> n < TWO32 || uniform
  {
    if n < TWO32 || uniform {
      forall input | PayloadCount(input) == n && (uniform ==> Uniform(input))
        ensures GrpcConserves(cfg, input)
      {
        UniformConserves(cfg, input);
      }
    } else {
      CountWrapping(p, n - TWO32);
      WrappingFails(cfg, p, n - TWO32);
    }
  }
}
