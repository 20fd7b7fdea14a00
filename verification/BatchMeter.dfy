/**
 Which streams keep exact accounts.  A sender can tell from its own envelopes: it meters the
 payloads since the last full batch, and the accounts are exact as long as that meter never
 reaches 2^32.
 */
module BatchMeter {
  import opened Common
  import opened RelayMessages
  import opened AckLoop
  import opened AckAccounting
  import opened AckExactness
  import Grpc = GrpcReceiver
  import Quic = QuicReceiver
  import Same = ReceiverEquivalence

  /** What a sender knows about its stream: the mode and batch size its Opens asked for, and
      the payloads sent in batch mode since the last full batch. */
  datatype Meter = Meter(mode: AckMode, size: Uint64, seen: nat)

  const METER := Meter(PerMessage, 0, 0)

  /** The envelope goes into a batch. */
  predicate Counts(m: Meter, r: Recv) { m.mode == Batch && CarriesPayload(r) }

  /** The envelope, or the lack of one, ends the stream. */
  predicate Ends(r: Recv) { !r.Message? || r.env.Close? }

  function Metered(m: Meter, r: Recv): Meter {
    if r.Message? && r.env.Open? then
      var mode := if r.env.ackMode == ModeUnspecified then m.mode else r.env.ackMode;
      m.(mode := mode,
         size := if mode != Batch then m.size else if r.env.ackEveryN == 0 then 1024 else r.env.ackEveryN)
    else if Counts(m, r) then
      m.(seen := if BatchFull(m.seen + 1, m.size) then 0 else m.seen + 1)
    else m
  }

  /** The meter stays below 2^32 up to the end of the stream. */
  predicate Safe(m: Meter, input: seq<Recv>)
    decreases |input|
  {
    || input == []
    || ((Counts(m, input[0]) ==> m.seen + 1 < TWO32)
        && (Ends(input[0]) || Safe(Metered(m, input[0]), input[1..])))
  }

  // ---------- the receiver follows the meter ----------

  ghost predicate Follows<T>(m: Meter, c: Conn<T>) {
    && c.ackMode == m.mode && (m.mode == Batch ==> c.ackEveryN == m.size)
    && c.batchSeen == m.seen < TWO32 && c.batchOK + c.batchErr == c.batchSeen
  }

  /** Reported plus pending is handled. */
  ghost predicate Even<T>(trace: seq<Note<T>>, batchOK: Uint32, batchErr: Uint32) {
    && Reported(trace, true) + batchOK == Handled(trace, true)
    && Reported(trace, false) + batchErr == Handled(trace, false)
  }

  ghost predicate Settles<T>(c: Conn<T>) { Even(c.trace, c.batchOK, c.batchErr) }

  ghost predicate Silent<T>(n: Note<T>) {
    (n.Sent? ==> n.ack.okCount == 0 && n.ack.errCount == 0) && (n.Delivered? || n.Failed? ==> !n.inBatch)
  }

  lemma {:induction false} SilentEven<T>(t: seq<Note<T>>, n: Note<T>, batchOK: Uint32, batchErr: Uint32)
    requires Even(t, batchOK, batchErr) && Silent(n)
    ensures Even(t + [n], batchOK, batchErr)
  {
    Snoc(t, n, true);
    Snoc(t, n, false);
  }

  lemma {:induction false} FlushEven<T>(c: Conn<T>, message: string)
    requires Settles(c)
    ensures Settles(Flush(c, message))
  {
    Snoc(c.trace, Sent(BatchAck(c, message)), true);
    Snoc(c.trace, Sent(BatchAck(c, message)), false);
  }

  /** The state with one more payload of the outcome counted. */
  function Counted<T>(c: Conn<T>, n: Note<T>, ok: bool): Conn<T> {
    (if ok then c.(batchOK := Inc32(c.batchOK)) else c.(batchErr := Inc32(c.batchErr)))
    .(batchSeen := Inc64(c.batchSeen), trace := c.trace + [n])
  }

  lemma {:induction false} CountEven<T>(m: Meter, c: Conn<T>, n: Note<T>, ok: bool)
    requires Follows(m, c) && Settles(c) && m.seen + 1 < TWO32
    requires (if ok then n.Delivered? else n.Failed?) && n.inBatch
    ensures var d := Counted(c, n, ok);
            Settles(d) && d.batchSeen == m.seen + 1 && d.batchOK + d.batchErr == d.batchSeen
  {
    Snoc(c.trace, n, true);
    Snoc(c.trace, n, false);
  }

  /** Counted, and flushed if the batch is full. */
  lemma {:induction false} CountFollows<T>(m: Meter, c: Conn<T>, n: Note<T>, ok: bool, full: bool)
    requires Follows(m, c) && Settles(c) && m.seen + 1 < TWO32 && m.mode == Batch
    requires (if ok then n.Delivered? else n.Failed?) && n.inBatch
    ensures var d := Counted(c, n, ok);
            var e := if full then Flush(d, "Batch ack") else d;
            Settles(e) && Follows(m.(seen := if full then 0 else m.seen + 1), e)
  {
    CountEven(m, c, n, ok);
    FlushEven(Counted(c, n, ok), "Batch ack");
  }

  lemma {:induction false} TallyCounts<T>(m: Meter, c: Conn<T>, n: Note<T>, ok: bool)
    requires Follows(m, c) && m.seen + 1 < TWO32 && m.mode == Batch
    ensures var d := Counted(c, n, ok);
            Tally(c.(trace := c.trace + [n]), ok)
            == if BatchFull(m.seen + 1, m.size) then Flush(d, "Batch ack") else d
  {
  }

  lemma {:induction false} TallyFollows<T>(m: Meter, c: Conn<T>, n: Note<T>, ok: bool, r: Recv, e: Conn<T>)
    requires Follows(m, c) && Settles(c) && m.seen + 1 < TWO32 && Counts(m, r)
    requires (if ok then n.Delivered? else n.Failed?) && n.inBatch
    requires e == Tally(c.(trace := c.trace + [n]), ok)
    ensures Settles(e) && Follows(Metered(m, r), e)
  {
    TallyCounts(m, c, n, ok);
    CountFollows(m, c, n, ok, BatchFull(m.seen + 1, m.size));
  }

  /** A payload that is not counted leaves the counters alone. */
  lemma {:induction false} AloneFollows<T>(m: Meter, c: Conn<T>, n: Note<T>, ack: Ack)
    requires Follows(m, c) && Settles(c) && m.mode != Batch
    requires (n.Delivered? || n.Failed?) && !n.inBatch && ack.okCount == 0 && ack.errCount == 0
    ensures var d := c.(trace := c.trace + [n]);
            && Settles(d) && Follows(m, d)
            && Settles(Send(d, ack)) && Follows(m, Send(d, ack))
  {
    var d := c.(trace := c.trace + [n]);
    SilentEven(c.trace, n, c.batchOK, c.batchErr);
    SilentEven(d.trace, Sent(ack), c.batchOK, c.batchErr);
  }

  /** What both loops do with a payload: its note, then what the mode asks for. */
  ghost predicate Dealt<T>(c: Conn<T>, n: Note<T>, ack: Ack, ok: bool, e: Conn<T>) {
    var d := c.(trace := c.trace + [n]);
    && (if ok then n.Delivered? else n.Failed?) && (n.inBatch <==> c.ackMode == Batch)
    && ack.okCount == 0 && ack.errCount == 0
    && if c.ackMode == Batch then e == Tally(d, ok) else e == d || e == Send(d, ack)
  }

  lemma {:induction false} DealtFollows<T>(
    m: Meter, c: Conn<T>, n: Note<T>, ack: Ack, ok: bool, e: Conn<T>, r: Recv)
    requires Follows(m, c) && Settles(c) && Dealt(c, n, ack, ok, e) && CarriesPayload(r)
    requires Counts(m, r) ==> m.seen + 1 < TWO32
    ensures Settles(e) && Follows(Metered(m, r), e)
  {
    if m.mode == Batch {
      TallyFollows(m, c, n, ok, r, e);
    } else {
      AloneFollows(m, c, n, ack);
    }
  }

  lemma {:induction false} GrpcDeals<T>(cfg: Config<T>, c: Conn<T>, p: WrappedPayload)
    returns (d: Conn<T>, n: Note<T>, ack: Ack, ok: bool)
    ensures Dealt(d, n, ack, ok, Grpc.OnPayload(cfg, c, p).conn)
    ensures d == c.(defaults := d.defaults, lastSeq := p.seqNo)
    ensures ok == Decode(cfg, Rebuilt(p, Grpc.WebDefaults(cfg.grpcWeb, p, c.defaults).0)).Ok?
  {
    var (meta, defaults) := Grpc.WebDefaults(cfg.grpcWeb, p, c.defaults);
    d := c.(defaults := defaults, lastSeq := p.seqNo);
    var r := Decode(cfg, Rebuilt(p, meta));
    ok := r.Ok?;
    n := if ok then Delivered(r.value, d.ackMode == Batch) else Failed(d.ackMode == Batch);
    ack := if ok then OkAck(d, p) else ErrorAck(d, p, FailureText(cfg.passthrough, r.error), 1);
  }

  lemma {:induction false} QuicDeals<T>(cfg: Config<T>, c: Conn<T>, p: WrappedPayload, meta: Option<Metadata>)
    returns (d: Conn<T>, n: Note<T>, ack: Ack, ok: bool)
    ensures Dealt(d, n, ack, ok, Quic.Settle(cfg, c, p, meta).conn)
    ensures d == c.(lastSeq := p.seqNo)
  {
    d := c.(lastSeq := p.seqNo);
    var r := Decode(cfg, Rebuilt(p, meta));
    ok := r.Ok?;
    n := if ok then Delivered(r.value, d.ackMode == Batch) else Failed(d.ackMode == Batch);
    ack := if ok then OkAck(d, p) else ErrorAck(d, p, FailureText(cfg.passthrough, r.error), 1);
  }

  lemma {:induction false} GrpcOpenFollows<T>(cfg: Config<T>, m: Meter, c: Conn<T>, r: Recv)
    requires Follows(m, c) && Settles(c) && r.Message? && r.env.Open?
    ensures var d := Grpc.OnOpen(cfg, c, r.env).conn;
            Settles(d) && Follows(Metered(m, r), d)
  {
    SilentEven(c.trace, Opened, c.batchOK, c.batchErr);
    SilentEven(c.trace + [Opened], Sent(OpenAck(r.env.streamId)), c.batchOK, c.batchErr);
  }

  lemma {:induction false} GrpcPayloadFollows<T>(cfg: Config<T>, m: Meter, c: Conn<T>, r: Recv)
    requires Follows(m, c) && Settles(c) && CarriesPayload(r) && (Counts(m, r) ==> m.seen + 1 < TWO32)
    ensures var d := Grpc.OnPayload(cfg, c, r.env.wrapped).conn;
            Settles(d) && Follows(Metered(m, r), d)
  {
    var d, n, ack, ok := GrpcDeals(cfg, c, r.env.wrapped);
    DealtFollows(m, d, n, ack, ok, Grpc.OnPayload(cfg, c, r.env.wrapped).conn, r);
  }

  lemma {:induction false} GrpcStepFollows<T>(cfg: Config<T>, m: Meter, c: Conn<T>, r: Recv)
    requires Follows(m, c) && Settles(c) && (Counts(m, r) ==> m.seen + 1 < TWO32)
    ensures var o := Grpc.Step(cfg, c, r);
            Settles(o.conn) && (o.exit.None? ==> Follows(Metered(m, r), o.conn))
  {
    match r
    case EndOfStream => FlushEven(c, "EOF");
    case RecvError(_) => FlushEven(c, "context done");
    case Message(env) =>
      match env
      case Open(_, _, _, _) => GrpcOpenFollows(cfg, m, c, r);
      case Close(_) => FlushEven(c, "Stream closed");
      case NoMessage =>
      case Payload(_) => GrpcPayloadFollows(cfg, m, c, r);
  }

  lemma {:induction false} GrpcRunFollows<T>(cfg: Config<T>, m: Meter, c: Conn<T>, input: seq<Recv>)
    requires Follows(m, c) && Settles(c) && Safe(m, input)
    ensures var (d, exit) := Grpc.Run(cfg, c, input);
            && Settles(d)
            && (exit in {Finished, ContextDone} && d.ackMode == Batch ==> d.batchOK == 0 && d.batchErr == 0)
    decreases |input|
  {
    if input != [] {
      GrpcStepFollows(cfg, m, c, input[0]);
      GrpcExitFlushed(cfg, c, input[0]);
      var o := Grpc.Step(cfg, c, input[0]);
      if o.exit.None? {
        GrpcRunFollows(cfg, Metered(m, input[0]), o.conn, input[1..]);
      }
    }
  }

  lemma {:induction false} CheckOpenEven<T>(policy: Quic.Policy, g: Quic.Gate<T>, meta: Option<Metadata>)
    requires Settles(g.conn)
    ensures var h := Quic.CheckOpen(policy, g, meta).gate;
            Settles(h.conn) && h.conn == g.conn.(sent := h.conn.sent, trace := h.conn.trace)
  {
    var c, md := g.conn, Quic.MetadataHeaders(meta);
    var v := Quic.Validate(policy, g.asked, md).0;
    if v.Valid? {
      SilentEven(c.trace, Checked(md, g.asked), c.batchOK, c.batchErr);
    } else if v.Rejected? {
      SilentEven(c.trace, Sent(Quic.OpenRefusal(c.streamId, v)), c.batchOK, c.batchErr);
    }
  }

  /** The acknowledgement of an Open touches no counter. */
  lemma {:induction false} GreetingEven<T>(c: Conn<T>)
    requires Settles(c)
    ensures Settles(Send(c, OpenAck(c.streamId)))
  {
    SilentEven(c.trace, Sent(OpenAck(c.streamId)), c.batchOK, c.batchErr);
  }

  lemma {:induction false} ReparamFollows<T>(m: Meter, c: Conn<T>, r: Recv)
    requires Follows(m, c) && Settles(c) && r.Message? && r.env.Open?
    ensures Settles(Quic.Reparam(c, r.env)) && Follows(Metered(m, r), Quic.Reparam(c, r.env))
  {
    SilentEven(c.trace, Opened, c.batchOK, c.batchErr);
  }

  lemma {:induction false} QuicOpenFollows<T>(
    cfg: Config<T>, policy: Quic.Policy, m: Meter, g: Quic.Gate<T>, r: Recv)
    requires Follows(m, g.conn) && Settles(g.conn) && r.Message? && r.env.Open?
    ensures var o := Quic.OnOpen(cfg, policy, g, r.env);
            Settles(o.gate.conn) && Follows(Metered(m, r), o.gate.conn)
  {
    var h := g.(conn := Quic.Reparam(g.conn, r.env));
    ReparamFollows(m, g.conn, r);
    CheckOpenEven(policy, h, r.env.defaults);
    var c := Quic.CheckOpen(policy, h, r.env.defaults).gate.conn;
    GreetingEven(c);
  }

  lemma {:induction false} AdmitEven<T>(
    policy: Quic.Policy, g: Quic.Gate<T>, p: WrappedPayload, meta: Option<Metadata>)
    requires Settles(g.conn)
    ensures var h := Quic.Admit(policy, g, p, meta).gate;
            Settles(h.conn) && h.conn == g.conn.(sent := h.conn.sent, trace := h.conn.trace)
  {
    var c, md := g.conn, Quic.MetadataHeaders(meta);
    var v := Quic.Validate(policy, g.asked, md).0;
    SilentEven(c.trace, Checked(md, g.asked), c.batchOK, c.batchErr);
    if !v.Valid? {
      SilentEven(c.trace, Sent(ErrorAck(c, p, "auth failed: " + Quic.ErrorText(v), 401)), c.batchOK, c.batchErr);
    }
  }

  lemma {:induction false} QuicPayloadFollows<T>(
    cfg: Config<T>, policy: Quic.Policy, m: Meter, g: Quic.Gate<T>, r: Recv)
    requires Follows(m, g.conn) && Settles(g.conn) && CarriesPayload(r) && (Counts(m, r) ==> m.seen + 1 < TWO32)
    ensures var o := Quic.OnPayload(cfg, policy, g, r.env.wrapped);
            Settles(o.gate.conn) && (o.exit.None? ==> Follows(Metered(m, r), o.gate.conn))
  {
    var p := r.env.wrapped;
    var meta := if p.metadata.Some? then p.metadata else g.conn.defaults;
    AdmitEven(policy, g, p, meta);
    var a := Quic.Admit(policy, g, p, meta);
    if a.exit.None? {
      var d, n, ack, ok := QuicDeals(cfg, a.gate.conn, p, meta);
      DealtFollows(m, d, n, ack, ok, Quic.Settle(cfg, a.gate.conn, p, meta).conn, r);
    }
  }

  lemma {:induction false} QuicStepFollows<T>(
    cfg: Config<T>, policy: Quic.Policy, m: Meter, g: Quic.Gate<T>, r: Recv)
    requires Follows(m, g.conn) && Settles(g.conn) && (Counts(m, r) ==> m.seen + 1 < TWO32)
    ensures var o := Quic.Step(cfg, policy, g, r);
            Settles(o.gate.conn) && (o.exit.None? ==> Follows(Metered(m, r), o.gate.conn))
  {
    match r
    case EndOfStream => FlushEven(g.conn, "EOF");
    case RecvError(_) => FlushEven(g.conn, "recv error");
    case Message(env) =>
      match env
      case Close(_) => FlushEven(g.conn, "Stream closed");
      case NoMessage =>
      case Open(_, _, _, _) => QuicOpenFollows(cfg, policy, m, g, r);
      case Payload(_) => QuicPayloadFollows(cfg, policy, m, g, r);
  }

  lemma {:induction false} QuicRunFollows<T>(
    cfg: Config<T>, policy: Quic.Policy, m: Meter, g: Quic.Gate<T>, input: seq<Recv>)
    requires Follows(m, g.conn) && Settles(g.conn) && Safe(m, input)
    ensures var (h, exit) := Quic.Run(cfg, policy, g, input);
            && Settles(h.conn)
            && (exit in {Finished, RecvFailed} && h.conn.ackMode == Batch ==>
                  h.conn.batchOK == 0 && h.conn.batchErr == 0)
    decreases |input|
  {
    if input != [] {
      QuicStepFollows(cfg, policy, m, g, input[0]);
      QuicExitFlushed(cfg, policy, g, input[0]);
      var o := Quic.Step(cfg, policy, g, input[0]);
      if o.exit.None? {
        QuicRunFollows(cfg, policy, Metered(m, input[0]), o.gate, input[1..]);
      }
    }
  }

  // ---------- safe streams are conserved ----------

  /** Exactness of one run of a loop from some state. */
  ghost predicate GrpcRunExact<T>(cfg: Config<T>, c: Conn<T>, input: seq<Recv>) {
    var (d, exit) := Grpc.Run(cfg, c, input);
    Exact(d, exit in {Finished, ContextDone} && d.ackMode == Batch)
  }

  ghost predicate QuicRunExact<T>(cfg: Config<T>, policy: Quic.Policy, g: Quic.Gate<T>, input: seq<Recv>) {
    var (h, exit) := Quic.Run(cfg, policy, g, input);
    Exact(h.conn, exit in {Finished, RecvFailed} && h.conn.ackMode == Batch)
  }

  /** Exactness at every loop point: after every prefix of the input. */
  ghost predicate GrpcAlwaysExact<T>(cfg: Config<T>, c: Conn<T>, input: seq<Recv>) {
    forall k :: 0 <= k <= |input| ==> GrpcRunExact(cfg, c, input[..k])
  }

  ghost predicate QuicAlwaysExact<T>(cfg: Config<T>, policy: Quic.Policy, g: Quic.Gate<T>, input: seq<Recv>) {
    forall k :: 0 <= k <= |input| ==> QuicRunExact(cfg, policy, g, input[..k])
  }

  ghost predicate GrpcConserves<T>(cfg: Config<T>, input: seq<Recv>) { GrpcAlwaysExact(cfg, Start(), input) }

  ghost predicate QuicConserves<T>(cfg: Config<T>, policy: Quic.Policy, input: seq<Recv>) {
    QuicAlwaysExact(cfg, policy, Quic.Begin(), input)
  }

  lemma {:induction false} SafePrefix(m: Meter, input: seq<Recv>, k: nat)
    requires Safe(m, input) && k <= |input|
    ensures Safe(m, input[..k])
    decreases |input|
  {
    if k > 0 && !Ends(input[0]) {
      assert input[..k][1..] == input[1..][..k - 1];
      SafePrefix(Metered(m, input[0]), input[1..], k - 1);
    }
  }

  lemma {:induction false} SettledIsExact<T>(c: Conn<T>, flushed: bool)
    requires Settles(c) && (flushed ==> c.batchOK == 0 && c.batchErr == 0)
    ensures Exact(c, flushed)
  {
    forall ok
      ensures ExactFor(c, flushed, ok)
    {
    }
  }

  lemma {:induction false} StartFollows<T(!new)>() returns (m: Meter, c: Conn<T>, g: Quic.Gate<T>)
    ensures m == METER && c == Start() && g == Quic.Begin()
    ensures Follows(m, c) && Settles(c) && c.batchErr == 0 && g.conn == c && Same.Alike(c, g.conn)
  {
    m := METER;
    c := NothingYet();
    g := Quic.Begin();
  }

  lemma {:induction false} NothingYet<T(!new)>() returns (c: Conn<T>)
    ensures c == Start() && c.trace == [] && Settles(c) && Same.Alike(c, c)
  {
    c := Start();
    EmptyEven<T>();
  }

  lemma {:induction false} EmptyEven<T(!new)>()
    ensures Even<T>([], 0, 0) && Same.Visible<T>([]) == []
  {
  }

  lemma {:induction false} FollowingIsExact<T>(
    cfg: Config<T>, policy: Quic.Policy, m: Meter, c: Conn<T>, g: Quic.Gate<T>, input: seq<Recv>)
    requires Follows(m, c) && Settles(c) && g.conn == c && Safe(m, input)
    ensures GrpcRunExact(cfg, c, input) && QuicRunExact(cfg, policy, g, input)
  {
    GrpcRunFollows(cfg, m, c, input);
    var (d, x) := Grpc.Run(cfg, c, input);
    SettledIsExact(d, x in {Finished, ContextDone} && d.ackMode == Batch);
    QuicRunFollows(cfg, policy, m, g, input);
    var (h, y) := Quic.Run(cfg, policy, g, input);
    SettledIsExact(h.conn, y in {Finished, RecvFailed} && h.conn.ackMode == Batch);
  }

  lemma {:induction false} AlwaysExact<T>(
    cfg: Config<T>, policy: Quic.Policy, m: Meter, c: Conn<T>, g: Quic.Gate<T>, input: seq<Recv>)
    requires Follows(m, c) && Settles(c) && g.conn == c && Safe(m, input)
    ensures GrpcAlwaysExact(cfg, c, input) && QuicAlwaysExact(cfg, policy, g, input)
  {
    forall k | 0 <= k <= |input|
      ensures GrpcRunExact(cfg, c, input[..k]) && QuicRunExact(cfg, policy, g, input[..k])
    {
      SafePrefix(m, input, k);
      FollowingIsExact(cfg, policy, m, c, g, input[..k]);
    }
  }

  /** A safe stream is conserved exactly at every loop point, by both receivers and under any
      configuration and policy. */
  lemma {:induction false} SafeConserves<T(!new)>(cfg: Config<T>, policy: Quic.Policy, input: seq<Recv>)
    requires Safe(METER, input)
    ensures GrpcConserves(cfg, input) && QuicConserves(cfg, policy, input)
  {
    var m, c, g := StartFollows<T>();
    AlwaysExact(cfg, policy, m, c, g, input);
  }

  // ---------- unsafe streams are not ----------

  /** Every payload decodes and every send succeeds. */
  ghost predicate Faultless<T(!new)>(cfg: Config<T>) {
    && !cfg.grpcWeb && Same.SendsSucceed(cfg)
    && forall p :: Decode(cfg, p).Ok?
  }

  /** The payload that takes the meter to 2^32 wraps the counter. */
  lemma {:induction false} CounterWraps<T>(m: Meter, c: Conn<T>, n: Note<T>, e: Conn<T>)
    requires Follows(m, c) && Settles(c) && c.batchErr == 0 && m.mode == Batch && m.seen + 1 == TWO32
    requires n.Delivered? && n.inBatch && e == Tally(c.(trace := c.trace + [n]), true)
    ensures !ExactFor(e, false, true)
  {
    Snoc(c.trace, n, true);
  }

  lemma {:induction false} GoesOn<T(!new)>(cfg: Config<T>, m: Meter, c: Conn<T>, r: Recv)
    requires Faultless(cfg) && Follows(m, c) && Settles(c) && c.batchErr == 0 && !Ends(r)
    requires Counts(m, r) ==> m.seen + 1 < TWO32
    ensures var o := Grpc.Step(cfg, c, r);
            o.exit.None? && Follows(Metered(m, r), o.conn) && Settles(o.conn) && o.conn.batchErr == 0
  {
    GrpcStepFollows(cfg, m, c, r);
    if CarriesPayload(r) {
      var d, n, ack, ok := GrpcDeals(cfg, c, r.env.wrapped);
    }
  }

  /** On an unsafe stream some loop point is off, before anything has ended the stream. */
  lemma {:induction false} UnsafeWraps<T(!new)>(cfg: Config<T>, m: Meter, c: Conn<T>, input: seq<Recv>)
    returns (k: nat)
    requires Faultless(cfg) && Follows(m, c) && Settles(c) && c.batchErr == 0 && !Safe(m, input)
    ensures k <= |input| && !ExactFor(Grpc.Run(cfg, c, input[..k]).0, false, true)
    ensures forall i :: 0 <= i < k ==> !Ends(input[i])
    decreases |input|
  {
    var r := input[0];
    if Counts(m, r) && m.seen + 1 >= TWO32 {
      k := 1;
      var d, n, ack, ok := GrpcDeals(cfg, c, r.env.wrapped);
      var e := Grpc.OnPayload(cfg, c, r.env.wrapped).conn;
      CounterWraps(m, d, n, e);
      assert input[..1] == [r];
    } else {
      GoesOn(cfg, m, c, r);
      var j := UnsafeWraps(cfg, Metered(m, r), Grpc.Step(cfg, c, r).conn, input[1..]);
      k := j + 1;
      assert input[..k][0] == r && input[..k][1..] == input[1..][..j];
    }
  }

  lemma {:induction false} VisibleCounts<T>(trace: seq<Note<T>>, ok: bool)
    ensures Handled(Same.Visible(trace), ok) == Handled(trace, ok)
    ensures Reported(Same.Visible(trace), ok) == Reported(trace, ok)
    decreases |trace|
  {
    if trace != [] {
      var front, last := trace[..|trace| - 1], trace[|trace| - 1];
      VisibleCounts(front, ok);
      Snoc(Same.Visible(front), last, ok);
    }
  }

  lemma {:induction false} QuicWraps<T(!new)>(
    cfg: Config<T>, policy: Quic.Policy, c: Conn<T>, g: Quic.Gate<T>, input: seq<Recv>)
    requires Faultless(cfg) && Same.NeverRefuses(policy) && Same.Alike(c, g.conn)
    requires forall i :: 0 <= i < |input| ==> !Ends(input[i])
    requires !ExactFor(Grpc.Run(cfg, c, input).0, false, true)
    ensures !ExactFor(Quic.Run(cfg, policy, g, input).0.conn, false, true)
  {
    Same.RunSimulates(cfg, policy, c, g, input);
    Same.RunNeverRefuses(cfg, policy, g, input);
    VisibleCounts(Quic.Run(cfg, policy, g, input).0.conn.trace, true);
  }

  lemma {:induction false} NotExact<T>(c: Conn<T>, flushed: bool)
    requires !ExactFor(c, false, true)
    ensures !Exact(c, flushed)
  {
    assert !ExactFor(c, flushed, true);
  }

  lemma {:induction false} WrappedRuns<T(!new)>(
    cfg: Config<T>, policy: Quic.Policy, c: Conn<T>, g: Quic.Gate<T>, input: seq<Recv>)
    requires Faultless(cfg) && Same.NeverRefuses(policy) && Same.Alike(c, g.conn)
    requires forall i :: 0 <= i < |input| ==> !Ends(input[i])
    requires !ExactFor(Grpc.Run(cfg, c, input).0, false, true)
    ensures !GrpcRunExact(cfg, c, input) && !QuicRunExact(cfg, policy, g, input)
  {
    QuicWraps(cfg, policy, c, g, input);
    var (d, x) := Grpc.Run(cfg, c, input);
    NotExact(d, x in {Finished, ContextDone} && d.ackMode == Batch);
    var (h, y) := Quic.Run(cfg, policy, g, input);
    NotExact(h.conn, y in {Finished, RecvFailed} && h.conn.ackMode == Batch);
  }

  lemma {:induction false} NotAlwaysExact<T(!new)>(
    cfg: Config<T>, policy: Quic.Policy, m: Meter, c: Conn<T>, g: Quic.Gate<T>, input: seq<Recv>)
    requires Faultless(cfg) && Same.NeverRefuses(policy) && Same.Alike(c, g.conn)
    requires Follows(m, c) && Settles(c) && c.batchErr == 0 && !Safe(m, input)
    ensures !GrpcAlwaysExact(cfg, c, input) && !QuicAlwaysExact(cfg, policy, g, input)
  {
    var k := UnsafeWraps(cfg, m, c, input);
    WrappedRuns(cfg, policy, c, g, input[..k]);
  }

  lemma {:induction false} FromStart<T(!new)>(
    cfg: Config<T>, policy: Quic.Policy, c: Conn<T>, g: Quic.Gate<T>, input: seq<Recv>)
    requires c == Start() && g == Quic.Begin()
    ensures GrpcConserves(cfg, input) ==> GrpcAlwaysExact(cfg, c, input)
    ensures QuicConserves(cfg, policy, input) ==> QuicAlwaysExact(cfg, policy, g, input)
  {
  }

  lemma {:induction false} UnsafeFails<T(!new)>(cfg: Config<T>, policy: Quic.Policy, input: seq<Recv>)
    requires Faultless(cfg) && Same.NeverRefuses(policy) && !Safe(METER, input)
    ensures !GrpcConserves(cfg, input) && !QuicConserves(cfg, policy, input)
  {
    var m, c, g := StartFollows<T>();
    FromStart(cfg, policy, c, g, input);
    NotAlwaysExact(cfg, policy, m, c, g, input);
  }

  /**
   The exact condition, stream by stream.  A sender's envelopes are accounted for exactly at
   every loop point, whatever decodes and whichever sends fail, if and only if its meter
   never reaches 2^32; for the QUIC receiver, under every policy as well.  `sound` is any
   configuration and `open` any policy under which nothing goes wrong.
   */
  lemma {:induction false} ConservedIffSafe<T(!new)>(sound: Config<T>, open: Quic.Policy, input: seq<Recv>)
    requires Faultless(sound) && Same.NeverRefuses(open)
    ensures (forall cfg: Config<T> :: GrpcConserves(cfg, input)) <==> Safe(METER, input)
    ensures (forall cfg: Config<T>, policy :: QuicConserves(cfg, policy, input)) <==> Safe(METER, input)
  {
    if Safe(METER, input) {
      forall cfg: Config<T>
        ensures GrpcConserves(cfg, input)
      {
        SafeConserves(cfg, open, input);
      }
      forall cfg: Config<T>, policy
        ensures QuicConserves(cfg, policy, input)
      {
        SafeConserves(cfg, policy, input);
      }
    } else {
      UnsafeFails(sound, open, input);
    }
  }

  // ---------- what makes a stream safe ----------

  /** Every Open that may start or continue batch mode asks for the same batch size. */
  predicate OneSize(input: seq<Recv>, size: Uint32) {
    forall i :: 0 <= i < |input| && input[i].Message? && input[i].env.Open?
                && (input[i].env.ackMode == Batch || input[i].env.ackMode == ModeUnspecified) ==>
                  BatchSize(input[i].env.ackEveryN) == size
  }

  lemma {:induction false} FullAtSize(seen: nat, size: nat)
    requires 0 < seen <= size
    ensures BatchFull(seen, size) <==> seen == size
  {
  }

  lemma {:induction false} OneSizeStays(m: Meter, input: seq<Recv>, size: Uint32)
    requires OneSize(input, size) && (m.mode == Batch ==> m.size == size > 0) && (m.seen == 0 || m.seen < size)
    ensures Safe(m, input)
    decreases |input|
  {
    if input != [] && !Ends(input[0]) {
      var r := input[0];
      if Counts(m, r) {
        FullAtSize(m.seen + 1, m.size);
      }
      assert OneSize(input[1..], size) by {
        assert forall i :: 0 <= i < |input[1..]| ==> input[1..][i] == input[i + 1];
      }
      OneSizeStays(Metered(m, r), input[1..], size);
    }
  }

  /** One batch size: the stream is safe however long it is. */
  lemma {:induction false} OneSizeIsSafe(input: seq<Recv>, size: Uint32)
    requires OneSize(input, size)
    ensures Safe(METER, input)
  {
    OneSizeStays(METER, input, size);
  }

  lemma {:induction false} FewStay(m: Meter, input: seq<Recv>)
    requires m.seen + PayloadCount(input) < TWO32
    ensures Safe(m, input)
    decreases |input|
  {
    if input != [] && !Ends(input[0]) {
      FewStay(Metered(m, input[0]), input[1..]);
    }
  }

  /** Few payloads: the stream is safe however often it is re-opened. */
  lemma {:induction false} FewIsSafe(input: seq<Recv>)
    requires PayloadCount(input) < TWO32
    ensures Safe(METER, input)
  {
    FewStay(METER, input);
  }
}
