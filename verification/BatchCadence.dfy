/** The rhythm of batch acknowledgements on a stream opened once in batch mode. */
module BatchCadence {
  import opened Common
  import opened RelayMessages
  import opened AckLoop
  import opened AckAccounting
  import Grpc = GrpcReceiver
  import Quic = QuicReceiver
  import Same = ReceiverEquivalence

  /** The stream defaults in force after some payloads. */
  function DefaultsAfter(grpcWeb: bool, defaults: Option<Metadata>, ps: seq<WrappedPayload>): Option<Metadata> {
    if ps == [] then defaults
    else
      var k := |ps| - 1;
      Grpc.WebDefaults(grpcWeb, ps[k], DefaultsAfter(grpcWeb, defaults, ps[..k])).1
  }

  /** What payload `i` decodes to, */
  function DecodeOf<T>(cfg: Config<T>, defaults: Option<Metadata>, ps: seq<WrappedPayload>, i: nat): Result<T, string>
    requires i < |ps|
  {
    var before := DefaultsAfter(cfg.grpcWeb, defaults, ps[..i]);
    Decode(cfg, Rebuilt(ps[i], Grpc.WebDefaults(cfg.grpcWeb, ps[i], before).0))
  }

  /** and whether it decodes at all. */
  predicate Decodes<T>(cfg: Config<T>, defaults: Option<Metadata>, ps: seq<WrappedPayload>, i: nat)
    requires i < |ps|
  {
    DecodeOf(cfg, defaults, ps, i).Ok?
  }

  /** How many of the payloads from `lo` up to `hi` decode. */
  function Good<T>(cfg: Config<T>, defaults: Option<Metadata>, ps: seq<WrappedPayload>, lo: nat, hi: nat): (n: nat)
    requires lo <= hi <= |ps|
    ensures n <= hi - lo
  {
    if lo == hi then 0
    else Good(cfg, defaults, ps, lo, hi - 1) + if Decodes(cfg, defaults, ps, hi - 1) then 1 else 0
  }

  /** The acknowledgement covering exactly the payloads from `lo` up to `hi`. */
  function Covering<T>(cfg: Config<T>, open: Envelope, ps: seq<WrappedPayload>, lo: nat, hi: nat, message: string): Ack
    requires open.Open? && lo < hi <= |ps| && hi - lo < TWO32
  {
    var good := Good(cfg, open.defaults, ps, lo, hi);
    Ack(good == hi - lo, message, open.streamId, "", 0, 0, ps[hi - 1].seqNo, good, hi - lo - good)
  }

  /** The acknowledgements of a trace, in order. */
  function Acks<T>(trace: seq<Note<T>>): seq<Ack> {
    if trace == [] then []
    else
      var front := Acks(trace[..|trace| - 1]);
      if trace[|trace| - 1].Sent? then front + [trace[|trace| - 1].ack] else front
  }

  lemma AcksSnoc<T>(t: seq<Note<T>>, n: Note<T>)
    ensures Acks(t + [n]) == Acks(t) + if n.Sent? then [n.ack] else []
  {
    assert (t + [n])[..|t|] == t;
  }

  /** `lo` payloads make whole batches of `n`. */
  ghost predicate Whole(lo: nat, n: nat) {
    lo == 0 || (0 < n <= lo && Whole(lo - n, n))
  }

  /** The acknowledgements of the full batches that make up the first `lo` payloads. */
  function FullBatches<T>(cfg: Config<T>, open: Envelope, ps: seq<WrappedPayload>, lo: nat): (r: seq<Ack>)
    requires open.Open? && lo <= |ps|
  {
    var n := BatchSize(open.ackEveryN);
    if lo < n then []
    else FullBatches(cfg, open, ps, lo - n) + [Covering(cfg, open, ps, lo - n, lo, "Batch ack")]
  }

  lemma {:induction false} BatchCount<T>(cfg: Config<T>, open: Envelope, ps: seq<WrappedPayload>, lo: nat)
    requires open.Open? && lo <= |ps| && Whole(lo, BatchSize(open.ackEveryN))
    ensures BatchSize(open.ackEveryN) * |FullBatches(cfg, open, ps, lo)| == lo
  {
    if lo != 0 {
      var n := BatchSize(open.ackEveryN);
      BatchCount(cfg, open, ps, lo - n);
      LastBatch(cfg, open, ps, lo - n, lo);
      MulSucc(n, |FullBatches(cfg, open, ps, lo - n)|);
    }
  }

  lemma MulSucc(n: nat, m: nat)
    ensures n * (m + 1) == n * m + n
  {
  }

  lemma SmallRest(x: nat, n: nat)
    requires x < n
    ensures x % n == x && n % n == 0
  {
  }

  lemma RestUnique(x: nat, n: nat, q: int, r: nat)
    requires r < n && x == n * q + r
    ensures x / n == q && x % n == r
  {
    var d := x / n - q;
    assert n * (x / n) == n * q + n * d;
    assert n * d == r - x % n;
    if d >= 1 {
      MulAtLeast(n, d);
    } else if d <= -1 {
      MulAtLeast(n, -d);
    }
  }

  lemma MulAtLeast(n: nat, d: int)
    requires d >= 1
    ensures n * d >= n
  {
  }

  /** The batch counters and acknowledgements due after `k` payloads: `seen`, fewer
      than a batch, are not acknowledged yet.  The quantifier has one instance; it only keeps
      the definition folded in proofs that do not look inside. */
  ghost predicate Counted<T>(
    cfg: Config<T>, open: Envelope, ps: seq<WrappedPayload>, k: nat, seen: nat, good: nat, bad: nat, acks: seq<Ack>)
    requires open.Open? && k <= |ps|
  {
    forall n :: n == BatchSize(open.ackEveryN) ==> CountedBy(n, cfg, open, ps, k, seen, good, bad, acks)
  }

  ghost predicate CountedBy<T>(
    n: nat,
    cfg: Config<T>, open: Envelope, ps: seq<WrappedPayload>, k: nat, seen: nat, good: nat, bad: nat, acks: seq<Ack>)
    requires open.Open? && k <= |ps|
  {
    && seen < n && seen <= k
    && Whole(k - seen, n)
    && good == Good(cfg, open.defaults, ps, k - seen, k)
    && good + bad == seen
    && acks == [OpenAck(open.streamId)] + FullBatches(cfg, open, ps, k - seen)
  }

  lemma {:induction false} CountedFacts<T>(
    cfg: Config<T>, open: Envelope, ps: seq<WrappedPayload>, k: nat, seen: nat, good: nat, bad: nat, acks: seq<Ack>)
    requires open.Open? && k <= |ps| && Counted(cfg, open, ps, k, seen, good, bad, acks)
    ensures seen < BatchSize(open.ackEveryN) && seen <= k && good + bad == seen
    ensures good == Good(cfg, open.defaults, ps, k - seen, k)
    ensures acks == [OpenAck(open.streamId)] + FullBatches(cfg, open, ps, k - seen)
    ensures BatchSize(open.ackEveryN) * |FullBatches(cfg, open, ps, k - seen)| == k - seen
  {
    assert CountedBy(BatchSize(open.ackEveryN), cfg, open, ps, k, seen, good, bad, acks);
    BatchCount(cfg, open, ps, k - seen);
  }

  lemma {:induction false} CountedMore<T>(
    n: nat, cfg: Config<T>, open: Envelope, ps: seq<WrappedPayload>, k: nat,
    seen: nat, good: nat, bad: nat, acks: seq<Ack>)
    requires open.Open? && k < |ps| && CountedBy(n, cfg, open, ps, k, seen, good, bad, acks) && seen + 1 < n
    ensures if Decodes(cfg, open.defaults, ps, k) then CountedBy(n, cfg, open, ps, k + 1, seen + 1, good + 1, bad, acks)
            else CountedBy(n, cfg, open, ps, k + 1, seen + 1, good, bad + 1, acks)
  {
    assert k + 1 - (seen + 1) == k - seen;
  }

  lemma {:induction false} BatchAckCovers<T>(
    cfg: Config<T>, open: Envelope, ps: seq<WrappedPayload>, lo: nat, k: nat, good: nat, bad: nat)
    requires open.Open? && lo <= k < |ps| && k + 1 - lo < TWO32
    requires good == Good(cfg, open.defaults, ps, lo, k) && good + bad == k - lo
    ensures var ok := Decodes(cfg, open.defaults, ps, k);
            var good', bad' := if ok then good + 1 else good, if ok then bad else bad + 1;
            Covering(cfg, open, ps, lo, k + 1, "Batch ack")
            == Ack(bad' == 0, "Batch ack", open.streamId, "", 0, 0, ps[k].seqNo, good', bad')
  {
    assert Good(cfg, open.defaults, ps, lo, k + 1) == good + if Decodes(cfg, open.defaults, ps, k) then 1 else 0;
  }

  /** A batch that has just filled starts over, with one acknowledgement more. */
  lemma {:induction false} StartsOver<T>(
    n: Uint32, cfg: Config<T>, open: Envelope, ps: seq<WrappedPayload>, lo: nat, hi: nat, acks: seq<Ack>)
    requires open.Open? && lo < hi <= |ps| && n == BatchSize(open.ackEveryN) == hi - lo && Whole(lo, n)
    requires acks == [OpenAck(open.streamId)] + FullBatches(cfg, open, ps, lo)
    ensures CountedBy(n, cfg, open, ps, hi, 0, 0, 0, acks + [Covering(cfg, open, ps, lo, hi, "Batch ack")])
  {
    LastBatch(cfg, open, ps, lo, hi);
    var batches, ack := FullBatches(cfg, open, ps, lo), Covering(cfg, open, ps, lo, hi, "Batch ack");
    assert [OpenAck(open.streamId)] + batches + [ack] == [OpenAck(open.streamId)] + (batches + [ack]);
  }

  lemma {:induction false} CountedFull<T>(
    n: Uint32, cfg: Config<T>, open: Envelope, ps: seq<WrappedPayload>, k: nat,
    seen: nat, good: nat, bad: nat, acks: seq<Ack>)
    requires open.Open? && k < |ps| && CountedBy(n, cfg, open, ps, k, seen, good, bad, acks)
    requires n == BatchSize(open.ackEveryN) && seen + 1 == n
    ensures var ok := Decodes(cfg, open.defaults, ps, k);
            var good', bad' := if ok then good + 1 else good, if ok then bad else bad + 1;
            var ack := Ack(bad' == 0, "Batch ack", open.streamId, "", 0, 0, ps[k].seqNo, good', bad');
            CountedBy(n, cfg, open, ps, k + 1, 0, 0, 0, acks + [ack])
  {
    BatchAckCovers(cfg, open, ps, k - seen, k, good, bad);
    StartsOver(n, cfg, open, ps, k - seen, k + 1, acks);
  }

  lemma LastBatch<T>(cfg: Config<T>, open: Envelope, ps: seq<WrappedPayload>, lo: nat, hi: nat)
    requires open.Open? && lo < hi <= |ps| && hi - lo == BatchSize(open.ackEveryN)
    ensures FullBatches(cfg, open, ps, hi)
            == FullBatches(cfg, open, ps, lo) + [Covering(cfg, open, ps, lo, hi, "Batch ack")]
  {
    assert hi - BatchSize(open.ackEveryN) == lo;
  }

  lemma {:induction false} CountedNext<T>(
    cfg: Config<T>, open: Envelope, ps: seq<WrappedPayload>, k: nat, seen: nat, good: nat, bad: nat, acks: seq<Ack>)
    requires open.Open? && k < |ps| && Counted(cfg, open, ps, k, seen, good, bad, acks)
    requires good + bad == seen < BatchSize(open.ackEveryN)
    ensures var ok := Decodes(cfg, open.defaults, ps, k);
            var good', bad' := if ok then good + 1 else good, if ok then bad else bad + 1;
            if seen + 1 < BatchSize(open.ackEveryN) then Counted(cfg, open, ps, k + 1, seen + 1, good', bad', acks)
            else
              var ack := Ack(bad' == 0, "Batch ack", open.streamId, "", 0, 0, ps[k].seqNo, good', bad');
              Counted(cfg, open, ps, k + 1, 0, 0, 0, acks + [ack])
  {
    var n := BatchSize(open.ackEveryN);
    assert CountedBy(n, cfg, open, ps, k, seen, good, bad, acks);
    if seen + 1 < n {
      CountedMore(n, cfg, open, ps, k, seen, good, bad, acks);
    } else {
      CountedFull(n, cfg, open, ps, k, seen, good, bad, acks);
    }
  }

  /** The state after the Open and the first `k` payloads. */
  ghost predicate InStep<T>(cfg: Config<T>, open: Envelope, ps: seq<WrappedPayload>, k: nat, c: Conn<T>)
    requires open.Open? && k <= |ps|
  {
    && c.streamId == open.streamId && c.ackMode == Batch && c.ackEveryN == BatchSize(open.ackEveryN)
    && c.defaults == DefaultsAfter(cfg.grpcWeb, open.defaults, ps[..k])
    && (0 < k ==> c.lastSeq == ps[k - 1].seqNo)
    && Counted(cfg, open, ps, k, c.batchSeen, c.batchOK, c.batchErr, Acks(c.trace))
  }

  /** A tally within a batch counts; the one that fills the batch reports and resets. */
  lemma {:induction false} TallyCases<T>(c: Conn<T>, ok: bool)
    requires c.ackMode == Batch && c.batchSeen < c.ackEveryN < TWO32 && c.batchOK + c.batchErr == c.batchSeen
    ensures var good, bad := if ok then c.batchOK + 1 else c.batchOK, if ok then c.batchErr else c.batchErr + 1;
            var d := c.(batchOK := good, batchErr := bad, batchSeen := c.batchSeen + 1);
            Tally(c, ok) == if d.batchSeen < c.ackEveryN then d
                            else Send(d, BatchAck(d, "Batch ack")).(batchOK := 0, batchErr := 0, batchSeen := 0)
  {
    SmallRest(c.batchSeen, c.ackEveryN);
    if c.batchSeen + 1 < c.ackEveryN {
      SmallRest(c.batchSeen + 1, c.ackEveryN);
    }
  }

  /** What a tally leaves behind: a larger count, or a report and a fresh batch. */
  ghost predicate Tallied<T>(c: Conn<T>, ok: bool, e: Conn<T>) {
    var good, bad := if ok then c.batchOK as int + 1 else c.batchOK, if ok then c.batchErr else c.batchErr as int + 1;
    && e.streamId == c.streamId && e.ackMode == c.ackMode && e.ackEveryN == c.ackEveryN
    && e.lastSeq == c.lastSeq && e.defaults == c.defaults
    && if c.batchSeen + 1 < c.ackEveryN then
         e.batchSeen == c.batchSeen + 1 && e.batchOK == good && e.batchErr == bad && Acks(e.trace) == Acks(c.trace)
       else
         && e.batchSeen == 0 && e.batchOK == 0 && e.batchErr == 0
         && good < TWO32 && bad < TWO32
         && Acks(e.trace) == Acks(c.trace) + [Ack(bad == 0, "Batch ack", c.streamId, "", 0, 0, c.lastSeq, good, bad)]
  }

  lemma {:induction false} TallyTallies<T>(c: Conn<T>, ok: bool)
    requires c.ackMode == Batch && c.batchSeen < c.ackEveryN < TWO32 && c.batchOK + c.batchErr == c.batchSeen
    ensures Tallied(c, ok, Tally(c, ok))
  {
    TallyCases(c, ok);
    var good, bad := if ok then c.batchOK + 1 else c.batchOK, if ok then c.batchErr else c.batchErr + 1;
    AcksSnoc(c.trace, Sent(Ack(bad == 0, "Batch ack", c.streamId, "", 0, 0, c.lastSeq, good, bad)));
  }

  /** In batch mode a payload never ends the loop: it is counted, and the one that
      fills the batch is acknowledged with it. */
  lemma {:induction false} PayloadTallied<T>(cfg: Config<T>, c: Conn<T>, p: WrappedPayload)
    returns (d: Conn<T>, e: Conn<T>, ok: bool)
    requires c.ackMode == Batch && c.batchSeen < c.ackEveryN < TWO32 && c.batchOK + c.batchErr == c.batchSeen
    ensures Grpc.OnPayload(cfg, c, p) == Outcome(e, None)
    ensures ok == Decode(cfg, Rebuilt(p, Grpc.WebDefaults(cfg.grpcWeb, p, c.defaults).0)).Ok?
    ensures d == c.(defaults := Grpc.WebDefaults(cfg.grpcWeb, p, c.defaults).1, lastSeq := p.seqNo, trace := d.trace)
    ensures Acks(d.trace) == Acks(c.trace) && Tallied(d, ok, e)
  {
    var (meta, defaults) := Grpc.WebDefaults(cfg.grpcWeb, p, c.defaults);
    var r := Decode(cfg, Rebuilt(p, meta));
    ok := r.Ok?;
    var note := if r.Ok? then Delivered(r.value, true) else Failed(true);
    d := c.(defaults := defaults, lastSeq := p.seqNo, trace := c.trace + [note]);
    AcksSnoc(c.trace, note);
    e := Tally(d, ok);
    TallyTallies(d, ok);
  }

  lemma {:induction false} CountedAfter<T>(
    cfg: Config<T>, open: Envelope, ps: seq<WrappedPayload>, k: nat, d: Conn<T>, ok: bool, e: Conn<T>)
    requires open.Open? && k < |ps| && ok == Decodes(cfg, open.defaults, ps, k) && Tallied(d, ok, e)
    requires d.streamId == open.streamId && d.ackEveryN == BatchSize(open.ackEveryN) && d.lastSeq == ps[k].seqNo
    requires d.batchOK + d.batchErr == d.batchSeen < d.ackEveryN
    requires Counted(cfg, open, ps, k, d.batchSeen, d.batchOK, d.batchErr, Acks(d.trace))
    ensures Counted(cfg, open, ps, k + 1, e.batchSeen, e.batchOK, e.batchErr, Acks(e.trace))
  {
    CountedNext(cfg, open, ps, k, d.batchSeen, d.batchOK, d.batchErr, Acks(d.trace));
  }

  lemma {:induction false} PayloadInStep<T>(cfg: Config<T>, open: Envelope, ps: seq<WrappedPayload>, k: nat, c: Conn<T>)
    requires open.Open? && k < |ps| && InStep(cfg, open, ps, k, c)
    ensures var o := Grpc.OnPayload(cfg, c, ps[k]);
            o.exit.None? && InStep(cfg, open, ps, k + 1, o.conn)
  {
    assert ps[..k + 1][..k] == ps[..k];
    CountedFacts(cfg, open, ps, k, c.batchSeen, c.batchOK, c.batchErr, Acks(c.trace));
    var d, e, ok := PayloadTallied(cfg, c, ps[k]);
    CountedAfter(cfg, open, ps, k, d, ok, e);
  }

  function Messages(ps: seq<WrappedPayload>): seq<Recv> {
    seq(|ps|, i requires 0 <= i < |ps| => Message(Payload(ps[i])))
  }

  lemma {:induction false} MessagesFrom(ps: seq<WrappedPayload>, k: nat, rest: seq<Recv>)
    requires k < |ps|
    ensures Messages(ps)[k..] + rest == [Message(Payload(ps[k]))] + (Messages(ps)[k + 1..] + rest)
  {
  }

  lemma {:induction false} StepInStep<T(!new)>(
    cfg: Config<T>, open: Envelope, ps: seq<WrappedPayload>, k: nat, c: Conn<T>, more: seq<Recv>)
    returns (e: Conn<T>)
    requires open.Open? && k < |ps| && InStep(cfg, open, ps, k, c)
    ensures InStep(cfg, open, ps, k + 1, e) && Grpc.LeadsTo(cfg, c, [Message(Payload(ps[k]))] + more, e, more)
  {
    PayloadInStep(cfg, open, ps, k, c);
    e := Grpc.OnPayload(cfg, c, ps[k]).conn;
    Grpc.RunStep(cfg, c, Message(Payload(ps[k])), e, more);
  }

  lemma {:induction false} RunInStep<T(!new)>(
    cfg: Config<T>, open: Envelope, ps: seq<WrappedPayload>, k: nat, c: Conn<T>, rest: seq<Recv>)
    returns (d: Conn<T>)
    requires open.Open? && k <= |ps| && InStep(cfg, open, ps, k, c)
    ensures InStep(cfg, open, ps, |ps|, d) && Grpc.LeadsTo(cfg, c, Messages(ps)[k..] + rest, d, rest)
    decreases |ps| - k
  {
    if k == |ps| {
      assert Messages(ps)[k..] + rest == rest;
      d := c;
    } else {
      var input, more := Messages(ps)[k..] + rest, Messages(ps)[k + 1..] + rest;
      MessagesFrom(ps, k, rest);
      var e := StepInStep(cfg, open, ps, k, c, more);
      d := RunInStep(cfg, open, ps, k + 1, e, rest);
      Grpc.LeadsOn(cfg, c, input, e, more, d, rest);
    }
  }

  lemma {:induction false} OpenInStep<T>(cfg: Config<T>, open: Envelope, ps: seq<WrappedPayload>)
    requires open.Open? && open.ackMode == Batch && cfg.sendOk(0)
    ensures var o := Grpc.OnOpen(cfg, Start(), open);
            o.exit.None? && InStep(cfg, open, ps, 0, o.conn)
  {
    AcksSnoc<T>([], Opened);
    AcksSnoc<T>([] + [Opened], Sent(OpenAck(open.streamId)));
  }

  /** What a stream says when it ends by a Close or at end of stream. */
  function Farewell(last: Recv): string { if last.EndOfStream? then "EOF" else "Stream closed" }

  /** `rest` payloads after `full` batches are reported when the stream ends. */
  ghost predicate Complete<T>(
    cfg: Config<T>, open: Envelope, ps: seq<WrappedPayload>, last: Recv, full: nat, rest: nat, acks: seq<Ack>)
    requires open.Open?
  {
    && rest < BatchSize(open.ackEveryN) && rest <= |ps|
    && var batches := FullBatches(cfg, open, ps, |ps| - rest);
    && |batches| == full
    && acks == [OpenAck(open.streamId)] + batches
         + (if rest == 0 then [] else [Covering(cfg, open, ps, |ps| - rest, |ps|, Farewell(last))])
  }

  lemma {:induction false} FlushAcks<T>(d: Conn<T>, message: string)
    requires d.ackMode == Batch
    ensures var c := Flush(d, message);
            && c.batchOK == 0 && c.batchErr == 0
            && Acks(c.trace) == Acks(d.trace) + if d.batchOK == 0 && d.batchErr == 0 then [] else [BatchAck(d, message)]
  {
    AcksSnoc(d.trace, Sent(BatchAck(d, message)));
  }

  lemma {:induction false} PendingAck<T>(
    cfg: Config<T>, open: Envelope, ps: seq<WrappedPayload>, d: Conn<T>, message: string)
    returns (full: nat)
    requires open.Open? && InStep(cfg, open, ps, |ps|, d)
    ensures BatchSize(open.ackEveryN) * full + d.batchSeen == |ps|
    ensures d.batchSeen < BatchSize(open.ackEveryN) && d.batchOK + d.batchErr == d.batchSeen
    ensures var batches := FullBatches(cfg, open, ps, |ps| - d.batchSeen);
            |batches| == full && Acks(d.trace) == [OpenAck(open.streamId)] + batches
    ensures 0 < d.batchSeen ==> BatchAck(d, message) == Covering(cfg, open, ps, |ps| - d.batchSeen, |ps|, message)
  {
    CountedFacts(cfg, open, ps, |ps|, d.batchSeen, d.batchOK, d.batchErr, Acks(d.trace));
    full := |FullBatches(cfg, open, ps, |ps| - d.batchSeen)|;
  }

  lemma {:induction false} FarewellAck<T>(
    cfg: Config<T>, open: Envelope, ps: seq<WrappedPayload>, d: Conn<T>, last: Recv)
    returns (full: nat)
    requires open.Open? && InStep(cfg, open, ps, |ps|, d)
    requires last.EndOfStream? || (last.Message? && last.env.Close?)
    ensures BatchSize(open.ackEveryN) * full + d.batchSeen == |ps|
    ensures var (c, exit) := Grpc.Run(cfg, d, [last]);
            && exit == Finished && c.batchOK == 0 && c.batchErr == 0
            && Complete(cfg, open, ps, last, full, d.batchSeen, Acks(c.trace))
  {
    full := PendingAck(cfg, open, ps, d, Farewell(last));
    FlushAcks(d, Farewell(last));
    assert Grpc.Run(cfg, d, [last]) == (Flush(d, Farewell(last)), Finished);
  }

  /**
   In flight.  After the Open and any number of payloads the loop waits with fewer
   than a batch unacknowledged; its counters hold exactly those, without wrapping,
   and the acknowledgements sent are those of the full batches.
   */
  lemma {:induction false} CadenceInFlight<T(!new)>(cfg: Config<T>, open: Envelope, ps: seq<WrappedPayload>)
    requires open.Open? && open.ackMode == Batch && cfg.sendOk(0)
    ensures var (c, exit) := Grpc.Run(cfg, Start(), [Message(open)] + Messages(ps));
            && exit == Waiting
            && c.batchSeen < BatchSize(open.ackEveryN) && c.batchSeen <= |ps|
            && c.batchOK == Good(cfg, open.defaults, ps, |ps| - c.batchSeen, |ps|)
            && c.batchOK + c.batchErr == c.batchSeen
            && Acks(c.trace) == [OpenAck(open.streamId)] + FullBatches(cfg, open, ps, |ps| - c.batchSeen)
  {
    var input := [Message(open)] + Messages(ps);
    assert input[0] == Message(open) && input[1..] == Messages(ps)[0..] + [];
    OpenInStep(cfg, open, ps);
    var d := RunInStep(cfg, open, ps, 0, Grpc.OnOpen(cfg, Start(), open).conn, []);
    CountedFacts(cfg, open, ps, |ps|, d.batchSeen, d.batchOK, d.batchErr, Acks(d.trace));
  }

  /**
   Batch cadence.  One Open in batch mode, then any payloads, then Close or end
   of stream: after the open acknowledgement come `full` acknowledgements of
   exactly `n` payloads each and, when `rest` payloads remain, a final one for
   them, every one with the right counts and the sequence number of its last
   payload; nothing stays pending.
   */
  lemma {:induction false} Cadence<T(!new)>(cfg: Config<T>, open: Envelope, ps: seq<WrappedPayload>, last: Recv)
    returns (full: nat, rest: nat)
    requires open.Open? && open.ackMode == Batch && cfg.sendOk(0)
    requires last.EndOfStream? || (last.Message? && last.env.Close?)
    ensures BatchSize(open.ackEveryN) * full + rest == |ps|
    ensures var (c, exit) := Grpc.Run(cfg, Start(), [Message(open)] + Messages(ps) + [last]);
            && exit == Finished && c.batchOK == 0 && c.batchErr == 0
            && Complete(cfg, open, ps, last, full, rest, Acks(c.trace))
  {
    var input := [Message(open)] + Messages(ps) + [last];
    assert input[0] == Message(open) && input[1..] == Messages(ps)[0..] + [last];
    OpenInStep(cfg, open, ps);
    var d := RunInStep(cfg, open, ps, 0, Grpc.OnOpen(cfg, Start(), open).conn, [last]);
    rest := d.batchSeen;
    full := FarewellAck(cfg, open, ps, d, last);
  }

  lemma CeilingCount(n: nat, q: nat, r: nat)
    requires r < n
    ensures (n * q + r + n - 1) / n == if r == 0 then q else q + 1
  {
    if r == 0 {
      RestUnique(n * q + r + n - 1, n, q, n - 1);
    } else {
      assert n * (q + 1) == n * q + n;
      RestUnique(n * q + r + n - 1, n, q + 1, r - 1);
    }
  }

  /** So a stream of `P` payloads draws the open acknowledgement and `ceil(P / n)` more. */
  lemma {:induction false} CadenceCount<T(!new)>(cfg: Config<T>, open: Envelope, ps: seq<WrappedPayload>, last: Recv)
    requires open.Open? && open.ackMode == Batch && cfg.sendOk(0)
    requires last.EndOfStream? || (last.Message? && last.env.Close?)
    ensures var n := if open.ackEveryN == 0 then 1024 else open.ackEveryN;
            var c := Grpc.Run(cfg, Start(), [Message(open)] + Messages(ps) + [last]).0;
            |Acks(c.trace)| == 1 + (|ps| + n - 1) / n
  {
    var full, rest := Cadence(cfg, open, ps, last);
    CeilingCount(BatchSize(open.ackEveryN), full, rest);
  }

  lemma {:induction false} AcksVisible<T>(trace: seq<Note<T>>)
    ensures Acks(Same.Visible(trace)) == Acks(trace)
    decreases |trace|
  {
    if trace != [] {
      var front, last := trace[..|trace| - 1], trace[|trace| - 1];
      AcksVisible(front);
      Same.VisibleSnoc(front, last);
      AcksSnoc(Same.Visible(front), last);
      assert front + [last] == trace;
    }
  }

  /** The QUIC receiver keeps the same rhythm. */
  lemma {:induction false} QuicCadence<T(!new)>(
    cfg: Config<T>, policy: Quic.Policy, open: Envelope, ps: seq<WrappedPayload>, last: Recv)
    returns (full: nat, rest: nat)
    requires open.Open? && open.ackMode == Batch && !cfg.grpcWeb && Same.NeverRefuses(policy) && Same.SendsSucceed(cfg)
    requires last.EndOfStream? || (last.Message? && last.env.Close?)
    ensures BatchSize(open.ackEveryN) * full + rest == |ps|
    ensures var (g, exit) := Quic.Run(cfg, policy, Quic.Begin(), [Message(open)] + Messages(ps) + [last]);
            exit == Finished && Complete(cfg, open, ps, last, full, rest, Acks(g.conn.trace))
  {
    var input := [Message(open)] + Messages(ps) + [last];
    full, rest := Cadence(cfg, open, ps, last);
    Same.ReceiversEquivalent(cfg, policy, input);
    AcksVisible(Quic.Run(cfg, policy, Quic.Begin(), input).0.conn.trace);
  }
}
