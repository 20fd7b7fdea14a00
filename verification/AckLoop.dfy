/**
 The acknowledgement machinery that both receiving relays keep in local
 variables: the stream parameters of the last Open, the batch counters with
 their machine widths, and `flushBatch`.  `Conn` is its value, `StreamLoop` the
 object whose methods update it.
 */
module AckLoop {
  import opened Common
  import opened RelayMessages

  /** What one `Recv` call yields. `done` marks cancellation, an expired deadline or an ended context. */
  datatype Recv = Message(env: Envelope) | EndOfStream | RecvError(done: bool)

  datatype Exit = Finished | ContextDone | RecvFailed | SendFailed | AuthFailed | Waiting

  /** What a stream loop does, in order.  `Sent` is an attempted send; `Checked` a
      header set that passed validation, with the validator's call count. */
  datatype Note<T> =
    | Opened
    | Checked(headers: map<string, string>, asked: nat)
    | Delivered(item: T, inBatch: bool)
    | Failed(inBatch: bool)
    | Sent(ack: Ack)

  /** The loop's environment: how payloads become items, and which sends succeed. */
  datatype Config<!T> = Config(
    passthrough: bool,
    grpcWeb: bool,
    asItem: WrappedPayload -> Result<T, string>,
    unwrap: WrappedPayload -> Result<T, string>,
    sendOk: nat -> bool)

  datatype Conn<T> = Conn(
    streamId: string,
    defaults: Option<Metadata>,
    ackMode: AckMode,
    ackEveryN: Uint64,
    batchOK: Uint32,
    batchErr: Uint32,
    lastSeq: Uint64,
    batchSeen: Uint64,
    sent: nat,
    trace: seq<Note<T>>)

  const DEFAULT_BATCH: Uint32 := 1024

  function Start<T>(): Conn<T> {
    Conn("", None, PerMessage, 0, 0, 0, 0, 0, 0, [])
  }

  /** The result of one iteration: go on, or leave the loop. */
  datatype Outcome<T> = Outcome(conn: Conn<T>, exit: Option<Exit>)

  function Send<T>(c: Conn<T>, ack: Ack): Conn<T> {
    c.(sent := c.sent + 1, trace := c.trace + [Sent(ack)])
  }

  function OpenAck(streamId: string): Ack {
    Ack(true, "Stream open accepted", streamId, "", 0, 0, 0, 0, 0)
  }

  function BatchAck<T>(c: Conn<T>, message: string): Ack {
    Ack(c.batchErr == 0, message, c.streamId, "", 0, 0, c.lastSeq, c.batchOK, c.batchErr)
  }

  function Flush<T>(c: Conn<T>, message: string): Conn<T> {
    if c.ackMode != Batch || (c.batchOK == 0 && c.batchErr == 0) then c
    else Send(c, BatchAck(c, message)).(batchOK := 0, batchErr := 0, batchSeen := 0)
  }

  /** The batch size divides the count. */
  predicate BatchFull(seen: nat, size: nat) { size > 0 && seen % size == 0 }

  /** The `ACK_BATCH` arm of every acknowledgement switch. */
  function Tally<T>(c: Conn<T>, ok: bool): Conn<T> {
    var d := (if ok then c.(batchOK := Inc32(c.batchOK)) else c.(batchErr := Inc32(c.batchErr)))
             .(batchSeen := Inc64(c.batchSeen));
    if BatchFull(d.batchSeen, d.ackEveryN) then Flush(d, "Batch ack") else d
  }

  /** The ack mode after an Open: an unspecified mode keeps the current one. */
  function ModeAfter(current: AckMode, requested: AckMode): AckMode {
    if requested == ModeUnspecified then current else requested
  }

  function BatchSize(n: Uint32): Uint32 { if n == 0 then DEFAULT_BATCH else n }

  /** The payload as the loop hands it on: rebuilt field by field, so `extras` is lost. */
  function Rebuilt(p: WrappedPayload, meta: Option<Metadata>): WrappedPayload {
    p.(metadata := meta, extras := "")
  }

  function Decode<T>(cfg: Config<T>, p: WrappedPayload): Result<T, string> {
    if cfg.passthrough then cfg.asItem(p) else cfg.unwrap(p)
  }

  function FailureText(passthrough: bool, error: string): string {
    (if passthrough then "passthrough failed: " else "unwrap failed: ") + error
  }

  function OkAck<T>(c: Conn<T>, p: WrappedPayload): Ack {
    Ack(true, "OK", c.streamId, p.id, p.seqNo, 0, 0, 0, 0)
  }

  function ErrorAck<T>(c: Conn<T>, p: WrappedPayload, message: string, code: int): Ack {
    Ack(false, message, c.streamId, p.id, p.seqNo, code, 0, 0, 0)
  }

  /** The items put on the data channel, in order. */
  function Items<T>(trace: seq<Note<T>>): seq<T> {
    if trace == [] then []
    else
      var front := Items(trace[..|trace| - 1]);
      match trace[|trace| - 1]
      case Delivered(item, _) => front + [item]
      case _ => front
  }

  /** The local variables of a stream loop, with `sendAck` and `flushBatch` as methods. */
  class StreamLoop<T> {
    const sendOk: nat -> bool
    var streamId: string
    var defaults: Option<Metadata>
    var ackMode: AckMode
    var ackEveryN: Uint64
    var batchOK: Uint32
    var batchErr: Uint32
    var lastSeq: Uint64
    var batchSeen: Uint64
    var sent: nat
    var trace: seq<Note<T>>

    function Value(): Conn<T>
      reads this
    {
      Conn(streamId, defaults, ackMode, ackEveryN, batchOK, batchErr, lastSeq, batchSeen, sent, trace)
    }

    constructor (sendOk: nat -> bool)
      ensures Value() == Start() && this.sendOk == sendOk
    {
      this.sendOk := sendOk;
      streamId, defaults, ackMode, ackEveryN := "", None, PerMessage, 0;
      batchOK, batchErr, lastSeq, batchSeen := 0, 0, 0, 0;
      sent, trace := 0, [];
    }

    method SendAck(ack: Ack) returns (ok: bool)
      modifies this
      ensures Value() == Send(old(Value()), ack)
      ensures ok == sendOk(old(sent))
    {
      ok := sendOk(sent);
      sent, trace := sent + 1, trace + [Sent(ack)];
    }

    method FlushBatch(message: string)
      modifies this
      ensures Value() == Flush(old(Value()), message)
    {
      if ackMode != Batch {
        return;
      }
      if batchOK == 0 && batchErr == 0 {
        return;
      }
      var _ := SendAck(Ack(batchErr == 0, message, streamId, "", 0, 0, lastSeq, batchOK, batchErr));
      batchOK, batchErr, batchSeen := 0, 0, 0;
    }

    method TallyBatch(ok: bool)
      modifies this
      ensures Value() == Tally(old(Value()), ok)
    {
      if ok {
        batchOK := Inc32(batchOK);
      } else {
        batchErr := Inc32(batchErr);
      }
      batchSeen := Inc64(batchSeen);
      if ackEveryN > 0 && batchSeen % ackEveryN == 0 {
        FlushBatch("Batch ack");
      }
    }
  }
}
