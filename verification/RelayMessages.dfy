/** Values shared by every component of the model. */
module Common {

  datatype Option<+T> = None | Some(value: T)

  datatype Result<+T, +E> = Ok(value: T) | Err(error: E)

  type Byte = x: int | 0 <= x < 256

  type Bytes = seq<Byte>

  /** 2^32 and 2^64: the ranges of Go's `uint32` and `uint64`. */
  const TWO32: nat := 0x1_0000_0000
  const TWO64: nat := 0x1_0000_0000_0000_0000

  type Uint32 = x: int | 0 <= x < 0x1_0000_0000

  type Uint64 = x: int | 0 <= x < 0x1_0000_0000_0000_0000

  /** `x++` on a `uint32`. */
  function Inc32(x: Uint32): (r: Uint32)
    ensures r == (x + 1) % 0x1_0000_0000
  {
    if x + 1 == TWO32 then 0 else x + 1
  }

  /** `x++` on a `uint64`. */
  function Inc64(x: Uint64): (r: Uint64)
    ensures r == (x + 1) % 0x1_0000_0000_0000_0000
  {
    if x + 1 == TWO64 then 0 else x + 1
  }
}

/** The string operations the sources use, on ASCII text. */
module Text {

  function LowerChar(c: char): char {
    if 'A' <= c <= 'Z' then (c as int + 32) as char else c
  }

  /** `strings.ToLower` */
  function Lower(s: string): string {
    seq(|s|, i requires 0 <= i < |s| => LowerChar(s[i]))
  }

  predicate IsSpace(c: char) { c == ' ' || '\t' <= c <= '\r' }

  /** `strings.TrimSpace` */
  function Trim(s: string): string {
    if s != [] && IsSpace(s[0]) then Trim(s[1..])
    else if s != [] && IsSpace(s[|s| - 1]) then Trim(s[..|s| - 1])
    else s
  }

  predicate HasSuffix(s: string, suffix: string) {
    |suffix| <= |s| && s[|s| - |suffix|..] == suffix
  }

  /** `strings.Fields`: the maximal runs of non-space characters. */
  function Fields(s: string): seq<string> { FieldsFrom(s, "") }

  function FieldsFrom(s: string, word: string): seq<string> {
    var done := if word == "" then [] else [word];
    if s == [] then done
    else if IsSpace(s[0]) then done + FieldsFrom(s[1..], "")
    else FieldsFrom(s[1..], word + [s[0]])
  }
}

/** Shapes of the relay's protobuf messages, as far as the stream loops read them. */
module RelayMessages {
  import opened Common

  /** Proto3 enums are open, so an unknown number can arrive: `OtherMode`. */
  datatype AckMode = ModeUnspecified | PerMessage | Batch | NoAck | OtherMode(code: int)

  datatype Encoding = EncodingUnspecified | Gob | Proto | OtherEncoding(code: int)

  datatype PerformanceOptions = PerformanceOptions(useCompression: bool, algorithm: int)

  datatype SecurityOptions = SecurityOptions(enabled: bool, suite: int)

  /** `headers` lists a Go map in the order in which `range` visits it;
      `rest` stands for the fields no modelled code looks at. */
  datatype Metadata = Metadata(
    headers: seq<(string, string)>,
    contentType: string,
    performance: Option<PerformanceOptions>,
    security: Option<SecurityOptions>,
    traceId: string,
    rest: int)

  /** `extras` stands for proto fields 20 to 28, which no stream loop copies. */
  datatype WrappedPayload = WrappedPayload(
    id: string,
    timestamp: int,
    payload: Bytes,
    metadata: Option<Metadata>,
    errorInfo: Option<string>,
    seqNo: Uint64,
    encoding: Encoding,
    payloadType: string,
    extras: string)

  datatype Envelope =
    | Open(streamId: string, defaults: Option<Metadata>, ackMode: AckMode, ackEveryN: Uint32)
    | Payload(wrapped: WrappedPayload)
    | Close(reason: string)
    | NoMessage

  datatype Ack = Ack(
    success: bool,
    message: string,
    streamId: string,
    id: string,
    seqNo: Uint64,
    code: int,
    lastSeq: Uint64,
    okCount: Uint32,
    errCount: Uint32)
}
