/** The QUIC receiving loop, `handleStream`, with its header policy. */
module QuicReceiver {
  import opened Common
  import opened RelayMessages
  import opened AckLoop
  import opened Text

  /** The relay's authentication settings.  A dynamic validator may keep state of
      its own, so its answer also depends on how often it was asked before. */
  datatype Policy = Policy(
    authRequired: bool,
    staticHeaders: seq<(string, string)>,
    dynamicValidator: Option<(nat, map<string, string>) -> Option<string>>)

  datatype Verdict = Valid | MissingHeaders | Rejected(reason: string)

  function ErrorText(v: Verdict): string
    requires !v.Valid?
  {
    if v.MissingHeaders? then "missing headers" else v.reason
  }

  /** The last non-empty header whose lower-cased name is `name`. */
  function Lookup(headers: seq<(string, string)>, name: string): Option<string> {
    if headers == [] then None
    else
      var (k, v) := headers[|headers| - 1];
      if k != "" && Lower(k) == name then Some(v) else Lookup(headers[..|headers| - 1], name)
  }

  /** What `headersFromMetadata` builds: lower-cased names, the last spelling visited winning. */
  function HeaderMap(headers: seq<(string, string)>): (out: map<string, string>)
    ensures forall name: string :: Lookup(headers, name) == if name in out then Some(out[name]) else None
  {
    if headers == [] then map[]
    else
      var out := HeaderMap(headers[..|headers| - 1]);
      var (k, v) := headers[|headers| - 1];
      if k == "" then out else out[Lower(k) := v]
  }

  method HeadersFromMetadata(meta: Option<Metadata>) returns (out: map<string, string>)
    ensures out == MetadataHeaders(meta)
  {
    out := map[];
    if meta.None? {
      return;
    }
    var headers := meta.value.headers;
    for i := 0 to |headers|
      invariant out == HeaderMap(headers[..i])
    {
      var (k, v) := headers[i];
      assert headers[..i + 1][..i] == headers[..i];
      if k != "" {
        out := out[Lower(k) := v];
      }
    }
    assert headers[..|headers|] == headers;
  }

  function MetadataHeaders(meta: Option<Metadata>): map<string, string> {
    if meta.None? then map[] else HeaderMap(meta.value.headers)
  }

  /** The first configured static header that the message does not carry. */
  function StaticMismatch(required: seq<(string, string)>, md: map<string, string>): Option<string> {
    if required == [] then None
    else
      var (k, v) := required[0];
      if Lower(k) in md && md[Lower(k)] == v then StaticMismatch(required[1..], md) else Some(k)
  }

  function Validate(policy: Policy, asked: nat, md: map<string, string>): (r: (Verdict, nat)) {
    if policy.dynamicValidator.None? && policy.staticHeaders == [] then (Valid, asked)
    else if md == map[] then (MissingHeaders, asked)
    else
      var missing := StaticMismatch(policy.staticHeaders, md);
      if missing.Some? then (Rejected("missing/invalid header " + missing.value), asked)
      else if policy.dynamicValidator.None? then (Valid, asked)
      else
        match policy.dynamicValidator.value(asked, md)
        case None => (Valid, asked + 1)
        case Some(reason) => (Rejected(reason), asked + 1)
  }

  /** What a passed validation means: there is no policy, or every static header is
      present with its value and the dynamic validator accepted. */
  ghost predicate Satisfies(policy: Policy, asked: nat, md: map<string, string>) {
    || (policy.dynamicValidator.None? && policy.staticHeaders == [])
    || (&& md != map[]
        && (forall h :: h in policy.staticHeaders ==> Lower(h.0) in md && md[Lower(h.0)] == h.1)
        && (policy.dynamicValidator.Some? ==> policy.dynamicValidator.value(asked, md).None?))
  }

  lemma StaticMismatchNone(required: seq<(string, string)>, md: map<string, string>)
    ensures StaticMismatch(required, md).None? <==>
            forall h :: h in required ==> Lower(h.0) in md && md[Lower(h.0)] == h.1
  {
    if required != [] {
      StaticMismatchNone(required[1..], md);
      assert forall h :: h in required <==> h == required[0] || h in required[1..];
    }
  }

  lemma ValidateMeaning(policy: Policy, asked: nat, md: map<string, string>)
    ensures Validate(policy, asked, md).0.Valid? <==> Satisfies(policy, asked, md)
  {
    StaticMismatchNone(policy.staticHeaders, md);
  }

  /** The loop state: the shared part, the gate, and the number of validator calls. */
  datatype Gate<T> = Gate(conn: Conn<T>, validated: bool, asked: nat)

  function Begin<T>(): Gate<T> { Gate(Start(), false, 0) }

  datatype GateOutcome<T> = GateOutcome(gate: Gate<T>, exit: Option<Exit>)

  /** The parameters of an Open. Unlike the gRPC loop, `ackEveryN` survives outside batch mode. */
  function Reparam<T>(c: Conn<T>, env: Envelope): Conn<T>
    requires env.Open?
  {
    var mode := ModeAfter(c.ackMode, env.ackMode);
    c.(streamId := env.streamId, defaults := env.defaults, ackMode := mode,
       ackEveryN := if mode == Batch then BatchSize(env.ackEveryN) else c.ackEveryN,
       trace := c.trace + [Opened])
  }

  /** The header check of an Open. */
  function CheckOpen<T>(policy: Policy, g: Gate<T>, meta: Option<Metadata>): GateOutcome<T> {
    var (verdict, asked) := Validate(policy, g.asked, MetadataHeaders(meta));
    match verdict
    case Valid =>
      GateOutcome(Gate(g.conn.(trace := g.conn.trace + [Checked(MetadataHeaders(meta), g.asked)]), true, asked), None)
    case MissingHeaders => GateOutcome(Gate(g.conn, false, asked), None)
    case Rejected(_) =>
      if policy.authRequired then
        GateOutcome(Gate(Send(g.conn, OpenRefusal(g.conn.streamId, verdict)), g.validated, asked), Some(AuthFailed))
      else GateOutcome(g.(asked := asked), None)
  }

  function OpenRefusal(streamId: string, verdict: Verdict): Ack
    requires !verdict.Valid?
  {
    Ack(false, "auth failed: " + ErrorText(verdict), streamId, "", 0, 401, 0, 0, 0)
  }

  function OnOpen<T>(cfg: Config<T>, policy: Policy, g: Gate<T>, env: Envelope): GateOutcome<T>
    requires env.Open?
  {
    var a := CheckOpen(policy, g.(conn := Reparam(g.conn, env)), env.defaults);
    if a.exit.Some? || a.gate.conn.ackMode == NoAck then a
    else GateOutcome(a.gate.(conn := Send(a.gate.conn, OpenAck(a.gate.conn.streamId))),
                     if cfg.sendOk(a.gate.conn.sent) then None else Some(SendFailed))
  }

  /** The gate before a payload: passes it on, or refuses the stream. */
  function Admit<T>(policy: Policy, g: Gate<T>, p: WrappedPayload, meta: Option<Metadata>): GateOutcome<T> {
    if g.validated then GateOutcome(g, None)
    else
      var (verdict, asked) := Validate(policy, g.asked, MetadataHeaders(meta));
      if verdict.Valid? then
        GateOutcome(Gate(g.conn.(trace := g.conn.trace + [Checked(MetadataHeaders(meta), g.asked)]), true, asked), None)
      else if policy.authRequired then
        GateOutcome(Gate(Send(g.conn, ErrorAck(g.conn, p, "auth failed: " + ErrorText(verdict), 401)), false, asked),
                    Some(AuthFailed))
      else GateOutcome(Gate(g.conn, false, asked), None)
  }

  /** A payload past the gate. Failed sends of negative acks are ignored here. */
  function Settle<T>(cfg: Config<T>, c: Conn<T>, p: WrappedPayload, meta: Option<Metadata>): Outcome<T> {
    var d := c.(lastSeq := p.seqNo);
    match Decode(cfg, Rebuilt(p, meta))
    case Ok(item) =>
      var e := d.(trace := d.trace + [Delivered(item, d.ackMode == Batch)]);
      if e.ackMode == PerMessage then
        Outcome(Send(e, OkAck(e, p)), if cfg.sendOk(e.sent) then None else Some(SendFailed))
      else Outcome(if e.ackMode == Batch then Tally(e, true) else e, None)
    case Err(error) =>
      var e := d.(trace := d.trace + [Failed(d.ackMode == Batch)]);
      if e.ackMode == PerMessage then
        Outcome(Send(e, ErrorAck(e, p, FailureText(cfg.passthrough, error), 1)), None)
      else Outcome(if e.ackMode == Batch then Tally(e, false) else e, None)
  }

  function OnPayload<T>(cfg: Config<T>, policy: Policy, g: Gate<T>, p: WrappedPayload): GateOutcome<T> {
    var meta := if p.metadata.Some? then p.metadata else g.conn.defaults;
    var a := Admit(policy, g, p, meta);
    if a.exit.Some? then a
    else
      var o := Settle(cfg, a.gate.conn, p, meta);
      GateOutcome(a.gate.(conn := o.conn), o.exit)
  }

  function Step<T>(cfg: Config<T>, policy: Policy, g: Gate<T>, r: Recv): GateOutcome<T> {
    match r
    case EndOfStream => GateOutcome(g.(conn := Flush(g.conn, "EOF")), Some(Finished))
    case RecvError(_) => GateOutcome(g.(conn := Flush(g.conn, "recv error")), Some(RecvFailed))
    case Message(env) =>
      match env
      case Open(_, _, _, _) => OnOpen(cfg, policy, g, env)
      case Close(_) => GateOutcome(g.(conn := Flush(g.conn, "Stream closed")), Some(Finished))
      case Payload(p) => OnPayload(cfg, policy, g, p)
      case NoMessage => GateOutcome(g, None)
  }

  function Run<T>(cfg: Config<T>, policy: Policy, g: Gate<T>, input: seq<Recv>): (r: (Gate<T>, Exit))
    decreases |input|
  {
    if input == [] then (g, Waiting)
    else
      var o := Step(cfg, policy, g, input[0]);
      if o.exit.Some? then (o.gate, o.exit.value) else Run(cfg, policy, o.gate, input[1..])
  }

  method ValidateHeaders(policy: Policy, asked: nat, md: map<string, string>)
    returns (verdict: Verdict, asked': nat)
    ensures (verdict, asked') == Validate(policy, asked, md)
  {
    asked' := asked;
    var needPolicy := policy.dynamicValidator.Some? || |policy.staticHeaders| > 0;
    if !needPolicy {
      return Valid, asked;
    }
    if |md| == 0 {
      return MissingHeaders, asked;
    }
    var missing := CheckStaticHeaders(policy.staticHeaders, md);
    if missing.Some? {
      return Rejected("missing/invalid header " + missing.value), asked;
    }
    verdict := Valid;
    if policy.dynamicValidator.Some? {
      var answer := policy.dynamicValidator.value(asked, md);
      asked' := asked + 1;
      if answer.Some? {
        verdict := Rejected(answer.value);
      }
    }
  }

  method CheckStaticHeaders(required: seq<(string, string)>, md: map<string, string>)
    returns (missing: Option<string>)
    ensures missing == StaticMismatch(required, md)
    ensures missing.None? <==>
            forall i :: 0 <= i < |required| ==> Lower(required[i].0) in md && md[Lower(required[i].0)] == required[i].1
  {
    for i := 0 to |required|
      invariant StaticMismatch(required, md) == StaticMismatch(required[i..], md)
      invariant forall j :: 0 <= j < i ==> Lower(required[j].0) in md && md[Lower(required[j].0)] == required[j].1
    {
      assert required[i..][1..] == required[i + 1..];
      var (k, v) := required[i];
      var lk := Lower(k);
      if lk !in md || md[lk] != v {
        return Some(k);
      }
    }
    missing := None;
  }

  /** The loop's object: the shared variables plus the gate. */
  class GatedLoop<T> {
    const core: StreamLoop<T>
    var validated: bool
    var asked: nat

    function Value(): Gate<T>
      reads this, core
    {
      Gate(core.Value(), validated, asked)
    }

    constructor (sendOk: nat -> bool)
      ensures Value() == Begin() && core.sendOk == sendOk && fresh(core)
    {
      core := new StreamLoop(sendOk);
      validated, asked := false, 0;
    }

    /** The Open branch of the loop body; yields how the loop goes on. */
    method Reopen(cfg: Config<T>, policy: Policy, open: Envelope) returns (exit: Option<Exit>)
      requires open.Open? && core.sendOk == cfg.sendOk
      modifies this, core
      ensures GateOutcome(Value(), exit) == OnOpen(cfg, policy, old(Value()), open)
    {
      TakeParameters(open);
      exit := AuthorizeOpen(policy);
      if exit.None? && core.ackMode != NoAck {
        var ok := core.SendAck(OpenAck(core.streamId));
        if !ok {
          exit := Some(SendFailed);
        }
      }
    }

    method TakeParameters(open: Envelope)
      requires open.Open?
      modifies core
      ensures core.Value() == Reparam(old(core.Value()), open)
    {
      core.streamId, core.defaults := open.streamId, open.defaults;
      core.trace := core.trace + [Opened];
      if open.ackMode != ModeUnspecified {
        core.ackMode := open.ackMode;
      }
      if core.ackMode == Batch {
        var n := open.ackEveryN;
        if n == 0 {
          n := DEFAULT_BATCH;
        }
        core.ackEveryN := n;
      }
    }

    method AuthorizeOpen(policy: Policy) returns (exit: Option<Exit>)
      modifies this, core
      ensures GateOutcome(Value(), exit) == CheckOpen(policy, old(Value()), old(core.defaults))
    {
      var headers := HeadersFromMetadata(core.defaults);
      var askedBefore, verdict := asked, Valid;
      verdict, asked := ValidateHeaders(policy, asked, headers);
      if !verdict.Valid? {
        if verdict.MissingHeaders? {
          validated := false;
        } else if policy.authRequired {
          var _ := core.SendAck(OpenRefusal(core.streamId, verdict));
          return Some(AuthFailed);
        }
      } else {
        core.trace := core.trace + [Checked(headers, askedBefore)];
        validated := true;
      }
      exit := None;
    }

    /** The payload branch of the loop body. */
    method Accept(cfg: Config<T>, policy: Policy, p: WrappedPayload) returns (exit: Option<Exit>)
      requires core.sendOk == cfg.sendOk
      modifies this, core
      ensures GateOutcome(Value(), exit) == OnPayload(cfg, policy, old(Value()), p)
    {
      var meta := if p.metadata.Some? then p.metadata else core.defaults;
      exit := AuthorizePayload(policy, p, meta);
      if exit.None? {
        exit := SettlePayload(cfg, p, meta);
      }
    }

    method AuthorizePayload(policy: Policy, p: WrappedPayload, meta: Option<Metadata>) returns (exit: Option<Exit>)
      modifies this, core
      ensures GateOutcome(Value(), exit) == Admit(policy, old(Value()), p, meta)
    {
      if !validated {
        var headers := HeadersFromMetadata(meta);
        var askedBefore, verdict := asked, Valid;
        verdict, asked := ValidateHeaders(policy, asked, headers);
        if !verdict.Valid? {
          if policy.authRequired {
            var _ := core.SendAck(ErrorAck(core.Value(), p, "auth failed: " + ErrorText(verdict), 401));
            return Some(AuthFailed);
          }
        } else {
          core.trace := core.trace + [Checked(headers, askedBefore)];
          validated := true;
        }
      }
      exit := None;
    }

    method SettlePayload(cfg: Config<T>, p: WrappedPayload, meta: Option<Metadata>) returns (exit: Option<Exit>)
      requires core.sendOk == cfg.sendOk
      modifies core
      ensures Outcome(core.Value(), exit) == Settle(cfg, old(core.Value()), p, meta)
    {
      core.lastSeq := p.seqNo;
      var wp := Rebuilt(p, meta);
      var data := if cfg.passthrough then cfg.asItem(wp) else cfg.unwrap(wp);
      exit := None;
      if data.Err? {
        core.trace := core.trace + [Failed(core.ackMode == Batch)];
        match core.ackMode {
          case PerMessage =>
            var _ := core.SendAck(ErrorAck(core.Value(), p, FailureText(cfg.passthrough, data.error), 1));
          case Batch => core.TallyBatch(false);
          case _ =>
        }
        return;
      }
      core.trace := core.trace + [Delivered(data.value, core.ackMode == Batch)];
      match core.ackMode {
        case PerMessage =>
          var ok := core.SendAck(Ack(true, "OK", core.streamId, p.id, p.seqNo, 0, 0, 0, 0));
          if !ok {
            exit := Some(SendFailed);
          }
        case Batch => core.TallyBatch(true);
        case _ =>
      }
    }
  }

  method HandleStream<T>(cfg: Config<T>, policy: Policy, input: seq<Recv>)
    returns (s: GatedLoop<T>, exit: Exit)
    ensures fresh(s) && fresh(s.core)
    ensures (s.Value(), exit) == Run(cfg, policy, Begin(), input)
  {
    s := new GatedLoop(cfg.sendOk);
    var i := 0;
    while i < |input|
      invariant 0 <= i <= |input|
      invariant fresh(s) && fresh(s.core) && s.core.sendOk == cfg.sendOk
      invariant Run(cfg, policy, s.Value(), input[i..]) == Run(cfg, policy, Begin(), input)
    {
      var r := input[i];
      assert input[i..][1..] == input[i + 1..];
      i := i + 1;
      if r.EndOfStream? {
        s.core.FlushBatch("EOF");
        return s, Finished;
      }
      if r.RecvError? {
        s.core.FlushBatch("recv error");
        return s, RecvFailed;
      }
      var left := None;
      match r.env {
        case Open(_, _, _, _) => left := s.Reopen(cfg, policy, r.env);
        case Close(_) =>
          s.core.FlushBatch("Stream closed");
          return s, Finished;
        case NoMessage =>
        case Payload(p) => left := s.Accept(cfg, policy, p);
      }
      if left.Some? {
        return s, left.value;
      }
    }
    exit := Waiting;
  }
}
