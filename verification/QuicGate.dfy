/**
 When the QUIC loop's gate refuses a stream, read off the input: which headers each envelope
 shows, and whether they satisfy the policy.  `Reached` is how far the loop had come; from it
 only the number of validator calls is used, on which the validator's answer may depend.
 */
module QuicGate {
  import opened Common
  import opened RelayMessages
  import opened AckLoop
  import opened QuicReceiver
  import opened ReceiverEquivalence
  import opened Deliveries
  import opened TextLaws

  // ---------- what the input shows ----------

  predicate IsOpen(r: Recv) { r.Message? && r.env.Open? }

  predicate IsPayload(r: Recv) { r.Message? && r.env.Payload? }

  /** The defaults of the latest Open before position `k`. */
  function DefaultsAt(input: seq<Recv>, k: nat): Option<Metadata>
    requires k <= |input|
  {
    if k == 0 then None
    else if IsOpen(input[k - 1]) then input[k - 1].env.defaults
    else DefaultsAt(input, k - 1)
  }

  /** The stream ID of the latest Open before position `k`. */
  function StreamAt(input: seq<Recv>, k: nat): string
    requires k <= |input|
  {
    if k == 0 then ""
    else if IsOpen(input[k - 1]) then input[k - 1].env.streamId
    else StreamAt(input, k - 1)
  }

  /** The headers that envelope `k` shows: those of an Open's defaults, or of a payload's own
      metadata if it has any, and otherwise of the stream's. */
  function HeadersAt(input: seq<Recv>, k: nat): map<string, string>
    requires k < |input| && (IsOpen(input[k]) || IsPayload(input[k]))
  {
    if IsOpen(input[k]) then MetadataHeaders(input[k].env.defaults)
    else
      var own := input[k].env.wrapped.metadata;
      MetadataHeaders(if own.Some? then own else DefaultsAt(input, k))
  }

  /** The loop has dealt with the first `k` envelopes and goes on. */
  predicate Reached<T>(cfg: Config<T>, policy: Policy, input: seq<Recv>, k: nat)
    requires k <= |input|
  {
    Run(cfg, policy, Begin(), input[..k]).1 == Waiting
  }

  /** The loop state there. */
  function StateAt<T>(cfg: Config<T>, policy: Policy, input: seq<Recv>, k: nat): Gate<T>
    requires k <= |input|
  {
    Run(cfg, policy, Begin(), input[..k]).0
  }

  /** Envelope `k` shows headers that satisfy the policy. */
  ghost predicate Shows<T>(cfg: Config<T>, policy: Policy, input: seq<Recv>, k: nat)
    requires k < |input|
  {
    && (IsOpen(input[k]) || IsPayload(input[k]))
    && Satisfies(policy, StateAt(cfg, policy, input, k).asked, HeadersAt(input, k))
  }

  /** Such headers were shown before position `k`, by the latest Open or after it. */
  ghost predicate Cleared<T>(cfg: Config<T>, policy: Policy, input: seq<Recv>, k: nat)
    requires k <= |input|
  {
    exists j :: 0 <= j < k && Shows(cfg, policy, input, j) && forall i :: j < i < k ==> !IsOpen(input[i])
  }

  /** Envelope `k` is refused: an Open whose headers do not satisfy the policy, unless it has none,
      or a payload whose headers do not and for which none did since the latest Open. */
  ghost predicate Refused<T>(cfg: Config<T>, policy: Policy, input: seq<Recv>, k: nat)
    requires k < |input|
  {
    && policy.authRequired && (IsOpen(input[k]) || IsPayload(input[k])) && !Shows(cfg, policy, input, k)
    && (if IsOpen(input[k]) then HeadersAt(input, k) != map[] else !Cleared(cfg, policy, input, k))
  }

  // ---------- runs, envelope by envelope ----------

  lemma {:induction false} RunSnoc<T>(cfg: Config<T>, policy: Policy, g: Gate<T>, a: seq<Recv>, r: Recv)
    ensures var (h, exit) := Run(cfg, policy, g, a);
            Run(cfg, policy, g, a + [r])
            == if exit != Waiting then (h, exit)
               else var o := Step(cfg, policy, h, r);
                    (o.gate, if o.exit.Some? then o.exit.value else Waiting)
    decreases |a|
  {
    if a == [] {
      assert (a + [r])[0] == r && (a + [r])[1..] == [];
      StepExits(cfg, policy, g, r);
    } else {
      assert (a + [r])[0] == a[0] && (a + [r])[1..] == a[1..] + [r];
      var o := Step(cfg, policy, g, a[0]);
      StepExits(cfg, policy, g, a[0]);
      if o.exit.None? {
        RunSnoc(cfg, policy, o.gate, a[1..], r);
      }
    }
  }

  /** No envelope makes the loop leave by waiting. */
  lemma {:induction false} StepExits<T>(cfg: Config<T>, policy: Policy, g: Gate<T>, r: Recv)
    ensures Step(cfg, policy, g, r).exit != Some(Waiting)
  {
  }

  lemma {:induction false} RunUpTo<T>(cfg: Config<T>, policy: Policy, input: seq<Recv>, k: nat)
    requires k < |input|
    ensures var (h, exit) := Run(cfg, policy, Begin(), input[..k]);
            Run(cfg, policy, Begin(), input[..k + 1])
            == if exit != Waiting then (h, exit)
               else var o := Step(cfg, policy, h, input[k]);
                    (o.gate, if o.exit.Some? then o.exit.value else Waiting)
  {
    RunSnoc(cfg, policy, Begin(), input[..k], input[k]);
    assert input[..k] + [input[k]] == input[..k + 1];
  }

  // ---------- one envelope ----------

  /** The gate is open exactly if the input has cleared it. */
  ghost predicate GateMatches<T>(cfg: Config<T>, policy: Policy, input: seq<Recv>, k: nat)
    requires k <= |input|
  {
    var g := StateAt(cfg, policy, input, k);
    && g.conn.defaults == DefaultsAt(input, k) && g.conn.streamId == StreamAt(input, k)
    && (policy.authRequired ==> (g.validated <==> Cleared(cfg, policy, input, k)))
  }

  /** The policy leaves the decision on these headers to the validator. */
  ghost predicate Consults(policy: Policy, md: map<string, string>) {
    policy.dynamicValidator.Some? && md != map[] && forall h :: h in policy.staticHeaders ==> Fits(md, h)
  }

  predicate Fits(md: map<string, string>, h: (string, string)) {
    Text.Lower(h.0) in md && md[Text.Lower(h.0)] == h.1
  }

  lemma {:induction false} ValidatorCalls(policy: Policy, asked: nat, md: map<string, string>)
    ensures Validate(policy, asked, md).1 == asked + if Consults(policy, md) then 1 else 0
  {
    StaticMismatchNone(policy.staticHeaders, md);
    assert forall h :: Fits(md, h) <==> Text.Lower(h.0) in md && md[Text.Lower(h.0)] == h.1;
  }

  /** What the check of an Open does to gate and stream, in terms of `Satisfies`. */
  lemma {:induction false} OpenChecked<T>(cfg: Config<T>, policy: Policy, g: Gate<T>, env: Envelope)
    requires env.Open?
    ensures var o, md := OnOpen(cfg, policy, g, env), MetadataHeaders(env.defaults);
            var fine := Satisfies(policy, g.asked, md);
            && o.gate.asked == g.asked + (if Consults(policy, md) then 1 else 0)
            && (o.exit == Some(AuthFailed) <==> policy.authRequired && !fine && md != map[])
            && (o.exit != Some(AuthFailed) ==>
                  && o.gate.conn.defaults == env.defaults && o.gate.conn.streamId == env.streamId
                  && o.gate.validated == (fine || (md != map[] && g.validated)))
  {
    ValidateMeaning(policy, g.asked, MetadataHeaders(env.defaults));
    ValidatorCalls(policy, g.asked, MetadataHeaders(env.defaults));
  }

  lemma {:induction false} TallyKeepsDefaults<T>(c: Conn<T>, ok: bool)
    ensures Tally(c, ok).defaults == c.defaults
  {
  }

  /** And the check of a payload. */
  lemma {:induction false} PayloadChecked<T>(cfg: Config<T>, policy: Policy, g: Gate<T>, p: WrappedPayload)
    ensures var md := MetadataHeaders(if p.metadata.Some? then p.metadata else g.conn.defaults);
            var o, fine := OnPayload(cfg, policy, g, p), Satisfies(policy, g.asked, md);
            && o.gate.asked == g.asked + (if !g.validated && Consults(policy, md) then 1 else 0)
            && (o.exit == Some(AuthFailed) <==> policy.authRequired && !fine && !g.validated)
            && (o.exit != Some(AuthFailed) ==>
                  && o.gate.conn.defaults == g.conn.defaults && o.gate.conn.streamId == g.conn.streamId
                  && o.gate.validated == (g.validated || fine))
  {
    var meta := if p.metadata.Some? then p.metadata else g.conn.defaults;
    ValidateMeaning(policy, g.asked, MetadataHeaders(meta));
    ValidatorCalls(policy, g.asked, MetadataHeaders(meta));
    var a := Admit(policy, g, p, meta);
    if a.exit.None? {
      SettleKeepsDefaults(cfg, a.gate.conn, p, meta);
    }
  }

  lemma {:induction false} SettleKeepsDefaults<T>(cfg: Config<T>, c: Conn<T>, p: WrappedPayload, meta: Option<Metadata>)
    ensures var o := Settle(cfg, c, p, meta);
            o.conn.defaults == c.defaults && o.conn.streamId == c.streamId && o.exit != Some(AuthFailed)
  {
  }

  /** One envelope more: it is cleared by itself, or was before and is no Open. */
  lemma {:induction false} ClearedNext<T>(cfg: Config<T>, policy: Policy, input: seq<Recv>, k: nat)
    requires k < |input|
    ensures Cleared(cfg, policy, input, k + 1)
            <==> Shows(cfg, policy, input, k) || (Cleared(cfg, policy, input, k) && !IsOpen(input[k]))
  {
    if Cleared(cfg, policy, input, k) && !IsOpen(input[k]) {
      var j :| 0 <= j < k && Shows(cfg, policy, input, j) && forall i :: j < i < k ==> !IsOpen(input[i]);
      assert forall i :: j < i < k + 1 ==> !IsOpen(input[i]);
    }
  }

  lemma {:induction false} OpenMatches<T>(cfg: Config<T>, policy: Policy, input: seq<Recv>, k: nat)
    requires k < |input| && Reached(cfg, policy, input, k) && GateMatches(cfg, policy, input, k) && IsOpen(input[k])
    ensures Run(cfg, policy, Begin(), input[..k + 1]).1 == AuthFailed <==> Refused(cfg, policy, input, k)
    ensures Reached(cfg, policy, input, k + 1) ==> GateMatches(cfg, policy, input, k + 1)
  {
    RunUpTo(cfg, policy, input, k);
    ClearedNext(cfg, policy, input, k);
    OpenChecked(cfg, policy, StateAt(cfg, policy, input, k), input[k].env);
  }

  lemma {:induction false} PayloadMatches<T>(cfg: Config<T>, policy: Policy, input: seq<Recv>, k: nat)
    requires k < |input| && Reached(cfg, policy, input, k) && GateMatches(cfg, policy, input, k) && IsPayload(input[k])
    ensures Run(cfg, policy, Begin(), input[..k + 1]).1 == AuthFailed <==> Refused(cfg, policy, input, k)
    ensures Reached(cfg, policy, input, k + 1) ==> GateMatches(cfg, policy, input, k + 1)
  {
    RunUpTo(cfg, policy, input, k);
    ClearedNext(cfg, policy, input, k);
    PayloadChecked(cfg, policy, StateAt(cfg, policy, input, k), input[k].env.wrapped);
  }

  lemma {:induction false} StepMatches<T>(cfg: Config<T>, policy: Policy, input: seq<Recv>, k: nat)
    requires k < |input| && Reached(cfg, policy, input, k) && GateMatches(cfg, policy, input, k)
    ensures Run(cfg, policy, Begin(), input[..k + 1]).1 == AuthFailed <==> Refused(cfg, policy, input, k)
    ensures Reached(cfg, policy, input, k + 1) ==> GateMatches(cfg, policy, input, k + 1)
  {
    if IsOpen(input[k]) {
      OpenMatches(cfg, policy, input, k);
    } else if IsPayload(input[k]) {
      PayloadMatches(cfg, policy, input, k);
    } else {
      RunUpTo(cfg, policy, input, k);
      ClearedNext(cfg, policy, input, k);
    }
  }

  // ---------- whole streams ----------

  lemma {:induction false} RefusedUpTo<T>(cfg: Config<T>, policy: Policy, input: seq<Recv>, n: nat)
    requires n <= |input|
    ensures Run(cfg, policy, Begin(), input[..n]).1 == AuthFailed
            <==> exists k :: 0 <= k < n && Reached(cfg, policy, input, k) && Refused(cfg, policy, input, k)
    ensures Reached(cfg, policy, input, n) ==> GateMatches(cfg, policy, input, n)
    decreases n
  {
    if n > 0 {
      var k := n - 1;
      RefusedUpTo(cfg, policy, input, k);
      RunUpTo(cfg, policy, input, k);
      if Reached(cfg, policy, input, k) {
        StepMatches(cfg, policy, input, k);
      }
    } else {
      assert input[..0] == [];
    }
  }

  /**
   A stream ends in an authentication failure if and only if authentication is required and
   the loop comes to an envelope that is refused.
   */
  lemma {:induction false} RefusedIff<T>(cfg: Config<T>, policy: Policy, input: seq<Recv>)
    ensures Run(cfg, policy, Begin(), input).1 == AuthFailed
            <==> exists k :: 0 <= k < |input| && Reached(cfg, policy, input, k) && Refused(cfg, policy, input, k)
  {
    RefusedUpTo(cfg, policy, input, |input|);
    assert input[..|input|] == input;
  }

  /** Why these headers do not satisfy the policy. */
  ghost predicate Complains(policy: Policy, asked: nat, md: map<string, string>, text: string) {
    if md == map[] then text == "missing headers"
    else if Consults(policy, md) then policy.dynamicValidator.value(asked, md) == Some(text)
    else exists i ::
      && 0 <= i < |policy.staticHeaders| && !Fits(md, policy.staticHeaders[i])
      && (forall j :: 0 <= j < i ==> Fits(md, policy.staticHeaders[j]))
      && text == "missing/invalid header " + policy.staticHeaders[i].0
  }

  lemma {:induction false} FirstMisfit(required: seq<(string, string)>, md: map<string, string>) returns (i: nat)
    requires StaticMismatch(required, md).Some?
    ensures i < |required| && !Fits(md, required[i]) && StaticMismatch(required, md) == Some(required[i].0)
    ensures forall j :: 0 <= j < i ==> Fits(md, required[j])
  {
    if Fits(md, required[0]) {
      i := FirstMisfit(required[1..], md);
      i := i + 1;
    } else {
      i := 0;
    }
  }

  lemma {:induction false} ReasonGiven(policy: Policy, asked: nat, md: map<string, string>)
    requires !Validate(policy, asked, md).0.Valid?
    ensures Complains(policy, asked, md, ErrorText(Validate(policy, asked, md).0))
  {
    StaticMismatchNone(policy.staticHeaders, md);
    assert forall h :: Fits(md, h) <==> Text.Lower(h.0) in md && md[Text.Lower(h.0)] == h.1;
    if md != map[] && StaticMismatch(policy.staticHeaders, md).Some? {
      var i := FirstMisfit(policy.staticHeaders, md);
      assert policy.staticHeaders[i] in policy.staticHeaders;
    }
  }

  /** The answer to a refused envelope. */
  ghost predicate Refusal<T>(policy: Policy, g: Gate<T>, env: Envelope, md: map<string, string>, a: Ack)
    requires env.Open? || env.Payload?
  {
    && !a.success && a.code == 401 && a.lastSeq == 0 && a.okCount == 0 && a.errCount == 0
    && (if env.Open? then a.streamId == env.streamId && a.id == "" && a.seqNo == 0
        else a.streamId == g.conn.streamId && a.id == env.wrapped.id && a.seqNo == env.wrapped.seqNo)
    && exists text :: a.message == "auth failed: " + text && Complains(policy, g.asked, md, text)
  }

  lemma {:induction false} RefusingStep<T>(cfg: Config<T>, policy: Policy, g: Gate<T>, r: Recv)
    requires Step(cfg, policy, g, r).exit == Some(AuthFailed)
    ensures IsOpen(r) || IsPayload(r)
    ensures var t := Step(cfg, policy, g, r).gate.conn.trace;
            var meta := if IsOpen(r) then r.env.defaults
                        else if r.env.wrapped.metadata.Some? then r.env.wrapped.metadata else g.conn.defaults;
            && t == g.conn.trace + (if IsOpen(r) then [Opened] else []) + [t[|t| - 1]]
            && t[|t| - 1].Sent? && Refusal(policy, g, r.env, MetadataHeaders(meta), t[|t| - 1].ack)
  {
    if IsOpen(r) {
      ReasonGiven(policy, g.asked, MetadataHeaders(r.env.defaults));
    } else {
      var p := r.env.wrapped;
      var meta := if p.metadata.Some? then p.metadata else g.conn.defaults;
      if Admit(policy, g, p, meta).exit.None? {
        SettleKeepsDefaults(cfg, Admit(policy, g, p, meta).gate.conn, p, meta);
      }
      ReasonGiven(policy, g.asked, MetadataHeaders(meta));
    }
  }

  lemma {:induction false} StaysEnded<T>(cfg: Config<T>, policy: Policy, input: seq<Recv>, k: nat, n: nat)
    requires k <= n <= |input| && !Reached(cfg, policy, input, k)
    ensures Run(cfg, policy, Begin(), input[..n]) == Run(cfg, policy, Begin(), input[..k])
    decreases n
  {
    if k < n {
      RunUpTo(cfg, policy, input, n - 1);
      StaysEnded(cfg, policy, input, k, n - 1);
    }
  }

  /**
   The refused envelope is the last one dealt with, and the last thing that happens is a negative
   acknowledgement with code 401, to the stream as the latest Open named it and, for a payload,
   with its ID and number, that says which check failed.
   */
  lemma {:induction false} RefusalIsAnswered<T>(cfg: Config<T>, policy: Policy, input: seq<Recv>) returns (k: nat)
    requires Run(cfg, policy, Begin(), input).1 == AuthFailed
    ensures k < |input| && Reached(cfg, policy, input, k) && Refused(cfg, policy, input, k)
    ensures var g, t := StateAt(cfg, policy, input, k), Run(cfg, policy, Begin(), input).0.conn.trace;
            && g.conn.streamId == StreamAt(input, k) && t != []
            && t == g.conn.trace + (if IsOpen(input[k]) then [Opened] else []) + [t[|t| - 1]]
            && t[|t| - 1].Sent? && Refusal(policy, g, input[k].env, HeadersAt(input, k), t[|t| - 1].ack)
  {
    RefusedIff(cfg, policy, input);
    k :| 0 <= k < |input| && Reached(cfg, policy, input, k) && Refused(cfg, policy, input, k);
    RefusedUpTo(cfg, policy, input, k);
    StepMatches(cfg, policy, input, k);
    StaysEnded(cfg, policy, input, k + 1, |input|);
    assert input[..|input|] == input;
    RunUpTo(cfg, policy, input, k);
    RefusingStep(cfg, policy, StateAt(cfg, policy, input, k), input[k]);
  }

  // ---------- what headers a message shows ----------

  /** The last header of that name, in small letters or capitals, has the value. */
  ghost predicate Carries(headers: seq<(string, string)>, name: string, v: string) {
    exists i ::
      && 0 <= i < |headers| && Names(headers[i], name) && headers[i].1 == v
      && forall j :: i < j < |headers| ==> !Names(headers[j], name)
  }

  predicate Names(h: (string, string), name: string) { h.0 != "" && Spells(h.0, name) }

  lemma {:induction false} LookupMeaning(headers: seq<(string, string)>, name: string, v: string)
    requires NoCapitals(name)
    ensures Lookup(headers, name) == Some(v) <==> Carries(headers, name, v)
  {
    if headers != [] {
      var n := |headers| - 1;
      var front := headers[..n];
      LowerSpells(headers[n].0, name);
      LookupMeaning(front, name, v);
      if Names(headers[n], name) {
        assert Carries(headers, name, v) <==> headers[n].1 == v;
      } else {
        if Carries(headers, name, v) {
          var i :| 0 <= i < |headers| && Names(headers[i], name) && headers[i].1 == v
                   && forall j :: i < j < |headers| ==> !Names(headers[j], name);
          assert front[i] == headers[i];
        }
        if Carries(front, name, v) {
          var i :| 0 <= i < |front| && Names(front[i], name) && front[i].1 == v
                   && forall j :: i < j < |front| ==> !Names(front[j], name);
          assert headers[i] == front[i] && forall j :: i < j < n ==> headers[j] == front[j];
        }
      }
    }
  }

  /** Which headers a message shows to the policy: under each name without capitals the value of the
      last header of that name, however it was spelled; headers without a name are skipped. */
  lemma {:induction false} HeadersMeaning(meta: Metadata, name: string, v: string)
    ensures var md := MetadataHeaders(Some(meta));
            name in md && md[name] == v <==> NoCapitals(name) && Carries(meta.headers, name, v)
  {
    var md := MetadataHeaders(Some(meta));
    assert Lookup(meta.headers, name) == if name in md then Some(md[name]) else None;
    if NoCapitals(name) {
      LookupMeaning(meta.headers, name, v);
    } else {
      LookupLow(meta.headers, name);
    }
  }

  lemma {:induction false} LookupLow(headers: seq<(string, string)>, name: string)
    requires !NoCapitals(name)
    ensures Lookup(headers, name) == None
  {
    if headers != [] {
      LookupLow(headers[..|headers| - 1], name);
      var i :| 0 <= i < |name| && 65 <= name[i] as int <= 90;
      assert Text.Lower(headers[|headers| - 1].0) != name;
    }
  }

  /** Without `authRequired` no stream is refused, whatever headers it shows; it delivers all it is worth. */
  lemma {:induction false} OptionalNeverRefuses<T(!new)>(cfg: Config<T>, policy: Policy, input: seq<Recv>)
    requires !policy.authRequired && SendsSucceed(cfg) && !cfg.grpcWeb
    requires forall i :: 0 <= i < |input| ==> !input[i].RecvError?
    ensures var (g, exit) := Run(cfg, policy, Begin(), input);
            exit != AuthFailed && Items(g.conn.trace) == Worth(cfg, None, input)
  {
    RefusedIff(cfg, policy, input);
    QuicDeliversItsWorth(cfg, policy, input);
  }

  lemma {:induction false} StaysCleared<T>(cfg: Config<T>, policy: Policy, input: seq<Recv>, k: nat, i: nat)
    requires k < i < |input| && Shows(cfg, policy, input, k)
    requires forall j :: k < j < |input| ==> !IsOpen(input[j])
    ensures !Refused(cfg, policy, input, i)
  {
    assert Cleared(cfg, policy, input, i);
  }

  lemma {:induction false} RunPrefix<T>(cfg: Config<T>, policy: Policy, input: seq<Recv>, i: nat, k: nat)
    requires i <= k <= |input| && Reached(cfg, policy, input, k)
    ensures Reached(cfg, policy, input, i)
    decreases k
  {
    if i < k {
      RunUpTo(cfg, policy, input, k - 1);
      RunPrefix(cfg, policy, input, i, k - 1);
    }
  }

  /**
   An Open whose headers satisfy the policy opens the gate for good: until the next Open,
   every payload that decodes is delivered, whatever metadata of its own it carries.
   */
  lemma {:induction false} SatisfiedOpenDelivers<T(!new)>(
    cfg: Config<T>, policy: Policy, input: seq<Recv>, k: nat)
    requires SendsSucceed(cfg) && !cfg.grpcWeb && forall i :: 0 <= i < |input| ==> !input[i].RecvError?
    requires k < |input| && Reached(cfg, policy, input, k) && IsOpen(input[k]) && Shows(cfg, policy, input, k)
    requires forall i :: k < i < |input| ==> !IsOpen(input[i])
    ensures var (g, exit) := Run(cfg, policy, Begin(), input);
            && exit != AuthFailed
            && Items(g.conn.trace)
               == Items(StateAt(cfg, policy, input, k).conn.trace)
                  + Worth(cfg, input[k].env.defaults, input[k + 1..])
  {
    RefusedIff(cfg, policy, input);
    forall i | 0 <= i < |input| && Reached(cfg, policy, input, i)
      ensures !Refused(cfg, policy, input, i)
    {
      if i < k {
        RefusedUpTo(cfg, policy, input, i + 1);
        RunPrefix(cfg, policy, input, i + 1, k);
      } else if k < i {
        StaysCleared(cfg, policy, input, k, i);
      }
    }
    QuicDeliversItsWorth(cfg, policy, input);
    QuicDeliversItsWorth(cfg, policy, input[..k]);
    ReachedGoesOn(cfg, policy, input, k);
    WorthSplits(cfg, None, input, k);
  }

  /** What the loop has dealt with and gone on from does not end a stream. */
  lemma {:induction false} ReachedGoesOn<T>(cfg: Config<T>, policy: Policy, input: seq<Recv>, k: nat)
    requires k <= |input| && Reached(cfg, policy, input, k)
    ensures forall i :: 0 <= i < k ==> input[i].Message? && !input[i].env.Close?
  {
    forall i | 0 <= i < k
      ensures input[i].Message? && !input[i].env.Close?
    {
      RunPrefix(cfg, policy, input, i, k);
      RunPrefix(cfg, policy, input, i + 1, k);
      RunUpTo(cfg, policy, input, i);
    }
  }

  lemma {:induction false} WorthSplits<T>(cfg: Config<T>, defaults: Option<Metadata>, input: seq<Recv>, k: nat)
    requires k < |input| && IsOpen(input[k])
    requires forall i :: 0 <= i < k ==> input[i].Message? && !input[i].env.Close?
    ensures Worth(cfg, defaults, input)
            == Worth(cfg, defaults, input[..k]) + Worth(cfg, input[k].env.defaults, input[k + 1..])
    decreases k
  {
    if k > 0 {
      var r, front, rest := input[0], input[..k], input[1..];
      assert front[0] == r && front[1..] == rest[..k - 1] && rest[k..] == input[k + 1..];
      var next := DefaultsBehind(cfg.grpcWeb, defaults, r.env);
      WorthSplits(cfg, next, rest, k - 1);
    }
  }
}
