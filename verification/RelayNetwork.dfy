/**
 Relays that drop, retry and merge.  A session may lose payloads to a failed send, a relay
 replaces failed sessions, receives from several and sends to several targets, so a session
 of a passthrough relay carries some selection, in some order, of what its receivers
 delivered.
 */
module RelayNetwork {
  import opened Common
  import opened RelayMessages
  import opened AckLoop
  import opened PayloadCodec
  import opened RelayHops

  /** A submission, and the settings of the relay that wrapped it. */
  datatype Load<V> = Load(x: Submission<V>, edge: Edge)

  /** One session: what it transmits, and which submissions those payloads came from. */
  datatype Flow<V> = Flow(stream: Stream, carried: seq<Load<V>>, source: Source<V>)

  /** A session of a wrapping relay, or of a passthrough relay that takes payload `k` from
      position `from[k].1` of what the incoming session `from[k].0` had delivered. */
  datatype Source<V> =
    | AtEdge(edge: Edge, streamId: string, traceId: string)
    | AtHop(hop: Hop, incoming: seq<Flow<V>>, from: seq<(nat, nat)>)

  function Submissions<V>(carried: seq<Load<V>>): seq<Submission<V>> {
    seq(|carried|, i requires 0 <= i < |carried| => carried[i].x)
  }

  function Contents<V>(carried: seq<Load<V>>): seq<V> {
    seq(|carried|, i requires 0 <= i < |carried| => carried[i].x.value)
  }

  ghost predicate Forwards<V>(hop: Hop, incoming: seq<Flow<V>>, at: (nat, nat), p: WrappedPayload, l: Load<V>) {
    && at.0 < |incoming| && at.1 < |incoming[at.0].carried| && l == incoming[at.0].carried[at.1]
    && var items := RelayHops.Delivered(hop.quic, PassthroughConfig(hop), incoming[at.0].stream);
    at.1 < |items| && p == items[at.1]
  }

  /** The wrapping relay accepts the submission, under the network's key. */
  ghost predicate Accepted<V>(c: Codecs<V>, key: Bytes, l: Load<V>) { l.edge.key == key && Wraps(c, l.edge, l.x) }

  /** Every session of the network comes about in one of the two ways.  The wrapping relays
      share a key and nothing else. */
  ghost predicate Genuine<V>(c: Codecs<V>, key: Bytes, f: Flow<V>)
    decreases f
  {
    match f.source
    case AtEdge(edge, streamId, traceId) =>
      && (forall k :: 0 <= k < |f.carried| ==> f.carried[k].edge == edge && Accepted(c, key, f.carried[k]))
      && (forall x :: x in Submissions(f.carried) ==> Wraps(c, edge, x))
      && f.stream == EdgeStream(c, edge, streamId, traceId, Submissions(f.carried))
    case AtHop(hop, incoming, from) =>
      && Working(hop) && f.stream.open == hop.open
      && |from| == |f.carried| == |f.stream.payloads|
      && (forall j :: 0 <= j < |incoming| ==> Genuine(c, key, incoming[j]))
      && (forall k :: 0 <= k < |from| ==> Forwards(hop, incoming, from[k], f.stream.payloads[k], f.carried[k]))
  }

  /** The payload, with the metadata it is handled under, is what an edge made of its submission. */
  ghost predicate Stems<V>(c: Codecs<V>, key: Bytes, s: Stream, p: WrappedPayload, l: Load<V>)
    requires s.open.Open?
  {
    Accepted(c, key, l) && exists traceId: string :: StemsFrom(c, traceId, Rebuilt(p, Effective(s, p)), l)
  }

  ghost predicate StemsFrom<V>(c: Codecs<V>, traceId: string, r: WrappedPayload, l: Load<V>)
    requires Wraps(c, l.edge, l.x)
  {
    r == AsReceived(WrapPayload(c, l.x.value, l.edge, l.x.nonce, l.x.id, l.x.now).value, l.edge, traceId, l.x.seqNo)
  }

  ghost predicate Carries<V>(c: Codecs<V>, key: Bytes, s: Stream, ls: seq<Load<V>>) {
    && s.open.Open? && |s.payloads| == |ls|
    && forall k :: 0 <= k < |ls| ==> Stems(c, key, s, s.payloads[k], ls[k])
  }

  lemma {:induction false} CarriesTyped<V>(c: Codecs<V>, key: Bytes, s: Stream, ls: seq<Load<V>>)
    requires Carries(c, key, s, ls)
    ensures Typed(s)
  {
    forall p | p in s.payloads
      ensures Effective(s, p).Some? && Effective(s, p).value.contentType != ""
    {
      var k :| 0 <= k < |s.payloads| && s.payloads[k] == p;
      assert Stems(c, key, s, p, ls[k]);
      var traceId :| StemsFrom(c, traceId, Rebuilt(p, Effective(s, p)), ls[k]);
      var edge := ls[k].edge;
      assert Rebuilt(p, Effective(s, p)).metadata == Some(StandardMetadata(edge.perf, edge.sec, traceId));
    }
  }

  lemma {:induction false} EdgeCarries<V>(c: Codecs<V>, key: Bytes, f: Flow<V>)
    requires f.source.AtEdge? && Genuine(c, key, f)
    ensures Carries(c, key, f.stream, f.carried)
  {
    var s, xs := f.stream, Submissions(f.carried);
    forall k | 0 <= k < |f.carried|
      ensures Stems(c, key, s, s.payloads[k], f.carried[k])
    {
      assert Accepted(c, key, f.carried[k]) && xs[k] in xs;
      assert s.payloads[k] == Submitted(c, f.source.edge, xs[k]);
      assert StemsFrom(c, f.source.traceId, Rebuilt(s.payloads[k], Effective(s, s.payloads[k])), f.carried[k]);
    }
  }

  /** What a hop delivers at position `i` is payload `i` with its metadata filled in. */
  lemma {:induction false} HopDelivers(h: Hop, s: Stream, i: nat)
    requires Working(h) && Typed(s) && i < |s.payloads|
    ensures var items := RelayHops.Delivered(h.quic, PassthroughConfig(h), s);
            |items| == |s.payloads| && items[i] == Rebuilt(s.payloads[i], Effective(s, s.payloads[i]))
  {
    DeliveredIsOks(h.quic, PassthroughConfig(h), s);
    PassthroughOks(h, s, |s.payloads|);
    ResolvedAt(s, |s.payloads|);
  }

  /** A payload with its own metadata is handled under it on any session. */
  lemma {:induction false} StemsOnwards<V>(
    c: Codecs<V>, key: Bytes, s: Stream, p: WrappedPayload, l: Load<V>, t: Stream)
    requires s.open.Open? && t.open.Open? && Stems(c, key, s, p, l)
    ensures Stems(c, key, t, Rebuilt(p, Effective(s, p)), l)
  {
    var r := Rebuilt(p, Effective(s, p));
    var traceId :| StemsFrom(c, traceId, r, l);
    assert Rebuilt(r, Effective(t, r)) == r;
    assert StemsFrom(c, traceId, Rebuilt(r, Effective(t, r)), l);
  }

  lemma {:induction false} GenuineCarries<V>(c: Codecs<V>, key: Bytes, f: Flow<V>)
    requires Genuine(c, key, f)
    ensures Carries(c, key, f.stream, f.carried)
    decreases f
  {
    match f.source
    case AtEdge(_, _, _) => EdgeCarries(c, key, f);
    case AtHop(hop, incoming, from) =>
      forall k | 0 <= k < |f.carried|
        ensures Stems(c, key, f.stream, f.stream.payloads[k], f.carried[k])
      {
        assert Forwards(hop, incoming, from[k], f.stream.payloads[k], f.carried[k]);
        var g, i := incoming[from[k].0], from[k].1;
        assert Genuine(c, key, g);
        GenuineCarries(c, key, g);
        CarriesTyped(c, key, g.stream, g.carried);
        HopDelivers(hop, g.stream, i);
        StemsOnwards(c, key, g.stream, g.stream.payloads[i], g.carried[i], f.stream);
      }
  }

  /** A key every receiver of the network can use. */
  predicate SharedKeyWorks(key: Bytes) { key == [] || AesKeyLength(|key|) }

  /** Relays that share a key all encrypt or all do not. */
  lemma {:induction false} UsableIsShared<V>(c: Codecs<V>, key: Bytes, l: Load<V>)
    requires Accepted(c, key, l)
    ensures UsableKey(l.edge) <==> SharedKeyWorks(key)
  {
    assert KeyProblem(l.edge.sec, l.edge.key).None?;
  }

  lemma {:induction false} StemDecodes<V(!new)>(
    c: Codecs<V>, key: Bytes, s: Stream, p: WrappedPayload, l: Load<V>)
    requires Lawful(c) && !c.protoTarget && s.open.Open? && Stems(c, key, s, p, l)
    ensures var r := UnwrapPayload(c, Rebuilt(p, Effective(s, p)), key);
            if SharedKeyWorks(key) then r == Ok(l.x.value) else r.Err?
  {
    var traceId :| StemsFrom(c, traceId, Rebuilt(p, Effective(s, p)), l);
    UnwrapUndoesWrap(c, l.x.value, l.edge, l.x.nonce, l.x.id, l.x.now, traceId, l.x.seqNo);
    UsableIsShared(c, key, l);
  }

  /**
   Through any network of relays of either kind, fed by any number of wrapping relays that
   share a key and may differ in compression, with whatever losses, repetitions, session
   replacements, merges and fan-out, the receiver at the end of a session delivers exactly the
   values of the submissions that session carries, in its order, if and only if the key is
   usable, and otherwise none.
   */
  lemma {:induction false} NetworkDelivers<V(!new)>(
    c: Codecs<V>, key: Bytes, f: Flow<V>, quic: bool, grpcWeb: bool, sendOk: nat -> bool)
    requires Lawful(c) && !c.protoTarget && Genuine(c, key, f) && forall k: nat :: sendOk(k)
    ensures RelayHops.Delivered(quic, UnwrapConfig(c, key, grpcWeb, sendOk), f.stream)
            == if SharedKeyWorks(key) then Contents(f.carried) else []
  {
    var s, ls, cfg := f.stream, f.carried, UnwrapConfig(c, key, grpcWeb, sendOk);
    GenuineCarries(c, key, f);
    CarriesTyped(c, key, s, ls);
    DeliveredIsOks(quic, cfg, s);
    forall i | 0 <= i < |ls|
      ensures if SharedKeyWorks(key) then DecodedAt(cfg, s, i) == Ok(Contents(ls)[i]) else DecodedAt(cfg, s, i).Err?
    {
      assert Stems(c, key, s, s.payloads[i], ls[i]);
      StemDecodes(c, key, s, s.payloads[i], ls[i]);
    }
    if SharedKeyWorks(key) {
      OksAll(cfg, s, Contents(ls), |ls|);
      assert Contents(ls)[..|ls|] == Contents(ls);
    } else {
      OksNone(cfg, s, |ls|);
    }
  }
}
