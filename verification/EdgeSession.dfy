/** The session that a wrapping relay opens, as the receivers see it. */
module EdgeSession {
  import opened Common
  import opened RelayMessages
  import opened AckLoop
  import opened PayloadCodec
  import opened RelayHops
  import opened QuicGate
  import BatchCadence
  import TextLaws
  import Grpc = GrpcReceiver
  import Quic = QuicReceiver

  /** Its Close, like any, ends the session's input. */
  const FAREWELL := Message(Close("relay stop"))

  lemma {:induction false} EdgeInput<V>(
    c: Codecs<V>, e: Edge, streamId: string, traceId: string, xs: seq<Submission<V>>)
    requires forall x :: x in xs ==> Wraps(c, e, x)
    ensures var s := EdgeStream(c, e, streamId, traceId, xs);
            && Input(s) == [Message(s.open)] + BatchCadence.Messages(s.payloads) + [FAREWELL]
            && |s.payloads| == |xs| && s.open.Open? && s.open.streamId == streamId
            && forall i :: 0 < i < |Input(s)| ==> !IsOpen(Input(s)[i])
  {
  }

  /** A session of `n` submissions draws one acknowledgement for its Open and one for every 1024
      payloads or part of that. */
  lemma {:induction false} EdgeAcknowledged<V(!new), T(!new)>(
    c: Codecs<V>, e: Edge, streamId: string, traceId: string, xs: seq<Submission<V>>, cfg: Config<T>)
    requires (forall x :: x in xs ==> Wraps(c, e, x)) && cfg.sendOk(0)
    ensures var d := Grpc.Run(cfg, Start(), Input(EdgeStream(c, e, streamId, traceId, xs))).0;
            |BatchCadence.Acks(d.trace)| == 1 + (|xs| + 1023) / 1024
  {
    var s := EdgeStream(c, e, streamId, traceId, xs);
    EdgeInput(c, e, streamId, traceId, xs);
    BatchCadence.CadenceCount(cfg, s.open, s.payloads, FAREWELL);
  }

  /** It shows a single header, `source` with the value `go`. */
  lemma {:induction false} EdgeShows<V>(
    c: Codecs<V>, e: Edge, streamId: string, traceId: string, xs: seq<Submission<V>>)
    requires forall x :: x in xs ==> Wraps(c, e, x)
    ensures HeadersAt(Input(EdgeStream(c, e, streamId, traceId, xs)), 0) == map["source" := "go"]
  {
    var s := EdgeStream(c, e, streamId, traceId, xs);
    var hs := s.open.defaults.value.headers;
    assert hs == [("source", "go")] && hs[..0] == [];
    assert Text.Lower("source") == "source";
    assert Quic.HeaderMap([]) == map[];
    assert Quic.HeaderMap(hs) == map["source" := "go"];
  }

  /** A stream with one Open in front that shows headers is refused exactly if these do not satisfy
      the policy, whatever its payloads show. */
  lemma {:induction false} FirstOpenDecides<T(!new)>(cfg: Config<T>, policy: Quic.Policy, input: seq<Recv>)
    requires policy.authRequired && input != [] && IsOpen(input[0]) && HeadersAt(input, 0) != map[]
    requires forall i :: 0 < i < |input| ==> !IsOpen(input[i])
    ensures Quic.Run(cfg, policy, Quic.Begin(), input).1 == AuthFailed
            <==> !Quic.Satisfies(policy, 0, HeadersAt(input, 0))
  {
    RefusedIff(cfg, policy, input);
    assert input[..0] == [];
    assert StateAt(cfg, policy, input, 0) == Quic.Begin();
    if Shows(cfg, policy, input, 0) {
      forall i | 0 <= i < |input|
        ensures !Refused(cfg, policy, input, i)
      {
        if i > 0 {
          StaysCleared(cfg, policy, input, 0, i);
        }
      }
    } else {
      assert Reached(cfg, policy, input, 0) && Refused(cfg, policy, input, 0);
    }
  }

  predicate SourceGo(h: (string, string)) { TextLaws.Spells(h.0, "source") && h.1 == "go" }

  lemma {:induction false} SourceGoFits(policy: Quic.Policy)
    requires policy.dynamicValidator.None?
    ensures Quic.Satisfies(policy, 0, map["source" := "go"])
            <==> forall h :: h in policy.staticHeaders ==> SourceGo(h)
  {
    var md := map["source" := "go"];
    assert md != map[] by { assert "source" in md; }
    forall h: (string, string)
      ensures Text.Lower(h.0) in md && md[Text.Lower(h.0)] == h.1 <==> SourceGo(h)
    {
      TextLaws.LowerSpells(h.0, "source");
    }
  }

  /**
   So a receiver that requires static headers refuses it if and only if it requires any header
   but `source: go`: a session of a wrapping relay cannot meet a policy that asks for a key of its own.
   */
  lemma {:induction false} EdgeRefusedIff<V(!new), T(!new)>(
    c: Codecs<V>, e: Edge, streamId: string, traceId: string, xs: seq<Submission<V>>,
    cfg: Config<T>, policy: Quic.Policy)
    requires forall x :: x in xs ==> Wraps(c, e, x)
    requires policy.authRequired && policy.dynamicValidator.None?
    ensures var input := Input(EdgeStream(c, e, streamId, traceId, xs));
            Quic.Run(cfg, policy, Quic.Begin(), input).1 == AuthFailed
            <==> exists h :: h in policy.staticHeaders && !SourceGo(h)
  {
    var input := Input(EdgeStream(c, e, streamId, traceId, xs));
    EdgeInput(c, e, streamId, traceId, xs);
    EdgeShows(c, e, streamId, traceId, xs);
    assert "source" in HeadersAt(input, 0);
    FirstOpenDecides(cfg, policy, input);
    SourceGoFits(policy);
  }
}
