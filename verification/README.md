# Electrician: verified models of the relay, queue, breaker and codec cores

Electrician is a Go library of pipeline components. This project models the six parts of it
that keep real state or undo each other, and proves what they promise over every input, every
run or every interleaving. `dafny verify dfyconfig.toml` checks the whole project.

## How the parts fit together

* **Receivers** (`RelayMessages`, `AckLoop`, `GrpcReceiver`, `QuicReceiver`, `ReceiverEquivalence`,
  `Deliveries`, `QuicGate`, `AckAccounting`, `AckExactness`, `BatchMeter`, `BatchCadence`,
  `MessageAcks`, `SendFailures`, `CounterWrap`). The receive loop exists twice in Go. Each
  is a method with a loop over what `Recv` yields, working on an object (`StreamLoop`,
  `GatedLoop`) that holds the loop's local variables with their machine widths, and is proved
  equal to a run of a step function. The trace records every Open, header check, delivery,
  failure and attempted send in order; the theorems are about that trace, and say in terms of the
  input alone what is delivered (`Deliveries`), what is refused (`QuicGate`) and what is answered.
  Sends can fail: which ones do is a parameter.
* **Payloads from end to end** (`PayloadCodec`, `PayloadFormat`, `KeyMismatch`, `RelayHops`,
  `RelayNetwork`, `EdgeSession`). What a wrapping relay accepts and puts on the wire, how a receiver
  picks its decoder, and what comes out behind any chain or network of relays.
* **Session table** (`StreamSessions`, `SessionService`, `SessionProgress`, `LateDials`,
  `SessionConservation`, `DuplicateTargets`). Safety and order, service (ended sessions are
  replaced, every target is served), progress, conservation.
* **Resister** (`Resister`). Element objects are shared and changed in place; the sift loops of
  Go's `container/heap` are written out. The abstract value is a map from ID to entry.
* **Relay log sink** (`LogSink`) and **circuit breaker** runs (`CircuitBreaker`). Here as for the
  session table concurrency is a state machine: one action is one critical section, channel
  operation or atomic instruction, and a run is any list of enabled actions.
* **Introspection cache** (`Introspection`), after section 2.2 of RFC 7662 and section 4 of
  RFC 6585, over sequential runs; `TextLaws` says what the string operations compute.
* **Encoders** (`ByteStreams`, `WaveCodec`, `WireLayout`, `Haar`): the wave codec, QUIC framing, and
  the Haar step over exact reals.

## Where the code and a natural reading of it differ

* A key that the sender accepts only after decoding it from hexadecimal or base64 is used raw by
  the receiver, so nothing sent under it is ever delivered. `RelayNetwork.NetworkDelivers` says
  that all values arrive if and only if encryption is off or the raw key length is 16, 24 or 32;
  `KeyMismatch` says which keys are accepted and unusable, and that every key of 48 or 64
  hexadecimal digits is one.
* Batch counters are 32 bits wide and an Open may change the batch size in mid-batch, so a stream
  can lose count: `CounterWrap.WrapLosesAcks` is a run that delivers 2^32 payloads in batch mode,
  ends by Close and never reports one. Which streams are safe depends on their own envelopes
  alone: `BatchMeter.ConservedIffSafe` says that accounts are exact, whatever decodes and
  whichever sends fail, if and only if the payloads since the last full batch never number 2^32.
  A stream that keeps to one batch size is safe however long it is, and that is how the
  repository's own sender opens; so is one with fewer than 2^32 payloads.
* A submitter that loses the race to publish its new session takes the table's session without a
  look at its `doneCh`. So an ended session is not replaced by everybody: `LateDials.ReplacedIffLooking`
  says that a submitter can get its payload past an ended session if and only if it is still to look
  at the table or stands before that very session; the others put it on the ended one, where nobody
  sends it. `LateDials.LateDialHappens` is such a run with two submitters.
* Decay raises a negative priority to zero, and turns the two lowest priorities there are into the two
  highest: it raises nothing if and only if the entry is young or its priority is not negative
  (`Resister.DecayRaisesNothing`).
* A wrapping relay's session shows the header `source: go` and no other, so a QUIC receiver that
  requires static headers of its own refuses every one of them (`EdgeSession.EdgeRefusedIff`).
* A target listed twice receives each sequence number twice. `SequenceNumbersIncrease` holds for
  distinct targets, and `DuplicateTargets.RepeatedTargetRepeatsNumbers` shows that every list
  with a repetition has a run that breaks it.
* `pending` of the log sink is incremented after the send and can be -1
  (`LogSink.PendingCanBeNegative`); the guarantee of Sync holds all the same
  (`LogSink.SyncFlushes`).
* An ID outside the `int32` range, or a length of 2^31 or more, does not survive the wave codec
  (`WaveCodec.RoundTripsIffInRange`). The decoder panics if and only if one of the three length
  fields is negative (`WaveCodec.PanicsIffNegativeLength`, `WaveCodec.MinusOnePanics`). A frame
  cut right after its header reads as a clean end of file (`Framing.CutFrameFails`).
* `HaarWavelet.Transform` panics on odd lengths and the pipeline also on an empty wave; both are
  outcomes of the model.

## Model

| member | source | states |
|---|---|---|
| `AckLoop.StreamLoop.FlushBatch` | pkg/internal/receivingrelay/stream.go:37-53 | Outside batch mode or with nothing counted the state is untouched; otherwise one acknowledgement with the pending counts and last sequence number, and counters at zero |
| `AckLoop.StreamLoop.TallyBatch` | pkg/internal/receivingrelay/stream.go:288-293 | The batch arm: wrapping counters, and a flush when the batch size divides the count |
| `GrpcReceiver.StreamReceive` | pkg/internal/receivingrelay/stream.go:63-297 | The imperative loop ends with the state, trace and exit of `Run` on every input |
| `GrpcReceiver.Reopen` | pkg/internal/receivingrelay/stream.go:95-136 | An Open replaces stream ID and defaults, keeps an unspecified mode, clears the batch size outside batch mode, and acknowledges unless acks are off |
| `GrpcReceiver.Accept` | pkg/internal/receivingrelay/stream.go:156-295 | One payload: effective metadata, decoding, delivery or failure, and the acknowledgement its mode asks for |
| `QuicReceiver.HeadersFromMetadata` | pkg/internal/quicrelay/receivingrelay_auth.go:103-115 | The loop yields the map under which looking a name up finds the last non-empty header name that lower-cases to it |
| `QuicReceiver.CheckStaticHeaders` | pkg/internal/quicrelay/receivingrelay_auth.go:73-82 | Names the first required header that is absent or differs, or none |
| `QuicReceiver.StaticMismatchNone` | pkg/internal/quicrelay/receivingrelay_auth.go:73-82 | No mismatch is reported if and only if every required header is there with its value |
| `QuicReceiver.ValidateHeaders` | pkg/internal/quicrelay/receivingrelay_auth.go:84-101 | Same verdict, and same number of calls to the dynamic validator, as `Validate` |
| `QuicReceiver.ValidateMeaning` | pkg/internal/quicrelay/receivingrelay_auth.go:84-101 | Validation passes if and only if the headers satisfy the policy |
| `QuicReceiver.GatedLoop.Reopen` | pkg/internal/quicrelay/receivingrelay_stream.go:75-138 | An Open keeps the batch size outside batch mode, checks its headers, and may refuse the stream with 401 |
| `QuicReceiver.GatedLoop.AuthorizeOpen` | pkg/internal/quicrelay/receivingrelay_stream.go:90-120 | Headers that pass open the gate, missing ones close it, a required failure ends the stream, an optional one leaves the gate as it was |
| `QuicReceiver.GatedLoop.AuthorizePayload` | pkg/internal/quicrelay/receivingrelay_stream.go:161-189 | An unvalidated payload is checked with its effective headers; a required failure ends the stream with 401 |
| `QuicReceiver.GatedLoop.SettlePayload` | pkg/internal/quicrelay/receivingrelay_stream.go:191-277 | Delivery or failure and its acknowledgement; a failed error acknowledgement does not end the loop |
| `QuicReceiver.HandleStream` | pkg/internal/quicrelay/receivingrelay_stream.go:58-279 | The imperative loop ends with the gate, trace and exit of `Run` on every input |
| `ReceiverEquivalence.StepSimulates` | pkg/internal/quicrelay/receivingrelay_stream.go:75-278 | Under any policy, one envelope keeps the two loops alike although only gRPC clears the batch size, unless the QUIC loop refuses it |
| `ReceiverEquivalence.ReceiversEquivalent` | pkg/internal/quicrelay/receivingrelay_stream.go:75-278 | Without gRPC-Web configuration and failing sends, and with authentication optional or no policy, both receivers emit the same acknowledgements and deliveries in the same order and leave alike, on every input with any re-opens |
| `ReceiverEquivalence.RunSimulates` | pkg/internal/quicrelay/receivingrelay_stream.go:58-279 | Under any policy and from any two alike states, the loops stay alike and leave alike unless the QUIC one refuses the stream |
| `ReceiverEquivalence.OnlyValidatedItems` | pkg/internal/quicrelay/receivingrelay_stream.go:56-189 | With authentication required, before every delivered item headers satisfying the policy were checked, with no Open in between |
| `QuicGate.RefusedIff` | pkg/internal/quicrelay/receivingrelay_stream.go:90-189 | A stream ends in an authentication failure if and only if authentication is required and the loop comes to an Open whose headers, if it has any, do not satisfy the policy, or to a payload for which nothing since the latest Open did and whose own or inherited headers do not |
| `QuicGate.SatisfiedOpenDelivers` | pkg/internal/quicrelay/receivingrelay_stream.go:118-120 | After an Open whose headers satisfy the policy and until the next one, every payload that decodes is delivered, whatever metadata of its own it carries |
| `QuicGate.OptionalNeverRefuses` | pkg/internal/quicrelay/receivingrelay_stream.go:98-117 | Without required authentication no stream is refused, and it delivers all it is worth |
| `QuicGate.RefusalIsAnswered` | pkg/internal/quicrelay/receivingrelay_stream.go:161-189 | The refused envelope is the last dealt with and draws one acknowledgement: code 401, the stream ID of the latest Open, the ID and number of the payload, and the check that failed |
| `QuicGate.OpenChecked` | pkg/internal/quicrelay/receivingrelay_stream.go:90-120 | An Open's effect on gate and stream in terms of the policy's meaning, and when the validator is asked |
| `QuicGate.PayloadChecked` | pkg/internal/quicrelay/receivingrelay_stream.go:161-189 | The same for a payload |
| `QuicGate.ValidatorCalls` | pkg/internal/quicrelay/receivingrelay_auth.go:84-101 | The dynamic validator is asked exactly if there are headers and every static one is met |
| `QuicGate.HeadersMeaning` | pkg/internal/quicrelay/receivingrelay_auth.go:103-115 | A message shows a value under a name if and only if the name has no capitals and the last header so named, in small letters or capitals, has that value |
| `Deliveries.DeliversItsWorth` | pkg/internal/receivingrelay/stream.go:156-190 | The gRPC receiver delivers, in order, exactly the payloads of the envelopes up to the end that decode under the metadata the envelopes give them, with the gRPC-Web content type filled in; no mode, batch size or re-open matters |
| `Deliveries.QuicDeliversItsWorth` | pkg/internal/quicrelay/receivingrelay_stream.go:191-217 | So does the QUIC receiver, under any policy, unless it refuses the stream |
| `Deliveries.PayloadWorth` | pkg/internal/receivingrelay/grpcweb_defaults.go:5-20 | One payload: which metadata it is decoded under, and that a content type filled in for a payload without metadata changes the stream's own defaults |
| `SendFailures.GrpcSendFailedIff` | pkg/internal/receivingrelay/stream.go:103-149 | The gRPC loop leaves with a send failure if and only if an acknowledgement of an Open or a payload could not be sent, at once and with that as its last act; failed batch reports are ignored |
| `SendFailures.QuicSendFailedIff` | pkg/internal/quicrelay/receivingrelay_stream.go:218-277 | The same for the QUIC loop under any policy, except that failed negative acknowledgements are ignored too |
| `AckAccounting.GrpcRunBalanced` | pkg/internal/receivingrelay/stream.go:63-295 | From any balanced state, reported plus pending agrees with handled modulo 2^32 after any run |
| `AckAccounting.QuicRunBalanced` | pkg/internal/quicrelay/receivingrelay_stream.go:58-278 | The same for the QUIC loop under any policy |
| `AckAccounting.AckConservation` | pkg/internal/receivingrelay/stream.go:26-53 | At every loop point of every run of either receiver, reported plus pending equals handled in batch mode if and only if fewer than 2^32 are unreported; an exit through the flush in batch mode has then reported everything |
| `AckExactness.GrpcStepSettles` | pkg/internal/receivingrelay/stream.go:63-295 | One iteration deals with one payload if its envelope carries one, and with none otherwise |
| `AckExactness.FewPayloadsConserve` | pkg/internal/receivingrelay/stream.go:26-53 | On every input with fewer than 2^32 payload envelopes, whatever the re-opens, both receivers have reported plus pending equal to handled at every loop point, and nothing unreported after an exit through the flush in batch mode |
| `CounterWrap.WrapLosesAcks` | pkg/internal/receivingrelay/stream.go:95-149 | Runs where the bound fails: after any number of payloads acknowledged one by one, 2^32 are delivered in batch mode, the stream closes normally, none is reported |
| `BatchMeter.GrpcStepFollows` | pkg/internal/receivingrelay/stream.go:95-295 | As long as the sender's meter stays below 2^32, the receiver's counters follow it and reported plus pending is handled |
| `BatchMeter.SafeConserves` | pkg/internal/receivingrelay/stream.go:37-53 | A stream whose meter stays below 2^32 is conserved exactly at every loop point by both receivers, under any configuration and policy |
| `BatchMeter.ConservedIffSafe` | pkg/internal/receivingrelay/stream.go:214-219 | For every stream: exact at every loop point under all configurations (and, for QUIC, policies) if and only if its meter never reaches 2^32 |
| `BatchMeter.OneSizeIsSafe` | pkg/internal/forwardrelay/stream.go:138-139 | If every Open in batch or unspecified mode asks for the same batch size, the stream is safe with any number of payloads |
| `BatchMeter.FewIsSafe` | pkg/internal/receivingrelay/stream.go:26-31 | So is a stream with fewer than 2^32 payload envelopes, however it is re-opened |
| `CounterWrap.ConservedIffFewer` | pkg/internal/receivingrelay/stream.go:37-53 | The worst case by numbers: all streams with n payloads, of one batch size if so restricted, are conserved exactly if and only if n is below 2^32 or they are so restricted |
| `BatchCadence.PayloadTallied` | pkg/internal/receivingrelay/stream.go:214-219 | In batch mode a payload never ends the loop and is counted once; the one that fills the batch is reported with it |
| `BatchCadence.CadenceInFlight` | pkg/internal/receivingrelay/stream.go:170-295 | Between iterations fewer than a batch is unacknowledged, the counters hold exactly those without wrapping, and the acknowledgements sent cover the full batches |
| `BatchCadence.Cadence` | pkg/internal/receivingrelay/stream.go:103-149 | One Open in batch mode, any payloads, then EOF or Close: full batches of exactly N (1024 for 0), then one for the rest, with right counts and last sequence numbers, and nothing pending |
| `BatchCadence.CadenceCount` | pkg/internal/receivingrelay/stream.go:288-293 | P payloads draw ceil(P/N) batch acknowledgements |
| `BatchCadence.QuicCadence` | pkg/internal/quicrelay/receivingrelay_stream.go:82-88 | The same cadence for the QUIC receiver without policy or required authentication |
| `MessageAcks.AnsweredOneByOne` | pkg/internal/receivingrelay/stream.go:201-287 | An Open per message or without a wish: each payload is answered exactly once, in order, with its own ID, number, outcome and reason; in modes the code does not know only the Open is answered; with acknowledgements off nothing is |
| `MessageAcks.QuicAnsweredOneByOne` | pkg/internal/quicrelay/receivingrelay_stream.go:218-277 | The same for the QUIC receiver without policy or required authentication |
| `MessageAcks.UnopenedAnswered` | pkg/internal/receivingrelay/stream.go:26-53 | Payloads before any Open are answered one by one under the empty stream ID |
| `PayloadCodec.EncryptionUndone` | pkg/internal/receivingrelay/crypto.go:12-35 | Decryption with the raw key undoes `encryptData` if and only if encryption is off or the raw key has an AES length |
| `PayloadCodec.UnwrapUndoesWrap` | pkg/internal/forwardrelay/payload.go:50-181 | Through gob, compression and encryption and the receiver's decision tree, a wrapped value comes back as itself, or exactly for an unusable raw key as an error |
| `PayloadFormat.WireFormat` | pkg/internal/forwardrelay/payload.go:50-181 | What travels for an accepted value: its gob encoding, compressed if one of the five compressors is asked for, and under AES-GCM the nonce and that sealed under the key or its hexadecimal or else base64 reading; no encoding announced |
| `PayloadFormat.DecoderChosen` | pkg/internal/receivingrelay/payload.go:15-102 | A payload yields a value exactly if its bytes open and unpack and the decoder in charge takes them: JSON by content type for a target that is no message, else the announced encoding, else protobuf for a message and gob for the rest, with JSON behind a gob that fails if the bytes look like it |
| `PayloadFormat.JsonTypeMeaning` | pkg/internal/receivingrelay/payload.go:49-52 | JSON is announced by `application/json` or a suffix `+json`, in any case and with blanks around it |
| `PayloadFormat.LooksLikeJsonMeaning` | pkg/internal/receivingrelay/payload.go:69-75 | Bytes look like JSON if and only if the first that is no white space is an opening brace or bracket |
| `RelayHops.EdgeDecodes` | pkg/internal/forwardrelay/submit.go:23-31 | A payload stripped of its metadata decodes under the stream defaults of the Open that the edge sends |
| `RelayHops.DeliveredIsOks` | pkg/internal/receivingrelay/stream.go:156-190 | Either receiver delivers exactly the payloads that decode under their effective metadata, in order |
| `RelayHops.HopKeeps` | pkg/internal/receivingrelay/passthrough.go:9-23 | A passthrough hop of either kind fills in the stream defaults, keeps metadata already there over its own defaults, and loses or reorders nothing |
| `RelayHops.HopsKeep` | pkg/internal/forwardrelay/stream.go:123-142 | The same over any number of hops |
| `RelayHops.EndToEnd` | pkg/internal/receivingrelay/payload.go:15-102 | Values wrapped at the edge and sent through any hops are delivered, all and in order, if and only if the key is usable, and otherwise none |
| `RelayNetwork.GenuineCarries` | pkg/internal/forwardrelay/submit.go:37-66 | On every session of any network of relays, each payload still resolves to what the edge made of the submission it came from |
| `RelayNetwork.NetworkDelivers` | pkg/internal/receivingrelay/payload.go:15-102 | Fed by any wrapping relays that share a key, whatever relays lose, repeat, merge, reorder or fan out, a session's receiver delivers exactly the values of the submissions the session carries, in its order, if and only if the key is usable, and otherwise none |
| `RelayNetwork.UsableIsShared` | pkg/internal/forwardrelay/payload.go:36-47 | Wrapping relays that share a key all encrypt or all do not, so the key is usable for all or for none |
| `KeyMismatch.AcceptedIff` | pkg/internal/forwardrelay/payload.go:36-157 | For every edge, encrypted or not: a submission is accepted if and only if its value packs and the key fits, that is, no key without AES-GCM, and with it a non-empty one whose raw, hexadecimal or base64 length is 16, 24 or 32 |
| `KeyMismatch.EveryEdge` | pkg/internal/receivingrelay/payload.go:15-102 | End to end for every edge: with a key that fits, every value that packs is accepted and all come out in order behind any hops, or none if AES-GCM is on under a key of another raw length; with a key that does not fit, none is accepted |
| `KeyMismatch.AcceptedButUnusable` | pkg/internal/forwardrelay/payload.go:143-157 | The submissions that are accepted and that the receiver cannot use are exactly those under AES-GCM with a key whose raw length is no AES length and whose hexadecimal or base64 decoding has one |
| `KeyMismatch.SpelledKeyDeliversNothing` | pkg/internal/receivingrelay/crypto.go:16-20 | Under such a key every submission is wrapped and transmitted and nothing is delivered |
| `KeyMismatch.LongHexKeysAreSpelled` | pkg/internal/forwardrelay/payload.go:149-151 | With real hexadecimal decoding, every key of 48 or 64 hexadecimal digits is such a key |
| `KeyMismatch.TransparentIsLawful` | pkg/internal/forwardrelay/payload.go:50-109 | The laws assumed of the libraries can be met: a concrete set of codecs keeps them |
| `EdgeSession.EdgeAcknowledged` | pkg/internal/forwardrelay/stream.go:138-139 | A wrapping relay's session of n submissions draws one acknowledgement for its Open and ceil(n/1024) for its payloads |
| `EdgeSession.EdgeShows` | pkg/internal/forwardrelay/stream.go:125-128 | Its Open shows the policy the single header `source: go` |
| `EdgeSession.FirstOpenDecides` | pkg/internal/quicrelay/receivingrelay_stream.go:90-120 | A stream with one Open, in front and with headers, is refused exactly if these do not satisfy the policy, whatever its payloads show |
| `EdgeSession.EdgeRefusedIff` | pkg/internal/quicrelay/receivingrelay_auth.go:73-101 | A receiver that requires static headers refuses such a session if and only if it requires any header but `source: go` |
| `StreamSessions.StepKeeps` | pkg/internal/forwardrelay/stream.go:39-75 | Every step of every submitter, send loop and Stop keeps the structure of table, owners and channels |
| `StreamSessions.NoLeakNoPanic` | pkg/internal/forwardrelay/stream.go:39-75 | In every interleaving no channel is closed twice or sent on when closed, every session that has not ended is in the table or still owed by Stop or its opener, and at most one published session per target is live |
| `SessionService.EndedSessionNotHeld` | pkg/internal/forwardrelay/stream.go:46-51 | In every run, a submitter that looks at a session whose loop has ended does not go on with it, and one that looks at any other does |
| `SessionService.EndedSessionReplaced` | pkg/internal/forwardrelay/stream.go:46-75 | From every reachable state, a submitter that comes to look at an ended session in the table can by its own steps and a successful dial get its payload onto a new, running session that is in the table from then on, and nothing else changes |
| `SessionService.FirstSessionOpened` | pkg/internal/forwardrelay/stream.go:60-75 | The same for a target without a session |
| `SessionService.LiveSessionUsed` | pkg/internal/forwardrelay/stream.go:42-51 | A session that has not ended and has room is used again, in three steps and without a dial |
| `SessionService.DialsOnlyIfNeeded` | pkg/internal/forwardrelay/stream.go:54-63 | Dialling starts only where the table has no session or the one looked at has ended |
| `SessionService.LoserTakesWinner` | pkg/internal/forwardrelay/stream.go:65-70 | Who finds the table taken when it comes to publish holds on to that session, closes its own, and may send only once its own has ended |
| `LateDials.ReplacedIffLooking` | pkg/internal/forwardrelay/stream.go:39-75 | With an ended session in the table, a submitter can reach an Enqueue on a running session of the table, by its own steps with successful dials and those of send loops, if and only if it is about to look its target up or stands before that very session |
| `LateDials.LateDialHappens` | pkg/internal/forwardrelay/stream.go:65-70 | For every non-empty list of targets, two submitters have a run in which one is too late |
| `SessionService.EveryTargetServed` | pkg/internal/forwardrelay/submit.go:37-66 | In every interleaving, each target a submission has left behind was given its payload on a session of its own, or could not be dialled |
| `SessionService.LeavesWhenServed` | pkg/internal/forwardrelay/submit.go:59-69 | A submission ends only when its list is done or by a cancelled context while it holds a session |
| `SessionService.NumbersConsecutive` | pkg/internal/forwardrelay/submit.go:29-30 | A submission can begin exactly if Stop is not at work and the submitter has none under way; the first is number 1 and each takes the next |
| `SessionProgress.HolderCanGiveUp` | pkg/internal/forwardrelay/submit.go:61-64 | A submitter that holds a session can give up, room or not, and leaves nothing behind |
| `SessionProgress.SendsOrFails` | pkg/internal/forwardrelay/stream.go:174-199 | A send can go through, and can fail, exactly while the loop runs and something waits; either takes the head, one onto the wire, the other ending the loop |
| `SessionProgress.LoopEnds` | pkg/internal/forwardrelay/stream.go:171-203 | A loop leaves without a failure exactly on a closed, empty channel, and every loop that has left can close its `doneCh` |
| `SessionService.LoopEndsForAReason` | pkg/internal/forwardrelay/stream.go:171-203 | A send loop that no longer runs had its channel closed, or a send failed on it |
| `SessionService.CloseIsAnnounced` | pkg/internal/forwardrelay/stream.go:241-249 | Every close first offers the close message, which goes in behind all payloads exactly if there is room |
| `StreamSessions.ClosedSessionEnds` | pkg/internal/forwardrelay/stream.go:234-252 | From every reachable state the steps of a closed session's send loop alone bring it to its end, so the wait in `close` can always be met |
| `StreamSessions.StopKeeps` | pkg/internal/forwardrelay/stream.go:254-265 | Stop takes the table and, one session after the other, checks, offers the close message, closes and awaits; each step keeps the structure and closes nothing twice |
| `StreamSessions.StopEndsAll` | pkg/internal/forwardrelay/stream.go:254-265 | When Stop returns, the table is empty and every session ever opened has ended |
| `SessionProgress.StopCanReturn` | pkg/internal/forwardrelay/stream.go:254-265 | However far a Stop has come, its own steps and those of send loops, none failing, can bring it to its return |
| `SessionProgress.StopBeginsIff` | pkg/internal/forwardrelay/stream.go:254-258 | It can begin exactly if none is at work and no submission is under way, and takes over the whole table |
| `SessionProgress.AnyNextEndedPassedOver` | pkg/internal/forwardrelay/stream.go:234-239 | It may turn to any session left and passes over one that has ended without touching it |
| `SessionConservation.PayloadsConserved` | pkg/internal/forwardrelay/stream.go:171-203 | In every interleaving, what was enqueued on a session is, in order, what it transmitted, at most one payload taken by its failed send, and what is in its channel |
| `SessionConservation.StopFlushesAll` | pkg/internal/forwardrelay/stream.go:171-265 | Without a failed send, when Stop returns every session has transmitted exactly what was enqueued on it, once each and in order |
| `StreamSessions.StepOrder` | pkg/internal/forwardrelay/stream.go:171-203 | Every step keeps channel contents and transmissions in sequence order |
| `StreamSessions.SequenceNumbersIncrease` | pkg/internal/forwardrelay/submit.go:29-66 | What one submitter transmits to one target has strictly increasing sequence numbers, across session replacement, while the counter has not wrapped and targets are distinct |
| `DuplicateTargets.RepeatedTargetRepeatsNumbers` | pkg/internal/forwardrelay/submit.go:37-66 | For every target list with a repetition there is a run that transmits the same number twice |
| `Resister.Up` | pkg/internal/resister/queue.go:15-26 | Sift-up from the only misplaced element gives a heap with the same objects |
| `Resister.Down` | pkg/internal/resister/queue.go:15-21 | Sift-down settles a position whose subtrees are heaps, with the same objects |
| `Resister.Fix` | pkg/internal/resister/queue.go:73-75 | `heap.Fix` restores the heap after one element changed either way |
| `Resister.Init` | pkg/internal/resister/queue.go:150-152 | `heap.Init` makes a heap out of any order, with the same objects |
| `Resister.RootIsMaximal` | pkg/internal/resister/queue.go:15-17 | The root's priority is at least every other one's |
| `Resister.HeapPop` | pkg/internal/resister/queue.go:28-34 | Removes the root and leaves a heap of the others |
| `Resister.Resister.IndexOf` | pkg/internal/resister/queue.go:36-43 | The first position holding the ID, or -1 when no element has it |
| `Resister.Resister.Len` | pkg/internal/resister/queue.go:46-51 | The number of IDs in the index |
| `Resister.Resister.QueuedIffIndexed` | pkg/internal/resister/queue.go:80-82 | An object is queued if and only if the index holds it under its ID |
| `Resister.Resister.DistinctIDs` | pkg/internal/resister/queue.go:65-83 | No two queued elements share an ID |
| `Resister.Resister.Push` | pkg/internal/resister/queue.go:54-103 | Sets exactly the entry of that ID, restores heap and index even when the pushed object was changed in place before, keeps size on a re-queue; nil is refused |
| `Resister.Resister.Refix` | pkg/internal/resister/queue.go:73-77 | An indexed ID is always found in the queue, so the fallback push is unreachable |
| `Resister.Resister.Pop` | pkg/internal/resister/queue.go:106-133 | Removes exactly one entry, of maximal priority; nil if and only if empty |
| `Resister.Resister.DecayPriorities` | pkg/internal/resister/queue.go:136-163 | Every entry decays once, none is lost or added, the heap is restored |
| `Resister.Element.DecayPriority` | pkg/internal/types/element.go:90-98 | Above five retries the priority drops by two, wrapping at 32 bits, and not below zero |
| `Resister.DecayedMeaning` | pkg/internal/types/element.go:90-98 | Number by number: unchanged up to five retries; beyond, two less and zero at the least, except that the two lowest priorities become the two highest |
| `Resister.DecayRaisesNothing` | pkg/internal/types/element.go:90-98 | Decay never raises a priority if and only if the entry is young or its priority is not negative |
| `Resister.Perform` | pkg/internal/resister/queue.go:54-163 | Each operation, also pushing a queued object after changing it in place, is the corresponding step of the map |
| `Resister.Replay` | pkg/internal/resister/queue.go:54-163 | Every sequence of operations is a run of the simple map from ID to entry, with the same results |
| `Resister.PopsInOrder` | pkg/internal/resister/queue.go:106-133 | Consecutive pops come out in order of priority, each element once |
| `LogSink.StepKeeps` | pkg/internal/internallogger/relay_sink.go:91-171 | Every atomic step keeps the counter, FIFO and lock invariant |
| `LogSink.PendingBounds` | pkg/internal/internallogger/relay_sink.go:104-116 | In every interleaving `pending` is between -1 and one above the capacity |
| `LogSink.PendingCanBeNegative` | pkg/internal/internallogger/relay_sink.go:114-115 | A run in which the consumer overtakes the writer reaches -1 |
| `LogSink.SyncFlushes` | pkg/internal/internallogger/relay_sink.go:119-136 | A Sync that saw `pending <= 0` covers, in order, every payload whose Write had released the lock |
| `LogSink.WritesConserved` | pkg/internal/internallogger/relay_sink.go:91-117 | Finished writes are accepted, dropped or ignored after close; nothing is sent on the closed queue |
| `LogSink.DropsOnlyWhenFull` | pkg/internal/internallogger/relay_sink.go:104-112 | In every run a line is dropped only with `dropOnFull` and with exactly `capacity` payloads queued |
| `LogSink.OfferDecided` | pkg/internal/internallogger/relay_sink.go:104-115 | A writer past the closed check: with room it can offer at once and its payload is the last accepted; at a full queue it is dropped with `dropOnFull` and waits without |
| `LogSink.NothingLostInUse` | pkg/internal/internallogger/relay_sink.go:91-117 | Without `dropOnFull` nothing is ever dropped, and before the first Close nothing is ignored |
| `LogSink.IgnoredOnceClosed` | pkg/internal/internallogger/relay_sink.go:100-102 | A write that comes to the check is ignored exactly if somebody has closed |
| `LogSink.ConsumerDrains` | pkg/internal/internallogger/relay_sink.go:153-171 | From every reachable state the consumer alone can empty the queue; then everything accepted has been through the relay, in order |
| `LogSink.SyncCanReturn` | pkg/internal/internallogger/relay_sink.go:119-136 | A Sync that polls long enough can return on an empty counter |
| `LogSink.FreeLockIsTaken` | pkg/internal/internallogger/relay_sink.go:98-99 | A free lock can be taken by any writer and any closer |
| `LogSink.LockComesFree` | pkg/internal/internallogger/relay_sink.go:98-117 | With a capacity above zero, whoever holds the lock can always come to give it back |
| `LogSink.CloseCanReturn` | pkg/internal/internallogger/relay_sink.go:138-151 | A Close that has begun can always come to return |
| `LogSink.LaterCloseIsIdle` | pkg/internal/internallogger/relay_sink.go:138-145 | The first Close starts the drain; any later one finds nothing to do and waits for nobody |
| `LogSink.CloseDrains` | pkg/internal/internallogger/relay_sink.go:138-158 | When the closing call returns the relay got exactly the accepted payloads, once each, in order |
| `CircuitBreaker.CircuitBreaker.Allow` | pkg/internal/circuitbreaker/state.go:11-36 | Grants when closed or when the window is over, then closes and signals |
| `CircuitBreaker.CircuitBreaker.RecordError` | pkg/internal/circuitbreaker/state.go:39-70 | Debounce, count and trip under one lock, also while open |
| `CircuitBreaker.CircuitBreaker.Reset` | pkg/internal/circuitbreaker/state.go:73-88 | Closes and signals only when open |
| `CircuitBreaker.CircuitBreaker.Trip` | pkg/internal/circuitbreaker/state.go:91-106 | Opens only when closed, so an open breaker's trip time never moves |
| `CircuitBreaker.CircuitBreaker.SignalReset` | pkg/internal/circuitbreaker/internal.go:26-31 | The one slot is full afterwards, without blocking |
| `CircuitBreaker.TripsAndResetsAlternate` | pkg/internal/circuitbreaker/state.go:11-106 | In every run trips and resets alternate, and while closed the count is 0 or below the threshold |
| `CircuitBreaker.WindowRespected` | pkg/internal/circuitbreaker/state.go:14-23 | A grant after a trip without a manual reset needs an Allow at least the window after the trip, whatever errors came meanwhile |
| `CircuitBreaker.AllowedIff` | pkg/internal/circuitbreaker/state.go:14-35 | Allow is granted if and only if the breaker is closed or the window since the latest trip is over, and leaves it closed exactly if it was granted |
| `CircuitBreaker.ResetCloses` | pkg/internal/circuitbreaker/state.go:73-88 | A Reset leaves the breaker closed, and if it was open with no error counted and a signal owed |
| `CircuitBreaker.TripOpens` | pkg/internal/circuitbreaker/state.go:91-106 | A Trip leaves it open, dated now exactly if it was closed |
| `CircuitBreaker.ErrorCountedIff` | pkg/internal/circuitbreaker/state.go:39-70 | An error counts unless it follows the last counted one within the debounce time, and trips if and only if it counts, the breaker is closed and the threshold is reached |
| `CircuitBreaker.SignalFillsSlot` | pkg/internal/circuitbreaker/internal.go:26-31 | A call that owes a signal fills the slot when it comes to send, and a receive empties it |
| `CircuitBreaker.ErrorsDebounced` | pkg/internal/circuitbreaker/state.go:40-50 | Counted errors i and j are at least (j-i) debounce periods apart, with clocks read in any order |
| `CircuitBreaker.NoEarlyTrip` | pkg/internal/circuitbreaker/state.go:49-58 | An automatic trip comes no sooner than (threshold-1) debounce periods after the first error since the last reset |
| `CircuitBreaker.ResetIsSignalled` | pkg/internal/circuitbreaker/internal.go:26-31 | Reset by reset: once its own call has signalled, whatever others still owe, the slot is full until somebody receives |
| `Introspection.Validator.HasAllScopes` | pkg/internal/receivingrelay/auth_introspection.go:70-85 | True if and only if every required scope is a word of the granted scope |
| `Introspection.Validator.Validate` | pkg/internal/receivingrelay/auth_introspection.go:92-182 | New cache, back-off and verdict for every reply |
| `Introspection.AcceptedIffGranted` | pkg/internal/receivingrelay/auth_introspection.go:92-182 | In every sequential run a token is accepted if and only if no wait is in force and the latest answer about it is younger than the cache time, active and grants the scopes |
| `Introspection.VerdictMeans` | pkg/internal/receivingrelay/auth_introspection.go:92-182 | Every verdict: a wait in force says so; else a fresh answer, one just obtained included, decides by activity and then scopes; else the verdict is the reason why this call obtained none |
| `Introspection.ScopesOfJoined` | pkg/internal/receivingrelay/auth_introspection.go:70-85 | Scopes granted as a list of words, however spaced, are exactly those words |
| `TextLaws.FieldsOfJoined` | pkg/internal/receivingrelay/auth_introspection.go:74-74 | Words joined by blanks (characters 32 and 9 to 13), with any blanks at the ends, split into those words again |
| `TextLaws.FieldsSplit` | pkg/internal/receivingrelay/auth_introspection.go:74-74 | Every string is its fields with blanks between and around them, and every field is a non-empty word without blanks |
| `TextLaws.LowerMeaning` | pkg/internal/quicrelay/receivingrelay_auth.go:75-75 | Lower-casing moves each ASCII capital by 32 and nothing else |
| `TextLaws.TrimMeaning` | pkg/internal/receivingrelay/payload.go:50-50 | Trimming takes blanks off both ends, and all of them |
| `Introspection.CacheSparesServer` | pkg/internal/receivingrelay/auth_introspection.go:99-107 | In every run no exchange about a token starts while a usable answer about it is fresh |
| `Introspection.WaitDoubles` | pkg/internal/receivingrelay/auth_introspection.go:143-148 | The doubling with its cap yields min(250*2^k, 5000) |
| `Introspection.BackoffRespected` | pkg/internal/receivingrelay/auth_introspection.go:93-97 | After k throttled answers in a row the wait is min(250*2^k, 5000) ms from the last, and no exchange of the run starts inside a wait |
| `ByteStreams.FixedWidthRoundTrip` | pkg/internal/quicrelay/framing.go:39-50 | Both byte orders of a 32-bit field read back |
| `WireLayout.BigEndianOrders` | pkg/internal/quicrelay/framing.go:40-40 | Big-endian bytes order numbers like words in a dictionary, which fixes the byte order |
| `WireLayout.LittleEndianReverses` | pkg/internal/codec/wave.go:14-73 | Little-endian bytes are those from the other end |
| `Framing.WriteFrame` | pkg/internal/quicrelay/framing.go:35-45 | Appends length and payload, or refuses an empty payload and writes nothing |
| `Framing.ReadFrameFrom` | pkg/internal/quicrelay/framing.go:47-65 | Same result as `ReadFrame`; a frame leaves what follows it, a zero or over-limit length leaves everything behind the header unread, a read error leaves nothing |
| `Framing.ReadsBack` | pkg/internal/quicrelay/framing.go:35-65 | A whole frame reads back, leaving what follows, if and only if it is non-empty, below 2^32 bytes and within the limit |
| `Framing.CutFrameFails` | pkg/internal/quicrelay/framing.go:47-65 | Every strict prefix of a frame fails, cleanly only before or right after the header |
| `Framing.OverLimitRefused` | pkg/internal/quicrelay/framing.go:56-58 | An over-limit length is refused whatever follows it; with `ReadFrameFrom`, before any of the body is read |
| `Framing.PrefixReads` | pkg/internal/quicrelay/framing.go:35-65 | Any prefix of a stream of frames reads as exactly the frames wholly inside it, in order, then an error |
| `WaveCodec.Encode` | pkg/internal/codec/wave.go:14-73 | Appends exactly the encoding of the wave |
| `WaveCodec.Decode` | pkg/internal/codec/wave.go:75-148 | Same value, error or panic as `DecodeWave`, and the same unread bytes |
| `WireLayout.Layout` | pkg/internal/codec/wave.go:14-73 | An encoded wave byte by byte: six fields at fixed offsets, then samples, text and peaks, each behind its length, and nothing else |
| `WaveCodec.RoundTrip` | pkg/internal/codec/wave.go:14-148 | An encoding decodes to the wave with its ID narrowed to 32 bits and leaves what follows |
| `WaveCodec.RoundTripsIffInRange` | pkg/internal/codec/wave.go:14-148 | A wave comes back as itself if and only if its ID and its lengths are in `int32` range |
| `WaveCodec.ListRoundTrip` | pkg/internal/codec/wave.go:14-148 | Any list of encodings decodes to that list and uses every byte |
| `WaveCodec.DecodeExtends` | pkg/internal/codec/wave.go:75-148 | More input never changes a decoding that did not run out of bytes |
| `WaveCodec.StrictPrefixFails` | pkg/internal/codec/wave.go:75-148 | Any strict prefix of an encoding is an error, neither a panic nor another wave |
| `WaveCodec.PanicsIffNegativeLength` | pkg/internal/codec/wave.go:104-137 | Decoding panics if and only if one of the three length fields, at the offset the earlier ones give it, is there and negative |
| `WaveCodec.MinusOnePanics` | pkg/internal/codec/wave.go:104-109 | Any 44 bytes followed by the length -1 make the decoder panic |
| `Haar.Transform` | pkg/builder/utils.go:45-53 | Computes the scaled pair sums and differences; fails exactly on odd lengths |
| `Haar.InverseTransform` | pkg/builder/utils.go:55-63 | Computes `Inverse` for every length, the last element of an odd one staying zero |
| `Haar.InverseUndoesTransform` | pkg/builder/utils.go:45-63 | On every even length the inverse undoes the transform |
| `Haar.TransformUndoesInverse` | pkg/builder/utils.go:45-63 | And the transform undoes the inverse |
| `Haar.InverseKeepsEnergy` | pkg/builder/utils.go:55-63 | The inverse preserves the sum of squares |
| `Haar.TransformKeepsEnergy` | pkg/builder/utils.go:45-53 | So does the transform |
| `Haar.PeakAt` | pkg/builder/utils.go:74-74 | The larger magnitude of maximum and minimum is the largest magnitude of all, and attained |
| `Haar.ApplyThreshold` | pkg/builder/utils.go:75-79 | Zeroes in place exactly the coefficients below the threshold |
| `Haar.ProcessWave` | pkg/builder/utils.go:65-102 | Succeeds if and only if the wave is non-empty and of even length; returns thresholded coefficients and their inverse as a real wave |
| `Haar.TransformedAt` | pkg/builder/utils.go:48-51 | Coefficient j is the scaled sum of pair j, and coefficient n/2+j its scaled difference |
| `Haar.CoefficientKept` | pkg/builder/utils.go:74-79 | A coefficient smaller than 0.005 of the largest magnitude becomes zero, and every other one stays as it is |
| `Haar.RemovedIsBelow` | pkg/builder/utils.go:75-79 | Thresholding removes exactly the energy of the coefficients below the threshold |
| `Haar.ErrorIsEnergyBelow` | pkg/builder/utils.go:71-93 | The squared reconstruction error is exactly that energy |
| `Haar.ErrorIsDroppedEnergy` | pkg/builder/utils.go:71-93 | For any threshold the squared reconstruction error is exactly the energy that thresholding removed |
| `Haar.RemovedBound` | pkg/builder/utils.go:75-79 | Thresholding removes at most threshold squared of energy for each dropped coefficient |
| `Haar.ThresholdError` | pkg/builder/utils.go:74-93 | For any threshold that some coefficient reaches, the squared reconstruction error is at most threshold squared times the number of dropped coefficients |
| `Haar.ReconstructionError` | pkg/builder/utils.go:74-93 | The pipeline's squared error is at most threshold squared times the number of dropped coefficients, which is at most n-1 |
| `Haar.RelativeError` | pkg/builder/utils.go:74-93 | The squared error is at most (n-1)/40000 of the signal's energy |

## Left out

- Network, TLS, dialling, listeners, HTTP requests and bind retries: only received envelopes, emitted acknowledgements, frames and server replies appear, as inputs and outputs.
- gob, JSON, protobuf, compression, AES-GCM, hexadecimal and base64 libraries: parameters; the ones that must undo each other are assumed to (`PayloadCodec.Lawful`).
- Protobuf targets: the end-to-end law is for receivers whose type is not a protobuf message, since the sender always writes gob.
- Unicode: lower-casing, trimming and splitting are modelled for ASCII characters only.
- Go's map iteration order: header maps are sequences; the first mismatch found depends on that order, whether there is one does not.
- Stop overlapping a Submit: the code does not order the two, so such runs are not in `StreamSessions`.
- Empty log lines, which `Write` passes over before it takes the lock.
- The forward relay's acknowledgement loop only logs; the QUIC forward relay's own submit path is not modelled.
- Contexts: Stop cancels the relay's context before it closes the streams, so sends of sessions opened under that context fail then. Which sends fail is open in `StreamSessions`; `SessionConservation.StopFlushesAll` speaks of runs in which none does.
- Retryable flags, version fields, timestamps' meaning, trace fallbacks, loggers, sensors and meters.
- The log sink's Sync deadline: a Sync that gives up promises nothing. A second Close returns at once and promises nothing.
- Concurrent introspection calls: the Go code reads the back-off deadline outside its lock, so runs are sequential.
- Changing an element's ID after it was created: IDs are constant in the model, as the code assumes.
- The width of the breaker's error counter and of times: unbounded integers.
- Policy changes of a running breaker: threshold, window and debounce are fixed for a run.
- Floating point: wave floats are opaque 8-byte patterns, Haar values are reals with an exact square root of two; the packing of coefficients by gob and zlib is the identity.
- Conduits, wires, generators, surge protectors, adapters, JWT checks, builders and configuration parsers: short set tests, plumbing, or behaviour that lives in foreign code.
- RelayHops.EndToEnd: a chain in which each relay forwards over one session that transmits everything it was given and ends by Close. `SessionConservation` says when a session does that and what it loses otherwise; `RelayNetwork.NetworkDelivers` drops the assumption.
- Resister.HeapPop: works on a sequence that the caller stores back, as Go's `container/heap` does through the slice header; aliasing of the slice's backing array is not modelled.
- StreamSessions.ClosedSessionEnds: that a closed session does end takes a fair scheduler; the lemma shows that its loop is never stuck.
