# EduKod Local Companion: a verified model

The companion keeps one outbound WebSocket connection to a school's gateway and relays requests from it to a model API
on the loopback interface. This project models the parts of it in which several things happen at once, byte streams are
parsed by hand, or a failure in the middle matters, and proves what they guarantee. `dafny verify dfyconfig.toml`
checks all of it with Dafny 4.11.

**The relay session** (`internal/relay/relay.go`). `RelaySteps` gives the reader, the workers, the heartbeat and the
main goroutine a program counter each; one step is one lock section, one channel operation, one connection call, or the
start or the return of a `Forward` call, and a schedule is any sequence of steps. `RelayInvariants` (life cycle and
conservation), `RelayJobs`, `RelayTable` and `RelayCancel` build the invariant that every step keeps; `RelayShutdown`
shows that a closed session ends; `RelayTheorems`, `RelayCalls`, `RelayAnswers`, `RelayReading`, `RelayRefusals`,
`RelayOutcome`, `RelayContexts`, `RelayBounds` and `RelayGreeting` state what follows for every run; `RelayOvertaking`
and `RelayWitness` have, on top of `RelayRuns`, the runs that refute what does not. `RelaySession` is the session as an
object whose methods update its fields in place. `RelayWire` puts the session on its connection, with the writes taken
apart into the steps of `Wire`.

**The WebSocket connection** (`internal/wsclient/wsclient.go`). `Frames` has RFC 6455 frames as bytes, in both
directions, and `FrameExamples` the examples of the standard; `Messages` the meaning of one `ReadMessage` and one
`writeFrame`; `FrameWrites` what a write puts on the wire; `Conversations` the statements about whole streams and
`ReadFailures` those about reads that fail; `Connection` the connection object with its loops and its int64 arithmetic;
`Wire` any number of concurrent writers under `writeMu`, with writes that go out in pieces and may break off.
`Sequences` has the facts about concatenation that they share.

**The gate and the executor** (`internal/protocol/protocol.go`, `internal/localapi/client.go`, `execute`). `Protocol`,
`LocalApi` and `Execution`: which requests are accepted, what is sent to the model API, and which error code is reported.

**The pairing store** (`internal/config/store.go`). `Storage` says what `Save`, `Load` and `Delete` do to the file
system and the keyring when every single operation may succeed, be refused, or fail after taking effect. Files have
contents, a mode, and a flag for whether they have been synced; stopping in the middle is every later operation being
refused, and a crash takes unsynced contents and may undo any renames and removals, since the directory is never
synced. `StorageProofs` has crash consistency, `StorageFailures` what a failed `Save` leaves, `StorageOutcomes` exactly
how each operation ends, `StorageHistory` what sequences of operations keep; `PairingStore` is the store as an object
that carries the operations out one by one.

**The reconnect loop** (`internal/app/app.go`). `Reconnect` has the loop, each of whose connections is a session of the
above, and the jitter; `ReconnectProofs` the closed form of the backoff and the absence of replay across sessions;
`ReconnectEnds` when the loop ends, what it tells the status file, and the spread of its waits.

The scheduler, the gateway, the model API, the file system, the keyring, the clock and the random source are inputs:
every statement holds for all that they can do.

## Where code and documentation differ

The model follows the code.

- The repository's README promises one `response` per accepted request and identifiers that are unique while active. For
  the first there is one attempt to write a response (`RelayTheorems.AcceptedIsAnswered`), which may fail with the
  connection; if it succeeds, one response reaches the wire (`RelayWire.GatewaySeesResponses`). A request that was read
  and not yet queued can be left without any attempt when the session stops (`RelayWitness.SomeRequestIsLeftBehind`). The
  second holds until the worker deletes the registration, which it does before it writes
  (`RelayTheorems.IdIsHeldExactlyUntilDelete`).
- Requests are queued in order, but with more than one worker they need not be passed on in order
  (`RelayOvertaking.OrderKeptExactlyWhen`).
- Cancellation does not keep a queued request from being passed to `Forward`: after `Serve` has returned, exactly the
  accepted requests have been, cancelled or not (`RelayCalls.ForwardedOnce`, with an example in
  `RelayWitness.SomeCancelledRequestIsForwarded`).
- A `Save` that fails can lose the pairing it was to replace, at its last step or already at its first
  (`StorageFailures.LateFailureLosesThePair`, `StorageFailures.EarlyFailureLosesThePair`); when exactly it does is
  `StorageFailures.FailedSaveKeepsPairExactlyWhen`.
- A `Save` that succeeded can be lost in a crash (`StorageProofs.SavedCanBeLost`), and a deleted pairing can come back,
  fields and all, under the token of a later one (`StorageHistory.DeletedPairingCanBeMixed`): files are synced, their
  directory is not.
- The backoff does not grow with every failure (`ReconnectProofs.LimitReachedExactlyWhen`).

## Model

| member | source | states |
|---|---|---|
| `RelayTheorems.RequestsAreConserved` | internal/relay/relay.go:110-234 | In every reachable state every decoded request is in exactly one of: the reader's hand, the queue, one worker, one response write, left behind. At most one is left behind, and only when the session is stopping and the reader is returning. |
| `RelayTheorems.EveryRequestIsAnsweredOnce` | internal/relay/relay.go:110-257 | When `Serve` has returned, each request it decoded has had exactly one write attempt if it was not the one left behind, and none if it was. Every response that was ever written carries its own request's identifier, or `invalid` if that was malformed. |
| `RelayTheorems.AcceptedIsAnswered` | internal/relay/relay.go:194-200 | A request that entered the queue is never the one left behind: it is queued, with one worker, or has had its one response write. |
| `RelayAnswers.RefusedExactlyWhenNotAccepted` | internal/relay/relay.go:178-209 | In every run, a written response carries `bad_request`, `duplicate_request` or `busy` if and only if its request never entered the queue, and then it was never passed to `Forward`. |
| `RelayAnswers.ResponseIsOfItsRequest` | internal/relay/relay.go:114-119 | In every run, the response written for an accepted request is what `execute` makes of that very request and of the result of the one `Forward` call made for it, also when identifiers are reused. |
| `RelayRefusals.RefusalSaysWhy` | internal/relay/relay.go:178-209 | In every run a written response has the code `bad_request` if and only if its request was not acceptable at the time it was read, and then the text that names the fault; `duplicate_request` if and only if an earlier request with the same identifier was found registered at the check; `busy` if and only if it was registered and never queued. Each of the three comes with its own text, under the identifier of its request. |
| `RelayReading.MessagesAreTakenInOrder` | internal/relay/relay.go:157-231 | In every run the requests decoded are those of the messages heard, in order; every ping heard has had one attempt at a pong with its identifier, in order, the last perhaps still to come; nothing is heard after a message at fault, and the reader fails with what is wrong with the last message. |
| `RelayReading.MeaningExactly` | internal/relay/relay.go:157-231 | A message is a request, a cancel message or a ping exactly when it is within MaxRequestBytes + 4096 bytes and of that kind and shape, and at fault in one of seven ways otherwise; the reader goes on accordingly, with the identifier of the message. |
| `RelayReading.StoppedReadsNoMore` | internal/relay/relay.go:150-157 | Once the session is stopping, at most the `ReadMessage` call under way returns; no other is made. |
| `RelayOutcome.ResultSaysWhy` | internal/relay/relay.go:236-256 | `Serve` returns the interruption only if there was one, a write failure only if a write or a ping failed, the stop only if there was either, and any other error only if it is what was wrong with the last message; if nothing was interrupted and nothing failed to be written, it returns that. A hello that could not be written is returned as a write failure. |
| `RelayOutcome.FailedWritesStop` | internal/relay/relay.go:98-145 | A `WriteJSON` or `WritePing` that fails is reported to the main goroutine, if that is still listening, and stops the session, or some goroutine is about to do so; before the main goroutine has chosen its result, nothing else does. |
| `RelayContexts.ShutdownCancelsAll` | internal/relay/relay.go:247-251 | From the time at which `jobs` is closed, every request that is still registered has been cancelled. |
| `RelayContexts.ContextsAreReleased` | internal/relay/relay.go:194-207 | When `Serve` has returned, the cancel function of every request that was ever registered has been called; the accepted ones and the one left behind are among them. |
| `RelayWire.GatewaySeesResponses` | internal/relay/relay.go:98-123 | The session on its connection, with each write taken apart into waiting for the lock, pieces of a frame and a result, and control frames in between: when no write is under way and none has broken off inside a frame, the text frames the gateway decodes are the encodings of exactly the messages whose frames went out; at most one of them is labelled with a given request, and one is for each write that succeeded. The message so labelled is a response under that request's identifier: what `execute` makes of that request and of its one `Forward` result if it was accepted, a refusal if not. |
| `RelayWire.StepKeepsLink` | internal/relay/relay.go:98-123 | Every step of the session on its connection keeps both invariants, the agreement of calls with frames, the balance of frames with writes, what the messages say, and that every frame out belongs to a call that has ended or is about to. |
| `RelayTheorems.DequeuedInOrder` | internal/relay/relay.go:114 | The requests that workers have received from the queue and those still in it together are the accepted ones in order; arrival numbers strictly increase, so none is received twice. After `Serve` has returned all accepted requests have been received, also those cancelled in the queue. |
| `RelayCalls.ForwardedOnce` | internal/relay/relay.go:114-115 | `Forward` is called at most once for a request, and only for one received from the queue; after `Serve` has returned it has been called for exactly the accepted requests, each once. |
| `RelayOvertaking.OrderKeptExactlyWhen` | internal/relay/relay.go:110-115 | Under every schedule `Forward` is called in order of arrival, if and only if Concurrency is 1. |
| `RelayOvertaking.Overtaking` | internal/relay/relay.go:110-115 | With two workers or more, a run in which the second request is passed to `Forward` before the first. |
| `RelayTheorems.OnlyDispatchableIsForwarded` | internal/relay/relay.go:178-199 | Whatever a worker forwards is a decoded request with an allowlisted method and path, a valid identifier, a body within the limit, and as its deadline the requested one, at most five minutes after its start, or if there was none the start plus the default timeout. |
| `RelayTheorems.ChannelsAreSafe` | internal/relay/relay.go:147-257 | `jobs` is closed only after its one sender has returned; the reader's send on `readErrors` never blocks; at the offer, the `busy` branch is possible if and only if exactly QueueSize requests are queued and the session is not stopping; the offer never blocks. |
| `RelayTheorems.SessionsEnd` | internal/relay/relay.go:245-256 | After the connection is closed, every continuation by steps of a closed connection is finite, with a bound read off the state, and one that cannot go on has returned from `Serve` with an error, an empty queue and every goroutine finished. |
| `RelayTheorems.TableIsExact` | internal/relay/relay.go:114-121 | The table maps an identifier to a cancel function if and only if that request is registered under it (with the reader, queued, with a worker before its delete, or left behind); registered identifiers are pairwise different; after `Serve` only a request left behind is in the table. |
| `RelayTheorems.DuplicateExactlyWhen` | internal/relay/relay.go:183-189 | A request passes the duplicate check if and only if no registered request has its identifier; otherwise the one recorded as its rival has it and is registered. |
| `RelayTheorems.IdIsHeldExactlyUntilDelete` | internal/relay/relay.go:114-120 | The identifier of a request that a worker has not answered is in the table, for that request, if and only if the worker is not yet at the write: it becomes free before the response is written. |
| `RelayTheorems.CancelHitsItsTarget` | internal/relay/relay.go:210-221 | Whatever the other goroutines do between lookup and call, a cancel message calls the cancel function of the request registered under its identifier at the lookup, or none if there was none; nothing else changes, and the target is not a later request that reuses the identifier. |
| `RelayTheorems.OnlyTargetsAreCancelled` | internal/relay/relay.go:210-221 | Until the shutdown calls every cancel function, that of a queued or unanswered request has been called only if a cancel message was aimed at it. |
| `RelayGreeting.HelloComesFirst` | internal/relay/relay.go:82-90 | Nothing is written before the hello, which announces the identity and limits of this very session; there is no second hello, and if it fails nothing else is ever written. |
| `RelayBounds.ResourcesAreBounded` | internal/relay/relay.go:92-123 | In every reachable state after the hello exactly Concurrency workers, at most QueueSize queued requests, at most Concurrency + QueueSize + 1 table entries and at most one error in each error channel. |
| `RelayCancel.StepKeepsInv` | internal/relay/relay.go:98-256 | Every step of every goroutine keeps the whole invariant: life cycle, conservation, job validity, exact table, order, and cancellation only of targets. |
| `RelayCancel.RunKeepsInv` | internal/relay/relay.go:98-256 | Every schedule keeps the whole invariant, from any state that has it. |
| `RelayInvariants.KeepsLifeCycle` | internal/relay/relay.go:98-256 | Every step keeps the order of the shutdown: which goroutines may still run in which phase, one report of the reader at most, capacities. |
| `RelayInvariants.KeepsConserved` | internal/relay/relay.go:110-234 | Every step keeps each decoded request in exactly one place. |
| `RelayTable.WorkerDeletesEntry` | internal/relay/relay.go:116-118 | A worker's delete removes its own registration and no other. |
| `RelayTable.KeepsFree` | internal/relay/relay.go:183-197 | An identifier that the reader found free is still free when it inserts, although the two lock sections are apart. |
| `RelayTable.KeepsAgrees` | internal/relay/relay.go:114-208 | Every step keeps the table equal to the registrations. |
| `RelayShutdown.StepUsesUpWork` | internal/relay/relay.go:245-256 | Each step after the connection is closed strictly decreases the work left. |
| `RelayShutdown.NeverStuck` | internal/relay/relay.go:245-256 | A closing session that has not returned always has a step that comes of itself. |
| `RelayShutdown.ShutdownBegins` | internal/relay/relay.go:236-244 | When the reader has returned or the session is stopped, the select of the main goroutine can proceed. |
| `RelayShutdown.ShutdownTerminates` | internal/relay/relay.go:245-256 | Every run of a closed session is bounded by the work left, and ends only where `Serve` has returned. |
| `RelayShutdown.FinishedIsClean` | internal/relay/relay.go:245-256 | A session that has returned has an error to report, an empty queue and no goroutine running. |
| `RelayWitness.SomeRequestIsLeftBehind` | internal/relay/relay.go:200-202 | A run in which a decoded request gets no response: refutes that every request read is answered. |
| `RelayWitness.SomeCancelledRequestIsForwarded` | internal/relay/relay.go:259-260 | A run in which a request cancelled in the queue reaches `Forward`. |
| `RelayWitness.SomeIdentifierIsReusedEarly` | internal/relay/relay.go:116-119 | A run in which a second request is registered under an identifier whose response has not been written. |
| `RelaySession.Options.Defaults` | internal/relay/relay.go:53-72 | Positive settings are kept, others get their defaults, and the result is usable by a session. |
| `RelaySession.Session.constructor` | internal/relay/relay.go:92-96 | A session starts valid, in the initial state. |
| `RelaySession.Session.Greet` | internal/relay/relay.go:82-149 | Writes the hello; without it nothing starts, with it all goroutines do. |
| `RelaySession.Session.MainStep` | internal/relay/relay.go:236-256 | Goes one step down the shutdown and touches nothing of the other goroutines; cancelling all reaches every entry of the table, and the queue is closed only when its one sender has returned. |
| `RelaySession.Session.ReaderStep` | internal/relay/relay.go:149-234 | Changes the table only by registering an identifier that is free and by taking out the reader's own entry, reports only into an empty channel, queues only what fits into an open queue, and never touches a worker; what it answers is fixed by the step system, whose refusals `RelayRefusals.RefusalSaysWhy` pins down. |
| `RelaySession.Session.WorkerStep` | internal/relay/relay.go:110-123 | Takes the oldest job, deletes only the entry of its own job, writes exactly its own response, and never touches the reader or another worker. |
| `RelaySession.Session.HeartStep` | internal/relay/relay.go:125-145 | Pings, reports and stops; the heartbeat ends only in a session that is stopping. |
| `RelaySession.Session.Step` | internal/relay/relay.go:74-257 | One step of any goroutine, from a valid object to a valid object, is the step of the step system. |
| `RelaySession.Session.Serve` | internal/relay/relay.go:74-257 | Under any schedule the object stays valid and ends in the state that the step system reaches; once `Serve` has returned nothing is left running or queued. |
| `Execution.PredispatchExactlyWhen` | internal/relay/relay.go:259-278 | A response has the predispatch code, and its text, if and only if the request was valid when forwarded, the call failed other than by cancellation, and the write phase stayed 0. |
| `Execution.ExecuteJob` | internal/relay/relay.go:259-291 | The code and message start from the least specific and are replaced, ending with the response specified, whose codes the lemmas below pin down. |
| `Execution.CanceledExactlyWhen` | internal/relay/relay.go:259-278 | A response has the code `canceled`, and its text, if and only if the request was valid when forwarded, and the exchange or the reading of the answer failed with a cancellation, however much had been written and whatever else the error says. |
| `Execution.TimeoutExactlyWhen` | internal/relay/relay.go:259-278 | A response has the code `timeout`, and its text, if and only if the request was valid when forwarded and the exchange or the reading of the answer broke off after the dispatch by a deadline or a network timeout, not by cancellation. |
| `Execution.InvalidResponseExactlyWhen` | internal/relay/relay.go:259-278 | A response has the code `local_invalid_response` if and only if the model answered with an empty, invalid or oversized body; or the exchange broke off after the dispatch, neither cancelled nor timed out, with a text that contains `non-JSON` or `exceeds`; or the body of the request exceeded eight megabytes. Its message is the text of that error. |
| `Execution.UnavailableExactlyWhen` | internal/relay/relay.go:259-278 | A response has the code `local_unavailable`, and its text, in all other cases of failure: the request was refused, or the exchange broke off after the dispatch with any other error. |
| `Execution.RefusalTexts` | internal/protocol/protocol.go:85-140 | Of the texts with which a request is refused, only that of an oversized body contains `non-JSON` or `exceeds`. |
| `Execution.StartsExactlyWhen` | internal/relay/relay.go:279-281 | A content type counts as JSON if and only if its lower-case form begins with `application/json`. |
| `Execution.LoweredExactly` | internal/relay/relay.go:279 | Lowering leaves no upper-case letter, and changes nothing else. |
| `Execution.SuccessExactlyWhen` | internal/relay/relay.go:259-291 | A response has no error code if and only if the request was valid and the model answered with a valid, non-empty body within the limit; then body and status are the model's, and the content type is JSON, the model's own if that is. |
| `Execution.ExpiredInQueueIsUnavailable` | internal/localapi/client.go:151-153 | A request whose deadline passed in the queue is reported as `local_unavailable`, not as undispatched. |
| `Protocol.AcceptedExactlyWhen` | internal/protocol/protocol.go:85-140 | `ValidateRequest` accepts exactly the requests that have the right type, a valid identifier, a body within the limit that fits the endpoint, an allowlisted method and path, and no deadline or one within five minutes. |
| `Protocol.RefusalNamesTheFault` | internal/protocol/protocol.go:85-140 | An acceptable request that is spoiled in its type, identifier, method, path or deadline alone is refused with the text for that. |
| `Protocol.RefusalNamesTheBody` | internal/protocol/protocol.go:92-131 | An acceptable request whose body is exchanged is refused with the text for what is wrong with the new body, or accepted if nothing is. |
| `Protocol.IdMatchesExactlyWhen` | internal/protocol/protocol.go:89 | An identifier is valid if and only if it is one alphanumeric character followed by at most 127 alphanumerics, dots, underscores, colons and hyphens. |
| `Protocol.TrimExactly` | internal/protocol/protocol.go:98 | White space on both sides is taken off, and nothing else. |
| `Protocol.UpperExactly` | internal/protocol/protocol.go:98 | No lower-case letter is left, and nothing else has changed. |
| `Protocol.TrimKeepsSpaceless` | internal/protocol/protocol.go:98 | Trimming changes nothing when the upper-cased method has no white space. |
| `LocalApi.Forward` | internal/localapi/client.go:150-201 | The call returns and sends what its specification says, path, method and body; the write phase kept by the callback is 0 exactly when no callback came. |
| `LocalApi.OnlyAllowlistedIsSent` | internal/localapi/client.go:150-163 | Only an allowlisted method and path, with a body that fits, reach the local model, although the method is checked trimmed and sent untrimmed. |
| `LocalApi.SentExactlyWhen` | internal/localapi/client.go:150-163 | Something is sent if and only if the request is acceptable and its upper-cased method is a token; it goes to the path asked for, with the one method that path allows, and with the body of the request unless that is empty. |
| `LocalApi.ForwardEndsExactly` | internal/localapi/client.go:174-201 | Of a request that was sent: the reply is the answer as it came, with the JSON content type if it named none, if and only if the answer is valid, not empty and within the limit; the error is a transport error if and only if the exchange or the reading broke off, and says whether anything was written or answered; any other error is a plain text, neither a cancellation nor a timeout. |
| `LocalApi.DialLoopback` | internal/localapi/client.go:132-147 | Addresses are tried in order; no non-loopback address is ever connected to; a refusal names the first one met, and every address tried before the end had failed. |
| `Frames.LengthFieldReadsBack` | internal/wsclient/wsclient.go:223-241 | For each length form and mask bit, the written length field reads back as the same form, length and bit. |
| `Frames.LengthReadsForth` | internal/wsclient/wsclient.go:223-241 | A length that was read is written back as the same bytes. |
| `Frames.ParseOfEncode` | internal/wsclient/wsclient.go:210-253 | Every legal spelling of a frame parses to that frame, whatever follows, taking exactly its bytes. |
| `Frames.EncodeOfParse` | internal/wsclient/wsclient.go:210-253 | A parsed frame is legal, and its spelling is exactly the bytes taken. |
| `Frames.AcceptedExactlyWhenLegal` | internal/wsclient/wsclient.go:210-253 | `readFrame` accepts a stream if and only if it starts with a legal frame (unmasked, no extension bits, control frames final and short, within the limit). |
| `Frames.ParseIsLocal` | internal/wsclient/wsclient.go:210-253 | A parsed frame does not depend on later bytes. |
| `Frames.EncodeAllIsInjective` | internal/wsclient/wsclient.go:210-253 | A byte string is the wire form of at most one sequence of spelled frames. |
| `Frames.MaskingIsInvolutive` | internal/wsclient/wsclient.go:294-297 | Masking with the index modulo four is its own inverse. |
| `Frames.ShortestIsMinimal` | internal/wsclient/wsclient.go:281-292 | The form chosen for a length is the only one of minimal size; the boundaries are 125/126 and 65535/65536. |
| `Frames.OpcodeFitsExactlyWhen` | internal/wsclient/wsclient.go:280 | The first byte carries the opcode intact if and only if the opcode is below 16. |
| `Frames.DecodeOfEncodeMasked` | internal/wsclient/wsclient.go:267-301 | A receiver by section 5.2 of RFC 6455 recovers final flag, opcode and payload from a written frame, for every mask and whatever follows, if and only if the opcode is below 16. |
| `FrameExamples.SmallExamples` | internal/wsclient/wsclient.go:267-301 | The examples of section 5.7 of RFC 6455, byte for byte: a text frame unmasked and masked, a fragmented text, a ping and its masked pong. |
| `FrameExamples.LargeExamples` | internal/wsclient/wsclient.go:223-241 | The examples of section 5.7 of RFC 6455 with 256 and 65536 bytes: two and eight bytes of length, most significant first. |
| `FrameWrites.WriteExactly` | internal/wsclient/wsclient.go:267-305 | For every opcode below 16: a write reports success if and only if the control and size limits hold and randomness, deadlines and socket are granted, and which error it reports otherwise. What it adds to the wire is one frame, the whole of it or as much as got through, that a receiver by section 5.2 of RFC 6455 decodes to that opcode and payload with nothing left over, under the mask drawn, in the shortest form; a write refused for size, randomness or deadline adds nothing. |
| `Bytes.ValueOfBigEndian` | internal/wsclient/wsclient.go:289-290 | A number that fits a width is recovered from its big-endian bytes. |
| `Bytes.BigEndianOfValue` | internal/wsclient/wsclient.go:226-240 | Bytes are recovered from the number they spell, which is below the capacity of their width. |
| `Messages.ReadExplained` | internal/wsclient/wsclient.go:159-208 | From any point of the loop, a stream that starts with frames completing the text is read as that text, leaving exactly the rest and one pong per ping. |
| `Messages.ReadIsExplained` | internal/wsclient/wsclient.go:159-208 | Whatever the loop delivers, from any point, is completed by the legal frames the stream begins with. |
| `Conversations.ReadMessageExactly` | internal/wsclient/wsclient.go:159-208 | `ReadMessage` returns a text if and only if the stream starts with legal frames that are one text message with that payload; it leaves exactly the bytes after them and writes one pong per ping, same payload, same order. |
| `Conversations.ExplanationIsUnique` | internal/wsclient/wsclient.go:159-253 | The frames behind a delivered text are unique, down to the length form of each. |
| `Conversations.ReadIsLocal` | internal/wsclient/wsclient.go:159-208 | A delivered text does not depend on the bytes after its frames. |
| `Conversations.TruncationIsDetected` | internal/wsclient/wsclient.go:159-253 | Every strict prefix of the bytes of a delivered text gives an error, never a shorter message. |
| `Conversations.LateTestNeverFires` | internal/wsclient/wsclient.go:179-182 | The test for a non-text opcode at the end of a continued message can never succeed. |
| `Conversations.ConversationReadsBack` | internal/wsclient/wsclient.go:159-253 | Any list of text messages within the limit, in any fragments, with any pings and pongs interleaved and any length forms, is read back in order by as many calls, using exactly its bytes and answering every ping. |
| `ReadFailures.ReadErrorExactlyWhen` | internal/wsclient/wsclient.go:159-253 | `ReadMessage` fails with an error if and only if the stream starts with legal frames that leave a message unfinished, and what follows is a frame that is rejected or cut short with that error, or a legal one that is out of place in the way the error says: a stray continuation, a new text too early, a total over the limit, a binary frame, a close frame, an unknown opcode, or a ping that cannot be answered. |
| `ReadFailures.RejectedExactlyWhen` | internal/wsclient/wsclient.go:210-253 | Each error of `readFrame` is given if and only if the header has that fault and none that is tested before, or the stream ends inside the frame. |
| `ReadFailures.CutFrameIsEndOfStream` | internal/wsclient/wsclient.go:210-253 | Every strict prefix of a legal frame gives the end of the stream, and no other error. |
| `Connection.SumFitsExactlyWhen` | internal/wsclient/wsclient.go:175 | The sum of two accepted lengths fits an int64 for all accepted lengths if and only if the limit is below 2^62. |
| `Connection.AfterFrameByParts` | internal/wsclient/wsclient.go:210-253 | Reading a frame is reading its header, its length field and its payload one after the other. |
| `Connection.Conn.ReadFull` | internal/wsclient/wsclient.go:211-214 | All the bytes asked for, or an error after all there were. |
| `Connection.Conn.ReadFrame` | internal/wsclient/wsclient.go:210-253 | Returns and leaves of the stream what the frame parser says, with int64 arithmetic that never overflows. |
| `Connection.Conn.ReadBody` | internal/wsclient/wsclient.go:223-252 | From the length field on, returns and leaves of the stream what the frame parser says; the int64 length is the big-endian value, or the frame is rejected. |
| `Connection.Conn.ReadMessage` | internal/wsclient/wsclient.go:159-208 | The loop returns, consumes and writes what the specification of `ReadMessage` says, and ends; the collected text stays within the limit. |
| `Connection.Conn.Header` | internal/wsclient/wsclient.go:280-292 | The header is the first byte and the length field in the shortest form. |
| `Connection.Conn.MaskPayload` | internal/wsclient/wsclient.go:294-297 | The loop fills a new array with the masked payload. |
| `Connection.Conn.WriteFrame` | internal/wsclient/wsclient.go:267-305 | Puts on the wire what the specification of one write says, in each of its failure cases; on success a receiver decodes what was added to exactly the opcode and payload given. |
| `Connection.Conn.WritePing` | internal/wsclient/wsclient.go:263-265 | A keepalive: on success a receiver decodes what was added to a ping with the payload `edukod`. |
| `Connection.Conn.Close` | internal/wsclient/wsclient.go:307-314 | The close frame is written at most once: if the socket takes it, a receiver decodes it to opcode 8 with the status 1000. After it the connection accepts no more writes; the error returned is that of closing the socket, in the first call only, whatever became of the close frame. |
| `Connection.PayloadsMean` | internal/wsclient/wsclient.go:264-310 | The keepalive payload is the text `edukod`, the close payload the number 1000. |
| `Wire.StepKeepsInv` | internal/wsclient/wsclient.go:274-304 | Every step of every writer keeps `writeMu` exclusive, the wire a concatenation of whole frames plus a part of the current one, and those frames in the order of the acquisitions of the lock. |
| `Wire.RunKeepsInv` | internal/wsclient/wsclient.go:274-304 | Every schedule of any number of writers keeps `writeMu` exclusive and the wire whole frames in lock order. |
| `Wire.PartIsNotDecoded` | internal/wsclient/wsclient.go:294-301 | No strict prefix of a written frame decodes. |
| `Wire.DecodeAllOfBytes` | internal/wsclient/wsclient.go:294-301 | A receiver recovers a concatenation of written frames, and then reads on in what follows. |
| `Wire.ReceiverSeesWholeFrames` | internal/wsclient/wsclient.go:267-305 | At any moment of any run without a broken write, a receiver decodes exactly the frames completely written, and they stand in the order in which their writers took `writeMu`. |
| `Wire.DamageLeavesEarlierFrames` | internal/wsclient/wsclient.go:301-303 | After the first write that broke off, everything on the wire before it still decodes to exactly the frames written before. |
| `StorageProofs.FillCases` | internal/config/store.go:187-205 | From a temporary file of any mode and contents, whatever fails, the configuration is as before or private, complete and synced: it is renamed only after `Chmod`, `Write` and `Sync` took effect on what is renamed. |
| `StorageProofs.AtomicWriteCases` | internal/config/store.go:171-206 | Whatever fails in `atomicWrite`, the file is as before or the complete, private and synced new one, and the new one if it succeeds. |
| `StorageProofs.TemporaryIsRemoved` | internal/config/store.go:185-186 | Whichever step of `atomicWrite` fails, the temporary file is gone in the end if operations take effect, unless its creation was reported as failed. |
| `StorageProofs.SaveCases` | internal/config/store.go:208-238 | All that `Save` can have done by the time it ends or stops, to the file and to the keyring entry. |
| `StorageProofs.SavedIsWhole` | internal/config/store.go:208-238 | After a failure, stop or crash at any step of `Save` that overwrites no keyring token of the entry on disk or of one a crash can bring back, a later load in any setup finds a whole pair from before, the whole new pair, or an error. The crash takes unsynced contents and may undo any renames and removals, since the directory is never synced. |
| `StorageProofs.OverwritingCanMix` | internal/config/store.go:216-235 | When `Save` does overwrite such a token, stopping after the keyring store, with the crash that brings that entry back if it is not the present one, pairs the old fields with the new token. |
| `StorageProofs.NeverMixedExactlyWhen` | internal/config/store.go:208-238 | No failure or crash can mix two pairings if and only if `Save` does not overwrite the keyring token of the pairing on disk or of one that a crash can bring back. |
| `StorageProofs.PairingIsWholeExactlyWhen` | internal/app/app.go:106-112 | Behind the `pair` command's test that no pairing exists, nothing is ever mixed if and only if no crash can bring back a pairing whose token is overwritten; none can if nothing was removed or replaced since the last crash. |
| `StorageProofs.SavedIsLoaded` | internal/config/store.go:208-289 | After a successful `Save`, also with a crash after it that does not undo its rename, a load with a working keyring returns the same fields and token at version 1 if both URLs are set, and the error for an incomplete configuration if not. |
| `StorageProofs.SavedCanBeLost` | internal/config/store.go:202-206 | After a successful first `Save`, a crash that undoes its rename leaves nothing to load: the directory is not synced. |
| `StorageOutcomes.SaveSucceedsExactlyWhen` | internal/config/store.go:208-238 | `Save` succeeds if and only if identifier and token are given, the keyring took the token if it is required, the file is no symbolic link, and the encoding and the nine operations of `atomicWrite` succeed; then the token is in the keyring if that took it, and in the file if not. The two errors before the write, each exactly when. |
| `StorageOutcomes.RequiredKeyringKeepsTokenOffDisk` | internal/config/store.go:216-225 | With a required keyring no file that `Save` writes, temporary or not, ever contains the token, whatever fails. |
| `StorageOutcomes.LoadEndsExactly` | internal/config/store.go:251-289 | Each error of `Load`, and its success with the stored pairing and its token, if and only if file, keyring and environment are as they have to be for it. |
| `StorageOutcomes.RemovalEndsExactly` | internal/config/store.go:297-307 | The removal of one file: each error, success, and the file being gone, exactly when; a missing file is no error. |
| `StorageOutcomes.DeleteSucceedsExactlyWhen` | internal/config/store.go:291-309 | In an obliging environment `Delete` succeeds if and only if neither file is a symbolic link; missing files are no obstacle, and what stays otherwise is said file by file. |
| `StorageOutcomes.StatusGoesLast` | internal/config/store.go:297-307 | The status file is removed only after the configuration is gone. |
| `StorageFailures.LateFailureLosesThePair` | internal/config/store.go:202-235 | When only the final `Chmod` fails, the new file stands, its keyring entry is taken back, and no load finds a pair: a failed `Save` need not leave the old state. |
| `StorageFailures.EarlyFailureLosesThePair` | internal/config/store.go:216-235 | When a pairing with its token in the keyring is saved again under its device and the directory cannot be used, the file stands, but the keyring entry is taken back and no load finds a pair. |
| `StorageFailures.SaveFileByFailure` | internal/config/store.go:226-237 | Error, file and keyring entry after the write are determined by which operation is the first to fail, whether the rename takes effect all the same, and whether the keyring then obliges. |
| `StorageFailures.FailedSaveKeepsPairExactlyWhen` | internal/config/store.go:208-238 | A failed `Save`, whichever operations fail and whether or not they take effect all the same, leaves the pair that could be loaded before if and only if: identifier or token were missing; or the file was not replaced, and the old token was not in the keyring under the saved device, or that entry was not touched, or the token is the same and the entry was not taken back; or the file was replaced by the very same pair, whose entry was not taken back. |
| `StorageProofs.LoadFindsThePair` | internal/config/store.go:251-289 | A load returns nothing but the pair that file and keyring hold together, and returns it when the environment obliges. |
| `StorageHistory.PerformKeepsOwnFiles` | internal/config/store.go:171-309 | Each of `Save`, `Load` and `Delete` under any failures, and a crash, keep the file, and every entry a crash can bring back, absent or private, complete, synced, of version 1, with the token in exactly one of keyring flag and token field. |
| `StorageHistory.OperationsKeepOwnFile` | internal/config/store.go:171-309 | Any sequence of `Save`, `Load` and `Delete` with any failures and crashes, whatever the crashes undo, keeps the file and every entry that can come back absent or private, complete and with the token in exactly one place. |
| `StorageHistory.LoadedIsFromOneSave` | internal/config/store.go:171-309 | Over any sequence of operations with any failures and crashes, whatever the crashes undo, from no file and with no `Save` that overwrites the token of an entry there is or may be again, every load that succeeds returns the fields and the token of one and the same `Save`. |
| `StorageHistory.DeletedPairingCanBeMixed` | internal/config/store.go:291-309 | After a successful `Delete` that leaves the keyring entry, pairing again under the same device passes the test of the `pair` command, and can be mixed with the deleted pairing when a crash undoes the removal. |
| `StorageHistory.DeleteCleans` | internal/config/store.go:291-309 | A successful `Delete` leaves neither file; if it could load the pair and clear the entry, no keyring entry either, and no other entry is touched. |
| `StorageHistory.EntryGoneExactlyWhen` | internal/config/store.go:291-295 | After a successful `Delete` of a pairing with its token in the keyring, the entry is gone if and only if the load succeeded and the clearing took effect. |
| `PairingStore.Store.AtomicWrite` | internal/config/store.go:171-206 | Carries out the write step by step with the result and effects specified, deferred removal included. |
| `PairingStore.Store.FillTemporary` | internal/config/store.go:187-201 | Makes private, fills, syncs and closes the temporary file and renames it, stopping at the first error, with the effects specified for each failure. |
| `PairingStore.Store.RenameTemporary` | internal/config/store.go:202-205 | Renames and makes private, with the effects specified for a rename that fails with or without taking effect. |
| `PairingStore.Store.Save` | internal/config/store.go:208-238 | Ends with the error, the file and the keyring that the specification gives for the state before, for every failure; the caller's copy of the state is updated field by field. |
| `PairingStore.Store.WriteState` | internal/config/store.go:226-237 | Encodes and writes the state, and takes the keyring entry back if the write failed, as specified. |
| `PairingStore.Store.Load` | internal/config/store.go:251-289 | Returns the state and token, or the first error, that the specification gives, and changes nothing. |
| `PairingStore.Store.Decode` | internal/config/store.go:267-288 | From the decoded contents on, checks the fields and finds the token as specified. |
| `PairingStore.Store.Remove` | internal/config/store.go:297-307 | Removes one file if it is there and not a symbolic link, with the error and effect specified. |
| `PairingStore.Store.Delete` | internal/config/store.go:291-309 | Clears the keyring entry if the pair could be loaded, then removes both files in order up to the first error, ending as specified. |
| `Reconnect.JitterIsNearBase` | internal/app/app.go:383-393 | A wait is within 0.75 and 1.25 of its base; truncation costs less than a nanosecond, and nothing when the base is a multiple of four. |
| `ReconnectEnds.JitterIsLinear` | internal/app/app.go:383-393 | With random bytes the wait is 0.75 times the base plus half the base times their fraction of the largest number, rounded down; without them it is the base. |
| `ReconnectEnds.JitterReachesBothEnds` | internal/app/app.go:392 | All-zero bytes give three quarters of the base and all-one bytes five quarters. |
| `ReconnectEnds.JitterGrows` | internal/app/app.go:392 | A larger random number never gives a shorter wait. |
| `Reconnect.Run` | internal/app/app.go:317-369 | The loop, with each connection served by a session object, produces the waits, status writes, final session states and return specified; when it returns and what it tells is pinned down by `ReconnectEnds.EndsExactlyWhen`. |
| `Reconnect.Serve` | internal/app/app.go:341-344 | A connection of the loop is served with the default options of a session. |
| `ReconnectProofs.BackoffIsDoubled` | internal/app/app.go:361-367 | Closed form: after any iterations the backoff is min(2^n, 30) s, n being the iterations since it was last started over, that one included, or all of them. |
| `ReconnectProofs.DoubledValues` | internal/app/app.go:364-367 | The closed form takes the values 1, 2, 4, 8, 16 and 30 s and no others. |
| `ReconnectProofs.WaitsFollowBackoff` | internal/app/app.go:353-360 | In every run the k-th wait lies within 0.75 and 1.25 of the closed form for the iterations before it. |
| `ReconnectProofs.FailuresDoubleWaits` | internal/app/app.go:353-367 | Without a connection, the k-th wait, from 0, lies within a quarter of min(2^k, 30) s. |
| `ReconnectProofs.OldConnectionHoldsBackoff` | internal/app/app.go:361-363 | Once 30 s have passed since the last connect, every later iteration without a connect leaves the backoff at exactly 2 s, as long as the wall clock is not set back. |
| `ReconnectProofs.LimitReachedExactlyWhen` | internal/app/app.go:361-367 | The backoff is at 30 s if and only if there were at least five iterations and none of the last four started it over: repeated failures alone do not raise it. |
| `ReconnectProofs.NothingIsReplayed` | internal/app/app.go:319-368 | Over all sessions of a run of the program, the one under way included, no request is passed to `Forward` twice; every session but the one under way has ended with an empty queue and no goroutine. |
| `ReconnectProofs.StatusIsTrue` | internal/app/app.go:320-358 | From the first iteration on, the last status written says connected if and only if a session is being served, with the time of the last connect. |
| `ReconnectEnds.EndsExactlyWhen` | internal/app/app.go:319-360 | Over all attempts: the loop has returned if and only if the last iteration it began was told to stop, before the dial, by the end of the session or during the wait; all iterations before that one went on, and nothing is taken from later attempts. The status writes are exactly those of the iterations begun, a failure being told in those that were not told to stop before their wait, and there is one wait for each of these. |
| `ReconnectEnds.FailuresAreWaitedFor` | internal/app/app.go:346-360 | A status with a failure is written exactly as often as a wait is drawn. |

## Left out

- TLS, TCP, DNS, HTTP and the upgrade handshake (`Dial`): the connection is a byte stream whose writes the environment lets succeed or fail.
- JSON: a message is what the decoder makes of it, or that it makes nothing; the encodings of outgoing messages, their lengths and the failure of `json.Marshal` in `WriteJSON` are not modelled, so nothing is said about a response exceeding the message limit.
- The clock readings in responses (`duration_ms`, `completed_unix_ms`), and the constant fields of `hello`.
- Read, write and handshake timeouts: a timeout is a read or write that fails.
- `Connection.Conn`: requires a message limit below 2^62, the exact bound of `Connection.SumFitsExactlyWhen`; the program uses 16 MiB + 4096. Each call runs alone; `writeMu` is the subject of modules `Wire` and `RelayWire`.
- `Connection.Conn.Close`: does not model how long closing may block; no statement is made about frames that writers waiting for `writeMu` send after the close frame.
- `RelayTheorems.SessionsEnd`: assumes that reads and pings fail once the connection is closed and that `Forward` returns after its context is cancelled; no fairness is assumed beyond that some possible step is taken.
- `RelayTheorems.OnlyTargetsAreCancelled`: is about calls of cancel functions; the cancellation that a stopped session passes on to every request context, and the expiry of a context's deadline, belong to what `Forward` may be met with. Stopping the session reaches all contexts in one step.
- The check of `Serve` for an empty device identity, which `Load` and pairing exclude; the overflow of `MaxRequestBytes + 4096`.
- `Protocol.AcceptedExactlyWhen`: trims and upper-cases ASCII only, and takes the length, validity and top-level shape of a body as given.
- `LocalApi.DialLoopback`: takes the resolved addresses as given. `ValidateBaseURL` and `ensureLoopbackHost` are not modelled; they are thin checks over library calls.
- `Execution.PredispatchExactlyWhen`: takes every trace callback to come before `Do` returns.
- `PairingStore.Store.AtomicWrite`: the directory check is one operation, the name of the temporary file is not modelled, and its mode at creation is left open. Renames and removals that a crash undoes are modelled for the configuration, not for the temporary file and the status file, which no load of a pairing reads.
- `StorageProofs.SavedIsLoaded`: the keyring returns the very token it stored, and does not lose it in a crash; the `secret-tool` process and its trimming of output are not modelled.
- `SaveStatus` and `LoadStatus` beyond the order of status writes; the length limit and line breaks of the error text.
- `Reconnect.JitterIsNearBase`: computes over the reals, not in float64.
- `ReconnectProofs.OldConnectionHoldsBackoff`: assumes that the wall clock is not set back between the ends of the waits; the program compares wall-clock times, because the stored time of the last connect has no monotonic reading.
- `RelayWire.GatewaySeesResponses`: takes the encoding of a message to be any function of it, and a message too long to write to be a write that fails; what a receiver sees after the first frame that breaks off is not stated beyond `Wire.DamageLeavesEarlierFrames`.
- Enrolment, revocation, URL validation, command-line parsing, `status`, `doctor`, `models`, signals and packaging: they are single calls of libraries, or print what they are given.
