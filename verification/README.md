# OnlyTwo in Dafny

OnlyTwo is a two-person encrypted messenger: a browser client in TypeScript and a relay in Go. This project models the
parts whose guarantees span many functions and whole runs, and proves those guarantees. `dafny verify dfyconfig.toml`
checks everything.

Code that computes values is modelled by functions. Code that changes state is modelled twice: as a state machine whose
steps are what happens between two awaits or under one lock, and as a class whose methods change fields in place and are
proved to take exactly those steps. Theorems about runs are proved about the machines.

| area | files |
|---|---|
| message-key ratchet, its key buffers, session set-up | Ratchet, RatchetRuns, SecureSession, CryptoWorker, Primitives, Negotiation |
| frames, associated data, padding, base64url, profiles | Bytes, Envelope, Padding, Base64Url, Profiles |
| windowed file transfer | FileSender, FileSenderRuns, FileRetries, FileOverlaps, FileChunks, FileReceiver, FileTransfer, FileTransferRuns, OutgoingFile, IncomingFile |
| crypto epochs of the session | Epochs, SessionCore |
| relay rooms, registry, connection accounting | RoomSession, RelayRegistry, RelayHub, RelayObjects |
| reliable channel | Reliable, ReliableChannel |
| outbox scheduler | LaneQueues, Scheduler, PacketScheduler |
| WebSocket framing | Framing, RawConnection |
| rate limiter, voice | RateLimiter, VoiceGate, Jitter, VoiceQueue, Capture |

HKDF, SHA-256, X25519 and AES-GCM are function values about which only three things are assumed: output lengths, that key
agreement commutes (section 6.1 of RFC 7748), and that opening undoes sealing under the same key, nonce and associated
data. Random bytes, clocks, the order in which a map lists its entries and the answers of the transport are parameters.

## Where the code falls short of the plain promise

Each of these is kept as the code has it, shown by a run, and followed by the condition under which the promise holds.

- A counter can be accepted twice: skipped keys are cached before authentication, the highest counter moves after it, so a
  frame that fails to open makes room for it (`RatchetRuns.AcceptedTwiceAfterRejection`). A counter is never accepted again
  if and only if its key was not cached ahead of the highest counter (`RatchetRuns.AcceptedNeverAgainIff`).
- A key is left unwiped when a payload fits no bucket and when a frame ahead of the chain does not open
  (`CryptoWorker.OversizedPayloadLeavesKey`, `CryptoWorker.ForgedPacketLeavesKey`), and exactly then
  (`CryptoWorker.Worker.EncryptBinary` with `SecureSession.PayloadRefusedIff`, `CryptoWorker.Worker.DecryptBinary` with
  `SecureSession.FailsAheadIff`). The derived material both keys are cut from is never wiped (`CryptoWorker.CutKeys`).
- A chunk can be transmitted more often than maxRetries + 1 when its sends overlap (`FileRetries.OverlapExceedsLimit`), and
  never otherwise (`FileRetries.TransmissionsBounded`). Each kind of overlap, with the chunks concerned below the limit,
  allows attempt numbers to go back (`FileOverlaps.NackGoesBack`, `FileOverlaps.ResumeGoesBack`,
  `FileOverlaps.ResumeAllGoesBack`).
- A completed outgoing transfer can become active again (`FileTransferRuns.CompletedThenActive`,
  `FileSenderRuns.StaysCompletedIff`), and a cancelled incoming one completed (`FileTransferRuns.CancelledThenCompleted`,
  `FileTransfer.CancelledCompletesIff`).
- The body of a reliable message is dispatched, and the channel of a handshake installed, without a second look at the
  epoch (`Epochs.StaleBodyIsDispatched`, `Epochs.StaleChannelIsInstalled`, `Epochs.AllCurrentIff`).
- A reliable message can be reported delivered and then failed (`Reliable.DeliveredThenFailed`, `Reliable.OneOutcomeIff`).
- A replaced connection that is still open may relay to its own replacement (`RoomSession.ReplacedRelaysToSome`,
  `RelayRegistry.ReplacedRelaysInEveryRun`).
- The relay never releases the reservation of an empty address (`RelayHub.EmptyAddressLeaks`,
  `RelayHub.CountsReservationsIff`).

## Model

| member | source | states |
|---|---|---|
| `Ratchet.DecryptKeepsInvariant` | client/src/crypto/cryptoWorker.ts:284-349 | whatever frame arrives, forged or not, the receive chain is the root stepped `highest` times, every cached key is the true key of its counter and the cache stays within its limit |
| `Ratchet.EveryRunKeepsInvariant` | client/src/crypto/cryptoWorker.ts:238-349 | the same over every sequence of frames |
| `RatchetRuns.AuthenticEffect` | client/src/crypto/cryptoWorker.ts:284-349 | an authentic frame is accepted exactly when its key is cached or its counter is ahead and within reach, with its original plaintext, and the whole new state |
| `RatchetRuns.AcceptedOnceWithOriginalText` | client/src/crypto/cryptoWorker.ts:284-349 | authentic frames in any order with loss and duplication: each accepted one yields its plaintext and no counter is accepted twice |
| `RatchetRuns.NoLossWithinWindow` | client/src/crypto/cryptoWorker.ts:284-349 | while the outstanding counters fit the cache, a delivery is accepted exactly when it is the first of its counter |
| `RatchetRuns.SpentStep` | client/src/crypto/cryptoWorker.ts:284-349 | a counter behind the highest without a cached key stays so whatever arrives, and every packet that carries it is refused |
| `RatchetRuns.AcceptedNeverAgainIff` | client/src/crypto/cryptoWorker.ts:284-349 | after an acceptance every packet with that counter is refused in every continuation, forged packets included, if and only if the key was not cached ahead of the highest counter |
| `RatchetRuns.AcceptedTwiceAfterRejection` | client/src/crypto/cryptoWorker.ts:310-339 | the exception is reachable: after a forged frame 2 is rejected, frame 1 is accepted twice |
| `SecureSession.PayloadRefusedIff` | client/src/crypto/cryptoWorker.ts:211-223 | with a 12-byte nonce a payload is refused if and only if every bucket is smaller than it and its length field |
| `SecureSession.FailsAheadIff` | client/src/crypto/cryptoWorker.ts:284-334 | a packet ahead fails if and only if it is within reach, not cached, and the cipher does not open it under the key of its counter |
| `SecureSession.UnlockInvertsLock` | client/src/crypto/cryptoWorker.ts:250-282 | a packet opens under the key it was made with to the data it was made from |
| `SecureSession.SentIsAuthentic` | client/src/crypto/cryptoWorker.ts:250-282 | the i-th packet of a sender carries counter i + 1 and opens under that counter's key |
| `SecureSession.ChainsCross` | client/src/crypto/cryptoWorker.ts:147-194 | two peers refuse each other exactly when their identities coincide; otherwise one's send chain is the other's receive chain and vice versa |
| `SecureSession.EndToEnd` | client/src/crypto/cryptoWorker.ts:147-349 | from two identities to delivered texts: at most one acceptance per counter, original text, and no loss inside the window |
| `CryptoWorker.Zeroize` | client/src/crypto/cryptoWorker.ts:55-57 | every byte of the buffer is zero |
| `CryptoWorker.CutKeys` | client/src/crypto/cryptoWorker.ts:196-209 | two fresh buffers with the next chain key and the message key, and the derived material, unwiped, with both |
| `CryptoWorker.StepChain` | client/src/crypto/cryptoWorker.ts:196-209 | two fresh, distinct buffers holding the next chain key and the message key |
| `CryptoWorker.DeriveChains` | client/src/crypto/cryptoWorker.ts:159-189 | both chains from the shared secret; the secret and the root key are wiped |
| `CryptoWorker.Worker.EvictOldest` | client/src/crypto/cryptoWorker.ts:243-247 | the oldest key leaves the cache and its buffer is wiped |
| `CryptoWorker.Worker.Place` | client/src/crypto/cryptoWorker.ts:239-241 | a key is entered under its counter; a replaced one is wiped |
| `CryptoWorker.Worker.CacheSkipped` | client/src/crypto/cryptoWorker.ts:238-248 | the buffers hold exactly the cache of the pure model, stay distinct, and every buffer that left is wiped |
| `CryptoWorker.Worker.AdvanceSend` | client/src/crypto/cryptoWorker.ts:256-259 | one chain step; the old chain key is wiped |
| `CryptoWorker.Worker.EncryptBinary` | client/src/crypto/cryptoWorker.ts:250-282 | the state is that of the pure step; a message key stays unwiped if and only if, before the call, no packet could be made of the request |
| `CryptoWorker.Worker.SkipOne` | client/src/crypto/cryptoWorker.ts:311-316 | one passed-over counter: its key is cached and the cursor wiped unless it is the chain key itself |
| `CryptoWorker.Worker.SkipAhead` | client/src/crypto/cryptoWorker.ts:309-316 | the cursor is the chain at the counter and the cache holds every key passed over |
| `CryptoWorker.Worker.OpenAhead` | client/src/crypto/cryptoWorker.ts:309-339 | a counter ahead: the pure step, the old chain key wiped on success, the would-be next one left unwiped if and only if authentication fails |
| `CryptoWorker.Worker.OpenCached` | client/src/crypto/cryptoWorker.ts:304-342 | a cached counter: the pure step, the cached key wiped once it opened the packet |
| `CryptoWorker.Worker.DecryptBinary` | client/src/crypto/cryptoWorker.ts:284-349 | the pure step in full; live buffers stay distinct, so no wipe touches one in use; the next chain key is left unwiped if and only if, before the call, the packet was ahead, within reach, not cached and would not open |
| `CryptoWorker.Worker.ResetSession` | client/src/crypto/cryptoWorker.ts:351-363 | every buffer in use is wiped and dropped |
| `CryptoWorker.Worker.EstablishSession` | client/src/crypto/cryptoWorker.ts:147-194 | no identity or a refused key changes nothing; otherwise the old keys are wiped and a fresh ratchet starts |
| `CryptoWorker.OversizedPayloadLeavesKey` | client/src/crypto/cryptoWorker.ts:255-265 | code that opens a session and leaves a message key in memory |
| `CryptoWorker.ForgedPacketLeavesKey` | client/src/crypto/cryptoWorker.ts:316-339 | code that opens a session and leaves a chain key in memory |
| `Bytes.CompareIsAntisymmetric` | client/src/crypto/cryptoWorker.ts:78-82 | the comparison is antisymmetric and zero exactly on equal strings |
| `Bytes.CompareBytes` | client/src/crypto/cryptoWorker.ts:78-82 | the loop computes the lexicographic order |
| `Negotiation.SamePhrase` | client/src/protocol/negotiation.ts:77-103 | peers that agree on version, flags, protocol and profile see the same words |
| `Negotiation.SamePhraseMaterialIff` | client/src/protocol/negotiation.ts:77-103 | both peers hash the same material if and only if version, flags, protocol and profile agree |
| `Envelope.UnpackAfterPack` | client/src/protocol/envelope.ts:63-138 | unpacking a packed frame gives its wire image, failing exactly when a flag bit is set |
| `Envelope.PackAfterUnpack` | client/src/protocol/envelope.ts:63-138 | packing an unpacked frame restores the bytes that arrived |
| `Envelope.AadIsHeaderPrefix` | client/src/protocol/envelope.ts:29-61 | the associated data is the first 34 bytes of the frame, and the receiver's equals the sender's |
| `Envelope.PackEnvelope` | client/src/protocol/envelope.ts:63-93 | filling the buffer field by field gives the packed bytes, with the same errors |
| `Padding.SelectBucket` | client/src/crypto/cryptoWorker.ts:211-216 | the least bucket that holds the payload and its length field, if any does |
| `Padding.ParseInvertsPad` | client/src/crypto/cryptoWorker.ts:211-236 | padding fails exactly when no bucket fits; otherwise parsing undoes it |
| `Padding.EveryTextFits` | client/src/config/profiles.ts:114-330 | in every profile any 8,000-unit text, escaped and encoded, fits a bucket and its frame |
| `Padding.EveryChunkFits` | client/src/config/profiles.ts:114-330 | in every profile any full chunk, base64url encoded, fits a bucket and its frame |
| `Base64Url.DecodeInvertsEncode` | client/src/utils/bytes.ts:41-60 | decoding inverts encoding on every byte string |
| `Base64Url.EncodedLength` | client/src/utils/bytes.ts:41-51 | the encoded length is (4n + 2) / 3 |
| `FileSender.BeginSound` | client/src/features/file/FileSender.ts:300-326 | starting a send keeps every attempt number within maxRetries + 1 and a chunk in flight in flight |
| `FileSender.SendSound` | client/src/features/file/FileSender.ts:345-375 | so does the transport's answer, whatever it is |
| `FileSender.OrphanSound` | client/src/features/file/FileSender.ts:355-364 | so does a timer no inflight entry refers to any more |
| `FileSenderRuns.WindowDiscipline` | client/src/features/file/FileSender.ts:272-432 | in every run of a registered, uncancelled transfer: in flight and acked partition [0, nextIndex), at most windowChunks in flight, no recorded attempt above maxRetries + 1 |
| `FileSenderRuns.NextKeeps` | client/src/features/file/FileSender.ts:147-482 | every event keeps the transfer invariant |
| `FileSenderRuns.CancelIsFinal` | client/src/features/file/FileSender.ts:227-244 | once cancelled, nothing is ever in flight again and the status stays failed or cancelled, whatever resumes |
| `FileSenderRuns.CompletedStaysIff` | client/src/features/file/FileSender.ts:157-270 | an event ends completion if and only if it is a cancellation, the refusal of an outstanding offer, or an accept while everything is paused or a pump is suspended |
| `FileSenderRuns.StaysCompletedIff` | client/src/features/file/FileSender.ts:157-270 | over a run a completed transfer stays completed if and only if no event undoes it |
| `FileTransferRuns.CompletedThenActive` | client/src/features/file/FileSender.ts:157-166 | a run of both sides in which a completed transfer becomes active again |
| `FileSenderRuns.OnlyAckAcknowledges` | client/src/features/file/FileSender.ts:168-185 | a chunk becomes acked only by an ack of that chunk, and stays acked |
| `FileRetries.TransmissionsBounded` | client/src/features/file/FileSender.ts:300-432 | without overlapping sends of a chunk its attempt numbers strictly increase, so it goes out at most maxRetries + 1 times |
| `FileRetries.OverlapRepeatsAttempt` | client/src/features/file/FileSender.ts:414-432 | with an overlap they need not: pausing and resuming during a suspended send transmits attempts 1, 2, 2 |
| `FileRetries.OverlapExceedsLimit` | client/src/features/file/FileSender.ts:414-432 | under every profile one overlap allows maxRetries + 2 transmissions of a chunk |
| `FileOverlaps.NackGoesBack` | client/src/features/file/FileSender.ts:187-199 | conversely, a nack below the limit while a send is suspended has a continuation whose attempt numbers do not increase |
| `FileOverlaps.ResumeGoesBack` | client/src/features/file/FileSender.ts:215-225 | and so has a resume that restarts the chunk, in any order and among any others, none of them held at its limit |
| `FileOverlaps.ResumeAllGoesBack` | client/src/features/file/FileSender.ts:95-107 | and so has the end of a global pause |
| `FileChunks.SliceLength` | client/src/features/file/FileSender.ts:329-334 | every chunk has exactly the length the receiver demands of it |
| `FileChunks.JoinedIsFile` | client/src/features/file/FileReceiver.ts:265-269 | the chunks of a file join to the file |
| `FileChunks.EveryOfferIsAcceptable` | client/src/features/file/FileReceiver.ts:79-106 | under every profile the receiver accepts an offer exactly when the sender may send the file |
| `FileTransfer.ChunkKeeps` | client/src/features/file/FileReceiver.ts:198-243 | an authentic chunk is stored as cut and acked only if stored, and never nacked |
| `FileTransfer.CompletionFindsFile` | client/src/features/file/FileReceiver.ts:263-271 | with every chunk received, completion finds none missing and the original bytes |
| `FileTransfer.FilesArriveIntact` | client/src/features/file/FileReceiver.ts:198-300 | over a network that drops, repeats and reorders: every file handed over equals the sender's, no size mismatch, missing chunk or wrong hash ever occurs, and a completed sender implies every chunk was stored |
| `FileTransfer.CancelledCompletesIff` | client/src/features/file/FileReceiver.ts:263-300 | a cancelled transfer is reported completed in some continuation without a new offer if and only if it was being hashed |
| `FileTransferRuns.CancelledThenCompleted` | client/src/features/file/FileReceiver.ts:263-284 | a run of both sides in which it is |
| `OutgoingFiles.OutgoingFile.Sizes` | client/src/features/file/FileSender.ts:284-290 | the sizes of the inflight map and the acked set are the counts of the machine |
| `OutgoingFiles.OutgoingFile.SetEntry` | client/src/features/file/FileSender.ts:365-366 | replacing an entry leaves a live timer of the old one running without an entry |
| `OutgoingFiles.OutgoingFile.SendChunk` | client/src/features/file/FileSender.ts:300-326 | sendChunk up to its first await, on the inflight map and its timers, is the machine's start of a send |
| `OutgoingFiles.OutgoingFile.ScheduleNext` | client/src/features/file/FileSender.ts:378-412 | scheduleRetry on the inflight map and its timers is the machine's |
| `OutgoingFiles.OutgoingFile.HoldOutstanding` | client/src/features/file/FileSender.ts:414-423 | every chunk in flight waits, its timer cleared |
| `OutgoingFiles.OutgoingFile.ClearTimers` | client/src/features/file/FileSender.ts:478-482 | the inflight map is emptied |
| `OutgoingFiles.OutgoingFile.FailTransfer` | client/src/features/file/FileSender.ts:470-476 | the failed state of the machine |
| `OutgoingFiles.OutgoingFile.FillWindow` | client/src/features/file/FileSender.ts:284-293 | the loop fills the window as the machine does |
| `OutgoingFiles.OutgoingFile.PumpChunks` | client/src/features/file/FileSender.ts:272-298 | the pump up to its await |
| `OutgoingFiles.OutgoingFile.ResumeOutstandingChunks` | client/src/features/file/FileSender.ts:425-432 | held chunks restart in map order, then the pump runs |
| `OutgoingFiles.OutgoingFile.HandleAck` | client/src/features/file/FileSender.ts:168-185 | refines the machine's ack event |
| `OutgoingFiles.OutgoingFile.HandleNack` | client/src/features/file/FileSender.ts:187-199 | a nack schedules the attempt after the recorded one, on the map and its timers, as the machine does |
| `OutgoingFiles.OutgoingFile.HandleAccept` | client/src/features/file/FileSender.ts:157-166 | refines the machine's accept event |
| `OutgoingFiles.OutgoingFile.PauseTransfer` | client/src/features/file/FileSender.ts:201-213 | refines the machine's pause event |
| `OutgoingFiles.OutgoingFile.ResumeTransfer` | client/src/features/file/FileSender.ts:215-225 | refines the machine's resume event |
| `OutgoingFiles.OutgoingFile.SetGlobalPaused` | client/src/features/file/FileSender.ts:95-107 | refines the machine's global pause and resume |
| `OutgoingFiles.OutgoingFile.CancelTransfer` | client/src/features/file/FileSender.ts:227-244 | refines the machine's cancel event |
| `OutgoingFiles.OutgoingFile.ReadEnds` | client/src/features/file/FileSender.ts:328-344 | the chunk is handed over and its attempt recorded, or the send ends and a retry is scheduled |
| `OutgoingFiles.OutgoingFile.SendEnds` | client/src/features/file/FileSender.ts:345-375 | the send ends; a retry is scheduled, or the entry waits for its ack with a timer, an overwritten live timer running on |
| `OutgoingFiles.OutgoingFile.TimerEnds` | client/src/features/file/FileSender.ts:355-405 | a timer fires: its entry finds it spent, and a retry is scheduled or the send started |
| `OutgoingFiles.OutgoingFile.OrphanEnds` | client/src/features/file/FileSender.ts:355-405 | the same for a timer no entry refers to |
| `OutgoingFiles.OutgoingFile.OfferReturns` | client/src/features/file/FileSender.ts:255-270 | refines the answer to an offer |
| `OutgoingFiles.OutgoingFile.StartQueuedOffer` | client/src/features/file/FileSender.ts:147-155 | refines the start of a queued offer |
| `OutgoingFiles.OutgoingFile.RemoveTransfer` | client/src/features/file/FileSender.ts:84-93 | refines the removal of a finished transfer |
| `OutgoingFiles.OutgoingFile.ResetSender` | client/src/features/file/FileSender.ts:78-82 | refines the reset, which drops the transfer without cancelling it |
| `IncomingFiles.IncomingFile.ReceiveOffer` | client/src/features/file/FileReceiver.ts:79-147 | refines the receiver's handling of an offer |
| `IncomingFiles.IncomingFile.ReceiveChunk` | client/src/features/file/FileReceiver.ts:198-239 | refines its handling of a chunk: state and reply |
| `IncomingFiles.IncomingFile.Assemble` | client/src/features/file/FileReceiver.ts:265-269 | joins the chunks, or finds one missing |
| `IncomingFiles.IncomingFile.ReplyEnds` | client/src/features/file/FileReceiver.ts:239-271 | refines what follows the ack of a chunk |
| `IncomingFiles.IncomingFile.HashEnds` | client/src/features/file/FileReceiver.ts:271-299 | refines what follows the hash |
| `IncomingFiles.IncomingFile.Abandon` | client/src/features/file/FileReceiver.ts:167-196 | refines rejection and cancellation |
| `IncomingFiles.IncomingFile.AcceptEnds` | client/src/features/file/FileReceiver.ts:155-164 | refines the answer to an accept |
| `Epochs.NextKeeps` | client/src/session/SessionController.ts:406-1036 | every event keeps the epoch invariant |
| `Epochs.NothingStaleLeavesOrIsDispatched` | client/src/session/SessionController.ts:563-693 | at every interleaving queued packets and voice envelopes belong to the current epoch and channel, so does every packet that leaves, and every message dispatched on decryption arrived in the current epoch |
| `Epochs.AllCurrentIff` | client/src/session/SessionController.ts:792-796 | bodies of reliable messages and channels of handshakes are also current if and only if no epoch change overtakes an operation that then completes |
| `Epochs.StaleBodyIsDispatched` | client/src/session/SessionController.ts:792-796 | a run in which a body is dispatched one epoch late |
| `Epochs.StaleChannelIsInstalled` | client/src/session/SessionController.ts:759-766 | a run in which a handshake installs its channel into a session already ended |
| `SessionCore.Controller.DisconnectSession` | client/src/session/SessionController.ts:406-434 | both epochs advance, the scheduler is cleared lane by lane, the voice queue emptied, channel and key dropped, all in one step |
| `SessionCore.Controller.PrepareFreshCryptoEpoch` | client/src/session/SessionController.ts:609-636 | the epoch advances and the same is cleared in one step |
| `SessionCore.Controller.BeginRoom` | client/src/session/SessionController.ts:451-492 | a new room leaves the old session and asks for an identity in the new lifecycle |
| `SessionCore.Controller.IdentityGenerated` | client/src/session/SessionController.ts:646-654 | the key is installed only in the lifecycle that asked for it |
| `SessionCore.Controller.ScheduleInboundVoice` | client/src/session/SessionController.ts:583-587 | a visit to the voice queue is put behind the other inbound work exactly when none is due |
| `SessionCore.Controller.QueueInboundVoice` | client/src/session/SessionController.ts:572-581 | the frame is queued, possibly at the cost of the oldest, and never without a visit to come |
| `SessionCore.Controller.RouteEnvelope` | client/src/session/SessionController.ts:563-581 | voice goes to its freshness queue with a visit scheduled, other envelopes wait their turn under the epoch of their arrival |
| `SessionCore.Controller.VisitVoice` | client/src/session/SessionController.ts:589-594 | a visit drops what is stale and opens the oldest frame left, as the machine does |
| `SessionCore.Controller.FinishVoiceVisit` | client/src/session/SessionController.ts:595-598 | a finished visit schedules another exactly while frames are queued |
| `SessionCore.Controller.HandlerReturns` | client/src/session/SessionController.ts:601-607 | the end of a handler lets the next task start |
| `SessionCore.Controller.OnEnvelope` | client/src/session/SessionController.ts:663-676 | the part of envelope handling before decryption |
| `SessionCore.Controller.RunNextTask` | client/src/session/SessionController.ts:589-607 | one task at a time; a visit to the voice queue drops what is stale and opens the oldest frame left |
| `SessionCore.Controller.Decrypted` | client/src/session/SessionController.ts:676-679 | a message is dispatched only if epoch and channel are unchanged |
| `SessionCore.Controller.Acknowledged` | client/src/session/SessionController.ts:792-796 | the body is dispatched without another look at the epoch |
| `SessionCore.Controller.HandshakeEstablished` | client/src/session/SessionController.ts:759-790 | the channel is installed without another look at the epoch |
| `SessionCore.Controller.Enqueue` | client/src/transport/WebSocketConnection.ts:117-151 | voice is refused while the socket is not ready for it; other bytes meet the admission rule, and the record of their epoch and channel follows its answer |
| `SessionCore.Controller.SendRawApp` | client/src/session/SessionController.ts:959-968 | a send remembers epoch and channel |
| `SessionCore.Controller.Encrypted` | client/src/session/SessionController.ts:971-976 | a packet is queued only if both are unchanged |
| `SessionCore.Controller.SendHandshake` | client/src/session/SessionController.ts:995-1002 | a handshake remembers lifecycle, epoch and key |
| `SessionCore.Controller.ProfileHashed` | client/src/session/SessionController.ts:1002-1036 | it is queued only if all three are unchanged |
| `SessionCore.Controller.WriteToSocket` | client/src/transport/WebSocketConnection.ts:323-355 | a full socket pauses; otherwise the oldest packet of the best lane leaves, as the machine's departure, unless it is voice that comes too late and is dropped |
| `RoomSession.AddSucceedsIff` | internal/session/session.go:75-102 | joining succeeds exactly when the room is open and live and the slot held or free; who is replaced and who is the peer |
| `RoomSession.AddValid` | internal/session/session.go:75-102 | two participants at most, in different slots; an open room has no expiry exactly when occupied |
| `RoomSession.RemoveValid` | internal/session/session.go:104-119 | the same for leaving |
| `RoomSession.PeerIsOtherSlot` | internal/session/session.go:121-133 | the peer of an attached connection is the one in the other slot, whatever the order in which the map is scanned |
| `RoomSession.ReplacedRelaysToSome` | internal/session/session.go:121-133 | a replaced connection that still reads finds some attached one, possibly its own replacement; which one is determined if and only if the room holds one connection |
| `RelayRegistry.LateDetachIsHarmless` | internal/ws/hub.go:76-108 | a connection replaced in a reachable state may detach after any further steps: it removes nobody, changes nothing and announces nothing |
| `RelayRegistry.PeerInEveryRun` | internal/session/session.go:121-133 | in every reachable state the peer of an attached connection is the one in the other slot |
| `RelayRegistry.ReplacedRelaysInEveryRun` | internal/session/session.go:121-133 | the same for a replaced connection in every state after its replacement |
| `RoomSession.ExpiryIsStable` | internal/session/session.go:173-175 | an expired room stays expired and cannot be joined |
| `RelayRegistry.NextKeeps` | internal/session/registry.go:45-164 | every lock-granular step keeps the registry invariant |
| `RelayRegistry.RegistryDiscipline` | internal/session/registry.go:45-164 | registered rooms are open and without tombstone, rooms seen expired hold no connection, creators stay within their quota |
| `RelayRegistry.RoomsStayValid` | internal/session/session.go:75-165 | every room stays structurally sound in every run |
| `RelayRegistry.OnlyEndingDisconnects` | internal/session/registry.go:147-170 | closing a room nobody ended disconnects nobody |
| `RelayRegistry.EndIsFinal` | internal/ws/hub.go:110-122 | ending drains every connection present at the drain; the room stays empty and unjoinable whatever follows |
| `RelayRegistry.RecreatedOnlyAfterTtl` | internal/session/registry.go:62-82 | an ended code is not recreated before its time to live has passed |
| `RelayHub.CountsReservationsIff` | internal/ws/hub.go:195-216 | the count of an address equals the reservations held if and only if the address is not empty or none of its handlers finished, and stays within the limit |
| `RelayHub.EmptyAddressLocksOut` | internal/ws/hub.go:195-216 | after `limit` handlers without an address no further one is served |
| `RelayHub.EmptyAddressLeaks` | internal/ws/connection.go:130-139 | one failed upgrade without an address leaves a count behind |
| `RelayObjects.Session.AddConnection` | internal/session/session.go:75-102 | the method, with its scans, is the model's join |
| `RelayObjects.Session.RemoveConnection` | internal/session/session.go:104-119 | the method is the model's leave |
| `RelayObjects.Session.PeerOfConnection` | internal/session/session.go:121-133 | the scan finds the model's peer |
| `RelayObjects.Session.DrainConnections` | internal/session/session.go:151-165 | the first call closes the room and hands out its connections |
| `RelayObjects.Registry.PurgeExpired` | internal/session/registry.go:55-61 | the purge is a run of lock-granular steps after which no listed room has expired |
| `RelayObjects.Registry.InsertSession` | internal/session/registry.go:62-92 | the tests and the insertion are the model's creation |
| `RelayObjects.Registry.CreateSessionWithCode` | internal/session/registry.go:45-93 | first the purge, after which no listed room has expired, then the tests and the insertion on what is left; the invariant is kept |
| `RelayObjects.Registry.EndSession` | internal/session/registry.go:113-123 | only the registered room is ended, leaving a tombstone |
| `RelayObjects.Hub.ReserveIP` | internal/ws/hub.go:195-203 | a reservation is refused exactly at the limit |
| `RelayObjects.Hub.ReleaseIP` | internal/ws/hub.go:205-216 | a release gives one back, except for the empty address |
| `Reliable.OneOutcomeIff` | client/src/protocol/reliable.ts:187-249 | at most maxAttempts transmissions, at most two outcomes, and one at most if and only if no send is refused after an outcome |
| `Reliable.AcceptingTransportSettlesOnce` | client/src/protocol/reliable.ts:187-249 | with a transport that accepts every send there is one outcome at most |
| `Reliable.DeliveredThenFailed` | client/src/protocol/reliable.ts:205-208 | an ack that overtakes a refused send: delivered, then failed |
| `Reliable.DefaultDelays` | client/src/protocol/reliable.ts:54-61 | under the default policy at most five transmissions and 27,000 ms of retry delay between first and last |
| `Reliable.ReturnsAreSpaced` | client/src/protocol/reliable.ts:116-155 | within a session a body is returned at most once per seenTtlMs |
| `Reliable.BodyReturnedAtMostOnce` | client/src/protocol/reliable.ts:54-257 | with bounded lateness and network delay a body is returned at most once |
| `ReliableChannels.ReliableChannel.ClearPending` | client/src/protocol/reliable.ts:246-249 | the timer is cleared and the message leaves the map; no other is touched |
| `ReliableChannels.ReliableChannel.Report` | client/src/protocol/reliable.ts:241-244 | it leaves and its outcome is reported |
| `ReliableChannels.ReliableChannel.SendPending` | client/src/protocol/reliable.ts:187-203 | one more attempt, and a send under way |
| `ReliableChannels.ReliableChannel.ArmRetry` | client/src/protocol/reliable.ts:214-229 | a timer with the back-off delay, or the one that gives up after the last attempt |
| `ReliableChannels.ReliableChannel.Send` | client/src/protocol/reliable.ts:94-114 | a fresh message starts as the machine does; no other is touched |
| `ReliableChannels.ReliableChannel.SendReturns` | client/src/protocol/reliable.ts:205-212 | refines the machine's answer of the transport |
| `ReliableChannels.ReliableChannel.TimerRings` | client/src/protocol/reliable.ts:218-228 | refines the machine's timer |
| `ReliableChannels.ReliableChannel.AnswerArrives` | client/src/protocol/reliable.ts:122-139 | refines the machine's ack and nack; an unknown id changes nothing |
| `ReliableChannels.ReliableChannel.ResetChannel` | client/src/protocol/reliable.ts:164-170 | pending messages are dropped without an outcome and every id forgotten |
| `ReliableChannels.ReliableChannel.FailAllPending` | client/src/protocol/reliable.ts:157-162 | every pending message fails once, the others are left alone |
| `ReliableChannels.ReliableChannel.SweepSeen` | client/src/protocol/reliable.ts:251-256 | exactly the entries whose time has come are forgotten |
| `ReliableChannels.ReliableChannel.AfterAck` | client/src/protocol/reliable.ts:146-152 | the body is returned exactly when the id is new |
| `Scheduler.FourQueues` | client/src/transport/PacketScheduler.ts:45-128 | each lane is a first-in-first-out queue within lane and global limits; accepted = delivered + dropped + cleared + queued |
| `Scheduler.EvictsLeast` | client/src/transport/PacketScheduler.ts:51-59 | the least number of packets is evicted; if nothing makes room, a drop-oldest lane has lost all it held |
| `Scheduler.OnlyOwnLaneLoses` | client/src/transport/PacketScheduler.ts:45-65 | only the enqueuing lane loses packets, and only if it drops its oldest |
| `Scheduler.BestIsHighest` | client/src/transport/PacketScheduler.ts:67-73 | the lane drained is a non-empty one of the highest priority |
| `PacketSchedulers.EvictLoop` | client/src/transport/PacketScheduler.ts:51-59 | the eviction loop over one lane is the admission rule |
| `PacketSchedulers.PacketScheduler.Clear` | client/src/transport/PacketScheduler.ts:86-88 | lane after lane is emptied |
| `PacketSchedulers.PacketScheduler.EnqueuePacket` | client/src/transport/PacketScheduler.ts:45-65 | the eviction loop with running totals is the admission rule |
| `PacketSchedulers.PacketScheduler.NextPacket` | client/src/transport/PacketScheduler.ts:67-81 | the oldest packet of the best lane |
| `PacketSchedulers.PacketScheduler.ClearLane` | client/src/transport/PacketScheduler.ts:122-128 | one lane is emptied and the totals follow |
| `Framing.ReadsBack` | internal/ws/raw.go:123-186 | any acceptable masked frame is read back exactly, whatever follows it |
| `Framing.ParsesConcatenation` | internal/ws/raw.go:96-186 | a concatenation of such frames parses to its payloads in order, one pong per ping, up to any close frame |
| `Framing.HeaderReadsBack` | internal/ws/raw.go:203-224 | the written header reads back to opcode and length for every payload length |
| `RawConnection.ConversationByCalls` | internal/ws/raw.go:96-121 | the conversation is one ReadMessage call after another |
| `RawConnection.Unmask` | internal/ws/raw.go:182-184 | unmasking in place |
| `RawConnection.FillHeader` | internal/ws/raw.go:203-219 | the header buffer holds the header |
| `RawConnection.RawConn.TakeFrame` | internal/ws/raw.go:123-186 | reading a frame off the stream |
| `RawConnection.RawConn.ReadMessage` | internal/ws/raw.go:96-121 | one call: its result, the bytes it leaves and the pongs it wrote |
| `RawConnection.RawConn.WriteMessage` | internal/ws/raw.go:197-224 | header and payload are written |
| `RateLimiter.SweepingIsNeutral` | internal/ws/rate_limiter.go:24-63 | sweeping never changes a decision |
| `RateLimiter.HistoryMatches` | internal/ws/rate_limiter.go:24-43 | the admitted times recorded are those of the limiter |
| `RateLimiter.MinuteAdmitsTwiceTheLimit` | internal/ws/rate_limiter.go:24-43 | of one key's requests any half-open minute lets at most twice the limit through, by the limiter's own decisions |
| `RateLimiter.Limiter.SweepLocked` | internal/ws/rate_limiter.go:52-63 | every key sees the model's sweep |
| `RateLimiter.Limiter.Allow` | internal/ws/rate_limiter.go:24-43 | the key takes a request step, the others only the sweep |
| `VoiceGate.GatedInOrder` | client/src/features/audio/VadGate.ts:38-105 | gated frames are an in-order subsequence of the captured ones without repetition |
| `VoiceGate.ClosesIff` | client/src/features/audio/VadGate.ts:80-104 | an open gate closes exactly on the (hangoverFrames + 1)-th consecutive quiet frame |
| `VoiceGate.OpensIff` | client/src/features/audio/VadGate.ts:51-69 | a shut gate opens exactly on the frame that completes minSpeechFrames consecutive loud ones |
| `VoiceGate.VadGate.ProcessFrame` | client/src/features/audio/VadGate.ts:38-105 | the method is the automaton's step |
| `Jitter.PopsIncrease` | client/src/features/audio/JitterBuffer.ts:7-40 | between clears pops strictly increase and the buffer stays within its limit |
| `Jitter.PopEffect` | client/src/features/audio/JitterBuffer.ts:18-35 | a pop takes the least number, never below what was expected |
| `Jitter.GetAfterInsert` | client/src/features/audio/JitterBuffer.ts:9-9 | insertion sets exactly one entry |
| `Jitter.JitterBuffer.PushFrame` | client/src/features/audio/JitterBuffer.ts:7-16 | the eviction loop is the model's push |
| `Jitter.JitterBuffer.PopFrame` | client/src/features/audio/JitterBuffer.ts:18-35 | the method is the model's pop |
| `VoiceQueue.ExactlyStaleDropped` | client/src/features/audio/VoiceQueue.ts:33-44 | exactly the stale items are dropped |
| `VoiceQueue.VoiceFreshnessQueue.Push` | client/src/features/audio/VoiceQueue.ts:28-31 | the newest is kept, at most one old one goes |
| `VoiceQueue.VoiceFreshnessQueue.ShiftFresh` | client/src/features/audio/VoiceQueue.ts:33-44 | everything stale goes and the oldest fresh item is handed out |
| `VoiceQueue.VoiceFreshnessQueue.SetLimits` | client/src/features/audio/VoiceQueue.ts:22-26 | limits of at least one, the oldest trimmed |
| `Capture.Recorder.ReadFrame` | client/src/features/audio/VoiceService.ts:338-355 | a frame is the first samples; the rest stay buffered |
| `Capture.Recorder.OnSamples` | client/src/features/audio/VoiceService.ts:148-165 | frames and remainder concatenate to everything captured |

## Left out

- CryptoWorker.Worker.EncryptBinary: does not model the padded plaintext as a buffer, so its wiping is not stated.
- CryptoWorker.CutKeys: the buffers of derived material are not among those the worker accounts for, since it never refers to them again.
- SecureSession.EndToEnd: authenticity against an adversary is not modelled; frames are either made by the peer or fail to open.
- Base64Url.DecodeInvertsEncode: decoding is modelled for the base64url alphabet; what else atob tolerates (padding, white space) is rejected by the model.
- Padding.EveryTextFits: the length of the JSON around the text is a constant of the model; the message validators are not modelled.
- Negotiation.SamePhrase: the words are their positions in the word list, and serialising the material is a parameter.
- FileSenderRuns.WindowDiscipline: the profile stays the same for the whole transfer; setProfile during one is not modelled.
- FileRetries.TransmissionsBounded: a run with an overlap may still keep its attempt numbers increasing; the converse says that it need not, event by event.
- FileTransfer.FilesArriveIntact: no liveness is claimed; a completed receiver no longer acks, so a sender may keep retrying.
- OutgoingFiles.OutgoingFile.TimerEnds: timers fire at any time after they were set; the back-off and timeout durations are not modelled.
- OutgoingFiles.OutgoingFile.ResumeOutstandingChunks: the order in which the inflight map lists its entries is a parameter.
- IncomingFiles.IncomingFile.Assemble: treats an absent chunk as an error, where mapping over an array hole would skip it; no run gets there.
- Epochs.NothingStaleLeavesOrIsDispatched: message contents, the handshake flags that only suppress sends, and the order of crypto calls are left open, so the model has more runs than the code.
- RelayRegistry.RegistryDiscipline: code and profile validity and the choice of random codes are not modelled; any code may be asked for.
- Reliable.BodyReturnedAtMostOnce: lateness of timers and sends is bounded by a parameter, as the browser promises none.
- SessionCore.Controller.WriteToSocket: readiness and buffered amount of the socket are parameters; connecting and the pace of draining are not modelled.
- Scheduler.FourQueues: the profile stays the same; its limits can be exceeded right after setProfile.
- RateLimiter.SweepingIsNeutral: requests are taken in the order of their clock readings, which the code takes just before the lock.
- RateLimiter.MinuteAdmitsTwiceTheLimit: likewise for requests in clock order.
- VoiceGate.GatedInOrder: frames are positions and levels two comparisons; the loudness computation is not modelled.
- The user interface, notices, transcript, metrics and reconnect back-off have no property beyond display or timing.
- HTTP handling, origin and proxy checks, configuration and the upgrade handshake of the relay are library behaviour.
- Playback scheduling, PCM conversion and the audio worklet are browser interfaces and floating point.
- The promise plumbing of the crypto client and the session queue is taken as a serial order of steps.
