# Verified model of Yuri Agent's backup framing, agent loop and desktop run machinery

Yuri Agent is a desktop assistant. This project models, in Dafny, the parts of it where state, interleaving and
arithmetic carry the guarantees its users rely on, and proves those guarantees for all inputs and all runs.

- **Encrypted archives** (`Bytes`, `Framing`, `Streams`, `Sealer`, `Envelope`, `Export`, `Members`). A plaintext stream
  is cut into sealed frames whose nonces carry the frame number and a final marker, and read back one frame at a time.
  The AEAD is ideal: under a header it opens exactly what an export sealed under that header. The writer and the reader
  are imperative classes and loops over a reused buffer, proved against functions on byte sequences; authenticity, the
  round trip, nonce discipline and the agreement of export and restore limits are proved about those functions.
- **Agent runs** (`ToolCalls`, `RunLog`, `Verdicts`, `AgentRuntime`, `Replay`). `AgentRun` is the model and tool loop with its two kinds of
  streams, four budgets, required-tool rule and replay cache. Backend, authorizer, owner, tools, sink and cancellation
  answer arbitrarily. Everything the run asks of them goes to a ghost log; `RunLog` says by an automaton which logs are
  in order and proves what such logs guarantee, and every method of `AgentRun` is proved to keep its log in order.
  `Verdicts` says of the streams of a run, and not of the loops that read them, when it must go on, succeed or fail.
  A second ghost record holds the errors raised from outside; a run fails exactly when one of them ends it or its
  streams deserve it.
- **Chat runs** (`ChatEmitter`, `ChatStory`, `ApprovalGate`, `FallbackSink`, `TurnGate`). The emitter coalesces text on a timer and
  keeps the transcript; its regions under the dispatch mutex are the steps of a transition system and the methods of a
  class, with a timer flush possible between any two; `ChatStory` says from the inputs alone which messages, notices
  and endings a run must produce. The one-shot approval gate and the reentrant model-turn gate are
  transition systems whose steps are the mutex-protected regions, channel operations and storage calls. The fallback
  sink is a class, with the orchestration of the two attempts around it.
- **Bounded structures** (`Text`, `TokenCache`, `TokenMath`, `ConfigSanitizer`, `ContextWindow`, `MemoryBlocks`). A ring
  buffer that is a FIFO map, percentages and saturating sums in 64-bit arithmetic, the configuration sanitizer against
  its validator, and the bounded parts of a prompt.

Some properties one might expect turn out to hold only under a condition, which is proved to be exact, with an input on
which the property fails:

- the identities returned for a memory block are those of the lines that stand whole in it, except for a line one
  character too long that ends in an ellipsis (`LinesThatStand`, `UnnamedLineStands`);
- on ordinary streams a tool call is announced before it runs if and only if it gets a start event or its first event is
  a done event (`OrdinaryCallAnnouncedIff`, `DeltaThenDoneIsNotAnnounced`);
- a repeated call is answered with a result of the tool it names if and only if it names the tool that was run under its
  id (`RepeatIsOfTheNamedToolIff`, `RenamedRepeatIsServed`);
- a reported token total within the budget is truly within it if and only if the 64-bit sum did not overflow
  (`WithinBudgetIffNoOverflow`, `OverflowSlipsPast`);
- a step of the turn gate keeps its invariant if and only if the acquisition that took the slot is released last
  (`StepKeepsGoodIffProper`, `EarlyReleaseBreaksTheGate`);
- transcript and stream stay in agreement if and only if a new message id can be drawn when a response switches while a
  segment is open (`SpokenAgreesIff`, `FailedIdForgetsTheSegment`);
- texts of two different responses are kept in separate messages if and only if the text that opened the message named
  a response (`ResponsesShareOnlyAnUnnamed`, `StaysWhileNothingDiffers`, `UnnamedOpenerMixesResponses`);
- a lasting permission is stored only together with an approval if and only if the owner decides before the expiry: a
  late one is refused and stored (`PersistedIff`, `LatePermissionIsStored`).

The sealer's nonce discipline needs its callers not to write after a failed close (`WriteAfterFailedClose`); export keeps
to that.

The comment at internal/backup/crypto.go:111-113 says that a plaintext ending on a frame boundary is followed by an
empty final frame. The code flushes lazily (line 146), so such a plaintext ends in a full final frame; the model follows
the code.

## Model

| member | source | states |
|---|---|---|
| Framing.ChunkNonceCollides | internal/backup/crypto.go:101-109 | two nonces under one 3-byte prefix are equal exactly when the final flags agree and the frame numbers agree modulo 2^64 |
| Framing.SplitShape | internal/backup/crypto.go:140-169 | the frames' plaintexts concatenate to the plaintext, every frame but the last is exactly full, and an empty frame occurs only for the empty plaintext |
| Framing.SplitUnique | internal/backup/crypto.go:140-169 | any list of full pieces followed by a last piece of that shape is the one way to cut its concatenation: the split into Write calls cannot show |
| Framing.FrameCount | internal/backup/crypto.go:140-169 | there are max(1, ceil(n / chunk)) frames |
| Framing.OpensExactlyTheSealedBody | internal/backup/crypto.go:194-250 | with an ideal AEAD and distinct headers, the reader accepts a body if and only if it is byte for byte the body sealed under that header and its plaintext fits; otherwise what it wrote is a whole-frame prefix of the sealed plaintext, or nothing for an unknown header |
| Framing.TruncationIsRejected | internal/backup/crypto.go:101-109 | no proper prefix and no proper extension of a sealed body is accepted, also when cut at a frame boundary |
| Framing.AcceptsOnlySealed | internal/backup/crypto.go:206-250 | from any frame on, acceptance means that exactly the remaining sealed frames follow; on refusal the plaintext written is a run of whole frames |
| Framing.AcceptsSealed | internal/backup/crypto.go:206-250 | the remaining sealed frames are accepted and give back their plaintext whenever it fits the remaining limit |
| Framing.NoncesNeverRepeat | internal/backup/crypto.go:101-109 | the body of a finished archive is the concatenation of its pieces, each sealed under the nonce of its frame; no two of these frames share a nonce, and the final marker sits on the last frame and on no other |
| Framing.LongerCostsMore | internal/backup/crypto.go:171-187 | a longer plaintext never needs fewer frames or fewer sealed bytes |
| Framing.BodyLength | internal/backup/crypto.go:171-187 | a finished body is as long as its plaintext plus 16 bytes for each frame |
| Framing.Finish | internal/backup/crypto.go:160-169 | closing turns the frames sealed so far into the complete body by appending the one frame with the final marker |
| Streams.WriteBuffer | internal/backup/fsio.go:227-240 | a buffer is offered until all of it has been taken; whatever happens, what arrived is its prefix of the reported length |
| Sealer.ExplainedBinds | internal/backup/crypto.go:101-109 | while the frame number fits the 64-bit counter field, attempts at the written frames and at the one in the buffer never put two plaintexts under one nonce |
| Streams.WriteContext | internal/backup/fsio.go:212-249 | for any short reads and short writes: what arrived is an exact prefix of the input of the reported length and never more than max bytes; no error means all of it was copied; the limit error means the input was longer; without a cancellation, a broken read or a failed or empty write there is no error exactly when the input fits |
| Sealer.ChunkSealer.constructor | internal/backup/crypto.go:128-138 | an empty sealer with its whole budget left |
| Sealer.ChunkSealer.Flush | internal/backup/crypto.go:171-187 | on success exactly the buffered bytes became one more frame and were paid for from the budget; on failure the sealer is where it was, and the limit error means the frame did not fit; unless it was cancelled, exactly this frame was sealed under exactly its nonce |
| Sealer.ChunkSealer.Write | internal/backup/crypto.go:140-158 | exactly the first `consumed` bytes were taken in; success means all of them; a size refusal means that what was accepted, once sealed, exceeds the budget; what fits the buffer causes no frame |
| Sealer.ChunkSealer.Close | internal/backup/crypto.go:160-169 | success means the output holds exactly the frames of Split of everything accepted, the last one final; a size refusal means the sealed plaintext exceeds the budget; one attempt seals the buffer under the final nonce; closing again does nothing |
| Sealer.ChunkSealer.Guarantees | internal/backup/crypto.go:114-187 | at any time remaining budget plus bytes written is the budget and the frame index times 16 is within the budget, so for a budget below 2^64 the index cannot wrap; unless plaintext was written after a failed Close, no two uses of the key share a nonce unless they share the plaintext |
| Sealer.LongerFrameReusesTheNonce | internal/backup/crypto.go:171-187 | one frame number with one marker, sealed for a plaintext and for a longer one, breaks the nonce discipline |
| Sealer.WriteAfterFailedClose | internal/backup/crypto.go:140-169 | a sealer whose Close fails for want of room and which is written to again uses the final nonce for two plaintexts: the discipline Guarantees assumes is needed |
| Sealer.OpenChunkStream | internal/backup/crypto.go:194-250 | the loop over a reused frame buffer reaches the decisions of the specification OpenBody on the bytes of the source; under a fault what was written is a prefix of what it would have been |
| Sealer.OpenFrame | internal/backup/crypto.go:204-248 | one turn of the loop makes the specification's decision on one frame and writes out exactly its plaintext; a fault leaves at most a prefix of it behind |
| Sealer.NextFrame | internal/backup/crypto.go:208-228 | one read fills a frame or ends the input, and the frame is final exactly when nothing follows it |
| Envelope.ReadsWhatWasWritten | internal/backup/decode.go:138-164 | reading back a written prologue gives the header, its exact bytes and the body |
| Envelope.RestoredFilesAreExportedFiles | internal/backup/decode.go:27-100 | a framed file from which restore gets a payload is byte for byte an exported file of that payload; on any refusal at most a whole-frame prefix was decrypted |
| Envelope.OnlyBoundedFilesAreOpened | internal/backup/decode.go:27-100 | a file that gets as far as decryption is within the archive limit, and its key derivation needs at most 256 MiB and 2^28 steps with a salt of 16 to 64 bytes |
| Export.CountingWriter.Write | internal/backup/export.go:225-237 | bytes are passed on only while they fit the plaintext limit, and what is passed on is subtracted from it |
| Export.Produce | internal/backup/export.go:244-287 | a member is copied through the bounded copy: what comes out is a prefix of its source, success means all of it within its own limit and with the content the manifest declares, and a size refusal means the source exceeds that limit |
| Export.Drain | internal/backup/export.go:225-237 | buffered bytes reach the counting writer in pieces of any size, in order and without loss |
| Export.WritePart | internal/backup/export.go:194-221 | one more part is in the payload behind the parts before it, counted against the plaintext limit |
| Export.WritePayload | internal/backup/export.go:194-221 | for any members, split and buffering: success means every member has the declared content within its limit and the sealer took in exactly the payload; a size refusal means a member exceeds its limit, the payload the plaintext limit or, once sealed, the sealer's budget |
| Export.EncryptPayloadStream | internal/backup/crypto.go:258-326 | success means the output grew by exactly the archive file of the payload, with all members as declared, within the plaintext and archive limits; a size refusal means that header, a member, payload or archive really exceeds its limit; in every outcome no nonce was used for two plaintexts |
| Export.SealPayload | internal/backup/crypto.go:318-325 | the body of an archive: on success exactly the sealed frames of the payload, with all members as declared, within the plaintext limit and the budget; a size refusal means one of the limits is exceeded |
| Export.RestoreAcceptsExports | internal/backup/decode.go:47-100 | an archive finished under some limits passes restore's header, framing, size and authenticity checks under the same limits and gives back its payload |
| Export.ExportedFileLength | internal/backup/crypto.go:300-326 | a finished file has 12 bytes, the header, the payload, and 16 bytes for each frame |
| Members.ValidatePayloadEntries | internal/backup/decode.go:333-365 | the entry loop accepts a directory exactly when it has at least two and at most MaxBlobs + 3 entries, all names are valid, permitted and distinct, no entry is a link or directory, and the declared sizes add up to at most the plaintext limit; the map then holds exactly the entries |
| Members.AcceptedNamesStayInside | internal/backup/paths.go:23-32 | a walk along the slash-separated parts of an accepted name goes one part deeper at each step, so it never leaves the root |
| Members.RestoreAcceptsExportedMembers | internal/backup/export.go:194-221 | the member list of every valid manifest whose payload fits the plaintext limit is accepted under the same limits |
| TokenMath.SafetyIsExact | internal/desktop/google_slowmode.go:159-168 | in wrapping 64-bit arithmetic and for percent in 1..100 the split form is the exact floor of value*percent/100, raised to at least 1, and 0 for values that are not positive |
| TokenMath.CeilingIsExact | internal/desktop/google_slowmode.go:284-291 | the split form is the exact ceiling of value*percent/100 |
| TokenMath.SaturatingAddIsExactIffNonNegative | internal/desktop/google_slowmode.go:333-338 | for all 64-bit values the result is min(MaxInt64, exact sum) if and only if the running value is not negative, as it always is in the callers |
| TokenMath.ConservativeGoogleInputTokens | internal/desktop/google_slowmode.go:293-331 | for every request the estimate is min(MaxInt64, the exact unbounded sum) |
| TokenMath.EveryByteCounts | internal/desktop/google_slowmode.go:293-331 | that sum is 64, 16 for each message, 24 for each tool, and one for each byte of every text of the request |
| TokenCache.GoogleTokenCountCache.constructor | internal/desktop/google_slowmode.go:373-375 | a new cache stands for the empty queue |
| TokenCache.GoogleTokenCountCache.Get | internal/desktop/google_slowmode.go:377-385 | a lookup answers as the FIFO queue does and changes nothing |
| TokenCache.GoogleTokenCountCache.Put | internal/desktop/google_slowmode.go:387-406 | an update of the map and ring does to the abstract queue what FifoPut does |
| TokenCache.PutOnRing | internal/desktop/google_slowmode.go:394-405 | each branch of Put keeps the ring valid and does to its rotation by `next` what the specification does to the queue |
| TokenCache.CacheIsFifo | internal/desktop/google_slowmode.go:387-406 | after any calls the stored keys are exactly the last max fresh insertions in order, without repetition, and each holds what its latest Put gave it |
| TokenCache.GetFindsLatestPut | internal/desktop/google_slowmode.go:377-385 | a lookup returns v exactly when v is the latest Put of a key still among the last max fresh insertions and has not expired |
| TokenCache.DisabledCacheIsEmpty | internal/desktop/google_slowmode.go:387-390 | without room or lifetime the cache stays empty |
| ConfigSanitizer.NormalizeFieldName | internal/backup/config.go:155-164 | the loop computes the ASCII letters and digits of the lower-cased name, including the two non-ASCII characters whose lower case is ASCII |
| ConfigSanitizer.WordsStay | internal/backup/config.go:155-164 | a word of lower-case ASCII letters and digits is its own normalized name |
| ConfigSanitizer.CaseDoesNotMatter | internal/backup/config.go:155-164 | names that differ only in the case of ASCII letters normalize alike |
| ConfigSanitizer.ForeignLettersDoNotHide | internal/backup/config.go:155-164 | the dotted capital I and the Kelvin sign read as i and k |
| ConfigSanitizer.EverySpellingCounts | internal/backup/config.go:155-164 | a name that spells a word in any case, with those two letters and any separators between, normalizes to the word |
| ConfigSanitizer.SeparatorsDoNotMatter | internal/backup/config.go:155-164 | a character that is no ASCII letter or digit and none of the two foreign letters can be put anywhere in a name without changing what it normalizes to |
| ConfigSanitizer.SanitizeJson | internal/backup/config.go:90-125 | the recursive copy, visiting the fields in any order, computes the specification Sanitized |
| ConfigSanitizer.SanitizedIsAccepted | internal/backup/config.go:90-153 | for any fixed binary-path predicate the validator accepts every output of the sanitizer |
| ConfigSanitizer.AcceptedIffUnchanged | internal/backup/config.go:90-153 | the validator accepts a value if and only if the sanitizer leaves it unchanged |
| ConfigSanitizer.SanitizeIsIdempotent | internal/backup/config.go:90-125 | sanitizing twice is sanitizing once |
| ConfigSanitizer.NothingSensitiveRemains | internal/backup/config.go:90-125 | no path through sanitized metadata, however deep, ends in a field whose normalized name is on the list of secrets, nor in a field `binary` that is not an approved text |
| ConfigSanitizer.ExactlyTheHarmlessRemains | internal/backup/config.go:90-125 | a path leads through the sanitized value if and only if it led through the original and past no secret and no unapproved binary; what stands at its end is unchanged but for the same removals inside it |
| ConfigSanitizer.AcceptedIffNothingMustGo | internal/backup/config.go:127-153 | the validator accepts a value if and only if no path in it passes a secret or an unapproved binary |
| ConfigSanitizer.SecretsGo | internal/backup/config.go:166-175 | each of the 15 listed words, in any spelling, makes a field go from an object on export and makes restore refuse it |
| ContextWindow.BoundedTranscript | internal/context/assembler.go:270-296 | the result is the window of the eligible messages: a contiguous suffix in original order within the budget that the next older message would exceed, or the newest message alone with its text cut |
| ContextWindow.WindowIsUnique | internal/context/assembler.go:270-296 | that description has only one solution |
| ContextWindow.CutMessageFits | internal/context/assembler.go:320-330 | the text of a cut message fits a positive budget |
| MemoryBlocks.AppendWithin | internal/context/assembler.go:298-312 | a line goes in whole, cut to the remaining budget, or not at all, and only a whole line counts |
| MemoryBlocks.FormatCore | internal/context/assembler.go:219-241 | the text is the trimmed block of the first k eligible lines, maximal for the budget; the identities are those of these lines; of all eligible lines exactly these stand in the text, and the next one exactly when it looks whole (see LinesThatStand) |
| MemoryBlocks.FormatHits | internal/context/assembler.go:243-268 | the same for archive hits outside the current conversation |
| MemoryBlocks.BlockHoldsItsLines | internal/context/assembler.go:219-268 | each line whose identity is returned stands in the text behind the lines before it, up to the trimmed final newline; the line after them does not fit; the text keeps to a budget that is not negative |
| MemoryBlocks.LinesThatStand | internal/context/assembler.go:219-268 | a line stands whole in the text, but for its newline, if and only if its identity is returned, or it is the first line left out, is one character longer than the at least 32 left, and has an ellipsis as its last character before the newline |
| MemoryBlocks.CutLineStandsIff | internal/context/assembler.go:298-330 | the same for the first line left out alone: truncation rebuilds a line under exactly that condition |
| MemoryBlocks.UnnamedLineStands | internal/context/assembler.go:219-241 | a concrete memory whose line stands whole in the text although its identity is not returned |
| MemoryBlocks.CombinedLength | internal/context/assembler.go:200-200 | joining two trimmed halves costs one newline exactly when both say something |
| MemoryBlocks.RetrievedBlock | internal/context/assembler.go:197-206 | the combined block joins a block of recalled memories for half the budget and a block of hits for the rest, each showing exactly its lines; it has at most RetrievedCharacters + 1 characters, and exceeds the budget exactly when both halves are present and use it up |
| TurnGate.StepKeepsGoodIffProper | internal/desktop/model_gate.go:122-165 | from a good state a step leads to a good state if and only if the acquisition that took the slot is not released before a nested one |
| TurnGate.WellNestedIsProper | internal/desktop/model_gate.go:17-46 | releasing the newest open acquisition of a lease always keeps that discipline |
| TurnGate.RunsStayGood | internal/desktop/model_gate.go:122-165 | every state of every disciplined run of any number of leases is good: the slot is taken exactly while one participant is inside |
| TurnGate.OneAtATimeInEveryRun | internal/desktop/model_gate.go:91-165 | at any moment of any such run at most one lease subtree has open streams |
| TurnGate.NeverWaitsForItself | internal/desktop/model_gate.go:132-141 | a lease that is inside never queues for the slot, and giving the slot back never blocks |
| TurnGate.NearerToFree | internal/desktop/model_gate.go:142-165 | while the slot is taken, the participant inside can take a step that decreases its distance from having given the slot back by one, and the slot is free exactly when that distance is 0 |
| TurnGate.NoDeadlock | internal/desktop/model_gate.go:142-157 | whoever waits can take the slot after a disciplined run of steps of the one participant inside, exactly as many as its distance, none of them an acquisition or a cancellation; and at once when the slot is free |
| TurnGate.QuietGateIsFree | internal/desktop/model_gate.go:150-165 | with all streams closed every depth is 0 and the slot is free |
| TurnGate.CloseIsIdempotent | internal/desktop/model_gate.go:62-69 | closing a closed stream at any later time changes nothing: the slot comes back once |
| TurnGate.EarlyReleaseBreaksTheGate | internal/desktop/model_gate.go:150-156 | whenever the acquisition that took the slot is released early, there is a run after which two subtrees have open streams |
| ApprovalGate.StepStaysGood | internal/desktop/chat_approval.go:83-109 | every locked region, channel operation and storage call of the resolvers, the waiter, expiry, cancellation and release keeps the life of the one decision in order |
| ApprovalGate.RunsStayGood | internal/desktop/chat_approval.go:83-109 | hence every interleaving of any number of them does |
| ApprovalGate.ChannelIsUsedSafely | internal/desktop/chat_run.go:424-453 | in every interleaving at most one decision is sent, no send blocks or meets a closed channel, the channel is closed once, and the branch for a closed, empty channel is unreachable |
| ApprovalGate.DecisionIsNotLost | internal/desktop/chat_approval.go:76-109 | in every interleaving a registered gate is found by the run's lookup for as long as the run may come, a sent decision is there whenever the run waits and is the one received, a run is told `not registered` only if no gate was ever made, and the emitter releases a gate only after the run has returned |
| ApprovalGate.EarlyDecisionIsReceived | internal/desktop/chat_approval.go:174-251 | a decision sent before the run arrives: after any interleaving that leaves the run still to come, its lookup succeeds, its wait ends at once, and it receives that decision |
| ApprovalGate.FirstClickWins | internal/desktop/chat_run.go:434-453 | the first accepted decision is the decision for the rest of the run |
| ApprovalGate.ApprovalNeedsARecordInTime | internal/desktop/chat_approval.go:174-251 | Approve returns (true, nil) only after the owner agreed and with the record saved as approved before its expiry |
| ApprovalGate.ClickSettles | internal/desktop/chat_run.go:434-453 | a click settles the decision if and only if the gate is registered and unresolved and a lasting permission has a root to be given for; any other click changes nothing |
| ApprovalGate.OwnerIsObeyed | internal/desktop/chat_approval.go:200-240 | for every interleaving between the decision and its storing: the wait ends approved exactly when the received decision approves and the record had not expired at the decision, without an error exactly when record, audit and any lasting permission were stored, and the record is closed as approved, denied or expired accordingly |
| ApprovalGate.ApprovedIff | internal/desktop/chat_approval.go:174-251 | over every run from the start: Approve returns (true, nil) if and only if the run received the owner's approval, decided on it while the record was readable, pending and before its expiry, with a root for a lasting permission, and then record, audit and any lasting permission were stored |
| ApprovalGate.PersistedIff | internal/desktop/chat_approval.go:205-239 | a lasting permission is stored if and only if the owner chose it and record, audit and permission were stored, whatever the expiry |
| ApprovalGate.LatePermissionIsStored | internal/desktop/chat_approval.go:214-239 | a concrete late `always`: the approval is refused and the record closed as expired, yet the permission is stored |
| ApprovalGate.TimeOutIsARefusal | internal/desktop/chat_approval.go:149-170 | the wait ends by itself only from the expiry on; that is a refusal, and a record still pending is closed as expired |
| ChatEmitter.CoalescingKeepsTheStream | internal/desktop/chat_approval.go:391-415 | under every interleaving of emits, timer flushes and the close, delivered events plus the waiting batch, taken character by character, are exactly what was emitted, and the recorded events are exactly the emitted ones without text |
| ChatEmitter.StepStaysFaithful | internal/desktop/chat_approval.go:432-517 | each region under the dispatch mutex keeps that agreement, and whatever waits has a timer running |
| ChatEmitter.ClosedMeansImmediate | internal/desktop/chat_approval.go:535-540 | after the close has flushed, nothing waits any more: what is delivered is what is emitted |
| ChatEmitter.SpokenAgreesIff | internal/desktop/chat_stream.go:201-229 | appending text keeps transcript and stream in agreement if and only if it is not the case that another response interrupts an open segment while no id can be drawn |
| ChatEmitter.HeardAgrees | internal/desktop/chat_stream.go:88-187 | every event of a run keeps, for every message id, the stream's story equal to the transcript's: the stored text, completed exactly when its segment is closed, and at most one terminal event |
| ChatEmitter.EveryRunAgrees | internal/desktop/chat_stream.go:88-255 | so does every sequence of run events, failure path, success path and close, in any order |
| ChatEmitter.TranscriptAgreesWithTheStream | internal/desktop/chat_persistence.go:35-42 | after the close, for every batching by the timer: each stored segment was delivered with exactly its text followed by exactly one completion, nothing belongs to any other message, and there is exactly one terminal event |
| ChatEmitter.FailedIdForgetsTheSegment | internal/desktop/chat_stream.go:212-219 | a concrete run in which the failed draw of an id leaves the first segment without its completion |
| ChatEmitter.EndingsAreEvents | internal/desktop/chat_approval.go:510-517 | the recorded events hold as many terminal events as the stream |
| ChatStory.MessagesAreTold | internal/desktop/chat_stream.go:201-229 | in every allowed run the stored messages are exactly those its inputs describe: one for each text that found no open message of its response, in order, with the reserved or drawn id, the response of that text, and the concatenation of the texts said until the message ended |
| ChatStory.EndsSeparate | internal/desktop/chat_stream.go:107-113 | no message has text on both sides of a tool call start, of the end of an attempt or of a failure |
| ChatStory.ResponsesShareOnlyAnUnnamed | internal/desktop/chat_stream.go:205-211 | texts of two different named responses share a message only if the text that opened it named no response |
| ChatStory.StaysWhileNothingDiffers | internal/desktop/chat_stream.go:205-228 | conversely text stays in its message while nothing ends it and each text, or the one that opened it, names no response or names the same |
| ChatStory.OneResponseOneMessage | internal/desktop/chat_stream.go:205-228 | texts of one response, with nothing between them that ends a message or names another response, always share a message |
| ChatStory.UnnamedOpenerMixesResponses | internal/desktop/chat_stream.go:205-211 | a concrete run in which two named responses share a message, because its first text named none |
| ChatStory.TextGoesOut | internal/desktop/chat_stream.go:106-106 | each text that finds or opens a message goes out as a delta under the id of that message |
| ChatStory.MessageIdsDiffer | internal/desktop/chat_stream.go:213-220 | no two messages of a run share an id |
| ChatStory.NoticesAndEndingsAreTold | internal/desktop/chat_stream.go:92-186 | the notices sent are those the inputs call for, in order (run.started, tool.started, tool.updated and approval.required, the last three only if the record was stored); there is a terminal event exactly when some input ends the run, and it carries the ending of the first that does |
| ChatStory.EarlierEventsStay | internal/desktop/chat_stream.go:185-186 | the events of the first inputs of a run are its first events |
| ChatStory.NoToolStartsInsideAMessage | internal/desktop/chat_stream.go:107-119 | whenever tool.started goes out, every message that has text so far has been completed |
| ChatEmitter.ChatEmitter.constructor | internal/desktop/chat_stream.go:80-86 | a new emitter agrees with an empty stream |
| ChatEmitter.ChatEmitter.TakePending | internal/desktop/chat_approval.go:492-504 | the waiting batch with the header of its first delta, or nothing; its timer is stopped |
| ChatEmitter.ChatEmitter.FlushPending | internal/desktop/chat_approval.go:475-490 | does the Flush step |
| ChatEmitter.ChatEmitter.QueueDelta | internal/desktop/chat_approval.go:432-460 | does the step of queueing a delta, including the flush at a change of message and immediate delivery after the close |
| ChatEmitter.ChatEmitter.Emit | internal/desktop/chat_approval.go:391-415 | does the emit step, possibly after a timer flush |
| ChatEmitter.ChatEmitter.EmitTerminal | internal/desktop/chat_approval.go:420-430 | only the first caller gets the terminal event through |
| ChatEmitter.ChatEmitter.AppendAssistantDelta | internal/desktop/chat_stream.go:201-229 | the new segments, the message id and the id to complete are those of the specification Spoken; fails exactly when an id is needed and none could be drawn |
| ChatEmitter.ChatEmitter.CloseAssistantSegment | internal/desktop/chat_stream.go:231-240 | returns the id of the open segment once and closes it |
| ChatEmitter.ChatEmitter.Sink | internal/desktop/chat_stream.go:88-187 | transcript and emitted events change exactly as the specification Heard says, whatever the timer does, and stay in agreement except on the one path named above |
| ChatEmitter.ChatEmitter.FailRun | internal/desktop/chat_persistence.go:35-42 | completes the open segment and emits the terminal event unless there was one |
| ChatEmitter.ChatEmitter.Close | internal/desktop/chat_approval.go:535-555 | afterwards nothing waits, every segment is completed and the renderer holds exactly the transcript and one terminal event |
| FallbackSink.SinkOnlyDelays | internal/desktop/chat_fallback_runtime.go:94-139 | for any attempt the sink, once flushed, has let through everything but the failure event, in order |
| FallbackSink.CommitsWhenVisible | internal/desktop/chat_fallback_runtime.go:124-126 | the sink commits exactly when a model text or tool event has arrived |
| FallbackSink.PreOutputAttemptSink.constructor | internal/desktop/chat_fallback_runtime.go:90-92 | a sink that holds nothing and has committed to nothing |
| FallbackSink.PreOutputAttemptSink.Sink | internal/desktop/chat_fallback_runtime.go:94-139 | each event does to the sink and its target what the specification Passed says, also when the target refuses |
| FallbackSink.PreOutputAttemptSink.FlushStarted | internal/desktop/chat_fallback_runtime.go:147-159 | the held-back start is delivered once |
| FallbackSink.RunPrimary | internal/desktop/chat_run.go:286-294 | the primary attempt behind its sink: what was delivered is what the sink let through, and it has committed exactly when the attempt showed something |
| FallbackSink.RunFallback | internal/desktop/chat_fallback_runtime.go:170-180 | everything of the fallback attempt is delivered except its own start |
| FallbackSink.RunAttempts | internal/desktop/chat_run.go:187-327 | over setup, primary and optional fallback: run.started is delivered at most once and before every other runtime event, the switch to the fallback directly follows it, so nothing of the abandoned attempt was shown, least of all its failure, and a switch means an eligible failure before any model text or tool event; an emitter that refuses nothing hears exactly the primary attempt without its failure or, when fallback is due, the one start, the switch and the second attempt, and a failure is left to report exactly when setup or the deciding attempt failed or the switch did |
| FallbackSink.RunsAnnounceThemselves | internal/agent/runtime.go:76-78 | every run of the agent runtime announces itself first and once, which is what the sink relies on |
| ToolCalls.GatheredIsOrderly | internal/agent/runtime.go:360-428 | whatever ids a stream uses, no two gathered calls share one, none is blank, and the builders are exactly those in the order |
| ToolCalls.GatheredIffMentioned | internal/agent/runtime.go:360-428 | exactly the calls some event belongs to are gathered |
| ToolCalls.InterleavingDoesNotMix | internal/agent/runtime.go:367-428 | calls streamed interleaved come out as if each had been streamed alone |
| ToolCalls.CallsAreDescribed | internal/agent/runtime.go:367-448 | the calls of a stream are one for each id, in order of first appearance, and each has the last name and the last extras any of its events gave, and as arguments the trimmed concatenation of the last whole arguments on a start or done event and all deltas of this call after it, an empty object if that is blank; whatever other calls are streamed in between |
| ToolCalls.LastCallIsDescribed | internal/agent/runtime.go:263-282 | a call as it stands after an event is what its events up to there make it, in the same sense |
| ToolCalls.DescribedOnce | internal/agent/runtime.go:367-428 | that description leaves no choice: two calls with one id that meet it are equal |
| ToolCalls.BuildersAreAssembled | internal/agent/runtime.go:367-428 | a builder holds what the events of its own id have given it, and nothing of any other |
| ToolCalls.AnnouncedIff | internal/agent/runtime.go:367-428 | on an ordinary stream a call is announced if and only if one of its events is a start event or its first event is a done event |
| ToolCalls.DeltaThenDoneIsNotAnnounced | internal/agent/runtime.go:388-428 | a call that arrives as an argument delta and a done event is gathered and never announced |
| ToolCalls.InteractivelyAnnouncedOnce | internal/agent/runtime.go:263-288 | on an interactive stream no call is announced twice, and every call reported done has been announced |
| ToolCalls.NormalizedIsNotBlank | internal/agent/runtime.go:469-474 | a normalized id is never blank |
| ToolCalls.TruncationFits | internal/agent/runtime.go:604-617 | truncated output is never longer than allowed and, when the limit has room for the marker, ends between two characters as late as possible, followed by the marker |
| ToolCalls.TruncateUTF8 | internal/agent/runtime.go:604-617 | the loop computes the specification Truncated |
| ToolCalls.TotalIsExactIffItFits | internal/agent/types.go:164-170 | the 64-bit running total is the exact total modulo 2^64, hence exact if and only if the exact total fits |
| ToolCalls.WithinBudgetIffNoOverflow | internal/agent/runtime.go:253-255 | a total that passed the budget check is truly within the budget if and only if it did not overflow |
| ToolCalls.OverflowSlipsPast | internal/agent/runtime.go:357-359 | two reported totals that overflow together pass the check although their exact sum is far beyond the budget |
| ToolCalls.SumConcat | internal/agent/runtime.go:146-146 | adding up stream by stream is adding up all events |
| RunLog.OneSuccessPerCall | internal/agent/runtime.go:494-504 | in every log in order, after a successful execution no execution for the same call id ever follows |
| RunLog.RepeatsComeFromTheRecord | internal/agent/runtime.go:499-504 | a repeated call is answered at once, without authorization, approval, event or execution: with the recorded, possibly truncated result for equal arguments, otherwise with a refusal |
| RunLog.RepeatIsOfTheNamedToolIff | internal/agent/runtime.go:494-504 | an answered repeat is a result of the tool it names if and only if it names the tool that was run under its call id: the record is kept by id and arguments alone |
| Replay.RenamedRepeatIsServed | internal/agent/runtime.go:494-504 | a run in order in which the result of one tool answers a call of another tool that never ran |
| RunLog.NoToolWithoutPermission | internal/agent/runtime.go:506-572 | every execution directly follows its announcement, which directly follows the decision Allow or an approval that the owner was asked for and gave, for that very call |
| RunLog.RequestsShowWholeBlocks | internal/agent/runtime.go:80-196 | every request to the model shows the original messages followed by blocks, each a turn with pairwise distinct call ids answered in order by one message per id or a call-free turn and a nudge; the texts and calls are exactly those of the model's turns so far, the answers exactly the replies given, and there is at most one nudge, and none unless a tool is required |
| RunLog.RepliesTellTheAnswer | internal/agent/runtime.go:183-195 | in every run each reply directly follows the answer to its call and has the content of its result or the text of its error |
| RunLog.AnswersAreReplies | internal/agent/runtime.go:182-197 | the answers in the conversation are the replies of the ordinary streams, in order |
| RunLog.BlocksRetellTurns | internal/agent/runtime.go:154-169 | the blocks of the conversation have the texts and calls of the model's turns, in order; only the last turn may still be without its block |
| RunLog.TurnsAreWhatWasStreamed | internal/agent/runtime.go:222-449 | a turn consists of the text and the calls of the events received since the model was asked (on an interactive stream, the calls as they stood when reported done), all of its text has been passed to the sink in order, and an interactive call is handled right after its done event, as it stood then |
| RunLog.TurnCallsAreDescribed | internal/agent/runtime.go:367-448 | in every run the calls of an ordinary turn are those its stream mentions, in order of first appearance, each as its own events make it |
| RunLog.InteractiveCallIsDescribed | internal/agent/runtime.go:263-300 | in every run a tool handled inside a stream is called as the events of that call up to its done event make it |
| RunLog.NoToolBeyondTheTokenBudget | internal/agent/runtime.go:114-116 | no tool is called for once the reported total exceeds the token budget: the total of the whole run on ordinary streams, that of the stream so far inside an interactive one |
| RunLog.OrdinaryCallAnnouncedIff | internal/agent/runtime.go:384-428 | in every run, when an ordinary turn is complete, a call of it was announced to the sink if and only if it got a start event or its first event was a done event |
| RunLog.InteractiveCallAnnouncedOnce | internal/agent/runtime.go:283-300 | in every run a call handled inside an interactive stream has been announced to the sink in that stream, exactly once |
| RunLog.OrdinaryToolsWaitForTheRequiredOne | internal/agent/runtime.go:159-180 | on ordinary streams no tool is requested before a turn that contains the required one |
| RunLog.SatisfiedByATurn | internal/agent/runtime.go:203-216 | the required choice counts as satisfied only by a turn with a satisfying call |
| RunLog.StartsOnceAndEndsLast | internal/agent/runtime.go:76-78 | run.started is the first event and occurs once, and nothing at all follows run.completed or run.failed |
| RunLog.KnownStaysKnown | internal/agent/runtime.go:579-580 | what has been recorded for a call stays recorded unchanged |
| Verdicts.RunsOnIff | internal/agent/runtime.go:88-198 | with nothing from outside interfering, a run goes on after some streams if and only if each of them was acceptable, judged by the plain sums over the streams before it, and left ordinary calls to answer or the required tool uncalled |
| Verdicts.SucceedsIff | internal/agent/runtime.go:88-203 | it comes to a success with a text if and only if some stream is acceptable and leaves nothing to do, after acceptable ones that all did, and the text is that stream's |
| Verdicts.RunningIsTally | internal/agent/runtime.go:100-101 | while a run goes on, the usage is the sum over all events of all its streams, the calls used are all calls of all streams, the required tool is pending exactly while no stream has called any, and the misses are the streams without calls |
| AgentRuntime.AgentRun.constructor | internal/agent/runtime.go:318-335 | a run before its first step, with the budget's defaults filled in |
| AgentRuntime.AgentRun.RunTool | internal/agent/runtime.go:548-585 | announces, executes and records: the result is the bounded output, a success is in the record before it is announced, and unless tool or sink raise an error there is a result |
| AgentRuntime.AgentRun.Record | internal/agent/runtime.go:573-580 | both maps and the log's record gain exactly this result under this call |
| AgentRuntime.AgentRun.AskOwner | internal/agent/runtime.go:521-542 | the call is cleared only by the owner's approval; every other way out is an error or the denied result; unless an error is raised, the only error is that there is nobody to ask |
| AgentRuntime.AgentRun.Authorized | internal/agent/runtime.go:506-585 | no way from the policy decision to the tool but through permission; a denial is an error result; unless an error is raised, the only errors are an unknown decision and a needed approval with nobody to ask |
| AgentRuntime.AgentRun.HandleTool | internal/agent/runtime.go:476-504 | a call id already recorded changes nothing and is answered from the record exactly when the arguments agree; unless an error is raised from outside, a call gets an error if and only if it is not acceptable, repeats an id with other arguments, or is undecided |
| AgentRuntime.AgentRun.ExecuteTool | internal/agent/runtime.go:476-586 | one request and one answer are added to the log, the log stays in order, repeats and errors are as above, and the run is to end exactly on a fatal error that was raised or on a needed approval with nobody to ask |
| AgentRuntime.AgentRun.ConsumeStream | internal/agent/runtime.go:337-449 | the usage is the sum over the events received in every outcome; on success text and calls are those of the whole stream, the text has been passed on, and the calls announced are exactly those the stream introduces; it fails if and only if the sink or the context raise an error, the stream ends in one, exceeds the token budget at some event, has an unknown event or an unnamed call, and the error says which |
| AgentRuntime.AgentRun.ConsumeInteractiveStream | internal/agent/runtime.go:222-316 | the same for a stream that waits for results: the executed calls are those reported done, in order, and the announcements exactly those of the stream; besides the same causes it fails exactly on a fatal tool error, a refused result or a call over the tool budget |
| AgentRuntime.AgentRun.HearEvent | internal/agent/runtime.go:252-313 | one event of an interactive stream: received, its text or first announcement passed on, and its call run when it is done |
| AgentRuntime.AgentRun.RespondToCall | internal/agent/runtime.go:300-310 | one request, one answer and one reply inside the stream; it fails exactly on a fatal tool error or a refused reply |
| AgentRuntime.AgentRun.AnswerCall | internal/agent/runtime.go:183-196 | one more call of the turn is counted, executed and answered by one tool message |
| AgentRuntime.AgentRun.AnswerCalls | internal/agent/runtime.go:182-197 | all calls of a turn are answered in order, so the turn becomes a whole block, unless and only unless a fatal error ends the run |
| AgentRuntime.AgentRun.NudgeOnce | internal/agent/runtime.go:163-169 | the first miss adds one nudge and goes on, the second and only it fails the run |
| AgentRuntime.AgentRun.OrdinaryTurn | internal/agent/runtime.go:140-197 | a turn fails if and only if an error from outside ends the run, or its stream cannot be read, fails to close, takes the run over the token budget, says nothing and calls nothing, disobeys the required choice or calls too many tools, and its error names such a cause; otherwise calls, or the one nudge, lead to another request in a ready state with the books advanced by this stream, and anything else to a success with the stream's text |
| AgentRuntime.AgentRun.InteractiveTurn | internal/agent/runtime.go:102-139 | the same for an interactive turn, which may not be without text |
| AgentRuntime.AgentRun.TakeTurn | internal/agent/runtime.go:154-197 | what follows a whole ordinary turn: the turn joins the conversation, and the outcome is the one its stream deserves |
| AgentRuntime.AgentRun.TakeInteractiveTurn | internal/agent/runtime.go:117-138 | the same for a turn whose tools have run inside its stream |
| AgentRuntime.AgentRun.StartStream | internal/agent/runtime.go:88-101 | the request shows the conversation so far and demands the required tool exactly until it has been called; no stream comes back exactly when the run is cancelled or the backend refuses |
| AgentRuntime.AgentRun.TakeStep | internal/agent/runtime.go:88-198 | one step leads on with the verdict on the streams still open, to the success they came to, or to a failure that something from outside or the last stream deserves |
| AgentRuntime.AgentRun.Fail | internal/agent/runtime.go:667-686 | the usage so far is returned and reported in the one run.failed event |
| AgentRuntime.AgentRun.Run | internal/agent/runtime.go:50-201 | a run succeeds if and only if the request is well formed, nothing from outside ended it (an interruption, a refusing sink or backend, a fatal tool error, an approval with nobody to ask) and its streams come to a success, and the message is then the text of the last stream; a failure has such a cause, a stream to be refused, or all MaxSteps used; nothing is asked of the model after the verdict; the log stays in order with at most MaxSteps requests and MaxToolCalls tool requests, success keeps MaxTokens and the required choice, and the usage returned is the sum over all events received, except when the sink refuses run.completed |
| AgentRuntime.GatheredCallsAreDistinct | internal/agent/runtime.go:437-448 | the calls of a turn have pairwise distinct ids |

## Left out

- Real cryptography, key derivation, hashing and randomness: the AEAD is ideal, hashes of canonical arguments are taken as injective, and salts, nonces and ids are parameters.
- Version 1 sealed envelopes: one AEAD call with size checks; only the framing rules that tell the versions apart are modelled.
- JSON, zip, base64, SQLite and file-system details: archives are byte sequences, directories are sequences of names and sizes, the header codec is a pair of functions that undo each other, and the binary-path check is an arbitrary predicate.
- Wall-clock time, contexts and timers: a clock that never goes back, and steps that may happen at any point.
- Streams.WriteContext: an input that returns nothing without ending may do so only a bounded number of times, so that the loop ends; the original would spin on it.
- Export.EncryptPayloadStream: says what success means and what a size refusal means, but promises success only for the copy of one source (Streams.WriteContext).
- Sealer.ChunkSealer.Guarantees: makes no nonce claim for plaintext written after a failed Close, because none holds (Sealer.WriteAfterFailedClose); no caller does that.
- Export.WritePayload: the zip format is the archive writer's own bytes; a member is copied to its entry before the entry's bytes go on to the buffer, where the original interleaves the two.
- TurnGate.RunsStayGood: values instead of a class, because the claims are about several goroutines interleaving; the nil lease, used without a run, is not modelled.
- ApprovalGate.RunsStayGood: values instead of a class for the same reason; the recording of the waiting_approval run state, audit payloads and permission scopes appear only as whether they succeed.
- ChatEmitter.ChatEmitter.Emit: provider, model, usage and time headers of events are reduced to the time stamp of a delta; panics in the delivery callback are not modelled.
- ChatEmitter.ChatEmitter.Sink: tool and approval records are reduced to whether the store took them.
- FallbackSink.RunAttempts: preparing the prompt between setup and the attempt is left out, as any failure there ends the run before a model attempt; a target that refuses run.completed after nothing visible was emitted is not considered, as the emitter never refuses it.
- AgentRuntime.AgentRun.Run: every stream ends after finitely many events, a backend returns a stream or an error, redaction of error texts is a given, and of a tool with and without an approval-aware body only one body is modelled.
- AgentRuntime.AgentRun.HandleTool: the registry does not change during a run.
- ContextWindow.BoundedTranscript: text is a sequence of Unicode code points; invalid UTF-8 is not modelled.
- Wails bindings, views, provider adapters, prompts, the scheduler, peer dialogues, delegation, plugins, personality and memory extraction: their key logic is elsewhere or carries no comparable property.
