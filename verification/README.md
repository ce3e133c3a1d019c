# Verified models of the voice gateway, chunkers and context engine

A Dafny project that models the hardest parts of the repository and proves what they promise.
Check it with `dafny verify dfyconfig.toml`.

| area | files | what is modelled |
|---|---|---|
| SIP gateway (Rust) | `Sip.dfy`, `SipRoundTrip.dfy`, `SipMedia.dfy`, `SipEngine.dfy`, `SipEngineRuns.dfy`, `SipAnswers.dfy`, `SipEngineEnds.dfy`, `SipBridges.dfy`, `SipAcks.dfy`, `SipWitnesses.dfy` | parsing and building messages; the single-task engine with its port pool, pending invites, dialogs, cached BYE answers and sent INVITEs, as a class and as a state machine |
| RTP playout (Rust) | `Playout.dfy` | packets, the 20 ms playout task, the header strip on receive |
| voice loop (Python) | `VoiceLoop.dfy`, `BargeIn.dfy`, `ToolResults.dfy` | barge-in cancellation, composed with the gateway's playout; the locked queue of tool results |
| chunking and budgets (both) | `Utf8.dfy`, `Chunking.dfy`, `ChunkWindows.dfy`, `Chunkers.dfy`, `ChunkAgreement.dfy`, `Letters.dfy`, `RagChunks.dfy`, `EmbedRetry.dfy`, `EmbedCoverage.dfy`, `RunIngestion.dfy` | the byte and the character chunker, the two UTF-8 trimmers, the embedding worklist, the upload budgets |
| context engine (Python) | `ContextModels.dfy`, `ContextEngine.dfy`, `ContextGrowth.dfy`, `ContextRepository.dfy`, `Provenance.dfy`, `PromptIds.dfy` | per-owner indexes and the cached views, source offsets, compact prompt ids |
| SMS threads (Python) | `SmsThreads.dfy`, `SmsOutcomes.dfy` | opt-out, the reply limit, handlers that suspend and overlap |

`Strings.dfy` holds the string operations of the two standard libraries that the rest relies on.
Code that works by updating variables is a method or a class whose postcondition ties it to a
function of the old state; the laws are proved of that function, over whole runs. A fallible
operation returns an `Option`, where `None` stands for the exception or error return.

## What does not hold as one might expect

For each, a witness and the condition under which the property holds; the conditions are exact
unless said otherwise.

- Port ownership: CANCEL frees the port, and a setup that succeeds later frees it again, so two
  calls can end up on one port (`LateResultSharesAPort`, a run of received texts). An expired invite
  gives its port back only if its setup later succeeds (`ExpiryLeaksThePort`). `TrackingStep` and
  `OwnershipStep` are the conditions.
- Setup results are matched by Call-ID alone. A call that is cancelled and invited again can be opened
  by the first setup's result: its 200 OK names one port while its media bridge listens on another,
  which a third call may hold (`OvertakenResultMisroutes`). `BridgeStep` and `BridgedExactly` are the
  conditions; `OwnResultsKeepBridges` is what follows when no result is overtaken.
- A Contact whose `>` precedes its `<` makes the URI slice panic and ends the engine task, in an INVITE
  that is answered (`CrossedContactEndsTheTask`) and in a response to an INVITE that the gateway sent
  (`CrossedReplyEndsTheTask`). `AbortStep` and `StoppedExactly` are the conditions; `EngineSurvives` is
  what follows for received messages.
- An INVITE without a Call-ID is meant to get a 400 and gets nothing, since a response cannot be built
  without one; `InviteWithoutCallId` is the condition.
- ACKs, named after final responses in the code, are sent whatever the status is (`EveryReplyIsAcked`;
  `AckedExactly` is the condition). A failure that arrives again gets no second ACK, although section
  17.1.1.2 of RFC 3261 asks for one (`AckedAgainIff`).
- A BYE whose target URI holds a space is not readable as a request (`SpacedContactGetsNoBye`);
  `ByeRoundTrip` is the condition, and `AckRoundTrip` the same one for ACKs.
- An interruption silences the response whose id was announced last, which need not be the one being
  spoken: a response announced without an id and interrupted before its first delta goes on
  (`IdlessResponseSlipsThrough`). `InterruptionSilencesTheLast` is the condition.
- The two chunkers always differ on a text with one of U+001C to U+001F (`SeparatorsAlwaysDiffer`,
  `SeparatorDiffers`) and may differ on non-ASCII text (`NonAsciiDiffers`). The condition is exact
  where Python returns at most one chunk (`ShortTextsAgree`); beyond that, plain ASCII is sufficient
  (`ChunkersAgree`). The two trimmers differ exactly when what Rust keeps of a text that is
  too long ends in such a separator (`TrimmersAgree`; `TrimmersDiffer` is a text).
- Chunks come in order but two may start at the same character (`StartsCanCoincide`);
  `StartsCoincide` is the condition.
- The sidecar returns no chunks, and no error, for a document without sections even under limits
  that the local chunker rejects; `FromSidecar` says exactly when it answers.
- An extractor that files an entity or a relationship under another owner changes that owner's
  context without making its view stale (`ForeignLinkGoesUnnoticed`); `OthersUntouchedIff` is the
  condition. Signals and items may cite anything.
- A chunk id that looks like "c" and a number can capture another chunk's citation
  (`LookAlikeMisleads`); `CitationResolves` is the condition.
- A reply that is being generated while its number opts out is still sent (`ReplyAfterOptOut`);
  `StepHonoursOptOut` is the condition. Overlapping replies are counted once, so a conversation can
  get three (`OverlapBreaksTheLimit`); `CountedStep` is the condition.

## Model

| member | source | states |
|---|---|---|
| `Sip.LookupFirst` | rust-sbc-gateway/src/sip.rs:46-69 | the incrementally kept first-value index answers like a scan of the fields for the first of that name |
| `Sip.ParseHeaders` | rust-sbc-gateway/src/sip.rs:429-442 | the loop yields every field up to the first blank line, in order, skipping lines without a colon, with a correct index |
| `Sip.BuildSipMessage` | rust-sbc-gateway/src/sip.rs:539-550 | the payload is every line ended by CRLF, an empty line, the body |
| `Sip.PrependRoutes` | rust-sbc-gateway/src/sip.rs:492-511 | nothing without a Via; otherwise Via and then Record-Route lines, in order, between the first line and the rest |
| `Sip.BuildResponse` | rust-sbc-gateway/src/sip.rs:454-490 | the line-by-line builder produces the text that the round trips below are about, or nothing when a required field is missing |
| `Sip.BuildOk` | rust-sbc-gateway/src/sip.rs:139-171 | likewise for the 200 OK with its SDP offer |
| `Sip.ExtractMediaAddr` | rust-sbc-gateway/src/sip.rs:334-356 | the last address and the last audio port of the body win; an unreadable address or a missing port gives nothing |
| `SipRoundTrip.MessageReadsBack` | rust-sbc-gateway/src/sip.rs:429-452 | a message built from clean fields splits back into its first line, its fields and its body |
| `SipRoundTrip.BareLinesSplit` | rust-sbc-gateway/src/sip.rs:444-452 | a message with bare LF line ends splits at its first blank line as well |
| `SipRoundTrip.ParsedValuesAreClean` | rust-sbc-gateway/src/sip.rs:251-270 | every field value the parser returns can be written again and read back |
| `SipRoundTrip.ResponseReadsBack` | rust-sbc-gateway/src/sip.rs:454-511 | a built response parses to the given status and reason with Via, Record-Route, From, Call-ID and CSeq copied and To tagged at most once |
| `SipRoundTrip.ResponseRoundTrip` | rust-sbc-gateway/src/sip.rs:454-511 | for every text the request parser accepts: a response exists exactly when Via, From, To, Call-ID and CSeq do, and then reads back as section 8.2.6.2 of RFC 3261 asks |
| `SipRoundTrip.OkMediaAddr` | rust-sbc-gateway/src/sip.rs:513-537 | the SDP of the 200 OK reads back as exactly the local host and RTP port |
| `SipRoundTrip.OkRoundTrip` | rust-sbc-gateway/src/sip.rs:139-171 | for every accepted request text the 200 OK parses, its Content-Length is the byte length of its body, the copied fields and the media address read back |
| `SipRoundTrip.ByeRoundTrip` | rust-sbc-gateway/src/sip.rs:232-249 | a BYE parses exactly when its target is addressable, and then carries the dialog's From, To and Call-ID and the next CSeq |
| `SipRoundTrip.AckRoundTrip` | rust-sbc-gateway/src/sip.rs:191-230 | an ACK parses exactly when its target is addressable, and then carries the INVITE's From, Call-ID and CSeq number and the response's To |
| `SipRoundTrip.TaggedOnce` | rust-sbc-gateway/src/sip.rs:465-470 | the To of a response has a tag, its own if it had one, and is never tagged twice |
| `SipMedia.LastLinesDecide` | rust-sbc-gateway/src/sip.rs:334-356 | over all lines: the scan fails if and only if some connection line has an address that cannot be read; otherwise the last such line and the last audio line decide, and neither any other |
| `SipEngine.PortPool.Allocate` | rust-sbc-gateway/src/sip_engine.rs:63-79 | takes the lowest free port and fails only when the whole range is in use |
| `SipEngine.PortPool.Release` | rust-sbc-gateway/src/sip_engine.rs:76-79 | removes just that port |
| `SipEngine.FirstFree` | rust-sbc-gateway/src/sip_engine.rs:72-75 | the least port of the range not in use, or none if all are |
| `SipEngine.Engine.HandleInvite` | rust-sbc-gateway/src/sip_engine.rs:393-535 | new state and datagrams of an INVITE: resend, ignore, 400, refusal or a pending setup on a fresh port |
| `SipEngine.Engine.HandleBye` | rust-sbc-gateway/src/sip_engine.rs:537-586 | a repeated BYE gets the cached answer; a first one is answered, cached and closes the dialog |
| `SipEngine.Engine.HandleCancel` | rust-sbc-gateway/src/sip_engine.rs:587-605 | answers 200, and for a pending invite frees its port and sends 487 |
| `SipEngine.Engine.HandleSetupDone` | rust-sbc-gateway/src/sip_engine.rs:170-277 | opens the dialog, refuses, or, when the invite is no longer pending, frees the port |
| `SipEngine.Engine.Close` | rust-sbc-gateway/src/sip_engine.rs:149-163 | removes the dialog, frees its port, moves it from active to torn down |
| `SipEngine.Engine.HandleResponse` | rust-sbc-gateway/src/sip_engine.rs:612-684 | new state and ACK of a response to a sent INVITE; a failure ends its transaction, a crossed Contact the task |
| `SipEngine.Engine.Expire` | rust-sbc-gateway/src/sip_engine.rs:686-697 | drops pending invites after 60 s, cached answers and sent INVITEs after 300 s, and releases no port |
| `SipEngine.Engine.Handle` | rust-sbc-gateway/src/sip_engine.rs:124-330 | one turn of the loop, for requests, responses, commands and setup results, is one step of the state machine, with expiry after every datagram |
| `SipAnswers.InviteAnswered` | rust-sbc-gateway/src/sip_engine.rs:393-535 | in every state a new INVITE gets 100, and 180 if configured, with one tag, back to its sender; then 503 under another tag if every port is in use, 488 under the call's tag if its media is unusable, otherwise a setup on the lowest free port; nothing else changes |
| `SipAnswers.InviteIgnored` | rust-sbc-gateway/src/sip_engine.rs:413-419 | an INVITE for a pending invite gets no answer and changes nothing |
| `SipAnswers.InviteWithoutCallId` | rust-sbc-gateway/src/sip_engine.rs:421-429 | an INVITE without a Call-ID gets no answer at all; the 400 goes out only to a Call-ID that spells the placeholder |
| `SipAnswers.ByeCloses` | rust-sbc-gateway/src/sip_engine.rs:537-586 | in every state a BYE not answered before removes exactly its dialog, frees exactly its port, moves one call from active to torn down, and gets a 200 that mirrors it, to its sender |
| `SipAnswers.ByeAnsweredOnce` | rust-sbc-gateway/src/sip_engine.rs:537-586 | after any events within 300 s the same BYE gets the very datagram that answered it first, and changes nothing else |
| `SipAnswers.CancelDrops` | rust-sbc-gateway/src/sip_engine.rs:587-605 | a CANCEL gets a 200 that mirrors it; a pending invite is dropped, its port freed, and its sender gets a 487 that mirrors the invite under its tag |
| `SipAnswers.SetupFails` | rust-sbc-gateway/src/sip_engine.rs:258-277 | a failed setup refuses the invite with a 503 to its sender, frees its port and counts it as rejected |
| `SipAnswers.SetupInVain` | rust-sbc-gateway/src/sip_engine.rs:182-209 | a success for an invite that cannot be answered, or whose 200 OK cannot be sent, opens nothing and frees the port |
| `SipAnswers.SetupAnswers` | rust-sbc-gateway/src/sip_engine.rs:182-257 | a success otherwise sends one 200 OK to the caller, which mirrors the invite, has the gateway as Contact and offers host and port; the call is open with that text, those ports, and the caller's Contact as its target |
| `SipAnswers.SetupLate` | rust-sbc-gateway/src/sip_engine.rs:170-180 | a result for no pending invite sends nothing and frees only the port it names |
| `SipAnswers.BackendCloses` | rust-sbc-gateway/src/sip_engine.rs:149-163 | an end from the backend closes exactly that call and sends one datagram to its remote target |
| `SipAnswers.OtherRequests` | rust-sbc-gateway/src/sip_engine.rs:606-609 | any other datagram but a response gets no answer and touches no call |
| `SipAnswers.NothingOldIsKept` | rust-sbc-gateway/src/sip_engine.rs:686-697 | after any datagram no pending invite is 60 s old, no cached answer and no sent INVITE 300 s |
| `SipEngineRuns.EveryRunIsBooked` | rust-sbc-gateway/src/sip_engine.rs:149-277 | on every run pending and open Call-IDs are disjoint, the gauge is the number of dialogs, accepted = open + torn down |
| `SipEngineRuns.GaugeNeverUnderflows` | rust-sbc-gateway/src/sip_engine.rs:149-163 | the gauge is positive whenever it is decremented, so the wrapping subtraction never wraps |
| `SipEngineRuns.TrackingStep` | rust-sbc-gateway/src/sip_engine.rs:170-180 | from any accounted state, the pool stays the disjoint union of held and leaked ports exactly when the step does not free a port that a call holds |
| `SipEngineRuns.EveryPortIsAccountedFor` | rust-sbc-gateway/src/sip_engine.rs:393-605 | on every run without such a step, CANCEL and expiry included, no two calls share a port and the pool is the held ports plus those leaked by expiry |
| `SipEngineRuns.CleanupTracked` | rust-sbc-gateway/src/sip_engine.rs:686-697 | expiry leaks exactly the ports of the invites it drops |
| `SipEngineRuns.OwnershipStep` | rust-sbc-gateway/src/sip_engine.rs:149-277 | exact ownership survives a step if and only if it neither expires an invite nor is a late result for a held port |
| `SipEngineRuns.TimelyRunsOwnTheirPorts` | rust-sbc-gateway/src/sip_engine.rs:63-79 | on every run on which results meet a pending invite of their Call-ID and none expires, the pool is exactly the ports of pending invites and dialogs, one call each |
| `SipEngineRuns.RefusedOnlyWhenFull` | rust-sbc-gateway/src/sip_engine.rs:393-535 | on timely runs allocation fails if and only if calls hold every port of the range |
| `SipEngineRuns.ArrivalsAreGenuine` | rust-sbc-gateway/src/sip_engine.rs:280-324 | every datagram text becomes an event whose request can be answered from its fields |
| `SipEngineRuns.EveryRunAnswers` | rust-sbc-gateway/src/sip_engine.rs:182-254 | on every run each dialog's stored 200 OK, signalling data and Call-ID belong together, and the SDP of that 200 OK names the gateway's host and the dialog's own RTP port |
| `SipEngineRuns.ByeBelongsToDialog` | rust-sbc-gateway/src/sip_engine.rs:149-156 | on every run the BYE sent for a dialog has From = To of its 200 OK, To = From, the same Call-ID (sections 12.1.1 and 12.2.1.1 of RFC 3261), and is readable exactly when its target is addressable |
| `SipEngineRuns.RingingAndOkAgree` | rust-sbc-gateway/src/sip.rs:131-171 | for one request and tag, the built 180 and 200 OK parse back with the same To |
| `SipEngineRuns.EveryRunIsTraced` | rust-sbc-gateway/src/sip_engine.rs:393-447 | on every run each pending invite and each dialog goes back to one received INVITE, whose request, tag and two ends it keeps |
| `SipEngineRuns.OneTagPerCall` | rust-sbc-gateway/src/sip_engine.rs:149-254 | on every run the 180 sent for the INVITE of an open dialog and the BYE of that dialog carry one tag, and the BYE's To is that INVITE's From |
| `SipEngineRuns.DuplicateInvite` | rust-sbc-gateway/src/sip_engine.rs:398-419 | a duplicate INVITE for an open dialog resends the stored text, takes no port and starts no setup |
| `SipEngineRuns.DialogIsStable` | rust-sbc-gateway/src/sip_engine.rs:398-447 | a dialog does not change while it is open, so all duplicates get byte-identical text |
| `SipEngineEnds.AbortStep` | rust-sbc-gateway/src/sip_engine.rs:124-330 | a running task ends in a step if and only if a setup succeeds for a pending, answerable invite with a crossed Contact and its 200 OK is sent, or a response with a To and a crossed Contact answers an INVITE that the gateway sent and remembers, or the commands are closed |
| `SipEngineEnds.StoppedExactly` | rust-sbc-gateway/src/sip_engine.rs:124-330 | a run has stopped if and only if one of its steps was such a step |
| `SipEngineEnds.EngineSurvives` | rust-sbc-gateway/src/sip.rs:552-557 | while the commands are open the task survives every run on which no received INVITE, and no response to an INVITE that the gateway sent and remembers, has a crossed Contact |
| `SipBridges.EveryRunFilesSetups` | rust-sbc-gateway/src/sip_engine.rs:480-535 | on every run each pending invite keeps the Call-ID and port of the setup task started for it |
| `SipBridges.BridgeStep` | rust-sbc-gateway/src/sip_engine.rs:170-254 | from a state whose bridges all listen on the advertised port, a step keeps that if and only if it opens no call with a result for another port than the pending invite's |
| `SipBridges.BridgedExactly` | rust-sbc-gateway/src/sip_engine.rs:170-254 | all along a run the bridges listen on the advertised ports if and only if no step of it is such a step |
| `SipBridges.OwnResultsKeepBridges` | rust-sbc-gateway/src/sip_engine.rs:170-254 | so they do on every run on which each result that meets a pending invite is that of the setup started for it, late results included |
| `SipAcks.OutboundWasSent` | rust-sbc-gateway/src/sip_engine.rs:337-369 | on every run, what is remembered under a Call-ID is an INVITE that was sent with it |
| `SipAcks.AckedExactly` | rust-sbc-gateway/src/sip_engine.rs:612-684 | one ACK goes out if and only if the response answers a remembered INVITE and has a To and no crossed Contact, whatever its status |
| `SipAcks.AckAnswersTheResponse` | rust-sbc-gateway/src/sip.rs:191-230 | on every run each ACK goes to the address of the response's Contact or back to its sender, names the Contact's URI or else the INVITE's, carries Call-ID and To of the response and From and CSeq number of an INVITE sent before (section 17.1.1.3 of RFC 3261), and is readable if and only if its target is addressable |
| `SipAcks.AckIsRemembered` | rust-sbc-gateway/src/sip_engine.rs:656-672 | a transaction that goes on is marked as acknowledged if and only if it was or this ACK went out |
| `SipAcks.AckedAgainIff` | rust-sbc-gateway/src/sip_engine.rs:649-677 | an acknowledged response that arrives again is acknowledged again if and only if it is no failure and its INVITE had not expired |
| `SipWitnesses.TextArrives` | rust-sbc-gateway/src/sip_engine.rs:280-301 | every text of the witnesses arrives as the INVITE or CANCEL it spells, answerable and with usable media |
| `SipWitnesses.LateResultSharesAPort` | rust-sbc-gateway/src/sip_engine.rs:170-180 | for every caller and every pool of one port, five events, the requests given as text, after which two calls hold the port |
| `SipWitnesses.OvertakenResultMisroutes` | rust-sbc-gateway/src/sip_engine.rs:170-257 | for every caller with a usable Contact and every pool of two ports or more: after INVITE a, CANCEL a, INVITE b, INVITE a, all texts, the first setup's result opens a on the second port with its bridge on the port of b |
| `SipWitnesses.ExpiryLeaksThePort` | rust-sbc-gateway/src/sip_engine.rs:686-697 | for every caller and every non-empty pool: sixty seconds after the INVITE any datagram that is no request leaves its port in the pool with no call holding it; success of the setup frees it, failure does not |
| `SipWitnesses.CrossedContactEndsTheTask` | rust-sbc-gateway/src/sip.rs:552-557 | for every caller with a crossed Contact and every non-empty pool, one INVITE text and its setup end the task |
| `SipWitnesses.CrossedReplyEndsTheTask` | rust-sbc-gateway/src/sip.rs:204-213 | for every INVITE that the gateway sends, a response text of any status with a crossed Contact ends the task, with no INVITE received |
| `SipWitnesses.EveryReplyIsAcked` | rust-sbc-gateway/src/sip_engine.rs:648-656 | for every INVITE that the gateway sends, a response text of any status with a usable Contact gets one ACK |
| `SipWitnesses.CrossedExists` | rust-sbc-gateway/src/sip.rs:552-557 | "><" is such a Contact |
| `SipWitnesses.SpacedContactGetsNoBye` | rust-sbc-gateway/src/sip.rs:232-249 | for every caller whose Contact brackets a URI of two words and every non-empty pool, the INVITE opens a dialog whose BYE parses as no request |
| `Playout.PacketReadsBack` | rust-sbc-gateway/src/rtp.rs:17-35 | a packet says version 2, nothing extra, payload type 0, and gives back its sequence number, timestamp, source and, twelve bytes in, its payload (section 5.1 of RFC 3550) |
| `Playout.TimestampsCountSamples` | rust-sbc-gateway/src/bridge.rs:186-239 | for any events, packet k carries 160 samples and as its timestamp the number of samples in the frames before it |
| `Playout.RtpPacketBuilder.BuildPacket` | rust-sbc-gateway/src/rtp.rs:17-35 | builds the packet of the current counters and advances them modulo 2^16 and 2^32 |
| `Playout.PlayoutConserves` | rust-sbc-gateway/src/bridge.rs:186-239 | for every interleaving of append, clear and tick, what was appended is what was framed or cleared, then what is buffered, in order |
| `Playout.EveryFrameIsFull` | rust-sbc-gateway/src/bridge.rs:208-223 | every frame is 160 bytes: a piece of the stream and silence |
| `Playout.PaddedOnlyWhenDrained` | rust-sbc-gateway/src/bridge.rs:213-221 | a tick pads only when it empties the buffer |
| `Playout.TakeFrame` | rust-sbc-gateway/src/bridge.rs:213-221 | the inner loop takes the front of the buffer into a frame |
| `Playout.PlayoutTask.Handle` | rust-sbc-gateway/src/bridge.rs:193-239 | one turn of the task is one step, and the packets sent are those its frames call for |
| `Playout.Play` | rust-sbc-gateway/src/bridge.rs:186-239 | any event sequence sends packet k with sequence k mod 2^16 and timestamp 160k mod 2^32 around frame k |
| `Playout.PacketsCarryFrames` | rust-sbc-gateway/src/bridge.rs:156-164 | stripping twelve bytes from packet k gives frame k |
| `VoiceLoop.VoiceHandler.Handle` | app/api/routes/voice.py:655-701 | new tracking state, messages to the stream and cancel request for each provider event |
| `VoiceLoop.VoiceHandler.DecideToolResult` | app/api/routes/voice.py:607-615 | under the lock a result is queued while a response is active and handed back for sending otherwise |
| `VoiceLoop.VoiceHandler.TakeReady` | app/api/routes/voice.py:617-620 | the flush takes the whole queue and empties it |
| `BargeIn.StepSound` | app/api/routes/voice.py:664-696 | the invariant that ties the filter, the messages on the wire and the playout buffer together survives every step |
| `BargeIn.NothingAfterTheClear` | rust-sbc-gateway/src/bridge.rs:197-221 | on every run, once the gateway processed the clear of an interrupted response, none of its samples enters a frame again |
| `BargeIn.InterruptionSendsClear` | app/api/routes/voice.py:664-677 | speech during a response cancels it and puts its clear on the wire |
| `BargeIn.SpeechSendsClear` | app/api/routes/voice.py:664-677 | on every run with an open stream, speech puts exactly one clear on the wire, response or not, and asks the provider to cancel if and only if a response is going on |
| `BargeIn.NothingSaidBefore` | rust-sbc-gateway/src/bridge.rs:197-221 | on every run, once the gateway took that clear, no sample that was on the wire or buffered when the caller spoke, of whatever response, enters a frame |
| `BargeIn.UninterruptedAudioPasses` | app/api/routes/voice.py:679-696 | on every run no non-empty delta of an uninterrupted response is dropped |
| `BargeIn.InterruptedAudioStops` | app/api/routes/voice.py:683-684 | and every delta of an interrupted one is |
| `VoiceLoop.InterruptionSilencesTheLast` | app/api/routes/voice.py:655-684 | after any provider events, an interruption filters the audio of an id, until the next interruption, if and only if that id was the last one a created event or a delta announced |
| `VoiceLoop.EndsExactly` | app/api/routes/voice.py:767-793 | after any events the call is ended if and only if a response is done for the first time after a tool asked for the end; afterwards nothing is sent |
| `BargeIn.IdlessResponseSlipsThrough` | app/api/routes/voice.py:655-671 | a response announced without an id goes on when interrupted before its first delta and is filtered when interrupted after it |
| `ToolResults.StepPlaces` | app/api/routes/voice.py:603-645 | a step moves runs between running, queued, in transit and sent without losing or duplicating one |
| `ToolResults.EveryResultInOnePlace` | app/api/routes/voice.py:603-645 | on every interleaving each started run is in exactly one place, once; the queue is non-empty only while a response is active or its flush is due; queued results leave in order |
| `ToolResults.ResultsWaitForTheResponse` | app/api/routes/voice.py:603-615 | on every interleaving a result that comes while a response is in progress is queued and any other is sent by its run |
| `ToolResults.SentAtMostOnce` | app/api/routes/voice.py:614-622 | no result is sent twice |
| `ToolResults.AtTheEnd` | app/api/routes/voice.py:800-805 | when the handler has ended, what was not sent is exactly what is still queued, and that is nothing if no response was active |
| `Utf8.DecodePrefix` | app/services/run_ingestion.py:352-356 | decoding a cut encoding with errors ignored gives exactly the characters that fit (section 3 of RFC 3629) |
| `Utf8.FittingIsLongest` | text-tools/src/text.rs:134-143 | the specified prefix fits the budget and no longer one does |
| `Utf8.TrimRust` | text-tools/src/text.rs:134-143 | the boundary loop keeps the right-trimmed longest fitting prefix |
| `Utf8.PythonKeepsFitting` | app/services/run_ingestion.py:348-357 | so does the Python trimmer, with the flag set exactly when the text is too long |
| `Utf8.TrimmersAgree` | app/services/run_ingestion.py:348-357 | same flag always; same text if and only if the text fits or what Rust keeps does not end in U+001C to U+001F |
| `Utf8.TrimmersDiffer` | text-tools/src/text.rs:134-143 | "a", any of the four, "bc" cut at two bytes keeps it in Rust and loses it in Python |
| `Utf8.BoundaryAtOrBefore` | text-tools/src/text.rs:281-287 | the offset of the last character boundary at or before the index |
| `Utf8.BoundaryAtOrAfter` | text-tools/src/text.rs:289-295 | the offset of the first boundary at or after it |
| `Chunking.WindowIsSound` | text-tools/src/text.rs:264-279 | a window is not empty, fits the size and ends inside the text |
| `Chunking.WindowsTile` | text-tools/src/text.rs:20-60 | the windows start at the beginning, end at the end, advance strictly, fit the size and leave no gap |
| `ChunkWindows.ChunksAreWellCut` | text-tools/src/text.rs:20-60 | the chunks of a long text are the trimmed windows of a tiling in which every window ends after the last usable occurrence of the best usable separator, or as far as fits, and the next starts at the least position past its start and within the overlap of its end |
| `ChunkWindows.SharedPart` | app/services/rag/chunking.py:63-71 | so consecutive windows share exactly the overlap in characters and at most three bytes less in bytes, or, where the window is no longer than the overlap, start one character apart |
| `Letters.NormalizeKeepsLetters` | text-tools/src/text.rs:8-18 | normalising drops nothing but white space |
| `Letters.NormalizeKeepsWords` | app/services/rag/extraction.py:66-71 | and keeps the words as they are |
| `Letters.ChunksAreWhole` | text-tools/src/text.rs:20-60 | for every text and valid limits the letters of the chunks are slices of the letters of the text, one after the other without a gap, to the end |
| `Letters.WholeHoldsEveryLetter` | app/services/rag/chunking.py:41-72 | so every letter of the text is in some chunk |
| `Chunking.ChunksCover` | text-tools/src/text.rs:20-60 | the spans of the chunks never step back and every non-space position of the normalised text lies in one |
| `Chunking.ChunksAreGood` | text-tools/src/text.rs:20-60 | chunk i is the slice of the normalised text at span i, not empty and within the size, in bytes for Rust and characters for Python |
| `Chunking.StartsCoincide` | text-tools/src/text.rs:45-57 | two windows give chunks with the same start if and only if only white space lies between their starts |
| `Chunkers.FindSplitPointRust` | text-tools/src/text.rs:264-279 | the byte search finds the specified character split |
| `Chunkers.ChunkText` | text-tools/src/text.rs:20-60 | the byte loop terminates, slices only at character boundaries and yields the specified chunks, or rejects the limits |
| `Chunkers.FindSplitPointPython` | app/services/rag/chunking.py:75-85 | the character search finds the specified split |
| `Chunkers.SplitTextIntoChunks` | app/services/rag/chunking.py:41-72 | the character loop terminates and yields the specified chunks, or rejects the limits |
| `ChunkAgreement.SameNormalForm` | text-tools/src/text.rs:8-18 | joining words and collapsing spaces agree on every text without U+001C to U+001F |
| `ChunkAgreement.ChunkersAgree` | app/services/rag/chunking.py:41-85 | on every ASCII text without those, and all valid limits, both chunkers return the same list |
| `ChunkAgreement.SeparatorsAlwaysDiffer` | text-tools/src/text.rs:8-18 | on every text with one of U+001C to U+001F, for all limits, the two chunk lists differ |
| `ChunkAgreement.ShortTextsAgree` | app/services/rag/chunking.py:55-59 | where Python returns at most one chunk, the lists agree if and only if the text has none of those and its normal form fits the size in bytes |
| `RagChunks.BuildRagChunks` | app/services/rag/chunking.py:9-38 | the prepared chunks of all sections, numbered through, or an error for bad limits |
| `RagChunks.FromSidecar` | app/services/text_tools.py:135-159 | the sidecar answers exactly when it accepts the limits and every call gets through |
| `RagChunks.BuildWithOptionalTextTools` | app/services/text_tools.py:121-172 | which of the two chunkers prepared the result, for every failure |
| `RagChunks.NumberedInOrder` | app/services/rag/chunking.py:23-38 | indexes run 0, 1, 2 over the document |
| `RagChunks.SamePrepared` | app/services/text_tools.py:121-172 | on plain documents the prepared chunks are the same on either path |
| `EmbedCoverage.DocumentIsPrepared` | app/services/rag/chunking.py:9-38 | the prepared chunks are, section by section in order, parts that make up the section, under its page and location |
| `RagChunks.NonAsciiDiffers` | text-tools/src/text.rs:28-40 | sixty two-byte letters: one chunk in Python, more in Rust |
| `RagChunks.SeparatorDiffers` | text-tools/src/text.rs:8-18 | "a", U+001C, "b" is one chunk unchanged in Rust and the chunk "a b" in Python |
| `RagChunks.StartsCanCoincide` | app/services/rag/chunking.py:63-71 | a text whose second and third chunk start at the same character |
| `EmbedRetry.PiecesAreSmaller` | app/services/rag/local_postgres.py:150-173 | every retry piece is strictly shorter than its parent and there are no more pieces than characters |
| `EmbedRetry.SplitIsLighter` | app/services/rag/local_postgres.py:117-123 | a measure of the worklist drops with every split |
| `EmbedCoverage.PiecesDivide` | app/services/rag/local_postgres.py:150-173 | the retry pieces make up the text they were split from, without a gap, at most half as long or 100 characters, under its page and location |
| `EmbedCoverage.PiecesAreCut` | app/services/rag/local_postgres.py:150-173 | they are the chunks under half the length, at least 100 and at most the chunk size, with a tenth of that as overlap unless the setting is less |
| `EmbedCoverage.LeavesAreWhole` | app/services/rag/local_postgres.py:104-138 | however often a chunk is split, what comes out makes up the chunk |
| `EmbedCoverage.OtherFailuresAreFinal` | app/services/rag/local_postgres.py:141-148 | only a text over 100 characters that the provider calls too long is tried again |
| `EmbedCoverage.EmbedPreparedChunks` | app/services/rag/local_postgres.py:104-138 | the worklist ends for every provider; on success the items, indexed 0 to n-1, make up every prepared chunk in document order, and each has the vector that the provider answered for its text |
| `EmbedRetry.ResultIsAForest` | app/services/rag/local_postgres.py:104-138 | the result is the leaves, left to right, of a forest over the prepared chunks in document order |
| `EmbedRetry.LeavesInherit` | app/services/rag/local_postgres.py:165-173 | every leaf keeps its chunk's page and location |
| `RunIngestion.TrimOfText` | app/services/run_ingestion.py:348-357 | what the trimmer keeps of a normalised text, and exactly when it keeps something |
| `RunIngestion.KeptExactly` | app/services/run_ingestion.py:76-183 | an upload is kept if and only if it passes the checks and its first character fits; then a prefix is kept, whole unless marked trimmed |
| `RunIngestion.RefusalIsExplained` | app/services/run_ingestion.py:76-183 | a refusal names the upload and the first reason that applies |
| `RunIngestion.DecideUpload` | app/services/run_ingestion.py:76-183 | the loop body's branches, in order, give the specified outcome and reason |
| `RunIngestion.OutcomeIsFinal` | app/services/run_ingestion.py:146-173 | an upload's outcome depends only on it, its position and the bytes kept before it |
| `RunIngestion.IngestFiles` | app/services/run_ingestion.py:76-188 | each upload is decided after the bytes kept before it and lands in exactly one list, in upload order |
| `RunIngestion.UploadsAreAccountedFor` | app/services/run_ingestion.py:76-188 | accepted + rejected = uploads, at most `maxFiles` accepted, kept bytes within the budget |
| `RunIngestion.PastedFits` | app/services/run_ingestion.py:63-74 | the stored notes are a prefix of the normalised ones within their limit, trimmed exactly when shortened |
| `RunIngestion.WorkflowFits` | app/services/run_ingestion.py:254-289 | on both paths the workflow text is a prefix of its source within the limit, whole unless trimmed; given some text, the sidecar path fails exactly when the sidecar cannot be reached or refuses the limits |
| `RunIngestion.EverySectionOccurs` | app/services/run_ingestion.py:254-269 | the text before trimming is the notes and then every kept file, in order, each under its heading, whole, with blank lines between, and nothing else |
| `RunIngestion.PathsDiffer` | text-tools/src/text.rs:62-87 | when everything fits, the Python text has line breaks and the sidecar's has none |
| `RunIngestion.IngestRunInput` | app/services/run_ingestion.py:51-251 | the whole call: files, rejections, notes, workflow text and source kind, within all budgets; it fails exactly when the workflow text does, an unreachable sidecar included |
| `ContextRepository.Repository.IngestArtifact` | app/core/context_engine/service.py:57-152 | the stored state after an ingestion, including what remains stored when a link is bad |
| `ContextRepository.Repository.GetPerspective` | app/core/context_engine/service.py:177-306 | the cached view with its staleness, or a view built from the owner's lists and stored |
| `ContextRepository.UpsertChunks` | app/core/context_engine/storage.py:209-213 | chunks are stored in insertion order, an existing id keeps its place |
| `ContextRepository.StoreLinkedFacts` | app/core/context_engine/storage.py:215-240 | rows and owner index of each fact, stopping at the first unknown source artifact |
| `ContextRepository.StoreFactRows` | app/core/context_engine/storage.py:242-260 | rows only, with the same stop |
| `ContextRepository.ExtendIndex` | app/core/context_engine/storage.py:262-272 | the ids are appended to the owner's list in order |
| `ContextRepository.Repository.StoreArtifact` | app/core/context_engine/storage.py:202-207 | stores the row and appends its id to the owner's list |
| `ContextRepository.Repository.ListArtifacts` | app/core/context_engine/storage.py:285-296 | the owner's artifacts in ingestion order |
| `ContextRepository.Repository.ListChunks` | app/core/context_engine/storage.py:323-330 | the chunks of those artifacts in insertion order |
| `ContextEngine.IngestFrame` | app/core/context_engine/storage.py:202-272 | with fresh ids, an ingestion, failed or not, changes another owner's context if and only if it files an entity or a relationship under that owner |
| `ContextEngine.OthersUntouchedIff` | app/core/context_engine/storage.py:215-240 | it leaves every other owner's context alone if and only if all of them cite artifacts of the ingesting owner |
| `ContextGrowth.IngestAppends` | app/core/context_engine/service.py:57-152 | for every owner, an accepted ingestion appends to the context its artifact and chunks, the storable entities and relationships that cite it, and, if and only if all links are good, signals and items, each in order |
| `ContextGrowth.OthersAreRefused` | app/core/context_engine/service.py:64-77 | an artifact of an unregistered type or with nothing but white space is refused and changes nothing |
| `ContextGrowth.ContextIsWhatWasIngested` | app/core/context_engine/storage.py:202-272 | after every run of good ingestions and requests an owner's context is exactly what was ingested for it, in order |
| `ContextEngine.StepCoherent` | app/core/context_engine/service.py:57-214 | each request that files entities and relationships only under its own owner keeps every cached view either stale or equal to a rebuild |
| `ContextEngine.FreshViewsAreCurrent` | app/core/context_engine/service.py:288-306 | after every sequence of requests and of ingestions that are fresh and file entities and relationships only under their own owner, a view served as not stale is what building it now gives |
| `ContextEngine.BuiltViewIsKept` | app/core/context_engine/service.py:177-214 | a view that is built is served again, the same and as current, and building it changes nothing else |
| `ContextEngine.UnknownViewFails` | app/core/context_engine/service.py:177-214 | a view neither stored nor registered is an error that changes nothing |
| `ContextEngine.StaleMeansIngestedSince` | app/core/context_engine/service.py:288-306 | on every such sequence a cached view is reported stale if and only if its own owner has ingested since it was current |
| `ContextEngine.ForeignLinkGoesUnnoticed` | app/core/context_engine/storage.py:215-224 | an extractor that cites another owner's artifact makes a view served as current differ from a rebuild |
| `Provenance.ChunkArtifact` | app/core/context_engine/chunking.py:30-64 | the chunk count is the closed form in length, size and overlap, and chunk i spans the text from i times (size - overlap) |
| `Provenance.CountIs` | app/core/context_engine/chunking.py:39-63 | the closed form is the number of windows needed to reach the end |
| `Provenance.ChunksRebuildText` | app/core/context_engine/chunking.py:30-64 | the chunks are slices that start at the beginning and go back by exactly the overlap, and dropping the overlap of each later chunk gives the text back |
| `Provenance.ChunkLinksQuote` | app/core/context_engine/chunking.py:41-59 | each chunk's own link spans exactly the chunk and quotes its first 240 characters |
| `Provenance.OverlapKeepsSpans` | app/core/context_engine/chunking.py:60-63 | every span of w characters lies within one chunk if and only if w is at most overlap + 1 or there is a single chunk |
| `Provenance.KeywordValues` | app/domains/job_search/models.py:105-135 | one value per keyword up to case, for exactly the keywords some chunk mentions, each citing the first such chunk |
| `Provenance.LinksQuoteTheText` | app/domains/job_search/models.py:120-133 | every keyword link's span of the artifact text is its excerpt |
| `Provenance.SourceForMatch` | app/domains/job_search/models.py:45-72 | the first chunk that contains the line up to case, or the broad link of the first chunk, or an error without chunks |
| `Provenance.BroadKeepsTheSpan` | app/domains/job_search/models.py:66-72 | the broad link keeps chunk and span and quotes the line, or exactly its first 500 characters |
| `Provenance.MatchSpansTheLine` | app/domains/job_search/models.py:53-65 | such a link spans text equal to the line up to case |
| `PromptIds.PromptIdMap.CompactId` | app/domains/job_search/llm.py:740-767 | a known original keeps its id, a new one gets the next number of its kind |
| `PromptIds.PromptIdMap.OriginalChunkId` | app/domains/job_search/llm.py:756-761 | the loop finds the original of a compact id and returns any other id unchanged |
| `PromptIds.AnswersIdentify` | app/domains/job_search/llm.py:740-767 | over every sequence of calls two answers are equal if and only if kind and original are, and the final map inverts every chunk id |
| `PromptIds.OriginalReadsBack` | app/domains/job_search/llm.py:756-761 | an original reads as itself if and only if it is not another's compact id |
| `PromptIds.EvidenceIsGrounded` | app/domains/job_search/llm.py:418-435 | every link that is built names a chunk of the context and the artifact that owns it, quotes the whole trimmed excerpt or exactly its first 1000 characters, and is headed as asked or by the artifact's type; a blank excerpt is an error |
| `PromptIds.MapPerspectiveOutput` | app/domains/job_search/llm.py:564-632 | succeeds if and only if every reference can be cited, and then maps every section and reference in order |
| `PromptIds.ContentIs` | app/domains/job_search/llm.py:603-610 | a section's content is its conclusion, why it matters, and every implication in order |
| `PromptIds.BuildWithExecution` | app/domains/job_search/llm.py:274-314 | for any calls and any answer: the deterministic view, or one whose every evidence link is grounded in the context |
| `PromptIds.CitationResolves` | app/domains/job_search/llm.py:571-583 | citing a shown chunk's compact id resolves to that chunk if and only if its id is no other's compact id and no later chunk's id is its compact id |
| `PromptIds.PlainIdsResolve` | app/domains/job_search/llm.py:571-583 | so it always does when no chunk id is "c" and digits |
| `PromptIds.LookAlikeMisleads` | app/domains/job_search/llm.py:571-583 | with chunks "x" and "c1" the citation of the first resolves to the second |
| `SmsThreads.NormalizeIdempotent` | app/services/notifications.py:290-300 | a normalised number normalises to itself, for any class of digits that has "1" and not "+" |
| `SmsThreads.NormalizeIs` | app/services/notifications.py:290-300 | a text is a number if and only if it has ten digits, or eleven from 1 on, with area code and exchange above 1; then it is +1 and the last ten |
| `SmsThreads.GetOrCreate` | app/services/notifications.py:213-233 | a conversation of that number, the old rows unchanged, at most one new row with no replies |
| `SmsThreads.StepHonoursOptOut` | app/services/notifications.py:175-210 | in every state a step sends an opted-out number something other than the due confirmation if and only if it finishes a reply that was being generated when the number opted out |
| `SmsThreads.CountedStep` | app/services/notifications.py:195-199 | from right counts, a step keeps them right if and only if it finishes no reply whose handler read a count that has changed since |
| `SmsThreads.AtMostTwoReplies` | app/services/notifications.py:195-210 | on every run without such a step, however handlers overlap, each conversation gets at most two generated replies, as its row counts |
| `SmsThreads.OptOutIsPermanent` | app/services/notifications.py:144-210 | after any run, whatever is sent to any spelling of an opted-out number is the confirmation, as long as no late reply is finished |
| `SmsThreads.SerialRunsAreSafe` | app/services/notifications.py:144-210 | taking one message per number at a time excludes both stale counts and late replies |
| `SmsOutcomes.MessageIsAnswered` | app/services/notifications.py:144-210 | a message handled without interruption leaves one row in the number's latest conversation, then the confirmation, silence after an opt-out, a reply while fewer than two were sent, or the notice of the limit; opt-outs and counts change accordingly and nothing else |
| `SmsOutcomes.UnreadableIsIgnored` | app/services/notifications.py:154-162 | a message from no number leaves no trace |
| `SmsOutcomes.CompletionIsSent` | app/services/notifications.py:77-141 | a completed run leaves one row: sent in the run's own conversation, or skipped for an invalid or opted-out number |
| `SmsOutcomes.CompletionIsNotWanted` | app/services/notifications.py:77-98 | and none when it is not wanted |
| `SmsThreads.ReplyAfterOptOut` | app/services/notifications.py:195-210 | two overlapping messages after which a generated reply follows the confirmed opt-out |
| `SmsThreads.OverlapBreaksTheLimit` | app/services/notifications.py:195-199 | two overlapping messages and a third from one number get three generated replies in one conversation, whose row counts two |
| `SmsThreads.SmsService.GetOrCreateConversation` | app/services/notifications.py:213-233 | returns the latest matching conversation or adds one |
| `SmsThreads.SmsService.SendReply` | app/services/notifications.py:409-442 | records the message; a failed send only changes its status |
| `SmsThreads.SmsService.HandleInboundReply` | app/services/notifications.py:144-210 | a message handled without interruption is its three steps in a row |
| `SmsThreads.SmsService.CompletionNotification` | app/services/notifications.py:77-141 | the rows after a run completes: skipped, or sent in the run's conversation |

## Left out

- Building the outbound INVITE and sending it: the command event stands for an INVITE that was sent, so its datagram is not among those a step sends and a failed send is no event.
- Sockets, WebSockets, timers, DNS, IP literals, the clock and UUIDs: events and abstract functions. A send is a datagram handed to the socket; whether it succeeded is part of the event where the code looks at it.
- Metric counters other than the active gauge, teardowns and rejections; increments are not wrapped at 2^64, only the gauge's decrement is.
- JSON, base64, LLM calls, embeddings, regular expressions and PDF extraction: abstract functions or inputs. Transcripts, tool lookup and the audio byte count of the voice loop.
- Failures of `send_tool_result` and task cancellation: a send that raises would lose its result. Lock sections are single steps.
- Lone surrogates in Python strings: a string is a sequence of Unicode scalar values. The `int(len * 0.5)` of the Python split is integer halving.
- Lower case in SIP headers, embedding errors and matched lines maps ASCII letters only; for matched lines Unicode lower-casing can change lengths, which the offsets do not survive. Keyword folding and opt-out words take any lower-case function.
- Metadata of views, artifacts and evidence beyond what the claims need: creation times, confidence, titles of artifacts. Builders and extractors are pure functions that do not raise.
- The selection of chunks, signals and items for a prompt: any sequence of compaction calls is allowed instead.
- File-type detection of uploads: whether and what a file extracts to is an arbitrary function of the upload. The texts of rejection reasons are constructors.
- SQLAlchemy repositories: the in-memory repository is modelled; for SMS, rows are sequences and each stretch between two awaits is one step. Handlers that raise half-way are not modelled.
- Notification preferences, settings, routers, admin and persona CRUD, migrations, vector search: thin wrappers.
