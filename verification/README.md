# RemoteUSB protocol core: a verified model

This project models the protocol engine that forwards USB transfers over a
session: its handshake, its framing, its flow control, the life of a transfer
on the exporting side, and the codecs underneath. The engine does no I/O. Each
entry point is one step on a state held in memory, and the model has one step
for each of them.

Every component is a value with pure steps, which the laws are about, and,
where the program updates an object in place, a class whose methods are proved
to do to the object exactly what the step of the specification does to the
value.

| file | what it models |
|---|---|
| Base, Endian, Numerals | integer widths, error codes, results, little- and big-endian words, and numbers as digits base 256 |
| Wire | frame header, CAPABILITY, OPEN, fragments, payload rules |
| Reassembly | cutting a message into fragments and putting it together again; class `Reassembler` |
| Pdu, Usbip | the USB/IP transfer and control messages |
| FrameFormat, UsbFormat | every format byte by byte, and every refusal with its error, in plain numbers |
| Broker | HELLO and the flow-control windows; class `BrokerSession` |
| Buffers | the encoders and decoders as loops over buffers filled in place |
| Execution, ExecutionRuns, ExecutionLaws | the table of transfers; class `Executor`; what every run of it keeps |
| Session | one endpoint as a value: one step per call, with its history |
| Frames, Streams, Sending | what an endpoint puts on the wire and how it reads back |
| Steps | the session made from a configuration; what each call of the handshake, each frame and each message sent does, down to the bytes |
| Traffic, ReplyQueue | replies under back-pressure: their order, and why they never stick |
| SessionCalls, SessionRuns, SessionLaws | every call, every run of calls, and what a program can rely on |
| Outcomes, Receipts, Closing | what a call answers, foretold from the state before it; when CLOSE is said, and what it loses |
| Scenario, Witnesses | concrete runs that reach the failures described below |
| Peers, TwoParty, Handshake | two endpoints joined by a channel in each direction |
| Deliveries | what a program is told, against what the messages received and sent mean |
| Transport | class `Transport`, the endpoint as the object a program drives |

A session value carries four history fields that the program does not keep:
every event ever queued (`log`), every reply its executor ever produced
(`produced`), every message it sent in full (`sent`), and every message it
reassembled and handed on (`received`). They let a law speak of whole runs: a
run is any sequence of calls, in any order, with any arguments, refused calls
included. In class `Transport` they are ghost fields, and `log` is what the
caller has taken from the event queue followed by what still waits there.

The main results, hardest first:

* Two-party safety (`TwoParty.NeverOutOfStep`), end-to-end delivery to the peer's
  reassembler (`TwoParty.ReceivedIsPrefixOfSent`) and from program to program
  (`Deliveries.ToldIsPrefixOfMeant`), and a handshake that never crosses
  (`Handshake.HandshakeNeverCrosses`), over every interleaving of two programs
  and the frames on their way.
* Every transfer answered exactly once, in the executor
  (`ExecutionRuns.ExactlyOnce`, `ExecutionRuns.OneAnswerPerToken`) and in a
  session under back-pressure (`SessionLaws.EveryTransferIsAnsweredOnce`); every
  UNLINK received likewise (`Deliveries.EveryUnlinkIsAnsweredOnce`).
* The answer of every call that produces or releases replies, exactly and from the
  state before it: the executor's calls (`Outcomes.ExecutedForetold`),
  acknowledgements (`Outcomes.AcknowledgementForetold`), frames that complete a
  message (`Receipts.FrameForetold`) and closing (`Closing.CloseForetold`).
* Replies conserved in order (`SessionLaws.RepliesAreConserved`), and never
  stuck, with a bound on the acknowledgements needed
  (`SessionLaws.AcknowledgingDrains`).
* Windows conserved and released once (`SessionLaws.WindowsAreConserved`,
  `SessionLaws.AcknowledgedOnce`); frame numbers without a gap
  (`SessionLaws.NumbersHaveNoGap`).
* Reassembly sound for hostile streams and complete for every tiling
  (`Reassembly.DeliveredIsWhole`, `Reassembly.WholeIsDelivered`), undoing
  fragmentation (`Sending.FragmentationIsUndone`).
* Every codec inverted, and what decoding and encoding again changes or refuses,
  exactly; every format and every refusal pinned to bytes and plain numbers
  (`FrameFormat`, `UsbFormat`), up to the bytes of a whole message on the wire
  (`Steps.MessageSaid`).
* The answer of every call of the handshake and of every frame, in every phase
  (`Steps`), and of every action of the executor (`ExecutionLaws.CompletionVerdict`,
  `ExecutionLaws.RequestIsJudged`).

Where the code and its contract differ, the model follows the code:

* `contract/protocol-v1.md` section 9 wants every late completion ignored. The
  executor forgets settled tokens from time to time, and a completion of a
  forgotten token is reported as not found. `ExecutionLaws.LateCompletion`
  gives the exact condition and `ExecutionLaws.ForgottenToken` a run where it
  fails; in neither case does anything change or a second reply appear.
* A call can report a failure although it took effect, because a reply that waits
  could not be sent (`Outcomes.CompletionStands`). The condition can be read from
  the state before the call: let j be the number of replies, those waiting and then
  the new ones, that fit one after the other (`Outcomes.Leaving`). With room for the
  largest reply, and numbers and ids lasting, the call answers LimitExceeded exactly
  when j is not all of them and the messages out plus j are as many as negotiated
  (`Outcomes.FailsAtNegotiatedNumber`). It cannot happen in a session whose window
  holds fewer messages than were negotiated (`Outcomes.RoomyNeverFails`), and
  `Witnesses.FullSessionRefuses` is a run in which it does. Refusals change nothing
  in the executor (`ExecutionLaws.RefusedChangesNothing`).
* Section 9 wants exactly one RET_SUBMIT for every SUBMIT admitted. The executor
  produces it, but a session sends it only if nothing ends the session first:
  `SessionLaws.EveryAnswerIsSentWhenNoneWaits` says when all are out, and
  `SessionLaws.EndedForGood` that what an ended session has not sent it never will.
  Closing is no exception. A full window refuses no call, so a session may close
  with success over replies that cannot go; `Closing.LostAtClose` says which, from
  the state beforehand, `Closing.NothingLostIfAllFit` that none are lost exactly if
  all fit the window at once, and `Witnesses.ReplyLostAtClose` is a run that leaves
  the only transfer without an answer.
* A message the peer has every right to send can end the session that takes it. If
  the executor takes the message and a reply that waits meets the number negotiated,
  accepting the frame fails, and any failed frame makes the session failed: the
  transfer is admitted and told to the program, and can never be completed.
  `Receipts.AdmittedMessageEndsSession` gives the exact condition, the one above,
  and `Witnesses.FrameEndsFullSession` a run.
* Section 10 has a normal shutdown say CLOSE and stop accepting work. Closing a
  running session first cancels its transfers and sends what waits, and if that is
  refused nothing is said and the session runs on. `Closing.CloseForetold` says
  exactly when, and in `Witnesses.FullSessionRefuses` it happens.
* Sections 8 and 9 rest on replies. A session hands every message that is not a
  control message to its executor, which reads requests only; so no session of
  either role takes a RET_SUBMIT or RET_UNLINK (`Deliveries.RepliesAreRefused`), and
  the frame that completes one ends the session that receives it
  (`Deliveries.ReplyEndsSession`). An importer's program is never told of a reply.
* A closed session may still become failed, by being handed a frame; the two
  together are where a session ends (`SessionLaws.EndedStaysEnded`).
* Section 6.2 makes CLOSE terminal. `Closing.CloseIsTerminal` shows it is, unless
  the broker session has failed; then a session says CLOSE each time it is told
  to close (`Closing.FailedBrokerClosesAgain`). `Witnesses.RefusedHelloClosesTwice`
  is such a run, from any session: a malformed HELLO, and two CLOSE frames.
* Section 3 speaks of limits negotiated as minima, and also has each side refuse a
  larger value than its own. The code does both, so two sessions both establish
  only if their limits are equal (`Handshake.HelloTravels`).
* Section 8 lets a decoder take a packet count of zero; a decoded request or reply is
  written back with the count -1 (`Pdu.SubmitReencode`, `Pdu.ReplyReencode`).
* Decoders take some messages that encoders refuse: a text that fills its field to
  the last byte (`Usbip.DeviceReencode`), and an OUT reply that claims more than the
  largest transfer (`Pdu.ReplyReencode`).

## Model

| member | source | states |
|---|---|---|
| TwoParty.NeverOutOfStep | src/transport.rs:235-319 | for two sessions with the same tokens joined by FIFO channels, over every interleaving of calls and deliveries, the next frame is never refused with a sequence, token, magic or version error, unless the receiver's own numbers run out while it answers; the number expected plus the frames on their way is the number used next |
| TwoParty.ReceivedIsPrefixOfSent | src/transport.rs:207-319 | what one session has reassembled whole is always a prefix of what the other sent, in order and with ids, and all of it once every frame was handed to a receiver that has not ended |
| Deliveries.ToldIsPrefixOfMeant | src/transport.rs:296-394 | what one program is told, transfers to perform and control messages, read from its event log, is always a prefix of what the messages the other program sent mean, and all of it once every frame was handed to a receiver that has not ended |
| Deliveries.EveryMessageIsTold | src/transport.rs:296-394 | over every run a program is told of exactly the transfers and control messages its session received, once each and in order; a failed session, of all of them or all but the last |
| Deliveries.EveryUnlinkIsAnsweredOnce | src/transport.rs:296-427 | over every run, failed ones included, the UNLINKs received are, number by number, those answered by a RET_UNLINK sent, those answered by one that waits, and those recorded on a pending transfer; a failed session may lack the last message |
| Deliveries.CallHeeds | src/transport.rs:140-427 | every call keeps what was told, what was answered and what was received in line, and a session that received a reply is failed |
| Deliveries.RepliesAreRefused | src/transport.rs:321-338 | handling a message that reads as RET_SUBMIT or RET_UNLINK is refused as unsupported, in either role, and changes nothing |
| Deliveries.EncodedRepliesAreRefused | src/pdu.rs:79-92 | so is handling the bytes of any reply that encodes |
| Deliveries.ReplyEndsSession | src/transport.rs:235-242 | the frame that completes a reply is refused and leaves a running receiver failed |
| Deliveries.NoReplyIsTaken | src/transport.rs:296-338 | over every run, a session that ever received a reply has failed, and received nothing after it |
| Deliveries.RepliesEndThePeer | src/transport.rs:235-338 | for two sessions joined by FIFO channels, once every frame was handed over, a session whose peer sent a reply in full has ended, in both directions |
| TwoParty.HandOver | src/transport.rs:235-319 | one delivery keeps the receiver's next number, its received messages and its half-read message equal to the reading of all frames handed over |
| TwoParty.CallKeepsIncoming | src/transport.rs:140-233 | no call but accepting a frame changes the number expected, the messages received or the half-read message, except that ending drops the last |
| Handshake.HandshakeNeverCrosses | src/transport.rs:256-317 | for an exporter and an importer, every frame finds a receiver past its HELLO and not ended in a phase that has a branch for it, and every control frame is accepted |
| Handshake.CallOnScript | src/transport.rs:160-205 | each role sends its control frames in the order the contract prescribes, and none before it heard enough from its peer; data only after the session opened |
| Handshake.CapabilityTravels | src/transport.rs:160-169 | an importer that listens is told of exactly the capability the exporter sent, and both move on |
| Handshake.OpenTravels | src/transport.rs:171-183 | an exporter that listens is told of an OPEN with the tokens both share |
| Handshake.OpenOkTravels | src/transport.rs:185-193 | agreeing sets both sides running and tells both callers |
| Handshake.OpenRejectTravels | src/transport.rs:195-205 | refusing closes both sides, and the importer is told the status given |
| Handshake.CloseTravels | src/transport.rs:411-427 | a call to close that succeeds, from running or any earlier phase, ends with CLOSE and CLOSED, and a peer that took everything before it is closed by it, its broker included |
| Handshake.HelloTravels | src/transport.rs:140-158 | two sessions started and handed each other's HELLO both get past it exactly when they were made for the same session with the same limits; otherwise one is left with a failed broker |
| Closing.CloseIsTerminal | src/transport.rs:411-427 | over every run a CLOSE frame is followed by nothing but CLOSED unless the broker session has failed; a session left closing after a CLOSE frame has a failed broker |
| Closing.FailedBrokerClosesAgain | src/transport.rs:411-427 | with a failed broker, every call to close puts the next CLOSE frame in the log, is refused, and leaves the session closing |
| Closing.CloseForetold | src/transport.rs:411-427 | closing a running session, from the state beforehand: CLOSE is said exactly when the answer foretold for the replies of closing is success and a number is left, and then exactly the replies that found no room still wait; otherwise the session runs on, or is left closing if only the number is missing; the transfers are cancelled in any case |
| Closing.LostAtClose | src/transport.rs:396-427 | after closing with success, whatever is called next: the replies sent followed by those that found no room are those produced, and every transfer got its RET_SUBMIT sent exactly if none is among the latter |
| Closing.NothingLostIfAllFit | src/transport.rs:396-427 | closing loses nothing exactly if every reply waiting or produced by closing fits the window at once |
| Closing.CloseIdleVerdict | src/transport.rs:411-427 | closing a session that does not run fails only if numbers ran out or the broker has failed; otherwise it says CLOSE and is closed |
| Closing.FinishCloseVerdict | src/transport.rs:419-426 | exactly when saying CLOSE succeeds, and what it leaves |
| Witnesses.RefusedHelloClosesTwice | src/transport.rs:411-427 | from any session as made: start, an empty HELLO and two calls to close leave two CLOSE frames in the log |
| Witnesses.FullSessionRefuses | src/transport.rs:340-427 | a concrete run from a session as made after which a completion answers LimitExceeded and yet settles its transfer, and closing then answers LimitExceeded and leaves the session running without a CLOSE |
| Witnesses.FrameEndsFullSession | src/transport.rs:235-409 | a concrete run from a session as made in which a well-formed SUBMIT is admitted and told, its frame answers LimitExceeded, the session is failed and the transfer can never be completed |
| Witnesses.ReplyLostAtClose | src/transport.rs:396-427 | for every negotiated number above the window, a concrete run from a session as made that closes with success and never sends the only RET_SUBMIT it owes |
| Peers.AcceptNext | src/transport.rs:244-319 | a receiver in step with a stream accepts its next frame or ends without accusing the sender, having taken in nothing out of order |
| Peers.PushAlike | src/wire.rs:381-423 | under stricter limits a reassembler takes a fragment exactly as a permissive one does, or refuses it for its size or count |
| Peers.HandlePduBlameless | src/transport.rs:321-338 | no message of the peer's program, however malformed, is reported as a sequence, token, magic or version error, unless the receiver's own numbers run out while it answers |
| ExecutionRuns.ExactlyOnce | src/executor.rs:105-309 | over every run, the numbers submitted are those answered with RET_SUBMIT plus those pending, and the UNLINKs accepted are those answered with RET_UNLINK plus those recorded on a pending transfer, counted with multiplicity and read from the reply bytes |
| ExecutionRuns.OneAnswerEach | src/executor.rs:162-256 | at every moment a number has been issued once more often than answered if it is pending, and equally often if not |
| ExecutionRuns.OneAnswerPerToken | src/executor.rs:131-309 | every token issued is pending, and no RET_SUBMIT under its number was produced while it was, or settled with exactly one; answers are counted whether or not they settle the token |
| ExecutionRuns.StepBalanced | src/executor.rs:105-309 | every action keeps the two maps inverse and in bounds, and moves exactly the entries it reports |
| ExecutionRuns.Settles | src/executor.rs:162-256 | settling a pending transfer removes it from both maps and gives one RET_SUBMIT, plus the RET_UNLINK it owes |
| ExecutionRuns.ShutBalanced | src/executor.rs:258-301 | closing settles each listed token, in any order, and drops none |
| ExecutionLaws.CloseAnswersAll | src/executor.rs:258-301 | closing empties both maps with one RET_SUBMIT per pending transfer and one RET_UNLINK per recorded UNLINK |
| ExecutionLaws.RefusedChangesNothing | src/executor.rs:105-256 | every refused action leaves the table as it was |
| ExecutionLaws.ValidationPredicts | src/executor.rs:77-213 | the check answers true, false or an error exactly when completing would reply, stay silent or give the same error |
| ExecutionLaws.CompletionReplies | src/executor.rs:162-213 | the replies to a completion decode to the transfer's number and the status, lengths, frame, error count and data reported, RET_SUBMIT first, direction IN if nothing was transferred; the UNLINK's reply has status zero |
| ExecutionLaws.CompletionVerdict | src/executor.rs:77-213 | what completing and checking a completion answer for any token: not found or silent if it is not pending, malformed exactly if more was transferred than asked for or the data does not match the direction, else the transfer leaves both maps and its token is remembered |
| ExecutionLaws.RequestIsJudged | src/executor.rs:105-160 | what any bytes answer and do to the table, by what they read as: the four refusals of a SUBMIT in order, admission under the next token, an UNLINK recorded, a duplicate or answered with -2 |
| ExecutionLaws.TableMade | src/executor.rs:51-68 | which limits a table may have, and that it starts empty with token 1 |
| ExecutionLaws.SubmitIsHandedOver | src/executor.rs:105-160 | an encoded SUBMIT reaches the platform as the same transfer under the next token, or is refused, and exactly when |
| ExecutionLaws.UnlinkIsRecorded | src/executor.rs:105-129 | an encoded UNLINK cancels exactly the transfer it names, once, or is answered at once with status -2 if that is not pending |
| ExecutionLaws.CancellationReplies | src/executor.rs:215-256 | what completing a cancellation answers for any token; it needs a recorded UNLINK, is answered with RET_SUBMIT status -104 without data, then RET_UNLINK with the status given, and takes the transfer out |
| ExecutionLaws.ClosingReplies | src/executor.rs:269-301 | closing answers a pending transfer and its recorded UNLINK with status -104 and takes the transfer out |
| ExecutionLaws.RetiredAreRecent | src/executor.rs:303-308 | over every run the settled tokens remembered are exactly the most recent (n - 1) mod (2 * max_inflight) + 1 of the n settled |
| ExecutionLaws.LateCompletion | src/executor.rs:162-184 | a late completion changes nothing; it is silent exactly while its token is among those most recent ones and an error after that |
| ExecutionLaws.ForgottenToken | src/executor.rs:303-308 | a concrete run after which a late completion is an error, contrary to the contract |
| ExecutionLaws.TokensAreConsecutive | src/executor.rs:131-160 | over every run the tokens issued are 1, 2, 3 and so on, so none is reused |
| Execution.IndexedSameSize | src/executor.rs:131-160 | the two maps always have the same number of entries |
| Execution.RepliesEncode | src/executor.rs:162-256 | under the index invariant no reply fails to encode, and its size is within header plus largest transfer |
| Execution.RetireIndexed | src/executor.rs:162-256 | taking a transfer out keeps the maps inverse, and live and remembered tokens apart |
| Execution.AdmitIndexed | src/executor.rs:131-160 | admitting a transfer keeps the maps inverse, in bounds, and its token fresh |
| Execution.UnlinkIndexed | src/executor.rs:105-129 | recording or refusing an UNLINK keeps the index and moves no entry |
| Execution.Executor.AcceptWire | src/executor.rs:105-129 | the method does to the object what the step does to the table |
| Execution.Executor.AdmitSubmit | src/executor.rs:131-160 | as above, for admission and its four refusals |
| Execution.Executor.CompleteTransfer | src/executor.rs:162-213 | as above, for completion |
| Execution.Executor.CancelTransfer | src/executor.rs:215-256 | as above, for completion of a cancellation |
| Execution.Executor.CancelOnClose | src/executor.rs:269-301 | as above, for one token of a closing table |
| Execution.Executor.CloseTransfers | src/executor.rs:258-267 | the loop goes through exactly the pending tokens, each once, and does what closing in that order does |
| Execution.Executor.RememberRetired | src/executor.rs:303-308 | the remembered set starts over when full, then takes the token |
| SessionLaws.EveryTransferIsAnsweredOnce | src/transport.rs:321-427 | over every run of calls, the transfers handed to the caller are, with multiplicity, those answered by replies sent, those whose reply waits, and those pending |
| SessionLaws.EveryAnswerIsSentWhenNoneWaits | src/transport.rs:321-427 | over every run, each transfer handed to the caller has had exactly one RET_SUBMIT sent exactly when none is pending and no RET_SUBMIT waits |
| SessionLaws.EndedForGood | src/transport.rs:140-427 | no further calls make an ended session send, receive, produce or settle anything, so what waits or is pending then stays so |
| SessionLaws.RepliesAreConserved | src/transport.rs:370-409 | after any calls, failed ones included, the replies sent followed by those waiting are those produced, in order |
| SessionLaws.AcknowledgingDrains | src/transport.rs:223-233 | in a running session with room for the largest reply, at most 2 * waiting + out acknowledgements are possible in any order, one more is possible while a reply waits, and when none is left every reply has been sent |
| SessionLaws.AcknowledgedOnce | src/transport.rs:223-233 | acknowledging a message that is out never fails in the broker, gives back exactly its share of the window, and a second time finds nothing |
| SessionLaws.WindowsAreConserved | src/transport.rs:207-233 | while established, the send counters are the number and the total size of the messages out, within the limits, and the receive counters are zero between calls |
| SessionLaws.NumbersHaveNoGap | src/transport.rs:467-502 | the i-th frame ever sent decodes to number i with the session's tokens and a valid payload |
| SessionLaws.SentIsReadable | src/transport.rs:433-465 | reading all frames back gives exactly the messages sent, in order, with nothing half-read while numbers last |
| Steps.MessageSaid | src/transport.rs:207-221 | a message that is sent goes out in as few frames of 131040 bytes as hold it, under consecutive numbers and its own id, each byte given, and takes its share of the window |
| Steps.SessionMade | src/transport.rs:92-128 | exactly which configurations are refused, and the session any other makes, field by field, each window in its place |
| Steps.HelloSaid | src/transport.rs:140-149 | starting says HELLO, once, and moves broker and session |
| Steps.HelloHeard | src/transport.rs:151-158 | the peer's HELLO moves the session on exactly if the broker takes it |
| Steps.CapabilitySaid | src/transport.rs:160-169 | what sending CAPABILITY answers and does in every role and phase, bytes included |
| Steps.OpenSaid | src/transport.rs:171-183 | the same of OPEN |
| Steps.OpenOkSaid | src/transport.rs:185-193 | the same of OPEN_OK |
| Steps.OpenRejectSaid | src/transport.rs:195-205 | the same of OPEN_REJECT, with a status from 1 to 10 |
| Steps.FrameOutOfTurn | src/transport.rs:235-262 | the error for a frame that comes in the wrong phase, does not read, or has another token or number; the session fails and tells nothing |
| Steps.CapabilityHeard | src/transport.rs:265-271 | a CAPABILITY on its turn succeeds exactly in its role and phase with the session's tokens; else the error, and nothing told |
| Steps.OpenHeard | src/transport.rs:272-277 | the same of OPEN, read from its sixteen bytes |
| Steps.OpenOkHeard | src/transport.rs:278-281 | the same of OPEN_OK |
| Steps.OpenRejectHeard | src/transport.rs:282-287 | the same of OPEN_REJECT, its status told |
| Steps.CloseHeard | src/transport.rs:305-317 | the same of CLOSE, in every listening phase, under the session's lease only |
| Steps.DataHeard | src/transport.rs:288-304 | data needs a running session, its lease and the size agreed; then reassembly decides, and a whole message is delivered |
| SessionLaws.TrafficOnlyWhileOpen | src/transport.rs:140-427 | in every history no submission, cancellation, control message or data frame precedes the opening, after a CLOSE frame comes nothing but CLOSE or CLOSED, and CLOSED comes at most once, as the last event |
| SessionLaws.PhasesNeverGoBack | src/transport.rs:140-427 | no call moves a session to an earlier phase or removes an event from its history |
| SessionLaws.EndedStaysEnded | src/transport.rs:235-242 | closed and failed together are final: no call says, sends, receives or answers anything more; any frame makes it failed |
| Outcomes.DrainVerdict | src/transport.rs:396-409 | draining, from the state beforehand: exactly the longest run of waiting replies that fits goes out, and the answer is success, the refusal of the reply that stays first, or an exhausted number |
| Outcomes.CompletionStands | src/transport.rs:340-409 | a completion of a pending transfer settles it and keeps its replies in line whatever it answers, and what it answers is foretold from the state before it |
| Outcomes.ExecutedForetold | src/transport.rs:370-409 | for every action of the executor, closing included: a refusal changes nothing; otherwise the action stands, the replies that fit go out, the others wait, and the answer is foretold |
| Outcomes.CallsAreActions | src/transport.rs:321-368 | while running, completing, completing a cancellation and handling a transfer message are such actions; in any other phase both completions answer InvalidState and change nothing |
| Outcomes.AcknowledgementForetold | src/transport.rs:223-233 | what an acknowledgement answers and does, from the state beforehand, in every phase: while running it sends the waiting replies that fit; otherwise it releases the reservation, sends nothing, and is an error if the broker is not established or a reply waits |
| Outcomes.FailsAtNegotiatedNumber | src/broker.rs:270-296 | with room for the largest reply and numbers lasting, a call fails for its replies exactly when those that fit bring the messages out to the number negotiated and some are left |
| Outcomes.RoomyNeverFails | src/broker.rs:270-296 | if the window holds fewer messages than negotiated, waiting replies make a call fail only when numbers run out |
| Outcomes.LongestIsUnique | src/transport.rs:396-409 | there is only one longest run of waiting replies that fits |
| Receipts.FrameForetold | src/transport.rs:235-409 | accepting a frame, from the state beforehand: one that completes a message answers the receive window's refusal, the control decoder's or executor's refusal, or the answer foretold for its replies, and the session is failed exactly on an error; what the executor took stands even so; a frame that completes none moves no transfer and no reply |
| Receipts.AdmittedMessageEndsSession | src/transport.rs:235-409 | with room for the largest reply and ids and numbers lasting, a message the executor takes ends the session exactly when the replies that fit bring the messages out to the number negotiated and some are left |
| SessionRuns.CallKept | src/transport.rs:140-427 | every call, failed ones included, of a caller whose ids are below 2^63 keeps the account of replies, the account of transfers, and that no reply waits while nothing is out |
| SessionRuns.ExecutorReports | src/executor.rs:105-309 | every executor action is balanced, its replies fit, and a refused one changes nothing |
| SessionCalls.CallSound | src/transport.rs:140-427 | every call keeps the invariant: gap-free readable output, conserved windows, indexed table, bounded reassembler, established broker while receiving, nothing under way before running |
| SessionCalls.MadeSound | src/transport.rs:92-128 | a session as constructed satisfies the invariant |
| SessionCalls.DeliverSound | src/transport.rs:296-303 | a whole message passes through the receive window, which is empty again afterwards, whatever handling it answered |
| ReplyQueue.DrainLedger | src/transport.rs:396-409 | draining keeps the account: replies sent, then waiting, are those produced |
| ReplyQueue.DrainMoves | src/transport.rs:396-409 | after draining, nothing waits, or something is out, or numbers ran out |
| ReplyQueue.AckOwing | src/transport.rs:223-233 | every acknowledgement of a message that is out decreases 2 * waiting + out |
| Traffic.TakeEffect | src/transport.rs:370-394 | the events of the executor go to the caller in order and its replies into the queue under consecutive ids |
| Traffic.ReleaseConserved | src/transport.rs:223-233 | an acknowledgement in the broker succeeds and keeps the counters equal to the messages out |
| Sending.SendOutcomes | src/transport.rs:207-221 | a message goes out in full with its reservation, or not at all with the session unchanged, or is cut short only because numbers ran out, holding no reservation |
| Sending.SendVerdict | src/transport.rs:207-221 | what sending a message answers, told from the state beforehand |
| Sending.FragmentationIsUndone | src/transport.rs:433-465 | the frames of a message decode to its fragments, and an idle reassembler with the same limits gives nothing until the last, then the message exactly, and is idle |
| Sending.SendWindowed | src/transport.rs:207-221 | sending keeps the window counters equal to the reservations, with the rollback exact |
| Streams.InStepWhole | src/transport.rs:433-465 | a message whose frames all went out has been read whole, and nothing is left under way |
| Frames.QueueFromEffect | src/transport.rs:445-463 | the cutting loop emits the frames of the pieces in order, as far as numbers reach |
| Frames.QueueFrameEffect | src/transport.rs:481-502 | a frame with a sendable payload always goes out under the next number once the counter has moved |
| Reassembly.DeliveredIsWhole | src/wire.rs:381-423 | whenever a fragment completes a message, whatever came before, the fragments that arrived last without a gap are valid, share id, lease and length, and tile the message exactly |
| Reassembly.WholeIsDelivered | src/wire.rs:381-423 | any tiling of a message within the limits is delivered with its last fragment and not before |
| Reassembly.PushBounded | src/wire.rs:405-422 | the bounds hold after every push, the length check fails only for an ill-formed fragment, and the internal error never happens |
| Reassembly.PushAccepted | src/wire.rs:381-423 | an accepted fragment continues the message under way or starts one, and ends it exactly at its length |
| Reassembly.PushVerdict | src/wire.rs:381-423 | what becomes of any fragment: which are refused, with which error and what is forgotten, and the buffer or message otherwise |
| Reassembly.PiecesCount | src/transport.rs:440-463 | the loop cuts exactly as many fragments as the guard computed, each valid and within the payload limit, MORE set on all but the last |
| Reassembly.PiecesReassemble | src/transport.rs:444-463 | the pieces of a message tile it and reassemble to it |
| Reassembly.Reassembler.PushFragment | src/wire.rs:381-423 | the method does to the object what the step does to the buffer; the length check of the program is a dead branch |
| Reassembly.Reassembler.Clear | src/wire.rs:425-431 | clearing makes the object idle |
| Wire.FrameRoundTrip | src/wire.rs:434-454 | every frame that encodes decodes to its header and payload |
| Wire.FrameReencode | src/wire.rs:434-454 | every frame that decodes with a valid payload encodes back to the same bytes |
| Wire.FragmentRoundTrip | src/wire.rs:289-323 | a valid fragment decodes from its encoding, and its length is the prefix plus its data |
| Wire.FragmentReencode | src/wire.rs:305-323 | every fragment accepted encodes back to the same bytes |
| Wire.OpenRoundTrip | src/wire.rs:255-276 | an OPEN with non-zero tokens always encodes and decodes to itself |
| Wire.OpenReencode | src/wire.rs:255-276 | every OPEN accepted encodes back to the same bytes |
| Wire.CapabilityRoundTrip | src/wire.rs:134-231 | every valid capability encodes and decodes to itself, all three variable sections included |
| Wire.CapabilityReencode | src/wire.rs:183-231 | every accepted capability payload encodes back to the same bytes |
| Wire.CapabilityAlwaysFits | src/wire.rs:135-146 | encoding refuses exactly the invalid capabilities; the size check never fires |
| FrameFormat.HeaderWritten | src/wire.rs:51-109 | the 32 bytes of a header, magic 52 55 53 42 and codes 1 to 6, or the error for its numbers, length or flags |
| FrameFormat.HeaderRead | src/wire.rs:69-109 | how any bytes are read as a header, and which are refused with which error |
| FrameFormat.FrameWritten | src/wire.rs:434-443 | when a frame is written, as header and payload, and the error otherwise |
| FrameFormat.FrameRead | src/wire.rs:445-454 | how any bytes are read as a frame |
| FrameFormat.PayloadAllowed | src/wire.rs:456-480 | exactly which payloads each kind of frame may carry |
| FrameFormat.OpenWritten | src/wire.rs:256-264 | the bytes of OPEN, and when it is refused |
| FrameFormat.OpenRead | src/wire.rs:266-276 | exactly which bytes read as OPEN, and as which tokens |
| FrameFormat.CapabilityWritten | src/wire.rs:135-253 | the bytes of CAPABILITY, and exactly which descriptions are refused |
| FrameFormat.CapabilityRead | src/wire.rs:183-253 | exactly the bytes some capability is written as are read, as that one; the rest are malformed |
| FrameFormat.FragmentWritten | src/wire.rs:290-345 | the bytes of a fragment, and exactly which are refused |
| FrameFormat.FragmentRead | src/wire.rs:305-345 | exactly the bytes some fragment is written as are read, as that one, under the flags that say whether more follows |
| FrameFormat.HelloWritten | src/broker.rs:26-61 | the 84 bytes of HELLO, and exactly which are refused |
| FrameFormat.HelloRead | src/broker.rs:63-94 | exactly the bytes some HELLO is written as are read, as that one; the error for the rest |
| Broker.HelloRoundTrip | src/broker.rs:42-94 | every valid HELLO decodes from its encoding |
| Broker.HelloReencode | src/broker.rs:63-94 | every accepted HELLO encodes back to the same bytes |
| Broker.HelloVerdict | src/broker.rs:174-201 | which valid HELLO of a peer is refused and why, and the limits agreed otherwise |
| Broker.HelloAgreement | src/broker.rs:174-201 | two brokers handed each other's HELLO both establish exactly when they expect the same session and limits |
| Broker.HelloJudged | src/broker.rs:174-201 | what a broker in any state makes of any bytes as a HELLO: duplicate, wrong state, unreadable, another identity, larger limits, or taken |
| Broker.BrokerMade | src/broker.rs:123-160 | which configurations are refused, and each of the four windows in its place, zero standing for the largest |
| Broker.BrokerStates | src/broker.rs:166-257 | HELLO is said once, first; closing empties both windows unless the broker has failed |
| Broker.ReservationVerdict | src/broker.rs:203-296 | what a reservation in either direction answers, in order, and that it takes exactly its share of its own window |
| Broker.ReturnVerdict | src/broker.rs:216-314 | what giving a share back in either direction answers, and that the other window is untouched |
| Broker.AckUndoesReserve | src/broker.rs:203-223 | acknowledging a reservation restores the broker exactly |
| Broker.WhyRefused | src/broker.rs:270-296 | exactly when a reservation is refused for a limit and when for a full window |
| Broker.BrokerSession.Negotiate | src/broker.rs:174-201 | the method does to the object what accepting a HELLO does to the broker value |
| Broker.BrokerSession.TakeSend | src/broker.rs:203-214 | as above, for a send reservation |
| Broker.BrokerSession.ReturnSend | src/broker.rs:216-223 | as above, for its acknowledgement |
| Broker.BrokerSession.TakeReceive | src/broker.rs:225-236 | as above, for a receive reservation |
| Broker.BrokerSession.ReturnReceive | src/broker.rs:238-245 | as above, for its consumption |
| Broker.BrokerSession.Close | src/broker.rs:247-257 | as above, for closing, which a failed broker refuses |
| Pdu.RequestRoundTrip | src/pdu.rs:79-161 | every request that encodes decodes to itself |
| Pdu.SubmitReencode | src/pdu.rs:243-279 | re-encoding a decoded SUBMIT changes only the packet count, to -1 |
| Pdu.UnlinkReencode | src/pdu.rs:281-297 | re-encoding a decoded UNLINK gives the same bytes |
| Pdu.ReplyRoundTrip | src/pdu.rs:185-241 | every reply that encodes decodes to itself, except that an OUT reply of actual length zero reads as IN |
| Pdu.ReplyReencode | src/pdu.rs:185-241 | re-encoding a decoded RET_UNLINK gives the same bytes; a decoded RET_SUBMIT changes only the packet count, to -1, and is refused exactly if its actual length exceeds any transfer |
| Pdu.UrbLead | src/pdu.rs:79-92 | no transfer message starts with the version word of the control messages |
| UsbFormat.SubmitWritten | src/pdu.rs:111-139 | the bytes of SUBMIT, and exactly which are refused: number zero, endpoint beyond 15, a length that is too large or does not match the data |
| UsbFormat.UnlinkWritten | src/pdu.rs:143-159 | the bytes of UNLINK, and exactly which are refused |
| UsbFormat.RequestRead | src/pdu.rs:80-92 | exactly which bytes read as a request, in words of the message, packet counts -1 and 0 alike, and the error for the rest |
| UsbFormat.RequestMeans | src/pdu.rs:243-297 | what each word of a request that is read means |
| UsbFormat.SubmitReplyWritten | src/pdu.rs:206-227 | the bytes of RET_SUBMIT, and exactly which are refused |
| UsbFormat.UnlinkReplyWritten | src/pdu.rs:231-240 | the bytes of RET_UNLINK, and exactly which are refused |
| UsbFormat.ReplyRead | src/pdu.rs:186-195 | exactly which bytes read as a reply, in words of the message, and the error for the rest |
| UsbFormat.ReplyMeans | src/pdu.rs:299-340 | what each word of a reply that is read means, its direction told from its length |
| Usbip.ControlRequestRoundTrip | src/usbip.rs:62-105 | every control request that encodes decodes to itself |
| Usbip.ControlRequestReencode | src/usbip.rs:62-105 | re-encoding a decoded control request gives the same bytes, without the four bytes of padding a list request may carry |
| Usbip.DeviceRoundTrip | src/usbip.rs:125-168 | every valid device decodes from its encoding, padded fields included |
| Usbip.DeviceReencode | src/usbip.rs:125-168 | a decoded device encodes back to the same bytes, and is refused exactly if one of its texts fills its field to the last byte |
| Usbip.ControlReplyRoundTrip | src/usbip.rs:213-343 | every control reply that encodes, with no devices when its status is non-zero, decodes to itself, consuming the whole buffer |
| Usbip.ControlReplyReencode | src/usbip.rs:213-343 | a decoded control reply encodes back to the same bytes, and is refused exactly if it holds such a device |
| Usbip.ControlReplyInjective | src/usbip.rs:214-269 | on those replies the encoding is injective |
| Usbip.ListAlwaysFits | src/usbip.rs:230-255 | the 4 MiB check never fires for a list of at most 1024 records |
| Usbip.KindsAreDisjoint | src/transport.rs:321-338 | the two-byte test tells control messages from transfer messages exactly |
| UsbFormat.ControlTold | src/transport.rs:321-338 | the bytes 1 and 17 in front make a message a control message |
| UsbFormat.ControlRequestWritten | src/usbip.rs:63-85 | the bytes of both control requests, and which bus ids are refused |
| UsbFormat.ControlRequestRead | src/usbip.rs:87-104 | exactly which bytes read as a control request, the padded list request included, and the error for the rest |
| UsbFormat.DeviceWritten | src/usbip.rs:126-145 | the 312 bytes of a device, and which are refused |
| UsbFormat.DeviceRead | src/usbip.rs:147-168 | exactly which bytes read as a device, and as which |
| UsbFormat.ControlReplyWritten | src/usbip.rs:214-269 | the bytes of both control replies, and which are refused with which error |
| UsbFormat.ControlReplyRead | src/usbip.rs:271-342 | exactly which bytes read as a control reply, record by record, and the error for the rest |
| UsbFormat.TextsAreCodePoints | src/usbip.rs:463-472 | the texts accepted are exactly the sequences of Unicode code points written in UTF-8 |
| Buffers.EncodeHello | src/broker.rs:42-61 | filling the buffer in place gives exactly the bytes, or the refusal, of the codec |
| Buffers.EncodeHeader | src/wire.rs:52-67 | as above, for the frame header |
| Buffers.EncodeFragment | src/wire.rs:290-303 | as above, for a fragment |
| Buffers.EncodeCapability | src/wire.rs:135-181 | as above, with the loop over endpoint records |
| Buffers.DecodeCapability | src/wire.rs:183-231 | the decoding loop gives exactly the value, or the refusal, of the codec |
| Buffers.EncodeSubmit | src/pdu.rs:111-139 | filling the buffer in place gives exactly the bytes, or the refusal, of the codec |
| Buffers.EncodeUnlink | src/pdu.rs:143-159 | as above, for UNLINK |
| Buffers.EncodeSubmitReply | src/pdu.rs:206-227 | as above, for RET_SUBMIT |
| Buffers.EncodeUnlinkReply | src/pdu.rs:231-240 | as above, for RET_UNLINK |
| Buffers.EncodeDevice | src/usbip.rs:126-145 | as above, for a device with its padded fields |
| Buffers.EncodeRecords | src/usbip.rs:243-251 | the nested loops grow exactly the bytes of the device records, and stop at the first bad one |
| Buffers.EncodeControlReply | src/usbip.rs:214-269 | the encoder gives exactly the bytes, or the refusal, of the codec |
| Buffers.DecodeControlReply | src/usbip.rs:271-342 | the decoder with its moving offset gives exactly the value, or the refusal, of the codec |
| Transport.Transport.Create | src/transport.rs:92-128 | a configuration gives a fresh, valid session object, or the reason it is refused, as Steps.SessionMade has it field by field |
| Transport.Transport.NextEvent | src/transport.rs:429-431 | taking an event removes the oldest from the queue and leaves the history as it was |
| Transport.Transport.SayHello | src/transport.rs:140-149 | the method does to the object what the step does to the session value, and keeps it valid |
| Transport.Transport.HearHello | src/transport.rs:151-158 | as above, for the peer's HELLO |
| Transport.Transport.OfferCapability | src/transport.rs:160-169 | as above, for sending CAPABILITY |
| Transport.Transport.AskToOpen | src/transport.rs:171-183 | as above, for sending OPEN |
| Transport.Transport.AgreeToOpen | src/transport.rs:185-193 | as above, for sending OPEN_OK |
| Transport.Transport.RefuseToOpen | src/transport.rs:195-205 | as above, for sending OPEN_REJECT |
| Transport.Transport.SendMessage | src/transport.rs:207-221 | as above, for sending a message, with the rollback of its reservation |
| Transport.Transport.Acknowledge | src/transport.rs:223-233 | as above, for an acknowledgement |
| Transport.Transport.ReceiveFrame | src/transport.rs:235-242 | as above, for a frame; a refused one ends the session |
| Transport.Transport.Dispatch | src/transport.rs:256-318 | the choice by role, phase and frame type does what the step for a numbered frame does |
| Transport.Transport.TakeData | src/transport.rs:286-304 | a fragment is checked, pushed, and a completed message delivered |
| Transport.Transport.HandleMessage | src/transport.rs:321-338 | a message goes to the caller if it is control, to the executor if not |
| Transport.Transport.Finish | src/transport.rs:340-347 | as the step for a completion, keeping the object valid |
| Transport.Transport.CheckCompletion | src/transport.rs:349-360 | InvalidState exactly when not running; else true, false or an error exactly when completing with those lengths would produce replies, stay silent, or fail with that error |
| Transport.Transport.FinishCancel | src/transport.rs:362-368 | as the step for a completed cancellation, keeping the object valid |
| Transport.Transport.HandleReports | src/transport.rs:370-394 | the loop over the executor's events does what taking them in and draining does |
| Transport.Transport.DrainPending | src/transport.rs:396-409 | the loop sends waiting replies exactly as the recursive step does, and stops where it stops |
| Transport.Transport.Shutdown | src/transport.rs:411-427 | closing cancels exactly the pending transfers, in the order their tokens come out, and then does what the step does: CLOSE is said unless sending the replies is refused |
| Transport.Transport.CutAndQueue | src/transport.rs:433-465 | the cutting loop does what cutting from the first offset does |
| Transport.Transport.QueueOutput | src/transport.rs:467-479 | a frame is numbered, encoded and queued, or refused |
| Transport.Transport.NumberFrame | src/transport.rs:481-502 | the counter moves before the frame is encoded |

## Left out

- src/ffi.rs and include/remoteusb.h: the C interface forwards to the session object; raw pointers, panics and struct layout are not modelled.
- src/session.rs, src/lib.rs, src/error.rs: re-exports and error texts; errors are a plain datatype here.
- The stand-alone server session of src/usbip.rs and the stand-alone wire session of src/wire.rs, which the session object does not use.
- Allocation hints, and the width of `usize`: sizes are unbounded natural numbers, and every size the program computes is bounded well below 2^64 by its own checks.
- The iteration order of hash maps: closing takes the order of tokens as a parameter, and every law holds for each order.
- Integers are in range by type; the counters that can run out (frame numbers, internal ids, tokens) are modelled with their refusals.
- Text is a byte sequence that satisfies the UTF-8 rules, without normalisation.
- Events are queued as values: that a caller may drop or reorder frames it was given is outside the two-party model, whose channels are FIFO.
- HELLO travels outside the two channels: each side may be handed any bytes as the peer's HELLO at any time, and frames that reach a session before its HELLO end it.
- SessionLaws.RepliesAreConserved: assumes caller ids below 2^63 and fewer than 2^63 replies, because the program draws internal ids from there and does not check a caller's id.
- SessionLaws.EveryTransferIsAnsweredOnce: under the same assumptions.
- Outcomes.ExecutedForetold: under the same assumptions, as is every law that foretells an answer from the replies waiting.
- Deliveries.EveryUnlinkIsAnsweredOnce: under the same assumptions.
- SessionLaws.AcknowledgingDrains: progress is claimed only while sequence numbers last and the largest reply fits the window, the agreed size and the fragment limit; otherwise a reply can wait for ever.
- SessionLaws.AcknowledgedOnce: under the same assumptions, since an id drawn twice could be acknowledged twice.
- Handshake.HandshakeNeverCrosses: says nothing of data frames beyond their being expected, since their contents are the program's own and may be refused for limits or format.
