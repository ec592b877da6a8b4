# PeerBridge: a verified model of its protocols and stores

These Dafny files model the parts of PeerBridge whose correctness spans many operations, and prove what they keep. Each
file is one module. `dafny verify dfyconfig.toml` checks all of them.

| modules | what they model |
|---|---|
| AuthorizedSessions, AuthorizedSessionRegistry, SessionPermissions, SessionRuns, ReplayRuns, EventReads, EventPolling | the registry of external sessions: connect, publish, close, retention, the sliding event window, replay, fair-share reads, polling over whole runs |
| ApprovalBroker, ApprovalRuns, ApprovalRecords | approval requests, and every interleaving of requesters, resolvers, cancellers and timeouts |
| AuditChain, CollaborationReceipt, CaptureConditions, ReceiptStability, ReplyIndexes | the audit chain, receipts that must keep verifying while the database grows, and receipts that stop the verifier |
| ToolAudit, AcpxLifecycle | one agent turn against an arbitrary child process, and its tool-call audits |
| ReleaseHandoff, HandoffConditions, ContinuityManifest, ManifestConditions, HashFraming, ReleaseTags | release checkpoints, the continuity manifest, hash preimages, release tags |
| ImportedHistory, ImportStore, ImportConditions, AnnouncementCache | imported conversations and the announcement cache |
| AgentIdentity, IdentityRuns, IdentityEvidence, LaunchArguments, LaunchEvidence | identity capabilities and redacted launch arguments |
| BridgePair, AcpTranscript, TranscriptConditions | evidence in the bridge log and in an ACP transcript |
| Results, Lists, Sorting, Texts | option and result values, filtering and first occurrences, ORDER BY, decimal numbers and text splitting |

Conventions. A class stands for an object whose methods change its fields, a method with a loop for a loop, a function for
an expression. Every method is proved equal to a specification function or to a stated property; theorems are about those
functions. The modules named after permissions, records, conditions and evidence state, in terms of rows, files and
arguments alone, when each operation succeeds, why it is refused and what it leaves. One SQLite transaction, one lock-held
region or one create-only file write is one step. Digests are functions passed in as parameters; a lemma that needs SHA-256
to have no collisions says so in a `requires` (`Collisionless` and its like), and no other lemma uses it. Redaction,
encodings, encoded sizes, file contents and path resolution are parameters too. Times are numbers, and clocks do not go
back where a lemma says so.

## What the proofs found

- `publish_event` does not repeat the room check of `connect`: a late publish to a closed or stale session makes it live
  again beside the session that took its room. SessionRuns.RevivalBreaksExclusive is such a run,
  SessionRuns.PublishKeepsExclusiveIff the exact condition for one step and SessionRuns.StaysExclusiveIff for whole runs.
- Replay by event id works only while fewer than 1000 events were stored after it (ReplayRuns.ReplayOverRuns).
- A capability file longer than 16384 bytes is written and registered, and then refused. A request with many long tool
  names is refused each time and leaves one more unrevoked capability of the same binding each time
  (IdentityRuns.LongToolsRegisteredTwice); IdentityRuns.EnsureDelivers, IdentityRuns.EnsureIdempotent and
  IdentityRuns.StaysSoundIff are the exact conditions.
- The variant table of tool names depends on set order when an allowed tool is a prefixed form of another
  (ToolAudit.OrderFreeIffUnambiguous).
- A checkpoint that passed its size check when built can still be refused when written, because the written form is
  indented: ReleaseHandoff.BuiltThenRefused. The refused file stays and its name is used up
  (ReleaseHandoff.Project.Write).
- Imported records between 16 and 32 MiB are stored but never listed (ImportStore.ImportedThenListable,
  ImportStore.StoredNotListed).
- An ACP transcript is accepted even if the tool call comes before the prompt (AcpTranscript.CallMayPrecedePrompt); when
  it does not is AcpTranscript.CallFollowsPromptIff.
- Release tags are injective on the version grammar, but every pre-release shares its tag with another text
  (ReleaseTags.SameTagIff, ReleaseTags.PreReleasesCollide).
- A collaboration receipt whose step replies to an index outside the messages before it stops the verifier with an error
  it does not catch (ReplyIndexes.StepFiveStops); ReplyIndexes.VerifierStopsIff is the exact condition, and captured
  receipts never do (ReplyIndexes.CapturedNeverStops).

## Model

| member | source | states |
|---|---|---|
| AuthorizedSessionRegistry.Registry.constructor | src/peerbridge_mcp/authorized_sessions.py:296-309 | a registry attaches to the stored tables as they are, with lifetime and cap clamped to their ranges |
| AuthorizedSessionRegistry.Registry.PruneForNewSession | src/peerbridge_mcp/authorized_sessions.py:347-402 | carries out exactly the retention rule, whose meaning is PruneMakesRoom, or leaves both tables as they were |
| AuthorizedSessions.PruneMakesRoom | src/peerbridge_mcp/authorized_sessions.py:347-402 | retention removes only terminal or stale sessions, each older than every one of those it keeps, removes exactly their events with them, touches nothing else, leaves room for one more row, and refuses only at the cap |
| AuthorizedSessionRegistry.Registry.Connect | src/peerbridge_mcp/authorized_sessions.py:431-637 | carries out exactly the specified connect: room conflict, retention for a new key, binding and ownership checks for a known key; a refusal changes nothing |
| AuthorizedSessions.ConnectKeepsConsistent | src/peerbridge_mcp/authorized_sessions.py:431-637 | a connect keeps digests, end times, windows, the cap and the absence of orphaned events |
| AuthorizedSessionRegistry.Registry.PublishEvent | src/peerbridge_mcp/authorized_sessions.py:639-793 | carries out exactly the specified publish, whose conditions and effect are SessionPermissions.PublishIff, PublishRefusals and PublishEffect; a refusal changes nothing |
| AuthorizedSessions.WindowSlides | src/peerbridge_mcp/authorized_sessions.py:735-759 | after appending event n+1 and deleting what fell out, the kept events are exactly the last 1000 sequences up to n+1, in order, intact, with different ids |
| AuthorizedSessions.PublishKeepsConsistent | src/peerbridge_mcp/authorized_sessions.py:639-793 | a publish keeps digests, end times, windows, the cap and the absence of orphaned events |
| AuthorizedSessions.ReplayWindow | src/peerbridge_mcp/authorized_sessions.py:675-709 | in one table: where what is kept at the sequence and under the id is the first event, publishing it again is a replay with the first receipt, if and only if it is among the last 1000 of its session; ReplayRuns.ReplayOverRuns delivers the hypothesis |
| ReplayRuns.ReplayOverRuns | src/peerbridge_mcp/authorized_sessions.py:675-759 | over any run of any operations that keeps the session and stores the id no second time, the owner publishing the event again gets a replay with the first receipt and no change, if and only if fewer than 1000 events of the session were stored after it |
| AuthorizedSessions.PublishThenReplay | src/peerbridge_mcp/authorized_sessions.py:675-709 | publishing twice in a row is publishing once: the second call, at any later time, is a replay with the receipt of the first and changes nothing |
| AuthorizedSessionRegistry.Registry.Close | src/peerbridge_mcp/authorized_sessions.py:795-847 | carries out exactly the specified close, whose conditions and effect are SessionPermissions.CloseIff; a refusal changes nothing |
| AuthorizedSessions.CloseKeepsConsistent | src/peerbridge_mcp/authorized_sessions.py:795-847 | a close keeps digests, end times, windows, the cap and the absence of orphaned events |
| SessionRuns.ReachableIsConsistent | src/peerbridge_mcp/authorized_sessions.py:347-402 | every registry reachable by any operations of any callers satisfies all registry invariants: self-digests match, an end time is set exactly in terminal states, no orphaned event, at most the configured number of rows, kept events are the contiguous last 1000 |
| SessionRuns.RunsStayRedacted | src/peerbridge_mcp/authorized_sessions.py:639-661 | in every reachable registry each stored text and summary is one that redaction leaves as it is |
| SessionRuns.StepKeepsIdentity | src/peerbridge_mcp/authorized_sessions.py:497-551 | no operation changes the owner agent or the conversation and room binding of an existing row; the bridge session changes only by a connect of the same agent to a row that was stale or terminal |
| SessionRuns.IdentityNeverChanges | src/peerbridge_mcp/authorized_sessions.py:497-551 | over a whole run that keeps a row its owner agent, binding and start never change and its latest sequence never decreases |
| SessionRuns.OneLiveSessionPerRoom | src/peerbridge_mcp/authorized_sessions.py:476-496 | in every run whose publishes target sessions live at that moment, at most one live session exists per room session, at the end and at all later times |
| SessionRuns.PublishKeepsExclusiveIff | src/peerbridge_mcp/authorized_sessions.py:639-793 | without that hypothesis a publish keeps rooms exclusive if and only if it ends its session or no other live session holds the room, which publish_event does not check |
| SessionRuns.StaysExclusiveIff | src/peerbridge_mcp/authorized_sessions.py:639-793 | over a whole run with any publishes rooms stay exclusive throughout if and only if no publish of it revives a session into a room that another live session holds |
| SessionRuns.RevivalBreaksExclusive | src/peerbridge_mcp/authorized_sessions.py:639-793 | a run of four operations after which two live sessions share a room: a closed session revived by a late publish |
| SessionPermissions.PublishIff | src/peerbridge_mcp/authorized_sessions.py:639-709 | in consistent tables a publish succeeds if and only if its text fits, the caller is the agent and bridge session the intact row names, the adapter announced events, and every kept event with the id has the same content |
| SessionPermissions.PublishRefusals | src/peerbridge_mcp/authorized_sessions.py:639-674 | when a publish is refused and why, in terms of the text and the row: no text, too long, no row, a wrong digest, another owner, no mirroring, a reused id |
| SessionPermissions.PublishEffect | src/peerbridge_mcp/authorized_sessions.py:675-793 | a repeated id gets the receipt of the kept event and changes nothing; a new one is stored as the next event, redacted, behind the last 999, and moves the session on; every other field, session and event stays |
| SessionPermissions.CloseIff | src/peerbridge_mcp/authorized_sessions.py:795-847 | a close succeeds if and only if the state is final and the caller owns the intact row; each refusal has its exact cause; only the state, its time and the digest change |
| SessionPermissions.OutsidersRefused | src/peerbridge_mcp/authorized_sessions.py:404-429 | a connect for a room is refused at once to exactly those who are not active members of it |
| SessionPermissions.ReconnectIff | src/peerbridge_mcp/authorized_sessions.py:463-551 | a connect to an existing row succeeds if and only if no other session holds the room, the row is intact, the binding is the same, and the caller is the owner, or another session of the owning agent once the session ended or fell silent; each refusal has its exact cause |
| SessionPermissions.NewConnectIff | src/peerbridge_mcp/authorized_sessions.py:463-505 | a connect for a new key succeeds if and only if no other session holds the room and retention makes room |
| SessionPermissions.ConnectEffect | src/peerbridge_mcp/authorized_sessions.py:501-582 | the row a connect writes: what the call says, owned by the caller; start, creation and sequence of a known row are kept, and other rows and all events too |
| SessionPermissions.PruneIff | src/peerbridge_mcp/authorized_sessions.py:347-402 | a full table is refused if and only if too few sessions have ended or fallen silent; otherwise exactly as many as needed of the earliest of them are removed with their events, if all of those are intact |
| SessionPermissions.OthersLeaveAlone | src/peerbridge_mcp/authorized_sessions.py:338-345 | over any run that keeps the session and in which only others publish to it, close it or connect to it, its row and events stay exactly as they were |
| SessionPermissions.StrangerChangesNothing | src/peerbridge_mcp/authorized_sessions.py:338-345 | in any reachable registry a publish or close by anyone but the owner changes nothing at all |
| AuthorizedSessionRegistry.Registry.ReadEvents | src/peerbridge_mcp/authorized_sessions.py:871-936 | the reading loop returns the events after the effective cursor up to the first that exceeds either limit, and refuses on a digest mismatch |
| AuthorizedSessionRegistry.ReadRows | src/peerbridge_mcp/authorized_sessions.py:905-936 | the loop itself: it stops at the first row that exceeds the remaining count or bytes |
| EventReads.TakeContinues | src/peerbridge_mcp/authorized_sessions.py:905-936 | a read goes on after n rows exactly while there is another row, fewer than the limit were read, and the first n+1 encode within the byte limit |
| EventReads.PendingOfWindow | src/peerbridge_mcp/authorized_sessions.py:871-904 | on a kept window a read starts right after the cursor, or at the first kept event when the cursor fell behind it (the gap rule) |
| AuthorizedSessionRegistry.Registry.Get | src/peerbridge_mcp/authorized_sessions.py:938-963 | one session with its first page of events, or why it is refused |
| AuthorizedSessionRegistry.Registry.List | src/peerbridge_mcp/authorized_sessions.py:965-1018 | the sessions of the agent, or all, newest first and as many as the limit held between 1 and 64 allows, each with its events read in turn under the two shared budgets |
| AuthorizedSessionRegistry.Registry.ListRows | src/peerbridge_mcp/authorized_sessions.py:1043-1070 | the listing loop with its remaining counters equals the specified allocation |
| EventReads.FairShare | src/peerbridge_mcp/authorized_sessions.py:981-1008 | a listing of n sessions returns at most 512 events and 8 MiB; every session receives at least what an equal n-th of both budgets would give it whatever the earlier ones used, so one whose next event fits an n-th of the bytes makes progress |
| EventReads.ListedShares | src/peerbridge_mcp/authorized_sessions.py:981-1008 | from any point of the loop the remaining budgets are never overdrawn and every later session still gets its equal part |
| EventPolling.DeliveryFollows | src/peerbridge_mcp/authorized_sessions.py:871-936 | over any run of operations and polls that keeps a session, no poll fails and each delivered event is the next one after the cursor, or the first kept one if that was evicted |
| EventPolling.NothingTwiceNothingLost | src/peerbridge_mcp/authorized_sessions.py:710-759 | over any such run delivered sequences strictly increase, none is delivered twice even when the gap rule resets the cursor, and every sequence passed over had been evicted |
| EventPolling.PollingDrains | src/peerbridge_mcp/authorized_sessions.py:871-936 | as many polls as there are pending events reach the end of a quiet session when each kept event fits a poll |
| ApprovalBroker.PolicyAnswers | src/peerbridge_mcp/approval_broker.py:175-201 | a request skips the queue exactly in full-access mode, or in agent-delegated mode for a routine request that offers allow-once while the limit is not reached, and then with a decision that was offered |
| ApprovalBroker.AdmitKeepsTables | src/peerbridge_mcp/approval_broker.py:186-213 | queueing keeps at most 16 pending approvals with different provider request ids and records every approval once |
| ApprovalBroker.FinalizeKeepsTables | src/peerbridge_mcp/approval_broker.py:223-261 | a finalization fails exactly when the approval is not pending or the decision was not offered; otherwise exactly one record moves from pending to the end of the history |
| ApprovalBroker.Broker.Admit | src/peerbridge_mcp/approval_broker.py:160-214 | carries out exactly the lock-held part of a request, whose conditions and effect are ApprovalRecords.AskIff, AskFaultIff and QueuedRecord |
| ApprovalBroker.Broker.Finalize | src/peerbridge_mcp/approval_broker.py:223-261 | carries out exactly the specified finalization, whose conditions and effect are ApprovalRecords.FinalizedIff |
| ApprovalBroker.Broker.Resolve | src/peerbridge_mcp/approval_broker.py:263-268 | an invalid id or decision is refused without touching the tables |
| ApprovalBroker.Broker.CancelAll | src/peerbridge_mcp/approval_broker.py:270-277 | run alone, it leaves nothing pending, appends one cancelled denial per approval and changes no earlier record |
| ApprovalBroker.Broker.ReadDecision | src/peerbridge_mcp/approval_broker.py:217-221 | the search from the newest record finds the decision recorded for the approval |
| ApprovalBroker.Broker.Snapshot | src/peerbridge_mcp/approval_broker.py:299-310 | shows the mode, every pending record with their number, and exactly the last 80 history records |
| ApprovalRecords.AskIff | src/peerbridge_mcp/approval_broker.py:160-213 | a request is queued if and only if it is well formed, the mode is not full access, fewer than 16 are pending, the delegated rule does not answer and no pending record has its provider id; it is answered, refused at the limit or refused as a duplicate exactly otherwise |
| ApprovalRecords.AskFaultIff | src/peerbridge_mcp/approval_broker.py:176-187 | which part of a malformed request it is refused for |
| ApprovalRecords.QueuedRecord | src/peerbridge_mcp/approval_broker.py:112-154 | the queued record is pending, says what was asked, offers the different decisions in order of first mention, and is the only change |
| ApprovalRecords.FinalizedIff | src/peerbridge_mcp/approval_broker.py:223-261 | a finalization succeeds if and only if the approval is pending and the decision was offered or is a denial; the recorded state is the forced one, else allowed or denied as the decision says; nothing else changes |
| ApprovalRecords.RecordedIff | src/peerbridge_mcp/approval_broker.py:215-297 | in every interleaving the history holds exactly the outcomes that moves recorded: a resolution as allowed or denied with its decision, a wait that ran out as an expired denial, a cancellation as a cancelled denial |
| ApprovalRecords.TimedOutIsExpired | src/peerbridge_mcp/approval_broker.py:215-216 | a request whose wait ran out before anybody finalized its approval stays recorded as an expired denial |
| ApprovalRecords.CancelledIsCancelled | src/peerbridge_mcp/approval_broker.py:270-297 | an approval a cancellation found pending stays recorded as a cancelled denial |
| ApprovalRecords.RecordsSayAsked | src/peerbridge_mcp/approval_broker.py:112-154 | in every interleaving each pending and each recorded approval says what some request of the run asked: provider request, action, redacted texts, risk, offered decisions |
| ApprovalRuns.RunsKeepInvariant | src/peerbridge_mcp/approval_broker.py:186-297 | in every interleaving of requests, resolutions, timeouts and cancellations: registered approvals are exactly the pending and the recorded ones, none both, none recorded twice, at most 16 pending with different provider ids, and a returned request returned the decision recorded for it |
| ApprovalRuns.HistoryIsAppendOnly | src/peerbridge_mcp/approval_broker.py:223-261 | in every interleaving no record is changed or removed and no registered approval is forgotten |
| ApprovalRuns.AllowNeedsResolution | src/peerbridge_mcp/approval_broker.py:186-268 | fail closed: a queued request returns an allowing decision only if some call resolved that approval with that decision |
| ApprovalRuns.LostRaceRaises | src/peerbridge_mcp/approval_broker.py:215-221 | when the wait runs out, the request raises exactly if another call had finalized the approval; otherwise it records a denial |
| ApprovalRuns.RequestsNeverStick | src/peerbridge_mcp/approval_broker.py:215-221 | a queued request that has not ended can always move on by itself and ends after at most three moves of its own |
| ApprovalRuns.CancelAllFinalizes | src/peerbridge_mcp/approval_broker.py:270-277 | whatever runs in between, a finished cancel_all has seen every approval pending at its snapshot finalized |
| ApprovalRuns.CancelOneReports | src/peerbridge_mcp/approval_broker.py:279-297 | cancelling one provider request reports success exactly when its own finalization recorded the denial |
| AuditChain.Diagnose | src/peerbridge_mcp/doctor.py:195-236 | the loop reports every fault of every row, in row order, and the last stored chain value |
| AuditChain.VerifyPrefix | src/peerbridge_mcp/provider_receipt.py:323-343 | the prefix up to a sequence is returned exactly when it is not empty and has no fault; otherwise the first fault is reported |
| AuditChain.SameHeadSameChain | src/peerbridge_mcp/doctor.py:195-236 | tamper evidence: two lists that both pass with the same head have equal length and agree on every hashed field |
| AuditChain.FaultsOfPrefix | src/peerbridge_mcp/doctor.py:195-236 | faults of a prefix are a prefix of the faults, so a prefix of a valid chain is valid |
| AuditChain.FaultsAreLocal | src/peerbridge_mcp/doctor.py:208-229 | faults at a row depend only on that row and on the chain value stored before it |
| AuditChain.RowFaultsMeaning | src/peerbridge_mcp/doctor.py:208-229 | which of the three faults a row has and in which order they are reported |
| AuditChain.PayloadEditDoesNotCascade | src/peerbridge_mcp/doctor.py:208-229 | editing one payload of a valid chain is reported at that row alone, as payload and chain faults |
| AuditChain.AppendingKeepsFaults | src/peerbridge_mcp/bridge.py:1818-1880 | appended events extend the chain, add no fault and hide none |
| CollaborationReceipt.CheckMessages | src/peerbridge_mcp/collaboration_receipt.py:409-448 | the loop over messages and expected steps fills the three lists of the specification or stops with its first error |
| CollaborationReceipt.FinalAckEvent | src/peerbridge_mcp/collaboration_receipt.py:355-366 | the search from the newest event finds the latest acknowledgement of the message |
| CollaborationReceipt.Capture | src/peerbridge_mcp/collaboration_receipt.py:369-495 | the capture equals its specification on every database, including every refusal; when it succeeds and what it then says are CaptureConditions.CapturedIff and CapturedSays |
| CollaborationReceipt.Verify | src/peerbridge_mcp/collaboration_receipt.py:498-561 | the verifier lists exactly the keys that differ from a fresh capture, or has no result where the capture is stopped by an index error; when that is, ReplyIndexes.VerifierStopsIff states |
| ReplyIndexes.VerifierStopsIff | src/peerbridge_mcp/collaboration_receipt.py:320-331 | the verifier is stopped by an uncaught error if and only if the chain is well-formed with as many messages as steps, some message i is reached, has a right content digest and the fields its step expects, and that step replies to an index outside -i..i-1 |
| ReplyIndexes.InsideNeverStops | src/peerbridge_mcp/collaboration_receipt.py:320-331 | a receipt whose every step replies to nothing or to a message before it gets a result on every database |
| ReplyIndexes.CapturedNeverStops | src/peerbridge_mcp/collaboration_receipt.py:498-561 | a captured receipt gets a result on every later database |
| ReplyIndexes.StepFiveStops | src/peerbridge_mcp/collaboration_receipt.py:320-331 | two acknowledged messages and a receipt whose second step replies to step 5 stop the verifier |
| ReceiptStability.CheckAttests | src/peerbridge_mcp/collaboration_receipt.py:409-448 | every message of a captured chain has the expected fields, route and reply, exactly one acknowledgement, by its recipient, and exactly one verified route receipt if it was routed |
| ReceiptStability.ExpectedIdempotent | src/peerbridge_mcp/collaboration_receipt.py:210-234 | reading a recorded step again gives the same step |
| ReceiptStability.CaptureThenVerify | src/peerbridge_mcp/collaboration_receipt.py:369-561 | a captured receipt verifies against the database it was captured from |
| ReceiptStability.VerifiesIffReadsAlike | src/peerbridge_mcp/collaboration_receipt.py:498-561 | against any database a captured receipt verifies exactly when the tables read alike there |
| ReceiptStability.AppendSafe | src/peerbridge_mcp/collaboration_receipt.py:355-366 | append-safety, exactly: after any growth a captured receipt verifies if and only if no message was added to its task and room, no receipt or route receipt for its messages, and no further acknowledgement of its final message |
| CaptureConditions.CapturedIff | src/peerbridge_mcp/collaboration_receipt.py:369-495 | a chain is captured if and only if the expectations are usable and name one room, the messages of the task are as many as the steps and each fits its step, the last one was acknowledged and the log up to that is a valid chain, and the referenced files are there, with one agreeing child receipt per participant where the schema asks |
| CaptureConditions.CheckIff | src/peerbridge_mcp/collaboration_receipt.py:409-448 | the messages pass if and only if each has a right digest, the expected sender, recipient, subject, body, room, reply and requested route, exactly one receipt, by its recipient, and exactly one verified route receipt if it is routed and none if not; the receipt then records all of that |
| CaptureConditions.CapturedSays | src/peerbridge_mcp/collaboration_receipt.py:449-495 | a captured receipt says what it was asked for and what the tables and files held, field by field |
| CaptureConditions.ContentCovers | src/peerbridge_mcp/collaboration_receipt.py:72-123 | what each content contract covers |
| CaptureConditions.ChildrenIff | src/peerbridge_mcp/collaboration_receipt.py:283-322 | the child receipts are accepted if and only if each is readable and of the scope, they are one for each participant, and each agrees with every route receipt of its agent |
| CaptureConditions.ThroughIsPrefix | src/peerbridge_mcp/provider_receipt.py:323-343 | the log up to a sequence is the prefix of the table that ends there |
| CaptureConditions.DifferencesIff | src/peerbridge_mcp/collaboration_receipt.py:516-547 | a key is reported if and only if the receipt differs there |
| CaptureConditions.VerifiesIffTrue | src/peerbridge_mcp/collaboration_receipt.py:498-561 | any receipt, edited or not, verifies on any database if and only if its schema is supported, its digest is right, and capturing its own chain and paths again says the same in every field |
| ToolAudit.OrderFreeIffUnambiguous | src/peerbridge_mcp/acpx_runner.py:203-214 | the table of tool-name variants is independent of the enumeration order of the allowed set if and only if no allowed tool is a prefixed form of another |
| ToolAudit.LookupMeaning | src/peerbridge_mcp/acpx_runner.py:203-214 | without that ambiguity a name maps to the one allowed tool it is a variant of |
| ToolAudit.ClassesPartition | src/peerbridge_mcp/acpx_runner.py:691-737 | every observed name is counted in exactly one of the three classes and every tool reported called is allowed |
| ToolAudit.StreamAudit | src/peerbridge_mcp/acpx_runner.py:691-737 | the streamed audit counts each call id once and its calls equal auxiliary plus allowed plus unrecognized |
| ToolAudit.RecordAudit | src/peerbridge_mcp/acpx_runner.py:457-520 | the recorded audit; its classes add up to its calls exactly when every result is present |
| ToolAudit.ClassOfName | src/peerbridge_mcp/acpx_runner.py:203-214 | a name is allowed if it is an allowed tool with one of the three prefixes or none, else unrecognized if it has such a prefix, else auxiliary |
| ToolAudit.StreamNamesMeaning | src/peerbridge_mcp/acpx_runner.py:691-737 | the streamed names are those of the first call of each id |
| ToolAudit.TallyMeaning | src/peerbridge_mcp/acpx_runner.py:457-520 | every result is present if and only if the first use of each id has one in its own message, and there is no error if and only if none of those is one |
| ToolAudit.NamesMeaning | src/peerbridge_mcp/acpx_runner.py:457-520 | the recorded names are those the results give, or the uses where a result gives none |
| AcpxLifecycle.WhyNoReply | src/peerbridge_mcp/acpx_runner.py:874-895 | why a command without a usable reply fails: cancelled, starved, credentials, a final rate limit, a retryable failure, or output that is no reply |
| AcpxLifecycle.Configure | src/peerbridge_mcp/acpx_runner.py:1230-1277 | creation counts as confirmed exactly when the first reply says so; the setup succeeds if and only if the replies confirm the new session, its model and, if one is configured, its reasoning |
| AcpxLifecycle.TurnEnded | src/peerbridge_mcp/acpx_runner.py:1289-1304 | the streamed turn is accepted if and only if an expected agent answered it with stop reason end_turn and a text that is not empty |
| AcpxLifecycle.PollOnce | src/peerbridge_mcp/acpx_runner.py:1310-1381 | a poll is accepted if and only if it shows the open record of the one session readably, and completes the turn if and only if that record holds the streamed answer as completed work |
| AcpxLifecycle.Poll | src/peerbridge_mcp/acpx_runner.py:1308-1389 | the polling loop ends, and ends without an error if and only if some poll shows the finished turn after polls that show the same session still at work in time |
| AcpxLifecycle.AfterPromptMeaning | src/peerbridge_mcp/acpx_runner.py:1425-1446 | an error after the prompt is passed on as it is if it is final; a transient one keeps its status and becomes final |
| AcpxLifecycle.Run | src/peerbridge_mcp/acpx_runner.py:1203-1461 | for any child process: at most one prompt; the close is the last command, exactly once, if and only if creation was confirmed; after the prompt no retryable, cancellation or resource error escapes; and the run returns a success if and only if the replies, written out field by field, make it exactly that success |
| AcpxLifecycle.NormalTurnSucceeds | src/peerbridge_mcp/acpx_runner.py:1203-1461 | a child that confirms every command and shows the finished record at once makes the run succeed with its answer, for any expected agent and any answer that is not empty |
| AcpxLifecycle.SuccessOnce | src/peerbridge_mcp/acpx_runner.py:1203-1461 | the replies make at most one success |
| AcpxLifecycle.RunWithRetries | src/peerbridge_mcp/mailbox_supervisor.py:396-426 | however often runs are retried under the supervisor policy, all of them together issue at most one prompt; retrying stops early only with a success or an error that is not retryable |
| ReleaseHandoff.VerifyChain | scripts/capture_release_handoff.py:227-270 | ends on every set of files and passes if and only if an unbroken chain starts at the latest checkpoint: indices n..1, count n, one release identity, each checkpoint binding the content of the next |
| ReleaseHandoff.ChainDistinct | scripts/capture_release_handoff.py:231-263 | an unbroken chain visits no file twice |
| ReleaseHandoff.SameLatestSameChain | scripts/capture_release_handoff.py:227-270 | two trees that agree on the latest checkpoint and both verify agree on every checkpoint of the chain |
| ReleaseHandoff.Project.Write | scripts/capture_release_handoff.py:209-224 | create-only; succeeds exactly when the path was free and the rendered form fits and carries no secret; a failed write of a new file leaves it behind |
| ReleaseHandoff.BuiltThenRefused | scripts/capture_release_handoff.py:201-224 | a checkpoint whose size when built is at most the limit, but nearer to it than the bytes indentation adds, is built and cannot be written so that it reads back |
| ReleaseHandoff.Project.Extend | scripts/capture_release_handoff.py:131-224 | building after a chain of n and writing to a new path in the root gives a chain of n+1 |
| ReleaseHandoff.ExtendsChain | scripts/capture_release_handoff.py:158-168 | the new checkpoint binds the head it was built on and every older link stays intact |
| HandoffConditions.ReadIff | scripts/capture_release_handoff.py:110-128 | a file is read as a checkpoint if and only if it parses to it, is at most 256 KiB, has the schema, carries its own digest and no secret |
| HandoffConditions.BuiltIff | scripts/capture_release_handoff.py:131-206 | a checkpoint is built if and only if it says what was asked: well-formed identifiers, different files inside the root with their sizes and digests, the next place after a checkpoint of the same release and package, and a size and content that may be written |
| ContinuityManifest.VerifyManifest | scripts/verify_continuity_manifest.py:297-409 | passes if and only if the manifest describes the tree, stated without reference to the order of the checks |
| ContinuityManifest.VerifyEntries | scripts/verify_continuity_manifest.py:313-363 | the entry loop succeeds exactly on distinct canonical matching entries and collects the rows of exactly those files |
| ContinuityManifest.ManifestFile.Refresh | scripts/verify_continuity_manifest.py:144-233 | records the tree when manifest, inventory and test evidence allow it; otherwise the file keeps its content |
| ContinuityManifest.RefreshThenVerify | scripts/verify_continuity_manifest.py:144-233 | refresh then verify on an unchanged tree passes exactly when the external authorities and the algorithm label are in order; with a release profile exactly when moreover the refresh certified a local-alpha manifest |
| ContinuityManifest.PassesDeterminesTree | scripts/verify_continuity_manifest.py:297-409 | change detection: one manifest passing on two trees means the same tracked files with the same content |
| ContinuityManifest.RootDeterminesTree | scripts/verify_continuity_manifest.py:37-43 | two passing manifests have the same aggregate root exactly when they describe the same files |
| ManifestConditions.PassesIff | scripts/verify_continuity_manifest.py:243-409 | what a passing manifest says, entry by entry: every tracked file but itself exactly once, in the form Git lists it, with its length and digest, the authorities, the count, the root, and the claims of a certified release where one is asked for |
| ManifestConditions.RefreshRecords | scripts/verify_continuity_manifest.py:144-233 | what a refresh records: every tracked file but the manifest, Markdown as documents and the rest as sources, the count, the root, the test run, and every readiness claim as certified or not |
| ImportedHistory.DeduplicateMessages | src/peerbridge_mcp/conversation_import.py:447-469 | the first 2000 different messages, renumbered from 1 |
| ImportedHistory.ParseConversations | src/peerbridge_mcp/conversation_import.py:472-539 | duplicate identities are refused exactly when two identities agree; otherwise the conversations are read in order under the message budget |
| ImportedHistory.ParsingGuarantees | src/peerbridge_mcp/conversation_import.py:490-539 | a parsed export has at most 128 conversations with different ids, at most 5000 messages, and sequences 1..k in each |
| ImportedHistory.SpanMeaning | src/peerbridge_mcp/conversation_import.py:526-533 | start and end are the earliest and latest timestamps |
| ImportedHistory.RoomPage | src/peerbridge_mcp/conversation_import.py:779-888 | a page is the last different messages below the cursor, with the count of collapsed repetitions |
| ImportedHistory.CursorMoves | src/peerbridge_mcp/conversation_import.py:781-805 | moving the cursor to a visible message shows exactly the visible messages before it: first-occurrence deduplication commutes with taking a prefix |
| ImportedHistory.PagingVisitsEachOnce | src/peerbridge_mcp/conversation_import.py:875-888 | paging backwards with any page sizes ends and visits every different message exactly once and in order, even with stored duplicates |
| ImportStore.SelectedMeaning | src/peerbridge_mcp/conversation_import.py:635-653 | a selection keeps exactly the chosen conversations, each once |
| ImportStore.Store.CheckQuota | src/peerbridge_mcp/conversation_import.py:714-729 | the walk over the store reports the quota exceeded exactly when it is |
| ImportStore.Store.ImportAll | src/peerbridge_mcp/conversation_import.py:656-745 | the storing loop equals its specification; what was created before a refusal stays |
| ImportStore.ImportingKeeps | src/peerbridge_mcp/conversation_import.py:697-732 | importing changes and removes no file and keeps the store within 512 records and 256 MiB |
| ImportStore.ReimportExists | src/peerbridge_mcp/conversation_import.py:697-712 | importing the same export again changes nothing and reports every conversation as existing, exactly when each newly built record fits the size limit |
| ImportStore.ListImports | src/peerbridge_mcp/conversation_import.py:748-766 | the newest 128 readable records of the scope, each before every one left out |
| ImportStore.ImportedThenListable | src/peerbridge_mcp/conversation_import.py:748-766 | a record the import accepts can be listed if and only if it is at most 16 MiB, although up to 32 MiB are accepted |
| ImportStore.StoredNotListed | src/peerbridge_mcp/conversation_import.py:748-766 | an empty store accepts every record between 16 and 32 MiB and then lists nothing |
| ImportConditions.ConversationSays | src/peerbridge_mcp/conversation_import.py:506-536 | the title, identifier and span of a parsed conversation |
| ImportConditions.PageSays | src/peerbridge_mcp/conversation_import.py:779-888 | a page holds the newest different messages below the cursor, as many as the limit held between 1 and 512 allows, says whether there are older ones and where they start |
| ImportConditions.SelectedIff | src/peerbridge_mcp/conversation_import.py:635-653 | a selection is refused if and only if it names no or more than 20 different conversations, or an unknown one; of an identifier it takes the last conversation |
| ImportConditions.ImportedOneIff | src/peerbridge_mcp/conversation_import.py:656-745 | what one import does and why it is refused: too large, invalid, of another scope, conflicting, over the quota, existing, created |
| ImportConditions.ListableIff | src/peerbridge_mcp/conversation_import.py:748-766 | which records a listing shows |
| BridgePair.MatchingBridgePair | src/peerbridge_mcp/acp_client_receipt.py:600-644 | returns the only pair of a call and its first matching return with no other call of the tool and session between, and nothing unless there is exactly one |
| BridgePair.PairIff | src/peerbridge_mcp/acp_client_receipt.py:600-644 | what a pair is, event by event |
| BridgePair.AppendedKeepsPair | src/peerbridge_mcp/acp_client_receipt.py:600-644 | appending to the log keeps the result if and only if no new pair ends among the added events |
| BridgePair.NoFurtherReturn | src/peerbridge_mcp/acp_client_receipt.py:600-644 | in particular when no added event is a matching return |
| AcpTranscript.TranscriptEvidence | src/peerbridge_mcp/acp_client_receipt.py:399-597 | finds the evidence of exactly the acceptable transcripts |
| AcpTranscript.AcceptedIsOrdered | src/peerbridge_mcp/acp_client_receipt.py:411-562 | in an accepted transcript initialize, session/new and prompt come in this order with their responses nested, and arguments, permission, reply, result and prompt response in this order |
| TranscriptConditions.AcceptedIff | src/peerbridge_mcp/acp_client_receipt.py:269-365 | a transcript is accepted with exactly the evidence whose rows say so, row by row: the lifecycle requests with their only answers, authentication, model selection, the one tool call with its arguments, permission, result, and the message after it |
| AcpTranscript.EvidenceUnique | src/peerbridge_mcp/acp_client_receipt.py:399-597 | a transcript has at most one evidence |
| AcpTranscript.CallMayPrecedePrompt | src/peerbridge_mcp/acp_client_receipt.py:482-549 | nothing orders the tool call after the prompt: a transcript with the whole call before the prompt is accepted |
| AcpTranscript.CallFollowsPromptIff | src/peerbridge_mcp/acp_client_receipt.py:482-549 | in an accepted transcript each part of the call follows the prompt exactly if: no start of the tool precedes it, an input of the call follows it, no permission request of the call precedes it, no completion of the call precedes it |
| AcpTranscript.UntouchedCallFollowsPrompt | src/peerbridge_mcp/acp_client_receipt.py:482-549 | the whole call follows the prompt if no update of that call id precedes it |
| AnnouncementCache.Cache.Load | src/peerbridge_mcp/announcements.py:358-400 | the active valid rows in order of publication, or why the cache is refused |
| AnnouncementCache.Cache.Save | src/peerbridge_mcp/announcements.py:431-474 | writes exactly the bounded merged rows, treating an unreadable cache as empty; a refusal leaves the file |
| AnnouncementCache.OverlayMeaning | src/peerbridge_mcp/announcements.py:448-455 | for every identity the last incoming row decides: present if active, removed if not; without one the cached row stays |
| AnnouncementCache.SavedMeaning | src/peerbridge_mcp/announcements.py:457-474 | saved rows are active, of different identities, strictly ordered, at most 150, within 1 MiB, and the longest such run of newest merged rows |
| AnnouncementCache.NewestAreKept | src/peerbridge_mcp/announcements.py:457-474 | a save drops only rows published before every row it keeps |
| AnnouncementCache.DecodedIff | src/peerbridge_mcp/announcements.py:358-385 | a cache file loads if and only if it is at most 1 MiB and parses to at most 150 valid rows of different identities, and lists exactly the current ones; each refusal has its cause |
| AnnouncementCache.ListedByPublication | src/peerbridge_mcp/announcements.py:379-385 | the list is in order of publication, then locale, then id |
| AnnouncementCache.SaveThenLoad | src/peerbridge_mcp/announcements.py:358-400 | loading at the same time returns exactly the saved rows, later exactly those that have not expired |
| AgentIdentity.Registry.Verify | src/peerbridge_mcp/agent_identity.py:399-522 | carries out exactly the specified verification, from the size limit of the file to the registry row |
| AgentIdentity.Registry.Find | src/peerbridge_mcp/agent_identity.py:805-828 | the loop over the unrevoked rows returns the newest that verifies with exactly the requested binding |
| AgentIdentity.Registry.Ensure | src/peerbridge_mcp/agent_identity.py:745-921 | returns an existing capability or registers a new one |
| AgentIdentity.Registry.Revoke | src/peerbridge_mcp/agent_identity.py:924-943 | revokes at most the one named row and reports whether it did |
| IdentityRuns.NewFileBytes | src/peerbridge_mcp/agent_identity.py:845-875 | the length of a new capability file is known from the binding before anything is drawn |
| IdentityRuns.IntactVerifies | src/peerbridge_mcp/agent_identity.py:399-522 | an intact file verifies exactly while its row is not revoked and the file is at most 16384 bytes, as that row and with its binding |
| IdentityRuns.EnsureKeepsSoundIff | src/peerbridge_mcp/agent_identity.py:789-921 | an ensure keeps every row with its file, and keeps at most one unrevoked v2 capability per exact binding if and only if it does not repeat a request whose unrevoked capability was written too long to be read back |
| IdentityRuns.StaysSoundIff | src/peerbridge_mcp/agent_identity.py:745-943 | a whole sequential run keeps at most one unrevoked v2 capability per exact binding throughout, if and only if no ensure of it is such a repetition |
| IdentityRuns.RunsStaySound | src/peerbridge_mcp/agent_identity.py:745-943 | in particular if every well-formed request of the run asks for a binding whose file fits, which can be told from the requests alone |
| IdentityRuns.ReachableIsSound | src/peerbridge_mcp/agent_identity.py:745-943 | both statements from an empty registry |
| IdentityRuns.EnsureDelivers | src/peerbridge_mcp/agent_identity.py:745-921 | a request gets a capability bound to exactly what it asked for if and only if it is well-formed and either has a readable one already or its new file fits; otherwise a well-formed request is refused although its row was registered |
| IdentityRuns.EnsureIdempotent | src/peerbridge_mcp/agent_identity.py:789-828 | the same request again returns the same capability and changes nothing, if and only if the first call returned a capability |
| IdentityRuns.TooLongAgain | src/peerbridge_mcp/agent_identity.py:365-372 | a request whose file does not fit is refused each time and each time leaves one more unrevoked row of the same binding |
| IdentityRuns.LongToolsRegisteredTwice | src/peerbridge_mcp/agent_identity.py:365-372 | 128 tool names of 200 letters are such a request: from an empty registry two calls are refused and leave two unrevoked capabilities of one binding |
| IdentityRuns.RevokedNeverVerifies | src/peerbridge_mcp/agent_identity.py:495-496 | whatever runs after a revocation, no file at any path verifies as that capability again |
| IdentityEvidence.VerifiedIff | src/peerbridge_mcp/agent_identity.py:399-522 | a file verifies if and only if it is in form, carries the digests of its own token and descriptor, names the given root, scope, agent and its own path, and an unrevoked row of its scope and id agrees with all of these; what is returned is the binding of the file in normal form |
| IdentityEvidence.RegistryRefusals | src/peerbridge_mcp/agent_identity.py:486-507 | a file in order is refused as revoked if and only if its row is missing or revoked, and as mismatched if and only if the row differs in root, agent, path, token digest or capability digest |
| IdentityEvidence.ReplacedNeverVerifies | src/peerbridge_mcp/agent_identity.py:497-507 | without digest collisions, after an issue and any further issues and revocations, whatever files are put in place, the issued path verifies only with the issued descriptor and token |
| IdentityEvidence.RequestedIff | src/peerbridge_mcp/agent_identity.py:745-788 | a request is accepted if and only if every field is in form and room, session and profile go together; it then asks for what it says with its allow-list in order |
| IdentityEvidence.FoundIsNewest | src/peerbridge_mcp/agent_identity.py:805-828 | the search returns the newest row that is usable for the binding, and nothing if and only if there is none |
| IdentityEvidence.CreatedContents | src/peerbridge_mcp/agent_identity.py:845-921 | what creating writes: the file with the drawn id, token and time under the path of the id, and one row that matches it |
| IdentityEvidence.RevokeMeaning | src/peerbridge_mcp/agent_identity.py:924-943 | revoking marks the named row if it is unrevoked, and changes nothing else |
| LaunchArguments.RedactionKeepsOption | src/peerbridge_mcp/agent_identity.py:112-131 | replacing the secret path changes the parse of no other option |
| LaunchEvidence.OptionIff | src/peerbridge_mcp/agent_identity.py:112-131 | an option has the value that follows its only occurrence; one that is repeated or without a value has none |
| LaunchEvidence.RouteFaultIff | src/peerbridge_mcp/agent_identity.py:525-557 | a launch with another route than the bound one, in any of five parts, is refused; so are labels on an unbound current capability |
| LaunchEvidence.LaunchIff | src/peerbridge_mcp/agent_identity.py:560-618 | a launch is accepted if and only if its arguments name, each once, the root, database, scope, agent and a capability that verifies for them, and the launched route is the one it is bound to |
| LaunchEvidence.RedactedIff | src/peerbridge_mcp/agent_identity.py:686-742 | redacted arguments are accepted if and only if they name the root, database, scope and agent of the record, its registered capability verifies with the recorded digest, and the route is the one it is bound to |
| LaunchArguments.RedactedLaunchAccepted | src/peerbridge_mcp/agent_identity.py:686-742 | an accepted launch is accepted again after redaction as the same capability, and at any later state exactly while that capability still verifies |
| HashFraming.Feed | scripts/release_check.py:497-506 | the loop feeds exactly the length-prefixed frames to the digest |
| HashFraming.FramingRoundTrip | scripts/release_check.py:497-506 | the decoder inverts the eight-byte length-prefix framing |
| HashFraming.SameDigestSameFiles | scripts/release_check.py:497-506 | source trees have the same digest exactly when they have the same files in the same order |
| HashFraming.RowsRoundTrip | scripts/verify_continuity_manifest.py:37-43 | the decoder inverts the NUL and newline row framing |
| HashFraming.PayloadRootOf | scripts/verify_continuity_manifest.py:37-43 | the root is a function of the set of rows: the order of the input does not matter |
| HashFraming.SameRootSameRows | scripts/verify_continuity_manifest.py:37-43 | two sets of rows have the same root exactly when they are the same |
| ReleaseTags.TagDetermines | scripts/release_check.py:317-337 | no two versions of the grammar share a tag, whatever counts as a decimal digit |
| ReleaseTags.TagOfText | scripts/release_check.py:317-337 | the tag of each form of version, written out: a becomes alpha, b beta, rc stays, and a post number follows a dot |
| ReleaseTags.SameTagIff | scripts/release_check.py:317-337 | over all texts, and whatever counts as a decimal digit, two different ones share a tag exactly when one is a pre-release version and the other its tag without the leading v |
| ReleaseTags.PreReleasesCollide | scripts/release_check.py:317-337 | so the tag of every pre-release is the tag of another text too |
| ReleaseTags.TagsCollide | scripts/release_check.py:317-337 | the texts 1.0a1 and 1.0-alpha.1 share a tag |

## Left out

- Task leases, path overlap, quorum review, mailboxes and the rest of the supervisor: outside these components.
- Other scopes of the registry: one registry serves one scope, so rows of other scopes do not appear.
- Parsing, trimming and length limits of identifiers and display texts: arguments arrive already normalised.
- The response contracts and presence rows of the registry (`authorized_sessions.py` lines 140-293): projections of rows.
- The clock is read before the registry takes its lock; the model gives each step one time.
- The registry's epoch times are floating-point numbers in the source and integers here.
- The `on_change` callback of the broker, which runs outside the lock, and exceptions it may raise.
- Approval ids, capability ids and tokens are random in the source: the model takes them as parameters and assumes an id was not used before and has the length the source gives it.
- ApprovalBroker.Broker.Snapshot: shows the pending records as a set, because the order of a dictionary carries no meaning here, and not the schema label.
- ApprovalBroker.Broker.CancelAll: is stated for a call that runs alone; ApprovalRuns.CancelAllFinalizes covers the interleaved one.
- The storage quota of the audit log, and every other use of its database.
- The verifiers of child receipts: a child is what its path yields, the same at capture and at verification.
- Database changes other than growth and acknowledgement: for these there is only CaptureConditions.VerifiesIffTrue, not which edits a receipt survives.
- CollaborationReceipt.Capture: which evidence or child file is to blame for a refusal is not modelled, only that one is.
- Receipts whose fields have the wrong JSON type, such as a reply index that is no integer: they raise in the source, and ReplyIndexes is about receipts of the right types.
- JSON text, timestamp parsing and provider-specific export shapes: models start from the parsed values.
- The process runner of the agent turn: its output is kept as the two readings made of it, one object or a stream of events.
- AcpxLifecycle.Run: the receipt built after success and the usage normalisation are not modelled.
- The one-shot mode of the agent runner.
- The check that only the local Control Room may list the sessions of all agents.
- Reading the Git state for a checkpoint: its text is a parameter.
- Checkpoints whose fields have the wrong JSON type: reading one counts as unreadable.
- ImportedHistory.ParseConversations: starts from the conversations the provider readers deliver; that each of them has an identifier is a hypothesis of ImportedHistory.ParsingGuarantees.
- The base64 and size checks before parsing, and unsafe directory entries in the import store.
- The room, member and automation parts of an imported room's view: constant fields.
- Validation rules of a single announcement: a function that keeps the locale and accepts its own results.
- Feed download, preferences and read keys of announcements.
- Registered paths that leave the capability directory: the model looks files up by their path below the state root.
- Permissions, links and reparse points of capability files. Their size is modelled; that it is not zero follows from parsing.
- IdentityRuns.IntactVerifies: an intact v2 file is no longer than one written for its binding, which a file edited by hand to hold white space need not be.
- White space around capability fields, which the source strips.
- AcpTranscript.TranscriptEvidence: which error a refused transcript raises is not modelled; nor are the digests and the server snapshot in the evidence, which do not affect the order.
- Secret scanning and redaction rules: parameters.
- The walk that collects release files, wheel inspection, licences and portable provenance.
