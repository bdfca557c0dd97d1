# Canvas server and editor: a verified model

This project models the stateful logic of the canvas application in Dafny and proves what it keeps
over all runs.

| file | what it covers |
|---|---|
| `DurableRuns.dfy`, `EventLog.dfy` | the database-backed run queue: leases, the life of one run, and its append-only numbered log |
| `EventStream.dfy`, `RunStream.dfy` | one WebSocket connection that merges log replay with live events, polling clients, and the in-process broker |
| `SandboxPool.dfy`, `Sandbox.dfy` | sandbox sessions that pin one container of a bounded pool per turn, with any number of threads, and the classes around them |
| `ExceptionLeaves.dfy`, `McpSessions.dfy`, `McpResult.dfy`, `Redaction.dfy` | MCP failures: the walk over cyclic exception graphs, one re-handshake and one retry, the result cap, and the removal of configured secrets |
| `WordTokens.dfy`, `Chunker.dfy`, `ChunkLimits.dfy` | the text chunker: paragraphs, sentences, oversize pieces and greedy packing, and when a chunk's size bounds its tokens |
| `CanvasHistory.dfy`, `CanvasCodec.dfy`, `CanvasRules.dfy` | the editor: undo and redo, the save format, what may be drawn and deleted, and what the server accepts |
| `FieldNames.dfy` | the allocator of unique field names |
| `ReActLoop.dfy` | the agent loop: its event trace, observations and approval gate |
| `Decimal.dfy`, `Texts.dfy`, `Wrappers.dfy` | decimal numerals, substrings, optional values |

Code that changes state is a class or a method proved against a specification function; the
properties are lemmas about that function. Where steps of several threads, processes or requests can
interleave, the same functions are the steps of a state machine, and its lemmas quantify over every
sequence of steps. `dafny verify dfyconfig.toml` checks everything.

## Where the code does not do what is said of it

- `sandbox.py:391-403` says an acquire that outlives its wait does not leak. It does when the turn was closed meanwhile (`SandboxPool.OrphanKeepsContainer`), and an enter inside a close loses a container (`SandboxPool.EnterInsideCloseLosesContainer`). `SandboxPool.NothingLeaksIff` is the exact condition.
- `mcp_sessions.py:234-245` promises one re-handshake per server and run. It holds exactly when no two re-handshakes of the server overlap (`McpSessions.HandshakeBudgetIff`, `McpSessions.OverlappingCallsExceedTwo`). Of two that overlap, the first can wait for ever (`McpSessions.OverlappedCallHangs`, `McpSessions.WaitEndsIff`).
- `mcp_sessions.py:304-306` says close terminates every open session. A re-handshake that still tears its stale session down at close opens a session afterwards, and a task whose table entry was overwritten or removed by another one is not ended (`McpSessions.CloseIsFinalIff`, `McpSessions.OverlappedTaskOutlivesClose`).
- `mcp_tools.py:126-128` says the agent never sees more than 50,000 characters. It holds exactly for tools whose name has at most 49,683 characters (`McpResult.ToolKeepsCapIff`).
- `execute.py:318-328` reads events before status, so the last events of a run can be missed (`EventStream.StopIsCompleteIff`).
- Nothing renews a lease, so executions of a run can overlap and outcomes replace one another, and an accepted abort can be lost (`DurableRuns.SettledIff`, `DurableRuns.OutlastedLeaseReplacesOutcome`, `DurableRuns.AbortIsLostIff`).
- A piece of an oversized sentence is bounded in words, not in tokens. The bound in tokens holds at every size exactly for texts none of whose words holds two tokens (`ChunkLimits.ChunksKeepTokenLimitIff`, `ChunkLimits.OneWordOfTwoTokens`).
- An undo while a burst is pending forgets the canvas the burst began from (`CanvasHistory.UndoForgetsBurstIff`).

## Model

| member | source | states |
|---|---|---|
| DurableRuns.DurableRunRepo.Create | backend/src/canvas_server/repos/durable_run_repo.py:26-42 | A created run is queued and unclaimed with an empty log; no other row changes. |
| DurableRuns.DurableRunRepo.ClaimNextRunnable | backend/src/canvas_server/repos/durable_run_repo.py:75-114 | Claims one of the oldest runs that are queued, or running with an expired lease, and not locked by another claim; nothing is claimed exactly when there is none, and then nothing changes. |
| DurableRuns.DurableRunRepo.HeartbeatLease | backend/src/canvas_server/repos/durable_run_repo.py:116-131 | A heartbeat succeeds exactly for the current lease owner and then moves only the expiry; from anyone else it is refused as not found and changes nothing. |
| DurableRuns.DurableRunRepo.AppendEvent | backend/src/canvas_server/repos/durable_run_repo.py:133-158 | The event is stored under the number after the highest one and the run's replay cursor is set to it; a missing run changes nothing. |
| DurableRuns.DurableRunRepo.MarkCompleted | backend/src/canvas_server/repos/durable_run_repo.py:189-198 | The row becomes completed with its result, and the lease is cleared; a missing run is reported. |
| DurableRuns.DurableRunRepo.MarkFailed | backend/src/canvas_server/repos/durable_run_repo.py:200-209 | The row becomes failed with its error, and the lease is cleared. |
| DurableRuns.DurableRunRepo.MarkAborting | backend/src/canvas_server/repos/durable_run_repo.py:211-217 | A run that has ended keeps its row; any other becomes aborting. |
| DurableRuns.DurableRunRepo.MarkAborted | backend/src/canvas_server/repos/durable_run_repo.py:219-233 | The row becomes aborted with its reason, and the lease is cleared. |
| DurableRuns.RowStaysConsistent | backend/src/canvas_server/repos/durable_run_repo.py:75-131 | Over every schedule of claims, heartbeats, aborts, finishes, failures and crashes, overlapping executions included: a running row has both lease fields, a queued or ended row neither, the attempt count is the number of claims, the start is the first claim's, the lease is the last claim's, and outcome fields match the status. |
| DurableRuns.LeasesAreHandedOver | backend/src/canvas_server/repos/durable_run_repo.py:84-111 | Over every schedule a run is claimed again only at or after the expiry then in force. |
| DurableRuns.LeasesAreDisjoint | backend/src/canvas_server/repos/durable_run_repo.py:84-111 | For arbitrary expiries and heartbeats: when the claims of a run are in start order, no two of its leases, however far apart, are in force at one moment. |
| DurableRuns.ForwardLeasesAreInOrder | backend/src/canvas_server/repos/durable_run_repo.py:105-131 | When no lease ends before it began, the claims are in start order, whatever the clocks did. |
| DurableRuns.ForwardCallsKeepLeasesDisjoint | backend/src/canvas_server/repos/durable_run_repo.py:75-131 | A condition on the calls alone: when each claim asks for a lease that does not end before it begins and no heartbeat sets an expiry before its claim, no two leases of a run are ever in force at one moment, over every schedule and whatever the clocks do. |
| DurableRuns.WorkerLeasesAreDisjoint | backend/src/canvas_server/background_run_worker.py:143-153 | As the server calls the repository, claiming for now plus the lease time and never renewing, no two leases of a run are ever in force at one moment, over every schedule and whatever the clocks do. |
| DurableRuns.BackdatedHeartbeatOverlaps | backend/src/canvas_server/repos/durable_run_repo.py:123-131 | A schedule with a heartbeat dated before its claim, which nothing in the server sends, in which two leases are in force at once: the condition on heartbeats cannot be dropped. |
| DurableRuns.BackdatedClaimOverlaps | backend/src/canvas_server/repos/durable_run_repo.py:75-114 | A schedule of claims alone, one of which ends before it begins, in which two leases are in force at once: nor can the condition on claims. |
| DurableRuns.EndedStaysEnded | backend/src/canvas_server/repos/durable_run_repo.py:189-233 | A completed, failed or aborted run is never claimed again over any schedule; with no execution left nothing about it changes. |
| DurableRuns.SettledIff | backend/src/canvas_server/background_run_worker.py:270-332 | The status of an aborting or ended run can no longer change exactly when no execution of it goes on. |
| DurableRuns.LastOutcomeIsShown | backend/src/canvas_server/background_run_worker.py:270-332 | Over every schedule the row shows the last outcome an execution wrote, with its message or reason and time, and while none is written it shows what it showed. |
| DurableRuns.EndedRowIsFrozen | backend/src/canvas_server/background_run_worker.py:143-177 | In every schedule without overlapping executions, the row of a run that ended is never written again. |
| DurableRuns.OutlastedLeaseReplacesOutcome | backend/src/canvas_server/background_run_worker.py:143-177 | The worker never renews a lease, so an execution that outlasts it is claimed again, and a completed outcome is replaced by the first execution's failure. |
| DurableRuns.QueuedAbortNeverEnds | backend/src/canvas_server/routes/execute.py:210-221 | A run aborted while queued stays aborting over every schedule, since aborting runs are not claimed. |
| DurableRuns.AbortIsLostIff | backend/src/canvas_server/background_run_worker.py:279-298 | For any number of executions: an accepted abort can still end in a completed run exactly when some execution had already read the row as not aborting, or when one is at work while a second one goes on and can end first. |
| EventLog.LogStaysGapless | backend/src/canvas_server/repos/durable_run_repo.py:133-158 | Over every interleaving of appending transactions the committed log is numbered 1..n without gap or duplicate, the replay cursor is n, and committed entries never change. |
| EventLog.CommitSucceedsIff | backend/src/canvas_server/models/canvas.py:583-586 | A commit is rolled back whole exactly when another one took its number since it read the log; otherwise it adds entry n+1 and moves the cursor. |
| EventLog.AppendSucceedsIff | backend/src/canvas_server/repos/durable_run_repo.py:133-161 | An append stores its event under the next number exactly when no other transaction committed between its read and its commit, whatever else they did. |
| EventLog.ListEvents | backend/src/canvas_server/repos/durable_run_repo.py:160-171 | Exactly the rows above the given number, in ascending order, for any table. |
| EventLog.ListedSegment | backend/src/canvas_server/repos/durable_run_repo.py:160-171 | On a gapless log the listing is one contiguous segment from the cursor to the end, for negative and too large cursors as well. |
| EventStream.NumberSurvivesWire | backend/src/canvas_server/routes/execute.py:41-42 | The loop reads back the stamped sequence number whatever the event body held under that key. |
| EventStream.FramesAgreeIff | backend/src/canvas_server/routes/execute.py:37-43 | Reconnecting shows the same object as following live exactly when the payload carries its type. |
| EventStream.WireKeepsTheRest | backend/src/canvas_server/routes/execute.py:37-43 | A frame on the wire is the payload with the stamped number and run, and on a replay the type where the payload names none; every other field is as committed. |
| EventStream.StreamStaysSound | backend/src/canvas_server/routes/execute.py:318-341 | Over every interleaving of commits, publishes, status changes and the connection's steps, frames are entries of the committed log, above the start cursor, in strictly ascending order. |
| EventStream.OnlyUnpublishedAreSkipped | backend/src/canvas_server/routes/execute.py:318-341 | When events are published in commit order, every entry passed over between the start cursor and the last frame was never published to the broker. |
| EventStream.StopIsCompleteIff | backend/src/canvas_server/routes/execute.py:319-328 | With events published in commit order, a connection that stops on a terminal status has sent everything published above its start cursor exactly when no such event was committed after its last read of the log. |
| EventStream.FinalEventIsMissed | backend/src/canvas_server/routes/execute.py:319-328 | A run in which the event that ends the run is committed between the event read and the status read and never sent. |
| EventStream.InterruptIsPassedOver | backend/src/canvas_server/routes/execute.py:174-179 | An interrupt response, committed but not published, is passed over by the next live event. |
| EventStream.UnpublishedIsSentIff | backend/src/canvas_server/routes/execute.py:317-341 | Over every schedule, publishing in any order: an entry that is never published is sent exactly when some replay reads it while nothing from its number on has been sent. |
| EventStream.LatePublishIsPassedOver | backend/src/canvas_server/background_run_worker.py:246-262 | Publishing out of commit order loses a published event. |
| RunStream.GetRunEventsAfter | backend/src/canvas_server/routes/execute.py:26-43 | The replay is exactly the frames of the entries above the cursor. |
| RunStream.SendAll | backend/src/canvas_server/routes/execute.py:322-324 | Sending a replay frame by frame appends it and leaves the cursor at the largest number. |
| RunStream.StreamRun | backend/src/canvas_server/routes/execute.py:317-341 | The loop computes its turn-by-turn specification, and sends exactly the frames it is offered that exceed its start cursor and everything offered before. |
| RunStream.LoopSendsRecords | backend/src/canvas_server/routes/execute.py:317-341 | For any turns, a connection sends exactly the records of what it is offered, the logs it reads and the events its queue gives until the run ends: a live event is sent if and only if it is ahead of everything before it. |
| RunStream.RecordsAreExact | backend/src/canvas_server/routes/execute.py:322-339 | A frame is sent exactly when it is offered with a number above the start cursor and above every number offered before. |
| RunStream.LoopIsAscending | backend/src/canvas_server/routes/execute.py:318-341 | Whatever the queue hands the loop, it sends log entries in strictly ascending order and its cursor is the last number sent. |
| RunStream.PollingSendsOneSegment | backend/src/canvas_server/routes/execute.py:318-332 | Without a queue, a connection sends exactly the contiguous segment of the log from its start cursor to the end of the longest log it read. |
| RunStream.ReconnectsSendOneSegment | backend/src/canvas_server/routes/execute.py:279-332 | For any number of polling reconnects that pass on the last number, the concatenated frames are one segment of the log with no gap and no repeat. |
| RunStream.RunEventBroker.Subscribe | backend/src/canvas_server/background_run_worker.py:32-36 | A new empty queue nobody else holds joins the run's subscribers. |
| RunStream.RunEventBroker.Unsubscribe | backend/src/canvas_server/background_run_worker.py:38-45 | Exactly that queue leaves; a run without subscribers is forgotten; other runs keep theirs. |
| RunStream.RunEventBroker.Publish | backend/src/canvas_server/background_run_worker.py:47-52 | Every subscriber of the run is handed the event once, at the end of its queue, and no other queue changes. |
| RunStream.EventQueue.Get | backend/src/canvas_server/routes/execute.py:334-337 | A wait on the queue takes its oldest event, or nothing when it is empty until the timeout. |
| SandboxPool.ContainersAreConserved | backend/src/canvas_server/sandbox.py:183-206 | Over every schedule of threads and sessions: created minus destroyed is idle plus out, never above the maximum; every container out is in exactly one slot or was lost by an overwrite; one thread per session acquires. |
| SandboxPool.NetworkedContainersAreSingleUse | backend/src/canvas_server/sandbox.py:198-206 | A container of the networked pool is handed out at most once, over every schedule. |
| SandboxPool.SessionsStayPinned | backend/src/canvas_server/sandbox.py:267-314 | For sessions closed once: until something acquires after its close, a session is held only with a container and unclosed, and a closed one keeps its container only until its one release. |
| SandboxPool.NothingLeaksIff | backend/src/canvas_server/sandbox.py:267-314 | When every enter and close is done, the containers out are exactly those of turns that go on, if and only if no enter acquired for a session after its close took the lock. |
| SandboxPool.EnteringFirstIsNeverLate | backend/src/canvas_server/sandbox.py:268-277 | If every enter takes the session lock before the close does, no acquire is late, over every schedule. |
| SandboxPool.EnteringFirstLeaksNothing | backend/src/canvas_server/sandbox.py:267-314 | If every enter takes the lock before the close does, then once all are done no container is out but those of turns that go on, and no closed session has or holds one. |
| SandboxPool.OneContainerPerTurn | backend/src/canvas_server/sandbox.py:267-283 | A session is handed at most one container and holds that one until it is closed. |
| SandboxPool.FailedAcquireGivesBack | backend/src/canvas_server/sandbox.py:268-277 | An acquire that fails gives the session lock back, ends its enter, and changes nothing else. |
| SandboxPool.EveryThreadCanEnd | backend/src/canvas_server/sandbox.py:267-314 | From every state, with no further container given out and no further call begun, every enter and close under way can come to its end and leaves no session locked. |
| SandboxPool.OrphanKeepsContainer | backend/src/canvas_server/sandbox.py:345-409 | An acquire that outlived its bounded wait leaves a container with a session nothing will close again. |
| SandboxPool.EnterInsideCloseLosesContainer | backend/src/canvas_server/sandbox.py:307-314 | A run in which an enter between the two halves of a close loses a container and leaves the session held without one. |
| Sandbox.ContainerPool.Release | backend/src/canvas_server/sandbox.py:183-206 | A released container is destroyed by the networked pool and idle again in the locked one, and the pool stays conserved. |
| Sandbox.CanvasSandboxSession.Enter | backend/src/canvas_server/sandbox.py:267-283 | The first enter of a turn takes a container and empties it of files, a failed clean aside; later enters change neither container nor files; an exhausted pool changes nothing. |
| Sandbox.TwoTurns | backend/src/canvas_server/sandbox.py:222-229 | After a turn that wrote any files, on a pool in any state, the next turn finds none when its clean works, and none on the networked pool even when it does not; with a failed clean on the same locked container it finds exactly the files the first one wrote. |
| Sandbox.CanvasSandboxSession.Exit | backend/src/canvas_server/sandbox.py:285-296 | Leaving a with-block gives nothing back. |
| Sandbox.CanvasSandboxSession.Close | backend/src/canvas_server/sandbox.py:298-314 | Close gives back the one container held, with the files in it, and nothing when none is held. |
| Sandbox.WarmTurnLeavesPoolAsItWas | backend/src/canvas_server/sandbox.py:198-199 | Taking and returning a warm container leaves the locked pool exactly as it was. |
| Sandbox.NetworkedTurnLeavesNothing | backend/src/canvas_server/sandbox.py:200-206 | After a turn on the networked pool the container is gone for good. |
| Sandbox.SandboxManager.GetSession | backend/src/canvas_server/sandbox.py:533-599 | One session per conversation and pool, reused with its container and its plotting flag updated; the networked pool is made on first use; a default session without the locked pool is an error that changes nothing. |
| Sandbox.SandboxManager.EnterSession | backend/src/canvas_server/sandbox.py:267-283 | The first enter of a session by its key takes a container from the pool the key names and from no other, and no two sessions of a pool hold the same one; a full pool changes nothing. |
| Sandbox.SandboxManager.ReleaseSession | backend/src/canvas_server/sandbox.py:601-632 | Every session of the conversation in either pool is forgotten and its container is no longer out; others are untouched. |
| Sandbox.SandboxManager.InitializePool | backend/src/canvas_server/sandbox.py:450-490 | The locked pool is made once. |
| ExceptionLeaves.IterExceptionLeaves | backend/src/canvas_server/mcp_probe.py:108-136 | The work-list loop ends on every finite graph, cycles included, and yields the walk, whose contents and order the next rows give. |
| ExceptionLeaves.WalkIsByLevels | backend/src/canvas_server/mcp_probe.py:121-136 | The walk goes level by level: first the leaves reached through groups alone, depth first and in order; then in the same way those under their causes and contexts, and so on. |
| ExceptionLeaves.StackedLeavesComeFirst | backend/src/canvas_server/mcp_probe.py:123-136 | Unseen exceptions on the stack are yielded as they lie there, before any cause or context of them. |
| ExceptionLeaves.CauseComesBeforeContext | backend/src/canvas_server/mcp_probe.py:127-136 | An exception, the ones that were waiting, and only then its cause and after that its context. |
| ExceptionLeaves.GroupComesBeforeOlderWork | backend/src/canvas_server/mcp_probe.py:130-134 | The members of a group in order, then its own cause and context, then the older work. |
| ExceptionLeaves.WalkIsExact | backend/src/canvas_server/mcp_probe.py:108-136 | The walk yields every non-group exception reachable through members, causes and contexts exactly once, and nothing else. |
| ExceptionLeaves.FirstMembersComeFirst | backend/src/canvas_server/mcp_probe.py:130-134 | The first leaf of a group is found down its first members, ahead of all causes, contexts and older work. |
| ExceptionLeaves.ClassifyRevision | backend/src/canvas_server/mcp_probe.py:174-189 | The revision reported is that of the first leaf, in the order WalkIsByLevels gives, that names one; none is reported exactly when no reachable leaf does. |
| ExceptionLeaves.StaleIffSomeLeafMentions | backend/src/canvas_server/runner/mcp_sessions.py:60-64 | Some reachable leaf mentions a marker exactly when some yielded leaf does. |
| ExceptionLeaves.IsStaleSessionError | backend/src/canvas_server/runner/mcp_sessions.py:51-64 | True exactly when the text of some reachable leaf contains a marker. |
| Redaction.SecretLiterals | backend/src/canvas_server/mcp_redaction.py:45-62 | Exactly the non-empty URLs and the credentials of at least four characters, without repeats, longest first. |
| Redaction.ReplacedKeepsTheRest | backend/src/canvas_server/mcp_redaction.py:74-75 | A replacement keeps everything between the occurrences, unchanged and in order. |
| Redaction.NoLiteralSurvives | backend/src/canvas_server/mcp_redaction.py:74-76 | When every literal clashes with the mark, none occurs anywhere in the redacted text, for every text and order of literals. |
| Redaction.RedactionIsCompleteIff | backend/src/canvas_server/mcp_redaction.py:37-76 | For bracket-free literals taken longest first, no literal survives in any text if and only if none is a substring of the mark. |
| Redaction.OverlappingLiteralComesBack | backend/src/canvas_server/mcp_redaction.py:37-76 | With brackets allowed, a literal that begins as the mark ends can reappear after redaction. |
| Redaction.CleanIsUntouched | backend/src/canvas_server/mcp_redaction.py:72-76 | A text without configured literals passes through unchanged. |
| Redaction.RedactionIsIdempotent | backend/src/canvas_server/mcp_redaction.py:65-76 | Redacting twice is redacting once. |
| Redaction.RedactMcpText | backend/src/canvas_server/mcp_redaction.py:65-76 | The loop computes the sequential replacement of all configured literals, and no secret is left when each clashes with the mark. |
| Redaction.PayloadIsRedactedInPlace | backend/src/canvas_server/mcp_redaction.py:86-95 | The rebuilt payload has the same shape, keys and other values, and each string is the redaction of the one before it. |
| Redaction.PayloadIsClean | backend/src/canvas_server/mcp_redaction.py:79-96 | No configured literal is left in any string value of a redacted payload. |
| McpSessions.OpenIsOneHandshakeEach | backend/src/canvas_server/runner/mcp_sessions.py:110-158 | Opening shakes hands once with each wanted and registered server; those that answer have a session, the rest none. |
| McpSessions.StaysValid | backend/src/canvas_server/runner/mcp_sessions.py:160-298 | Over every schedule: each entry of the table of tasks is a task of its server, every server with a task has its events until the close, and a live session's ready event is set. |
| McpSessions.HandshakeBudget | backend/src/canvas_server/runner/mcp_sessions.py:234-298 | Over every interleaving a server sees at most one handshake more than the largest number of its re-handshakes under way together, whatever state within its budget the registry starts from. |
| McpSessions.HandshakeBudgetIff | backend/src/canvas_server/runner/mcp_sessions.py:234-298 | A server that was opened sees at most 1 + m handshakes, those still to come from a teardown included, if and only if no more than m re-handshakes of it are ever under way together; two at most if and only if no two overlap. |
| McpSessions.OverlappingCallsExceedTwo | backend/src/canvas_server/runner/mcp_sessions.py:260-289 | A run of two overlapping re-handshakes with three handshakes: the budget flag is set only after both waits. |
| McpSessions.WaitEndsIff | backend/src/canvas_server/runner/mcp_sessions.py:160-191 | The wait of a re-handshake for its new session can end exactly when its ready event is set or some task holds that event or will take it up at its first step. |
| McpSessions.OverlappedCallHangs | backend/src/canvas_server/runner/mcp_sessions.py:271-285 | A run in which a second call replaces the events before the first call's task has taken a step, and the first call never comes back. |
| McpSessions.SerialCallsComeBack | backend/src/canvas_server/runner/mcp_sessions.py:234-298 | While the run is open and no two re-handshakes of a server overlap, every call that waits for it can come back, over every schedule. |
| McpSessions.CloseIsFinalIff | backend/src/canvas_server/runner/mcp_sessions.py:304-326 | From any reachable registry and whatever happens while close waits: once close is over no session is visible again and no handshake was made since it began, exactly when no re-handshake was tearing its stale session down and no connecting task was missing from the table of tasks. |
| McpSessions.OverlappedTaskOutlivesClose | backend/src/canvas_server/runner/mcp_sessions.py:275-284 | A reachable registry, without a teardown, whose close is not final: the task whose entry a second call overwrote is not waited for. |
| McpSessions.TeardownOutlivesClose | backend/src/canvas_server/runner/mcp_sessions.py:271-290 | A re-handshake whose teardown is not over when the run closes can leave a session that is visible afterwards. |
| McpSessions.McpSessionRegistry.Open | backend/src/canvas_server/runner/mcp_sessions.py:110-139 | Opening in any order of repeats and unknown ids leaves the specified sessions and handshakes. |
| McpSessions.McpSessionRegistry.Rehandshake | backend/src/canvas_server/runner/mcp_sessions.py:234-298 | Gives a new session exactly when the run is open, the server registered, its budget unspent and the server answers; the attempt spends the budget either way. |
| McpSessions.McpSessionRegistry.Close | backend/src/canvas_server/runner/mcp_sessions.py:304-326 | Closing ends every task in the table, drops every session and is idempotent. |
| McpSessions.RehandshakenIsItsSteps | backend/src/canvas_server/runner/mcp_sessions.py:271-290 | An uninterrupted re-handshake is one run of the steps: begin, end of the stale task, new task, its first step, its answer, and the return. |
| McpSessions.ClosedDownIsItsSteps | backend/src/canvas_server/runner/mcp_sessions.py:304-326 | An uninterrupted close is one run of the steps: tell the tasks, wait for each to end, clear the tables. |
| McpSessions.McpTool.Call | backend/src/canvas_server/runner/mcp_tools.py:287-323 | A call ends as specified, with the attempts it made and the session its cell holds. Unless its first attempt met a stale session that was admitted, the registry, the cell and the outcome are as after that one attempt; then it has one handshake and one spent budget more, and the server its new session or none. |
| McpSessions.OnlyStaleCallsSpend | backend/src/canvas_server/runner/mcp_tools.py:293-315 | Over every sequence of calls, a server's budget is spent, by one handshake, exactly when it was open to a re-handshake and some call of its own met a stale session; else the calls leave the server as it was. |
| McpSessions.FirstStaleCallSpends | backend/src/canvas_server/runner/mcp_tools.py:293-315 | The first stale call of an admitted server makes its one handshake, and whether it was answered decides for all later calls whether the server has a session. |
| McpSessions.RetryRule | backend/src/canvas_server/runner/mcp_tools.py:293-315 | A call makes at most two attempts, the second exactly after a stale session whose one re-handshake was there and succeeded, on the session just opened. |
| McpSessions.SerialCallsStayInBudget | backend/src/canvas_server/runner/mcp_tools.py:287-323 | For every sequence of non-overlapping calls each server sees at most two handshakes, and closing afterwards is final. |
| McpSessions.SiblingToolMissesFreshSession | backend/src/canvas_server/runner/mcp_tools.py:269-312 | Another tool of the same server keeps the stale session in its own cell: after any further calls, each of its calls that meets staleness fails, although the registry holds the fresh session. |
| McpResult.EveryBlockIsCounted | backend/src/canvas_server/runner/mcp_tools.py:139-145 | Every content block is counted once, as a text or in the tally of its own kind. |
| McpResult.TextsInOrder | backend/src/canvas_server/runner/mcp_tools.py:139-141 | The texts are taken from the text blocks in order. |
| McpResult.KindsAreInOrder | backend/src/canvas_server/runner/mcp_tools.py:142-145 | Kinds are listed in the order in which they first occur. |
| McpResult.ObservationTellsAll | backend/src/canvas_server/runner/mcp_tools.py:147-158 | The observation begins with the texts in order, a line each; it is just them when there is nothing else, and otherwise names the number of blocks of every kind and of text. |
| McpResult.HeaderNamesTool | backend/src/canvas_server/runner/mcp_tools.py:58-71 | The header gives the name of a named tool, and no source otherwise. |
| McpResult.CapKeepsWhatFits | backend/src/canvas_server/runner/mcp_tools.py:163-168 | What fits is delivered whole; what does not is the longest prefix that leaves room for the note. |
| McpResult.CapHoldsIff | backend/src/canvas_server/runner/mcp_tools.py:163-168 | For any cap, frame length and note: the text stays within the cap for every result if and only if frame and note alone do. |
| McpResult.ToolKeepsCapIff | backend/src/canvas_server/runner/mcp_tools.py:38-71 | The agent sees at most 50,000 characters of every result of a tool if and only if the tool's name has at most 49,683. |
| McpResult.FormatMcpResult | backend/src/canvas_server/runner/mcp_tools.py:113-170 | The observation is the framed, capped text of all blocks and notes, within the cap for names that keep it; and what is kept for display has one entry for every block, in order. |
| McpResult.WrapAddsOverhead | backend/src/canvas_server/runner/mcp_tools.py:58-71 | The frame costs the same whatever it holds and holds it verbatim. |
| WordTokens.TokensAreExact | backend/src/canvas_server/runner/rag_helper.py:21-25 | The tokens of a text are the maximal runs of word characters in it, and no other list is. |
| WordTokens.WordsAreExact | backend/src/canvas_server/runner/rag_helper.py:28-36 | The words of a text are the maximal runs without whitespace in it, and no other list is. |
| WordTokens.StripIsExact | backend/src/canvas_server/runner/rag_helper.py:40-41 | Stripping takes away the whitespace at both ends and nothing else. |
| WordTokens.StripAllIsExact | backend/src/canvas_server/runner/rag_helper.py:41-52 | Texts are stripped one by one in order, and exactly those of whitespace only are dropped. |
| Chunker.ParagraphsAreExact | backend/src/canvas_server/runner/rag_helper.py:50 | Paragraphs and the gaps between them make up the text; no paragraph contains a separator, and no gap could begin at an earlier or end at a later newline of its whitespace. |
| Chunker.SentenceEndIsExact | backend/src/canvas_server/runner/rag_helper.py:20 | There is exactly one end of a sentence: after a body without terminators, all terminators that follow, and all quotation marks after those. |
| Chunker.SentencesAreExact | backend/src/canvas_server/runner/rag_helper.py:20-41 | A text is read as sentences in exactly one way: each begins where the one before ended, past the stops that begin none, and is the longest match of the pattern from there. |
| Chunker.SplitIsExact | backend/src/canvas_server/runner/rag_helper.py:39-41 | The sentences of a paragraph are the stripped, non-blank ones of its lines run on, with a space for each newline and every other character kept; none of them holds a newline. |
| Chunker.SentencesKeepTokens | backend/src/canvas_server/runner/rag_helper.py:39-41 | Splitting a paragraph into sentences loses, doubles and reorders no token; every sentence is stripped and not empty. |
| Chunker.SplitSentenceTokens | backend/src/canvas_server/runner/rag_helper.py:28-36 | The loop cuts the words of a sentence into batches of the limit. |
| Chunker.BatchesKeepWords | backend/src/canvas_server/runner/rag_helper.py:28-36 | The pieces of an oversized sentence keep its tokens in order; each has at least one and at most the limit of words. |
| Chunker.BatchesAreFull | backend/src/canvas_server/runner/rag_helper.py:28-36 | The pieces of a long sentence hold its words in order, and each but the last holds exactly as many as the limit allows. |
| Chunker.ItemsAreExact | backend/src/canvas_server/runner/rag_helper.py:54-62 | The packer is given the sentences of each paragraph in order, with one mark between paragraphs and none before the first sentence. |
| Chunker.ChunkIsItsSentences | backend/src/canvas_server/runner/rag_helper.py:65-80 | A packed chunk is its sentences as they are, in order, with the paragraph marks between them, joined by single spaces; only marks at its end are cut. |
| Chunker.ChunkText | backend/src/canvas_server/runner/rag_helper.py:44-82 | The chunks are the rendering of a greedy partition of exactly the sentences of the text; read in order they have exactly the tokens of the text; and each is stripped, not empty, and within the limit in tokens or, as a piece of an oversized sentence, in words. |
| Chunker.GreedyIsUnique | backend/src/canvas_server/runner/rag_helper.py:61-77 | There is only one greedy partition, so chunk borders are determined: a chunk closes before an ordinary sentence only when that would overflow it. |
| Chunker.ChunksKeepTokens | backend/src/canvas_server/runner/rag_helper.py:44-82 | For every text and size the tokens read across all chunks are the tokens of the text. |
| Chunker.ChunksKeepLimits | backend/src/canvas_server/runner/rag_helper.py:53-82 | Every chunk is stripped and not empty; a packed one has at most the limit of tokens, a piece of an oversized sentence at most the limit of words. |
| ChunkLimits.SimpleWordsKeepTokenLimit | backend/src/canvas_server/runner/rag_helper.py:28-36 | When no word of a sentence holds two tokens, each piece of it is within the limit in tokens. |
| ChunkLimits.PiecesKeepTokenLimitIff | backend/src/canvas_server/runner/rag_helper.py:28-36 | The pieces of a sentence are within the limit in tokens at every size if and only if no word of it holds two tokens. |
| ChunkLimits.ChunksKeepTokenLimitIff | backend/src/canvas_server/runner/rag_helper.py:44-82 | Every chunk of a text is within the limit in tokens at every size if and only if no word of the text's sentences holds two tokens. |
| ChunkLimits.ChunkingExists | backend/src/canvas_server/runner/rag_helper.py:44-82 | Every text has a greedy chunking at every size. |
| ChunkLimits.OneWordOfTwoTokens | backend/src/canvas_server/runner/rag_helper.py:20-82 | The text that is one hyphenated word is, at size one, a single chunk of two tokens. |
| FieldNames.BaseNameIsIdentifier | backend/src/canvas_server/attachment_delivery.py:125-128 | The base name of any display name is a non-empty identifier that does not start with a digit. |
| FieldNames.BaseNameKeepsAlnum | backend/src/canvas_server/attachment_delivery.py:125-128 | Reducing a name keeps its letters and digits in order. |
| FieldNames.SnakeNameIsExact | backend/src/canvas_server/attachment_delivery.py:125-126 | The snake-case form is the one text of identifier characters, with no underscore doubled or at an end, that has the lower-cased letters and digits of the name in order and an underscore between two of them exactly where something else stood or a capital follows a lower-case letter or digit. |
| FieldNames.BaseNameIsExact | backend/src/canvas_server/attachment_delivery.py:125-128 | The base is the snake-case form, with the prefix before one that is empty or starts with a digit. |
| FieldNames.LegalNameIsKept | backend/src/canvas_server/attachment_delivery.py:125-128 | A snake-case identifier is kept as it is. |
| FieldNames.FirstFree | backend/src/canvas_server/attachment_delivery.py:130-134 | The suffix loop ends for every finite set of used names, and gives the base or its least free suffix. |
| FieldNames.InputAttachmentFieldNames | backend/src/canvas_server/attachment_delivery.py:110-139 | Every slot id has a name; the map is injective, avoids the reserved names, and holds identifiers only. |
| FieldNames.AllocationIsUnique | backend/src/canvas_server/attachment_delivery.py:124-139 | There is one allocation for a list of slots. |
| FieldNames.AllocationIsStable | backend/src/canvas_server/attachment_delivery.py:110-139 | Slots keep their names whatever slots are listed after them. |
| CanvasHistory.HistoryStaysCapped | frontend/src/store/canvasHistoryStore.ts:26-103 | Over every run of edits, burst commits, undos and redos, past and future together never exceed fifty. |
| CanvasHistory.UndoKeepsTimeline | frontend/src/store/canvasHistoryStore.ts:66-84 | An undo moves along past, present and future without changing their sequence. |
| CanvasHistory.RedoKeepsTimeline | frontend/src/store/canvasHistoryStore.ts:85-103 | Under the cap a redo drops nothing. |
| CanvasHistory.UndosThenRedos | frontend/src/store/canvasHistoryStore.ts:66-103 | k undos and k redos give back past, present and future exactly. |
| CanvasHistory.RedosThenUndos | frontend/src/store/canvasHistoryStore.ts:66-103 | k redos and k undos give back past, present and future exactly. |
| CanvasHistory.CommitThenUndo | frontend/src/store/canvasHistoryStore.ts:47-84 | After a burst is recorded, one undo returns to the canvas before it and one redo comes back. |
| CanvasHistory.BurstIsOneStep | frontend/src/store/canvasHistoryStore.ts:20-84 | However many changes a burst has, one undo takes all of them back and one redo brings them back; a burst that changed nothing is not recorded. |
| CanvasHistory.ReturnsToIff | frontend/src/store/canvasHistoryStore.ts:66-103 | Undo and redo reach exactly the canvases on the timeline. |
| CanvasHistory.UndoForgetsBurstIff | frontend/src/store/canvasHistoryStore.ts:66-71 | After an undo with a burst pending, the canvas the burst began from can be returned to exactly when it was on the timeline anyway. |
| CanvasHistory.CanvasHistoryStore.OnChange | frontend/src/store/canvasHistoryStore.ts:115-130 | The first change of a burst records the canvas before it; changes made while a snapshot is applied record nothing. |
| CanvasHistory.CanvasHistoryStore.CommitPendingBurst | frontend/src/store/canvasHistoryStore.ts:47-58 | The pending burst becomes the newest past snapshot and the future is dropped; without one nothing changes. |
| CanvasHistory.CanvasHistoryStore.Undo | frontend/src/store/canvasHistoryStore.ts:66-84 | Undo through the store's setters has the specified effect: the subscriber records nothing of it. |
| CanvasHistory.CanvasHistoryStore.Redo | frontend/src/store/canvasHistoryStore.ts:85-103 | Redo likewise. |
| CanvasHistory.CanvasHistoryStore.Reset | frontend/src/store/canvasHistoryStore.ts:106-113 | A reset leaves the canvas on the screen and neither past, future nor burst. |
| CanvasCodec.LoadThenSave | frontend/src/lib/canvasGraphCodec.ts:45-207 | Encoding a decoded response gives back every persisted field of every node and edge, in order, with only missing fields filled in. |
| CanvasCodec.SavedRowsTellOfNodes | frontend/src/lib/canvasGraphCodec.ts:45-120 | Saving writes each node to a row of its kind, with its place and identity and each given field under its own name. |
| CanvasCodec.LoadedNodesTellOfRows | frontend/src/lib/canvasGraphCodec.ts:122-185 | Loading shows each field of a row under its own name. |
| CanvasCodec.SaveIsStable | frontend/src/lib/canvasGraphCodec.ts:45-207 | Encode, decode and encode again equals encode, however node kinds were interleaved. |
| CanvasCodec.ReloadShowsSameIff | frontend/src/lib/canvasGraphCodec.ts:45-207 | Loading, saving and loading again shows the same canvas exactly when no tool carried import-only reference metadata. |
| CanvasRules.ConnectKeepsSoundIff | frontend/src/components/canvas/CanvasView.tsx:50-60 | A connection that passes the drag-time check keeps the canvas sound exactly when both its ends are nodes: the check lets unknown ends through. |
| CanvasRules.DeletionCutsExactly | frontend/src/lib/nodeDeletion.ts:30-32 | A deletion takes away exactly the edges that touch a deleted node. |
| CanvasRules.DeletionKeepsOrder | frontend/src/lib/nodeDeletion.ts:30-32 | The nodes that are not deleted stay, in their order. |
| CanvasRules.CanvasStore.DeleteNodeWithConfirm | frontend/src/lib/nodeDeletion.ts:15-36 | Nothing changes unless the node exists and the user confirms; then the node, its edges and any selection of it go. |
| CanvasRules.CanvasStore.DeleteSelectedNodesWithConfirm | frontend/src/lib/nodeDeletion.ts:44-68 | The selected nodes and every edge at them go after one confirmation. |
| CanvasRules.UndoRestoresDeletion | frontend/src/lib/nodeDeletion.ts:30-32 | Though nodes and edges are written separately, a deletion is one history step: one undo brings back the nodes with their edges. |
| CanvasRules.EditorStaysSound | frontend/src/lib/canvasConnectionRules.ts:11-30 | Over every run of adding, changing, connecting, deleting, clearing, undo and redo, every canvas shown or on the timeline has unique ids and only legal, correctly typed edges between its nodes. |
| CanvasRules.ValidateWiring | backend/src/canvas_server/models/api.py:237-268 | Reports the first wrongly wired edge with its fault, and none exactly when there is none. |
| CanvasRules.ServerAgreesIff | backend/src/canvas_server/models/api.py:244-267 | For an edge between known nodes the server finds no fault exactly when no attachment is involved or the client would draw it with that type. |
| CanvasRules.LegalPairsIff | frontend/src/lib/canvasConnectionRules.ts:11-32 | A connection may be drawn and has a type exactly when its ends are those of the type: agent to agent, agent to tool, agent to attachment, attachment to agent; nothing else may be drawn. |
| CanvasRules.EveryCanvasIsAccepted | backend/src/canvas_server/models/api.py:231-268 | Every canvas reachable in the editor is accepted by the server's wiring validator. |
| CanvasRules.ReloadKeepsEdges | frontend/src/lib/canvasConnectionRules.ts:52-64 | Saving and loading a sound canvas gives back its edges with their anchors. |
| CanvasRules.DefaultsAgree | backend/src/canvas_server/models/api.py:14-31 | What the editor fills in for a missing node field is what the server's models would fill in. |
| ReActLoop.StreamingReAct.AForward | backend/src/canvas_server/streaming_react.py:116-291 | The loop ends in the specified state for everything the model, client and tools may do; EveryRunIsExact says which events and records that state has. |
| ReActLoop.TurnIsExact | backend/src/canvas_server/streaming_react.py:157-284 | An iteration that does not end the loop shows its thought, its tool start, its request exactly when the client is asked, and its result; and records the prediction and the observation that its approval, tool and outcome call for. |
| ReActLoop.EveryRunIsExact | backend/src/canvas_server/streaming_react.py:135-284 | Every run goes through the iterations before the first one that ends it and shows each one's thought, tool start, request if asked, and result, which is the returned text, the error, the denial, the block or the unknown-tool note in exactly those cases; the trajectory records the same; and the iteration that ends the loop shows exactly the part of its round before the end. |
| ReActLoop.StreamingReAct.Pick | backend/src/canvas_server/streaming_react.py:157-284 | One tool iteration emits, asks, runs and records as specified; TurnIsExact says what that is. |
| ReActLoop.LoopEmitsTrace | backend/src/canvas_server/streaming_react.py:137-284 | Events are rounds of thought, tool start, optional approval request and tool result, then at most one thought, or a beginning of that when stopped; each round has exactly one observation, the one shown. |
| ReActLoop.EveryRunEmitsTrace | backend/src/canvas_server/streaming_react.py:133-291 | The same for every run of the loop from its empty trajectory. |
| ReActLoop.LoopRunsAllowed | backend/src/canvas_server/streaming_react.py:170-256 | A tool is called in an iteration exactly when it is known and needs no approval, or this iteration's own request was approved, or no client is wired and it is no MCP tool; and only once. The calls are those of exactly the iterations whose result was shown; in a loop that was stopped, possibly also of the one it was stopped in. |
| ReActLoop.EveryRunIsAllowed | backend/src/canvas_server/streaming_react.py:133-284 | The same for every run of the loop from its empty trajectory. |

## Left out

- EventStream.OnlyUnpublishedAreSkipped: assumes publishing in commit order; the event loop's scheduling of coroutines, which gives that order within one process, is not modelled, and LatePublishIsPassedOver shows what happens otherwise.
- DurableRuns.LeasesAreDisjoint: for arbitrary repository calls it assumes claims in start order; ForwardCallsKeepLeasesDisjoint and WorkerLeasesAreDisjoint put the condition on the calls instead, and the server's calls meet it.
- DurableRuns.AbortIsLostIff: every read sees the committed row; the sessions keep loaded objects after a commit (`expire_on_commit=False`), so a read through the identity map may be older, which is not modelled.
- McpSessions.OpenIsOneHandshakeEach: opening is over before any tool runs, so nothing interleaves with it.
- McpSessions.SerialCallsComeBack: while a close waits, a re-handshake that makes its task then may find its events cleared; this is for runs that are not closing. A call that is cancelled while it waits stays under way.
- SandboxPool.NothingLeaksIff: assumes that the base session class sets its one slot on entry and empties it on exit without an error; llm_sandbox is not part of this model.
- CanvasRules.EditorStaysSound: connections are drawn between nodes on the canvas, and new nodes have new ids; a stale render-time list of nodes or edges in the connect handler is not modelled.
- CanvasRules.CanvasStore.DeleteNodeWithConfirm: the wait for the confirmation and changes during it are not modelled.
- Sandbox.SandboxManager.ReleaseSession: the manager's sessions are values in its map, so aliasing between the map and a caller's session object is not captured; CanvasSandboxSession is the object form.
- RunStream.StreamRun: the loop runs for a given list of turns; how long a connection lasts, timeouts and disconnects are its environment.
- ReActLoop.StreamingReAct.AForward: the final extraction call and the shortening of an overlong trajectory belong to the DSPy library, which is not part of this model; one event callback stands for all.
- ReActLoop.EveryRunIsExact: the note about an unknown tool quotes its name plainly, without the escapes of `repr`; a result is text, and its raw blocks are the ones of McpResult.
- `DurableRunRepo.mark_running` has no caller in the server; `list_for_conversation` and the latest active run are plain queries.
- The order of `WHERE`, `ORDER BY` and `skip_locked` inside the database: a query is one atomic step over the rows it sees.
- The rendering of interrupt waits (`_wait_for_interrupt_response`, `InterruptStore`): a future that is resolved once, without further state.
- Pool shutdown, warm-up sizes, health checks and container commands: calls into llm_sandbox and Docker.
- Transport errors of the MCP SDK: they are the outcomes `Stale`, `Failed` and `Answered` of an attempt.
- The text of failure summaries in `mcp_probe.py`: a fixed table of messages.
- Unicode: the chunker works on classes of characters, and field names on ASCII letters and digits.
- Embeddings and similarity ranking in `rag_helper.py`, node collision in the editor: floating point.
- Widths, markers and colours of nodes and edges; `dependencies` of tools, which the editor never sends.
- ZIP export and import, upload matching, the delivery-method table, authentication and HTTP error shapes.
- `declared_input_nodes` and `resolve_delivery_method`: short filters that would add only easy members.
