# Verification of the research runtime

A Dafny model of the stateful core of the research runtime, with proofs of what its code and documentation
promise: the extraction pool, the browser manager, the run manager, the research loop with its decision parser and
report, the search ranking, the query parser, the evidence index and the outbound delivery.
`dafny verify dfyconfig.toml` checks all of it.

## How it is built

Code that reacts to events (pools, managers, delivery) is a pair of files. The first describes the component as a
machine: a state, the events that its handlers, timers, promises and signals can produce, a total step, an
invariant, and theorems over every behavior, that is over every finite sequence of events from the initial state.
The second has the component in its own form: a class with the fields of the source, whose methods are the pieces of
code between two awaits; each is proved to make exactly one step of the machine. The method `Handle` of each class
hands one event to its method, as the event loop does, and is proved to keep the object on a behavior of the machine,
so that the theorems about behaviors hold of every object whatever is called on it and in whatever order.

The modules whose names end in Outcomes, and FusionScores, DecisionDefects, QueryPrinting and QueryMeaning, say what each
operation makes of its input in terms of what can be observed, without the functions that compute it.

| component | machine or specification | its own form |
|---|---|---|
| extraction pool | ExtractionPool, ExtractionOutcomes | HtmlExtractionPool |
| context permits, browser launch and close, renders | PermitPool, PermitOutcomes, BrowserGenerations, SharedBrowser, BrowserOutcomes | SharedBrowserManager |
| runs, their chain of writes, crash and restart | RunLifecycle, RunOutcomes, RunDurability | ResearchRunManager |
| delivery under racing polls | DeliveryProtocol, DeliveryOutcomes | DeliveryService |
| decision parser | DecisionProtocol, AnswerEscapes, UnexpectedFields, DecisionFixpoint, DecisionDefects, LostFixpoints | DecisionParser |
| research loop and its actions | AgentLoop, LoopOutcomes | ResearchAgent |
| citations and report | Citations, CitationCounts, CitationOutcomes, GenericReport, ReportOutcomes | Citations |
| ranking of candidates, search batch | RankFusion, FusionScores, FusionRanker, RankOutcomes | CandidateRanker, AutoSearch |
| query parser | QueryParser, QueryPrinting, QueryMeaning | QueryParser |
| evidence index | EvidenceGroups, EvidenceOutcomes | EvidenceStore |
| nDCG | Evaluation | |

Wrappers, FifoQueue, Permutations and JsText hold what several of them share.

## Where the code differs from what one would expect

- Re-encoding an accepted decision does not always give the same decision. Besides URLs that grow past 2048
  characters and an answer that normalising makes blank, the derived evidence list can exceed the 100 entries that
  the envelope admits. `DecisionFixpoint.AcceptedIsFixpointIff` gives the exact condition, and LostFixpoints has an
  accepted decision that is lost for each of the three causes.
- `src/agent/agent-loop.ts:480-483` is never reached: the recovery counter is zeroed before it is raised. A model
  that at the cap keeps sending valid decisions other than a finish is stopped by the call bound and the run fails,
  unless the task has no mode and needs no evidence, in which case it is interrupted
  (`AgentLoop.WorkingAtTheCapFails`; `AgentLoop.ReviewingFails` is such a run).
- The evidence gate counts canonical citations, neither fetch responses nor documents. A response that was redirected
  and is cited under both its URLs counts twice (`Citations.RedirectedPageCountsTwice`), and any number of URLs that
  lead to one document count once each (`CitationCounts.OneDocumentCountsOften`), so that a run asked for several pages
  can finish on one document (`AgentLoop.OneDocumentCompletes`). `CitationCounts.ResultCountsPagesIff` says exactly
  when matches and fetch responses agree in number and that there are at least half as many responses;
  `CitationCounts.ResultCountsDocumentsIff` says exactly when matches and documents agree;
  `AgentLoop.CompletedPagesAreCited` says what that leaves of the gate.
- The name of the first unexpected field is tested for truth, so a field whose name is the empty string passes the
  field check of decisions, actions and findings, and hides every unexpected field behind it
  (`UnexpectedFields.EmptyNameHidesTopLevelFields`). `UnexpectedFields.UnexpectedFieldIff` says exactly when an
  unexpected field is complained about.
- An array is taken for an action record by the decision parser; it is then rejected for its first entry or, when it
  is empty, for what it lacks (`UnexpectedFields.ArrayIsNoAction`).
- When the last write of a run fails, its record in memory says how it ended and notes the error, but a restart that
  finds an earlier snapshot reports the run as failed (`RunDurability.SettledIsDurableIff`;
  `RunDurability.SettledRecordIsLost` is such a run).
- The match rule of the evidence index is not transitive, so some sequences of saves leave documents in
  disagreement. `EvidenceGroups.CoherentIffTransitive` says exactly when.

## Model

| member | source | states |
|---|---|---|
| ExtractionPool.StepKeepsInv | src/fetch-fusion/local-fetch-primary.ts:110-278 | every handler keeps the invariant of the pool and never takes back a settlement |
| ExtractionPool.WorkConservation | src/fetch-fusion/local-fetch-primary.ts:120-261 | in every reachable state of an open pool with a waiting job there are exactly `size` slots, each active or retiring; the queue never exceeds `maxQueue` although `extract` skips the check when it sees capacity |
| ExtractionPool.JobsAreInOnePlace | src/fetch-fusion/local-fetch-primary.ts:110-277 | every accepted job is once in the queue, or the active job of exactly one slot that is not retiring, or settled and in neither |
| ExtractionPool.JobsStartInOrder | src/fetch-fusion/local-fetch-primary.ts:185-200 | jobs leave the queue in the order of their numbers and every active job was started that way |
| ExtractionPool.SettledIsFinal | src/fetch-fusion/local-fetch-primary.ts:110-118 | a settled job keeps the one outcome it was given |
| ExtractionPool.CloseIsFinal | src/fetch-fusion/local-fetch-primary.ts:262-277 | after `close` all jobs are settled, none starts and none is accepted |
| ExtractionPool.PagesComeFromTheOwnWorker | src/fetch-fusion/local-fetch-primary.ts:141-154 | a job gets a page only when the slot holding it posted that page under its number |
| ExtractionPool.RefusedOnlyWhenFull | src/fetch-fusion/local-fetch-primary.ts:215-220 | an open pool refuses as full exactly when all `size` slots are taken and `maxQueue` jobs wait |
| HtmlExtraction.HtmlExtractionPool.Settle | src/fetch-fusion/local-fetch-primary.ts:110-118 | settles a job once, as the machine does |
| HtmlExtraction.HtmlExtractionPool.RetireSlot | src/fetch-fusion/local-fetch-primary.ts:120-130 | starts the termination of a slot once |
| HtmlExtraction.HtmlExtractionPool.FindIdle | src/fetch-fusion/local-fetch-primary.ts:135 | finds the first slot, in insertion order, that is neither retiring nor active |
| HtmlExtraction.HtmlExtractionPool.Assign | src/fetch-fusion/local-fetch-primary.ts:186-198 | gives the head of the queue to a slot, or drops it when posting throws |
| HtmlExtraction.HtmlExtractionPool.DispatchOnce | src/fetch-fusion/local-fetch-primary.ts:135-199 | one round of the dispatch loop; it stops exactly when there is no idle slot and no room for one |
| HtmlExtraction.HtmlExtractionPool.Dispatch | src/fetch-fusion/local-fetch-primary.ts:132-200 | the loop ends in the state in which no job can be started |
| HtmlExtraction.HtmlExtractionPool.OnMessage | src/fetch-fusion/local-fetch-primary.ts:141-154 | a message settles the active job of its slot only under its own number |
| HtmlExtraction.HtmlExtractionPool.OnError | src/fetch-fusion/local-fetch-primary.ts:155-164 | an error settles the active job and retires the slot |
| HtmlExtraction.HtmlExtractionPool.OnExit | src/fetch-fusion/local-fetch-primary.ts:165-177 | an unexpected exit settles the active job, removes the slot and dispatches |
| HtmlExtraction.HtmlExtractionPool.OnTerminated | src/fetch-fusion/local-fetch-primary.ts:123-128 | a finished termination removes the slot and dispatches |
| HtmlExtraction.HtmlExtractionPool.RetireActive | src/fetch-fusion/local-fetch-primary.ts:202-211 | takes the job off its slot before settling it and retiring the slot |
| HtmlExtraction.HtmlExtractionPool.OnAbort | src/fetch-fusion/local-fetch-primary.ts:234-242 | an abort takes a waiting job out of the queue or retires the slot of an active one |
| HtmlExtraction.HtmlExtractionPool.OnTimeout | src/fetch-fusion/local-fetch-primary.ts:244-257 | a timeout does the same with its own error |
| HtmlExtraction.HtmlExtractionPool.CheckCapacity | src/fetch-fusion/local-fetch-primary.ts:215-220 | the refusals of `extract` in their order |
| HtmlExtraction.HtmlExtractionPool.Extract | src/fetch-fusion/local-fetch-primary.ts:214-261 | refuses, or numbers, queues and dispatches a job |
| HtmlExtraction.HtmlExtractionPool.Close | src/fetch-fusion/local-fetch-primary.ts:262-277 | settles all waiting and active jobs and retires every slot |
| HtmlExtraction.HtmlExtractionPool.Handle | src/fetch-fusion/local-fetch-primary.ts:132-277 | whatever event comes next, the pool stays on a behavior of the machine |
| ExtractionOutcomes.EndingARunningJob | src/fetch-fusion/local-fetch-primary.ts:202-257 | after an abort or a timeout a running job has exactly that failure, and its slot is free of it and retiring; no other job, slot or place in the queue changes |
| ExtractionOutcomes.EndingAWaitingJob | src/fetch-fusion/local-fetch-primary.ts:234-257 | a waiting job gets the same failure, and the queue is what it was without it, in order |
| ExtractionOutcomes.EndingASettledJob | src/fetch-fusion/local-fetch-primary.ts:234-257 | a settled job stays as it is |
| ExtractionOutcomes.MessageOutcome | src/fetch-fusion/local-fetch-primary.ts:141-154 | the message a slot posts for its own job gives exactly its page, a failure when its error flag is set and another when it has no result; waiting jobs may start |
| ExtractionOutcomes.StrayMessage | src/fetch-fusion/local-fetch-primary.ts:141-142 | any other message does nothing |
| ExtractionOutcomes.WorkerErrorOutcome | src/fetch-fusion/local-fetch-primary.ts:155-164 | a worker error gives the job of the slot its own failure and retires the slot |
| ExtractionOutcomes.WorkerExitOutcome | src/fetch-fusion/local-fetch-primary.ts:165-177 | an unexpected exit gives the job of the slot its own failure, and the slot is gone |
| ExtractionOutcomes.TerminationOutcome | src/fetch-fusion/local-fetch-primary.ts:123-128 | a finished termination removes the slot, and waiting jobs may start |
| ExtractionOutcomes.RefusalOutcome | src/fetch-fusion/local-fetch-primary.ts:215-220 | the code of a refusal is that of the first of the three reasons that applies |
| ExtractionOutcomes.ExtractOutcome | src/fetch-fusion/local-fetch-primary.ts:214-261 | a job that is not refused starts at once when there is room, unless something throws at it, and waits behind all others otherwise |
| ExtractionOutcomes.CloseOutcome | src/fetch-fusion/local-fetch-primary.ts:262-277 | a close settles every open job as closed and retires every slot |
| ExtractionOutcomes.DispatchOutcome | src/fetch-fusion/local-fetch-primary.ts:132-200 | dispatching leaves every waiting job waiting, started, or failed because something threw at it, and touches no other job |
| PermitPool.StepKeepsInv | src/fetch-fusion/browser-fetch.ts:81-133 | acquire, abort, release and rejectQueued keep the invariant of the permits |
| PermitPool.PermitsAreBounded | src/fetch-fusion/browser-fetch.ts:81-133 | `active` is the number of permits that are out and at most the limit; somebody waits only while all are out; at most `maxQueue` wait |
| PermitPool.GrantsAreFifo | src/fetch-fusion/browser-fetch.ts:122-133 | permits go out in the order of the requests, each request at most once |
| PermitPool.RequestsSettleOnce | src/fetch-fusion/browser-fetch.ts:93-133 | a request is in the queue exactly while its promise is pending and is settled once |
| PermitPool.SettledIsFinal | src/fetch-fusion/browser-fetch.ts:105-120 | a rejected request and a returned permit stay what they are |
| BrowserFetch.ContextPermitPool.Acquire | src/fetch-fusion/browser-fetch.ts:81-103 | rejects, grants or queues a request |
| BrowserFetch.ContextPermitPool.OnAbort | src/fetch-fusion/browser-fetch.ts:95-99 | the abort listener of a waiter |
| BrowserFetch.ContextPermitPool.RejectQueued | src/fetch-fusion/browser-fetch.ts:105-110 | rejects every waiter and empties the queue |
| BrowserFetch.ContextPermitPool.Release | src/fetch-fusion/browser-fetch.ts:112-120 | a release function gives its permit back once |
| BrowserFetch.ContextPermitPool.Dispatch | src/fetch-fusion/browser-fetch.ts:122-133 | hands free permits to the waiters in order, passing over aborted ones |
| BrowserFetch.ContextPermitPool.Handle | src/fetch-fusion/browser-fetch.ts:72-134 | whatever is called next, the permits stay on a behavior of their machine |
| PermitOutcomes.AcquireOutcome | src/fetch-fusion/browser-fetch.ts:81-103 | a request whose signal has not fired is granted at once if and only if a permit is free, rejected as full if and only if none is free and the queue is full, and waits behind all others otherwise; one whose signal has fired is rejected for it |
| PermitOutcomes.ReleaseOutcome | src/fetch-fusion/browser-fetch.ts:112-133 | the first waiter whose signal has not fired holds the permit that comes back; those before it are rejected for their signal, those after it wait on |
| PermitOutcomes.SecondReleaseOutcome | src/fetch-fusion/browser-fetch.ts:115-116 | a second call of a release function does nothing |
| PermitOutcomes.AbortOutcome | src/fetch-fusion/browser-fetch.ts:95-99 | a waiter whose signal fires is rejected for it and leaves the queue |
| PermitOutcomes.RejectQueuedOutcome | src/fetch-fusion/browser-fetch.ts:105-110 | exactly the waiters are rejected, because the pool closes; permits that are out stay out |
| BrowserGenerations.StepKeepsInv | src/fetch-fusion/browser-fetch.ts:202-247 | every step of the launch and close protocol keeps its invariant |
| BrowserGenerations.StoredBrowserIsCurrent | src/fetch-fusion/browser-fetch.ts:224-247 | the stored browser belongs to the current generation and none is stored during a close |
| BrowserGenerations.OneLaunchAtATime | src/fetch-fusion/browser-fetch.ts:228-246 | at most one launch is under way: the stored one of the current generation, or the one a close waits for |
| BrowserGenerations.CloseLeavesNothingOpen | src/fetch-fusion/browser-fetch.ts:202-222 | when `close` resolves no browser launched before is open, even if its launch finished during the close |
| BrowserGenerations.OneBrowserAtATime | src/fetch-fusion/browser-fetch.ts:224-247 | outside a close the only connected browser is the stored one |
| SharedBrowser.RendersReturnTheirPermits | src/fetch-fusion/browser-fetch.ts:153-200 | a finished render gave its permit back exactly once if it had one; the pool counts exactly the unfinished renders that hold one |
| SharedBrowser.CoreInvariant | src/fetch-fusion/browser-fetch.ts:153-247 | however renders interleave with launch and close, the launch and close protocol keeps its invariant: the stored browser is of the current generation, at most one launch is under way, and a close that resolves leaves nothing open |
| BrowserFetch.SharedBrowserManager.StartRender | src/fetch-fusion/browser-fetch.ts:153-157 | refuses during a close, otherwise asks for a permit |
| BrowserFetch.SharedBrowserManager.GetBrowser | src/fetch-fusion/browser-fetch.ts:224-246 | refuses during a close, reuses the browser or the pending launch, or launches under the current generation |
| BrowserFetch.SharedBrowserManager.ResumeRender | src/fetch-fusion/browser-fetch.ts:157-162 | a render that got its permit goes on to its browser |
| BrowserFetch.SharedBrowserManager.EndRender | src/fetch-fusion/browser-fetch.ts:192-199 | the finally block releases the permit |
| BrowserFetch.SharedBrowserManager.OnLaunched | src/fetch-fusion/browser-fetch.ts:232-241 | a launch of an old generation closes its browser, one of the current generation stores it |
| BrowserFetch.SharedBrowserManager.OnLaunchSettled | src/fetch-fusion/browser-fetch.ts:242-244 | a settled launch forgets its own promise only |
| BrowserFetch.SharedBrowserManager.OnDisconnected | src/fetch-fusion/browser-fetch.ts:238-240 | a disconnect forgets the stored browser only if it is that one |
| BrowserFetch.SharedBrowserManager.Close | src/fetch-fusion/browser-fetch.ts:202-212 | rejects waiters, starts a new generation and takes over browser and launch |
| BrowserFetch.SharedBrowserManager.OnCloseSeesLaunch | src/fetch-fusion/browser-fetch.ts:215-217 | the close goes on with the browsers it took over |
| BrowserFetch.SharedBrowserManager.OnCloseResolved | src/fetch-fusion/browser-fetch.ts:218-220 | the close ends |
| BrowserFetch.SharedBrowserManager.Handle | src/fetch-fusion/browser-fetch.ts:153-247 | whatever event comes next, the manager stays on a behavior of the machine |
| BrowserOutcomes.StartOutcome | src/fetch-fusion/browser-fetch.ts:153-157 | a render during a close is refused; any other asks for a permit and has it at once if and only if its signal has not fired and a permit is free |
| BrowserOutcomes.ResumeOutcome | src/fetch-fusion/browser-fetch.ts:157-246 | a render with a permit whose signal has not fired goes on to render with the stored browser when that is connected, waits for the launch under way or starts one; a close or a launch that throws ends it; every render that ends this way gives its permit back |
| BrowserOutcomes.AnsweredOutcome | src/fetch-fusion/browser-fetch.ts:162-164 | a render whose launch succeeded and whose signal has not fired goes on to render with that browser; any other ends and gives its permit back |
| BrowserOutcomes.EndOutcome | src/fetch-fusion/browser-fetch.ts:192-199 | a render that ends gives its permit back |
| BrowserOutcomes.LaunchSucceedsOutcome | src/fetch-fusion/browser-fetch.ts:232-241 | a launch of the current generation gives the stored browser, one that a close overtook is not stored and closes its own browser |
| BrowserOutcomes.LaunchFailsOutcome | src/fetch-fusion/browser-fetch.ts:232-236 | a launch that fails or was invalidated leaves no browser behind |
| BrowserOutcomes.LaunchSettlesOutcome | src/fetch-fusion/browser-fetch.ts:242-244 | a settled launch is no longer pending and answers whether it succeeded |
| BrowserOutcomes.DisconnectedOutcome | src/fetch-fusion/browser-fetch.ts:238-240 | a disconnect forgets the stored browser when it is that one and no other |
| BrowserOutcomes.CloseOutcome | src/fetch-fusion/browser-fetch.ts:202-212 | a close rejects the waiters because the pool closes, raises the generation and takes over the stored browser and the launch; during a close another one does nothing |
| BrowserOutcomes.CloseStepOutcome | src/fetch-fusion/browser-fetch.ts:213-220 | a close closes the browser it took over and the one its launch gave, if it gave one, and then ends |
| BrowserOutcomes.BrowserClosedOutcome | src/fetch-fusion/browser-fetch.ts:217 | a browser that is closed is no longer open and no longer left to close |
| BrowserOutcomes.SignalOutcome | src/fetch-fusion/browser-fetch.ts:95-100 | a signal that fires changes no request by itself |
| BrowserOutcomes.AbortOutcome | src/fetch-fusion/browser-fetch.ts:95-99 | the listener of a waiting render rejects its request and takes it out of the queue |
| RunLifecycle.StepKeepsInv | src/app/run-manager.ts:58-253 | every step of a run, its writes, a crash and a restart keep the invariant |
| RunLifecycle.SnapshotsAreWrittenInOrder | src/app/run-manager.ts:236-253 | the snapshots of one process are written in the order in which they were taken |
| RunDurability.DiskIsASnapshot | src/app/run-manager.ts:236-253 | in every reachable state, restarts included, run.json is missing or one of the snapshots taken |
| RunDurability.DiskNeverGoesBack | src/app/run-manager.ts:236-253 | run.json never goes back to an older snapshot, whatever writes fail and wherever a process stops |
| RunDurability.SettledIsDurableIff | src/app/run-manager.ts:191-219 | when a persistent run has settled, run.json holds exactly its record if and only if no persistence error was noted; otherwise it is missing or unsettled, and a restart that finds it reports a failure |
| RunDurability.SettledRecordIsLost | src/app/run-manager.ts:191-253 | a run that settles as completed with a persistence error while the disk has a record that a restart takes for a failure |
| RunDurability.SettledIsKept | src/app/run-manager.ts:58-88 | a settled record that was written, and any record that a process has restored, stays on the disk and is what every later process restores |
| RunLifecycle.CrashSafety | src/app/run-manager.ts:58-88 | wherever the process stops, hydrating run.json gives a settled run whose events, numbered 1..n, are a prefix of those emitted plus at most one `run.failed` |
| RunLifecycle.HydrationIsIdempotent | src/app/run-manager.ts:70-83 | hydrating again adds nothing |
| RunLifecycle.CancellationIsDecisive | src/app/run-manager.ts:111-166 | `cancel` returns true at most once, and did so exactly when the run settles as cancelled |
| RunLifecycle.SettledRunsEndWithTheirStatus | src/app/run-manager.ts:191-219 | a settled run has one terminal event, it is the last and tells the status |
| RunLifecycle.SettledRunsStay | src/app/run-manager.ts:111-229 | no event, cancellation or change of status follows the settling or the restoring of a run |
| RunManagement.ResearchRunManager.Start | src/app/run-manager.ts:90-102 | a full manager forgets its settled runs and refuses only if that leaves no room; other runs are left alone |
| RunManagement.ResearchRunManager.Launch | src/app/run-manager.ts:93-128 | the record of a new run and its first two events |
| RunManagement.ResearchRunManager.Cancel | src/app/run-manager.ts:111-119 | accepted exactly for a known run that is neither settled nor settling nor cancelling; a run that is still being restored is not known |
| RunManagement.ResearchRunManager.Emit | src/app/run-manager.ts:221-229 | numbers an event and adds a snapshot to the chain, except for a settled or settling run |
| RunManagement.ResearchRunManager.PruneFinishedRuns | src/app/run-manager.ts:235 | forgets exactly the settled runs |
| RunManagement.ResearchRunManager.OnAgentReturned | src/app/run-manager.ts:137-139 | the terminal status of a run whose agent returned |
| RunManagement.ResearchRunManager.OnAgentThrew | src/app/run-manager.ts:140-150 | the terminal status of a run whose agent threw |
| RunManagement.ResearchRunManager.OnFlushed | src/app/run-manager.ts:152-157 | a cancellation still counts after the flush |
| RunManagement.ResearchRunManager.OnReported | src/app/run-manager.ts:158-160 | a cancellation still counts after the report, then the run settles |
| RunManagement.ResearchRunManager.SettleRun | src/app/run-manager.ts:191-211 | prepares the settled record beside the run and chains its write |
| RunManagement.ResearchRunManager.OnSettlePersisted | src/app/run-manager.ts:210-218 | the run becomes the settled record, with an error if its write failed |
| RunManagement.ResearchRunManager.OnTempWritten | src/app/run-manager.ts:243-245 | the temporary file of the next snapshot is complete |
| RunManagement.ResearchRunManager.OnRenamed | src/app/run-manager.ts:246 | the next snapshot replaces run.json |
| RunManagement.ResearchRunManager.OnWriteFailed | src/app/run-manager.ts:226-228 | a failed write leaves run.json alone and is noted on the run |
| RunManagement.ResearchRunManager.HydrateRun | src/app/run-manager.ts:64-83 | one directory of the restart loop |
| RunManagement.ResearchRunManager.OnHydratePersisted | src/app/run-manager.ts:79-83 | a restored run is taken into memory once it is written |
| RunManagement.ResearchRunManager.HandleStart | src/app/run-manager.ts:90-102 | a start keeps every run on a behavior of its machine, those it prunes included |
| RunManagement.ResearchRunManager.Handle | src/app/run-manager.ts:58-253 | whatever comes next for a run, every run stays on a behavior of its machine |
| RunOutcomes.RunsSettleAsTheirAgentEnds | src/app/run-manager.ts:129-160 | a settled run is cancelled when a cancel was accepted; otherwise it has the status its agent returned and no error, or it has failed with RUN_FAILED when its agent threw |
| RunOutcomes.OneEnd | src/app/run-manager.ts:121-160 | the agent of a run ends at most once, and has ended before the run settles |
| RunOutcomes.EveryEventIsInASnapshot | src/app/run-manager.ts:221-229 | the newest snapshot of a run that is executed has all its events |
| RunOutcomes.StartOutcome | src/app/run-manager.ts:90-128 | a start leaves a running run with two events, each with its snapshot |
| RunOutcomes.EmitOutcome | src/app/run-manager.ts:221-232 | an event of a live run is appended with the next number and its snapshot taken; later ones are dropped |
| RunOutcomes.CancelOutcome | src/app/run-manager.ts:111-119 | the first cancel of a live run marks it and adds its event; any other changes nothing |
| RunOutcomes.FlushedOutcome | src/app/run-manager.ts:152-157 | a flush that failed adds one event, and the report is due |
| RunOutcomes.ReportedOutcome | src/app/run-manager.ts:158-211 | the settled record has the event of the report, when there is one to write, and then the event of its status, and is handed to the chain |
| RunOutcomes.SettlePersistedOutcome | src/app/run-manager.ts:210-218 | the settled record is taken over and notes an error exactly when it is not on the disk |
| RunOutcomes.HydrateOutcome | src/app/run-manager.ts:70-83 | an unfinished record is restored as failed because the service restarted, with one event more, and written; any other is restored as it is |
| RunOutcomes.HydratePersistedOutcome | src/app/run-manager.ts:79-83 | a restored record is kept exactly when it was written |
| RunOutcomes.RenamedOutcome | src/app/run-manager.ts:243-246 | a rename puts the next snapshot in the place of run.json |
| RunOutcomes.WriteFailsOutcome | src/app/run-manager.ts:226-253 | a write that fails leaves run.json alone and is noted on a run that is executed |
| JsText.TrimIsIdempotent | src/agent/decision-protocol.ts:143-144 | trimming a trimmed text changes nothing |
| DecisionProtocol.NormalizingIsIdempotent | src/agent/decision-protocol.ts:20-24 | normalising the answer twice is normalising it once, for every string |
| DecisionProtocol.NormalizingShrinks | src/agent/decision-protocol.ts:20-24 | the normalised answer is never longer |
| AnswerEscapes.NormalizingUndoesEscaping | src/agent/decision-protocol.ts:20-24 | a text without backslashes whose line ends were written as escapes is given back as it was |
| DecisionProtocol.AcceptedIsWellFormed | src/agent/decision-protocol.ts:36-167 | every accepted decision has trimmed, distinct queries, normalised, distinct URLs, findings with distinct ids and claims, the limits kept, and answer and findings for a finish only |
| DecisionFixpoint.EvidenceIsTheUnionOfCitations | src/agent/decision-protocol.ts:149-154 | the derived evidence list is the duplicate-free union of the citations in the order of first mention |
| DecisionFixpoint.AcceptedIsFixpointIff | src/agent/decision-protocol.ts:33-167 | encoding an accepted decision and parsing it again gives the same decision if and only if URLs fit 2048 characters, the evidence list fits 100 entries and the answer of a finish is not blank; otherwise it is rejected |
| DecisionFixpoint.WellFormedIsFixpointIff | src/agent/decision-protocol.ts:33-167 | the encoding of any well-formed decision of any kind is accepted as that decision when it keeps the sizes, and is rejected otherwise |
| DecisionDefects.EnvelopeDefect | src/agent/decision-protocol.ts:33-35 | code and scope for a value that is no object |
| DecisionDefects.MissingFieldDefect | src/agent/decision-protocol.ts:39-40 | for an encoding that lacks any one of its fields |
| DecisionDefects.KindDefect | src/agent/decision-protocol.ts:41-43 | for a decision of no known kind |
| DecisionDefects.ActionListDefect | src/agent/decision-protocol.ts:44-54 | for actions that are no list or more than eight |
| DecisionDefects.SearchDefect | src/agent/decision-protocol.ts:60-68 | for any search of an accepted decision whose query is bad, whose mark is no truth value, or whose trimmed query an earlier one has |
| DecisionDefects.SearchShapeDefect | src/agent/decision-protocol.ts:57-62 | for a search that is no record |
| DecisionDefects.SearchMarkDefect | src/agent/decision-protocol.ts:65 | for a search without a mark |
| DecisionDefects.FetchDefect | src/agent/decision-protocol.ts:76-90 | for any fetch whose URL is bad, whose mark is no truth value, or whose normalised URL an earlier one has |
| DecisionDefects.FetchShapeDefect | src/agent/decision-protocol.ts:73-77 | for a fetch that is no record |
| DecisionDefects.FetchMarkDefect | src/agent/decision-protocol.ts:80 | for a fetch without a mark |
| DecisionDefects.ActionsDefect | src/agent/decision-protocol.ts:92-96 | for actions that do not go with the kind |
| DecisionDefects.UncertaintiesDefect | src/agent/decision-protocol.ts:97 | for uncertainties that are no list of at most 16 texts of at most 500 characters |
| DecisionDefects.AnswerDefect | src/agent/decision-protocol.ts:98-102 | for the answer of a finish that is blank, missing or too long, and for any answer of another decision |
| DecisionDefects.EvidenceListDefect | src/agent/decision-protocol.ts:103-118 | for cited URLs that are no list, too many, or cited by another decision than a finish |
| DecisionDefects.EvidenceUrlDefect | src/agent/decision-protocol.ts:107-117 | for any cited URL that is none |
| DecisionDefects.FindingListDefect | src/agent/decision-protocol.ts:119-148 | for findings that are no list, too many, or part of another decision than a finish |
| DecisionDefects.FindingDefect | src/agent/decision-protocol.ts:127-130 | for any finding with a bad id, claim, disposition or list of citations |
| DecisionDefects.FindingShapeDefect | src/agent/decision-protocol.ts:124-127 | for a finding that is no record |
| DecisionDefects.CitationDefect | src/agent/decision-protocol.ts:131-142 | for any citation of any finding that is no URL |
| DecisionDefects.DuplicateFindingDefect | src/agent/decision-protocol.ts:143-145 | for a finding with the id or the claim of an earlier one |
| LostFixpoints.EscapedBlankAnswerIsNoFixpoint | src/agent/decision-protocol.ts:98-163 | an answer that is an escaped line break is accepted and its re-encoding is rejected |
| LostFixpoints.GrowingUrlIsNoFixpoint | src/agent/decision-protocol.ts:76-88 | a URL that fits before it is normalised and not after is accepted and its re-encoding is rejected |
| LostFixpoints.ManyCitationsAreNoFixpoint | src/agent/decision-protocol.ts:102-154 | six findings that together cite more than 100 URLs are accepted with an empty top-level list, and the re-encoding is rejected |
| LostFixpoints.HundredAndOneCitations | src/agent/decision-protocol.ts:102-154 | one such finish with 101 URLs |
| UnexpectedFields.UnexpectedFieldIff | src/agent/decision-protocol.ts:33-38 | an unexpected field of the decision is complained about if and only if the first one has a name that is not empty |
| UnexpectedFields.UnexpectedSearchFieldIff | src/agent/decision-protocol.ts:57-59 | the same for a search action |
| UnexpectedFields.UnexpectedFetchFieldIff | src/agent/decision-protocol.ts:73-75 | the same for a fetch action |
| UnexpectedFields.UnexpectedFindingFieldIff | src/agent/decision-protocol.ts:124-126 | the same for a finding |
| UnexpectedFields.EmptyNameHidesTopLevelFields | src/agent/decision-protocol.ts:37-40 | behind a field with the empty name the unexpected fields of a decision are read as if they were not there |
| UnexpectedFields.EmptyNameHidesSearchFields | src/agent/decision-protocol.ts:57-59 | the same in a search action |
| UnexpectedFields.EmptyNameHidesFetchFields | src/agent/decision-protocol.ts:73-75 | the same in a fetch action |
| UnexpectedFields.EmptyNameHidesFindingFields | src/agent/decision-protocol.ts:124-126 | the same in a finding |
| UnexpectedFields.ArrayIsNoAction | src/agent/decision-protocol.ts:57-75 | an array in the place of an action is rejected, for its first entry or, when empty, for what it lacks |
| DecisionParser.ParseAgentDecision | src/agent/decision-protocol.ts:33-167 | the parser with its loops and early exits computes the specified result, error codes and scopes included |
| DecisionParser.ReadSearchActions | src/agent/decision-protocol.ts:55-70 | the loop over search actions with its duplicate check |
| DecisionParser.ReadFetchActions | src/agent/decision-protocol.ts:71-91 | the loop over fetch actions with its duplicate check |
| DecisionParser.ReadUrls | src/agent/decision-protocol.ts:106-117 | the loop over cited URLs keeps each normalised URL once |
| DecisionParser.ReadFindings | src/agent/decision-protocol.ts:122-147 | the loop over findings with its duplicate check |
| Citations.CanonicalIsIdempotent | src/evidence/citations.ts:3-16 | a canonical URL is its own canonical form, provided parsing reads it back |
| Citations.MatchedFetchedEvidenceUrls | src/evidence/citations.ts:18-34 | the two loops compute the shown URLs of the matched keys in order of insertion |
| Citations.FetchedKeys | src/evidence/citations.ts:19-26 | a key is known exactly when a page with content has it, and shows the last such page |
| Citations.ResultCountsCanonicalCitations | src/evidence/citations.ts:27-33 | the length of the result is the number of distinct canonical citations that match |
| Citations.MatchMeansFetchedPage | src/evidence/citations.ts:18-34 | a match has a cited URL and a page with content under the same canonical URL |
| Citations.MorePagesMatchMore | src/evidence/citations.ts:18-34 | fetching more pages never loses a match |
| Citations.RedirectedPageCountsTwice | src/evidence/citations.ts:22-33 | one page cited under both its URLs counts twice |
| CitationCounts.ResultCountsPagesIff | src/evidence/citations.ts:18-34 | the length of the result is the number of fetch responses it stands for if and only if no response stands for two cited keys, and never more than twice that number |
| CitationCounts.ResultCountsDocumentsIff | src/evidence/citations.ts:18-34 | the length of the result is the number of different documents it shows if and only if no two different cited keys lead to responses that show the same one; all of these documents were fetched |
| CitationCounts.OneDocumentCountsOften | src/evidence/citations.ts:18-34 | any number of URLs that are redirected to one document gives as many matches |
| CitationOutcomes.CanonicalMeans | src/evidence/citations.ts:3-16 | only http and https URLs have a canonical form; it keeps protocol and host, drops the fragment and the tracking parameters and nothing else, and strips the slashes at the end of the path |
| CitationOutcomes.MatchesComeInOrder | src/evidence/citations.ts:27-34 | the results stand in the order of the citations, each the first with its key, and show the page last fetched under it; no citation that leads to a page is missing |
| AgentLoop.CallBoundSparesIterations | src/agent/agent-loop.ts:264-271 | the call bound never cuts a run below the iteration cap, two calls are left when the cap is reached, and at most 100 turns are executed |
| AgentLoop.AlwaysPaid | src/agent/agent-loop.ts:392-416 | below the cap the calls made never exceed twice the executed turns plus the pending recoveries |
| AgentLoop.CompletedIsSound | src/agent/agent-loop.ts:418-440 | a completed run ends with a finish that passed the gate of its mode against the pages it fetched |
| AgentLoop.CompletedFindingsAreBacked | src/agent/agent-loop.ts:423-436 | in target mode a completed run has, at different places of its list, enough confirmed findings with different ids and claims, each citing a page fetched with content when evidence is required |
| AgentLoop.CompletedPagesAreCited | src/agent/agent-loop.ts:420-431 | where evidence is required a completed run cites at least half as many fetch responses as pages it was asked for, and all unless it cites one under two keys; it cites at least one fetched document, and as many as asked for unless two cited keys lead to the same one |
| AgentLoop.OneDocumentCompletes | src/agent/agent-loop.ts:419-436 | a run that was asked for up to eight pages is completed on one document that it fetched under as many URLs |
| AgentLoop.FinishedIff | src/agent/agent-loop.ts:432-440 | a run is completed if and only if one of its calls is answered by a finish that passes the gate |
| AgentLoop.ProtocolFailureIff | src/agent/agent-loop.ts:392-414 | a run fails by the protocol if and only if it uses all its calls or a completion is rejected right after one that was rejected or asked for work at the cap |
| AgentLoop.IterationsUsedIff | src/agent/agent-loop.ts:271-499 | a run ends with its iterations used up if and only if it comes to the cap and there either has no mode and needs no evidence or a finish misses the gate |
| AgentLoop.IterationsUsedMeans | src/agent/agent-loop.ts:437-499 | what the result of such a run looks like |
| AgentLoop.StopsAtTheCap | src/agent/agent-loop.ts:271 | with no mode and no required evidence a run that comes to the cap is interrupted there, with calls left |
| AgentLoop.WorkingAtTheCapFails | src/agent/agent-loop.ts:271-497 | a run whose model keeps sending valid decisions other than a finish at the cap is interrupted when the task has no mode and needs no evidence, and otherwise stopped by the call bound alone, as failed |
| AgentLoop.ReviewingFails | src/agent/agent-loop.ts:464-497 | one such run: a model that always reviews, in a task of one round |
| AgentLoop.AllowedKeepsBudget | src/agent/agent-loop.ts:86-102 | actions that pass the history check and differ among themselves keep the budget |
| AgentLoop.ExactActionBudget | src/agent/agent-loop.ts:86-102 | in every run each exact query or URL is attempted at most three times, unmarked first and as a retry later; the limits per turn hold and no review follows a review in target mode |
| AgentLoop.ExecuteAppendsInOrder | src/agent/action-executor.ts:66-151 | pages are appended in action order, all or none |
| AgentLoop.OnePagePerFetch | src/agent/action-executor.ts:107-151 | a run holds one page for each executed fetch action |
| AgentLoop.RunEndsFrom | src/agent/agent-loop.ts:270-499 | every run ends, and its result is that of its last call |
| AgentLoop.RunFromIsRun | src/agent/agent-loop.ts:270-499 | what is left of a run from any of its calls gives the result of the run |
| ResearchAgent.SettleActionBatch | src/agent/action-executor.ts:28-33 | the values of a batch in action order, or nothing when one was rejected |
| ResearchAgent.ExecuteAgentActions | src/agent/action-executor.ts:60-152 | the next state of an executed decision |
| ResearchAgent.ReadCompletion | src/agent/agent-loop.ts:366-391 | the parser and the checks after it, in their order |
| ResearchAgent.ApplyDecision | src/agent/agent-loop.ts:415-492 | what an accepted decision leads to |
| ResearchAgent.RunResearchAgent | src/agent/agent-loop.ts:236-500 | the loop computes the specified result for every environment |
| LoopOutcomes.OptionsAreTakenAsGiven | src/agent/agent-loop.ts:245-269 | the limits of a valid task are those it gives, and 100, 8, 8 and 1 without them |
| LoopOutcomes.SearchHistoryIsEveryAction | src/agent/agent-loop.ts:87 | the history of searches is every search of every decision in order, with its mark |
| LoopOutcomes.FetchHistoryIsEveryAction | src/agent/agent-loop.ts:88 | the same for the fetches |
| LoopOutcomes.RetryErrorIsTheFirst | src/agent/agent-loop.ts:89-100 | there is a complaint exactly when an action is marked wrong, and it is the one about the first of these |
| LoopOutcomes.AcceptedExactlyIf | src/agent/agent-loop.ts:366-391 | a completion is accepted if and only if it gives a decision whose marks are right, that repeats no review in target mode and keeps the limits per turn |
| LoopOutcomes.UnreadableOutcome | src/agent/agent-loop.ts:366-370 | the code for a completion that gives no decision |
| LoopOutcomes.UnacceptableOutcome | src/agent/agent-loop.ts:371-391 | the code for a decision that is not acceptable, the checks in their order |
| LoopOutcomes.FinishOutcome | src/agent/agent-loop.ts:418-463 | a finish ends the run as completed when it has what the task asks for: enough cited pages where evidence is required, all rounds in rounds mode, enough confirmed findings at different places in target mode; otherwise the run is interrupted, used up or not, with the gap noted |
| LoopOutcomes.FinishedExactlyIf | src/agent/agent-loop.ts:418-440 | a run is completed if and only if some call is answered by such a finish |
| LoopOutcomes.FinishedRunsDoAllRounds | src/agent/agent-loop.ts:431-440 | a completed run in rounds mode has done exactly the asked number of iterations and has one decision more, the finish |
| LoopOutcomes.WorkOutcome | src/agent/agent-loop.ts:486-492 | work below the cap is executed and the loop goes on with its outcome, or the run is interrupted with nothing of the turn kept |
| LoopOutcomes.WorkAtTheCapOutcome | src/agent/agent-loop.ts:464-484 | work at the cap is refused and the model asked once more |
| LoopOutcomes.RejectionOutcome | src/agent/agent-loop.ts:392-414 | a rejected completion is answered by one more call, a second in a row fails the run |
| LoopOutcomes.DisturbedOutcome | src/agent/agent-loop.ts:273-347 | how a run ends whose signal is aborted or whose call throws |
| LoopOutcomes.SearchResultsGrowInOrder | src/agent/action-executor.ts:66-105 | the search results grow by the hits of each search, in the order of the actions |
| GenericReport.ReportCountsAddUp | src/artifacts/generic-report.ts:59-92 | every finding is counted under one disposition, every page under at most one outcome |
| GenericReport.ReportAgreesWithLoop | src/artifacts/generic-report.ts:61-72 | the report of a completed run never says that evidence is missing and says completed exactly when the answer is not blank |
| ReportOutcomes.ReportCounts | src/artifacts/generic-report.ts:59-92 | each count of the report is the number of pages with that outcome or of findings with that disposition |
| ReportOutcomes.AnswerStatusMeans | src/artifacts/generic-report.ts:64-72 | blocked if and only if cited pages or confirmed findings are lacking; otherwise failed for a failed run, interrupted for an interrupted or cancelled one, and completed for a completed one with an answer |
| ReportOutcomes.UnfinishedReport | src/artifacts/generic-report.ts:64-72 | a run whose last decision is no finish is reported as blocked exactly when its task requires evidence or a number of results |
| Evaluation.GainOverDiscountIsWorth | src/search/auto/evaluation.ts:15-17 | a growing gain over a growing discount is worth more further up |
| Evaluation.SortedIsBest | src/search/auto/evaluation.ts:25-30 | no order of the same values gains more in its first n than the sorted one, or as much without agreeing with it |
| Evaluation.NdcgIsNormalised | src/search/auto/evaluation.ts:19-36 | nDCG lies between 0 and 1 for every ranking with non-negative relevances and every k |
| Evaluation.NdcgIsOneIff | src/search/auto/evaluation.ts:19-36 | nDCG is 1 exactly when the first k are the best k in order and something is relevant |
| Evaluation.IdealIgnoresOrder | src/search/auto/evaluation.ts:25-28 | the ideal list does not depend on the order of the ranking |
| RankFusion.ReciprocalRankFusion | src/search/auto/fusion-ranker.js:454-466 | the loops over a map compute the specified score, ranks and count |
| RankFusion.FillBestRanks | src/search/auto/fusion-ranker.js:455-462 | the first loop keeps the best rank of each provider |
| RankFusion.FusionIsBounded | src/search/auto/fusion-ranker.js:454-466 | the score lies strictly between 0 and the number of providers over k |
| RankFusion.AddingNeverLowers | src/search/auto/fusion-ranker.js:454-466 | one more occurrence never lowers the score |
| RankFusion.FusionIgnoresOrder | src/search/auto/fusion-ranker.js:454-466 | over named providers the fusion does not depend on the order of the occurrences |
| FusionScores.ScoreIsOverTheLeast | src/search/auto/fusion-ranker.js:454-466 | the score is the sum of 1 / (k + rank) over one occurrence of each provider, the first with the least rank; a rank that is absent or not positive counts as 1 |
| FusionScores.ScoreOfDifferentProviders | src/search/auto/fusion-ranker.js:454-466 | over different providers it is that sum over all occurrences |
| FusionScores.ProvidersAreListed | src/search/auto/fusion-ranker.js:457-463 | each provider is listed with the least of its ranks, and nobody else is |
| FusionScores.ProvidersAreCounted | src/search/auto/fusion-ranker.js:465 | the number of providers is that of those listed |
| FusionScores.BetterRankRaisesScore | src/search/auto/fusion-ranker.js:458-464 | an occurrence that takes a rank below all of its provider raises the score |
| FusionScores.OneProviderScore | src/search/auto/fusion-ranker.js:464 | a single provider adds 1 / (k + its rank) |
| FusionRanker.EveryInputIsCountedOnce | src/search/auto/fusion-ranker.js:481-579 | results and rejection counts add up to the inputs |
| FusionRanker.ResultsAreOrderedAndDistinct | src/search/auto/fusion-ranker.js:538-560 | results are strictly ordered by score, base score and URL, have distinct canonical URLs, are accepted inputs, and their fusion is bounded |
| FusionRanker.StatisticsIgnoreOrder | src/search/auto/fusion-ranker.js:126-152 | the term statistics do not depend on the order of the documents |
| FusionRanker.RankIgnoresInputOrder | src/search/auto/fusion-ranker.js:468-560 | when the inputs that pass have distinct canonical URLs and explicit ranks, every permutation of the inputs gives the same list |
| RankOutcomes.ItemsAreAcceptedInputs | src/search/auto/fusion-ranker.js:481-527 | what is grouped are the accepted inputs in their order, with their own rank or their position |
| RankOutcomes.RejectionsAreCounted | src/search/auto/fusion-ranker.js:481-510 | each input that does not pass is counted for the first check it does not meet |
| RankOutcomes.IrrelevantAreCounted | src/search/auto/fusion-ranker.js:523-527 | an input that passes is rejected as irrelevant when the query has tokens and nothing but the page shape speaks for it |
| RankOutcomes.DocumentsAreTheFirst | src/search/auto/fusion-ranker.js:127-131 | the statistics are over the first candidate of each URL |
| RankOutcomes.StatisticsCount | src/search/auto/fusion-ranker.js:132-146 | they count the documents and, for each token, the documents that contain it |
| RankOutcomes.MeanLengthMeans | src/search/auto/fusion-ranker.js:140-143 | the mean length times the number of documents is the sum of the lengths, and one without documents |
| RankOutcomes.ResultMeans | src/search/auto/fusion-ranker.js:528-558 | a result comes from the first accepted input of its URL with the highest base score, and adds the fusion of all accepted inputs of that URL to it |
| RankOutcomes.EveryUrlHasResult | src/search/auto/fusion-ranker.js:528-558 | every accepted input has a result for its URL |
| RankOutcomes.ResultsAreInOrder | src/search/auto/fusion-ranker.js:559 | a higher score stands first, then a higher base score, then the smaller URL |
| RankOutcomes.AloneScore | src/search/auto/fusion-ranker.js:538-542 | an input that is alone with its URL adds 1 / (k + its rank) to its base score |
| RankOutcomes.BetterRankStandsFirst | src/search/auto/fusion-ranker.js:538-559 | of two inputs with equal base scores, each alone with its URL, the one with the better provider rank stands first |
| RankOutcomes.BetterProviderRankStandsFirst | src/search/auto/fusion-ranker.js:538-559 | of two results with equal base scores, each from one provider, the one with the better rank stands first |
| RankOutcomes.RequestedK | src/search/auto/fusion-ranker.js:472-473 | k is the requested one when it is positive and 60 otherwise |
| CandidateRanker.CollectPending | src/search/auto/fusion-ranker.js:481-517 | the first loop with its rejection counters |
| CandidateRanker.BuildTermStatistics | src/search/auto/fusion-ranker.js:126-152 | the first document of each URL, token frequencies and mean length |
| CandidateRanker.CountDocument | src/search/auto/fusion-ranker.js:133-137 | one more for each token of a document |
| CandidateRanker.GroupPending | src/search/auto/fusion-ranker.js:520-536 | the second loop with its groups and counters |
| CandidateRanker.RankCandidates | src/search/auto/fusion-ranker.js:468-579 | the whole ranking as specified |
| AutoSearch.Search | src/search/auto/auto.ts:23-119 | exactly the engines in scope that fit the budget are called, in order; every record is output, limited, filtered or a duplicate as the ranking counts it; the output is the limited ranking, ordered and with distinct URLs; the outcome follows cancellation, deadline, output and failures in this order |
| AutoSearch.BoundedEngineCalls | src/search/auto/auto.ts:209-214 | the most calls that neither the engines nor the request forbid; eight when no finite number is requested |
| AutoSearch.AggregateEmptyOutcome | src/search/auto/auto.ts:269-280 | the first failure in the order of priority, or an empty success |
| AutoSearch.EmptyOutcomeIsFirstFailure | src/search/auto/auto.ts:269-280 | that outcome is a failure of some engine, and no engine has one that comes before it |
| QueryParser.ReadAtom | src/search/auto/query/query-parser.js:16-40 | reads the specified value and always advances |
| QueryParser.ReadNext | src/search/auto/query/query-parser.js:88-99 | white space, modifier and atom; the index grows |
| QueryParser.ParseQuery | src/search/auto/query/query-parser.js:68-153 | the loop computes the specified query |
| QueryParser.TermIsNext | src/search/auto/query/query-parser.js:88-99 | a printed term is read as itself and what follows is left |
| QueryParser.PrintedTermsParseBack | src/search/auto/query/query-parser.js:16-153 | printing any non-empty terms as signed, escaped, quoted atoms and parsing them gives the same lists and nothing else |
| QueryPrinting.TokenIsNext | src/search/auto/query/query-parser.js:16-99 | a printed token, quoted or plain, with any sign, is read as itself and what follows is left |
| QueryPrinting.PrintedTokensAreRead | src/search/auto/query/query-parser.js:86-99 | whatever is done with them, printed tokens are read as the tokens they are |
| QueryPrinting.UnclosedIsNext | src/search/auto/query/query-parser.js:16-40 | a last quoted text without its closing quote is read to the end and known not to be closed |
| QueryMeaning.PrintedItemsParseBack | src/search/auto/query/query-parser.js:16-153 | printing texts, filters, OR groups and empty texts and parsing them gives the groups, the texts in the list of their sign and quotes, the required ones and the phrases without the alternatives, each filter with the last value that sets it, four of them in lower case, and a diagnostic for every empty, repeated or bad filter, every unsupported one and every empty text |
| QueryMeaning.UnclosedTextParses | src/search/auto/query/query-parser.js:16-153 | the same with a last text whose quote is not closed, and the diagnostic for it |
| QueryMeaning.GroupAdds | src/search/auto/query/query-parser.js:106-139 | texts joined by OR are one group, which is there when it is finished |
| QueryMeaning.FilterMeans | src/search/auto/query/query-parser.js:53-66 | what a filter changes: its value and its diagnostic |
| QueryMeaning.FlattenHas | src/search/auto/query/query-parser.js:142 | the alternatives are the values of all groups |
| QueryMeaning.OutsideIsFilter | src/search/auto/query/query-parser.js:142-149 | the terms that are kept are those that are no alternative, in order |
| EvidenceGroups.BestIsFirst | src/workspace/evidence-store.ts:104-130 | the head of the sorted group precedes every other member |
| EvidenceGroups.RestIsSorted | src/workspace/evidence-store.ts:131-134 | the duplicates are exactly the other members in ascending order |
| EvidenceGroups.SaveKeepsConsistent | src/workspace/evidence-store.ts:167-263 | where matching is transitive a save leaves every document with the relations of its group |
| EvidenceGroups.GroupsHaveOneCanonical | src/workspace/evidence-store.ts:104-196 | after any sequence of such saves every group has one canonical document, the best by rank, first seen and id; all members point to it and its duplicate list is exactly the sorted rest |
| EvidenceGroups.IntransitiveBreaks | src/workspace/evidence-store.ts:90-196 | where matching is not transitive three saves leave a listed duplicate that calls itself canonical |
| EvidenceGroups.CoherentIffTransitive | src/workspace/evidence-store.ts:90-196 | the relations stay coherent over all saves of some documents if and only if matching is transitive among them |
| EvidenceOutcomes.IndexTellsTheSaves | src/workspace/evidence-store.ts:222-263 | after any sequence of saves there is one document for each id; it keeps the time of its first save, has the rank and the time of the last one, and counts them |
| EvidenceOutcomes.SaveRewritesItsGroup | src/workspace/evidence-store.ts:104-196 | whatever matches, a save makes the member of its group with the greatest rank, then the earliest first time, then the smallest id the canonical one, which lists the others in ascending order and to which they point; no document outside the group changes |
| EvidenceOutcomes.RewriteMeans | src/workspace/evidence-store.ts:125-196 | the same of one rewriting |
| EvidenceStore.RuleIsMatching | src/workspace/evidence-store.ts:90-102 | the match rule is reflexive and symmetric |
| EvidenceStore.MatchRuleMeans | src/workspace/evidence-store.ts:90-102 | two documents match by URL when they share it, and otherwise by a number they both have with titles of which one is within the other |
| EvidenceStore.UrlsAloneAreTransitive | src/workspace/evidence-store.ts:90-102 | without document numbers the match rule is transitive |
| EvidenceStore.TitleContainmentIsNotTransitive | src/workspace/evidence-store.ts:94-99 | three titles under one document number that chain without matching |
| EvidenceStore.UrlGroupsStayCoherent | src/workspace/evidence-store.ts:90-196 | saves of documents without numbers keep the relations coherent |
| EvidenceStore.EvidenceIndex.AssignDocument | src/workspace/evidence-store.ts:262 | assigns in place or at the end |
| EvidenceStore.EvidenceIndex.DuplicateGroup | src/workspace/evidence-store.ts:168 | collects the matching documents in the order of the index |
| EvidenceStore.EvidenceIndex.RewriteRelations | src/workspace/evidence-store.ts:167-196 | rewrites the relations of the whole group in place and of nothing else |
| EvidenceStore.EvidenceIndex.SaveEvidenceRecord | src/workspace/evidence-store.ts:222-263 | the index after a save |
| DeliveryProtocol.StepKeepsInv | src/runtime/delivery.ts:151-232 | every part of a drain keeps the invariant |
| DeliveryProtocol.AtMostThreeAttempts | src/runtime/delivery.ts:190-216 | however polls interleave a message gets at most three attempts |
| DeliveryProtocol.RecordTellsTheOutcome | src/runtime/delivery.ts:190-226 | recorded delivered exactly when one attempt returned, failed exactly when three threw |
| DeliveryProtocol.NoAttemptAfterRecord | src/runtime/delivery.ts:182-194 | no attempt is started after the record, and the record stays |
| DeliveryProtocol.OneDrainPerSession | src/runtime/delivery.ts:151-162 | no session is drained twice at once and no message is attempted by two calls |
| DeliveryOutcomes.PollOutcome | src/runtime/delivery.ts:151-190 | a poll of a session in flight does nothing; any other takes the guard and starts on the first due message without a row, with the later ones left to do |
| DeliveryOutcomes.ReturnedOutcome | src/runtime/delivery.ts:192-194 | an attempt that returns gives its message a row as delivered, forgets its count and goes on to the next one |
| DeliveryOutcomes.ThrewOutcome | src/runtime/delivery.ts:205-226 | an attempt that throws is counted, the third gives its message a row as failed, and the loop goes on |
| DeliveryOutcomes.EndedOutcome | src/runtime/delivery.ts:159-161 | a drain that ends lifts the guard of its session |
| DeliveryOutcomes.DrainAttemptsEachOnce | src/runtime/delivery.ts:184-227 | between a poll and the end of its drain, whatever else goes on, the call has attempted every due message that had no row, each once and in order, and nothing else |
| DeliveryService.Deliveries.DeliverSessionMessages | src/runtime/delivery.ts:151-190 | a poll skips a session in flight, otherwise starts on its undelivered messages |
| DeliveryService.Deliveries.FilterUndelivered | src/runtime/delivery.ts:183-184 | the due messages without a row, in order |
| DeliveryService.Deliveries.MarkDelivered | src/runtime/session-db.ts:280-284 | the message has a row afterwards, and every row that was there before stays as it was |
| DeliveryService.Deliveries.MarkDeliveryFailed | src/runtime/session-db.ts:286-290 | the same for a message that is given up: an earlier outcome is not overwritten |
| DeliveryService.Deliveries.CountFailure | src/runtime/delivery.ts:205-216 | the third failure is recorded and forgotten by the counter |
| DeliveryService.Deliveries.OnReturned | src/runtime/delivery.ts:192-194 | an attempt that returned is recorded and the loop goes on |
| DeliveryService.Deliveries.OnThrew | src/runtime/delivery.ts:205-226 | an attempt that threw is counted and the loop goes on |
| DeliveryService.Deliveries.OnDrained | src/runtime/delivery.ts:159-161 | the guard is lifted |
| DeliveryService.Deliveries.Handle | src/runtime/delivery.ts:151-232 | whatever comes next, the module stays on a behavior of the machine |

## Left out

- Objects are numbers: slots, jobs, waiters, launches and runs are known by the order in which they were made, so
  aliasing between two variables holding one object is not captured.
- Extraction pool: `ref`, `unref`, timers being cleared and a synchronous throw of `terminate` are not part of this
  model, nor is an error or a message of a worker before its slot is registered.
- Browser manager: the page work of a render is one step that may fail anywhere; a browser whose `close` rejects
  counts as closed, as in the source, which swallows the error.
- Run manager: reports, timestamps, the evidence store of a run and the deadline signal are not part of this model;
  a rename is atomic and a crash keeps exactly the last renamed file. Pruning a run is a stop of that run.
  Restoring is one directory at a time; that a failed write ends the whole loop is not part of this model.
- Characters: a `char` stands for a UTF-16 unit, and numbers of JSON are reals.
- Parsing JSON text, parsing and printing URLs, lower-casing and the check of dates are parameters.
- Research loop: prompts, character budgets of the context, events and the evidence store of the executor are not
  part of this model; messages of errors are represented by their codes. Aborts may come at any point where the
  source looks at its signal.
- Report: source lists, per-event counts and rendering.
- Ranking: BM25, the date, page-shape and constraint rules are one score and one filter per candidate; the mean
  field length stands for the three of the source; results keep the input in place of its copied fields.
- Search batch: engines answer through a function; their timers, retries and concurrent calls are not part of this
  model, and precision, recall and reciprocal rank of an evaluation are left out as easy members.
- Query parser: the raw text and the joined text of the result.
- Evidence index: files, paths, `group_key`, `match_rule` and `canonical_reason`; ids are assumed not to collide.
- Delivery: rows of a session are read by its own polls only, message ids are unique over all sessions, table writes
  do not fail, and one process runs; what an attempt does is left open.
- The bounded body reader, the retry loop of the model client, the JSON output cleaner, the two selectors of the
  prompt context and the numbering of session messages would add easier members.
