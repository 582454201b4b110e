# Ally, verified

Ally is a multi-tenant document-retrieval platform with a companion agent on the user's PC. This
project models the parts of it whose guarantees come from whole runs rather than from one function
body, and proves those guarantees with Dafny 4.11: `dafny verify dfyconfig.toml` checks everything.

## What is modelled

| files | part of the system |
|---|---|
| `BridgeProtocol`, `BridgeSafety`, `Bridge` | The PC-agent bridge. Each stretch of a coroutine between two awaits is one step; `register`, `unregister`, `close`, `handle_result` and `send_command` interleave freely. `Bridge` is the object itself, method by method, tied to the steps. |
| `IngestionStore`, `IngestionSafety`, `IngestionHistory`, `IngestionDatabase` | The durable ingestion tables. Every committed transaction is one step; any step may fail. `IngestionDatabase` runs the statements of each transaction, with rollback. |
| `VectorIndex`, `VectorStore`, `Visibility`, `ChunkIdentity`, `IngestionWorkflow`, `Reconciler` | The vector store beside the tables: point-by-point updates that may stop anywhere, the order the workflow runs its activities in, lost acknowledgements and retries, the reconciler, and the identity of a chunk. |
| `Interleaving`, `Takeover`, `Fleet` | Many at once. `Takeover` is the workflow as a program that knows only its own progress, among arbitrary moves of everybody else; `Fleet` is any number of such programs, threads of abandoned tries, deletions and reconciles, from an empty installation on. |
| `Text`, `Packing`, `Chunker` | Splitting a page into sentences, packing them with overlaps, wrapping what is too long, page by page. |
| `KeyOrder`, `SlidingWindow`, `Admission` | The two bounded sliding-window limiters, against a limiter that never forgets. |
| `Sorting`, `Fusion`, `Mmr` | Reciprocal rank fusion and maximal marginal relevance, over the reals. |
| `Bm25` | The debounced rebuild of the lexical index and its dirty marker. |
| `Shell` | The bounded output loop of the shell runner. |
| `InferenceGate`, `QdrantLease` | Two monitors: model-inference admission, and ownership of the vector-store client. |
| `Credentials`, `CredentialSafety`, `CredentialLifetimes`, `CredentialDatabase`, `PairingCapacity` | Device pairing, device credentials and WebSocket tickets. |

A protocol is a value-level state machine (`State`, `Event`, `Step`, `Run`) whose invariants and
histories are lemmas over all runs. Where the program is an object that changes in place, there is a
class with its fields, and each method states its whole new state as the step it takes. Loops that
compute a value are methods proved equal to a fold, and what the fold means is proved separately.

## Findings

Places where the code does something other than its description suggests. Where a guarantee fails, the
exact condition under which it holds is proved.

* **The dirty marker.** A request that gives up - a rebuild that fails before it saves, or a skipped one
  whose marker cannot be written - can leave a stale index without a marker. `Bm25.StepKeepsMarkIff` is
  the condition for one call, `Bm25.FailedRebuildLosesTheMark` and `Bm25.FailedMarkerLosesTheMark` are
  concrete inputs, and `Bm25.RetriedRunsAreMarked` shows that the retry of the enclosing activity repairs
  it. With writers inside a rebuild, `Bm25.RaceKeepsMarkIff` says which commits and markers
  count, and `Bm25.MarkedWriterLost` is an input.
* **The debounce** spaces only rebuilds that record their timestamp: `Bm25.SpacedIffRecorded`. Rebuilds
  that fail before that are not debounced at all; `Bm25.CutRebuildsPileUp` starts any number at one
  instant.
* **Upserting a version that is already shown** hides the points it overwrites, so non-disruption holds
  for staged versions only. `Visibility.UpsertHidesWhatItOverwrites` is the condition,
  `Visibility.LateRetryHidesShownVersion` the input.
* **Pairing at capacity.** The count precedes the upsert, so a tenant whose own pending pairing would be
  overwritten is refused a new token while 4096 are pending. `PairingCapacity.GrantedIff` says when a token
  is granted, `PairingCapacity.ReplacementRefusedIff` exactly where a count without the tenant's own row
  would decide differently, and `PairingCapacity.ReplacementRefused` runs into the case.
* **Two dead branches.** The re-check after a result's device verification
  (services/agent/pc_agent_bridge.py:185-187) can never fire, because a replaced connection has already
  failed its futures: `BridgeProtocol.RecheckNeverFires`. The whole-text fallback of the sentence splitter
  (workflows/activities.py:1187-1188) never adds a paragraph: `Chunker.FallbackNeverUsed`.

## Model

| member | source | states |
|---|---|---|
| BridgeSafety.NoWaiterStranded | services/agent/pc_agent_bridge.py:100-263 | In every interleaving, an unresolved command future sits under its own request id in the pending map of the connection its tenant has now, and its caller has not left. |
| BridgeSafety.NothingLeaks | services/agent/pc_agent_bridge.py:232-263 | Once every caller has left, all pending maps are empty, no send lock is held and no future is unresolved. |
| BridgeSafety.PendingNeverExceedsMaximum | services/agent/pc_agent_bridge.py:224-229 | No connection, current or replaced, ever has more pending commands than the maximum, in any run. |
| BridgeSafety.ResolvedAtMostOnce | services/agent/pc_agent_bridge.py:103-105 | A future that is done at one point of a run holds the same outcome at every later point, through replacement, disconnect, timeout, duplicates and shutdown. |
| BridgeSafety.StepWritesOnCurrent | services/agent/pc_agent_bridge.py:234-249 | A command write begins only on the tenant's current connection, and no other command of that connection is checking or writing. |
| BridgeSafety.EveryAnswerIsGenuine | services/agent/pc_agent_bridge.py:160-189 | Every answer of every run arrived at one definite event and was given at another, the same one unless devices are verified: over the socket its command was issued on, with that request id, while that socket's connection was the tenant's at both. |
| BridgeSafety.EveryDeliveryArrived | services/agent/pc_agent_bridge.py:166-177 | Every result that is being verified arrived at a definite event over the socket of the connection that was current and waiting for it then. |
| BridgeSafety.StepAnswers | services/agent/pc_agent_bridge.py:166-189 | The only steps that resolve a future are a result, or a verified result, on the still current connection of the command. |
| BridgeSafety.GenuineResultResolves | services/agent/pc_agent_bridge.py:175-189 | In every run, a delivery whose check succeeds resolves its command with its message, if that is still open, and takes it off the pending map. |
| BridgeSafety.ArrivingResultResolves | services/agent/pc_agent_bridge.py:160-189 | In every run, a result with the request id of an open command over the socket the command was issued on resolves it at once, or leaves exactly this delivery to be checked. |
| BridgeSafety.CapabilityWasEnabled | services/agent/pc_agent_bridge.py:218-222 | Every command of every run is on a connection of its own tenant whose agent had switched its capability on. |
| BridgeSafety.ServableCallIsQueued | services/agent/pc_agent_bridge.py:208-232 | In every run, a call with its capability on and room for one more command is queued and answerable. |
| BridgeSafety.LateUnregisterKeepsSuccessor | services/agent/pc_agent_bridge.py:119-128 | Unregistering a socket that is no longer the tenant's changes nothing, and never touches another tenant's connection or commands. |
| BridgeSafety.ClosedForEver | services/agent/pc_agent_bridge.py:92-93 | Once close has started the registry is empty for the rest of every run, even if a register call was suspended in its device check. |
| BridgeProtocol.StepKeeps | services/agent/pc_agent_bridge.py:75-263 | Every step of every coroutine keeps the protocol's invariant: registry, pending maps, locks, suspended calls and futures fit together. |
| BridgeProtocol.RecheckNeverFires | services/agent/pc_agent_bridge.py:182-187 | When a verified result finds its future still open, its connection is still the tenant's current one. |
| Bridge.PcAgentBridge.Create | services/agent/pc_agent_bridge.py:62-73 | A non-positive pending limit is the only refusal; otherwise the bridge starts empty. |
| Bridge.PcAgentBridge.Register | services/agent/pc_agent_bridge.py:75-109 | Up to its first await, each outcome exactly when: refused while closing, without a matching device where devices are verified, or with an unknown or non-boolean capability, changing nothing; suspended with a matching device; otherwise the newcomer takes the place and exactly the open futures of the old connection fail. |
| Bridge.PcAgentBridge.ResumeRegister | services/agent/pc_agent_bridge.py:92-109 | After the device check: registered if and only if it succeeded, close has not started meanwhile and the capabilities are valid; then the newcomer takes the place and exactly the open futures of the old connection fail. |
| Bridge.PcAgentBridge.InstallConnection | services/agent/pc_agent_bridge.py:92-109 | The new connection has nothing pending and no lock held, and exactly the open futures of the old one fail as replaced. |
| Bridge.PcAgentBridge.FailPending | services/agent/pc_agent_bridge.py:103-105 | The loop over the pending futures fails exactly the unresolved ones and leaves resolved, failed and cancelled ones. |
| Bridge.PcAgentBridge.Unregister | services/agent/pc_agent_bridge.py:119-128 | Removes the session if and only if the tenant's connection is over this exact socket, and fails exactly its open futures as disconnected. |
| Bridge.PcAgentBridge.Close | services/agent/pc_agent_bridge.py:133-143 | The registry is emptied and exactly the open futures of every registered connection fail; a second close changes nothing. |
| Bridge.PcAgentBridge.HandleResult | services/agent/pc_agent_bridge.py:160-189 | A message that answers an open command on the tenant's connection over its own socket resolves it at once and takes it off the pending map, or leaves exactly its delivery to be checked; any other message changes nothing. |
| Bridge.PcAgentBridge.ResumeResult | services/agent/pc_agent_bridge.py:175-189 | After its device check a delivery resolves its command with its message and takes it off the pending map, fails it when the check failed, and leaves a future that is done as it is - and does nothing else. |
| Bridge.PcAgentBridge.SendCommand | services/agent/pc_agent_bridge.py:208-232 | Every refusal exactly when its own condition holds and none before it, changing nothing; otherwise exactly one new answerable command in the pending map of the tenant's connection. |
| Bridge.PcAgentBridge.AcquireLock | services/agent/pc_agent_bridge.py:234-249 | The caller holds the lock and is in its device check, or is writing on the tenant's connection, or has left with its lock and its pending entry given up. |
| Bridge.PcAgentBridge.CheckThenWrite | services/agent/pc_agent_bridge.py:238-240 | Writing starts exactly when the connection is still the tenant's; otherwise the command fails and leaves. |
| Bridge.PcAgentBridge.ResumeSend | services/agent/pc_agent_bridge.py:236-249 | After its device check a command writes if the check succeeded and its connection is still the tenant's; otherwise it leaves. |
| Bridge.PcAgentBridge.FinishWrite | services/agent/pc_agent_bridge.py:241-256 | After its write a command waits for its result with the lock released, or leaves when the write failed. |
| Bridge.PcAgentBridge.Wake | services/agent/pc_agent_bridge.py:250-263 | A command whose future is done leaves with exactly that outcome. |
| Bridge.PcAgentBridge.Interrupt | services/agent/pc_agent_bridge.py:250-263 | An interruption cancels the open future that is being waited for and nothing else. |
| Bridge.PcAgentBridge.Unwind | services/agent/pc_agent_bridge.py:257-263 | After the finally block the command is pending nowhere, its lock is free, and its future has the outcome it had or is cancelled; nothing else changed. |
| IngestionSafety.EveryRunKeepsInvariant | workflows/activities.py:248-805 | After any interleaving of transactions and faults: a version is active if and only if it is its document's pointer in the same tenant, deleted means tombstone and no pointer, chunk rows equal the chunk count, workflow ids are unique, and attempt and version numbers are exactly 1..n. |
| IngestionSafety.EffectKeepsInv | migrations/versions/0004_durable_ingestion.py:26-75 | Each accepted transaction on its own keeps that invariant. |
| IngestionHistory.HistoryOnlyMovesForward | workflows/activities.py:486-512 | Between any two points of a run: superseded and rejected versions never return, rows of a version that left staging never change, indexed and cancelled attempts are final, deleted is absorbing. |
| IngestionHistory.FailedBecomesIndexedOnlyByReconcile | workflows/activities.py:605-617 | The only transaction that changes a failed attempt is the reconciler's repair, and only while a version of the attempt is its document's active one. |
| IngestionHistory.RepeatingChangesNothing | workflows/ingestion_workflow.py:64-69 | Every transaction that commits can commit again at once and then changes nothing, so a retry after a lost acknowledgement is harmless. |
| IngestionHistory.OnlyActivationMovesThePointer | workflows/activities.py:661-691 | Whatever else commits or fails, a document's pointer and the rows behind it move only by its own activation or deletion. |
| IngestionHistory.LostActivationIsRepaired | workflows/activities.py:597-617 | An attempt reported as failed although its activation had committed leaves document and version alone, and the next reconcile records it as indexed. |
| IngestionHistory.CancelledStaysCancelled | workflows/activities.py:605-617 | An attempt that is indexed or cancelled at one point of a run is unchanged at every later one. |
| IngestionHistory.SafeCodeKeeps | workflows/activities.py:731-733 | An error code is recorded exactly when it is 1 to 64 lower-case letters, digits and underscores. |
| IngestionDatabase.Tables.RegisterIngestion | workflows/activities.py:248-375 | Commits if and only if the document, the attempt of the workflow and the version are new or agree with what is stored; then the document is new or requeued with the new upload, a new attempt and a new version get the next numbers, and nothing else changes; a refusal leaves every table as it was. |
| IngestionDatabase.Tables.NextVersionNumber | workflows/activities.py:340-368 | The loop over the versions finds one more than the largest number of the document. |
| IngestionDatabase.Tables.UpdateIngestionStage | workflows/activities.py:387-426 | Commits if and only if the stage is known, the attempt is queued or running and the tenant's document queued or processing; then both are processing, at that stage. |
| IngestionDatabase.Tables.PersistChunks | workflows/activities.py:1354-1394 | Commits if and only if the version is staged, the tenant's and the document's, and every page is positive; then row i has the filename, the page and the text of chunk i and the index i, the count is theirs, and no other version's rows change. |
| IngestionDatabase.Tables.ActivateVersion | workflows/activities.py:629-697 | Commits if and only if the document is the tenant's and not deleted and the version its own, staged or active; then the document points at the version, the one it pointed at is superseded, and nothing else changes. |
| IngestionDatabase.Tables.FinishAttempt | workflows/activities.py:721-803 | Commits if and only if the attempt is running and its ending fits its version - staged with a processing document, or the document's active one - or it had already ended exactly so; then the attempt has the status, stage and cleaned error code, a staged version is rejected, and its document is failed or queued again. |
| IngestionDatabase.Tables.TombstoneDocument | workflows/activities.py:466-530 | Commits if and only if the document is the tenant's; then it is deleted with its tombstone and without pointer, and the version it pointed at is superseded. |
| IngestionDatabase.Tables.RepairAttempts | workflows/activities.py:597-617 | Marks as indexed exactly the processing or failed attempts, without error or with the recoverable one, of which a document points at a version; no other row changes. |
| VectorIndex.PassIsFate | workflows/activities.py:565-592 | A pass over all documents decides every point by the point alone: a closed form that does not mention the order. |
| VectorIndex.OrderDoesNotMatter | workflows/activities.py:547-592 | Two passes over the same documents in different orders end in the same store. |
| VectorIndex.PassTwiceIsOnce | workflows/activities.py:547-592 | A second pass changes nothing. |
| VectorIndex.CrashAndRerun | services/retrieval/qdrant_store.py:366-421 | A pass stopped inside any document's updates, at any point, and started again ends where one clean pass would have ended. |
| VectorIndex.PassEndsExactly | services/retrieval/qdrant_store.py:366-421 | From any contents, a pass makes a listed document's visible versioned points exactly those of its active version, or none when it is deleted. |
| VectorIndex.OthersUntouched | services/retrieval/qdrant_store.py:366-421 | Versioned points of documents that are not listed are untouched. |
| VectorIndex.LegacyIsCleared | services/retrieval/qdrant_store.py:375-421 | A legacy point is deleted exactly when a listed document of its tenant and filename is deleted or clears legacy points, and is otherwise untouched and visible. |
| VectorIndex.ActivationNeverHidesBoth | services/retrieval/qdrant_store.py:382-421 | In every state that point-by-point application can pass through, the old or the new version is completely visible and nothing else of the document is. |
| VectorStore.Collection.SetActive | services/retrieval/qdrant_store.py:382-409 | Completes if and only if its budget covers the selected points; however far it gets, some of them have the flag and the rest are as they were; the record of contents has every state on the way, each one point from the next. |
| VectorStore.Collection.Delete | services/retrieval/qdrant_store.py:375-421 | Completes if and only if its budget covers the selected points; however far it gets, some of them are gone and no others, through recorded states one point apart. |
| VectorStore.Collection.ReconcileDocumentVersion | services/retrieval/qdrant_store.py:352-421 | Every recorded state is one point from the next and one that the updates can pass through; a call that is not cut short completes, and then decides every point by its tenant, document, version and filename: deleted, flagged as of the active version or not, or untouched. |
| VectorStore.Collection.Upsert | services/retrieval/qdrant_store.py:186-235 | Completes if and only if its budget covers the items; in every recorded state, and where it breaks off, the store is the base with a prefix of the items written over it. |
| Visibility.StagedUpsertIsInvisible | services/retrieval/qdrant_store.py:217-226 | Every prefix of an upsert of a staged version leaves the visible points of the whole store unchanged, because identities do not collide. |
| Visibility.UpsertHidesWhatItOverwrites | services/retrieval/qdrant_store.py:217-226 | A whole upsert leaves what searches see unchanged if and only if no point it overwrites is visible. |
| Visibility.UpsertHides | services/retrieval/qdrant_store.py:217-226 | An upsert takes exactly the points it overwrites out of sight. |
| Visibility.LateRetryHidesShownVersion | services/retrieval/qdrant_store.py:217-226 | A concrete input: a shown version of one chunk, upserted again, is hidden. |
| Visibility.DocumentAgrees | services/retrieval/qdrant_store.py:271-281 | After a pass, what dense search may return of a document is exactly the points of its active version's rows. |
| Visibility.DenseAgreesWithLexical | services/retrieval/bm25_index.py:161-195 | After a clean reconcile the versioned identities of the corpus query equal all versioned points dense search may return, given that the active versions are fully indexed and all points came from ingestion. |
| ChunkIdentity.IdentityInjective | services/retrieval/qdrant_store.py:317-328 | The identity string determines tenant, filename, page, index and version when tenant and version are UUID text, even for filenames with colons. |
| IngestionWorkflow.Worker.IngestDocument | workflows/ingestion_workflow.py:72-253 | Whatever try of whatever activity is lost, unanswered or cut short: unless the activation committed, pointer, rows and visible points are unchanged; in every recorded state of the vector store, and in the one it ends in, the old or the new version is complete and every other document shows what it showed; success means that pointer, rows, points and attempt agree and that every visible point carries the text and page of its row; and it does succeed where the tables have a place for the upload and each activity has one clean try among its five. |
| IngestionWorkflow.Worker.Execute | workflows/ingestion_workflow.py:64-69 | A transaction has happened, once, if and only if the tables accept it and one of five tries arrives; it is acknowledged if and only if they accept it and one of five is answered. |
| IngestionWorkflow.Worker.IndexVersion | workflows/activities.py:1448-1482 | Retried indexing never changes what is visible; it is acknowledged if and only if one of five tries arrives, puts all points and is answered, and then every point is there. |
| IngestionWorkflow.Worker.ActivateVersion | workflows/activities.py:629-718 | Retried activation: either nothing happened, or the pointer moved and every intermediate store shows old or new; an acceptable one with a clean try among its five is acknowledged, and then exactly the new version shows. |
| IngestionWorkflow.Worker.PublishVersion | workflows/ingestion_workflow.py:183-203 | Index, activate, finish: without a moved pointer nothing is disturbed, wherever it breaks off the old or the new version is complete, and with clean tries it succeeds. |
| Takeover.TakeoverUnderInterleaving | workflows/ingestion_workflow.py:171-201 | A workflow that follows only its own bookkeeping - persist, put every chunk, commit the pointer, expose, hide, clear, starting indexing or activation over at will - among any moves of other documents' workflows: old or new version completely visible and nothing else, always; until the pointer moves, the old rows and points exactly; when nothing is left to hide, the pointer on the new version and exactly its points. |
| Takeover.TurnKeeps | services/retrieval/qdrant_store.py:382-421 | Every own action and every move of others keeps what each phase of the program relies on, although the program checks none of it. |
| Takeover.CanComplete | workflows/ingestion_workflow.py:171-201 | From anywhere in the program, while its transactions are acceptable, some run without faults completes it. |
| Fleet.EveryRunKeepsConsistent | workflows/activities.py:1354-1482 | In every run of any number of workflows, abandoned threads, deletions and stale reconciles: rows and points of each version are its workflow's chunks, a pointer was moved only after indexing was complete, and no point of a live version is lost. |
| Fleet.CleanReconcileAgrees | services/retrieval/bm25_index.py:161-195 | After every such run from an empty installation all active versions are fully indexed, and a clean reconcile makes the versioned identities of the corpus query equal the versioned points dense search may return, each with the text, page and filename of its row and each row with its point. |
| Fleet.WorkflowTakesOver | workflows/ingestion_workflow.py:171-201 | After any such history, a workflow that starts on a settled document and is left alone on it takes over without disruption among everything else, and leaves the document settled on the new version with exactly the points of its rows, each carrying its row's text. |
| Fleet.WorkflowCanPublish | workflows/ingestion_workflow.py:171-201 | After any such history, a workflow on a settled document whose transactions are acceptable can still complete, and has then published its version. |
| Fleet.EveryPointCitesItsRow | workflows/activities.py:1365-1482 | At every moment of every run, every versioned point carries the text, page and filename of the row with its version and index. |
| Interleaving.OthersAreUnseen | services/retrieval/qdrant_store.py:366-421 | A run of other workflows' moves changes neither pointer, rows nor visible versioned points of a document. |
| Interleaving.MoveKeepsSound | workflows/activities.py:1448-1482 | Every move of any workflow keeps the table invariant, the identities of points, and that every versioned point belongs to a registered version of its document and tenant. |
| Interleaving.PutOverwritesItsOwn | services/retrieval/qdrant_store.py:317-328 | An upserted point can overwrite only a point of the same version, document and tenant. |
| IngestionWorkflow.Worker.ReportFailure | workflows/ingestion_workflow.py:230-253 | Recording a failure or cancellation moves no pointer, recorded or not; an acceptable report that arrives leaves the attempt failed or cancelled. |
| Reconciler.IndexReconciler.ReconcileIndexes | workflows/activities.py:547-626 | A clean run is acknowledged and is a full pass and the attempt repair; a failing one, even with the repair's acknowledgement lost, leaves the repair done or not and a store from which a later pass ends the same. |
| Reconciler.IndexReconciler.ReconcileDocuments | workflows/activities.py:563-596 | Documents that fail are skipped and counted; with no failure the whole pass happened. |
| Reconciler.IndexReconciler.RetryReconcile | workflows/ingestion_workflow.py:261-272 | After any number of broken passes, the first clean one succeeds and ends where a clean pass from the beginning would have, in both stores. |
| Packing.OverlapsAreLongestProperTails | workflows/activities.py:1219-1236 | Consecutive chunks overlap by the longest tail within the smaller budget, always a proper tail; a chunk is closed only because the next sentence would not have fitted; each chunk adds a sentence, and nothing is carried into the first chunk or across a wrapped sentence. |
| Packing.ChunksAreContiguous | workflows/activities.py:1238-1269 | Every chunk is a contiguous run of the input sentences, or part of one wrapped sentence; the runs lead from the first sentence to the last without a gap, both ends strictly advancing and each starting within the one before it or right after, where exactly the carried sentences are shared. |
| Packing.ChunksReconstructTheText | workflows/activities.py:1238-1269 | The chunks without their overlaps give back the input sentences, each once and in order; an oversized sentence comes back as its words. |
| Packing.EveryChunkFits | workflows/activities.py:1241-1267 | Every chunk is strictly shorter than the limit unless it is one single space-free word. |
| Packing.ChunkGrowsByASpace | workflows/activities.py:1250-1267 | A chunk is its sentences, or the words of its part of an oversized sentence, with one space between each and the next. |
| Packing.WrapIsGreedy | workflows/activities.py:1245-1257 | A piece of a wrapped sentence is closed only because the next word would not have fitted. |
| Chunker.SplittingConservesTheText | workflows/activities.py:1181-1198 | Splitting into paragraphs, lines and sentences keeps every non-whitespace character in order. |
| Chunker.FallbackNeverUsed | workflows/activities.py:1186-1188 | No paragraph is found exactly when the text is blank. |
| Chunker.SplittingEndsAtSentences | workflows/activities.py:1175-1198 | Every sentence of every text is one line, trimmed and not empty, and holds no full stop, exclamation or question mark with whitespace after it. |
| Chunker.LineIsCutAtSentenceEnds | workflows/activities.py:1191-1196 | The sentences of a line are the stripped line but for the whitespace between them, and each but the last ends in a full stop, exclamation or question mark. |
| Chunker.SplitIntoSentences | workflows/activities.py:1181-1198 | The nested loops compute the sentences of every line of every paragraph in order. |
| Chunker.BuildOverlap | workflows/activities.py:1219-1236 | The backward loop finds the longest tail of the flushed chunk that fits the budget. |
| Chunker.WrapSentence | workflows/activities.py:1245-1257 | The word loop computes the wrapping of an oversized sentence. |
| Chunker.PackSentences | workflows/activities.py:1201-1269 | The packing loops, with their running lengths, compute the chunks of the fold the theorems are about. |
| Chunker.ChunkPages | workflows/activities.py:1299-1311 | The chunks of all pages, page by page, stripped, blank ones dropped. |
| Chunker.PageIsConserved | workflows/activities.py:1299-1311 | The chunks of a page carry its number, and their own parts, overlaps removed, spell out exactly its non-whitespace characters. |
| Chunker.OnlyBlankPagesVanish | workflows/activities.py:1304-1309 | A page yields no chunk if and only if it is blank. |
| Chunker.EveryPageChunkFits | workflows/activities.py:1304-1309 | Every emitted chunk is non-empty and shorter than the limit unless it holds no space. |
| Chunker.PagesNeverMix | workflows/activities.py:1299-1311 | The chunks under one page number are those of the pages with that number, in page order. |
| Admission.WebSocketSecurity.AllowAttempt | services/api/websocket/security.py:76-91 | Under a non-decreasing clock: admitted if and only if, in the whole history, the host has an attempt in the last 60 seconds or fewer hosts than the maximum have, and the host has fewer than its limit; exactly what is admitted is recorded. |
| Admission.WebSocketSecurity.BeginAuthenticate | services/api/websocket/security.py:93-98 | Admitted exactly when those counts over the whole history allow it and there is inflight room; the attempt is charged even when only the inflight limit refuses. |
| Admission.PairingAdmission.Enter | services/auth/admission.py:23-47 | The same decision by the same counts for pairing, where a refusal of either kind charges nothing and leaves no empty deque. |
| Admission.StoredMapIsBounded | services/auth/admission.py:25-44 | No stored deque is ever empty, and at most clients x limit timestamps are stored. |
| Admission.ReadsTheHistory | services/api/websocket/security.py:78-87 | After expiry, what the stored map says of a host is what its whole history says. |
| Admission.AdmitsByCount | services/api/websocket/security.py:78-88 | The limiter that never forgets decides by two counts over the last 60 seconds: distinct hosts, and attempts of the host. |
| SlidingWindow.StoredAreRecent | services/api/websocket/security.py:78-82 | After expiry the stored hosts are exactly the hosts with an attempt in the last minute of the full history. |
| SlidingWindow.Expire | services/api/websocket/security.py:78-79 | Dropping from the front while the head is out of the window leaves nothing expired and forgets nothing recent. |
| SlidingWindow.Trim | services/api/websocket/security.py:85-86 | Dropping old times from the front of a deque leaves exactly the recent ones. |
| SlidingWindow.NoMinuteExceedsTheHostLimit | services/api/websocket/security.py:87-88 | In no minute whatsoever does a host get more than its limit through. |
| SlidingWindow.NoMinuteExceedsTheClientLimit | services/api/websocket/security.py:81-83 | In no minute whatsoever are more distinct hosts admitted than the maximum. |
| Fusion.ReciprocalRankFusion | services/retrieval/fusion.py:14-45 | The error cases exactly; otherwise every identifier of the union with its declared score and first payload, by falling score and, where scores are equal, by identifier. |
| Fusion.AddList | services/retrieval/fusion.py:32-37 | The accumulating dictionaries hold, for every identifier, the declared sum over the lists so far. |
| Fusion.EachIdentifierOnce | services/retrieval/fusion.py:39-45 | Each identifier of the union comes out exactly once, and no other. |
| Fusion.ListOrderDoesNotMatter | services/retrieval/fusion.py:29-45 | Any reordering of the lists gives the same identifiers in the same order with the same scores. |
| Fusion.DominanceIsKept | services/retrieval/fusion.py:36-44 | An identifier strictly better ranked in every list that holds another comes out before it. |
| Fusion.FusedScoreIsReciprocals | services/retrieval/fusion.py:31-36 | The score of a fused identifier is the sum of 1 / (k + rank) over the lists that rank it, ranks counted from 1. |
| Fusion.FusedPayloadComesFirst | services/retrieval/fusion.py:37-42 | The payload of a fused identifier is that of its first occurrence, list after list. |
| Sorting.LessIsFirstDifference | services/retrieval/fusion.py:44 | Identifiers compare by their first different character, a prefix before what it begins. |
| Mmr.MmrSelect | services/retrieval/mmr.py:31-63 | The error cases in their order; otherwise min(top_k, n) choices, each outweighing every candidate not chosen before: what it gains in relevance, times lambda, is more than what it is more similar to the chosen, times 1 - lambda, or as much and it comes first. |
| Mmr.Select | services/retrieval/mmr.py:41-63 | Every choice is the earliest maximiser of the marginal score and outweighs every candidate not yet chosen, read off the inner products alone; all are distinct. |
| Mmr.ArgMax | services/retrieval/mmr.py:48-60 | The first position of the largest marginal score. |
| Mmr.LargerTopKExtends | services/retrieval/mmr.py:46-63 | Greedy selections are unique as far as they go, so a larger top_k only appends. |
| Mmr.LambdaOneIsStableSort | services/retrieval/mmr.py:52-60 | With lambda 1 the selection is the front of a stable descending sort by relevance. |
| Mmr.PenaltyIsMaximum | services/retrieval/mmr.py:55-57 | The penalty bounds the similarity to every selected candidate and is reached by one. |
| Mmr.ChoiceOutweighs | services/retrieval/mmr.py:52-60 | A greedy choice outweighs every unchosen candidate in relevance against similarity, whatever the attained maxima. |
| Mmr.LessSimilarComesFirst | services/retrieval/mmr.py:53-60 | Among equally relevant candidates, with lambda below 1, the one less similar to the chosen comes first; with lambda 0, so among all. |
| Mmr.MoreRelevantComesFirst | services/retrieval/mmr.py:46-60 | Among candidates equally similar to the chosen, with lambda above 0, and at the first choice, the more relevant comes first. |
| Mmr.DotIsLinear | services/retrieval/mmr.py:44 | The inner product is linear; with DotIsSymmetric and DotOfUnit this determines it. |
| Bm25.RebuildState.RebuildIndex | services/retrieval/bm25_index.py:204-234 | Skipped if and only if unforced and less than the interval after the last recorded rebuild: then only the marker may be set. Otherwise index, timestamp and marker are exactly what a rebuild that gets that far leaves; a returned index equals the corpus and leaves no marker. |
| Bm25.RebuildState.FlushIfDirty | services/retrieval/bm25_index.py:237-249 | Rebuilds exactly when marked, and then leaves exactly what a rebuild that gets that far leaves. |
| Bm25.StepKeepsMarkIff | services/retrieval/bm25_index.py:134-148 | A call keeps "stale implies marked" if and only if it is not a changed corpus whose request gives up - a rebuild failing before it saves, a marker that cannot be written - with no marker from before. |
| Bm25.StaleIsMarked | services/retrieval/bm25_index.py:134-148 | In every sequential run without such a loss, a stale index is marked. |
| Bm25.RetriedRunsAreMarked | workflows/activities.py:710-717 | In every run in which a request that gives up is followed by another request, a stale index is marked at the end. |
| Bm25.FailedRebuildLosesTheMark | services/retrieval/bm25_index.py:151-201 | A concrete run that ends stale, unmarked, and beyond the reach of a flush. |
| Bm25.FailedMarkerLosesTheMark | services/retrieval/bm25_index.py:140-142 | The other concrete run: inside the debounce window, with the marker not writable. |
| Bm25.FlushCatchesUp | services/retrieval/bm25_index.py:237-249 | After any run without a loss, a flush leaves the index equal to the corpus and clean. |
| Bm25.NextRequestRepairs | services/retrieval/bm25_index.py:225-234 | From any state, a request that does not give up restores the discipline; a forced one makes the index fresh. |
| Bm25.RebuildsAreRare | services/retrieval/bm25_index.py:225-226 | Unforced rebuilds that start within T seconds and record their timestamp number at most floor(T / interval) + 1, whatever else is forced, flushed or cut short. |
| Bm25.SpacedIffRecorded | services/retrieval/bm25_index.py:125-137 | After an attempted rebuild the unforced calls of the next interval are skipped if and only if the attempt recorded its timestamp. |
| Bm25.CutRebuildsPileUp | services/retrieval/bm25_index.py:197-199 | For every n, n unforced rebuilds that fail before saving all start at one instant: without a timestamp nothing bounds them. |
| Bm25.RecordedAttemptsAreStarts | services/retrieval/bm25_index.py:134-137 | Where every attempt records its timestamp the bound is one on all unforced rebuilds. |
| Bm25.RaceKeepsMarkIff | services/retrieval/bm25_index.py:134-137 | With writers inside a rebuild the discipline survives if and only if the writers' last commit, if any, commits the corpus that was read, or a marker is set after the unlink. |
| Bm25.MarkedWriterLost | services/retrieval/bm25_index.py:134-137 | A concrete race: a writer commits and marks inside a rebuild, and the run ends stale without a marker. |
| Shell.Tail.Append | local_agent/shell_runner.py:240-244 | The tail is always the last 4000 bytes of all that was read, and the count its length. |
| Shell.LastBytesAreTheLast | local_agent/shell_runner.py:240-244 | What is kept are the last 4000 bytes, position by position, or all of fewer. |
| Shell.LookOnce | local_agent/shell_runner.py:258-269 | One peek and read: fails exactly when a call does, with its code; otherwise reads exactly as much as the pipe, the room, one buffer and the call allow, and nothing is lost between pipe and tail. |
| Shell.Drain | local_agent/shell_runner.py:250-270 | Never more than the allowance or four buffers; it stops before its fourth look only at the allowance or an empty pipe; an error is that of a call. |
| Shell.Runner.Observe | local_agent/shell_runner.py:420-440 | The loop ends as its first eventful turn says: cancelled, out of time if not cancelled, exited with exactly the code observed at or below the limit, over the limit by exactly one byte, or with the error of that turn. |
| Shell.Runner.DrainResidue | local_agent/shell_runner.py:446-456 | Ends because every turn but the last reads something; an exit is turned into an output limit exactly when the residue exceeds it. |
| Shell.Runner.Run | local_agent/shell_runner.py:395-474 | For every schedule: a return code is the one observed, kept even when the residue exceeds the limit; timed_out and cancelled mean that this came first; errors carry the code of the call that failed; observed bytes never exceed the limit plus one, output_limit means exactly that, exited means all written output was read, and an untruncated result holds everything. |
| InferenceGate.EveryRunKeepsInvariant | services/retrieval/model_loading.py:65-89 | In every interleaving the counters count the calls in each phase, running and waiting stay within limits, and a call sleeps un-notified only while all slots are taken. |
| InferenceGate.NoOneIsStranded | services/retrieval/model_loading.py:72-89 | With nothing running and nothing about to look again, nothing waits. |
| InferenceGate.LimitsFixedForCall | services/retrieval/model_loading.py:42-50 | From arrival to end a call is measured against the same limits. |
| InferenceGate.HistoryOnlyGrows | services/retrieval/model_loading.py:43-50 | Configured limits never change again, and a call that ended stays as it ended. |
| InferenceGate.ArrivalIsMetByRoom | services/retrieval/model_loading.py:66-72 | In every run an arrival is admitted exactly when fewer calls run than may, and refused exactly when the calls that run and that wait fill both limits. |
| InferenceGate.WokenIsMetByRoom | services/retrieval/model_loading.py:74-82 | In every run a woken call is admitted exactly when a slot is free, and refused exactly when none is and its time is up. |
| InferenceGate.ModelInferenceGate.ConfigureLimits | services/retrieval/model_loading.py:38-50 | All five outcomes of configure, each if and only if its condition holds, and a change only when it is applied. |
| InferenceGate.ModelInferenceGate.EnterCall | services/retrieval/model_loading.py:66-82 | Admitted if and only if fewer calls are active than may be, refused if and only if that and the waiting places are both full, and otherwise waiting; each counter moves accordingly. |
| InferenceGate.ModelInferenceGate.ResumeCall | services/retrieval/model_loading.py:74-82 | A woken call is admitted if and only if a slot is free, refused if and only if none is and its time is up, and otherwise parked again. |
| InferenceGate.ModelInferenceGate.LeaveCall | services/retrieval/model_loading.py:83-89 | A leaving call frees its slot, and wakes every parked call and no other. |
| QdrantLease.EveryRunKeepsInvariant | services/retrieval/qdrant_store.py:64-90 | In every interleaving one client at most is made, all leases hold it, and a closing thread sleeps only while a lease is out. |
| QdrantLease.ClosedOnceAndNeverLeased | services/retrieval/qdrant_store.py:81-90 | The client is closed at most once, only when no lease is held, and a finished close has closed whatever was made. |
| QdrantLease.NoLeaseAfterClose | services/retrieval/qdrant_store.py:66-72 | Once closing has begun no lease is granted and no client made, in any continuation. |
| QdrantLease.QdrantStore.AcquireLease | services/retrieval/qdrant_store.py:64-73 | A lease is granted exactly when the store is open and a client exists or can be made; it holds the existing client, or the new one where there is none. |
| QdrantLease.QdrantStore.ReleaseLease | services/retrieval/qdrant_store.py:75-79 | The lease is returned, and the last one wakes the closing thread. |
| QdrantLease.QdrantStore.BeginClose | services/retrieval/qdrant_store.py:81-88 | The first close takes the client away at once if and only if no lease is held, and waits otherwise; a later one changes nothing. |
| QdrantLease.QdrantStore.ResumeClose | services/retrieval/qdrant_store.py:86-90 | A woken closing thread takes the client away if and only if no lease is left, and waits again otherwise. |
| CredentialSafety.EveryRunKeepsInvariant | services/auth/devices.py:41-148 | In every serialised run: one unrevoked device per tenant, no shared credential, revoked devices have revoked credentials, one pending pairing per tenant, and pairing and ticket quotas hold. |
| CredentialSafety.OneActiveDevice | migrations/versions/0003_companion_devices.py:22-23 | No tenant ever has two devices that pass require_active. |
| CredentialSafety.FailureChangesNothing | services/auth/devices.py:72-76 | A refused or empty-handed operation leaves every table as it was, swept expired rows included. |
| CredentialSafety.ConsumeIsNeverRefused | services/auth/tickets.py:100-105 | The scope check after a committed consume never fails, because what was checked at issue still holds. |
| CredentialSafety.HistoryOnlyRevokes | services/auth/devices.py:120-131 | Keys and devices are never forgotten or changed except from unrevoked to revoked. |
| CredentialSafety.RevokedForEver | services/auth/devices.py:161-180 | A replaced or revoked binding fails require_active in every continuation. |
| CredentialSafety.RedemptionReplaces | services/auth/devices.py:78-131 | The new device binds at once with its own credential; every earlier device of the tenant and its key are out for good; other tenants' devices are untouched. |
| CredentialSafety.LatestTokenOnly | services/auth/devices.py:63-69 | Issuing a second pairing token for a tenant makes the first worthless. |
| PairingCapacity.GrantedIff | services/auth/devices.py:58-69 | A known tenant with a fresh token is granted it if and only if fewer than 4096 pairings are pending, its own included. |
| PairingCapacity.ReplacementRefusedIff | services/auth/devices.py:58-69 | A count that leaves out the row to be overwritten would always admit a replacement, and differs from the program's exactly for a tenant with a pending pairing when 4096 are pending. |
| PairingCapacity.ReplacementRefused | services/auth/devices.py:61-62 | A concrete run of 4096 enrollments after which the first tenant, its own pairing pending, is refused a new token. |
| CredentialSafety.PairingPaysAtMostOnce | services/auth/devices.py:84-112 | Over any run a pairing token enrolls at most once for each time it was issued. |
| CredentialSafety.TicketPaysAtMostOnce | services/auth/tickets.py:87-111 | Over any run a socket ticket admits at most once for each time it was issued. |
| CredentialSafety.RevokedKeyAdmitsNoOne | services/auth/tickets.py:93-99 | No ticket of a revoked credential is honoured again in any continuation. |
| CredentialSafety.RevokingAKeyIsFinal | services/auth/api_keys.py:136-150 | After a key is revoked no ticket of it is honoured and no device bound with it is active, in any continuation. |
| CredentialLifetimes.PairingLivesTwoMinutes | services/auth/devices.py:63-99 | A token issued at t that is neither replaced, revoked nor redeemed enrolls at every moment before t + 120 seconds and is refused from then on, in every run. |
| CredentialLifetimes.ExpiredPairingNeverEnrolls | services/auth/devices.py:94-99 | Whatever happens after its issue, 120 seconds later a token is refused and changes nothing. |
| CredentialLifetimes.TicketAdmitsUntilItExpires | services/auth/tickets.py:66-111 | A ticket that is not spent admits its holder exactly for its own audience, before its time is up, while its key is unrevoked, in every run. |
| CredentialLifetimes.ExpiredTicketNeverAdmits | services/auth/tickets.py:93-99 | Whatever happens after its issue, once its time is up a ticket is worthless and presenting it changes nothing. |
| CredentialDatabase.Tables.IssuePairing | services/auth/devices.py:41-76 | Granted if and only if the tenant exists, fewer than 4096 unexpired pairings are stored, and the token is not another tenant's; then it is the tenant's only one, good for 120 seconds, and exactly the expired ones are gone. |
| CredentialDatabase.Tables.Redeem | services/auth/devices.py:78-118 | Enrolls if and only if the token is plausible, stored and unexpired and the new ids are unused; then the token is spent, exactly the tenant's devices and their keys are revoked, and the new device stands with its dedicated key; any refusal changes nothing. |
| CredentialDatabase.Tables.RevokedTables | services/auth/devices.py:120-131 | Revokes exactly the tenant's devices and the keys of its unrevoked ones. |
| CredentialDatabase.Tables.Revoke | services/auth/devices.py:133-148 | Refused only for an unknown tenant; otherwise exactly its devices, the keys of its unrevoked ones and its pending pairing go. |
| CredentialDatabase.Tables.IssueTicket | services/auth/tickets.py:39-80 | Past the checks if and only if scope, key and tenant allow the audience; refused for capacity only when a count over the unexpired tickets says so; then exactly one new ticket with the configured time to live, and exactly the expired ones gone. |
| CredentialDatabase.Tables.ConsumeTicket | services/auth/tickets.py:87-111 | Honoured if and only if the ticket is stored, for this audience, unexpired, and its key unrevoked and of its tenant; then it is spent, and the principal has the key's current scopes. |
| CredentialDatabase.Tables.ActiveDevice | services/auth/devices.py:161-180 | True exactly for an unrevoked device with its own unrevoked dedicated key in the same tenant. |
| CredentialDatabase.Tables.Bind | services/auth/devices.py:150-159 | Only a dedicated device credential binds, and only to its own active device. |

## Left out

Environment
- The network, database drivers, Temporal, the Qdrant SDK, the Windows API, embeddings and the language model are nondeterministic choices or arguments.
- Object identity is a number; request ids, UUIDs and secrets are arguments, assumed fresh only where a member says so, and uuid5 (section 5.5 of RFC 9562) and hashing are taken as injective.
- Timestamps that only record (created_at, updated_at, finished_at, logs and durations) are not stored.

PC-agent bridge
- The socket close calls after replacement and shutdown, which change nothing the bridge holds, and the unpacking of a delivered result (services/agent/pc_agent_bridge.py:265-273).
- A timeout is an interruption that may be delivered at any suspension; how long one takes is not modelled.

Ingestion
- Legacy ingestion histories, legacy document_chunks rows and legacy points beyond their deletion: agreement of the two searches is stated for versioned chunks.
- Artifacts, Textract jobs, extraction and file types; the failing of their activities is modelled, what they produce is not.
- Late writes of abandoned activity threads and reconciles that race with an activation are part of Fleet, where what they cannot break is proved; that they do not disturb what searches see of their document is stated only without them (Visibility.LateRetryHidesShownVersion shows why).
- No claim that every attempt reaches a terminal status or that the active version has the largest number: neither is true.
- Nothing relates the chunker's output to the chunks the worker is given except that both are sequences of text and page.
- IngestionWorkflow.Worker.IngestDocument: starts from a version that does not exist yet and a vector store that shows exactly the document's active version; a store in any other state is the reconciler's business.
- IngestionWorkflow.Worker.Execute: one worker runs alone; transactions and point updates of other workflows between its own are in Takeover and Fleet instead.
- IngestionDatabase.Tables.TombstoneDocument: does not model the deletion of the filename's legacy document_chunks rows (workflows/activities.py:516-520), because legacy rows are not part of the tables here.
- Takeover.TakeoverUnderInterleaving: no second workflow, deletion or reconcile works on the document itself in the meantime; Fleet.CleanReconcileAgrees allows all of them.
- Visibility.DenseAgreesWithLexical: takes the active versions to be fully indexed; Fleet.CleanReconcileAgrees proves that for every run.
- Fleet.CleanReconcileAgrees: no legacy ingestion writes or deletes by filename in the run (services/retrieval/qdrant_store.py:161-183).
- Foreign keys, check constraints and unique constraints of the ingestion tables appear where a transaction depends on them; other violations count as faults.

Chunker
- Strings are sequences of characters; the whitespace of str.strip and of the pattern \s is one fixed set.

Ranking
- Rounding: scores are reals. Identifiers of fusion results are their text, and an id_key named "rrf_score" is not modelled.
- BM25 scoring and the completeness of BM25Index.search.

Lexical index
- A corrupted metadata file, which reads as never rebuilt, and the pickle format.
- Bm25.RetriedRunsAreMarked: a run that ends between a request that gives up and its retry is outside it; StepKeepsMarkIff covers each call.

Shell runner
- Process creation, job objects and termination are outcomes given to the loop; validation of the arguments and decoding of the tails.
- Shell.Runner.Observe: takes the clock to pass the deadline at some turn.

Admission, gate and lease
- Admission.WebSocketSecurity.AllowAttempt: takes the monotonic clock not to go back; session bookkeeping after authentication.
- An exception that interrupts a closing thread's wait on the vector-store client.
- InferenceGate.ModelInferenceGate.constructor: invalid limits, which the program refuses with an error, are a precondition here; ConfigureLimits models that refusal.

Credentials
- Row locks and advisory locks: transactions run one after another. NOW() and clock_timestamp() are one reading.
- Token unguessability and the strength of the hash.

Not modelled at all: prompt building, intents, the mocked tools, app launching, settings validation, secret storage, migrations as programs, command lines, evaluation scripts, chat history.
