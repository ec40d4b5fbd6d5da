# Verified models of a retrieval-augmented enterprise assistant

These Dafny modules model the parts of the repository whose correctness depends on several functions working
together: the document job queue and the indexes it fills, the multi-agent graph, retrieval fusion and the text the
results travel in, audit paging, uploads, the two client protocols, and two self-contained algorithms. Language
models, parsers, clocks and the network appear as choices of the environment: a statement is proved for whatever they
answer, wherever they fail. `dafny verify dfyconfig.toml` checks everything.

| component | modules |
|---|---|
| job queue and workers | `JobQueue`, `JobSafety`, `JobAccounting`, `JobOutcomes`, `Worker` |
| search indexes and their consistency report | `ChunkIds`, `DualIndex`, `DualConvergence`, `IndexStores`, `IndexCheck` |
| queue and indexes together | `EndToEnd`, `OverlapRun` |
| multi-agent graph | `Reducers`, `Supervisor`, `SupervisorSafety`, `SupervisorProgress`, `SupervisorOutcomes` |
| deduplication and fusion | `Nodes`, `Ordering`, `Fusion`, `FusionSpec`, `FusionOrder`, `FusionDominance`, `NodeIdentity` |
| context text and its parser | `Text`, `Decimal`, `Scanning`, `Evidence`, `RoundTrip`, `Packing`, `Printing`, `Formatters`, `GraphFormat` |
| audit paging and cursors | `AuditPaging`, `Base64` |
| resumable upload | `Upload` |
| web client | `ChatStream`, `TokenStore` |
| algorithms | `ThreeSum`, `RankingMetrics` |

How the pieces are built:

- **Job queue.** Every stream append, every database commit and every acknowledgement is a step of its own. Any number
  of workers take steps in any order, a statement of the try block may raise, and a worker may crash between any two
  statements, including inside the failure path. When the append of a request raises, the three commits that follow it
  are steps too, so a worker may finish the message before the API has written that queueing failed. The worker's and
  the API's methods are proved, statement by statement, to be runs of this protocol, and the invariants are proved over
  all its runs. "Exactly one place" holds for a step if and only if the step does not raise after the final commit; the
  acknowledgement and the metrics counter stand there inside the same try block, so an exception from them puts a job
  that has succeeded back into the queue. The audit log then holds one event more than handled messages for each place
  beyond the first.
- **Indexes.** An attempt may store any part of what it should before it raises, in either store. Convergence is stated
  with its exact condition: entries of the document under ids its chunks no longer use are never removed by an ingest.
  Together with the queue, an operation writes in pieces, with those of other workers between them, for a delete can be
  queued while an ingest of the same document is running (multi_domain_enterprise_project/main.py:926-930). A recorded
  ingest has then written everything, but its document is indexed exactly if and only if no chunk was removed after it
  was last stored; a delete between two batches is given as a run in which one was.
  The consistency report counts entries, so it calls an index consistent that holds as many stale entries as chunks are
  missing; what it says is true of the contents if and only if nothing is stale or wrong, which an undisturbed ingest into
  an index without stale entries guarantees. Chunk ids are told apart as long as document ids and versions hold no NUL
  character, whatever the tenant. On the ingest path that holds: document ids are hexadecimal
  (multi_domain_enterprise_project/core/storage.py:42-46) and versions are printed integers.
- **Agent graph.** The graph is a state machine over its nodes with an unrestricted choice of model answers, with aborts
  of a node, and over any number of user turns on the same checkpoint. When the aggregator has nothing to aggregate, its
  command and the static edge fire together and two nodes write the status of one step; the graph library refuses such
  a step, so the run ends there. Without aborts that happens if and only if a dispatch names no agent outside a retry;
  in a retry the responses of the attempt before are still there.
- **Context text.** The formatters and the parser work on the same text: the parser returns exactly what was printed if
  and only if no printed file name contains a separator and no printed content contains a header line. For the graph
  formatter one more condition is needed: when both its blocks are printed, the second title is read as part of the
  last fact, so the round trip then always fails.
- **Fusion.** Scores are reals. The results hold for every identity function; the methods use the repository's, which
  tells chunks apart unless a tenant or document id holds a colon. Document ids are hexadecimal, so it does.
- **Attachments.** Strict decoding ignores padding after a complete group, so the size estimate can exceed the decoded
  size by any amount; an attachment near the limit is then refused although its bytes would fit.
- **Streams and tokens.** The chat client delivers the server's payloads if and only if each is non-empty, contains no
  blank line and does not end in white space, which JSON text satisfies. In the token store a request issued right
  after signing out, while an older one is in flight, is not sent and cannot sign in.

## Model

| member | source | states |
|---|---|---|
| JobSafety.StepKeeps | multi_domain_enterprise_project/worker.py:94-219 | every statement of every worker, every crash and every append and commit of the API, each on its own, keeps the protocol's invariant |
| JobSafety.NoJobLost | multi_domain_enterprise_project/worker.py:153-219 | in every reachable state a job that ever entered the stream has an unacknowledged message, a dead letter or a committed success event |
| JobAccounting.Conservation | multi_domain_enterprise_project/worker.py:94-219 | the number of places a job is in changes only by entering the stream, by the skip of a succeeded job and by an exception after the commit |
| JobAccounting.ExactlyOnePlace | multi_domain_enterprise_project/worker.py:153-219 | crashes included, a job is in exactly one place unless a statement raised after its final commit |
| JobAccounting.ExactlyOneIff | multi_domain_enterprise_project/worker.py:183-219 | a step keeps every job in one place if and only if it does not raise after the commit |
| JobAccounting.RaiseAfterCommitDuplicates | multi_domain_enterprise_project/worker.py:214-219 | an exception after the commit leaves a success event and a live message of the same job |
| JobAccounting.AttemptAccounting | multi_domain_enterprise_project/worker.py:94-131 | a job is started at most max_attempts times, its messages carry the attempts 0, 1, 2, ... below the maximum, and it has at most one dead letter, carrying exactly the maximum |
| JobAccounting.AuditBalance | multi_domain_enterprise_project/worker.py:132-149 | in every reachable state the failed plus succeeded audit events of a job in the stream, and one more, are its messages whose handling reached the audit commit plus the places it is in; so events and handled messages agree if and only if the job is in one place, and a job not in the stream has no such event |
| JobAccounting.CalmAuditBalance | multi_domain_enterprise_project/worker.py:132-149 | when no statement raised after its final commit, they agree for every job |
| JobAccounting.WorkDecreases | multi_domain_enterprise_project/worker.py:222-242 | every statement a worker takes uses up some of the remaining work, retries included |
| JobAccounting.Drain | multi_domain_enterprise_project/worker.py:222-242 | without new requests, workers take at most that many statements more, in any interleaving |
| JobAccounting.DrainedOutcome | multi_domain_enterprise_project/worker.py:94-219 | once every message is handled, each job is dead-lettered or recorded as succeeded |
| Worker.FailureOutcome | multi_domain_enterprise_project/worker.py:94-150 | the failure path as a whole counts and records the attempt, updates both rows by operation and remaining attempts, and passes the job on exactly once, leaving every other message alone |
| Worker.SuccessOutcome | multi_domain_enterprise_project/worker.py:162-215 | handling without failures leaves an ingest's rows ready and succeeded or removes a deleted document with its jobs, records the success once and queues nothing |
| Worker.Stores.QueueDocumentJob | multi_domain_enterprise_project/main.py:287-343 | queueing is a run of the protocol: one message with no attempts when the append succeeds; when it raises, applied or not, three further commits leave failed rows and a recorded failure |
| Worker.Stores.ProcessMessage | multi_domain_enterprise_project/worker.py:153-219 | with an exception at any statement of the try block, handling is a run of the protocol that ends with the message acknowledged; an undecodable message only leaves a dead letter, one whose job has succeeded leaves nothing, one whose row is missing at the start is a failed attempt whose operation has not started, and otherwise it comes to the success outcome, or with the operation raising to the failure outcome |
| Worker.MarkingOutcome | multi_domain_enterprise_project/worker.py:173-181 | before the operation runs the rows say processing, or deleting for the document of a delete |
| JobOutcomes.SuccessIff | multi_domain_enterprise_project/worker.py:183-213 | a step records a success of a job if and only if it is the statement after the operation of one of its messages with the job row there and, for a delete, the document row too |
| JobOutcomes.RecordedHadRows | multi_domain_enterprise_project/worker.py:183-213 | in every run, a success recorded on the way was recorded by such a step |
| JobOutcomes.LackingRowFails | multi_domain_enterprise_project/worker.py:162-217 | whatever other workers do, an attempt that lacks a row when it begins or commits ends, when its handling ends, with the failed attempt on record and a retry or dead letter, its operation not started in the first case |
| JobOutcomes.RaisingFails | multi_domain_enterprise_project/worker.py:216-219 | the same for every statement of the try block that raises |
| JobOutcomes.DeliveredInOrder | multi_domain_enterprise_project/worker.py:232-242 | in every run no message is taken from the stream before one that was appended earlier |
| EndToEnd.RecordedIngestIsIndexed | multi_domain_enterprise_project/worker.py:153-219 | in every run, with operations interleaving piece by piece and deletes included, an operation of an ingest recorded as succeeded has stored every chunk in each selected store, and the store holds exactly the document's chunks if and only if none was removed after it was last stored |
| EndToEnd.UndisturbedIngestIsIndexed | multi_domain_enterprise_project/worker.py:153-219 | so the store is exact when nothing removed the document since that operation began |
| OverlapRun.DeleteBetweenBatches | multi_domain_enterprise_project/rag/milvus/ingestion_milvus.py:54-70 | for every document of at least two chunks, a run with a delete between two batches of its second ingest: that ingest is recorded as succeeded and nothing is removed after it returned, yet the first batch is missing |
| ChunkIds.AssignIds | multi_domain_enterprise_project/rag/chunker.py:82-86 | every piece becomes the node of its own number: its tenant, document, version, index and text, under the stable id of these |
| ChunkIds.StableNodeIdInjective | multi_domain_enterprise_project/rag/chunker.py:17-19 | whatever the tenants, two chunks share an id only if they are the same chunk, for document ids and versions without NUL |
| ChunkIds.AmbiguousIff | multi_domain_enterprise_project/rag/chunker.py:17-19 | a document shares its chunk ids with some other one if and only if its tenant, id or version holds a NUL |
| DualConvergence.OthersUnchanged | multi_domain_enterprise_project/rag/milvus/ingestion_milvus.py:54-70 | no attempt on one document changes another document's entries |
| DualConvergence.RetryConvergence | multi_domain_enterprise_project/rag/document_in_database.py:127-170 | after any mix of failing attempts with one success, the index holds exactly the document's chunks, if and only if it held no stale entries of it before |
| DualConvergence.ConvergenceFrom | multi_domain_enterprise_project/rag/document_in_database.py:127-170 | the same with removals of the document before the success, whole or partial: what is stale just before the success decides |
| DualConvergence.ExactIff | multi_domain_enterprise_project/rag/milvus/ingestion_milvus.py:54-70 | for any interleaving of partial writes and removals from any index: exactly the document's chunks are there if and only if each was stored, or held at the start, and removed by none since, and every stale entry of the start was removed |
| DualConvergence.RunClean | multi_domain_enterprise_project/rag/milvus/ingestion_milvus.py:54-70 | over any interleaving of partial writes and removals, an index without stale or wrong entries of the document never gets one |
| DualConvergence.RemovalClears | multi_domain_enterprise_project/rag/rag_service.py:180-212 | a successful deletion clears the document and nothing else |
| IndexStores.IndexPair.InsertMilvusNodes | multi_domain_enterprise_project/rag/milvus/ingestion_milvus.py:54-70 | all batches before a failing one are stored, none after it, and the call fails exactly when a batch did |
| IndexStores.BatchWriteMeans | multi_domain_enterprise_project/rag/milvus/ingestion_milvus.py:54-70 | a node is stored exactly when no batch fails, its batch comes before the failing one, or the failing batch still stored it |
| IndexStores.IndexPair.InsertGraphNodes | multi_domain_enterprise_project/rag/graph/ingestion_graph.py:103-147 | the nodes are stored, or a part of them before the call fails |
| IndexStores.IndexPair.StoreNodes | multi_domain_enterprise_project/rag/document_in_database.py:127-168 | each mode writes exactly its stores, with both always tried in the dual mode and each failure reported |
| IndexStores.IndexPair.InsertDocument | multi_domain_enterprise_project/rag/document_in_database.py:107-170 | each mode writes exactly its stores, both are tried in the dual mode, and success is reported exactly when every selected store succeeded; each then holds every text of the document under its own number |
| IndexStores.IndexPair.DeleteDocumentData | multi_domain_enterprise_project/rag/rag_service.py:180-212 | each mode deletes from exactly its stores, and after success these hold nothing of the document and everything else as before; missing ids and unknown modes are errors |
| DualIndex.ExactMeansTexts | multi_domain_enterprise_project/rag/chunker.py:82-86 | an index is exact if and only if it has every text of the document under its number and nothing else of the document |
| IndexCheck.CountDecides | multi_domain_enterprise_project/api/knowledge_runtime.py:228-231 | as many entries as chunks means as many stale entries as missing ones, in any index; where nothing is stale and wrong or nothing is missing, it means that exactly the chunks are present |
| IndexCheck.VerdictExact | multi_domain_enterprise_project/api/knowledge_runtime.py:234-278 | for any indexes, the report says consistent if and only if the row is ready with a successful backend, each claimed store was scanned and its chunks, less the missing and plus the stale ones, are as many as recorded, and each other store holds none or was not seen |
| IndexCheck.OtherVerdicts | multi_domain_enterprise_project/api/knowledge_runtime.py:234-278 | pending exactly while the row is not ready, unknown exactly when a claimed backend of an indexed row was not scanned, mismatch exactly when the ready row claims nothing or every claimed backend was scanned and one seen differs |
| IndexCheck.ScannedMeans | multi_domain_enterprise_project/api/knowledge_runtime.py:111-118 | the vector store is scanned in full up to ten thousand rows of the tenant, the graph store up to ten thousand documents |
| IndexCheck.ConsistentIsTrue | multi_domain_enterprise_project/api/knowledge_runtime.py:234-278 | of a document called consistent, every claimed store holds exactly its chunks if and only if none holds stale entries of it or other contents under its ids |
| IndexCheck.StaleLooksConsistent | multi_domain_enterprise_project/api/knowledge_runtime.py:228-278 | where that fails: with a stale chunk of the same version, at an index the document no longer has, in place of its only chunk, the report says consistent |
| IndexCheck.IngestedIsConsistent | multi_domain_enterprise_project/api/knowledge_runtime.py:234-278 | over any run from any indexes, after a successful ingest that nothing removed since, with complete scans, the report is consistent if and only if no selected store held stale entries just before it and no other store holds any of the document; the selected stores are then exact |
| IndexCheck.CleanupExact | multi_domain_enterprise_project/worker.py:81-85 | a delete job leaves nothing behind if and only if the row records chunks or backends, or there was nothing |
| IndexCheck.FailedIngestLeavesChunks | multi_domain_enterprise_project/worker.py:81-85 | deleting a document whose only ingest failed partway leaves its chunk in the index |
| Reducers.MergeUniqueLists | multi_domain_enterprise_project/core/task_state.py:9-21 | the merged list holds exactly the items of both, and an explicit empty list clears |
| Reducers.AppendNewMerges | multi_domain_enterprise_project/core/task_state.py:17-21 | merging keeps the old order, adds what is new and creates no duplicate |
| Supervisor.InvokeSubAgent | multi_domain_enterprise_project/agent/supervisor_agent.py:56-106 | the loop registers the named agents, skipping finished ones outside a retry |
| SupervisorProgress.DispatchMeaning | multi_domain_enterprise_project/agent/supervisor_agent.py:66-90 | a dispatch makes exactly the named agents pending and requested, each with the last instruction given to it, skipping finished ones outside a retry |
| SupervisorOutcomes.InvokeDispatches | multi_domain_enterprise_project/agent/supervisor_agent.py:56-106 | after any run without aborts, a call makes exactly the agents it names the ones to run, each with the last instruction given to it |
| SupervisorOutcomes.DispatchRunsPending | multi_domain_enterprise_project/agent/supervisor_agent.py:123-133 | every pending agent runs and nobody else: all of them have finished after that, each with its own answer among the responses, all other responses kept |
| SupervisorOutcomes.RequestedHaveFinished | multi_domain_enterprise_project/agent/supervisor_agent.py:123-133 | in every run without aborts, all requested agents have finished whenever results are aggregated or audited |
| SupervisorOutcomes.ToolReturns | multi_domain_enterprise_project/agent/supervisor_agent.py:216-232 | a tool that changes nothing returns to the supervisor in a first attempt and leads to the aggregator in a retry |
| SupervisorOutcomes.RoundBeginsFresh | multi_domain_enterprise_project/agent/supervisor_agent.py:26-33 | a new round begins with empty channels and no retries, whatever the one before left |
| SupervisorSafety.StepKeeps | multi_domain_enterprise_project/agent/supervisor_agent.py:26-133 | every node keeps the lists duplicate-free, pending and finished within requested, an input for every agent to run, and the retry bounds |
| SupervisorSafety.RoundBounds | multi_domain_enterprise_project/agent/audit_agent.py:87-122 | whatever the models answer, a round has at most max_retries retries and one audit more, and fails when all of those reject |
| SupervisorOutcomes.RejectionOutcome | multi_domain_enterprise_project/agent/audit_agent.py:87-122 | in every run, a rejection ends its round, as failed, if and only if the round then has max_retries + 1 rejections or its last two say the same when trimmed; every other one is retried with the results kept, retries counting rejections |
| SupervisorOutcomes.RejectionsOfRound | multi_domain_enterprise_project/agent/audit_agent.py:87-104 | the rejections counted are those of the round: only rejecting audits add to them and only a new round forgets them |
| SupervisorOutcomes.TurnEndsIff | multi_domain_enterprise_project/agent/supervisor_agent.py:188-232 | in every run without aborts, a turn ends exactly by a failing model, an answer without a tool call, an aggregation of nothing, a passing audit or a rejection of a spent round, with the status of each |
| SupervisorSafety.RepeatedFeedbackFails | multi_domain_enterprise_project/agent/audit_agent.py:90-122 | two consecutive rejections with the same trimmed targets are the last of their round and it has failed |
| SupervisorSafety.DispatchedHaveInput | multi_domain_enterprise_project/agent/hr_agent.py:43-43 | every dispatched agent was requested and has an input |
| SupervisorProgress.StepDescends | multi_domain_enterprise_project/agent/supervisor_agent.py:207-232 | once no way leads back except through a rejecting audit, retries left and phase decrease lexicographically at every step |
| SupervisorProgress.RoundEnds | multi_domain_enterprise_project/agent/supervisor_agent.py:207-264 | so a round then ends after at most 7 * (max_retries + 1) nodes |
| SupervisorProgress.AuditedRoundEnds | multi_domain_enterprise_project/agent/supervisor_agent.py:207-264 | in every run, from an audit the round ends after at most 7 * max_retries + 1 nodes |
| SupervisorProgress.AnswerDelivered | multi_domain_enterprise_project/agent/audit_agent.py:123-139 | in every run, a round stands completed if and only if the answer aggregated last passed the audit and no node has finished since; that answer is then the result and the round's channels are empty |
| SupervisorProgress.MergeOrderIrrelevant | multi_domain_enterprise_project/agent/hr_agent.py:100-112 | parallel agents may be merged in any order: same responses, same finished set, empty pending list |
| SupervisorProgress.ResultsNeverMissing | multi_domain_enterprise_project/agent/aggregator_agent.py:17-26 | without empty dispatches and aborts the aggregator always has responses and the dispatcher agents to run; the audit has an aggregated answer in every run |
| SupervisorProgress.EmptyDispatchIff | multi_domain_enterprise_project/agent/supervisor_agent.py:26-33 | after any run without aborts, a call of the supervisor reaches the aggregator with nothing to aggregate if and only if it names no agent and the status is not retrying |
| SupervisorProgress.ResultsMissingIff | multi_domain_enterprise_project/agent/aggregator_agent.py:17-26 | in runs without aborts the aggregator has nothing to aggregate if and only if the run ends with an empty dispatch outside a retry; no other way leads there |
| SupervisorProgress.DispatchMissesIff | multi_domain_enterprise_project/agent/supervisor_agent.py:56-106 | in every state of any run, aborts included, a call reaches the aggregator with nothing if and only if the prepared state has no responses and nothing pending and every agent named is skipped as finished |
| SupervisorProgress.EmptyRetryKeepsResponses | multi_domain_enterprise_project/agent/supervisor_agent.py:26-33 | in a retry an empty dispatch reaches the aggregator with the responses of the attempt before |
| Ordering.SortStable | multi_domain_enterprise_project/rag/retrieval.py:42-42 | the sort keeps items of equal score in their order |
| Ordering.TextLessMeans | multi_domain_enterprise_project/rag/retrieval.py:86-90 | texts are ordered by the first character in which they differ, a text after its own beginnings |
| Fusion.DeduplicateNodeResults | multi_domain_enterprise_project/rag/retrieval.py:36-42 | the loop over the dict computes the deduplication the lemmas are about |
| NodeIdentity.KeyIff | multi_domain_enterprise_project/rag/retrieval.py:18-33 | two hits are taken for the same exactly when their chunk texts agree, if both name their chunk; their node ids, if neither does and one has one; their contents otherwise; the three kinds never coincide |
| NodeIdentity.SeparableIff | multi_domain_enterprise_project/rag/retrieval.py:20-27 | for chunks whose tenants, or whose document ids, hold no colon that is if and only if tenant, document, version and index agree |
| NodeIdentity.AmbiguousChunkIff | multi_domain_enterprise_project/rag/retrieval.py:20-27 | a chunk is taken for another one of the same version and index if and only if its tenant or document id holds a colon |
| NodeIdentity.DifferentChunksSurvive | multi_domain_enterprise_project/rag/retrieval.py:36-42 | hits of different chunks all survive deduplication |
| NodeIdentity.DuplicatesMerge | multi_domain_enterprise_project/rag/retrieval.py:36-42 | of hits taken for the same exactly one survives |
| FusionSpec.DedupExact | multi_domain_enterprise_project/rag/retrieval.py:36-42 | for every identity the first of its best-scored hits is kept, and nothing else, in descending order, equal scores in the order in which their identities first occurred |
| FusionSpec.DedupKeepsHighest | multi_domain_enterprise_project/rag/retrieval.py:36-42 | no hit of the same identity has a higher score than the one kept, and a missing score is below every other |
| Fusion.FuseBackendResults | multi_domain_enterprise_project/rag/retrieval.py:60-91 | both argument errors, and otherwise the ranking cut at the limit |
| FusionSpec.FusedExact | multi_domain_enterprise_project/rag/retrieval.py:71-84 | a candidate's score is the sum of 1/(k + rank) over exactly the backends that found it, it names those backends, and it carries the hit of the first of them |
| FusionOrder.EarlierIsBetter | multi_domain_enterprise_project/rag/retrieval.py:86-90 | the ranking is strict: of two candidates the earlier one wins by score, then backends, then identity |
| FusionOrder.LimitKeepsBest | multi_domain_enterprise_project/rag/retrieval.py:86-91 | nothing dropped by the limit is better than anything kept |
| FusionOrder.BackendOrderIrrelevant | multi_domain_enterprise_project/rag/retrieval.py:60-91 | permuting the backends gives the same identities in the same order with the same scores and backend sets |
| FusionDominance.BothBeforeOne | multi_domain_enterprise_project/rag/retrieval.py:73-91 | of two backends, a candidate both found precedes one of a single backend if and only if its contributions together are at least the other's |
| FusionDominance.AgreementDominates | multi_domain_enterprise_project/rag/retrieval.py:73-91 | within the first k + 2 ranks, candidates both backends found precede all others |
| FusionDominance.FirstPlaceWins | multi_domain_enterprise_project/rag/retrieval.py:73-91 | from rank k + 3 on in both backends, a candidate comes after every one that a single backend ranked first |
| FusionDominance.DominanceSharp | multi_domain_enterprise_project/rag/retrieval.py:73-91 | for every constant k there are two result lists with a candidate at rank k + 3 in both that comes after one of a single list, so k + 2 cannot be raised |
| FusionDominance.AttachRerankedProvenance | multi_domain_enterprise_project/rag/retrieval.py:94-109 | every reranked hit gets its candidate's backends and score, or the call fails on a hit that was no candidate |
| FusionDominance.ProvenanceOfFused | multi_domain_enterprise_project/rag/rag_service.py:103-114 | hits of the fused list, cut or not, always find their own provenance again |
| Evidence.ParseMetadata | multi_domain_enterprise_project/core/search.py:24-28 | the loop fills the dictionary of the header's fields |
| Evidence.ParseRetrievalContext | multi_domain_enterprise_project/core/search.py:16-50 | the loop reports one item per header line with the content up to the next one |
| Evidence.HeaderPartsLazy | multi_domain_enterprise_project/core/search.py:10-13 | no reading of a header line has a shorter source group than the one captured |
| Evidence.HeaderPartsComplete | multi_domain_enterprise_project/core/search.py:10-13 | a line is accepted exactly when it can be read as a header, and the groups rebuild it |
| Evidence.HeaderPartsExact | multi_domain_enterprise_project/core/search.py:10-13 | a printed header yields its own groups if and only if no separator starts inside the source |
| Decimal.ParseIntText | multi_domain_enterprise_project/core/search.py:53-59 | reading a printed integer gives it back |
| RoundTrip.RoundTripExact | multi_domain_enterprise_project/core/search.py:16-50 | the parser returns exactly the printed sections, in order, if and only if no content holds a header line and no source a separator |
| Printing.ExpectedIsEvidence | multi_domain_enterprise_project/rag/retrieval.py:134-143 | the item read back carries the hit's own source, score text, document id, version, chunk index and content |
| Nodes.Fixed4Means | multi_domain_enterprise_project/rag/retrieval.py:132-133 | the score text is a whole number, a point and four digits that say the score to within half of the last one |
| Packing.Pack | multi_domain_enterprise_project/rag/retrieval.py:122-149 | the packing loop keeps what the two limits allow |
| Formatters.PackedWithinLimits | multi_domain_enterprise_project/rag/retrieval.py:144-149 | the output is the fixed message or fits the budget, and no document exceeds its share |
| Formatters.PackedMaximal | multi_domain_enterprise_project/rag/retrieval.py:144-149 | no skipped section could be appended to the finished output within both limits |
| Formatters.FusedPerDocument | multi_domain_enterprise_project/rag/retrieval.py:126-149 | counted by the documents of the nodes, or their file names, no document has more places than its share |
| Formatters.FormatFusedContext | multi_domain_enterprise_project/rag/retrieval.py:112-149 | the formatter, with its empty message and its argument error |
| Formatters.FusedRoundTrip | multi_domain_enterprise_project/rag/retrieval.py:112-149 | the parser returns exactly the emitted results if and only if the emitted file names and contents are clean |
| Formatters.SkipSeen | multi_domain_enterprise_project/rag/milvus/ingestion_milvus.py:154-158 | only the first hit of each node id is kept |
| Formatters.FirstByIdExact | multi_domain_enterprise_project/rag/milvus/ingestion_milvus.py:154-158 | exactly the first hits of each node id remain, in their order |
| Formatters.FormatMilvusContext | multi_domain_enterprise_project/rag/milvus/ingestion_milvus.py:133-181 | the vector formatter |
| Formatters.MilvusRoundTrip | multi_domain_enterprise_project/rag/milvus/ingestion_milvus.py:133-181 | the same round trip for the vector formatter |
| Formatters.MilvusPerDocument | multi_domain_enterprise_project/rag/milvus/ingestion_milvus.py:159-161 | the share of a document in the vector formatter |
| GraphFormat.PackGraph | multi_domain_enterprise_project/rag/graph/ingestion_graph.py:239-275 | the two-list packing loop |
| GraphFormat.FormatGraphRetrievalResults | multi_domain_enterprise_project/rag/graph/ingestion_graph.py:214-283 | the graph formatter |
| GraphFormat.GraphWithinLimits | multi_domain_enterprise_project/rag/graph/ingestion_graph.py:239-283 | its output is the fixed message or fits the budget, and no document exceeds its share |
| GraphFormat.GraphPerDocument | multi_domain_enterprise_project/rag/graph/ingestion_graph.py:239-247 | the share of a document in the graph formatter |
| GraphFormat.GraphKinds | multi_domain_enterprise_project/rag/graph/ingestion_graph.py:261-272 | facts are exactly the contents with the extractor's mark, they fill the first block, and items read back keep their kind |
| GraphFormat.GraphMaximal | multi_domain_enterprise_project/rag/graph/ingestion_graph.py:263-281 | a skipped hit whose document has places left would fit the printed output if and only if nothing of the other kind is kept and the excess is at most that kind's title and gap |
| GraphFormat.GraphRoundTrip | multi_domain_enterprise_project/rag/graph/ingestion_graph.py:214-283 | the parser returns what was printed if and only if the sections are clean and only one of the blocks is printed |
| AuditPaging.ListAuditEvents | multi_domain_enterprise_project/core/audit.py:285-308 | limits outside 1 to 200 are errors; a page holds at most the limit, and exactly the limit when there is a next one |
| AuditPaging.PagingComplete | multi_domain_enterprise_project/core/audit.py:274-308 | whatever is appended between reads, the pages are strictly descending and hold every matching event present at the first read |
| AuditPaging.PagingSound | multi_domain_enterprise_project/core/audit.py:274-308 | nothing is returned that was not in the log by the last read |
| AuditPaging.PagingFields | multi_domain_enterprise_project/core/audit.py:274-308 | in terms of the fields, all pages together hold only events of the tenant that pass every filter given, the latest first and of equal times the greater id, and all of those present at the first read |
| AuditPaging.FixedLogFinishes | multi_domain_enterprise_project/core/audit.py:303-307 | paging a log that does not change ends, after at most one read more than there are events, and has then returned all that is selected |
| AuditPaging.GrowingLogFinishes | multi_domain_enterprise_project/core/audit.py:274-308 | when everything appended between reads is newer than the events of the first read, paging ends after at most one read more than there were events selected, and returns exactly those |
| AuditPaging.PagesAreTheLog | multi_domain_enterprise_project/core/audit.py:274-308 | with nothing appended the pages put together are the sorted filtered log |
| Base64.DecodeEncode | multi_domain_enterprise_project/core/audit.py:252-257 | padded encoding in either alphabet decodes to the original bytes |
| Base64.CursorRoundTrip | multi_domain_enterprise_project/core/audit.py:252-263 | stripping the padding and restoring `-len % 4` of it decodes to the original bytes, for every length |
| Base64.EstimateBounds | multi_domain_enterprise_project/core/storage.py:109-121 | the size estimate exceeds the decoded size by exactly what the padding adds, and by at most two if and only if the text ends in at most three padding characters |
| Base64.SurplusIgnored | multi_domain_enterprise_project/core/storage.py:115-121 | any amount of padding after whole groups decodes to the same bytes |
| Base64.KnownVectors | multi_domain_enterprise_project/core/audit.py:252-257 | test vectors of section 10 of RFC 4648, and the symbols in which the two alphabets differ |
| Base64.PayloadMeans | multi_domain_enterprise_project/core/storage.py:109-111 | of a data URL what follows the first comma is decoded, any other value as it is |
| Base64.AttachmentAccepted | multi_domain_enterprise_project/core/storage.py:109-121 | an attachment is accepted if and only if it decodes and its size with the excess of its padding fits; the second size check never fires |
| Upload.LastChunk | frontend/src/api/admin.ts:93-94 | client and server count the same chunks, and the last one ends the file |
| Upload.ChunkSizes | multi_domain_enterprise_project/main.py:803-810 | the size the server expects of a chunk is the size the client cuts |
| Upload.StreamUpload | multi_domain_enterprise_project/core/storage.py:57-82 | a body is stored whole, or not at all when it is too large, of the wrong size or cannot be read |
| Upload.CopyBlocks | multi_domain_enterprise_project/core/storage.py:134-140 | copying a part block by block fails exactly when it outgrows the declared size |
| Upload.Session.UploadChunk | multi_domain_enterprise_project/main.py:792-811 | a chunk is stored exactly when its index and size are right and every read succeeded; else nothing changes |
| Upload.Session.CombineChunks | multi_domain_enterprise_project/core/storage.py:124-148 | with stored chunks of the expected sizes it succeeds exactly when all are there, and neither size error can occur |
| Upload.UploadAll | frontend/src/api/admin.ts:104-118 | after any attempts, each breaking off at any read or not at all, the stored chunks are the client's own, for the indexes that arrived whole |
| Upload.Complete | multi_domain_enterprise_project/main.py:814-828 | completion is accepted exactly when every index is stored |
| Upload.AssembledSize | multi_domain_enterprise_project/core/storage.py:124-148 | chunks of the expected sizes add up to the declared file size |
| Upload.UploadRoundTrip | multi_domain_enterprise_project/main.py:792-828 | over any order, repeats and transfers that break off, completion is accepted if and only if every index once arrived whole, and the output is the client's file |
| ChatStream.Client.Read | frontend/src/api/chat.ts:32-43 | one read delivers the finished frames of buffer and text and keeps the unfinished tail |
| ChatStream.Client.StreamChat | frontend/src/api/chat.ts:26-44 | however the text is cut into reads, the events are those of the whole text |
| ChatStream.StreamDelivers | multi_domain_enterprise_project/main.py:426-466 | the client delivers exactly the payloads sent if and only if each is non-empty, without a blank line and without white space at its end |
| TokenStore.Store.SetAccessToken | frontend/src/api/auth.ts:40-52 | a non-blank token is stored trimmed under a new revision; a blank one is an error that changes nothing |
| TokenStore.Store.RequestDevelopmentToken | frontend/src/api/auth.ts:93-98 | a request is sent only without a token and without another request in flight |
| TokenStore.Store.ReceiveAnswer | frontend/src/api/auth.ts:100-135 | the answer is used only if nothing changed since the request began |
| TokenStore.EveryInterleaving | frontend/src/api/auth.ts:40-135 | authenticated exactly when a token is held, at most one request in flight, and not initializing once a sent request was answered |
| TokenStore.AnswerSignsIn | frontend/src/api/auth.ts:93-135 | in any history, the answer to a request that was sent changes the token if and only if it grants one that is not blank and nothing set or cleared a token in between; that token, trimmed, is then held, and an undisturbed refusal shows its own error |
| TokenStore.SessionLasts | frontend/src/api/auth.ts:40-165 | a session lasts exactly until another token is set, it is cleared or a 401 for its own token arrives: late answers, new requests and 401s for other tokens change neither token nor status |
| TokenStore.StaleAnswerIgnored | frontend/src/api/auth.ts:93-135 | an answer to a request that began before a later set or clear changes neither token nor status |
| TokenStore.ReissueSignsIn | frontend/src/api/auth.ts:87-135 | in any history, after signing out and asking again at once, the next answer signs in if and only if it grants a token that is not blank and no request was in flight at the sign-out |
| ThreeSum.TripleAtPositions | algorithm/5.py:5-35 | three values occur together exactly when they stand at three different positions |
| ThreeSum.PairsFor | algorithm/5.py:15-33 | the two pointers find all triples that start at one position, in order and without repeats |
| ThreeSum.FindTriples | algorithm/5.py:5-35 | the result is exactly the ascending triples summing to zero, each once |
| RankingMetrics.EvaluateRanking | evals/rag/run_multihop_retrieval_eval.py:614-629 | the four metrics as computed |
| RankingMetrics.MetricsMean | evals/rag/run_multihop_retrieval_eval.py:614-624 | recall is the number of places that hit over the gold titles, the reciprocal rank that of the first place that hits, and both are 0 without one |
| RankingMetrics.SingleGold | evals/rag/run_multihop_retrieval_eval.py:625-628 | with one gold title, found at one place, the normalised gain is the weight of its rank against that of the first |
| RankingMetrics.HitBound | evals/rag/run_multihop_retrieval_eval.py:615-618 | titles distinct among the first k hit at most min(gold titles, k) times |
| RankingMetrics.MetricBounds | evals/rag/run_multihop_retrieval_eval.py:614-629 | with titles distinct among the first k, recall, reciprocal rank and normalised gain lie between 0 and 1 and agree on whether anything was found |
| RankingMetrics.RecallBoundedIff | evals/rag/run_multihop_retrieval_eval.py:615-618 | the first k titles are distinct if and only if recall stays within 1 for every gold set: a title ranked twice counts twice |
| RankingMetrics.PerfectGain | evals/rag/run_multihop_retrieval_eval.py:625-628 | the normalised gain is 1 if and only if the first min(gold, k) places all hit |

## Left out

- Floating point: scores are exact reals, so rounding in sums and in the metrics is not modelled; a score text is the exact real rounded to four digits, ties to even.
- Hash functions: a digest is represented by the text it digests, which assumes the hash injective.
- The text of `float()`: the parser's score stays the text handed to it; `int()` is modelled for ASCII digits.
- Regular expressions: the header pattern is modelled on whole lines, its lazy groups by the earliest separator; the graph formatter's removal of scope prefixes is a parameter.
- JSON text: event payloads and cursor contents are the texts the encoder wrote.
- Lenient Base64: characters outside the alphabet are rejected, as strict decoding does, while the cursor's decoder skips them.
- TextDecoder: the chat client's reads are text; bytes of a character split between reads are not modelled.
- Exceptions inside the failure path: they end the worker, which the model covers as a crash; progress after a crash is not claimed, since delivered messages are never reclaimed.
- The two checks of the API before queueing a job: they are not atomic, so several jobs for a document may be in the queue, which the model allows.
- Entities and relations in the graph store, cleaning of node metadata and embeddings: only the chunks of each index are modelled.
- The orphan report, counts and sorting of the report endpoint: each is settled by reading one function.
- Several tool calls in one supervisor answer: an answer makes one tool call at most.
- Messages written by others into the stream: they are modelled as undecodable; a decoded message has the number of attempts the queue wrote.
- Message histories of agents, prompts and references inside answers: an answer is one text.
- Upload.Session.CombineChunks: the temporary file and the checksum are not modelled; the output is the bytes written.
- File signatures, authorization filters, rate limits, metrics, logging, migrations and the user interface.
- The other algorithm files.
