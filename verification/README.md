# Verification model of spider_qwen

This project models the parts of spider_qwen whose correctness cannot be seen
from one function body, and proves what they promise: the evidence ledger and
its transparency log, the entity research runner, the run service, the supplier
identity registry, and four self-contained algorithms (benchmark split, belief
fusion, personalized PageRank, tool scheduling). `dafny verify dfyconfig.toml`
checks everything.

## How the program is modelled

- **Transparency log** (`MerkleTree`, `MerkleVerifiers`, `MerkleLogs`). SHA-256
  is a free constructor: equal digests come from equal inputs, and leaf and
  interior hashes never collide. A proof element or root from outside is an
  optional digest; `None` is a string that is not 64 hexadecimal digits, and
  `Unknown` is a digest nobody knows a preimage of. The prover recurses top-down
  on the largest power of two, as in section 2.1 of RFC 6962; the verifiers are
  the bottom-up loops of sections 2.1.3.2 and 2.1.4.2 of RFC 9162. `Pair`, one
  level of neighbours hashed together with an odd last element promoted, is the
  bridge between the two directions.
- **Evidence ledger** (`LedgerModel`, `LedgerHistory`, `LedgerReference`,
  `LedgerGuarantees`, `LedgerCrashes`, `EvidenceLedgers`). The dictionary of rows is an
  insertion-ordered sequence, the canonical file and the write-ahead log are fields, and every method is one
  step of a state machine. `published` is a history variable: all heads ever
  written to the canonical file. The clock and the signing key found in the
  environment are parameters. `LedgerReference` is the same ledger without hashes,
  a plain list of contents with a file and a log, which every run is proved to
  follow. `LedgerCrashes` follows the write-ahead log alone through any number of
  crashes.
- **Entity research** (`ResearchModel`, `EntityResearch`). Each
  `BEGIN IMMEDIATE` block is one atomic transaction, taken in any order by any
  worker, caller or restarted process, with a context that may be arbitrarily
  stale. A work id, a hash in the source, is the pair it is computed from. The
  attempt stored with a reservation is a history variable. `run_pending` runs its
  workers in any order; the submissions and retries that other threads and the
  handlers make during the call are a parameter, taken at any moment.
- **Run service** (`RunModel`, `RunGuarantees`, `RunServices`). Each transaction
  and each stretch of code under the lock is one step; the loop in which `close`
  works off its copy of the futures is outside the lock and takes two steps per
  future. The database can be opened again after a process death, or after
  `close` while a `start` of the closed service is still in flight. Each run has
  a `Job` beside its row: the state of its future and of the threads around it,
  and history variables. Its `party` says who may still finish the run (a
  `start`, an orphaned `start` of a closed service, a pending future, a worker
  before or after its first transaction, whoever revoked the future, nobody); the
  safety of the unguarded `_finish` rests on it.
- **Identity registry** (`AliasModel`, `IdentityRegistry`). The alias map is a
  field, and so is the file of a durable registry, which other processes may have
  rewritten since the map was read; `stored` and `accepted`, ghost fields, hold
  the present registry and the approvals accepted so far.
- **Benchmark split** (`DisjointSets`, `GroupSplit`). Path halving works in place
  on the array of parents. The digest order of the groups is an arbitrary
  permutation.
- **Belief fusion, PageRank, token bucket** (`BeliefFusion`, `PageRank`,
  `TokenBuckets`) use exact reals in place of floating point.
- **Tool scheduling** (`ToolDag`). The nodes of one level run in an arbitrary
  order; `run` is a parameter.

## Findings

Places where the code does not do what its documentation promises, each proved
with the exact condition or a witness:

- Persisting with a malformed signing key raises after the new head was stored,
  so the ledger then holds the old head's signature next to the new head; a
  later bundle carries a signature of another head
  (`PersistKeepsSignatureIff`, `MalformedKeyDetachesSignature`).
- `load` skips both integrity checks for a file whose row list was emptied, so
  a published head without rows is accepted (`LoadExact`). It skips the chain
  check when every stored row hash is blank (`BlankHeadAnchorsNothing`).
- A row recorded under an id that is already present replaces the old row in
  place but links to the tip, which breaks the chain
  (`RecordKeepsChainIffFreshId`). `record` draws the ids itself, so this takes a
  collision of two random 48-bit ids.
- `submit` and `retry_failed` take no run lock, so `run_pending` can return with
  items of its scope still queued. It does exactly when one of these calls queues
  an item after the last worker has found the queue empty (`RunPending`,
  `LateSubmitIsLeft`). A handler that ends with an exception outside `Exception`
  leaves its item running until the database is opened again (`RunPending`).
- `close` wakes up the event loops it has copied. If a worker has closed one of
  them meanwhile, that raises, no future is stopped, the process lock is kept, and
  a second `close` does nothing (`CloseService`).
- `fuse` accepts masses whose total is within the tolerance of one; the clamp on
  the conflict then hides an overshoot and the fused mass exceeds one
  (`FusedIsProperIff`, `ToleranceOvershoots`).
- A service that opens the database after `close`, while a `start` of the closed
  service stands between its insert and the lock, interrupts that run; the old
  `start` then cancels it. A terminal status changes, and the log names two
  outcomes. No terminal status can ever change exactly when no service is opened
  at such a moment (`ReopenOverturns`, `StatusIsFinalIff`); a process death alone
  is harmless (`DeathOvertakesNobody`).
- A future that `close` has copied and `cancel` revokes nevertheless is
  acknowledged twice, so the log has more than one terminal event
  (`OneTerminalEventIff`, `AcknowledgedTwice`).
- The deadline is checked before the result is encoded, and the finish time is
  read afterwards: a completed run can carry a finish time behind its deadline
  (`FinishedAfterDeadline`).
- A row recorded after the recovery from a torn write-ahead log is appended
  behind the torn line, and a second crash loses it and every later row
  (`RecordedRowsSurviveIff`, `RowAfterTearIsLost`).
- A restart goes by the canonical file as soon as there is one, so rows recorded
  behind it are lost although the write-ahead log holds them; a row comes back
  exactly when no file was ever written or the file has it
  (`RowSurvivesRestartIff`, `LoggedRowIsLost`).
- `_levels` silently drops a node whose id was resolved in an earlier round, and
  with it any cycle through it; every node is scheduled exactly when nodes with
  one id become ready in the same round (`EveryNodeKeptIff`,
  `DuplicateIsDropped`).

## Model

| member | source | states |
|---|---|---|
| MerkleTree.SplitPointUnique | spider_qwen/evidence/transparency.py:61-66 | the split is a power of two, and the only one in [n/2, n) |
| MerkleTree.LargestPowerOfTwoBelow | spider_qwen/evidence/transparency.py:61-66 | the doubling loop finds that split |
| MerkleTree.MthRecursion | spider_qwen/evidence/transparency.py:195-203 | the tree hash obeys the recursion of RFC 6962 section 2.1 |
| MerkleTree.PairKeepsTreeHash | spider_qwen/evidence/transparency.py:195-203 | hashing neighbours once, promoting an odd last element, leaves the tree hash unchanged |
| MerkleTree.RootCommitsToLeaves | spider_qwen/evidence/transparency.py:195-203 | equal roots mean equal logs: contents, order and size |
| MerkleTree.AuditPathByLevel | spider_qwen/evidence/transparency.py:218-225 | a top-down audit path is the sibling followed by the audit path one level up, for every ragged tree |
| MerkleTree.SubProofEvenSize | spider_qwen/evidence/transparency.py:236-243 | for an even first size the proof is the one of the paired layers |
| MerkleTree.SubProofOddSize | spider_qwen/evidence/transparency.py:236-243 | for an odd first size the proof is the last old element, unless it is the whole old tree, and its audit path |
| MerkleVerifiers.InclusionExact | spider_qwen/evidence/transparency.py:262-290 | against a log's root exactly the stored leaf with the log's own path is accepted: soundness, completeness and uniqueness |
| MerkleVerifiers.VerifyInclusion | spider_qwen/evidence/transparency.py:262-290 | the fn/sn loop decides that condition, malformed digests and out-of-range indices included |
| MerkleVerifiers.AcceptedLeafIsInLog | spider_qwen/evidence/transparency.py:262-290 | with a forged index and size, still only leaves of the log are accepted against its root |
| MerkleVerifiers.PowerOfTwoBitTrick | spider_qwen/evidence/transparency.py:331-333 | m & (m - 1) is zero exactly for powers of two |
| MerkleVerifiers.SubProofSeed | spider_qwen/evidence/transparency.py:236-243 | the prover leaves the old root out exactly when the old size is a power of two |
| MerkleVerifiers.DualClimbExact | spider_qwen/evidence/transparency.py:340-355 | on two true roots the lock-step climb accepts only common layers and one path |
| MerkleVerifiers.ConsistentExact | spider_qwen/evidence/transparency.py:314-355 | the assembled path is accepted exactly when the first layer is a prefix of the second and the path is its subproof |
| MerkleVerifiers.AcceptsExactly | spider_qwen/evidence/transparency.py:314-355 | between two logs' roots a proof is accepted exactly when the first log is a prefix of the second and the proof is the one the log issues |
| MerkleVerifiers.AcceptedGrowthExtends | spider_qwen/evidence/transparency.py:314-355 | with forged sizes, still no proof connects a log's root to the root of a log that does not extend it |
| MerkleVerifiers.VerifyConsistency | spider_qwen/evidence/transparency.py:314-355 | the fn/sn loop with two roots decides that condition, for any sizes, roots and proof list |
| MerkleLogs.MerkleLog.Append | spider_qwen/evidence/transparency.py:180-182 | appends; every head that covered the log before still covers it |
| MerkleLogs.MerkleLog.RootHash | spider_qwen/evidence/transparency.py:189-193 | the tree hash of a prefix, or an error out of range |
| MerkleLogs.MerkleLog.HashRange | spider_qwen/evidence/transparency.py:195-203 | the index-range recursion computes the tree hash of the slice |
| MerkleLogs.MerkleLog.InclusionProof | spider_qwen/evidence/transparency.py:211-225 | in range the returned path is the one the verifier accepts |
| MerkleLogs.MerkleLog.ConsistencyProof | spider_qwen/evidence/transparency.py:227-243 | in range the returned list is the one the verifier accepts |
| MerkleLogs.MerkleLog.ProveCitation | spider_qwen/evidence/transparency.py:245-259 | the proof is for the first row with the id, carries the current head and verifies; an unknown id is an error |
| MerkleLogs.VerifyCitation | spider_qwen/evidence/transparency.py:293-296 | on any incoming proof, malformed digests included; against a head over known leaves exactly the stored leaf and its path are accepted |
| MerkleLogs.VerifySignedCitation | spider_qwen/evidence/transparency.py:299-311 | on any incoming proof, malformed digests and heads included, accepted exactly when the inclusion verifies and the pinned key signed the very head it was checked against; exact against a head over known leaves |
| MerkleLogs.HeadsConsistent | spider_qwen/evidence/transparency.py:314-355 | two heads over prefixes of one log are connected by exactly one consistency proof |
| LedgerModel.SealedIsResealed | spider_qwen/evidence/ledger.py:201-211 | a chain is sealed exactly when resealing it changes nothing |
| LedgerModel.ChainOfInjective | spider_qwen/evidence/ledger.py:34-36 | one chain hash pins down every row content before it |
| LedgerModel.NoIssuesIffSealed | spider_qwen/evidence/ledger.py:148-167 | the chain walk reports nothing exactly when every stored link is the one the contents call for |
| LedgerHistory.LazyRefinesEager | spider_qwen/evidence/ledger.py:199-211 | over every run, resealing once before a reader shows the same ledger, files and heads as relinking after every annotate |
| LedgerHistory.StepOk | spider_qwen/evidence/ledger.py:76-290 | every operation, restarts included, keeps the ledger and file invariant |
| LedgerHistory.RunOk | spider_qwen/evidence/ledger.py:76-412 | so does every run with fresh row ids |
| LedgerReference.ReachableIsList | spider_qwen/evidence/ledger.py:76-412 | over every run with fresh ids the rows, what a published head covers, the file and the log hold exactly what a plain list without hashes holds |
| LedgerReference.AnnotationsAreKept | spider_qwen/evidence/ledger.py:169-199 | between restarts the content of a row is what was recorded, its metadata overwritten in order by the accepted annotations of its id |
| LedgerReference.RowSurvivesRestartIff | spider_qwen/evidence/ledger.py:344-399 | a restart brings a row back exactly when no canonical file was written or the file has it |
| LedgerReference.LoggedRowIsLost | spider_qwen/evidence/ledger.py:344-399 | a run after which a row in the write-ahead log does not come back |
| LedgerModel.IssuesExact | spider_qwen/evidence/ledger.py:148-167 | the report names exactly the rows linked to another parent than the row before them, and those whose hash is not of their content, each with its reason |
| LedgerModel.PutAllKeepsLast | spider_qwen/evidence/ledger.py:376-381 | of several stored rows with one id the last one counts |
| LedgerGuarantees.PublishedHeadsCover | spider_qwen/evidence/ledger.py:169-211 | every head ever written covers the oldest rows of the ledger as it is now |
| LedgerGuarantees.PublishedHeadsConsistent | spider_qwen/evidence/ledger.py:243-290 | between any two published heads exactly the current log's consistency proof is accepted |
| LedgerGuarantees.PublishedRowsFrozen | spider_qwen/evidence/ledger.py:188-199 | the contents under a published head never change again |
| LedgerGuarantees.ReachableChainVerifies | spider_qwen/evidence/ledger.py:148-167 | verify_chain reports nothing in any state reached from an empty ledger |
| LedgerGuarantees.RecordKeepsChainIffFreshId | spider_qwen/evidence/ledger.py:112-118 | recording keeps the chain intact exactly when the row id is new |
| LedgerGuarantees.LoadExact | spider_qwen/evidence/ledger.py:376-412 | under a published head, load accepts the published rows and the empty row list, nothing else |
| LedgerGuarantees.AcceptedFilesAgree | spider_qwen/evidence/ledger.py:376-412 | two accepted non-empty files with one head agree on every row, links included, if some row hash is not blank |
| LedgerGuarantees.BlankHeadAnchorsNothing | spider_qwen/evidence/ledger.py:383-412 | if all row hashes are blank a file with different contents is accepted under the same head |
| LedgerGuarantees.PersistLoadRoundTrip | spider_qwen/evidence/ledger.py:243-412 | loading what was persisted gives back rows, tip, original head and signature |
| LedgerGuarantees.CrashRecovery | spider_qwen/evidence/ledger.py:355-375 | before the first persist, a log cut anywhere recovers the surviving rows, sealed, in order, as recorded |
| LedgerCrashes.RecordedRowsSurviveIff | spider_qwen/evidence/ledger.py:226-241 | over any number of crashes replay brings back every recorded row, in order, exactly when none was appended behind an unfinished line |
| LedgerCrashes.RowAfterTearIsLost | spider_qwen/evidence/ledger.py:355-375 | a run in which a second crash loses the rows recorded after a recovery |
| LedgerGuarantees.BundleVerifies | spider_qwen/evidence/ledger.py:300-329 | every bundle verifies against its own head, and an attached signed head equals it while head and signature match |
| LedgerGuarantees.SignedBundlePassesIff | spider_qwen/evidence/ledger.py:300-329 | under a pinned key a bundle passes exactly when it carries that key's signature and the ledger's head and signature match |
| LedgerGuarantees.SignedBundlesPass | spider_qwen/evidence/ledger.py:260-329 | after a persist with key k every recorded row can be cited to whoever pinned k, over any restarts, annotations and further persists without another key, as long as nothing is recorded |
| LedgerGuarantees.PersistKeepsSignatureIff | spider_qwen/evidence/ledger.py:260-276 | persisting keeps head and signature matched, except with a malformed key, a held signature and rows that moved on |
| LedgerGuarantees.SignatureStaysAttached | spider_qwen/evidence/ledger.py:260-276 | without malformed keys head and signature stay matched over every run |
| LedgerGuarantees.MalformedKeyDetachesSignature | spider_qwen/evidence/ledger.py:260-276 | a four-step run in which they come apart |
| EvidenceLedgers.EvidenceLedger.constructor | spider_qwen/evidence/ledger.py:57-74 | an empty ledger that satisfies the invariant |
| EvidenceLedgers.EvidenceLedger.SealChain | spider_qwen/evidence/ledger.py:201-211 | the in-place loop writes exactly the links the contents call for |
| EvidenceLedgers.EvidenceLedger.Record | spider_qwen/evidence/ledger.py:112-118 | seals, links to the tip and stores exactly this content under its id; the write-ahead log gets that row, heads, signature and file stay; keeps the invariant for a new id |
| EvidenceLedgers.EvidenceLedger.Annotate | spider_qwen/evidence/ledger.py:169-199 | every updated key of that row gets its new value, its other keys, id and body and every other row stay; refuses exactly unknown rows and rows under the published head, and then changes nothing |
| EvidenceLedgers.EvidenceLedger.VerifyChain | spider_qwen/evidence/ledger.py:148-167 | the report names exactly the broken rows with their reasons and is empty exactly for a sealed chain |
| EvidenceLedgers.EvidenceLedger.TransparencyLog | spider_qwen/evidence/ledger.py:141-146 | a log over the sealed chain hashes |
| EvidenceLedgers.EvidenceLedger.Persist | spider_qwen/evidence/ledger.py:243-290 | keeps the published head exactly if it describes the sealed rows, signs it with the key or keeps a signature of it, writes file and history; a malformed key stops it behind the head; without a directory nothing happens |
| EvidenceLedgers.EvidenceLedger.CitationProofBundles | spider_qwen/evidence/ledger.py:300-329 | one verifying bundle per id, for the first row with it; while the published head describes the rows it carries that head and its stored signature, otherwise a fresh head and none; fails exactly for an unknown id |
| EvidenceLedgers.EvidenceLedger.Restart | spider_qwen/evidence/ledger.py:332-412 | a new process on the ledger's own files always loads them |
| EvidenceLedgers.EvidenceLedger.LoadFrom | spider_qwen/evidence/ledger.py:332-412 | canonical file first, write-ahead log for a missing or unreadable one; a head that does not describe the rows is always an error, a broken chain only under verification |
| EntityResearch.EntityResearchRunner.constructor | spider_qwen/application/entity_research.py:341-355 | opening recovers the tables and leaves nothing running, in any scope |
| EntityResearch.EntityResearchRunner.SubmitTasks | spider_qwen/application/entity_research.py:392-493 | all or nothing: a dataset gets the limits of its first submission, every new task an item with its own fingerprint and attempts, nothing else changes; taken exactly when well-formed, without repeats and in agreement with what is there |
| EntityResearch.EntityResearchRunner.ClaimNext | spider_qwen/application/entity_research.py:525-553 | claims some claimable item and returns its current snapshot, with one more attempt and no error; None exactly when nothing can be claimed |
| EntityResearch.EntityResearchRunner.ReserveFor | spider_qwen/application/entity_research.py:555-635 | granted exactly for valid amounts of a running attempt that fit the remaining limits; then one row is appended and the counters grow by it; otherwise nothing changes; the table invariant is kept |
| EntityResearch.EntityResearchRunner.CompleteItem | spider_qwen/application/entity_research.py:637-662 | succeeds exactly for a valid, identity-matched claim of a running attempt, stores that claim in that item alone, and keeps the table invariant |
| EntityResearch.EntityResearchRunner.FailItem | spider_qwen/application/entity_research.py:664-674 | fails a running attempt and no other item; a context that is not current changes nothing; the table invariant is kept |
| EntityResearch.EntityResearchRunner.RetryFailed | spider_qwen/application/entity_research.py:724-776 | requeues exactly the failed items of the scope with attempts left, or those of them that were named, leaves all others alone and counts them |
| EntityResearch.EntityResearchRunner.WorkerMove | spider_qwen/application/entity_research.py:676-690 | one move of one worker keeps the pool invariant and makes progress |
| EntityResearch.EntityResearchRunner.DrainQueue | spider_qwen/application/entity_research.py:676-690 | under every schedule of the pool, with calls of others in between, the workers end; without an escaped exception the queue is empty at that moment |
| EntityResearch.EntityResearchRunner.RunPending | spider_qwen/application/entity_research.py:692-722 | whatever is submitted or retried meanwhile, it ends, and exactly the items that were running before the call are running after it, plus those of escaped handlers if it raises; nothing is queued if and only if no call after the last look at the queue queues an item of the scope |
| EntityResearch.CallQueues | spider_qwen/application/entity_research.py:392-493 | a submission or retry leaves the queue of a scope empty exactly when it was empty and the call neither adds a task to it nor requeues an item |
| EntityResearch.CallsMeanwhile | spider_qwen/application/entity_research.py:724-776 | so does any sequence of them, and none of them starts or stops an item |
| EntityResearch.LateSubmitIsLeft | spider_qwen/application/entity_research.py:692-722 | a new task submitted after the last look at the queue is left in it |
| ResearchModel.StepOk | spider_qwen/application/entity_research.py:341-776 | every transaction keeps the books balanced, quotas respected and items well formed |
| ResearchModel.RunSafe | spider_qwen/application/entity_research.py:341-776 | so does every interleaving; attempts grow, completed items and reservation rows stay |
| ResearchModel.QuotaSafety | spider_qwen/application/entity_research.py:555-635 | over every run the reserved calls and cost of a scope equal the sums over its rows and stay within the limits of the first accepted submission for it |
| ResearchModel.SubmitEffects | spider_qwen/application/entity_research.py:392-493 | the effects of a submission, field by field |
| ResearchModel.IdentityNeverMismatches | spider_qwen/application/entity_research.py:555-600 | the identity and dataset checks of a reservation never fire for a claimed item |
| ResearchModel.CompletedIsFinal | spider_qwen/application/entity_research.py:637-662 | a completed item and its identity-matched claim survive every further run |
| ResearchModel.AttemptsNeverReturn | spider_qwen/application/entity_research.py:525-674 | once an attempt is over, its context can neither complete, fail nor reserve after any further run |
| ResearchModel.ClaimsAreAttempts | spider_qwen/application/entity_research.py:525-553 | over every run an item is claimed exactly as often as its attempts grow, hence at most its maximum |
| ResearchModel.ReservationsNeedRunningAttempt | spider_qwen/application/entity_research.py:555-635 | every reservation row of every run was written by a reserving step, for the attempt of its context, which was running at that moment |
| ResearchModel.RecoverySettles | spider_qwen/application/entity_research.py:341-355 | recovery queues a running item with attempts left and fails the others, each with its note, and leaves all other items alone |
| RunModel.FinishOk | spider_qwen/application/run_service.py:591-603 | the unguarded update is safe for a run that is open, was cancelled before, or was interrupted under an orphaned start() |
| RunGuarantees.StepOk | spider_qwen/application/run_service.py:247-803 | every step, opening after close() or after a process death included, keeps limits, unique keys, row, future and log invariants |
| RunGuarantees.RunSafe | spider_qwen/application/run_service.py:247-803 | so does every interleaving of calls, workers, restarts and reopenings, and rows only evolve |
| RunGuarantees.AdmissionSafety | spider_qwen/application/run_service.py:400-442 | open runs, open live runs and live runs per UTC day never exceed their caps |
| RunGuarantees.TerminalIsFinal | spider_qwen/application/run_service.py:591-658 | a result never changes, a completed row never changes at all, and a terminal status changes only in the hands of an orphaned start() |
| RunGuarantees.FinalIff | spider_qwen/application/run_service.py:247-264 | from any state without an overtaken run: no terminal status can ever change if and only if no service opens the database while a start() of a closed one is in flight |
| RunGuarantees.StatusIsFinalIff | spider_qwen/application/run_service.py:461-471 | the same over all runs from an empty database |
| RunGuarantees.DeathOvertakesNobody | spider_qwen/application/run_service.py:247-264 | restarts after process deaths alone never meet that condition |
| RunGuarantees.ReopenOverturns | spider_qwen/application/run_service.py:461-471 | a four-step run from an empty database in which an interrupted run becomes cancelled |
| RunGuarantees.OutcomeSafety | spider_qwen/application/run_service.py:605-636 | a result exists exactly for completed runs, which were never asked to stop and met their deadline when it was checked; a run nobody holds is over |
| RunGuarantees.ResultIsDelivered | spider_qwen/application/run_service.py:605-636 | over every run the result of a completed run is the payload of a completing step of its own worker, before the deadline and without a cancellation request |
| RunGuarantees.FinishedAfterDeadline | spider_qwen/application/run_service.py:591-636 | a completed run can carry any later finish time, because the clock is read again |
| RunGuarantees.CancelRequestIsHonoured | spider_qwen/application/run_service.py:727-755 | once cancellation was requested the run can no longer complete |
| RunGuarantees.EventOrder | spider_qwen/application/run_service.py:325-343 | the last event names the outcome, at most acknowledgements follow a terminal event, and all terminal events name the outcome exactly when no orphan overruled an interruption |
| RunGuarantees.NobodyOverruled | spider_qwen/application/run_service.py:461-471 | no interruption is overruled in a run in which no service opens while a start() is in flight |
| RunGuarantees.OneTerminalEventIff | spider_qwen/application/run_service.py:727-803 | a log has exactly one terminal event if and only if it was not overruled and cancel() did not revoke a future that close() had copied; if a process death kept close() from acknowledging, it takes two cancel() calls |
| RunGuarantees.AcknowledgedTwice | spider_qwen/application/run_service.py:743-801 | a seven-step run from an empty database that ends with two acknowledgements |
| RunGuarantees.OneRunPerKey | spider_qwen/application/run_service.py:400-412 | one idempotency key names at most one run of an owner |
| RunServices.RunService.AdmitRun | spider_qwen/application/run_service.py:400-459 | a key that names a run of the owner is answered by that run or a conflict; otherwise the run is inserted with its deadline unless a cap is reached; only an admission changes anything |
| RunServices.RunService.DecideAdmission | spider_qwen/application/run_service.py:400-442 | the same fingerprint gives the existing run, another one a conflict, and the three caps refuse exactly when reached, in their order |
| RunServices.RunService.SubmitRun | spider_qwen/application/run_service.py:461-471 | hands the run to the executor, or cancels it, whatever its status, when its service was closed in between; the row and log it leaves |
| RunServices.RunService.BeginWork | spider_qwen/application/run_service.py:479-496 | starts the run unless cancellation was requested, in which case it is cancelled |
| RunServices.RunService.RecordTraceEvent | spider_qwen/application/run_service.py:325-343 | appends progress only while the run is open |
| RunServices.RunService.CompleteRun | spider_qwen/application/run_service.py:605-636 | cancelled if asked to stop, timed out if the first clock reading is at the deadline, otherwise completed with this payload; the second reading is the finish time |
| RunServices.RunService.EndRun | spider_qwen/application/run_service.py:638-658 | each other ending leaves its own status, error, time and event, and keeps the invariant |
| RunServices.RunService.CancelRun | spider_qwen/application/run_service.py:727-755 | marks an open run; a run whose future had not started is cancelled at once and its future taken off the list; a finished run is left alone |
| RunServices.RunService.CloseTables | spider_qwen/application/run_service.py:768-790 | every open run is asked to stop, with one event unless it was asked before, finished runs are left alone, and the listed futures are copied |
| RunServices.RunService.StopListed | spider_qwen/application/run_service.py:793-800 | afterwards every copied future was reached, and none is pending or unacknowledged |
| RunServices.RunService.CloseService | spider_qwen/application/run_service.py:767-803 | afterwards every open run is marked and in the hands of a worker or of a start() that will see the closed flag; if an event loop is gone it raises, and then the tables are marked but every future is as before |
| RunServices.RunService.InterruptAbandonedRuns | spider_qwen/application/run_service.py:247-264 | after a process death exactly the open runs become interrupted, with one event each; an orphaned start() of another process stays |
| RunServices.RunService.InterruptAfterClose | spider_qwen/application/run_service.py:247-264 | the same after close(), with every start() in flight left as an orphan |
| AliasModel.CompressKeepsEnds | spider_qwen/identity_registry.py:105-110 | rewriting one alias while others are still followed keeps every chain's end |
| AliasModel.ReturnHasNoEnd | spider_qwen/identity_registry.py:94-102 | meeting an id twice proves that the chain never ends |
| AliasModel.ApproveRepresents | spider_qwen/identity_registry.py:207-256 | an accepted approval merges exactly the two classes it names |
| AliasModel.ApproveEffects | spider_qwen/identity_registry.py:207-256 | when an approval is accepted, with which error it is refused, and what it does to canonical ids and evidence |
| AliasModel.RegistryIsClosure | spider_qwen/identity_registry.py:191-256 | after any approvals the map is flat, resolving is idempotent, and two ids share a canonical id exactly when accepted pairs link them |
| IdentityRegistry.ResolveFrom | spider_qwen/identity_registry.py:94-102 | returns the chain's end, or an error exactly when there is none |
| IdentityRegistry.Normalize | spider_qwen/identity_registry.py:105-110 | succeeds exactly on acyclic maps and leaves a flat map with the same ends and evidence |
| IdentityRegistry.SupplierIdentityRegistry.ApproveAlias | spider_qwen/identity_registry.py:207-256 | accepted exactly for a well-formed approval that neither cycles nor contradicts where the alias leads; then its class follows the canonical id, the references are added once, all else stays; works on the registry as stored at present and writes it back; a refusal changes nothing |
| IdentityRegistry.SupplierIdentityRegistry.Resolve | spider_qwen/identity_registry.py:258-268 | the canonical id in the registry as stored at present, linked to the argument by accepted approvals; None for a blank id |
| IdentityRegistry.SupplierIdentityRegistry.Equivalent | spider_qwen/identity_registry.py:270-286 | true exactly when both ids are named and linked by accepted approvals |
| IdentityRegistry.SupplierIdentityRegistry.ReadRows | spider_qwen/identity_registry.py:112-149 | accepts exactly non-blank, unrepeated, acyclic rows and flattens them, and names the first bad row's fault; the rows of a flat registry, in any order, give that registry back |
| IdentityRegistry.SupplierIdentityRegistry.Reread | spider_qwen/identity_registry.py:184-205 | afterwards the map in memory is the registry as stored at present |
| IdentityRegistry.WriteRows | spider_qwen/identity_registry.py:151-182 | the rows list every entry once |
| IdentityRegistry.ListedReadsBack | spider_qwen/identity_registry.py:112-182 | rows that list a map rebuild it, and pass the validation if it is flat with non-blank ids |
| IdentityRegistry.Mutate | spider_qwen/identity_registry.py:227-254 | mutation and flattening together are the specified approval |
| DisjointSets.HalvingKeepsRoot | spider_qwen/benchmarks/stage3.py:226-230 | pointing an element at its grandparent changes no root |
| DisjointSets.Find | spider_qwen/benchmarks/stage3.py:226-230 | terminates, returns the root and keeps every class while halving paths in place |
| DisjointSets.Union | spider_qwen/benchmarks/stage3.py:232-235 | merges exactly the two classes |
| GroupSplit.LabelsFollowWalks | spider_qwen/benchmarks/stage3.py:237-245 | labels that agree on sharing tasks agree on whole components |
| GroupSplit.ShareIsFamily | spider_qwen/benchmarks/stage3.py:238-241 | two tasks have a key in common exactly when they name one site or one supplier |
| GroupSplit.Connect | spider_qwen/benchmarks/stage3.py:237-245 | afterwards two tasks have one root exactly when a chain of shared families links them |
| GroupSplit.Components | spider_qwen/benchmarks/stage3.py:246-249 | the groups are exactly the connected components |
| GroupSplit.FewGroups | spider_qwen/benchmarks/stage3.py:250-251 | fewer than two groups means that all tasks are linked |
| GroupSplit.AssignGroups | spider_qwen/benchmarks/stage3.py:255-271 | calibration is the shortest run of groups that reaches the target, or all but the last; both sides are non-empty and share no family |
| GroupSplit.GroupDisjointSplit | spider_qwen/benchmarks/stage3.py:218-284 | fails exactly for a bad fraction or a single component; otherwise a leak-free partition, the fallback and the leakage assertion being unreachable |
| BeliefFusion.Bpa | spider_qwen/evidence/belief.py:63-68 | the clamped reliability as a proper mass with at least 0.01 unknown |
| BeliefFusion.FoldIsClosedForm | spider_qwen/evidence/belief.py:71-88 | the closed form equals combining the sources one after the other |
| BeliefFusion.Conjunctive | spider_qwen/evidence/belief.py:71-88 | the loop computes that fold and its conflict; the first two clamps never bite |
| BeliefFusion.Fuse | spider_qwen/evidence/belief.py:91-126 | rejects exactly batches with a negative mass or a total off by more than the tolerance; otherwise conflict, rule and masses are those of the closed form |
| BeliefFusion.FusedIsProperIff | spider_qwen/evidence/belief.py:91-126 | the result is a probability assignment exactly when the products do not overshoot one; a single mass exactly when its own total is one |
| BeliefFusion.ProperFusesProper | spider_qwen/evidence/belief.py:91-126 | proper masses fuse to a proper mass with 0 <= belief <= plausibility <= 1, under either rule |
| BeliefFusion.ToleranceOvershoots | spider_qwen/evidence/belief.py:91-99 | two accepted masses whose fusion exceeds one |
| BeliefFusion.FuseIsSymmetric | spider_qwen/evidence/belief.py:91-126 | the order of the sources does not matter |
| BeliefFusion.DempsterIsAssociative | spider_qwen/evidence/belief.py:71-126 | normalizing after every source or once at the end is the same |
| BeliefFusion.DempsterBranch | spider_qwen/evidence/belief.py:123-126 | the Dempster branch is the fold of pairwise normalized combination |
| BeliefFusion.YagerKeepsConflictUnknown | spider_qwen/evidence/belief.py:118-121 | the Yager branch keeps the unnormalized beliefs and parks the conflict as ignorance |
| BeliefFusion.YagerFoldBelievesMore | spider_qwen/evidence/belief.py:91-99 | parking the conflict after every source never lowers either belief below the batch rule |
| BeliefFusion.YagerIsNotPairwise | spider_qwen/evidence/belief.py:91-99 | three sources that leave a value almost unknown in one batch, and almost certain when folded pairwise |
| BeliefFusion.FuseMirrored | spider_qwen/evidence/belief.py:91-126 | swapping the frame swaps belief and disbelief and keeps conflict and rule |
| BeliefFusion.FuseDisputedFact | spider_qwen/evidence/belief.py:140-171 | one interval per side: with p and q how likely all its supporters and all its opponents are wrong, the conflict is (1-p)(1-q) and belief and plausibility are q-pq and q, divided by what is left, or parked above the threshold; values and source counts are the side's own |
| BeliefFusion.TwoSidesComplement | spider_qwen/evidence/belief.py:140-171 | between two values the plausibility of each is what the belief in the other leaves over |
| BeliefFusion.AgreementBelief | spider_qwen/evidence/belief.py:140-171 | without dissent there is no conflict, and doubt is the product of the sources' doubts |
| PageRank.PersonalizedPagerank | spider_qwen/graph/retrieve.py:25-67 | exactly the graph's nodes, with the score after the given iterations; nothing without seeds |
| PageRank.Iteration | spider_qwen/graph/retrieve.py:51-66 | one pass over the nodes in any order, dangling mass included, is one step of the walk |
| PageRank.ScoresAreDistributions | spider_qwen/graph/retrieve.py:46-66 | every iterate is non-negative and sums to exactly one, with dangling nodes, parallel edges and repeated seeds |
| PageRank.FirstIterationByWeight | spider_qwen/graph/retrieve.py:51-66 | from a single seed a neighbour gets what does not teleport in proportion to the weight of its edge |
| PageRank.RestartCounts | spider_qwen/graph/retrieve.py:46-48 | a seed restarts with its number of occurrences over the number of seeds |
| PageRank.ScoreSupport | spider_qwen/graph/retrieve.py:46-66 | a positive score after n iterations means at most n edges from a seed; for 0 < alpha < 1 also conversely |
| PageRank.StepContracts | spider_qwen/graph/retrieve.py:51-66 | one step shrinks the L1 distance of any two vectors by 1 - alpha |
| PageRank.StationaryIsDistribution | spider_qwen/graph/retrieve.py:51-66 | for alpha above zero every vector that a step leaves alone is a probability distribution |
| PageRank.StationaryIsUnique | spider_qwen/graph/retrieve.py:51-66 | and there is at most one |
| PageRank.ErrorBound | spider_qwen/graph/retrieve.py:46-66 | after n iterations the error against any fixed point is at most 2(1 - alpha)^n; only for alpha zero must the fixed point be a distribution |
| PageRank.LaterScoresAreNear | spider_qwen/graph/retrieve.py:46-66 | and so is the distance to every later iterate |
| ToolDag.Levels | spider_qwen/agent/compiler.py:128-148 | computes the specified levelling; errors exactly for an undeclared dependency and, with unique ids, for a cycle; otherwise every node once, on its lowest possible level |
| ToolDag.StuckMeansCycle | spider_qwen/agent/compiler.py:142-144 | nodes that all wait for each other contain a cycle |
| ToolDag.LevelIsLongestChain | spider_qwen/agent/compiler.py:138-148 | the level of a node is the length of its longest dependency chain |
| ToolDag.LevelledMeansAcyclic | spider_qwen/agent/compiler.py:138-148 | a graph that can be levelled has no cycle |
| ToolDag.EveryNodeKeptIff | spider_qwen/agent/compiler.py:140-147 | a levelling schedules every node exactly when any two nodes with one id become ready in the same round, the rounds being computed from the nodes alone |
| ToolDag.LevelsAreRounds | spider_qwen/agent/compiler.py:138-148 | the ids on the first l levels are those resolved after l rounds |
| ToolDag.RoundsStop | spider_qwen/agent/compiler.py:138-148 | no more rounds than there are nodes decide what is ever resolved |
| ToolDag.LevellingSucceedsIff | spider_qwen/agent/compiler.py:138-148 | repeated ids included, no cycle is reported exactly when the rounds resolve every id |
| ToolDag.DuplicateIsDropped | spider_qwen/agent/compiler.py:140-147 | a cyclic graph with a repeated id is levelled without error and without the repeated node |
| ToolDag.Execute | spider_qwen/agent/compiler.py:150-176 | every node is run on the results of exactly its dependencies, whatever the order inside a level, and the results solve the graph's equations |
| ToolDag.OneOutcome | spider_qwen/agent/compiler.py:150-176 | those equations have one solution, so no order inside a level can change the outcome |
| TokenBuckets.TokenBucket.Acquire | spider_qwen/agent/compiler.py:56-66 | grants n tokens once, without waiting if the bucket holds them, after one wait if it can hold them and refills, and otherwise never; the tokens left are what time has filled in minus the grant |
| TokenBuckets.RateLimit | spider_qwen/agent/compiler.py:56-66 | no window of time grants more than one full bucket plus the refill of that window |

## Left out

- Acquire: watched for a given number of rounds, since the source waits for ever when more than the capacity is requested or the rate is zero; a negative amount is not modelled.
- RunPending: handlers make finitely many acquire calls, and others make finitely many calls meanwhile; the status counts it returns are not modelled.
- Persist: failing writes, fsync and the temporary file are not modelled; the canonical file is replaced atomically.
- CrashRecovery: one crash, stated for the rebuilt ledger; repeated crashes are followed on the log alone (RecordedRowsSurviveIff).
- FuseDisputedFact: the final sort by belief, rounding to six digits and the lookup of reliabilities are not modelled.
- GroupDisjointSplit: the seeded digest order of the groups is an arbitrary permutation; label validation, manifests and the command line are not modelled.
- Execute: exceptions of a node, the rate limiter, the semaphore and the concurrency counters of the trace are not modelled.
- ErrorBound: takes the stationary distribution as given; that one exists needs a limit of reals and is not proved.
- Bpa: the source rounds the unknown mass to six digits, so its total can differ from one within the tolerance of fuse; the model keeps it exact.
- StatusIsFinalIff: a call in flight ends with its process; a row that an orphaned start() inserted shortly before only its own process died stays queued until the next opening, and is not modelled.
- CompleteRun: the result payload is one opaque string; event details, sanitized trace fields and message texts are not modelled.
- SubmitTasks: length limits of identifiers and values are not modelled; a work id is taken to be injective although the source shortens a digest.
- ReserveFor: the provider call that follows a reservation, its deadline and the provider identifier pattern are not modelled.
- ApproveAlias: stripping of white space, failing writes and the file lock are not modelled; evidence references are compared by ledger id only.
- SHA-256, hexadecimal normalization, JSON encoding and Ed25519 are symbolic; nothing is proved about cryptography.
- Redacted leaves and salts of the transparency log.
- Source reliability, run id patterns and evidence deduplication of the ledger.
- SQLite, file locks, threads and event loops below the level of a transaction or a stretch of code under a lock.
- Floating-point rounding everywhere: belief, PageRank and token rates are exact reals.
- Owners and access checks of status, result, events and wait in the run service.
- The controller, extraction, pricing, contact heuristics, classifiers, clients, web interface, command line and reporting.
