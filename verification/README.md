# Axon: a verified model of its transactional core

Axon is a store of versioned entities and links with an append-only audit log.
This project models its core in Dafny 4.11 and proves what that core promises
over every input and every run.

- **Transactions** (`Store`, `TxSpec`, `Transactions`, `TxEffects`, `Versions`,
  `Serializability`, `Anomalies`, `LinkKeys`, `LinkRuns`). Writes are staged, checked against the state
  before the commit (Phase 1 and 1b), then applied one after another (Phase 2)
  with their audit entries and a hook inside one storage transaction. `TxSpec`
  says what a commit means on values; the classes `Storage` and `Transaction`
  carry it out in place and are proved against it, with faults possible at every
  storage call.
- **Mutation intents** (`IntentSpec`, `IntentService`, `IntentTheorems`,
  `OperationBinding`, `SystemRuns`). Preview, review, lazy expiry, sweep and the
  commit that consumes an intent as the hook of a transaction. `SystemRuns` has
  one step function for all calls and proves the run invariants.
- **Canonical JSON** (`Json`, `CanonicalJson`, `CanonicalReader`,
  `CanonicalTheorems`). The hand-written printer, and a strict reader of
  RFC 8259 that serves as its independent partner.
- **Beads** (`Digraph`, `Search`, `BeadSpec`, `BeadInvariants`, `BeadStore`,
  `BeadTransfer`, `BeadSchedule`). Work items with a status lifecycle and an
  acyclic dependency graph: breadth-first searches, cycle-checked links, bulk
  import with its simulated graph, export, ready queue.
- **Audit log, change capture, provenance** (`Audit`, `AuditLog`, `Cdc`, `Prov`,
  `ProvGraph`, `ProvTheorems`). Cursor pagination, resumable replay, compacted
  messages, and the PROV-O export with its re-import.

`dafny verify dfyconfig.toml` checks the whole project. Every lemma that is
proved by hand-written induction says `{:induction false}`.

## How the program's surroundings enter

- Clocks are parameters: `clock(id)` is the reading taken when entry `id` is
  appended, `now` the reading a call makes.
- Storage calls may fail with a fault unless the store is `reliable`; contracts
  are exact for a reliable store and all-or-nothing for any store.
- Schema validation is a predicate (`accepts` for transactions; for beads the
  status and dependency fields are concrete and the rest a predicate). Scan
  signatures are an abstract function of the state. SHA-256 is a function that
  is injective where a theorem says so. Timestamps are printed by a parameter.
- Numbers are unbounded; the 64- and 32-bit bounds appear where text is read
  back (`Prov.InRange`).
- The order in which a store lists the links of one bead is a parameter: the
  bead results hold for every order.

## Where the code does less than one might expect

- Read validation compares versions. A row deleted and created again at a
  version it had passes for the old one (`ReusedVersionBreaksSerializability`);
  `FreshRunsSerializable` has the condition under which this cannot happen.
- A transaction can update one row twice when it puts the row back in between, by
  creating it at version 0 (`VersionZeroDoubleUpdates`) or, for a reverse-index row,
  by creating its link (`ReverseRowDoubleUpdates`); there is no other way
  (`DoubleUpdateNeedsReset`).
- Entity operations may address the rows that back links. A delete of such a row
  leaves the link in the link store (`EntityDeleteBreaksAgreement`); the link
  results are about runs without such operations.
- The audited intent calls return early when `commit_tx` fails and leave the
  storage transaction open; their contracts name that case and no other.
- A caller may supply the operation hash of a commit itself, and then commit other
  operations than the previewed ones (`SuppliedHashCommitsOther`);
  `CommitsPreviewedExactly` has the exact condition.
- Creating a bead does not look for an existing one: it replaces it, so a
  cancelled bead can be opened again (`CreateRevivesCancelled`).
- A bead update whose payload does not decode returns an error after writing
  (`UpdateWritesAndErrs`; `UpdateErrsAfterWriting` has the exact condition).
- A page limit of 0 ends a walk at once (`LimitZeroStops`).
- The documentation calls the PROV-O form lossless; it drops attribution and
  null values (`LosslessExactly` has the exact condition).

## Model

| member | source | states |
|---|---|---|
| `Serializability.Serializable` | crates/axon-api/src/transaction.rs:578-729 | for every interleaving of Serializable transactions whose writes are a function of their recorded reads: the committed ones replayed alone in commit order make the same reads and leave the same store, provided equal versions of a row always meant equal contents |
| `Serializability.ValidatedReadsAreCurrent` | crates/axon-api/src/transaction.rs:683-729 | reads that pass commit-time validation are exactly what the program would read now, running alone |
| `Serializability.FreshCreatesIdentify` | crates/axon-api/src/transaction.rs:579-613 | if no committed creation is at or below a version its row had before, equal versions mean equal contents along the whole run |
| `Serializability.FreshRunsSerializable` | crates/axon-api/src/transaction.rs:578-890 | serializability under that checkable condition alone |
| `Serializability.AloneDetermined` | crates/axon-api/src/transaction.rs:683-729 | a program running alone on a given store has one sequence of reads |
| `Anomalies.ReusedVersionBreaksSerializability` | crates/axon-api/src/transaction.rs:683-729 | witness that the condition is needed: after a delete and a re-creation at the old version all three programs commit, and none of the six serial orders explains what the reader saw |
| `Anomalies.SnapshotAllowsWriteSkew` | crates/axon-api/src/transaction.rs:683-729 | witness: under Snapshot both halves of a write skew commit and neither serial order explains what they read |
| `Transactions.Transaction.RecordRead` | crates/axon-api/src/transaction.rs:241-284 | under Serializable appends the read, and fails exactly when MAX_READS are recorded already; under Snapshot nothing is recorded |
| `Transactions.Transaction.RecordScanRead` | crates/axon-api/src/transaction.rs:286-308 | the same for the signature of a scanned collection |
| `Transactions.Transaction.Stage` | crates/axon-api/src/transaction.rs:310-318 | appends one staged operation, or fails with the limit error and changes nothing |
| `Transactions.Transaction.Create` | crates/axon-api/src/transaction.rs:332-348 | stages a create carrying the entity as given |
| `Transactions.Transaction.Update` | crates/axon-api/src/transaction.rs:350-372 | stages an update with its expected version and snapshot before |
| `Transactions.Transaction.PatchUpdate` | crates/axon-api/src/transaction.rs:374-396 | stages an update that remembers the patch it came from |
| `Transactions.Transaction.Delete` | crates/axon-api/src/transaction.rs:398-428 | stages a delete with its expected version |
| `Transactions.Transaction.CreateLink` | crates/axon-api/src/transaction.rs:430-436 | stages a link create |
| `Transactions.Transaction.DeleteLink` | crates/axon-api/src/transaction.rs:437-445 | stages a link delete |
| `Transactions.Transaction.CheckAll` | crates/axon-api/src/transaction.rs:578-729 | Phase 1 and 1b refine `Validate`: every staged version, link endpoint, recorded read and scan is checked against the state before any write |
| `Transactions.Transaction.ApplyStaged` | crates/axon-api/src/transaction.rs:731-890 | Phase 2 for one operation refines `ApplyOp`: row or link written, one audit entry buffered |
| `Transactions.Transaction.ApplyAll` | crates/axon-api/src/transaction.rs:731-890 | the loop over the staged operations passes through a trace of states, each following from the one before by the next operation, and stops at the first that fails |
| `Transactions.Transaction.ExecuteOn` | crates/axon-api/src/transaction.rs:568-893 | checking, then applying the operations one after another, refines `Execute`, errors included |
| `Transactions.Transaction.CommitWithStorageHook` | crates/axon-api/src/transaction.rs:486-560 | all or nothing: on any failure (check, read validation, mid-apply swap, audit append, hook, `commit_tx`) rows, links, intents and log are those before the call; on success they are what `Commit` describes |
| `TxEffects.CommitLogsEveryOp` | crates/axon-api/src/transaction.rs:516-559 | a commit adds exactly one audit entry per staged operation, in staged order, all with the transaction's id; a failed one changes nothing |
| `TxEffects.CommitReconstructs` | crates/axon-api/src/transaction.rs:739-890 | a commit keeps the log a complete account of the rows, forward link rows included |
| `SystemRuns.AuditReconstruction` | crates/axon-api/src/transaction.rs:516-559 | after every run from an empty store, folding `data_after` over the log gives exactly the stored rows, forward link rows included |
| `LinkKeys.ForwardKeyInjective` | crates/axon-core/src/types.rs:36-93 | the length-prefixed hexadecimal encoding is injective: two links share a forward id if and only if they are the same link |
| `LinkKeys.ReverseKeyInjective` | crates/axon-core/src/types.rs:95-125 | the same for reverse ids |
| `LinkRuns.LinkIffRow` | crates/axon-storage/src/memory.rs:1468-1480 | where link store and rows agree, a link is stored if and only if its forward row is, with the link in it |
| `LinkRuns.RunLinksAgree` | crates/axon-storage/src/memory.rs:1468-1514 | over every run whose entity operations stay out of the two link collections, the link store, the forward rows and the reverse rows hold the same links |
| `LinkRuns.EntityDeleteBreaksAgreement` | crates/axon-api/src/transaction.rs:795-820 | witness that the condition is needed: from any agreeing store, deleting a forward row as an entity commits and leaves the link behind |
| `LinkRuns.LogRebuildsLinks` | crates/axon-storage/src/memory.rs:1516-1532 | after every such run the forward rows folded from the log hold exactly the links of the link store |
| `Versions.CommitChains` | crates/axon-api/src/transaction.rs:767-792 | every update entry of the log is one version above the row it replaced |
| `Versions.VersionCountsUpdates` | crates/axon-api/src/transaction.rs:767-792 | along such a log a row's version is its created version plus the updates since |
| `Versions.UpdatesNeverCollide` | crates/axon-api/src/transaction.rs:767-792 | between two creations of a row, later updates start from strictly higher versions |
| `SystemRuns.NoLostUpdates` | crates/axon-api/src/transaction.rs:579-613 | after every run each row is at its created version plus its committed updates since |
| `SystemRuns.RunUpdatesNeverCollide` | crates/axon-api/src/transaction.rs:579-613 | along every run no two committed updates of a row's life used the same expected version |
| `Versions.DoubleUpdateNeedsReset` | crates/axon-api/src/transaction.rs:731-792 | a transaction that executes two updates of one row has an operation between them that put the row back to the version both expected: a creation at version 0, or a link creation rewriting its reverse row |
| `Versions.NoDoubleUpdate` | crates/axon-api/src/transaction.rs:731-792 | from any store, a transaction whose creations have versions of at least 1 never commits two updates of one row |
| `SystemRuns.RunDoubleUpdateNeedsReset` | crates/axon-api/src/transaction.rs:731-792 | the same condition for every committed call along every run, intent commits included |
| `SystemRuns.RunNoDoubleUpdate` | crates/axon-api/src/transaction.rs:731-792 | along every run no committed call whose creations have versions of at least 1 updates one row twice |
| `Versions.PhaseOneAllowsDoubleUpdate` | crates/axon-api/src/transaction.rs:579-613 | Phase 1 alone lets such a transaction through |
| `Versions.VersionZeroDoubleUpdates` | crates/axon-api/src/transaction.rs:731-792 | witness of the first reset: with creates at version 0 one row is updated twice in one transaction |
| `Versions.ReverseRowDoubleUpdates` | crates/axon-api/src/transaction.rs:731-792 | witness of the second: a link creation between two updates of its reverse-index row lets both through |
| `Store.Storage.BeginTx` | crates/axon-storage/src/memory.rs:847-867 | takes the snapshot; a nested begin fails |
| `Store.Storage.CommitTx` | crates/axon-storage/src/memory.rs:868-875 | drops the snapshot; without one it fails |
| `Store.Storage.AbortTx` | crates/axon-storage/src/memory.rs:876-893 | restores rows, links, intents and log from the snapshot; a no-op without one |
| `Store.Storage.CompareAndSwap` | crates/axon-storage/src/memory.rs:749-800 | fails unless the stored version is the expected one, also when the row is absent; stores version + 1 |
| `Store.Storage.UpdateIntentState` | crates/axon-storage/src/memory.rs:1070-1100 | compare-and-set of an intent's state |
| `CanonicalTheorems.PushJsonString` | crates/axon-api/src/intent.rs:464-488 | the buffer grows by the quoted, escaped string |
| `CanonicalTheorems.PushCanonicalJson` | crates/axon-api/src/intent.rs:428-462 | the buffer grows by the canonical text of the value |
| `CanonicalReader.ReadQuoted` | crates/axon-api/src/intent.rs:464-488 | every printed string carries the escapes section 7 of RFC 8259 requires: a strict reader of that grammar gets the string back |
| `CanonicalReader.ReadPrinted` | crates/axon-api/src/intent.rs:404-462 | a strict RFC 8259 reader accepts every canonical text and returns the canonical form |
| `CanonicalReader.ReadsExactlyNumbers` | crates/axon-api/src/intent.rs:428-436 | the reader accepts exactly the number texts of section 6 of RFC 8259 |
| `CanonicalTheorems.CanonicalizeKeepsValue` | crates/axon-api/src/intent.rs:404-420 | canonicalization changes key order only |
| `CanonicalTheorems.CanonicalFormIdentifies` | crates/axon-api/src/intent.rs:404-420 | two values have one canonical form if and only if they are equal up to key order |
| `CanonicalTheorems.CanonicalizeIdempotent` | crates/axon-api/src/intent.rs:404-420 | canonicalizing twice is canonicalizing once |
| `CanonicalTheorems.CanonicalizeKeepsText` | crates/axon-api/src/intent.rs:404-462 | canonicalizing first does not change the printed text |
| `CanonicalTheorems.PrintUnambiguous` | crates/axon-api/src/intent.rs:422-488 | two values print alike if and only if they are equal up to object key order |
| `CanonicalTheorems.TextOfAnyLayout` | crates/axon-api/src/intent.rs:422-462 | every in-memory order of a value's members prints the same text |
| `OperationBinding.OpValueDetermines` | crates/axon-api/src/intent.rs:317-389 | the canonical value of a staged operation is equal if and only if kind, target, data, expected version and created-link metadata are |
| `OperationBinding.OperationTextBinds` | crates/axon-api/src/intent.rs:301-315 | two staged lists have the same operation text if and only if they agree operation by operation, in order |
| `IntentService.CreatePreviewRecord` | crates/axon-api/src/intent.rs:884-930 | records a preview in its decision's state with one audit entry, or changes nothing |
| `IntentService.RejectIfExpiredOrExpire` | crates/axon-api/src/intent.rs:1667-1695 | a due intent is expired first and the call refused |
| `IntentService.ReviewIntent` | crates/axon-api/src/intent.rs:932-972 | approve and reject refine `ReviewTo`: deadline, decision, pending state and reason checked in that order |
| `IntentService.ExpireIntent` | crates/axon-api/src/intent.rs:1082-1115 | expires only due, expirable intents |
| `IntentService.MarkIntentCommitted` | crates/axon-api/src/intent.rs:1408-1440 | the state becomes Committed only from the state the decision allows, before the deadline and with the bound hash |
| `IntentService.ApproveWithAudit` | crates/axon-api/src/intent.rs:974-1006 | state and audit entry together or not at all; only a failing `commit_tx` leaves the transaction open |
| `IntentService.RejectWithAudit` | crates/axon-api/src/intent.rs:1047-1080 | the same for reject |
| `IntentService.ExpireWithAudit` | crates/axon-api/src/intent.rs:1139-1172 | the same for expire |
| `IntentService.ExpireDueWithAudit` | crates/axon-api/src/intent.rs:1174-1215 | the sweep refines `Sweep`, one transaction for the whole list |
| `IntentService.ListExpired` | crates/axon-storage/src/memory.rs:1013-1040 | the due, expirable intents of a scope, each once, by expiry and id, cut at the limit |
| `IntentService.CollectStale` | crates/axon-api/src/intent.rs:1489-1554 | collects the stale dimensions in the order of the checks |
| `IntentService.ValidateCommitBindings` | crates/axon-api/src/intent.rs:1252-1298 | commit-time revalidation of state, deadline, hash, authorization and bindings |
| `IntentService.AppendValidationFailure` | crates/axon-api/src/intent.rs:1967-2014 | records the given refusal of a known intent as one audit entry and changes nothing else |
| `IntentService.CommitTransactionIntent` | crates/axon-api/src/intent.rs:1326-1384 | validation, transaction and state change refine `CommitIntent`; on error only a failure entry may have been added |
| `IntentTheorems.ReviewMoves` | crates/axon-api/src/intent.rs:932-1045 | a review moves intents along legal edges only and touches neither rows, links nor log |
| `IntentTheorems.ReviewMovesOnly` | crates/axon-api/src/intent.rs:932-1045 | a review changes at most the reviewed intent, and that only in its state: to the asked state, taking a pending NeedsApproval intent before its deadline, or to Expired |
| `IntentTheorems.ExpireMovesOnly` | crates/axon-api/src/intent.rs:1082-1115 | an expiry changes at most that intent, to Expired, and succeeds if and only if it is due and expirable |
| `IntentTheorems.MarkCommittedMoves` | crates/axon-api/src/intent.rs:1408-1440 | marking committed moves legally and never succeeds at or after the deadline or with another hash |
| `IntentTheorems.NothingStale` | crates/axon-api/src/intent.rs:1489-1554 | nothing is stale if and only if subject, schema version, policy version and every bound row version still hold |
| `IntentTheorems.CommitIntentAtomic` | crates/axon-api/src/intent.rs:1341-1383 | a successful intent commit found Allow/None or NeedsApproval/Approved, unexpired and unstale, and made all writes, their entries and the Committed state in one step; a failed one changed at most the log |
| `IntentTheorems.CommitsPreviewedExactly` | crates/axon-api/src/intent.rs:1341-1383 | a successful commit runs the previewed operations if and only if the hash it was checked against is the hash of the staged list |
| `IntentTheorems.CommitsOnlyWhatWasPreviewed` | crates/axon-api/src/intent.rs:1341-1383 | so it commits only the previewed operations, in order, when the hash is computed from the staged list, by the service or by the caller |
| `IntentTheorems.SuppliedHashCommits` | crates/axon-api/src/intent.rs:1341-1383 | with the intent's own hash supplied by the caller, any transaction that executes is committed under the intent |
| `IntentTheorems.SuppliedHashCommitsOther` | crates/axon-api/src/intent.rs:1341-1383 | witness: the preview was to create one row, the commit creates another and succeeds |
| `IntentTheorems.AuditedTransitions` | crates/axon-api/src/intent.rs:974-1172 | audited approve, reject and expire: on error, lazy expiry included, nothing changed; on success one entry holds the true states before and after |
| `IntentTheorems.SweepExpiresExactly` | crates/axon-api/src/intent.rs:1174-1215 | a sweep expires exactly the listed intents, with one true entry each |
| `IntentTheorems.SweepLeavesNothingDue` | crates/axon-api/src/intent.rs:1174-1215 | an unlimited sweep leaves no due expirable intent in its scope |
| `SystemRuns.RunSound` | crates/axon-api/src/intent.rs:1442-1463 | over every run of transactions and intent calls, with any clock: Allow is only None, Expired or Committed; Deny only None or Expired; NeedsApproval never None; and the log accounts for the rows |
| `SystemRuns.TerminalForever` | crates/axon-api/src/intent.rs:1697-1702 | a rejected, expired or committed intent never changes again in the run |
| `SystemRuns.NewIntentsArePreviews` | crates/axon-api/src/intent.rs:1458-1463 | an intent first appears in the preview state of its decision |
| `SystemRuns.CommittedWasApproved` | crates/axon-api/src/intent.rs:1442-1456 | a committed NeedsApproval intent was approved earlier in the run |
| `SystemRuns.AtMostOneCommit` | crates/axon-api/src/intent.rs:1341-1383 | at most one call of a run commits a given intent of a scope |
| `SystemRuns.WritesAccountedFor` | crates/axon-api/src/transaction.rs:532-552 | in the log of every run, each committed intent of a scope has at most one transaction, and every write carrying an intent's lineage belongs to the transaction of a committed intent with that id |
| `SystemRuns.OneTransactionPerIntent` | crates/axon-api/src/transaction.rs:532-552 | for an id that one scope uses: all writes carrying it are of one transaction, and the intent is Committed |
| `Digraph.AddableExactly` | crates/axon-api/src/bead.rs:605-623 | an edge leaves a graph acyclic if and only if the graph is acyclic and the target does not reach the source |
| `Digraph.AcyclicMeansNoCycle` | crates/axon-api/src/bead.rs:605-623 | acyclic means that no path with an edge returns to its start |
| `Search.GraphPathExists` | crates/axon-api/src/bead.rs:1063-1090 | terminates on every finite graph, cyclic or not, and answers true if and only if a directed path exists |
| `Search.VisitNeighbours` | crates/axon-api/src/bead.rs:981-998 | one node's neighbours: stops exactly when the target is among them, otherwise queues each unvisited one once |
| `BeadStore.BeadStore.DependencyPathExists` | crates/axon-api/src/bead.rs:964-1003 | the store search with its bounded shortcut answers true if and only if a path of followed links exists |
| `BeadStore.WithinReaches` | crates/axon-api/src/handler.rs:9084-9220 | what the bounded query finds is a path |
| `BeadStore.BeadStore.DependencyTree` | crates/axon-api/src/bead.rs:941-962 | lists the transitive dependencies once each, without the root; NotFound exactly for a missing root |
| `BeadStore.QueryAll` | crates/axon-api/src/bead.rs:1092-1117 | following the page cursors returns every id once, in order |
| `BeadStore.BeadStore.CreateBead` | crates/axon-api/src/bead.rs:466-501 | stores an open bead at version 1, over whatever the id held, or refuses invalid data |
| `BeadStore.BeadStore.UpdateBead` | crates/axon-api/src/bead.rs:532-554 | lifecycle check, schema check and compare-and-swap; a payload that does not decode is reported after the write |
| `BeadStore.BeadStore.TransitionBead` | crates/axon-api/src/bead.rs:514-525 | an update of the status field only |
| `BeadStore.BeadStore.ReopenBead` | crates/axon-api/src/bead.rs:577-600 | only closed beads go back to open |
| `BeadStore.BeadStore.AddDependency` | crates/axon-api/src/bead.rs:605-638 | missing beads, self-dependencies, cycles and duplicates are refused without a write; otherwise exactly that link is added |
| `BeadStore.BeadStore.ReadyQueue` | crates/axon-api/src/bead.rs:661-689 | exactly the open beads whose dependencies are all closed, in id order; an error exactly when an open bead does not decode |
| `BeadStore.BeadStore.ExportBeads` | crates/axon-api/src/bead.rs:703-718 | the array of all beads in id order with their links merged in |
| `BeadStore.MergeTypedDependencies` | crates/axon-api/src/bead.rs:896-939 | appends one object per link that no dependency object names yet |
| `BeadStore.BeadStore.BuildImportPlan` | crates/axon-api/src/bead.rs:796-833 | plans the new beads, skipping existing ids, refusing missing or repeated ids and invalid data |
| `BeadStore.BeadStore.ExistingGraph` | crates/axon-api/src/bead.rs:1048-1061 | the in-memory graph has exactly the stored links |
| `BeadStore.BeadStore.ValidateImportLinks` | crates/axon-api/src/bead.rs:835-874 | simulates the planned links between known beads on that graph |
| `BeadStore.BeadStore.AddImportLinks` | crates/axon-api/src/bead.rs:779-784 | once validation accepted, the link phase cannot fail and adds exactly the accepted links |
| `BeadStore.BeadStore.ImportBeads` | crates/axon-api/src/bead.rs:754-788 | refines `Import`; when planning or validation rejects, nothing has been written |
| `BeadInvariants.CircularExactly` | crates/axon-api/src/bead.rs:605-623 | a dependency between present beads is refused as circular if and only if it would close a cycle |
| `BeadInvariants.SimulateExact` | crates/axon-api/src/bead.rs:835-874 | validation accepts if and only if the old graph with all planned links has no cycle, and returns exactly those links |
| `BeadInvariants.LinkPhaseStep` | crates/axon-api/src/bead.rs:605-638 | after any accepted prefix the next accepted link meets neither a missing bead nor a cycle |
| `BeadInvariants.ImportExact` | crates/axon-api/src/bead.rs:764-787 | a well-formed import succeeds if and only if old and planned links have no cycle; then the links are exactly those, the planned beads are stored at version 1 and no existing bead changed |
| `BeadInvariants.RunsStaySound` | crates/axon-api/src/bead.rs:605-788 | over every run of create, transition, update, reopen, add-dependency and import the graph is acyclic, both ends of every link exist and all data fits the schema |
| `BeadInvariants.TerminalStays` | crates/axon-api/src/bead.rs:191-233 | closed and cancelled beads keep their status under every operation, except reopening a closed one and creating over the id |
| `BeadInvariants.CreateRevivesCancelled` | crates/axon-api/src/bead.rs:466-501 | witness that creating over a cancelled bead opens it again, at version 1 |
| `BeadInvariants.UpdateErrsAfterWriting` | crates/axon-api/src/bead.rs:532-554 | an update reports an error and still changed the board if and only if the change was allowed, schema and version fit and the payload does not decode |
| `BeadInvariants.TransitionErrsAfterWriting` | crates/axon-api/src/bead.rs:514-525 | the same for a transition |
| `BeadInvariants.ReopenErrsAfterWriting` | crates/axon-api/src/bead.rs:577-600 | the same for a reopening of a closed bead |
| `BeadInvariants.UpdateWritesAndErrs` | crates/axon-api/src/bead.rs:532-554 | witness: a payload with a `tags` field that is no array is stored, and the caller gets an error |
| `BeadTransfer.MergeRecords` | crates/axon-api/src/bead.rs:896-939 | merging keeps the dependency objects, stays within the schema and names every link of the bead |
| `BeadTransfer.ImportOfExport` | crates/axon-api/src/bead.rs:703-788 | the export always exists; importing it into an empty store succeeds if and only if links and recorded dependencies together have no cycle, and restores every bead and exactly those edges |
| `BeadTransfer.RoundTrip` | crates/axon-api/src/bead.rs:703-833 | the import succeeds with the same set of edges if and only if every recorded dependency between present beads is a link; then every bead is back, at version 1 with its exported fields, the links are equal, and exporting again gives the same value |
| `BeadTransfer.DataRestoredExactly` | crates/axon-api/src/bead.rs:703-718 | a bead's data comes back unchanged if and only if it has no `id` field and names all the bead's links |
| `BeadSchedule.SomeBeadIsReady` | crates/axon-api/src/bead.rs:661-689 | if every bead is open or closed and one is open, some bead is ready |
| `BeadSchedule.CloseWorks` | crates/axon-api/src/bead.rs:504-525 | closing an open bead always takes effect and changes only that bead |
| `BeadSchedule.EveryScheduleFinishes` | crates/axon-api/src/bead.rs:191-233 | closing ready beads in any order gets stuck if and only if as many steps were made as there were open beads, and then every bead is closed |
| `Audit.ComputeDiff` | crates/axon-audit/src/entry.rs:99-123 | collects exactly the fields that differ, with both sides |
| `Audit.DiffPatches` | crates/axon-audit/src/entry.rs:99-123 | a diff turns each of its objects into the other, and is empty if and only if they are equal |
| `Audit.AppendAllEntries` | crates/axon-audit/src/log.rs:219-228 | appending adds the entries in order with consecutive ids and touches nothing before them |
| `AuditLog.MemoryAuditLog.AppendEntry` | crates/axon-audit/src/log.rs:219-228 | the stored entry differs from the given one in id and time only; ids count up from 1 |
| `AuditLog.MemoryAuditLog.QueryPaginated` | crates/axon-audit/src/log.rs:295-395 | the page of a query: filtered, sorted by id, cut at the limit, with a cursor when more remains |
| `AuditLog.SortPermutes` | crates/axon-audit/src/log.rs:377-379 | sorting by id loses and adds nothing |
| `AuditLog.SortOrders` | crates/axon-audit/src/log.rs:377-379 | sorting by id orders by id |
| `AuditLog.PaginationExact` | crates/axon-audit/src/log.rs:295-395 | following the cursor to the end, with appends between pages, returns exactly what matches in the last log past the starting cursor |
| `AuditLog.NextQuery` | crates/axon-audit/src/log.rs:295-297 | a later page of a walk is the same query asked again with the returned cursor |
| `AuditLog.PaginationMeans` | crates/axon-audit/src/log.rs:295-395 | that is every matching entry once and no other, in strictly ascending id order |
| `AuditLog.CursorAdvances` | crates/axon-audit/src/log.rs:381-395 | on a fixed log each page leaves exactly `limit` fewer matching entries, so the walk ends |
| `AuditLog.LimitZeroStops` | crates/axon-audit/src/log.rs:381-395 | a limit of 0 gives an empty page and no cursor; that is exact if and only if nothing matches |
| `Cdc.Replay` | crates/axon-audit/src/log.rs:153-173 | delivers the envelopes of exactly the entries between the given cursor and the returned one, in id order, at most `limit`; a cursor is returned only when more entries remain; a limit of 0 delivers nothing |
| `Cdc.ReplayFromCursor` | crates/axon-audit/src/log.rs:186-197 | the same from the cursor stored for the sink and collection, or from the start when there is none |
| `Cdc.ReplayExact` | crates/axon-audit/src/log.rs:153-173 | resuming from page cursors, also past pages without envelopes, delivers every envelope once and in order |
| `Cdc.ResumeFromEnvelope` | crates/axon-audit/src/cdc.rs:132-170 | resuming from the audit id of any delivered envelope gives exactly the envelopes after it |
| `Cdc.AuditIdsAscend` | crates/axon-audit/src/cdc.rs:132-170 | audit ids strictly ascend along a stream |
| `Cdc.EventKeyIdentifies` | crates/axon-audit/src/cdc.rs:330-343 | event keys are equal if and only if tenant, database, schema, collection and id are |
| `Cdc.KafkaCdcSink.Emit` | crates/axon-audit/src/cdc.rs:454-472 | an enabled sink sends the change and, for a delete, a tombstone with the same key; a disabled one sends nothing |
| `Cdc.KafkaCdcSink.EmitTombstone` | crates/axon-audit/src/cdc.rs:473-481 | the tombstone message |
| `Cdc.EmitsPublish` | crates/axon-audit/src/cdc.rs:454-481 | emitting a stream envelope by envelope on an enabled sink sends exactly its messages |
| `Cdc.CompactionFollowsFold` | crates/axon-audit/src/cdc.rs:454-481 | the last message per key of a published log, tombstones as removal, is the fold of the log |
| `Cdc.CompactionRebuilds` | crates/axon-audit/src/cdc.rs:454-481 | after every run the compacted stream holds exactly the stored rows, forward link rows included |
| `Cdc.CompactionRebuildsLinks` | crates/axon-audit/src/cdc.rs:454-481 | after every run whose entity operations stay out of the link collections it holds exactly the links of the link store |
| `Prov.MutationNamesRoundTrip` | crates/axon-audit/src/entry.rs:55-80 | every displayed mutation name is parsed back |
| `Prov.NativeRoundTrip` | crates/axon-audit/src/prov.rs:143-160 | reading the native form gives the entry with null snapshots and diff sides as absent, no attribution, and a missing diff computed again |
| `Prov.LosslessExactly` | crates/axon-audit/src/prov.rs:237-270 | an entry survives unchanged if and only if it has no attribution, no null snapshot, no null diff side and no uncarried diff |
| `Prov.BuiltEntriesLossless` | crates/axon-audit/src/entry.rs:311-348 | for entries with the diff the constructor records, the last condition always holds |
| `ProvGraph.ExportProv` | crates/axon-audit/src/prov.rs:30-140 | the document whose graph holds each entry's nodes in order, with the previous activity of the same transaction |
| `ProvGraph.ImportProv` | crates/axon-audit/src/prov.rs:186-208 | validates, reads the activities in graph order, stops at the first bad one, sorts by id |
| `ProvTheorems.ExportValidates` | crates/axon-audit/src/prov.rs:164-235 | every export passes the validator |
| `ProvTheorems.ImportOfExport` | crates/axon-audit/src/prov.rs:186-270 | re-importing an export gives the normalised entries sorted by id |
| `ProvTheorems.RoundTripExactly` | crates/axon-audit/src/prov.rs:30-270 | export and re-import return the same list if and only if it is in id order and every entry is lossless |
| `ProvTheorems.ActivityIriIdentifies` | crates/axon-audit/src/prov.rs:345-347 | activity names are equal if and only if the audit ids are |
| `ProvTheorems.TransactionIsOneChain` | crates/axon-audit/src/prov.rs:79-87 | section 3.1 of W3C PROV-O, read from the document: the `wasInformedBy` edges of a transaction are exactly the steps from each of its entries to the one before it in the log |
| `ProvTheorems.ChainIsSimple` | crates/axon-audit/src/prov.rs:79-87 | for entries in id order the chain passes through pairwise distinct activities |

## Left out

- Storage backends other than the in-memory one, secondary indexes, schema catalogue, numeric ids: not modelled; `Storage` states the adapter's behaviour.
- `AxonHandler` (policies, gates, redaction, generic queries): only the calls the bead module makes, by their effect.
- No claim is made that links never dangle after a transaction: Phase 1 checks endpoints against the state before the commit only, so a delete and a link create staged together can both pass.
- Transaction timeouts, transaction id generation and wall-clock arithmetic.
- Intent tokens and their signer; listing intents by state; `expire_due` without audit, which is the sweep without entries.
- Intent lineage: approver, origin, subject snapshot and lineage links of an entry's lineage record are not modelled; id, decision, approval id, versions and reason are.
- IntentService.AppendValidationFailure: the hashes and stale dimensions in the entry's payload are not modelled; the entry names the intent and the error code.
- The canonical operations of single requests and rollbacks: the same printer on other fixed field lists.
- The JSON text of message payloads, topic templates, and the file and broker sinks; event keys are texts, payloads are values.
- `CdcEnvelope::snapshot`, cursor tokens and cursor stores beyond a map.
- Bead schema initialisation and migration of legacy statuses; parsing of newline-delimited import files; storage faults during bead operations, which run outside a storage transaction.
- The paging inside the lookup of a single bead: it is a lookup by id; listing all beads is paged.
- The conversion of entities to bead records: a predicate says which data decodes.
- Prov: records given as JSON arrays instead of objects are refused here.
- RFC 3339 formatting of timestamps.
- Control plane, HTTP routers, command line, configuration, service installation, development tools and user interface.
