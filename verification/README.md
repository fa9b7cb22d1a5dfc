# Durable protocols of media-sync, modelled and proved

media-sync downloads the works of followed authors into a content archive, publishes them
as an Emby library and asks a media server to pick the library up.  Almost every operation
is a protocol of short database transactions around work that can crash, be raced or be
taken over.  This project models those protocols in Dafny and proves what they keep over
every run.

`dafny verify dfyconfig.toml` checks the whole project.

## What is modelled

Each protocol comes in two forms.  A class holds the rows, directories or counters that the
service updates, and its methods perform one transaction or one file operation each, with
the service's own branches and loops.  A step function on values says what such a method
does to the whole state; the method is proved to do exactly that.  The theorems are about
runs of these steps: any workers, in any interleaving, with clocks that move on, leases
that expire and processes that die between any two steps.

* **Job rows** (`Jobs`, `JobHistory`): the conditional updates of one row of the job table,
  and what the row keeps over every sequence of them.
* **Publication chain** (`PublicationHead`, `PublicationChain`, `EmbyExport`, `PublicationProgress`,
  `PublicationSteps`): workers
  snapshot an author, claim a job keyed by source and predecessor, render, write a durable
  intent, replace the tree on disk, and finalize; others recover a tree whose worker died.
* **Downloads** (`Downloads`, `AssetDownload`, `DownloadProgress`): an asset and its job move together through
  claim, takeover, publication, failure and reset.
* **Author observation** (`Operations`, `Observation`, `ObservationLoop`,
  `TransportFencing`, `ObservationDocument`): one media-server scan, its transport fence, its two lookups, and its
  end by the live worker or by a restart.
* **Fenced effects** (`Effects`): a domain effect committed under an operation's lease.
* **Profile exchange** (`ProfileExchange`, `ProfileTree`): directory renames that may fail,
  around a database commit.
* **Algorithms**: byte ranges and verified streaming (`ByteRange`, `ArchivePreview`),
  escaped search (`LikeSearch`), signed cursors (`Base64Url`, `Cursors`), output roots
  (`OutputDirectories`), complete inspection (`Inspection`), per-content delivery
  (`Delivery`, `PipelineRuntime`) and the rotating sweep (`Sweeping`).

## What the proofs found

* **The publication history is linear if and only if the exporter is separating**
  (`PublicationSplit.LinearIffSeparating`).  An exporter is separating when no publication
  shares its identity with the end of another edit history through its own predecessor.
  Compare-and-swap on disk and unique natural keys are not enough: a stalled worker or a
  stale recovery scan can act on a tree that another history brought back.
* **This exporter is not separating.**  It copies files of the predecessor only for
  snapshots that preserve content; a complete snapshot is rendered from itself alone.  So
  editing a complete snapshot in any way and reverting the edit repeats an identity, and
  some run then splits the history, whatever other snapshots preserve
  (`PublicationRecovery.EditAndRevertSplits`).  All runs could be linear only if every
  snapshot preserved content (`PublicationRecovery.LinearOnlyIfAllPreserve`).  Identities
  that are fresh along every single history do not suffice either
  (`PublicationRecovery.FreshHistoriesAreNotEnough`); identities that embed their whole
  history do (`PublicationRecovery.InjectiveIsLinear`), and such exporters exist
  (`PublicationRecovery.EmbeddingIsSeparating`).  A split is for good: no later run
  makes the head resolve again (`PublicationSplit.SplitIsForGood`).
* **Recovery knows what is on disk after every run under exactly the same condition**
  (`PublicationRecovery.AccountedIffSeparating`).
* **An operation's expired lease is not final**: a heartbeat does not look at the expiry, so
  it alone, on a row still running and not cancelled, makes a failed fence hold again
  (`Effects.OnlyHeartbeatHeals`, `Effects.HeartbeatHeals`).
* **A cancelled job that still declares a tree stops its target for good**: over every later
  run nothing is prepared and no recovery begins (`PublicationRecovery.CancelledIntentStopsForGood`).
  Only a cancellation leads there (`PublicationRecovery.OnlyCancellationStops`), and no
  module cancels an export job: the scheduler's own cancellation is restricted to
  synchronization jobs.
* **Retries happen, and exactly as often as there are attempts** (`JobHistory.EveryAttemptIsGranted`).
  What every preparing transaction hands out is proved exactly (`PublicationProgress.PreparesExactly`,
  `DownloadProgress.BeginsExactly`), and so is that pending publications and downloads are finished
  from every reachable state in which they can start (`PublicationProgress.PendingIsPublished`,
  `DownloadProgress.StartedIsVerified`).
* **A downloading asset whose job was requeued or cancelled by somebody else stays so** until a
  rediscovery starts a new generation (`DownloadProgress.StrandedForGood`,
  `DownloadProgress.StrandedIsReachable`): only a job that runs or failed is taken up while
  its asset is downloading.  The service itself requeues a download job only as part of
  claiming it, for an asset that is queued by then.
* **A failed rollback can lose the copied profile, never the previous one**: when neither
  profile could be put back, the copy is cleared with the staging directory and the previous
  profile stays set aside (`ProfileExchange.ProfileReplacement.Adopt`).
* **A cancellation recorded before the observation is stored is never overtaken by success**
  (`Observation.CancellationPrecludesSuccess`).
* **Live finish and restart reconciliation of a scan agree exactly from acceptance on**;
  while dispatching they differ on a cancellation, and before that on more.
* **An issued cursor can have more than one text.**  The decoder ignores the unused bits of
  a base64url tail, so a cursor whose text does not fill its last group of four has a
  second text that decodes to it (`Cursors.SecondCursorText`).  If no other payload shares
  the signature issued for the cursor, a second text under that signature exists if and only
  if the length of its own text is not a multiple of four (`Cursors.SecondCursorTextIff`),
  every text bearing that signature decodes to that cursor, and no payload with the schema
  version spelled `1.0` or `true`, which the decoder also accepts, bears it.  A text that
  bears an issued signature and decodes to anything else is itself a collision of signatures
  (`Cursors.AnotherCursorIsACollision`).
* **The cursor encoder does not check the size limit of the decoder**: cursors survive the
  round trip exactly up to that limit, which file counts of up to a thousand digits never
  reach.
* **Every receipt of the wired pipeline is valid.**  The validator refuses more than sixteen
  distinct failure codes, and the service itself, which takes any preflight, bounds them only
  by its table of twenty-four; under the preflight that the runtime wires in, with one
  platform and one configuration per run, at most fifteen can occur (`PipelineRuntime.FewCodesPerRun`).

## Modelling choices

Times are integers; every worker reads one clock that never goes backwards, except in
`JobHistory`, where each update brings its own.  Lease tokens are drawn from a counter, as
random identifiers never repeat.  SHA-256 is injective: a publication identity is its source
and its tree, a request fingerprint is its tuple.  A transaction either applies or rolls
back as a whole.  Rendering is an arbitrary function of the snapshot and of the published
predecessor, so every statement about runs holds for every exporter.  What the database,
the host or the network decides is a parameter: read lengths, failing renames, case folding,
safe directories, lookup answers, cancellations.

## Model

| member | source | states |
|---|---|---|
| JobHistory.AttemptsAreConserved | src/media_sync/infrastructure/db/repositories.py:2535-3086 | Over every sequence of updates a lease is held exactly while the job is claimed or running, and the job is handed out exactly as often as its attempt counter grew, never beyond its maximum |
| JobHistory.LostTokenIsPowerless | src/media_sync/infrastructure/db/repositories.py:2763-2848 | Once a lease was reclaimed, taken over, completed or cancelled, its owner never regains it, and none of that owner's later updates changes the row |
| JobHistory.LiveLeaseIsProtected | src/media_sync/infrastructure/db/repositories.py:2951-3018 | While a lease is alive, no update other than its holder's own or a cancellation changes the row; recovery never displaces a live owner |
| JobHistory.FinishedIsFinal | src/media_sync/infrastructure/db/repositories.py:2920-3088 | Succeeded and cancelled rows are never changed again, over every sequence of updates |
| JobHistory.ClaimIsGrantedWhenDue | src/media_sync/infrastructure/db/repositories.py:2590-2648 | A claim is granted exactly when an attempt is left and the row waits for it or its holder is dead; a refused claim changes nothing, except that a dead holder without attempts ends the row |
| JobHistory.HolderIsGranted | src/media_sync/infrastructure/db/repositories.py:2717-2848 | What start, both renewals, completion and failure grant a holder: exactly under its live lease, or for one renewal under an expired one that nobody reclaimed |
| JobHistory.SuccessorIsGranted | src/media_sync/infrastructure/db/repositories.py:2805-3088 | What others are granted: exactly rows whose holder is dead or gone |
| JobHistory.EveryAttemptIsGranted | src/media_sync/infrastructure/db/repositories.py:2535-2648 | The bound on attempts is reached: a due row that keeps failing, or whose holders keep dying, is handed out once for every attempt it has left and only then ends |
| PublicationHead.ResolvePublicationHead | src/media_sync/application/emby.py:517-546 | Nothing for no anchors, the tip when the anchors form one non-branching path from a single genesis, and an inconsistency in every other case; the walk terminates on cycles |
| PublicationHead.IndexAnchors | src/media_sync/application/emby.py:521-530 | The index lists exactly the successors of every anchor and all anchors without predecessor, or some predecessor is not an anchor |
| PublicationHead.ChildlessAnchors | src/media_sync/application/emby.py:533-533 | Exactly the anchors without a successor, each once |
| PublicationHead.WalkToGenesis | src/media_sync/application/emby.py:537-543 | The visited anchors contain the head and are closed under predecessors; the walk repeats none and ends at a genesis, or reports a cycle |
| PublicationHead.HeadIsTip | src/media_sync/application/emby.py:517-546 | Whatever listing of the anchors one takes, the resolved head is its last element |
| PublicationHead.PathIsUnique | src/media_sync/application/emby.py:517-546 | Anchors can be listed as one predecessor path in at most one way |
| PublicationHead.AppendToHead | src/media_sync/application/emby.py:517-546 | Adding a successor of the head keeps the map resolvable, with the new anchor as head |
| PublicationHead.TwoSuccessorsBranch | src/media_sync/application/emby.py:531-532 | Two anchors with the same predecessor make the map unresolvable |
| EmbyExport.EmbyExportService.LoadPublicationState | src/media_sync/application/emby.py:582-637 | The resolved head and the unfinished successors of it that carry an intent, or an error when a result is missing, a cancelled job declares a tree, or the anchors branch |
| EmbyExport.EmbyExportService.Prepare | src/media_sync/application/emby.py:867-1008 | The preparing transaction is exactly the step: recovery scan first, reuse of an unchanged head, otherwise claim of the job keyed by source and head |
| EmbyExport.EmbyExportService.LeaveUnclaimed | src/media_sync/application/emby.py:948-958 | A row that cannot be claimed keeps its reclaim, and a dead one fails its running records |
| EmbyExport.EmbyExportService.ClaimJob | src/media_sync/application/emby.py:941-1008 | Claim, start and record begin happen together or not at all; natural keys stay unique |
| EmbyExport.EmbyExportService.RenderAttempt | src/media_sync/application/emby.py:808-824 | A rendered attempt passed the fence against the tree on disk and names the tree of every reused record; otherwise the attempt fails |
| EmbyExport.EmbyExportService.RenewBeforePublish | src/media_sync/application/emby.py:1323-1337 | Exactly under the live lease of its running job the worker renews the lease and writes the intent in one update; else the attempt is lost and no row is written |
| EmbyExport.EmbyExportService.PublishTree | src/media_sync/exporters/emby/exporter.py:2743-2763 | The tree is replaced exactly by a worker with a durable intent while the one on disk is still the fenced one; the call may fail after replacing it |
| EmbyExport.EmbyExportService.FinalizeAttempt | src/media_sync/application/emby.py:1339-1364 | Records and job complete together, only as the published tree and only under the live lease, or nothing is written |
| EmbyExport.EmbyExportService.RecordAttemptFailure | src/media_sync/application/emby.py:1387-1414 | Records and job fail alike under the live lease, or nothing is written |
| EmbyExport.EmbyExportService.ValidateCandidate | src/media_sync/application/emby.py:1034-1073 | The scan keeps exactly the candidates whose intent is on disk and goes on with a single one whose owner is dead |
| EmbyExport.EmbyExportService.FinalizeCandidate | src/media_sync/application/emby.py:1075-1154 | A scanned job is completed only if its payload is unchanged, its records agree with the intent and its lease is not alive |
| PublicationSafety.SucceedOk | src/media_sync/application/emby.py:1339-1364 | Completing the job whose declared tree is on disk keeps the invariant with the chain extended by that job |
| PublicationSafety.DiskOwnerIsNext | src/media_sync/application/emby.py:1034-1073 | A declared tree found on disk belongs to a successor of the current head |
| PublicationSafety.FencedPredecessorIsHead | src/media_sync/exporters/emby/exporter.py:724-800 | Under a separating exporter an attempt that passes the disk fence was prepared on the current head |
| PublicationRuns.NextOk | src/media_sync/application/emby.py:808-1154 | Every step of every worker keeps the invariant and leaves the chain alone or appends one job whose tree is on disk |
| PublicationRuns.RunOk | src/media_sync/application/emby.py:808-1154 | Over every run the published history is only ever extended |
| PublicationRuns.SeparatingRunsAreLinear | src/media_sync/application/emby.py:517-546 | With a separating exporter the succeeded jobs form one linear chain after every run, so the head always resolves |
| PublicationProgress.PreparesExactly | src/media_sync/application/emby.py:867-1008 | An idle worker gets an attempt if and only if the head resolves, no scan is due, the snapshot is not the head's, and its job on the head is new or due with startable records; then it is handed that row, with a new lease and one attempt more, and nothing else moves |
| PublicationProgress.StartedIsPublished | src/media_sync/application/emby.py:808-859 | An attempt that can start on the head's own tree is published by its worker's own steps, on top of that head |
| PublicationProgress.VainScan | src/media_sync/application/emby.py:1034-1073 | A recovery scan that finds no declared tree on disk leaves its worker free to prepare |
| PublicationProgress.PendingIsPublished | src/media_sync/application/emby.py:808-1073 | In every reachable state that resolves, with the head's tree on disk, any idle worker publishes a wanted snapshot by its own steps, as the next attempt of its due job or as a new job |
| PublicationProgress.FailureIsRecorded | src/media_sync/application/emby.py:1387-1414 | Exactly under the live lease and on its own running record a failure is recorded, job and record alike: to be retried exactly if it may be and an attempt is left |
| PublicationProgress.FailedAttemptIsRetried | src/media_sync/application/emby.py:930-973 | In every reachable state, after such a failure whichever idle worker prepares the snapshot next is handed the same job for its next attempt |
| PublicationProgress.FirstFailureIsRetried | src/media_sync/application/emby.py:930-973 | From the empty state: prepare, fail, record, prepare gives the second attempt of job 0 |
| PublicationSteps.UndueJobIsLeft | src/media_sync/application/emby.py:948-973 | A job that is not due is left unclaimed; an ended one fails its running records and keeps finished ones; busy records undo the whole claim |
| PublicationSteps.FenceIsExact | src/media_sync/exporters/emby/exporter.py:722-800 | The fence lets an attempt through exactly on the tree it was prepared on, or, without preserved content, on the very tree it publishes |
| PublicationSteps.ScanDecides | src/media_sync/application/emby.py:1034-1073 | A whole scan decides by the candidates whose tree is on disk: none frees its worker, a single dead one is recovered, anything else stops |
| PublicationSteps.CandidateIsCompleted | src/media_sync/application/emby.py:1075-1154 | A scanned job is completed exactly if its row still declares the tree and is not alive, finished or cancelled, and its records never finished or name that tree; else neither is touched |
| PublicationSteps.AttemptIsCompleted | src/media_sync/application/emby.py:1339-1364 | An attempt is completed, job and record together, exactly under its live lease and on its own running record; else neither is touched |
| PublicationBranching.PublishAll | src/media_sync/application/emby.py:808-859 | From a quiet state any consistent edit history can be published step by step without disturbing other workers |
| PublicationSplit.StalledWorkerBranches | src/media_sync/application/emby.py:826-850 | Whenever a history returns to an earlier identity, a worker parked since then splits the chain |
| PublicationSplit.StalledRecoveryBranches | src/media_sync/application/emby.py:1034-1154 | Whenever a history reaches the identity of a declared rival, a recovery scan started before it splits the chain |
| PublicationSplit.BranchingRun | src/media_sync/application/emby.py:808-1154 | Every exporter that is not separating has a run after which two succeeded jobs share a predecessor |
| PublicationSplit.LinearIffSeparating | src/media_sync/application/emby.py:517-1154 | All runs keep one linear history if and only if the exporter is separating |
| PublicationSplit.SplitIsForGood | src/media_sync/application/emby.py:531-535 | Once two succeeded jobs share a predecessor, the head never resolves again, whatever runs follow |
| PublicationRecovery.DiskIsAccountedFor | src/media_sync/application/emby.py:582-637 | In every reachable state the tree on disk is the head's, or that of exactly one durable intent that succeeds the head, and never both |
| PublicationRecovery.AccountedIffSeparating | src/media_sync/application/emby.py:582-637 | The tree on disk is so accounted for after every run if and only if the exporter is separating |
| PublicationRecovery.OnlyOwnerMatches | src/media_sync/application/emby.py:1034-1057 | Of everything a scan finds, exactly the owner of the tree on disk matches |
| PublicationRecovery.RecoveryCompletesOwner | src/media_sync/application/emby.py:1034-1154 | Once its lease is dead, any idle worker completes exactly that job; the tree on disk stays and becomes the head's |
| PublicationRecovery.ReachableOwnerIsCompleted | src/media_sync/application/emby.py:1034-1154 | In every reachable state, a pending job with a dead lease whose tree is on disk becomes the head by steps of any idle worker, and the disk is untouched |
| PublicationRecovery.DeadOwnerIsReachable | src/media_sync/application/emby.py:826-850 | For every exporter some run leads there: a worker dies right after its tree reached disk |
| PublicationRecovery.CancelledIntentStopsForGood | src/media_sync/application/emby.py:617-619 | Once a cancelled job declares a tree, preparing changes nothing but the worker that tried, over every later run |
| PublicationRecovery.CancelledIntentIsReachable | src/media_sync/infrastructure/db/repositories.py:3066-3088 | Cancelling the first publication after its intent leads to such a state, for every exporter |
| PublicationRecovery.OnlyCancellationStops | src/media_sync/application/emby.py:617-619 | A run in which nobody cancels an export job never blocks recovery |
| PublicationRecovery.EditAndRevertCollide | src/media_sync/application/emby.py:259-282 | One edit whose revert shows the first tree again makes an exporter non-separating |
| PublicationRecovery.EditAndRevertSplits | src/media_sync/exporters/emby/exporter.py:2684-2707 | With predecessor content copied for preserving snapshots only, editing and reverting any one snapshot that does not preserve content splits the history of some run |
| PublicationRecovery.LinearOnlyIfAllPreserve | src/media_sync/exporters/emby/exporter.py:2684-2707 | Such an exporter keeps all runs linear only if every snapshot preserves content |
| PublicationRecovery.FreshHistoriesAreNotEnough | src/media_sync/application/emby.py:259-282 | An exporter whose snapshots all preserve content and whose identities never repeat along a history still has a run that splits it |
| PublicationRecovery.InjectiveIsLinear | src/media_sync/application/emby.py:180-195 | Identities that tell source and predecessor apart keep every run linear |
| PublicationRecovery.EmbeddingIsSeparating | src/media_sync/application/emby.py:180-195 | Whatever snapshots preserve or record, an exporter whose trees embed their predecessor is injective and separating |
| AssetDownload.AssetDownloadService.BeginDownload | src/media_sync/application/downloads.py:564-827 | The deciding transaction is exactly the step: reuse, recovery, terminal, busy, or a claimed job with a downloading asset |
| AssetDownload.AssetDownloadService.DecideOnJob | src/media_sync/application/downloads.py:654-764 | The branches on the job of the current generation, with expired jobs mirrored onto the asset |
| AssetDownload.AssetDownloadService.ClaimAndStartJob | src/media_sync/application/downloads.py:766-811 | Job and asset start together under a new lease, or the job keeps what the attempt to claim it changed |
| AssetDownload.AssetDownloadService.TakeoverPrepared | src/media_sync/application/downloads.py:385-455 | The lease moves to the new worker with the asset downloading for it, or nothing changes |
| AssetDownload.AssetDownloadService.GuardPublish | src/media_sync/application/downloads.py:475-500 | The worker goes on to publish exactly if the running job and the downloading asset are still its own, and nothing but the expiry of its lease moves |
| AssetDownload.AssetDownloadService.FinalizeSuccess | src/media_sync/application/downloads.py:838-882 | Exactly if job and asset are still this worker's, the asset is verified with the content and the job has succeeded; else neither row is touched |
| AssetDownload.AssetDownloadService.RecordDownloadFailure | src/media_sync/application/downloads.py:892-932 | Exactly under a live lease, on its own asset and with an attempt left for a retry, asset and job fail alike and the lease is released; else neither row is touched |
| AssetDownload.AssetDownloadService.ResetVerifiedArchive | src/media_sync/application/downloads.py:502-547 | Missing or corrupt bytes start a new generation exactly if the verified asset is still the inspected one |
| Downloads.NextKeepsInv | src/media_sync/application/downloads.py:285-932 | Every step keeps asset and job of the current generation joint |
| Downloads.ReachableIsJoint | src/media_sync/application/downloads.py:285-932 | In every reachable state job success means a verified asset, a running job a downloading asset, and a terminal asset a terminal job |
| Downloads.OnlyHolderVerifies | src/media_sync/application/downloads.py:838-882 | An asset becomes verified only through the worker holding the running job of its own generation, which succeeds with it |
| Downloads.DisplacedChangesNothing | src/media_sync/application/downloads.py:475-500 | A worker without its lease changes neither asset nor jobs when it guards, finalizes or fails |
| Downloads.DisplacedForGood | src/media_sync/application/downloads.py:385-455 | A displaced worker stays displaced over every later run |
| Downloads.TakeoverDisplaces | src/media_sync/application/downloads.py:385-455 | A successful takeover displaces every other attempt at that generation |
| Downloads.FailureIsJoint | src/media_sync/application/downloads.py:892-932 | A recorded failure leaves asset and job both retryable or both terminal, and the lease released |
| Downloads.VerifiedIsFinal | src/media_sync/application/downloads.py:579-598 | Within one generation a verified asset never changes, over every run |
| Downloads.PreparedResultIsRecovered | src/media_sync/application/downloads.py:293-309 | A finished download whose worker died is verified by the next worker, whether its job is running and expired, reclaimed, or mirrored on the asset |
| DownloadProgress.BeginsExactly | src/media_sync/application/downloads.py:564-827 | What a worker that asks for an asset gets, exactly: a finished download to take over, a new attempt with the asset downloading under its new lease, verified content to inspect, or nothing |
| DownloadProgress.RestsExactly | src/media_sync/application/downloads.py:654-764 | When it gets nothing, an asset whose downloader is dead for good ends with its job, one that waits for its job is queued, and everything else stays |
| DownloadProgress.TakesOverExactly | src/media_sync/application/downloads.py:385-455 | A takeover happens exactly if job and asset are still as they were seen, and spends no attempt; else neither row is touched |
| DownloadProgress.StartedIsVerified | src/media_sync/application/downloads.py:752-882 | In every reachable state in which a download can start, the worker that asks verifies the asset by its own steps, with one attempt more |
| DownloadProgress.FirstDownload | src/media_sync/application/downloads.py:752-882 | From the empty state: begin, guard and finalize verify the asset at its first attempt |
| DownloadProgress.FailedIsRetried | src/media_sync/application/downloads.py:892-932 | In every reachable state, after a recorded retryable failure any idle worker of that scope starts the next attempt |
| DownloadProgress.AbandonedIsVerified | src/media_sync/application/downloads.py:293-309 | In every reachable state, what a worker downloaded before it died is verified by the next one that asks, without another attempt |
| DownloadProgress.ResetStartsOver | src/media_sync/application/downloads.py:502-547 | When verified bytes turn out missing, the next generation can be downloaded under any scope |
| DownloadProgress.StrandedForGood | src/media_sync/application/downloads.py:737-750 | A downloading asset whose job was requeued or cancelled stays as it is over every later run without a rediscovery |
| DownloadProgress.StrandedIsReachable | src/media_sync/application/downloads.py:737-750 | A requeue between the death of a downloader and the next request leads there |
| ProfileExchange.ProfileReplacement.Install | src/media_sync/application/mediacrawler_profile_adoption.py:392-420 | Exactly which failing renames end installed, refused or half undone, and that every state on the way keeps the previous profile |
| ProfileExchange.ProfileReplacement.Rollback | src/media_sync/application/mediacrawler_profile_adoption.py:422-437 | The previous profile returns exactly if both renames succeed; otherwise it stays set aside, some profile stays usable when it can, and where each profile is left |
| ProfileExchange.ProfileReplacement.Commit | src/media_sync/application/mediacrawler_profile_adoption.py:439-445 | Only the set-aside profile is dropped, and a failure leaves it and reports itself |
| ProfileExchange.ProfileReplacement.Adopt | src/media_sync/application/mediacrawler_profile_adoption.py:526-578 | For every pattern of failures each intermediate state keeps the previous profile until authentication is published, from then on the target holds the probed copy; each verdict has its exact condition and exact final directories, and the staging directory is cleared whenever it can be |
| ProfileTree.CopyFinds | src/media_sync/application/mediacrawler_profile_adoption.py:291-324 | Under every name the copy holds the file, the copied directory, or nothing for links and special files |
| ProfileTree.CopyIsFaithful | src/media_sync/application/mediacrawler_profile_adoption.py:280-329 | The copy has exactly the regular files reachable through real directories, byte for byte |
| ProfileTree.CopyIsPlainAndCounted | src/media_sync/application/mediacrawler_profile_adoption.py:280-329 | The copy holds no link, its statistics count its own files and bytes, and a plain tree is copied as it is |
| Operations.FinishAgreesWithReconcile | src/media_sync/application/operations.py:831-928 | The live finish, for every intent, and restart reconciliation give the same state, code and summary if and only if the phase is accepted, polling or observed |
| Operations.DispatchingAgreement | src/media_sync/application/operations.py:1410-1448 | While dispatching they agree exactly on everything but a cancellation |
| Operations.SuccessIsObserved | src/media_sync/application/operations.py:968-998 | Either way success needs a valid observed checkpoint of this very request and a valid export job |
| Operations.NoRetryAfterDispatch | src/media_sync/application/operations.py:866-887 | From dispatching on neither ending is retryable or interrupted |
| Operations.FinishedRow | src/media_sync/application/operations.py:831-928 | State, code and summary of a live finish in every phase and for every intent; from acceptance on success exactly for an observed checkpoint of this request and a valid export, otherwise completion unknown with the checkpoint kept wherever there is one |
| Operations.ReconciledRow | src/media_sync/application/operations.py:1410-1448 | The same for a restart: completion unknown from acceptance on, acceptance unknown while dispatching, interrupted before |
| Observation.NextKeepsInv | src/media_sync/application/media_server_observation.py:493-718 | Every step of worker, canceller and restart keeps what the row may say, given how far the worker got |
| Observation.ObservationIsSafe | src/media_sync/application/media_server_observation.py:543-641 | Over every run at most one request leaves, after an approval no ending invites a retry, and success carries the observed checkpoint of the submitted request |
| Observation.ApprovalIsEarned | src/media_sync/application/media_server_observation.py:560-588 | Approval happens on the first call only, with the row durably dispatching, nothing cancelled, time left and the target resolved again unchanged |
| Observation.EntryNeedsApproval | src/media_sync/integrations/media_server.py:630-660 | The request leaves only through that approval |
| Observation.EveryEntryWasApproved | src/media_sync/application/media_server_observation.py:543-606 | Over every run at most one request leaves, and then some earlier call of the hook met every approval condition with the row durably dispatching |
| Observation.UndisturbedObservation | src/media_sync/application/media_server_observation.py:493-718 | An observation nobody else touches succeeds if and only if the hook approved, the scan answered, nothing stopped it, an item was found two seconds after acceptance, and request and export are valid; what it ends with otherwise |
| Observation.RefusedObservation | src/media_sync/application/media_server_observation.py:543-641 | A scan refused by the hook for a reason of its own ends as that reason says, perhaps to be retried; once approved or cancelled only a cancellation is believed |
| Observation.CancellationPrecludesSuccess | src/media_sync/infrastructure/db/operation_repository.py:858-910 | A cancellation recorded before the observation is stored is never overtaken by success, over every later run |
| Observation.CancelledBeforeEntry | src/media_sync/application/media_server_observation.py:560-586 | A cancellation between baseline and hook keeps the request from leaving, whatever else the hook meets |
| TransportFencing.TransportFence.BeforeTransportEntry | src/media_sync/application/media_server_observation.py:545-588 | The hook answers yes exactly under the approval conditions and leaves counters and row as the step says |
| TransportFencing.TransportFence.WritePhase | src/media_sync/application/operations.py:1072-1096 | A phase write succeeds exactly on a running row |
| TransportFencing.TransportFence.Reject | src/media_sync/application/media_server_observation.py:545-558 | A rejection puts a running row back to baselining and never lets the request out |
| ObservationLoop.PassBoundIsExact | src/media_sync/application/media_server_observation.py:262-271 | The floor divisions allow exactly the numbers of passes whose full reservations fit the limits together |
| ObservationLoop.LookupBudget.Start | src/media_sync/application/media_server_observation.py:262-271 | A pass starts exactly while the bound is not reached |
| ObservationLoop.LookupBudget.Finish | src/media_sync/application/media_server_observation.py:273-289 | For a fixed provider total use never exceeds the limits, and only a lookup outgrowing its own reservation is refused |
| ObservationLoop.WaitUntil | src/media_sync/application/media_server_observation.py:826-841 | The wait is its specification over the readings of clock and cancellation |
| ObservationLoop.WakesInTime | src/media_sync/application/media_server_observation.py:826-841 | Waking means not too early, before the deadline, and nothing cancelled up to then |
| ObservationLoop.WakesExactly | src/media_sync/application/media_server_observation.py:826-841 | The wait returns a reading if and only if that is the first late enough, in time, and nothing before it was cancelled, signalled or past the deadline |
| ObservationLoop.PollObservation | src/media_sync/application/media_server_observation.py:643-718 | The poll loop is its specification over the lookups and the checks around them |
| ObservationLoop.SucceedsExactly | src/media_sync/application/media_server_observation.py:643-718 | The poll returns an item if and only if misses, each answered in time, are followed by two matches of that item, each woken an interval later and answered in time, under the named checks |
| ObservationLoop.SuccessNeedsTwoMatches | src/media_sync/application/media_server_observation.py:661-715 | Success means two consecutive lookups of the same item, only misses before them, at least one interval apart, before the deadline, with the target unchanged |
| ObservationLoop.PayloadsAreValid | src/media_sync/application/operation_payloads.py:802-813 | Both payloads the worker writes meet the counts and the two-second rule |
| ObservationDocument.AcceptedIsValid | src/media_sync/application/operation_payloads.py:727-805 | The accepted document has exactly the closed fields, and is valid exactly if the scan result and the digests in it are |
| ObservationDocument.ObservedIsValid | src/media_sync/application/operation_payloads.py:806-813 | On a valid context the observed document is valid exactly if its item has a digest and two seconds have passed |
| ObservationDocument.WrittenDocumentsAreValid | src/media_sync/application/media_server_observation.py:695-713 | Whatever the poll loop sees, every document the worker writes passes the closed validator |
| ObservationDocument.EssencesAreThePayloads | src/media_sync/application/operations.py:968-998 | The two documents project to the two payloads on which finish and reconciliation decide |
| Effects.OperationStore.Try | src/media_sync/application/operations.py:1150-1200 | One transaction applies effect, fences and terminal state together, exactly if both fences hold, or changes nothing |
| Effects.OperationStore.CommitEffect | src/media_sync/application/operations.py:1675-1702 | The effect is applied once or never, by an attempt both of whose fences found the lease alive and nothing cancelled; only ordinary failures are retried, at most four times |
| Effects.AttemptEndsExactly | src/media_sync/application/operations.py:1150-1200 | Exactly when an attempt applies, is retried, reports a cancellation or reports a lost lease |
| Effects.CleanAttemptApplies | src/media_sync/application/operations.py:1151-1174 | An attempt with nothing wrong applies exactly if what other transactions did just before it leaves the lease alive and uncancelled |
| Effects.EndPrecludesEffect | src/media_sync/application/operations.py:1157-1173 | After the operation finished, or was reconciled past its expiry, its effect stays invisible |
| Effects.CancelPrecludesEffect | src/media_sync/application/operations.py:1151-1174 | A cancellation recorded before an attempt keeps the effect of it and of all later ones invisible |
| Effects.FenceStaysBroken | src/media_sync/application/operations.py:1157-1173 | A fence that fails because of a cancellation, an ended operation or another owner never holds again |
| Effects.OnlyHeartbeatHeals | src/media_sync/infrastructure/db/operation_repository.py:626-670 | A fence that failed before and holds later had failed for the expiry alone, and the owner sent a heartbeat in between |
| Effects.HeartbeatHeals | src/media_sync/infrastructure/db/operation_repository.py:643-659 | After a heartbeat the fence holds exactly on a row not closed before it, up to the new expiry |
| ByteRange.Parse | src/media_sync/application/archive_preview.py:258-302 | Every parsed range lies within the file |
| ByteRange.RangeRoundTrip | src/media_sync/application/archive_preview.py:258-302 | Printing then parsing a range returns it, with an end past the file cut to the last byte |
| ByteRange.SuffixRoundTrip | src/media_sync/application/archive_preview.py:295-302 | A suffix range names exactly the last bytes, or the whole file when it is shorter |
| ByteRange.BlanksAndCaseAreIgnored | src/media_sync/application/archive_preview.py:258-276 | Blanks around a header and the case of its unit do not matter |
| ByteRange.AcceptedIsPrinted | src/media_sync/application/archive_preview.py:258-302 | Nothing else parses than a unit and two runs of digits, one perhaps empty, around one dash, with blanks at most around the whole |
| ArchivePreview.VerifyBytes | src/media_sync/application/archive_preview.py:530-554 | Despite short reads the digest covers exactly the file's bytes; verification succeeds exactly for the recorded size and digest when every read returns something |
| ArchivePreview.OpenVerified | src/media_sync/application/archive_preview.py:485-583 | A preview is handed out only for a range within the file and bytes of exactly the recorded size and digest, positioned on that range; exactly then when every read returns something |
| ArchivePreview.Preview.constructor | src/media_sync/application/archive_preview.py:305-336 | The stream stands on the requested range or on the whole file |
| ArchivePreview.Preview.SelectRange | src/media_sync/application/archive_preview.py:371-408 | A range is taken exactly once, unstarted, within the file; any refusal closes the file |
| ArchivePreview.Preview.IterBytes | src/media_sync/application/archive_preview.py:410-436 | Chunks are non-empty and at most 64 KiB, together a prefix of the selection, all of it when nothing fails; the file is closed afterwards and never iterated twice |
| LikeSearch.ThreeReplacesAreEscape | src/media_sync/application/explorer.py:71-82 | The three successive replacements are one per-character escape |
| LikeSearch.EscapedPrefix | src/media_sync/application/explorer.py:71-82 | An escaped query followed by a percent sign matches exactly the texts it is a prefix of |
| LikeSearch.SearchIsSubstring | src/media_sync/application/explorer.py:309-316 | A search pattern matches a text exactly when the query, without exactly its outer blanks, occurs in it |
| LikeSearch.QueryIsClassified | src/media_sync/application/explorer.py:71-82 | A missing or blank query filters nothing; any other is refused exactly if what is left between its outer blanks is too long or not printable |
| Base64Url.RoundTrip | src/media_sync/application/library.py:497-515 | Every byte string survives stripping and restoring the padding, whatever its length |
| Base64Url.DecodableLengths | src/media_sync/application/library.py:509-515 | Alphabet texts decode exactly if their length is not one modulo four |
| Base64Url.ReencodeIsCanonical | src/media_sync/application/library.py:509-515 | Decoding then encoding returns the text exactly when its unused tail bits are zero |
| Base64Url.SecondTextIff | src/media_sync/application/library.py:509-515 | An encoding has a second text of the same bytes if and only if its length is not a multiple of four |
| Cursors.CursorRoundTrip | src/media_sync/application/library.py:483-573 | A cursor comes back as it was, exactly if its text keeps to the size limit |
| Cursors.SpelledRoundTrip | src/media_sync/application/library.py:554-571 | Each of the three spellings of the version opens under a signature of that spelling, within the size limit |
| Cursors.UnforgedExists | src/media_sync/application/library.py:495-496 | For every cursor there is a signature function, with digests of the fixed length, under which no other payload has its signature |
| Cursors.OtherSpellingsAreUnissued | src/media_sync/application/library.py:483-497 | No payload in the other two spellings has the signature issued for a cursor that no other payload shares |
| Cursors.SecondCursorText | src/media_sync/application/library.py:509-515 | Whatever the signature, a cursor whose text does not fill its last group has a second text that decodes to it |
| Cursors.SecondCursorTextIff | src/media_sync/application/library.py:509-547 | If no other payload shares its signature, a cursor has a second text under that signature if and only if the length of its text is not a multiple of four |
| Cursors.CursorIsShort | src/media_sync/application/library.py:483-497 | File counts of up to a thousand digits keep to it |
| Cursors.AcceptedIsEncoded | src/media_sync/application/library.py:518-571 | An accepted text carries exactly the encoder's bytes if and only if its version is spelled as the encoder spells it |
| Cursors.AcceptedTextIsEncoded | src/media_sync/application/library.py:499-571 | It is the encoder's text itself exactly when its unused bits are zero besides |
| Cursors.AnotherCursorIsACollision | src/media_sync/application/library.py:542-547 | Under any signature function, a text bearing an issued signature decodes to the cursor it was issued for, or two payloads share that signature |
| Cursors.IssuedSignaturesOpenTheirCursor | src/media_sync/application/library.py:542-547 | If no other payload shares the signature issued for a cursor, every text bearing it decodes to that cursor and carries the encoder's bytes |
| Cursors.ResumesOnlyItsPublication | src/media_sync/application/library.py:575-592 | A cursor resumes at its page on its own publication and on no other |
| OutputDirectories.CheckRoots | src/media_sync/application/output_directories.py:212-237 | Accepted exactly when every root is safe and any two platforms are apart, or equal under the flat layout |
| OutputDirectories.OutputDirectoryService.ProtectedPlatforms | src/media_sync/application/output_directories.py:240-259 | Exactly the platforms with a binding or an export |
| OutputDirectories.OutputDirectoryService.LockPolicy | src/media_sync/application/output_directories.py:261-320 | The stored policy if it is still usable, or the one the configured root gives rise to |
| OutputDirectories.OutputDirectoryService.UpdatePolicy | src/media_sync/application/output_directories.py:358-388 | Compare-and-set on the revision; no protected platform may move |
| OutputDirectories.OutputDirectoryService.BindAuthorRoot | src/media_sync/application/output_directories.py:401-438 | The first binding freezes the current root; later ones must agree with it |
| OutputDirectories.NextKeepsInv | src/media_sync/application/output_directories.py:332-438 | Every step keeps the roots apart and every binding equal to the current root of its platform, with a revision not beyond the policy's |
| OutputDirectories.HistoryKeepsBindings | src/media_sync/application/output_directories.py:332-438 | The same over every history, and no binding is ever changed or lost |
| OutputDirectories.BoundRootIsFinal | src/media_sync/application/output_directories.py:334-338 | No later history moves the root of a bound author |
| OutputDirectories.BoundRootsAreApart | src/media_sync/application/output_directories.py:222-236 | Bound authors of different platforms never share or nest directories unless the layout is flat and the roots are equal |
| OutputDirectories.PlainLayoutsAreDisjoint | src/media_sync/application/output_directories.py:73-83 | Layouts without overrides always pass the pairwise check |
| OutputDirectories.FirstPolicy | src/media_sync/application/output_directories.py:261-272 | A library without a policy gets the flat layout exactly if something was published before, else one directory for each platform, and when it is refused |
| OutputDirectories.UpdateIsStored | src/media_sync/application/output_directories.py:358-388 | An update is stored exactly if it names the current revision, its roots are safe and apart, and no protected platform moves |
| OutputDirectories.FirstBindingIsMade | src/media_sync/application/output_directories.py:401-438 | The first binding of a known author is made under any usable policy, in the current root of the author's platform; binding again changes nothing |
| OutputDirectories.FirstAuthorIsBound | src/media_sync/application/output_directories.py:401-438 | The first author bound in a fresh library lives in the configured root, in the directory of its platform |
| Inspection.InspectComplete | src/media_sync/application/media_server_publication.py:459-490 | Against any exporter, the loop succeeds exactly if every page up to the last is accepted in time; then the pages tile the manifest without gap or overlap, are as many as needed and stay within the byte budget; the loop terminates |
| Inspection.AcceptedCover | src/media_sync/application/media_server_publication.py:459-490 | From any page on, the accepted pages cover the rest of the manifest in time and within what is left of the budget |
| Inspection.InspectTree | src/media_sync/exporters/emby/exporter.py:2280-2321 | The same loop against the exporter's own paging succeeds exactly if every page is begun and reached before the deadline, every file is found intact before it, and together they fit the budget |
| Inspection.CompletesExactly | src/media_sync/exporters/emby/exporter.py:2394-2568 | The same from any page on, for the rest of the tree |
| Inspection.PageIsExact | src/media_sync/application/media_server_publication.py:502-518 | A page is accepted exactly if it was reached in time and its files are intact and fit what is left of the budget |
| Delivery.RunContent | src/media_sync/application/pipeline.py:397-434 | One content yields all of its downloads or its first failure |
| Delivery.RunContents | src/media_sync/application/pipeline.py:395-435 | Exactly the failing contents are recorded, and the downloads are those of the others, in order |
| Delivery.Summarize | src/media_sync/application/pipeline.py:453-473 | Every number of the receipt counts what its name says |
| Delivery.RunContentScoped | src/media_sync/application/pipeline.py:382-473 | Every selected content is counted once, the failing ones as retryable or terminal; the receipt is valid if and only if the contents fail for at most sixteen reasons |
| Delivery.ReceiptBalances | src/media_sync/application/operation_payloads.py:661-678 | Such counts meet every equation of the validator, up to the number of codes |
| Delivery.DeliveryIsPerContent | src/media_sync/application/pipeline.py:397-435 | A failing content contributes nothing, a clean one all of its assets, independently of the others |
| Delivery.DeliversExactly | src/media_sync/application/pipeline.py:411-434 | A content is delivered if and only if its preflight passes and every download answers for its own asset with verified bytes |
| Delivery.AnswerIsClassified | src/media_sync/application/pipeline.py:419-434 | A download failure keeps the class the download service gave it; wrong scopes are terminal and missing verification may be retried |
| Delivery.DownloadFailureIsCounted | src/media_sync/application/pipeline.py:426-434 | A content whose first failing download was classified counts as retryable in the receipt exactly if that failure was |
| PipelineRuntime.PreflightSelection | src/media_sync/application/pipeline_runtime.py:274-325 | The loop raises the first capability that an asset misses, and otherwise what any asset needs and the host lacks |
| PipelineRuntime.PassesExactly | src/media_sync/application/pipeline_runtime.py:274-325 | A content passes its preflight if and only if everything that its unsettled assets need is configured and ready |
| PipelineRuntime.OutcomeIsPossible | src/media_sync/application/pipeline_runtime.py:328-346 | A content fails only with codes possible for the platform and configuration of its run |
| PipelineRuntime.FewCodesPerRun | src/media_sync/application/pipeline.py:26-63 | Whatever is selected and whatever fails, one run meets at most fifteen distinct codes |
| PipelineRuntime.RunSubscription | src/media_sync/application/pipeline_runtime.py:248-271 | Every receipt of the wired program is valid, and counts every selected content |
| Delivery.SortCodes | src/media_sync/application/pipeline.py:472-472 | The failure codes are strictly sorted and exactly those of the failures |
| Sweeping.LoginSessionReconciler.Sweep | src/media_sync/application/authentication.py:175-199 | A sweep visits the next page, or the first one after the end, and leaves the cursor on its last candidate |
| Sweeping.RecoverCandidates | src/media_sync/application/authentication.py:233-281 | Recovered are exactly the candidates whose lock is free and whose row is still as listed, busy those whose lock is held elsewhere, all others conflict, and every lock taken is released |
| Sweeping.PageIsStretch | src/media_sync/infrastructure/db/repositories.py:437-468 | A page is the whole stretch after the cursor up to its last candidate |
| Sweeping.SweepAdvances | src/media_sync/application/authentication.py:175-199 | A sweep visits a candidate or brings it strictly closer |
| Sweeping.ReachedWhenDue | src/media_sync/application/authentication.py:175-199 | Every candidate is visited within the number of sweeps it is due, while others may disappear |
| Sweeping.NoStarvation | src/media_sync/application/authentication.py:175-199 | Without arrivals, every candidate that stays is visited within ceil(m/limit) + ceil(n/limit) sweeps, for m candidates after the cursor out of n |

## Left out

- EmbyExport.EmbyExportService.PublishTree: the exporter's own publish transaction, its backup directories and its journal, is one atomic replacement under the author's lock.
- EmbyExport.EmbyExportService.RenderAttempt: staging files, rendering of works and `_content_fingerprints_match` are a function of snapshot and predecessor; whether a tree is valid is read off its identity.
- EmbyExport.EmbyExportService.ValidateCandidate: `managed_file_count` is part of the identity, so the scan's separate check of it never differs.
- EmbyExport.EmbyExportService.ClaimJob: the records of one snapshot move together as a single record; a pending record is one not yet begun.
- EmbyExport.EmbyExportService.Prepare: the limit on repeated recoveries and the re-validation of an already exported head are not modelled.
- PublicationRecovery.RecoveryCompletesOwner: claims nothing while a cancelled job still declares a tree, because the service then refuses to load the state; no run without a cancellation of an export job is excluded.
- Jobs.Fail: retries are available at once; a later `retry_at` and the `retry_wait` status it sets are not modelled.
- AssetDownload.AssetDownloadService.BeginDownload: refusals with different error codes are one outcome, and links from operations to jobs are omitted.
- AssetDownload.AssetDownloadService.DecideOnJob: the same merging of refusals.
- AssetDownload.AssetDownloadService.ResetVerifiedArchive: the decision that the archived bytes are missing or corrupt, and their quarantine, are the environment's.
- Operations.Finish: only author scans; results and reconciliation of the other operation kinds are single-branch projections.
- Observation.Hook: heartbeats and lease expiry of the operation are covered by a reconciliation that may happen at any moment.
- Effects.OperationStore.CommitEffect: a commit is applied or rolled back; a connection that fails after the database committed is not modelled.
- ProfileExchange.ProfileReplacement.Commit: a partial removal of the set-aside profile counts as not removed.
- ProfileExchange.ProfileReplacement.Adopt: the database transaction publishes or not, and checks for links and reparse points are part of whether a rename succeeds.
- ProfileTree.CopyTree: files that change while they are copied are not modelled.
- ObservationLoop.PayloadsAreValid: only the fields that finish and reconciliation decide on; the whole closed document is the subject of ObservationDocument.
- ObservationDocument.WrittenDocumentsAreValid: the format of server versions is a parameter, timestamps are their instants, and the size bound on stored results is not modelled.
- ArchivePreview.OpenVerified: the checks of links, identities and sizes of the open file around the hashing are part of whether a read returns something.
- ArchivePreview.Preview.IterBytes: the stability checks of the open file are answers of the environment, and the stream is drained or stops at a failure.
- LikeSearch.Matches: case folding is whatever equivalence of characters the database uses for ILIKE.
- Cursors.DecodeCursor: parsing JSON and re-serializing it canonically is modelled as reading the one canonical form slot by slot; the HMAC is a function that yields digests.
- OutputDirectories.Locked: host checks of a directory and the comparison of old publication scopes are parameters.
- Inspection.InspectTree: the outcome of hashing a file is given; a file too large for the remaining budget is read up to it.
- Delivery.RunContentScoped: errors that abort the whole run, the selection check after the downloads and the export that follows are not modelled.
- PipelineRuntime.RunSubscription: whether MediaCrawler, ffprobe and ffmpeg are usable is the host's answer, given per content.
- Sweeping.LoginSessionReconciler.Sweep: the database returns a page as a set; its order is that of the keys.
- Submission, heartbeats, cancellation polling and shutdown of the operation coordinator.
- The subscription selector, the media-server path mapping and selector fingerprints, catalog projections, cookie logins, creator profiles and playback evidence: they repeat these fences with fewer states or are plain projections.
- HTTP, DNS, subprocesses, browsers, Windows handles, configuration, diagnostics, telemetry and the web interface.
