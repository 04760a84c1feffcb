# Download scheduling of emulebb-rust, verified

A Dafny model of the parts of emulebb-rust that decide when a peer, a server or a
Kad lookup may be contacted again, together with the protocols around them:
callback permits, the download source registry, query pacing, the direct-download
worker pool, category renumbering, the PTR resolver's codec, the event-stream
splitter, the duplicate preflight and the disk guard. `dafny verify dfyconfig.toml`
checks everything.

Most of these components keep lazily pruned maps. The main results are therefore
stated against something that is never pruned: a ghost history, a log of grants, an
abstract store that never renumbers, or a grammar. Each says that the small
structure the program keeps answers as the full one would, over every run.

## Layout

| module | component | main results |
|---|---|---|
| `Common`, `Sources` | clock, spacing-to-rate arithmetic, found sources | |
| `CallbackPermits` | claim / commit / cancel of callback permits | `PermitSafety`, `RefusedExactly`, `DisplacedIsInert`, `PromptSendsApart` |
| `CallbackLimiter` | per-IP direct-callback limiter and its event loop | `ServeRequests`, `AcceptedRate` |
| `DeadSources` | dead-source list | `SweepsAreInvisible` |
| `SourceBatch` | server frames, UDP batches, Kad refresh | `ServerRequestRate`, `FileAskRate`, `KadSpan` |
| `SourceRegistry` | the registry itself, as a class over five maps | the class methods |
| `RegistryOps` | what each registry operation leaves, in terms of the state before | `ReleaseFileMeans`, `PruneMeans`, `LeaseMeans` |
| `RegistryShape`, `RegistryCounters`, `RegistryRuns`, `RegistryHolds` | what its runs keep | `ReachableSound`, `RetryDelayExact`, `CountsAgree`, `PruneInvisible`, `LeaseSafety`, `HoldRespected` |
| `DirectDownloads` | report classification | `EachResultOnce`, `TallyLogMeans` |
| `DownloadRounds` | bounded worker pool, rounds and retries of the driver | `RunRound`, `EveryWorker`, `RunDirectDownloads`, `FinishedMeans` |
| `Categories`, `CategoryRuns` | plan, persist, commit of category deletion | `RunRefines`, `DeletionKeepsMeaning`, `DeletableExactly`, `RunDense` |
| `DnsNames`, `DnsResponses` | name encoder, compressed-name decoder, PTR scanner | `RoundTrip`, `DecodeIsGrammar`, `PtrAnswerFound` |
| `SseFrames` | event-stream splitter | `ChunkIndependence`, `DrainIsClean` |
| `DiskGuard` | aggregate free-space guard | `PauseExact`, `OrderIrrelevant` |
| `Preflight` | duplicate preflight of download requests | `PassesExactly`, `PoliciesAgree`, `ConflictsExact` |

State that the program updates in place is a class whose methods are proved against
value functions; loops are loops with invariants. The run theorems are about those
value functions.

## Conventions

- Instants and durations are natural numbers of nanoseconds. Every clock reading is
  a parameter; runs assume that it does not go backwards.
- A mutex-guarded section is one atomic step. The category deletion, which releases
  the state lock while it persists, is two steps with the mutation gate held between.
- Results of code outside these files are parameters: hash parsing, source counts,
  manifest lookups, connection admission, worker results, metadata writes, volume
  keys, and lossy UTF-8 decoding.
- `HashMap` iteration order is an arbitrary sequence parameter where it matters.

## Where the code and its promises part

- DNS names: section 2.3.4 of RFC 1035 limits labels to 63 octets. The decoder reads
  length octets 64 to 191 as plain lengths too (`LegalExactly`, `LongLabelIsRead`),
  and the encoder writes a zero octet for labels of 256 bytes or more. Decoding
  undoes encoding exactly for labels of 1 to 191 bytes (`RoundTrip`,
  `LongNameMisread`), which includes every legal label. No caller encodes a longer
  one: `build_ptr_query` is the only caller, and its labels have at most 7 bytes.
- Category numbers: the counter saturates at 4294967295 and then hands that number
  out again. Creation takes a fresh number exactly while it is unused
  (`CreateFreshExactly`, `CreateCanOverwrite`).
- Category gaps: creation advances the counter before its write, so a failed write
  leaves a gap. The metadata store accepts only gapless snapshots, so categories
  below a gap can no longer be deleted (`DeletableExactly`,
  `FailedCreateBlocksDeletion`).
- Disk guard: the saturating comparison differs from the unbounded one only when a
  volume reports 2^64-1 free bytes and more than that is needed (`DecisionExact`,
  `PauseExact`, `PauseCanMiss`).
- Preflight: `first_by_hash` holds the latest earlier request of a hash, not the
  first, so a third repetition is reported against the second
  (`ThirdAgainstSecond`). `FirstReportedExactly` says when the first is named.
- Callback spacing: a request is sent before its permit is committed, and has been
  sent even if the commit then fails. Successful commits of one key are always a
  cooldown apart; sends are if they are settled within a cooldown of their claim
  (`PromptSendsApart`), and need not be otherwise (`TwoSendsOneCommit`).
- No-Needed-Parts holds: pruning takes a candidate's hold away because nothing is
  left to hold. The hold belongs to the endpoint, so it can still be wanted by
  another identity there (`HoldCutShort`). `StepHolding` says which steps drop it.

## Model

| member | source | states |
|---|---|---|
| `CallbackPermits.CooldownTable.Claim` | crates/emulebb-core/src/ed2k_sources.rs:73-96 | Claim prunes, then refuses exactly when the key was stamped less than a cooldown ago; a grant stamps the key and hands out the permit that owns the stamp. The server variant (125-148) differs only in key and constant. |
| `CallbackPermits.CooldownTable.Cancel` | crates/emulebb-core/src/ed2k_sources.rs:100-109 | Removes the stamp exactly when the permit still owns it, and otherwise changes nothing |
| `CallbackPermits.CooldownTable.Commit` | crates/emulebb-core/src/ed2k_sources.rs:113-123 | Restamps exactly when the permit still owns the stamp, and otherwise changes nothing |
| `CallbackPermits.CallbackSpacing` | crates/emulebb-core/src/ed2k_sources.rs:43-176 | Successful direct commits of one peer are 45 seconds apart and server commits 20 minutes, in every reachable state |
| `CallbackPermits.StepKeeps` | crates/emulebb-core/src/ed2k_sources.rs:73-176 | One claim, commit or cancel by anyone keeps the protocol invariant |
| `CallbackPermits.PermitSafety` | crates/emulebb-core/src/ed2k_sources.rs:73-176 | In every reachable state at most one live permit per key owns the stored stamp, and any two successful commits of one key are a cooldown apart |
| `CallbackPermits.RefusedExactly` | crates/emulebb-core/src/ed2k_sources.rs:73-96 | In every reachable state a claim is refused exactly when an unsettled permit of the key was claimed, or a commit of the key made, less than a cooldown ago; stated on the run, not on the pruned table |
| `CallbackPermits.DisplacedIsInert` | crates/emulebb-core/src/ed2k_sources.rs:98-123 | A permit that lost its stamp never owns one again in any continuation, and its settlement neither removes nor refreshes a newer stamp |
| `CallbackPermits.CommitRate` | crates/emulebb-core/src/ed2k_sources.rs:111-123 | Any window of width W holds at most W/cooldown + 1 commits of one key |
| `CallbackPermits.SendsExactly` | crates/emulebb-core/src/lib.rs:1611-1620 | A request is sent before its permit is committed; the sends of a run are its successful commits exactly when no committed permit had been displaced |
| `CallbackPermits.PromptOwns` | crates/emulebb-core/src/ed2k_sources.rs:113-123 | In every reachable state a settlement inside its own cooldown still owns its stamp |
| `CallbackPermits.PromptSendsApart` | crates/emulebb-core/src/lib.rs:3337-3346 | Over every run whose commits come within a cooldown of their claims, the requests sent for one key are a cooldown apart |
| `CallbackPermits.TwoSendsOneCommit` | crates/emulebb-core/src/lib.rs:3337-3346 | A direct request settled 50 seconds after its claim, its key claimed again meanwhile: two sends four seconds apart, one successful commit |
| `CallbackLimiter.DirectCallbackRateLimiter.AllowAt` | crates/emulebb-core/src/callback_tracker.rs:49-54 | Agrees with the unpruned history: allowed exactly when no tracked request of the address is younger than 180 seconds |
| `CallbackLimiter.DirectCallbackRateLimiter.TrackAt` | crates/emulebb-core/src/callback_tracker.rs:56-67 | Adds one entry to the history, keeps the deque the newest part of it in order, and leaves only entries younger than 180 seconds |
| `CallbackLimiter.HandleRequest` | crates/emulebb-core/src/ed2k_net_drivers.rs:336-380 | Accepts exactly when Kad runs, the target is valid, the limiter allows and we are firewalled; a rejected request consumes no slot and touches no entry |
| `CallbackLimiter.ServeRequests` | crates/emulebb-core/src/ed2k_net_drivers.rs:231-256 | The one-at-a-time loop accepts exactly the requests that the unpruned history allows |
| `CallbackLimiter.AcceptedApart` | crates/emulebb-core/src/ed2k_net_drivers.rs:231-256 | Accepted requests of one address are at least 180 seconds apart over every sequential run |
| `CallbackLimiter.AcceptedRate` | crates/emulebb-core/src/ed2k_net_drivers.rs:231-256 | Any window of width W holds at most W/180s + 1 accepted requests of one address |
| `DeadSources.KeyIdentity` | crates/emulebb-core/src/ed2k_dead_source_list.rs:84-109 | Two reports denote the same dead source in exactly three ways: same public endpoint, same server-scoped triple, or same user hash of callback-capable serverless sources |
| `DeadSources.DeadSourceList.AddDeadSource` | crates/emulebb-core/src/ed2k_dead_source_list.rs:125-136 | Adds to the history exactly when the source has a key; afterwards every entry was added less than 105 minutes ago |
| `DeadSources.DeadSourceList.IsDeadSource` | crates/emulebb-core/src/ed2k_dead_source_list.rs:141-153 | True exactly when some addition for the same file and key happened less than 45 minutes ago |
| `DeadSources.DeadSourceList.Insert` | crates/emulebb-core/src/ed2k_dead_source_list.rs:155-167 | Appends the addition to the history; the table goes on refining it whether or not it sweeps |
| `DeadSources.SweepExactly` | crates/emulebb-core/src/ed2k_dead_source_list.rs:155-167 | An addition blocks for 45 minutes, and sweeps out exactly what has expired exactly when the last sweep is 60 minutes ago |
| `DeadSources.InsertedRefines` | crates/emulebb-core/src/ed2k_dead_source_list.rs:155-167 | An addition, with or without a sweep, keeps the table in agreement with the unswept history |
| `DeadSources.SweepsAreInvisible` | crates/emulebb-core/src/ed2k_dead_source_list.rs:141-167 | After any run of additions a pair is blocked exactly when some addition of it is younger than 45 minutes, and no entry is 105 minutes old |
| `SourceBatch.CollectOthers` | crates/emulebb-core/src/ed2k_source_batch.rs:54-69 | The other active, non-empty, parseable transfers become candidates, in map order |
| `SourceBatch.OthersMeans` | crates/emulebb-core/src/ed2k_source_batch.rs:200-212 | Candidates besides the current file are exactly the non-empty, parseable transfers in none of the six resting states, with their source counts |
| `SourceBatch.OthersInOrder` | crates/emulebb-core/src/ed2k_source_batch.rs:54-69 | The candidates stand in the order of the transfers, each transfer once |
| `SourceBatch.Fill` | crates/emulebb-core/src/ed2k_source_batch.rs:71-87 | The common placing loop: skips what is over the cap or cooling down, stamps and emits the rest, stops when full |
| `SourceBatch.Placed` | crates/emulebb-core/src/ed2k_source_batch.rs:71-87 | A batch holds no file twice and only due files, at most the limit; if it is not full it holds every due file; the current file is never displaced |
| `SourceBatch.EmittedMeans` | crates/emulebb-core/src/ed2k_source_batch.rs:76-84 | One target per placed file in order, exactly the placed files are stamped, and the transfer table holds just them |
| `SourceBatch.PlaceIsWanted` | crates/emulebb-core/src/ed2k_source_batch.rs:71-87 | The loop places the first askable candidate of each file, in candidate order, up to the limit, judged by the unpruned history |
| `SourceBatch.SourceQueryPacer.ClaimConnectedServerBatch` | crates/emulebb-core/src/ed2k_source_batch.rs:90-150 | Nothing is placed within 300 seconds of the last non-empty frame; otherwise the batch is the first fifteen files, in candidate order, that the unpruned history lets be asked; only placed files are stamped |
| `SourceBatch.SourceQueryPacer.ClaimUdpBatch` | crates/emulebb-core/src/ed2k_source_batch.rs:31-88 | The batch is all files, in candidate order, that the unpruned 30-minute history and the source cap let be asked; only placed files are stamped |
| `SourceBatch.ServerClaimKeeps` | crates/emulebb-core/src/ed2k_source_batch.rs:90-150 | A claim that passes the frame gate keeps stamps exact, frames 300 seconds apart with at most 15 files, and files 15 minutes apart |
| `SourceBatch.ServerRequestRate` | crates/emulebb-core/src/ed2k_source_batch.rs:13-15 | A closed window of W carries at most 15 * (W/300s + 1) file requests to the connected server |
| `SourceBatch.FileAskRate` | crates/emulebb-core/src/ed2k_source_batch.rs:178-198 | One file is asked about at most W/cooldown + 1 times in any window, for the server and the UDP cooldown alike |
| `SourceBatch.SourceQueryPacer.Rates` | crates/emulebb-core/src/ed2k_source_batch.rs:31-150 | After any sequence of claims: the window bounds for frames, for one file on the server (15 minutes) and for one file over UDP (30 minutes) |
| `SourceBatch.KadRefreshPacer.ClaimKadSourceRefresh` | crates/emulebb-core/src/ed2k_source_batch.rs:152-176 | Granted exactly when 60 * min(k, 7) minutes have passed since the k-th grant of the file; a refusal changes nothing |
| `SourceBatch.KadSpan` | crates/emulebb-core/src/ed2k_source_batch.rs:152-176 | n grants on one file span at least 30 n (n-1) minutes for n up to 8, and 1680 + 420 (n-8) minutes beyond |
| `SourceBatch.KadRefreshPacer.Span` | crates/emulebb-core/src/ed2k_source_batch.rs:152-176 | After any sequence of requests the grants of each file are spaced 60 * min(k, 7) minutes and span accordingly |
| `SourceRegistry.DownloadSourceRegistry.AddCandidate` | crates/emulebb-core/src/download_source_registry.rs:77-91 | Stamps the candidate, replacing the one for the same file or appending it |
| `SourceRegistry.DownloadSourceRegistry.PruneStaleCandidates` | crates/emulebb-core/src/download_source_registry.rs:98-123 | Drops what has not been seen for 60 minutes, peers left empty, and the holds of the dropped pairs |
| `SourceRegistry.DownloadSourceRegistry.LeaseBestForFile` | crates/emulebb-core/src/download_source_registry.rs:181-227 | A refusal leaves the leases alone; a grant leases an unleased peer, for its best-scored candidate, and that is for the requested file |
| `SourceRegistry.BestUpTo` | crates/emulebb-core/src/download_source_registry.rs:217-220 | The last of the candidates with the highest (priority, rarity, need) |
| `SourceRegistry.DownloadSourceRegistry.EndpointRetryDelay` | crates/emulebb-core/src/download_source_registry.rs:233-249 | Computes the delay whose exactness `RetryDelayExact` and `RetryDelayOverRun` state |
| `SourceRegistry.DownloadSourceRegistry.MarkNoNeededParts` | crates/emulebb-core/src/download_source_registry.rs:260-278 | Holds the pair and refreshes the candidate when there is one, and otherwise changes nothing |
| `SourceRegistry.DownloadSourceRegistry.TryNnpPurge` | crates/emulebb-core/src/download_source_registry.rs:310-318 | Grants and stamps unless the file was purged less than 40 seconds ago |
| `SourceRegistry.DownloadSourceRegistry.RemoveCandidate` | crates/emulebb-core/src/download_source_registry.rs:384-407 | Removes the candidate, the peer if nothing is left, and the hold only if something was removed |
| `SourceRegistry.DownloadSourceRegistry.ReleaseByPeer` | crates/emulebb-core/src/download_source_registry.rs:409-412 | Releases the lease of that identity only |
| `SourceRegistry.DownloadSourceRegistry.ReleaseByEndpoint` | crates/emulebb-core/src/download_source_registry.rs:414-417 | Releases the leases of every identity at the endpoint |
| `SourceRegistry.DownloadSourceRegistry.ReleaseByFile` | crates/emulebb-core/src/download_source_registry.rs:432-465 | Returns each endpoint as often as leases at it were cleared; what is left behind is stated by `ReleaseFileMeans` |
| `SourceRegistry.DownloadSourceRegistry.ResetAllLeases` | crates/emulebb-core/src/download_source_registry.rs:477-485 | Clears all leases and returns each endpoint as often as it had leases |
| `RegistryOps.KeyIdentity` | crates/emulebb-core/src/download_source_registry.rs:488-505 | Two sources are one peer exactly when address, port, user hash and client id agree |
| `RegistryOps.Limits` | crates/emulebb-core/src/download_source_registry.rs:190-216 | Stale after 3600 seconds; the gates pass exactly from one cooldown after the attempt and 3480 seconds after the hold |
| `RegistryOps.NoDelay` | crates/emulebb-core/src/download_source_registry.rs:233-249 | No delay is reported exactly when the attempt is more than a cooldown ago and the hold has run out |
| `RegistryOps.AddMeans` | crates/emulebb-core/src/download_source_registry.rs:77-91 | The candidate stands in its peer's list, seen now, in the place of the one for its file or at the end; everything else is unchanged |
| `RegistryOps.PruneMeans` | crates/emulebb-core/src/download_source_registry.rs:98-123 | Every list keeps what was seen in the last hour, in order; holds go exactly with a dropped candidate of their pair |
| `RegistryOps.LeaseMeans` | crates/emulebb-core/src/download_source_registry.rs:181-227 | A grant is for a candidate of highest priority, then rarity, then need; it adds one lease and one stamp; only expired stamps and holds are forgotten |
| `RegistryOps.MarkMeans` | crates/emulebb-core/src/download_source_registry.rs:260-278 | Marks exactly when the peer has the file: that candidate is seen now and its pair held from now, nothing else changes |
| `RegistryOps.PurgeMeans` | crates/emulebb-core/src/download_source_registry.rs:310-318 | Granted exactly 40 seconds or more after the file's last purge, and stamped exactly then |
| `RegistryOps.RemoveMeans` | crates/emulebb-core/src/download_source_registry.rs:384-407 | Takes the file off this peer's list in order, the peer if nothing is left, and the pair's hold exactly when something was taken |
| `RegistryOps.ReleasePeerMeans` | crates/emulebb-core/src/download_source_registry.rs:409-412 | Exactly the lease of this address, port, user hash and client id goes |
| `RegistryOps.ReleaseEndpointMeans` | crates/emulebb-core/src/download_source_registry.rs:414-417 | Exactly the leases at this address and port go |
| `RegistryOps.ReleaseFileMeans` | crates/emulebb-core/src/download_source_registry.rs:432-465 | Every list loses exactly the file, in order; a lease stays exactly when its peer had another file; the file's holds and purge go, the attempts stay |
| `RegistryOps.ResetMeans` | crates/emulebb-core/src/download_source_registry.rs:477-485 | No lease is left and nothing else changes |
| `RegistryShape.StepShape` | crates/emulebb-core/src/download_source_registry.rs:77-485 | Every operation keeps each peer's list non-empty, free of repeated files and of the peer's own identity |
| `RegistryShape.StepBacked` | crates/emulebb-core/src/download_source_registry.rs:98-123 | Every operation keeps each hold backed by a registered peer at that endpoint with a candidate for that file |
| `RegistryShape.ReachableSound` | crates/emulebb-core/src/download_source_registry.rs:77-485 | In every reachable state the lists are well kept, every hold is backed and no stamp lies in the future |
| `RegistryShape.RetryDelayExact` | crates/emulebb-core/src/download_source_registry.rs:190-249 | Taking none as zero, the two time gates pass at t exactly when t is at least now plus the reported delay |
| `RegistryShape.RetryDelayOverRun` | crates/emulebb-core/src/download_source_registry.rs:190-249 | The reported delay stays exact over every later run that does not stamp the pair or give or take its hold, whatever else is pruned, removed or released |
| `RegistryShape.LeaseGranted` | crates/emulebb-core/src/download_source_registry.rs:181-227 | A lease is granted exactly when both time gates pass, the peer is unleased and known, and its best candidate is for the file |
| `RegistryCounters.CountsAgree` | crates/emulebb-core/src/download_source_registry.rs:132-159 | candidate_count equals the number of peers plus a4af_candidate_count |
| `RegistryCounters.CountForFileMeans` | crates/emulebb-core/src/download_source_registry.rs:144-150 | The per-file count is the number of peers with a candidate for the file seen in the last hour |
| `RegistryCounters.ExtrasMean` | crates/emulebb-core/src/download_source_registry.rs:152-158 | A peer adds one less than the number of its files to the A4AF count |
| `RegistryCounters.A4afFilesMean` | crates/emulebb-core/src/download_source_registry.rs:165-175 | A file is an A4AF file exactly when some peer has it together with another |
| `RegistryCounters.A4afNeedsTwoFiles` | crates/emulebb-core/src/download_source_registry.rs:152-175 | A positive A4AF count implies at least two A4AF files |
| `RegistryCounters.PruneInvisible` | crates/emulebb-core/src/download_source_registry.rs:98-150 | Pruning changes no per-file live count asked now or later |
| `RegistryRuns.LeaseSafety` | crates/emulebb-core/src/download_source_registry.rs:181-485 | Over every run: a peer is leased exactly while its last lease event is a grant; two grants to one peer have a release of it between them; two grants for one endpoint and file are a cooldown apart, across release_file, reset_leases and requery; a refusal never leaves a lease |
| `RegistryHolds.StepHolding` | crates/emulebb-core/src/download_source_registry.rs:98-123 | Within 58 minutes of marking, a step keeps the hold and the candidate exactly unless it removes the pair, releases the file, or prunes another identity at the endpoint |
| `RegistryHolds.HoldRespected` | crates/emulebb-core/src/download_source_registry.rs:209-294 | After marking, and until one of those three steps, the marked candidate is never pruned and no identity at the endpoint gets a lease for the file for 58 minutes |
| `RegistryHolds.HoldCutShort` | crates/emulebb-core/src/download_source_registry.rs:98-123 | Two identities at one endpoint: pruning the other one drops the shared hold, and the marked one is leased 31 minutes into its 58 |
| `RegistryHolds.PurgesApart` | crates/emulebb-core/src/download_source_registry.rs:310-318 | Two purges granted for one file are 40 seconds apart unless the file was released meanwhile |
| `DownloadRounds.SpawnPending` | crates/emulebb-core/src/direct_download_runtime.rs:295-376 | Moves sources from the front of the queue into the pool, one admission each, until the pool is full, the queue empty or a call is denied; the denied source stays in front |
| `DownloadRounds.FillPool` | crates/emulebb-core/src/direct_download_runtime.rs:106-111 | Filling the pool keeps the round: the spawned sources are the front of the list, the queue is the rest, each spawn was admitted, and it went as far as limit and budget allow |
| `DownloadRounds.JoinNext` | crates/emulebb-core/src/direct_download_runtime.rs:112-124 | Whichever worker ends, the join carries its own source and its own result, and no worker is joined twice |
| `DirectDownloads.ProcessReport` | crates/emulebb-core/src/direct_download_runtime.rs:126-222 | Every file result of a report is classified, also behind the one that completes the primary file; completion is seen exactly when some lookup says so |
| `DirectDownloads.LandAdds` | crates/emulebb-core/src/direct_download_runtime.rs:131-221 | Processing one result adds it to exactly the lists its hash and outcome call for |
| `DirectDownloads.EachResultOnce` | crates/emulebb-core/src/direct_download_runtime.rs:131-221 | Exactly one place calls for each single result, as an alternate or by its outcome, and the places hold as many entries as there were results |
| `DirectDownloads.LandsInOrder` | crates/emulebb-core/src/direct_download_runtime.rs:131-221 | A result that a list calls for stands in it at the place its arrival gives it |
| `DirectDownloads.LookupsMean` | crates/emulebb-core/src/direct_download_runtime.rs:143-160 | A report looks the manifest up once for each completion of the primary file |
| `DirectDownloads.LastErrorMeans` | crates/emulebb-core/src/direct_download_runtime.rs:127-232 | The last error is the latest that a join carried, or the earlier one if none did |
| `DownloadRounds.EveryWorker` | crates/emulebb-core/src/direct_download_runtime.rs:87-257 | Every spawned source is in flight, or was joined with what its own worker came back with |
| `DownloadRounds.DrainedIsDry` | crates/emulebb-core/src/direct_download_runtime.rs:87-257 | A round not cut short gave every source a worker, or the last word of the budget in that round was a denial |
| `DownloadRounds.EndsOneWay` | crates/emulebb-core/src/direct_download_runtime.rs:112-256 | What happened in a round decides how it ended: by a panic, an unreadable manifest, a completed file, or drained |
| `DownloadRounds.RunRound` | crates/emulebb-core/src/direct_download_runtime.rs:87-257 | The round is the one the surroundings call for: the pool refilled after each join by the budget's answers, every join a worker's own result, cut short exactly by a panic, a failed lookup or a seen completion; lists, last error, retry flag and lookups are functions of the joins |
| `DirectDownloads.TallyLogMeans` | crates/emulebb-core/src/direct_download_runtime.rs:87-257 | The lists after a round are those the results call for, whatever order the workers ended in |
| `DownloadRounds.RunDirectDownloads` | crates/emulebb-core/src/direct_download_runtime.rs:30-293 | The rounds and their end are those the surroundings call for; the summary carries the lists of all rounds, the acceptances of the last and the latest error; a further round follows exactly when one is due; 1 to 121 rounds, 1 unless all sources are loopback |
| `DownloadRounds.ConclusiveMeans` | crates/emulebb-core/src/direct_download_runtime.rs:270-276 | A round settles the run exactly when the file is complete, someone accepted in it, or someone ever had no needed parts or not the file |
| `DownloadRounds.DeadlineMeans` | crates/emulebb-core/src/direct_download_runtime.rs:64-69 | Retries are allowed for 360 seconds exactly when there are sources and all are in 127.0.0.0/8 |
| `DownloadRounds.FinishedMeans` | crates/emulebb-core/src/direct_download_runtime.rs:230-270 | A finished run made only readable lookups, one per reported completion and one per drained round, and reports completion exactly when one of them saw it |
| `DownloadRounds.IncompleteMeans` | crates/emulebb-core/src/direct_download_runtime.rs:259-270 | A run that finishes without completion was told so by its last lookup and left no worker in flight |
| `DownloadRounds.LastRoundDry` | crates/emulebb-core/src/direct_download_runtime.rs:87-257 | If the last round drained, every source had a worker in it or the budget's last word was a denial |
| `DownloadRounds.AbortedMeans` | crates/emulebb-core/src/direct_download_runtime.rs:112-124 | An aborted run saw its last worker panic or a manifest lookup fail |
| `Categories.RemoveShifted` | crates/emulebb-core/src/category_runtime.rs:99-103 | Removing the deleted and the shifted numbers leaves exactly the categories below |
| `Categories.InsertShifted` | crates/emulebb-core/src/category_runtime.rs:104-106 | Reinserting the shifted categories gives the table in which every survivor has its new number |
| `Categories.RenumberOrder` | crates/emulebb-core/src/category_runtime.rs:175-187 | Renumbering the survivors is injective and keeps their order |
| `Categories.MaxBelow` | crates/emulebb-core/src/category_runtime.rs:107-113 | The largest number in use, zero for none |
| `Categories.CategoryState.CreateCategory` | crates/emulebb-core/src/category_runtime.rs:28-49 | A valid request advances the counter even if its write fails; the table gains the given contents under the old counter exactly when it is valid and written |
| `Categories.CategoryState.UpdateCategory` | crates/emulebb-core/src/category_runtime.rs:51-67 | Puts the applied contents under the number exactly when it is known, not the default, valid and written; otherwise changes nothing, and misses an unknown number |
| `Categories.CategoryState.PlanDeletion` | crates/emulebb-core/src/category_runtime.rs:92-131 | The plan is the renumbered table, its next number and the shifted snapshot; nothing changes |
| `CategoryRuns.PlanMeans` | crates/emulebb-core/src/category_runtime.rs:92-131 | A plan names the deleted category and hands over exactly the higher ones, ascending, each with its contents and one number less |
| `CategoryRuns.NextAfterMeans` | crates/emulebb-core/src/category_runtime.rs:107-113 | The next number is one above the largest in use, saturated at 4294967295 |
| `Categories.CategoryState.CommitDeletion` | crates/emulebb-core/src/category_runtime.rs:135-165 | Installs the plan and renumbers every transfer |
| `Categories.CategoryState.DeleteCategory` | crates/emulebb-core/src/category_runtime.rs:82-166 | Commits exactly when the write succeeds; every refusal and failure changes nothing |
| `CategoryRuns.CommitSound` | crates/emulebb-core/src/category_runtime.rs:135-165 | Key equals id, the next number exceeds every number and every transfer refers to an existing category after a deletion |
| `CategoryRuns.DeletionKeepsMeaning` | crates/emulebb-core/src/category_runtime.rs:144-165 | Each transfer refers to the same category contents as before, or to the default with an empty name if its own was deleted |
| `CategoryRuns.CreateFreshExactly` | crates/emulebb-core/src/category_runtime.rs:44-48 | A new category takes an unused number exactly when 4294967295 is unused |
| `CategoryRuns.CreateCanOverwrite` | crates/emulebb-core/src/category_runtime.rs:44-48 | A store in which creation replaces category 4294967295 |
| `CategoryRuns.CreateDense` | crates/emulebb-core/src/category_runtime.rs:28-49 | Numbers stay 0 to n-1 exactly when the request is invalid or its write succeeds |
| `CategoryRuns.CommitDense` | crates/emulebb-core/src/category_runtime.rs:82-166 | Deletion keeps the numbers 0 to n-1 |
| `CategoryRuns.RunDense` | crates/emulebb-core/src/category_api.rs:12-63 | From a dense store, every gated run whose valid creations are all written stays dense, and every deletion passes the store's check |
| `CategoryRuns.DeletableExactly` | crates/emulebb-metadata/src/profile_store.rs:218-237 | The store's contiguity check accepts a deletion exactly when no number above the deleted one is unused |
| `CategoryRuns.FailedCreateBlocksDeletion` | crates/emulebb-metadata/src/profile_store.rs:228-237 | After one failed and one successful creation, category 1 can no longer be deleted |
| `CategoryRuns.EndRefines` | crates/emulebb-core/src/category_api.rs:54-63 | Ending a deletion keeps the refinement; a failed write changes nothing but the pending deletion |
| `CategoryRuns.RunRefines` | crates/emulebb-core/src/category_api.rs:12-63 | Over every gated run with failing writes the numbered store refines one that never renumbers: same categories in the same order, each transfer refers to what it was given or to the default; the plan made before persistence is still current at commit |
| `CategoryRuns.LoadedSound` | crates/emulebb-core/src/profile_state.rs:31-40 | The counter computed at start-up exceeds every loaded number |
| `CategoryRuns.StartRefines` | crates/emulebb-core/src/profile_state.rs:31-40 | Any sound store can start a refining run, taking its present numbers as tokens |
| `CategoryRuns.AssignRefines` | crates/emulebb-core/src/transfer_control_api.rs:77-93 | Assigning a category under the gate keeps the refinement |
| `DnsNames.ReadDnsName` | crates/emulebb-core/src/hostname_lookup.rs:408-449 | On every byte string the loop ends and stays in bounds; its result is the rendered decoding; its offset lies behind the terminator or the first pointer, and after a failure behind the first pointer followed or where it was |
| `DnsNames.ReadAdvances` | crates/emulebb-core/src/hostname_lookup.rs:408-449 | A successful read strictly advances the offset, to at most the message length |
| `DnsNames.DecodeIsGrammar` | crates/emulebb-core/src/hostname_lookup.rs:408-449 | The decoder accepts exactly the name grammar of section 4.1.4 of RFC 1035, read with at most sixteen pointers and any length octet below 192 |
| `DnsNames.ReadIsGrammar` | crates/emulebb-core/src/hostname_lookup.rs:408-449 | From the start of a name, sixteen pointers may be followed |
| `DnsNames.ReadEnds` | crates/emulebb-core/src/hostname_lookup.rs:408-449 | The octet at which a read stops decides its end: done, or one of the four errors, each in both directions |
| `DnsNames.TrimMeans` | crates/emulebb-core/src/hostname_lookup.rs:448 | The dots at the end are taken off, all of them and nothing else |
| `DnsNames.RenderMeans` | crates/emulebb-core/src/hostname_lookup.rs:445-448 | Labels are decoded one by one and joined by dots |
| `DnsNames.LegalExactly` | crates/emulebb-core/src/hostname_lookup.rs:432-447 | A decoded name obeys the 63-octet label limit exactly when no length octet met on the way lies in 64 to 191 |
| `DnsNames.LongLabelIsRead` | crates/emulebb-core/src/hostname_lookup.rs:432-447 | A message with a 64-octet label is read all the same |
| `DnsNames.EncodeDnsName` | crates/emulebb-core/src/hostname_lookup.rs:361-367 | Appends the encoding of the name to the buffer |
| `DnsNames.RoundTrip` | crates/emulebb-core/src/hostname_lookup.rs:361-449 | Wherever the encoding is placed, decoding returns the name and ends just behind it exactly when every label has 1 to 191 bytes |
| `DnsNames.LongNameMisread` | crates/emulebb-core/src/hostname_lookup.rs:361-449 | A name of one label of 192 bytes or more is not read back with the right end |
| `DnsNames.JoinSplit` | crates/emulebb-core/src/hostname_lookup.rs:361-449 | Joining the split labels gives the name back |
| `DnsResponses.ParsePtrResponse` | crates/emulebb-core/src/hostname_lookup.rs:369-401 | The two loops compute the fold of questions and records, errors included, in bounds on every byte string |
| `DnsResponses.ResponseMeans` | crates/emulebb-core/src/hostname_lookup.rs:369-401 | Fewer than 12 octets is an error; otherwise the header's counts say how many questions and records are walked, and the first failure is the result |
| `DnsResponses.QuestionMeans` | crates/emulebb-core/src/hostname_lookup.rs:377-381 | A question is its name and four octets, or fails with its name or cut off |
| `DnsResponses.RecordMeans` | crates/emulebb-core/src/hostname_lookup.rs:384-398 | A record fails with its owner, its fixed octets, its data or its name, in that order; it answers exactly when its type is 12 |
| `DnsResponses.SkipFails` | crates/emulebb-core/src/hostname_lookup.rs:376-382 | The first question that fails fails the response |
| `DnsResponses.FindFails` | crates/emulebb-core/src/hostname_lookup.rs:383-399 | The first record that fails, with none of type 12 before it, fails the response |
| `DnsResponses.PtrIsTwelve` | crates/emulebb-core/src/hostname_lookup.rs:394 | On the wire a PTR record is one of type 12 |
| `DnsResponses.PtrAnswerFound` | crates/emulebb-core/src/hostname_lookup.rs:369-401 | On a message well formed by the grammar, compressed or not, the first PTR answer's name is returned and questions and other records are skipped; none if there is no PTR answer |
| `DnsResponses.BuildPtrQuery` | crates/emulebb-core/src/hostname_lookup.rs:341-359 | A standard query with recursion desired and one question, whose name decodes to the octets in reverse below in-addr.arpa, of type 12 and class 1, and nothing behind it |
| `DnsResponses.QueryReadsBack` | crates/emulebb-core/src/hostname_lookup.rs:341-359 | Decoding the question of a query gives the labels it was built from and ends four octets before the end |
| `DnsResponses.QueryReversed` | crates/emulebb-core/src/hostname_lookup.rs:343-347 | The labels read as the octets of the address from last to first, then in-addr and arpa |
| `DnsResponses.QueryNamesAddress` | crates/emulebb-core/src/hostname_lookup.rs:343-347 | Different addresses ask for different names |
| `SseFrames.SeparatorIsFirst` | webui/src/api.ts:1125-1135 | The separator is the first blank line of either kind, and there is none exactly when the text has no blank line |
| `SseFrames.SeparatorIsStable` | webui/src/api.ts:1125-1135 | More text never moves a separator already found |
| `SseFrames.DrainSseFrames` | webui/src/api.ts:1110-1123 | The loop delivers the frames in order and returns the rest |
| `SseFrames.DrainIsLossless` | webui/src/api.ts:1110-1123 | Frames, their separators and the rest concatenate to the input |
| `SseFrames.DrainIsClean` | webui/src/api.ts:1110-1123 | Every frame ends at the first blank line of its own text and none is left in the rest |
| `SseFrames.ChunkIndependence` | webui/src/api.ts:1083-1123 | For every text and every way of cutting it, draining chunk by chunk gives the frames and rest of the whole |
| `SseFrames.ReadTransferEventStream` | webui/src/api.ts:1083-1108 | The reader delivers the frames of everything received, with an unterminated last frame at the end of the stream, or of what came before the abort |
| `DiskGuard.ReserveRecords` | crates/emulebb-core/src/disk_guard.rs:35-49 | A reservation adds its bytes, clamped, and its floor to its own volume and to no other |
| `DiskGuard.ManifestNeedMeans` | crates/emulebb-core/src/disk_guard.rs:189-224 | The transfer root's volume is asked for the missing bytes, that of the category's non-blank path, else of the incoming directory, for a full copy, with their floors; nothing when completed |
| `DiskGuard.TotalMeans` | crates/emulebb-core/src/disk_guard.rs:170-187 | Bytes add up, the largest floor counts, and with no manifests only the profile's volume is asked |
| `DiskGuard.ManifestRecords` | crates/emulebb-core/src/disk_guard.rs:189-224 | On every volume the table grows by what the manifest needs there, which `ManifestNeedMeans` spells out |
| `DiskGuard.ProtectedVolumes` | crates/emulebb-core/src/disk_guard.rs:170-187 | The table holds for every volume the clamped sum of needs and the largest floor, as `TotalMeans` spells out, and exactly the volumes asked |
| `DiskGuard.OrderIrrelevant` | crates/emulebb-core/src/disk_guard.rs:170-187 | What a volume is asked for depends only on the multiset of manifests |
| `DiskGuard.TablesAgree` | crates/emulebb-core/src/disk_guard.rs:170-187 | Scans in different orders build tables with the same volumes, reservations and floors |
| `DiskGuard.DecisionExact` | crates/emulebb-core/src/disk_guard.rs:51-53 | The saturating decision is the unbounded one exactly when free space is below 2^64-1 or the need is at most that |
| `DiskGuard.PauseExact` | crates/emulebb-core/src/disk_guard.rs:133-168 | The guard pauses exactly when some volume's free space is unknown or below its unbounded need, leaving aside volumes that report 2^64-1 free bytes and need more; it never pauses without a shortage, and pauses on every shortage exactly unless all short volumes are of that kind |
| `DiskGuard.PauseCanMiss` | crates/emulebb-core/src/disk_guard.rs:51-53 | A file of 2^64-1 bytes on a volume that reports 2^64-1 free bytes: short, and not paused |
| `DiskGuard.MoreNeverHelps` | crates/emulebb-core/src/disk_guard.rs:133-224 | One more manifest never turns pausing into not pausing |
| `Preflight.PreflightDownloads` | crates/emulebb-core/src/download_duplicate.rs:72-174 | The loop collects the verdicts in request order; a failed lookup fails the whole, any conflict rejects it |
| `Preflight.PassesExactly` | crates/emulebb-core/src/download_duplicate.rs:72-174 | Passes exactly when the hashes are distinct and each request has readable evidence, matching sizes, no active transfer and, under Reject, no local or completed copy |
| `Preflight.PoliciesAgree` | crates/emulebb-core/src/download_duplicate.rs:72-174 | The conflicts under Redownload are those under Reject that are not overridable, in the same order |
| `Preflight.RetrySucceeds` | webui/src/views.tsx:96-111 | After a rejection the WebUI's retry passes exactly when every reported conflict was overridable |
| `Preflight.FlagMeansEvidence` | crates/emulebb-core/src/download_duplicate.rs:63-68 | On success a request is flagged for redownload exactly when overridable evidence exists |
| `Preflight.MismatchMeans` | crates/emulebb-core/src/download_duplicate.rs:177-198 | No identity mismatch exactly when every recorded size matches |
| `Preflight.ConflictsExact` | crates/emulebb-core/src/download_duplicate.rs:72-220 | On a readable list exactly the conflicts that some request warrants are reported, every field included: a repetition against the latest earlier request of its hash, else the first contradicting size, else the active transfer and, under Reject, the local and the completed copy |
| `Preflight.ReportedInOrder` | crates/emulebb-core/src/download_duplicate.rs:72-174 | Requests are reported one after the other, each with its active transfer before its local files before its history |
| `Preflight.RepetitionReported` | crates/emulebb-core/src/download_duplicate.rs:81-91 | A repetition always adds one report, against the latest earlier request of its hash |
| `Preflight.FirstReportedExactly` | crates/emulebb-core/src/download_duplicate.rs:81-91 | A repetition is reported against the first request of its hash exactly when no other request of the hash lies between them or the last of those has the name and size of the first |
| `Preflight.ThirdAgainstSecond` | crates/emulebb-core/src/download_duplicate.rs:81-91 | Three requests of one file, the second under another name or size: the third is reported against the second and not against the first |

## Left out

- Sockets, DNS transport, STUN, NAT, timers and task abortion: I/O outside these files.
- `emit`, diagnostics and tracing: output only.
- SQLite persistence and the transfer runtime: their results are parameters, except the contiguity check of the deletion transaction.
- JSON parsing and field interpretation of event frames: frames are opaque strings. The stream decoder is a parameter, so splitting of multi-byte characters is not modelled.
- `significant_keyword_words`, `merge_download_sources`, `swap_targets_for_peer`, `sole_candidate_source_by_endpoint`, `nnp_source_count`: not modelled; they would add only local members.
- Category deletion and start-up hydration: transfers loaded from manifests outside the mutation gate are not modelled; a run starts from a sound store and assigns categories under the gate. `Assign` also stands for adding a transfer with a category, and the ungated `Drop` for removing one.
- Category names shown by transfers: a rename does not refresh the name stored in a transfer; the model keeps this and states names only after a deletion.
- Share-root refreshes after category changes: not modelled.
- `ReserveOnVolume`: which path represents a volume depends on the order of reservations; free space is modelled per volume, so the choice of path has no effect in the model.
- `PauseExact`: a failed manifest listing, which disables the guard, and the marking of downloads as insufficient are not modelled.
- `ServeRequests`: models direct-callback requests only, not the other events of the loop, and not the session that is started after acceptance.
- `RunDirectDownloads`: which worker ends next is arbitrary; cancelled workers leave no trace, as their results are discarded.
- `LeaseSafety`: one cooldown for the whole run, as the callers pass a constant.
