# Release and CI tooling, modelled and proved

A Dafny model of the scripts that decide what is released, publish it, certify it and keep the records of CI:
their algorithms and the step-by-step protocols that must survive crashes, retries and ambiguous answers.
`dafny verify dfyconfig.toml` checks the whole project.

## Layout

| area | files |
|---|---|
| test sharding and its approximation bound | `Sharding`, `ShardingBound`, `ShardingTight` |
| stable release intents: withdrawals, lineages, pins | `ReleaseIntent`, `ReleaseHistory` |
| which stable request waits | `PendingRequests` |
| which commit is released, and the gate | `Selection` |
| update manifests: reader, printer, round trip, merge | `UpdateManifest`, `ManifestText`, `ManifestRoundTrip`, `ManifestMerge` |
| precedence of version tokens | `ReleaseVersions` |
| publication of a candidate | `Publication`, `PublicationRuns`, `Publisher` |
| certification suite | `SuiteRecords`, `SuiteCoverage`, `SuiteRunner` |
| bounded worker pool | `WorkerPool` |
| union of intervals | `Intervals` |
| identity of a directory tree | `TreeHash` |
| migration of the upstream ledger | `Migration` |
| flake ledger: its texts, its runs, and how the texts carry the runs | `FlakeMarkers`, `FlakeBodies`, `FlakeCounts`, `FlakeComments`, `FlakeLedger`, `FlakePages` |
| shared | `Wrappers`, `Sequences`, `Sorting`, `JsText`, `Decimals` |

## How the model is built

Code that computes a value is a function. Code that changes things step by step is a method or a class, proved
against a function of its inputs or of the old state, and the theorems are about that function or about the states
the steps can reach. Outside systems are state with atomic steps: GitHub's releases and issues, the certification
directory, the files of a repository. A call may succeed, fail without effect, or take effect and still report a
failure; a process may die between any two durable steps, which is a budget of steps or an outcome given for every
call, universally quantified.

## Where the code does less than its documentation promises

In each case the code is modelled as it is, an input shows the difference, and the exact condition is proved.

- A stable request is pinned to the first commit whose *stable intent* carries its ID, which is the first snapshot that
  carries it exactly when that snapshot is no withdrawal (`ReleaseHistory.PinnedToFirstCarrierIff`,
  `ReleaseHistory.PinAfterWithdrawnCarrier`).
- Merging manifests is not commutative or associative when an extra is named like a property that every JavaScript
  object inherits, such as `constructor`, because the merge looks the key up on a plain object
  (`ManifestMerge.MergeCommutes`, `ManifestMerge.MergeAssociates`); it is idempotent only without repeated URLs.
- Printing and reading gives a manifest back only if it is well formed (`ManifestRoundTrip.ParseUndoesPrint`): for
  example a version that looks like a number, a field with outer spaces or outer quotes, or a number printed with an
  exponent does not survive.
- The hash of an accepted tree is the same for every order in which its directories are listed exactly when no
  directory of it holds two names that compare equal under the sort, as the composed and decomposed forms of one
  letter do
  (`TreeHash.ListingOrderIrrelevantIff`, `TreeHash.EqualNamesKeepListingOrder`).
- An interrupted certification attempt can be recovered exactly up to attempt 999, while the clock is not behind the
  attempt's reservation, and with at most 10000 results in the suite (`SuiteRunner.RecoverInterrupted`,
  `SuiteRunner.ResumableIff`, `SuiteRunner.ClockSetBack`, `SuiteRunner.RunSuite`).
- A migration that died after removing the old ledger is refused, not finished, when main still holds a different one
  (`Migration.RerunReachesTheEnd`).
- The count line of a flake issue can exceed its comments when the test's name holds a line separator followed by a
  count line of its own (`FlakeCounts.CountOfBody`, `FlakeCounts.SubjectCarriesCount`).
- A flake keeps one issue, and an occurrence is posted once, exactly when the thousand newest issues that a run lists
  lead to every issue of the flakes it records that it would need (`FlakeLedger.UpdateLedger`): an issue that has
  dropped out of the listing gets a double, and the markers on it are posted again (`FlakeLedger.RecordAgain`,
  `FlakeLedger.CrowdedHides`).

## Model

| member | source | states |
|---|---|---|
| Sharding.AllocateShards | scripts/lib/ci-test-sharding.ts:23-40 | The loop over the sorted files computes exactly `Allocation`, with the errors for an invalid count, a duplicate file and a bad duration. |
| Sharding.AllocateSorted | scripts/lib/ci-test-sharding.ts:33-39 | Placing sorted files one by one, each in the lightest shard so far, is the greedy allocation. |
| Sharding.FindLightest | scripts/lib/ci-test-sharding.ts:35 | The fold returns the first shard of least load. |
| Sharding.LightestIsMinimal | scripts/lib/ci-test-sharding.ts:35 | No shard is lighter than the chosen one. |
| ShardingBound.AllocationPartitions | scripts/lib/ci-test-sharding.ts:27-39 | A successful allocation has exactly `count` shards, and every file is in exactly one of them. |
| ShardingBound.LoadsAreSums | scripts/lib/ci-test-sharding.ts:34-38 | The load kept for a shard is always the sum of the durations of its files. |
| ShardingBound.LongFilesFit | scripts/lib/ci-test-sharding.ts:34-38 | A file longer than a third of the other split's maximum still fits into some shard without exceeding that maximum. |
| ShardingBound.LightestIsBelowMean | scripts/lib/ci-test-sharding.ts:35 | The lightest load and the next file together are at most the mean of any split. |
| ShardingBound.GrahamBound | scripts/lib/ci-test-sharding.ts:22-40 | For every file list, duration table and count, the heaviest shard is at most 4/3 - 1/(3 count) times the heaviest shard of any other split of the same files (Graham 1969). |
| ShardingTight.BoundIsTight | scripts/lib/ci-test-sharding.ts:22-40 | For every number of shards some files and durations are allocated with exactly that ratio, 4m-1 against 3m, so the bound cannot be improved for any count. |
| ShardingBound.InputOrderIrrelevant | scripts/lib/ci-test-sharding.ts:22-40 | Every permutation of the files and of the duration table gives the identical shards, or the identical error. |
| Sorting.SortedUnique | scripts/lib/ci-test-sharding.ts:3 | Under a total order there is one sorted arrangement, so the sort cannot depend on host or input order. |
| ReleaseIntent.ResolveStableHistory | scripts/release/release-intent.ts:46-122 | The three loops compute `Resolve` of the parsed snapshots. |
| ReleaseIntent.EffectiveWithdrawals | scripts/release/release-intent.ts:57-82 | The backward pass: which withdrawals take effect, which targets they reach, and which commits withdraw something unknown. |
| ReleaseIntent.CloseLineages | scripts/release/release-intent.ts:83-102 | The fixpoint loop ends with the least set that contains the effective withdrawals and is closed under lineages. |
| ReleaseIntent.PinRequests | scripts/release/release-intent.ts:103-121 | The forward pass computes the scan that the other theorems are about. |
| ReleaseIntent.LineageIsClosure | scripts/release/release-intent.ts:86-102 | The sweep's result contains the start, is closed under "one target withdrawn, all withdrawn", and is within every other such set. |
| ReleaseIntent.ClosureUnique | scripts/release/release-intent.ts:86-102 | There is only one such least set, whatever order the sweep uses. |
| ReleaseHistory.ResolveMeaning | scripts/release/release-intent.ts:103-121 | Resolution succeeds exactly when every live snapshot is acceptable, and returns the first live stable intent of each ID, in order. |
| ReleaseHistory.ScanMeaning | scripts/release/release-intent.ts:105-120 | The forward scan, up to any snapshot, in those terms. |
| ReleaseHistory.ReturnedIsUntouched | scripts/release/release-intent.ts:86-119 | No returned request has its ID, commit or superseded request withdrawn. |
| ReleaseHistory.PinnedToFirstIntent | scripts/release/release-intent.ts:112-119 | A returned request is pinned to the first commit of the whole history whose stable intent carries its ID. |
| ReleaseHistory.PinnedToFirstCarrierIff | scripts/release/release-intent.ts:112-119 | Some snapshot is the first to carry the ID of a returned request, and the request is pinned to it exactly when that snapshot is a stable intent and not a withdrawal. |
| ReleaseHistory.PinAfterWithdrawnCarrier | scripts/release/release-intent.ts:60-81 | A history in which it is not: the ID was first carried by a withdrawal that was itself withdrawn. |
| ReleaseHistory.RevertNeverRepins | scripts/release/release-intent.ts:45-122 | Appending a fresh commit that repeats any earlier stable intent leaves the outcome, requests or failure, unchanged. |
| ReleaseHistory.RevertedTextNeverRepins | scripts/release/release-intent.ts:45-122 | The same for the snapshots' texts. |
| ReleaseHistory.RepeatWithdraws | scripts/release/release-intent.ts:86-102 | Such a commit adds at most its own hash to what is withdrawn. |
| ReleaseHistory.StableOnlyGrowsWithdrawn | scripts/release/release-intent.ts:86-102 | Appending stable intents never shrinks the withdrawn set. |
| ReleaseHistory.WithdrawnPinNeverRevives | scripts/release/release-intent.ts:86 | No later stable intent brings a withdrawn pin back. |
| PendingRequests.PendingStableRequests | scripts/release/release-candidate.ts:243-273 | The loop over the requests computes `Pending`, with each of its five errors. |
| PendingRequests.StateMeaning | scripts/release/release-candidate.ts:247-271 | Which requests wait after any number of steps, and exactly when a step fails. |
| PendingRequests.PendingIsOneOfThem | scripts/release/release-candidate.ts:243-273 | It succeeds exactly when all requests are in order, and then returns at most one of them. |
| PendingRequests.EveryRequestSettled | scripts/release/release-candidate.ts:243-273 | On success every request is in exactly one class: superseded by exactly one later request, published at its own commit, or the pending one. |
| PendingRequests.RecoveryMatches | scripts/release/release-candidate.ts:254-259 | A recovery supersedes an earlier request of the same version. |
| PendingRequests.RecoveriesDiffer | scripts/release/release-candidate.ts:254-259 | No two recoveries supersede the same request. |
| UpdateManifest.ParseDesktopUpdateManifest | scripts/desktop-update-manifest.ts:69-189 | The loop over the lines computes `ParseLines`, with the line numbers of its errors. |
| UpdateManifest.ReadLines | scripts/desktop-update-manifest.ts:82-168 | The loop, for any step function: the fold over the lines, stopping at the first failure. |
| UpdateManifest.SerializeMacUpdateManifest | scripts/merge-mac-update-manifests.ts:78-98 | The printer pushes exactly the lines of `ManifestLines` and joins them. |
| UpdateManifest.PrintFiles | scripts/merge-mac-update-manifests.ts:81-85 | Three lines a file, in file order. |
| UpdateManifest.PrintExtras | scripts/merge-mac-update-manifests.ts:87-93 | One line an extra, in ascending order of the keys. |
| ManifestText.UndoubleUndoesDouble | scripts/merge-mac-update-manifests.ts:67-69 | Un-doubling quotes inverts doubling them, for every text. |
| ManifestText.NumberReadsBack | scripts/desktop-update-manifest.ts:63-65 | A printed number reads back as itself exactly when it is printed without an exponent. |
| ManifestText.ScalarReadsBack | scripts/merge-mac-update-manifests.ts:71-76 | A printed scalar reads back as itself exactly unless it is a number printed with an exponent; it stays on one line. |
| ManifestText.SplitUndoesJoin | scripts/desktop-update-manifest.ts:74 | Splitting at line ends undoes joining lines that contain none. |
| ManifestRoundTrip.FileBlock | scripts/desktop-update-manifest.ts:87-115 | The three lines of a file settle the entry before it and leave their own pending; which file fields survive. |
| ManifestRoundTrip.FileBlocks | scripts/desktop-update-manifest.ts:82-115 | The pending-entry machine never drops, merges or splits a record, for any number of files. |
| ManifestRoundTrip.ManifestRun | scripts/desktop-update-manifest.ts:82-168 | The reader's state after all printed lines of a manifest, and exactly when it gets there. |
| ManifestRoundTrip.PrintedReadsAs | scripts/merge-mac-update-manifests.ts:12-16 | What printing and reading a manifest returns, well formed or not. |
| ManifestRoundTrip.ReaderProduces | scripts/desktop-update-manifest.ts:69-189 | What every manifest that the reader returns satisfies, for every text. |
| ManifestRoundTrip.ParseUndoesPrint | scripts/merge-mac-update-manifests.ts:12-98 | For every manifest: printing and reading gives it back, files in order, exactly when it is well formed. |
| ManifestMerge.MergeMacUpdateManifests | scripts/merge-mac-update-manifests.ts:37-65 | The method computes `Merge`. |
| ManifestMerge.CollectFiles | scripts/merge-mac-update-manifests.ts:47-56 | The loop over both file lists computes `MergeFiles`, stopping at the first conflict. |
| ManifestMerge.MergeExtras | scripts/merge-mac-update-manifests.ts:18-35 | Whatever order the entries are stored in, the union is returned, or an error exactly when an entry does not fit. |
| ManifestMerge.FilesMerge | scripts/merge-mac-update-manifests.ts:48-56 | The file loop succeeds exactly when files with the same URL agree in digest and size. |
| ManifestMerge.MergeMeaning | scripts/merge-mac-update-manifests.ts:37-65 | Exactly when two manifests merge, and the whole result. |
| ManifestMerge.MergeIsUnion | scripts/merge-mac-update-manifests.ts:37-65 | The result is the union: one record per URL with the content both sides know, all extras, the later date. |
| ManifestMerge.MergeCommutes | scripts/merge-mac-update-manifests.ts:37-65 | Both orders give the same outcome up to file order exactly when neither an inherited object name on one side nor an uncompared block map size tells them apart. |
| ManifestMerge.ReadManifestsCommute | scripts/merge-mac-update-manifests.ts:112-114 | Manifests as the macOS reader returns them, without inherited names, merge the same in both orders. |
| ManifestMerge.ReadHasNoBlockMaps | scripts/merge-mac-update-manifests.ts:12-16 | The macOS reader never returns a block map size. |
| ManifestMerge.InheritedNameBreaksOrder | scripts/merge-mac-update-manifests.ts:24-30 | An extra named `constructor` on one side merges in one order and fails in the other. |
| ManifestMerge.MergeIsIdempotent | scripts/merge-mac-update-manifests.ts:37-65 | Merging a manifest with itself gives it back exactly when no URL occurs twice. |
| ManifestMerge.MergeAssociates | scripts/merge-mac-update-manifests.ts:37-65 | Both bracketings of three manifests succeed together, with the same manifest and file order, except in exactly one case of inherited names. |
| ManifestMerge.MergedReadsBack | scripts/merge-mac-update-manifests.ts:112-115 | Merging keeps manifests well formed, so the merged manifest survives printing and reading. |
| ReleaseVersions.CompareReleases | packages/shared/src/cliRelease.ts:37-56 | What is compared, in which order, and which of the two refusals a malformed token meets. |
| ReleaseVersions.CompareLists | packages/shared/src/cliRelease.ts:135-147 | The loop over prerelease identifiers returns at the first difference; a list that ends first comes first. |
| ReleaseVersions.TokensTotallyOrdered | packages/shared/src/cliRelease.ts:123-149 | Exactly the canonical tokens compare, whatever their prerelease identifiers: antisymmetric, transitive, and zero for equal tokens only. |
| ReleaseVersions.VersionsCompareAsText | packages/shared/src/cliRelease.ts:123-149 | For stable versions and numbered betas the comparison of tokens is the comparison of their numbers, which the publication model uses. |
| ReleaseVersions.TextIsCanonical | packages/shared/src/cliRelease.ts:37-56 | The token of such a version is accepted exactly when it has at most 100 characters. |
| Publication.MissingUploads | scripts/release/release-publication.ts:37-55 | Succeeds exactly when every asset is one of the verified files, complete and once; returns those not there. |
| Publication.NothingMissing | scripts/release/release-publication.ts:37-55 | Nothing is missing exactly when the assets are the verified files by name, size and digest. |
| PublicationRuns.RunsStaySound | scripts/release/publish-candidate.ts:168-322 | In every sequence of publication steps, of changing candidates and interrupted anywhere, every release, draft or public, sits on a reserved tag, no tag has two, and asset names and IDs do not repeat. |
| PublicationRuns.TagsNeverMove | scripts/release/publish-candidate.ts:247-261 | A reserved tag never moves and never disappears. |
| PublicationRuns.UploadedStays | scripts/release/publish-candidate.ts:202-233 | A fully uploaded asset is never deleted or replaced. |
| PublicationRuns.PublicIsFrozen | scripts/release/publish-candidate.ts:236-240 | A public release never changes. |
| PublicationRuns.PromotedExactly | scripts/release/publish-candidate.ts:296-321 | Whatever became public was promoted by one step, with exactly the verified assets and a tag that names its candidate's commit. |
| PublicationRuns.PromotionsIncrease | scripts/release/publish-candidate.ts:314-321 | Promoted versions strictly increase. |
| PublicationRuns.RunsStayOwn | scripts/release/publish-candidate.ts:168-322 | A candidate's own steps keep the remote in a state it can resume from. |
| Publisher.GitHub.PostTag | scripts/release/publish-candidate.ts:250-261 | Reserving the tag, when the call succeeds, fails, or takes effect unseen. |
| Publisher.GitHub.PostDraft | scripts/release/release-remote.ts:41-62 | Creating the draft, in the same three ways. |
| Publisher.GitHub.DeleteAsset | scripts/release/publish-candidate.ts:229-230 | Deleting a partial upload, in the same three ways. |
| Publisher.GitHub.UploadAsset | scripts/release/release-remote.ts:83-107 | Uploading a file; a failed upload may leave a starter asset behind. |
| Publisher.GitHub.PatchPublic | scripts/release/release-remote.ts:108-121 | Crossing the public boundary. |
| Publisher.GitHub.FindRelease | scripts/release/release-remote.ts:20-24 | The release of a tag; two are an error. |
| Publisher.RecoverDraft | scripts/release/publish-candidate.ts:202-233 | Removes only unfinished uploads of the candidate's own draft. |
| Publisher.CreateDraft | scripts/release/release-remote.ts:36-81 | An ambiguous creation is discovered, never repeated. |
| Publisher.EnsureTag | scripts/release/publish-candidate.ts:248-263 | Reserves the tag, or finds it reserved for this commit. |
| Publisher.UploadAll | scripts/release/publish-candidate.ts:293-297 | Uploads what is missing, in the order in which workers finish. |
| Publisher.PublishCandidate | scripts/release/publish-candidate.ts:168-322 | One run performs only legal steps; success means published; a published candidate is left alone; closed gates add nothing; and without failures a resumable candidate is published. |
| Publisher.StaysResumable | scripts/release/publish-candidate.ts:168-322 | However a run of the candidate ends, the remote stays resumable. |
| Publisher.PublishThroughCrashes | scripts/release/publish-candidate.ts:168-322 | After any interrupted runs one clean run publishes the candidate, and another changes nothing. |
| SuiteRecords.AttemptNamesDiffer | scripts/computer-certification/store.ts:47-48 | Distinct attempts have distinct file names, for every key and attempt number. |
| SuiteRecords.ExecutedAtMostOnce | scripts/computer-certification/suite.ts:174-206 | Helper of `SuiteRunner.RunHistory`: read off a legal history, no attempt is executed twice. |
| SuiteRecords.ExecutedAfterReserved | scripts/computer-certification/suite.ts:174-206 | Helper of `SuiteRunner.RunHistory`: in a legal history every execution follows the only reservation of its attempt and precedes its result. |
| SuiteRecords.PassedIsFinal | scripts/computer-certification/model.ts:285-292 | Helper of `SuiteRunner.RunHistory`: in a legal history nothing of a scenario follows its passed result. |
| SuiteRecords.AttemptsIncrease | scripts/computer-certification/suite.ts:96-98 | Helper of `SuiteRecords.PassedIsLatest`: in a legal history results of a scenario come in the order of its attempts. |
| SuiteRecords.PassedIsLatest | scripts/computer-certification/model.ts:214-215 | On every disk that runs can leave, a passed result is the latest of its scenario. |
| SuiteCoverage.Coverage | scripts/computer-certification/model.ts:205-226 | Succeeds exactly when every result belongs to the suite and no attempt occurs twice; finds the latest result of each scenario. |
| SuiteCoverage.Pending | scripts/computer-certification/model.ts:268-293 | Selects exactly the scenarios that may run, each once, and its three errors. |
| SuiteRunner.Directory.WriteStarted | scripts/computer-certification/store.ts:13-27 | A reservation is written durably and never replaces one. |
| SuiteRunner.Directory.WriteResult | scripts/computer-certification/store.ts:13-27 | A result is written durably and never replaces one. |
| SuiteRunner.SaveResult | scripts/computer-certification/store.ts:49-55 | A result is validated before it is written: its scenario, its number, an end not before its start, and its proof. |
| SuiteRunner.LoadResults | scripts/computer-certification/store.ts:37-46 | Memory holds every result on disk, each once. |
| SuiteRunner.RecoverInterrupted | scripts/computer-certification/suite.ts:39-58 | Every reservation without a result gets exactly one, "outcome-unknown"; nothing else changes; it stops exactly when some unfinished attempt is beyond 999 or was reserved later than the clock now shows. |
| SuiteRunner.ResumableIff | scripts/computer-certification/model.ts:144-155 | An attempt that was interrupted after its execution can be recovered exactly up to attempt 999 and while the clock is not behind its reservation, among at most 10000 results. |
| SuiteRunner.ClockSetBack | scripts/computer-certification/model.ts:155 | The first attempt of a suite, reserved at 5 and interrupted, cannot be recovered at 4. |
| SuiteRunner.Admit | scripts/computer-certification/suite.ts:174-198 | Reserves an attempt and its companion before executing them; the reservations never meet existing ones. |
| SuiteRunner.Finish | scripts/computer-certification/suite.ts:207-307 | What is recorded after an execution, for both scenarios, and when the run stops; unless the process dies, it ends in an error exactly when a result does not pass the checks made before saving. |
| SuiteRunner.RunScenario | scripts/computer-certification/suite.ts:94-307 | The disk after a scenario is blocked, declined or run, in full; a stop has its cause. |
| SuiteRunner.RunSelected | scripts/computer-certification/suite.ts:94-308 | Every selected scenario has a result, unless a failure or the operator stopped the run. |
| SuiteRunner.RunSuite | scripts/computer-certification/suite.ts:59-313 | From any sound directory, dying anywhere, one run keeps it sound; coverage never meets a duplicate; a resumed run that does not die settles the interrupted attempts exactly when all of them are recoverable; an interrupted suite is refused unless resumed. |
| SuiteRunner.RunHistory | scripts/computer-certification/suite.ts:39-313 | Over all runs, deaths, resumes and clocks, every run keeps the history legal: no attempt is executed twice, executions follow reservations, and nothing happens to a scenario after it passed. |
| SuiteRunner.PastLastAttempt | scripts/computer-certification/model.ts:144-146 | Attempt 1000 can be executed, but no result of it can be saved. |
| WorkerPool.StartedOnce | scripts/release/release-concurrency.ts:8-20 | In every interleaving the started indices are the first `next`, once each; each is active or settled, never both; at most limit and n are active. |
| WorkerPool.NothingStartsAfterFailure | scripts/release/release-concurrency.ts:12-18 | After a recorded failure nothing starts. |
| WorkerPool.RunsEnd | scripts/release/release-concurrency.ts:11-21 | Every run has at most two steps an operation and one a worker, and only a drained pool is stuck. |
| WorkerPool.DrainedResult | scripts/release/release-concurrency.ts:10-22 | When all workers have returned everything started has settled; success if and only if all n operations succeed. |
| WorkerPool.Coordinator.Look | scripts/release/release-concurrency.ts:12-13 | Checking the shared variables and taking an index is one step of the state machine. |
| WorkerPool.Coordinator.Settle | scripts/release/release-concurrency.ts:14-18 | The end of an operation is one step of the state machine. |
| WorkerPool.ReleasePool | scripts/release/release-concurrency.ts:2-23 | For every schedule the pool ends, drained, with the first recorded failure, or success exactly when no operation fails; an invalid limit is refused. |
| Intervals.IntervalSeconds | scripts/release/release-observability.ts:18-27 | The total is the number of milliseconds covered by the union, for every list; the seconds are rounded from it. |
| Intervals.NewPart | scripts/release/release-observability.ts:22-25 | Of the next interval exactly the part after the latest finish is new. |
| Intervals.CoveredIgnoresOrder | scripts/release/release-observability.ts:22 | The order of the intervals does not matter. |
| Intervals.NestedAddsNothing | scripts/release/release-observability.ts:18 | An interval inside another adds nothing. |
| TreeHash.HashTree | scripts/computer-certification/identity.ts:16-52 | The recursive walk feeds the hash exactly `HashInput`, or reports the first reason to refuse. |
| TreeHash.Walk | scripts/computer-certification/identity.ts:26-49 | What walking a directory adds to the running hash. |
| TreeHash.WalkEntry | scripts/computer-certification/identity.ts:30-48 | Path, kind and payload of one entry, with its refusals in the order of the code. |
| TreeHash.Field | scripts/computer-certification/identity.ts:19-25 | A field is four bytes of length and its bytes; 2^32 bytes or more are refused. |
| TreeHash.StreamDecodes | scripts/computer-certification/identity.ts:19-25 | The length-prefixed stream determines its fields. |
| TreeHash.FieldsDecode | scripts/computer-certification/identity.ts:30-46 | The fields determine the records, although only some kinds have a payload. |
| TreeHash.RecordsDecode | scripts/computer-certification/identity.ts:26-49 | The records of a directory determine it, whatever follows them. |
| TreeHash.HashIdentifiesTree | scripts/computer-certification/identity.ts:16-52 | Two accepted trees feed the hash the same bytes only if they are the same tree up to listing order, and whenever they are if no directory of the tree holds two names that compare equal. |
| TreeHash.TieChangesHash | scripts/computer-certification/identity.ts:27-29 | An accepted tree with two sibling names that compare equal, at any depth, is hashed differently from another listing of it. |
| TreeHash.ListingOrderIrrelevantIff | scripts/computer-certification/identity.ts:16-52 | So the bytes are the same for every listing of a tree exactly when no directory of it has such names. |
| TreeHash.RefusedInEveryOrder | scripts/computer-certification/identity.ts:16-52 | Whether a tree is refused never depends on the order in which its directories are listed. |
| TreeHash.EqualNamesKeepListingOrder | scripts/computer-certification/identity.ts:27-29 | Two names that compare equal make the hash depend on the listing order. |
| Migration.MigrateUpstreamLedger | scripts/migrate-upstream-ledger-v7.ts:272-335 | Every crash leaves one of the listed states, in which the old bytes survive, seeds are not overwritten and the old file is gone only after verification; an uninterrupted run ends as `Complete` says. |
| Migration.WriteSeeds | scripts/migrate-upstream-ledger-v7.ts:312-323 | Seeds are written only where missing, and the project file completed. |
| Migration.EveryCrashPointPreserves | scripts/migrate-upstream-ledger-v7.ts:282-333 | What every crash point keeps. |
| Migration.RerunReachesTheEnd | scripts/migrate-upstream-ledger-v7.ts:272-335 | From every crash point one more run ends as the uninterrupted migration; after the removal exactly unless main holds a different ledger. |
| Migration.MigratedIsFinal | scripts/migrate-upstream-ledger-v7.ts:296-334 | A migrated repository stays as it is. |
| Migration.MigrateThroughCrashes | scripts/migrate-upstream-ledger-v7.ts:272-335 | Any number of interrupted runs and one that is not end with the disk of an uninterrupted migration. |
| Selection.LatestRuns | scripts/release/release-selection.ts:11-18 | The map holds the latest run of every commit. |
| Selection.LatestIsNewest | scripts/release/release-selection.ts:11-18 | No run of the commit has a higher number, ID and attempt than the latest one. |
| Selection.QualifiedSource | scripts/release/release-selection.ts:48-77 | Returns the newest qualifying commit at or after the boundary, or the pinned one while a request is pending, and nothing exactly when none qualifies. |
| Selection.PublicationGate | scripts/release/release-publication-gate.ts:9-41 | The gate opens exactly when the candidate is still selected. |
| Selection.GateRespectsRequests | scripts/release/release-publication-gate.ts:19-23 | What passes the gate is held by no other pending request; a stable candidate is itself the pending one. |
| FlakeMarkers.MarkersDiffer | scripts/ci-flake-ledger.ts:299-310 | Occurrence markers are injective in their five parts. |
| FlakeMarkers.EncodeDecodes | scripts/ci-flake-ledger.ts:299-310 | Percent-encoding is injective, and an encoded part cannot run into what follows it. |
| FlakeMarkers.NeutralizedHasNoOpener | scripts/ci-flake-ledger.ts:51-52 | Neutralized text holds no comment opener. |
| FlakeBodies.BodyNamesIssue | scripts/ci-flake-ledger.ts:326-337 | An issue's body, whatever the test is called, holds the marker of its own flake and of no other. |
| FlakeBodies.MarkedTextNames | scripts/ci-flake-ledger.ts:298-312 | The same for any text without an opener after a marker. |
| FlakeCounts.RewrittenBodyNames | scripts/ci-flake-ledger.ts:386-392 | However often the count was rewritten, a body holds the marker of its own flake and of no other, and its last count. |
| FlakeCounts.CountKeepsMarked | scripts/ci-flake-ledger.ts:388-392 | Rewriting the count keeps the marker, also below notes that people added without opening a comment. |
| FlakeComments.CommentNames | scripts/ci-flake-ledger.ts:341-371 | A comment holds the marker of its own occurrence and of no other, whatever the names, the branch and the downloaded errors say, unless the address of the run holds one. |
| FlakeComments.ExistingHolds | scripts/ci-flake-ledger.ts:476-490 | All comments of an issue searched as one text hold a marker exactly when one of them records that occurrence. |
| FlakeCounts.CountReadsBack | scripts/ci-flake-ledger.ts:386-392 | A written count is read back, for every body whatever people added to it. |
| FlakeCounts.CountOfBody | scripts/ci-flake-ledger.ts:326-337 | A new body carries the count it was given exactly when its heading holds no count line. |
| FlakeCounts.SubjectCarriesCount | scripts/ci-flake-ledger.ts:53-56 | A test name with line separators can hold a count line, which is then read instead. |
| FlakePages.FiledShows | scripts/ci-flake-ledger.ts:457-474 | The body of a new issue names its flake and holds its count. |
| FlakePages.CommentShows | scripts/ci-flake-ledger.ts:505-509 | A posted comment is one more recorded occurrence. |
| FlakePages.CountShows | scripts/ci-flake-ledger.ts:510-512 | Reading the count, adding what was posted and writing it back adds it to the issue's count. |
| FlakePages.FoundByMarker | scripts/ci-flake-ledger.ts:453 | Searching a body for the marker of an ID finds exactly the issue of that flake. |
| FlakePages.FreshByText | scripts/ci-flake-ledger.ts:484-491 | Filtering occurrences by searching the comments' text keeps exactly those that are not recorded. |
| FlakePages.OneBodyPerFlake | scripts/ci-flake-ledger.ts:453 | One issue per flake, said of the texts on the tracker. |
| FlakePages.MarkersShownOnce | scripts/ci-flake-ledger.ts:484-491 | No occurrence recorded on two issues, said of the texts on the tracker. |
| FlakeLedger.Tracker.Create | scripts/ci-flake-ledger.ts:457-474 | Creating an issue, when the call succeeds, fails, or takes effect unseen. |
| FlakeLedger.List | scripts/ci-flake-ledger.ts:433-445 | The listing is the newest thousand issues. |
| FlakeLedger.FindIssue | scripts/ci-flake-ledger.ts:453-454 | The newest open issue of the flake, or else its newest. |
| FlakeLedger.PostAll | scripts/ci-flake-ledger.ts:505-509 | Comments are posted in order until a call fails, never one that is already there. |
| FlakeLedger.RecordOn | scripts/ci-flake-ledger.ts:493-512 | What recording on an issue leaves, complete or cut short. |
| FlakeLedger.FindOrFile | scripts/ci-flake-ledger.ts:453-483 | The issue that was found or a new one, and what a failed or unseen call leaves. |
| FlakeLedger.RecordFlake | scripts/ci-flake-ledger.ts:450-518 | One flake: its issue alone changes, to what is left when calls fail, and to all fresh occurrences commented and counted when none does. |
| FlakeLedger.UpdateLedger | scripts/ci-flake-ledger.ts:401-520 | One run with any failing calls: counts never exceed comments and issues are reopened only when that is allowed; no flake gets a second issue, and no marker is posted twice on the tracker, exactly when the listing leads to every issue that matters (one direction with failing calls, both without); without failures all is recorded and counts are exact. |
| FlakeLedger.RecordAgain | scripts/ci-flake-ledger.ts:433-474 | An occurrence whose issue is no longer listed gets a second issue and its marker a second comment. |
| FlakeLedger.CrowdedHides | scripts/ci-flake-ledger.ts:440-441 | A tracker with a thousand newer issues is such a case. |
| FlakeLedger.RunLedger | scripts/ci-flake-ledger.ts:401-520 | The same over every sequence of runs, with people closing and reopening issues in between: while every listing leads to the issues its run needs, and so while listings show the whole tracker, no flake has two issues and no marker is posted twice anywhere. |

## Left out

- Durations are exact reals: floating-point rounding of sums and of the median, and the special values beyond "not a
  finite positive number", are not modelled; nor is the lookup of a file named like an inherited property in the
  duration table.
- Seconds are rounded as exact rationals; Math.round acts on a quotient that is rounded before.
- JavaScript strings are sequences of characters compared one by one; the difference between UTF-16 code units and
  scalar values is not modelled, nor is the encoding of unpaired surrogates in file names and markers.
- Numbers in manifests are exact decimals: rounding to the nearest double, and negative zero, are not modelled.
- The text of error messages; errors are constructors with the data that tells them apart.
- The JSON codec: a document is given parsed, and a field of the wrong type counts as malformed.
- GitHub, Git and HTTP transport, paging and transient-error patterns; only whether a call succeeded, failed or took
  effect unseen.
- One publisher, one certification runner and one ledger run at a time; recovery of the suite's lock by two resumers
  is not modelled, a lock left by a dead process is simply taken over by a resumed run.
- Hash functions are identities: file digests, identity hashes and flake IDs are given, and assumed collision-free.
- The tags of the publication model are stable versions and numbered betas, not texts.
- The certification policy, required CI jobs, release profiles and upgrade baselines are Booleans or functions given
  by the environment.
- How a receipt is summarized, and which commands a scenario runs: an execution is given with its outcome, and the
  blocker of a scenario with its reason.
- The evidence checks of `decodeResult` are one flag of a passed verdict, because each is a conjunct that one reading
  settles; times are integers, so a timestamp that does not parse is not modelled.
- SuiteCoverage.Coverage: finds the latest results and the two errors; the report rows, requirement states and release
  readiness computed from them are not modelled, and results in memory carry their scenario, attempt and outcome only,
  since each was checked in full when it was saved.
- One operator answer is given per run: after a refusal the run ends, and after a consent it is not asked again.
- Directories are sorted before the walk instead of level by level; the bytes are the same.
- Names, link texts and digests of a tree are byte sequences.
- Validation of the archived ledger and of the destination is a predicate of the files' texts, and the project file is
  either broken or an object with or without a valid upstream block.
- Temporary files left by a dead process, since their names are unique.
- The ledger's runs are stated on issues with a flake, a count and recorded occurrences; `FlakePages` relates these to
  the texts for every body whose marker stands at its front and that opens no comment after it, whatever else people
  added. Bodies that people rewrite beyond that, comments by others under the ledger's account, and an address of the
  run that holds a marker are not part of the runs.
- Collecting occurrences from downloaded artifacts; issue lists are taken to be newest first.
- Packaging, signing, screenshots, smoke tests and the desktop's small policies.
