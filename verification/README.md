# Verification of the vote engine

Each contest is a set of signed vote bundles replicated by gossip. A node admits a bundle before its
on-chain gate and its community names are checked, settles or evicts it in the background, prunes what
can no longer count, tallies the winners and serves the verified ones as a checkpoint. This project
models that engine and proves what keeps it right over whole runs.

Nine parts, each with the state machine or functions it is about, the methods that run it, and the
theorems:

- **The winner set** (`Bundles`, `WinnerSet`, `Pruning`, `PruningLimits`, `PruningFutures`, `Convergence`,
  `VoteCrdt`, `EngineModel`, `SnapshotModel`, `ContestEngine`). One bundle counts per wallet: highest block, then lowest CID. The
  non-expired bundles that no settled bundle beats are the observable core; both readers depend on it
  alone, every step respects it and a prune keeps it. So pruning at any time is invisible, to both
  readers, on every run. Where the code can leave the runs this holds for, the exact condition and a
  concrete state are given.
- **The background verifier** (`BackgroundModel`, `BackgroundSafety`, `BackgroundSettlement`,
  `BackgroundEvidence`, `BackgroundRulings`, `BackgroundVerifier`). Rounds are cut at their awaits, so `enqueue`, `stop`, `resume`,
  the timer and the clock interleave with them.
- **The engine with its verifier** (`EngineVerifier`, `Runs`). Which pending checks the verifier will still
  settle, over every run of admissions, signatures, chases, prunes and verifier steps.
- **The gate tree** (`Gate`, `GateVerdicts`, `GateLazy`, `GateEvaluator`). Three-valued evaluation,
  collected and lazy, with blame, penalty and score, each against a plain Boolean reading of the tree.
- **The read pool** (`CoalescerModel`, `CoalescerSafety`, `CoalescerBudget`, `CoalescerRefinement`, `Coalescer`). Pinned reads
  shared, grouped, cut into calls and retried, against issuing each read alone.
- **The checkpoint** (`Sorting`, `Checkpoint`, `CheckpointCodec`). Canonical order, size-cap fill, chunk index.
- **Caches and gate rules** (`Sequences`, `Fifo`, `RuleCache`, `NftBalance`, `GateRules`, `GateRuleMapping`,
  `GateRuleBatches`, `Lru`, `LruInterleaving`, `LruSizes`, `LruBounds`, `LruStorage`). The two-database cache is proved both with
  its calls one at a time and with them cut at their awaits and overlapping.
- **The gossip gate and the signed provider record** (`AcceptedDedup`, `GossipGate`, `GossipOverlap`, `ProviderRecord`,
  `ProviderScanner`).
- **Publication and tally** (`PublicationModel`, `Publication`, `TallyModel`, `Tally`).

CIDs are byte strings under a total lexicographic order, and equal CIDs mean equal bundles. Hashes and
encodings are parameters, injective or readable back where the code relies on it. The chain, name
resolvers, timers and the clock are parameters or steps of the run.

## Where the code and its promises part

Each item has a condition proved exact, and a concrete run where one helps, in the table below.

- A bundle carrying one name with two different keys is cached as valid when the resolver confirms only the
  first key: `src/verify/background.ts:246` skips a name already resolved without comparing the second key.
  `src/schema/votes.ts:115-117` relies on name resolution to drop such a bundle; the inline verifier
  (`src/verify/bundle.ts:191-207`) does drop it.
- A ballot signed again while it is in flight and its gate has been told (`src/client/voter.ts:2096`) has its
  flag reset; `enqueue` skips it (`src/verify/background.ts:415`), and nothing confirms the flag again. A
  chase that throws after admitting bundles (`src/transport/chase.ts:277-293`) never hands them to the
  verifier, and no later chase looks at them. Either way they stay pending until they are dropped, and keep
  the snapshot from being written.
- `rootRecord` clears its dirty flag before it awaits (`src/client/voter.ts:2351-2354`). If the encode or a
  block's storing fails, the record before it is served as clean; and of two overlapping calls the older
  encode can be installed last.
- The snapshot's guard is checked before `rootRecord` awaits the head (`src/client/voter.ts:2173`, `2340`), so
  a pending bundle admitted in between can be current and missing from the blob that is written.
- `rootRecord` may read a bucket older than one already pruned at (`src/client/voter.ts:1492-1498`, `2340`).
- Signing identical bytes again, or a chase that waits between its membership test and its admit, sets a
  settled bundle back to pending (`src/client/voter.ts:2096`, `src/transport/chase.ts:270-287`), although a
  prune may have dropped what it hid.
- A bundle is in the set for a moment before its checks are recorded (`src/client/voter.ts:2090-2096`,
  `1789-1790`). A prune there takes it for one that is not pending (`1397-1400`) and drops what it supersedes;
  if it is refused later, the vote before it is gone.
- The read pool's key (`src/chain/coalescer.ts:167`) leaves out how the ABI decodes a result, so two reads
  with one address and calldata share one decoded value.
- The comment at `src/chain/coalescer.ts:26-28` bounds all round trips, while reads passed through one at a
  time (`src/chain/coalescer.ts:165` and `202`) take no permit and can exceed the bound, as can pooled work
  beside them.
- Lazy evaluation with tolerated read errors takes an unread child of an `all` for a refusal
  (`src/rules/gate.ts:191`); no caller combines the two.
- `erc5192-min-balance` returns a refusal it has memoised after the purchase that cures it, within one window
  (`src/rules/erc5192-min-balance.ts:87-92` says so). In a full memo, mapping the single rule over wallets can
  answer differently from the batch (`src/rules/types.ts:147-150`): an earlier call pushes out a remembered
  refusal that the batch still finds.
- In the two-database cache, calls do overlap (`src/rules/cache.ts:143` does not await its set, and `214-218`
  issues one per key). Then a promotion can bring an older value back (`src/storage/browser.ts:75-78`), a set
  overtaken by a swap goes uncounted, a half can overfill, and two calls can swap for one filling and lose
  both halves (`src/storage/browser.ts:47-64`, `81-86`). Also, reopening after a removal can take the older
  half for the active one (`src/storage/browser.ts:41-45`).
- The re-sign guard is asked before the verifier (`src/transport/gossip-validator.ts:206-208`), so re-signs of
  one choice whose validations overlap can all pass it.
- The re-sign guard remembers choices, not winners: after the choices A, B in one bucket a re-sign of A is
  dropped although it would have counted (`src/transport/gossip-validator.ts:202-206`).
- A superseded `publish` call still under way is not tied to its attempt at its own state changes
  (`src/client/voter.ts:2837`, `2861`), so overlapping calls can undo a failure.

## Model

| member | source | states |
|---|---|---|
| Bundles.CompareCid | src/crdt/crdt.ts:20-30 | negative exactly if the first CID ends, or has the lower byte, where the two part; zero exactly if they are equal (the tally's comparison at src/tally/tally.ts:60-68 is the same) |
| Bundles.CidLessTotal | src/crdt/crdt.ts:20-30 | CIDs are totally and irreflexively ordered |
| Bundles.CidLessTransitive | src/crdt/crdt.ts:20-30 | the CID order is transitive |
| Bundles.CidLessByIndex | src/crdt/crdt.ts:20-30 | the order used everywhere is that one, index by index |
| Bundles.OneWalletUpToCase | src/crdt/crdt.ts:92 | two addresses are one wallet exactly if they are the same letter by letter up to case |
| Bundles.LwwIsMaximum | src/crdt/crdt.ts:33-38 | the resolver is the maximum of a strict total order, and does not depend on argument order |
| Bundles.AboveTransitive | src/crdt/crdt.ts:33-38 | beating is transitive, so a wallet's winner is well defined |
| Bundles.FreshMonotone | src/crdt/crdt.ts:72-74 | expiry is monotone along the winning order: if a bundle is fresh later, all that beat it are fresh now |
| Bundles.CountsByBlock | src/crdt/crdt.ts:72-74 | a ballot counts in a bucket exactly if it was cast no earlier than the start of the bucket `voteExpiryBuckets` before |
| Bundles.SampleBlockIsBucketFloor | src/chain/bucket.ts:15-27 | the block a bundle is sampled at is the start of its own bucket, never after the bundle's block |
| WinnerSet.OneWinnerPerWallet | src/crdt/crdt.ts:88-115 | a wallet never has two current bundles, under any eligibility |
| WinnerSet.WinnerIsNewest | src/crdt/crdt.ts:33-38 | a bundle wins exactly if no eligible one of its wallet has a higher block, or the same block and a CID that comes first by index |
| WinnerSet.ViewsMean | src/crdt/crdt.ts:88-115 | the tally lists each wallet's newest bundle while it counts; the checkpoint the newest of those whose gate was confirmed and whose names, if any, were resolved |
| WinnerSet.ReadersSeeOnlyTheCore | src/crdt/crdt.ts:113-115 | tally and checkpoint both depend only on the fresh bundles that no settled bundle beats |
| VoteCrdts.VoteCrdt.constructor | src/crdt/crdt.ts:57-64 | a new working set is empty |
| VoteCrdts.VoteCrdt.WinnersByWallet | src/crdt/crdt.ts:88-105 | in any iteration order: an entry for exactly the wallets with an eligible bundle, each its winner: none of the wallet has a higher block, nor the same block and a CID that comes first by index |
| VoteCrdts.VoteCrdt.CurrentEntries | src/crdt/crdt.ts:113-115 | exactly the unexpired winners, nothing else |
| VoteCrdts.VoteCrdt.Add | src/crdt/crdt.ts:118-122 | the bundle joins the working set, nothing else moves |
| VoteCrdts.VoteCrdt.Merge | src/crdt/crdt.ts:76-85 | known CIDs keep their bundles, new ones come from the store, and it fails exactly at a CID neither has |
| VoteCrdts.VoteCrdt.Remove | src/crdt/crdt.ts:134-136 | only that CID leaves |
| VoteCrdts.VoteCrdt.Prune | src/crdt/crdt.ts:142-161 | what stays is the specification's pruned set, and what is reported removed is what left |
| Pruning.PruneKeepsExactly | src/crdt/crdt.ts:142-161 | a prune keeps, of the bundles that still count, exactly each wallet's winner, and all of them while their winner has a check pending |
| Pruning.PruneKeepsTheCore | src/crdt/crdt.ts:142-161 | a prune leaves the observable core as it was |
| Pruning.StepOnCore | src/client/voter.ts:1381-1446 | states with equal cores stay equal under admit, settle, eviction and prune |
| Pruning.CoreOfRun | src/crdt/crdt.ts:142-161 | on every allowed run the pruned and the never-pruned set have one core |
| Pruning.PruningIsUnobservable | src/crdt/crdt.ts:72-161 | on every run of admits, settlements, evictions of pending bundles and prunes at non-decreasing buckets, tally and checkpoint equal those of the run without its prunes, now and later |
| PruningLimits.TallyAfterPruneExactly | src/client/voter.ts:1492-1498 | reading at any bucket after a prune gives the right tally if and only if no winner expired in between |
| PruningLimits.CheckpointAfterPruneExactly | src/client/voter.ts:2340-2352 | the same for the checkpoint |
| PruningLimits.EvictShowsInTallyExactly | src/client/voter.ts:1431-1446 | an eviction after a prune shows in the tally of that bucket if and only if the evicted bundle was a settled winner hiding a fresh predecessor |
| PruningLimits.ResetShowsInCheckpointExactly | src/client/voter.ts:2096 | setting a settled bundle back to pending after a prune shows in the checkpoint at once if and only if it hid a fresh settled predecessor |
| PruningFutures.SameFutureExactly | src/crdt/crdt.ts:142-161 | a set with bundles missing reads like the whole one, now and after every further allowed run, if and only if it misses no bundle of the core |
| PruningFutures.PrunedIsWithin | src/crdt/crdt.ts:142-161 | on every run, allowed or not, what the engine holds is held with the same checks by the engine that never prunes |
| PruningFutures.EvictAfterRunExactly | src/client/voter.ts:1431-1446 | after any run, evicting any bundle leaves every later tally and checkpoint as if nothing had been pruned, if and only if no live bundle beaten by no other settled one has been dropped |
| PruningFutures.ResetAfterRunExactly | src/client/voter.ts:2096 | after any run, admitting a bundle as pending, a settled one included: the same condition |
| PruningFutures.EvictAfterPruneExactly | src/client/voter.ts:1431-1446 | after an eviction, the pruned and the never-pruned engine have one core, and read alike now and after every further allowed run, if and only if the evicted bundle was not a settled winner hiding a fresh predecessor |
| PruningFutures.ResetAfterPruneExactly | src/client/voter.ts:2096 | after a settled bundle is set back to pending, the two have one core, and read alike now and after every further allowed run, if and only if it hid no fresh predecessor, settled or pending |
| PruningFutures.ResetThenEvictLosesThePending | src/client/voter.ts:2096 | a concrete state where the reset changes no view and the eviction after it loses a pending vote |
| PruningFutures.PruneBeforeRecordExactly | src/client/voter.ts:2090-2096 | a prune between a bundle's admit and its check record leaves every later view right if and only if the bundle is not its wallet's winner over another live one |
| PruningFutures.PruneBeforeRecordLosesAVote | src/client/voter.ts:1397-1400 | a concrete state where such a prune, and the refusal of the new bundle after it, lose the older vote |
| PruningLimits.OlderHeadLosesAVote | src/client/voter.ts:1492-1498 | a concrete state where an older head loses a vote |
| PruningLimits.SettledMustStaySettled | src/client/voter.ts:1787-1790 | a concrete state where resetting or evicting a settled bundle loses its predecessor |
| Convergence.ReplicasConverge | src/crdt/crdt.ts:88-126 | replicas that admitted and evicted to the same bundles, in any order, with duplicates and any prunes, tally alike; with the same settled bundles they serve one checkpoint |
| Convergence.SameAdmissionsConverge | src/crdt/crdt.ts:88-126 | without evictions, having admitted the same bundles is enough |
| Convergence.AdmitNeverLowersTheWinner | src/crdt/crdt.ts:118-126 | an admit replaces a winner only by one that beats it |
| EngineModel.CachedRecordExactly | src/client/voter.ts:2333-2367 | on every run, encodes overlapping and failing included: a record served as clean is fresh if and only if the last encode begun cut the same winners; always if it is that one |
| EngineModel.CachedRecordIsFresh | src/client/voter.ts:2333-2367 | without overlaps or failures, a record served from the cache is a fresh cut of the never-pruned settled winners; pruning needs no invalidation |
| EngineModel.MidEncodeChangeForcesAnother | src/client/voter.ts:2344-2351 | after an announced change, whatever encodes then finish or fail and whatever else happens short of another request, the next request encodes the winners of its own moment |
| EngineModel.RejoinForcesAnother | src/client/voter.ts:1714-1715 | after leaving and joining again the next request is not answered from the cache |
| EngineModel.OverlappingEncodesGoStale | src/client/voter.ts:2333-2367 | overlapping encodes can leave a stale record served as clean: a concrete run |
| EngineModel.FailedEncodeGoesStale | src/client/voter.ts:2351-2354 | one failed encode leaves the record before it served as clean: a concrete run |
| SnapshotModel.CutOmitsExactly | src/client/voter.ts:2352 | a cut serves exactly the settled ones of the current bundles; it is the whole tally exactly if all of them are settled |
| SnapshotModel.SnapshotOmitsExactly | src/client/voter.ts:2172-2183 | on every run the blob lacks a bundle current when its cut was begun exactly if that bundle was pending then; with the guard held earlier and no pending admit in between, it lacks none |
| SnapshotModel.PendingSlipsIn | src/client/voter.ts:2173-2175 | a concrete run: a pending bundle admitted between guard and cut is current and missing from the blob |
| ContestEngines.ContestEngine.constructor | src/client/voter.ts:1168-1180 | the engine starts empty, with its cache dirty |
| ContestEngines.ContestEngine.Admit | src/client/voter.ts:1381-1386 | working set and check map grow together, the checks with the flags given and a name flag exactly if a vote carries a name; the cached record is invalidated |
| ContestEngines.ContestEngine.SettleCheck | src/client/voter.ts:1409-1422 | one flag of an admitted bundle is set; a CID gone meanwhile changes nothing |
| ContestEngines.ContestEngine.EvictBundle | src/client/voter.ts:1431-1446 | bundle and checks leave together, and the record is invalidated |
| ContestEngines.ContestEngine.PruneDecayed | src/client/voter.ts:1633-1641 | bundles and checks are pruned in lockstep, without invalidating the record |
| ContestEngines.ContestEngine.SettledWinners | src/client/voter.ts:2352 | exactly each wallet's newest bundle with its gate confirmed and no name unresolved, where that one still counts |
| ContestEngines.ContestEngine.BeginRootRecord | src/client/voter.ts:2340-2352 | served from the cache only if clean and of this bucket; otherwise the flag is consumed with the cut |
| ContestEngines.ContestEngine.FinishRootRecord | src/client/voter.ts:2353-2367 | whichever encode finishes is installed |
| ContestEngines.ContestEngine.FailRootRecord | src/client/voter.ts:2353-2354 | a failed encode is dropped; the flag it consumed stays consumed |
| ContestEngines.ContestEngine.HasUnsettledChecks | src/client/voter.ts:2143-2148 | true exactly when some admitted bundle has a pending check |
| ContestEngines.ContestEngine.MayWriteSnapshot | src/client/voter.ts:2173 | lets a write begin exactly with an empty backlog and every check settled |
| ContestEngines.ContestEngine.StoreSnapshot | src/client/voter.ts:2178-2183 | persists whatever record is cached by then |
| ContestEngines.ContestEngine.WriteSnapshot | src/client/voter.ts:2172-2183 | with nothing happening at its awaits and no encode under way, an allowed write persists the tally's own view |
| ContestEngines.ContestEngine.RestoreSnapshot | src/client/voter.ts:2220-2244 | only a failed decode removes the blob; otherwise every decoded bundle is accounted for |
| ContestEngines.ContestEngine.AdmitRestored | src/client/voter.ts:2263-2300 | each bundle is admitted pending, refused by the offline check, or kept in the backlog, and nothing else enters |
| BackgroundSafety.NothingIsStranded | src/verify/background.ts:153-171 | on every interleaving: in flight is exactly the queue plus the unsettled round, each once; idle queued work has a retry armed; an armed retry has work |
| BackgroundSafety.IdleMeansSettled | src/verify/background.ts:167-171 | `idle` is answered only when no bundle is pending, at once or by the step that resolves it |
| BackgroundSettlement.EveryBundleSettlesOnce | src/verify/background.ts:278-363 | on every run the host hears of each bundle in protocol order: one gate confirmation, then names, then one valid verdict or one eviction; unattributable refusals wait out the grace window |
| BackgroundEvidence.EveryRulingIsAnswered | src/verify/background.ts:294-361 | every verdict and eviction of every run is told of a bundle whose gate result and resolved names were answered for it while it waited for them, in this admission; each refusal is a refusing gate result or the refusing resolution of the very name awaited |
| BackgroundRulings.EveryDenialEvicts | src/verify/background.ts:259-262 | on every run: each time the name an item awaits comes back denied, the step tells exactly the eviction for that name, and the bundle leaves the in-flight set |
| BackgroundRulings.NameAnswerDecides | src/verify/background.ts:349-362 | no resolver, no record or another key evicts at once; a throw sets the item aside as it is; the claimed key is remembered and the next name awaited |
| BackgroundRulings.NamesDoneConfirms | src/verify/background.ts:240-275 | with every carried name resolved the bundle is told of as valid, its names before it if it has any |
| BackgroundRulings.EveryAttributableRefusalEvicts | src/verify/background.ts:305-316 | on every run: an attributable refusal is cached and the bundle evicted by the step that processes it |
| BackgroundRulings.GateAnswerDecides | src/verify/background.ts:294-348 | ungated: set aside; refused: cached and evicted if attributable, else held over within the grace window and evicted after it; passed: confirmed once, names next |
| BackgroundRulings.GateReadReaches | src/verify/background.ts:196-233 | a gate read gives every item without a result its own bundle's, and one that threw gives none |
| BackgroundRulings.RoundEnds | src/verify/background.ts:365-380 | what was set aside is queued behind what came meanwhile and a retry armed exactly if anything was; a failure is told of exactly if a read failed |
| BackgroundRulings.StoppedStaysQuiet | src/verify/background.ts:435-440 | a stopped verifier begins no round and arms no timer until it is resumed |
| BackgroundRulings.EnqueueBeginsARound | src/verify/background.ts:412-427 | bundles handed to an idle verifier are in its next round at once |
| BackgroundRulings.IdleIsAnswered | src/verify/background.ts:431-434 | on every run nobody waits for idleness once there is nothing to do |
| BackgroundEvidence.InfraFailureEvictsNobody | src/verify/background.ts:287-291 | on every run, a bundle no gate read answered for is neither evicted nor given a verdict; a failing step evicts nobody |
| BackgroundEvidence.ValidVerdictMeans | src/verify/background.ts:240-275 | a cached valid verdict had a passing gate answer and a resolver's answer for every name, each for this bundle at the step it waited for it; every vote got the key it claims if and only if no name is claimed with two keys |
| BackgroundSettlement.SecondClaimIsNotCompared | src/verify/background.ts:244-247 | a concrete run caching a bundle whose second claim was never compared |
| BackgroundModel.NextName | src/verify/background.ts:244-246 | the first vote whose name is not yet resolved, none before it |
| BackgroundVerifiers.BackgroundVerifier.constructor | src/verify/background.ts:139-161 | starts with nothing queued, nothing armed and nobody waiting |
| BackgroundVerifiers.BackgroundVerifier.Enqueue | src/verify/background.ts:412-427 | takes the model's step: new CIDs queue once, in order, then the drain is kicked |
| BackgroundVerifiers.BackgroundVerifier.PendingCount | src/verify/background.ts:428-430 | as many as are queued or in the current round, set aside or not |
| BackgroundSafety.PendingIsTheWork | src/verify/background.ts:153-155 | none of them is counted twice, and the count is zero exactly when nothing is queued or in a round |
| EngineVerifier.NobodyIsForgottenExactly | src/client/voter.ts:1280-1282 | on every run, every pending bundle is one the verifier will yet settle or is still to be handed to it, if and only if no step re-signs one whose gate was told, hands such a one over, or is a chase that throws; then an idle verifier leaves nothing pending |
| EngineVerifier.StuckStaysStuck | src/verify/background.ts:415 | a bundle so forgotten stays pending until it is admitted once more or dropped |
| EngineVerifier.SignedAgainIsStuck | src/client/voter.ts:2096-2102 | a concrete run: a ballot signed again after its gate was told is never confirmed |
| EngineVerifier.ThrownChaseStrands | src/transport/chase.ts:277-293 | a concrete run: a chase that throws leaves an admitted bundle pending and nothing in flight |
| BackgroundVerifiers.BackgroundVerifier.Idle | src/verify/background.ts:431-434 | resolved at once exactly when there is nothing to do |
| BackgroundVerifiers.BackgroundVerifier.Stop | src/verify/background.ts:435-440 | takes the model's step, keeping pending work |
| BackgroundVerifiers.BackgroundVerifier.Resume | src/verify/background.ts:441-444 | takes the model's step, draining again |
| BackgroundVerifiers.BackgroundVerifier.TimerFires | src/verify/background.ts:386-389 | takes the model's step of the retry timer |
| BackgroundVerifiers.BackgroundVerifier.GateReturns | src/verify/background.ts:196-233 | every ungated item gets its answer, or none does |
| BackgroundVerifiers.BackgroundVerifier.NextItem | src/verify/background.ts:294-348 | takes the model's step up to the item's first await, or ends the round |
| BackgroundVerifiers.BackgroundVerifier.NameReturns | src/verify/background.ts:349-362 | takes the model's step when a resolution comes back |
| BackgroundVerifiers.BackgroundVerifier.EndRound | src/verify/background.ts:365-380 | what was set aside is queued again and a retry armed if anything was |
| BackgroundVerifiers.BackgroundVerifier.RoundReturns | src/verify/background.ts:403-406 | another round, or the end of the drain |
| Gate.NumberingIsFaithful | src/rules/gate.ts:26-30 | numbering gives leaf `i` the document's `i`-th reference, and the numbered tree reads back as the document |
| Gate.LeafMeans | src/rules/gate.ts:166-180 | a success with a positive score passes; one without fails, attributably; a failure fails, attributably unless it says not to penalise; a thrown read is unknown |
| Gate.StopIsFirst | src/rules/gate.ts:186-200 | lazy evaluation stops at the first child that decides |
| Gate.CollectedIsExact | src/rules/gate.ts:138-226 | a collected node is true or false exactly when every way of filling its unread leaves agrees, and unknown exactly when two disagree |
| GateVerdicts.BlameExplainsTheRefusal | src/rules/gate.ts:249-255 | blame of a refused gate is not empty; passing all of it admits; passing only what is not blamed never does |
| GateVerdicts.BlamedExactly | src/rules/gate.ts:249-255 | blamed are exactly the refused leaves all of whose forks are refused |
| GateVerdicts.PenaltyIsAttributable | src/rules/gate.ts:271-277 | penalised exactly when the gate stays false with every leaf that is not an attributable failure set to pass |
| GateVerdicts.ScoreIsAThreshold | src/rules/gate.ts:234-243 | an admitted wallet scores at least `t` exactly when the tree holds with each leaf read as "scored at least t" |
| GateLazy.LazyAdmitsExactly | src/rules/gate.ts:164-200 | whatever throws, laziness admits exactly what collecting admits and hides no refusal |
| GateLazy.LazyAgreesWithCollected | src/rules/gate.ts:164-204 | with every leaf read: same verdict, blame a subset, and a lazy penalty implies the collected one |
| GateLazy.LazyToleranceExactly | src/rules/gate.ts:186-200 | lazy with tolerated errors agrees with collecting on every outcome if and only if the gate has no `all` |
| GateEvaluator.LazyAsksAtMostOnce | src/rules/gate.ts:186-200 | laziness asks no leaf twice and none outside the tree |
| GateEvaluator.EvaluateGate | src/rules/gate.ts:138-204 | the walk returns the fold, asks the leaves it must, and fails exactly on an untolerated throw |
| GateEvaluator.DedupeLeaves | src/rules/gate.ts:92-103 | each leaf is sent to one earlier leaf asking the same question, which represents itself |
| GateEvaluator.ForwardGateIsNeverHarsher | src/verify/bundle.ts:152-177 | with every leaf read, the lazy gate never rejects a sender the collected one would not |
| GateEvaluator.ForwardGateMayBeGentler | src/verify/background.ts:299-319 | a concrete gate the lazy path ignores and the collected path rejects |
| CoalescerRefinement.PoolInvariant | src/chain/coalescer.ts:92-154 | on every run: permits equal running jobs within the budget, waiters only when it is full, one block and at most `readsPerCall` reads a chunk, each unsettled read in exactly one place |
| CoalescerBudget.BudgetAccounts | src/chain/coalescer.ts:93-113 | on every run, permitted calls never exceed the budget; permits are calls with the chain or are held through a pause |
| CoalescerBudget.StepPutsOut | src/chain/coalescer.ts:93-229 | from any state of the pool, a step puts out one call for a read passed through singly or a resumed retry, for a multicall or a flush as many as want out and find a permit; a call that comes back never adds one |
| CoalescerBudget.WithinBudgetExactly | src/chain/coalescer.ts:26-28 | all round trips stay within the budget throughout a run if and only if no step puts out more calls, by that count, than are left of it |
| CoalescerBudget.PooledGrantExceeds | src/chain/coalescer.ts:26-28 | a concrete run: with the client full of reads passed through singly, a multicall is still granted a permit and breaks the bound |
| CoalescerBudget.PooledRunsStayWithin | src/chain/coalescer.ts:26-28 | a run that passes no read through singly stays within the budget |
| CoalescerBudget.SingleReadsExceed | src/chain/coalescer.ts:202 | any number of reads passed through singly are with the client at once |
| CoalescerRefinement.NeverStuck | src/chain/coalescer.ts:93-154 | while a promise is unsettled some window, call or pause can still end |
| CoalescerRefinement.SettledForever | src/chain/coalescer.ts:133-143 | no step reopens, replaces or drops a promise |
| CoalescerRefinement.PoolRefinesDirectExactly | src/chain/coalescer.ts:159-195 | every read agrees with reading alone on every honest run if and only if reads of one block, one address up to case and one calldata have one answer |
| CoalescerRefinement.OnePromiseOneRead | src/chain/coalescer.ts:167-169 | on every run two reads handed one promise agree in block, address up to case, and calldata |
| CoalescerRefinement.SharesExactly | src/chain/coalescer.ts:159-200 | on every run a read is handed the promise of each earlier one alike that still waits, and one of its own if there is none |
| CoalescerRefinement.ReturnSettles | src/chain/coalescer.ts:127-147 | with results each read settles with its own; a first failure settles nobody and pauses; a second fails every read of the chunk |
| CoalescerRefinement.SharedResult | src/chain/coalescer.ts:167-169 | a concrete run where the second read of a key gets the first one's decoded value |
| CoalescerRefinement.DecomposedEqualsWhole | src/chain/coalescer.ts:230-238 | a multicall taken apart returns what the whole one would, or a round trip failed twice: each answer in its place, or the first failure thrown, or every value in its place |
| CoalescerRefinement.DecomposeIsReads | src/chain/coalescer.ts:230 | taking a multicall apart is the run of its single reads in order |
| Coalescers.Coalescer.constructor | src/chain/coalescer.ts:84-114 | the pool starts empty with its whole budget |
| Coalescers.Coalescer.Attempt | src/chain/coalescer.ts:97-104 | takes the model's step: a permit, or the end of the line |
| Coalescers.Coalescer.Release | src/chain/coalescer.ts:107-110 | takes the model's step: the permit passes to the first in line |
| Coalescers.Coalescer.FlushGroup | src/chain/coalescer.ts:146-154 | takes the model's step: the group leaves whole, in bounded chunks |
| Coalescers.Coalescer.EnqueueRead | src/chain/coalescer.ts:159-195 | takes the model's step and hands out the promise recorded for this read |
| Coalescers.Coalescer.ReadDirectly | src/chain/coalescer.ts:201-203 | a read of another shape goes straight to the client |
| Coalescers.Coalescer.CallReturns | src/chain/coalescer.ts:126-143 | takes the model's step: settle the chunk, pause once, or fail it |
| Coalescers.Coalescer.Decompose | src/chain/coalescer.ts:230 | takes the run of one enqueue per entry |
| Coalescers.Combine | src/chain/coalescer.ts:231-238 | entries in order, or the first failure, or the values |
| Sorting.OneArrangement | src/checkpoint/codec.ts:87-90 | given elements have one ascending arrangement under a strict order |
| Sorting.SortIgnoresOrder | src/checkpoint/codec.ts:87-90 | sorting forgets the order of presentation |
| Checkpoint.BytesizeAdds | src/checkpoint/codec.ts:94-107 | a chunk's size is the sum of its bundles' sizes |
| Checkpoint.FillSplits | src/checkpoint/codec.ts:94-107 | the fill is a split within the cap, and no chunk has room for the bundle after it |
| Checkpoint.TightIsFewest | src/checkpoint/codec.ts:94-107 | such a split of any tail needs no more chunks than any split of the whole |
| Checkpoint.ChunksAreFewest | src/checkpoint/codec.ts:81-107 | the chunks are the winners in the order of their lower-case addresses, character by character; none empty, only a lone bundle over the cap, and no allowed split uses fewer |
| Checkpoint.DecodeExactly | src/checkpoint/codec.ts:131-162 | for any blocks served: a supplied index is gone by exactly if it hashes to the root; bundles come back exactly if every chunk is served and unpacks, and are all of theirs in order; otherwise the error is the manifest's, or the first failing chunk's own |
| Checkpoint.WireKeepsTheBallot | src/crdt/codec.ts:84-130 | the wire loses the case of the address and nothing else: wallet, votes, block and signature stay |
| Checkpoint.DecodeReturnsTheWinners | src/checkpoint/codec.ts:131-162 | decoding an encoded set returns the sorted winners, whatever chunk index is supplied |
| Checkpoint.KnownIndexIsHarmless | src/checkpoint/codec.ts:136-148 | with the manifest available, no supplied index, right, false or malformed, changes the result |
| Checkpoint.OnlyTheTrueIndexReplacesTheManifest | src/checkpoint/codec.ts:142-148 | without the manifest, exactly the true index decodes |
| Checkpoint.SameWinnersSameCheckpoint | src/checkpoint/codec.ts:22-24 | equal winner sets encode to identical blocks and root |
| Checkpoint.ConvergedReplicasCutOneRoot | src/checkpoint/codec.ts:81-122 | replicas that admitted, evicted and settled to the same bundles cut one root, though fed and pruned differently |
| Checkpoint.RootsTellWinnersApart | src/checkpoint/codec.ts:71-74 | equal roots mean equal sorted winners |
| CheckpointCodec.FillChunks | src/checkpoint/codec.ts:94-107 | the loop returns that tight split |
| CheckpointCodec.EncodeCheckpoint | src/checkpoint/codec.ts:81-122 | returns the specified blocks, index and root |
| CheckpointCodec.DecodeCheckpoint | src/checkpoint/codec.ts:131-162 | returns exactly all the bundles of the index gone by, in order, or the first error in root order and which way it failed |
| ProviderRecord.ScannerFindsTheSignedBytes | src/transport/announce/record.ts:75-85 | for every record and signature, scanning the built body finds exactly the payload text that was signed |
| ProviderRecord.FirstKey | src/transport/announce/router-verifier.test-fixtures.ts:53-56 | the payload's key is the first occurrence in the body, whatever the signature string holds |
| ProviderRecord.FieldsPass | src/transport/announce/router-verifier.test-fixtures.ts:61-73 | quotes, backslashes and braces inside the record's strings never end the scan |
| ProviderRecord.PayloadText | src/transport/announce/record.ts:76-81 | the payload's text, member by member |
| ProviderRecord.EscapedReadsBack | src/transport/announce/record.ts:76-81 | every string printed reads back as itself |
| ProviderRecord.DigitsReadBack | src/transport/announce/record.ts:76-81 | every number printed reads back as itself, without leading zeros |
| ProviderScanner.ScanPayload | src/transport/announce/router-verifier.test-fixtures.ts:53-75 | the moving index, depth and flag compute that scan, for any body |
| ProviderScanner.CloseBrace | src/transport/announce/router-verifier.test-fixtures.ts:61-75 | where the opening brace closes, or that it never does |
| Fifo.StillHeld | src/verify/cache.ts:40-57 | an entry of a bounded first-in first-out memo is forgotten only once it has filled up behind it |
| RuleCaches.RuleCache.constructor | src/rules/cache.ts:79-82 | the memo starts empty |
| RuleCaches.RuleCache.Set | src/rules/cache.ts:87-96 | never overwrites, keeps map and queue in step, forgets at most the oldest |
| RuleCaches.RuleCache.PurgeBelow | src/rules/cache.ts:98-108 | exactly the covered entries of earlier epochs go, the others keep their order |
| RuleCaches.RuleCache.MemoMany | src/rules/cache.ts:178-221 | reads at most once, the distinct misses in first-seen order; every position gets the stored or the read value; a short or failed read stores nothing |
| RuleCaches.FirstSeenElements | src/rules/cache.ts:187-196 | the looked-up keys are the given ones, each once |
| RuleCaches.FirstSeenInOrder | src/rules/cache.ts:187-196 | in the order in which they first occur |
| RuleCaches.MissingElements | src/rules/cache.ts:198-208 | the read keys are exactly those not stored |
| NftBalance.InterleavingDoesNotMatter | src/rules/nft-balance.ts:88-131 | however the workers interleave, each wallet's place ends up with its own balance |
| NftBalance.ChunksAreClaimedOnce | src/rules/nft-balance.ts:112-116 | no chunk is in two workers' hands |
| NftBalance.ReadsAreBounded | src/rules/nft-balance.ts:88-131 | never more than two reads at once, and none of more than 200 wallets |
| NftBalance.BalanceBatch.Claim | src/rules/nft-balance.ts:114-116 | takes the model's claiming step |
| NftBalance.ReadsAreRetriedOnce | src/rules/nft-balance.ts:119-124 | every chunk is read at most twice, again only if its first read failed, and a worker rejects exactly when both failed |
| NftBalance.ResolvesExactly | src/rules/nft-balance.ts:88-131 | once no worker is reading, either every balance is in place or a chunk failed twice and the call rejects |
| NftBalance.BalanceBatch.Fails | src/rules/nft-balance.ts:119-124 | takes the model's step: once more, or reject |
| NftBalance.BalanceBatch.Returns | src/rules/nft-balance.ts:125-128 | the balances land in the chunk's own stretch of the array and nowhere else |
| GateRules.PinnedRuleMeans | src/rules/erc721-min-balance.ts:64-90 | enough at the ballot's own block qualifies with the whole balance; a failure says what was short and may be blamed |
| GateRules.HeadRuleMeans | src/rules/erc5192-min-balance.ts:253-298 | declared and held at the head, else at the ballot's own block, qualifies with that balance; a failure gives the own block's reason and is blamed on nobody |
| GateRules.EpochMeans | src/rules/erc5192-min-balance.ts:94 | heads share their memo exactly within one window of 30 blocks |
| GateRules.HeadAnswersAreRecent | src/rules/erc5192-min-balance.ts:249-252 | a memoised head answer was read at most 29 blocks from the head |
| GateRules.CurrentKeeps | src/rules/erc5192-min-balance.ts:250-252 | a call purges exactly the head's entries of earlier windows, and no pinned one |
| GateRuleBatches.ScoreAt | src/rules/erc5192-min-balance.ts:138-184 | each wallet is scored from the stored declaration and balance where there are such, else from the chain at the leg's block; duplicates alike; the memo stays sound, and what it then holds is determined, what is forgotten included |
| GateRuleBatches.Declared | src/rules/erc5192-min-balance.ts:150-162 | the stored declaration where there is one, else the contract's own, probed once and stored |
| GateRuleBatches.EvaluateMany | src/rules/types.ts:147-150 | for any cache contents and any window, every position gets exactly what `Evaluate` returns for that wallet alone from the same contents; with nothing memoised, the rule at the head |
| GateRuleBatches.FallBack | src/rules/erc5192-min-balance.ts:264-291 | exactly the refused wallets are scored again, each at its own block, in place |
| GateRuleBatches.Evaluate | src/rules/erc5192-min-balance.ts:205-208 | the answer, and the memo left, that the cache's contents, the head and the wallet determine |
| GateRuleMapping.CallLeaves | src/rules/cache.ts:87-96 | a call leaves current entries and what it read at the head, and pushes out no more than four entries can |
| GateRuleMapping.SameAnswerExactly | src/rules/erc5192-min-balance.ts:253-298 | two memos answer a wallet alike if and only if the declaration and balance found in each decide alike |
| GateRuleMapping.MappingIsTheBatchExactly | src/rules/types.ts:147-150 | for any cache, full or not: mapping the single rule equals the batch if and only if each call finds what decides as the contents at the start do; and so whenever the head bears out every entry that the calls can push out |
| GateRuleBatches.EvaluateEach | src/rules/types.ts:147-150 | the calls one after another through one cache, with no condition on its room: that mapping, and the batch's answers exactly under that condition |
| GateRuleMapping.ForgottenInBetween | src/rules/cache.ts:92-95 | in a full cache whose next entries to go are the declaration and a stale balance of `b`, a call for another wallet makes `b` qualify whom the cache refused |
| GateRuleBatches.MappingForgetsWhatTheBatchFinds | src/rules/types.ts:147-150 | a concrete run of calls from new caches: after one refusal of `b`, mapping over `a` and `b` admits `b` and the batch refuses it |
| GateRules.MemoisedAnswerExactly | src/rules/erc5192-min-balance.ts:87-92 | a memoised answer is the head's own if and only if, by the declaration and balance used, both admit with one balance, neither admits, or the one that admits agrees with the ballot's own block |
| GateRuleBatches.SteadyBatchIsTheSingleRule | src/rules/erc5192-min-balance.ts:87-96 | over a window in which nothing read changes, any batch is the rule at the head, whatever was cached or evicted |
| GateRuleBatches.StaleRefusalWithinTheWindow | src/rules/erc5192-min-balance.ts:87-92 | two calls in one window: the second returns the first one's refusal though the head now admits the wallet |
| GateRuleBatches.EvaluateManyPinned | src/rules/erc721-min-balance.ts:64-90 | grouped by block, the batch equals the single rule mapped in order, for any duplicates and blocks: a wallet qualifies exactly with at least `min` at its own block |
| GateRuleBatches.GroupByBlock | src/rules/erc721-min-balance.ts:71-73 | every chosen position in the group of its own block, and only there |
| Lru.NeverAnOlderValue | src/storage/browser.ts:47-92 | with calls one after another, a get finds the last value set or nothing; the counter never under-counts; both halves hold fewer than twice `maxItems` |
| LruInterleaving.LatestValueExactly | src/storage/browser.ts:71-86 | however calls overlap, at every moment each key is found with the value last written for it or not at all, if and only if no promotion writes a value its key has lost |
| LruSizes.SizesAreBounded | src/storage/browser.ts:47-64 | however calls overlap, the counter stays below `maxItems` plus the calls awaiting a length, and neither half exceeds a bound given by `maxItems` and the most calls under way |
| LruBounds.WithinLimitsExactly | src/storage/browser.ts:55-86 | the limits of calls one at a time hold throughout a run if and only if no step rewrites a key that left the active half without slack, applies a short length out of date, or swaps an overfilled half |
| LruBounds.OneAtATimeIsBounded | src/storage/browser.ts:55-86 | with one call under way at a time they hold, removals in its middle included |
| LruBounds.StepLosesExactly | src/storage/browser.ts:47-64 | a step loses a key exactly if it removes it, or swaps while only the older half has it |
| LruBounds.RecentKeysAreFoundExactly | src/storage/browser.ts:47-86 | however calls overlap, throughout a run every key is found until `maxItems` others are touched after it, if and only if no step swaps the halves while such a key is outside the active one |
| LruBounds.RecentKeysAreFoundStill | src/storage/browser.ts:71-86 | in particular, unless a half is swapped twice for one filling, a key is found until `maxItems` others are touched after it |
| LruBounds.OverlappingSetsOverfill | src/rules/cache.ts:214-218 | a concrete run: two overlapping sets leave a half with twice its limit |
| LruBounds.DoubleSwapLosesBoth | src/storage/browser.ts:55-64 | a concrete run: two overlapping sets are both lost |
| LruBounds.OvertakenSetIsNotCounted | src/storage/browser.ts:81-86 | a concrete run: a set that a swap overtakes is not counted |
| LruInterleaving.SetAloneIsAtomic | src/storage/browser.ts:81-86 | a set left alone between its awaits is the atomic one |
| LruInterleaving.GetAloneIsAtomic | src/storage/browser.ts:71-79 | a get left alone between its awaits is the atomic one, a hit in the older half promoted |
| Lru.RecentKeysAreFound | src/storage/browser.ts:71-79 | a key touched before fewer than `maxItems` others, and not removed, is found with its last value |
| Lru.LatePromotionExactly | src/storage/browser.ts:75-78 | a promotion that lands late leaves the store right if and only if the key still has the value it read |
| Lru.OvertakenGetResurrects | src/storage/browser.ts:75-78 | a concrete run where an overtaken get brings the older value back |
| Lru.ReopenKeepsValuesExactly | src/storage/browser.ts:41-46 | reopening finds the same values if and only if the halves keep their roles or agree where they overlap |
| Lru.ReopenIsLosslessWithoutRemovals | src/storage/browser.ts:41-46 | a store nothing was removed from loses nothing by being reopened |
| Lru.ReopenAfterRemovalIsStale | src/storage/browser.ts:41-46 | a concrete run where reopening returns an older value |
| LruStorages.LruStorage.constructor | src/storage/browser.ts:30-33 | a fresh store is empty |
| LruStorages.LruStorage.Swap | src/storage/browser.ts:47-51 | the full half becomes the inactive one and the other is emptied |
| LruStorages.LruStorage.Grow | src/storage/browser.ts:55-64 | takes the specified step, reconciling the counter before a swap |
| LruStorages.LruStorage.Write | src/storage/browser.ts:84 | the key and value go to the half that is active by then |
| LruStorages.LruStorage.Count | src/storage/browser.ts:56-61 | one more is counted; the length is asked for exactly at the limit |
| LruStorages.LruStorage.Measure | src/storage/browser.ts:61-62 | the counter takes the length, and a full half swaps |
| LruStorages.LruStorage.SetItem | src/storage/browser.ts:81-86 | those steps with nothing in between are the atomic set |
| LruStorages.LruStorage.GetItem | src/storage/browser.ts:71-79 | answers from the active half first, and promotes a hit in the older one |
| LruStorages.LruStorage.RemoveItem | src/storage/browser.ts:88-91 | the key leaves both halves, the counter stays |
| LruStorages.LruStorage.Keys | src/storage/browser.ts:93-97 | exactly the keys a get would find |
| LruStorages.LruStorage.Clear | src/storage/browser.ts:99-102 | both halves are emptied, the counter stays |
| AcceptedDedups.AcceptedDedup.constructor | src/transport/accepted-dedup.ts:39-41 | starts with no choice accepted |
| AcceptedDedups.AcceptedDedup.IsResignDuplicate | src/transport/accepted-dedup.ts:50 | true exactly for a remembered wallet, bucket and choice |
| AcceptedDedups.AcceptedDedup.Record | src/transport/accepted-dedup.ts:51-60 | set and queue stay in step, distinct and bounded, oldest out first |
| AcceptedDedups.SameChoiceExactly | src/transport/accepted-dedup.ts:42-48 | two bundles are one choice exactly if they agree in wallet, bucket and votes |
| AcceptedDedups.DropChangesNoCountExactly | src/transport/gossip-validator.ts:202-206 | dropping a bundle leaves the wallet's counted votes the same at every bucket if and only if it would not win or repeats the winner's choice and bucket |
| AcceptedDedups.NeverMissedExactly | src/transport/gossip-validator.ts:202-206 | a dropped bundle is missed by no count, whatever pending bundles are evicted later, if and only if a settled bundle beats it, or a settled one below it carries its choice and bucket with all those in between |
| AcceptedDedups.OtherWalletsUnmoved | src/crdt/crdt.ts:88-105 | a bundle of one wallet changes no other wallet's count |
| AcceptedDedups.ChoiceComesBackTooLate | src/transport/gossip-validator.ts:202-206 | the choices A, B, A in one bucket: the third is dropped although it would have counted |
| GossipGates.OnlyVerifiedIsKept | src/transport/gossip-validator.ts:189-215 | on every run of messages, each remembered choice and admitted bundle was freshly verified and stored, and each cached verdict is terminal and the verifier's own; both memories stay bounded |
| GossipGates.AnswersMean | src/transport/gossip-validator.ts:158-216 | on every run: a rejected message is malformed, or its own CID was judged a provable rejection by the verifier; an accepted bundle's own CID was judged valid; votes and choices change only on a fresh valid accept |
| GossipGates.RootAnswers | src/transport/gossip-validator.ts:170-177 | a root message is rejected exactly over its cap, else accepted exactly within its sender's rate |
| GossipGates.BundleAnswers | src/transport/gossip-validator.ts:179-215 | which answer each check of a bundle message gives, in their order, and what it keeps |
| GossipGates.GossipGate.constructor | src/transport/gossip-validator.ts:139-156 | starts knowing nothing |
| GossipGates.KeepElements | src/verify/cache.ts:40-57 | a held verdict is never replaced; a terminal one is kept, at most the oldest forgotten for it; cache and queue stay in step |
| GossipGates.GossipGate.DoValidate | src/transport/gossip-validator.ts:158-216 | answers by the first check that applies and keeps what that check allows |
| GossipGates.GossipGate.Validate | src/transport/gossip-validator.ts:219-224 | an expired deadline replaces the answer only; the validation it overtakes still takes effect |
| GossipOverlaps.OverlapsKeepOnlyVerified | src/transport/gossip-validator.ts:189-215 | however validations overlap at their awaits: what is cached, remembered, stored, accepted or rejected rests on a verdict given to that very CID while a validation of it waited for one |
| GossipOverlaps.NoneRepeatsExactly | src/transport/gossip-validator.ts:202-214 | throughout a run no validation past the re-sign guard carries a choice already accepted, if and only if no acceptance overtakes another validation of its choice |
| GossipOverlaps.AloneIsAtomic | src/transport/gossip-validator.ts:158-216 | a validation left alone between its awaits makes the one decision and change of the sequential gate |
| GossipOverlaps.OverlappingResignsBothPass | src/transport/gossip-validator.ts:206-214 | a concrete run: two overlapping re-signs of one choice are both admitted and forwarded |
| PublicationModel.AttemptOnlyClimbs | src/client/voter.ts:2764-2876 | on every sequential run, from "signing" on within an attempt the state only climbs or falls to failed, which is final until the next publish |
| PublicationModel.LateCallbacksMoveNothing | src/client/voter.ts:2773-2792 | a callback of an earlier attempt moves nothing |
| PublicationModel.BeforeSigning | src/client/voter.ts:2823-2837 | before "signing" only signing itself or the attempt's own failure is reported |
| PublicationModel.WhatAReturnedPublishLeaves | src/client/voter.ts:2861-2868 | a publish that returned leaves published or further, or failed |
| PublicationModel.OnlyJoiningGoesBack | src/client/voter.ts:2837 | from any state, a step takes the state back if and only if it is a call passing its preflight once the state is beyond "signing" |
| PublicationModel.UndoneExactly | src/client/voter.ts:2837 | on every run, overlaps included: a begun attempt can still go back if and only if a superseded call has not passed its preflight |
| PublicationModel.OverlappingPublishUndoesFailure | src/client/voter.ts:2837 | a concrete overlapping run that brings a failed attempt back to signing |
| PublicationModel.VerdictsSettle | src/client/voter.ts:2773-2792 | what a local verdict, a peer's checkpoint and an eviction make of every state of the current attempt |
| PublicationModel.OnlyItsOwnStepReaches | src/client/voter.ts:2764-2876 | which step each state can come from, whatever calls overlap |
| PublicationModel.VerdictsWereTold | src/client/voter.ts:2843-2855 | on every run: verified by a peer, verified locally and failed rest on that very callback, or a throw, of the attempt then current |
| Publications.ContestVotePublication.constructor | src/client/voter.ts:2793-2798 | starts stopped |
| Publications.ContestVotePublication.Publish | src/client/voter.ts:2823-2828 | claims the attempt before any await |
| Publications.ContestVotePublication.Joined | src/client/voter.ts:2835-2838 | takes the model's step to signing |
| Publications.ContestVotePublication.Signed | src/client/voter.ts:2857-2861 | takes the model's step, walking no verdict back |
| Publications.ContestVotePublication.Sent | src/client/voter.ts:2862-2868 | takes the model's step after the broadcast |
| Publications.ContestVotePublication.Throws | src/client/voter.ts:2869-2875 | fails the object only for the current attempt |
| Publications.ContestVotePublication.Settle | src/client/voter.ts:2786-2791 | takes the model's settling step |
| Publications.ContestVotePublication.OnVerified | src/client/voter.ts:2843 | takes the model's step of a local verdict |
| Publications.ContestVotePublication.OnCheckpointedByPeer | src/client/voter.ts:2844 | takes the model's step of a peer's checkpoint |
| Publications.ContestVotePublication.OnEvicted | src/client/voter.ts:2848-2855 | takes the model's step of an eviction |
| TallyModel.RowsHold | src/tally/tally.ts:116-132 | a row's weight is the sum of contributions, verified exactly if every contributor is, resolved exactly if some carried name is |
| TallyModel.RowsIgnoreOrder | src/tally/tally.ts:116-132 | rows depend only on the set of current bundles |
| TallyModel.WeightIsConserved | src/tally/tally.ts:116-132 | the rows' weights add up to each bundle's weight times its votes; withdrawals add nothing |
| TallyModel.WeightsSize | src/tally/tally.ts:143 | comparing the number of distinct weights with the number of rows detects exactly the ties |
| TallyModel.NoTieNeedsNoSeed | src/tally/tally.ts:143-147 | without a tie the plain sort is what the seeded sort would give |
| TallyModel.RankingIgnoresOrder | src/tally/tally.ts:112-157 | with distinct seeds the ranking is one, for every presentation and listing order: by weight, the heaviest first, then by seed bytes, index by index |
| Tallies.Accumulate | src/tally/tally.ts:116-132 | the loops compute those rows |
| Tallies.Rank | src/tally/tally.ts:141-156 | the rows, heaviest first, equal weights in the order of their seed bytes; seeds are asked for exactly when two weights tie |

## Left out

- Signatures, hashing, the binary encoding, base58 and schema checks: parameters, injective or readable back where compared.
- The network: gossip, fetches, bitswap, announces, cold start, the bulk root puller, heartbeats and snapshot debounce.
- Timer delays, backoff and jitter: a timer firing is a step; only the grace comparison uses the clock.
- Own-publish tracking and event listeners of the engine, and host callbacks that throw.
- Pruning.PruningIsUnobservable: for runs whose buckets do not decrease and whose settled bundles stay settled and are not evicted; PruningLimits gives the exact conditions outside them.
- ContestEngines.ContestEngine.PruneDecayed: one step, where the source has an await between pruning the set and dropping the checks.
- ContestEngines.ContestEngine.WriteSnapshot: nothing happens at its awaits; the separate methods and SnapshotModel say what may. A store that fails to write is not modelled.
- EngineVerifier.NobodyIsForgottenExactly: a chase may admit any bundle pending at any time; which ones it skips, and own-publish callbacks, are left out.
- BackgroundSettlement.EveryBundleSettlesOnce: resolutions shared within a round are not modelled; a resolver may answer each request freely. The retry backoff count is left out.
- CoalescerRefinement.PoolRefinesDirectExactly: over chains that answer a chunk with one faithful result per read; a short answer settles the rest as "no result" in the model too, but the theorem does not cover it. What reads passed through singly return is left out; CoalescerBudget counts them.
- Coalescers.Coalescer.Decompose: waiting for all entries is left to the caller, which then puts them together.
- CheckpointCodec.DecodeCheckpoint: chunks are fetched one after another, so of several errors the first in root order is reported, where the source reports the first in time.
- ProviderRecord.ScannerFindsTheSignedBytes: strings of Unicode scalar values, and integer timestamps; lone surrogates are left out.
- RuleCaches.RuleCache.MemoMany: the lookups are one step; the persistent tier is left out, being another source of hits and misses behind the same interface.
- GateRuleBatches.EvaluateMany: the groups' fallback legs run one after another in any order, and values are numbers rather than decimal strings.
- NftBalance.BalanceBatch.Returns: one balance per wallet of the chunk, as a multicall without tolerated failures gives.
- Lru.NeverAnOlderValue: operations that do not overlap, and values that are not null; LruInterleaving, LruSizes and LruBounds say what survives overlaps.
- LruInterleaving.LatestValueExactly: a database operation takes effect when it is issued; one that fails is left out.
- GateRuleMapping.MappingIsTheBatchExactly: calls one after another at one head.
- GossipGates.GossipGate.DoValidate: one message at a time, through to its end; GossipOverlaps is the overlapping form, on values, where a deadline that overtakes a validation is left out as it changes only the answer.
- PruningFutures.PruneBeforeRecordExactly: if the prune drops the bundle itself, the check recorded for it afterwards, which no bundle has, is left out.
- PublicationModel.AttemptOnlyClimbs: for publish calls made one after another.
- TallyModel.RowsIgnoreOrder: which of several different names a row shows depends on the order and is not claimed.
- The name-resolution cache, the sqlite backend, eligibility checks, and rules other than the two token gates.
