# Culvert: protocol and store proofs

Culvert is a forward proxy.  This project models the parts of its root package
whose correctness depends on what happens over whole runs: lost responses, saves
that fail, crashes between two file writes, and threads that interleave.

| module | source | what it is |
|---|---|---|
| `Wrappers` | internal/fileutil/fileutil.go | optional values and the three ways an atomic write can end |
| `TwoCopies` | cdrstore.go, cdr_enroll_receipts.go, cdrpolicy.go, auth_idp.go | memory and file of a store, and which steps part them |
| `Lineage` | cdr_lineage.go | the credential generations of one Sluice instance, on values |
| `InstanceRegistry` | cdrstore.go, cdr_lineage.go | the persisted registry that edits lineages in place |
| `TrustProtocol` | cdr_health.go, cdr_lineage.go, cdr_ui.go | renew, revoke and delete between the appliance and Sluice, as a transition system |
| `TrustCeremonies` | cdr_health.go, cdr_lineage.go, cdr_ui.go | what each of those ceremonies achieves when nothing fails |
| `StalePoller` | cdr_health.go, cdr_lineage.go | resolving from a snapshot, and entries older than the lineage |
| `RemovalCeremony` | cdr_lineage.go, cdr_ui.go | what runs before an instance is removed |
| `KeySwap` | cdr_health.go, cdr_lineage.go | the two-file PEM swap and its completion at boot |
| `EnrollReceipts` | cdr_enroll_receipts.go | the receipt store |
| `Enrollment` | cdr_ui.go, cdr_enroll_receipts.go | enrollment and recovery, as a transition system over the receipt store |
| `EnrollmentOutcomes` | cdr_ui.go, cdr_enroll_receipts.go | what each handler and each recovery does to its receipt |
| `Jwks` | auth_oidc_flow.go | the JWKS key cache under every interleaving of lookups |
| `AuthPolicy` | authpolicy.go, policy.go | the two Stage-1 authentication resolvers |
| `AuthBackend` | auth_backend_health.go, auth_ldap.go, auth_oidc.go, auth_oidc_flow.go | probe gate and verdict cache under concurrent calls |
| `Settings` | admin_settings.go | persist before apply |
| `IdpRegistry` | auth_idp.go | identity-provider profiles and the providers compiled from them |
| `BulkImport` | bulk_ref_validation.go | the effective import candidate and its validation |
| `CdrPolicy` | cdrpolicy.go | in-place sort, evaluation, and the policy store over runs |
| `VerdictCache` | cdr_proxy.go | the epoch-tagged verdict cache against policy changes and other requesters |
| `Breaker` | cdr_breaker.go, cdr_pool.go | circuit breaker and round-robin pool |
| `KeyAtRest` | cdr_client_keyatrest.go | encrypting a stored key without losing it |

Code that mutates fields, slices or files is a class or a method with loops, proved
against a function on values; the functions then carry the run properties.
Transition systems have total step functions (an event that is not enabled changes
nothing), so a run is any list of events.

## What the model assumes

- When an RPC to Sluice returns or its connection is gone, its effect at Sluice has
  either happened or never will; Sluice answers status questions truthfully and
  binds one credential per operation id.  A RevokeClient answer with an outcome, or
  with `revoked` set, is given only when the deny is in force.
- Operation ids and certificate fingerprints are new when they are made.
- The clock does not go back.  Clock readings, network answers, matcher results and
  the outcome of each write are parameters.
- An atomic write ends in one of three ways: written, not written, or replaced but
  reported as failed because the directory could not be synced.  A single rename is
  atomic; a plain file write can be cut short.

## Where the code and its comments differ

The model follows the code.  Each difference has its exact condition as a theorem.

- Memory equals disk: a save can report an error after it replaced the file, and the
  stores then keep or restore the old memory; `CDRPolicyStore.Replace` changes memory
  without a save; a start drops reserved identity-provider profiles without rewriting
  the file.  Over every run, from equal copies, they are equal at the end if and only
  if no such step has stood since.  `InstanceRegistry.MemoryEqualsDiskIff`,
  `EnrollReceipts.MemoryEqualsDiskIff`, `CdrPolicy.MemoryEqualsFileIff`,
  `IdpRegistry.PublishedEqualsPersistedIff`; for settings
  `Settings.UnacknowledgedTargetReturnsIff`.
- No credential Sluice trusts is forgotten: a delete whose save reports an error after
  it replaced the file reports no fingerprint, and after a restart nothing names the
  instance.  `TrustProtocol.TrustStaysAccountedIff` with the run
  `TrustProtocol.HalfDeleteForgets`; for enrollment `Enrollment.HalfDeleteIsSafeIff`
  with `Enrollment.HalfDeleteForgets`.
- A cached yes is less than one TTL old: its lifetime is counted from a clock reading
  after the answer, and a call can stall between the two.
  `AuthBackend.PositiveAnswersAreYoungIff` with the run
  `AuthBackend.StalledCallServesAnOldYes`.
- An acknowledged setting is live and stays on disk: what is written and what the
  callback installs are independent, and the next save writes what is live.
  `Settings.AcknowledgedSettingSurvivesIff`.
- The boot finishes a half-done key swap: only from a start without a leftover key
  `.tmp` file, and not after a crash inside the key write, which is not atomic.
  `KeySwap.SwapIsAtomicIff`, `KeySwap.TornKeyWriteBreaksTheSwap`; how a leftover
  comes about and when, over sequences of renewals: `KeySwap.TornKeyTmpOutlivesTheBoot`,
  `KeySwap.NextSwapIsAtomicIff`.
- The poller resolves by sequence number from an earlier snapshot.
  `StalePoller.SplitPollIsSafeIff`.
- Keys past the one-day ceiling are never served: a follower of a finished but
  unpublished refresh checks no age.  `Jwks.CeilingHoldsIffPublishedInTime`.
- A cached verdict belongs to the policy of its epoch: the epoch is read after the
  policy is evaluated.  `VerdictCache.ServedVerdictsAreCurrentIff`.  The cache is
  keyed by content alone, so a verdict reached under one requester's profile is served
  to another.  `VerdictCache.ServedVerdictsAreOwnIff`.
- The published rulebase is sorted with an unstable sort, the simulator's copy with a
  stable one.  `AuthPolicy.OrderMattersIffTied`.
- A bulk replacement of identity providers does not check ids for uniqueness.
  `IdpRegistry.ReplacementServesAllIff`.
- `Load` keeps a CDR policy file in file order although evaluation takes the first
  match.  `CdrPolicy.FirstIsBestIffDescending`.

## Model

| member | source | states |
|---|---|---|
| `TwoCopies.EqualIffNotParted` | internal/fileutil/fileutil.go:103-160 | from equal copies, memory and file end equal if and only if no step put a different value on one side with nothing touching either since |
| `Lineage.DropDeadKeepsLive` | cdr_lineage.go:203-217 | pruning drops no live generation and adds none, whatever the excess |
| `Lineage.DropDeadIsOldestFirst` | cdr_lineage.go:203-217 | what pruning drops are the oldest dead generations; the rest keeps its order |
| `Lineage.NormalizeKeeps` | cdr_lineage.go:121-133 | a pre-lineage entry with a fingerprint becomes a well-formed lineage of one active generation carrying it; any other entry is unchanged; doing it twice is doing it once |
| `Lineage.StageKeeps` | cdr_lineage.go:223-250 | staging keeps the lineage well formed, adds one renewing generation under an unused sequence number, and drops no more than it must to leave sixteen |
| `Lineage.RecordKeeps` | cdr_lineage.go:255-271 | recording an issued credential keeps one active, one unresolved, distinct sequence numbers, and the dial fingerprint |
| `Lineage.ActivateKeeps` | cdr_lineage.go:276-296 | activation leaves exactly the target active and dialled and the former one superseded; every other generation is unchanged |
| `Lineage.DropKeeps` | cdr_lineage.go:300-310 | dropping an unissued renewal removes that renewing generation only |
| `Lineage.MarkKeeps` | cdr_lineage.go:315-335 | marking a revoked fingerprint records it as revoked and keeps every other generation |
| `Lineage.MarkTouchesOne` | cdr_lineage.go:315-335 | marking changes the state of one holder of the fingerprint, or appends one record, and nothing else |
| `Lineage.OrphanKeeps` | cdr_lineage.go:375-421 | orphaning a staged generation changes its state only, and keeps the lineage well formed, the name, the dial fingerprint and every other generation |
| `InstanceRegistry.MutateProjects` | cdr_lineage.go:176-198 | an edit touches the named instance only and is acknowledged exactly when it applies and is cleanly saved; memory changes exactly then, the file exactly when it was replaced, and then it holds memory with the edit |
| `InstanceRegistry.WithoutProjects` | cdrstore.go:238-262 | removal takes out the named instance and no other |
| `InstanceRegistry.MemoryEqualsDiskIff` | cdrstore.go:126-262 | over every run of edits, additions, removals, saves and restarts from equal copies, memory equals the file if and only if no different list saved but reported as failed stands |
| `InstanceRegistry.PruneLineage` | cdr_lineage.go:203-217 | the pruning loop computes the oldest-dead-first pruning |
| `InstanceRegistry.LiveFingerprints` | cdr_lineage.go:138-161 | lists exactly the fingerprints of live generations, without repeats, a dialled one first; a pre-lineage entry gives its recorded fingerprint |
| `InstanceRegistry.CDRInstanceRegistry.Commit` | cdr_lineage.go:176-198 | installs, saves and rolls back in the three outcomes of a write |
| `InstanceRegistry.CDRInstanceRegistry.SaveLocked` | cdrstore.go:171-183 | the file holds memory unless the write failed before replacing it |
| `InstanceRegistry.CDRInstanceRegistry.StageRenewal` | cdr_lineage.go:223-250 | the new registry, sequence number and every refusal are those of the staging edit |
| `InstanceRegistry.CDRInstanceRegistry.RecordIssuedCredential` | cdr_lineage.go:255-271 | the new registry and every refusal are those of the recording edit |
| `InstanceRegistry.CDRInstanceRegistry.ActivateCredential` | cdr_lineage.go:276-296 | the new registry and every refusal are those of the activation edit |
| `InstanceRegistry.CDRInstanceRegistry.DropUnissuedRenewal` | cdr_lineage.go:300-310 | the new registry and every refusal are those of the drop edit |
| `InstanceRegistry.CDRInstanceRegistry.MarkCredentialRevoked` | cdr_lineage.go:315-335 | the new registry is that of the revocation edit, for known and unknown fingerprints |
| `InstanceRegistry.CDRInstanceRegistry.Add` | cdrstore.go:196-229 | a blank name or endpoint and a taken name change nothing; otherwise the instance is appended with a normalised lineage and saved, or rolled back |
| `InstanceRegistry.CDRInstanceRegistry.RemoveByName` | cdrstore.go:238-262 | a missing name changes nothing; a present one is removed and saved, or restored |
| `TrustProtocol.ResolutionKeepsSound` | cdr_health.go:368-405 | acting on Sluice's answer about a renewing generation always succeeds and forgets no trusted credential |
| `TrustProtocol.StepKeepsInv` | cdr_health.go:233-308 | each of nineteen protocol, failure, crash and operator events keeps the trust invariant on memory and on disk |
| `TrustProtocol.TrustIsNeverForgotten` | cdr_lineage.go:176-310 | the invariant holds over every run |
| `TrustProtocol.EnrolledInstanceKeepsTrust` | cdr_health.go:233-405 | from enrollment on, in memory and after any restart, every credential Sluice trusts is named by a generation or has its operation id in a renewing one; at most one active, at most one unresolved, distinct sequence numbers; once the instance is gone every such credential has been reported, unless a delete failed after replacing the file |
| `TrustProtocol.LiveFpsComplete` | cdr_lineage.go:138-161 | with nothing unresolved, the live fingerprints include every credential Sluice trusts |
| `TrustProtocol.RevocationIsComplete` | cdr_ui.go:969-1082 | when revoke-by-name removes the instance, with truthful revocation replies, every credential Sluice ever issued to it is denied or expired |
| `TrustProtocol.ProvenIffDenied` | cdr_ui.go:895-915 | a reply counts as proof if and only if it can only be given while Sluice denies the credential |
| `TrustProtocol.ServersProve` | cdr_ui.go:886-895 | a 0.3 server always proves the deny; a 0.2 server proves it exactly for a credential it issued and had not denied |
| `TrustProtocol.DeleteReportsAllTrust` | cdr_ui.go:238-323 | a delete changes nothing at Sluice; acknowledged, it has reported all that Sluice still trusts, otherwise it reports nothing |
| `TrustProtocol.HalfDeleteForgets` | cdr_ui.go:274-297 | the failing run: a delete answered with an error after replacing the file, then a restart, leaves a trusted credential neither named nor reported |
| `TrustProtocol.EnrollmentOf` | cdr_ui.go:660-678 | for every credential still valid, the enrolled world the run lemmas start from exists |
| `TrustProtocol.TrustStaysAccountedIff` | cdr_ui.go:274-297 | over every continuation without another such delete, each trusted credential stays named or reported, if and only if it is not the case that memory holds the instance, the file does not, and Sluice trusts something unreported |
| `TrustCeremonies.CleanRenewalActivates` | cdr_health.go:233-308 | a renewal that can be staged and meets no failure ends with the new generation active and dialled, in memory and file, and forgets no live one |
| `TrustCeremonies.ResolutionSettles` | cdr_health.go:368-405 | asking Sluice drops an unissued renewal, and records an issued one with its fingerprint, as revoked exactly if denied |
| `TrustCeremonies.BootSettles` | cdr_lineage.go:375-421 | a staged generation becomes active and dialled when its certificate is on disk, orphaned otherwise |
| `TrustCeremonies.DenialIsRecorded` | cdr_lineage.go:315-335 | a deny outside any ceremony is recorded for known and new fingerprints, losing no other generation |
| `TrustCeremonies.RevokeByNameSucceeds` | cdr_ui.go:969-1082 | revoke-by-name that meets no failure removes the instance from memory and file with every issued credential denied or expired |
| `TrustCeremonies.DeleteSucceedsIff` | cdr_ui.go:238-323 | a delete takes the instance out of memory exactly on a clean save, and out of the file unless it was not written |
| `StalePoller.SplitPollIsSafeIff` | cdr_health.go:349-405 | resolving from a snapshot is sound for every state of Sluice if and only if that sequence number still renews the same operation |
| `StalePoller.StalePollForgets` | cdr_health.go:368-405 | a stale poll drops another operation's intent, and Sluice can trust a credential nothing names |
| `StalePoller.SeqIsReusedAfterDrop` | cdr_lineage.go:237-242 | dropping a renewal frees its sequence number for the next operation |
| `StalePoller.LegacyPredecessorTargetedIff` | cdr_lineage.go:121-133 | after the first renewal of a pre-lineage entry, revocation reaches the predecessor if and only if its fingerprint had been recorded |
| `RemovalCeremony.ResolveUnresolved` | cdr_lineage.go:476-517 | succeeds exactly when nothing is renewing, or the answer settles it and the edit is saved; then no generation is renewing and exactly that edit was made; failure leaves memory unchanged |
| `RemovalCeremony.SettledLeavesNoRenewing` | cdr_lineage.go:476-517 | an answer that settles the one renewing generation leaves none |
| `RemovalCeremony.HonestAnswerIsResolution` | cdr_lineage.go:476-517 | under a truthful answer the ceremony's edit is the protocol's resolution step |
| `RemovalCeremony.MarkAllRecords` | cdr_ui.go:1042-1057 | after the proofs are recorded one by one, each fingerprint is recorded as revoked and none recorded before is lost |
| `RemovalCeremony.RevokeGenerations` | cdr_ui.go:1042-1057 | stops at the first fingerprint whose deny is unproven or unrecorded; every earlier one is proven, in the lineage and, with truthful replies, denied at Sluice |
| `KeySwap.SafeIffConsistent` | cdr_lineage.go:375-421 | the disks from which a boot ends with one working pair and the right verdict, exactly |
| `KeySwap.InterruptedKeepsSafe` | cdr_lineage.go:375-421 | any number of recoveries cut short keeps such a disk safe |
| `KeySwap.SwapIsAtomicIff` | cdr_health.go:314-341 | for crashes at every point with an atomic key write, and again during recovery, the swap is atomic if and only if it starts without a leftover key .tmp |
| `KeySwap.NewBundleFromKeyWriteOn` | cdr_health.go:314-341 | the new bundle survives exactly from the finished key write on |
| `KeySwap.TornKeyWriteBreaksTheSwap` | cdr_health.go:327-331 | a crash inside the key write ends with the new certificate, a torn key and an active generation |
| `KeySwap.InstallLeaves` | cdr_health.go:314-341 | a successful install leaves the new pair and no temporary file; a failed one the old key, under the old certificate or the new one with the new key beside it |
| `KeySwap.LeftoverIff` | cdr_health.go:314-341 | a sequence of renewals ends with a leftover key .tmp if and only if the last one that touched it left one: by a torn key write or, with no boot in between, by a failed rename |
| `KeySwap.RoundsKeepRunning` | cdr_health.go:314-341 | renewals that fail in any way, each followed by a boot, keep one working pair |
| `KeySwap.NextSwapIsAtomicIff` | cdr_lineage.go:375-421 | after any such sequence the next swap is crash-atomic if and only if the last renewal that touched the key .tmp did not tear it |
| `KeySwap.TornKeyTmpOutlivesTheBoot` | cdr_health.go:327-331 | a torn key write reported as failed survives the boot, and a crash in the next renewal then installs it |
| `KeySwap.CrashedRenewalSettles` | cdr_lineage.go:349-421 | after any safe crash and interrupted boots, one pair is on disk and the staged generation is active if it is the new one, orphaned otherwise |
| `KeySwap.PemStore.InstallRenewedPEMs` | cdr_health.go:314-341 | the four files after every combination of failing steps; succeeds exactly when none fails, and a failure from a clean start leaves a safe disk |
| `KeySwap.PemStore.FinishStagedRenewal` | cdr_lineage.go:375-421 | without errors it is the recovery; with a failing rename it stops at a disk recovery passes through |
| `EnrollReceipts.ComputeReceiptIntegrity` | cdr_enroll_receipts.go:132-172 | reports OK exactly on a healthy list, reports every malformed receipt and every duplicate pair, and reports nothing untrue |
| `EnrollReceipts.EvictionIsHarmless` | cdr_enroll_receipts.go:299-314 | eviction drops terminal receipts only, never the new one, and fails exactly when nothing evictable is left |
| `EnrollReceipts.FullStoreEvictsOldest` | cdr_enroll_receipts.go:257-314 | a full healthy store evicts exactly its oldest terminal receipt, or refuses |
| `EnrollReceipts.CreateDoes` | cdr_enroll_receipts.go:257-286 | a created receipt is there with only receipts from before; the refusals are exact |
| `EnrollReceipts.UpdateDoes` | cdr_enroll_receipts.go:324-354 | an update changes state, fingerprint, note and time of the last receipt of its operation and nothing else, in any list |
| `EnrollReceipts.DeleteDoes` | cdr_enroll_receipts.go:378-395 | a removal takes the first receipt of its operation, which must be terminal |
| `EnrollReceipts.DeleteAtDoes` | cdr_enroll_receipts.go:400-432 | a removal by position takes exactly that receipt, only while degraded and under the expected id |
| `EnrollReceipts.AcknowledgedIffLanded` | cdr_enroll_receipts.go:257-432 | memory moves exactly on a clean save of an accepted request; the file only to the planned list; the verdict follows removals and starts |
| `EnrollReceipts.RepairIsPossible` | cdr_enroll_receipts.go:400-432 | every degraded store with receipts can be repaired by positional removals alone |
| `EnrollReceipts.PlanKeeps` | cdr_enroll_receipts.go:257-432 | every accepted edit of a healthy list keeps it healthy, forgets nothing unresolved and rebinds nothing |
| `EnrollReceipts.StoreStaysGood` | cdr_enroll_receipts.go:198-432 | over every run of calls, failing writes and restarts both copies stay healthy and agree on bindings |
| `EnrollReceipts.UnresolvedNeverDisappears` | cdr_enroll_receipts.go:324-432 | an unresolved receipt leaves a healthy store only after it has been resolved under its original binding |
| `EnrollReceipts.MemoryEqualsDiskIff` | cdr_enroll_receipts.go:198-432 | over every run from equal copies, memory equals the file if and only if no accepted, different list saved but reported as failed stands |
| `EnrollReceipts.DamagedFileIsKept` | cdr_enroll_receipts.go:198-222 | after a start that could not parse its file, no run of calls changes the store or the file |
| `EnrollReceipts.ReceiptStore.Load` | cdr_enroll_receipts.go:198-222 | loading keeps the file verbatim and judges it; an unreadable or unparsable file degrades the store |
| `EnrollReceipts.ReceiptStore.CreateReceipt` | cdr_enroll_receipts.go:257-286 | the new store and the answer are those of the planned creation in all three write outcomes |
| `EnrollReceipts.ReceiptStore.FitCapacity` | cdr_enroll_receipts.go:299-314 | the eviction loop computes the oldest-first eviction |
| `EnrollReceipts.ReceiptStore.UpdateReceipt` | cdr_enroll_receipts.go:324-354 | the new store is that of the planned update; identity fields cannot change |
| `EnrollReceipts.ReceiptStore.DeleteReceipt` | cdr_enroll_receipts.go:378-395 | only a terminal receipt goes |
| `EnrollReceipts.ReceiptStore.DeleteReceiptAt` | cdr_enroll_receipts.go:400-414 | by position only while degraded and only under the expected id |
| `EnrollReceipts.ReceiptStore.RemoveAtLocked` | cdr_enroll_receipts.go:416-432 | removal, new verdict and rollback in all three write outcomes |
| `Enrollment.SetStateKeepsInv` | cdr_enroll_receipts.go:324-354 | a receipt may move to a state when the fingerprint written is the issued one and a terminal state is backed by the registry |
| `Enrollment.PersistsKeepsInv` | cdr_ui.go:594-680 | storing an issued credential, failing in any way, keeps it recoverable |
| `Enrollment.RecoveryKeepsInv` | cdr_enroll_receipts.go:568-702 | recovery of an operation with no open dispatch keeps every credential recoverable |
| `Enrollment.StepKeepsInv` | cdr_ui.go:392-680 | each of sixteen events, crashes included, keeps the invariant; a delete that fails after replacing the file does when receipts bear what it drops |
| `Enrollment.EnrollmentIsRecoverable` | cdr_ui.go:438-680 | over every run whose half-reported deletes are borne, each issued credential not denied, expired or deleted with acknowledgement is in the registry or behind an unresolved receipt with its operation id, endpoint and pin, in memory and on disk |
| `Enrollment.HalfDeleteIsSafeIff` | cdr_ui.go:274-297 | a delete that fails after replacing the file loses nothing in any continuation if and only if each live credential it names has an issued-not-stored receipt in memory and an unresolved one in the file |
| `Enrollment.HalfDeleteForgets` | cdr_ui.go:274-297 | the failing run: such a delete of a stored credential, then a restart, leaves it in neither the registry nor the receipts |
| `Enrollment.RecoveryIsSafeIffClosed` | cdr_enroll_receipts.go:568-702 | recovering an operation Sluice has not issued for is safe for every continuation if and only if its own dispatch is closed |
| `Enrollment.LateIssueIsLost` | cdr_enroll_receipts.go:657-702 | after a recovery during an open dispatch, a late issue with a lost response is recorded nowhere |
| `EnrollmentOutcomes.RecoveryClassifies` | cdr_enroll_receipts.go:650-702 | recovery of an unresolved operation says not issued exactly when nothing was issued under its binding; else it names the issued fingerprint: stored when the registry holds it, otherwise revoked exactly when Sluice denies it |
| `EnrollmentOutcomes.RefusalIsRecorded` | cdr_ui.go:438-593 | a definite refusal leaves the receipt not issued |
| `EnrollmentOutcomes.AlreadyIssuedIsRecorded` | cdr_ui.go:438-593 | an operation issued before leaves the receipt issued-not-stored, with the fingerprint if known |
| `EnrollmentOutcomes.FailedStoreIsRecorded` | cdr_ui.go:594-680 | a credential that could not be stored leaves the receipt issued-not-stored with its fingerprint |
| `EnrollmentOutcomes.StoreIsRecorded` | cdr_ui.go:594-680 | a stored credential is in the registry, in memory and file, and its receipt says stored |
| `EnrollmentOutcomes.DenialIsRecorded` | cdr_enroll_receipts.go:434-451 | a receipt whose fingerprint Sluice denies says revoked |
| `EnrollmentOutcomes.DispatchIsRecorded` | cdr_ui.go:392-470 | the receipt is durable before the enrollment is sent, and no unresolved one is lost |
| `EnrollmentOutcomes.RegistrySaveCovers` | cdrstore.go:171-183 | any later registry save leaves no credential in memory only |
| `EnrollmentOutcomes.CleanEnrollmentIsStored` | cdr_ui.go:392-680 | an enrollment that meets no failure ends with the credential in the registry and the receipt stored |
| `EnrollmentOutcomes.LostAnswerIsNamed` | cdr_enroll_receipts.go:568-702 | after a lost answer, recovery leaves the receipt naming the credential Sluice issued |
| `Jwks.StepKeepsInv` | auth_oidc_flow.go:212-456 | every step of every lookup keeps the cache, attempt and answer invariants |
| `Jwks.RefreshesAreLimited` | auth_oidc_flow.go:345-373 | under every interleaving, fetches start at least a minute apart and never overlap |
| `Jwks.KeysSurvive` | auth_oidc_flow.go:389-456 | a non-empty key set is never replaced by an empty one and its fetch time never goes back |
| `Jwks.BreachIsReal` | auth_oidc_flow.go:241-262 | a set breach flag, and every ceiling refusal, means the cached set really was past the ceiling at that moment |
| `Jwks.EveryAnswerIsRight` | auth_oidc_flow.go:212-284 | over every run each lookup works on the latest key set installed before it began; a key young enough, or within the ceiling after a failed refresh, is handed out; a refresh error means the snapshot lacked the key and the refresh was throttled or failed; no such key means the set then in the cache lacks it |
| `Jwks.LookupsFinish` | auth_oidc_flow.go:212-387 | a lookup is answered after at most seven moves of its own; only a wait for an open fetch holds it up |
| `Jwks.WaiterIsReleased` | auth_oidc_flow.go:345-375 | nobody waits on a fetch no thread is running, and its leader can always release the waiter |
| `Jwks.PromptRunsKeepTheCeiling` | auth_oidc_flow.go:212-284 | with publication no later than a day after install, each served key comes from a real fetch finished after the lookup began or at most a day before it was admitted |
| `Jwks.CeilingHoldsIffPublishedInTime` | auth_oidc_flow.go:345-387 | the ceiling covers every run if and only if no thread stalls longer than it between install and publication |
| `AuthPolicy.FqdnCoversSubdomains` | internal/hostutil/hostutil.go:202-217 | a domain pattern, bare or with "*.", matches the domain and every name under it, and nothing else |
| `AuthPolicy.SortOrders` | authpolicy.go:492-500 | the sorted copy is an ordered permutation |
| `AuthPolicy.ResolveIsTheWinner` | authpolicy.go:492-516 | the decision is that of the surviving rule of least priority and position, and the default exactly when none survives |
| `AuthPolicy.OrderMattersIffTied` | policy.go:1127-1166 | the decision is independent of storage and tie order if and only if all surviving rules of the winning priority are equal |
| `AuthPolicy.KillSwitchIsDeletion` | authpolicy.go:501-516 | engaging the kill switch is the same as deleting the Exempt rules |
| `AuthPolicy.KillSwitchKeepsOthers` | authpolicy.go:501-516 | with the switch on nothing is Exempt, and a decision that was not Exempt is unchanged |
| `AuthPolicy.ExemptionIsEarned` | authpolicy.go:605-665 | Exempt is decided only with the switch off, for a parseable client inside every predicate of an enabled Exempt rule that covers the destination and is in time, in schedule and of the request's protocol and verb |
| `AuthPolicy.AppliesIffFaultless` | authpolicy.go:614-665 | a rule applies exactly when it is not switched off, expired, off schedule, of another protocol or verb, or outside in source or destination |
| `AuthPolicy.FaultyRulesAreInert` | authpolicy.go:600-665 | rules with such a fault may be deleted from any list without changing any decision |
| `AuthPolicy.FaultlessRuleDecides` | authpolicy.go:614-665 | a rule without fault decides where it stands alone |
| `AuthPolicy.PrecomputeNets` | authpolicy.go:103-128 | only the networks change; they agree with the values, and are present exactly when some value parses |
| `AuthPolicy.CidrPredicateMatches` | authpolicy.go:781-794 | with absent, partial or full networks, matches exactly when some value covers the client |
| `AuthPolicy.MatchSubjectAddr` | authpolicy.go:752-770 | all predicates must hold; missing selector, unknown kind or unparseable client match nothing |
| `AuthPolicy.AuthMatchScratch.NormHost` | authpolicy.go:572-578 | the host is normalised at most once and the cached value is right |
| `AuthPolicy.AuthMatchScratch.ClientAddr` | authpolicy.go:588-594 | the address is parsed at most once and the cached value is right |
| `AuthPolicy.AuthMatchScratch.MatchDestNorm` | policy.go:1870-1920 | equals the destination meaning with or without a precomputed pattern |
| `AuthPolicy.AuthMatchScratch.RuleMatches` | authpolicy.go:614-665 | true exactly when the rule has no fault for the request; a rule that is not an auth rule derives nothing |
| `AuthPolicy.ResolveFrom` | authpolicy.go:492-516 | copy, stable sort and scan compute the winner |
| `AuthPolicy.ResolveSnapshot` | authpolicy.go:531-550 | one pass over an ordered, agreeing snapshot with a shared scratch gives the decision of copy, sort and scan |
| `AuthPolicy.PublishRules` | policy.go:1127-1166 | the publishing loops compute pattern and networks of every rule in order |
| `AuthPolicy.FastRefinesSimple` | policy.go:1127-1166 | for every stored list, scanning what is published from its stable sort decides as copying, sorting and scanning it |
| `AuthPolicy.AnyOrderRefinesSimple` | policy.go:1127-1166 | the same for any ordered permutation when the winner is unique |
| `AuthPolicy.ResolveAuthOutcome` | authpolicy.go:531-550 | from the stored rules: the simple decision under a stable sort or a unique winner, and in any case that of a leading rule |
| `AuthBackend.AuthProbeGate.Allow` | auth_backend_health.go:91-103 | a granted probe denies everyone for one cooldown |
| `AuthBackend.AuthProbeGate.RecordUnavailable` | auth_backend_health.go:106-111 | nobody is let through for one cooldown |
| `AuthBackend.AuthProbeGate.RecordReachable` | auth_backend_health.go:115-120 | everybody is let through |
| `AuthBackend.VerdictHolds` | auth_oidc.go:410-458 | a verdict lives at most one TTL and not past the token's declared expiry; a negative one rests on a no, a missing subject or a passed expiry |
| `AuthBackend.EvictionBoundsCache` | auth_ldap.go:597-608 | evicting one arbitrary entry when full keeps the cache within its bound |
| `AuthBackend.StepKeepsInv` | auth_oidc_flow.go:658-701 | every step of every call keeps cache, gate and history consistent |
| `AuthBackend.PositiveAnswersAreEarned` | auth_ldap.go:330-372 | every positive answer traces to an exchange about that credential that authenticates and still does when served, within one TTL of its stamp, which follows the exchange by at most the longest stall |
| `AuthBackend.VerdictsRestOnExchanges` | auth_oidc_flow.go:957-1030 | over every run a verdict is positive exactly when its exchange authenticates: bound and in the group, or an active, timely, allowed token with a subject; else a listed refusal; it lives one TTL, a positive one no longer than its token; a call denied without verdict met a closed gate or an exchange that settles nothing |
| `AuthBackend.CachedVerdictIsServed` | auth_ldap.go:330-345 | a live verdict, positive or negative, answers the next call without gate or backend |
| `AuthBackend.CallsFinish` | auth_ldap.go:330-372 | a call is over after at most six moves of its own |
| `AuthBackend.PositiveAnswersAreYoungIff` | auth_ldap.go:330-372 | when no call stalls longer than d between answer and stamp, every yes served is less than a old for all runs, if and only if a is at least the TTL plus d |
| `AuthBackend.StalledCallServesAnOldYes` | auth_ldap.go:330-372 | the failing run: a stalled call files a yes that is served the stall plus almost a TTL later |
| `AuthBackend.OutagesLeaveNoTrace` | auth_ldap.go:330-394 | over every run each cached or returned verdict, negative ones included, rests on a yes or a no for that credential, never on a rejection or an outage |
| `AuthBackend.ProbesAreSpaced` | auth_backend_health.go:91-120 | while down, probes are a cooldown apart and a cooldown after the outage began, and one is always granted within a cooldown |
| `AuthBackend.AnyAnswerReopens` | auth_ldap.go:142-152 | over every run the gate is down if and only if the outcome recorded last was a failure to reach the backend, with the LDAP result codes and HTTP statuses that count as one |
| `AuthBackend.DenialSticksIffNothingPending` | auth_oidc.go:410-440 | once no live yes is cached, later calls stay denied until a new yes, if and only if no call in progress still holds an uncached yes |
| `Settings.AdminSettings.SaveWithOverrides` | admin_settings.go:915-1130 | the new file, the live state after the callback and the outcome of a save in every refusal and write outcome |
| `Settings.SaveIsPersistBeforeApply` | admin_settings.go:915-1130 | an acknowledged target is on disk, and live exactly when its callback installs it; otherwise live is unchanged, and the file too unless it was replaced before the error |
| `Settings.SaveDoes` | admin_settings.go:915-1130 | the outcome of a save is exact, and a landed save writes the live state of everything it does not target or carry |
| `Settings.StartTakesFileOrSeed` | admin_settings.go:445-460 | a start takes the file's rewrite rules when the file owns them or holds any, else the seed |
| `Settings.AcknowledgedStays` | admin_settings.go:974-1054 | no later save of anything else, however it ends, takes an acknowledged rewrite target, upstream document or copied setting back |
| `Settings.AcknowledgedSettingSurvivesIff` | admin_settings.go:1107-1128 | an acknowledged setting is live if and only if its callback installed it, and still on disk if and only if no save landed since or it was installed and the snapshot copies it |
| `Settings.RefusedSectionsAreCarried` | rewrite_identity.go:161-186 | over runs, degraded rewrite fields and rejected upstream sections are carried verbatim, and an unreadable file is never overwritten |
| `Settings.UnacknowledgedTargetReturnsIff` | admin_settings.go:1098-1112 | a target whose save failed takes effect at the next start, whatever the seed, if and only if the file had been replaced and no other save reached it since |
| `IdpRegistry.IdPRegistry.Persist` | auth_idp.go:223-236 | the file holds the candidate unless the write failed before replacing it |
| `IdpRegistry.IdPRegistry.Upsert` | auth_idp.go:306-359 | the new registry and the answer of an upsert in every refusal and write outcome; a profile without an id gets the random one |
| `IdpRegistry.IdPRegistry.Delete` | auth_idp.go:403-427 | the new registry and the answer of a delete; an unknown id changes nothing |
| `IdpRegistry.IdPRegistry.ReplaceAll` | auth_idp.go:452-478 | the new registry and the answer of a bulk replacement; one bad profile refuses all |
| `IdpRegistry.IdPRegistry.RouteByDomain` | auth_idp.go:656-684 | the live provider of the first interactive match of lowest priority value, and none exactly when nothing matches |
| `IdpRegistry.IdPRegistry.Providers` | auth_idp.go:700-770 | lists exactly the live providers of the enabled profiles selected |
| `IdpRegistry.IdPRegistry.HasProvider` | auth_idp.go:722-790 | true exactly when that list is not empty |
| `IdpRegistry.IdPRegistry.HasEnabledCredentialProvider` | auth_idp.go:799-809 | true exactly when a credential-capable profile is enabled, live or not |
| `IdpRegistry.NoProviderOutlivesItsProfile` | auth_idp.go:306-478 | over every run, each live provider was compiled from a profile now stored and enabled under its id |
| `IdpRegistry.UpsertDoes` | auth_idp.go:306-359 | an upsert that lands stores the profile under its id, alone changes that id, and serves it exactly when enabled |
| `IdpRegistry.DeleteDoes` | auth_idp.go:403-427 | a delete that lands removes the first profile of the id and its provider; refused exactly when there is none |
| `IdpRegistry.ReplaceAndStartDo` | auth_idp.go:153-200 | a bulk replacement serves exactly the ids with an enabled profile, a start those of unreserved profiles that compile |
| `IdpRegistry.KeptIs` | auth_idp.go:176-183 | a start keeps exactly the unreserved profiles |
| `IdpRegistry.AcknowledgedProfileStays` | auth_idp.go:306-478 | over every run about other ids, failures and restarts included, an acknowledged profile stays stored in memory and file and is served exactly when enabled |
| `IdpRegistry.UnprioritisedRoutesLast` | auth_idp.go:656-684 | a profile without a priority is routed to only when no match has one |
| `IdpRegistry.PublishedEqualsPersistedIff` | auth_idp.go:153-236 | over every run from equal copies, published equals persisted if and only if neither a different list saved but reported as failed nor a start that dropped a reserved profile stands |
| `IdpRegistry.StartPublishesFileIff` | auth_idp.go:153-187 | a start publishes exactly the file if and only if no profile in it is reserved |
| `IdpRegistry.OnlyFailedSavesPart` | auth_idp.go:153-359 | on a file without reserved profiles no later start parts the copies, only a save reported as failed |
| `IdpRegistry.ReplacementServesAllIff` | auth_idp.go:452-478 | a bulk replacement serves every enabled profile by its own provider if and only if no two different enabled ones share an id |
| `IdpRegistry.CredentialProbeAgreesIff` | auth_idp.go:799-809 | after a start, the credential probe agrees with the list of live credential providers if and only if no credential profile is enabled or one of its id compiled |
| `BulkImport.FindId` | bulk_ref_validation.go:222-254 | the id found is that of the first object the name folds to, empty when there is none |
| `BulkImport.CanonicalizeCandidateRuleRefs` | bulk_ref_validation.go:222-254 | each link is the id of the first object its name folds to, empty when there is none, and nothing else of the rule changes |
| `BulkImport.EffectiveImportRules` | bulk_ref_validation.go:412-451 | replace and merge compute the effective candidate |
| `BulkImport.ValidateBulkRuleRefs` | bulk_ref_validation.go:315-330 | accepts a rule exactly when its references resolve, else names the first that does not, in checking order |
| `BulkImport.ValidateBulkCandidateRefs` | bulk_ref_validation.go:258-285 | accepts a candidate exactly when every reference resolves, else names the first that dangles, groups before rules |
| `BulkImport.RefusedIffDangling` | bulk_ref_validation.go:258-330 | there is a first violation exactly when some reference dangles, and it is one that does |
| `BulkImport.ViolationIsFirst` | bulk_ref_validation.go:256-285 | the violation reported is the first, groups before rules |
| `BulkImport.GoneFileProfileIsRefused` | bulk_ref_validation.go:363-381 | a file-profile id that is gone refuses the candidate even when its name is there |
| `BulkImport.MergeByName` | ui_config.go:1645-1662 | the index kept while merging computes the merge that places each object by lower-case name |
| `BulkImport.MergeObjectsNames` | ui_config.go:1645-1662 | a merge has the names of both sides |
| `BulkImport.MergeObjectsKeeps` | ui_config.go:1645-1662 | live objects no incoming one names stay in place |
| `BulkImport.ValidateImportCandidateRefs` | bulk_ref_validation.go:475-499 | the verdict on an import is the first violation of the candidate assembled from live and incoming objects and rules, none exactly when all resolves |
| `BulkImport.LinksHaveNoInfluence` | bulk_ref_validation.go:412-451 | changing link ids on incoming rules changes nothing of the effective candidate |
| `BulkImport.VerdictIgnoresLinks` | bulk_ref_validation.go:475-499 | imports that differ in link ids only get the same verdict and the same violation |
| `BulkImport.CanonicalLinkResolves` | bulk_ref_validation.go:334-343 | a derived link resolves exactly when its name does |
| `BulkImport.UnknownNameIsRefused` | bulk_ref_validation.go:475-499 | a group or profile name nothing folds to refuses the candidate whatever id came with it |
| `BulkImport.MergeKeepsUntouched` | bulk_ref_validation.go:412-451 | live rules no incoming rule names stay verbatim and in place; the rest are canonical incoming rules |
| `BulkImport.UpsertDoes` | bulk_ref_validation.go:424-451 | an incoming rule takes the place of the first of its id, else of its name, else the end |
| `BulkImport.IncomingRulesLand` | bulk_ref_validation.go:424-451 | every incoming rule no later one names is in the merged list |
| `CdrPolicy.SortedDescends` | cdrpolicy.go:465-472 | the result is a descending permutation |
| `CdrPolicy.SortedIsStable` | cdrpolicy.go:465-472 | rules of equal priority keep their order |
| `CdrPolicy.Sink` | cdrpolicy.go:467-471 | the inner loop inserts one rule into the sorted prefix by swaps |
| `CdrPolicy.SortRulesByPriority` | cdrpolicy.go:465-472 | the array is sorted in place to the stable descending order |
| `CdrPolicy.Evaluate` | cdrpolicy.go:480-530 | returns the first enabled match |
| `CdrPolicy.FirstIsBestIffDescending` | cdrpolicy.go:480-530 | for every list, the first match is the highest-priority earliest one for every request if and only if no enabled rule precedes an enabled one of higher priority, unless an equal rule precedes both |
| `CdrPolicy.CDRPolicyStore.NamesIntegrity` | cdrpolicy.go:214-247 | OK exactly when names are non-empty and unique after trimming |
| `CdrPolicy.CDRPolicyStore.ValidateIdentities` | cdrpolicy.go:265-279 | returns the first empty or repeated name's error, and none exactly on good names |
| `CdrPolicy.CDRPolicyStore.SaveLocked` | cdrpolicy.go:330-342 | the file holds the rules unless the write failed before replacing it or no file is configured |
| `CdrPolicy.CDRPolicyStore.Locate` | cdrpolicy.go:432-444 | the position of a name that exactly one rule carries, else missing or ambiguous |
| `CdrPolicy.StoreStaysValid` | cdrpolicy.go:169-461 | over every run the integrity verdict is true, each change of the rules raises the epoch, and from rules and file in descending order evaluation always takes the best match |
| `CdrPolicy.MemoryEqualsFileIff` | cdrpolicy.go:169-461 | over every run from equal copies, memory equals the file if and only if neither a different list replaced in memory only nor one saved but reported as failed stands |
| `CdrPolicy.AddDoes` | cdrpolicy.go:389-420 | an added rule joins the others, none lost, in evaluation order; the refusals are exact |
| `CdrPolicy.RemoveNameDoes` | cdrpolicy.go:425-461 | the one rule of that name goes and the rest keeps its order; refused exactly when not one rule carries the name |
| `CdrPolicy.RemovePositionDoes` | cdrpolicy.go:285-314 | the rule at the position goes, only while degraded and under the expected name |
| `CdrPolicy.AcknowledgedIffLanded` | cdrpolicy.go:285-461 | a change is acknowledged exactly when it lands; rules, file and epoch move together or not at all |
| `CdrPolicy.ReplaceDoes` | cdrpolicy.go:355-378 | a replacement with good names and modes installs those rules in stable evaluation order and writes nothing |
| `CdrPolicy.LoadAndSaveDo` | cdrpolicy.go:169-194 | a load installs the file's rules with the verdict they deserve; a save makes the file hold the rules |
| `CdrPolicy.AcknowledgedRuleStays` | cdrpolicy.go:169-461 | over every later run, failures and loads included, an acknowledged rule is in force and in the file until its name is removed or the list replaced |
| `CdrPolicy.CDRPolicyStore.Add` | cdrpolicy.go:389-420 | rules, file, verdict, epoch and answer of an addition in every refusal and write outcome, with and without a configured file |
| `CdrPolicy.CDRPolicyStore.RemoveByName` | cdrpolicy.go:425-461 | rules, file, verdict, epoch and answer of a removal in every write outcome; nothing goes unless exactly one rule carries the name |
| `CdrPolicy.CDRPolicyStore.RemoveAt` | cdrpolicy.go:285-314 | the same by position, only while degraded and only under the expected name |
| `CdrPolicy.CDRPolicyStore.Replace` | cdrpolicy.go:355-378 | accepts exactly lists with good names and modes, installs them sorted in memory, else names the first error |
| `CdrPolicy.CDRPolicyStore.Load` | cdrpolicy.go:169-194 | keeps the file as it is and records whether its names are good; a missing, unreadable or unparsable file changes no rule, and the path is set in any case |
| `VerdictCache.NeverAnEarlierEpoch` | cdr_proxy.go:128-154 | a verdict is only served to a request that read the epoch it is filed under, and was decided no later |
| `VerdictCache.ChangeInvalidatesAll` | cdr_proxy.go:95-142 | after a policy change the next request for any content asks Sluice again |
| `VerdictCache.StaleVerdictIsDropped` | cdr_proxy.go:128-142 | a lookup that meets a verdict of another epoch removes it |
| `VerdictCache.ServedVerdictsAreCurrentIff` | cdr_proxy.go:217-226 | new requests are only served verdicts of the current rules if and only if no request in progress evaluated earlier rules and tags with the present epoch |
| `VerdictCache.ServedVerdictsAreOwnIff` | cdr_proxy.go:217-226 | while the policy rests, new requests are only served verdicts reached under their own profile if and only if one profile is decided for everyone by the present rules and was for every verdict filed, or about to be, under the present epoch |
| `Breaker.CircuitBreaker.TryAllow` | cdr_breaker.go:106-135 | the grant and the new state in closed, open and half-open |
| `Breaker.CircuitBreaker.OnSuccess` | cdr_breaker.go:139-149 | clears the count and closes a half-open breaker |
| `Breaker.CircuitBreaker.OnFailure` | cdr_breaker.go:153-173 | counts, trips at the threshold, and reopens from half-open |
| `Breaker.CircuitBreaker.Reset` | cdr_breaker.go:176-181 | forces the closed state |
| `Breaker.BreakerGuarantees` | cdr_breaker.go:106-181 | over every run: closed means fewer than the threshold of failures in a row, a half-open period grants at most its probes, an open one grants exactly after the timeout since it last opened |
| `Breaker.OutcomesSettle` | cdr_breaker.go:106-173 | over every run a success closes a half-open breaker, a failure opens a closed one exactly at the threshold and reopens a half-open one, and the first call after the timeout is let through |
| `Breaker.LostSlotsAreKept` | cdr_proxy.go:205-245 | a half-open breaker with all slots taken denies everyone for good until an outcome or a reset |
| `Breaker.StartAt` | cdr_pool.go:164-169 | the signed remainder with its correction is the non-negative residue |
| `Breaker.ClientPool.Pick` | cdr_pool.go:157-177 | picks the first client from the cursor whose breaker allows it, leaves the ones passed over unchanged, and none only when all deny |
| `Breaker.ClosedPoolPicksTheCursor` | cdr_pool.go:157-177 | with all breakers closed the pick is the client under the cursor |
| `Breaker.RotationIsFairIff` | cdr_pool.go:164-169 | n picks visit each of n clients once if and only if the 64-bit cursor does not overflow between them or n divides 2^64 |
| `KeyAtRest.MigrationNeverLosesTheKey` | cdr_client_keyatrest.go:140-195 | through any failures, crashes and restarts the key is readable from the key file or the quarantine copy; once success is reported the key file holds it encrypted |
| `KeyAtRest.FailureRestoresIff` | cdr_client_keyatrest.go:188-195 | a failed migration puts the plain key back exactly when the copy can be read and the write reaches the file |
| `KeyAtRest.CleanMigrationSeals` | cdr_client_keyatrest.go:140-165 | a migration that meets no failure leaves the key sealed, with the plain copy made first |
| `KeyAtRest.RestartCompletesIff` | cdr_client_keyatrest.go:111-131 | a new migration can complete from a state a crash left if and only if the key file is plain |

## Left out

- `validateAuthRule` and `policyRulePersistable`: which auth rules may be stored.  They require an auth spec with a supported outcome, provider references only on SSORequired (trimmed, distinct, bounded in number), an owner and a reason, a source scope of address predicates, protocol "", "http" or "connect", an expiry that parses, and a destination or, for Exempt only, an explicit broad exemption; access rules with a source scope or an auth spec are dropped.  The resolvers here are proved for every rule list, so also for the lists these checks let through.
- The breaker below method granularity: its compare-and-swap and the stores after it are one step here, so races between them are not covered.
- The order in which `sortLocked` leaves ties is unspecified in the source; the model covers every order instead of one.
- The host-to-category memo and the geo lookup: one answer per host during a scan, as parameters.
- The exemption kill switch is read once per scan; the source reads it at each matching Exempt rule.
- The category closure of an import: a parameter of the candidate.
- Rollback and cluster-snapshot constructors of bulk candidates: the same validator with other inputs.
- Loading admin settings beyond the rewrite rules: which sections a start accepts is a parameter.
- JWT, SAML, LDAP and TLS protocol handling, HTTP handlers, audit and metrics.
- Null entries in persisted lists, and stores without a configured file other than the settings and the CDR policies.
