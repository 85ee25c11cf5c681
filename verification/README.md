# MNCS Fabric in Dafny

A model of the state machines and decision procedures of MNCS Fabric, with proofs of what they keep
over every run. Each module models one component.

| module | component |
|---|---|
| `Jcs` | canonical JSON (RFC 8785) with a parser that undoes it |
| `Ledger` | the append-only, hash-chained, de-duplicating record ledger |
| `TrustStore` | enrolment and revocation with a memoised projection, many processes on one file |
| `Leases` | capability leases replayed from events against two clocks |
| `Redaction`, `Arguments`, `Broker`, `AuditSize` | the capability broker: validation, redaction, at-most-once execution with crash recovery, and the results it cannot audit |
| `Challenges` | the single-use challenge ledger |
| `Bundles` | execution bundle archives: builder and verifier |
| `Gc`, `BundleTransfer`, `TransferRuns`, `BundleService` | the bundle cache, its chunked upload protocol, eviction, and the path from packed files to a worker's root |
| `Dispatch` | slot accounting of concurrent remote dispatch |
| `Resolution` | worker resolution and fleet ranking |
| `DesiredState`, `Conformance` | requirement merging, diff, conformance, READY |
| `Collections` | execution collections |
| `Orders` | sorting and orders shared by the others |

Code that updates fields or loops is a class or method proved against a function; the run theorems are
lemmas about those functions. SHA-256, the zip container, Unicode tables, the adapter and every clock
reading are arbitrary parameters; freedom from collisions (`Injective`) is assumed only where a
statement names it. Digests and times are integers. `canonical_json_bytes` and the canonical JSON bytes
differ only in key order, so their lengths agree; size bounds use the latter. The garbage collector's
`int(max * 0.8)` and `int(max * 0.2)` are `4 * max / 5` and `max / 5`: for budgets up to 256 MiB the
double products lie within a rounding of the exact ones, which cannot cross an integer.

## Where the code differs from what one would expect

- The ledger drops a record whose identity is stored anywhere in its history. A second, identical
  revocation is therefore lost although the writer's cache shows it. `TrustStore.LookupDiffersIff` says
  exactly when a lookup differs from a full scan, `TrustStore.NeverReboundIff` exactly when an active
  identity is rebound, and `TrustStore.RebindingFollowsARevoke` that this takes a lost `revoke` call. A
  cleaning record with an already used stamp is lost too (`Leases.CleanupOutcome`,
  `Leases.UsedStampLosesCleaning`).
- A chunk torn between the part-file append and the metadata rewrite blocks its transfer for good
  (`TransferRuns.TornTransferIsStuck`); the controller's sender cannot resume at all
  (`TransferRuns.SenderCannotResume`); and `begin` refuses even a resumption when four transfers are
  staged (`TransferRuns.UploadServiceBundle`).
- `gc` with a negative request can report "failed" while candidates remain; the exact condition is in
  `Gc.CollectEvictsShortestOldestPrefix`, an example in `Gc.NegativeRequestFailsEarly`. No caller in the
  repository sends one: `commit` passes a file size and the command line the default 0.
- Admission counts archive bytes only, so the cache can exceed its budget by the content and metadata of
  one bundle, and by no more (`TransferRuns.BoundIsAttained`, `TransferRuns.CacheStaysBounded`).
- With any architecture accepted, emulated execution and emulation not allowed, the environment check
  fails without a diagnostic, so the worker counts as satisfying
  (`Resolution.MissingEnvIff`, `Resolution.EmulatedWorkerSlipsThrough`).
- Redaction can make a body longer than its bound; such a body, like one whose error text is empty or
  holds control characters, is not audited after the adapter ran (`AuditSize.RedactionOutgrowsTheBound`,
  `AuditSize.SomeAnswersAreNeverAudited`). The adapters in the repository build their bodies with
  `_command_result`, which redacts first (`Redaction.CommandIsAuditedWhole`), so only an injected adapter
  can return such a body.
- Conformance marks a tool that must be absent, and is, as NOT_INSTALLED; the diff calls it compliant
  (`Conformance.DiffAgreesWithConformanceIff` gives all such observations,
  `Conformance.DividingObservationsOccur` an example of each kind).

## Model

| member | source | states |
|---|---|---|
| `Jcs.BytesOrderIsUnitOrder` | src/mncs_fabric/jcs.py:41-43 | comparing big-endian UTF-16 bytes is comparing code units, for all unit sequences |
| `Jcs.KeyOrder` | src/mncs_fabric/jcs.py:41-43 | the key order is total and antisymmetric on all strings, so an object has one canonical field order |
| `Jcs.UnitOrderIsNotTextOrder` | src/mncs_fabric/jcs.py:41-43 | the code-unit order differs from code-point order: U+10000 sorts before U+FFFD |
| `Jcs.ValueRoundTrip` | src/mncs_fabric/jcs.py:15-44 | the parser undoes the printer on every JSON tree, leaving whatever non-digit text follows |
| `Jcs.EncodeObject` | src/mncs_fabric/jcs.py:37-43 | the model encoding of an object is the source's own recursion: sort the items by key, join key and encoded value |
| `Jcs.EncodeRoundTrip` | src/mncs_fabric/jcs.py:15-48 | parsing an encoding returns the value with every object in canonical field order |
| `Jcs.EncodeIsCanonical` | src/mncs_fabric/jcs.py:15-48 | two values have the same encoding if and only if they are equal as JSON values: injective and blind to insertion order |
| `Jcs.BytesAreCanonical` | src/mncs_fabric/jcs.py:47-48 | the byte form has a left inverse and identifies exactly the equal values |
| `Jcs.Utf8RoundTrip` | src/mncs_fabric/jcs.py:47-48 | UTF-8 encoding of any text decodes to that text |
| `Ledger.Verify` | src/mncs_fabric/store.py:113-184 | streaming verification accepts exactly the ledgers whose every entry links to its predecessor |
| `Ledger.FabricLedger.Append` | src/mncs_fabric/store.py:279-316 | a new record is sealed onto the chain; a record identity already stored anywhere is not written again, and conflicts are refused |
| `Ledger.FabricLedger.Compact` | src/mncs_fabric/store.py:470-559 | compaction keeps the chosen records in order in a fresh chain ending with a receipt, refuses a bad reason or too many kept entries, and is a valid ledger if and only if the receipt's identity is new |
| `Ledger.HeadDeterminesLedger` | src/mncs_fabric/store.py:113-223 | tamper evidence: with no collisions, two verified ledgers with the same head identity are equal |
| `Ledger.AddIsAppend` | src/mncs_fabric/store.py:279-316 | what an append does to the stored records, as the store modules use it |
| `TrustStore.TrustStore.EnsureCache` | src/mncs_fabric/enrollment.py:28-46 | the cache is rebuilt from the whole ledger when the file token changed, else kept |
| `TrustStore.TrustStore.Lookup` | src/mncs_fabric/enrollment.py:74-80 | lookup answers from the refreshed cache |
| `TrustStore.TrustStore.Enroll` | src/mncs_fabric/enrollment.py:48-60 | enrolment refuses to rebind an active identity, appends, and updates cache and token |
| `TrustStore.TrustStore.Revoke` | src/mncs_fabric/enrollment.py:62-72 | revocation needs a known identity, appends an inactive record, and updates cache and token |
| `TrustStore.TrustStore.Authorize` | src/mncs_fabric/enrollment.py:82-89 | authorisation succeeds if and only if the looked-up record is active with the same fingerprint |
| `TrustStore.CacheAgreesIffEffective` | src/mncs_fabric/enrollment.py:48-72 | after a write the cache equals a full scan if and only if the append takes effect (its record is new, or already the current one) |
| `TrustStore.LookupDiffersIff` | src/mncs_fabric/enrollment.py:28-80 | over every run of any number of processes and foreign appends, lookup differs from the last enrolled-or-revoked record of a full scan if and only if the process itself wrote that key earlier, the ledger dropped the write, and the key's last record has not changed since |
| `TrustStore.LookupIsFullScan` | src/mncs_fabric/enrollment.py:28-89 | a process that lost no write of a key looks up its full scan, and authorises by it |
| `TrustStore.NeverReboundIff` | src/mncs_fabric/enrollment.py:48-72 | in every run the ledger rebinds no active identity if and only if no append fails the enrolment guard evaluated on a full scan |
| `TrustStore.RebindingFollowsARevoke` | src/mncs_fabric/enrollment.py:48-72 | in every run an enrolment that changes an active fingerprint follows a revoke call by the same process that the ledger dropped |
| `TrustStore.FingerprintIsStable` | src/mncs_fabric/enrollment.py:48-72 | when all records come through enroll and revoke and no revocation is lost, an active fingerprint never changes without a revocation in the ledger |
| `TrustStore.RepeatedRevocationIsLost` | src/mncs_fabric/enrollment.py:62-72 | a revocation equal to an earlier one is dropped by the ledger: the writer sees it revoked, every other process sees it active |
| `TrustStore.LostRevocationAllowsRebinding` | src/mncs_fabric/enrollment.py:48-72 | a run in which that happens and the writer then rebinds the identity, for every identity and pair of fingerprints |
| `Leases.LeaseStore.Inspect` | src/mncs_fabric/capability_broker.py:1351-1365 | inspection is the replay of the lease's events, with ACTIVE read as EXPIRED from the expiry on |
| `Leases.LeaseStore.IsActive` | src/mncs_fabric/capability_broker.py:1367-1379 | activity is decided by inspection and the scope |
| `Leases.LeaseStore.SetState` | src/mncs_fabric/capability_broker.py:1381-1401 | a state event is appended unless the wall clock already shows that state |
| `Leases.LeaseStore.Expire` | src/mncs_fabric/capability_broker.py:1406-1425 | expire runs over the sorted identities, each against its own clock reading |
| `Leases.LeaseStore.Cleanup` | src/mncs_fabric/capability_broker.py:1427-1447 | cleanup expires, then cleans every expired or revoked lease |
| `Leases.ActiveExactlyWhen` | src/mncs_fabric/capability_broker.py:1351-1379 | a lease is active at t if and only if it was granted, no state event follows the grant, t is before expiry and the scope matches |
| `Leases.NeverActiveAgain` | src/mncs_fabric/capability_broker.py:1338-1401 | once a state event is stored no later run makes the lease active, even if the identical lease is granted again |
| `Leases.ExpireIsInvisible` | src/mncs_fabric/capability_broker.py:1406-1425 | expire(now) never changes what inspect reports at now or later, with both clocks arbitrary |
| `Leases.CleanupOutcome` | src/mncs_fabric/capability_broker.py:1427-1447 | exact outcome of cleanup for each lease: cleaned if and only if it needed cleaning and its record is new; every other lease is reported as before |
| `Leases.RecleanedIsReached` | src/mncs_fabric/capability_broker.py:1338-1447 | granting, cleaning up after expiry and revoking reaches the history below |
| `Leases.UsedStampLosesCleaning` | src/mncs_fabric/capability_broker.py:1427-1447 | in that history of any valid lease a second cleaning at the same stamp is lost |
| `Leases.CleanupIsComplete` | src/mncs_fabric/capability_broker.py:1427-1447 | with new stamps nothing of the worker is left expired or revoked, and a second cleanup appends nothing |
| `Redaction.RedactIsClean` | src/mncs_fabric/capability_broker.py:849-859 | at any depth nothing is left under a secret-named key and no text exceeds the bound |
| `Redaction.RedactFixesExactlyClean` | src/mncs_fabric/capability_broker.py:849-859 | redaction leaves a value alone if and only if it is already clean |
| `Redaction.RedactIdempotent` | src/mncs_fabric/capability_broker.py:849-859 | redaction is idempotent on every JSON tree |
| `Redaction.RedactBodyJson` | src/mncs_fabric/capability_broker.py:1456-1473 | redacting a result body as JSON is redacting its states and data and cutting its texts |
| `Redaction.RecoveredEqualsOriginal` | src/mncs_fabric/capability_broker.py:862-884 | the result built from the audited body equals the result built from the body itself |
| `Redaction.CommandIsAuditedWhole` | src/mncs_fabric/capability_broker.py:862-884 | a body that _command_result built is audited unchanged |
| `Arguments.ValidateAgain` | src/mncs_fabric/capability_broker.py:271-440 | for every operation the validator accepts its own output unchanged, size bound included, and redaction leaves it alone |
| `Arguments.RedactKeepsArguments` | src/mncs_fabric/capability_broker.py:480-501 | redaction is the identity on the arguments of every valid request |
| `Arguments.FormAgain` | src/mncs_fabric/capability_broker.py:271-440 | applying a field table to its own output gives the same fields |
| `Broker.CapabilityBroker.FindResult` | src/mncs_fabric/capability_broker.py:1498-1508 | find is the one stored result of an identity, or an error for an invalid or conflicting one |
| `Broker.CapabilityBroker.Handle` | src/mncs_fabric/capability_broker.py:1702-1760 | one request with a crash possible after any step: new ledgers, adapter calls and reply are those of Step |
| `Broker.CapabilityBroker.MayCall` | src/mncs_fabric/capability_broker.py:838-842 | permission is the profile's allowance and, where required, an active lease |
| `Broker.StandardIsLawful` | src/mncs_fabric/capability_broker.py:480-501 | the program's own validators satisfy what the run theorems assume of them |
| `Broker.FindAgrees` | src/mncs_fabric/capability_broker.py:1498-1508 | in every reachable memory find succeeds and returns what the audit record stands for |
| `Broker.AuditStandsForResult` | src/mncs_fabric/capability_broker.py:1456-1473 | an audit record keeps the request and enough of the body to rebuild the very result returned |
| `Broker.AuditedStep` | src/mncs_fabric/capability_broker.py:1704-1732 | once audited: no adapter call, no second audit record, and every answer is the recorded one |
| `Broker.FirstAttemptOutcome` | src/mncs_fabric/capability_broker.py:1733-1760 | exactly when a first attempt calls the adapter, leaves an audit record, and answers |
| `Broker.OneAnswerPerRequest` | src/mncs_fabric/capability_broker.py:1702-1760 | over every run with crashes: one audit record per identity, and every answer ever given is the value it stands for |
| `Broker.AnswersAgree` | src/mncs_fabric/capability_broker.py:1702-1760 | any two answers for one request identity are equal, recovered or not |
| `Broker.CallsArePermitted` | src/mncs_fabric/capability_broker.py:1733-1751 | in every run the adapter is called only if allowed, with any required lease active, and only while no audit record exists |
| `Broker.CallsAreLossesPlusOne` | src/mncs_fabric/capability_broker.py:1702-1760 | the adapter is called once per attempt lost before its audit record and at most once more |
| `AuditSize.RedactionOutgrowsTheBound` | src/mncs_fabric/capability_broker.py:887-904 | bodies of many empty tokens that the validator accepts and whose redacted form it refuses as too long |
| `AuditSize.SomeAnswersAreNeverAudited` | src/mncs_fabric/capability_broker.py:1752-1756 | such a body, an empty error text and one with a control character leave no audit record although the adapter was called |
| `Challenges.ReplayStore.Consume` | src/mncs_fabric/challenges.py:217-241 | consumption succeeds if and only if the receipt binds, neither identity nor nonce was used, and the effective time is in the window; the new entry and receipt are stated |
| `Challenges.ReplayStore.VerifyReplay` | src/mncs_fabric/challenges.py:244-260 | verification of a replay receipt against the store |
| `Challenges.EveryStoreIsSound` | src/mncs_fabric/challenges.py:217-241 | under arbitrary clocks every store is numbered 1..n, linked, single-use and monotone in its watermark |
| `Challenges.EntryOf` | src/mncs_fabric/challenges.py:217-241 | the entry of a successful call is in every later store, inside its challenge's window |
| `Challenges.ConsumedOnce` | src/mncs_fabric/challenges.py:217-226 | two successful calls of a run never share a challenge identity or a nonce |
| `Challenges.ExpiredForever` | src/mncs_fabric/challenges.py:227-233 | once the watermark has reached an expiry no later call consumes that challenge, even if the clock goes back |
| `Challenges.ReceiptsStayVerified` | src/mncs_fabric/challenges.py:244-260 | every issued replay receipt verifies against every later store |
| `Challenges.WatermarkIsLatestSuccess` | src/mncs_fabric/challenges.py:227-233 | the watermark is exactly the latest clock reading among successful calls |
| `Challenges.HeadFixesStore` | src/mncs_fabric/challenges.py:234-237 | with no collisions the last entry identity fixes the whole store |
| `Bundles.ReadMembers` | src/mncs_fabric/bundles.py:222-268 | the member loop accepts exactly the member lists with good names, distinct keys, regular bounded members and a bounded total |
| `Bundles.ShapePasses` | src/mncs_fabric/bundles.py:173-206 | the manifest entry loop accepts exactly well-shaped entry lists |
| `Bundles.VerifyBundleArchive` | src/mncs_fabric/bundles.py:209-319 | the verifier returns the manifest of an acceptable archive and refuses every other archive |
| `Bundles.AcceptedIsExact` | src/mncs_fabric/bundles.py:209-319 | an accepted archive's members other than the manifest are exactly its entries, with hash, size and mode, distinct under the path key, bounded in total |
| `Bundles.BuiltVerifiesIff` | src/mncs_fabric/bundles.py:322-372 | for every walked, non-empty file set the built archive verifies if and only if the bundle is named, no path keys collide and every limit holds |
| `Bundles.BuildBundleArchive` | src/mncs_fabric/bundles.py:322-372 | the builder returns an archive exactly under those conditions, and it verifies under the identity it computed |
| `BundleTransfer.BundleCache.ContentVerifies` | src/mncs_fabric/bundle_transfer.py:124-158 | the extracted files are exactly the manifest's entries |
| `BundleTransfer.BundleCache.CheckTarget` | src/mncs_fabric/bundle_transfer.py:160-186 | healthy, conflicting, absent or broken; only a broken target is discarded |
| `BundleTransfer.BundleCache.Begin` | src/mncs_fabric/bundle_transfer.py:188-214 | the answer and new state of an offer, resumption included |
| `BundleTransfer.BundleCache.Chunk` | src/mncs_fabric/bundle_transfer.py:216-238 | the answer and new state of a chunk, torn or whole |
| `BundleTransfer.BundleCache.Commit` | src/mncs_fabric/bundle_transfer.py:266-329 | the answer and new state of a commit, with a crash possible during publication |
| `BundleTransfer.BundleCache.Collect` | src/mncs_fabric/bundle_transfer.py:383-433 | garbage collection of the published directories is CollectFrom |
| `BundleTransfer.BundleCache.RootFor` | src/mncs_fabric/bundle_transfer.py:435-442 | a root is handed out exactly for a genuine target |
| `TransferRuns.HandedOutIsGenuine` | src/mncs_fabric/bundle_transfer.py:96-186 | in any state, tampered or not, what is reported present or handed out has the requested archive bytes and the archive's own entries as content |
| `TransferRuns.EveryRunIsSound` | src/mncs_fabric/bundle_transfer.py:188-329 | for any requests with torn steps and crashes every published bundle verifies and every transfer's numbers stay consistent |
| `TransferRuns.AllBytesMeansAllChunks` | src/mncs_fabric/bundle_transfer.py:188-238 | once every byte is recorded next_sequence is at least chunk_count, by the ceiling arithmetic |
| `TransferRuns.UploadsStayInStep` | src/mncs_fabric/api.py:947-992 | over every run of any number of clients with deaths, lost answers and torn chunks: the transfer records the first n chunks, and its part is exactly those unless a chunk was torn since it was staged, when it is longer |
| `TransferRuns.HonestUploadsNeverDiverge` | src/mncs_fabric/api.py:947-992 | any number of clients uploading one archive with whole server steps, dying and restarting at any point: the staged part is the archive's first received bytes, received = min(next * chunk, total) |
| `TransferRuns.ProgressCheckPasses` | src/mncs_fabric/api.py:966-973 | the client's progress check never rejects, torn steps or not |
| `TransferRuns.CommitSeesWholeArchive` | src/mncs_fabric/bundle_transfer.py:266-280 | a commit that passes its guards sees the whole archive |
| `TransferRuns.UploadServiceBundle` | src/mncs_fabric/api.py:935-998 | an uninterrupted upload resumes from any earlier progress, torn or not, and succeeds exactly when the bundle is there or a slot and room are free and the staged transfer was not torn |
| `TransferRuns.TornChunkPoisons` | src/mncs_fabric/bundle_transfer.py:231-237 | a torn chunk leaves bytes in the part file that the metadata does not count |
| `TransferRuns.TornTransferIsStuck` | src/mncs_fabric/bundle_transfer.py:231-276 | after a torn step that transfer is never published and never goes away, whatever is sent |
| `TransferRuns.CommitMismatchIffTorn` | src/mncs_fabric/bundle_transfer.py:266-280 | over every run a commit that passes its guards is refused as a mismatch if and only if some chunk was torn since the transfer was staged |
| `TransferRuns.SenderCannotResume` | src/mncs_fabric/bundle_transfer.py:456-484 | the controller's sender, which starts at sequence 0, is accepted if and only if nothing was received before |
| `TransferRuns.PublishBytes` | src/mncs_fabric/bundle_transfer.py:289-316 | bytes after a publication, exactly; it stays within budget if and only if content and metadata fit too |
| `TransferRuns.CacheStaysBounded` | src/mncs_fabric/bundle_transfer.py:289-316 | in every crash-free run the cache is within its budget plus the content and metadata of the last published bundle |
| `TransferRuns.BoundIsAttained` | src/mncs_fabric/bundle_transfer.py:289-316 | that bound is reached by every verified archive that fills the budget |
| `TransferRuns.BudgetCanBeExceeded` | src/mncs_fabric/bundle_transfer.py:289-316 | so for every archive that fits one chunk some crash-free run exceeds the budget |
| `Gc.CollectEvictsShortestOldestPrefix` | src/mncs_fabric/bundle_transfer.py:383-433 | no pinned or in-use entry goes; the evicted are the shortest sufficient oldest-first prefix; bytes are conserved; "collected" means the request fits; "failed" means all candidates are gone if and only if the request is not negative or all but the last fall short of the goal |
| `Gc.NegativeRequestFailsEarly` | src/mncs_fabric/bundle_transfer.py:383-433 | a concrete negative request that reports "failed" with a candidate left |
| `BundleService.VerifierIsFaithful` | src/mncs_fabric/bundles.py:209-319 | the verifier gives the transfer service the guarantee its run theorems assume |
| `BundleService.WorkerGetsWhatWasPacked` | src/mncs_fabric/bundle_transfer.py:435-442 | end to end: a root handed out for a built bundle holds exactly the packed files, byte for byte, in any cache state |
| `Dispatch.ScheduleSelects` | src/mncs_fabric/scheduler.py:147-198 | scheduling answers if and only if enough workers are free; the selected are distinct, below their limit, and rank before every free worker left out |
| `Dispatch.ScheduleIgnoresOrder` | src/mncs_fabric/scheduler.py:147-198 | the selection does not depend on registration order |
| `Dispatch.NetworkController.Reserve` | src/mncs_fabric/controller.py:1009-1014 | the first locked section takes one slot on each selected worker |
| `Dispatch.NetworkController.Release` | src/mncs_fabric/controller.py:1032-1036 | the finally section gives every slot back |
| `Dispatch.NetworkController.SetRemoteState` | src/mncs_fabric/controller.py:603-660 | a liveness refresh replaces observations and keeps the count |
| `Dispatch.EveryRunIsAccounted` | src/mncs_fabric/controller.py:1009-1036 | over every interleaving each count is the number of in-flight dispatches holding the worker, within its limit, and zero when none is in flight |
| `Dispatch.ClampNeverFires` | src/mncs_fabric/controller.py:1032-1036 | every held worker has a positive count, so the clamp at zero never acts |
| `Dispatch.UnlockedWriteIsSafeIff` | src/mncs_fabric/controller.py:558-573 | a slot written back without the lock keeps the accounting if and only if the count it read is still current |
| `Resolution.WorkerBaseInputs` | src/mncs_fabric/capability_resolution.py:559-646 | the diagnostic list, in order, and whether a forbidden token was hit |
| `Resolution.MissingEnvIff` | src/mncs_fabric/capability_resolution.py:590-634 | no environment diagnostic if and only if the environment satisfies the request or fails only in the unreported emulation check |
| `Resolution.EmulatedWorkerSlipsThrough` | src/mncs_fabric/capability_resolution.py:590-634 | a concrete emulated worker that the environment check refuses and resolution finds eligible |
| `Resolution.NoDiagnosticsIff` | src/mncs_fabric/capability_resolution.py:559-634 | env_ok for a reachable worker, exactly |
| `Resolution.RefinementKeepsEligibility` | src/mncs_fabric/capability_resolution.py:649-687 | refinement never changes eligibility; eligible means nothing missing; a denial names what is missing |
| `Resolution.DenialCodes` | src/mncs_fabric/capability_resolution.py:663-674 | which refined code a reachable worker gets, exactly |
| `Resolution.AskingMoreNeverHelps` | src/mncs_fabric/capability_resolution.py:559-700 | strengthening requirements, forbids, floors or the intent never makes a worker eligible |
| `Resolution.ResolveFleet` | src/mncs_fabric/capability_resolution.py:703-787 | the fleet result is FleetOf, or an error for bad replicas or policies |
| `Resolution.FleetSelectsLeast` | src/mncs_fabric/capability_resolution.py:750-787 | the eligible list is exact, the verdict positive if and only if there are enough, and the ranking strict up to identical rankings |
| `Resolution.SelectionIgnoresOrder` | src/mncs_fabric/capability_resolution.py:703-787 | eligible list, verdict and selection are invariant under rearranging any fleet, repeated ids included |
| `Resolution.FleetIgnoresOrder` | src/mncs_fabric/capability_resolution.py:703-787 | the whole result is invariant under every rearrangement if and only if workers of the same name resolve alike |
| `Resolution.PreferencesKeepTheEligible` | src/mncs_fabric/capability_resolution.py:703-787 | changing preferences never changes the eligible set |
| `DesiredState.MergeRequirements` | src/mncs_fabric/desired_state.py:195-205 | the nested loops compute Merged of the concatenated groups |
| `DesiredState.MergedIsLastOfGreatestRank` | src/mncs_fabric/desired_state.py:195-205 | unique sorted keys, exactly those offered, each with the one entry that is last of the greatest rank |
| `DesiredState.TwoStagesAreOne` | src/mncs_fabric/desired_state.py:226-244 | merging in two stages is one merge of everything; merging is idempotent |
| `DesiredState.Resolve` | src/mncs_fabric/desired_state.py:208-244 | the resolved requirements are one merge of profiles, overrides and models |
| `Conformance.DiffDesiredState` | src/mncs_fabric/desired_state.py:346-394 | the change list is Diff over the requirements |
| `Conformance.DiffAgreesWithConformanceIff` | src/mncs_fabric/desired_state.py:397-409 | diff and conformance agree on a requirement if and only if its observation is not one of the dividing ones |
| `Conformance.DividingObservationsOccur` | src/mncs_fabric/conformance.py:92-108 | a concrete inventory and requirement for each kind of dividing observation |
| `Conformance.DiffListsWhatConformanceFlags` | src/mncs_fabric/conformance.py:92-129 | the unfiltered diff lists a requirement if and only if conformance marks it NONCONFORMANT or NOT_INSTALLED |
| `Conformance.EvaluateConformance` | src/mncs_fabric/conformance.py:80-150 | findings, blocking failures and disposition |
| `Conformance.ConformanceAllowsReadyIff` | src/mncs_fabric/conformance.py:92-136 | conformance permits READY if and only if every blocking requirement is PASS or UNKNOWN, an UNKNOWN only beside a failed non-blocking one |
| `Conformance.ReadyIff` | src/mncs_fabric/conformance.py:187-291 | READY from computed conformance, exactly: policy, transaction, certification, identity binding and settled requirements |
| `Collections.BuildCollection` | src/mncs_fabric/collections.py:53-94 | accepts exactly unique non-empty declarations with declared, recorded results, and returns their collection |
| `Collections.EveryResultOnce` | src/mncs_fabric/collections.py:58-82 | conservation: every accepted result is repeated exactly once, in input order within its item |
| `Collections.EveryItemHasAnEntry` | src/mncs_fabric/collections.py:67-82 | every declared item has an entry |
| `Collections.VerdictExactly` | src/mncs_fabric/collections.py:75-89 | when the verdict is FAIL, UNKNOWN or PASS, exactly |
| `Collections.VerdictIgnoresOrder` | src/mncs_fabric/collections.py:83-89 | acceptance and verdict depend only on which results arrived |

## Left out

- Platform adapters, socket and pipe servers, subprocess containment, TLS and commissioning: calls into foreign code; the adapter is an arbitrary outcome.
- The command line, the other client delegates, scripts and deployment: plumbing.
- Floating-point JSON numbers, lone surrogates, Unicode normalisation tables, zip byte layout and timestamp text.
- Token synthesis from environments and policies (`env_tokens`, `policy_tokens`): a worker's token set is given.
- Requests handled concurrently by two brokers over the same ledgers: the serving loop handles one at a time.
- A foreign ledger append inside a single enroll or revoke call.
- Corrupt ledger lines, truncated-tail repair and file locking in `store.py`.
- Reconciliation, requirement and profile records of the capability broker, and recording with only one of its two ledgers configured.
- Issuing challenges, and the field patterns of a challenge, which are one predicate.
- Manifests whose fields have the wrong JSON type: reading typed fields is a function of the environment, and every such manifest counts as refused.
- Report texts, issue codes and error messages, except where a decision depends on them.
- BundleTransfer.BundleCache.Begin: a crash between creating a staging directory and writing its metadata is not a step.
- BundleTransfer.BundleCache.Collect: published metadata that cannot be parsed makes the source raise; here every target has metadata or none.
- BundleTransfer.BundleCache.Commit: the race in which another process publishes the same target in between is not a step, since the service lock excludes it.
- Arguments.ValidateAgain: a floating-point sysctl value is not modelled.
- Dispatch.NetworkController.Reserve: the resolver's and the resource check's answers are given, and only the slot, ranking and replica logic is computed.
