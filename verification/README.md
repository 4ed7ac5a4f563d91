# LicenseHub: a model in Dafny, and what it proves

LicenseHub issues licences, binds them to devices by signed leases that clients check
offline, and bills for them. This project models the parts where a promise spans many steps,
and proves the promise over every input, every run or every crash point:

- **Leases across two languages and many machines.** `Base64Url`, `Base64Laws`, `Token` (Go),
  `Lease` (Rust), `TokenRoundTrip`, `TokenAcceptance`: what one side signs the other reads, byte
  by byte, and what either accepts. `Store`: the crash-atomic file store as a plain map.
  `Decimal`, `Client`, `ClientSafety`, `ClientAnswers`: the Rust client with its cached lease and
  clock watermark, over every life of a device. `LicenseService`, `LicenseServer`, `ServerLaws`,
  `LeaseProtocol`, `LeaseGrants`, `LeaseBound`: the Go service, the whole protocol with
  interleaved requests, an adversarial network and arbitrary clocks, and the tightness of its bound.
- **Limiters.** `BruteForce`, `LockoutLaws`: the Go lockout and its Lua twin. `RateLimit`: the fixed window.
- **The undo log of licctl.** `Integration` (add and roll back), `Removal` (any manifest) and
  `RemoveAfterAdd` (what comes back, and the four installers).
- **Releases.** `Semver`, `SemverText`, `Releases`, `ReleaseChoice`, `FileKeys`: precedence,
  selection, storage keys.
- **Traces.** `Idempotency`; `Dunning` and `DunningLaws`; `Metered`, `MeteredLaws`, `Usage`, and
  `UsageBilling`, which joins the last two.

Code that changes state is a class whose methods are proved equal to a specification
function; the laws are then proved of that function, as lemmas over runs. Where the code does
not keep what its documentation says, the model follows the code, a lemma shows an input on
which the promise fails, and another says exactly when it holds.

Where code and documentation differ:

- `IsLicenseUsable` is documented to mirror `assertUsable`; the two differ at the last instant
  of validity and grace (`LicenseService.ChecksDifferAtOneInstant`).
- The Go copy of the lockout forgets a lock whose failure window is over
  (`BruteForce.LongLockIsForgotten`), does not cap the first lockout
  (`BruteForce.UncappedLockDisagrees`) and never locks at the first failure
  (`BruteForce.OneStrikeDisagrees`); the Lua copy keeps, caps and locks. Over all runs in order of
  time they agree exactly when the limits leave no room for any of this
  (`BruteForce.AgreementOverAllRunsExactly`).
- A failed addition can leave a half-written file outside `.licensehub`: exactly when
  `Integration.RollbackAfterFailure` says, on the input of `Integration.HalfWrittenFileStays`.
- Removal restores a path with several records exactly when their installed hashes agree, the
  backups are as recorded, and the path was created or the original content is what it gets
  (`RemoveAfterAdd.RemoveUndoesAddExactly`, `RemoveAfterAdd.UntouchedBackups`); a path modified
  twice to one content is not restored (`RemoveAfterAdd.SameModificationTwiceIsNotRestored`). What
  the four installers add is always restored (`RemoveAfterAdd.InstalledStackIsRemovable`).
- A removal refused in its second pass has written the backups of earlier records, and an altered
  one (`Removal.RefusedRemovalLeaves`, `Removal.EditedBackupIsWrittenFirst`).
- The second statement of an idempotency claim treats a row that has meanwhile gone as a free
  slot, also when an error response removed it (`Idempotency.TwoExecutionsAfterAnError`). Such a
  claim can lead on to two kept executions exactly when another request is still to arrive or to
  read the row back (`Idempotency.VanishedRowIsHarmlessExactly`). Stored bodies are cut at 65536
  bytes (`Idempotency.RetryIsReplayedExactly`).
- A handler that panics is meant to release its slot. It does so exactly when it has asked for no
  status, or first for one of 500 or more; otherwise its partial response is kept
  (`Idempotency.SlotIsReleasedExactly`, `Idempotency.PartialResponseIsReplayed`).
- A licence that lapses again gets a fresh ladder only if a payment failed or no anchor is left
  over; pausing and resuming leave one (`Dunning.EntryStampsExactly`,
  `Dunning.PausedEpisodeIsResumed`).
- Retries of a metered row are free of double billing exactly while the provider remembers the
  identifier (`Metered.BillIsTheSumExactly`, `Metered.LateRetryIsBilledTwice`); rows whose attempts
  are used up do block the queue (`Metered.CloggedQueueRestsExactly`, `Metered.CloggedQueueIsReached`).

## Model

| member | source | states |
|---|---|---|
| Base64Url.DecodeUndoesEncode | server/internal/license/token.go:161-178 | base64url without padding (section 5 of RFC 4648): decoding gives back every byte string, under the strict and the lenient discipline |
| Base64Url.StrictIsCanonical | core/license-core/src/lease.rs:35-60 | whatever the strict decoder takes is the encoding of what it returns: one spelling per byte string |
| Base64Url.GoDecodeExtendsRustDecode | server/internal/license/token.go:184-200 | Go's decoder, which drops line breaks and ignores trailing bits, agrees with Rust's wherever Rust's accepts |
| Base64Laws.AlphabetIsTheTable | server/internal/license/token.go:161-178 | the 64 letters are those of table 2 of RFC 4648 |
| Base64Laws.EncodingIsTheBits | server/internal/license/token.go:161-178 | read as a number, the letters are the bytes' bits in order, filled with zeros, and as few as possible |
| Base64Laws.GoDecodesExactly | server/internal/license/token.go:184-200 | Go's decoder takes exactly the strings of letters and line breaks that leave no lone letter |
| TokenRoundTrip.SplitsAgree | server/internal/license/token.go:108-118 | on two dot-free segments Go's split at the last dot and Rust's at the first are the same |
| TokenRoundTrip.SignedTokenParts | server/internal/license/token.go:161-178 | the two segments of a signed token, as either side recovers them |
| TokenRoundTrip.GoVerifiesWhatGoSigned | server/internal/license/token.go:108-212 | Go reads back exactly the token it signed, if and only if it has not expired |
| TokenRoundTrip.RustDecodesWhatGoSigned | core/license-core/src/lease.rs:35-109 | Rust accepts a signed token if and only if it is within the stated bounds (size, version, key id, times), and then reads exactly the signed claims |
| TokenRoundTrip.RustAcceptanceImpliesSigned | core/license-core/src/lease.rs:35-109 | whatever unforged string Rust accepts, the server signed those claims with the pinned key they name, and Go accepts the same string until expiry |
| TokenRoundTrip.SignedIsNotForged | server/internal/license/token.go:161-178 | every token the server signs is unforged in that sense, as long as its signature verifies under no other pinned key |
| TokenRoundTrip.RustTakesOneSpelling | core/license-core/src/lease.rs:35-60 | two accepted strings with the same contents and signature are the same string |
| TokenRoundTrip.AcceptedIsVerified | core/license-core/src/lease.rs:35-109 | an accepted token verified under a pinned key named by its own header |
| TokenRoundTrip.AcceptedParts | core/license-core/src/lease.rs:35-60 | an accepted token is the canonical spelling of its two parts |
| TokenAcceptance.GoAcceptsExactly | server/internal/license/token.go:108-212 | the server reads a token from a string if and only if both segments decode, the named key of the ring verifies the signature over the payload segment, the payload is that token, and it has not expired |
| TokenAcceptance.AcceptedSplits | server/internal/license/token.go:108-118 | whatever is accepted splits at its last dot |
| TokenAcceptance.UnverifiedIsRefused | server/internal/license/token.go:197-199 | a signature that does not verify is refused as an invalid signature |
| TokenAcceptance.GoAcceptanceImpliesSigned | server/internal/license/token.go:108-212 | whatever unforged string the server takes, it has signed the token it reads, with the key the token names |
| TokenAcceptance.SignedIsNotForgedForGo | server/internal/license/token.go:161-178 | every token the server signs is unforged in that sense, as long as its signature verifies under no other key of the ring |
| TokenAcceptance.RustAcceptsExactly | core/license-core/src/lease.rs:35-117 | the client reads claims from a string if and only if sizes, encoding, key name, signature, version and every bound on the claims are as spelled out |
| Store.MemoryStore.Get | core/license-core/src/store.rs:225-232 | a read returns what the map holds, or fails |
| Store.MemoryStore.Set | core/license-core/src/store.rs:233-239 | a write takes effect whole or not at all |
| Store.MemoryStore.Delete | core/license-core/src/store.rs:240-247 | a deletion takes effect whole or not at all |
| Store.FileSecureStore.AtomicWrite | core/license-core/src/store.rs:126-149 | the directory afterwards, for each place the write can fail, and every directory a crash can leave meanwhile |
| Store.FileSecureStore.Get | core/license-core/src/store.rs:152-163 | a read is a lookup in the plain map behind the files |
| Store.FileSecureStore.Set | core/license-core/src/store.rs:164-168 | a write is the write on the plain map, a failed one leaves the map alone, and every directory a crash can leave reads as the map before or after |
| Store.FileSecureStore.Delete | core/license-core/src/store.rs:169-180 | a deletion is the deletion on the plain map, at every crash point old or new |
| Store.TempNameIsNoKey | core/license-core/src/store.rs:115-135 | temporary names contain a dot and are no keys |
| Store.DuringPutIsOldOrNew | core/license-core/src/store.rs:126-149 | at every intermediate step of an atomic write the files of all keys read as the map before it or after it |
| Store.ExposedIsOldOrNew | core/license-core/src/store.rs:115-180 | the same for any single write or deletion |
| Store.CrashShowsAPrefix | core/license-core/src/store.rs:115-180 | a crash anywhere in a sequence of writes shows the map after some prefix of it |
| Decimal.ParseUndoesPrint | core/license-core/src/client.rs:194-219 | the stored watermark reads back as the 64-bit reading that was written |
| Decimal.DigitsDenote | core/license-core/src/client.rs:214-216 | the text of a number is its decimal digits, most significant first, without leading zeros |
| Client.StartClient | core/license-core/src/client.rs:118-158 | starting a client over a store does exactly what `Initialize` says, write by write |
| Client.LicenseClient.ReadClock | core/license-core/src/client.rs:194-218 | the clock check: rollback refused beyond the tolerance, the watermark moved up, every storage error |
| Client.LicenseClient.Active | core/license-core/src/client.rs:220-236 | the activity check refuses a missing, future or expired lease, in the order of the code |
| Client.LicenseClient.CurrentStatus | core/license-core/src/client.rs:295-320 | the four states reported, and which errors become states |
| Client.LicenseClient.InstallLease | core/license-core/src/client.rs:238-277 | a reply replaces the cached lease only once it verifies and is stored |
| Client.LicenseClient.ActivateKey | core/license-core/src/client.rs:238-257 | activation as a function of key, reply, clock and faults: writes in order, memory, answer |
| Client.LicenseClient.RefreshLease | core/license-core/src/client.rs:258-278 | refresh likewise |
| Client.LicenseClient.DeactivateDevice | core/license-core/src/client.rs:279-293 | the lease leaves store and memory only after the server has acknowledged |
| Client.LicenseClient.GetStatus | core/license-core/src/client.rs:321-325 | status, with the recorded last error |
| Client.LicenseClient.Require | core/license-core/src/client.rs:326-341 | an entitlement is granted only under an active lease that names it |
| ClientSafety.CheckedNowMeaning | core/license-core/src/client.rs:194-218 | a successful clock check leaves a watermark at least the reading and was within tolerance of the old one |
| ClientSafety.EnsureActiveMeaning | core/license-core/src/client.rs:220-236 | the activity check succeeds if and only if there is a lease, issued by now plus tolerance, and not expired |
| ClientSafety.StatusMeaning | core/license-core/src/client.rs:295-320 | the status is Active exactly when the activity check succeeds |
| ClientSafety.ShapeOfACall | core/license-core/src/client.rs:238-341 | every call is at most one write of the lease followed by at most one move of the watermark |
| ClientSafety.CallsKeepMemoryAndStoreEqual | core/license-core/src/client.rs:238-293 | at every return, success or error, the lease in memory is the lease in the store |
| ClientSafety.PrefixOfACall | core/license-core/src/client.rs:238-293 | after any number of a call's writes the store holds the lease from before or after the call |
| ClientSafety.CrashRecovery | core/license-core/src/client.rs:118-158 | from whatever a crash leaves, initialisation succeeds with the same device and the lease before or after the interrupted call |
| ClientSafety.GrantMeaning | core/license-core/src/client.rs:220-341 | whatever reports Active or grants an entitlement compared lease and watermark with the clock |
| ClientSafety.StepKeeps | core/license-core/src/client.rs:118-341 | every call, crash and restart keeps memory and store equal and the watermark up |
| ClientSafety.RestartKeeps | core/license-core/src/client.rs:118-158 | a restart keeps the watermark and finds the lease of the store |
| ClientSafety.WatermarkNeverFalls | core/license-core/src/client.rs:194-218 | over any life of a device the persisted watermark never decreases |
| ClientSafety.ExpiredStaysExpired | core/license-core/src/client.rs:194-340 | once the watermark reaches expiry plus tolerance, that lease never grants again, whatever the clock, restarts, deactivation or reinstallation |
| ClientAnswers.ClockCheckExactly | core/license-core/src/client.rs:194-218 | the clock check passes exactly when the reading is at least the watermark less the tolerance, is a rollback exactly when it is less, and writes exactly when it is news |
| ClientAnswers.ActiveExactly | core/license-core/src/client.rs:220-236 | the activity check, error by error, in terms of lease, clock and watermark |
| ClientAnswers.StatusExactly | core/license-core/src/client.rs:295-325 | with a lease: exactly when Active, Expired and ClockRollback are reported, and that the report says what the lease says |
| ClientAnswers.NotActivatedExactly | core/license-core/src/client.rs:307-310 | NotActivated is reported exactly without a lease, and then nothing is read or written |
| ClientAnswers.RequireExactly | core/license-core/src/client.rs:326-341 | an entitlement is granted if and only if it is named, lease, clock and watermark allow it, and the lease has it; otherwise the errors |
| ClientAnswers.TokenIsTaken | core/license-core/src/client.rs:238-277 | a token that verifies, is for this product and device and can be stored replaces the lease; the answer is the status under it |
| ClientAnswers.OtherTokensAreNot | core/license-core/src/client.rs:238-277 | any other activation or refresh is an error and changes neither lease nor store |
| ClientAnswers.DeactivateExactly | core/license-core/src/client.rs:279-293 | the lease goes if and only if there is none or the server has acknowledged, and the store deletes |
| ClientAnswers.StartsExactly | core/license-core/src/client.rs:118-158 | a client starts if and only if configuration, seed and cached lease are as spelled out, and is then the device of that seed with that lease |
| ClientAnswers.SeedRefused | core/license-core/src/client.rs:125-134 | a seed that is unreadable, of another length or cannot be stored refuses the start |
| LicenseService.UsabilityOnlyEnds | server/internal/service/license.go:531-556 | a record usable at some instant was usable at every earlier one |
| LicenseService.ChecksDifferAtOneInstant | server/internal/service/release.go:948-969 | the second copy of the check agrees with the first except at one instant |
| LicenseService.CollectEntitlementNames | server/internal/service/license.go:588-601 | the loop over the plan's entitlements gives `EntitlementNames` |
| LicenseService.NamedExactlyIfGranted | server/internal/service/license.go:588-601 | a feature is in the token exactly if some entitlement grants it |
| LicenseService.UsableExactly | server/internal/service/license.go:531-556 | usable exactly: in force until validity and days of grace are over, cancelled until validity ends, otherwise never |
| LicenseService.TokenSaysTheLicense | server/internal/service/license.go:607-624 | a minted token says of its licence product, plan, state and grace, and as entitlements exactly what the plan grants |
| LicenseServer.Refusal | server/internal/service/license.go:531-556 | the reason for refusing a licence, present exactly when it is not usable |
| LicenseServer.LicenseService.ActivateWithinLimit | server/internal/store/store.go:1203-1240 | an activation is added exactly below the limit, once per device |
| LicenseServer.LicenseService.Activate | server/internal/service/license.go:158-264 | activation with every branch: lockout, lookup, product, capability, lifecycle, existing device, limit, failures told to the tracker |
| LicenseServer.LicenseService.Verify | server/internal/service/license.go:293-378 | verification likewise, with its collapsed refusals |
| LicenseServer.LicenseService.Deactivate | server/internal/service/license.go:389-452 | deactivation by key removes exactly that activation |
| LicenseServer.LicenseService.RefreshLease | server/internal/service/license.go:35-46 | a refresh signs a new token only for an activated device of a usable licence bound to the lease |
| LicenseServer.LicenseService.DeactivateLease | server/internal/service/license.go:48-66 | returning a lease removes exactly its activation |
| LicenseServer.MintingIsARun | server/internal/service/license.go:607-624 | a minting call is four enabled steps of the protocol, and the string returned is what the signing step signs |
| LicenseServer.ActivationIsARun | server/internal/service/license.go:158-264 | a successful activation refines the protocol: its activations and its token are those of a run |
| LicenseServer.VerificationIsARun | server/internal/service/license.go:293-378 | a successful verification refines the protocol and changes no activation |
| LicenseServer.RefreshIsARun | server/internal/service/license.go:35-89 | a successful refresh refines the protocol and changes no activation |
| LicenseServer.MintedLeaseOpensItsLicense | server/internal/service/license.go:68-89 | a minted token leads back to its licence exactly while unexpired and the licence usable |
| LicenseServer.ReturningUndoesActivation | server/internal/service/license.go:48-66 | returning the lease of an activation restores the activations from before it |
| LicenseServer.ActivationStaysWithinLimit | server/internal/service/license.go:214-231 | no activation takes its licence over the plan's limit, and every other licence keeps exactly its activations |
| LicenseServer.DeactivationMeaning | server/internal/service/license.go:389-452 | a successful deactivation removes exactly this device's activation, a failed one nothing |
| LicenseServer.DeactivatedDeviceIsNotFound | server/internal/service/license.go:389-452 | afterwards verification, refresh and return of a lease for the device all answer not-found |
| LicenseServer.DeactivationUndoesActivation | server/internal/service/license.go:389-452 | deactivation by key restores the activations from before an activation |
| LicenseServer.ActivationUndoesDeactivation | server/internal/service/license.go:158-264 | activation restores those from before a deactivation, exactly while the licence is usable and within its limit |
| LicenseServer.VerificationAnswers | server/internal/service/license.go:293-378 | exactly when verification answers a token, and exactly when something else than not-found |
| ServerLaws.RefusalNamesTheState | server/internal/service/license.go:531-556 | the reason of a refusal is that of the licence's state |
| ServerLaws.ActivationExactly | server/internal/service/license.go:158-264 | for a key that opens a licence: exactly when activation gives a token, when the limit is named, and which error otherwise |
| ServerLaws.KeyRefusedExactly | server/internal/service/license.go:158-190 | blocked addresses, unreadable tables and unknown keys are told apart and change no activation |
| ServerLaws.DeactivationExactly | server/internal/service/license.go:389-452 | deactivation by key succeeds if and only if the device is active and the store answers |
| ServerLaws.TrackerIsTold | server/internal/service/license.go:158-452 | exactly which failures and successes the brute-force tracker hears of, for key and address |
| ServerLaws.UnverifiedLeaseIsNotFound | server/internal/service/license.go:68-89 | a string that does not verify is not found |
| ServerLaws.RefreshExactly | server/internal/service/license.go:35-46 | a refresh succeeds if and only if the token is bound to the request and its licence usable with this device active |
| ServerLaws.RefreshedLeaseReadsBack | server/internal/service/license.go:35-46 | what a refresh gives reads back as a token of the same licence, product and device, with the plan's entitlements, for a whole lifetime |
| ServerLaws.ReturnExactly | server/internal/service/license.go:48-66 | a return succeeds under the same condition and removes this one activation |
| ServerLaws.OnlySignedLeasesOpen | server/internal/service/license.go:35-89 | over unforged strings a lease is refreshed or returned only if the server signed it for this licence, product and device |
| ServerLaws.LimitHoldsOverRuns | server/internal/store/store.go:1203-1240 | over any sequence of calls with any failures no licence has more devices than its plan allows, one without a plan |
| LeaseProtocol.AlwaysSound | server/internal/service/license.go:35-265 | in every world of every run, each request, signature and cached lease has its source in an earlier world |
| LeaseProtocol.DeviceStaysSound | core/license-core/src/client.rs:180-293 | a device caches only tokens the server could have signed, through calls, crashes and restarts |
| LeaseProtocol.CachedLeaseWasMinted | core/license-core/src/lease.rs:35-109 | the lease in a device's memory was signed by the server, for this product and device |
| LeaseProtocol.ActiveIsJustified | core/license-core/src/client.rs:180-236 | Active at reading t means: signed at an instant in (t - leaseTtl, t + tolerance], and before that, in order, loaded as a licence of this product, found usable, and this device activated |
| LeaseProtocol.RevokedIsNowhereActive | server/internal/service/license.go:607-624 | a licence unusable from some instant is granted nothing at any clock reading from that instant plus lease lifetime plus the longest request |
| LeaseProtocol.WatermarkHoldsInRun | core/license-core/src/client.rs:194-218 | watermarks hold over whole distributed runs |
| LeaseProtocol.RevokedDeviceStaysLockedOut | core/license-core/src/client.rs:194-236 | a device that has once seen the bound is granted nothing for a revoked licence, whatever its clock reads later |
| LeaseGrants.GrantNamesTheFeature | core/license-core/src/client.rs:326-341 | a device that grants an entitlement holds a lease that names it |
| LeaseGrants.GrantedFeatureIsOfThePlan | server/internal/service/license.go:588-624 | in every run: whenever a device grants an entitlement, the server signed a token that names it, and the plan granted it when the licence was loaded |
| LeaseGrants.WithdrawnFeatureIsNowhereGranted | server/internal/service/license.go:588-624 | a feature taken out of a plan is granted nowhere from then plus the lease lifetime plus the longest request |
| LeaseGrants.RefreshGoesBackToAnActivation | server/internal/service/license.go:68-89 | in every run: a request by an unforged lease goes back to a signature for this licence, product and device, and to its activation |
| LeaseBound.StalledRequestSignsAfterRevocation | server/internal/service/license.go:158-264 | for every delay, a run in which a request stalled that long signs for a licence revoked before |
| LeaseBound.DeliveredTokenIsActive | core/license-core/src/client.rs:238-257 | a fresh device given a token signed for it is Active until the last instant before it expires |
| LeaseBound.RevocationBoundIsTight | server/internal/service/license.go:158-264 | for every delay, a run in which a device whose clock reads the server's is Active for a revoked licence one second before the bound of `LeaseProtocol.RevokedIsNowhereActive` |
| BruteForce.BruteForceProtection.RecordFailure | server/internal/middleware/bruteforce.go:116-152 | the Go recorder's new record: counted, locked for its backoff, or begun afresh after the window |
| BruteForce.BruteForceProtection.LockoutDuration | server/internal/middleware/bruteforce.go:138-145 | the Go recorder's early-exit loop is the backoff, but for a first lockout, which is not capped |
| BruteForce.BruteForceProtection.RecordSuccess | server/internal/middleware/bruteforce.go:154-166 | success forgets the key and no other |
| BruteForce.BruteForceProtection.IsBlocked | server/internal/middleware/bruteforce.go:168-194 | blocked exactly while time remains, and how much |
| BruteForce.BruteForceProtection.Cleanup | server/internal/middleware/bruteforce.go:196-209 | cleanup drops exactly the records that are old and not locked |
| BruteForce.RedisGuard.RecordFailure | server/internal/middleware/bruteforce.go:61-101 | the Lua script's new hash and the end of the lock it answers |
| BruteForce.RedisGuard.LockoutDuration | server/internal/middleware/bruteforce.go:79-87 | the script's early-exit loop is the backoff |
| BruteForce.RedisGuard.RecordSuccess | server/internal/middleware/bruteforce.go:154-166 | success deletes the hash |
| BruteForce.RedisGuard.IsBlocked | server/internal/middleware/bruteforce.go:103-109 | remaining time as the script answers it |
| BruteForce.BackoffIsPower | server/internal/middleware/bruteforce.go:137-145 | the backoff after k lockouts is min(lockout * 2^k, max) |
| BruteForce.CopiesAgree | server/internal/middleware/bruteforce.go:61-209 | over every admissible run both copies give the same remaining time at every later instant, whatever either has dropped |
| BruteForce.NotBlockedIsAdmissible | server/internal/middleware/bruteforce.go:212-254 | recording failures only while not blocked is admissible |
| BruteForce.FailureAgreesExactlyWhenWelcome | server/internal/middleware/bruteforce.go:61-152 | one more failure keeps the copies in agreement if and only if the key is not still locked beyond its failure window |
| BruteForce.OneStrikeDisagrees | server/internal/middleware/bruteforce.go:116-152 | with a limit below two the copies disagree at the first failure |
| BruteForce.UncappedLockDisagrees | server/internal/middleware/bruteforce.go:116-152 | with a lockout above its cap the first lock of the Go copy is longer |
| BruteForce.AgreementExactly | server/internal/middleware/bruteforce.go:61-209 | over the runs without a failure on a lock older than its window, the copies agree if and only if the limit is at least two and the lockout within its cap |
| BruteForce.ShortLocksAreAdmissible | server/internal/middleware/bruteforce.go:116-152 | with a cap of at most the window and one, no run in order of time has a failure on a lock older than its window |
| BruteForce.LongLockIsForgotten | server/internal/middleware/bruteforce.go:61-152 | for every larger cap a run from no record: the capped lock, then one failure after the window; Go answers 0, the script what is left of the lock |
| BruteForce.AgreementOverAllRunsExactly | server/internal/middleware/bruteforce.go:61-209 | over all runs in order of time the copies agree if and only if the limit is at least two, the lockout within its cap, and the cap within the window and one |
| LockoutLaws.LockNeedsFailures | server/internal/middleware/bruteforce.go:116-152 | a lock begins only after as many failures as the limit within one window, with no success among them |
| LockoutLaws.EnoughFailuresLock | server/internal/middleware/bruteforce.go:61-152 | as many failures within a window lock the key for the lockout in both copies, fewer lock nothing |
| LockoutLaws.SuccessForgives | server/internal/middleware/bruteforce.go:154-166 | after a success the run goes on as from no record at all |
| RateLimit.MemoryBackend.Allow | server/internal/middleware/ratelimit.go:52-65 | the new visitor and the answer of one request |
| RateLimit.MemoryBackend.Cleanup | server/internal/middleware/ratelimit.go:67-77 | cleanup drops exactly the visitors idle for five minutes |
| RateLimit.OpenWindow | server/internal/middleware/ratelimit.go:52-65 | what the open window says about the requests admitted since its start |
| RateLimit.AtMostTwiceTheRate | server/internal/middleware/ratelimit.go:52-65 | any interval no longer than the window admits at most twice the rate |
| RateLimit.TwiceTheRateIsReached | server/internal/middleware/ratelimit.go:52-65 | the bound is tight for every rate and window |
| RateLimit.RejectedOnlyAfterRate | server/internal/middleware/ratelimit.go:52-65 | a rejection means the rate was admitted within the preceding window |
| RateLimit.CleanupChangesNoAnswer | server/internal/middleware/ratelimit.go:67-77 | cleanup changes no later answer for windows up to five minutes |
| RateLimit.LongWindowIsCutShort | server/internal/middleware/ratelimit.go:67-77 | for every longer window it does |
| RateLimit.BackendsAgree | server/internal/middleware/ratelimit.go:86-108 | the Redis script admits the same requests as the memory backend |
| Integration.MutationTracker.AtomicWrite | cli/licctl/Program.cs:132-138 | a file is replaced by way of a temporary one, which a failure leaves behind |
| Integration.MutationTracker.CreateByCopy | cli/licctl/IntegrationManager.cs:557-564 | creation by copy: refused over an existing file, recorded when complete |
| Integration.MutationTracker.Create | cli/licctl/IntegrationManager.cs:565-571 | creation by writing likewise |
| Integration.MutationTracker.Modify | cli/licctl/IntegrationManager.cs:572-582 | modification with a numbered backup, for every place it can break off |
| Integration.MutationTracker.RollbackAll | cli/licctl/IntegrationManager.cs:583-591 | the backward loop is the recursive undo, latest record first |
| Integration.CompletedStaysUndoable | cli/licctl/IntegrationManager.cs:551-592 | each completed operation leaves the original project recoverable |
| Integration.RollbackAfterCompleted | cli/licctl/IntegrationManager.cs:34-69 | after any sequence of completed operations, repeated paths included, rollback and cleaning give back exactly the original project |
| Integration.BrokenOff | cli/licctl/IntegrationManager.cs:551-592 | what an operation that breaks off inside leaves behind |
| Integration.RollbackAfterFailure | cli/licctl/IntegrationManager.cs:34-69 | after a failure inside an operation, exactly the original project if and only if no half-written file lies outside the state directory, else the original and that file |
| Integration.HalfWrittenFileStays | cli/licctl/Program.cs:132-138 | in every project, a write broken off before its final move leaves its temporary file behind after rollback |
| Integration.RollbackKeepsOthers | cli/licctl/IntegrationManager.cs:583-591 | a file on no record passes through a rollback |
| Integration.RollbackKeepsAlike | cli/licctl/IntegrationManager.cs:583-591 | payload files make no difference to a rollback |
| Removal.Project.CheckInstalledHashes | cli/licctl/IntegrationManager.cs:138-146 | the check of a repeated addition: every recorded file present with its recorded hash |
| Removal.Project.RemoveIntegration | cli/licctl/IntegrationManager.cs:71-95 | the three passes of removal, with each error and what it leaves |
| Removal.PrecheckMeaning | cli/licctl/IntegrationManager.cs:75-81 | the first pass succeeds exactly when every recorded project file is as installed |
| Removal.RestoreMeaning | cli/licctl/IntegrationManager.cs:82-89 | for every manifest: the second pass succeeds exactly when each backup, at its record's turn, is as recorded, and then each path holds the content its backup had, traced through earlier records |
| Removal.StoppedRestoreMeaning | cli/licctl/IntegrationManager.cs:82-89 | for every manifest: where a failing second pass stops, with which error, and what it has written |
| Removal.OriginWhenApart | cli/licctl/IntegrationManager.cs:82-89 | when no modified file is itself a backup, each path gets the backup of its last record as it was before removal |
| Removal.DeleteMeaning | cli/licctl/IntegrationManager.cs:90-91 | the third pass deletes the created project files and nothing else |
| Removal.RemoveSucceedsExactly | cli/licctl/IntegrationManager.cs:71-95 | removal succeeds if and only if files and backups are as recorded; refused for a missing or changed file it changes nothing |
| Removal.UnalteredIsRemovable | cli/licctl/IntegrationManager.cs:23-32 | an installation that a repeated addition takes for unaltered can be removed exactly if its backups are as recorded |
| Removal.RemoveMeaning | cli/licctl/IntegrationManager.cs:71-95 | what a successful removal leaves at each path |
| Removal.RefusedRemovalLeaves | cli/licctl/IntegrationManager.cs:71-95 | what a removal refused for a backup leaves, and exactly when that is the unchanged project |
| RemoveAfterAdd.AdditionRecordsTruth | cli/licctl/IntegrationManager.cs:551-592 | after every operation the records at each path say truly whether it was there before and what is there now, repeated paths included; the backups too, as long as no operation modifies one |
| RemoveAfterAdd.CompletesExactly | cli/licctl/IntegrationManager.cs:557-582 | undisturbed, a file is created exactly where there is none, and modified exactly where there is one and its backup's name is free |
| RemoveAfterAdd.AdditionInstalls | cli/licctl/IntegrationManager.cs:551-592 | after an addition each path of the project has what the last operation on it wrote, and every other path what it had |
| RemoveAfterAdd.RemoveAfterAddExactly | cli/licctl/IntegrationManager.cs:51-95 | after any addition and edits that spare the recorded files: exactly when removal is refused, and path by path exactly what comes back |
| RemoveAfterAdd.UntouchedBackups | cli/licctl/IntegrationManager.cs:82-89 | if no operation and no edit touched a backup, all are as recorded, and a path comes back exactly if it was created or its last backup is the original |
| RemoveAfterAdd.RemoveUndoesAddExactly | cli/licctl/IntegrationManager.cs:51-95 | removal undoes the addition if and only if the backups are as recorded and, for each recorded path, the installed hashes agree and it comes back |
| RemoveAfterAdd.RemoveUndoesAdd | cli/licctl/IntegrationManager.cs:51-95 | with one record per path: every recorded path as before the addition, every other as edited |
| RemoveAfterAdd.InstalledStackIsRemovable | cli/licctl/IntegrationManager.cs:211-287 | each of the four installers records every path once, so what it adds is always undone |
| Removal.TwoRecordsAreRefused | cli/licctl/IntegrationManager.cs:75-81 | a path recorded with two contents can never be removed |
| RemoveAfterAdd.SameModificationTwiceIsNotRestored | cli/licctl/IntegrationManager.cs:82-89 | an input on which the condition fails: modified twice to one content, a path keeps the installed content |
| Removal.EditedBackupIsWrittenFirst | cli/licctl/IntegrationManager.cs:82-89 | an altered backup is written before its hash is refused: the refused removal changes the project exactly when the backup differs from the installed file |
| Semver.NumeralsCompareByValue | server/internal/service/release.go:808-822 | comparing numerals by length and text compares the numbers they denote |
| Semver.VersionsAreOrdered | server/internal/service/release.go:808-822 | the library's comparison is a total order up to build metadata |
| Semver.CompareIsPrecedence | server/internal/service/release.go:808-822 | on versions it is the precedence of section 11 of Semantic Versioning 2.0.0 |
| SemverText.ReadIsText | server/internal/service/release.go:824-835 | whatever reads as a version is its text with a "v", or one of the two short forms |
| SemverText.ShortTextIsRead | server/internal/service/release.go:824-835 | one or two numbers are a version, what is missing reading as zero |
| SemverText.LeadingVMakesNoDifference | server/internal/service/release.go:824-835 | a version reads the same with and without the leading "v" |
| Releases.BeforeMeaning | server/internal/service/release.go:808-835 | one version sorts before another exactly when it has higher precedence or the other is no version |
| Releases.BeforeIsStrictWeakOrder | server/internal/service/release.go:808-835 | the comparator is a strict weak order on all strings |
| Releases.SortIsStable | server/internal/service/release.go:808-822 | the sort puts releases in order and keeps tied ones as they came |
| Releases.StableSortIsUnique | server/internal/service/release.go:808-822 | every stable sort gives that very list, so the library's algorithm does not matter |
| Releases.GatherPool | server/internal/service/release.go:770-783 | the loop over the fallback chain gathers `Pool`, or fails with the first failing channel |
| Releases.FindLatestPublished | server/internal/service/release.go:769-789 | the method returns `Latest` |
| Releases.ListForFeed | server/internal/service/release.go:850-881 | the method returns `Feed`, channel check and limit included |
| Releases.PoolMembers | server/internal/store/release.go:376-409 | the pool holds only releases on offer, all of them when the channels fit the window |
| Releases.LatestIsHighest | server/internal/service/release.go:769-789 | no release of the pool exceeds the latest; none on offer does if the channels fit the window of 1000 |
| Releases.LatestHasHighestPrecedence | server/internal/service/release.go:769-789 | as soon as one release on offer has a version, the latest has one, of highest precedence |
| Releases.NoneAvailableExactly | server/internal/service/release.go:784-786 | there is no latest release exactly when nothing is on offer |
| Releases.LatestHeadsTheFeed | server/internal/service/release.go:850-881 | the latest release is the head of the feed for every limit, errors included |
| Releases.ShorterFeedIsPrefix | server/internal/service/release.go:850-881 | a feed with a smaller limit is a prefix of one with a larger limit |
| Releases.WiderChannelIsNoLower | server/internal/service/release.go:748-759 | moving from stable through beta and alpha to dev keeps a latest release unless a channel then read fails, and never lowers its version |
| Releases.FullWindowHidesTheRest | server/internal/service/release.go:761-783 | behind a full window of its channel the highest release on offer is not chosen, and exceeds the one that is, on every channel asked for |
| ReleaseChoice.LatestMayBeShown | server/internal/store/release.go:387-407 | the latest release is published, of the product, on a channel no less steady than the one asked for, and uploaded for the platform |
| ReleaseChoice.LatestExactly | server/internal/service/release.go:769-789 | exactly when the store fails, when none is available and when there is a latest release, row by row |
| ReleaseChoice.LatestIsNotExceeded | server/internal/service/release.go:769-789 | no row that may be shown goes before the latest one, with at most a thousand on each channel |
| ReleaseChoice.FeedAnswersExactly | server/internal/service/release.go:850-867 | exactly which channels have a feed and when it fails |
| ReleaseChoice.FeedShowsTheHighest | server/internal/service/release.go:850-881 | the feed shows only rows that may be shown, sorted, as many as asked for or twenty, and leaves out nothing that goes before what it shows |
| FileKeys.ShownIsAccepted | server/internal/service/release.go:167-214 | every version that Semantic Versioning 2.0.0 can write is accepted and read back unchanged |
| FileKeys.AcceptedIsShown | server/internal/service/release.go:167-214 | every accepted version is the text of exactly one such version |
| FileKeys.SafeReplacesPlus | server/internal/service/release.go:922-926 | sanitising an accepted version only replaces its one plus sign |
| FileKeys.AcceptedVersionsStayApart | server/internal/service/release.go:922-926 | accepted versions stay apart when sanitised |
| FileKeys.FileKeysAgreeExactly | server/internal/service/release.go:888-926 | storage keys are equal if and only if sanitised slug, version, platform and kept extension are |
| FileKeys.FileKeyIsInjective | server/internal/service/release.go:888-926 | for slugs of key characters equal keys mean equal slug, version and platform, whatever the files are called |
| FileKeys.OtherSlugsCollide | server/internal/service/release.go:922-926 | slugs of other characters can share a key |
| Idempotency.IdempotencyStore.Insert | server/internal/store/idempotency.go:51-66 | the first statement of a claim: exactly one insert wins |
| Idempotency.IdempotencyStore.IdempotencyClaim | server/internal/store/idempotency.go:51-86 | a claim without interruption: fresh, existing or body mismatch |
| Idempotency.IdempotencyStore.IdempotencyComplete | server/internal/store/idempotency.go:90-103 | completion stores status and body, cut at 65536 |
| Idempotency.IdempotencyStore.IdempotencyAbandon | server/internal/store/idempotency.go:109-115 | abandoning removes exactly an incomplete row |
| Idempotency.IdempotencyStore.PruneExpired | server/internal/store/idempotency.go:119-128 | pruning removes exactly the expired rows |
| Idempotency.CaptureWriter.Header | server/internal/middleware/idempotency.go:184-189 | only the first status is kept |
| Idempotency.CaptureWriter.Append | server/internal/middleware/idempotency.go:191-205 | a write is appended, and defaults the status to 200 |
| Idempotency.CaptureMeaning | server/internal/middleware/idempotency.go:174-205 | the capture holds everything written and the first status asked for |
| Idempotency.Serve | server/internal/middleware/idempotency.go:47-172 | one request through the middleware: screening, unreadable body, claim and its failure, replay, handler with or without panic, completion or abandonment |
| Idempotency.AnswersExactly | server/internal/middleware/idempotency.go:47-144 | exactly which requests are passed through, refused with 400, 413, 422, 409 and 500, replayed, and run |
| Idempotency.SlotChangesExactly | server/internal/middleware/idempotency.go:100-169 | only a guarded request that finds its slot free changes it |
| Idempotency.RetryIsReplayedExactly | server/internal/middleware/idempotency.go:34-46 | a retry gets the first response exactly when it is kept and fits the store; otherwise what it gets |
| Idempotency.SlotIsReleasedExactly | server/internal/middleware/idempotency.go:149-169 | panicking or not, a handler's slot is released if and only if no status was asked for or first one of 500 or more; and what a retry receives in each case |
| Idempotency.PartialResponseIsReplayed | server/internal/middleware/idempotency.go:149-169 | a handler that panics half-way after setting a status: a retry is answered with the half |
| Idempotency.StepKeepsSafe | server/internal/middleware/idempotency.go:100-172 | every orderly step of concurrent requests keeps the slot's invariant |
| Idempotency.RepliesComeFromOneExecution | server/internal/middleware/idempotency.go:100-172 | in orderly runs at most one handler is in flight, at most one execution is kept, and every replay is of it, for the same body hash, exact if and only if the body fits |
| Idempotency.ExclusionEndsExactly | server/internal/store/idempotency.go:62-79 | two handlers come to be in flight exactly by a claim without a row beside a handler in flight |
| Idempotency.OneSettledEndsExactly | server/internal/middleware/idempotency.go:152-169 | a second execution comes to be kept exactly by a handler that ends with a response to be kept after another has |
| Idempotency.VanishedRowLetsTheNextIn | server/internal/store/idempotency.go:67-79 | after a claim on a vanished row the next request is let in beside the first |
| Idempotency.VanishedRowAdmitsTwoExecutions | server/internal/store/idempotency.go:67-79 | three steps lead from a claim on a vanished row to two kept executions when another request is still to arrive or to read back |
| Idempotency.VanishedRowIsHarmlessExactly | server/internal/store/idempotency.go:62-79 | after such a claim in an otherwise orderly run, no continuation has two kept executions if and only if no other request is still to arrive or to read back |
| Idempotency.TwoExecutionsAfterAnError | server/internal/store/idempotency.go:67-79 | a run within the lifetime of a row in which two executions are kept |
| Dunning.Billing.NotifyPaymentRecovered | server/internal/payment/stripe.go:607-628 | the recovery mail goes out once per episode |
| Dunning.Billing.OnInvoicePaid | server/internal/payment/stripe.go:489-524 | the licence, record and mails after a paid invoice |
| Dunning.Billing.OnSubscriptionUpdated | server/internal/payment/stripe.go:526-591 | the same after a subscription update, status by status |
| Dunning.Billing.OnSubscriptionDeleted | server/internal/payment/stripe.go:630-658 | cancellation clears the anchor |
| Dunning.Billing.OnPaymentFailed | server/internal/payment/stripe.go:660-690 | an active licence becomes past due with a new anchor, any other is left alone |
| Dunning.Billing.OnSubscriptionPaused | server/internal/payment/stripe.go:1103-1128 | suspension keeps the anchor |
| Dunning.Billing.OnSubscriptionResumed | server/internal/payment/stripe.go:1130-1154 | resumption keeps the anchor |
| Dunning.Billing.OnChargeRefunded | server/internal/payment/stripe.go:692-726 | only a full refund revokes |
| Dunning.Billing.ExpireGracePeriodLicenses | server/internal/service/expiry.go:55-89 | the pass expires exactly the licences whose grace has ended |
| Dunning.Billing.ExpireTrials | server/internal/service/expiry.go:92-119 | the pass expires exactly the trials that are over |
| Dunning.Billing.MarkPastDueAsExpired | server/internal/service/expiry.go:121-142 | the pass expires exactly the licences past due for more than thirty days |
| Dunning.Billing.ClimbLadder | server/internal/service/expiry.go:239-263 | the first step reached from the top decides, and is mailed unless on record |
| Dunning.Billing.SendPaymentFailureReminders | server/internal/service/expiry.go:209-265 | the pass takes every past-due licence through the ladder |
| Dunning.Billing.RunAll | server/internal/service/expiry.go:42-51 | the four checks in order |
| Dunning.EventKeepsSound | server/internal/payment/stripe.go:489-690 | every event keeps the anchor and mail invariants |
| Dunning.CheckKeepsSound | server/internal/service/expiry.go:42-51 | so does every pass |
| Dunning.LadderIsClimbedOnce | server/internal/service/expiry.go:196-208 | in every run a past-due licence has an anchor, no mail goes out twice, and the mails of one episode ascend |
| Dunning.HighestStepIsMailed | server/internal/service/expiry.go:219-263 | after a pass that leaves the licence past due, the highest step reached has been mailed for the episode |
| Dunning.AnchorStaysPut | server/internal/payment/stripe.go:559-570 | the anchor does not move while the licence stays past due |
| Dunning.EntryStampsExactly | server/internal/payment/stripe.go:559-570 | becoming past due starts a new episode exactly after a failed payment or when no anchor is left |
| Dunning.NewEpisodeStartsAfresh | server/internal/service/expiry.go:206-208 | a new episode starts with none of its mails sent |
| Dunning.NoMailAfterTheLastStep | server/internal/service/expiry.go:239-263 | with the last step mailed for an anchor, checks send nothing while it remains |
| Dunning.PausedEpisodeIsResumed | server/internal/payment/stripe.go:1103-1154 | a run in which a lapse after pause and resumption gets no mail and expires on the old anchor |
| DunningLaws.CheckExpiresExactly | server/internal/service/expiry.go:42-142 | a pass expires a licence exactly when its grace, its trial or thirty days of being past due are over, and changes no other |
| DunningLaws.NothingOutlivesACheck | server/internal/service/expiry.go:42-142 | after a pass nothing is in force past its time |
| DunningLaws.ComesBackExactly | server/internal/payment/stripe.go:489-591 | a licence out of force comes back exactly by a payment, an active, trialing or past-due subscription, resumption, or reinstatement of one not revoked |
| DunningLaws.GoesOutExactly | server/internal/payment/stripe.go:526-726 | a licence in force leaves it exactly by a step that ends it, for the state that the step names |
| DunningLaws.StateInForceExactly | server/internal/payment/stripe.go:489-690 | which of active, past due and on trial a licence in force is after each step |
| DunningLaws.DatesAreStamped | server/internal/payment/stripe.go:526-658 | when suspension and cancellation are stamped and cleared |
| DunningLaws.EndedStaysEnded | server/internal/payment/stripe.go:630-726 | refund, revocation and cancellation end a licence for the whole of any run that brings nothing back; a partial refund changes nothing |
| DunningLaws.PaymentUndoesARefund | server/internal/payment/stripe.go:489-524 | a run in which an invoice paid after a full refund makes the licence active again |
| DunningLaws.ValidityIsTheLastSet | server/internal/payment/stripe.go:489-591 | at any moment of a run the validity is what the last step that set one has set |
| DunningLaws.DueStepIsMailed | server/internal/service/expiry.go:219-263 | after a pass the step due at one, seven or fourteen days has been mailed for the running episode |
| DunningLaws.RecoveryIsToldExactly | server/internal/payment/stripe.go:593-628 | exactly when an event mails the recovery, and of which episode |
| Metered.MeteredBillingSyncer.InsertMeteredEvent | server/internal/store/metered.go:17-29 | a usage row joins the end of the queue |
| Metered.MeteredBillingSyncer.MeterFor | server/internal/service/metered_sync.go:175-183 | the loop finds the first meter of the feature that is set |
| Metered.MeteredBillingSyncer.MarkMeteredSynced | server/internal/store/metered.go:38-44 | marking a row, if the store does not fail |
| Metered.MeteredBillingSyncer.SyncOne | server/internal/service/metered_sync.go:149-211 | one push: drained, dispatched, accepted, answered, marked, with every failure in between |
| Metered.MeteredBillingSyncer.ListUnsyncedMetered | server/internal/store/metered.go:31-36 | the oldest unsynced rows, as many as the limit |
| Metered.MeteredBillingSyncer.TakeTurn | server/internal/service/metered_sync.go:115-137 | the turn of one listed row, with its failure recorded |
| Metered.MeteredBillingSyncer.RunOnce | server/internal/service/metered_sync.go:106-139 | a pass as a function of the books and of what befalls each row, and the number pushed |
| Metered.BillMeaning | server/internal/service/metered_sync.go:18-30 | the bill is at least the sum over the accepted rows, and equal if and only if no row is billed twice |
| Metered.RunIsConsistent | server/internal/service/metered_sync.go:106-211 | in every run each ledger entry is of one row, with its quantity |
| Metered.RunStaysDistinctExactly | server/internal/service/metered_sync.go:74-81 | no row is billed twice if and only if no accepted row is accepted again once forgotten |
| Metered.BillIsTheSumExactly | server/internal/service/metered_sync.go:18-30 | over any run with any failures the bill is the sum of the distinct accepted rows, exactly under that condition |
| Metered.DispatchesAreBounded | server/internal/service/metered_sync.go:115-133 | while failures are recorded no row is dispatched more than the maximum number of times |
| Metered.SettledRowsRest | server/internal/service/metered_sync.go:115-121 | a synced row, or one with its attempts used up, is never dispatched or changed again |
| Metered.DrainedRowIsBilledExactly | server/internal/service/metered_sync.go:149-192 | draining bills nothing: a drained row is billed if and only if it was accepted before |
| Metered.DrainedUntriedIsUnbilled | server/internal/service/metered_sync.go:149-192 | while failures are recorded, a row drained at its first attempt is not billed |
| Metered.DrainedRowMayBeBilled | server/internal/service/metered_sync.go:184-192 | a run in which a drained row has been billed |
| Metered.LateRetryIsBilledTwice | server/internal/service/metered_sync.go:74-81 | a run in which a row is billed twice: accepted, answered with an error, and retried after 24 hours |
| Metered.CloggedQueueRestsExactly | server/internal/service/metered_sync.go:100-121 | a pass can change something if and only if it lists a row with attempts left |
| Metered.CloggedQueueIsReached | server/internal/service/metered_sync.go:100-121 | for every maximum, a run after which a fresh row waits behind an exhausted one and no pass pushes it |
| MeteredLaws.MeterIsTheFirst | server/internal/service/metered_sync.go:175-183 | the meter is the first that is set for the feature |
| MeteredLaws.NoMeterExactly | server/internal/service/metered_sync.go:175-183 | there is none exactly if none is set for it |
| MeteredLaws.TurnExactly | server/internal/service/metered_sync.go:115-211 | exactly when a row is dispatched, drained and under which name, marked, or its attempt counted |
| MeteredLaws.ProviderDropsExactly | server/internal/service/metered_sync.go:18-30 | the provider drops an event exactly if it accepted the identifier less than a day before |
| MeteredLaws.ListedExactly | server/internal/store/metered.go:31-36 | a pass lists the oldest unsynced rows, as many as the limit |
| MeteredLaws.PassCountsThePushed | server/internal/service/metered_sync.go:106-139 | a pass answers the number of rows that left the queue by being pushed |
| MeteredLaws.PassBillsExactly | server/internal/service/metered_sync.go:106-211 | a row becomes billed by a pass exactly if it is listed with attempts left, pushable and accepted |
| Usage.UsageService.FindQuota | server/internal/service/usage.go:57-69 | the loop finds the first quota of the feature |
| Usage.UsageService.IncrementUsageCounterWithLimit | server/internal/store/usage.go:43-98 | check and increment at once, 64-bit wrap and database range included |
| Usage.UsageService.CrossesThreshold | server/internal/service/usage.go:130-136 | the warning condition of one use |
| Usage.UsageService.RecordUsage | server/internal/service/usage.go:43-162 | counter, answer, warning and billing row of one use, for every branch |
| Usage.AcceptedExactly | server/internal/store/usage.go:69-91 | a use is accepted exactly if the quota has room, despite the 64-bit sum |
| Usage.WarnedExactlyOnce | server/internal/service/usage.go:130-150 | in any sequence of uses the counter is the sum of what was accepted and within the quota, with exactly one warning if the threshold is reached and none otherwise |
| Usage.UnlimitedNeverWarns | server/internal/service/usage.go:71-130 | without a positive limit everything is counted and nothing warned of |
| Usage.QuotaIsTheFirst | server/internal/service/usage.go:57-69 | the quota is the first of the feature asked for |
| Usage.NoQuotaExactly | server/internal/service/usage.go:57-69 | there is none exactly if no entitlement of the feature is a quota |
| Usage.LimitReadsDecimals | server/internal/service/usage.go:71-71 | a decimal text reads as its number, or the nearest that 64 bits hold |
| Usage.OtherTextIsNoLimit | server/internal/service/usage.go:71-71 | any other text reads as no limit |
| Usage.UseIsAnswered | server/internal/service/usage.go:71-130 | exactly when a use is counted, and the counter, limit and remainder it is answered with |
| Usage.UnlimitedCountsEverything | server/internal/service/usage.go:71-130 | without a positive limit the counter is the sum of all uses |
| UsageBilling.UsedIsQueuedOrLost | server/internal/service/usage.go:108-122 | over any uses and passes, the counter is the sum of the queued rows and of the rows that could not be written |
| UsageBilling.UsedIsBilledPendingOrLost | server/internal/service/usage.go:108-122 | conservation from use to bill: used is billed plus pending plus lost, if and only if no forgotten row is accepted again; otherwise more is billed |
| UsageBilling.SettledBillIsTheUsage | server/internal/service/metered_sync.go:18-30 | with prompt retries the bill is never more than the usage, and equal if and only if every row was written and accepted |

## Left out

- Parameters with stated laws: Ed25519 (a signature verifies under its key, and only payloads the server signed verify), JSON in both languages (reading undoes writing), SHA-256, DPAPI encryption, random bytes and names, clocks, the network. HTTP, Gin, SMTP, S3 and the Stripe SDK are not modelled.
- Strings are sequences of bytes; the client's test for blank text knows the ASCII white space only; case folding of file names and of extensions is ASCII.
- Instants are integers of one unit per module; sub-second parts of the lease lifetime, and several clock readings within one pass of the expiry checks, are read as one.
- Error texts, log lines, audit rows, metrics, web hooks and the `last_error` column are dropped; which error it is, is kept.
- golang.org/x/mod/semver, `sort.SliceStable` and `path.Ext` are libraries; their behaviour is modelled from their documentation. The sort enters through its contract, which has one solution.
- Gin's own response writer lets a later status replace an earlier one before the first write; the model says what `captureWriter` keeps.
- `TouchActivation`, a missing failure tracker, and the nil product of a capability check are not modelled in `LicenseServer`; the order of entitlement names (sorted in the code) is not kept, the client reads them as a set.
- `LicenseServer` calls run without interruption; interleavings of their phases are those of `LeaseProtocol`, where a request is data moved by steps. The tables and keys of the service are fixed during a call.
- Retained public keys (`ParseRetainedPublicKeys`) enter as the key ring; key rotation is the freedom of the protocol to sign with any key the server holds.
- `Sign` fills the nonce of its argument in place; here the filled token is a new value.
- A route shares rate-limiter keys with others of another rate or window; the model has one rate and window per key. Redis errors and the fail-open or fail-closed choice are not modelled.
- licctl: detection of the stack, the kit, what each stack writes (any sequence of tracker operations is allowed), the manifest's own serialisation, empty directories, Windows path folding. Names of temporary files are fresh.
- Dunning.Billing.RunAll: does not model expiry and renewal reminders, the cleanup of activations and the synchronisation of the subscriptions table, because none of them writes a status or an anchor or sends a mail of the ladder.
- Lost updates between a Stripe event and an expiry pass, failures of `UpdateLicenseAndSubscription` and `RecordNotification`, and the subscriptions table are not modelled in `Dunning`; each event is atomic.
- Two sync passes at once, rows queued during a pass, and edits by an operator are not modelled in `Metered`; rows are dispatched at the instant of their pass.
- Reset of usage counters and a change of quota within a period are not modelled in `Usage`; its ratios are exact, the code's are floating point.
- Seats, floating sessions, publishing of releases, uploads, download links, the feed's XML, keys of `keygen.go`, the console and its analytics: no property of theirs is stated.
