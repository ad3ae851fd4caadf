# Verified model of the elisym provider's money and state logic

The elisym provider sells work over Nostr and is paid on Solana. This project models the parts
of the repository where a wrong step costs somebody money or data, and proves what they keep over
every run:

- **The payment ledger and its crash protocol** (`Ledger`, `LedgerRuns`, `JobLedgers`). A ledger is
  a map of entries in memory, a derived index from settlement signature to job, and a file written
  whole or not at all. `Ledger.Apply` says what each call does, failed flushes, prunes, crashes and
  reloads included; the class `JobLedgers.JobLedger` updates the maps in place, with the rollback
  and the loops of the source, and each of its methods is proved to do what `Apply` says.
- **The protocols on top of it**: single use of a delegation proof across crashes (`ProofReplay`,
  over the durable nonce set of `Nonces`), the two-phase delegated pull (`DelegatedPull`, and with
  what is delivered and billed, `DelegatedResults`), the live
  race of two payment verifications (`PaymentRaces`), and payment recovery with its reference scan,
  terminal verdict and backoff ladder (`ReferenceScan`, `Recovery`, `Deferrals`, `RecoveryLoops`). Each is a machine
  whose steps are the synchronous blocks between two `await`s; chain, verifier, skill, clock and
  file system are inputs of the steps.
- **The session store** (`SessionStores`, with `SessionFiles`, `Transcripts`, `TurnText`,
  `ReplayHistory`, `Compaction`, `HistoryLaws`): mutexes, admission, the exact byte counter, sweeps and eviction,
  torn appends, compaction and the replay normaliser.
- **The signed-offer evaluator** (`Evidence`, `Offers`, `OfferVerdicts`): an untrusted bag of events comes down to a
  verdict that depends on the genuine events only. The tie-break is that of NIP-01 (section
  "Kinds"), deletions are those of NIP-09, expirations those of NIP-40.
- **Two editors and limiters**: the Codex table editor (`CodexToml`, `CodexRoundTrip`, `TomlLaws`), the sliding
  call window and preview nonces (`Limits`), the spend cap and the delegated ceilings in flight
  (`Reservations`).

Classes whose fields the source updates in place are classes here; a `View`, a specification
function or a pointwise postcondition ties each method to the state it leaves, and the lemmas are
about those specifications. `dafny verify dfyconfig.toml` checks everything.

## What the proofs found

Where a promise does not hold outright, the code was kept as it is and the exact condition under
which it does was proved. Single use of a delegation proof holds whatever proofs are presented, as
long as a verification ends within the clock skew; it rests on the hourly prune of the nonce store,
since a restart may leave another proof's mark under the same nonce, and
`ProofReplay.AcceptedOnceIff` says how long that interval has to be.

- **A double-settled ledger can settle a third job.** Releasing the mark of a job's earlier
  settlement frees a signature another entry still carries: `LedgerRuns.DoubleSettledLedgerSettlesAgain`
  shows it, `ClaimKeepsCoverageIff` says exactly when it does not happen.
- **A delegated ceiling can leak.** The reservation is made before the price is converted for the
  ledger and released only by a block entered after it. `Reservations.InFlightIsAtWorkIff` says for
  which prices the figure kept for an owner is right.
- **A transcript cut between a line and its newline is read right but not repaired**:
  `Transcripts.TornAppendRepairedIff`.
- **An expired conversation can come back.** When its file cannot be unlinked the job starts fresh,
  but the append revives the file: `SessionFiles.ExpiredStaysGoneIff`.
- **Env keys given to the exported installer can spoil an uninstall.**
  `CodexRoundTrip.UninstallUndoesInstallIff` gives the exact condition and `BracketedKeyOpensOther` a
  key that breaks it. The command line itself renders only `ELISYM_AGENT`, for which
  `PlainKeysUninstall` proves the round trip outright.
- **At a customer's session cap, room is reported for a session whose file could not be unlinked**:
  the contract of `SessionStores.SessionStore.EnsureCustomerCapacity` says so.

## Model

| member | source | states |
|---|---|---|
| LedgerRuns.ExactlyOnceSettlement | packages/cli/src/ledger.ts:521-587 | over every run from a duplicate-free ledger, if two jobs both got `claimed` for one signature, then in between the first settled with another transaction or its entry was pruned |
| LedgerRuns.ConfirmedSettlementIsFinal | packages/cli/src/ledger.ts:504-587 | over every run in which a job claims only while no amount is recorded for it, once a job is confirmed in memory and on disk, its settlement is claimed for another only after its entry was pruned: settling with another transaction is no longer a way out |
| LedgerRuns.AmountConfirms | packages/cli/src/ledger.ts:376-387 | flushing the amount of a job that owns its settlement is what confirms it, in memory and on disk |
| LedgerRuns.RunKeepsInv | packages/cli/src/ledger.ts:201-730 | every reachable state: memory and disk hold no settlement on two entries, and the index is the exact inverse of the entries' usable signatures |
| LedgerRuns.ApplyKeepsInv | packages/cli/src/ledger.ts:322-729 | each ledger call, failed flush, prune, crash and reload keeps that invariant |
| LedgerRuns.OwnsUntilLetGo | packages/cli/src/ledger.ts:376-729 | a settlement a job owns in memory and on disk stays owned in both through every call but its own claim of another transaction and the prune of its entry |
| LedgerRuns.ClaimAnswersIff | packages/cli/src/ledger.ts:521-545 | on the entries: a claim succeeds exactly for a usable signature, a known job, a transaction no other job settled with and a flush that reaches the disk; it is refused as consumed exactly when another job carries it |
| LedgerRuns.OwnSettlementReclaimed | packages/cli/src/ledger.ts:497-503 | a job may always claim again what it owns, and owns it afterwards |
| LedgerRuns.ClaimTouchesOneSettlement | packages/cli/src/ledger.ts:543-586 | a claim changes nothing but the settlement of the job it is for, and nothing at all unless it succeeds |
| LedgerRuns.PruneDropsExactlyOldEnded | packages/cli/src/ledger.ts:682-729 | a prune drops exactly the entries that ended before the cutoff; on any ledger the settlements that stay keep their marks, and a mark goes only with an entry that carried it |
| LedgerRuns.StatusMovesForward | packages/cli/src/ledger.ts:590-651 | a status only moves along paid, executed, delivered or to failed; ending a job clears its result |
| LedgerRuns.EachFieldHasItsCalls | packages/cli/src/ledger.ts:376-680 | for every field of an entry, which calls write it and what, and that no other call does |
| LedgerRuns.RecordedOnce | packages/cli/src/ledger.ts:340-374 | a job is recorded once, as paid, with its event and with nothing else |
| JobLedgers.JobLedger.Bind | packages/cli/src/ledger.ts:543-586 | on any ledger, double-settled ones included, a binding whose one flush fails is rolled back: entries, index and file are as found |
| LedgerRuns.ClaimKeepsCoverageIff | packages/cli/src/ledger.ts:543-586 | on any ledger a successful claim keeps every carried settlement marked exactly when nobody else carries the signature whose mark it releases |
| LedgerRuns.DoubleSettledLedgerSettlesAgain | packages/cli/src/ledger.ts:551-560 | a ledger that settles a signature twice can be made to hand it to a third job |
| LedgerRuns.ReloadKeepsClaimIff | packages/cli/src/ledger.ts:224-320 | a reload keeps the mark of a claim for any job id but the empty one, which is why the run results ask for one |
| LedgerRuns.IndexIsUnique | packages/cli/src/ledger.ts:439-475 | on a duplicate-free ledger whatever order the load visits entries in, it builds the same index |
| JobLedgers.JobLedger.constructor | packages/cli/src/ledger.ts:216-320 | loading gives the readable entries of the file and an index that marks every settlement they carry |
| JobLedgers.JobLedger.IndexPaymentSignatures | packages/cli/src/ledger.ts:439-475 | the loop over entries builds an index of exactly the usable signatures, each owned by an entry that carries it |
| JobLedgers.JobLedger.ClaimPaymentSignature | packages/cli/src/ledger.ts:521-587 | the answer and the whole new state, rollback included, are those of the specification whose answers `LedgerRuns.ClaimAnswersIff` settles; it says `not-persisted` only after a write that failed |
| JobLedgers.JobLedger.PruneOldEntries | packages/cli/src/ledger.ts:682-705 | deletes exactly the terminal entries past the cutoff and releases exactly the marks no survivor carries |
| JobLedgers.JobLedger.RecordPaidJob | packages/cli/src/ledger.ts:368-374 | a new entry is recorded once and flushed; a known job changes nothing |
| JobLedgers.JobLedger.UpdateJobPayment | packages/cli/src/ledger.ts:376-387 | writes the amount and the request that are given, in memory even when the flush fails |
| JobLedgers.JobLedger.RecordPull | packages/cli/src/ledger.ts:416-429 | signature, height and amount reach the entry in one flush |
| JobLedgers.JobLedger.Move | packages/cli/src/ledger.ts:590-600 | a status changes only along an allowed transition |
| JobLedgers.JobLedger.MarkJobExecuted | packages/cli/src/ledger.ts:602-608 | an allowed move to `executed` stores the result and flushes |
| JobLedgers.JobLedger.MarkJobFailed | packages/cli/src/ledger.ts:640-651 | an allowed move to `failed`, whose failed flush is swallowed |
| Nonces.UsedNonceStore.MarkUsed | packages/cli/src/ledger.ts:846-862 | burns the nonce, evicting exactly as many of the oldest marks as the size limit asks for, so the store never exceeds it; the other marks keep their dates, and a lost flush keeps the mark in memory |
| Nonces.UsedNonceStore.Prune | packages/cli/src/ledger.ts:865-881 | drops exactly the marks whose retention has ended |
| Nonces.LiveIsLive | packages/cli/src/ledger.ts:865-881 | dropping marks from the ordered store drops exactly the lapsed keys of its table |
| ProofReplay.ProofAcceptedOnce | packages/cli/src/runtime.ts:2398-2436 | over every run with crashes, lost nonce flushes and lost nonce files, whatever nonces proofs share, a proof is accepted at most once when verifications take no longer than the clock skew |
| ProofReplay.AcceptedOnceIff | packages/cli/src/runtime.ts:1484-1506 | for any prune interval: every run accepts each proof at most once if and only if verifications are within the skew and the first prune after a start comes once every proof gated before it is dead |
| ProofReplay.RunKeepsInv | packages/cli/src/runtime.ts:2555-2590 | after every run an accepted proof that could still be presented is recorded in memory and on disk, and under a mark no prune drops while it could |
| ProofReplay.FreshProofIsAccepted | packages/cli/src/runtime.ts:2398-2436 | a valid proof within its gate whose nonce is free is accepted, and its nonce marked until a minute past its expiry |
| ProofReplay.OnlyFreshProofsAreAccepted | packages/cli/src/runtime.ts:2398-2436 | nothing else is: not a proof past its gate, not one that does not verify, not one under a mark that stands |
| ProofReplay.ReconciledExactly | packages/cli/src/runtime.ts:2555-2590 | after a restart a nonce is marked exactly when it was or an unexpired recorded proof has it, with the date of the first such proof |
| ProofReplay.KeyNamesOwnerAndNonce | packages/cli/src/runtime.ts:2431 | two proofs share a mark exactly when they share owner and nonce |
| ProofReplay.PrunesDrop | packages/cli/src/ledger.ts:682-705 | what each prune drops, exactly |
| ProofReplay.EarlyPruneRepeats | packages/cli/src/runtime.ts:2574-2578 | with a shorter interval a run accepts a proof twice, because the restart burnt the nonce for another proof first |
| ProofReplay.SlowVerificationRepeats | packages/cli/src/runtime.ts:2411-2435 | with a verification slower than the skew a run accepts a proof twice, because the mark of the first acceptance lapsed |
| ProofReplay.ReconcileUsedNonces | packages/cli/src/runtime.ts:2555-2590 | the loop of a start over the store leaves exactly the marks the protocol's restart step has, and flushes them once |
| DelegatedPull.MeteredChargeInRange | packages/cli/src/runtime.ts:2255-2319 | what is billed is above zero, never above the ceiling, at least a floor that fits under it, the report itself when it is in range, and can be recorded whenever the ceiling can |
| DelegatedPull.AtMostOnePull | packages/cli/src/runtime.ts:2505-2547 | over every run with crashes, recovery and other jobs' ledger calls, at most one pull is sent for a job, of an amount in the published range |
| DelegatedPull.SentOnlyWhenPersisted | packages/cli/src/runtime.ts:2531-2538 | a pull is sent only when its signature, its amount and a deliverable result are on disk |
| DelegatedPull.PersistedPullHoldsResult | packages/cli/src/runtime.ts:2151-2183 | every `paid` entry on disk with a pull signature holds a deliverable result |
| DelegatedPull.ChargedFailsOnlyWithResultLost | packages/cli/src/runtime.ts:2688-2780 | when `dead` is true of the chain, a job whose pull lands ends `failed` only because its result blob was lost |
| DelegatedPull.DeliversOnlyWhenCharged | packages/cli/src/runtime.ts:2187-2208 | when `landed` is true of the chain, a dead pull is never delivered |
| DelegatedPull.StepKeepsInv | packages/cli/src/runtime.ts:2157-2209 | each step of the delegated job, of recovery and of the rest of the provider keeps the protocol's invariant |
| DelegatedResults.ChargedJobKeepsItsResult | packages/cli/src/runtime.ts:2151-2228 | over every run, in memory and on disk, an executed job holds, and a pulled one will deliver, a result its skill produced on that run, content and files; nothing else is ever handed out |
| DelegatedResults.PullBillsWhatWasReported | packages/cli/src/runtime.ts:2174-2186 | the amount sent, and the amount recorded with a pull, is what the skill reported on that run, brought into the published range, or the ceiling when it reported nothing usable |
| DelegatedResults.FailsOnlyWhenGivenUp | packages/cli/src/runtime.ts:2688-2780 | a job whose pull was signed fails only after a dead verdict, a lost blob or a failure that was not to be kept |
| DelegatedResults.GoodJobIsDelivered | packages/cli/src/runtime.ts:2151-2240 | a job within its gate whose skill answers anything at all sends one pull of the reported charge and hands out exactly that answer |
| DelegatedResults.ChargedJobCanBeDelivered | packages/cli/src/runtime.ts:2688-2780 | from every reachable state in which the pull is on disk, a restart and one recovery that finds it landed and the files kept deliver the result that was produced |
| DelegatedResults.RefusedJobFails | packages/cli/src/runtime.ts:2151-2208 | every no - of the proof, the pre-check, an empty result, the chain, the file store, the failure routing - fails the job, with nothing sent or handed out |
| DelegatedResults.UndecidedJobWaits | packages/cli/src/runtime.ts:2202-2209 | an open verdict or a failure to be retried leaves the entry as it is |
| DelegatedResults.GateIff | packages/cli/src/runtime.ts:2398-2410 | the proof is checked exactly when it has not expired and expires within eleven minutes; otherwise the job fails at once |
| PaymentRaces.RaceSettlesOnce | packages/cli/src/runtime.ts:3315-3476 | for every interleaving the race settles at most once, at most one claim succeeds, one does exactly when it resolved verified, and it has settled once both paths are done |
| PaymentRaces.SettledIsFinal | packages/cli/src/runtime.ts:3320-3384 | after it settled no event claims or resolves anything |
| PaymentRaces.PaidIff | packages/cli/src/runtime.ts:3359-3384 | the job is paid exactly when, with the race still open, a verified answer got its claim |
| PaymentRaces.SettledIff | packages/cli/src/runtime.ts:3315-3476 | the race is over exactly when it was aborted or timed out, the job is paid, or both paths are done |
| PaymentRaces.ClaimsAreGrounded | packages/cli/src/runtime.ts:3359-3436 | every claim is made on a verified answer, for the signature the customer named or the one the lookup found |
| PaymentRaces.NamedSignaturePays | packages/cli/src/runtime.ts:3388-3412 | in an open race the signature the customer names is asked about, and a verified answer that gets its claim under that name pays the job |
| PaymentRaces.LastLossAnswers | packages/cli/src/runtime.ts:3329-3347 | an open race answers with what it lost by last, at the deadline or when the second path loses too |
| PaymentRaces.PaymentRace.AcceptPayment | packages/cli/src/runtime.ts:3359-3384 | claims the asked-about signature before winning, loses when there is none or the claim is refused, and leaves the ledger as that claim does |
| PaymentRaces.PaymentRace.LosePath | packages/cli/src/runtime.ts:3329-3347 | the second path to lose resolves with its own answer |
| PaymentRaces.PaymentRace.OnSignatureVerdict | packages/cli/src/runtime.ts:3400-3412 | a verified answer is accepted under the signature that was asked about, any other loses; when the race becomes paid the signature claimed is the job's in the index, in its entry and on disk |
| PaymentRaces.PaymentRace.OnReferenceVerdict | packages/cli/src/runtime.ts:3426-3436 | a verified answer is accepted under the signature it names, any other loses; when the race becomes paid the signature claimed is the job's in the index, in its entry and on disk |
| ReferenceScan.ListReferenceCandidates | packages/cli/src/payment-recovery.ts:761-798 | the succeeded transactions of the first listing that answers within the attempts, with whether the raw page filled the window |
| ReferenceScan.SucceededInOrder | packages/cli/src/payment-recovery.ts:761-798 | the candidates are the succeeded transactions of the page, each once and in its order |
| ReferenceScan.VerifyByReferenceScan | packages/cli/src/payment-recovery.ts:857-954 | `none` exactly when nothing succeeded was listed, the page was short and time was left; else the answer of the first candidate that is open and verifies, throws or runs out of time |
| ReferenceScan.ScanReference | packages/cli/src/payment-recovery.ts:857-954 | on the page that was listed: `none` exactly when it was short of the window, every transaction on it failed and time was left; a transaction is the answer exactly when it succeeded, can be named, is nobody else's, verifies in time, and every such one in front of it was refused; a throw exactly likewise |
| ReferenceScan.MaskedPaymentIsFound | packages/cli/src/payment-recovery.ts:857-954 | a payment behind any number of foreign, unnameable or failing transactions is the one returned |
| Recovery.ReVerifyPayment | packages/cli/src/payment-recovery.ts:982-1218 | every conclusion exactly: `no-payment`, `awaiting-window` and `corrupt-state` each if and only if their conditions hold; `confirmed` exactly when the verifier accepted the settlement the job owns or the transaction that decides the scan, unless the claim is refused or a write fails; and what each leaves in the ledger |
| Recovery.WindowIsTheRequestsOwn | packages/cli/src/payment-recovery.ts:1239-1247 | the window counts from the request's own issue for its own length, with the entry's date and ten minutes for what is unreadable |
| Recovery.MayIssueTerminalVerdict | packages/cli/src/payment-recovery.ts:597-630 | a yes rests on a probe that found the right cluster and its history |
| Recovery.EndpointProbe.Finish | packages/cli/src/payment-recovery.ts:633-690 | only a proved answer is kept, and one probe runs at a time |
| Recovery.EndpointProbe.Ask | packages/cli/src/payment-recovery.ts:597-630 | a positive answer from the cache rests on a probe that proved the endpoint sound |
| RecoveryLoops.RecoveryLoop.ConfirmPayment | packages/cli/src/runtime.ts:3871-3930 | one pass over a job that is not held back is one look, concluding what the re-verification must, and one step of the job's history; the job is failed just when that step closes it, as unpaid only after two sightings |
| RecoveryLoops.RecoveryLoop.Route | packages/cli/src/runtime.ts:3880-3930 | each conclusion leaves the backoff table of the step, and the ledger untouched or the job marked failed |
| RecoveryLoops.RecoveryLoop.Park | packages/cli/src/runtime.ts:3734-3747 | a job over the scan budget is parked unless it is held back already |
| Deferrals.FailedOnlyAfterTwoSightings | packages/cli/src/runtime.ts:3871-3930 | over every run of looks, parks, sweeps and restarts a job is failed as unpaid only when its last two looks since it was last forgotten both found nobody paid, each with its own evidence, at least 4.5 ticks apart; a closing whose flush was lost is undone by a restart, and the next one needs two fresh sightings |
| Deferrals.LookWaitsOutLadder | packages/cli/src/payment-recovery.ts:193-203 | the look after n inconclusive ones since the job was last forgotten starts no earlier than the sum of the first n rungs, less half a tick each, after the first of them ended |
| Deferrals.DailyLooksBound | packages/cli/src/payment-recovery.ts:121-203 | at the one-minute tick, while the loop does not forget the job, at most 29 of its looks within a day of its first inconclusive one are inconclusive |
| Deferrals.StepKeepsInv | packages/cli/src/payment-recovery.ts:341-491 | after every step the stored count is the number of inconclusive looks since the last reset |
| Deferrals.NotedWaits | packages/cli/src/payment-recovery.ts:379-396 | a noted deferral waits its rung give or take half a tick, and at least 4.5 ticks after an empty look |
| Deferrals.SightingIff | packages/cli/src/runtime.ts:3871-3930 | a sighting is made by an empty look and outlasts nothing but parks; a job is failed as unpaid exactly by an empty look that meets one |
| Deferrals.OtherWaits | packages/cli/src/payment-recovery.ts:424-455 | an open window waits between half a tick and one and a half, a spent budget less than one; neither climbs |
| Deferrals.RungsAre | packages/cli/src/payment-recovery.ts:121-203 | the ladder is 1, 2, 5, 15, 30 and then 60 ticks |
| Deferrals.RecoveryDeferrals.Note | packages/cli/src/payment-recovery.ts:379-396 | one step up the ladder, remembering whether this look was empty |
| Deferrals.RecoveryDeferrals.NoteAwaitingWindow | packages/cli/src/payment-recovery.ts:424-433 | waits without climbing, and clears the sighting |
| Deferrals.RecoveryDeferrals.ParkForCapacity | packages/cli/src/payment-recovery.ts:446-455 | waits without climbing, and neither sets nor clears the sighting |
| Deferrals.RecoveryDeferrals.Sweep | packages/cli/src/payment-recovery.ts:482-491 | forgets exactly the jobs that are no longer pending |
| SessionStores.SessionStore.constructor | packages/cli/src/sessions.ts:177-210 | after a start the counter is the bytes of the transcripts left, and the sessions idle past their time are gone |
| SessionStores.SessionStore.TryAcquire | packages/cli/src/sessions.ts:237-271 | a free mutex gets one new holder, a held one none |
| SessionStores.SessionStore.Release | packages/cli/src/sessions.ts:263-270 | frees exactly its own mutex; a second call changes nothing, so it never frees a later holder |
| SessionStores.SessionStore.AdmitLive | packages/cli/src/sessions.ts:281-284 | one more admitted job, for this session only |
| SessionStores.SessionStore.ReleaseLive | packages/cli/src/sessions.ts:286-294 | one fewer, never below zero, and no empty entry stays |
| SessionStores.SessionStore.SyncRecoveryRegistrations | packages/cli/src/sessions.ts:303-326 | the registered jobs are afterwards exactly the old and new ones still paid, each in the recovery set of its one session and in no other |
| SessionStores.FirstRegistrationStands | packages/cli/src/sessions.ts:303-326 | a job keeps the session it is registered with, a new one gets the first session named for it |
| SessionStores.SessionStore.DeleteIfIdle | packages/cli/src/sessions.ts:807-835 | deletes only a session with a free mutex and no admitted job, gives the mutex back, and the counter stays exact |
| SessionStores.SessionStore.Gc | packages/cli/src/sessions.ts:218-228 | deletes exactly the sessions past their time that are idle and can be unlinked |
| SessionStores.SessionStore.EvictGlobal | packages/cli/src/sessions.ts:789-800 | deletes idle sessions oldest first, never the arriving one or a reserved one; ends at or below the mark or with nothing left to delete; and goes no further than it must |
| SessionStores.SessionStore.EnsureCustomerCapacity | packages/cli/src/sessions.ts:749-783 | below the cap nothing goes; at it there is room exactly when another session of the customer is idle, and the oldest such goes if it can be unlinked |
| SessionStores.SessionStore.ReadSessionLines | packages/cli/src/sessions.ts:569-643 | the outcome and the file after a read, repair and quarantine included, with the counter exact |
| SessionStores.SessionStore.Open | packages/cli/src/sessions.ts:338-425 | an expired session is not replayed and its file goes if it can; nothing is evicted below the byte cap, at it idle sessions go oldest first to the mark and no further; at its customer's cap a new session takes the place of the oldest idle one; a job runs with no history exactly when that made no room, and otherwise a readable session is replayed whole with the split its compaction will use |
| SessionStores.TurnedAwayMeans | packages/cli/src/sessions.ts:360-380 | a job is turned away only with the byte cap reached and nothing more to evict, or, for a new session, with the customer's cap reached and no other session of theirs idle |
| SessionStores.SessionStore.AppendExchange | packages/cli/src/sessions.ts:432-495 | both turns are added in one write or none is, and the counter follows |
| SessionStores.SessionStore.RewriteWithSummary | packages/cli/src/sessions.ts:699-746 | the transcript becomes the summary and the kept tail of what was read, and what is returned is its replay |
| SessionStores.SessionStore.Compact | packages/cli/src/sessions.ts:504-511 | a blank summary changes nothing; a rewrite clears the strikes |
| SessionStores.SessionStore.CompactionFailed | packages/cli/src/sessions.ts:520-536 | exactly the second failure in a row forces a rewrite, and that transcript replays within the fixed text, the keep budget and two characters a join |
| SessionFiles.SumSizes | packages/cli/src/sessions.ts:204-208 | the loop over the files computes the total of their sizes |
| SessionFiles.SortByAge | packages/cli/src/sessions.ts:790 | a listing of exactly these sessions, each once, oldest first |
| SessionFiles.ExpiredStaysGoneIff | packages/cli/src/sessions.ts:349-358 | a session opened past its time, appended to and opened again reads the new lines only if and only if its old file could be unlinked |
| SessionFiles.TotalWritten | packages/cli/src/sessions.ts:743 | writing a file changes the total by the change of its size |
| SessionFiles.TornSessionIsRead | packages/cli/src/sessions.ts:569-631 | a session whose append was cut anywhere reads back, is never set aside, and is left as its complete lines unless the cut fell just before a newline |
| SessionFiles.SetAsideIff | packages/cli/src/sessions.ts:569-631 | a read sets a file aside exactly when it is over the size limit or corrupt and can be renamed, and touches no other file |
| Transcripts.ReadTranscript | packages/cli/src/sessions.ts:589-630 | the line loop parses every line, takes a malformed last line as torn and any other as corruption |
| HistoryLaws.CorruptIff | packages/cli/src/sessions.ts:589-630 | a transcript is corrupt exactly when something that is not blank follows a malformed line |
| Transcripts.TornAppendReadsBack | packages/cli/src/sessions.ts:569-631 | for every byte at which an append is cut, the next read gives the earlier lines and exactly the appended lines written in full |
| Transcripts.TornAppendRepairedIff | packages/cli/src/sessions.ts:610-629 | after that read the file is exactly its complete lines, if and only if the cut was not between a line and its newline |
| Transcripts.CompleteFileReads | packages/cli/src/sessions.ts:458-479 | what appends write reads back as the lines appended |
| TurnText.TruncateTurn | packages/cli/src/sessions.ts:1056-1066 | the shrinking loop computes the stored text of a turn |
| TurnText.TruncatedFits | packages/cli/src/sessions.ts:1056-1066 | stored text fits the byte budget and is the text, or a beginning of it and the marker |
| HistoryLaws.TruncatedKeepsWhatFits | packages/cli/src/sessions.ts:1056-1066 | cut text is no shorter than it must be: all that fits, or nine tenths of a length that was tried and did not fit |
| TurnText.RerunRecordsOnce | packages/cli/src/sessions.ts:402-455 | a job whose append was cut anywhere and that runs again leaves exactly one turn of each role |
| ReplayHistory.AssembleReplay | packages/cli/src/sessions.ts:1009-1041 | the loops compute the bounded non-blank messages with neighbours of one role joined |
| ReplayHistory.ReplayIsNormal | packages/cli/src/sessions.ts:1009-1041 | the history is empty or starts with the user, ends with the assistant, strictly alternates and has no blank message |
| ReplayHistory.ReplayUnmerges | packages/cli/src/sessions.ts:1031-1039 | splitting the history at its joins gives back, in order, exactly the bounded non-blank messages |
| ReplayHistory.ReplayIsIdempotent | packages/cli/src/sessions.ts:1009-1041 | assembling a history again changes nothing |
| HistoryLaws.OwnTurnsAreLeftOut | packages/cli/src/sessions.ts:1009-1024 | a job that runs again is shown the history as if it had recorded nothing |
| HistoryLaws.BoundedCutsEnds | packages/cli/src/sessions.ts:1018-1030 | only assistant messages are cut in front and only user messages behind |
| HistoryLaws.ExchangeIsReplayed | packages/cli/src/sessions.ts:432-495 | a history that ends with an answer grows by exactly the next exchange, question first |
| Compaction.KeptTailStart | packages/cli/src/sessions.ts:649-697 | the kept tail is turns only, holds the last one, fits the budget unless it is that one alone, and cannot be extended while budget remains |
| Compaction.SplitIsUnique | packages/cli/src/sessions.ts:420-422 | a transcript has one such split, so what is summarised and what is kept always meet |
| Compaction.CompactionSplits | packages/cli/src/sessions.ts:699-725 | prefix and tail are the whole transcript; the kept turns are written whole and within the budget, or are one turn cut to it |
| Compaction.CompactedReplayBound | packages/cli/src/sessions.ts:699-746 | a compacted transcript replays within the prefix, the summary, the keep budget, the marker and two characters a join |
| HistoryLaws.SummaryIsReplayedFirst | packages/cli/src/sessions.ts:699-746 | a compacted transcript that replays at all replays the summary first, in the user's voice |
| Compaction.BuildSummarizeText | packages/cli/src/sessions.ts:1044-1054 | the text to summarise is one labelled part for each line before the tail |
| HistoryLaws.PartsNameTheSpeaker | packages/cli/src/sessions.ts:1044-1054 | each part names who spoke, or says that it is the earlier summary |
| Evidence.NewestSigned | packages/commerce/src/verify-offer.ts:150-181 | the scan returns a genuine match that no other genuine match beats by date, then lowest id, or none when there is none |
| Evidence.NewestIsUnique | packages/commerce/src/verify-offer.ts:168-175 | there is one such event when ids name content |
| Evidence.SameEvidence | packages/commerce/src/verify-offer.ts:104-118 | bags with the same genuine events hold the same evidence |
| Evidence.FilteredEvidence | packages/commerce/src/verify-offer.ts:190-202 | filtering a bag filters its evidence |
| Offers.EvaluateOffer | packages/commerce/src/verify-offer.ts:321-492 | the verdict on a bag is the verdict on the set of genuine events in it |
| Offers.VerdictIsOnEvidence | packages/commerce/src/verify-offer.ts:104-118 | reordering, repeating, adding or dropping what is not genuine never changes the verdict |
| OfferVerdicts.AcceptedIff | packages/commerce/src/verify-offer.ts:321-492 | an offer is accepted exactly when the store's last listing is current, not deleted since and on sale, its profile is current, and nothing speaks against the owner, the authorization, the page or the payout |
| OfferVerdicts.AcceptedSellsListing | packages/commerce/src/verify-offer.ts:329-348 | the product of an accepted offer is what the store's last listing under this name reads as; it has not lapsed, is on sale, and every deletion of it is strictly older |
| OfferVerdicts.ProductMissingIff | packages/commerce/src/verify-offer.ts:329-344 | a missing product is answered exactly when nothing current is listed, or it was deleted since |
| OfferVerdicts.ListingIff | packages/commerce/src/verify-offer.ts:329-358 | each answer about the store's own word, exactly when it is given |
| OfferVerdicts.AnchorIff | packages/commerce/src/verify-offer.ts:233-311 | each answer about the owner, the level, the domain and its warning, exactly when it is given |
| OfferVerdicts.StandingIff | packages/commerce/src/verify-offer.ts:376-417 | each answer about the owner's authorization, exactly when it is given |
| OfferVerdicts.AuthStatusIff | packages/commerce/src/events/store-auth.ts:87-122 | taking a store's key away needs only the mode; granting it needs the store named twice over and no lapse |
| OfferVerdicts.RefusalsIff | packages/commerce/src/verify-offer.ts:362-450 | each later refusal exactly when it is given, an earlier one first |
| OfferVerdicts.PayoutWarningsIff | packages/commerce/src/verify-offer.ts:452-476 | each warning about payouts exactly when it is given |
| OfferVerdicts.WarningsAre | packages/commerce/src/verify-offer.ts:362-476 | the warnings of an accepted offer are exactly those of its domain, a first purchase, its page and its payouts |
| OfferVerdicts.LapsedIff | packages/commerce/src/tags.ts:25-38 | a note has lapsed if it names an expiration, unless it names one only, in one to twelve digits, that lies ahead |
| Offers.RevokedIffWithdrawn | packages/commerce/src/verify-offer.ts:376-403 | the revoked answer is given exactly when some revocation or deletion of the authorization is at least as new as every authorization that counts |
| Offers.AcceptedIsAuthorized | packages/commerce/src/verify-offer.ts:376-417 | in an accepted offer every withdrawal is strictly older than an authorization that counts, the newest authorization is active, and one exists unless the domain named the owner |
| Offers.AcceptedPaysOwner | packages/commerce/src/verify-offer.ts:362-492 | an accepted offer pays exactly the addresses of the owner's newest payout list for accepted assets, respects the pin, and in strict mode sits on the store's own domain |
| Offers.AnchorMeans | packages/commerce/src/verify-offer.ts:233-311 | the profile always names the anchored owner, and level A means the domain's own entry names both keys |
| Offers.VerifyOffer | packages/commerce/src/verify-offer.ts:538-600 | the verdict is the one on the store's events and the owners' own, and an accepted offer carries the very profile whose domain was looked up |
| Offers.SameProfile | packages/commerce/src/verify-offer.ts:588-599 | whatever else the owner query returns, the second pass judges the profile the first one picked |
| OfferVerdicts.OwnerWasAsked | packages/commerce/src/verify-offer.ts:566-590 | the owner of an accepted offer is one of those asked for their own word |
| OfferVerdicts.BundleIs | packages/commerce/src/verify-offer.ts:588-599 | what is judged is the store's events and, of the owners' answer, their own payout, authorization and deletion events |
| CodexToml.FindTomlTableRanges | packages/mcp/src/install.ts:644-672 | the nested line loops compute, for every header, the range to the next header or the end |
| CodexToml.RangesCover | packages/mcp/src/install.ts:644-672 | the ranges meet without gap or overlap, from the first header to the end of the text |
| CodexToml.RemoveCodexElisymTables | packages/mcp/src/install.ts:1051-1061 | cutting ranges from the last to the first leaves exactly the lines that are in no elisym table |
| CodexToml.CutKeeps | packages/mcp/src/install.ts:1051-1061 | cutting by offsets and keeping by lines agree on every text |
| TomlLaws.LineStaysIff | packages/mcp/src/install.ts:1051-1061 | line by line, a line stays exactly when the last header up to it did not open an elisym table |
| TomlLaws.HeaderIff | packages/mcp/src/install.ts:674-677 | a line is read as a header exactly when it is white space, a bracketed name, and white space or a comment |
| TomlLaws.OwnTables | packages/mcp/src/install.ts:1063-1065 | elisym's tables are its own and those below it, and no other whose name merely starts the same |
| CodexRoundTrip.RemovalIsCleanAndIdempotent | packages/mcp/src/install.ts:1051-1065 | after removal no elisym table is left, and removing again changes nothing |
| CodexRoundTrip.UninstallUndoesInstallIff | packages/mcp/src/install.ts:1051-1078 | removing after appending the block gives back the text and its separator, exactly when no rendered env line opens a foreign table |
| CodexRoundTrip.PlainKeysUninstall | packages/mcp/src/install.ts:795-815 | for env keys that start with neither white space nor a bracket the round trip always holds |
| CodexRoundTrip.BracketedKeyOpensOther | packages/mcp/src/install.ts:809-811 | a bracketed key with a hash sign is such a line |
| CodexRoundTrip.HeaderReads | packages/mcp/src/install.ts:674-677 | a bracketed name reads back as that table |
| TomlLaws.SeparatorIsLeast | packages/mcp/src/install.ts:1067-1076 | between text and block goes what it takes to end the text with a blank line, and no more |
| TomlLaws.BlockSays | packages/mcp/src/install.ts:795-815 | the lines of the block: command, arguments and variables under their tables |
| Limits.RateLimiter.Check | packages/mcp/src/context.ts:85-98 | admits a call exactly when fewer than the maximum were admitted in the closed window that ends now, and no closed window ever holds more |
| Limits.OneMoreCall | packages/mcp/src/context.ts:85-98 | admitting below the maximum keeps every closed window within it |
| Limits.CallNonces.Issue | packages/mcp/src/context.ts:302-328 | a job has at most one live preview, stale ones make room, and the number pending is bounded |
| Limits.CallNonces.Consume | packages/mcp/src/context.ts:331-341 | a preview is returned at most once and only while fresh |
| Reservations.SpendCounter.Reserve | packages/mcp/src/context.ts:388-429 | takes an amount exactly when it fits under the cap; the counter is always the sum of what is reserved and never above the cap |
| Reservations.SpendCounter.Release | packages/mcp/src/context.ts:435-440 | giving back what was reserved never meets the floor at zero |
| Reservations.DelegationReservations.Begin | packages/cli/src/runtime.ts:2467-2496 | a job is admitted only while all ceilings reserved for its owner fit the remaining cap; a price the ledger cannot hold leaks its ceiling |
| Reservations.DelegationReservations.End | packages/cli/src/runtime.ts:2326-2334 | releasing gives back exactly the job's ceiling |
| Reservations.InFlightIsAtWorkIff | packages/cli/src/runtime.ts:1975-2008 | the figure of an owner is the sum of its jobs at work exactly when every price of that owner that passed the pre-check is one the ledger can hold |

## Left out

- Nostr relays, the Solana RPC, iroh and HTTP transfer, LLM calls, subprocess skills, the clock and randomness: inputs of the steps, constrained only where a lemma names what it trusts of them.
- LedgerRuns.ExactlyOnceSettlement: starts from a ledger with no settlement on two entries and speaks of jobs with a non-empty id; `DoubleSettledLedgerSettlesAgain` and `ReloadKeepsClaimIff` show that neither hypothesis can go.
- LedgerRuns.ConfirmedSettlementIsFinal: a run is one whose claims are made for jobs with no amount recorded (packages/cli/src/runtime.ts:3871 in recovery; the live race records the amount after its claim, :1997) and whose amounts are not zero, which a price above its protocol fee gives; a zero amount reads as none in the source too.
- JobLedgers.JobLedger.constructor: the file is a map of entries, so parsing it, refusing an unreadable one and setting a corrupt one aside are not modelled; an entry object is a value, so a caller holding on to one is not either.
- Nonces.UsedNonceStore.MarkUsed: the store file is a list of marks; refusing or setting aside an unreadable one is not modelled.
- ProofReplay.ProofAcceptedOnce: the nonce store is assumed not to overflow, recording and the expiry gate read the clock in the same second, and a verification ends within the clock skew of its gate; the ledger is its list of proofs in entry order, which decides whose mark a restart makes.
- DelegatedPull.AtMostOnePull: one recovery attempt per job at a time; overlapping recovery ticks, which the source does not exclude, are not modelled. The ledger starts without an entry of the job, the id is not empty, the price is positive, and confirming a sent pull answers an outcome rather than throwing.
- DelegatedPull.ChargedFailsOnlyWithResultLost: trusts `dead` to mean the pull never lands; without that trust only the other delegated lemmas hold.
- PaymentRaces.RaceSettlesOnce: the abort listener and timers are events; clearing a timer is not modelled, since a settled race ignores it.
- ReferenceScan.VerifyByReferenceScan: how often a single verification is retried inside the verifier, and the wording of refusals.
- RecoveryLoops.RecoveryLoop.ConfirmPayment: one look is one step, so another job's claims made while it waits for the chain are not modelled; `VerifyByReferenceScan` takes any owners, so its contract covers them.
- Deferrals.FailedOnlyAfterTwoSightings: fairness of the scan budget between jobs is not claimed.
- Deferrals.DailyLooksBound: in units of the tick, while the verdict's own clock is in milliseconds; a job confirmed, swept or met again after a restart starts its count anew, as in the source.
- The queue, the health monitor, script errors, operator messages, redaction and the customer's feedback texts.
- SessionStores.SessionStore.constructor: every file can be stat'ed at start, or the counter would start low; sidecar pruning and the removal of empty directories delete no transcript and are left out.
- SessionStores.SessionStore.Open: session and customer ids are well formed; `statSync` of the session's own file succeeds. No strict session cap per customer is claimed, as the file appears only with the append.
- SessionStores.SessionStore.TryAcquire: waiting for a held mutex is a retry of this call; the order of waiters is not modelled.
- SessionStores.SessionStore.AppendExchange: recreating a directory removed in between is part of the one write that succeeds or fails; a write that fails half way without a crash is not modelled.
- Transcripts.TornAppendReadsBack: lines are rendered and decoded by functions of which only this is assumed: a line reads back as itself, holds no newline, and no strict prefix of it parses. JSON itself, and a field a reader drops, are not modelled.
- TurnText.TruncateTurn: a character is a Unicode scalar value, so cutting a surrogate pair in two is not modelled; the budget is at least the marker, below which the source's own loop would not end.
- Offers.EvaluateOffer: the parsers of listings, profiles and payout lists, name and origin parsing, address canonicalisation and signature checks are functions that read no signature; ids are assumed to name content.
- Offers.VerifyOffer: relays answer what they like; which relays are asked, and the lookup of a name, are functions.
- The step that compares a payment request's recipient with the offer's addresses.
- CodexToml.FindTomlTableRanges: text without carriage returns and Unicode line separators, which the source's line splitter does not cover; lines are parsed once instead of once per outer line.
- CodexRoundTrip.UninstallUndoesInstallIff: quoting writes no line feed, as JSON quoting does, and env keys hold none; refreshing a block that is already there is not modelled.
- Limits.RateLimiter.Check: the clock does not run backwards.
- Limits.CallNonces.Issue: withdrawal previews keep no job, and so differ only in the first step.
- Reservations.SpendCounter.Reserve: the one-shot spend warnings, and counting a spend without reserving it.
- Reservations.DelegationReservations.Begin: the earlier gates of the pre-check are an input of the delegated protocol, not repeated here.
