# Aqua governance: a verified model

A Dafny model of how the Aquarius governance backend turns Stellar payments, claimable balances and
clock ticks into proposal state, with proofs of what that state can be trusted for. It covers five
pieces of state-keeping code:

1. **Payment promotion.** Any number of workers read a proposal row, resolve the transition it asks
   for, ask Horizon, lock the row, re-check it and apply the transition together with a single-use
   claim on the payment. Staging requests, operator commands, backfills and schedule ticks interleave.
2. **Vote snapshots.** Stored vote rows are brought in step with the claimable balances on chain, which
   a service may replace, which may arrive late, and whose origin may be unknown.
3. **Weekly queue slots.** Calendar arithmetic, slot booking with eviction of stale holders, and the
   migration that creates the first slots.
4. **On-chain execution.** Finalisation, sending, polling, lease expiry, holds and the repair of a late
   vote, over one proposal's execution columns.
5. **Memo framing and the payment scan.** An injective wire format and an exact verdict over a paginated
   operation log.

## How it is built

Values (rows, payments, balances, transitions) are datatypes. Code that changes things in place is a
class or a loop: `PromotionStore.Store` holds the four tables of the promotion transactions with
savepoints, `VoteTable.LogVotes` the vote rows with their unique index, `VoteMatching.Indexer` the
origin cache, `ExecutionJobs.ProposalRow` one execution row. Each such method is proved equal to a
specification function or to an independent property. What the functions mean is then said without
them, on table columns, on Horizon's answer or on a call's own parameters (`PromotionOutcomes`,
`ScheduleLaws`, `Payments.VerdictTaxonomy`, `VoteIndexing.Mirrors`, `ExecutionJobs.Verdict`). The
theorems are about those functions, and about runs: a run is any sequence of labels over `Protocol.World` or `ExecutionRuns.State`, and a
label that is not enabled changes nothing.

Time is an integer count of microseconds since 0001-01-01T00:00:00Z, which is a Monday midnight.
Horizon, the Soroban RPC, SHA-256, account decoding and the supply service are parameters
(`Payments.Environment`, `Memo.Crypto`, `VoteMatching.Provenance`, `ClaimableTrace.Horizon`,
`ExecutionRuns.Chain`); injectivity of SHA-256 is a hypothesis of the few lemmas that need it.

| file | content |
|---|---|
| `Domain`, `Records`, `Ordering`, `Sorting` | vocabulary, tables, primary-key order, stable sorting |
| `Calendar`, `QueueSlots`, `QueueMigration` | weeks, slots, the migration |
| `MemoText`, `Memo`, `KnownSpellings`, `Hashes`, `HashNormalization`, `Payments` | spellings, memo payloads, both against independent references, hash spelling, hash columns, payment verification |
| `Transitions`, `Promotion`, `PromotionOutcomes`, `PromotionStore` | resolved transitions, each transaction as a function, what it does said on the columns, the same transactions as statements |
| `Protocol`, `ProtocolInvariants`, `PromotionTheorems`, `NotFoundClock`, `Sweep`, `Backfill`, `ScheduleLaws`, `ScheduleTicks` | runs, the inductive invariant, the theorems, the not-found clock, the sweep's query, the ledger backfill, every move of the schedule state, ticks and staging writes |
| `VoteRecords`, `VoteMatching`, `VoteReconcile`, `VoteSnapshot`, `VoteRefinement`, `VoteTable`, `VoteCommit`, `VoteIndexing`, `VoteTally` | from listed balances to committed rows and tallies |
| `ClaimableTrace`, `ReplacementTracing` | origins of replaced balances |
| `OnchainExecution`, `ExecutionRuns`, `PollSafety`, `ExecutionJobs`, `RepairLateVote` | execution rows, their runs, overlapping polls, the jobs as statements, the repair command |

## Where a promise needs a condition

- The backfill's own lemma (every consumed hash is reachable through the two stored columns, so one
  backfill burns it again) fails when a promoted row is re-armed to TO_CREATE: the backfill skips such
  rows. `PromotionTheorems.RearmedCreationIsMissed` is the witness, `PromotionTheorems.ReconstructionIff`
  the exact condition, `PromotionTheorems.Reconstruction` the guarantee for runs without that re-arm, and
  `PromotionTheorems.RebuildRefusesUsedPayments` what the rebuilt ledger then still refuses.
- Hash normalisation makes every stored hash canonical (`HashNormalization.ColumnHashBecomesCanonical`),
  but not every cell: the database trims plain spaces only, Python's strip every white space, so text that
  is no hash can stay as it was (`HashNormalization.TabSurvives`). `HashNormalization.CanonicalIff` is the
  exact condition, `HashNormalization.UncanonicalCellIsNoHash` says that no hash fails it. The theorems
  about runs start from columns that hold anything.
- Two pollers at the same time can send one action twice: their writes use stale snapshots without a
  condition. `ExecutionRuns.TwoPollersSendTwice` is the witness. `PollSafety.PollKeepsSafetyIff` says
  exactly which stale write keeps the law, `PollSafety.SafeIffPollsHarmless` that a run is safe exactly when
  all its polls end that way, and `PollSafety.OnePollerIsHarmless` that one poller at a time is enough.
- An operator's un-hide can put two visible active proposals on one asset
  (`PromotionTheorems.UnhideBreaksRun`). `PromotionTheorems.StepKeepsAssetExclusive` says that nothing else can.
- The `AQUA-GOV|v1` prefix does not separate legacy memos from canonical ones, as its author says.
  `Memo.LegacyTextCanSpellAPayload` shows a collision for every purpose, `Memo.LegacyCollidesIff` says when
  there is one, and `PromotionTheorems.MemoDeterminesWrite` what a memo determines with legacy memos
  accepted, which is the shipped default.
- A decided proposal's tally is frozen row by row only where the freeze wrote a weight: a counted row
  without one still follows its current amount, which a later snapshot may move
  (`VoteTally.FixedExactlyWhenFrozen`).
- A terminal rejection takes an update or submit out of the sweep exactly when its stored hash is spelled as
  the rejection marker spells it (`Sweep.RejectionLeavesSweepIff`); staged hashes always are.

## Model

| member | source | states |
|---|---|---|
| Calendar.WeekStartIsFloor | aqua_governance/governance/proposal_queue.py:24-33 | the queue week start is the floor of the instant to whole weeks, a Monday midnight, and contains the instant |
| Calendar.MondayMidnightIsWholeWeek | aqua_governance/governance/proposal_queue.py:36-47 | weekday and clock fields are those of a Monday midnight exactly when the instant is a whole number of weeks |
| Calendar.ExactWeeksOverlapIffSameStart | aqua_governance/governance/proposal_queue.py:50-59 | two exact weekly ranges overlap (by the strict query, and by sharing an instant) exactly when they start together |
| Calendar.WeekAheadWithinHorizonIff | aqua_governance/governance/proposal_queue.py:62-110 | the k-th week from now lies in the booking horizon exactly when k is 1..H, or 0..H when the current week is allowed |
| Calendar.ValidIffWeekAhead | aqua_governance/governance/proposal_queue.py:113-158 | a window validates exactly when it is the k-th week from now for such a k |
| Calendar.SubmitOutcomeByWeek | aqua_governance/governance/proposal_transactions.py:487-530 | of validated windows, a start in the future means k >= 1, a start now or before means k = 0, and an end in the past only the last second of the week |
| QueueSlots.SlotsAreDisjoint | aqua_governance/governance/proposal_queue_slots.py:132-154 | with whole weeks and unique starts at most one slot contains an instant, and the overlap query degenerates to equality |
| QueueSlots.SyncSparesOthers | aqua_governance/governance/proposal_queue_slots.py:40-111 | a sync never moves or removes another proposal's occupying slot; what it removes is stale and on the same start |
| QueueSlots.SyncFailsIff | aqua_governance/governance/proposal_queue_slots.py:40-93 | a booking sync fails exactly when another proposal occupies the same start |
| QueueSlots.FreeWindowBooks | aqua_governance/governance/proposal_transactions.py:543-562 | a whole-week window without a conflict always books, the slot equals the row's window, and the table stays lawful |
| QueueSlots.SyncKeepsLaw | aqua_governance/governance/proposal_queue_slots.py:40-116 | exact weeks and unique starts survive every sync of a row with a whole-week window |
| QueueSlots.EvictionFreesStartIff | aqua_governance/governance/proposal_queue_slots.py:96-111 | evicting stale slots frees a start exactly when no other proposal occupies it, spares every occupied, own and other slot, and is idempotent |
| QueueMigration.WindowIsFlooredWeek | aqua_governance/governance/migrations/0029_proposal_queue_slot.py:33-47 | exact and legacy Monday windows both normalise to the whole week that contains their start |
| QueueMigration.WindowsAreMonotone | aqua_governance/governance/migrations/0029_proposal_queue_slot.py:44-47 | normalisation keeps the order of starts, so windows touch exactly when they are equal |
| QueueMigration.NeighbourDecides | aqua_governance/governance/migrations/0029_proposal_queue_slot.py:105-120 | comparing with the previous candidate decides disjointness from all earlier ones |
| QueueMigration.BackfillProposalQueueSlots | aqua_governance/governance/migrations/0029_proposal_queue_slot.py:50-130 | the loop accepts exactly when every candidate is valid and all normalised windows are pairwise apart, and yields each candidate's window |
| QueueMigration.ValidatedExactly | aqua_governance/governance/migrations/0029_proposal_queue_slot.py:50-80 | a candidate passes exactly with a Monday start, a length of a week or of a second less from midnight, a discussion still before its week, a vote inside it - and then stands for the week that contains its start |
| QueueMigration.MigrationEstablishesLaw | aqua_governance/governance/migrations/0029_proposal_queue_slot.py:122-137 | an accepted migration establishes the slot law that all runs keep |
| QueueMigration.MigratedRowFitsClock | aqua_governance/governance/migrations/0029_proposal_queue_slot.py:132-137 | a migrated row is QUEUED exactly while its week is ahead and VOTING exactly inside it; only window and state change |
| QueueMigration.MigratedRowsOccupy | aqua_governance/governance/migrations/0029_proposal_queue_slot.py:132-137 | a migrated row occupies its slot exactly when it is visible, not a draft, with a settled action and an eligible status |
| MemoText.DecimalInjective | aqua_governance/utils/memo.py:113-132 | an integer has one decimal spelling |
| MemoText.IsoInjective | aqua_governance/utils/memo.py:85-100 | an instant has one UTC spelling to the second, whatever its year, month and day |
| MemoText.JoinInjective | aqua_governance/utils/memo.py:135-186 | framing is injective for elements without the separator |
| Memo.MatchPrefersCanonical | aqua_governance/utils/memo.py:314-324 | canonical is reported exactly on the canonical digest, legacy exactly when only the legacy digest matches |
| Memo.TextIdAcceptedIff | aqua_governance/utils/memo.py:113-132 | a textual id is accepted exactly when it is the decimal spelling of an integer |
| Memo.IdElementNamesOneInteger | aqua_governance/utils/memo.py:113-132 | every accepted id element is the decimal spelling of some integer |
| Memo.PayloadInjective | aqua_governance/utils/memo.py:148-186 | equal payloads name the same purpose, account or proposal, and content |
| Memo.CanonicalMemoCommits | aqua_governance/utils/memo.py:203-311 | one memo cannot match two expectations canonically unless they mean the same |
| Memo.LegacyCollidesIff | aqua_governance/utils/memo.py:260-311 | a legacy digest equals another transition's canonical digest exactly when the legacy text is that transition's payload |
| Memo.LegacyTextCanSpellAPayload | aqua_governance/utils/memo.py:248-257 | for every purpose the free text can be chosen to collide, and such a payment is reported as legacy unless both transitions mean the same |
| KnownSpellings.PayloadGrammar | aqua_governance/utils/memo.py:1-12 | the payload of each purpose, written out as text, and exactly when there is one |
| KnownSpellings.CivilInstantIsSpelled | aqua_governance/utils/memo.py:85-100 | every date and time of the civil calendar, by its closed day-count formula, is spelled at its own instant |
| KnownSpellings.SubmitVector | aqua_governance/governance/tests/test_canonical_memo.py:84 | the documented example is an exact bookable week, and its submit payload is the documented text |
| Hashes.CanonicalHashIsFixed | aqua_governance/utils/payments.py:116-131 | 64 lower-case hex characters are their own canonical spelling |
| Hashes.MarkerOfCanonical | aqua_governance/governance/proposal_transactions.py:106-116 | the rejection marker of a canonical hash is the hash itself |
| HashNormalization.GroupByCanonicalHash | aqua_governance/governance/consumed_transaction_backfill.py:51-63 | groups every non-blank value under its canonical spelling, each row once |
| HashNormalization.LonelyGroups | aqua_governance/governance/consumed_transaction_backfill.py:73-89 | some group has two members exactly when two rows differ only in case or surrounding space |
| HashNormalization.NormalizeHashColumn | aqua_governance/governance/consumed_transaction_backfill.py:92-113 | refuses exactly on such a collision, otherwise rewrites each non-canonical cell and no other |
| HashNormalization.NormalizationKeepsHash | aqua_governance/governance/consumed_transaction_backfill.py:111-113 | a rewritten cell names the same hash |
| HashNormalization.CanonicalIff | aqua_governance/governance/consumed_transaction_backfill.py:111-113 | a cell of any length ends up canonical exactly when it was, or when nothing but plain spaces surrounds it |
| HashNormalization.ColumnHashBecomesCanonical | aqua_governance/governance/models.py:206-219 | in a column of 64 characters every stored hash, however spelled, ends up canonical |
| HashNormalization.UncanonicalCellIsNoHash | aqua_governance/governance/consumed_transaction_backfill.py:92-113 | a cell that stays uncanonical holds no hash |
| HashNormalization.TabSurvives | aqua_governance/governance/consumed_transaction_backfill.py:111-113 | such a cell: a word after a tab is left as it is |
| HashNormalization.NormalizationStaysUnique | aqua_governance/governance/consumed_transaction_backfill.py:92-113 | the rewrite cannot meet the unique index, in any order of the cells |
| Payments.LoadAllRecords | aqua_governance/utils/requests.py:1-18 | paging yields each record after the start cursor once and in order, for every page size |
| Payments.FindMatchingPaymentOperation | aqua_governance/utils/payments.py:186-232 | the paged scan with its two flags and early return computes the specified verdict, faults included |
| Payments.ScanIsExact | aqua_governance/utils/payments.py:186-232 | ok exactly when one operation satisfies asset, destination, amount and payer together; payer mismatch exactly when only payers fail; empty exactly on an empty log |
| Payments.ResolvedHashes | aqua_governance/utils/payments.py:168-183 | the set built step by step is exactly the requested hash and those of own, inner and outer that are 64 hexadecimal characters, in lower case |
| Payments.ValidHashesAreCanonical | aqua_governance/utils/payments.py:116-131 | every resolved hash is canonical, and no valid candidate is lost |
| Payments.FeeBumpNamesTogether | aqua_governance/utils/payments.py:168-183 | a fee-bumped payment resolves to both its names, whichever was asked about |
| Payments.FineIffAuthorized | aqua_governance/utils/payments.py:262-410 | FINE exactly for a settled payment by the bound account of the exact amount whose memo commits to the transition |
| Payments.VerdictTaxonomy | aqua_governance/utils/payments.py:262-410 | every verdict is exact on the answer: HORIZON_ERROR for a failed lookup, a page fault before any paying operation or an empty log; FAILED for an unsuccessful transaction; INVALID for a bad hash, a bad account or a served log without paying operation; BAD_MEMO for a paid one whose memo commits to nothing accepted; not-found exactly when Horizon says so |
| Payments.RefusalReasons | aqua_governance/utils/payments.py:234-260 | which reason is given: malformed hash, wrong payer, and the memo missing, of another type, or not representable |
| Payments.FineIsSound | aqua_governance/utils/payments.py:262-410 | FINE, even with faults in the log, implies authorisation, the payer, the canonical resolved hashes and the memo format |
| Transitions.Resolve | aqua_governance/governance/proposal_transactions.py:213-223 | the resolved transition is of the kind the row's action asks for |
| Transitions.SpellingInjective | aqua_governance/governance/transitions.py:30-46 | equal fingerprint spellings mean equal instants |
| Transitions.MatchesLockedIff | aqua_governance/governance/transitions.py:79-83 | the fingerprint guard holds exactly when the locked row resolves to the same fingerprinted fields |
| Promotion.ClaimCoversPresented | aqua_governance/governance/proposal_transactions.py:162-178 | the claimed set contains the presented hash, only canonical hashes, and all resolved ones |
| Promotion.ApplyAndClaimIsLawful | aqua_governance/governance/proposal_transactions.py:394-411 | an apply either changes nothing, or writes the paid-for row over one that still held that hash and content, uses its staging up, shelves its predecessor whole and burns exactly the resolved hashes |
| Promotion.RejectionIsLawful | aqua_governance/governance/proposal_transactions.py:119-152 | every rejection, reuse and retry path writes no more than a loser may |
| Promotion.CommitIsLawful | aqua_governance/governance/proposal_transactions.py:194-223 | every attempt, of all three kinds, promotes lawfully or writes no more than a loser may |
| Promotion.RejectionsDoNotPromote | aqua_governance/governance/proposal_transactions.py:238-290 | no rejection path applies a promotion |
| Promotion.PromotedSubmit | aqua_governance/governance/proposal_transactions.py:449-592 | a promoting submit had a usable hash and a validated window and went through its savepoint |
| Promotion.SubmitStatusByWeek | aqua_governance/governance/proposal_transactions.py:770-773 | QUEUED exactly for a future week, VOTING exactly for the current one, EXPIRED only in its last second; a booked row's slot is its window |
| Promotion.FreeWeekBooks | aqua_governance/governance/proposal_transactions.py:532-584 | a confirmed submit into a free week fails only on a spent payment or a stored duplicate hash |
| PromotionOutcomes.AnswerDecides | aqua_governance/utils/payments.py:262-410 | confirmed, unanswered and refused partition the answers, each by what Horizon said about payment, payer, amount and memo; a refusal has one status |
| PromotionOutcomes.UpdateAppliesIff | aqua_governance/governance/proposal_transactions.py:377-446 | an update promotes exactly when confirmed, its locked row still holds hash, title and text, the unique columns have room and no name of the payment is spent; only the last is reuse |
| PromotionOutcomes.CreateAppliesIff | aqua_governance/governance/proposal_transactions.py:595-707 | the same for a creation, with no rival queued or voting on its asset |
| PromotionOutcomes.SubmitAppliesIff | aqua_governance/governance/proposal_transactions.py:449-592 | the same for a submit on lawful slots, with a bookable week, no rival and no holder of the week; a spent payment goes to the reuse verdict and nothing else raises but a taken hash |
| PromotionOutcomes.StaleChangesNothing | aqua_governance/governance/proposal_transactions.py:356-374 | a confirmed payment for what the locked row no longer holds, in any column, writes nothing, for all three kinds |
| PromotionOutcomes.OutageDecidesNothing | aqua_governance/governance/proposal_transactions.py:139-152 | when Horizon gives no account of the payment an attempt of any kind leaves every column of every row but verdict and clock, and starts the clock only on not-found |
| PromotionOutcomes.RefusalIsRecorded | aqua_governance/governance/proposal_transactions.py:119-136 | a refusal is recorded once, under its own status, on a row that accepts it: creations are retired, updates and submits stay armed, nothing else moves |
| PromotionOutcomes.ReuseIsRecorded | aqua_governance/governance/proposal_transactions.py:293-354 | a spent payment is recorded the same way as INVALID_PAYMENT |
| PromotionOutcomes.BlockedSubmitWaits | aqua_governance/governance/proposal_transactions.py:753-767 | a confirmed submit that cannot be booked turns FINE, stops its clock and keeps waiting; the outcome names the first obstacle |
| PromotionOutcomes.RivalledCreationWaits | aqua_governance/governance/proposal_transactions.py:647-707 | so does a confirmed asset creation while a rival is queued or voting |
| Protocol.StepFor | aqua_governance/governance/proposal_transactions.py:194-223 | of all labels only a promoting commit yields an apply step |
| ProtocolInvariants.StepIsLawful | aqua_governance/governance/proposal_transactions.py:6-17 | every enabled label performs a lawful database step |
| ProtocolInvariants.StepKeepsRows | aqua_governance/governance/proposal_transactions.py:418-446 | no step deletes a row or rewrites its payer, kind or asset |
| ProtocolInvariants.StepKeepsWorkers | aqua_governance/governance/proposal_transactions.py:213-223 | workers' stale snapshots stay attributable to their rows through every step |
| ProtocolInvariants.StepKeepsLedger | aqua_governance/governance/consumed_transactions.py:38-92 | claims and applied promotions stay in correspondence through every step |
| ProtocolInvariants.StepKeepsRecord | aqua_governance/governance/consumed_transaction_backfill.py:8-13 | presented hashes stay in one of the two stored columns through every step |
| ProtocolInvariants.StepKeepsVersions | aqua_governance/governance/proposal_transactions.py:418-434 | version numbering survives every step |
| ProtocolInvariants.StepKeepsUnique | aqua_governance/governance/models.py:206-219 | the unique hash columns survive every step |
| ProtocolInvariants.StepKeepsSlots | aqua_governance/governance/proposal_queue_slots.py:32-37 | the slot law survives every step |
| ProtocolInvariants.RunKeepsInvariant | aqua_governance/governance/proposal_transactions.py:6-17 | the whole invariant holds after every run |
| PromotionTheorems.SingleUse | aqua_governance/governance/consumed_transactions.py:38-92 | over any run the resolved hash sets of two applied promotions are disjoint, and neither presented hash is in the other's set |
| PromotionTheorems.FeeBumpBuysOnce | aqua_governance/utils/payments.py:168-183 | one fee-bumped payment buys at most one promotion under its two names together |
| PromotionTheorems.ClaimedIffApplied | aqua_governance/governance/proposal_transactions.py:162-178 | a hash carries a non-LEGACY claim exactly when an applied promotion resolved to it |
| PromotionTheorems.LosersCannotDamage | aqua_governance/governance/proposal_transactions.py:119-152 | a write that does not promote leaves history, ledger, slots and every settled row alone, and only touches verdict or retirement columns of a row still awaiting that action |
| PromotionTheorems.PaidForValues | aqua_governance/governance/proposal_transactions.py:393-411 | every applied promotion wrote the transition whose expectation, payer and amount the payment satisfied |
| PromotionTheorems.StagedIsWritten | aqua_governance/governance/proposal_transactions.py:393-411 | over any run each promotion was written at a step whose row still held its hash and its content, and used exactly that staging up: nothing staged meanwhile is consumed unapplied |
| PromotionTheorems.PublishedIsShelved | aqua_governance/governance/proposal_transactions.py:418-434 | over any run whatever an update or a submit replaced stays on a history row whole, visible exactly for an update |
| PromotionTheorems.MemoDeterminesWrite | aqua_governance/governance/transitions.py:114-124 | a digest on chain that commits to some fields determines purpose, target and written content, unless legacy memos are accepted and the promotion's own free text spells that payload |
| PromotionTheorems.AcceptedSpellsPayload | aqua_governance/utils/memo.py:260-324 | a committed digest is accepted for a transition exactly when one of the transition's two preimages is the committed payload |
| PromotionTheorems.LegacyMemoDeterminesText | aqua_governance/utils/memo.py:194-201 | a creation or update accepted by its legacy memo alone wrote the one text with that digest |
| PromotionTheorems.SpentHashesStayStored | aqua_governance/governance/consumed_transaction_backfill.py:8-13 | in every reachable state each promotion's presented hash is in one of the two columns |
| PromotionTheorems.BackfillCoversIff | aqua_governance/governance/consumed_transaction_backfill.py:143-160 | a stored hash is claimed by the backfill exactly unless only rows awaiting creation hold it, in whatever spelling |
| PromotionTheorems.ReconstructionIff | aqua_governance/governance/consumed_transaction_backfill.py:130-185 | one backfill over an emptied ledger re-burns every presented hash exactly when none of them is held by rows awaiting creation alone |
| PromotionTheorems.Reconstruction | aqua_governance/governance/consumed_transaction_backfill.py:8-13 | over runs that never re-arm a promoted row to TO_CREATE the reconstruction is complete |
| PromotionTheorems.RearmedCreationIsMissed | aqua_governance/governance/management/commands/rearm_proposal_payment_check.py:44-69 | a concrete run: create, promote, re-arm to TO_CREATE, and the backfill misses the spent hash |
| PromotionTheorems.ClaimedStaysRefused | aqua_governance/governance/consumed_transactions.py:38-92 | a hash claimed at the start for any purpose, LEGACY included, stays claimed and buys nothing in any run |
| PromotionTheorems.RebuildRefusesUsedPayments | aqua_governance/governance/consumed_transaction_backfill.py:8-13 | after the ledger is lost and rebuilt, a used payment buys nothing in any further run, under its outer or its inner hash |
| PromotionTheorems.VersionsAreConserved | aqua_governance/governance/proposal_transactions.py:418-434 | in every reachable state the visible history rows are numbered 1..version-1 and the hidden ones count the applied submits |
| PromotionTheorems.HiddenRowsCountSubmits | aqua_governance/governance/proposal_transactions.py:710-748 | hidden history rows grow by one with each applied submit and never otherwise |
| PromotionTheorems.SlotsStayDisjoint | aqua_governance/governance/proposal_queue_slots.py:132-154 | in every reachable state each slot is a whole week and at most one contains an instant |
| PromotionTheorems.StepKeepsAssetExclusive | aqua_governance/governance/asset_tokens.py:108-151 | a step keeps one visible active proposal per asset exactly when it is not an un-hide of a conflicting row |
| PromotionTheorems.AssetsStayExclusive | aqua_governance/governance/proposal_transactions.py:532-541 | over runs without such an un-hide at most one visible proposal is queued or voting per asset |
| PromotionTheorems.UnhideBreaksRun | aqua_governance/governance/management/commands/rearm_proposal_payment_check.py:44-69 | a concrete run: from a lawful start one un-hide leaves two visible proposals queued for one asset |
| NotFoundClock.ClockStartsOnce | aqua_governance/governance/proposal_transactions.py:139-152 | a step leaves the not-found clock, stops it, or starts a stopped one on a landed not-found verdict: it never restarts |
| NotFoundClock.NotFoundCommit | aqua_governance/governance/proposal_transactions.py:595-644 | a not-found verdict commits the retryable write for every kind of transition, except a creation whose old status column already said so |
| NotFoundClock.ClockStepExact | aqua_governance/governance/proposal_transactions.py:139-152 | a landed not-found verdict starts a stopped clock at its own time and leaves a running one; anything else leaves or stops it |
| NotFoundClock.ClockHoldsFirstNotFound | aqua_governance/governance/tasks.py:159-178 | in every reachable state a running clock holds the time of the first not-found verdict that landed since it was last stopped |
| Sweep.RearmReturnsToSweep | aqua_governance/governance/management/commands/rearm_proposal_payment_check.py:27-69 | a re-armed row is in the sweep again whatever kept it out, unless it stays hidden |
| Sweep.StagingReturnsToSweep | aqua_governance/governance/serializers_v2.py:673-679 | a staged row is in the sweep, even under a hash rejected before |
| Sweep.RejectionLeavesSweepIff | aqua_governance/governance/tasks.py:159-180 | a rejected creation leaves the sweep; a rejected update or submit leaves it exactly when its stored hash is spelled as the marker |
| Sweep.StagedRejectionLeavesSweep | aqua_governance/governance/tasks.py:159-180 | a rejected canonical hash is not asked about again |
| Sweep.SweepAsksExactly | aqua_governance/governance/tasks.py:159-180 | the query column by column: visible, armed, pending hash not the rejected one, not missing for the whole timeout |
| Sweep.MissingLeavesSweepAtTimeout | aqua_governance/governance/tasks.py:164-178 | a payment reported missing is asked about until the timeout since it was first missing, which later not-found answers do not extend |
| PromotionStore.Store.ClaimTransactionHashes | aqua_governance/governance/consumed_transactions.py:23-92 | burns every canonical spelling or none, and says which |
| PromotionStore.Store.DeleteStaleSlots | aqua_governance/governance/proposal_queue_slots.py:96-111 | the start stays taken exactly by another proposal that occupies it, and the count is that of the slots removed |
| PromotionStore.Store.SyncQueueSlot | aqua_governance/governance/proposal_queue_slots.py:40-93 | eviction, update in place and insert together compute the specified slot table or fail |
| PromotionStore.Store.PersistTerminalVerdict | aqua_governance/governance/proposal_transactions.py:119-136 | the conditional write lands exactly when the row awaits the action and is not already marked |
| PromotionStore.Store.PersistRetryableVerdict | aqua_governance/governance/proposal_transactions.py:139-152 | the retryable verdict and the first not-found time, conditional on the action |
| PromotionStore.Store.MarkSubmitRetryState | aqua_governance/governance/proposal_transactions.py:753-767 | a paid submit that cannot book keeps waiting with a cleared clock |
| PromotionStore.Store.RejectPayment | aqua_governance/governance/proposal_transactions.py:266-290 | retryable or terminal, never a promotion |
| PromotionStore.Store.ApplyInSavepoint | aqua_governance/governance/proposal_transactions.py:394-411 | history, row, slot and claim all land, or every table is as before |
| PromotionStore.Store.CheckUpdate | aqua_governance/governance/proposal_transactions.py:377-446 | equals its specification; a confirmed update whose staged hash, title or text changed reports stale and leaves all tables; it reports updated exactly when it fits and is unspent |
| PromotionStore.Store.SubmitInSavepoint | aqua_governance/governance/proposal_transactions.py:543-584 | the inner savepoint and both recoveries equal their specification |
| PromotionStore.Store.CheckSubmit | aqua_governance/governance/proposal_transactions.py:449-592 | equals its specification; a confirmed submit whose staged hash or window changed reports stale and leaves all tables; on lawful slots it books exactly when held, not blocked, with room for its hashes and unspent |
| PromotionStore.Store.CheckAssetCreate | aqua_governance/governance/proposal_transactions.py:647-707 | equals its specification; whatever the verdict, a row that changed reports stale and leaves all tables |
| PromotionStore.Store.CheckCreate | aqua_governance/governance/proposal_transactions.py:595-644 | equals its specification; a confirmed creation whose row changed reports stale and leaves all tables; it reports created exactly when it fits and is unspent |
| PromotionStore.Store.CheckTransaction | aqua_governance/governance/proposal_transactions.py:194-263 | the dispatched attempt, unusable hashes included, equals the specification the theorems are about; an unanswered payment leaves history, ledger, slots and every column but verdict and clock |
| PromotionStore.Store.RearmPaymentCheck | aqua_governance/governance/management/commands/rearm_proposal_payment_check.py:44-69 | action, verdict, marker and clock are re-armed and a hidden row shown on request; published and staged content and every other row are unchanged; the next sweep asks exactly about an armed, visible row |
| PromotionStore.Store.CollectRowClaims | aqua_governance/governance/consumed_transaction_backfill.py:143-160 | the first loop claims the proposal column in id order, rows awaiting creation skipped, and counts its non-blank cells |
| PromotionStore.Store.CollectHistoryClaims | aqua_governance/governance/consumed_transaction_backfill.py:154-160 | the second loop adds history hashes no proposal holds, and counts on |
| PromotionStore.Store.BackfillConsumedTransactions | aqua_governance/governance/consumed_transaction_backfill.py:130-197 | inserts exactly the missing LEGACY claims unless dry; reports the source cells, the distinct hashes, those added, those present before and the rows in flight |
| Backfill.FirstClaimsExact | aqua_governance/governance/consumed_transaction_backfill.py:152-160 | a hash is claimed exactly when some source holds it, for its first holder |
| Backfill.ClaimsExact | aqua_governance/governance/consumed_transaction_backfill.py:138-160 | what is claimed is exactly the proposal column outside creation and the history column |
| Backfill.SourceCountExact | aqua_governance/governance/consumed_transaction_backfill.py:143-160 | the reported number of source cells is the number of cells that hold a hash |
| Backfill.BackfillIdempotent | aqua_governance/governance/consumed_transaction_backfill.py:130-185 | a second backfill writes nothing and no backfill alters a claim |
| ScheduleTicks.StageUpdate | aqua_governance/governance/serializers_v2.py:657-679 | accepted exactly on a visible discussion with an unused canonical hash; arms the row with the given title, text and hash and leaves every published column |
| ScheduleTicks.StageSubmit | aqua_governance/governance/serializers_v2.py:811-848 | the same for a submit under the lock: accepted exactly for a week ahead with no rival and no holder, and stages exactly the given window |
| ScheduleTicks.FinishDueVotingProposals | aqua_governance/governance/tasks.py:75-86 | afterwards no visible vote is past its end; exactly those that were are VOTED and slotless; every other row and slot, the history and the ledger are unchanged; the tick is a run of the protocol |
| ScheduleTicks.ExpireStaleDiscussions | aqua_governance/governance/tasks.py:89-98 | exactly the visible slotless discussions with nothing staged and no change for the whole period expire, and none is left |
| ScheduleTicks.StartDueScheduledProposals | aqua_governance/governance/tasks.py:31-72 | at most one proposal starts: a queued one inside its own booked week while nobody else is voting; and one does exactly when there is such |
| ScheduleTicks.OnlyOneIsDue | aqua_governance/governance/tasks.py:35-46 | on lawful slots two candidates of one tick are the same proposal |
| ScheduleLaws.StateMovesLawfully | aqua_governance/governance/tasks.py:31-98 | whatever the label, a schedule state stays or moves for its own reason: a paid submit by its window, a start in the booked week, an ended vote that was read, a discussion left alone |
| ScheduleLaws.VotedWasEnded | aqua_governance/governance/tasks.py:75-86 | over any run a proposal that came to be decided was read earlier as a visible vote at or after its end |
| ScheduleLaws.StagedUpdateIsPublished | aqua_governance/governance/serializers_v2.py:657-679 | an update confirmed as it was staged publishes the staged title, text and hash under the next version |
| ScheduleLaws.StagedSubmitIsBooked | aqua_governance/governance/serializers_v2.py:811-848 | a submit confirmed as it was staged, with nothing in the way by then, gets exactly the staged window |
| ScheduleLaws.StagedCreationIsPublished | aqua_governance/governance/proposal_transactions.py:595-644 | a staged creation waits as a draft and, once confirmed, is published unchanged |
| Sorting.SortOrders | aqua_governance/governance/task_logic/vote_indexing.py:222 | sorting orders by the key |
| Sorting.SortKeepsDistinct | aqua_governance/governance/task_logic/vote_indexing.py:222 | sorting keeps distinct elements distinct |
| VoteRecords.MakeTimeListAndOwner | aqua_governance/governance/parser.py:76-88 | the loop computes the unlock texts and the owner |
| VoteRecords.OwnerIsLastBound | aqua_governance/governance/parser.py:76-88 | the last bound claimant owns the balance, the sponsor exactly when there is none |
| VoteMatching.HolderOf | aqua_governance/governance/task_logic/vote_indexing.py:238-242 | the lookup by balance id finds a row that holds it, or none does |
| VoteMatching.Indexer.ResolveOrigin | aqua_governance/governance/task_logic/vote_indexing.py:399-415 | the cached lookup answers what the trace answers and keeps the cache truthful |
| VoteMatching.Indexer.GroupRowsByOrigin | aqua_governance/governance/task_logic/vote_indexing.py:426-435 | rows are grouped exactly by their origin |
| VoteMatching.Indexer.GroupItemsByOrigin | aqua_governance/governance/task_logic/vote_indexing.py:437-446 | replacements are grouped exactly by their origin |
| VoteMatching.Indexer.MatchByOrigin | aqua_governance/governance/task_logic/vote_indexing.py:418-473 | a pair is made exactly when row and replacement are the only ones of one origin; the pairs are injective |
| VoteReconcile.MatchById | aqua_governance/governance/task_logic/vote_indexing.py:293-302 | a pair is made exactly when row and balance share the id; the pairs are injective |
| VoteReconcile.MatchByPosition | aqua_governance/governance/task_logic/vote_indexing.py:326-344 | leftover rows and replacements are paired in rank order, lowest first, until one side is used up |
| VoteReconcile.MatchGroup | aqua_governance/governance/task_logic/vote_indexing.py:276-362 | the three phases, each exact on what the earlier left open, form one injective matching and never leave both sides over |
| VoteReconcile.NeverBothLeft | aqua_governance/governance/task_logic/vote_indexing.py:346-362 | the guard that skips destructive reconciliation is unreachable |
| VoteSnapshot.LoadOriginalMetadata | aqua_governance/governance/task_logic/vote_indexing.py:482-508 | metadata comes from the balance's own creation, or from its origin's for a replacement |
| VoteSnapshot.SelectEligible | aqua_governance/governance/task_logic/vote_indexing.py:243-275 | keeps exactly the on-time items, protects late rows, and records an incomplete id exactly when some origin is unknown |
| VoteSnapshot.EligibleExact | aqua_governance/governance/task_logic/vote_indexing.py:243-270 | an item is eligible exactly when it is listed with an original date by the end |
| VoteSnapshot.ItemsOfExact | aqua_governance/governance/task_logic/vote_indexing.py:222-236 | items are the listed balances, each once, ranked by falling amount |
| VoteSnapshot.RestHasNoHolder | aqua_governance/governance/task_logic/vote_indexing.py:364-390 | an unmatched item is dated on time and held by no visible row of the proposal, so the update branch of that loop is never taken |
| VoteSnapshot.PlaceNewVote | aqua_governance/governance/task_logic/vote_indexing.py:364-392 | a new row exactly when no visible row holds the balance, else that row is updated |
| VoteSnapshot.WriteMatches | aqua_governance/governance/task_logic/vote_indexing.py:279-302 | one update per pair, for the matched ids |
| VoteSnapshot.WriteNewRows | aqua_governance/governance/task_logic/vote_indexing.py:364-392 | one new row per unmatched balance |
| VoteSnapshot.ReconcileVoteGroup | aqua_governance/governance/task_logic/vote_indexing.py:208-396 | a group with an unknown origin is marked incomplete; a resolved one is matched soundly and its writes are exactly those of the matching |
| VoteRefinement.CoveredExactly | aqua_governance/governance/task_logic/vote_indexing.py:243-275 | a group covers exactly its listed balances dated by the end |
| VoteRefinement.ResolvedExactly | aqua_governance/governance/task_logic/vote_indexing.py:254-265 | a group is resolved exactly when each of its balances has a known original date |
| VoteRefinement.GroupWrites | aqua_governance/governance/task_logic/vote_indexing.py:208-396 | a group's writes stand for exactly the covered balances, over distinct on-time rows of its key |
| VoteRefinement.GroupShields | aqua_governance/governance/task_logic/vote_indexing.py:243-270 | a group protects from the stale sweep exactly the rows it updates and the late rows still listed in it |
| VoteRefinement.GroupRanks | aqua_governance/governance/task_logic/vote_indexing.py:222-236 | a group numbers its votes by falling amount |
| VoteRefinement.JoinedWrites | aqua_governance/governance/task_logic/vote_indexing.py:63-87 | the writes of different groups combine without interference |
| VoteTable.LogVotes.MarkStale | aqua_governance/governance/task_logic/vote_indexing.py:94-99 | marks exactly the visible, unprocessed, unclaimed rows |
| VoteTable.LogVotes.BulkCreate | aqua_governance/governance/task_logic/vote_indexing.py:101 | appends the new rows, each insert within the unique index |
| VoteTable.LogVotes.BulkUpdate | aqua_governance/governance/task_logic/vote_indexing.py:102-107 | rewrites the named columns row by row, each write within the unique index |
| VoteCommit.OldRowOutcome | aqua_governance/governance/task_logic/vote_indexing.py:94-107 | an old row either shows a covered balance and is live, or is not live; identity and origin columns never change |
| VoteCommit.CommitIsInStep | aqua_governance/governance/task_logic/vote_indexing.py:94-107 | after a commit each live row shows a covered balance and each covered balance is shown by a live row |
| VoteCommit.CommitKeepsUnique | aqua_governance/governance/models.py:508-509 | row ids and visible balance ids stay unique |
| VoteCommit.CommitKeepsKeyed | aqua_governance/governance/parser.py:59-73 | stored rows stay filed under the key of their balance |
| VoteIndexing.BuildRawVoteGroups | aqua_governance/governance/task_logic/vote_indexing.py:131-156 | each key's group is exactly its admissible listed balances, in listing order |
| VoteIndexing.RoundToSecond | aqua_governance/governance/task_logic/unlock_rules.py:22-26 | the expected unlock second is the nearest one |
| VoteIndexing.UnlockFollowsEnd | aqua_governance/governance/task_logic/unlock_rules.py:22-26 | counted from 1970-01-01T00:00:00Z it is the whole second nearest to one hour after the end |
| VoteIndexing.BallotIsAdmissible | aqua_governance/governance/task_logic/unlock_rules.py:68-90 | a balance is admitted exactly when its asset is supported, some claimant with a destination is locked, and every lock reads within a second of that instant and of its own epoch |
| VoteIndexing.PlanNeverClashes | aqua_governance/governance/models.py:508-509 | the computed inserts and updates never meet the unique index, in any intermediate state |
| VoteIndexing.CountsTruly | aqua_governance/governance/task_logic/vote_indexing.py:243-275 | the date the code decides by, stored or asked for, puts a balance on the true side of the end |
| VoteIndexing.CommitKeepsTrueDates | aqua_governance/governance/task_logic/vote_indexing.py:94-107 | after a commit every visible stored date is on the true side of the end for the balance its row then holds, positional pairs included |
| VoteIndexing.UpdateProposalVotesSnapshot | aqua_governance/governance/task_logic/vote_indexing.py:40-107 | nothing changes unless every ballot of the three issuers can be dated; then the standing votes for, against and abstaining are exactly the ballots cast in time for that issuer, with id and amount, frozen if asked; every other visible row is claimed unless it was cast late and is still a ballot; ranks follow amounts, new rows have their true owner and origin |
| VoteIndexing.DatedIsDatable | aqua_governance/governance/task_logic/vote_indexing.py:482-508 | a ballot is dated by the visible row that holds it, else by its own creation, or by its origin for a replacement |
| VoteIndexing.CommitClaimsExactly | aqua_governance/governance/task_logic/vote_indexing.py:94-99 | an old visible row ends up standing or claimed, unless it was cast late and is still a ballot |
| VoteIndexing.CommitRanks | aqua_governance/governance/task_logic/vote_indexing.py:101-107 | standing votes of one voter and choice are numbered by falling amount |
| VoteTally.TallyIsOnChain | aqua_governance/governance/task_logic/proposal_finalization.py:47-53 | after a snapshot the running tally of a choice is the sum of the ballots cast in time for that choice's issuer |
| VoteTally.TalliesAreOnChain | aqua_governance/governance/task_logic/proposal_finalization.py:17-53 | all three at once: for, against and abstaining, each from its own issuer, abstaining zero without one |
| VoteTally.SameEntriesSameSum | aqua_governance/governance/task_logic/proposal_finalization.py:47-53 | a tally depends only on the set of distinct entries |
| VoteTally.FrozenRowIsFixed | aqua_governance/governance/task_logic/vote_indexing.py:101-107 | no non-freezing commit moves the final contribution of a frozen row, whatever it planned |
| VoteTally.MeltingPlanIsLawful | aqua_governance/governance/task_logic/vote_indexing.py:208-396 | pairing a counted row with a replacement of its balance is a plan the snapshot's laws allow, in any table |
| VoteTally.FixedExactlyWhenFrozen | aqua_governance/governance/task_logic/proposal_finalization.py:35-45 | a row's final contribution survives every lawful non-freezing plan exactly when it is frozen or not counted |
| VoteTally.FrozenForEver | aqua_governance/governance/parser.py:35-38 | the same over any run of such commits |
| VoteTally.FrozenBalanceKeepsItsWeight | aqua_governance/governance/task_logic/vote_indexing.py:615-630 | each ballot the freezing snapshot mirrored weighs its frozen amount in the final tally of its own choice from then on |
| RepairLateVote.Totals | aqua_governance/governance/management/commands/repair_late_vote.py:176-188 | the loop totals the three choices over the countable rows, or refuses on the first that cannot be counted |
| RepairLateVote.ChecksAreExact | aqua_governance/governance/management/commands/repair_late_vote.py:127-174 | the checks pass exactly for a decided, visible, never-sent asset proposal with one visible late vote, whose balance no hidden row holds, and nothing pending on its token |
| RepairLateVote.RecountAgrees | aqua_governance/governance/task_logic/proposal_finalization.py:17-45 | once the target is hidden the final tally of each choice is the recount |
| RepairLateVote.RepairAgreesWithFinalisation | aqua_governance/governance/management/commands/repair_late_vote.py:127-201 | whenever validation passes, totals and decision are those finalisation would compute from the repaired rows |
| RepairLateVote.Handle | aqua_governance/governance/management/commands/repair_late_vote.py:65-125 | refuses before counting exactly when the checks fail, previews without change, or hides exactly the target; the stored totals and decision agree with finalisation |
| RepairLateVote.HideTarget | aqua_governance/governance/management/commands/repair_late_vote.py:166-169 | hiding the target cannot meet the unique index |
| ClaimableTrace.SponsorInClaimantDestinations | aqua_governance/governance/claimable_trace.py:192-201 | true exactly when a non-empty sponsor is among the destinations |
| ClaimableTrace.SingleCreationExact | aqua_governance/governance/claimable_trace.py:162-166 | a creation is accepted exactly when it is the only one |
| ClaimableTrace.PreviousBalance | aqua_governance/governance/claimable_trace.py:169-189 | the previous balance is exactly that of a clawback right before the first operation with the creation's id |
| ClaimableTrace.FindOriginClaimableBalanceId | aqua_governance/governance/claimable_trace.py:11-155 | the bounded loop computes the trace, and nothing for an empty id or a limit below one |
| ClaimableTrace.OriginSurvivesReplacement | aqua_governance/governance/claimable_trace.py:43-155 | undoing one replacement keeps the origin, one lookup closer |
| ClaimableTrace.OriginSurvivesReplacements | aqua_governance/governance/claimable_trace.py:43-155 | the same for any number of replacements |
| ClaimableTrace.DeeperFindsTheSame | aqua_governance/governance/claimable_trace.py:43-155 | a larger depth bound never changes a found origin |
| ClaimableTrace.TraceIsFirstOrigin | aqua_governance/governance/claimable_trace.py:85-92 | the trace returns a balance exactly when it is the first self-sponsored ancestor within the bound |
| ClaimableTrace.CyclesHaveNoOrigin | aqua_governance/governance/claimable_trace.py:150-155 | cyclic data has no origin at any depth |
| ReplacementTracing.ReplacementFindsItsRow | aqua_governance/governance/task_logic/vote_indexing.py:418-473 | a balance replaced any number of times is paired with its row by origin when no other leftover shares that origin |
| ExecutionJobs.ProposalRow.ExecuteOnchainActionIfNeeded | aqua_governance/governance/task_logic/proposal_finalization.py:134-271 | is the machine's decision step; leaves FAILED for a stale supply or a failed token write, SKIPPED for a lost vote, PENDING and enqueued for a mandate, each without leftovers, and a settled row alone |
| ExecutionJobs.ProposalRow.ClaimSend | aqua_governance/governance/tasks.py:279-291 | is the machine's claim step; lands exactly on a decided PENDING row without a transaction, and shuts out further claims, holds and decisions |
| ExecutionJobs.ProposalRow.FinishSend | aqua_governance/governance/tasks.py:295-326 | is the machine's record step; a hash makes the row SUBMITTED and pollable, anything else FAILED without a transaction |
| ExecutionJobs.ProposalRow.HoldIncompleteVoteSnapshot | aqua_governance/governance/tasks.py:215-233 | is the machine's hold step; holds exactly a decided row that is pending, failed or skipped with nothing on record, which then can neither be claimed nor decided again |
| ExecutionJobs.ProposalRow.FindStaleLease | aqua_governance/governance/tasks.py:101-111 | finds a row exactly when the machine's lease read is enabled, and writes nothing |
| ExecutionJobs.ProposalRow.MarkForReview | aqua_governance/governance/tasks.py:115-117 | is the machine's blind lease write |
| ExecutionJobs.ProposalRow.StartPoll | aqua_governance/governance/tasks.py:361-367 | returns what the machine's poll snapshot holds, exactly when a poll is enabled |
| ExecutionJobs.ProposalRow.FinishPoll | aqua_governance/governance/tasks.py:367-458 | is the machine's poll step; a rejected transaction leaves FAILED, a synced success writes over a submitted row only, anything else counts the poll and ends in review at the limit |
| ExecutionJobs.ProposalRow.SendJob | aqua_governance/governance/tasks.py:278-332 | left alone, the job is a run of the machine that records a transaction exactly when it wins the claim and the hook returns one |
| ExecutionJobs.ProposalRow.PollJob | aqua_governance/governance/tasks.py:361-467 | left alone, the job is a run of the machine that polls exactly a submitted row, once |
| ExecutionJobs.ProposalRow.CheckLease | aqua_governance/governance/tasks.py:101-121 | left alone, the two statements put exactly an expired lease under review |
| ExecutionJobs.ProposalRow.RetryJob | aqua_governance/governance/tasks.py:471-489 | left alone, the job is a run that decides a failed or pending row anew, sendable and enqueued given fresh supply, mandate and token; puts an expired lease under review; and leaves every other row, skipped ones included, untouched |
| ExecutionJobs.RefusedDecisionIsRetried | aqua_governance/governance/task_logic/proposal_finalization.py:177-250 | a decision refused for a stale supply or a failed token write leaves a row the retry job selects, and the next one with everything in place leaves a send to be claimed |
| ExecutionJobs.LostVoteIsLeftAlone | aqua_governance/governance/task_logic/proposal_finalization.py:199-223 | after a lost vote no statement of any job moves the row until somebody decides, holds or repairs it |
| ExecutionJobs.FailuresAreRetried | aqua_governance/governance/tasks.py:295-326 | a failed send and a rejected transaction go back to the retry job in the same way |
| OnchainExecution.MandateIsExact | aqua_governance/governance/task_logic/proposal_finalization.py:116-131 | approval and quorum mean: more for than against, and one hundred times all votes at least the quorum percentage of the supply |
| ExecutionRuns.StepKeepsInvariant | aqua_governance/governance/tasks.py:101-121 | every statement of every job keeps the execution invariant while polls do not overlap |
| ExecutionRuns.RunKeepsInvariant | aqua_governance/governance/tasks.py:277-489 | the invariant holds after every run with one poller at a time |
| ExecutionRuns.OneSendInFlight | aqua_governance/governance/tasks.py:278-291 | at most one send is in flight |
| ExecutionRuns.NoSendWhileUnresolved | aqua_governance/governance/tasks.py:278-332 | no send starts while a recorded transaction is unresolved or after one the chain accepts |
| ExecutionRuns.ExecutesAtMostOnce | aqua_governance/governance/tasks.py:278-357 | at most one recorded transaction of a proposal succeeds on chain |
| ExecutionRuns.PollsAreBounded | aqua_governance/governance/tasks.py:376-379 | a submission is polled at most the configured number of times, once if that is not positive |
| ExecutionRuns.SendsAreMandated | aqua_governance/governance/task_logic/proposal_finalization.py:199-226 | every send rests on a last decision with majority and quorum |
| ExecutionRuns.SuccessIsOnChain | aqua_governance/governance/tasks.py:335-357 | a SUCCESS row has a last recorded transaction the chain accepted |
| ExecutionRuns.ReviewIsFinal | aqua_governance/governance/task_logic/proposal_finalization.py:170-175 | with nothing in flight a row under review stays there |
| ExecutionRuns.TwoPollersSendTwice | aqua_governance/governance/tasks.py:361-458 | a concrete run with two overlapping polls has two sends in flight |
| PollSafety.PollKeepsSafetyIff | aqua_governance/governance/tasks.py:360-458 | the stale write of a poll keeps the safety law exactly when it is harmless: a count always, a success unless the row waits for another transaction, a failure with nothing in flight, unresolved or succeeded besides |
| PollSafety.NamedPollIsHarmless | aqua_governance/governance/tasks.py:360-458 | whatever a poll says is harmless while the row still names the polled transaction |
| PollSafety.StepKeepsSafetyIff | aqua_governance/governance/tasks.py:101-121 | no other statement can break the law |
| PollSafety.SafeIffPollsHarmless | aqua_governance/governance/tasks.py:360-458 | a run is safe at every point exactly when every poll in it is harmless where it ends |
| PollSafety.OnePollerIsHarmless | aqua_governance/governance/tasks.py:360-467 | one poller at a time is such a run |
| PollSafety.HarmlessPollsAreSafe | aqua_governance/governance/tasks.py:278-357 | with harmless polls, overlapping or not, sends stay single, none starts over an unresolved or succeeded transaction, and at most one transaction succeeds |

## Left out

- Horizon, Soroban RPC, the supply service and Sentry are oracles: an answer is an arbitrary value per call, except that a poll reports a transaction's final result truthfully.
- SHA-256, account and contract-id derivation, XDR, base64 and date parsing are uninterpreted; the parsed value is the input.
- Stripping and case folding of hashes cover ASCII letters and white space, not Unicode.
- Unlocked staging: an update is staged by one atomic write on the current row, although the serializer saves the instance it loaded earlier.
- The staging pre-checks on hashes already seen and on matching pending creations are not assumed; the theorems hold without them.
- ScheduleTicks.StageUpdate: the view's filter on DISCUSSION rows is modelled as a condition of the write.
- Row deletion, admin edits, edits of `end_at`, permissions, views, filters, the health endpoint and response shapes.
- Small-integer overflow of `version` and column lengths, except for the rejection marker's.
- PromotionStore.Store.SyncQueueSlot: the retry after an integrity error inside one sync is reachable only when another connection commits between its statements; each sync is one atomic step here.
- The session locks that serialise sweeps and transitions are not relied on; the ordering of the sweep and its filters only restrict which workers start.
- `inspect_envelope` is advisory and authorises nothing; `classify_vote_group_update` is only logged; log lines and alerts are not modelled.
- Vote snapshots need `end_at`, so the fallback metadata branch of a proposal without it is not modelled.
- VoteIndexing.UpdateProposalVotesSnapshot: assumes that Horizon lists each balance once, that a balance has one key wherever it is listed, and that the creation dates Horizon gives are on the true side of the end; that stored rows are filed under their balance's key, that visible balances are unique and that stored dates are on the true side of the end is kept as an invariant.
- A vote key is the record of choice, owner, asset code and the multiset of unlock texts; that the concatenated text is unambiguous rests on the alphabets of those parts. The float arithmetic behind the unlock second is exact here.
- The positional phase may pair a row with a replacement of another origin: the stored date then is on the true side of the end but need not be the exact date of the balance now on the row, which is claimed for new rows only.
- VoteTally.TallyIsOnChain: the final tally of a decided proposal also counts rows claimed before the freeze, with their current amount; only the running tally equals the chain's sum.
- NaN and infinite decimals; amounts are reals, so the rounding of stored decimals is not modelled.
- RepairLateVote.Handle: the digest comparison between preview and apply, the JSON report and the token columns are left out; hidden rows of other proposals enter as a set of balances.
- ExecutionRuns.ExecutesAtMostOnce: a hook that raises after its transaction reached the network counts as a failed send; only recorded transactions are counted.
- The asset token's own synchronisation columns and its whitelist flag are not modelled beyond whether updating it succeeded.
- QueueMigration.BackfillProposalQueueSlots: takes the rows of the migration's query as given, in its order, with time-zone-aware windows.
