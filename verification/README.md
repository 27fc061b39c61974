# Verified models of the legal-service backend

This project models four connected parts of the backend in Dafny and proves what they promise each other. It stands
beside the TypeScript modules and the SQL migrations; `dafny verify dfyconfig.toml` checks it.

**Credential tiers** (`CredentialPolicy`, `PolicyColumns`, `TierDecision`, `TierColumns`, `TierPreflight`,
`TierDatabase`, `TierExamples`, `CredentialStore`). The tier decision is written twice, once in TypeScript as a
preflight and once in PL/pgSQL as the authority. `TierDecision` says, without either program's means, when a decision
is justified by a list of recorded checks; both programs are proved to compute it, it is unique, and so the caller's
mismatch error is unreachable. The same relation carries the results about time (what an expiry promises) and about
irrelevant checks. `CredentialStore` holds the provider rows, cases and checks, the finalisation transaction and the
worker that degrades lapsed tiers.

**Allocation, booking, matter and quote** (`SchedulingTables`, `BookingRoutes`, `ConcurrentBooking`, `Rotation`,
`FairRotation`, `ConcurrentRotation`, `ConcurrentScheduling`, `CareAllocation`, `Eligibility`, with
`SchedulingColumns`, `CareColumns` and `LockColumns`). `SchedulingTables` has one function per statement kind, built
from the CHECK, key, exclusion and trigger conditions, and an invariant across tables that every accepted statement
keeps. `BookingRoutes` runs the accept, decline and cancel transactions over those statements. `Rotation` proves what
the ORDER BY of the rotation query guarantees members, whose conditions are evaluated anew at every turn.
`ConcurrentBooking` interleaves the booking routes statement by statement, `ConcurrentRotation` rotations under row
locks and SKIP LOCKED, and `ConcurrentScheduling` both at once on the same seats: in all three a statement computes
its row when it is sent and a commit installs the rows computed by then, so what is proved rests on the locks.
`CareAllocation` is the run from a routed need to a payment quote, and `FairRotation` carries the rotation results
over to its runs.

**Credit ledger** (`DecimalText`, `HashChain`, `CreditLedger`, `LedgerColumns`, `Transactions`, `RetriedAppend`). The
length-prefixed encoding, the chain verifier, the writer as interleaved lock, number and append steps, the
serializable retry loop, and the writer inside that loop.

**Exact pieces** (`Money`, `Directory`, `DirectoryColumns`, `ConcurrentDirectory`, `DirectoryChoice`, `Redaction`,
`RedactionCharacters`, with `Text` and `Sequences` beneath them).

Programs and the statements about them share a vocabulary, such as `TierDecision.Visible` or `BookingRoutes.Released`.
The modules named `…Columns`, and the contracts of the methods, say what each such word comes to on the columns of the
tables or the characters of a text, without using it: when a statement is accepted, which rows it leaves, what waits
for what.

## How the source is read

- Times are integer milliseconds. `now()` is a parameter of every operation.
- SHA-256, UTF-8 and the calendar are functions about which a lemma assumes, where it says so, that UTF-8 is injective
  and that year and remaining text determine a timestamp. How the writer and the verifier spell a year is modelled;
  they differ outside the years 1 to 9999, where an event is appended and then, short of a collision, not accepted. No
  lemma assumes SHA-256 collision-free: `HashChain.TamperEvidence` ends in "or the two chains contain a collision".
- The hash covers id, provider, event type, credits and time of an event. Units, weight version, evidence reference
  and matter are in the row but not in the hash, and no lemma claims otherwise.
- Fairness of rotation holds between members that pass the query's conditions together, and only between those
  (`Rotation.PoolKeepsEvenIff`, `Rotation.LoadsDriftApart`): the conditions depend on the need's route, the provider's
  status and tier, and the instant. A provider skipped because it is locked is not in that turn's pool.
- A degraded tier is DOCUMENT_VERIFIED whatever a recomputation would say (`TierExamples.DegradedTierIsRecomputedIff`
  says exactly when they agree), and a COMPLETED allocation still occupies its seat. Both are modelled as the code has
  them.
- The expiry of a tier is sound but not always maximal: with alternative sources the newest evidence is selected, not
  the longest-lived. `TierDecision.ExpiryIsExactIff` says exactly when it is the end of validity.
- `POST /v1/bookings` and `POST /v1/matters/:id/close` answer 503 for every request. Booking, closing a matter,
  completing an allocation and editing a membership are therefore steps of the table owner in `CareAllocation`,
  guarded by the triggers.
- `trim()` and `btrim` differ: the first strips all JavaScript whitespace, the second spaces only. The exact
  consequence is `CredentialPolicy.ValidatorsAgree`.
- A transaction that can still fail after its first write works on a local copy and assigns the fields at COMMIT;
  leaving earlier is ROLLBACK.

## Model

| member | source | states |
|---|---|---|
| CredentialPolicy.ValidatorsAgree | db/migrations/004_credential_revalidation.sql:334-444 | the application accepts a policy exactly when the database accepts it and no identifier is blank under JavaScript trimming |
| CredentialPolicy.TabIsBlankOnlyToTheApplication | src/modules/credential/application/credential-policy.ts:81-84 | the two validators really differ: every policy the database accepts it still accepts with a single tab as provider type, and the application refuses that |
| TierExamples.ATabSeparatesTheValidators | db/migrations/004_credential_revalidation.sql:334-444 | a concrete policy that both validators accept, and that only the database accepts once its provider type is a tab |
| CredentialPolicy.AcceptedMeans | src/modules/credential/application/credential-policy.ts:81-156 | the ordered throws of the validator amount to one conjunction of requirements: unique non-blank identifiers, declared sources, contributing kinds, authority kinds, identity reuse, separation |
| CredentialPolicy.SourceMapMeans | src/modules/credential/application/credential-policy.ts:110-110 | looking a source up in the Map finds the kind of a declared source and nothing else |
| CredentialPolicy.AcceptedIsCoherent | db/migrations/004_credential_revalidation.sql:369-444 | an accepted policy declares every source its legs name, once, with a contributing kind, and an AUTHORITY kind for authority legs |
| PolicyColumns.ApplicationAcceptsIff | src/modules/credential/application/credential-policy.ts:81-156 | the application accepts exactly the well-formed policies, stated in the fields of sources and legs: non-empty lists without blanks or repetitions, declared sources of a contributing kind, AUTHORITY for authority legs, the identity leg repeated, the check types of the two lists apart, a window of 1 to 3162240000000 ms |
| PolicyColumns.DatabaseAcceptsIff | db/migrations/004_credential_revalidation.sql:334-444 | the database accepts exactly the same, calling only spaces blank |
| RedactionCharacters.WordClass | src/modules/intake/domain/redact.ts:3-3 | what counts as a word character is the ASCII letters, digits and underscore, one by one |
| Text.WhitespaceByCodePoint | src/modules/credential/application/credential-policy.ts:81-84 | what trim() and the patterns take for white space, as a list of code points |
| TierPreflight.KeyIsInjective | src/modules/credential/application/recompute-provider-tier.ts:31-31 | two checks share a Map key only if they share both leg and source, because a check type holds no U+0000 |
| TierPreflight.LatestChecksByLegAndSource | src/modules/credential/application/recompute-provider-tier.ts:26-42 | the loop and the sort return, in recording order, exactly the last check of each leg and source |
| TierPreflight.FlagsMean | src/modules/credential/application/recompute-provider-tier.ts:91-115 | each flag of a derived check holds exactly when some leg of that use covers the check, and a covered check is neither format-only nor advisory |
| TierPreflight.TierFollowsEvidence | src/modules/credential/domain/tier.ts:31-71 | the four outcomes are told apart exactly by which requirements have evidence at that instant |
| TierPreflight.RelevantSourcesByLeg | src/modules/credential/application/recompute-provider-tier.ts:66-75 | the loop maps each check type to the union of the sources its legs allow |
| TierPreflight.ExpiryOf | src/modules/credential/application/recompute-provider-tier.ts:173-184 | the two loops and the minimum yield the least of the decision window and every instant at which selected evidence lapses |
| TierPreflight.TierExpiry | src/modules/credential/application/recompute-provider-tier.ts:125-186 | with the tier granted no evidence is missing and the expiry is the least bound, in the future: both internal throws are unreachable |
| TierPreflight.DecideTierFromRecordedChecks | src/modules/credential/application/recompute-provider-tier.ts:44-187 | it fails only on a policy it must refuse or one for another provider type; otherwise it returns the decision the checks justify |
| TierDatabase.DistinctOnSorted | db/migrations/004_credential_revalidation.sql:447-454 | DISTINCT ON over a strictly sorted list keeps, of each key, the row that sorts first, and every key |
| TierDatabase.LatestRowsMean | db/migrations/004_credential_revalidation.sql:476-486 | joining declared sources and DISTINCT ON leaves exactly the latest visible check of each leg and declared source, with its kind |
| TierDatabase.FirstNewestIsNewest | db/migrations/004_credential_revalidation.sql:502-503 | ORDER BY checked_at DESC, recorded_sequence DESC LIMIT 1 returns a row that no other candidate is newer than |
| TierDatabase.FinalExpiryIsLeast | db/migrations/004_credential_revalidation.sql:506-605 | null-ignoring min and LEAST over the selected rows give the least instant at which any selected evidence lapses |
| TierDatabase.DatabaseDecisionIsJustified | db/migrations/004_credential_revalidation.sql:446-606 | the queries compute exactly the decision the checks justify, tier, reason and expiry |
| TierDecision.JustifiedIsUnique | src/modules/credential/application/recompute-provider-tier.ts:254-263 | at most one decision is justified, so the preflight and the database cannot differ: the mismatch throw is unreachable |
| TierDecision.FullyVerifiedIsComplete | src/modules/credential/application/recompute-provider-tier.ts:125-183 | the full tier implies that no latest check of an allowed leg and source is in conflict, that every document leg, identity and authority leg has selected evidence, and that the tier lapses no later than any of it |
| TierDecision.FullyVerifiedIsBacked | src/modules/credential/application/recompute-provider-tier.ts:149-166 | the full tier implies, for every authority leg, a fresh unexpired LIVE PASS from an allowed AUTHORITY source, and lapses no later than it does |
| TierColumns.ConflictOverrules | src/modules/credential/application/recompute-provider-tier.ts:62-89 | on the raw rows: a last LIVE row of an allowed type and source that is MISMATCH or CONFLICT forces SELF_DECLARED for that reason, and the reason is given only if there is one |
| TierColumns.ProvenIsMet | src/modules/credential/application/recompute-provider-tier.ts:142-166 | on the raw rows: a last LIVE PASS that has not run out, from an allowed source, and within the freshness window where authority is asked, meets its requirement, and nothing else does |
| TierColumns.TierFromRows | db/migrations/004_credential_revalidation.sql:536-605 | tier and reason as an equivalence on the raw rows: what is lacking is named in order, and a tier is granted exactly when nothing is |
| TierColumns.ExpiryFromRows | src/modules/credential/application/recompute-provider-tier.ts:173-186 | the expiry as a minimum over raw rows: one window after the decision, and where the newest proof of each leg runs out |
| TierDecision.ExpiryIsInTheFuture | src/modules/credential/application/recompute-provider-tier.ts:184-186 | a granted tier expires strictly later and within one freshness window |
| TierDecision.NonInterference | src/modules/credential/application/recompute-provider-tier.ts:62-89 | removing a check that is not LIVE, future-dated, superseded or from a source not allowed for its leg never changes the decision |
| TierDecision.OrderDoesNotMatter | src/modules/credential/application/recompute-provider-tier.ts:26-42 | permuting the list of checks never changes the decision |
| TierDecision.OnlyRelevantChecksMatter | src/modules/credential/application/recompute-provider-tier.ts:62-114 | two histories with the same latest visible checks of allowed legs and sources get the same decision |
| TierDecision.StableUntilExpiry | src/modules/credential/application/recompute-provider-tier.ts:125-186 | re-deciding on the same checks at any instant before the expiry grants the tier on the same selected evidence with exactly the same expiry |
| TierDecision.GrantedWhileEvidenceLasts | src/modules/credential/application/recompute-provider-tier.ts:142-166 | a later decision on the same checks still grants the tier exactly while no requirement has run out of evidence |
| TierDecision.ExpiryIsExactIff | src/modules/credential/application/recompute-provider-tier.ts:173-186 | the expiry is the exact end of validity if and only if some requirement has no candidate outliving it |
| TierDecision.TightWithSingleSources | src/modules/credential/application/recompute-provider-tier.ts:173-186 | when every leg allows one source the tier is granted before the expiry and never from the expiry on |
| TierExamples.ExpiryCanComeEarly | src/modules/credential/application/recompute-provider-tier.ts:134-141 | the expiry is not always the end of validity: with two sources for a leg, a concrete history whose newest evidence lapses first would be granted again at its expiry |
| TierExamples.DegradedTierCanExceedRecomputation | db/migrations/004_credential_revalidation.sql:693-696 | a concrete single-sourced history meets the hypotheses of the exactness results, and at its expiry a fresh decision is SELF_DECLARED while the degraded row is DOCUMENT_VERIFIED |
| TierExamples.DegradedTierIsRecomputedIff | db/migrations/004_credential_revalidation.sql:693-696 | for every coherent policy, a later decision on the same checks is the degraded tier exactly when no document or identity requirement has run out of the evidence it had at the grant and some authority leg has |
| TierDecision.LapsesAreBounds | src/modules/credential/application/recompute-provider-tier.ts:173-183 | the bounds of a decision are its freshness window and the instants its selected evidence lapses, nothing else |
| TierDatabase.DecisionIsStableUntilExpiry | db/migrations/004_credential_revalidation.sql:446-606 | the same stability for the database decision: re-deciding before the expiry repeats it to the millisecond |
| TierDatabase.DecisionLapsesAtExpiry | db/migrations/004_credential_revalidation.sql:600-605 | with one source per leg the database grants the tier exactly until the expiry |
| TierDatabase.DecisionIgnoresNegligible | db/migrations/004_credential_revalidation.sql:446-454 | removing a negligible check leaves the database decision as it was |
| CredentialStore.RecordKeepsValid | db/migrations/004_credential_revalidation.sql:608-623 | the two UPDATEs write rows every CHECK constraint admits and keep the invariant of cases, provider rows and tier events |
| CredentialStore.DecidesAndRecords | db/migrations/004_credential_revalidation.sql:178-228 | the function decides exactly when request id, time within 300000 ms, grant, case and policy allow it, and records the decision of its queries in the case, the three provider columns and one event |
| CredentialStore.StaleRowsMean | db/migrations/004_credential_revalidation.sql:684-691 | column by column: the rows a batch may take are the FULLY_VERIFIED ones whose expiry is not later than now, locked ones aside |
| CredentialStore.BatchTakesRows | db/migrations/004_credential_revalidation.sql:684-711 | a batch takes lapsed rows only, none while an earlier lapsed one is left, and stops short of its size only when none is left |
| CredentialStore.BatchesSpareTheRest | db/migrations/004_credential_revalidation.sql:684-711 | over any batches a row that has not lapsed by the last of them keeps all its columns |
| CredentialStore.ReadViewMeans | src/interfaces/http/routes/identity-provider.ts:496-507 | the expiry-aware read shows DOCUMENT_VERIFIED for a lapsed full tier and the stored row for every other, an unexpired full tier included |
| CredentialStore.FinalizationSucceeds | db/migrations/004_credential_revalidation.sql:446-623 | once the application guards have passed the database can only object to the request id, the time window or the grant, and otherwise records the justified decision |
| CredentialStore.DegradeAllMeans | db/migrations/004_credential_revalidation.sql:693-711 | a batch sets each of its rows to DOCUMENT_VERIFIED without expiry, touches no other row, and writes one event per row |
| CredentialStore.DegradingIsInvisible | src/interfaces/http/routes/identity-provider.ts:496-507 | degrading a lapsed row is invisible to every expiry-aware read from then on |
| CredentialStore.ReplayTraces | db/migrations/004_credential_revalidation.sql:608-623 | what the log replays to is the initial tier, the last decision, or DOCUMENT_VERIFIED by one degradation after that decision expired |
| CredentialStore.EveryTierIsAccountedFor | db/migrations/004_credential_revalidation.sql:608-715 | in every run a tier is the initial one, the outcome of the most recently finalised case, or DOCUMENT_VERIFIED since that case expired |
| CredentialStore.RunKeepsValid | db/migrations/004_credential_revalidation.sql:6-86 | every run of registrations, reviews, checks, finalisations, batches and policy activations keeps the constraints, one active review per provider, and a log that replays to the rows |
| CredentialStore.Store.FinalizeCase | db/migrations/004_credential_revalidation.sql:178-228 | the database function either raises the first failing check, a blank request id first, and changes nothing, or records the decision its own queries reach |
| CredentialStore.Store.FinalizeCredentialDecision | src/modules/credential/application/recompute-provider-tier.ts:189-285 | it succeeds exactly when the stated guards hold, request id, window and grant included, records a justified decision, and never reaches a preflight error or the mismatch throw |
| CredentialStore.Store.DegradeExpiredProviderTiers | db/migrations/004_credential_revalidation.sql:650-717 | it refuses a blank request id, a batch size outside 1 to 1000 or a missing grant, in that order; otherwise the loop degrades exactly the first stale unlocked rows in order of expiry, up to the batch size |
| CredentialStore.BatchesDegradeOnce | db/migrations/004_credential_revalidation.sql:680-715 | over any number of batches, each at its own time and beside its own locked rows, no row is degraded twice and rows outside the batches are untouched |
| CredentialStore.RowOfBatch | db/migrations/004_credential_revalidation.sql:680-696 | a row of batch k was stale at that batch's time in the state before all batches, and ends as degraded then |
| CredentialStore.BatchesAreInvisible | src/interfaces/http/routes/identity-provider.ts:496-507 | an expiry-aware read of a degraded row, at any time from its own batch on, sees what it would have seen without any batch |
| CredentialStore.DrainingIsInvisible | src/interfaces/http/routes/identity-provider.ts:496-507 | with a clock that does not run backwards, no expiry-aware read after the last batch, of any row, can tell that batches happened |
| CredentialStore.Store.DrainStaleTiers | db/migrations/004_credential_revalidation.sql:661-715 | successive calls, each at its own transaction time, end within one call more than there are FULLY_VERIFIED rows, degrade each row at most once, and leave no unlocked full tier whose expiry is not later than the last call's time |
| SchedulingTables.StatementKeeps | db/migrations/005_scheduling_integrity.sql:112-361 | every statement the constraints and triggers let through keeps the cross-table invariant |
| SchedulingTables.StoredAllocation | db/migrations/005_scheduling_integrity.sql:312-357 | what protect_active_scheduling_allocation and the identity keys demand of an allocation update is enough for bookings and matters |
| SchedulingTables.StoredBooking | db/migrations/005_scheduling_integrity.sql:171-234 | what the booking trigger, the exclusion constraint and the unique key demand is enough for matters, allocations and slots |
| SchedulingTables.StoredMatter | db/migrations/005_scheduling_integrity.sql:244-302 | what the matter trigger demands is enough for bookings that rely on a closed matter |
| SchedulingTables.RunKeeps | db/migrations/005_scheduling_integrity.sql:171-361 | any run of statements, refused ones included, keeps the invariant |
| SchedulingTables.EveryBookingIsConsistent | db/migrations/005_scheduling_integrity.sql:171-234 | in every reachable state: a booking names its allocation's need and provider and the need's citizen; HELD implies ASSIGNED; accepted implies ASSIGNED, or COMPLETED with a CLOSED matter; no two active bookings of a provider overlap and no two bookings share an allocation |
| SchedulingTables.EveryMatterIsConsistent | db/migrations/005_scheduling_integrity.sql:244-302 | in every reachable state: a matter has an accepted booking of the same parties, an OPEN one an ASSIGNED allocation, and no two matters share an allocation |
| SchedulingTables.PartiesAgree | db/migrations/005_scheduling_integrity.sql:144-169 | a matter, its allocation and its need agree on provider and citizen, and the allocation is ASSIGNED or COMPLETED |
| SchedulingColumns.BookingInsertedIff | db/migrations/005_scheduling_integrity.sql:171-234 | exactly which booking rows are accepted: HELD, for need, provider and citizen of an ASSIGNED allocation without a booking, in a slot free of other bookings in force |
| SchedulingColumns.BookingUpdatedIff | db/migrations/005_scheduling_integrity.sql:171-234 | exactly which updates of a booking are accepted: from HELD to CONFIRMED, DECLINED or CANCELLED, forward in time, no other column changed, no overlap when confirmed |
| SchedulingColumns.MatterInsertedIff | db/migrations/005_scheduling_integrity.sql:244-302 | exactly which matters are accepted: OPEN without a close, for an accepted booking of the same parties on an ASSIGNED allocation without a matter |
| SchedulingColumns.MatterUpdatedIff | db/migrations/005_scheduling_integrity.sql:244-302 | exactly which updates of a matter are accepted: only the close columns, consistently, and no reopening |
| SchedulingColumns.AllocationInsertedIff | db/migrations/001_foundation.sql:129-141 | exactly which allocations are accepted: columns that fit the mode, known need and provider, and no other ASSIGNED one of the need |
| SchedulingColumns.AllocationUpdatedIff | db/migrations/005_scheduling_integrity.sql:312-357 | exactly which updates of an allocation are accepted: an assigned one is left only without bookings in force and open matters, or to COMPLETED behind a closed matter |
| SchedulingColumns.BookingRefusedAs | db/migrations/005_scheduling_integrity.sql:171-234 | which error a refused booking raises: a check, a unique key, the exclusion constraint or a foreign key, in this order |
| SchedulingColumns.MatterRefusedAs | db/migrations/005_scheduling_integrity.sql:244-302 | a matter is one too many exactly if nothing else is wrong with it, and lacks a booking exactly if its parties have none |
| BookingRoutes.TransitionSucceeds | src/modules/scheduling/application/locked-booking.ts:57-74 | a HELD booking can always make an allowed transition: trigger, shape and exclusion constraint are satisfied and one row is hit |
| BookingRoutes.HeldHasNoMatter | src/interfaces/http/routes/scheduling-matter.ts:109-124 | the allocation of a HELD booking never has a matter, so the duplicate-matter answer is unreachable |
| BookingRoutes.TransitionIff | src/modules/scheduling/application/locked-booking.ts:57-74 | a booking moves on only from HELD and only as it was read; otherwise the update hits no row |
| BookingRoutes.GuardsPassIff | src/interfaces/http/routes/scheduling-matter.ts:74-78 | the guards of accept, decline and cancel pass exactly on an owner's HELD booking of an ASSIGNED allocation, and, for operators, with delegated authority |
| BookingRoutes.AcceptLeavesRows | src/interfaces/http/routes/scheduling-matter.ts:99-147 | row by row: accept confirms the booking at that time, opens one matter of its parties, and leaves every other row |
| BookingRoutes.ReleaseLeavesRows | src/interfaces/http/routes/scheduling-matter.ts:158-191 | row by row: decline leaves a DECLINED allocation with its reason, cancel a CANCELLED one, both ended at that time, one seat less, and every other row |
| BookingRoutes.AcceptSucceeds | src/interfaces/http/routes/scheduling-matter.ts:99-147 | once the guards pass, both statements of accept succeed and the state stays consistent |
| BookingRoutes.ReleaseSucceeds | src/interfaces/http/routes/scheduling-matter.ts:158-179 | once the guards pass, booking, allocation and seat updates of decline or cancel each hit one row and the state stays consistent |
| BookingRoutes.ReleasingFirstIsRefused | db/migrations/005_scheduling_integrity.sql:334-342 | the order of the updates matters: releasing the allocation while its booking is HELD is refused by the trigger |
| BookingRoutes.ReleasingKeepsConserved | src/interfaces/http/routes/scheduling-matter.ts:173-179 | ending an assigned allocation and decrementing its seat keeps every counter equal to the allocations that occupy the seat |
| BookingRoutes.Database.Accept | src/interfaces/http/routes/scheduling-matter.ts:99-147 | the refusal is the first failing guard and changes nothing; without one the booking is CONFIRMED and an OPEN matter of the same parties exists |
| BookingRoutes.Database.Release | src/interfaces/http/routes/scheduling-matter.ts:158-191 | the statements shared by decline and cancel, in order, with the exact new state |
| BookingRoutes.Database.Decline | src/interfaces/http/routes/scheduling-matter.ts:149-212 | the refusal is the first failing guard; otherwise the booking is DECLINED, the allocation DECLINED with its end and reason, the seat has one matter less and a rotation decline is signalled, all other rows as before |
| BookingRoutes.Database.Cancel | src/interfaces/http/routes/scheduling-matter.ts:214-278 | the refusal is the first failing guard, confirmed bookings included; otherwise booking and allocation are CANCELLED, the allocation with its end and its reason as before, the seat has one matter less, all other rows as before |
| ConcurrentBooking.NoStatementFails | src/modules/scheduling/application/locked-booking.ts:22-74 | whatever other transactions commit between the guards and a statement, the next statement of accept, decline or cancel hits its one row and is accepted, and the row it writes is the one it would write at any time until its commit |
| ConcurrentBooking.UnlockedSeatLosesAnUpdate | src/interfaces/http/routes/scheduling-matter.ts:173-179 | the seat's row lock is needed: an edit of the seat committed between the decrement and the commit would be lost, whichever order of the two one has in mind |
| ConcurrentBooking.EveryFlightLands | src/interfaces/http/routes/scheduling-matter.ts:99-278 | in every state reachable by interleaving single statements, each transaction past its guards waits for a seat or has its next statement accepted, and installing the rows it has written is the one step its route stands for |
| ConcurrentBooking.InterleavingsAreSerial | src/interfaces/http/routes/scheduling-matter.ts:99-278 | serializability: every statement computes its row when it is sent and a commit installs the rows computed by then; under the row locks that leaves what the whole transactions leave, one after the other in the order of their commits |
| LockColumns.RouteStartsIff | src/modules/scheduling/application/locked-booking.ts:22-55 | a route gets under way exactly if its guards pass and nobody else has locked the booking, and then has read the joined row and written nothing |
| LockColumns.StatementSentIff | src/modules/scheduling/application/locked-booking.ts:57-74 | in every consistent state a statement that is due waits exactly for a seat another transaction has written, and otherwise goes through |
| LockColumns.OwnRowsAreSeen | src/interfaces/http/routes/scheduling-matter.ts:99-191 | with the rows a transaction has written installed, the store is what its last statement left, signals included |
| LockColumns.OthersWaitIff | src/interfaces/http/routes/scheduling-matter.ts:99-278 | every other step waits exactly for a locked booking or allocation, a written seat or a pending key, and otherwise takes effect at once |
| Rotation.SelectNext | src/interfaces/http/routes/intake-allocation.ts:506-507 | ORDER BY active_matters, last_assigned_at NULLS FIRST LIMIT 1 returns an available, unblocked member below capacity that no other sorts before, and none exactly when the pool has no such member |
| Rotation.NextIsOfferedFirst | src/interfaces/http/routes/intake-allocation.ts:493-507 | on the membership columns: the member chosen is AVAILABLE, not conflict-blocked and below capacity, fewest matters and longest idle first; nobody is chosen exactly when no member of the pool is so |
| Rotation.LoadsStayEven | src/interfaces/http/routes/intake-allocation.ts:486-534 | over any run of turns without releases or membership edits, whatever pool each turn's conditions leave, two members that are in the same pools stay within one matter of each other while both can be assigned |
| Rotation.PoolKeepsEvenIff | src/interfaces/http/routes/intake-allocation.ts:486-507 | that condition is exact turn by turn: a pool keeps two members even from every state if and only if it holds both or neither |
| Rotation.LoadsDriftApart | src/interfaces/http/routes/intake-allocation.ts:486-507 | without it there is no bound: n turns for which only one member passes the conditions raise its load by n and leave every other seat as it was |
| Rotation.WaitingStaysAhead | src/interfaces/http/routes/intake-allocation.ts:506-507 | a member ahead of another stays ahead until served, whatever the pools: nobody is overtaken while waiting |
| Rotation.EveryoneIsServedBetween | src/interfaces/http/routes/intake-allocation.ts:486-534 | between two turns of one member every member with room that is in the pool of both turns, and was even with it and assigned earlier, is served, whatever the pools in between |
| Rotation.TurnsAreFarApart | src/interfaces/http/routes/intake-allocation.ts:486-534 | so a member returns only after at least as many turns as there are members in the pools of both its turns |
| Rotation.AnyWindowIsDistinct | src/interfaces/http/routes/intake-allocation.ts:486-534 | with increasing times and n members that have room and are in every pool, no one of them gets two of any n consecutive turns |
| FairRotation.TurnsRotate | src/interfaces/http/routes/intake-allocation.ts:458-534 | in any run of the allocation state machine that neither edits nor releases the seats of some members, their turns are a run of the rotation order and leave their seats as it does, whatever happens to everybody else |
| FairRotation.RunsKeepLoadsEven | src/interfaces/http/routes/intake-allocation.ts:458-534 | over such a run of intake, selection, rotation, booking and the rest, two members that pass the conditions together stay within one matter of each other |
| FairRotation.RunsServeEveryone | src/interfaces/http/routes/intake-allocation.ts:458-534 | over such a run, between two turns of one member another with room that passes the conditions at both is served |
| FairRotation.RunsTakeTurns | src/interfaces/http/routes/intake-allocation.ts:458-534 | over such a run from a fresh roster on, with room and increasing times, any n consecutive turns of n members that pass the conditions throughout go to n different members |
| ConcurrentRotation.LockedRowsStay | src/interfaces/http/routes/intake-allocation.ts:507-507 | a step that does not wait for a lock leaves every claimed need and seat as the claim found it |
| ConcurrentRotation.InstallingIsTheStep | src/interfaces/http/routes/intake-allocation.ts:514-534 | the allocation and seat rows that a claim wrote, installed at its commit, are the rotation it stands for on what is committed by then |
| ConcurrentRotation.CommitKeeps | src/interfaces/http/routes/intake-allocation.ts:523-534 | installing a claim's rows keeps the invariant of claims, their uncommitted rows, capacity and allocations |
| ConcurrentRotation.EveryInterleavingIsSafe | src/interfaces/http/routes/intake-allocation.ts:458-534 | over every interleaving of begin, lock, write, commit, abort and other transactions, claims hold different needs and providers, no seat is over capacity or miscounted, and no need has two ASSIGNED allocations |
| ConcurrentRotation.CommitSucceedsUnlessTaken | db/migrations/002_integrity_hardening.sql:53-55 | a claim that holds its provider writes and commits exactly unless its need already has an ASSIGNED allocation, and then nothing is written |
| LockColumns.MemberLockedIff | src/interfaces/http/routes/intake-allocation.ts:486-507 | a rotation locks a member exactly if available, unblocked, below capacity and of a provider no other rotation has locked |
| LockColumns.RotationWritesIff | src/interfaces/http/routes/intake-allocation.ts:509-534 | its statements write the new allocation and the seat with one matter more, or fail exactly if the key is in use or the need already assigned |
| LockColumns.OthersWaitForRotationIff | src/interfaces/http/routes/intake-allocation.ts:458-534 | every other step waits exactly for a claimed need, provider or seat or a pending key |
| ConcurrentScheduling.EveryInterleavingIsSafe | src/interfaces/http/routes/intake-allocation.ts:458-534 | over every interleaving of rotations that skip locked seats with accepts, declines and cancels, statement by statement on the same seats: every counter is exact and within capacity, no need has two ASSIGNED allocations, and no seat is claimed and written by a release at once |
| LockColumns.RotationSkipsIff | src/interfaces/http/routes/intake-allocation.ts:507-507 | beside the booking routes a rotation skips exactly a seat that a route has written, and otherwise does what it does alone |
| ConcurrentScheduling.InterleavingsAreSerial | src/interfaces/http/routes/scheduling-matter.ts:99-278 | serializability of both kinds together: the rows that interleaved rotations and booking routes wrote, installed at their commits, leave what the whole transactions leave in the order of their commits |
| CareAllocation.StepKeeps | src/interfaces/http/routes/intake-allocation.ts:66-534 | every step from intake to quote keeps consistency, capacity, final decisions, directory-backed choices and quotes |
| CareAllocation.RunKeeps | src/interfaces/http/routes/intake-allocation.ts:66-534 | so does every run |
| CareAllocation.TakingKeepsConserved | src/interfaces/http/routes/intake-allocation.ts:514-534 | one more rotation allocation and one more matter on a seat below capacity keep the counters exact |
| CareAllocation.CapacityIsConserved | src/interfaces/http/routes/intake-allocation.ts:529-533 | after every run each membership counter is the number of its ASSIGNED or COMPLETED allocations and at most its capacity |
| CareAllocation.ChoicesAreFromTheDirectory | src/interfaces/http/routes/intake-allocation.ts:369-438 | after every run a CITIZEN_CHOICE allocation is on a need routed PAID and its provider is in the persisted directory |
| CareAllocation.QuoteIsOwed | db/migrations/006_payment_boundary.sql:142-190 | a quote, its matter, booking and allocation share one provider, the need was routed PAID without Section 12 category, and the amount is the fee sum with zero commission |
| CareAllocation.EntitledIsNeverCharged | src/modules/eligibility/domain/route.ts:16-35 | a need created with a declared Section 12 category is never quoted and never subject to a paid choice, whatever happens afterwards |
| CareAllocation.AcceptedCurrencyIff | db/migrations/006_payment_boundary.sql:50-52 | char(3) and its CHECK accept a currency text exactly if it is three capital letters followed by spaces |
| CareColumns.SurfacedIff | src/interfaces/http/routes/intake-allocation.ts:283-322 | exactly when a surface row is accepted: a paid need, a known provider not yet in it, a free position from one on |
| CareColumns.ChosenIff | src/interfaces/http/routes/intake-allocation.ts:365-438 | exactly when a choice takes effect, and the allocation it leaves: need, provider, CITIZEN_CHOICE, seed and position |
| CareColumns.RotatedIff | src/interfaces/http/routes/intake-allocation.ts:458-534 | exactly when a rotation takes effect, the allocation it leaves, and one matter more on the seat, last assigned now |
| CareColumns.QuotedIff | db/migrations/006_payment_boundary.sql:116-216 | exactly when a quote is accepted: request id, provider and role, open matter on a paid need, fees that sum to an amount within numeric(14,2), a currency code, an expiry to come |
| CareColumns.RoundingIsNearest | db/migrations/006_payment_boundary.sql:50-86 | numeric(14,2) stores the nearest cent, a tie away from zero |
| DirectoryChoice.GenerationIsARun | src/interfaces/http/routes/intake-allocation.ts:283-322 | the inserts of a first directory read are a run of the allocation state machine: none is refused there, and both models hold the same surface rows afterwards |
| DirectoryChoice.ChoicesAreWhatWasShown | src/interfaces/http/routes/intake-allocation.ts:387-436 | in every run of both state machines, in every state after the first read of a need: an eligible provider is refused as not surfaced exactly if that read's response did not show it, and every choice of the need records the place at which its provider was shown |
| DirectoryChoice.EveryoneIsRegistered | src/interfaces/http/routes/intake-allocation.ts:66-160 | in every run of both state machines the providers are those with a counter and the routed needs those with directory columns |
| DirectoryChoice.FirstReadIff | src/interfaces/http/routes/intake-allocation.ts:186-240 | in every consistent state a read generates a directory exactly on a need routed PAID without one, for its first or the same filters |
| CareAllocation.Desk.SelectProvider | src/interfaces/http/routes/intake-allocation.ts:365-438 | selects exactly when route, surface, eligibility and constraints allow it, and then from the directory of a PAID need |
| CareAllocation.Desk.RotateNeed | src/interfaces/http/routes/intake-allocation.ts:458-534 | refuses exactly for the first of: unknown need, paid route without operator, no available unblocked member below capacity, need already assigned; otherwise assigns such a member that no other sorts before, allocation and seat together |
| CareAllocation.Desk.CreatePaymentQuote | db/migrations/006_payment_boundary.sql:116-216 | raises the first failing check and changes nothing, or adds exactly one quote and leaves the others alone |
| Eligibility.RoutedMeans | src/modules/eligibility/domain/route.ts:16-35 | a stored decision is PAID exactly if no category was declared and a stated fee ceiling reaches the district floor |
| Eligibility.RefusedIff | src/interfaces/http/routes/intake-allocation.ts:97-110 | a need is refused exactly if no category is declared and its fee ceiling has no district floor to be compared with |
| HashChain.UInt32RoundTrip | src/modules/ledger/domain/hash-chain.ts:17-18 | the four length bytes and the length determine each other |
| HashChain.DecodeEncoded | src/modules/ledger/domain/hash-chain.ts:15-20 | decoding the concatenated fields gives the fields back: the encoding is injective |
| HashChain.EncodeDecoded | src/modules/ledger/domain/hash-chain.ts:15-20 | whatever decodes is the encoding of what it decodes to |
| HashChain.PayloadIsInjective | src/modules/ledger/domain/hash-chain.ts:22-33 | equal payloads have equal previous hash, id, provider, type, credits and time |
| HashChain.WriterConcatenates | db/migrations/002_integrity_hardening.sql:149-160 | the writer's concatenation of length-prefixed fields is the encoding of the list of fields |
| HashChain.YearsAgreeIff | db/migrations/002_integrity_hardening.sql:156-159 | to_char and toISOString spell a year alike exactly from 1 to 9999 |
| HashChain.TheYearTenThousandDiffers | src/modules/ledger/domain/hash-chain.ts:31-31 | a concrete year the two sides spell differently |
| HashChain.WriterAndVerifierAgreeIff | src/modules/ledger/domain/hash-chain.ts:22-33 | writer and verifier hash the same bytes exactly for events in the years 1 to 9999 |
| HashChain.WriterChainIsAcceptedIff | src/modules/ledger/domain/hash-chain.ts:35-47 | the verifier accepts a chain the writer built exactly if all its events lie in those years, up to two payloads of one event with one digest |
| LedgerColumns.WrittenHash | db/migrations/002_integrity_hardening.sql:149-160 | the hash of an inserted row is SHA-256 of version, previous hash, id, provider, type, credits and time, in this order, each behind four length bytes; it is inserted exactly if all fit |
| LedgerColumns.VerifiedHash | src/modules/ledger/domain/hash-chain.ts:22-33 | the verifier recomputes it from the same columns of the stored row, with its own spelling of the year |
| LedgerColumns.YearsInDigits | db/migrations/002_integrity_hardening.sql:156-159 | how each side spells a year, digit by digit, before, within and after the years 0 to 9999 |
| LedgerColumns.EventTypesAgree | db/migrations/001_foundation.sql:246-257 | the CHECK list admits exactly the seven event types of the application |
| HashChain.VerifyLedgerChain | src/modules/ledger/domain/hash-chain.ts:35-47 | the loop accepts exactly the chains in which every event links to the one before it |
| HashChain.VerifiesAppend | src/modules/ledger/domain/hash-chain.ts:35-47 | a chain with one more event verifies exactly if the chain does and the event links to its head |
| HashChain.SameHeadSameChain | src/modules/ledger/domain/hash-chain.ts:35-47 | the tamper argument for any injective payload, walking two chains back from one head |
| HashChain.TamperEvidence | src/modules/ledger/domain/hash-chain.ts:15-47 | two accepted chains with the same head hash record the same events, unless their own payloads collide or, with different lengths, one hashes to the genesis value |
| DecimalText.NatTextIsCanonical | src/modules/ledger/domain/hash-chain.ts:26-26 | the text of a number is canonical and reads back as that number |
| DecimalText.IntTextIsInjective | src/modules/ledger/domain/hash-chain.ts:26-26 | two ids with the same text are the same |
| DecimalText.NumericTextIsInjective | db/migrations/002_integrity_hardening.sql:147-147 | two numerics with the same text agree in value and scale |
| DecimalText.ValueIsSpelled | db/migrations/002_integrity_hardening.sql:146-148 | the value of a numeric is the number its text spells: sign, digits, and as many decimals as its scale |
| DecimalText.ValueByScale | db/migrations/002_integrity_hardening.sql:146-148 | without decimals the value is the number itself, and each further decimal divides by ten |
| CreditLedger.HeadIsFound | db/migrations/002_integrity_hardening.sql:139-145 | the STRICT select of the head event never fails and finds the hash of the last event |
| CreditLedger.LockKeeps | db/migrations/002_integrity_hardening.sql:129-137 | taking the head lock keeps the invariant: what is read there stays true while the lock is held |
| LedgerColumns.OpeningTakesEffect | db/migrations/002_integrity_hardening.sql:129-137 | a balance row is opened once, at zero and without a head |
| LedgerColumns.LockingIff | db/migrations/002_integrity_hardening.sql:129-145 | in every consistent state a head is locked exactly if the provider is known and nobody holds it, and what is remembered is the provider's last hash, or 32 zero bytes |
| LedgerColumns.HashOfMeans | db/migrations/002_integrity_hardening.sql:139-145 | the STRICT select finds a row of that id and provider, and none exactly if there is none |
| LedgerColumns.RewritingWouldShow | db/migrations/001_foundation.sql:346-357 | what the append-only trigger prevents: an UPDATE would replace the event and a DELETE remove it |
| CreditLedger.AppendKeeps | db/migrations/002_integrity_hardening.sql:161-175 | inserting the event and updating the balance keeps chain, balance, head and all other writers |
| CreditLedger.RunKeeps | db/migrations/002_integrity_hardening.sql:129-175 | so does every interleaving of opens, locks, numbers, appends and aborts |
| CreditLedger.EveryRunReconciles | db/migrations/002_integrity_hardening.sql:129-175 | after every interleaving each provider's events in id order are in commit order, form a chain under the writer's hash, spell credits whose sum is the balance, and end in last_event_id, the greatest id |
| CreditLedger.VerifierAcceptsRunsIff | src/modules/ledger/domain/hash-chain.ts:35-47 | the application's verifier accepts what any run of the database's writer leaves for a provider exactly if all its events lie in the years 1 to 9999, up to two payloads of one event with one digest |
| CreditLedger.RowTamperEvidence | src/modules/ledger/domain/hash-chain.ts:15-47 | two accepted row histories with one head hash agree on id, provider, type, credits as numeric with scale, time and hash, unless their payloads break SHA-256 |
| CreditLedger.LedgersWithOneHeadAgree | db/migrations/002_integrity_hardening.sql:129-175 | two ledgers, whatever their runs, that show one head hash for a provider hold the same events of it, under the same proviso |
| CreditLedger.AppendSucceedsIff | db/migrations/002_integrity_hardening.sql:146-194 | in every reachable state a numbered event goes through if and only if its type is allowed, its matter known or absent, its fields short enough and its audit columns acceptable; otherwise only its sequence value is spent |
| CreditLedger.CallIsItsSteps | db/migrations/002_integrity_hardening.sql:101-196 | a call run alone is its three steps |
| CreditLedger.Database.AppendCreditEvent | db/migrations/002_integrity_hardening.sql:101-196 | it succeeds exactly under those conditions and then adds one linked row with the request's columns and moves one balance by what its credits spell; each other error names its cause and spends at most a sequence value; the missing head event cannot occur |
| DecimalText.PaddedIsInjective | db/migrations/002_integrity_hardening.sql:156-159 | zero-padded years of one width determine the year |
| Transactions.CommitsIffSuccessful | src/shared/transaction.ts:8-19 | a call commits exactly when it succeeds |
| Transactions.RollsBackOtherwise | src/shared/transaction.ts:8-19 | otherwise what was begun is rolled back, and an obtained client is released once, last |
| Transactions.RetryMeans | src/shared/transaction.ts:27-35 | at least one and at most the allowed attempts, retrying only SQLSTATE 40001, answering with the last attempt; the closing throw is unreachable |
| Transactions.CommitsOnce | src/shared/transaction.ts:22-36 | however often an operation is retried it is committed once if the caller is told so and never otherwise |
| Transactions.Pool.WithTransaction | src/shared/transaction.ts:3-20 | the statements sent and the outcome, for every combination of answers, a failing ROLLBACK included |
| Transactions.Pool.WithSerializableRetry | src/shared/transaction.ts:22-36 | the loop makes the calls, sends the statements and returns the outcome of the retry specification |
| RetriedAppend.AttemptLeaves | src/modules/ledger/application/append-credit-event.ts:35-61 | one attempt, its steps interleaved with any others, leaves its one event if the caller is told so and otherwise nothing but at most one lost sequence value |
| RetriedAppend.AppendedExactlyOnce | src/modules/ledger/application/append-credit-event.ts:35-61 | however often the append is retried beside other writers, exactly one event of its own is in the ledger if it answers with a receipt, the receipt's, and none otherwise; failed attempts cost at most one sequence value each |
| Redaction.MatchIsOccurrence | src/modules/intake/domain/redact.ts:1-3 | what the matcher finds is an occurrence the pattern denotes |
| Redaction.OccurrenceIsMatched | src/modules/intake/domain/redact.ts:1-3 | where the pattern denotes an occurrence the matcher finds one, whatever the order of alternatives |
| Redaction.NoNewMatch | src/modules/intake/domain/redact.ts:12-23 | at a copied position a pass creates no match of its own or an earlier pattern |
| Redaction.ReplaceStaysClean | src/modules/intake/domain/redact.ts:12-23 | a pass leaves no match of its own pattern and none of a pattern removed before |
| Redaction.RedactionIsComplete | src/modules/intake/domain/redact.ts:10-25 | nowhere in the redacted text is anything left that any of the three patterns denotes |
| RedactionCharacters.OccurrenceInCharacters | src/modules/intake/domain/redact.ts:1-3 | what the patterns denote, in plain characters: country codes, first digit 6 to 9, group lengths, gaps, and what must not stand beside |
| RedactionCharacters.NothingDescribedIsLeft | src/modules/intake/domain/redact.ts:10-25 | however the redacted text is cut in three, the middle is no phone number, no three groups of four digits and no account number on its own |
| RedactionCharacters.LoneNumberIsRedacted | src/modules/intake/domain/redact.ts:10-25 | a text with one number becomes the same text with the placeholder of its kind, character for character, and exactly that kind is reported |
| Redaction.RedactionIsIdempotent | src/modules/intake/domain/redact.ts:10-25 | a second run changes nothing and reports no category |
| Redaction.ReportedMeans | src/modules/intake/domain/redact.ts:10-25 | nothing is reported exactly when no pass matches the input, and then the text is untouched |
| Redaction.ReplaceGlobally | src/modules/intake/domain/redact.ts:12-15 | the global replacement loop computes the pass and runs its callback exactly if the text has a match |
| Redaction.RedactIntakeNarrative | src/modules/intake/domain/redact.ts:10-25 | three reassignments and the insertion-ordered set yield the redacted text and its categories |
| Money.PrintThenParse | src/modules/settlement/domain/quote-money.ts:9-15 | every number of minor units below 10^14 has an amount that reads back as it |
| Money.ParseThenPrint | src/modules/settlement/domain/quote-money.ts:9-15 | every amount is the text of its own minor units, below 10^14 |
| Money.MinorUnitsAreHundredths | src/modules/settlement/domain/quote-money.ts:9-15 | minor units order amounts as the numbers they spell, and equal numbers have equal spellings |
| Money.FeeChecksAgree | db/migrations/006_payment_boundary.sql:58-86 | the application accepts a breakdown exactly when the total is an amount and the database CHECK accepts it |
| Directory.OrderMeans | src/modules/allocation/domain/directory-order.ts:12-21 | the order is a permutation with fewer surfacings first and the seeded key among equals |
| Directory.OrderIsCanonical | src/modules/allocation/domain/directory-order.ts:12-21 | with different keys the order does not depend on the order of the input |
| Directory.PlaceAllMeans | src/interfaces/http/routes/intake-allocation.ts:283-322 | no statement of the loop fails, the need gets exactly the ordered rows at positions 1 to n, and no other rows move |
| Directory.FirstReadPersists | src/interfaces/http/routes/intake-allocation.ts:223-339 | what the first read answers is exactly what it persisted |
| DirectoryColumns.FirstReadInColumns | src/interfaces/http/routes/intake-allocation.ts:223-340 | on the counters themselves: the first read shows every eligible provider once, least surfaced first, records the counter it read with each row, and adds one to exactly those counters |
| DirectoryColumns.ReadRefusedIff | src/interfaces/http/routes/intake-allocation.ts:206-240 | a read is refused exactly for an unknown need and for other filters than the first |
| Directory.CountersCountSurfacings | src/interfaces/http/routes/intake-allocation.ts:318-321 | after every run a counter is the number of the provider's surface rows, and each need's positions are 1 to n |
| Directory.LaterReadsReplay | src/interfaces/http/routes/intake-allocation.ts:223-240 | whatever happens in between, the same filters get the first response again and write nothing, and other filters are refused |
| Directory.DirectoryStore.Generate | src/interfaces/http/routes/intake-allocation.ts:206-340 | the loop of inserts and counter updates reaches the specified state, and its response is what is persisted |
| ConcurrentDirectory.EveryInterleavingCounts | src/interfaces/http/routes/intake-allocation.ts:283-322 | however generations interleave statement by statement, no increment is lost: after every run a counter is the number of committed surface rows and each need's positions are 1 to n |
| LockColumns.CandidatePlacedIff | src/interfaces/http/routes/intake-allocation.ts:283-322 | a candidate is placed unless another transaction has written that counter, with the count read at the start, and its counter becomes one more than what is committed |
| ConcurrentDirectory.EveryGenerationSucceeds | src/interfaces/http/routes/intake-allocation.ts:283-340 | in every reachable state a generation's next insert and update can only wait for a counter, never fail, and its commit persists exactly what it answers |
| ConcurrentDirectory.GeneratedOnce | src/interfaces/http/routes/intake-allocation.ts:217-240 | from its commit on, nothing that runs beside or after changes what a generated directory shows |

## Left out

- BookingRoutes.Database.Accept: the audit rows of the three booking transactions are not modelled.
- Transactions.CommitsOnce: a COMMIT whose acknowledgement is lost counts as failed here; the caller cannot tell either.
- CreditLedger.Database.AppendCreditEvent: of the audit row only whether its constraints accept it is modelled, as an input; the argument checks of the TypeScript caller are not.
- HashChain.VerifyLedgerChain: timestamps finer than a millisecond, infinite ones and those beyond the range of a JavaScript date do not occur.
- Directory.OrderIsCanonical: the collation of the hexadecimal digests is an integer rank, required to differ between providers.
- ConcurrentDirectory.EveryGenerationSucceeds: locking the need and reading the candidates are one event, and a deadlock on counters is an abort at any moment.
- ConcurrentScheduling.InterleavingsAreSerial: generated keys differ, the conduct signal is written with the seat, and steps other than rotations and the booking routes are single statements.
- Rotation.EveryoneIsServedBetween: releases and membership edits of the members concerned end a run; the results hold between two of them.
- RetriedAppend.AppendedExactlyOnce: a receipt stands for an accepted COMMIT; one whose acknowledgement is lost counts as rolled back.
- Directory.DirectoryStore.Generate: the route, authority and status-policy guards before the transaction are not modelled.
- CareAllocation.Desk.SelectProvider: the provider eligibility query is a boolean input, and the incomplete-filters answer is unreachable here because surface rows exist only once filters do.
- CareAllocation.Desk.RotateNeed: the query's conditions on provider status, service and tier are an input set of each call; the roster row and operator or institution grants are not modelled.
- CareAllocation.Desk.CreatePaymentQuote: the payment route's own repetition of the same checks, and role grants beyond a boolean, are not modelled.
- Eligibility.RoutedMeans: taxonomy configuration, the lookup of the district floor and the citizen-authority check of the intake route are not modelled; fees are exact numbers.
- Redaction.RedactionIsComplete: a character is a Unicode scalar value; lone UTF-16 surrogates, which no pattern mentions, do not occur.
- Visibility inside concurrent transactions: statements take effect one at a time, and a transaction that waits for a lock takes no step.
- Deletes, and owner edits other than those named above: migrated data and undeleted rows are the starting point.
- JSON shape validation inside `finalize_verification_case` and the Zod schemas: policies arrive as well-formed records.
- OAuth, sessions, HMAC signing, configuration, role grants and scripts: foreign calls and deployment.
- The grievance state machine, redemption kinds, payment webhooks and case-status mapping: settled by reading one table.
- The frontend, response schemas and HTTP wiring: user interface and I/O.
