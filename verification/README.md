# pcomirror, modelled and verified

pcomirror keeps a local copy of a Planning Center collection and answers the same API
from it. Events about a record reach it duplicated, out of order or not at all; the
process may die between any two statements; bulk work is cut into small units; and the
remote does not always do what its query parameters say. This project models the
synchronisation engine in Dafny and proves what keeps the copy correct.

`dafny verify dfyconfig.toml` checks everything. Nothing of the original was executed.

## How the original's world appears here

- A table is a map from keys to rows; a row is its payload (stamp, relationship keys,
  owner, the rest) with its tombstone columns. NULL is `None`, and SQL comparisons with
  NULL are false (`Types.Later`). Ids are naturals ordered by value, timestamps whole
  seconds, seconds of a monotone clock reals.
- Classes are the original's objects, with their fields; their methods are its loops.
  Each is proved against functions of the old state, and the theorems are about those.
- The remote is a set of records together with functions of the *request number*: what
  order equal stamps come in, what is sideloaded, which requests fail. So a theorem over a
  remote is a theorem over every tie order and every pattern of failures.
- In `DeleteAudit` every persisted statement goes through one door, `Commit`. It may find
  the process dead (`power` counts the statements it will still make) and lets other
  threads rewrite the table first (`others`, without any restriction). A theorem over a
  service and a power is one over every interleaving and every crash. The requests made
  and the statements committed are logged, and their numbers are positions in those logs.
  `AuditRound.Vouched` says that the table is the snapshot rewritten by nothing but the
  other threads and the logged statements, and that each of these names a logged request
  with the answer it needs; `AuditRound.Safe` says what the round may contain.
- In `RateLimiter`, `MergerPoll`, `Scheduler`, `MutationGuard` and `Rows`, runs are
  sequences of steps, and what each method does is one step.

## The modules

| module | original | about |
|---|---|---|
| `Rows`, `Stores`, `Writer` | `writer.py`, `registry.py` | the canonical writer: rows, cascade and revival, routing |
| `Paging`, `KeysetSync` | `ingest.py` | backfill, drain of a saturated second, incremental sweep |
| `AuditListing`, `AuditRound`, `DeleteAudit` | `ingest.py` | the delete audit: enumeration, outcome, crashes and slices |
| `WalkRound` | `ingest.py` | rounds of per-parent walks |
| `MergerPoll` | `ingest.py`, `webhooks.py` | merges, from the poll and from webhooks |
| `RateLimiter`, `ShadowChecker` | `ratelimit.py`, `divergence/__init__.py` | the two token buckets |
| `Divergence`, `Staleness` | `divergence/rules.py`, `divergence/__init__.py` | the comparison, and the verdict that promises a sweep |
| `Scheduler` | `scheduler.py` | the cold lane |
| `Search` | `db.py`, `serving.py` | the search predicates |
| `PcoClient`, `MutationGuard` | `pcoclient.py`, `tools/mutation_guard.py` | retries, and the guarded transport |

## Where the code does less than its documentation

The model follows the code. In each case a lemma gives the exact condition, and where it
is not plain from the condition another member constructs a failing input.

- A `destroyed` stamp older than its row is refused, but the cascade runs
  (`Stores.RefusedBurialStrands`).
- A buried row takes an older stamp, so several burials are order-dependent
  (`Rows.StampsAreNotMonotone`, `Rows.OrderMattersExactlyBetweenStamps`), and a later
  tombstone makes a merged row revivable (`Rows.ALaterTombstoneRelabelsAMerge`).
- An error body during the drain of a second reads as its end, and the cursor passes
  records that were never read (`KeysetSync.PastASecond`,
  `KeysetSync.AFailedDrainLosesARecord`). Completeness of the walks therefore asks that
  the drain requests made were answered; the audit's safety asks for nothing.
- `_sweep_converges` does not look at the `merged` reason
  (`Staleness.ConvergesUnlessMerged`).
- Window reasoning accuses wrongly past the first page (`Divergence.OnlyFirstPagesAreSound`,
  `Divergence.LaterPagesMisplaceRecords`).
- A response may shorten the pause a 429 set (`RateLimiter.PauseSurvivesAResponse`), the
  foreground reserve may be stale (`RateLimiter.TheReserveIsKeptUnlessRaised`), and a bucket of
  capacity below two never grants background work
  (`RateLimiter.BackgroundNeedsACapacityOfTwo`).
- The checker's "one token at start" fails when the rate is switched on later
  (`ShadowChecker.FirstPassMayBurst`).
- A ring whose last unit drops out restarts at its front
  (`Scheduler.EveryReadyUnitRunsBetweenRestarts`, `Scheduler.AChurningRingStarves`).
- A webhook without the merger id applies a merge a second time
  (`MergerPoll.OnlyTheIdIdentifies`).
- The audit's counters are saved after the scratch row is removed, so a crash in between
  loses a count -- exactly such a crash (`DeleteAudit.Auditor.AuditInSlices`,
  `DeleteAudit.ACrashLosesABurial`, `DeleteAudit.ACrashLosesARestore`).
- A walk step with a budget of zero records the round complete
  (`WalkRound.Walker.WalkRoundStep`).

## Model

| member | source | states |
|---|---|---|
| Rows.RowsStayCoherent | pcomirror/writer.py:65-134 | `deleted_at`, `tombstone_uat` and `tombstone_reason` are set and cleared together by every statement |
| Rows.UpsertNeverImpoverishes | pcomirror/writer.py:70-76 | the kept payload is one of the two offered, whole, and is poorer (older, or as old with fewer relationships) than neither |
| Rows.NothingIsLostAtTheSameStamp | pcomirror/writer.py:70-76 | at the stamp the row has, a write with no more relationships than it holds loses none of them |
| Rows.ThinCopiesTakeNothing | pcomirror/writer.py:32-96 | over any delivery of writes that are no newer than the row and have no more relationships, among any burials, the row loses no relationship and no stamp |
| Rows.ABurialYieldsToNews | pcomirror/writer.py:123-136 | a tombstone for a live row is refused if and only if it is no merge and its stamp is older than the row's; once taken it yields to exactly the writes newer than its stamp -- the row's own, or the time of burial, where it has none -- unless it is a merge |
| Rows.NewsRevives | pcomirror/writer.py:78-87 | a row buried under its own stamp, for no merge, is revived by exactly the writes newer than what it holds |
| Rows.TheSurvivorIsRemembered | pcomirror/writer.py:127-203 | no statement but a later merge or a record fetched whole changes whom a row was merged into |
| Rows.TheLastUntimedWriteStays | pcomirror/writer.py:99-110 | over any sequence of writes without a stamp a buried row stays as it is and a live one holds the last |
| Rows.EveryOrderKeepsTheRichest | pcomirror/writer.py:65-87 | for every order and duplication of stamped writes and burials the row ends with an offered payload whose (stamp, relationship count) is the lexicographic maximum |
| Rows.OneStampDecides | pcomirror/writer.py:78-87 | with every burial stamped t, in every order and with every duplication, the row ends buried if and only if nothing offered is newer than t |
| Rows.OrderMattersExactlyBetweenStamps | pcomirror/writer.py:127-134 | with burials of several stamps the outcome is independent of the order if and only if some offered payload outlives every burial or no delivered write is newer than any burial |
| Rows.StampsAreNotMonotone | pcomirror/writer.py:127-132 | the counterexample: a buried row accepts an older stamp, so the same three deliveries end live in one order and buried in another |
| Rows.ALaterTombstoneRelabelsAMerge | pcomirror/writer.py:79-87 | no write revives a merged row, but once a later tombstone has relabelled it a write newer than that tombstone does, exactly then |
| Rows.AnOrphanRevivesOnNews | pcomirror/writer.py:155-160 | a child buried with its owner is revived by a write if and only if that write is newer than the child itself |
| Rows.AnOrderThatBuries | pcomirror/writer.py:127-134 | unless an offered payload outlives every burial, some delivery order ends buried |
| Rows.AnOrderThatRevives | pcomirror/writer.py:78-87 | if moreover some write is newer than some burial, some delivery order ends live |
| Stores.OwnedChildren | pcomirror/registry.py:587-623 | the child tables of a table are exactly those that declare it their owner |
| Stores.CascadeOneMore | pcomirror/writer.py:154-160 | the cascade, one statement a child table, composes to one pass over all of them |
| Stores.UncascadeOneMore | pcomirror/writer.py:194-203 | the same for the revival, although each statement asks again whether the owner is live |
| Stores.RouteEnriches | pcomirror/writer.py:206-244 | routing one resource buries nothing, makes no timestamped row poorer, keeps the tombstone of every row it leaves buried and never revives a merged one |
| Stores.RoutingCovers | pcomirror/writer.py:253-284 | after a whole page every stamped record on it is held at least as complete as it was sent |
| Stores.RoutingSettles | pcomirror/writer.py:253-284 | moreover it is live whenever the rows of before the page would have let it live, wherever on the page it stands |
| Stores.NothingIsInvented | pcomirror/writer.py:253-284 | what a row holds after a page is what it held before or what one copy on the page said, whole |
| Stores.TheLastCopyStays | pcomirror/writer.py:253-284 | why sideloads go first: a record's last copy on a page is the one that stays, word for word, as long as neither an earlier copy nor the row is richer |
| Stores.TheLastUntimedCopyStays | pcomirror/writer.py:99-110 | without a stamp the last copy on a page stays, in every row that is new or live |
| Stores.RoutingHolds | pcomirror/writer.py:253-284 | after a page every record on it, primary or sideloaded, stamped or not, has its row |
| Stores.PartsAreLeftOut | pcomirror/writer.py:211-220 | which resources are dropped for want of a stamp, and which are stored without one |
| Stores.GoneTakesItsChildren | pcomirror/writer.py:123-160 | a tombstone takes the live children along exactly if its reason says that the owner is gone, whether there is such a row and whether the guard accepted or not; each of them comes back on news of its own; nothing else changes |
| Stores.NothingOutlivesItsOwner | pcomirror/registry.py:587-623 | whose rows go with a person, a household, a list and a form, and that no others do |
| Stores.RevivingStrandsNobody | pcomirror/writer.py:179-203 | writing any row of an owner and then un-cascading leaves no `owner_deleted` child under a live owner |
| Stores.BuryingStrandsNobody | pcomirror/writer.py:123-160 | a burial the guard accepts leaves no `owner_deleted` child under a live owner |
| Stores.StepStrandsNobody | pcomirror/writer.py:65-203 | every writer operation keeps that invariant |
| Stores.NoRunStrandsAChild | pcomirror/writer.py:65-203 | no run of writer operations leaves an `owner_deleted` child under a live owner, with each child keeping its owner and every burial stamp absent or not older than its row |
| Stores.RefusedBurialStrands | pcomirror/writer.py:131-136 | a burial keeps that invariant if and only if it is accepted, or there is no such row, or the row has no live children: the cascade runs even when the guard refused the row |
| Stores.BuryThenConfirm | pcomirror/writer.py:135-177 | burying an owner and confirming it live restores the store but for the owner's own row: exactly the children that were live |
| Stores.BuryThenUpsert | pcomirror/writer.py:94-203 | a later upsert restores exactly those children when it is strictly newer than the tombstone, and otherwise leaves every child buried |
| Writer.CanonicalWriter.Upsert | pcomirror/writer.py:32-96 | the insert-or-update followed by the un-cascade, as one function of the whole store |
| Writer.CanonicalWriter.UpsertUntimed | pcomirror/writer.py:99-110 | the timestamp-less write: a buried row keeps everything |
| Writer.CanonicalWriter.Tombstone | pcomirror/writer.py:123-136 | the guarded burial and, for a reason that means gone, the cascade, whether or not the guard accepted |
| Writer.CanonicalWriter.Cascade | pcomirror/writer.py:138-160 | one statement a child table buries every live owned row and no other |
| Writer.CanonicalWriter.ConfirmLive | pcomirror/writer.py:163-177 | the unguarded write that clears the tombstone, followed by the un-cascade |
| Writer.CanonicalWriter.Uncascade | pcomirror/writer.py:179-203 | one statement a child table revives the `owner_deleted` rows, only under a live owner |
| Writer.CanonicalWriter.Route | pcomirror/writer.py:206-244 | an unmirrored type and a partial representation change nothing; the rest goes to its own writer |
| Writer.CanonicalWriter.RoutePage | pcomirror/writer.py:253-284 | the rows are those of routing sideloads first and the data after; the count is that of the data |
| Paging.FirstSliceIsAWindow | pcomirror/ingest.py:373-400 | a record missing from the first page of a sorted listing is stamped at or after the page's newest, and a short page is the whole listing |
| Stores.CoveredExactlyIfSupplied | pcomirror/writer.py:253-284 | a routed batch covers a record if and only if the mirror covered it before or the batch brings a copy that is not poorer |
| KeysetSync.DrainReadsUpToItsReach | pcomirror/ingest.py:430-441 | a drain routes every record before the point where it stopped and none after it but what rode along; it stops early only at a failed request, and reaches the end when all were answered |
| KeysetSync.PastASecond | pcomirror/ingest.py:401-407 | after a drain of second t the cursor may pass t if and only if every record the drain did not read -- none, when its requests were answered -- was covered before or rode along |
| KeysetSync.AFailedDrainLosesARecord | pcomirror/ingest.py:401-441 | the input, for any second and any number of records over a page in it: one failed request, the first of the drain, leaves the watermark past the second and a record of it unwritten, which no later sweep asks for |
| KeysetSync.APageIsProgress | pcomirror/ingest.py:480-512 | every page of a sweep but its last lowers what is ahead of the cursor, drains and failures included |
| KeysetSync.Ingestor.DrainSecond | pcomirror/ingest.py:430-441 | what it routes and how many requests it makes are those of the drain as a function, wherever a request fails |
| KeysetSync.Ingestor.Backfill | pcomirror/ingest.py:381-428 | a unit is bounded: with at most m records in any second it makes at most maxPages requests if m < 100, and maxPages * (2 + m / 100) otherwise, and it pauses only after maxPages of them; if the drain requests it made were answered, everything stamped below the persisted cursor is written, after every page and at every way out, and on completion everything; whatever rode along with an answered request has its row; the boundary ids are those of arrived records in the second of the cursor; on completion nothing is stamped past the watermark; a paused unit made progress; it raises only on a failed request |
| KeysetSync.APageAndItsDrain | pcomirror/ingest.py:399-441 | a page is drained only if a second holds a page of records, and the drain costs a request for every hundred of that second and one more |
| KeysetSync.Ingestor.BackfillInUnits | pcomirror/ingest.py:340-428 | sliced into units of any size it terminates, at a failed page with the cursor's promise kept or with every record of an unchanging remote written |
| KeysetSync.Ingestor.BackfillWhileEdited | pcomirror/ingest.py:381-428 | the promise survives remote edits between units that are stamped at or after the cursor, and completion then covers the edited collection |
| KeysetSync.Ingestor.Collect | pcomirror/ingest.py:488-508 | one page of the sweep: everything from its start to below the new watermark is settled if its drain was answered, and what rode along with the page and the drain has its rows |
| KeysetSync.Ingestor.IncrementalSweep | pcomirror/ingest.py:471-512 | it terminates with exactly the rows, the watermark and the requests of the sweep as a function; whatever rode along with an answered request, drains and the last page included, has its row, at least as complete as it was sent; never moves the watermark back; if the drain requests it made were answered it settles everything from its start to below the new watermark, and if its pages were too everything at or after its start, with nothing stamped past the watermark |
| KeysetSync.PageIsAWindow | pcomirror/ingest.py:386-397 | the same for what the k-th request is answered, whatever its tie order |
| KeysetSync.Ingestor.Absorb | pcomirror/ingest.py:398-415 | one page: everything below the new cursor is written, what rode along has its rows, the boundary ids are those of the newest second, it costs what a page may cost, and the walk is done if and only if the page is short and brought nothing unseen; otherwise the cursor or the boundary set made progress |
| AuditListing.PageIsContiguous | pcomirror/ingest.py:713-735 | a page continues the listing where the persisted cursor and offset stand, and a short one reaches its end |
| AuditListing.FrontierFollowsThePage | pcomirror/ingest.py:736-764 | the next state never stands past what has been read, and an endpoint that honours the filter never triggers the fallback |
| AuditListing.PageExtendsThePrefix | pcomirror/ingest.py:713-765 | every page extends the collected prefix as far as the next state says, with the filter honoured or ignored; the last one completes it |
| AuditListing.PageMakesProgress | pcomirror/ingest.py:736-776 | every other page decreases (mode, records past the cursor, rest of the offset) lexicographically: no two cursors oscillate |
| AuditListing.LessIsLower | pcomirror/ingest.py:736-776 | that measure is one natural number, so it bounds the calls an enumeration may take |
| AuditRound.CommittingIsVouched | pcomirror/db.py:555-559 | a statement extends the trail, and the table stays what the snapshot becomes under that trail and the other threads, with every statement of it justified |
| AuditRound.NoBurialWithoutEvidence | pcomirror/ingest.py:779-801 | in every run, whatever other threads write and whatever fails: each tombstone the round wrote is a logged statement on a record that was live at the snapshot and never enumerated, and its own GET is in the log of the round's requests and was answered 404 |
| AuditRound.BuriedRowsWereAnswered | pcomirror/ingest.py:779-801 | a row no other thread touches, live at the snapshot and buried now, was never enumerated, and its own GET was made and answered 404 |
| AuditRound.DroppingKeepsCount | pcomirror/ingest.py:801-805 | removing a scratch row keeps the account: the counter, the lost counts and the undone writes add up to what was written and is no longer pending |
| AuditRound.HeededOn | pcomirror/ingest.py:779-831 | over any stretch of requests without another writer: a row nothing was heard about is as it was, and a record that was sent is held as it was sent last, live and without a trace of a tombstone |
| AuditRound.AuditBurialsComeBack | pcomirror/ingest.py:793-795 | a row the audit buries is buried under its own stamp, for no merge, whatever it was before |
| AuditRound.Settles | pcomirror/ingest.py:766-775 | the set arithmetic turns a complete enumeration into the confirm phase |
| AuditRound.BuryingStaysOnTrack | pcomirror/ingest.py:793-795 | a candidate's 404, heard once or -- after a crash -- again, leaves its row as an uninterrupted audit would |
| AuditRound.RoundIsComplete | pcomirror/ingest.py:807-823 | a completed round has buried exactly the live rows the remote lacks, filled all gaps if at most 500 were missing, and counted both but for what crashes lost: `restored` is min(missing - lost, 500) |
| AuditRound.CompletedMeansAudited | pcomirror/ingest.py:807-823 | then no live row is left that the remote lacks, what is still missing is what was missing less what was filled, and with every gap filled the rows are the closed form |
| AuditRound.GhostsComeBack | pcomirror/ingest.py:793-795 | a ghost the audit buried is revived by exactly the writes newer than what the mirror held of it |
| AuditRound.AuditingTwiceIsOnce | pcomirror/ingest.py:635-655 | on the rows an audit leaves a second audit changes nothing |
| DeleteAudit.Auditor.Commit | pcomirror/db.py:555-559 | a statement happens or the process dies before it; other threads may have written since the last one; it is logged, and may only be one whose request was made and answered so |
| DeleteAudit.Auditor.Ask | pcomirror/ingest.py:787-792 | one GET of one record goes on the wire and into the log |
| DeleteAudit.Auditor.AskPage | pcomirror/ingest.py:716-729 | one page request goes on the wire and into the log |
| DeleteAudit.Auditor.Snapshot | pcomirror/ingest.py:701-707 | the candidates are the live rows of one moment, before anything is enumerated |
| DeleteAudit.Auditor.StartRound | pcomirror/ingest.py:700-711 | a round opens with empty tallies and the snapshot, or the process died and there is none; five statements, none on the table |
| DeleteAudit.Auditor.EnumeratePage | pcomirror/ingest.py:713-777 | one page keeps the invariants and makes progress, ends the enumeration exactly if it is the last one, and a crash anywhere in it leaves no more to do than before |
| DeleteAudit.Auditor.CollectPage | pcomirror/ingest.py:731-735 | all of the page's ids are collected, one statement each, if the process survives |
| DeleteAudit.Auditor.FinishEnumeration | pcomirror/ingest.py:764-777 | with exactly the remote ids collected, the settled scratch sets are the unlisted live rows and the ids without a row, and the confirm phase is saved |
| DeleteAudit.Auditor.Settle | pcomirror/ingest.py:766-775 | the two set subtractions, each its own statement, after which no candidate was enumerated |
| DeleteAudit.Auditor.ConfirmOne | pcomirror/ingest.py:779-805 | one candidate: its own GET, a tombstone on its 404, a confirmed row on a record, nothing on anything else; with no other writer a record that was answered is held as that record and nothing else; as many of its statements as the process has left; its count is lost if and only if a burial finds two left, and no other count is |
| DeleteAudit.Auditor.DropCandidate | pcomirror/ingest.py:801-805 | the removal of the scratch row and the save: the exact tally after none, one or both of them |
| DeleteAudit.Auditor.RestoreOne | pcomirror/ingest.py:807-864 | one gap: its own GET, the record stored if it returned one, the scratch row gone, the counter saved; its count is lost if and only if the storing finds two statements left |
| DeleteAudit.Auditor.DropLiveId | pcomirror/ingest.py:828-831 | the same two statements for a gap, with the exact tally |
| DeleteAudit.Auditor.FinishRound | pcomirror/ingest.py:807-823 | a round ends only with nothing left to restore or the limit reached, with counters that account for everything written |
| DeleteAudit.Auditor.DeleteAuditStep | pcomirror/ingest.py:681-834 | one call makes at most `budget` requests, all of them if there is more to do, and keeps the safety invariants in every run; with no other writer a call that lives leaves every record it was answered as it was answered last, and every row it heard nothing about as it was; in every run it loses exactly the count its death cut between the removal of a scratch row and the save, none if it lives, and a round in which no call died reports as many as it wrote; on an unchanging remote it stays on track, lowers what is left to do if it survives, does not raise it if it dies, dies only with fewer than 10 + 103 * budget statements to live, and reports done only with a complete round |
| DeleteAudit.Auditor.DeleteAudit | pcomirror/ingest.py:635-655 | run to completion terminates: it finishes with the outcome above, and with exact counts -- the ghosts, and the missing up to 500 -- unless an earlier call of the round lost one; or the process died and the same audit is still in progress, short of exactly what that death cut |
| DeleteAudit.Auditor.AuditInUnits | pcomirror/scheduler.py:216-225 | taken in units by a process that lives, it always finishes with the outcome above, resumed from any point; it loses no count, so from a fresh round it reports exactly the ghosts, and the missing up to 500 |
| DeleteAudit.Auditor.AuditInSlices | pcomirror/ingest.py:635-834 | any division into calls of any budgets, each dying after any number of statements, ends -- once a call reports done -- with the rows of an uninterrupted audit, and its counters miss one for each call that was cut between the removal of a scratch row and the save; both are exact if and only if no burial was cut, and no restore either unless 500 more than were cut were missing; and a plan with more surviving calls than there is left to do gets there |
| DeleteAudit.TwoAuditsAgree | pcomirror/ingest.py:635-834 | two audits of the same rows, each sliced and crashed in its own way, end with the same rows up to burial times when at most 500 were missing |
| DeleteAudit.ACrashLosesABurial | pcomirror/ingest.py:793-805 | the input: a death between the removal of a scratch row and the save ends in a finished audit with one row buried and none counted |
| DeleteAudit.ACrashLosesARestore | pcomirror/ingest.py:825-831 | the input: the same for a restored record |
| RateLimiter.DeferrableGrantsKeepTheReserve | pcomirror/ratelimit.py:63-77 | a background grant leaves at least half of the capacity its reserve was computed from |
| RateLimiter.TheReserveIsKeptUnlessRaised | pcomirror/ratelimit.py:70-77 | every grant with a reserve computed from capacity c0 leaves half of the capacity c in force if and only if c <= c0, or c < 1 + c0 / 2 and there is none |
| RateLimiter.AStaleReserveDips | pcomirror/ratelimit.py:70-100 | the input: a response that raises the capacity while a background caller waits, and the grant that dips below half of it |
| RateLimiter.ATooManyPausesEverybody | pcomirror/ratelimit.py:102-105 | after a 429 nothing is granted for the seconds it asked for, or for twenty if it asked for none, over any trace of attempts, and the bucket is empty |
| RateLimiter.ANearLimitPausesEverybody | pcomirror/ratelimit.py:98-100 | a response that says nine tenths of the limit are used pauses everybody for its period, over any trace of attempts; one below that starts no pause |
| RateLimiter.AResponseIsInForce | pcomirror/ratelimit.py:87-100 | a response puts the limit it states in force and touches no token; without a positive limit and period it changes nothing |
| RateLimiter.WhatAnAttemptNeeds | pcomirror/ratelimit.py:63-77 | the foreground needs one token and no pause; the background half the capacity on top |
| RateLimiter.Limiter.Acquire | pcomirror/ratelimit.py:63-85 | all it does to the bucket is a trace of attempts with one reserve, exactly one of which takes a token if it is granted and none if it is not; a lone unpaused call without a deadline is granted within deficit / rate + 0.005 s, by a turn that can be told beforehand, if what it asks for fits the capacity, and otherwise still waits after any number of turns; with a deadline it ends by it, refused only when one more sleep would pass it |
| RateLimiter.GrantsAreBacked | pcomirror/ratelimit.py:58-77 | for any interleaving of foreground and background callers and steady responses, grants never exceed what the bucket held and what flowed in |
| RateLimiter.NoWindowExceedsTheLimit | pcomirror/ratelimit.py:58-100 | no window one period long sees more than util * limit + limit / period grants, hence at most the limit when util + 1 / period <= 1 |
| RateLimiter.PauseSurvivesAResponse | pcomirror/ratelimit.py:98-105 | after a 429 a response keeps the pause at least as long if and only if it starts no pause of its own or one that ends no earlier |
| RateLimiter.BackgroundNeedsACapacityOfTwo | pcomirror/ratelimit.py:70-75 | waiting ever makes the bucket hold a background request's tokens if and only if the capacity is at least two |
| RateLimiter.SleepingPaysTheNeed | pcomirror/ratelimit.py:58-85 | sleeping pays the deficit off at the rate |
| RateLimiter.ATurnIsProgress | pcomirror/ratelimit.py:78-85 | a refused turn sleeps part of the pause away, or at least five milliseconds and no more than that beyond the deficit |
| RateLimiter.Limiter.Refill | pcomirror/ratelimit.py:58-61 | the refill caps at the capacity and moves the clock mark |
| RateLimiter.Limiter.Attempt | pcomirror/ratelimit.py:72-81 | one turn under the lock: granted exactly when unpaused with one token above the reserve, else how long to sleep |
| RateLimiter.Limiter.OnResponse | pcomirror/ratelimit.py:87-100 | re-targets rate, capacity and pause, or ignores a limit or period that is not positive |
| RateLimiter.Limiter.On429 | pcomirror/ratelimit.py:102-105 | empties the bucket and pauses |
| ShadowChecker.Checker.constructor | pcomirror/divergence/__init__.py:189-199 | a checker built with a positive rate starts with one token's worth of head start |
| ShadowChecker.Checker.Allowance | pcomirror/divergence/__init__.py:210-219 | the refill by the time that really passed, capped at a minute's worth, and its whole part |
| ShadowChecker.Checker.RunOnce | pcomirror/divergence/__init__.py:277-298 | at a constant positive rate r a minute since construction, at most 1 + r * T / 60 checks are made in the first T seconds; with a positive rate it checks everything due or has less than a token left |
| ShadowChecker.FirstPassMayBurst | pcomirror/divergence/__init__.py:198-219 | switching the rate on or up later hands out more than the promised one check at first if and only if the rate is at least twice max(1, the rate at construction) |
| Divergence.LaterPagesMisplaceRecords | pcomirror/divergence/rules.py:129-256 | the input, for every offset past the first page and every page size: a record the mirror does hold, one place earlier, is reported as missing from it |
| Divergence.OnlyFirstPagesAreSound | pcomirror/divergence/rules.py:129-256 | so naming a record as missing is right for all results if and only if the pages are first pages |
| Divergence.AnAccusationIsRightUnlessEarlier | pcomirror/divergence/rules.py:129-256 | record by record: on any page an accusation is right if and only if the other side does not return the record on an earlier one |
| Divergence.Resources | pcomirror/divergence/rules.py:89-99 | the index of a document: the last copy in `data` for every key there, the first sideload for any other key, and nothing else |
| Divergence.ComparePage | pcomirror/divergence/rules.py:199-218 | reports the one statement about page membership the windows allow, and nothing else |
| Divergence.OnlyKeepsEveryCopy | pcomirror/divergence/rules.py:199-218 | an id only one side returned is listed as often as that side returned it |
| Divergence.CompareMeta | pcomirror/divergence/rules.py:220-226 | reports exactly the omitted meta keys and differing counts, below the ceiling |
| Divergence.CompareResource | pcomirror/divergence/rules.py:260-298 | within its budget reports exactly the disagreeing attributes and relationships of one record |
| Divergence.CompareShared | pcomirror/divergence/rules.py:228-238 | reports exactly those of every shared record, below the ceiling |
| Divergence.RollCall | pcomirror/divergence/rules.py:153-256 | names exactly the one-sided records no window explains, below the ceiling |
| Divergence.Compare | pcomirror/divergence/rules.py:184-257 | reports only real differences, at most 40, and below that ceiling all of them, against a definition of difference that mentions no order of discovery |
| Divergence.SilentMeansAgreement | pcomirror/divergence/rules.py:184-257 | a comparison is silent if and only if the documents agree: the ceiling never turns a disagreement into a match |
| Divergence.PresenceAloneMeansTheRestAgrees | pcomirror/divergence/rules.py:184-298 | below the ceiling a report is about presence alone if and only if the statuses agree and every shared record is alike on both sides |
| Divergence.FirstPageAccusationsHold | pcomirror/divergence/rules.py:117-181 | on first pages, every record named as missing from `data` is nowhere in the other side's full result, however many pages that has |
| Divergence.ASubsetIsNeverAccused | pcomirror/divergence/rules.py:129-256 | on every page: a mirror whose result is a subset of Planning Center's in the same order is never accused of an extra record |
| Staleness.CheckThenSweep | pcomirror/divergence/rules.py:301-381 | compare, look up, judge and sweep one table, end to end: when the verdict is `staleness`, no shared record is newer upstream and the sweep's requests are answered, every record of that table it was about ends live, except exactly the merged ones |
| Staleness.StoreFacts | pcomirror/divergence/__init__.py:369-411 | exactly the unexplained one-sided records of mirrored types get facts, and they are the store's |
| Staleness.Classify | pcomirror/divergence/rules.py:301-354 | a verdict is `match` if and only if nothing differs, and `staleness` exactly when something does and the mirror is behind on a shared record or only lacks records the sweep will fill |
| Staleness.ConvergesUnlessMerged | pcomirror/divergence/rules.py:357-381 | a record the facts promise to converge, still upstream, is held as complete as it is upstream after the sweep from the stored watermark, and is live if and only if no merge had buried it |
| Staleness.ConvergesExactly | pcomirror/divergence/rules.py:357-381 | the rule promises a record if and only if the mirror does not hold it live, the sweep's filter asks for it, and the write that brings it would revive the row, a merge set aside |
| Staleness.ExtrasAreNotLag | pcomirror/divergence/rules.py:335-354 | a record only the mirror returned, unless it is past the edge of the page, rules a verdict of lag out |
| Staleness.WithoutFactsAbsenceIsLag | pcomirror/divergence/rules.py:335-371 | without facts from the store a report is lag whenever it is about presence alone and only the mirror lacks something |
| Staleness.BehindTheWatermarkIsNeverAsked | pcomirror/divergence/rules.py:372-381 | for a record the mirror lacks the rule says yes exactly when the sweep's filter asks for it |
| MergerPoll.OnlyTheIdIdentifies | pcomirror/webhooks.py:503-520 | a poll and a webhook about the same merge, in either order and on any log that knows neither of its names, apply it once if and only if the webhook carries the merger id |
| MergerPoll.UnnamedMergesAreTheirPeople | pcomirror/webhooks.py:503-520 | two webhooks without ids are applied once if and only if they are about the same two people |
| MergerPoll.EffectsRunOnce | pcomirror/ingest.py:583-624 | over any interleaving of polls, deliveries and redeliveries under one id, a merge's effects run once, plus once for each time the process died before recording it |
| MergerPoll.MergingTwiceIsMergingOnce | pcomirror/ingest.py:595-601 | applying a merge again changes nothing but the time of burial |
| MergerPoll.MergerSync.ApplyMerge | pcomirror/ingest.py:588-602 | an id already recorded changes nothing; a new one buries the removed person, queues the survivor and is recorded |
| MergerPoll.MergerSync.HandleMerge | pcomirror/webhooks.py:503-520 | the webhook goes through the same log, under the merger id or a name made of the two people; the rows and the queue are the old ones rewritten by the effect that ran, if one did |
| MergerPoll.EffectsBury | pcomirror/ingest.py:595-601 | over any sequence of effects exactly the people they remove are buried as merged; every other row is as it was |
| MergerPoll.MergerSync.ApplyPage | pcomirror/ingest.py:585-602 | a page records all its merges and moves the watermark to their newest; the rows and the queue are the old ones rewritten by exactly the effects that ran |
| MergerPoll.AFullPageSpansSeconds | pcomirror/ingest.py:605-610 | when fewer than 100 merges share any second, a full page moves the watermark |
| MergerPoll.MergerSync.Poll | pcomirror/ingest.py:561-614 | every poll terminates, never moves the watermark back, and has recorded every merge from its start to below the watermark; with every request it made answered and fewer than 100 merges in any second, every merge at or after its start, and nothing is stamped past the watermark; the rows and the queue are rewritten by exactly the effects that ran, and every newly recorded merge shows in them: the removed person buried as merged, the survivor queued |
| WalkRound.Walker.FetchChildren | pcomirror/ingest.py:275-304 | the answer is the first that is not a page, and the children before it have been routed, all of them if there is none; no other table is touched |
| WalkRound.Walker.WalkOne | pcomirror/ingest.py:275-314 | after a walk the child rows are those routed with everything unlisted tombstoned; a 404 on any page leads to the parent's own GET and to nothing else, an error on any page to nothing; what it buries comes back on news |
| WalkRound.Walker.WalkParent | pcomirror/ingest.py:262-273 | a parent is recorded as walked unless its walk failed, and after a successful one no live child is unlisted |
| WalkRound.WalkingOneMirrors | pcomirror/ingest.py:275-314 | over a collection whose children name their parent, are listed by no other, and are not older than the mirror: a walk answered to its end leaves no live child of its parent that was not listed and a row for every child that was, and whatever it comes to it keeps that of every other parent |
| WalkRound.ARowAheadComesBack | pcomirror/ingest.py:301-313 | why the mirror must not be ahead: the input, a buried row newer than its tombstone, which the walk of another parent revives under the parent it was pruned from |
| WalkRound.Walker.WalkEach | pcomirror/ingest.py:246-253 | the rows and the walk records are exactly those of walking the picked parents one after the other |
| WalkRound.Walker.WalkRoundStep | pcomirror/ingest.py:214-260 | a step walks exactly the first due parents, as many as the budget allows; it keeps every parent walked since the round began mirrored, and when it records the round complete every live parent whose collection answered is: no live child the remote did not list, a row for every child it did; what it buries comes back on news; it counts the walks that did not fail and is an error if none did not; it records that if and only if every live parent was walked since the round began or its budget is zero, and every other step of a steady round walks at least budget - f more, or all |
| WalkRound.Walker.WalkSteps | pcomirror/ingest.py:214-260 | with n unchanging parents, f < budget of them failing for ever on whatever page, and a clock that never runs back, ceil((n - f) / (budget - f)) steps have walked all the others, and over a collection as above every one of them is mirrored |
| WalkRound.PickDue | pcomirror/ingest.py:238-244 | the picked parents are due and distinct, as many as the budget allows, and come before all that were not picked |
| WalkRound.Walker.PruneStale | pcomirror/ingest.py:305-314 | tombstones exactly this parent's live children that were not seen, so that each comes back with the first newer write |
| WalkRound.WalkingBuriesForNews | pcomirror/ingest.py:275-334 | whatever any number of walks bury -- pruned children, gone parents and their children -- is revived by the first write that is newer than the row |
| WalkRound.GoneParentsComeBack | pcomirror/ingest.py:316-334 | a parent that answered 404 itself is buried with all its children, and all of them come back on news |
| WalkRound.PruningLeavesOnlyTheSeen | pcomirror/ingest.py:305-314 | of this parent's children exactly the live ones that were listed are live afterwards |
| WalkRound.Walker.TombstoneIfAbsent | pcomirror/ingest.py:316-334 | a parent is buried only once it has itself answered 404 |
| WalkRound.AStepWalksTheRest | pcomirror/ingest.py:238-260 | f parents that always fail hold at most f of a step's places: the others lose at least budget - f, or none is left |
| Scheduler.RotationFollowsThePlaces | pcomirror/scheduler.py:189-195 | a rotated ring of some of the declared units lists them in the order of their places, going round from the unit that ran last |
| Scheduler.ATickBringsAReadyUnitNearer | pcomirror/scheduler.py:180-195 | a due and ready unit that is not run is nearer to its turn afterwards, by at least one of the places there are, whatever the ring was |
| Scheduler.EveryReadyUnitRunsBetweenRestarts | pcomirror/scheduler.py:180-195 | with rings that change from tick to tick, each some of n units in their order, one that stays due and ready runs within n * (1 + r) ticks, r being how often the last-run unit had dropped out of the ring |
| Scheduler.NoRestartIsOneRevolution | pcomirror/scheduler.py:180-195 | as long as the last-run unit has not dropped out, that is within n ticks |
| Scheduler.EveryReadyUnitRuns | pcomirror/scheduler.py:180-195 | over an unchanging ring of n units one that stays ready runs within any n consecutive ticks, whatever the others do |
| Scheduler.AChurningRingStarves | pcomirror/scheduler.py:189-195 | the input: two units that take turns at being due drop out after every run, and starve a third for ever |
| Scheduler.ColdLane.RunColdOnce | pcomirror/scheduler.py:133-187 | one tick runs the first ready backfill, else the first ready unit of the rotated ring, and remembers its outcome and its place |
| Scheduler.ColdLane.ColdOutcome | pcomirror/scheduler.py:208-214 | a success forgets the backoff, a failure sets it |
| Scheduler.RotationKeepsTheRing | pcomirror/scheduler.py:189-195 | rotating neither drops nor repeats a unit |
| Scheduler.NextRevolution | pcomirror/scheduler.py:189-195 | running the j-th unit of a revolution starts the next one just past it |
| Scheduler.AllReadyIsOneRevolution | pcomirror/scheduler.py:180-195 | if all stay ready, n consecutive ticks run each exactly once, in the order of the revolution |
| Scheduler.NoRetryBeforeTheBackoff | pcomirror/scheduler.py:205-214 | in any run of the lane a unit that failed is not run again before its backoff is over |
| Scheduler.OnlyItsOwnFailureHoldsItBack | pcomirror/scheduler.py:187-232 | in any run from a fresh lane a unit is ready if and only if its last run did not fail or that is five minutes ago |
| Scheduler.BackfillsGoFirst | pcomirror/scheduler.py:187-232 | the first ready backfill runs before the ring and leaves the ring where it stood |
| Search.NameMatches | pcomirror/db.py:272-295 | the loop decides whether the needle's words prefix the leading words of the haystack |
| Search.SearchClause | pcomirror/serving.py:1199-1244 | builds the disjunction of the arms that have something to look for, and tells a blank needle from one that can match nobody |
| Search.WordsAreInside | pcomirror/db.py:234-242 | every word of a split text is a stretch of it without white space |
| Search.ATokenIsOneWord | pcomirror/db.py:234-242 | normalised text without a blank is one word, and normalising it again changes nothing |
| Search.PrefixOccurs | pcomirror/db.py:272-295 | a single token that prefixes a name's first word occurs in the name |
| Search.NameIsNestedInNameOrEmail | pcomirror/registry.py:193-206 | for every needle and person, a match of `search_name` is a match of `search_name_or_email` |
| Search.NameOrEmailIsNestedInAll | pcomirror/registry.py:193-206 | and that is a match of `search_name_or_email_or_phone_number` |
| Search.OnlyBlanksFilterNothing | pcomirror/serving.py:1219-1244 | under all three a needle filters nothing if and only if it is blank |
| Search.SeveralWordsMatchLikeNames | pcomirror/serving.py:1219-1244 | of two or more words the or-email filter finds exactly whom `search_name` finds and those with a matching address |
| Search.ATokenIsFoundInside | pcomirror/serving.py:1199-1244 | a single token is found by the or-email filter if and only if a name or an address has it anywhere inside |
| Search.APhoneIsFoundByItsEnd | pcomirror/db.py:298-305 | the phone filter finds exactly the people with a number that ends in the digits typed |
| Search.APhoneIsFoundExactly | pcomirror/db.py:308-311 | the exact one exactly those with a number of these digits |
| Search.TheWidestIsTheUnion | pcomirror/registry.py:193-206 | the widest filter finds whom the or-email filter finds or whose number ends in the digits typed, and nobody else |
| Search.WordsBeginWords | pcomirror/db.py:272-295 | a name matches if and only if each word typed begins the word in its place |
| Search.SplittingUndoesJoining | pcomirror/db.py:234-242 | splitting joined words gives the words back: none is lost, made up or moved |
| Search.DigitsAreKeptInOrder | pcomirror/db.py:264-268 | normalising a number keeps its digits in order, however it is written |
| Search.SpacingAndCaseDoNotMatter | pcomirror/db.py:234-242 | needles that differ in spacing and case alone become the same filter |
| Search.ANameInAPhoneSearch | pcomirror/serving.py:1219-1244 | a phone search finds nobody if and only if the needle is something without a digit, and filters nothing if and only if it is blank |
| PcoClient.Request | pcomirror/pcoclient.py:139-207 | which sends are made, in which order, how the call ends and how long it slept in all |
| PcoClient.WritesAreAppliedAtMostOnce | pcomirror/pcoclient.py:139-207 | every send of a write but the last was answered 429, so if that status (section 4 of RFC 6585) means not applied, a call applies a write at most once |
| PcoClient.StopsOnlyWhenItMust | pcomirror/pcoclient.py:139-207 | with the limiter willing, all attempts are used if and only if every answer but the last may be followed by another send |
| PcoClient.SendsAgainExactlyAfter | pcomirror/pcoclient.py:139-207 | a GET is sent again exactly after an exception, a 429, 500, 502, 503 or 504, a write exactly after a 429 |
| PcoClient.PausesDouble | pcomirror/pcoclient.py:160-197 | the pauses double from one second on up to a minute after a refusal and half a minute after a failure; nothing is waited for after an answer that is handed on |
| MutationGuard.MutationGuard.Arm | tools/mutation_guard.py:77-84 | arms, or refuses an operation that is at its limit |
| MutationGuard.MutationGuard.Send | tools/mutation_guard.py:91-115 | forwards exactly reads and admitted writes, and spends the arming before the inner transport can fail |
| MutationGuard.AdmittedWhenArmed | tools/mutation_guard.py:123-200 | an admitted write is the one armed for; a create or a patch of the surname carries the sentinel; a patch or delete addresses the created id |
| MutationGuard.TargetedWritesAddressTheCreated | tools/mutation_guard.py:137-200 | every write but the create addresses the created person and says nothing privileged |
| MutationGuard.AStepStaysCounted | tools/mutation_guard.py:77-115 | every call keeps the limits and one arming for each forwarded write |
| MutationGuard.AStepStaysConfined | tools/mutation_guard.py:91-200 | every call keeps the people that existed before untouched and the sentinel on those made here |
| MutationGuard.EveryRunIsGuarded | tools/mutation_guard.py:77-200 | over any run of armings, sends, refusals and failures at most 1 create, 4 patches, 4 child additions and 1 delete are forwarded, each spending its own arming; every earlier person keeps its surname and every person made here carries the sentinel |
| MutationGuard.ProperWritesGetThrough | tools/mutation_guard.py:77-205 | a request gets through as a write if and only if that write is armed and not used up and the request is a proper one about the created person, said without the guard's own terms |

## Left out

- DeleteAudit.Auditor.DeleteAudit: one table; what its tombstones and confirmed rows cascade to is proved in `Stores`, and sideloaded records of a restore are not routed.
- DeleteAudit.Auditor.RestoreOne: the sideloaded records that come with a restored one are not routed.
- WalkRound.Walker.WalkRoundStep: the collection does not change during a round and nobody else writes the tables between its statements.
- DeleteAudit.Auditor.AuditInSlices: with more than 500 rows missing, which of them end filled is not stated, only that nothing else changed.
- DeleteAudit.Auditor.ConfirmOne: the second save of an unchanged state at the end of a phase is not a separate statement, because it changes nothing.
- KeysetSync.Ingestor.DrainSecond: the drained second keeps one order and content while it is drained, because offset paging is not complete otherwise.
- Staleness.CheckThenSweep: one table is swept at a time; what a page says of other tables is about their own sweeps.
- KeysetSync.Ingestor.Backfill: the resources without an `updated_at` filter, which are paged by offset or listed and replaced, and the count of applied records.
- KeysetSync.Ingestor.IncrementalSweep: the descending sweep and the comparison of a person's includes after each page.
- RateLimiter.Limiter.Acquire: a call without a deadline is watched for a number of turns, since it may wait for ever; other callers during the wait are covered by the trace theorems, not by this method.
- RateLimiter.Limiter.OnResponse: takes parsed header values; the parsing of headers and periods is not modelled.
- MergerPoll.MergerSync.Poll: a hundred merges in one second leave the rest of that second unapplied, as in the original.
- ShadowChecker.Checker.RunOnce: which samples are due and what a check does; a pass with an explicit limit.
- Divergence.Compare: a document whose `data` is one object is a list of one, items without an id are absent, attribute values are texts or timestamps, and records are visited in no particular order.
- Scheduler.ColdLane.RunColdOnce: how the ring of due audits and walks is put together is a parameter of the tick.
- Search.SearchClause: the SQL around the terms; white space, digits and lower-casing are parameters (`Search.Sane`), the last idempotent and adding no white space.
- PcoClient.Request: the limiter is a yes or a refusal for each send; the recorder and the headers of a request.
- MutationGuard.MutationGuard.Send: takes the path as its segments and the body as what the guard reads of it; the parsing of URLs and JSON, and the log of responses.
- Writer.CanonicalWriter.Upsert: the bookkeeping columns (first seen, last synced, source, API version) and the typed projection of field data.
- Writer.CanonicalWriter.Route: the owner hint and the removal of synthesized relationships, which edit the payload before it is written.
- Hydration, the repair passes, the drift probe, reference list-and-replace, the audit and sweep requests between processes.
- Webhook retries and dead letters, subscriptions, signature checks, admin pages, sessions, API keys, cross-origin rules, the container entry point.
- Serving: includes, pagination links and order clauses; trimming of the shadow corpus.
- SQLite itself, JSON text, schema generation and migration: tables are maps and payloads are values.
