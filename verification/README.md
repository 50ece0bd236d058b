# Verification of the crawl frontier

A Dafny model of a crawler's durable job queue and of its backup. The queue (the *frontier*) lives in
Redis and is changed only by twelve Lua scripts and one `ZADD NX`; workers, a promoter, a reaper, a sweeper
and a listing scheduler call them in any order. A second component copies the per-URL facts to Mongo and
rebuilds the frontier after data loss. A worker loop supplies what the queue relies on.

| file | content |
|---|---|
| `Keyspace.dfy` | the Redis keyspace as a value, single write commands, runs and prefixes of write lists |
| `Scripts.dfy` | each script as the list of writes it issues, its reply, and how the crawler uses it |
| `Discipline.dfy`, `CrashSafety.dfy`, `CrashRuns.dfy` | scripts that may stop after any write: the rule, every script obeys it, whole runs |
| `Effects.dfy`, `Exactness.dfy`, `Frames.dfy`, `Stranding.dfy`, `Runs.dfy` | scripts that complete: net effects, the exact invariant, frames, listings discarded by an Ack, whole runs |
| `Deadlines.dfy`, `Counters.dfy`, `Recovery.dfy` | times, counters and convergence over runs |
| `Laws.dfy`, `Answers.dfy` | what each call promises, written out on the keyspace and the configuration; what callers are told over runs |
| `Frontier.dfy` | the frontier as an object whose methods perform the scripts in place |
| `Codec.dfy`, `Documents.dfy` | the string forms in Redis, the stored documents in Mongo |
| `CrawlState.dfy`, `Store.dfy`, `RoundTrip.dfy` | rows, restore commands, the store as an object, the round trip |
| `Persistence.dfy`, `Meaning.dfy` | checkpoint and restore as a step machine with Redis restarts and crawler crashes, and what its states mean for the facts |
| `Worker.dfy`, `Pages.dfy` | the worker loop; what its log shows, and what each page does to its URL |
| `Children.dfy`, `Videos.dfy` | child admission, the Bloom reconcile |

`dafny verify dfyconfig.toml` checks the whole project.

## Two views of a script

A script is a function from a state to a list of writes. Redis does not roll back, so an aborted script is a
prefix of that list: the crash theorems quantify over all prefixes, the exactness theorems over complete
lists. Methods of `RedisFrontier` change concrete sequences and maps command by command and are proved to end
in the state that the list gives. Clock readings, answers of the Bloom filter and the order among equal
scores are parameters; successive clock readings may go back.

## Assumptions made explicit

`Config.Valid`: at least one strike, nonempty ladders, positive intervals and quarantine, batch limit at
least 1. With an empty ladder luaFail would use its dead-until argument as a delay
(internal/storage/frontier.go:329-332), and with a limit of 0 the drain loop never ends. `Config.ClockOk`: due
times stay below PENDING. `Scripts.Enabled`: URLs are routed by their class, and `BF.ADD` answers 1 only for a
URL the filter did not know (it may answer 0 for one it did not know either).

## What the proofs turned up

- The worker acknowledges any job whose URL no longer canonicalises (internal/crawler/worker.go:432-433), and
  luaAck does not release PENDING. A listing acknowledged this way stays PENDING without a job as long as Redis
  keeps its data (`Stranding.StrandedForever`); a cold restore makes it due again. `Runs.AckKeepsPendingIff`
  gives the exact condition, `Runs.AckStrandsExample` a run. All theorems about runs allow such
  acknowledgements: PENDING is exact up to the listings discarded by them (`Runs.TracePending`).
- The restore checks marker, work and process identity before each write, not together with it. If Redis
  restarts from an older snapshot in between, the complete marker can land on half-restored data; the
  identity check stops that crawler, but the next one preserves the data and checkpoints store it
  (`Persistence.TornSavedExample`). Half-restored data stays marked and unsaved exactly as long as every write
  is safe (`Persistence.AlwaysSteadyIff`): batches go onto marked data, the complete marker onto whole data.
  Whether data is whole is not recorded in Redis; the weakest test that can be made on what is recorded is
  `Persistence.Testable` (`TestableIsSafe`, `TestableIsWeakest`). An unsafe write whose data the next startup
  preserves does get stored in some continuation (`Persistence.UnsafeIsSaved`). What the identity checks
  guarantee in every run is `Persistence.RowsAreTrusted`.
- Identity is not checked with the restoring marker, nor by workers: after a restart from an older snapshot the
  marker can land on a live frontier, and running workers can write into a half-restored one. A restore that
  resumes there merges its rows into what it finds. Without such events intact data is exactly a restored
  collection (`Meaning.IntactIsRestored`); in the recorded process they cannot occur (`Meaning.SameIsClean`).
- An AdmitVideo that stops between LPUSH and BF.ADD can lead to a stored video that is outside the filter and is
  admitted as New again (`Videos.StoredThenNew`); nothing else can (`Videos.StoredOutsideIff`).
- The comment at internal/storage/frontier.go:430-431 says that URLs never contain '|'. Listing queries are
  copied verbatim (internal/crawler/crawler.go:138-140), so they can; splitting members is exact all the same
  (`Codec.SplitExact`), but a checkpoint pass that scans such a URL fails (`Store.CrawlStateStore.Checkpoint`).
- A restore writes a barren count of 0 for a dead video, which the frontier itself never does. It is harmless:
  the invariant only asks that a video's count, if present, be 0.

## Model

| member | source | states |
|---|---|---|
| `Frontier.RedisFrontier.Lease` | internal/storage/frontier.go:185-192 | Answers nil exactly when ready is empty; otherwise the job answered is the rightmost one of ready, which moves to the left of processing and is leased until now + leaseTimeout. |
| `Frontier.RedisFrontier.AdmitVideo` | internal/storage/frontier.go:194-215 | Dead check, enqueue, Bloom claim and exact rollback, for either answer of the filter (a false positive included). |
| `Frontier.RedisFrontier.ClaimOrRollback` | internal/storage/frontier.go:207-214 | A duplicate admission leaves ready exactly as it was and moves only the job counter and the filter. |
| `Frontier.RedisFrontier.AdmitListing` | internal/storage/frontier.go:217-233 | New and DueRevisit put one fresh job of the listing into ready, New exactly when the frontier had no due time for it; Suppressed changes neither ready nor a due time. |
| `Frontier.RedisFrontier.SeedListing` | internal/storage/frontier.go:490-492 | ZADD NX with score 0: an already scheduled listing is left alone. |
| `Frontier.RedisFrontier.RunListingScheduler` | internal/storage/frontier.go:235-263 | The loop over one page of due listings ends in the state and count of the script, for some answer ZRANGEBYSCORE may give. |
| `Frontier.RedisFrontier.ScheduleOne` | internal/storage/frontier.go:241-261 | One due listing: dropped from the schedule, pushed back, or admitted; counted exactly when not blocked. |
| `Frontier.RedisFrontier.Ack` | internal/storage/frontier.go:265-273 | STALE without a lease; otherwise lease, processing entry and failure counters go. |
| `Frontier.RedisFrontier.CompleteListing` | internal/storage/frontier.go:275-295 | STALE, or barren count, due time, dead entry, processing entry and counters in the script's order. |
| `Frontier.RedisFrontier.Nack` | internal/storage/frontier.go:297-304 | STALE, or a fresh job for the URL in ready in place of the leased one. |
| `Frontier.RedisFrontier.Fail` | internal/storage/frontier.go:306-335 | STALE, death on the last strike, or a fresh delayed job at the ladder's entry. |
| `Frontier.RedisFrontier.Terminal` | internal/storage/frontier.go:337-349 | STALE, or due time (quarantine only), dead entry, then removal of the job. |
| `Frontier.RedisFrontier.Promote` | internal/storage/frontier.go:351-361 | For some answer of ZRANGEBYSCORE: each job in it leaves delayed and a fresh one of its URL enters ready, in order; other delayed jobs keep their times and nothing else changes. |
| `Frontier.RedisFrontier.Reap` | internal/storage/frontier.go:363-377 | The loop over expired leases equals the script; the count is that of leases actually claimed. |
| `Frontier.RedisFrontier.Sweep` | internal/storage/frontier.go:379-393 | The loop over the oldest processing entries requeues those without a lease and counts them. |
| `Frontier.RangeByScore` | internal/storage/frontier.go:239-239 | A range answer: the least scores up to the bound, ascending, distinct, as many as the limit allows. |
| `Frontier.RedisFrontier.DrainListings` | internal/scheduler/scheduler.go:104-121 | Whatever the clock reads at each page, the drain loop ends, no listing is due at the last reading, and the total admitted is the number of listings that became PENDING; at a constant clock that is the number that was due. |
| `Recovery.ScheduleProgress` | internal/storage/frontier.go:235-263 | On a reachable state one scheduler call admits exactly min(limit, due) listings, and exactly those stop being due. |
| `Recovery.ScheduleWaits` | internal/storage/frontier.go:235-263 | Whatever the clock, each admission takes one listing from those that are not PENDING. |
| `Laws.LeaseLaw` | internal/storage/frontier.go:185-192 | The answer is nil if and only if ready is empty; otherwise it is the job that left ready on the right, entered processing on the left and is leased for leaseTimeout. |
| `Laws.LeasedJob` | internal/storage/frontier.go:185-192 | The job answered is the oldest one ready, waits no more, was held by nobody, and no other lease changes. |
| `Laws.AdmitVideoLaw` | internal/storage/frontier.go:194-215 | New exactly for a URL that no dead entry blocks and the filter did not have; state spelled out for blocked, new and duplicate. |
| `Laws.AdmitListingLaw` | internal/storage/frontier.go:217-233 | New exactly for a listing without a due time, DueRevisit exactly when its due time has come, Suppressed for any other or a blocked one; the state of each case. |
| `Laws.AdmittedCounts` | internal/storage/frontier.go:217-233 | The reply is not Suppressed exactly when ready gains one job of the URL. |
| `Laws.SeededIsDue` | internal/storage/frontier.go:490-492 | A seed the frontier did not know is due at once, and its next admission is answered DueRevisit. |
| `Laws.ScheduleLaw` | internal/storage/frontier.go:235-263 | Of a page of due listings exactly the unblocked ones gain a job, become PENDING and lose their dead entry, a quarantined one gets the end of its quarantine, one dead for good leaves the schedule; the answer counts the unblocked. |
| `Laws.StaleLaw` | internal/storage/frontier.go:265-349 | A resolution is answered STALE, and changes nothing, exactly when its job has no lease. |
| `Laws.AckLaw` | internal/storage/frontier.go:265-273 | The lease, the processing entry, attempts and strikes go, and nothing else changes. |
| `Laws.CompleteLaw` | internal/storage/frontier.go:275-295 | Barren is 0 after New children and one more otherwise; the due time is now + min(base of the class * 2^barren, max); lease, entry, counters and dead entry go. |
| `Laws.NackLaw` | internal/storage/frontier.go:297-304 | The leased job gives way to a fresh one of its URL in ready; counters and due times stay. |
| `Laws.DiedIff` | internal/storage/frontier.go:312-318 | DEAD is answered exactly for a strikeable failure of a leased job whose URL now has maxStrikes strikes. |
| `Laws.DeathLaw` | internal/storage/frontier.go:318-327 | The dead entry ends with the quarantine, or never for a video; a listing is next due at that end; counters, lease and entry go. |
| `Laws.DelayLaw` | internal/storage/frontier.go:310-334 | One more attempt, and one more strike if strikeable; a fresh job is delayed by exactly the entry of strikeBackoff or rateLimitBackoff for this attempt. |
| `Laws.TerminalLaw` | internal/storage/frontier.go:337-349 | The URL is dead with the reason given, until the end of its quarantine or for good; lease, entry and counters go. |
| `Laws.PromoteLaw` | internal/storage/frontier.go:351-361 | Each due job gives way to a fresh one of its URL in ready, in order; other delayed jobs keep their times; nothing else changes. |
| `Laws.PromoteCounts` | internal/storage/frontier.go:351-361 | From any crash state, ready has gained as many jobs of each URL as there were in the range. |
| `Laws.PromotionConverges` | internal/storage/frontier.go:351-361 | From any crash state, ceil(due / 100) promotions at one clock leave no delayed job due, keep the others with their times, and give each URL as many more ready jobs as it had due ones. |
| `Laws.ReapLaw` | internal/storage/frontier.go:363-377 | Each expired lease of the range goes and its job gives way to a fresh one of its URL in ready; other leases and entries stay. |
| `Laws.SweepLaw` | internal/storage/frontier.go:379-393 | Each of the 100 oldest processing entries without a lease, and no other, gives way to a fresh job of its URL in ready. |
| `Scripts.Pow2Law` | internal/storage/frontier.go:287-287 | The power by which the interval grows: 2 for one barren visit, multiplied over visits. |
| `Answers.HandedOut` | internal/storage/frontier.go:185-192 | In runs with cut scripts: the job answered by a Lease that completes is the one it took, is ready no more and is leased for leaseTimeout. |
| `Answers.HandedOutInOrder` | internal/storage/frontier.go:30-33 | The jobs that Lease answers have strictly increasing IDs. |
| `Answers.HandedOutInTurn` | internal/storage/frontier.go:185-192 | First in, first out for answers: once k jobs have been taken, a completed Lease answers the job that had k before it. |
| `Answers.ReadyIsTaken` | internal/storage/frontier.go:185-192 | A job in ready is taken by the time as many have been taken as were ready, and answered if that Lease completes. |
| `Answers.FailedIsLeasedAgain` | internal/storage/frontier.go:351-361 | Once a completed promotion has found a failed job due, a fresh job of its URL is taken by the time as many jobs have been taken as were then ready. |
| `Answers.NewOnce` | internal/storage/frontier.go:217-233 | In runs with cut scripts AdmitListing answers New at most once per listing, and never after it was seeded, enqueued, completed or quarantined. |
| `Answers.ThenRevisits` | internal/storage/frontier.go:217-233 | Once the frontier has a due time for a listing, each admission that enqueues it is answered DueRevisit. |
| `CrashSafety.ScriptSafe` | internal/storage/frontier.go:181-393 | Every write of every script obeys the destination-first rule in the state it is issued in. |
| `Discipline.SafePrefix` | internal/storage/frontier.go:181-182 | Obeying that rule is enough: any prefix keeps consistency, never reuses an ID, and loses no URL. |
| `CrashSafety.CrashSafe` | internal/storage/frontier.go:181-393 | Any script stopped after any prefix of its writes: leases lie inside processing, IDs are distinct and fresh, a URL loses its last job only to an Ack or after its due time or dead entry was written, and only the Ack of a listing leaves a PENDING mark without a job. |
| `CrashRuns.RunConsistent` | internal/storage/frontier.go:181-393 | The same in every state of every run in which any scripts interleave and stop anywhere. |
| `CrashRuns.NeverLost` | internal/storage/frontier.go:181-182 | Over such a run a URL the frontier knows stays live, dead or scheduled until a leased job of it is acknowledged. |
| `CrashRuns.PendingIsLive` | internal/storage/frontier.go:47-49 | Over such a run every PENDING listing has a live job, unless it had none at first or a leased job of it was acknowledged. |
| `CrashRuns.LeaseOrder` | internal/storage/frontier.go:30-33 | IDs taken by Lease strictly increase over any run; no ID is leased twice. |
| `CrashRuns.FirstInFirstOut` | internal/storage/frontier.go:185-192 | A job with k others before it in ready is the (k+1)-th taken, whatever interleaves. |
| `CrashRuns.ClaimedOnce` | internal/storage/frontier.go:30-33 | Once any call has taken a job's lease away, the job is never leased and its lease never claimed again. |
| `CrashRuns.EndsOnce` | internal/storage/frontier.go:30-33 | A job leaves the queues at most once, by whichever call comes first, Sweep included, and is in none of them again. |
| `Runs.AtMostOneEffect` | internal/storage/frontier.go:265-393 | Over completed scripts at most one resolution, reap or sweep takes effect on a job, and it is never a sweep. |
| `CrashRuns.ResolutionClaims` | internal/storage/frontier.go:265-349 | A resolution that gets past its first write has claimed the lease, wherever it stops. |
| `CrashRuns.StaleIsNoop` | internal/storage/frontier.go:268-268 | A resolution without a live lease answers STALE, issues no write and changes nothing. |
| `Exactness.EmptyExact` | internal/storage/frontier.go:421-428 | The empty frontier satisfies the exact invariant, so runs may start from it. |
| `Exactness.StepExact` | internal/storage/frontier.go:185-393 | Every completed script, the Ack of a listing included, keeps the exact invariant: one live job per URL, a live listing PENDING and a live video claimed, dead and live exclusive, quarantined listings neither PENDING nor due early, failure counters in bounds. |
| `Runs.TraceExact` | internal/storage/frontier.go:47-49 | The exact invariant in every state of every run of completed scripts. |
| `Runs.TracePending` | internal/storage/frontier.go:47-49 | In every reachable state a listing is PENDING if and only if it has a live job or was discarded (acknowledged while leased, or without a job from the start), and never both. |
| `Runs.PendingCount` | internal/storage/frontier.go:47-49 | In every reachable state a listing has exactly one job across ready, processing and delayed if it is PENDING and was not discarded by an Ack, and none otherwise. |
| `Runs.OneLeasePerUrl` | internal/storage/frontier.go:30-33 | Two live leases never concern the same URL. |
| `Runs.IdleNothingPending` | internal/storage/frontier.go:648-654 | When the queues are empty no listing is PENDING except one acknowledged as a listing, even after scripts were cut short. |
| `Runs.AckKeepsPendingIff` | internal/crawler/worker.go:432-436 | Acknowledging a job keeps a job behind every PENDING mark if and only if the job is a video's or its lease is gone. |
| `Runs.AckStrandsExample` | internal/crawler/worker.go:432-436 | A listing admitted, leased and acknowledged is PENDING with every queue empty. |
| `Stranding.StrandedForever` | internal/storage/frontier.go:265-273 | A PENDING listing without a job stays so through every run, cut scripts included: no admission, schedule, lease or resolution reaches it while Redis keeps its data. |
| `Exactness.ScheduleExact` | internal/storage/frontier.go:241-261 | On an exact state no due listing is blocked; each one gets its job and its PENDING mark. |
| `Effects.FreshVideoRun` | internal/storage/frontier.go:207-214 | The enqueue, claim and rollback writes of a video admission have the net effect of an admission, or of a counter step alone. |
| `Frames.CallFrame` | internal/storage/frontier.go:185-393 | A call changes neither jobs nor facts of a URL it is not about. |
| `Frames.CutFrame` | internal/storage/frontier.go:185-393 | The same for a call that stops after any of its writes. |
| `Deadlines.HoldIsLowerBound` | internal/storage/frontier.go:275-361 | After a delayed Fail, a completion or a quarantine that names time t, no job of the URL is leased until some admission, scheduler or promoter call about that URL has read a clock of at least t. |
| `Deadlines.CallHolds` | internal/storage/frontier.go:275-349 | Right after such a call the URL has no job a worker could lease and none due before t. |
| `Deadlines.DeadVideoStaysDead` | internal/storage/frontier.go:194-205 | A dead video has no live job in that state or any later one. |
| `Counters.CountsSinceReset` | internal/storage/frontier.go:265-335 | In every run stored attempts and strikes are the numbers of failures and strikeable failures of the URL since its last Ack, completion, terminal page or death, counted on from the start of the run if there was none. |
| `Counters.BarrenSinceFruit` | internal/storage/frontier.go:280-286 | The stored barren count is the number of completions without New children since the last one with some. |
| `Counters.StrikeAccounting` | internal/storage/frontier.go:312-332 | With r the position after the last reset: strikes <= attempts, strikes < MaxStrikes, death exactly on the MaxStrikes-th strikeable failure since r, and a ladder index in range that counts all failures since r. |
| `Counters.RevisitTtl` | internal/storage/frontier.go:280-289 | After a completion the due time is now + min(base * 2^b, max), b the number of barren completions since the last fruitful one, and lies strictly between now and PENDING. |
| `Scripts.DoubledIsPower` | internal/storage/frontier.go:287-287 | Doubling once per barren visit multiplies the base by a power of two. |
| `Counters.TtlMonotone` | internal/storage/frontier.go:287-288 | More barren visits never shorten the interval, and at the cap it stays there. |
| `Recovery.MovesConserve` | internal/storage/frontier.go:185-393 | Lease, Nack, a delayed Fail, Promote, Reap and Sweep keep the number of live jobs of every URL, even from crash states. |
| `Recovery.TicksConverge` | internal/storage/frontier.go:363-377 | Reaps and sweeps in any order, all leases expired: k reaps leave max(0, leases - 100k) leases; without leases, k sweeps leave max(0, entries - 100k) processing entries; no work is lost. |
| `Recovery.RecoveryConverges` | internal/storage/frontier.go:363-393 | From any crash state with expired leases, reaper and sweeper ticking in any order: once enough reaps and, after them, enough sweeps are among the ticks, processing and leases are empty and each URL's processing jobs have become ready jobs. |
| `Codec.SplitExact` | internal/storage/frontier.go:430-438 | Splitting a member at its first separator gives back ID and URL for every URL, even one that contains the separator. |
| `Codec.DigitsLaw` | internal/storage/frontier.go:207-207 | Job IDs in members are decimal, without leading zeros, as INCR gives them. |
| `Codec.MemberInjective` | internal/storage/frontier.go:30-33 | Two jobs share a member string only if they are the same job. |
| `Codec.DeadRoundTrip` | internal/storage/crawl_state.go:236-243 | A dead entry reads back as written if and only if its reason lacks the separator and its expiry fits in 64 bits; any other is refused. |
| `CrawlState.TupleReadBack` | internal/storage/crawl_state.go:219-249 | Parsing and validating the stored strings of a URL accepts exactly the valid tuples and reads them back exactly. |
| `Documents.ValidateFields` | internal/storage/crawl_state.go:308-328 | Accepts exactly the documents that have every named field once and no other, for names without repeats. |
| `Documents.Decode` | internal/storage/crawl_state.go:277-306 | Fields, wire types and values are checked as the strict decoder does; the result is the row or nothing. |
| `Documents.RowReadBack` | internal/storage/crawl_state.go:36-42 | A stored row decodes to itself if and only if it is valid, and is refused otherwise. |
| `Documents.DecodedFields` | internal/storage/crawl_state.go:274-306 | Whatever decodes has exactly the row's own fields with their exact types and values. |
| `CrawlState.RestoreAt` | internal/storage/crawl_state_restore.go:236-270 | A URL with a row ends as the row and its batch's clock say, whatever was there before. |
| `CrawlState.RestoredLaw` | internal/storage/crawl_state_restore.go:236-270 | In the structures themselves: expired quarantines are dropped and other dead entries kept; death for good drops the schedule; otherwise the row's due time, 0 for PENDING, pushed to the end of a running quarantine; barren kept. |
| `CrawlState.TupleAccepted` | internal/storage/crawl_state.go:219-272 | A stored tuple is accepted if and only if its URL parses and contains none of the five forbidden characters, its due time is at most PENDING, and its dead entry is in order. |
| `CrawlState.RestoreElsewhere` | internal/storage/crawl_state_restore.go:236-270 | A URL without a row keeps what it had. |
| `CrawlState.CrashResume` | internal/storage/crawl_state_restore.go:202-206 | Any number of attempts in which any subset of commands took effect, then one that completes: the result is that of the completed one alone. |
| `Store.LoadIsSafe` | internal/storage/crawl_state_restore.go:104-120 | A fresh load happens exactly on an empty keyspace, a resumed one exactly on a marked keyspace without work. |
| `Store.DecisionLaw` | internal/storage/crawl_state_restore.go:104-120 | Refused exactly: a foreign marker, an unfinished restore with work, or no schedule and work, or barren counts or dead entries without a complete marker. Anything with a schedule is preserved. |
| `Store.CrawlStateStore.PipeRow` | internal/storage/crawl_state_restore.go:239-269 | The three commands of one row: PENDING becomes 0, a permanent death drops the schedule, an expired quarantine is dropped, a running one pushes the due time back. |
| `Store.CrawlStateStore.Barrier` | internal/storage/crawl_state_restore.go:216-228 | Passes only with the restoring marker and no work. |
| `Store.CrawlStateStore.RestoreBatch` | internal/storage/crawl_state_restore.go:230-281 | Success performs all commands of the batch under one clock; failure performs an arbitrary part; nothing is written without the barrier. |
| `Store.CrawlStateStore.LoadBatches` | internal/storage/crawl_state_restore.go:137-180 | The cursor loop: acknowledged batches restored in order, fewer than 100 rows buffered, the marker set before the first write. |
| `Store.CrawlStateStore.LoadRows` | internal/storage/crawl_state_restore.go:137-198 | Success restores every document; failure leaves a part of them and the marker. |
| `Store.CrawlStateStore.Finish` | internal/storage/crawl_state_restore.go:199-212 | The complete marker is written only behind the barrier. |
| `Store.CrawlStateStore.Restore` | internal/storage/crawl_state_restore.go:95-214 | Whatever operation fails: facts change only on a load decision and only under the marker; the marker says complete only over fully restored facts; startupComplete exactly on success. Without a failure: a frontier with a schedule is preserved untouched whatever its queues hold; Failed exactly for the unsafe keyspaces, an invalid document, or an empty collection while resuming; empty on empty ends Empty. |
| `RoundTrip.ResumeEquivalence` | internal/storage/crawl_state_restore.go:95-214 | Failed restores of one collection followed by a completed one equal the completed one on the first state with its own clocks. |
| `Store.CrawlStateStore.Dedupe` | internal/storage/crawl_state.go:149-158 | At most 100 distinct URLs, exactly the members of the slice. |
| `Store.ScanMember` | internal/storage/crawl_state.go:149-158 | Every entry at an even position of a scan reply is one of its members. |
| `Store.MemberScanned` | internal/storage/crawl_state.go:149-158 | Every member of a scan reply is the entry at some even position. |
| `Store.CrawlStateStore.ReadRecords` | internal/storage/crawl_state.go:189-250 | One tuple for each URL in order, parsed from the stored strings and validated, or nothing. |
| `Store.CrawlStateStore.BulkWrite` | internal/storage/crawl_state.go:164-178 | Replaces the documents of the URLs in order; a failure stops after some of them. |
| `Store.CrawlStateStore.SavePage` | internal/storage/crawl_state.go:144-180 | A reply of even length is saved batch by batch; success exactly when every tuple is valid. |
| `Store.CrawlStateStore.Checkpoint` | internal/storage/crawl_state.go:120-187 | Only after a successful Restore; each stored document is the valid tuple of a scanned URL and nothing else changes; success means all were stored, and fails only for a fault, an odd reply or an invalid tuple. |
| `RoundTrip.ReadRowValid` | internal/storage/crawl_state.go:219-272 | The tuple of a reachable frontier is valid if and only if its URL is. |
| `RoundTrip.FullScan` | internal/storage/crawl_state.go:127-184 | Scans that return every member of the three structures cover every URL of the facts. |
| `RoundTrip.CheckpointSnapshot` | internal/storage/crawl_state.go:120-187 | A full checkpoint into an empty collection decodes to one row for each URL, equal to the tuple. |
| `RoundTrip.RoundTripFacts` | internal/storage/crawl_state_restore.go:236-270 | After checkpoint and cold restore every schedule is kept except PENDING becoming 0, every barren count is kept, and a dead entry goes exactly when its quarantine had ended. |
| `RoundTrip.RoundTripExact` | internal/storage/crawl_state_restore.go:92-94 | The restored frontier satisfies the exact invariant and no listing in it is PENDING. |
| `RoundTrip.RoundTripAnswers` | internal/storage/frontier.go:217-233 | A listing answers AdmitListing at any later clock as before if and only if it was not PENDING. |
| `RoundTrip.CheckpointThenRestore` | internal/storage/crawl_state_restore.go:95-214 | The whole trip through documents and cursor, from any exact state with valid URLs. |
| `Persistence.StartSane` | internal/storage/crawl_state.go:61-83 | Both invariants of the step machine hold before the first crawler starts, for any collection. |
| `Persistence.RowsAreTrusted` | internal/storage/crawl_state.go:103-187 | Over every run with crashes, restarts from any snapshot and failing operations: each stored row was read from the process the store recorded, in which a Restore succeeded, while its marker was not restoring. |
| `Persistence.NextSteadyIff` | internal/storage/crawl_state_restore.go:216-281 | One event keeps half-restored data marked and unsaved if and only if it is not a write onto data that fails the write's condition. |
| `Persistence.AlwaysSteadyIff` | internal/storage/crawl_state_restore.go:95-281 | Over whole runs with crashes and restarts the invariant holds throughout if and only if every write of a restore is safe. |
| `Persistence.TornNeverSaved` | internal/storage/crawl_state_restore.go:95-281 | If every write of a restore that takes effect is safe, half-restored data always carries the marker, in Redis and in snapshots, and is never stored. |
| `Persistence.TestableIsSafe` | internal/storage/crawl_state_restore.go:199-206 | A write is safe whenever the process is the recorded one or unmarked (complete marker), or the data is marked (batch): what a check made with the write could test. |
| `Persistence.TestableIsWeakest` | internal/storage/crawl_state_restore.go:199-206 | No weaker test of what Redis shows will do: a state that fails it looks like one in which the write is unsafe. |
| `Persistence.TestableNeverSaved` | internal/storage/crawl_state_restore.go:95-281 | A run that meets that test at every write has only safe writes. |
| `Persistence.PreservedIsSaved` | internal/storage/crawl_state_restore.go:108-116 | From any state with half-restored data that the startup decision preserves, a continuation stores it. |
| `Persistence.UnsafeIsSaved` | internal/storage/crawl_state_restore.go:199-214 | From any unsafe write after which the decision is to preserve, a continuation stores half-restored data. |
| `Persistence.TornSavedExample` | internal/storage/crawl_state_restore.go:199-214 | For any collection of two batches whose first row has a schedule, a run from an empty Redis in which Redis restarts between the last barrier and the complete marker, and half-restored data is preserved and stored. |
| `Meaning.NextProgress` | internal/storage/crawl_state_restore.go:230-281 | One more batch on marked data: as many batches of the collection are restored as the step machine says, and after the last one all of it. |
| `Meaning.StartMeant` | internal/storage/crawl_state.go:61-83 | The invariant about the facts holds before the first crawler starts, for any collection. |
| `Meaning.IntactIsRestored` | internal/storage/crawl_state_restore.go:95-281 | Over every run in which only restores touch marked data, marked data that counts as intact is a complete restore of one collection into an empty keyspace, in Redis and in every snapshot. |
| `Meaning.SameIsClean` | internal/storage/crawl_state_restore.go:95-214 | In the recorded process nothing but a restore touches marked data, and a restore begins on an empty keyspace. |
| `Meaning.CompleteIsWhole` | internal/storage/crawl_state_restore.go:199-206 | In the recorded process the complete marker goes onto exactly the collection restored into an empty keyspace. |
| `Meaning.FullRestoreIsRestore` | internal/storage/crawl_state_restore.go:236-270 | Facts in which every row is restored under some clock and nothing else occurs are what one restore into an empty keyspace leaves. |
| `Worker.WorkerFailures.Observe` | internal/crawler/worker.go:352-377 | The counters after each kind of outcome, spelled out; they are those of the history, and stay ordered. |
| `Worker.EffectiveLaw` | internal/crawler/worker.go:353-363 | The history without cancellations: what is left of a whole is what is left of its parts. |
| `Worker.TallyMeaning` | internal/crawler/worker.go:352-377 | In every history, cancellations aside: consecutive is the length of the longest failure run it ends with, rateLimited the rate-limited ones in that run, consecutiveRateLimited the length of the longest rate-limited run it ends with. |
| `Worker.TallyOrdered` | internal/crawler/worker.go:344-350 | consecutiveRateLimited <= rateLimited <= consecutive in every history. |
| `Worker.Crawler.HandleOutcome` | internal/crawler/worker.go:284-333 | The log grows by the work the page calls for and one resolution; a video is counted, and listed as a target, exactly when stored. Pages.PageLaw says which work and which resolution. |
| `Worker.Crawler.EnqueueChildren` | internal/crawler/worker.go:131-143 | The log grows by the admissions of the canonical links, up to the first that fails; if none fails the number of New replies is returned. |
| `Worker.Crawler.TakeTurn` | internal/crawler/worker.go:421-483 | One Lease call, and for a leased job its work and resolution, also when excluded or when the limiter is cut short; which turns make the worker leave. |
| `Worker.Crawler.Loop` | internal/crawler/worker.go:416-485 | All turns are taken unless one is cancelled or finds the limit reached, a wait is cut short, the site closes, or the last five outcomes that were not cancelled are rate limits; each exit exactly then. The log keeps the lease discipline and is that of the turns taken; so are videos and targets counted. |
| `Worker.ExactlyOneResolution` | internal/crawler/worker.go:421-459 | In a log that keeps the discipline each job taken has one resolution, before anything else is asked for, and no second one unless the job is taken again. |
| `Worker.ResolvedAgain` | internal/crawler/worker.go:421-459 | Between two resolutions the job of the second was taken. |
| `Worker.ResolutionEnabled` | internal/crawler/worker.go:284-333 | Each resolution is one the run theorems allow, and a listing is acknowledged only if its URL is excluded. |
| `Pages.AdmissionAt` | internal/crawler/worker.go:131-143 | The admission of a link comes right after those of the links before it. |
| `Pages.AdmissionCount` | internal/crawler/worker.go:131-143 | There are exactly as many admissions as links that canonicalise to something. |
| `Pages.TriedLaw` | internal/crawler/worker.go:131-143 | All links are tried unless an admission fails; then those up to the first that does. |
| `Pages.PageLaw` | internal/crawler/worker.go:284-333 | Work and resolution of each kind of page: an invalid one fails as rate limited, an unknown one as strikeable, a cancelled one is given back, a video is written first and acknowledged only with all links admitted. |
| `Pages.LogShows` | internal/crawler/worker.go:416-459 | In the log of any turns, between a Take and an Ack of a URL that is not excluded: the Upsert and then the admissions of all canonical links in order; before a completion all admissions, with the number answered New; before a failure or terminal page nothing. |
| `Pages.OnlyPenalties` | internal/storage/frontier.go:306-349 | Of all calls only a terminal page or a strikeable failure, with the lease of a job of the URL, buries a URL or adds to its strikes. |
| `Pages.OnlyHarshPages` | internal/crawler/worker.go:302-332 | Through the resolution: only a not-found, unknown or strikeable page buries the URL or adds to its strikes, never a cancelled, rate-limited or invalid one. |
| `Pages.CancelledGivesBack` | internal/crawler/worker.go:330-332 | A cancelled page, or a wait cut short, leaves a fresh job in ready and every counter, due time and dead entry as it was. |
| `Pages.GentlePagesNeverBury` | internal/crawler/worker.go:317-323 | Over runs: however many cancelled, rate-limited, invalid or good pages a URL gives, it is never buried and gains no strike. |
| `Children.AdmitIsExec` | internal/crawler/worker.go:114-123 | Routing a canonical URL by its class runs the matching script, with exact Bloom answers. |
| `Children.EnqueueChildren` | internal/crawler/worker.go:131-143 | The loop admits the canonical links in order, each under its own clock reading, up to the failing one; the count is that of the URLs among them that the frontier did not know before and knows afterwards; it fails exactly at a broken link that canonicalises to something. |
| `Children.NewIsUnknown` | internal/storage/frontier.go:194-233 | An admission is answered New exactly when it makes an unknown URL known: a video to the filter, a listing to the schedule. |
| `Children.NewCountsUnknown` | internal/crawler/worker.go:125-143 | The New replies to a list of links are as many as the URLs among them that become known, however often a link occurs. |
| `Children.CanonicalAt` | internal/crawler/worker.go:131-143 | The child of a link comes right after those of the links before it. |
| `Children.CanonicalCount` | internal/crawler/worker.go:131-143 | There are exactly as many children as links that canonicalise to something. |
| `Children.RetryAdmitsTheRest` | internal/crawler/worker.go:125-130 | After an abort at any link a retry with the same clock readings suppresses the ones done, gives the others the replies of an uninterrupted run, and ends in the same frontier but for job IDs. |
| `Children.RetryCounts` | internal/crawler/worker.go:125-130 | Abort and retry count each new child once; a further run counts none and moves only the job counter. |
| `Videos.EachVideoUrl` | internal/storage/mongo.go:112-142 | Every stored URL exactly once, in order, in nonempty batches within the bound; a failure passes on a prefix. |
| `Videos.Bloom.AddBatch` | internal/storage/redis.go:135-142 | A batch is added whole on success and the filter only grows. |
| `Videos.Reconcile` | cmd/crawler/main.go:243-255 | After a successful reconcile the filter knows every stored video. |
| `Videos.NewAtMostOnce` | internal/storage/frontier.go:194-215 | AdmitVideo answers New at most once per URL, and never for a URL the filter knew, over runs with crashes. |
| `Videos.StoredStaysClaimed` | cmd/crawler/main.go:243-255 | Over runs of completed scripts, once stored videos lie inside the filter they do so for the whole run, new ones included. |
| `Videos.ClaimedIff` | internal/storage/frontier.go:207-214 | Over runs with cut scripts the filter knows a URL if and only if it knew it at first or some admission of it that passed the dead check reached BF.ADD. |
| `Videos.StoredOutsideIff` | internal/storage/frontier.go:207-214 | A stored video is outside the filter if and only if no admission of it reached BF.ADD, and then one stopped exactly between LPUSH and BF.ADD. |
| `Videos.StoredThenNew` | internal/storage/frontier.go:207-214 | From any state that knows nothing of a video there is a run with that cut after which the video is stored, outside the filter, and admitted as New once more. |

## Left out

- Fetching, proxies, login, cookies and HTML parsing; a page is an arbitrary outcome whose kind agrees with
  the URL's class and whose not-found reason is "404" or "410".
- URL canonicalisation: an arbitrary function; the empty string means excluded. `url.Parse` in the row
  validation is an arbitrary predicate.
- Bloom filter internals, its capacity and the false-positive-rate check: the filter is the set of URLs it
  reports as present.
- Metrics, logging (with the warning every five failures), heartbeats, the snapshot timer and the stop endpoint.
- Test-mode bookkeeping, video matching, configuration loading, deployment files.
- Context timeouts, BSON and JSON wire formats and driver retries: each I/O operation succeeds or fails. The
  marker is absent, restoring, complete or foreign.
- Floating point: scores and intervals are integers; Lua's doubles are exact below 2^53, and the interval is
  capped before it is stored. Job IDs and counters do not overflow.
- Statistics of checkpoint and restore passes, except the number of restored rows.
- maybeFatalAdmission and the supervisor that stops the crawl when all workers have returned.
- Store.CrawlStateStore.Restore: one operation fails in a call at most, and Redis does not restart during it;
  restarts are in Persistence, where every I/O operation is a step of its own.
- Store.CrawlStateStore.Checkpoint: the scan replies come in from outside and the facts stand still;
  concurrent workers are in Persistence.
- Persistence.TestableIsWeakest: the look-alike state satisfies the invariant; that it is reachable is shown only
  for the run of Persistence.TornSavedExample.
- Persistence.RowsAreTrusted: one crawler at a time, and no command of a crashed crawler arrives late.
- RoundTrip.CheckpointThenRestore: for URLs that pass the row validation; a checkpoint that meets another URL
  fails.
- Children.RetryAdmitsTheRest: for exact Bloom answers, admissions that fail before writing, and a retry under
  the same clock readings.
- Videos.StoredStaysClaimed: for completed scripts; Videos.StoredOutsideIff has the cut ones.
- Frontier.RedisFrontier.DrainListings: no other call runs between two pages of a tick.
- Worker.Crawler.Loop: replies of the frontier and of Mongo come in from outside, since other workers run
  between them; Children has the loop over links with its effect on the frontier.
