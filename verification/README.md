# A verified model of the web-of-trust crawler

The crawler keeps its BFS frontier in a Postgres table, claims batches of `discovered` rows,
fetches each author's kind-3 events from relays it does not trust, keeps the newest valid one
and writes its p-tags as edges. This project models that machinery and proves what it is for:
the graph it leaves, that it ends, that crashes and schedules do not show, that pagination is
complete, that the gate cannot be steered by rejected events, and that its politeness and
admission arithmetic is right.

Layers, bottom up:

- `Tables` has one function per SQL statement or transaction, and `RowLaws` says column by column
  what each does to a row; `Database.Pool` is the store with
  those statements as methods that update it in place, loops included, up to `process_batch`.
- `Protocol` is the concurrent system: driver (`run_crawl` and `run_daemon_loop`), workers,
  sweeps and crashes, one atomic step per statement. A label carries everything the environment
  decides (which rows a claim finds locked, answers, clocks, scheduling), so a run is a sequence
  of labels and every theorem is over all of them. `WorkerRuns` and `Database` show that the
  sequential code performs exactly the protocol's acts.
- `Lifecycle`, `Leases`, `LeaseCount`, `DaemonLoop`, `Drain`, `Agreement`, `Overlap`, `Reachability`, `Restarts`,
  `Stranded`, `Determinism`, `Termination` and `CrawlDriver` are the theorems about it.
- `Fetch` is the pagination loop against any relay, `Pages` the same request by request, `Completeness` against an honest store
  (NIP-01, section "From client to relay"), `Ingest` the gate (newest wins, lowest id on ties:
  NIP-01, section "Kinds"), `Acquire` their composition, `RelayTruth` the crawl over the gate,
  `HonestCrawl` all of it together.
- `RateLimit`, `Health` and `Admission` are the politeness side.

Where the code and its comments differ, the model follows the code:

- `frontier.rs` calls reclaiming harmless because the edge writer is idempotent. The writer reads
  the edges before its transaction begins, so an age reclaim of a live lease can leave a row
  with the union of two lists (`Overlap.OverlappingWritersDisagree`). A row's edges are those of
  its applied event in every run if and only if there is no daemon, at most one crawl permit, or a
  batch size of zero: `Overlap.AlwaysAgreesIff`.
- `crawl/mod.rs` bounds the authors in flight by concurrency times batch size. That holds for the
  batches that run; the leased rows include the batch that is claimed before its permit and are
  sure to stay within that number only while no such batch is held. One batch more is the least bound,
  attained in every configuration: `LeaseCount.LeaseBoundIff`.
- `rate_limit.rs` gives the delay as min(base * 2^failures, cap). With a zero base it is the cap
  from 64 failures on; `RateLimit.ScheduleIsExactIff` is the exact condition.
- `health.rs` says every relay is eventually admitted. The permit count is cast to 32 bits, so a
  count that is a multiple of 2^32 admits nobody even at an idle relay: the gate never gets stuck
  if and only if there are crawl permits and, where there is anything to visit, the per-relay cap
  is positive and below 2^32 (`Admission.NeverStuckIff`).
- `daemon/mod.rs` calls a relay's semaphore the hard ceiling. The write-relay fallback has
  semaphores of its own, so a curated relay that an author also names as a write relay has two:
  its fetches stay within the cap if and only if one of the paths is closed to it, there are no
  more crawl permits than the cap, or the cap is zero, and otherwise reach the smaller of the
  crawl permits and twice the cap (`Admission.CapIsCeilingIff`, `Admission.FetchBoundIff`).
- A store where the boundary second holds exactly as many events as the cap, all of them already
  returned, still ends in the stall error: pagination succeeds exactly when no second holds as
  many events as the cap (`Completeness.PaginationOutcome`).

## Model

| member | source | states |
|---|---|---|
| Reachability.ExactReachability | src/crawl/mod.rs:156-238 | Under arbitrary answers and failures, when `run_crawl` returns `Ok` on empty tables every row is fetched, not found or failed, and the rows are exactly the keys with a path from the anchor along the stored edges; so an empty claim without workers is a sound exit although claims may skip locked rows. |
| Reachability.EdgesPersist | src/crawl/apply.rs:58-82 | No step loses an edge that is stored or that a worker is about to store: a commit turns each proposed edge into a stored one. |
| Reachability.NewRowIsProposed | src/crawl/apply.rs:62-70 | A row is only ever inserted because a row under application follows it. |
| Restarts.RowsBetweenStoredAndHanded | src/crawl/frontier.rs:90-113 | Crawl or daemon, with crashes, sweeps, overlapping writers and answers that change between restarts: at every moment each stored edge was handed over in the run, each row is reachable from the anchor along such edges, and everything reachable along stored edges is a row. |
| Restarts.NothingRecovered | src/crawl/apply.rs:249-268 | In a crawl, and in a daemon without the fallback, no run recovers a list: only the curated fetches hand anything over. |
| Stranded.ExactDespiteCrashesIff | src/crawl/apply.rs:58-82 | With crashes and changing answers every finished crawl of empty tables has exactly the reachable rows if and only if the configuration can start no batch: a process that dies between a followee's upsert and the edge transaction can leave a row to which no stored edge ever leads. |
| Leases.EmptyClaimWithoutWorkers | src/crawl/mod.rs:157-165 | With no worker left an empty claim means no row is discovered, whatever was skipped before. |
| Leases.CrawlSettles | src/crawl/mod.rs:156-238 | From any tables, crashes and restarts included, a crawl that returns `Ok` leaves every row fetched, not found or failed. |
| DaemonLoop.ClaimMayMiss | src/crawl/mod.rs:157-172 | Wherever a batch can run, some reachable claim comes back empty although a row is discovered, because an open edge transaction has it locked: why the workers are joined before an empty claim counts. |
| DaemonLoop.EmptyClaimIff | src/crawl/frontier.rs:61-79 | At a claim, the claim can come back empty if and only if every discovered row may be locked by a worker: as its author, as the row it is about to upsert, or by its open edge transaction. |
| Determinism.CrawlIsDeterministic | src/crawl/mod.rs:118-239 | With fixed answers every finished crawl of empty tables, cut off and restarted between any two steps any number of times, has exactly the graph reachable over the answers, with each key's status, applied event and edges. |
| Determinism.CrawlIsFinalIff | src/crawl/frontier.rs:181-231 | With fixed answers and fetches that fail at any time, a finished crawl of empty tables, restarts included, has the final graph if and only if no row has used up its attempts; else only rows and edges are missing, none is wrong. |
| Determinism.FixedAnswersGraph | src/daemon/loop_.rs:122-243 | Crawl or daemon with fallback, from empty tables, fixed answers, failing fetches and workers, TTL sweeps and crashes anywhere, no age reclaim: at every moment each row is reachable over the answers and has no edge or exactly its answer's, and no author with an answer is not found; the graph is the final one if and only if the anchor is a row and every row is fetched or not found. |
| Determinism.ScheduleIndependence | src/crawl/mod.rs:88-116 | Two finished crawls over the same answers agree on keys, statuses, applied events and edges whatever their batch sizes, concurrency, interleavings and crashes. |
| Determinism.FinishedWorkIsKept | src/crawl/frontier.rs:53-79 | On any tables, a row with an outcome, before or after a crash, is never claimed or written again by a crawl: no column and no edge of it changes. |
| Termination.RunsDescend | src/crawl/mod.rs:156-236 | From any tables, over a finite universe of keys, every run of a crawl, whoever steps, strictly descends in one lexicographic measure of unseen keys, remaining attempts, open fetches and open work: no run is infinite or returns to a state. |
| Termination.Progress | src/crawl/mod.rs:174-211 | From any tables, until it has returned, a crawl with positive batch size and concurrency always has a step that is not a failure: no deadlock between claim, permit, join and workers. |
| Termination.ClaimsBounded | src/crawl/frontier.rs:181-231 | From any tables, whatever attempts they record, since the last startup no row was claimed more than max(1, max_attempts) times. |
| CrawlDriver.RunCrawl | src/crawl/mod.rs:118-239 | Total correctness on any tables: under every scheduler the run ends, without store errors in `Ok`, with bounded claims, and after `Ok` every row has an outcome; from empty tables the rows are then exactly the reachable keys. |
| CrawlDriver.ScheduleExists | src/crawl/mod.rs:156-236 | With positive batch size and concurrency such schedulers exist, also ones under which nothing fails. |
| Leases.CleanDrain | src/daemon/loop_.rs:122-243 | From any tables, with cancellation, both sweeps, late writers, failing workers and crashes interleaved anywhere, a loop that returned `Ok` leaves no row in progress. |
| Leases.StepKeepsOwned | src/daemon/loop_.rs:131-239 | Key invariant: past startup every leased row is still unresolved in some in-flight batch, also when the age sweep gives it to a second worker. |
| Leases.LeasesAreExclusive | src/crawl/frontier.rs:45-79 | Without age reclaims the leased rows are exactly the pairwise disjoint unresolved parts of the claimed batches; at most `concurrency` batches run, with at most concurrency * batch_size authors; while no worker has failed at most (concurrency + 1) * batch_size rows are leased, and at most concurrency * batch_size whenever the driver holds no claimed batch. |
| LeaseCount.LeaseBoundIff | src/crawl/mod.rs:95-101 | In every configuration, a number bounds the leased rows of all such runs if and only if it is at least (concurrency + 1) * batch_size; so concurrency * batch_size does only where no batch is ever claimed. |
| Drain.DrainDecreases | src/daemon/loop_.rs:232-239 | After cancellation nothing is claimed or spawned; every act and every join strictly decreases a measure that the sweeps, whatever they do to the tables, leave alone. |
| Drain.CancellationCompletes | src/daemon/loop_.rs:122-279 | From every state any daemon run reaches that has not failed, at startup, mid-batch, holding a batch or in a drain, and under every schedule of driver and workers without another claim: each step but one into an error descends in a measure, so none goes on for ever; and with a permit to be had, every such run extends to a return, which is `Ok` if and only if no worker had failed. |
| DaemonLoop.NeverEndsUncancelled | src/daemon/loop_.rs:122-168 | On any tables, with sweeps, failures and crashes anywhere, a daemon that nobody cancels neither drains for good nor returns `Ok`. |
| DaemonLoop.WakeLeadsToClaim | src/daemon/loop_.rs:132-147 | From every idle state any run reaches a wake leads to a claim, and every claim then takes the discovered rows, those a sweep has put back included, up to the batch size. |
| DaemonLoop.NoClaimBeforeWake | src/daemon/loop_.rs:132-147 | After an empty claim nothing but a wake takes the daemon back to a claim: it joins its workers and sleeps first. |
| DaemonLoop.StaleRowIsClaimedAgain | src/crawl/frontier.rs:115-146 | A row that is stale when the sweep runs over a sleeping daemon is claimed by every next claim whose batch size covers the frontier. |
| DaemonLoop.ErrorsLeaveLeases | src/crawl/mod.rs:166-170 | Wherever a batch can run, a failing worker, or a claim that fails while a worker runs, can end the process with a row still leased: end-of-run claims hold for `Ok` only. |
| Lifecycle.RowLifecycle | src/crawl/frontier.rs:58-231 | Under every interleaving: terminal rows are stamped, leased rows have a claim time, discovered and failed rows have none, attempts are below the cap exactly until a row fails; for any configured cap, zero and negative included. |
| Lifecycle.ChurnCounters | src/store/follows.rs:55-71 | In every run: changes never exceed fetches, a change or confirmation time stands exactly where its counter is positive, and a fetched row has an applied event. |
| RowLaws.StepChangesRow | src/crawl/frontier.rs:58-231 | In every state and for every step, each row keeps all its columns or changes in the one way the step's statement has for it, stamped with the time the step carries; a row that appears is fresh. |
| RowLaws.SweepsPutBack | src/crawl/frontier.rs:99-179 | The startup sweep puts back exactly the leases, the staleness sweep exactly the terminal rows fetched more than the TTL ago, the age sweep exactly the leases claimed more than the age ago; put back means discovered, no lease, no attempts, history kept; no other row changes. |
| RowLaws.WriteDiffWritesEdges | src/store/follows.rs:80-115 | The edge transaction deletes the edges read that the list lacks, inserts those of the list that were not read, and touches no other edge or row. |
| Agreement.CommitCountsChange | src/store/follows.rs:80-137 | In every run in which no two workers resolve one follower at once, each transaction leaves exactly the list it writes, self dropped, and moves the change counter and time if and only if the edge set moves. |
| Agreement.RunsAreConflictFree | src/crawl/frontier.rs:45-79 | No run without an age reclaim, on any tables, ever has two workers resolving one follower at once. |
| Agreement.StoreMatchesAppliedEvent | src/store/follows.rs:47-139 | While no two workers resolve one follower at once, each row with an applied event has exactly that event's followees minus itself, and the same-event shortcut leaves the edges a full re-apply would leave. |
| Agreement.StoreMatchesWithoutAgeReclaim | src/daemon/sampler.rs:270-298 | The same with no condition on the workers in every run without an age reclaim, TTL sweeps and crashes included. |
| Agreement.OnlyCommitWritesEdges | src/store/follows.rs:94-115 | No step but a commit for a follower changes that follower's edges. |
| Agreement.DiffIsReplacementIff | src/store/follows.rs:80-115 | The diff against edges read before the transaction equals plain replacement if and only if no kept edge was deleted and no unwanted edge inserted since the read. |
| Overlap.OverlappingWritersDisagree | src/crawl/frontier.rs:162-179 | In every daemon configuration with two permits: a run from empty tables with an age reclaim of a live lease after which the anchor follows two keys while its applied event follows the second only. |
| Overlap.AlwaysAgreesIff | src/store/follows.rs:47-139 | In every run of genuine lists, from any tables on which it holds, each row's edges are those of its applied event, if and only if the configuration is a crawl without sweeps, has at most one permit, or claims nothing. |
| Agreement.EdgeProvenance | src/store/follows.rs:73-115 | In every run, overlapping writers included, each stored edge joins two keys and comes from a list some fetch handed over. |
| RelayTruth.StoredEdgesAreAttested | src/ingest/mod.rs:145-201 | Each stored edge f -> g has f != g and a verified event of f, of the wanted kind, within the clamp, that p-tags g; for curated, retry and fallback paths. |
| RelayTruth.StoredEdgesAreTheAppliedTags | src/crawl/apply.rs:58-82 | Without age reclaims a row's edges are exactly the others tagged by the event whose id is recorded as applied. |
| RelayTruth.CrawlOfFixedEvents | src/crawl/apply.rs:171-281 | When every batch's raw union holds the same accepted events within the clamp per author, among any others, every finished crawl of empty tables, restarts included, ends in the graph reachable over the authors' newest lists. |
| RelayTruth.GraphOfFixedEvents | src/crawl/apply.rs:171-281 | The same with fetches that may fail: at every moment of a crawl, restarts included, the graph is sound over those lists, and a finished one is final if and only if no row has used up its attempts. |
| HonestCrawl.CrawlOfHonestRelays | src/daemon/mod.rs:225-305 | Over honest relays with fixed stores, forgeries included, that answer every window: provided each author chunk's events fit the page budget, none of its seconds fills a page, and no acceptable event of a chunk is later than that chunk's clock, every finished crawl of empty tables, whatever the batches, tie-breaks, schedule and restarts, ends in the graph reachable over the newest verified lists the relays hold between them. |
| HonestCrawl.GraphOfHonestRelays | src/daemon/mod.rs:225-305 | Without any condition on budget, full seconds or unanswered windows, fetches failing at any time: provided no acceptable event of a chunk is later than that chunk's clock, the graph is sound over those lists at every moment, and a finished one is final if and only if no row has used up its attempts. |
| Database.Pool.UpsertPubkey | src/store/pubkeys.rs:30-45 | Get or create: a seen key keeps its row, a new one lands as discovered; the row's id is returned. |
| Database.Pool.SetStatus | src/store/pubkeys.rs:54-81 | Status and stamp of the row change, nothing else; an unknown row changes nothing. |
| Database.Pool.Requeue | src/crawl/frontier.rs:195-231 | The attempt is counted and the lease released; the bumped count decides between retry and stamped failure. |
| Database.Pool.ClaimBatch | src/crawl/frontier.rs:58-88 | Leases the `limit` oldest discovered rows that are not locked, each once, at the given time; one is passed over only for `limit` others, none younger; no other row changes. |
| Database.Pool.ReclaimStaleOnStartup | src/crawl/frontier.rs:99-113 | Afterwards no row is in progress; the reset rows are counted. |
| Database.Pool.ReclaimStaleByTtl | src/crawl/frontier.rs:130-146 | Exactly the terminal rows fetched more than the TTL ago are put back, and counted; every other row stays. |
| Database.Pool.ReclaimInProgressOlderThan | src/crawl/frontier.rs:162-179 | Exactly the leases claimed more than the age ago are put back, and counted; every other row stays. |
| Database.Pool.ApplyFollowList | src/store/follows.rs:40-142 | The row-by-row deletes and inserts make the edges the list without self; counters move as stated, an already applied event touches no edge, other rows and edges stay; a missing row is an error and changes nothing. |
| Database.Pool.ApplyValidated | src/crawl/apply.rs:58-82 | Issues exactly the worker's acts in order: follower, each followee, then the writer; all followees are rows. |
| Database.Pool.ProcessBatch | src/crawl/apply.rs:145-281 | Is a run of the protocol's worker that leaves no author open. An author with a curated list gets it, one without gets what an enabled fallback recovers, any other is stamped not found; the edges are the list's unless its event was applied already; on a fetch error each row is retried or failed by its attempts; other rows and edges stay, and the count is of the authors with a list. |
| WorkerRuns.RunsInSystem | src/crawl/mod.rs:187-210 | What one worker does alone is a run of the whole system. |
| Fetch.PaginateChunk | src/relay/fetch.rs:81-184 | Against any relay: at most the page budget of requests; it goes on exactly while windows are answered, full and new; an `Ok` is the first occurrences by id of the concatenated windows; each error has its exact cause. |
| Pages.PaginatedInPlainTerms | src/relay/fetch.rs:91-184 | What the loop returns, told by its requests and answers alone: it starts at the first `until`, goes on exactly after answered full windows with a new id, each time from the oldest second of the window before; without an answer it fails, after the last budgeted page it gives up, a full window with nothing new whose `until` has not moved or would not is a stall, and every other end returns the first event of each id. |
| Fetch.FirstByIdKeeps | src/relay/fetch.rs:125-133 | An event is kept if and only if no earlier event of the windows has its id. |
| Fetch.FirstByIdPrefix | src/relay/fetch.rs:125-133 | Later windows only append to what is kept. |
| Completeness.PaginationOutcome | src/relay/fetch.rs:91-184 | Against an honest capped store, some windows of which may fail: an `Ok` is every stored event up to the first `until`, each once, and ends on a short window; a stall means some second holds the cap; below the page budget the loop succeeds if and only if its last window is answered and no second holds the cap. |
| Completeness.OkMeansShortWindow | src/relay/fetch.rs:155-173 | The break on a full window with nothing new and an older `until` is unreachable. |
| Completeness.SweptAfter | src/relay/fetch.rs:60-73 | After any number of pages everything newer than the current `until` is collected, nothing older, and at least one event per page. |
| Completeness.NeverPastFullSecond | src/relay/fetch.rs:60-73 | Paging never moves past a second that fills a window. |
| Acquire.FetchComplete | src/relay/fetch.rs:350-397 | Every author chunk is paginated to the end and the union is their concatenation, or the first failing chunk's error is returned. |
| Acquire.ChunksAre | src/relay/fetch.rs:360-396 | The chunks are the authors in order, every chunk full but the last. |
| Acquire.AcquireValidatedLists | src/relay/mod.rs:151-179 | A fetch error passes through; otherwise the lists are exactly the gate's answers over the whole union. |
| Acquire.FetchAndIngest | src/relay/mod.rs:121-179 | End to end over any honest store, forgeries and future events included: per requested author exactly the list of its newest verified event no later than `now + clamp` and its chunk's `until` (any other such event is older, or as old with no lower id), and none if that event is oversized; each error has its cause, and when all windows are answered and each chunk fits the page budget it succeeds if and only if no second of a chunk holds the cap. |
| Ingest.IngestEvents | src/ingest/mod.rs:145-201 | The output is exactly one list per author with an answer: it stands for a verified event of the wanted kind by a requested author no later than `now + clamp`, that second included, any other of the author's such events is older or as old with no lower id, and it is within the follow cap. |
| Ingest.NoAnswerInPlainTerms | src/ingest/mod.rs:180-198 | An author is left out only if none of its events passes, or the newest that does tags more others than the cap; there is no fall back to an older event. |
| Ingest.WinnerIsNewest | src/ingest/replaceable.rs:26-54 | The winner is within the clamp, and every other event within it has an earlier time, or the same time and no lower id; none wins exactly if none is within. |
| Ingest.WinnerOfWinners | src/ingest/replaceable.rs:33-53 | The winner over a union is the winner of the parts' winners. |
| Ingest.OnlyAcceptedEventsMatter | src/ingest/verify.rs:30-46 | An author's answer depends on the set of its own accepted events only: not on the rest of the batch, order, repetition, relays or rejected copies. |
| Ingest.AnswerIsUnique | src/ingest/mod.rs:163-198 | An author has at most one answer, although copies of one id may differ in their signatures. |
| Ingest.GroupWinner | src/ingest/mod.rs:163-179 | Deduplicating after verification loses nothing: the group's winner is the newest of all accepted candidates. |
| Ingest.FolloweePubkeys | src/ingest/follow_list.rs:38-62 | The distinct tagged others in order of first occurrence, or rejection exactly when they exceed the cap. |
| RateLimit.ScheduleIsExactIff | src/relay/rate_limit.rs:100-125 | The 128-bit shift computes min(base * 2^failures, cap) if and only if the base is positive, failures are below 64 or the cap is zero. |
| RateLimit.ScheduleGrows | src/relay/rate_limit.rs:96-125 | For a positive base the delay is monotone in the failures, positive for a positive cap, bounded by it, and stays there. |
| RateLimit.JitterIff | src/relay/rate_limit.rs:82-95 | The jitter reaches every delay from half the scheduled one to all of it, and no other. |
| RateLimit.RateLimiterRegistry.RecordNotice | src/relay/rate_limit.rs:197-218 | After n earlier notices since the last reset the delay lies between floor(d/2) and d for d = min(base * 2^n, cap), or d = cap for a zero base and n >= 64, counter saturation included; other relays are untouched. |
| RateLimit.RateLimiterRegistry.Reset | src/relay/rate_limit.rs:231-234 | The relay's schedule starts over; other relays are untouched. |
| RateLimit.ClassifyIff | src/relay/rate_limit.rs:66-73 | A message asks for backoff, or for a stop, if and only if its trimmed first colon-delimited token is the respective word. |
| Health.BlendStaysBetween | src/relay/health.rs:135-140 | An update moves the score to between its old value and the sample, so within [0, 1]. |
| Health.ScoreConverges | src/relay/health.rs:131-140 | After n samples of one kind the gap between score and sample is (1 - alpha)^n of what it was. |
| Health.PermitsRange | src/relay/health.rs:157-160 | The permit counts that scores in [0, 1] yield are exactly those between 1 and the larger of 1 and the cap. |
| Health.PermitsFollowScore | src/relay/health.rs:157-160 | The permits are the cap times the score to the nearest count, halves up, at least one, and never shrink while the score grows. |
| Health.ProbesAreSpaced | src/relay/health.rs:236-262 | A relay below the threshold is granted no attempt less than a full interval after any granted one, whoever asks. |
| Health.GrantedIff | src/relay/health.rs:236-262 | A relay at the threshold is always routed to; one below it if and only if no attempt was granted within the last minute. |
| Health.RelayHealthRegistry.TryMarkAttempt | src/relay/health.rs:236-262 | Decides by that rule and records the attempt in one step. |
| Admission.GateIsSafe | src/relay/health.rs:162-186 | In every run no semaphore is overdrawn, `in_use` never exceeds the running fetches, these stay within the crawl permits and all semaphores of their url, and everything is back when all batches are done; where fewer than 2^32 fetches from a url can run at once, `in_use` is their number and never underflows. |
| Admission.GateOpensIff | src/relay/health.rs:310-315 | In every run, a check with a permit count below 2^32 is passed exactly by a batch that waits at the gate of a relay from which fewer fetches run than that; with as many running as permitted nobody passes. |
| Admission.FetchBoundIff | src/daemon/mod.rs:354-371 | For every url, a number bounds the fetches that run at once in every run if and only if it is at least the smaller of the crawl permits and the permits of all semaphores of that url, curated and fallback; and `in_use` with that cut to 32 bits. |
| Admission.CapIsCeilingIff | src/daemon/mod.rs:182-198 | The per-relay cap bounds the fetches from a relay in every run if and only if the relay is not both curated and open to the fallback, or there are no more crawl permits than the cap, or the cap is zero; twice the cap always does. |
| Admission.InUseIsExactIff | src/relay/health.rs:173-186 | For every url, the saturating 32-bit `in_use` equals the running fetches in every run if and only if the smaller of the crawl permits and the permits of all its semaphores is below 2^32. |
| Admission.SomeTaskCanStep | src/daemon/mod.rs:231-302 | While a batch is unfinished some batch can step using exactly the permit count each relay's score yields now, whatever they are, each batch holding a crawl permit and making its curated and write-relay visits in turn. |
| Admission.NeverStuckIff | src/relay/health.rs:310-315 | No run gets stuck, for any scores of the relays, if and only if there are crawl permits and, where there is anything to visit, the per-relay cap is positive and below 2^32; otherwise one batch at one idle relay waits for ever. |
| Admission.RunsAreFinite | src/relay/health.rs:299-342 | Each step uses up one of the at most six steps per relay visit, so every run is finite. |
| Admission.AllBatchesFinish | src/relay/health.rs:265-287 | From every reachable state a run finishes every batch in which each check at the gate uses the count its relay's score yields then, however the scores change, also if all stay at the floor. |

## Left out

- Postgres, sqlx, the views and the schema checks: a table is a map, a statement or transaction one atomic step. The surrogate id is a field used for claim order; edges are keyed by pubkey.
- The SMALLINT width of `fetch_attempts`: below the cap it cannot overflow, but late writes on failed rows are not bounded.
- Pubkey parsing and the 32-byte check: keys are numbers; an unparsable row behaves as an author without a list.
- nostr-sdk transport, signatures and hashing: `verify` is a parameter; the one assumption is that two verified events with one id agree on author, kind, time and tags.
- The conversion of a winning event's time to a calendar date: the applied time is the event's own timestamp.
- Deadlines and transport errors: a window is answered or not; whose clock or socket failed is not modelled.
- The write-relay fallback's choice of relays and the lists it finds: a worker is handed any list the gate can produce; its share in the semaphores is part of `Admission`. NIP-65 rows and NIP-11 limits would only add easy members.
- HonestCrawl.CrawlOfHonestRelays: every relay is asked for every batch; batches for which health routing skips a relay are not covered.
- governor's limiter, metrics, configuration, the samplers, the HTTP server and the `loop_alive` flag it reads.
- The registry's `in_use` map is part of the `Admission` protocol, not a field of `Health.RelayHealthRegistry`.
- Errored runs: which error `drain_all` reports, and that it joins the others first. End-of-run claims are for `Ok` returns; a commit whose outcome is unknown to the client is not modelled.
- Reachability.ExactReachability: does not cover a crash in the run, and cannot (`Stranded.ExactDespiteCrashesIff`); `Restarts.RowsBetweenStoredAndHanded` says what holds then, and `Determinism.CrawlIsDeterministic` covers crashes for fixed answers.
- CrawlDriver.RunCrawl: the workers advance by protocol steps that a scheduler picks, not by method calls, because they interleave; their sequential code is `Database.Pool.ProcessBatch`.
- Health.RelayHealthRegistry.TryMarkAttempt: scores are reals and the clock a parameter; rounding of doubles is not modelled.
- RateLimit.RateLimiterRegistry.RecordNotice: base and cap stay below 2^64 nanoseconds (584 years); longer durations overflow the shift.
- Acquire.FetchComplete: the page budget is a parameter; the constant is passed in `Fetch.PaginateChunk`.
