# Verification of the Core service's stateful parts

A Dafny model of the parts of the Core service that keep state, with proofs of what they
promise. `dafny verify dfyconfig.toml` checks all of it.

**The event log** (`EventFilter`, `Ledger`, `CatchUp`, `GapDetection`, `WatermarkCache`,
`SseManager`, `SseRuns`, `SseOrder`, `SseClients`, `SseDelivery`, `SseReach`, `LiveCatchup`). A durable
ledger that numbers events, a manager with an in-memory counter, a ring and one queue per client, and the
ways a client catches up: replay on reconnect (section 9.2 of the WHATWG HTML standard) and
paged queries. `EventLedger` and `ConnectionManager` are classes with the fields the service
keeps; the manager's methods are proved against functions on its value, and `SseRuns` runs
those functions in every interleaving, with a publish split where it waits for the ledger.
A ledger write takes its sequence when it inserts and becomes visible when
it commits, so rows can appear out of sequence order; `CatchUp`, `GapDetection` and
`WatermarkCache` keep the rows in flight. Queue capacity is a parameter, 0 meaning unbounded,
as shipped. The event filter exists twice,
as a glob for live delivery (POSIX.1-2017 XCU section 2.13, case not folded) and as a LIKE
pattern for catch-up (section 9.7.1 of the PostgreSQL manual); `EventFilter` says for exactly
which patterns the two agree.

**The finalize gate** (`Provenance`, `EditValidator`, `EditTheorems`, `EditRules`, `Irn`, `Tables`,
`RecordCreator`, `CommitTheorems`, `CommitColumns`, `Finalize`). A diff decides which edits are legal, invoice
reference numbers are generated, and one transaction commits all rows or none. Rules of the
gate and statements of the commit are records of functions (`Rules`, `Shop`), so the theorems
about the diff and the fold hold for any rules and statements; `GateRules` and `ShopOf` are
the service's, and `EditRules` and `CommitColumns` say what comes out in its own field and
column names.

**The ingestion queue** (`IngestionQueue`). The scanner, the enqueue endpoint, preview
requests, pipeline writes and three jobs send statements to one table. A run is any sequence of
those statements, so every interleaving of the workers is one; the class `CoreQueue` has the
workers' code, each proved to send its statements.

**Secondary parts.** Entity resolution (`Resolver`), the circuit breaker (`CircuitBreaker`),
preview sheets (`Preview`), entity edits, soft deletion and purge (`Entities`). `Bags`, `Folds`,
`Filters`, `PyText` and `Options` hold what several modules share.

Where the code does not do what its documentation says, the model follows the code:

- Live delivery and catch-up differ on the empty pattern, on the empty data_uuid, and on
  patterns with a backslash or a closed bracket expression.
- Eviction is documented for three *consecutive* full queues; any three in the window count.
- Ids can collide when the in-memory branch and the ledger number events at the same time.
- A row that takes its sequence before another and commits after it is on no catch-up page once
  a page has passed it, although the table holds it.
- A watermark read while its tenant writes can leave a stale entry for its whole lifetime.
- `oldest_available` is 0 for a tenant whose rows are all pruned, which reads as "no gap"; it is
  also read in another statement than the page, and a prune can come between. A prune commits
  its batches in no order, so between two of them, or after one that fails, the oldest row
  can stand below a gap.
- An ended queue row is never claimed or recovered again, but its status is not final: the
  unconditional writes of a late worker replace it, and a missed claim does not stop a worker.
- `SKIPPED` is not among the statuses the queue table's CHECK allows, so that write fails and
  is swallowed (`services/core/src/database/schemas/core.sql:28-29`).
- The same table has no column `processing_completed_at` (lines 19-36), which the pipeline's
  endings and the three jobs write or read: with that schema their statements fail, and each
  caller swallows the error. The model takes the column to be there, as those statements do;
  what it says of these writes, and of a cleaned-up blob coming back, depends on it.
- The validator of reference numbers takes a newline at the end of a part and non-ASCII
  digits; years below 1000 are printed unpadded by the C library and then rejected.
- `customers_updated` and `inventory_updated` stay 0: PostgreSQL tags an upsert INSERT also
  when it updates. `invoices_created` counts statements, also those that insert nothing.
- A product's `total_times_invoiced` misses the invoice that created it, and a line without a
  description overwrites the product's name with the empty text.
- Reference numbers keep the letters and digits of an invoice number only, so two invoices of
  one day whose numbers differ in punctuation share one.
- A name variant whose customer is deleted lends its score to another customer.

## Model

| member | source | states |
|---|---|---|
| EventFilter.TranslateIsPerCharacter | services/core/src/sse/event_ledger.py:160-166 | the four successive whole-string replaces rewrite every character by itself, none disturbing what an earlier one made |
| EventFilter.LikeMatchesItsTokens | services/core/src/sse/event_ledger.py:160-166 | the LIKE matcher over the pattern text accepts what its compiled tokens accept |
| EventFilter.PlainPatternsShareTokens | services/core/src/sse/event_ledger.py:160-166 | without `[` and backslash the glob and its LIKE translation compile to the same tokens |
| EventFilter.SameLanguageSameShape | services/core/src/sse/event_ledger.py:160-166 | two token lists that accept the same texts have star-free forms that agree position by position |
| EventFilter.DisagreementIsVisible | services/core/src/sse/event_ledger.py:160-166 | a closed bracket expression or a backslash always leaves some event type on which the two filters differ, or makes the query fail |
| EventFilter.FilterTranslationExact | services/core/src/sse/manager.py:426-429 | live delivery and catch-up filter every event type alike if and only if there is no pattern, or a non-empty one without backslash and without a closed bracket expression |
| EventFilter.PlainPatternsAgree | services/core/src/sse/event_ledger.py:160-166 | the promised case: every non-empty pattern without `[` and backslash means the same in both places |
| EventFilter.PrefixPattern | services/core/src/sse/manager.py:426-429 | a plain text followed by a star takes exactly the event types that begin with the text |
| EventFilter.QuestionMark | services/core/src/sse/manager.py:426-429 | a question mark takes exactly one character |
| EventFilter.BracketExpression | services/core/src/sse/manager.py:426-429 | a bracket expression takes one character of those listed |
| EventFilter.NegatedBracketExpression | services/core/src/sse/manager.py:426-429 | and after an exclamation mark one of the others |
| EventFilter.BracketAsMember | services/core/src/sse/manager.py:426-429 | a closing bracket in the first place is one of those listed |
| EventFilter.BracketRange | services/core/src/sse/manager.py:426-429 | a range takes one character between its ends |
| LiveCatchup.PortableSubscriptionsAgree | services/core/src/sse/manager.py:405-431 | for a tenant's client with a portable pattern and a data_uuid filter that is not empty, an event is delivered live exactly when its ledger row is returned by catch-up |
| EventFilter.DisagreementBeyond | services/core/src/sse/event_ledger.py:160-166 | for such a pattern the two filters differ on some event type other than any given one without brackets and backslashes, so leaving one type out excuses no pattern |
| LiveCatchup.TypesAgreeExactly | services/core/src/sse/manager.py:412-429 | the query runs and the filters agree on every event type but the heartbeat, which the ledger never holds, if and only if there is no pattern, or a non-empty one without backslash and without a closed bracket expression |
| LiveCatchup.SubscriptionAgreesExactly | services/core/src/sse/manager.py:405-431 | for every filter of a tenant's client: the query runs and returns exactly what live delivery would send, if and only if the pattern is such a one, and the data_uuid filter is not the empty text unless the pattern is the heartbeat's own name |
| LiveCatchup.OnlyTheHeartbeatItself | services/core/src/sse/manager.py:412-414 | of the portable patterns only the heartbeat's own name takes nothing but heartbeats |
| LiveCatchup.EmptyDataUuidDisagrees | services/core/src/sse/manager.py:421-424 | without a pattern: they agree if and only if the data_uuid filter is not the empty text |
| Ledger.OldestIsMinimum | services/core/src/sse/event_ledger.py:144-150 | oldest_available is the smallest sequence of a tenant that has rows, and attained |
| Ledger.LatestIsMaximum | services/core/src/sse/event_ledger.py:199-266 | latest_sequence is the largest sequence of a tenant that has rows, and attained |
| Ledger.ZeroMeansNoTenant | services/core/src/sse/event_ledger.py:144-150 | with sequences from 1, each bound is 0 if and only if the tenant has no row |
| Ledger.SelectedExactly | services/core/src/sse/event_ledger.py:152-182 | the query selects the tenant's rows after the cursor with the data_uuid, unless it is absent or empty, and the event type asked for |
| Ledger.PageExactly | services/core/src/sse/event_ledger.py:152-197 | a page is the first selected rows, at most the limit and at most a thousand, and has_more says exactly whether there are others |
| Ledger.DeleteCounts | services/core/src/sse/event_ledger.py:278-303 | deleting a set of present sequences shortens the table by exactly that many rows |
| Ledger.KeepAfterDelete | services/core/src/sse/event_ledger.py:278-303 | deleting expired rows never changes what survives the cutoff |
| Ledger.AllExpiredGone | services/core/src/sse/event_ledger.py:278-303 | a short batch means that only surviving rows are left |
| Ledger.EventLedger.constructor | services/core/src/sse/event_ledger.py:41-44 | an empty ledger numbers from 1 |
| Ledger.PlaceKeepsOrder | services/core/src/sse/event_ledger.py:62-73 | a committed row goes to the place of its sequence, below rows that overtook it, and the table stays ordered |
| Ledger.EventLedger.Insert | services/core/src/sse/event_ledger.py:62-72 | takes the next sequence for good; the row is in flight and not visible |
| Ledger.EventLedger.Commit | services/core/src/sse/event_ledger.py:73 | makes a row in flight visible at its sequence, in whatever order writes commit |
| Ledger.EventLedger.Rollback | services/core/src/sse/event_ledger.py:62-73 | a write that fails leaves a gap in the numbering |
| Ledger.EventLedger.Invalidate | services/core/src/sse/event_ledger.py:77-78 | drops only the tenant's cached watermark |
| Ledger.EventLedger.Write | services/core/src/sse/event_ledger.py:46-86 | undisturbed, the three together append one row above all sequences ever given out |
| Ledger.EventLedger.QueryOldest | services/core/src/sse/event_ledger.py:144-150 | the first statement: the tenant's oldest sequence |
| Ledger.EventLedger.QueryPage | services/core/src/sse/event_ledger.py:152-197 | the second statement: the first rows of the filtered suffix after the cursor, and has_more exactly if there are more; changes nothing |
| Ledger.EventLedger.PickBatch | services/core/src/sse/event_ledger.py:282-294 | whichever rows a LIMIT picks: any subset of the expired rows of the right size |
| Ledger.EventLedger.Prune | services/core/src/sse/event_ledger.py:268-310 | terminates whatever the batches pick, leaves exactly the rows at or after the cutoff and returns how many it removed |
| Ledger.EventLedger.GetWatermark | services/core/src/sse/event_ledger.py:199-266 | a fresh enough entry is returned as it is; otherwise the answer is the fresh one and is cached |
| CatchUp.MissedExactlyInFlight | services/core/src/sse/event_ledger.py:62-73 | a wanted row after the cursor that the ledger holds at the last page is missed if and only if a page moved the cursor past it while it was in flight |
| CatchUp.CatchUpCompleteExactly | services/core/src/sse/router.py:227-250 | paging to the end with inserts, commits in any order, rollbacks and prunes in between gives wanted rows only, strictly ascending, and every wanted row the ledger holds at the last page except exactly those passed in flight |
| CatchUp.CatchUpComplete | services/core/src/sse/router.py:227-250 | so it misses nothing if at no page a wanted row in flight lies below the next cursor |
| CatchUp.LateCommitIsMissed | services/core/src/sse/event_ledger.py:62-73 | the condition is needed: in a run of the ledger a row that takes its sequence first and commits last is on no page |
| CatchUp.RunsEvolve | services/core/src/sse/event_ledger.py:46-86 | whatever inserts, commits, rollbacks and prune batches run between two pages, their tables are related as the catch-up theorems ask |
| CatchUp.CatchUpOfStillLedger | services/core/src/sse/event_ledger.py:127-197 | without interference the pages put together are the filtered suffix of the ledger |
| CatchUp.CatchUpTerminates | services/core/src/sse/router.py:227-250 | after n pages that all report more, n full pages' worth of sequences have been assigned |
| GapDetection.OnlyExpiredRowsAreMissing | services/core/src/sse/event_ledger.py:278-303 | with timestamps in sequence order and no prune finishing before an older write in flight, at any point, between two batches of a prune too, all that is missing above the oldest kept row is expired |
| GapDetection.RowsAreASuffix | services/core/src/sse/event_ledger.py:268-310 | so whenever no prune is halfway the table is a suffix of everything ever committed |
| GapDetection.ShortBatchFinishes | services/core/src/sse/event_ledger.py:298-303 | the short batch that ends the loop finishes its prune and every earlier one that stopped halfway |
| GapDetection.MidPruneExactly | services/core/src/sse/event_ledger.py:278-303 | at any point, with a row of the tenant left: gap detection finds every gap if and only if no expired event of the tenant above its oldest row has been deleted |
| GapDetection.GapDetectionExactly | services/core/src/sse/event_ledger.py:144-150 | unless the oldest row is one that a prune left halfway has still to delete: no cursor at or past oldest_available - 1 misses a committed event if and only if the tenant has a row left or never had one |
| GapDetection.TwoStatementsExactly | services/core/src/sse/event_ledger.py:143-184 | when oldest_available and the page come from two statements with anything in between, it finds every gap if and only if the row it was read from is still there for the page, unless that row is one a halfway prune has still to delete |
| GapDetection.NoGapBehindTheCursor | services/core/src/sse/event_ledger.py:144-150 | with an oldest row of the tenant that no halfway prune is after, such a cursor has missed no event ever committed after it |
| GapDetection.HalfAPruneHidesAGap | services/core/src/sse/event_ledger.py:278-303 | the condition is needed: for every batch size there is a run in which the first batch deletes all but the oldest row, which hides the gap until the next batch |
| GapDetection.EmptiedLedgerHidesTheGap | services/core/src/sse/event_ledger.py:144-150 | a tenant whose rows are all pruned reads 0 and misses an event |
| GapDetection.PruneBetweenStatementsHidesTheGap | services/core/src/sse/event_ledger.py:143-184 | a prune between the two statements hides a gap |
| GapDetection.OvertakenWriteHidesAGap | services/core/src/sse/event_ledger.py:268-310 | the condition on writes in flight is needed: one that a prune overtakes commits below the gap |
| GapDetection.TimestampsOutOfOrderHideAGap | services/core/src/sse/event_ledger.py:46-86 | the condition on timestamps is needed: they are taken before the insert |
| WatermarkCache.InvRun | services/core/src/sse/event_ledger.py:199-266 | in every interleaving of inserts, commits, rollbacks, invalidations, reads (also several that missed at once), fills and prune batches each cached entry is a reading of the table as it was |
| WatermarkCache.EntryCoherentExactly | services/core/src/sse/event_ledger.py:75-78 | with no prune since its read an entry equals a fresh query if and only if every row of its own tenant committed since lies strictly between the bounds it reports |
| WatermarkCache.StalenessHasACause | services/core/src/sse/event_ledger.py:75-78 | a stale entry has a prune, a commit of its tenant between read and fill, or a pending invalidation behind it |
| WatermarkCache.RacedFillIsStale | services/core/src/sse/event_ledger.py:199-266 | the middle cause is real: the entry stays stale with nothing pending |
| WatermarkCache.HitsForThirtySeconds | services/core/src/sse/event_ledger.py:212-219 | an entry is served for thirty seconds from the request that filled it and no longer |
| WatermarkCache.AbortedWritesLeaveNothing | services/core/src/sse/event_ledger.py:62-73 | a failed write leaves table and cache as they were and uses up its number |
| WatermarkCache.CacheHitIsFresh | services/core/src/sse/event_ledger.py:199-266 | in runs of whole calls a hit reports the same latest and oldest sequence as a fresh query, however other tenants write, unless a prune came after the fill |
| SseManager.OfferedIsOffer | services/core/src/sse/manager.py:269-291 | the fan-out loop, taken over all targets in any order, is the one-step fan-out |
| SseManager.ConnectionManager.constructor | services/core/src/sse/manager.py:90-108 | an empty manager |
| SseManager.ConnectionManager.SyncSequence | services/core/src/sse/manager.py:115-135 | the counter becomes the larger of itself and the ledger's maximum, nothing else changes |
| SseManager.ConnectionManager.SubscribeClient | services/core/src/sse/manager.py:152-189 | registers the client with an empty queue of its own |
| SseManager.ConnectionManager.UnsubscribeClient | services/core/src/sse/manager.py:191-202 | removes the client and its tracker, leaves its queue |
| SseManager.ConnectionManager.TrackQueueFull | services/core/src/sse/manager.py:293-307 | appends the time, prunes to the window, says whether three are in it |
| SseManager.ConnectionManager.EvictZombie | services/core/src/sse/manager.py:309-333 | close marker if there is room; registry and tracker entry removed |
| SseManager.ConnectionManager.OfferToEach | services/core/src/sse/manager.py:269-279 | everyone with room gets the item, the others are tracked and collected if they must go |
| SseManager.ConnectionManager.OfferItem | services/core/src/sse/manager.py:269-291 | the whole fan-out refines the function on the manager's value |
| SseManager.ConnectionManager.DeliverEvent | services/core/src/sse/manager.py:261-291 | ring append and fan-out to the matching clients |
| SseManager.ConnectionManager.PublishFromCounter | services/core/src/sse/manager.py:247-259 | numbers from the counter |
| SseManager.ConnectionManager.PublishFromLedger | services/core/src/sse/manager.py:226-246 | numbers from the ledger and keeps the counter at or ahead of it |
| SseManager.ConnectionManager.SendHeartbeat | services/core/src/sse/manager.py:385-402 | the heartbeat goes to every client with the same overflow handling |
| SseManager.ConnectionManager.ReplayTo | services/core/src/sse/manager.py:335-355 | appends the newer matching ring events in order until the queue is full |
| SseManager.ConnectionManager.DrainAll | services/core/src/sse/manager.py:374-383 | close marker where there is room, registry and tracker emptied |
| SseManager.ConnectionManager.TakeItem | services/core/src/sse/router.py:124-178 | the stream takes the head of its queue |
| SseRuns.StepsAreTheOperations | services/core/src/sse/manager.py:204-291 | the steps of a run, with publish split at the ledger write, act on the manager exactly as its operations do |
| SseRuns.StaysConsistent | services/core/src/sse/manager.py:152-202 | every reachable manager has a queue for each client and trackers only for clients |
| SseOrder.CounterCoversAndRingIsTail | services/core/src/sse/manager.py:204-262 | in every interleaving the counter is at least every id ever assigned and the ring is the last events in finish order |
| SseOrder.CounterNeverDecreases | services/core/src/sse/manager.py:226-259 | between any two points of a run the counter does not decrease |
| SseOrder.IdsAscendExactly | services/core/src/sse/manager.py:243-246 | ids strictly ascend over a run if and only if every finished ledger write brought a sequence above the counter |
| SseOrder.NoLedgerAscends | services/core/src/sse/manager.py:257-259 | in runs without a ledger ids strictly ascend |
| SseOrder.AllLedgeredInOrderAscends | services/core/src/sse/manager.py:226-246 | in runs that only use the ledger and finish in sequence order ids strictly ascend |
| SseOrder.MixedBranchesCollide | services/core/src/sse/manager.py:247-259 | the hypothesis is needed: an event numbered by the counter can take the id a suspended ledger write already holds |
| SseClients.RecentGrows | services/core/src/sse/manager.py:293-307 | pruning the tracker step by step leaves the same as one look at the whole QueueFull history |
| SseClients.StepClientEffect | services/core/src/sse/manager.py:261-333 | each step treats each client in one of the listed ways |
| SseClients.ClientInvRun | services/core/src/sse/manager.py:261-333 | span, join, queue and tracker of every client stay what its history says |
| SseDelivery.FanOutConserves | services/core/src/sse/manager.py:261-333 | each matching publish of a client's time is offered once, in order, and is enqueued, dropped or the evicting one; taken plus waiting items are the replay and the enqueued ones, a subsequence of the matching publishes, plus heartbeats and the close marker |
| SseDelivery.TrackerIsTheWindow | services/core/src/sse/manager.py:293-333 | each tracked client is connected, its tracker is the 60-second window of its whole QueueFull history with fewer than 3 entries, and a QueueFull evicted exactly when it was the third in its window |
| SseDelivery.EvictedStreamIsNotClosed | services/core/src/sse/manager.py:309-333 | an evicted client never receives the close marker |
| SseDelivery.ThreeFullsNeedNotBeConsecutive | services/core/src/sse/manager.py:297-307 | a run from the start in which three QueueFulls evict although the client drained its queue between them |
| SseDelivery.UnboundedQueuesLoseNothing | services/core/src/sse/models.py:34-43 | with the shipped unbounded queue nothing is dropped and nobody is evicted |
| SseDelivery.ReconnectDelivers | services/core/src/sse/router.py:109-122 | a reconnect with L on unbounded queues gets the buffered matching events above L and then every matching event published later |
| SseDelivery.ReconnectIsExactlyOnce | services/core/src/sse/router.py:109-122 | in runs with ascending ids these come once each and in ascending order |
| SseDelivery.ReconnectMissesNothingExactly | services/core/src/sse/router.py:109-122 | the client gets the filter of the whole history after L if and only if the ring had lost no matching event above L and no matching event published since has an id up to L |
| SseDelivery.ReconnectMissesNothing | services/core/src/sse/router.py:109-122 | so it does if every event evicted from the ring has an id up to L and L is at most the counter at the reconnect |
| SseReach.DeliveredExactly | services/core/src/sse/manager.py:261-291 | an event enters the queue of exactly the connected clients that have room and whose filters take it: tenants equal or one of them missing, data_uuid and pattern met or not set |
| SseReach.HeartbeatReachesAll | services/core/src/sse/manager.py:385-402 | a heartbeat enters the queue of every connected client with room |
| SseReach.PublishReachesExactly | services/core/src/sse/manager.py:204-291 | in every run and for both ways of numbering: a publish reaches exactly those clients, with its type, data, data_uuid and tenant as handed over |
| SseReach.NoTenantMeansEveryTenant | services/core/src/sse/manager.py:212-216 | an event without a tenant reaches the clients of every tenant, and a client without one gets the events of every tenant |
| SseReach.OnlyWhatWasAskedFor | services/core/src/sse/manager.py:405-431 | in every run all that a stream has taken or still holds was taken by its filters |
| SseReach.TenantsAreIsolated | services/core/src/sse/manager.py:416-419 | in no run does an event of one tenant enter the queue of another tenant's client |
| SseReach.RingHoldsTheLatest | services/core/src/sse/manager.py:261-262 | in every run the ring holds the last published events, as many as fit |
| SseReach.EvictedExactlyAtThree | services/core/src/sse/manager.py:293-307 | in every run a full queue evicts its client if and only if it is at least the third in sixty seconds |
| EditValidator.ValuesEqualIsNoEquivalence | services/core/src/finalize/edit_validator.py:407-419 | the comparison is reflexive and symmetric but not transitive |
| EditValidator.VerdictIsTheRule | services/core/src/finalize/provenance.py:221-273 | a field's verdict in the diff equals the editability rule, although the two test the field sets in different orders |
| EditValidator.DiffFields | services/core/src/finalize/edit_validator.py:183-266 | the key loop yields exactly one record per differing non-skipped key: accepted or violation as judged |
| EditValidator.DiffLineItems | services/core/src/finalize/edit_validator.py:286-360 | line items are compared position by position |
| EditValidator.CheckTransactionTypeRules | services/core/src/finalize/edit_validator.py:362-404 | one violation per blank counterparty field of an upgraded B2C invoice, none otherwise |
| EditValidator.CheckRow | services/core/src/finalize/edit_validator.py:130-175 | one row: field diff, line items or a count violation, upgrade rule |
| EditValidator.CountWarnings | services/core/src/finalize/edit_validator.py:123-140 | the missing-provenance warning comes at most once |
| EditValidator.WarnsOnce | services/core/src/finalize/edit_validator.py:123-140 | it is given if and only if some row has no provenance |
| EditValidator.Validate | services/core/src/finalize/edit_validator.py:95-181 | row count mismatch, or exactly the accepted changes and violations of all rows, valid if and only if there is no violation |
| EditTheorems.ComparisonsAre | services/core/src/finalize/edit_validator.py:130-175 | every row, and every line item of rows with equally many, is compared and nothing else |
| EditTheorems.ValidExactly | services/core/src/finalize/edit_validator.py:95-181 | valid if and only if every differing key of every row and item is judged editable, no item is added or lost, and every upgrade names its counterparty |
| EditTheorems.AcceptedChangesAreThePatch | services/core/src/finalize/edit_validator.py:183-266 | on success the accepted changes laid over the preview row give the submitted one, up to the comparison, on every non-skipped key |
| EditTheorems.AcceptedChangesPatchItems | services/core/src/finalize/edit_validator.py:286-360 | the same for every line item |
| EditTheorems.ChangesAndFaultsCountTheDiff | services/core/src/finalize/edit_validator.py:183-360 | accepted changes and field violations together are as many as the differing keys of what is compared, valid or not |
| EditTheorems.AcceptedChangesAreTheDiff | services/core/src/finalize/edit_validator.py:183-360 | on success a change is accepted for a key exactly when it differs, and there are no other changes |
| EditTheorems.LegalEditsAreIndependent | services/core/src/finalize/edit_validator.py:205-266 | a submission that differs only where a valid one does is valid if and only if its upgrades name their counterparty |
| EditTheorems.RevertingKeepsValidity | services/core/src/finalize/edit_validator.py:205-266 | taking back any keys of any rows and items of a valid submission leaves it valid, except where a kept upgrade loses its counterparty |
| EditTheorems.VerdictIgnoresTheSubmittedValue | services/core/src/finalize/edit_validator.py:205-266 | two submissions in which an invoice key differs get it accepted both or neither |
| EditTheorems.ItemVerdictIgnoresTheSubmittedValue | services/core/src/finalize/edit_validator.py:307-360 | the same for the keys of line items |
| EditRules.GatePassesExactly | services/core/src/finalize/edit_validator.py:95-404 | in the names of the specification: a submission passes if and only if every row keeps its line items, changes only fields that are always open, or unprotected and without provenance, filled in by a person or of confidence below 0.60, only classification fields of items, and names the counterparty of an upgrade |
| EditRules.ChangesAreTruthful | services/core/src/finalize/edit_validator.py:238-266 | every accepted change is of an open field whose value differs, with the old value, new value and provenance of the two rows |
| EditRules.ItemChangesAreTruthful | services/core/src/finalize/edit_validator.py:307-360 | and so is every one of a line item |
| EditRules.ReasonsAre | services/core/src/finalize/edit_validator.py:205-360 | a refused field is refused by name before provenance |
| EditValidator.BlankTexts | services/core/src/finalize/edit_validator.py:393-394 | a text counts as blank if and only if it holds nothing but white space |
| PyText.StripExactly | services/core/src/finalize/edit_validator.py:393-394 | stripping drops the white space at both ends and nothing else |
| Provenance.AlwaysEditableIsApart | services/core/src/finalize/provenance.py:221-273 | no always-editable or skipped field is never-editable or a tenant field |
| Provenance.UpgradeFieldsAreNotProtected | services/core/src/finalize/edit_validator.py:390-392 | the counterparty fields an upgrade demands are never-editable or tenant fields in no direction |
| Irn.GeneratedSplitsBack | services/core/src/finalize/irn_generator.py:30-91 | a generated number splits at its dashes into stripped number, stripped service id and date stamp |
| Irn.GeneratedValidatesExactly | services/core/src/finalize/irn_generator.py:94-113 | the validator accepts a generated number if and only if its year has four digits |
| Irn.GenerationIsInjective | services/core/src/finalize/irn_generator.py:30-91 | equal generated numbers come from equal stripped numbers, service ids and dates |
| Irn.AcceptedIsGenerated | services/core/src/finalize/irn_generator.py:94-113 | an accepted number that is not of the future is what generation makes of its own parts if and only if it holds no newline, its date is in ASCII digits and its year has four |
| Irn.StampOfWhatItReads | services/core/src/finalize/irn_generator.py:108-112 | the stamp of a date read from eight digits is those digits exactly for ASCII digits and a four-digit year, month lengths and leap years included |
| Irn.StampInjective | services/core/src/finalize/irn_generator.py:90-91 | different dates have different stamps |
| Irn.SplitJoins | services/core/src/finalize/irn_generator.py:99-101 | splitting at dashes loses nothing and leaves no dash in a part |
| Irn.GenerationSucceedsExactly | services/core/src/finalize/irn_generator.py:30-91 | generation succeeds if and only if number and service, stripped, are ASCII letters and digits, the service has eight, and the date is readable and not of the future |
| Irn.AcceptedExactly | services/core/src/finalize/irn_generator.py:94-113 | the validator accepts exactly three parts cut by dashes: letters and digits, eight of them, both with a newline at the end allowed, and eight characters that read as a date |
| Irn.DatesAre | services/core/src/finalize/irn_generator.py:108-112 | a date is one of the calendar, February with a day more in leap years |
| Irn.LeapYears | services/core/src/finalize/irn_generator.py:108-112 | every fourth year is a leap year, but of the centuries only every fourth |
| Finalize.GenerateIrns | services/core/src/finalize/pipeline.py:384-410 | rows are stamped in place up to the first that cannot be; all are stamped if and only if none fails |
| Finalize.StampSplits | services/core/src/finalize/pipeline.py:392-407 | a generated number splits into the alphanumeric characters of the row's invoice number, in order and as often as they are there, the service and the issue date |
| Finalize.StampedExactly | services/core/src/finalize/pipeline.py:392-410 | when a row is stamped, when refused and when it raises, in terms of its two fields |
| Finalize.AlnumNumbersAreToldApart | services/core/src/finalize/pipeline.py:392-407 | rows whose invoice numbers are letters and digits only, and differ, get different reference numbers |
| Finalize.StampedAlikeExactly | services/core/src/finalize/pipeline.py:384-410 | two rows get the same reference number if and only if the alphanumeric characters of their invoice numbers and their dates are the same: punctuation tells no rows apart |
| Finalize.GenerateQrCodes | services/core/src/finalize/pipeline.py:412-433 | made codes plus warnings are the rows; rows with a refused code stay as they were |
| Finalize.QrCountIs | services/core/src/finalize/pipeline.py:412-433 | the codes counted are those made |
| Finalize.OnlyExceptionsStop | services/core/src/finalize/pipeline.py:412-433 | an exception that is not the library's own stops the run, a refused code does not |
| Finalize.Finalize | services/core/src/finalize/pipeline.py:103-267 | commits if and only if the edits are valid, every row gets a number, no QR code raises and the transaction goes through; otherwise the store is unchanged |
| Finalize.CommittedAgreesWithPreview | services/core/src/finalize/pipeline.py:148-267 | each invoice newly in the store agrees with its preview on every never-editable and tenant column except irn and qr_code_data, carries its generated number, and invoices that were there stay as they were |
| Finalize.CommittedInvoiceCarriesItsNumber | services/core/src/finalize/pipeline.py:384-410 | with the service's columns a new invoice in the store holds the number generated for its row |
| Finalize.CommittedInvoiceCarriesItsCode | services/core/src/finalize/pipeline.py:412-433 | and the QR code made of the row with its number |
| Finalize.CommittedInvoiceIsItsRow | services/core/src/finalize/record_creator.py:220-274 | each stored column of a new invoice, by name, is what its row was submitted with |
| Finalize.CommittedItemIsItsLine | services/core/src/finalize/record_creator.py:276-308 | and each of a new line item what its line was submitted with |
| Finalize.CommittedAmountsAreThePreviews | services/core/src/finalize/pipeline.py:148-267 | identity, date, direction, amounts and the tenant's own party in a new stored invoice are the preview's, by column name |
| Finalize.DefaultsAre | services/core/src/finalize/record_creator.py:228-272 | what the amounts, currency, direction and type of a row are that lacks them |
| Finalize.OtherDefaultsAreNull | services/core/src/finalize/record_creator.py:228-272 | any other column it lacks is null |
| Finalize.PreparedItemsAgreeWithPreview | services/core/src/finalize/pipeline.py:148-267 | line items are handed to the commit as the preview has them, except for the classification fields |
| Finalize.CommittedItemsAgreeWithPreview | services/core/src/finalize/record_creator.py:276-308 | each line item newly in the table is one of some row, has the preview's value in every column but the classification and that row's invoice id, and line items that were there stay as they were |
| RecordCreator.RecordCreator.CommitInvoice | services/core/src/finalize/record_creator.py:220-274 | inserts unless the id is there; raises without invoice_id or invoice_number |
| RecordCreator.RecordCreator.CommitLineItems | services/core/src/finalize/record_creator.py:276-308 | inserts the items in order |
| RecordCreator.RecordCreator.UpsertCustomer | services/core/src/finalize/record_creator.py:310-358 | upserts the counterparty if it has a TIN |
| RecordCreator.RecordCreator.UpsertInventoryFromLineItems | services/core/src/finalize/record_creator.py:360-425 | stocks the first line of each product, with the set of products seen, and counts its name |
| RecordCreator.RecordCreator.CommitRow | services/core/src/finalize/record_creator.py:201-211 | one row: all its statements, or it fails |
| RecordCreator.RecordCreator.CommitBatch | services/core/src/finalize/record_creator.py:177-218 | succeeds if and only if nothing raises and every statement and the commit succeed; then the store is the old one with all rows applied, else it is what it was |
| Tables.InsertsKeepTheFirst | services/core/src/finalize/record_creator.py:93-110 | under ON CONFLICT DO NOTHING old rows stay and a new row is the first one inserted under its key |
| Tables.UpsertsAreAFold | services/core/src/finalize/record_creator.py:115-135 | under ON CONFLICT DO UPDATE insert-only columns are the first supply's, a COALESCEd column is the last non-null one supplied, overwritten columns the last, and the counter counts all supplies but the insert |
| Tables.OccurrencesCountBumps | services/core/src/finalize/record_creator.py:167-175 | a run of counted names adds to a product's occurrences one per name of that product |
| CommitTheorems.RunsAreOneFold | services/core/src/finalize/record_creator.py:197-218 | however batches are cut and whichever fail, the store is the fold over the rows of those that went through |
| CommitTheorems.CommitsAreFolds | services/core/src/finalize/record_creator.py:201-211 | committing rows runs the customer, product and name tables through all supplies in order |
| CommitTheorems.ItemsInserted | services/core/src/finalize/record_creator.py:276-308 | and the line item table through all line items of all rows in order |
| CommitTheorems.CustomersAreTheLastNonNull | services/core/src/finalize/record_creator.py:310-358 | after any run, customer_id is that of the first row with the TIN and each COALESCEd column the last non-null value supplied for it |
| CommitTheorems.StoredCustomer | services/core/src/finalize/record_creator.py:310-358 | in the row's own fields: a new customer's id is that of the first row with its TIN, and each column the last non-null value the rows with that TIN give for their counterparty |
| CommitColumns.StoredCounterparty | services/core/src/finalize/record_creator.py:310-358 | after any run of commits a customer is there under a TIN if and only if it was or it is some row's buyer_tin, going out, or seller_tin, coming in; each column is the last one not null of that party's, by column name |
| CommitColumns.NoCustomerWithoutTin | services/core/src/finalize/record_creator.py:329-331 | a party without a TIN becomes no customer |
| CommitColumns.NewCounterparty | services/core/src/finalize/record_creator.py:333-349 | id, normalised name and type of a new customer are those of the first row with it |
| CommitTheorems.ProductsAreTheLastNonNull | services/core/src/finalize/record_creator.py:140-165 | after any run, each COALESCEd product column is the last non-null one supplied, and total_times_invoiced counts the invoices with the product except the one that created it |
| CommitTheorems.NamesCountNamingInvoices | services/core/src/finalize/record_creator.py:167-175 | a product's variant occurrence counts grow by the number of committed invoices whose first line with it has a non-blank description |
| CommitTheorems.SuppliesOfLines | services/core/src/finalize/record_creator.py:374-381 | an invoice supplies a product at most once, by its first line with it |
| CommitTheorems.StoredProductName | services/core/src/finalize/record_creator.py:383-385 | after any run a product's name is what the last of its first lines with a description that is not null says, a missing one saying the empty text; it is kept if all of them say null |
| CommitTheorems.NameBlankedExactly | services/core/src/finalize/record_creator.py:383-385 | it is blanked if and only if that line lacks a description or has an empty one |
| CommitTheorems.MissingDescriptionBlanksTheName | services/core/src/finalize/record_creator.py:383-385 | a single line without a description overwrites the stored name by the empty text |
| CommitColumns.StoredProduct | services/core/src/finalize/record_creator.py:360-410 | after any run: a product is there if and only if it was or a line has its product_id; each column is the last one not null that the first lines with it give, by column name, and the invoice counter misses the creating one |
| CommitColumns.NewProduct | services/core/src/finalize/record_creator.py:383-404 | the columns set on creation are those of the first line |
| CommitColumns.LastClassification | services/core/src/finalize/record_creator.py:140-165 | the classification is that of the last line |
| CommitColumns.NamesAreCountedExactly | services/core/src/finalize/record_creator.py:412-425 | a name is counted once for every invoice whose first line with the product has it |
| CommitColumns.RowOkExactly | services/core/src/finalize/record_creator.py:220-425 | a row raises nothing if and only if it has both ids, and its party name and the names and ids of its first lines can be read |
| CommitColumns.CountsAre | services/core/src/finalize/record_creator.py:201-425 | the counters count invoices, line items, customers and products inserted or updated |
| CommitTheorems.CommitsKeepWellFormed | services/core/src/finalize/record_creator.py:115-165 | commits keep the column sets of customers and products |
| IngestionQueue.CountedSteps | services/core/src/ingestion/router.py:220-228 | a claim and nothing else takes a row from PENDING to PROCESSING; a recovery and nothing else makes it PENDING again |
| IngestionQueue.BoundedWork | services/core/src/ingestion/queue_scanner.py:149-185 | in every interleaving, at every point, a row has been claimed at most max_attempts + 1 times, retry_count is recoveries plus recorded failures, recoveries are at most max_attempts, and a PROCESSING row has a start time |
| IngestionQueue.OneClaimPerPendingPeriod | services/core/src/orchestrator/router.py:83-99 | between two claims of a row lies a recovery |
| IngestionQueue.StartedByItsClaim | services/core/src/ingestion/router.py:220-228 | in every run a row that is processing has been since a claim, and its start time is the time of that claim |
| IngestionQueue.OnlyOldClaimsAreStale | services/core/src/ingestion/queue_scanner.py:159-185 | recovery, giving up and the stale detector take a processing row if and only if that claim is older than the cutoff |
| IngestionQueue.OnlyProcessingIsStale | services/core/src/ingestion/queue_scanner.py:159-185 | a row that is not processing is left alone |
| IngestionQueue.CompletedByTheLastStamp | services/core/src/orchestrator/pipeline.py:670-697 | in every run the completion time is that of the last failure, preview or stale failure written |
| IngestionQueue.CleanedUpExactly | services/core/src/jobs/cleanup_completed_queue.py:28-36 | the cleanup deletes a row if and only if it is a preview or finalized and that time is older than the cutoff |
| IngestionQueue.ExpiredExactly | services/core/src/orchestrator/jobs.py:83-104 | and the preview cleanup expires it if and only if it is a preview that old |
| IngestionQueue.BoundIsReached | services/core/src/ingestion/queue_scanner.py:149-185 | the bound on claims is reached for every max_attempts |
| IngestionQueue.BlobsAreUnique | services/core/src/ingestion/router.py:45-60 | at any time a blob has at most one row |
| IngestionQueue.CleanedUpBlobsCanReturn | services/core/src/jobs/cleanup_completed_queue.py:28-36 | after the hourly cleanup a blob can be queued again under another id |
| IngestionQueue.EndedForGood | services/core/src/ingestion/queue_scanner.py:149-185 | in no interleaving is an ended row claimed or recovered again: once ended, it is ended or deleted ever after |
| IngestionQueue.EndedKeepsExactlyUntilOverwritten | services/core/src/ingestion/router.py:288-341 | over a run an ended row keeps its status if and only if no such write reaches it |
| IngestionQueue.EndedRowsAreNotStable | services/core/src/ingestion/router.py:220-228 | a claim that matches no row does not stop its worker, and its late failure takes a FINALIZED row to FAILED |
| IngestionQueue.CoreQueue.Send | services/core/src/ingestion/router.py:220-341 | every change of the table is one statement of the run |
| IngestionQueue.CoreQueue.EnqueueBlob | services/core/src/ingestion/router.py:38-81 | refuses a queued blob, else adds one PENDING row |
| IngestionQueue.CoreQueue.ProcessEntry | services/core/src/ingestion/router.py:195-343 | sends claim, ending and failure as its stages go; ends PROCESSED, or FAILED with one more retry, whatever the row was |
| IngestionQueue.StagesSend | services/core/src/ingestion/router.py:195-343 | which statements are sent, stage by stage |
| IngestionQueue.SettlingMeans | services/core/src/ingestion/router.py:288-341 | what a settled row is: processed, or failed with one more retry |
| IngestionQueue.CoreQueue.SelectPending | services/core/src/ingestion/queue_scanner.py:98-110 | picks pending rows by priority, then age, up to the batch size, and leaves none out that comes before a picked one |
| IngestionQueue.CoreQueue.Tick | services/core/src/ingestion/queue_scanner.py:92-147 | an undisturbed tick settles every row of one batch and touches no other |
| IngestionQueue.CoreQueue.RecoverStale | services/core/src/ingestion/queue_scanner.py:149-185 | afterwards no row is stale: attempts left means PENDING with one more retry, none left means FAILED |
| IngestionQueue.CoreQueue.UpdateQueueStatus | services/core/src/orchestrator/pipeline.py:670-697 | one unconditional write; SKIPPED is refused by the table and forgotten |
| IngestionQueue.CoreQueue.ProcessPreview | services/core/src/orchestrator/router.py:46-135 | answers 404, 409 or runs; with other workers between its check and its claim it conflicts exactly if the row was taken meanwhile |
| IngestionQueue.CoreQueue.StaleProcessingDetector | services/core/src/orchestrator/jobs.py:14-70 | fails exactly the rows processing since before the threshold |
| IngestionQueue.CoreQueue.PreviewCleanup | services/core/src/orchestrator/jobs.py:73-109 | expires exactly the previews completed before the threshold |
| IngestionQueue.CoreQueue.CleanupCompleted | services/core/src/jobs/cleanup_completed_queue.py:18-41 | deletes exactly the previews and finalized rows completed before the cutoff |
| CircuitBreaker.CircuitBreaker.GetState | services/core/src/processing/circuit_breaker.py:57-70 | reads OPEN as HALF_OPEN once recovery_timeout has passed since the last failure, and starts counting successes afresh |
| CircuitBreaker.CircuitBreaker.RecordSuccess | services/core/src/processing/circuit_breaker.py:78-90 | half open: closes at success_threshold; closed: ends the run of failures; open: nothing |
| CircuitBreaker.CircuitBreaker.RecordFailure | services/core/src/processing/circuit_breaker.py:92-115 | notes the time; half open: reopens; closed: opens at failure_threshold |
| CircuitBreaker.CircuitBreaker.ForceReset | services/core/src/processing/circuit_breaker.py:117-122 | closes and forgets both counts |
| CircuitBreaker.CircuitBreaker.IsAvailable | services/core/src/processing/circuit_breaker.py:72-76 | available exactly if the state read is not OPEN |
| CircuitBreaker.ClosedCountsTheRun | services/core/src/processing/circuit_breaker.py:78-115 | while closed the failure count is the trailing run of failures since the last success or reset, below the threshold |
| CircuitBreaker.OpensExactlyAtTheThreshold | services/core/src/processing/circuit_breaker.py:105-115 | a failure opens a closed breaker if and only if it completes the run |
| CircuitBreaker.OpenOnlyAfterAFailure | services/core/src/processing/circuit_breaker.py:57-70 | it reads OPEN only within recovery_timeout of a failure |
| CircuitBreaker.HalfOpenIsATrial | services/core/src/processing/circuit_breaker.py:57-70 | half open means: open until a check that no failure preceded by less than the timeout, and since then neither failure nor reset, and fewer successes than asked |
| CircuitBreaker.OpenToClosedTakesATrial | services/core/src/processing/circuit_breaker.py:57-122 | from open to closed without reset lies a failure-free timeout and then success_threshold successes with no failure between |
| CircuitBreaker.FromClosedExactly | services/core/src/processing/circuit_breaker.py:78-115 | closed: the failure that completes the run opens it and nothing else does |
| CircuitBreaker.FromOpenExactly | services/core/src/processing/circuit_breaker.py:57-122 | open: a check with no failure in the recovery timeout before it half opens it, a reset closes it, nothing else moves it |
| CircuitBreaker.FromHalfOpenExactly | services/core/src/processing/circuit_breaker.py:78-122 | half open: the last success of the trial or a reset closes it, a failure opens it, nothing else moves it |
| CircuitBreaker.WholeTrialCloses | services/core/src/processing/circuit_breaker.py:78-90 | a check after a quiet recovery timeout and then success_threshold successes without failure or reset close an open breaker |
| CircuitBreaker.ClosesExactlyAfterATrial | services/core/src/processing/circuit_breaker.py:78-90 | without a reset it closes if and only if such a trial ends |
| CircuitBreaker.ResetCloses | services/core/src/processing/circuit_breaker.py:117-122 | a reset closes from every state |
| Resolver.BestIsTheFirstMax | services/core/src/processing/resolver.py:394-421 | the loop's best is the first of the highest scores over canonical names, then variants, and its match that name's record whenever it is cached |
| Resolver.MatchIsTheArgmaxExactly | services/core/src/processing/resolver.py:409-421 | the match is the record behind the best name if and only if that record is cached or no cached record's name was ever ahead |
| Resolver.ResolutionHasPrecedence | services/core/src/processing/resolver.py:363-454 | if every variant belongs to a cached record: TIN beats RC beats name; an exact key gives the first record with it, at confidence 1.0; the name decides exactly when the best score reaches the threshold and is returned with that score; else the result is provisional |
| Resolver.KeysInWords | services/core/src/processing/resolver.py:363-392 | the first record with the first key, else the first with the second, at confidence 1.0 |
| Resolver.NamesInWords | services/core/src/processing/resolver.py:394-454 | without a matching key: the record behind the first best name, its own or a variant of it, if that reaches the threshold, else a new one |
| Resolver.OrphansMisattribute | services/core/src/processing/resolver.py:409-421 | the hypothesis is needed: a variant of an uncached record lends its score to another customer |
| Resolver.Resolver.ResolveOne | services/core/src/processing/resolver.py:363-534 | the four steps, for customers and for products |
| Resolver.Resolver.FindBest | services/core/src/processing/resolver.py:394-421 | the two loops compute the best |
| Resolver.RecordAllTallies | services/core/src/processing/resolver.py:103-145 | created counts the new resolutions, matched the others, and the dictionary holds each resolution under its id, the last one if several share it, and nothing else |
| Resolver.NewRecordsAreApart | services/core/src/processing/resolver.py:103-145 | over a whole batch every new record has an id that no other resolution and no cached record has |
| Resolver.CreatedAreInTheDictionary | services/core/src/processing/resolver.py:216-218 | the provisional entries of the dictionary are as many as were created |
| Resolver.Resolver.ResolveAll | services/core/src/processing/resolver.py:63-218 | each invoice gets what its queries resolve to; counters and dictionaries are those of these resolutions, over buyers and over all line items; new records have ids of their own |
| Resolver.OverallIsAShare | services/core/src/processing/resolver.py:577-603 | overall confidence is in [0, 1]; with partial confidence up to 0.85 the cap never binds and only rounding separates it from partial plus 0.15 times the average match |
| Resolver.Round4Exactly | services/core/src/processing/resolver.py:603 | rounding goes to the nearest ten-thousandth, from the middle to the even one |
| Resolver.ConfidenceIsAShare | services/core/src/processing/resolver.py:363-454 | match confidence is in [0, 1] |
| Preview.BranchInvoices | services/core/src/orchestrator/preview_generator.py:349-378 | each sheet holds, in order, the rows of the invoices classified into it |
| Preview.IndexFlags | services/core/src/orchestrator/preview_generator.py:363-367 | the index holds each invoice's flags in order |
| Preview.FlagsForFilters | services/core/src/orchestrator/preview_generator.py:363-367 | an invoice's flags are all that carry its index, in order |
| Preview.RowSays | services/core/src/orchestrator/preview_generator.py:386-394 | a failed row carries its stream, or till, and the messages of all its error flags joined |
| Preview.EachInOneSheet | services/core/src/orchestrator/preview_generator.py:349-378 | each invoice is in exactly one sheet, once, and sheets keep the order of the list |
| Preview.ClassifiedByPrecedence | services/core/src/orchestrator/preview_generator.py:380-421 | an invoice goes to the first sheet, in the order failed, duplicate, late, free of charge, unusual, possible B2B, submission, that it qualifies for |
| Preview.FlagsOnlyMoveForward | services/core/src/orchestrator/preview_generator.py:380-421 | a further red flag never moves an invoice to a later sheet, and neither order nor repetition of flags matters |
| Preview.RankIsThePlace | services/core/src/orchestrator/preview_generator.py:380-421 | earlier means earlier in that order |
| Preview.MergeRestoresTheInvoices | services/core/src/orchestrator/preview_generator.py:349-378 | merging the sheets by row index gives the invoice list back |
| Preview.FailedRowsAreAnnotated | services/core/src/orchestrator/preview_generator.py:380-394 | exactly the rows of the failed sheet carry a stream and an error text |
| Preview.SheetsHoldAsManyRows | services/core/src/orchestrator/preview_generator.py:242-245 | the sheets hold as many rows as there are invoices |
| Preview.Generate | services/core/src/orchestrator/preview_generator.py:139-264 | sheets are non-empty and numbered from 1 without gaps; after the invoice sheets come customers and inventory, each if it has rows, and nothing else; totals are the invoice, valid and failed counts |
| Entities.ChainHoldsExactly | services/core/src/data/edit_history_repository.py:53-69 | after an edit the log of a written field ends at its current view if and only if the column reads back as written |
| Entities.EditKeepsChains | services/core/src/data/edit_history_repository.py:53-69 | an edit whose columns read back as written keeps every field's log a chain from the first view to the current one |
| Entities.WindowsMeet | services/core/src/jobs/cleanup_deleted.py:36-43 | a deleted record is at each instant recoverable or purgeable and never both, and what is purgeable stays so |
| Entities.WindowIsOneDay | services/core/src/jobs/cleanup_deleted.py:36-43 | recoverable up to a day after the deletion, purgeable after it |
| Entities.PurgeTakesExactly | services/core/src/jobs/cleanup_deleted.py:27-56 | the purge takes the records deleted more than a day ago and exactly their log rows |
| Entities.PurgeOfOneKind | services/core/src/jobs/cleanup_deleted.py:27-56 | each of its statements takes the records of one kind |
| Entities.WrittenExactly | services/core/src/api/entities.py:60-130 | an edit writes what the column makes of each given value and leaves the other fields |
| Entities.ChangedExactly | services/core/src/data/edit_history_repository.py:53-69 | a field counts as changed if and only if null is replaced or written, or the text differs |
| Entities.EntityService.WriteFieldChanges | services/core/src/data/edit_history_repository.py:30-80 | one log row per changed field, with old and new view, and no other |
| Entities.EntityService.UpdateEntity | services/core/src/api/entities.py:60-130 | logs exactly the changed fields and writes all given ones, or changes nothing |
| Entities.EntityService.DeleteEntity | services/core/src/api/entities.py:133-202 | marks an existing undeleted record as deleted now |
| Entities.EntityService.Recover | services/core/src/api/entities.py:205-253 | succeeds exactly on what is deleted and not yet purgeable |
| Entities.EntityService.CleanupExpired | services/core/src/jobs/cleanup_deleted.py:27-56 | removes exactly the purgeable records, and from the log exactly their rows, and counts the records |

## Left out

- Timestamps are integers, or reals where only differences matter; time zones and formats are not modelled, and event data is opaque.
- Event ledger: `write_in_transaction` (its rows are in flight like any other), the tenant row counts in the watermark (they are only as fresh as the cache), and database errors other than a failed ledger write.
- One clock reading serves a whole fan-out; the code reads its clock once per full queue, microseconds apart.
- SSE stream frames, the connected event and JWT expiry: the stream is the client taking items from its queue.
- Catch-up queries that PostgreSQL rejects (a pattern ending in a lone backslash) appear only as "does not run".
- Text operations that belong to Python or its libraries are parameters: float and ISO date parsing, upper-casing, name normalisation, similarity scores (any function into [0, 1]), `isalnum`, decimal digits, the QR library.
- NaN, unhashable transaction types, and invoice numbers that are lists of characters.
- Submitted rows keep the numbers and codes stamped on them when a later step of finalize fails; only the store is restored.
- Audit log, metrics, HIS feedback, Edge transmission and notifications are taken not to raise; none of them can undo a commit.
- The database transaction is taken to be atomic, and each statement to succeed or fail as an oracle says; one company, so two companies' TINs cannot clash on `CUST-{tin}`.
- Queue ids are taken to be fresh (`FreshIds`), as UUIDs are; so are the ids of provisional records.
- Constant columns of committed invoices and items: status, company, batch, created and updated times.
- Partial counters of a commit that fails.
- Key order in Python sets is unspecified, so violations and accepted changes are bags.
- Queue jobs: a job's statements are committed together or not at all, so a job that fails halfway is one that sent nothing.
- Queue rows: priority range, error messages, `updated_at`, cancellation, and the pipeline itself between its claim and its last write.
- The statements of `services/core/src/database/repositories/queue_repository.py`: no code calls its writers, and only `get_entry` is used, to read.
- Resolver: the fields of customers and products besides keys and names, red flags, averages, and the cache loading queries.
- Resolver.OverallIsAShare: arithmetic is exact except for the final rounding to four digits, because binary floating point is not the point there.
- Preview: lateness is a parameter, and display names, columns, report, packing, encryption and upload are not modelled.
- Preview.Classify: the valid count is the number of rows in the submission sheet; whether they can be submitted is not claimed.
- Entities: permissions, fields derived on write (normalised name, updated_by), and restoring children of a purged record.
- HTTP handlers, authentication, middleware, reports, exports, the simulator, the seed script and the Relay service.
