# LogWeave: a verified model of its guarantees

LogWeave is a log pipeline. Applications push log events through a transport with a
durable spool; an API parses, preprocesses and clusters them and stores rows in a
column store; raw batches are archived in an S3 bucket, and background sweeps ingest,
reconcile, compact and recover what went wrong. This project models the parts whose
comments promise something (no loss, exactly-once effect, a watermark that skips
nothing, bounded memory) and proves what the code keeps of those promises, under
which hypotheses, and where it does not keep them.

`dafny verify dfyconfig.toml` checks everything.

## How it is laid out

| files | subject |
|---|---|
| Base, Runs | shared datatypes; runs of a step relation, and induction over them |
| Keys, Compaction, CompactionSweep | the compaction protocol, and the sweep that is a run of it |
| Notify, Reconcile, ReconcileProtocol, ReconcileLiveness | queue and consumer, the reconcile sweep, its safety over runs and its progress |
| ArchiveProtocol | compaction, reconcile sweep and consumer on one archive |
| Events, SpoolProtocol, IngestProtocol, Delivery, DeliveryLiveness, Spool, Idempotency | durable delivery end to end, what of it can be held up, and the classes it is made of |
| ClusterClient, Ingest, IngestRefinement | the clusterer client with its circuit breaker, one batch through the pipeline, and that this is a step of the protocol |
| Regex, RegexFacts, Preprocess, Drilldown, Patterns, Longest, Alignment, Soundness, Converse | a backtracking matcher, the six replacements, the template compiler, what their patterns match and which match is taken, their agreement, and where it ends |
| Recovery | the recovery sweep |
| TransportBuffer, TailRing | the two bounded buffers |
| Anomaly, Silence, RateLimit | counters and windows against unbounded histories |
| Internal, Ipv6, Base32 | which addresses are internal, and two arithmetic codecs |

Objects with mutable fields are classes whose methods are proved against functions of
the old state; protocols that span processes are step relations whose runs include
crashes and restarts at any point. S3, the column store, the network, the clock and the
clusterer are oracles: replies, page sizes, failures and interleavings are arbitrary.

## Hypotheses

- Compaction: keys of landed objects are fresh and not marked as compacted; equal ids of
  a tenant mean equal events; no two read sets that were compacted share a digest,
  which holds no slash (`CollisionFree`), and a listing comes in the order of the keys. Events are the parseable
  lines of an object. By itself, compaction is safe if no original is ingested again between
  the submission of the mutation that repoints its rows and the end of its job (this guard
  of `Ingest` is exact: `ReingestedDanglesIff`). Together with the sweep and the consumer,
  which re-ingest, it is safe if a mutation is submitted only when the watermark has passed
  its sources and none of them is queued or held by the consumer (`CarefulIsSafe`; exact:
  `SubmissionRacesIff`). There the sweep is the only one that queues keys, as it is where
  ingestion is forwarded to the archive.
- Reconciliation: originals are new and land above what the sweep in flight has claimed
  (`LandingIsForgottenIff`: one that does not can be forgotten, and no other can); no two
  writes of the watermark share a version (that the versions rise is not needed); one
  sweeper per tenant at a time. Deletions are free: what they cost is in
  `NothingIsForgotten` and `DeletedIsForgottenIff`.
- Delivery: any callers send any batches, each with its own parser, service, forbidden
  names and explicit key. `ExactlyOnce` is about an event that is `Sheltered`: nothing
  else is sent under its id, all batches with it read the same service and level off it,
  and no batch under the key of one of them can stand for it without keeping it. That is
  so where equal ids mean equal events, and all batches of the tenant carry the same
  options and have digests of their ids for keys, as those of one pump do
  (`AlikeIsSheltered`); callers who differ in options or choose keys of their own are
  not covered, and `OnceIff` says exactly when they are. The digest of a sorted id list
  is injective; the ids that the server makes up are new; the recovery sweep is off,
  since it inserts rows without their event id. Safety holds for pumps that peek any number
  of events; what can be delivered is told for pumps of one fixed batch size, which may post
  any stretch of what was spooled.
- Rate limits: the exact bound holds for keys that belong to one tenant each, as they do
  in the key store; the bound of twice the limit does not need it.
- Recovery: row ids are unique, and the database generates fresh ones, which rise. During
  a sweep ingestion may add any rows between the pages, but finitely many in all; nobody
  else deletes rows.
- Silence evaluations do not overlap, clocks do not go back, and thresholds are
  positive.

## Where the code does less than its comments say

- `ProgressIffNoWall`: a full listing of compacted keys stops the reconcile sweep for
  good, although quarantine is there to keep later objects from starving.
- `DeletedIsForgottenIff`: an original that compaction deletes before the reconcile sweep
  has found it in the table or given it up is passed over without an operator event. With
  the submissions that `CarefulIsSafe` asks for that does not happen either.
- `StoredIffSafe`: a batch can be acknowledged without being stored, if another batch was
  recorded under its key that does not keep all of its events. An explicit key is any text
  a caller chooses, so that two batches of different events can share one.
- `StoredIffNamed`: where keys are digests of ids, an event without an id, in a batch that
  has ids, can be acknowledged without being stored.
- `OneKeyIffFixed`: an event without a time or without an id can stay in the table twice,
  because either is made up anew each time it is ingested; and so can an event that takes
  its service or its level from batches which disagree on it.
- `UnprintableIsStuck`: a numeric time beyond what a date can print makes every retry of
  its batch fail, even if the level gate would stop the event, and the event and all that
  were spooled after it stay in the spool, and so do those ahead of it in its batch
  (`BatchIsStuck`). Which events can still be delivered is told by `DeliverableIff`.
- `SubmissionRacesIff`: compaction does not ask where the watermark is. A mutation that is
  submitted while one of its sources is above it, queued or held by the consumer lets the
  sweep find that source missing, once its rows are repointed, and the consumer insert rows
  of an object that is then deleted. `AllCanBeCalm`: the condition can be waited for.
- `BoundIffCap`: a transport cap of zero retains one event.
- `AccountIffLimit`: a tail poll with a limit of zero passes over everything.
- `MissedIsExact`: the gap flag of a tail poll can be raised when nothing was missed.
- `MostIsReached`: a minute can admit up to twice the limit of a key, in two bursts
  around a reset. Where no key limit is under the tenant's, it is one request less than
  twice the tenant's limit.
- `FindsAllIffNoToken`: the template of a message that holds the text of a value
  placeholder does not match the whole message, if the message has no `<*>` and its
  template no `<TS>`. It can still match a part of it, or nothing at all
  (`TokenInMessageIsLost`); with a `<*>` it can match all of it (`WildcardHidesToken`).

## Model

| member | source | states |
|---|---|---|
| Compaction.CompactionIsCrashSafe | services/api/src/archive/compaction-sweep.ts:183-231 | over every run of landings, ingestion and any number of compactions, each of which can stop for good inside any step: whatever was in a live object at some point is in a live object at every later point, and a row that named a live object holding its event does so from then on |
| Compaction.StepKeepsInv | services/api/src/archive/compaction-sweep.ts:188-231 | every step keeps the protocol invariant: each landed object is live or merged into a live compacted one, a compacted object is the merge of its sources as they landed, no row names a source of a job that has repointed, and none that came after its submission names a source of a mutation under way |
| Compaction.StepKeepsGood | services/api/src/db/archive-compaction-queries.ts:12-27 | no step, a partial or complete repointing included, breaks a row that could be drilled into |
| Compaction.MergeKeepsAll | services/api/src/archive/compaction-sweep.ts:194-212 | the compacted object holds every event of its sources if and only if equal ids mean equal events among them |
| Compaction.NoEventIsLost | services/api/src/archive/compaction-sweep.ts:215-229 | in every state of a run each event that ever landed has a live object |
| Compaction.PutIsIdempotent | services/api/src/archive/compaction-sweep.ts:215-224 | a retry over the same readable objects rebuilds the identical object |
| Compaction.ReingestedDanglesIff | services/api/src/archive/compaction-sweep.ts:226-229 | the hypothesis on re-ingestion is exact: in every state a row inserted now for an original that landed can be left dangling, in some run, if and only if a submitted mutation of a job that has not ended has the original among its sources, or the original is gone |
| ArchiveProtocol.CarefulIsSafe | services/api/src/archive/reconcile-sweep.ts:156-217 | over every run of compaction, reconcile sweep, queue and consumer together, if mutations are submitted only when their sources are calm: no event is lost, a row that can be drilled into always can, a row that the consumer inserts names an object that is there, and every original up to the watermark, deleted or not, was found in the table or quarantined |
| ArchiveProtocol.SubmissionRacesIff | services/api/src/archive/compaction-sweep.ts:226-229 | what a submission has to ask for: with no race under way before it, a run leaves a row of the consumer without its object if and only if a source is held by the consumer, or is there and queued or above the watermark |
| ArchiveProtocol.RaceIff | services/api/src/archive/compaction-sweep.ts:226-229 | the same for every state: with careful submissions from now on some run leaves such a row if and only if a source of a mutation under way is not calm, or the consumer holds an object that is gone |
| ArchiveProtocol.StepKeepsPeace | services/api/src/archive/reconcile-sweep.ts:165-186 | every step keeps that: the sweep enqueues only keys above the watermark, which never goes back, and the consumer reads only what is queued and there |
| ArchiveProtocol.AllCanBeCalm | services/api/src/archive/reconcile-sweep.ts:204-217 | the condition can be met: once rows name all originals that are there, a sweep and a consumer that is done make every key calm |
| CompactionSweep.CallIsRun | services/api/src/archive/compaction-sweep.ts:183-231 | every call, with every outcome, is a run of the step relation in a system with any other jobs in progress, so the run theorems hold across calls |
| CompactionSweep.OriginalsCanGo | services/api/src/archive/compaction-sweep.ts:183-231 | the protocol is not vacuous: originals that landed can end up merged and deleted, with their events in the compacted object |
| CompactionSweep.Sweep.CompactPartition | services/api/src/archive/compaction-sweep.ts:183-231 | the exact bucket and table after a call, fault by fault: nothing is written when a read fails or fewer than two originals yield events, only the compacted object when the answer to its PUT is lost, and some rows are repointed when the mutation fails; originals go only when all of them are; it throws exactly when something failed. The target is named after the partition and the digest of the read set |
| CompactionSweep.Sweep.ReadSources | services/api/src/archive/compaction-sweep.ts:194-213 | the read set is the originals that yield events, in order, the merge is their deduplication, and a failing read aborts |
| CompactionSweep.Sweep.DeleteObjects | services/api/src/connectors/s3-adapter.ts:458-479 | deletion in chunks of a thousand: which keys go, and that it throws exactly when some key is reported or stays |
| CompactionSweep.GroupOriginals | services/api/src/archive/compaction-sweep.ts:147-157 | each partition gets its originals in listing order, and compacted objects are in no group |
| CompactionSweep.CallMayStart | services/api/src/archive/compaction-sweep.ts:139-170 | if the digest of the read set is that of no other one compacted before, the naming of keys gives what the protocol asks of a new job: sources and target are the tenant's own, sources are originals, the target is marked as compacted, and if it is there it was made of the same sources; and the call keeps the naming |
| CompactionSweep.CallLeavesOthers | services/api/src/archive/compaction-sweep.ts:217-231 | a call on another partition or another read set, however it ends, leaves a compacted object in place as it is |
| CompactionSweep.ReadableIs | services/api/src/archive/compaction-sweep.ts:194-213 | the read set is exactly the originals that can be read and yield events, in listing order |
| Keys.CompactedKeyIsMarked | services/api/src/archive/compaction-sweep.ts:217-221 | the name of a compacted object is recognised as such and stays in its partition |
| Keys.CompactedKeyTells | services/api/src/archive/compaction-sweep.ts:217-221 | the name of a compacted object tells the partition and the digest of the read set: no two pairs of them share one |
| ReconcileProtocol.NothingIsForgotten | services/api/src/archive/reconcile-sweep.ts:156-217 | over every run (pages, lookups, walks, failing writes, restarts, deletions, any change of the table): the watermark never decreases, and every original that ever landed at or below it was found in the table by some sweep, or quarantined, or was deleted before either |
| ReconcileProtocol.StepKeepsInv | services/api/src/archive/reconcile-sweep.ts:156-217 | each step keeps the watermark invariant together with what the sweep in flight has claimed of the key space |
| ReconcileProtocol.QuarantinedIff | services/api/src/archive/reconcile-sweep.ts:186-204 | a gap is retried before it is given up: over every run, a key is quarantined if and only if some walk listed it and missed it for the quarantineThreshold-th time (or twice as many, and so on) since it was last found or the process restarted; so every original up to the watermark was found, or missed that often, or deleted before either |
| ReconcileProtocol.ConfirmedWasThere | services/api/src/archive/reconcile-sweep.ts:170-176 | whatever a sweep of a run has found was listed by it and had its rows in the table at a point of the run when it was looked up |
| ReconcileProtocol.FoundIs | services/api/src/db/archive-reconcile-queries.ts:63-77 | a lookup of the protocol finds those of its keys that the table has, and no others |
| ReconcileProtocol.RunHasRounds | services/api/src/archive/reconcile-sweep.ts:156-217 | every run has the rounds that `QuarantinedIff` is about |
| ReconcileProtocol.LandingBelowIsForgotten | services/api/src/archive/reconcile-sweep.ts:157-163 | the first hypothesis is needed: an original that lands at or below the watermark is never found or given up in any run |
| ReconcileProtocol.LandingIsForgottenIff | services/api/src/archive/reconcile-sweep.ts:157-217 | the hypothesis on landings is exact: in every state a new original can be passed over while it is there, in some run, if and only if it lands at or below what the sweep in flight has claimed, that is the watermark, the last key listed while another page is asked for, else the last original listed, the key before the first gap if all the rest is found, or the mark to be written |
| ReconcileProtocol.DeletedIsForgottenIff | services/api/src/archive/reconcile-sweep.ts:165-174 | an original that is gone can be passed over unsettled, in some run, if and only if it was deleted before it was found or quarantined and has not been since; so none is forgotten where no deletion precedes that |
| ReconcileProtocol.ArchiveIsUnbounded | services/api/src/archive/reconcile-sweep.ts:165-170 | the archive order meets what the two equivalences ask: above any keys there is another original |
| ReconcileProtocol.WriteKeepsInv | services/api/src/db/archive-reconcile-queries.ts:39-55 | with distinct versions the watermark read after a write is the old one or the new one, also when the clock goes back |
| ReconcileProtocol.ListingIsPage | services/api/src/connectors/s3-adapter.ts:403-434 | what the listing returns is a page of the protocol: no key after the cursor is left out up to its last, and none at all when it is not full |
| ReconcileLiveness.ProgressIffNoWall | services/api/src/archive/reconcile-sweep.ts:156-217 | over a fixed bucket the watermark gets past every original, whatever the table answers, if and only if no full listing of compacted keys stands before an original; and then within quarantineThreshold sweeps for each original |
| ReconcileLiveness.FirstIsPassed | services/api/src/archive/reconcile-sweep.ts:174-217 | no wedge: the first listed original is passed within quarantineThreshold sweeps whatever is missing and whatever other miss counts are |
| ReconcileLiveness.WatermarkWaits | services/api/src/archive/reconcile-sweep.ts:186-204 | the other bound: until an original has been missed in quarantineThreshold sweeps the watermark stays below it, whatever the rest of the bucket and the answers |
| ReconcileLiveness.NeverBehindWall | services/api/src/archive/reconcile-sweep.ts:167-170 | an original behind a full listing of compacted keys is never passed, after any number of sweeps |
| ReconcileLiveness.ReconcileTenant | services/api/src/archive/reconcile-sweep.ts:156-217 | one sweep moves watermark and miss counts as the step that the progress theorem is about |
| Reconcile.ListObjectKeys | services/api/src/connectors/s3-adapter.ts:403-434 | paging, for every page size the server chooses, returns exactly the first maxKeys keys after the cursor, in order |
| Reconcile.ReconcileSweep.Walk | services/api/src/archive/reconcile-sweep.ts:174-217 | the new miss counts, the quarantined keys, the number of gaps, what the queue is left with, and the watermark before the first gap that still blocks |
| Reconcile.GivenUpIff | services/api/src/archive/reconcile-sweep.ts:186-204 | after any rounds of sweeps and restarts, a walk gives a key up if and only if it lists and misses it and that makes quarantineThreshold misses since it was last found or the process restarted; and a missed key blocks the watermark exactly until then |
| Reconcile.PassedIff | services/api/src/archive/reconcile-sweep.ts:174-204 | the new watermark is at or past a listed key if and only if each listed key up to it was found or has been missed that often |
| Reconcile.MissesAreCounted | services/api/src/archive/reconcile-sweep.ts:186-204 | the miss count that is kept of a key is that of the rounds that listed and missed it in a row, from zero again once it was given up |
| Reconcile.ReconcileSweep.ExistingSourceRefs | services/api/src/db/archive-reconcile-queries.ts:63-77 | chunked lookup under a changing table: only references present in some request are found, and all that are present throughout |
| Reconcile.ArchiveOrderIsTotal | services/api/src/archive/reconcile-sweep.ts:174-178 | the lexical order that watermark and listing share is total and transitive |
| Notify.NotifyQueue.Enqueue | services/api/src/archive/notify-queue.ts:35-44 | bounded and idempotent per reference: the exact new queue, and drops are counted exactly when it is full of other references |
| Notify.NotifyQueue.Dequeue | services/api/src/archive/notify-queue.ts:47-51 | oldest first, at most n, and what was taken may be enqueued again |
| Notify.NotifyConsumer.ProcessItem | services/api/src/archive/notify-consumer.ts:100-132 | success and final failure forget the attempts; any other failure counts and re-enqueues |
| Notify.NotifyConsumer.DrainOnce | services/api/src/archive/notify-consumer.ts:81-98 | one tick takes up to a batch, oldest first, none while the circuit is open, and leaves exactly the attempts and the queue that its items make, one after another |
| Notify.SuccessesAre | services/api/src/archive/notify-consumer.ts:81-98 | the number that a tick returns is that of the items that did not fail |
| Notify.TriesAreBounded | services/api/src/archive/notify-consumer.ts:81-132 | over every run of the queue and the consumer, with notifications between the items of a tick, overlapping copies, full queues and restarts, a reference is tried at most maxAttempts times per new enqueueing |
| Notify.DrainIsRun | services/api/src/archive/notify-consumer.ts:81-98 | what the contract of a tick says is a run of those steps |
| Notify.BudgetIsSpent | services/api/src/archive/notify-consumer.ts:116-131 | the bound is reached: a reference enqueued once that keeps failing is tried exactly so often |
| Delivery.ExactlyOnce | packages/transport/src/spool/pump.ts:132-163 | over every run of retries, overlapping batches, lost replies, expiry, eviction, concurrent duplicates and crashes of either side, with any other callers: of an event with an id that is sheltered there is at most one row after collapsing, and exactly one, its own, when any batch with it that let it pass was acknowledged |
| Delivery.AlikeIsSheltered | packages/transport/src/spool/pump.ts:166-190 | every event with an id and a time is sheltered where equal ids mean equal events and the tenant's batches carry the same options and digests of their ids for keys |
| Delivery.NothingIsLost | packages/transport/src/spool/pump.ts:140-154 | an event that was spooled, that parses, passes and cannot be hidden, is in the spool, in the table, or reported |
| Delivery.UnprintableIsStuck | services/api/src/pipeline/ingest.ts:62-66 | an event that parses and whose numeric time cannot be printed fails every call it is in, whether or not the level gate would stop it, so it is never delivered; unless it is refused it stays in the spool, and so does every event that was spooled after it |
| DeliveryLiveness.BatchIsStuck | packages/transport/src/spool/pump.ts:132-163 | with a fixed batch size an event that throws holds up its whole batch: in every run from a state with no loop out, no event of the stretch of that size around it, ahead of it or behind, is delivered, and each stays in the spool with all that was spooled after it unless it is refused |
| DeliveryLiveness.HeldUpStays | packages/transport/src/spool/pump.ts:132-163 | the same from every state of a run, with any loops out, for every event that is not open: it is in no batch, out or to come, that can be answered with a 2xx |
| DeliveryLiveness.DeliverableIff | packages/transport/src/spool/pump.ts:132-163 | from every state of a run, with any loops out, an event in the spool can still be delivered, in some run of pumps with a fixed batch size, if and only if it is open: some batch that is out, or that the pumps come to going on from the spool as it is or as a loop that is out leaves it, has the event and none that throws |
| DeliveryLiveness.IdleIsDeliverableIff | packages/transport/src/spool/pump.ts:134 | while no loop is out that is: no event throws in the stretch of the batch size that has it, counted from the head of the spool |
| DeliveryLiveness.EventsAreDelivered | packages/transport/src/spool/pump.ts:132-146 | the system is not vacuous: from nothing, with every batch size, every event with an id whose time does not throw can be spooled, posted, stored and deleted |
| SpoolProtocol.SpoolIsHistory | packages/transport/src/spool/pump.ts:132-163 | under any interleaving of writers, overlapping pump loops, stops and crashes the spool is the insertion history minus a prefix, exactly the events of the prefix were answered with a 2xx or reported, and the count stays within the larger of cap and initial size |
| SpoolProtocol.DeletedIsSuffix | packages/transport/src/spool/sqlite-spool.ts:102-115 | deleting a batch by its ids, also one that another loop has deleted in part, leaves a suffix of the history |
| Spool.SpoolStore.Delete | packages/transport/src/spool/sqlite-spool.ts:102-115 | a delete is all or nothing, and equals removing the ids of the batch at once |
| Spool.SpoolStore.PeekOldest | packages/transport/src/spool/sqlite-spool.ts:92-100 | the oldest n rows, none for n at most zero |
| Spool.SpoolWriter.Enqueue | packages/transport/src/spool/backpressure.ts:88-112 | the event is spooled at once or after the first wait that leaves room, and otherwise dropped and reported; the cap bounds what it adds |
| Spool.Pump.Run | packages/transport/src/spool/pump.ts:132-164 | the loop over any replies, arrivals and stops: the exact table, deletions in order, reports and backoff; what is gone followed by what is left is what there was followed by what arrived; and an event was reported if and only if a batch with it got a 4xx other than 429 |
| Spool.Pump.TakeTurn | packages/transport/src/spool/pump.ts:133-163 | one turn of the loop is that of the next two rows, and a stop ends the loop |
| Spool.TurnIsByCode | packages/transport/src/spool/pump.ts:134-204 | by status code: a batch leaves the spool on 200 to 299, and with a report on 400 to 499 other than 429, and the backoff is zero then; after 429, 500 and more, any other code or no reply the spool keeps every event, nothing is reported, and the backoff is the initial one or doubles up to its maximum |
| Spool.ReportedIff | packages/transport/src/spool/pump.ts:132-204 | over any turns an event is reported if and only if a batch with it got a 4xx other than 429 before a stop, and deleted if and only if one got that or a 2xx |
| Spool.TurnsConserve | packages/transport/src/spool/pump.ts:132-163 | turns delete a prefix and nothing else, and what is reported is deleted |
| Spool.BackoffDoubles | packages/transport/src/spool/pump.ts:159-161 | after k transient outcomes the backoff is the initial one doubled k-1 times, capped from the second on |
| IngestProtocol.StepKeepsInv | services/api/src/pipeline/idempotency.ts:68-95 | for any batches, options and explicit keys, each server step keeps: a cached key stands for a batch that was sent under it and whose kept events are stored, an acknowledged batch is stored or another of its key is, and every row is one that a batch that was sent makes under its options |
| IngestProtocol.OneKeyIffFixed | services/api/src/db/schema.ts:53-68 | an event's rows collapse to one in every run if and only if, over the batches that can store it, it has an id and a time and is read with one service and one level; otherwise a run leaves two rows |
| IngestProtocol.StoredIffSafe | services/api/src/pipeline/ingest.ts:142-171 | an acknowledged batch has stored an event that it keeps in every run if and only if it throws, or no batch sent under its key, explicit or computed, keeps another event through a gate, that is a least severity no stricter than the level of this event in its own batch, that stops this one; otherwise a run takes it for a replay of that batch |
| IngestProtocol.OnceIff | services/api/src/pipeline/ingest.ts:126-171 | both together: an event is there exactly once, in every run, if and only if it fixes its key and no batch under the key of a batch with it can hide it |
| IngestProtocol.AlikeIsOnce | services/api/src/pipeline/idempotency.ts:14-25 | an event with an id and a time meets that condition where equal ids mean equal events and the tenant's batches carry the same options and digests of their ids for keys |
| IngestProtocol.StoredIffNamed | services/api/src/pipeline/ingest.ts:142-171 | where options are the same, keys are digests of ids and callers may put another event without an id in the place of one, an acknowledged batch has stored an event in every run if and only if the event has an id or the batch has no key |
| IngestProtocol.ReplayIsRecorded | services/api/src/pipeline/ingest.ts:147-152 | a batch is answered from the cache only if a batch that was sent under the same key is stored |
| IngestProtocol.BatchKeyIs | services/api/src/pipeline/ingest.ts:142-150 | a header that is not empty is the key; without one there is a key if and only if some event that parses has an id, and it is the digest of those ids |
| Idempotency.IdempotencyCache.GetCachedResult | services/api/src/pipeline/idempotency.ts:76-85 | a hit is the last result recorded under that key and is not expired, and an entry that is there and not expired is a hit |
| Idempotency.IdempotencyCache.RecordResult | services/api/src/pipeline/idempotency.ts:88-95 | the new entry is found, in the place of its key or last; no other changes but the one inserted first, which goes only when the cache is full; never more than the maximum |
| Idempotency.PutIsLast | services/api/src/pipeline/idempotency.ts:88-95 | entries keep the order in which their keys were inserted, and a new key comes last |
| Idempotency.LastRecordedIs | services/api/src/pipeline/idempotency.ts:88-95 | what a hit returns is the last entry of the log under the key |
| Ingest.IngestBatch | services/api/src/pipeline/ingest.ts:112-339 | which of the outcomes a batch has; parse errors, filtered and accepted add up to the input; the rows that are written are those of the events that parse and whose level passes the gate, of no others, each once and in order, with the event's own service, level, id and time or the time of ingest, and with its message exactly when it has no template; row i has the template that the reply has for it (or all none), the counts are those of the rows, and the tags of row i are read from its own event |
| Ingest.KeptAre | services/api/src/pipeline/ingest.ts:126-161 | the items behind the gate are the events that parse and whose level passes, and no others, each once and in order |
| Ingest.CountsAre | services/api/src/pipeline/ingest.ts:182-207 | the counts are the number of rows with a template and of those with a new one |
| Ingest.CountsAddUp | services/api/src/pipeline/ingest.ts:182-207 | clustered and unclustered add up to accepted, one row each, and new templates are clustered |
| Ingest.BuildRows | services/api/src/pipeline/ingest.ts:177-207 | the rows and their counts; clustered and unclustered add up to accepted if and only if the clusterer gave a result for every item |
| Ingest.ExtractTags | services/api/src/pipeline/ingest.ts:261-291 | the two loops collect the tags that the next row is about |
| Ingest.TagsAre | services/api/src/pipeline/ingest.ts:261-291 | there is one tag for each pair of a row and a key under which that row's own event has a value of one to 256 characters, with that value, and no other; they come by row and then by key |
| Ingest.ItemIsItsEvent | services/api/src/pipeline/ingest.ts:126-140 | item i is the parse of its own event, and items keep the order of their events |
| IngestRefinement.StoredIsInserted | services/api/src/pipeline/ingest.ts:126-257 | what the pipeline writes of a batch is, row by row and key by key, what the protocol's insert adds to the table for it: the two models of ingestion agree on which events are kept and on their sorting keys |
| IngestRefinement.ThrowsAlike | services/api/src/pipeline/ingest.ts:126-140 | and they agree on which batches throw |
| Events.ExtractedIs | services/api/src/pipeline/parse.ts:60-98 | a field is the text under the first of its names that is there, at the top before under `fields`; it is none where a name is forbidden or that text is empty |
| Events.SeverityIs | services/api/src/tail/types.ts:31-45 | the six level names in any case rank from TRACE to FATAL, and any other text counts as INFO |
| Base.UpperIs | services/api/src/tail/types.ts:41-44 | upper case is letter by letter that of the alphabet, and leaves all else alone |
| ClusterClient.ClusterClient.Finish | services/api/src/pipeline/cluster-client.ts:98-181 | every path gives one result per message: those of the clusterer, with the failures reset, exactly on a 2xx whose body is well formed and has one for each, else all unclustered and one failure more |
| ClusterClient.ClusterClient.Begin | services/api/src/pipeline/cluster-client.ts:90-96 | while open, exactly every probeInterval-th call goes out: of the first k, floor(k / probeInterval) |
| ClusterClient.ClusterClient.OnFailure | services/api/src/pipeline/cluster-client.ts:183-193 | under any interleaving the circuit is open exactly when failures in a row reach the threshold |
| Soundness.DrilldownFindsMessage | services/api/src/connectors/template-regex.ts:35-82 | for every message without the six value tokens whose template has at most 4096 characters, the compiled template matches the whole message |
| Soundness.LongTemplateFindsMessage | services/api/src/connectors/template-regex.ts:40-44 | a longer template still matches at the start of the message when the cut splits no token |
| Converse.FindsAllIffNoToken | services/api/src/connectors/template-regex.ts:35-82 | for every message without `<*>` whose template has at most 4096 characters and no `<TS>`: the compiled template matches the whole message if and only if the message holds none of the six value tokens |
| Converse.ScanLoses | services/api/src/connectors/template-regex.ts:47-79 | what the compiled literals have of `<` is no more than the message has, and less when the message holds a value token |
| Converse.PartsTake | services/api/src/connectors/template-regex.ts:14-22 | whatever compiled parts match has exactly the `<` of their literals, if none of them is a wildcard or a timestamp |
| Converse.WildcardHidesToken | services/api/src/connectors/template-regex.ts:14-22 | the condition on `<*>` is needed: for `<*><ID>` and any number of twelve to fifteen digits the template matches all of the message |
| Soundness.TokenInMessageIsLost | services/api/src/connectors/template-regex.ts:47-74 | a message that holds a token can be lost altogether: `<ID>` is its own template, and the expression matches nowhere in it |
| Soundness.ScanMatches | services/api/src/connectors/template-regex.ts:52-79 | the parts of an aligned template match the original text piece by piece |
| Alignment.PassesAreAligned | services/api/src/pipeline/preprocess.ts:51-57 | each pass keeps an alignment between the current template and the original message |
| Alignment.SpanIsFound | services/api/src/connectors/template-regex.ts:14-22 | whatever a preprocessing pattern replaces, the drill-down pattern of its token can consume |
| Preprocess.PreprocessIsIdempotent | services/api/src/pipeline/preprocess.ts:10-57 | preprocessing twice is preprocessing once, for every string |
| Preprocess.PassesAreFree | services/api/src/pipeline/preprocess.ts:10-57 | after the passes none of the patterns matches anywhere, the word-boundary ones included |
| Preprocess.StaysFree | services/api/src/pipeline/preprocess.ts:53-55 | a later pass cannot give an earlier pattern a match: no window of plain characters spans an inserted token |
| Preprocess.PreprocessMessage | services/api/src/pipeline/preprocess.ts:51-57 | the loop computes the six ordered global replacements |
| Patterns.PatternIs | services/api/src/pipeline/preprocess.ts:10-45 | what each of the six patterns matches, character by character, for every text and span: the groups of a UUID, a timestamp with its fraction and zone, the lengths and characters of an email, four octets, and runs of 16 hexadecimal or 6 decimal digits, the last three between word boundaries |
| Patterns.TokenSpells | services/api/src/pipeline/preprocess.ts:10-45 | the texts of the six tokens |
| Longest.FirstIsLongest | services/api/src/pipeline/preprocess.ts:10-45 | the match that the engine's backtracking comes to first is the longest at its position, for each of the six patterns, greedy and optional parts included |
| Longest.PassReplaces | services/api/src/pipeline/preprocess.ts:51-57 | without the engine: a pass puts its token in the place of the leftmost longest value of its kind and goes on behind it, and leaves a text without one as it is |
| Drilldown.TemplateToRegex | services/api/src/connectors/template-regex.ts:35-82 | the compiling loop equals the scan by characters, with truncation, the wildcard budget and the empty template |
| Drilldown.EscapeReadsBack | services/api/src/connectors/template-regex.ts:31-33 | an escaped literal reads back as the literal, for every text |
| Drilldown.SyntaxIs | services/api/src/connectors/template-regex.ts:31-33 | the characters that are escaped are exactly the fourteen of the source's class |
| Drilldown.WildcardsAreBudgeted | services/api/src/connectors/template-regex.ts:24-74 | the compiled expression has as many wildcards as the first 4096 characters of the template hold, but at most 64 |
| Drilldown.CaseIsIgnored | services/api/src/connectors/template-regex.ts:82 | a compiled template that matches a line matches it in any case of its letters |
| Patterns.FinderIs | services/api/src/connectors/template-regex.ts:14-22 | what the expression of each value token matches, character by character, for every text and span |
| Regex.EndsAreMatches | services/api/src/pipeline/preprocess.ts:10-45 | the backtracking matcher, greedy and lazy, finds exactly the declarative matches |
| Recovery.RecoverySweep.Sweep | services/api/src/recovery/reconcile.ts:160-212 | with any rows arriving between the pages the sweep ends; at every write each payload is there at least as often as at the start, and at the end, without faults, exactly as often as it was or has arrived; at no write is there a row with neither a template nor a message that was not there or did not arrive so; at most maxRows rows; fetched ids rise, so no row is fetched twice; every eligible row, the ones that arrived included, is fetched unless the maximum is recovered or the clusterer is slow; and when nothing fails each row that is fetched is gone, with a row of its payload and the template that the clusterer gave it in its place |
| Recovery.BatchConserves | services/api/src/recovery/reconcile.ts:218-312 | no payload is lost wherever a crash falls between or within the two writes, and none is added when both succeed |
| Recovery.BatchRows | services/api/src/recovery/reconcile.ts:246-287 | a batch makes no row eligible, leaves all other rows alone, and removes what it recovered |
| Recovery.FailingTenantIsBounded | services/api/src/recovery/reconcile.ts:286-309 | a tenant whose deletes always fail is inserted anew in at most five batches per process |
| Recovery.RecoverySweep.RecoverTenantBatch | services/api/src/recovery/reconcile.ts:218-312 | the exact tables after each write for every fate, whose new rows are told by the next row, and the count returned |
| Recovery.NewRowAt | services/api/src/recovery/reconcile.ts:255-277 | the row that is inserted for the i-th recovered one has a new id, its tenant and payload, the clusterer's template, and no message |
| Recovery.BatchPutsIn | services/api/src/recovery/reconcile.ts:246-287 | a batch whose insert succeeds has, for each row it recovers, a row of the same tenant and payload with the clusterer's template and without the message |
| Recovery.PageIsRising | services/api/src/recovery/reconcile.ts:47-57 | a page holds eligible rows above the cursor by rising id |
| Recovery.PageIsComplete | services/api/src/recovery/reconcile.ts:47-57 | a page leaves out no eligible row up to its last |
| TransportBuffer.BufferManager.Push | packages/transport/src/buffer.ts:79-111 | the exact evicted prefix, what stays active or is flushed, with active plus in-flight within the cap, pushes in order in exactly one place, and eviction work at most ten times what was dropped |
| TransportBuffer.BufferManager.Evict | packages/transport/src/buffer.ts:89-106 | eviction drops the oldest active events down to the low-water mark less what is in flight |
| TransportBuffer.EvictionIsLeast | packages/transport/src/buffer.ts:67-106 | an eviction leaves as much as it may: with what is in flight at most nine tenths of the cap or one event, and one event more would be over both |
| TransportBuffer.BufferManager.TriggerFlush | packages/transport/src/buffer.ts:128-148 | the whole active buffer goes out as one batch unless it is empty or a batch is in flight |
| TransportBuffer.BufferManager.Settle | packages/transport/src/buffer.ts:140-147 | once the flush has landed, well or not, its batch counts as flushed and memory is free again |
| TransportBuffer.BufferManager.Drain | packages/transport/src/buffer.ts:162-166 | all active events are handed over, in order, and none is left |
| TransportBuffer.BufferManager.Destroy | packages/transport/src/buffer.ts:172-178 | what is buffered stays as it is; from then on a push changes nothing |
| TransportBuffer.BoundIffCap | packages/transport/src/buffer.ts:67 | the cap bounds what a push retains if and only if it is not zero |
| TransportBuffer.TotalsAddUp | packages/transport/src/buffer.ts:79-166 | flushed, in-flight, dropped and drained events add up to what has left the buffer |
| TailRing.PollsDeliverOnce | services/api/src/tail/buffer.ts:102-140 | over every run of pushes, expiries and polls from the start a client has been handed, once each and in order, the matching pushes up to its cursor, except those that left the ring before and that it was told of |
| TailRing.MissedIsExact | services/api/src/tail/buffer.ts:112-118 | the missed estimate is the number of pushes that left unseen; the gap flag is raised for them and also when nothing was missed but the cursor stands right before the oldest |
| TailRing.AccountIffLimit | services/api/src/tail/buffer.ts:120-132 | a poll keeps the account if and only if it asks for at least one event or nothing live matches |
| TailRing.TenantRing.Push | services/api/src/tail/buffer.ts:77-86 | the slots read from the start index hold the last pushes with consecutive numbers, through every wrap |
| TailRing.TenantRing.GetSince | services/api/src/tail/buffer.ts:102-140 | the scan of the ring answers as defined on the sequence of pushes |
| TailRing.TenantRing.Reset | services/api/src/tail/buffer.ts:283-288 | an expired ring starts over empty, its numbering goes on |
| Anomaly.AnomalyScorer.CountersAreExact | services/api/src/pipeline/anomaly-scorer.ts:479-497 | whatever was pruned, a counter of the current or previous interval counts the eligible events of the whole history |
| Anomaly.AnomalyScorer.RecordAndScore | services/api/src/pipeline/anomaly-scorer.ts:169-201 | the score is that of the event's count over the whole history |
| Anomaly.AnomalyScorer.WatchAgrees | services/api/src/pipeline/anomaly-scorer.ts:208-243 | at the instant an event is counted the watch sees the score that it got |
| Anomaly.AnomalyScorer.GetWatchedScores | services/api/src/pipeline/anomaly-scorer.ts:208-243 | exactly the watched templates with a positive score by the history, with their counts and baselines |
| Anomaly.AnomalyScorer.GetServiceSilenceScores | services/api/src/pipeline/anomaly-scorer.ts:294-337 | the silent set is exactly the one defined from history and baselines |
| Anomaly.ExpectedGrows | services/api/src/pipeline/anomaly-scorer.ts:301-309 | what is expected of a service adds up the baselines of that tenant, service and hour, each once |
| Anomaly.AnomalyScorer.ActualIsCount | services/api/src/pipeline/anomaly-scorer.ts:311-320 | what the counters of an interval add up to over templates is the number of eligible events of the service |
| Anomaly.AnomalyScorer.PruneOldCounters | services/api/src/pipeline/anomaly-scorer.ts:479-497 | pruning leaves every counter of the current and previous interval alone |
| Anomaly.AnomalyScorer.ReplaceBaselines | services/api/src/pipeline/anomaly-scorer.ts:390-398 | one tenant's baselines are replaced, the last row of a key winning, and no other tenant's change |
| Anomaly.LastOfIs | services/api/src/pipeline/anomaly-scorer.ts:390-398 | the row that wins is the last one under its key |
| Anomaly.RecentIsTracked | services/api/src/pipeline/anomaly-scorer.ts:490-496 | a pair with a clustered event in the last two hours is tracked |
| Anomaly.ScoreIsMonotone | services/api/src/pipeline/anomaly-strategy.ts:74-88 | a score is zero or at least one and does not fall as the count rises |
| Anomaly.ScoreIs | services/api/src/pipeline/anomaly-strategy.ts:74-88 | which counts score and what: those over the absolute threshold where there is no baseline, else those that reach the warmup or the steady multiple of the baseline, which counts for at least one |
| Anomaly.AnomalyScorer.ScoresIff | services/api/src/pipeline/anomaly-scorer.ts:169-201 | by the clock and the history: an event scores if and only if it is clustered, its pair is past the cold start, and the events of its five minutes reach what is due for its hour and age |
| Silence.JudgedIsSpaced | services/api/src/watches/silence-evaluator.ts:122-156 | any two silence alerts for one service are a cooldown apart although cooldown entries are pruned |
| Silence.SilenceEvaluator.Evaluate | services/api/src/watches/silence-evaluator.ts:82-159 | the exact firing set; exactly the silent services that are out of cooldown are alerted, and exactly those that fired, are not silent and are still tracked are resolved; the count is that of silence alerts |
| Silence.JustifiedIff | services/api/src/watches/silence-evaluator.ts:82-140 | which alerts that is, by the reports alone: of a service that is silent and had none for a cooldown, or a resolve of one that fired, is not silent and is still tracked; none for a tenant in maintenance |
| Silence.FiringAfterEvaluation | services/api/src/watches/silence-evaluator.ts:103-150 | after an evaluation the firing services of an evaluated tenant are its silent ones, those of a tenant in maintenance are as before, and there are no others |
| Silence.SilenceEvaluator.Resolve | services/api/src/watches/silence-evaluator.ts:103-120 | a resolve is sent exactly for a service that fired, is not silent, and is still tracked |
| Silence.FiredIsRight | services/api/src/watches/silence-evaluator.ts:122-140 | exactly the silent services that are due are alerted and start a cooldown; all other cooldowns stay |
| RateLimit.MinuteIsBounded | services/api/src/middleware/rate-limit.ts:76-119 | over every history that the limiter has had, any half-open minute admits at most twice the limit of a key bucket, and of a tenant, and no more than the exact maximum where keys have an owner |
| RateLimit.GroupsAreBounded | services/api/src/middleware/rate-limit.ts:65-73 | which limit is whose: ingest routes, raw-log routes and the others have their own, each below twice the tenant's |
| RateLimit.TwiceTheLimit | services/api/src/middleware/rate-limit.ts:25-36 | the same for any key of any history that respects its windows, and one less where every window of the key begins with an admission |
| RateLimit.AdmitsAtMost | services/api/src/middleware/rate-limit.ts:76-119 | the exact maximum of a bucket in any half-open minute of any history: twice the smaller of key limit and tenant limit if some group's key limit is under the tenant's, else one less than twice the tenant's limit |
| RateLimit.MostIsReached | services/api/src/middleware/rate-limit.ts:76-119 | for all options and buckets some history of the limiter, in which each request is admitted exactly when both its windows have room, reaches that maximum |
| RateLimit.BucketsTrail | services/api/src/middleware/rate-limit.ts:25-36 | where no key limit is under the tenant's, a window of a bucket that began after the tenant's has less in it, so every window of the tenant begins with an admission |
| RateLimit.RateLimiter.Handle | services/api/src/middleware/rate-limit.ts:60-129 | a request is admitted exactly when, by the history alone, both its windows have room |
| RateLimit.RateLimiter.Cleanup | services/api/src/middleware/rate-limit.ts:48-57 | dropping expired windows keeps the agreement with the history, so it is not observable |
| RateLimit.RejectedConsumesNothing | services/api/src/middleware/rate-limit.ts:87-115 | a rejected request changes no count |
| Ipv6.ExpandReadsSpelling | services/api/src/connectors/safe-fetch.ts:65-93 | every legal spelling (leading zeros, one `::`, a dotted tail) expands to the hextets that it spells |
| Ipv6.VerdictIgnoresSpelling | services/api/src/connectors/safe-fetch.ts:95-124 | two spellings of one address get one verdict |
| Ipv6.MappedIsJudgedAsIpv4 | services/api/src/connectors/safe-fetch.ts:108-113 | a mapped address, however spelt, gets the verdict of its IPv4 address |
| Ipv6.InternalIff | services/api/src/connectors/safe-fetch.ts:95-124 | the verdict on every legal spelling by the ranges of its hextets: mapped and compatible addresses as IPv4, unspecified, loopback, unique local, link-local and multicast ones internal |
| Internal.InternalIffListed | services/api/src/connectors/safe-fetch.ts:43-58 | the internal IPv4 addresses are exactly those of eight blocks, as ranges of 32-bit numbers |
| Ipv6.DottedExpands | services/api/src/connectors/safe-fetch.ts:67-75 | a dotted tail reads as the two groups in its place |
| Base32.GenerateKey | services/api/src/auth/api-key-store.ts:453-470 | the register, although it overflows, always has the unread bits in its low bits: the digits of the key spell all the bits of the bytes five at a time, but for the last few that fill no digit |
| Base32.ShiftKeepsPending | services/api/src/auth/api-key-store.ts:461 | shifting in keeps the pending bits whatever is lost at the top of the register |
| Base32.EncodedIsRfc | services/api/src/auth/api-key-store.ts:453-470 | on whole groups of five bytes the encoder is that of section 6 of RFC 4648, and 20 bytes give 32 characters |
| Base32.DecodesIffWhole | services/api/src/auth/api-key-store.ts:456-457 | a key determines its bytes if and only if their number is a multiple of five |
| Base32.Decodes | services/api/src/auth/api-key-store.ts:453-470 | the digits of whole groups decode to the bytes |

## Left out

- The dashboard, the MCP server, HTTP routes, configuration, logging, metrics and SQL analytics.
- S3, STS, SQLite and the column store themselves, AES, scrypt and HMAC; SHA-256 is taken to be injective.
- The clusterer's own algorithm: its results are arbitrary.
- `memory-spool.ts` and the simulator would only add easier members.
- Parsing an object's bytes into events (`s3-adapter.ts` `fetchObjectEvents`): an object is its parseable events.
- The age gate of a partition (`compaction-sweep.ts` `isClosed`) and the loop of `compactTenant` over partitions: safety holds for any set of calls, with or without the gate.
- Timed flushing of the transport buffer, `recent` of the tail buffer, and the memory ceiling over all tenants.
- ReconcileProtocol.StepKeepsInv: the queue and the consumer are not part of its state; the table changes arbitrarily instead, which covers whatever they do. `ArchiveProtocol` has them, for one tenant.
- ArchiveProtocol.RaceIff: both exact conditions are for archives whose keys above the watermark fit one listing, because a key behind a full listing of compacted keys is never listed; safety does not need it. The bound of the queue and the retries of the consumer are covered by dropping keys at any time.
- ArchiveProtocol.CarefulIsSafe: the notify route, through which any key can be queued from outside, is not a step.
- Delivery.ExactlyOnce: asks that every gate setting of the run let the event pass, because a level that the gate stops at the time of ingest is not stored.
- IngestProtocol.OneKeyIffFixed: upper case of a level is taken for the letters a to z only, and the values of an event's fields are texts.
- The mode in which the ingest route forwards a batch to Vector (`routes/ingest.ts:31-38`) and answers before it is stored; what the archive's consumer then ingests is a batch like any caller's.
- Idempotency.IdempotencyCache.GetCachedResult: keys are pairs of tenant and batch key rather than their concatenation, and ids are compared by text, not as UUIDs regardless of case.
- Recovery.FailingTenantIsBounded: counts batches whose insert was acknowledged, because an insert that succeeds but reports an error is not counted by the code either, and is repeated by later sweeps.
- Anomaly.AnomalyScorer.RecordAndScore: keys are tuples rather than strings joined by a null character, which names cannot contain, and the clock is read once per call.
- The recovery sweep's start gates (circuit, health check) and timers of all loops.
- Silence.SilenceEvaluator.Evaluate: a dispatch is taken to succeed.
- RateLimit.GroupsAreBounded: which paths belong to which group of routes is not modelled.
- RateLimit.RateLimiter.Handle: the response headers and the time to retry after are not modelled.
- TransportBuffer.BufferManager.Push: nine tenths of the cap are computed exactly, not in floating point, and callbacks do not push.
- Soundness.DrilldownFindsMessage: ignoring case is modelled for ASCII letters only, and the compiled expression is built from its parts rather than from the text they join to; each literal part is read back from its escaped text.
- Ipv6.MappedIsJudgedAsIpv4: the IPv4 verdict is modelled on octets, and the decimal text in between is left out, as are the validation by `isIP`, brackets and zone ids.
- Ipv6.ExpandReadsSpelling: `::` may also stand for no group at all, which the code accepts and the standard does not.
- Ingest.IngestBatch: of an event's parse, id, time and tags only the outcome is modelled; the order of the time fields, the unit of numeric times and the text of a UUID are not, and neither are the event bus and the metrics.
- Spool.SpoolWriter.Enqueue: the clock is abstracted to the waits that start before the deadline.
- Base32.GenerateKey: the register is modelled as its 32 bits read without sign; the signed view has the same bits.
