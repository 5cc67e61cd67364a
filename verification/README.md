# A verified model of the marketplace's Go services

Two Go services of the marketplace carry protocols that are hard to get right by reading. This
project models them in Dafny and proves what they promise over whole runs.

**The search index (search-service).** Product events reach a consumer late, twice, out of order or
again after a failure. Each is applied in one transaction over a ledger of event ids, a lock per
product, tombstones of deleted products, and a conditional upsert or delete. A job later drops old
ledger and tombstone rows.

- `ProductEvents` is one call of the store as a single step; `IndexConvergence` proves that the rows are
  the last-writer-wins result of the events, whatever their order and duplication, and exactly when
  they depend on nothing but the set of events.
- `IndexRetention` adds capped sweeps between calls and proves them invisible to timely events.
- `IndexTransactions` breaks a call into its statements, lets any number of them interleave under the
  product lock, the ledger's unique key and row visibility, and proves the result serial.
- `IndexSweeps` lets the sweeps in between those statements too, picking rows on one snapshot and deleting
  them by product id later, without the product lock. It says exactly when they stay invisible, and gives
  a run in which a tombstone raised in between is lost.
- `IndexStore` is the store as classes and statements, each method proved equal to the step.
- `Broker` and `Consumer` are the queues, the retry counter, the dead-letter queue, failed publishes,
  lost acks and crashes. `BrokerOutcomes` says exactly when an event can end up both applied and
  dead-lettered, and what the drained index then holds; `BrokerAttempts` shows that the bound on store
  calls is attained.

**Admission and resilience (chat-service).**

- `QuotaKeys`, `QuotaAdmission`, `QuotaRemaining`, `Limiter`: counter keys, the ICT calendar, the in-flight
  latch and the tiers of counters, with requests overlapping at every increment, and the exact meaning of
  the reported `Remaining` under that overlap.
- `TokenBucket`, `BurstGate`: the per-subject bucket with eviction. Levels are scaled by the refill
  period, so they are integer nanoseconds and the arithmetic is exact.
- `KillSwitch`, `CircuitBreaker`, `Provider`, `ProviderRequests`: the switch, the breaker over overlapping
  calls, and the breaker around the retrier around a client of any behaviour, as classes and as
  overlapping requests.
- `QuestionText`, `ReplyLog`, `ReplyCache`: the normal form of a question and the cache keyed by it.
- `BotPrompt`, `BotGate`: what the model is asked, and the bot endpoint that puts the gates in order.
- `Outbox`, `HubRooms`, `HubDelivery`, `Hub`: a connection's bounded queue, the rooms, fanouts while
  connections come and go, and the path of one message.
- `Conversations`, `ChatStore`, `Inbox`: finding or creating conversations and seats under races, and
  appending messages.

**How it is written.** A protocol is a pure step function with lemmas over every run; a class whose
methods the service calls keeps the service's fields, loops and branches and is proved equal to that
step function, or against a stated property. A method under a mutex is one step. Each clock reading is an
argument. Failures of the database, the broker and the provider are arguments or steps, including a
commit or an increment that lands although its reply is lost.

**Assumptions.**

- An event id stands for one event (`WellIdentified`, `Identified`), where a theorem says so.
- A publish that returns nil is durable.
- For `GarbageCollectionInvisible` and `InterleavedSweepsInvisible`: an event whose tombstone is read after a
  sweep is stamped no earlier than the sweep's horizon (`Timely`, `AllTimely`). It is a hypothesis and is not
  derived from queue lifetimes, because a retried message re-enters the main queue with a fresh one.
  `SweepExposedIff` says exactly which event breaks it, and `SweepsInvisibleIff` does without it.
- Clocks do not run backwards between locked steps of one component. The burst gate and the limiter read
  the clock before they take their lock, so for them this orders the readings with the lock.
- New UUIDs are fresh; user and shop ids are in canonical form; SHA-256 does not collide, so a cache key
  is its normalised question.
- Lower-casing and white space are parameters (`Unicode`): lower-casing is per character, idempotent, and
  keeps white space apart from the rest.

**Where the code and its documentation part.** The code was kept, and the difference is proved.

- The comment on `AppendMessage` (chat-service/internal/store/store.go:80-82) promises that the inbox
  never shows a message older than the newest. Overlapping appends break this, because the inbox line is set
  without a comparison: `OverlapShowsStale` and `OverlapIsReached` give the runs. `AlwaysNewestIff` gives the
  missing guard: a run always shows the newest message exactly when every commit finds nothing newer on show.
  `SerialShowsNewest` shows that appends that do not overlap pass it.
- Two upserts of a product with one `updatedAt` and different documents leave the row to the order of
  delivery. `OrderIndependentIff` shows this is the only way the order can matter.
- "At most four attempts" holds when every handling ends in full. A failed publish sends the message back with
  its old counter, so failed publishes alone buy any number of calls, without one lost connection:
  `AttemptsBounded` gives the bound in terms of requeues and leftover copies, and `BoundIsAttained` a run that
  attains it for every such history. `DeadOnlyAfterFour` is the other side:
  unless it expires, nothing is dead-lettered with fewer than four calls.
- "The drained index is what is not in the dead-letter queue" fails for an event whose message outlives its
  commit (`LostAckEndsBoth`) and for one published twice (`RepublicationEndsBoth`). `CanEndBothIff` says exactly
  which events can still end both ways, `OnceAndCleanIsNotExposed` that nothing but these two makes one so, and
  `ProductIndex` and `OnceAndCleanIndex` what the index of a product then is, whatever happens to others.
- A full connection is closed, but between the sender that finds the queue full and its close a later frame
  can still be queued (`LaterFramePasses` is such a run). `NoSilentGap` says that an open connection has a gap
  exactly in that window.
- The retention job compares a tombstone with its horizon only in the sub-select
  (search-service/internal/index/retention.go:213-220); the outer DELETE matches the product id alone, so a
  tombstone that a later deletion raises in between is deleted as well. An update older than that deletion
  then shows the product again although every update is timely: `RaisedTombstoneExposes` is the run.
  `SweepsInvisibleIff` says exactly when sweeps stay invisible over a run: no update commits that finds no row
  and is as old as a deletion whose tombstone was swept. `InterleavedSweepsInvisible` shows that timely updates
  meet this when no removed tombstone was raised past its horizon.
- A trip of the breaker does not keep it open until its deadline: `TripUndone` is a run that admits a call at
  once. `AdmittedEarlyIff` says exactly when a call is admitted before the deadline, and
  `OnlyStaleSuccessReopens` that it takes a success of a call admitted before the trip.

## Model

| member | source | states |
|---|---|---|
| IndexConvergence.Converges | search-service/internal/index/store.go:114-239 | After any deliveries a product's row is present iff its newest upsert is strictly newer than its newest delete, and holds that upsert's document; tombstones cleared and rewritten on the way do not show |
| IndexConvergence.OrderIndependent | search-service/internal/index/store.go:114-239 | Two runs of the same set of events, in any order and multiplicity, give the same rows when upserts that tie for newest agree |
| IndexConvergence.OrderIndependentIff | search-service/internal/index/store.go:154-171 | ... and that condition is necessary: otherwise some reordering changes a row |
| IndexConvergence.ApplyKeepsMatch | search-service/internal/index/store.go:131-239 | One call keeps the two tables in step with the newest delete and the newest visible upsert of each product |
| ProductEvents.LedgerIsIds | search-service/internal/index/store.go:99-109 | The ledger is exactly the ids of the events delivered |
| IndexConvergence.OutcomeMeans | search-service/internal/index/store.go:95-197 | What a call reports, told from the events before it: a duplicate iff its id came before; tombstone-blocked only if a deletion at or after the update was delivered, and always then if no row is on show; and only a call that reports neither moves a row or a tombstone |
| IndexRetention.GarbageCollectionInvisible | search-service/internal/index/retention.go:154-245 | With capped deletions of old ledger and tombstone rows between calls of the store, the visible rows are those of the run without them, if events are timely |
| IndexSweeps.SweepsInvisibleIff | search-service/internal/index/retention.go:213-245 | With picks, removals and ledger deletions between the statements of overlapping transactions, and events arriving whenever they like: the rows are at every moment those of the committed events without any sweep iff no update commits that finds no row and is as old as a deletion whose tombstone was swept |
| IndexSweeps.InterleavedSweepsInvisible | search-service/internal/index/retention.go:154-245 | Timely updates meet that condition, provided no tombstone was raised to its sweep's horizon or later between the sub-select and its deletion |
| IndexSweeps.RaisedTombstoneExposes | search-service/internal/index/retention.go:213-226 | Without that proviso they do not: a legal run, each update timely, where the tombstone is raised after it was selected, deleted by product id, and a deleted product comes back |
| IndexRetention.SweepExposedIff | search-service/internal/index/retention.go:213-226 | Exactly which next event shows that a tombstone was swept |
| IndexTransactions.Serializable | search-service/internal/index/store.go:95-239 | Any interleaving of the statements of any number of transactions, with aborts and commits whose confirmation is lost, ends in the serial result of the committed ones in commit order; each id takes effect at most once, with its ledger row; whoever was told anything but an error was told the truth |
| IndexTransactions.InterleavedConverges | search-service/internal/index/store.go:95-239 | So convergence holds of interleaved transactions too |
| IndexTransactions.SomeoneCanMove | search-service/internal/index/store.go:114-239 | Locks and ledger waits never deadlock |
| IndexTransactions.CommitIsApply | search-service/internal/index/store.go:114-239 | What a transaction read under its lock is still true when it commits, so its writes are those of one atomic call |
| IndexStore.MarkProcessed | search-service/internal/index/store.go:99-109 | Reports a duplicate iff the id is in the ledger; adds that id alone |
| IndexStore.Store.UpsertProduct | search-service/internal/index/store.go:114-197 | Commits exactly one atomic upsert or changes nothing; a duplicate or a blocked update is reported as such, a blocked one still entering the ledger |
| IndexStore.Store.DeleteProduct | search-service/internal/index/store.go:201-239 | Commits exactly one atomic delete or changes nothing |
| IndexStore.OldestExpired | search-service/internal/index/retention.go:213-245 | Takes expired rows only, as many as the cap allows, oldest first |
| IndexStore.Store.DeleteExpiredTombstones | search-service/internal/index/retention.go:213-226 | Removes such a batch of tombstones and nothing else |
| IndexStore.Store.DeleteExpiredProcessedEvents | search-service/internal/index/retention.go:231-245 | Removes such a batch of ledger rows and nothing else |
| IndexStore.Store.DeleteExpired | search-service/internal/index/retention.go:154-175 | One pass is a sweep of the retention model: the oldest expired batch of each table, either of which may fail alone; rows are untouched |
| Broker.MessagesConserved | search-service/internal/broker/consumer.go:291-527 | Each body's copies in the queues and its settled deliveries equal its publications and the copies lost acks left behind |
| Broker.NothingLost | search-service/internal/broker/consumer.go:291-527 | A published event the consumer recognises is in main, retry or dead-letter queue, in delivery, or applied; the index is the run of the applied calls |
| Broker.DrainedIndex | search-service/internal/broker/consumer.go:291-517 | With main and retry empty, the rows are the last-writer-wins result of published events missing none outside the dead-letter queue |
| BrokerOutcomes.OnceAndCleanIsNotExposed | search-service/internal/broker/consumer.go:291-517 | An event published at most once, none of whose own handlings left its message behind a commit, is never both applied and in a queue, whatever happens to other messages |
| BrokerOutcomes.CanEndBothIff | search-service/internal/broker/consumer.go:291-527 | From any state an event can still end both applied and dead-lettered, without another publication or unclean handling of it, iff it is applied and still queued, or queued twice with a copy to deliver |
| BrokerOutcomes.ProductIndex | search-service/internal/broker/consumer.go:291-517 | ... and its row is then exactly the last-writer-wins result of those, under conditions on that product's events alone |
| BrokerOutcomes.OnceAndCleanIndex | search-service/internal/broker/consumer.go:291-517 | By history alone: that is so when each event about the product was published once and no handling of it left a copy in the queues after its commit, or two copies |
| BrokerOutcomes.LostAckEndsBoth | search-service/internal/broker/consumer.go:232-242 | A run with one publication where the connection dies between a commit and its ack, and the redelivery expires: the event is both indexed and dead-lettered |
| BrokerOutcomes.RepublicationEndsBoth | search-service/internal/broker/consumer.go:232-242 | The same with no failure at all, by a second publication that expires |
| Broker.AttemptsBounded | search-service/internal/broker/consumer.go:428-569 | At most four store calls per publication, plus one per requeue and three per copy left behind; four when every handling ends in full |
| BrokerAttempts.BoundIsAttained | search-service/internal/broker/consumer.go:428-569 | For any publications, requeues and leftover copies that a run can have there is a run that makes as many calls; without copies it loses no connection, so failed publishes alone buy any number of calls |
| BrokerAttempts.CopiesWithinRequeues | search-service/internal/broker/consumer.go:428-527 | There are never more leftover copies than requeues, so those are all the cases |
| Broker.RetryIsLighter | search-service/internal/broker/consumer.go:480-498 | Each retry leaves strictly fewer attempts |
| Broker.VerdictTells | search-service/internal/broker/consumer.go:291-569 | Unknown types are acked and defective bodies dead-lettered whatever the database does; an event whose call is not known to have committed is retried with its count raised by one, unless that was three or more or cannot be read: then it is dead-lettered |
| BrokerAttempts.DeadOnlyAfterFour | search-service/internal/broker/consumer.go:428-517 | In every run in which nothing expires in the main queue, an event is dead-lettered only after at least four store calls, whatever fails and however often its messages are requeued |
| Consumer.HandleMessage | search-service/internal/broker/consumer.go:291-421 | One delivery is one step of the broker model, for every body, failure point and publish outcome |
| Consumer.ProcessResult | search-service/internal/broker/consumer.go:428-477 | Ack, retry, dead-letter or requeue as the verdict says; nothing is acked before its copy is accepted |
| Consumer.Channel.SendToRetry | search-service/internal/broker/consumer.go:480-498 | One copy with the raised counter in the retry queue, or nothing |
| Consumer.Channel.SendToDLQ | search-service/internal/broker/consumer.go:504-517 | One unchanged copy in the dead-letter queue, or nothing |
| Consumer.Channel.NackRequeue | search-service/internal/broker/consumer.go:523-527 | The delivery returns to the main queue unchanged |
| QuotaKeys.NextDayIsFirst | chat-service/internal/quota/quota.go:116-128 | now + untilNextDay(now) is the first instant of the next ICT date |
| QuotaKeys.NextHourIsFirst | chat-service/internal/quota/quota.go:131-135 | now + untilNextHour(now) is the first instant of the next ICT hour |
| QuotaKeys.CalendarIsIct | chat-service/internal/quota/quota.go:20-22 | Dates and hours are those of UTC+7: a date begins at 17:00 UTC |
| QuotaKeys.DayKeysIdentify | chat-service/internal/quota/quota.go:47-52 | Two subjects share a day key iff they are the same account, or guests of one IP |
| QuotaKeys.HourKeysIdentify | chat-service/internal/quota/quota.go:59-61 | Two hour keys agree iff account and hour agree |
| QuotaKeys.KeyKindsDisjoint | chat-service/internal/quota/quota.go:47-61 | A day key, an hour key and the global key never collide |
| QuotaAdmission.LimitsHold | chat-service/internal/quota/limiter.go:108-152 | Over every interleaving and any counter errors no tier admits more than its limit; a subject raises the global counter at most its own daily limit; an hourly refusal raises the hour's counter alone |
| QuotaAdmission.ChargeTells | chat-service/internal/quota/limiter.go:108-163 | For every subject, state of the rows and faults: which row is asked in which order, and what the caller is told, the reason and the wait spelt out for each tier that refuses, and what remains for one that is admitted |
| QuotaAdmission.CeilingRefuses | chat-service/internal/quota/limiter.go:139-152 | If no counter fails, a charge is refused as global, until the next ICT midnight, exactly when the subject is within its own limits and the global row stands at its limit |
| QuotaAdmission.BusyIsTurnedAway | chat-service/internal/quota/limiter.go:63-99 | While a request is on the latch another of its key is told to come back in three seconds, and nothing else changes |
| QuotaAdmission.LatchAndCountersExact | chat-service/internal/quota/limiter.go:63-189 | In every reachable state a key is in flight iff exactly one request holds it, and every counter equals the increments that landed |
| QuotaAdmission.ReleaseOnce | chat-service/internal/quota/limiter.go:166-189 | Once released, a grant called again changes nothing, whoever holds the key by then |
| QuotaRemaining.RemainingIsExact | chat-service/internal/quota/limiter.go:108-152 | Over every interleaving of increments: of the subject's requests charged after an admission that reported m, in that hour and day and without a counter failure of its own, exactly the lesser of their number and m get past its own tiers |
| QuotaRemaining.RunKeepsRight | chat-service/internal/quota/limiter.go:63-189 | While a request is on the latch nobody else raises its rows: they stand where they answered it, and an admission reports what those answers leave |
| QuotaAdmission.ChargeIsRun | chat-service/internal/quota/limiter.go:108-163 | A charge computed in one go is a run of the increments it makes, with any faults |
| Limiter.Limiter.Charge | chat-service/internal/quota/limiter.go:108-152 | The imperative charge is that model's charge, for every counter fault; `ChargeTells` says what it answers |
| Limiter.Limiter.Acquire | chat-service/internal/quota/limiter.go:63-79 | Denied in flight without counting; otherwise charged; a refusal or failure leaves the latch as it was |
| Limiter.Limiter.Reserve | chat-service/internal/quota/limiter.go:91-99 | The latch alone: no counter is touched |
| Limiter.Limiter.Release | chat-service/internal/quota/limiter.go:166-189 | The first call frees the key, any later one nothing |
| Limiter.Counter.IncrementBotUsage | chat-service/internal/store/query.sql:130-138 | Raises one row by one and answers the new count; a failed call may have landed |
| TokenBucket.RateLaw | chat-service/internal/quota/burst.go:70-100 | In any window, admissions times refill are at most capacity times refill plus the window's length |
| TokenBucket.AdmittedIff | chat-service/internal/quota/burst.go:70-100 | A call is admitted iff, counting it, the admissions of its key since any earlier call of the key cost at most capacity times refill plus the time since: capacity and refill decide every call of every run |
| TokenBucket.FreshBurst | chat-service/internal/quota/burst.go:70-100 | A new key is admitted capacity times at one instant, and then asked to wait one refill period |
| TokenBucket.RetryAfterIsExact | chat-service/internal/quota/burst.go:91-96 | A refused key that stays quiet is admitted exactly from RetryAfter on |
| TokenBucket.EvictionUnobservable | chat-service/internal/quota/burst.go:110-132 | A table that sweeps idle buckets answers every call of every run as one that never does |
| BurstGate.Burst.Allow | chat-service/internal/quota/burst.go:70-100 | The imperative gate is that table's step |
| BurstGate.Burst.MaybeSweep | chat-service/internal/quota/burst.go:110-132 | On the beat of the calls drops exactly the buckets idle for longer than a full refill |
| KillSwitch.OffIffCovered | chat-service/internal/killswitch/switch.go:44-75 | A reading is before the mark iff some positive trip still covers it: the mark is their maximum in any order |
| KillSwitch.OffUntilMidnight | chat-service/internal/killswitch/switch.go:63-75 | After a global refusal's trip it is off until the next ICT midnight, whatever trips precede or follow |
| KillSwitch.Switch.Enabled | chat-service/internal/killswitch/switch.go:44-54 | On iff switched on by hand and past the mark |
| KillSwitch.Switch.TripFor | chat-service/internal/killswitch/switch.go:63-75 | Only ever extends; a duration that is not positive is ignored |
| CircuitBreaker.ProbeAndCount | chat-service/internal/bot/breaker.go:70-130 | A probe is in flight iff half-open, and failures stay below five, under any overlap |
| CircuitBreaker.CounterIsFailureRun | chat-service/internal/bot/breaker.go:97-157 | The counter is the number of records that blame the provider, by the kinds of their errors, since the last success, rate-limited failure, failed probe or fifth failure |
| CircuitBreaker.RecordDecides | chat-service/internal/bot/breaker.go:97-157 | What one record does, by the kinds of its error: a bad or blocked request, a cancellation, a timeout after something was delivered, or no error closes and clears; a rate limit or a failed probe opens for a minute; any other error counts |
| CircuitBreaker.FiveFailuresRefuse | chat-service/internal/bot/breaker.go:70-157 | From any state: five records in a row that blame the provider, with any calls in between, open it, and nothing is admitted after them for a minute from the first |
| CircuitBreaker.FourFailuresPass | chat-service/internal/bot/breaker.go:70-157 | Up to four such records other than rate limits leave a clear breaker closed, and every call is admitted |
| CircuitBreaker.ProbeAfterMinute | chat-service/internal/bot/breaker.go:70-94 | When the minute is over the first call to ask is let through as the probe |
| CircuitBreaker.OneProbe | chat-service/internal/bot/breaker.go:70-94 | Half-open admits nobody until some call records |
| CircuitBreaker.NothingAdmitted | chat-service/internal/bot/breaker.go:70-130 | Between a trip and its deadline nothing is admitted while no success is recorded |
| CircuitBreaker.AdmittedEarlyIff | chat-service/internal/bot/breaker.go:70-130 | A call that asks between a trip and its deadline is admitted iff some success was recorded in between and no trip followed it |
| CircuitBreaker.TripUndone | chat-service/internal/bot/breaker.go:97-115 | A run where that happens at once |
| CircuitBreaker.OnlyStaleSuccessReopens | chat-service/internal/bot/breaker.go:70-130 | And then a success was recorded by a call admitted before the trip |
| ProviderRequests.RequestsKeepHistory | chat-service/internal/bot/retry.go:42-79 | For overlapping requests, any client and any sink: the breaker's locked steps form a history; a request makes at most two attempts, a second only after a silent first; its sink is handed the events of the last alone; and it is recorded at most once, with the error it returns |
| ProviderRequests.RetriedIff | chat-service/internal/bot/retry.go:42-80 | A second attempt is made iff the first failed upstream or timed out, had pushed nothing, and the pause was slept out |
| Provider.Retry | chat-service/internal/bot/retry.go:42-69 | The imperative retrier makes those attempts |
| Provider.Breaker.Acquire | chat-service/internal/bot/breaker.go:70-94 | The breaker's gate step |
| Provider.Breaker.Record | chat-service/internal/bot/breaker.go:97-123 | The breaker's record step |
| Provider.Breaker.Generate | chat-service/internal/bot/breaker.go:50-67 | Refused without a call and without a trace, or at most two calls, one record, one attempt's events |
| QuestionText.NormalizeQuestion | chat-service/internal/bot/cache.go:139-158 | The builder loop computes trim, lower, collapse |
| QuestionText.NormalizeJoinsWords | chat-service/internal/bot/cache.go:139-158 | The normal form is the lower-cased words joined by single spaces |
| QuestionText.SameNormalFormIff | chat-service/internal/bot/cache.go:129-158 | Two questions share it iff they have the same lower-cased words in order; it is idempotent |
| QuestionText.NormalFormShape | chat-service/internal/bot/cache.go:139-158 | No leading, trailing or doubled space |
| QuestionText.TrimIs | chat-service/internal/bot/cache.go:139-158 | Trimming takes away white space only, and all of it at both ends |
| ReplyLog.CacheRefinesLog | chat-service/internal/bot/cache.go:62-123 | Every lookup and every store is answered as by a log that is never pruned: the latest accepted answer if younger than the TTL |
| ReplyLog.SizeBounded | chat-service/internal/bot/cache.go:83-103 | The table never holds more than max answers |
| ReplyCache.ReplyCache.Get | chat-service/internal/bot/cache.go:62-79 | The imperative lookup is the table's step, lazy deletion included |
| ReplyCache.ReplyCache.Put | chat-service/internal/bot/cache.go:83-103 | The imperative store is the table's step |
| ReplyCache.ReplyCache.SweepExpired | chat-service/internal/bot/cache.go:116-123 | Keeps exactly the answers not yet expired |
| BotPrompt.AnsweredTurns | chat-service/internal/httpapi/bot_handler.go:472-485 | Keeps, in order, exactly the turns of adjacent user/model pairs |
| BotPrompt.KeptAlternate | chat-service/internal/httpapi/bot_handler.go:472-485 | What is kept alternates from the user on and is even in length |
| BotPrompt.PromptsAreWellFormed | chat-service/internal/bot/service.go:54-109 | For every history of whole pairs both prompts alternate, start and end with the user, hold the latest six turns of it, or all if fewer, and put the tool result directly after its call |
| BotPrompt.AskInConversation | chat-service/internal/httpapi/bot_handler.go:439-485 | In any stored conversation, for any model, tool and reader: one or two requests, each well formed; at most one run of the tool, under its own name; the second request ends with the call asked for and that run's answer, or an error if it made the tool up; the reader is handed no text of the round that asked, and every event of the last |
| BotPrompt.AnsweredGrows | chat-service/internal/httpapi/bot_handler.go:463-485 | A question left without an answer leaves no trace in later prompts; with one, the pair is appended |
| BotPrompt.AnsweredTexts | chat-service/internal/httpapi/bot_handler.go:463-485 | The same for a person's question and the bot's answer |
| BotPrompt.Ask | chat-service/internal/bot/service.go:54-140 | One model call, or two around at most one tool run; of round one only tool calls reach the reader, then either its text once or round two's events; a reader that refuses the text makes it an error |
| BotPrompt.PassedIs | chat-service/internal/bot/service.go:54-140 | In order, all tool calls and no text of a round that only decides; all events of any other |
| BotGate.Gate.Handle | chat-service/internal/httpapi/bot_handler.go:103-164 | The order of the gates, and for every outcome what it leaves in the burst table, the cache, the counters, the latch and the switch: a disabled bot touches nothing, a cached answer costs no turn, the latch is given back on every way out, and a request stopped by the global ceiling alone is refused as such and switches the bot off until midnight |
| BotGate.Gate.Charge | chat-service/internal/httpapi/bot_handler.go:148-201 | A refusal at the global ceiling trips the switch until midnight; no other refusal does |
| BotGate.Gate.Conclude | chat-service/internal/httpapi/bot_handler.go:266-294 | An open breaker or a provider's rate limit trips the switch for a minute, no other end does; only shareable answers are cached |
| BotGate.Gate.ServeCached | chat-service/internal/httpapi/bot_handler.go:132-144 | A cache hit takes and frees the latch and no turn |
| BotGate.Gate.ServeAll | chat-service/internal/httpapi/bot_handler.go:103-412 | After a refusal at the global ceiling every later request of that ICT day is answered disabled. An answer given from the cache is one that was there at first or that an earlier request was served: whole, for the same normal form, by a model shown nothing but that question |
| BotGate.OnlySharedIsCached | chat-service/internal/httpapi/bot_handler.go:279-412 | One request puts nothing in the cache but a whole answer to a question asked without context, under its normal form |
| BotGate.SharedIsServed | chat-service/internal/httpapi/bot_handler.go:279-412 | And such an answer, put into a cache with room, is what any question of the same normal form is given until it expires |
| BotGate.GlobalDenialWaits | chat-service/internal/quota/limiter.go:139-152 | A global refusal asks to wait exactly until the next ICT midnight |
| Outbox.NoSilentGap | chat-service/internal/ws/conn.go:65-126 | At most 16 frames wait; written, being written and waiting frames are the accepted ones in order; closing happens once; on an open connection nothing sent is missing iff no close is pending, and a frame that found no room closes it |
| Outbox.LaterFramePasses | chat-service/internal/ws/conn.go:72-82 | A run from a new connection where a frame sent after one that found no room is queued, the connection still open: why the pending close must be in that statement |
| Outbox.SentKeeps | chat-service/internal/ws/conn.go:65-83 | A whole call of Send offers its frame once, last, and keeps the accounting |
| HubRooms.MembershipIsExact | chat-service/internal/ws/hub.go:43-109 | After any joins and leaves a connection is in exactly the rooms it asked for since it last left, is counted iff in some room, no room is empty, and the empty shop has none |
| HubRooms.JoinSpec | chat-service/internal/ws/hub.go:43-61 | A join adds the connection to the asked rooms that exist as names, and to no other |
| HubRooms.LeaveSpec | chat-service/internal/ws/hub.go:64-80 | A leave takes the connection out of every room, keys listed twice included |
| HubRooms.PersonsRooms | chat-service/internal/ws/hub.go:36-61 | A person's connection is, while it stays, in the room of its user and of its shop if it has one, and in no other: no user room is a shop room |
| Hub.Conn.Send | chat-service/internal/ws/conn.go:65-83 | Never waits: queues the frame in one of 16 places or the connection is done; one step, or two when it closes a full connection, of the interleaving model |
| Hub.Conn.Close | chat-service/internal/ws/conn.go:113-126 | The close block runs at most once |
| Hub.Conn.WriteNext | chat-service/internal/ws/conn.go:91-110 | A turn of the writer takes the oldest frame and closes on a failed write |
| Hub.Hub.Join | chat-service/internal/ws/hub.go:43-61 | The loop computes the model's join |
| Hub.Hub.Leave | chat-service/internal/ws/hub.go:64-80 | The loop computes the model's leave |
| Hub.Hub.Broadcast | chat-service/internal/ws/hub.go:86-102 | Everyone in the room but one is offered the frame once; nobody else changes |
| HubDelivery.FanoutIsExact | chat-service/internal/ws/hub.go:86-102 | While connections join and leave and fanouts overlap: a finished one has sent its sender one copy and every other connection one for each of the two rooms it was in at that room's snapshot, so whoever stays in a room gets its copy and whoever stays out none |
| HubDelivery.PersonGetsCopies | chat-service/internal/ws/send.go:177-204 | In terms of people: each connection but the sender's gets one copy if it is the buyer's and online at the first snapshot, one if it is the shop's and online at the second, and nothing else |
| Hub.Fanout | chat-service/internal/ws/send.go:177-204 | Field by field: each other connection is offered one copy of the message per target room it is in, without clientMsgId; the sender exactly one, with it |
| Hub.ResolveTarget | chat-service/internal/ws/send.go:136-169 | A conversation id goes by its authorisation alone; a shop id makes the sender the buyer, never of the sender's own shop; which refusal means what |
| Hub.Gates | chat-service/internal/ws/send.go:43-123 | Delivered iff the text, the rate, the target and the store all pass, and refused by the first gate that does not |
| Hub.HandleSend | chat-service/internal/ws/send.go:43-126 | Exactly one reply, field by field, with the request's clientMsgId; a refusal reaches nobody else; a delivery gives everyone else in the two rooms copies without it |
| Conversations.EnsureIsRaceFree | chat-service/internal/store/bot_conversation.go:98-174 | Under any interleaving of SELECT, INSERT ON CONFLICT DO NOTHING, SELECT: one conversation per owner or buyer and shop, one seat per identity, no missed re-read; every finished call holds the conversation of the owner, or of the buyer and shop, it was asked for and the seats of those it names; same ids for every such caller |
| Conversations.LetsIn | chat-service/internal/store/direct_conversation.go:181-215 | A direct conversation lets in whoever presents its shop, else whoever sits in it; missing, bot and foreign ones are refused |
| Conversations.SeatsAndMessagesFit | chat-service/internal/store/direct_conversation.go:131-215 | Messages are signed by seats of their conversation; a direct seat has role user iff its user owns it; any other belongs to someone who presented the shop |
| Conversations.TakenSeatFits | chat-service/internal/store/bot_conversation.go:168-173 | The re-read finds the row the insert collided with, although it looks by role and the index is by identity |
| ChatStore.Store.EnsureBotConversation | chat-service/internal/store/bot_conversation.go:48-76 | With anything added between statements, answers the owner's conversation and its two seats, or an error if one of its statements failed; never a miss |
| ChatStore.Store.EnsureDirectConversation | chat-service/internal/store/direct_conversation.go:62-83 | The same for buyer and shop |
| ChatStore.Store.FindOrCreate | chat-service/internal/store/direct_conversation.go:86-124 | The three statements answer a row of the identity asked for |
| ChatStore.Store.EnsureSeat | chat-service/internal/store/direct_conversation.go:131-166 | The three statements answer the seat with the wanted role and identity |
| ChatStore.Store.AuthorizeDirectRead | chat-service/internal/store/direct_conversation.go:181-215 | Admits the conversation's shop or a sitting user and nobody else; every refusal looks alike |
| ChatStore.Store.ResolveDirectParticipant | chat-service/internal/store/direct_conversation.go:379-414 | Answers a seat of the viewer in that conversation, role user iff the viewer is the buyer, and only to one who presented the shop or already had a seat before the call wrote anything |
| Inbox.LineIsLastCommit | chat-service/internal/store/store.go:83-132 | Message and inbox line appear together, and the line is the last commit's: its time and its first 120 characters |
| Inbox.CommitKeepsNewestIff | chat-service/internal/store/store.go:104-119 | A commit keeps the newest message on show iff nothing newer is on show before it; no other step takes it off |
| Inbox.AlwaysNewestIff | chat-service/internal/store/store.go:80-121 | A run shows the newest message at every moment iff every commit passes that comparison |
| Inbox.SerialShowsNewest | chat-service/internal/store/store.go:80-121 | While appends do not overlap the inbox shows the newest message |
| Inbox.OverlapShowsStale | chat-service/internal/store/store.go:80-121 | From any state where an older append has not touched the line that a newer one has, the older can win |
| Inbox.OverlapIsReached | chat-service/internal/store/store.go:83-121 | Such states are reachable |

## Left out

- Decoding of message bodies: a body is a recognised event, an unknown type or poison; which JSON is which is not modelled.
- Prefetch, queue length limits and message lifetimes: expiry is a step that may happen at any time, and the dead-letter queue is unbounded and terminal. Its overflow and expiry are deliberate drops.
- `retentionWindow` in search-service/cmd/server/main.go: unit arithmetic; the retention is a parameter.
- Floating point in the bucket: levels are exact integers, so rounding of a fraction of a nanosecond is not captured.
- Reconnects, back-off jitter and context timeouts appear only as failures that may happen.
- int32 overflow of a usage counter appears only as a counter error. The retry counter's int32 truncation is modelled.
- BotGate.Gate.ServeAll: requests run one after another. A request that passed the first gate before the trip can still be charged; `KillSwitch.OffUntilMidnight` covers every order of trips and readings.
- BotPrompt.Ask: deadlines are errors of the model's reply, and a push the reader refuses during a round is up to the model's reply too.
- Hub.Hub.Broadcast: one step for the rooms, then one call of Send after another; that the frames go out after the lock is dropped is in `HubDelivery`.
- Hub.Fanout: one fanout at a time on connections with their queues; `HubDelivery.FanoutIsExact` lets fanouts, joins and leaves overlap and counts copies.
- Hub.Gates: what the limiter and the database answer are arguments.
- Hub.Conn.WriteNext: taking and writing a frame follow each other here; senders in between are covered by `Outbox.NoSilentGap`.
- Hub.HandleSend: what the limiter, the authorisation and the append answer are arguments; they are modelled in the modules that own them.
- Rows of conversations and seats are never deleted by the service, so the model has no deletion; read marks and unread counts are not modelled.
- Provider.Breaker.Generate: one request alone; overlapping ones are in `ProviderRequests`.
- IndexRetention.GarbageCollectionInvisible: sweeps between whole calls; `IndexSweeps` puts them between statements.
- Sweeps during a broker run: `Broker` applies events as whole calls to an index nothing is swept from.
- The age of a ledger row: `IndexSweeps` lets any row of the ledger be deleted at any time.
- The Gemini client, the search tool's HTTP call, the cache warmer, SQL ranking, tokens, guards, notifications and the frontend.
