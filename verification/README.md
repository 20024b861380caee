# Incident radar: a verified model of detection, suppression and delivery

The program takes error reports (`POST /errors`), counts them per service over a sliding window, and raises an alert when
a service passes a threshold. A cooldown keeps one incident from raising many alerts. Counting and cooldown live in Redis;
when Redis fails, counting falls back to the database, the cooldown to process memory, and the alert is sent directly
instead of through the queue. A dashboard reads the resulting tables.

This project models that pipeline and proves what it promises.

- `Alerts` - webhook, tables, queue worker and its retries: classes that change their tables in place, each method proved
  against a function, and the whole life of a job.
- `Protocol` - the alert decision as a state machine. `check` is cut at its awaits and each piece is one atomic step; any
  number of checks run at once, Redis may execute a command whose caller has given up, lose its data, or come and go.
  `Histories`, `ProtocolInvariants`, `ProtocolSteps` and `ProtocolAccounts` hold the inductive invariant;
  `ProtocolTheorems`, `ProtocolReach`, `ProtocolTiming`, `ProtocolLosses`, `ProtocolJobs` and `ProtocolRows` hold the results
  about every run.
- `Detector` - the code of `check` and of its helpers as methods on fields, proved to do what the protocol steps do, and
  one undisturbed call proved to be a schedule of the protocol.
- `Counter`, `CounterRuns`, `Errors` - the two counters and the selector as methods; runs of any length against the full
  history; the intake that saves a row before it counts it. `Bursts` joins the counters to the protocol.
- `Sorting`, `Dashboard`, `Chart`, `ChartGrid`, `ChartTotal`, `ChartEndToEnd`, `CooldownPanel` - the read side, from the
  error table through the grouped query and the pivot to the cells of the chart, the merged alert list, and the panel.

Window, threshold, cooldown, latency bound and retry limit are symbolic throughout. Times are whole milliseconds.

Three results correct what one might expect of the code.

- A key that expires after two windows can make a count short, but only the count of a transaction that itself runs more
  than one window after its clock reading (`CounterRuns.ExpiryUnseenExactly`); late transactions of other checks do no
  harm. A check uses a count only if the reply comes within 500 ms (`apps/backend/src/redis/redis.service.ts:19`), so with a
  window of at least that long no check ever receives a short one.
- `pivotStats` stores its cells as properties of the object that also holds the time `t`. A service named `t` takes the
  place of the time, and then two rows make the sort throw; a service named `__proto__` is never shown. The pivot is right
  exactly when neither name matters (`ChartGrid.PivotIsGridExactly`, `ChartTotal.PivotKeepsTotalExactly`, and for the rows
  of the table `ChartEndToEnd.ChartIsExact`, `ChartEndToEnd.ChartTotalIsRows`).
- A silent check is covered by another alert only as long as Redis keeps its data: the queue goes down with the cooldown
  keys (`ProtocolLosses.LossTakesCover`).

The comment at `apps/backend/src/detector/detector.service.ts:43` allows that the selector's second reading of the health
flag differs from the first. There is no await between the two readings, so it cannot; the model has one reading.

## Model

| member | source | states |
|---|---|---|
| ProtocolTheorems.BoundedSilence | apps/backend/src/detector/detector.service.ts:60-92 | In every state of every run, a check over the threshold that stayed silent (held by Redis, held by memory, or skipped after a rejected enqueue) is covered: by an alert whose lock is less than one cooldown older than its clock reading and which is under way, has ended (with a row in one of the tables, or exhausted with its failure insert failed as well), or went down with Redis after that reading, or by a direct send, whatever became of it, stamped less than 2C + L - 1 before |
| ProtocolReach.SilenceReachExactly | apps/backend/src/detector/detector.service.ts:60-105 | The bound is exact: every silent check of every run is covered within a reach if and only if the reach is at least 2C + L - 1; below it a run is given in which a lock that nobody heard of hands the silence of the memory cooldown on |
| ProtocolLosses.SilenceWithoutLoss | apps/backend/src/detector/detector.service.ts:60-92 | In every run, a silent check whose clock reading is later than every loss of the Redis data is covered by an alert that is under way or has ended (with a row, or exhausted with its failure insert failed as well), or by a direct send, whatever became of it; no lost alert counts |
| ProtocolLosses.LossTakesCover | apps/backend/src/detector/detector.service.ts:79-92 | For all settings there is a run in which a loss right after a silent check leaves it without any alert, so the loss has to be excluded |
| ProtocolLosses.RunTakesLive | apps/backend/src/cooldown/cooldown.service.ts:23-32 | In every run the keys that a loss is said to have taken were live: each had its lock set less than a cooldown before |
| ProtocolTheorems.OverThresholdIsAnswered | apps/backend/src/detector/detector.service.ts:40-98 | Fail-open over whole runs: a check that ended without a database failure is below the threshold exactly when its count is, and otherwise has an alert of its own or is covered as above |
| ProtocolTheorems.BoundedDuplication | apps/backend/src/detector/detector.service.ts:72-91 | In any interval of length X the Redis-path grants of a service are at most X/C + 1 plus the live keys lost in it, and the direct sends, late ones included, at most (X + L)/C + 1, although the two cooldowns do not know of each other |
| ProtocolTheorems.Conservation | apps/backend/src/detector/detector.service.ts:75-91 | In every reachable state grants = pending + queued + completed + exhausted + unrecorded + lost with Redis + rejected; direct sends = degraded checks + rejections not skipped = open + stored + recorded failures + double failures; and the row counts of both tables equal their accounts |
| ProtocolTheorems.OneRowPerCheck | apps/backend/src/alerts/alerts.service.ts:41-85 | In every reachable state a check has at most one `alerts` row and at most one failure row, never both; the `alerts` rows are exactly those of the completed alerts; a failure row says the retry limit for a queued alert and 1 for a direct one |
| ProtocolTheorems.RowsWereAccepted | apps/backend/src/alerts/alerts.service.ts:41-65 | In every run every `alerts` row was accepted by the webhook, when there is one, under the idempotency key of its check |
| ProtocolRows.RowsTellEvents | apps/backend/src/alerts/alerts.service.ts:59-83 | In every run an `alerts` row has the service its check was started for, the count that was replied to it, the threshold and window of the settings, and more errors than the threshold; a failure row says the same in its payload, with the window its check fell into |
| ProtocolRows.ChecksTellEvents | apps/backend/src/detector/detector.service.ts:40-59 | In every run a check carries the service it was started for and, past its counting, the count that was replied to it |
| ProtocolRows.SameKeyExactly | apps/backend/src/alerts/alerts.service.ts:48-49 | Two alerts carry the same idempotency key exactly when they are of one service and one multiple of the window starts the window of both clock readings |
| ProtocolJobs.AttemptsAreCounted | apps/backend/src/alerts/alerts.processor.ts:16-25 | In every run the counter of a waiting job is the number of its attempts so far, below the limit; a completed job had between one and the limit, a job is given up after exactly the limit, and no job is attempted more often |
| ProtocolJobs.AttemptLeads | apps/backend/src/alerts/alerts.service.ts:41-65 | An attempt completes its job exactly when the insert succeeds and the webhook, if there is one, accepts; otherwise the job waits with one more attempt, or is given up with or without a failure row |
| ProtocolJobs.SettlementLeads | apps/backend/src/alerts/alerts.service.ts:71-79 | A direct send is stored under the same condition, else recorded as failed, else failed twice |
| ProtocolTheorems.AtMostOneAlertEach | apps/backend/src/detector/detector.service.ts:40-98 | In every run no check sends directly twice, it both enqueues and sends directly exactly when its enqueue was rejected and not skipped, and it awaits Redis at most twice |
| ProtocolAccounts.RunKeepsInv | apps/backend/src/detector/detector.service.ts:40-105 | Every state of every run satisfies the invariant that ties checks, SET commands, cooldown keys, the lock history, the memory cooldown, the accounts and the tables together |
| ProtocolTiming.LocalEntriesNeverDecrease | apps/backend/src/detector/detector.service.ts:101-105 | An entry of the memory cooldown never goes back although calls arrive with stale clocks out of time order |
| ProtocolTiming.DirectSendsApart | apps/backend/src/detector/detector.service.ts:75-89 | In grant order the granted times of a service grow by at least the cooldown, and the wall-clock times by at least the cooldown less the latency |
| ProtocolTiming.GrantCadence | apps/backend/src/cooldown/cooldown.service.ts:23-32 | If a check over the threshold that reaches Redis reads the clock within g of the end of a lock, the next lock of the service is taken at most C + g + L after that lock, and not before C after it unless a loss came in between |
| ProtocolTiming.RedisKeysDiffer | apps/backend/src/detector/detector.service.ts:53-64 | Two locks of a service without a loss in between lead to different idempotency keys when the cooldown is at least window plus latency |
| ProtocolTiming.RedisKeysDifferExactly | apps/backend/src/detector/detector.service.ts:53-64 | In every run any two locks of a service without a loss in between have different keys, if and only if the cooldown is at least window plus latency; below it a run with a shared key is given |
| ProtocolTiming.DirectKeysDiffer | apps/backend/src/detector/detector.service.ts:84-89 | Two direct sends of a service carry different keys when the cooldown is at least the window plus the delay from clock reading to grant, late sends with a fresh clock and an old window start included |
| ProtocolTiming.KeysSeparateExactly | apps/backend/src/detector/detector.service.ts:53-59 | All pairs of grants a cooldown apart and within the delay of their clock readings have different window starts if and only if cooldown >= window + delay |
| Histories.LocksBounded | apps/backend/src/cooldown/cooldown.service.ts:23-32 | Locks spaced by the cooldown except after losses number at most X/C + 1 plus the losses in an interval of length X |
| Histories.SendsBounded | apps/backend/src/detector/detector.service.ts:101-105 | Sends whose stamps are spaced by the cooldown and at most the latency old number at most (X + L)/C + 1 in an interval of length X |
| Detector.IngestionSurvivesRedis | apps/backend/src/detector/detector.service.ts:40-98 | For every flag and every answer a call ends, fails exactly when the count fell to a database that failed, awaits Redis at most twice, and ends below the threshold, granted, held or sent exactly as its count, the flag, the lock reply and the memory cooldown say |
| Detector.CountArrives | apps/backend/src/counter/counter.selector.ts:23-32 | The count of a call is the reply of Redis if the flag was up and it replied, and otherwise that of the database |
| Detector.CallStartsAtMostOneAlert | apps/backend/src/detector/detector.service.ts:72-92 | A call enqueues exactly when it ends granted, sends directly exactly when it ends sent, takes the memory cooldown from its clock reading on only then, and changes nothing else |
| Detector.CheckIsSchedule | apps/backend/src/detector/detector.service.ts:40-98 | The code of a whole call, taking any time up to the latency, has the effect of a schedule of protocol steps |
| Detector.DetectorService.Check | apps/backend/src/detector/detector.service.ts:40-98 | The method over the fields does what the specification of an undisturbed call says; it throws only for the database, its count is the reply of Redis or of the database, the threshold and the lock decide over the enqueue, and it never waits for one |
| Detector.DetectorService.TryAcquireLocal | apps/backend/src/detector/detector.service.ts:101-105 | Succeeds exactly when no entry is later than the given time, and then sets the entry to that time plus the cooldown |
| Detector.DetectorService.OnCount | apps/backend/src/detector/detector.service.ts:46-78 | The piece after the count does the protocol step: below the threshold it ends, with the flag up it asks for the lock, else it degrades |
| Detector.DetectorService.SendDegraded | apps/backend/src/detector/detector.service.ts:65-78 | The degraded piece sends with the clock of the start of the call if the memory cooldown is free |
| Detector.DetectorService.OnLockReply | apps/backend/src/detector/detector.service.ts:79-92 | Only the winner starts an enqueue, and does not wait for it |
| Detector.DetectorService.OnEnqueueRejected | apps/backend/src/detector/detector.service.ts:84-90 | The catch handler takes the memory cooldown with a fresh clock and sends the old data, or skips |
| Detector.CooldownService.TryAcquire | apps/backend/src/cooldown/cooldown.service.ts:23-32 | SET NX EX: succeeds exactly when no live key exists, and otherwise changes nothing |
| Detector.LockIsProtocolSet | apps/backend/src/cooldown/cooldown.service.ts:23-32 | The lock of the code is the SET of the protocol: the same winner, the same keys afterwards, and a new entry of the lock history exactly for a winner |
| Detector.CooldownService.GetTtl | apps/backend/src/cooldown/cooldown.service.ts:38-41 | Positive seconds within half a second of the remaining time of a live key, nothing otherwise |
| Detector.RedisHealthService.Probe | apps/backend/src/redis/redis-health.service.ts:44-53 | After a probe the flag is up exactly if the PING was answered, and the probe is the newest event of the history |
| Detector.RedisHealthService.OnError | apps/backend/src/redis/redis-health.service.ts:20-25 | An error event takes the flag down at once |
| Detector.FlagFollowsNewest | apps/backend/src/redis/redis-health.service.ts:17-53 | The flag is up before any event and after an answered PING, and down after a failed PING and after an error |
| Detector.FlagOfRun | apps/backend/src/redis/redis-health.service.ts:17-53 | In every run the flag that checks read is the flag of the health service after any history behind the health events: an answered PING for each rise, a failed PING or an error for each fall |
| Alerts.JobLeavesOneTrace | apps/backend/src/alerts/alerts.processor.ts:16-25 | A job makes at least one and at most the limit of attempts, stops at its first success, and leaves one `alerts` row or, when exhausted, one failure row with the full attempt count (unless that insert fails), never both |
| Alerts.JobDeliveries | apps/backend/src/alerts/alerts.service.ts:41-65 | The receiver accepted exactly one request per attempt that reached it, all under the one key, at least one behind an `alerts` row |
| Alerts.JobTiming | apps/backend/src/alerts/alerts.service.ts:30-38 | The waits between attempts add up to between four fifths and all of the doubling back-off, and the webhook time to at most the time-out per attempt |
| Alerts.FiveAttemptsTiming | README.md:85-88 | With five attempts, 5 s for each webhook call and waits of 1, 2, 4 and 8 s shortened by at most a fifth: at most 25 s of webhook time and 15 s of waits, at least 12 s of waits before giving up |
| Alerts.AlertsService.Dispatch | apps/backend/src/alerts/alerts.service.ts:41-65 | Throws exactly when the insert fails or a configured webhook refuses; otherwise stores one row with the fields of the job; an accepted request stays sent when the insert fails |
| Alerts.AlertsService.DispatchDirect | apps/backend/src/alerts/alerts.service.ts:71-79 | One attempt, never throws, a failure row with attempts 1 on failure; lost only when both inserts fail |
| Alerts.AlertsService.RecordFailure | apps/backend/src/alerts/alerts.service.ts:82-85 | Appends exactly the failure row, or throws and changes nothing |
| Alerts.AlertsProcessor.OnFailed | apps/backend/src/alerts/alerts.processor.ts:20-25 | Records a failure only at the last attempt, with a missing limit read as 1 |
| Alerts.AlertsProcessor.Attempt | apps/backend/src/alerts/alerts.processor.ts:16-25 | One attempt as the queue drives it moves the job and the tables as the retry machine says |
| Counter.RedisSlidingWindowCounter.Record | apps/backend/src/counter/redis-sliding-window.counter.ts:27-51 | Adds, trims at or before the cutoff, counts and renews the expiry as one transaction; the count is the size after the trim, and a missing reply gives none although the data may have changed |
| Counter.CounterSelector.Record | apps/backend/src/counter/counter.selector.ts:23-32 | The Redis count when the flag is up and a reply came, else the database count in the same request |
| Counter.DbCountCounter.Record | apps/backend/src/counter/db-count.counter.ts:28-32 | The counting query, one condition on each row, gives the size of the set of rows of the service strictly newer than a window before the given time |
| CounterRuns.ExactContents | apps/backend/src/counter/redis-sliding-window.counter.ts:30-37 | For any order of clock readings the set without expiry holds record i exactly when it reached Redis, no loss followed and its time is newer than every later reading less the window |
| CounterRuns.ExpiryUnseenExactly | apps/backend/src/counter/redis-sliding-window.counter.ts:32-38 | The expiry after two windows changes no count whose own transaction ran within the delay of its clock reading, in any run and however late the others were, if and only if the delay is at most one window |
| CounterRuns.LateRunShowsExpiry | apps/backend/src/counter/redis-sliding-window.counter.ts:32-38 | A run in which a transaction more than one window late counts 1 where 2 are due because the key had expired |
| CounterRuns.CountIsSurvivors | apps/backend/src/counter/redis-sliding-window.counter.ts:27-51 | With any clock, and through outages, losses and late transactions of other checks, the count is the number of records whose members survive: they reached Redis, were not lost, and are newer than every later reading less the window |
| CounterRuns.CountIsKept | apps/backend/src/counter/redis-sliding-window.counter.ts:27-51 | When no kept reading is ahead of the last one, the count is exactly the number of checks in (at - window, at] that reached Redis and have not been lost since |
| CounterRuns.ExactCount | apps/backend/src/counter/redis-sliding-window.counter.ts:27-51 | Self-healing: when moreover every check of the last window went through Redis without a loss, whatever happened before, the count is exactly the number of checks in (at - window, at] |
| CounterRuns.SkewedCount | apps/backend/src/counter/redis-sliding-window.counter.ts:30-37 | With kept readings at most d ahead of the last one, the count lies between the kept checks newer than at - window + d and the kept checks newer than at - window |
| CounterRuns.NeverOverCounts | apps/backend/src/counter/redis-sliding-window.counter.ts:29-37 | In any run, with any clock order, losses and lost replies, Redis counts at most the checks in the window |
| CounterRuns.CountedRowsAreSaved | apps/backend/src/errors/errors.controller.ts:23-26 | A Redis count is at most the number of distinct saved rows of the service behind the checks in the window |
| CounterRuns.CountersAgree | apps/backend/src/counter/db-count.counter.ts:28-32 | At the same time both counters differ by at most the records within the drift of the cutoff plus, for the database, the rows not yet counted and the records in the window that Redis does not hold; without drift and with nothing in flight those missing records are the whole difference, boundary included |
| CounterRuns.QueryCountsSaved | apps/backend/src/counter/db-count.counter.ts:28-32 | The query over the table of a run counts exactly the rows saved in it that lie in the window |
| CounterRuns.NoMissedBurst | README.md:75-81 | When no kept reading is ahead of the last one, any threshold + 1 checks of a service that Redis has kept, in an interval of the window's length that leaves out one end, take the count of the last over the threshold, wherever the interval lies |
| CounterRuns.NoMissedBurstInDb | apps/backend/src/counter/db-count.counter.ts:28-32 | Whatever Redis did or lost, threshold + 1 saved rows within the window, checked or in flight, take the database count over the threshold |
| Bursts.BurstIsAnswered | apps/backend/src/detector/detector.service.ts:40-98 | In every run of the protocol, a check that ended, and whose count came from a run of the counters with a burst over the threshold, in Redis or in the database, has an alert of its own or is covered by another |
| Errors.RequestsKeepOrder | apps/backend/src/errors/errors.controller.ts:20-28 | However requests interleave and inserts fail, every count follows its own saved row and no row is counted twice |
| Errors.OwnRowIsCounted | apps/backend/src/errors/errors.controller.ts:23-26 | A database count sees the row of its own request when that row is in the window |
| Errors.ErrorsController.Create | apps/backend/src/errors/errors.controller.ts:20-28 | Saves, then counts the saved row; a failed insert throws before any count |
| Dashboard.MergedTopIsTop | apps/backend/src/dashboard/dashboard.service.ts:114-150 | Truncating both tables, merging, sorting and cutting gives the newest rows of the union: the right number, a sub-multiset, newest first, and nothing left out is newer than anything kept, for all contents and ties |
| Sorting.SortIsStable | apps/backend/src/dashboard/dashboard.service.ts:146-148 | For every comparison that is a total preorder the sort keeps the order of equal elements |
| Sorting.StringOrder | apps/frontend/lib/chart.ts:14 | The order of names without a comparison: a prefix comes first, otherwise the first code unit that differs decides |
| Sorting.UnitsOfOne | apps/frontend/lib/chart.ts:14 | A character has one code unit, itself, or a high and a low surrogate that give it back |
| Dashboard.QueryHasAnswer | apps/backend/src/dashboard/dashboard.service.ts:49-66 | For every table and query there is an answer with one group per service and bucket that occurs, each counting its matching rows, times ascending within a service |
| Dashboard.Stats | apps/backend/src/dashboard/dashboard.service.ts:66-77 | The grouping loop builds one series per service in order of first group, with its buckets in the order of the answer |
| Dashboard.SeriesInFirstOrder | apps/backend/src/dashboard/dashboard.service.ts:68-77 | The series come in the order of the first group of their service |
| Dashboard.BucketHolds | apps/backend/src/dashboard/dashboard.service.ts:52-55 | The bucket of a row is the one multiple of the bucket width that its time follows by less than a width |
| Dashboard.StatsShape | apps/backend/src/dashboard/dashboard.service.ts:58-77 | The series have distinct services and strictly ascending bucket times |
| Dashboard.TotalIsMatchingRows | apps/frontend/lib/api/derive.ts:18-23 | The total of the series is the number of rows from the start of the range, before its end if it has one, and of the service asked for |
| Chart.PivotStats | apps/frontend/lib/chart.ts:13-31 | The nested loops that fill a map of rows in place, and the sort that throws when it has two rows to compare and one has no time, compute the specified pivot |
| Chart.RowLosesTime | apps/frontend/lib/chart.ts:21-25 | With a service named `t` every row ends with a number where its time was |
| Chart.PivotByName | apps/frontend/lib/chart.ts:14-30 | The sort throws exactly when a service is named `t` and there are two rows; otherwise the rows come out by their times |
| Chart.PivotNames | apps/frontend/lib/chart.ts:14 | The services of the chart are those of the series, each before another as its prefix or by the first code unit that differs |
| Chart.FillRows | apps/frontend/lib/chart.ts:16-27 | After the loops the map holds exactly the bucket times, in order of appearance, each with the row its entries give |
| ChartGrid.PivotIsGridExactly | apps/frontend/lib/chart.ts:8-31 | For unique services and ascending buckets the result is the exact grid (row times strictly ascending and exactly the bucket times, every service in every row with its count or 0 and nothing else) if and only if there are no buckets or no service is named `t` or `__proto__` |
| ChartGrid.SeriesComeBack | apps/frontend/lib/chart.ts:8-31 | Every series can be read back from its column of the grid, up to buckets without errors |
| ChartTotal.PivotKeepsTotalExactly | apps/frontend/lib/chart.ts:13-31 | The cells add up to the total of the series if and only if the sort does not throw and no errors sit under `__proto__` |
| ChartTotal.TimeNameThrows | apps/frontend/lib/chart.ts:21-29 | A service named `t` with two buckets makes the sort throw, because its rows have lost their times |
| ChartTotal.PrototypeNameHides | apps/frontend/lib/chart.ts:21-25 | The errors of a service named `__proto__` vanish from the chart |
| ChartEndToEnd.ChartIsExact | apps/frontend/lib/chart.ts:13-31 | From table to chart: rows for exactly the buckets that occur, cells for exactly the services that occur, each cell counting the matching rows, if and only if no matching row has one of the two names |
| ChartEndToEnd.ChartTotalIsRows | apps/backend/src/dashboard/dashboard.service.ts:40-78 | From table to chart: the cells add up to the number of matching rows if and only if no matching row is named `__proto__` and not both a row is named `t` and two buckets occur |
| CooldownPanel.RemainingInterpolates | apps/frontend/lib/api/derive.ts:7-15 | Null for null; otherwise not negative, positive exactly before expiry, and until then less than a second above the true rest |
| CooldownPanel.RemainingCountsDown | apps/frontend/lib/api/derive.ts:7-15 | A second later it is one less, or still zero |
| CooldownPanel.RemainingNeverGrows | apps/frontend/lib/api/derive.ts:7-15 | It does not grow with the clock |
| CooldownPanel.ComparatorIsConsistent | apps/frontend/lib/cooldown.ts:30-34 | The comparator is antisymmetric in sign and a total preorder for every collation |
| CooldownPanel.RowTellsStatus | apps/frontend/lib/cooldown.ts:23-28 | A row has the service of its status, null exactly for null, is active exactly before the TTL has run out, and then shows less than a second above the true rest |
| CooldownPanel.BarShowsPart | apps/frontend/lib/cooldown.ts:26 | The bar is the remaining part of the full duration in percent, full above it, and empty for a negative duration |
| CooldownPanel.PanelOrder | apps/frontend/lib/cooldown.ts:17-35 | The rows are a permutation of one row per status, active ones first by non-increasing remaining time, then the others by name |
| CooldownPanel.OrderIsThatOfTtls | apps/frontend/lib/cooldown.ts:17-35 | Two active rows compare as the TTLs that were fetched, so ticks between polls never swap them |
| CooldownPanel.RowsOnlyCoolDown | apps/frontend/lib/cooldown.ts:23-28 | Between polls a row never becomes active again, and its bar stays within 0 to 100, only shrinks, and shows exactly while active, for every full duration that is not negative (a negative one leaves it empty) |

## Left out

- BoundedSilence: an alert that a loss of the Redis data took from the queue after the silent check read its clock still
  covers that check, because the queue lives in the same Redis as the cooldown keys. `ProtocolLosses.SilenceWithoutLoss`
  states the cover without such alerts, and `ProtocolLosses.LossTakesCover` shows that a loss can end it. A loss takes keys
  and jobs together; a partial loss is not modelled.
- OneRowPerCheck: assumes, as Conservation and AtMostOneAlertEach do, that an accepted enqueue stored exactly one job. Only
  the shared client refuses to send unanswered commands again (`apps/backend/src/redis/redis.service.ts:22`); the connection
  of the queue (`apps/backend/src/alerts/alerts.module.ts:22`) does not, so an `add` whose reply was lost may be repeated.
- BoundedDuplication: counts alerts started, not deliveries; a queued alert may reach the webhook once per attempt
  (`Alerts.JobDeliveries`), which is what the idempotency key is for.
- DirectKeysDiffer: the delay of a send after a rejected enqueue is a parameter, because nothing in the program bounds it.
- ExactCount: asks, as every exact Redis count here does, that this one transaction ran within one window of its clock
  reading, that transactions of the service execute after their clock readings, and that the server clock does not go back.
- Expiry: a key is gone at the millisecond in which its time is up. Redis keeps it through that millisecond, so the bounds
  that are called exact (`CounterRuns.ExpiryUnseenExactly`, `ProtocolTiming.RedisKeysDifferExactly`,
  `ProtocolReach.SilenceReachExactly`) are those of this convention.
- PivotStats: the rows are values in a map, not shared objects; no alias of a row escapes the loops.
- Protocol: one process lifetime and a clock that does not go back. The latency bounds the time from the clock reading of
  a check to its own later steps and to the execution of its SET; a SET is not sent again after a reconnect
  (`apps/backend/src/redis/redis.service.ts:20-22`). A rejected enqueue stored no job.
- Worker crashes and stalled jobs: an attempt is one atomic step of the queue.
- A webhook that times out counts as refused, although the receiver may have got the request; inserts are atomic.
- The error text of a failure row, the time stamps of both history tables, log lines and latency measurements.
- PostgreSQL: the grouped query and the two `find` calls answer with any sequence that satisfies `Dashboard.IsGrouping`
  (which `Dashboard.QueryHasAnswer` shows possible for every table) and `Dashboard.IsNewest`. The default start of the range (an hour before its end) and the clamping of `bucket` and `limit`
  are plain arithmetic on the request. Times are whole milliseconds, not microseconds.
- Formatting of times and `localeCompare`: ISO times compare as numbers, and a collation is any consistent comparison.
  Strings have no unpaired surrogates.
- Rounding of floating point: the remaining seconds and the bar are computed over the reals.
- Process restart and several instances, both declared limits of the program.
- API keys, users, sessions, `/health`, the fan-out of `/status`, `GET /errors`, and the user interface around the charts:
  each is a single branch or wiring.
- Simulator, relay and benchmark scripts.
