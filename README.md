# Service registry health monitor — a Dafny model

This project models the core of a small service registry. Services send heartbeats. A monitor tick gives each registered service a status and records every change. Two pieces are modelled:

- **The monitor** (`api/monitoring.py`). It has two health classifiers, one driven by heartbeat history and one by a configured period. One tick of `check_all_services`:
  - chooses a classifier per service;
  - writes only the statuses that changed;
  - composes an alert message for each change;
  - records a transition;
  - returns the map of changed services.
- **The heartbeat-history summariser** (`archive/api/db.py`). `store_heartbeat` appends a record. `get_service_status` takes a service's beats newest first and reports three things: the last beat, a three-way state (`ok`/`down`/`dead`), and the median of the gaps between adjacent beats that are shorter than one hour.

The enums and records of `api/models.py` are datatypes (`models.dfy`).

Times are whole seconds (`nat`) and "now" is always a parameter. The document store is held in memory:
- `Monitoring.ServiceStore` keeps the service registry as a `map` and the transition log as a `seq`;
- `HeartbeatHistory.HeartbeatLog` keeps the heartbeat collection as a `seq`.

Files:
- `wrappers.dfy`: `Option`.
- `models.dfy`: the statuses, service types and records, with their defaults.
- `monitoring.dfy`: the classifiers, mode selection, alert messages, the tick as functions with their lemmas, and the `ServiceStore` class whose `CheckAllServices` method is the tick's loop.
- `heartbeat_history.dfy`: the summariser as a function, its lemmas, and the `HeartbeatLog` class.
- `sorting.dfy`: a stable insertion sort. It stands for the store's `sort("timestamp", -1)` and for the sort inside `statistics.median`.
- `statistics.dfy`: the median (the middle element, or the mean of the two middle ones), with its bounds.
- `decimal.dfy`: the numeral used for the "Last seen" time.

## How the tick is stated

`CheckAllServices(order, statuses, recorded, now)` takes four parameters:
- `order` lists every key of the registry exactly once. It stands for dict iteration order; this is the `Enumerates` predicate.
- `statuses` is the heartbeat summary per key, the result of the unseen `get_all_services_status`.
- `recorded` is the set of keys for which the unseen `record_state_transition` writes a record, since it may skip when alerts are off.
- `now` is the tick's single instant.

The method is proved against functions of the registry as it was before the tick:
- the returned map is `StatusChanges`;
- the new registry is `AfterTick`;
- the log grows by exactly `TickLog`.

Lemmas about those functions state what the source promises:
- `TickChangesExact`: the changes are exactly the services whose computed status differs from the stored one, and every record ends with its computed status.
- `TickLogExact`: each such service whose record is written (its key is in `recorded`) gets one transition, from the old status to the new one, with the right message.
- `TickKeepsLogInStep`: the log's newest transition per service agrees with the registry.
- `SecondTickIsQuiet`: a second tick at the same instant is idempotent outside config mode.

In config mode, elapsed time is measured from `updated_at`, and the tick itself overwrites `updated_at` on a change. `ConfigModeClockRestarts` shows the effect: a service that has just gone DOWN or DEAD is computed ALIVE if it is evaluated again at the same instant. The source's `upsert_service` call (api/monitoring.py:133) passes only the key and the new status; the `updated_at` assignment at :132 changes its local copy. The model assumes the unseen upsert stamps `updated_at` with the tick time (see "## Left out"), and this observation depends on that assumption.

## Where the code and its documentation differ (the model follows the code)

- The `ServiceStatus` comment (api/models.py:28) describes UNKNOWN as "not enough data (< 4 heartbeats)". The code has no heartbeat-count rule. UNKNOWN comes only from mode selection: no truthy `expected_period` and no heartbeat summary (api/monitoring.py:111-119).
- With `expected_period = 300` and no `dead_after`, the ceiling is `7 × 300 = 2100` and the test is a strict `>` (api/monitoring.py:89). So the service is still DOWN at exactly 2100 s and DEAD from 2101 s (`ConfiguredPeriodScenario`). A DEAD verdict at 2100 s would contradict the code.

## Model

| member | source | states |
|---|---|---|
| Models.ParseServiceType | api/models.py:20-23 | a string names a service type exactly when it is that type's value (`cloud_service`, `local_job`); any other string names none |
| Models.ServiceTypeValueRoundTrip | api/models.py:20-23 | every service type is recovered from its string value |
| Models.ParseStatus | api/models.py:26-31 | a string names a status exactly when it is that status's value (`unknown`, `alive`, `down`, `dead`); any other string names none |
| Models.StatusValueRoundTrip | api/models.py:26-31 | every status is recovered from its string value, so the four values are distinct |
| Models.NewService | api/models.py:60-68 | a new service is ALIVE, has no type, period, dead-after or metadata, and is stamped with the creation time |
| Models.NewTransition | api/models.py:71-79 | a new transition carries the given key and states, no id, the creation time, `alerted = false` and no message |
| Monitoring.StatusFromHeartbeats | api/monitoring.py:22-49 | never UNKNOWN; DEAD iff elapsed > 604800 s, whatever the median; with no median DOWN iff 900 < elapsed ≤ 604800 and ALIVE iff elapsed ≤ 900; with a median m ALIVE iff elapsed ≤ 2·m and elapsed ≤ 604800 |
| Monitoring.HeartbeatsFollowReference | api/monitoring.py:33-49 | the heartbeat classifier is the shared rule "DEAD past the ceiling, else DOWN past the grace threshold, else ALIVE" with thresholds (900, 604800) without a median and (2·m, 604800) with one |
| Monitoring.HeartbeatsMonotone | api/monitoring.py:36-49 | with the same last beat and median, a later evaluation never gives a better status (ALIVE < DOWN < DEAD) |
| Monitoring.ZeroMedianMeansDown | api/monitoring.py:44-49 | a zero median is not "no median": any positive silence below the ceiling is DOWN |
| Monitoring.RegularBeatsScenario | api/monitoring.py:43-49 | last beat 180 s, median 60 s: ALIVE at 200 s, DOWN at 400 s, DEAD eight days later |
| Monitoring.StatusFromConfig | api/monitoring.py:52-94 | never UNKNOWN; DOWN whenever `updated_at` is absent |
| Monitoring.ConfigThresholds | api/monitoring.py:81-91 | with a truthy period p the grace threshold is 2·p and the ceiling is `dead_after` when truthy, else 7·p; without one, the defaults 900 and 604800 |
| Monitoring.ConfigFollowsReference | api/monitoring.py:68-94 | with `updated_at` present, the config classifier is the shared rule applied to the time since `updated_at` with those thresholds |
| Monitoring.ConfigMonotone | api/monitoring.py:68-94 | for a fixed record, a later evaluation never gives a better status |
| Monitoring.ConfigDeadWins | api/monitoring.py:89-94 | DEAD is checked first: past a truthy `dead_after` the result is DEAD even when `dead_after` is below the grace period |
| Monitoring.ConfiguredPeriodScenario | api/monitoring.py:82-94 | period 300, no `dead_after`: ALIVE at 600 s, DOWN at 650 s and at 2100 s, DEAD at 2101 s |
| Monitoring.Lookup | api/monitoring.py:108 | the summary for a key is present exactly when the key is in the summary map, and is its entry |
| Monitoring.ComputeStatus | api/monitoring.py:110-127 | UNKNOWN iff the period is not truthy and there is no heartbeat summary; a truthy period gives the config classifier; otherwise the heartbeat classifier on the summary's last beat and median |
| Monitoring.HeartbeatModeIgnoresRecord | api/monitoring.py:116-127 | outside config mode the stored status and update time do not affect the computed status |
| Monitoring.AlertMessage | api/monitoring.py:136-147 | there is a message iff the new status is not UNKNOWN |
| Monitoring.LostTextLayout | api/monitoring.py:145-147 | a DOWN/DEAD message is "Service k is " + status value + ". Last seen: " + time, and differs from the back-online message |
| Monitoring.AlertMessageReadsBack | api/monitoring.py:136-147 | each message reads back as "back online" for ALIVE, or as the DOWN/DEAD status with its last-seen time |
| Monitoring.AlertMessageInjective | api/monitoring.py:136-147 | equal messages mean the same target status and, for DOWN and DEAD, the same last-seen time |
| Monitoring.TickChangesExact | api/monitoring.py:129-166 | a service is in the returned map if and only if its computed status differs from the stored one, and then with that computed status; afterwards every record holds its computed status; unchanged services are left as they were; a change touches only the status and sets the update time to the tick time |
| Monitoring.TickTransitionsExact | api/monitoring.py:129-155 | the tick's transitions are, key by key, those of the changed services whose record is written, no key twice, each the transition built for that key |
| Monitoring.TickLogExact | api/monitoring.py:129-155 | each appended transition goes from the stored status to the returned status, at the tick time, with no id, not alerted, and with that status's alert message and the summary's or tick's last-seen time |
| Monitoring.LastTransitionOfTick | api/monitoring.py:150-155 | within a tick, a service's newest transition is its own, present iff it changed and its record was written |
| Monitoring.TickKeepsLogInStep | api/monitoring.py:129-155 | when every change is recorded, each service's newest transition ends in its current status after the tick, and each new transition starts where the previous one ended |
| Monitoring.TickKeepsLogChronological | api/monitoring.py:150-155 | a log in time order, with no entry after the tick time, stays in time order |
| Monitoring.SecondTickIsQuiet | api/monitoring.py:106-133 | with no service in config mode, a second tick at the same instant reports no changes |
| Monitoring.ConfigModeClockRestarts | api/monitoring.py:111-132 | in config mode a service that changed to DOWN or DEAD is computed ALIVE again at the same instant, because the tick reset its `updated_at` |
| Monitoring.ServiceStore.RecordStateTransition | api/monitoring.py:150-155 | when enabled, appends exactly the new transition with the message and returns it; otherwise writes nothing and returns none; the registry is untouched |
| Monitoring.ServiceStore.ReconcileService | api/monitoring.py:106-166 | for one service: reports its computed status iff it differs; the registry entry becomes the reconciled record and nothing else changes; the log grows by the transition with its message exactly when it changed and alerts are enabled |
| Monitoring.ServiceStore.CheckAllServices | api/monitoring.py:97-168 | the result is the tick's change map, the registry becomes the tick's new registry, and the log grows by exactly the tick's transitions in iteration order |
| Decimal.ParseFormat | api/monitoring.py:140-147 | the rendered last-seen time is a numeral with no leading zero that reads back to the time |
| Decimal.FormatInjective | api/monitoring.py:140-147 | different times render differently |
| Sorting.SortDesc | archive/api/db.py:36-38 | sorting keeps the same elements with the same multiplicities |
| Sorting.SortDescSorted | archive/api/db.py:36-38 | the sorted list is ordered by timestamp, newest first |
| Statistics.Ascending | archive/api/db.py:64 | the median's sort is an ascending permutation of the values |
| Statistics.MedianBetween | archive/api/db.py:64 | the median lies between the smallest and the largest value |
| Statistics.MedianSplitsHalves | archive/api/db.py:64 | at least half the values are at most the median and at least half are at least it |
| Statistics.MedianOfEqual | archive/api/db.py:64 | the median of equal values is that value |
| HeartbeatHistory.StateFor | archive/api/db.py:47-53 | `dead` iff elapsed > 86400, `down` iff 3600 < elapsed ≤ 86400, `ok` iff elapsed ≤ 3600 |
| HeartbeatHistory.StateMonotone | archive/api/db.py:48-53 | a longer silence never gives a better state |
| HeartbeatHistory.ForService | archive/api/db.py:36-37 | the query returns the records with the service's key and no others, never more than are stored |
| HeartbeatHistory.ForServiceCounts | archive/api/db.py:36-37 | each record with the service's key is returned as many times as it is stored, and every other record zero times |
| HeartbeatHistory.NewestFirst | archive/api/db.py:36-38 | the service's records, as a permutation, ordered newest first |
| HeartbeatHistory.KeptIntervals | archive/api/db.py:56-62 | at most n−1 kept gaps for n beats, none for no beats, each shorter than 3600 s |
| HeartbeatHistory.KeepShortGaps | archive/api/db.py:56-62 | the loop produces exactly the kept gaps |
| HeartbeatHistory.KeptIntervalsAreShortGaps | archive/api/db.py:56-62 | a value is kept iff it is under 3600 and is the gap between two adjacent beats |
| HeartbeatHistory.KeptIntervalsNonNegative | archive/api/db.py:56-62 | on a newest-first list every kept gap is ≥ 0 |
| HeartbeatHistory.MedianIntervalBounds | archive/api/db.py:64 | the reported median is 0 for no gaps; for gaps in [0, 3600) it lies in [0, 3600), between their minimum and maximum, and splits them in halves |
| HeartbeatHistory.Summarize | archive/api/db.py:33-72 | there is a summary iff the service has at least one record |
| HeartbeatHistory.NoSummaryWithoutBeats | archive/api/db.py:40-41 | no summary exactly when no stored record has the service's key |
| HeartbeatHistory.NewestIsLatest | archive/api/db.py:36-43 | the head of the newest-first list is at least as late as every record of the service |
| HeartbeatHistory.SummaryReportsNewest | archive/api/db.py:43-71 | the summary names the service; its last heartbeat is the maximum timestamp of the service's records; its state is judged from the time since then; its metadata is that of a record at that time, or empty |
| HeartbeatHistory.SummaryMedianBounds | archive/api/db.py:56-64 | fewer kept gaps than beats; median 0 when none is kept, otherwise the median of the kept gaps; the median always lies in [0, 3600) |
| HeartbeatHistory.RegularBeatsScenario | archive/api/db.py:33-72 | four beats 60 s apart, asked 20 s after the last: `ok`, last seen at the last beat, median 60, empty metadata |
| HeartbeatHistory.HeartbeatLog.StoreHeartbeat | archive/api/db.py:24-30 | appends exactly one record, with `{}` for absent metadata, and leaves the existing records unchanged |
| HeartbeatHistory.HeartbeatLog.GetServiceStatus | archive/api/db.py:33-72 | returns exactly the summary of the stored records at the given time |

## Left out

- The clock: `datetime.now()` and `datetime.utcnow()` (api/monitoring.py:29, 55, 132; archive/api/db.py:44) become a `now` parameter. A tick uses one instant for every service, where the source reads the clock per call.
- Floating point: `total_seconds()` and the float median. Elapsed times and gaps are whole seconds. Only the even-length median is a `real` (an exact mean), and no rounding is modelled.
- `format_datetime` and `parse_datetime` (api/models.py:10-17) are strftime/strptime wrappers with no counterpart here. The "Last seen" part of a message is the time in decimal seconds. The source renders either the heartbeat's datetime or the formatted `updated_at`.
- The unseen store functions `get_all_services`, `get_all_services_status`, `upsert_service` and `record_state_transition` (imported at api/monitoring.py:13-18) are not part of this model. They are stood in for by the in-memory registry, the `statuses` parameter, direct map updates and `RecordStateTransition`.
- Monitoring.ServiceStore.RecordStateTransition: the choice to write or skip a transition (alerts enabled or not) is a parameter, `recorded` in `CheckAllServices`, because the rule lives in the unseen recorder.
- Monitoring.ServiceStore.ReconcileService: also stamps `updated_at` with the tick time (as do `Monitoring.Reconciled` and `Monitoring.AfterTick`). The source's `upsert_service(service_key=..., status=...)` (api/monitoring.py:133) passes only the status, so this assumes the unseen upsert sets `updated_at` itself. `ConfigModeClockRestarts` holds only under that assumption.
- Monitoring.ServiceStore.CheckAllServices: every parse and every store call is modelled as succeeding. In the source, an exception from `parse_datetime` (api/monitoring.py:63), `datetime.fromisoformat` (:124), `upsert_service` (:133) or `record_state_transition` (:150) aborts the rest of the tick, and no try/except surrounds the loop (:106-166). Services handled before the failure keep their new status. A failure after the upsert and before the record commits the new status without a transition. The next tick then sees no change, so that transition is never written, and the gap-free log of `TickKeepsLogInStep` no longer holds.
- Monitoring.ServiceStore.CheckAllServices: the order of dict iteration is a parameter, since the source fixes no order. Concurrency between ticks and other writers is not modelled.
- HeartbeatHistory.NewestFirst: the store leaves equal timestamps in no particular order, while the model keeps a fixed one. The kept gaps are the same multiset either way, but the reported metadata is only claimed to be that of some record with the latest timestamp.
- get_all_services at archive/api/db.py:75-77 (`distinct`) is a foreign database call and is not modelled. Neither are the settings and client setup (archive/api/db.py:9-21).
- Logging (loguru) is not modelled.
- HTTP routing, uvicorn startup, the heartbeat-sender helpers and the demo scripts are outside the monitored core.
