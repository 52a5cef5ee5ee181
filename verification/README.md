# OpenClaw Watch — a Dafny model of the monitoring server and agent core

OpenClaw Watch is a small fleet monitor. Machines running the OpenClaw
runtime host an agent. The agent periodically posts a status report (system
load, network rates and the runtime's token counters) to a central server,
and it forwards error-looking lines of the gateway log as error reports. The
server keeps three tables: devices, status samples and error log entries.
It has a sweep that marks silent devices offline, which the server schedules
once, at startup. It also answers the dashboard's queries: fleet statistics, per-device history, error listings
and five-minute load trends.

This project models that core as pure functions over an immutable store
and proves what each operation promises:

- The store holds the three tables as sequences in insertion order (`Model`).
- Timestamps are whole seconds since the epoch, in UTC.
- Floating-point columns are `real`s and token counters are `int`s.
- The write endpoints and the device lookup are functions from store and
  request to a `Result` carrying either the new store (or the device) or the
  API error. That error is 401 for an unknown credential, 404 for an unknown
  device id, and a server error for a duplicate credential.
- The read endpoints (`Listings`, `Stats.GetStats`, `Trends.GetTrends`)
  cannot fail and return plain values.

The modules follow the program's structure:

| module | models |
|---|---|
| `Base` | `Option`/`Result`, `Max`/`Min`, and an order-preserving `Filter` with its lemmas |
| `Sorting` | a stable insertion sort by an integer key, used for every `ORDER BY` |
| `Model` | the three tables, the integrity invariant `Valid`, lookups by id and key, the online count |
| `Hex` | `secrets.token_hex(32)` as the hex encoding of 32 bytes, and its decoder |
| `Registry` | `create_device`, `get_device`, `update_device`, `delete_device` |
| `Ingestion` | `report_status`, `report_error` |
| `Liveness` | the sweep `check_device_online` |
| `Stats` | `get_stats`: counts, token watermark, today and yesterday deltas, device list |
| `Trends` | `get_trends`: five-minute buckets, means of non-zero readings |
| `Listings` | `get_device_status`, `get_device_errors`, `get_all_errors` |
| `PyText` | `str.strip()`, `str.lower()` and `w in s` |
| `AgentLog` | the agent's error-line classifier and error payload |
| `AgentSessions` | the agent's token sums over the sessions JSON file and its stopped fallback |
| `AgentRates` | the agent's network-rate computation and its snapshot state |
| `Scenarios` | end-to-end walks across modules |

Three behaviours of the code are easy to miss:

- The server stores an error message as it was sent. It does not truncate
  it. Only the agent cuts messages to 500 characters (`AgentLog.Message`).
- `GET /api/devices/{id}/status` has no row limit. Only the two error
  listings take `limit`.
- None of the three listing endpoints checks that the device id exists. An
  unknown or deleted id yields that id's orphaned rows or an empty list,
  never a 404.

Other choices the code forces:

- **Device ids.** The `devices.id` column is an SQLite `INTEGER PRIMARY KEY`
  without AUTOINCREMENT. A new row therefore gets one more than the largest
  id present (`Registry.NextId`). After the newest device is deleted, the
  next device created reuses its id and inherits the samples left behind
  (`Scenarios.DeletedIdIsReused`).
- **Truthiness.** Python truthiness is modelled where the code relies on it:
  - `value or 0` turns both a missing value and a zero into 0;
  - a public IP replaces the old one only when it is non-empty;
  - a device id of 0 and an empty level are no filter in `get_all_errors`;
  - zero readings are left out of trend means;
  - a previous clock reading of 0.0 counts as no previous sample in the
    agent.
- **Row order.** Rows with equal timestamps come back from `ORDER BY` in an
  order SQL leaves open. The model fixes one: arrival order, from a stable
  sort. `all_status` in `get_stats` has no `ORDER BY` and is taken in
  insertion order.
- **Limits.** SQLite treats a negative `LIMIT` as no limit.

## Model

| member | source | states |
|---|---|---|
| Model.FindById | server/main.py:216-217 | the id lookup returns the position of a device with that id, and fails exactly when no device has it |
| Model.FindByKey | server/main.py:256-259 | the credential lookup finds a device holding the key, and fails exactly when no device holds it |
| Model.CountOnline | server/main.py:354-355 | the online count is at most the device count; it is 0 iff no device is online and equals the device count iff all are |
| Model.CountOnlineIsFilter | server/main.py:354-355 | the online count is the length of the list of devices flagged online |
| Hex.TokenHex | server/main.py:194-195 | a generated key is two lower-case hex digits per random byte (64 characters for 32 bytes) |
| Hex.HexRoundTrip | server/main.py:195 | decoding a generated key gives back the random bytes |
| Hex.TokenHexInjective | server/main.py:195 | distinct random draws give distinct keys |
| Registry.ChosenKey | server/main.py:195 | a supplied non-empty key is used as is; a missing or empty one is replaced by the 64-digit encoding of the draw; the key is never empty |
| Registry.NextId | server/main.py:32 | the id of a new row is positive and not held by any device |
| Registry.CreateDevice | server/main.py:192-207 | fails with a duplicate-key error iff the chosen key is registered; otherwise appends one offline, never-seen device with the request's fields, the schema default type, a fresh id and the chosen key, leaves the sample tables alone and preserves `Valid` |
| Registry.GetDevice | server/main.py:214-220 | 404 iff no device has the id; otherwise the stored device with that id |
| Registry.UpdateDevice | server/main.py:222-240 | 404 iff no device has the id; otherwise supplied fields take the supplied value, omitted ones keep theirs, key, online flag, last-seen and creation time are never written, other devices and the sample tables are unchanged, and `Valid` is preserved |
| Registry.EmptyUpdateIsIdentity | server/main.py:229-236 | an update with every field omitted leaves the store unchanged |
| Registry.UpdateIdempotent | server/main.py:222-240 | applying the same update twice equals applying it once |
| Registry.DeleteDevice | server/main.py:242-251 | 404 iff no device has the id; otherwise exactly that device is removed, every other device is kept in its order, samples and errors stay in place, and the id is no longer held |
| Ingestion.StoredAsReported | server/main.py:273-283 | a report that carries every metric is stored verbatim |
| Ingestion.AbsentIsZero | server/main.py:273-283 | a report that carries no metric is stored as all zeros |
| Ingestion.MarkSeen | server/main.py:261-264 | the device becomes online and last seen now; the public IP is replaced only by a non-empty one; no other field changes |
| Ingestion.ReportStatus | server/main.py:254-288 | 401 iff the key is unknown; otherwise only the keyed device is marked seen, exactly one defaulted sample stamped now with that device's id is appended, errors are untouched and `Valid` is preserved |
| Ingestion.ReportError | server/main.py:290-307 | 401 iff the key is unknown; otherwise devices and statuses are untouched and exactly one entry is appended, with the device's id, time now, the level (default "error"), and the message, source and stack trace as sent |
| Ingestion.ReportKeepsChronological | server/main.py:254-288 | with a clock that does not run backwards, the status table stays in timestamp order |
| Liveness.SweepDevices | server/main.py:170-182 | a device is online after the sweep iff it was online and not seen more than 300 s ago; no other field changes |
| Liveness.Sweep | server/main.py:170-182 | the sweep rewrites only the online flags, leaves the sample tables untouched and preserves `Valid` |
| Liveness.SweepIdempotent | server/main.py:177-180 | sweeping twice at the same instant equals sweeping once |
| Liveness.SweepNeverRaisesOnlineCount | server/main.py:177-180 | the sweep never raises the online count |
| Liveness.NeverSeenUntouched | server/main.py:178 | a device never seen is left exactly as it was |
| Liveness.ReportThenSweep | server/main.py:179 | a device that reported at t is online at a later sweep iff at most 300 s have passed |
| Liveness.ErrorReportsDoNotKeepAlive | server/main.py:290-307 | an error report does not save a stale device from the sweep |
| Stats.DayStart | server/main.py:367 | the start of today is a multiple of 86400 and at most `now`, and `now` lies within the day after it |
| Stats.TotalTokens | server/main.py:361-364 | the watermark bounds every sample's `total_tokens` and is one of them; 0 for an empty table |
| Stats.TodaySamples | server/main.py:367-371 | exactly the samples stamped at or after today's midnight, each as often as it is stored |
| Stats.YesterdaySamples | server/main.py:381-386 | exactly the samples stamped in the day before today's midnight, each as often as it is stored |
| Stats.GrowthSpansWindow | server/main.py:374-377 | on two or more samples, the clamped growth of the time-ordered window runs from an earliest to a latest sample |
| Stats.TodayRule | server/main.py:373-379 | 0 for no sample, the sample's counter for one, `max(0, latest - earliest)` for more; non-negative when the counters are |
| Stats.YesterdayRule | server/main.py:388-392 | 0 below two samples, else `max(0, latest - earliest)`; never negative |
| Stats.TodayTokens | server/main.py:366-379 | today's rule over the samples since midnight; non-negative when no counter is negative |
| Stats.YesterdayTokens | server/main.py:381-392 | yesterday's rule over the previous day's samples; never negative |
| Stats.LastIndexOf | server/main.py:402-403 | the position of the device's last sample in store order, or none iff the device has no sample |
| Stats.DeviceList | server/main.py:399-423 | one row per device in registry order, with the device's own fields and either its last sample's metrics or all zeros when it has none |
| Stats.GetStats | server/main.py:349-434 | total is the device count, online the number of devices flagged online, offline their difference, total errors the log size, yesterday non-negative, and all token figures 0 for an empty status table |
| Trends.Bucket | server/main.py:452 | a bucket is a multiple of 300 with `bucket <= ts < bucket + 300` |
| Trends.MinuteFloorIsBucket | server/main.py:452 | replacing the minute by its floor to a multiple of five and zeroing the seconds is the 300-second floor |
| Trends.Readings | server/main.py:450-459 | the readings of a metric in a bucket are non-zero values of samples in that bucket |
| Trends.ReadingsPerSample | server/main.py:450-459 | the readings of a metric in a bucket are one per sample of that bucket with a non-zero reading, in window order: none dropped, none repeated |
| Trends.QualifiesMeans | server/main.py:448-459 | a bucket has an entry iff some sample in it has a non-zero cpu, memory or disk reading |
| Trends.Group | server/main.py:448-459 | the grouped table is in ascending bucket order, has an entry exactly for the qualifying buckets, and each entry holds exactly the readings of that bucket |
| Trends.MeanWithin | server/main.py:466-468 | the mean of readings lies between their bounds, and is 0 when there are none |
| Trends.QualifiedAligned | server/main.py:452 | every bucket that gets a point is a multiple of 300 |
| Trends.RecentSamples | server/main.py:439-444 | exactly the samples stamped at or after the window start, each as often as it is stored |
| Trends.TrendWindow | server/main.py:439-445 | the window is in timestamp order and is a rearrangement of the samples of the last `hours` hours, each as often as it is stored |
| Trends.GroupRows | server/main.py:448-459 | each table entry is the reference entry for a qualifying bucket, and every qualifying bucket has an entry |
| Trends.TrendPoints | server/main.py:447-471 | points are strictly ascending, one per qualifying bucket and only those, each metric the mean of that bucket's non-zero readings of that metric (0 when none) |
| Trends.GetTrends | server/main.py:437-471 | points in strictly ascending time, one for every bucket fed by a recent sample with a non-zero reading and only those, each metric the mean of that bucket's readings in the window |
| Listings.Limit | server/main.py:327 | the first `min(n, count)` rows, or all rows for a negative limit |
| Listings.NewestFirst | server/main.py:317 | a rearrangement of the rows in non-increasing timestamp order |
| Listings.DeviceStatusHistory | server/main.py:310-319 | newest first, every row the device's and in the window, and each sample listed as often as it occurs in the window, with no limit |
| Listings.LatestErrors | server/main.py:321-346 | newest first, only selected errors, as many as the limit allows, no copy cut off (counting duplicate rows) newer than a row kept, no error listed more often than it was logged, and all of them (with multiplicity) when the limit leaves room |
| Listings.DeviceErrors | server/main.py:321-329 | the error listing of one device, with the properties above, including the cut-off and the bound on repeats |
| Listings.AllErrors | server/main.py:331-346 | the global error listing under the truthy filters, with the properties above, including the cut-off and the bound on repeats |
| Listings.ZeroDeviceIdIsNoFilter | server/main.py:340-341 | `device_id=0` lists the same as no device filter |
| Listings.EmptyLevelIsNoFilter | server/main.py:342-343 | an empty level lists the same as no level filter |
| Listings.AllErrorsOfDevice | server/main.py:331-346 | the global listing filtered by a non-zero device id equals that device's own listing |
| PyText.Strip | agent/agent.py:277 | the result is a piece of the line with only whitespace outside it, and its ends are not whitespace |
| PyText.StripIdempotent | agent/agent.py:277 | stripping twice equals stripping once |
| PyText.Lower | agent/agent.py:272 | same length, every character case-folded on its own, no capital letter left and every other character kept |
| PyText.LowerIdempotent | agent/agent.py:272 | lowering twice equals lowering once |
| PyText.LowerConcat | agent/agent.py:272 | lowering commutes with concatenation |
| PyText.Contains | agent/agent.py:273 | the substring test holds iff the word occurs at some position |
| PyText.ContainsWithin | agent/agent.py:273 | an occurrence stays an occurrence when text is added around it |
| AgentLog.Message | agent/agent.py:277 | the message is a prefix of the stripped line, of length `min(len, 500)` |
| AgentLog.Payloads | agent/agent.py:271-279 | at most one payload per line, each with the agent's key, level "error", source "gateway.log" and a message of at most 500 characters |
| AgentLog.ScanLines | agent/agent.py:271-280 | the loop posts exactly the reference payloads, in line order |
| AgentLog.IsErrorLine | agent/agent.py:272-273 | the four-way keyword test of the loop holds iff one of the listed keywords is contained in the lowered line |
| AgentLog.FlaggedIff | agent/agent.py:272-273 | a line is flagged iff one of the four keywords occurs in its lowered text |
| AgentLog.FlaggedIgnoresCase | agent/agent.py:272-273 | a line and its lowered form are flagged alike |
| AgentLog.FlaggedInContext | agent/agent.py:273 | text around a flagged line does not unflag it |
| AgentLog.PayloadsFollowLines | agent/agent.py:271-279 | the payloads correspond one to one, in order, to the flagged lines |
| AgentSessions.Lookup | agent/agent.py:48-49 | a key's value is absent iff no member has the key, and otherwise is the value of its last member |
| AgentSessions.TokenValue | agent/agent.py:52-53 | a missing field counts 0, a number counts as itself and a boolean as 1 or 0; anything else raises |
| AgentSessions.FieldSumDefined | agent/agent.py:50-53 | the sum raises only if some entry cannot be added, and does when the last entry cannot; counters none of which is negative sum to a non-negative value |
| AgentSessions.WithoutAbsent | agent/agent.py:50 | dropping the entries of a key nobody uses drops nothing |
| AgentSessions.NonObjectSkipped | agent/agent.py:51 | a session entry that is not an object adds nothing to either sum |
| AgentSessions.MissingFieldIsZero | agent/agent.py:52-53 | a session without the field adds nothing to its sum |
| AgentSessions.LaterEntryWins | agent/agent.py:48-50 | a repeated session key is counted once, with its last value |
| AgentSessions.SumsAdd | agent/agent.py:50-53 | the sum over two groups of sessions with disjoint keys is the sum of their sums |
| AgentSessions.Sessions | agent/agent.py:49 | the session map is the object under "sessions" if present, else the document itself; anything but an object fails |
| AgentSessions.Totals | agent/agent.py:49-53 | no counters if the session map is not an object; otherwise counters exist iff both field sums succeed, and then they are those sums; they always do when every entry can be added to both |
| AgentSessions.OpenClawStatus | agent/agent.py:38-82 | "running" iff the file parsed and both sums succeeded, then with those sums, the stripped version or "unknown", runtime "direct", model "unknown" and thinking "off"; otherwise exactly the stopped fallback |
| AgentSessions.NoFileIsStopped | agent/agent.py:46-82 | a missing or unparsable file gives the stopped status with zero counters |
| AgentRates.Sample | agent/agent.py:105-115 | the snapshot is always replaced; when a previous snapshot exists at a non-zero clock reading and time advanced, rate times elapsed time is the counter growth, otherwise both rates are 0 |
| AgentRates.FirstSampleIsZero | agent/agent.py:105-108 | the first sample reports zero rates |
| AgentRates.ConsecutiveSamples | agent/agent.py:108-115 | the second of two samples is rated by the growth between them over the time between them |
| AgentRates.StalledClockIsZero | agent/agent.py:109-115 | a clock that did not advance gives zero rates, and the snapshot is still replaced |
| AgentRates.FailureKeepsSnapshot | agent/agent.py:96-145 | a failed call in between does not change the next rate |
| Scenarios.RegisterReportAndRead | server/main.py:349-434 | a device created with a generated key and reporting once shows as one online device, with its counter as watermark and today's figure and its load in its row |
| Scenarios.LogLineReachesServer | agent/agent.py:271-280 | a flagged log line becomes exactly one error entry with level "error", source "gateway.log" and the stripped line |
| Scenarios.DeletedIdIsReused | server/main.py:242-251 | after deleting the newest device, the next one gets its id and shows its orphaned sample |
| Scenarios.TodayIsGrowth | server/main.py:373-377 | samples reading 100 then 150 today give 50 |
| Scenarios.SingleSampleAsymmetry | server/main.py:373-392 | one sample counts in full today and not at all yesterday |
| Scenarios.BucketExamples | server/main.py:452 | 10:07:00 falls in the 10:05 bucket and 10:04:59 in the 10:00 one |
| Scenarios.SweepThreshold | server/main.py:179 | silence of 299 s keeps a device online and 301 s takes it offline |
| Scenarios.ClassifierExamples | agent/agent.py:272-273 | "Upstream FAILED: timeout" is flagged and "ok" is not |

## Left out

- The HTML dashboard and its formatters: presentation only.
- FastAPI routing, CORS, the SQLAlchemy engine and sessions, `init_db`, and `get_db`. The store is three in-memory sequences.
- The scheduler that runs the sweep. The server registers the sweep with no trigger (server/main.py:155), so it runs once, at startup, and a device that falls silent later stays marked online. The model gives the sweep as a pure function of the store and the time; calling it is left to the caller.
- `verify_api_key`: no endpoint calls it, and the endpoints do their own lookup (`Model.FindByKey`).
- `list_devices`: a plain read of the device table.
- The randomness of `secrets.token_hex`. The random bytes are a parameter, and only their encoding is modelled.
- Clocks: the current time is a parameter in seconds. Datetime arithmetic, microseconds and ISO formatting are not modelled. Trend points carry their bucket as seconds, not as an ISO string. Sorting by ISO strings and sorting by seconds agree for years 1000 to 9999.
- Floating point: reals replace IEEE doubles in the metrics, rates and trend means.
- Column width limits (for example `String(50)`): SQLite does not enforce them.
- Agent I/O: psutil sampling, HTTP posts (each sent once, a failure only logged), the public-IP fetch, the process call for the version (its output is a parameter), threads, stop events, and tailing the log file with `seek`/`tell` (each read's new lines are a parameter).
- JSON parsing. The sessions document is a parameter, already parsed or marked unparsable. Its numbers are integers. A float-valued token field, which Python would add as a float, is not represented.
- AgentSessions.FieldSum: adds the entries from the back, while Python adds them in dict order. An addition that raises gives the same outcome in any order, and integer addition is commutative, so the result is the same.
- PyText.Lower: lowers ASCII letters only. Python lowers all of Unicode, but the classifier is unaffected: the keywords are ASCII, and the only non-ASCII characters whose lowercase contains ASCII letters are U+0130 (to "i" plus U+0307) and U+212A (to "k"). The first always puts U+0307 after the "i", and no keyword has "i" as its last letter or "k" anywhere.
- PyText.Strip: whitespace is the set `str.isspace()` accepts in CPython, written out as characters.
- Stats.TodayTokens: the result is non-negative only when no sample has a negative counter. A single sample today counts as it was reported. Negative counters are accepted by the server, so the general claim does not hold.
- Stats.GetStats: covers the counts and the guarantees that hold for every store. The token figures and the device list are stated by `Stats.TotalTokens`, `Stats.TodayTokens`, `Stats.YesterdayTokens` and `Stats.DeviceList`.
- The query parameters' defaults (24 hours of history, 100 errors): every listing takes `hours` and `limit` as arguments.
- Rows with equal timestamps: the order SQL returns them in is unspecified. The model returns them in arrival order, which is one of the orders allowed.
