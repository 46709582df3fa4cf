# Pulseboard telemetry core in Dafny

Pulseboard is a small dashboard. Agents on monitored machines post heartbeats
carrying metrics, and a web app shows them. This project models the server side
of that pipeline as pure functions over immutable data, and proves what the
code promises.

The parts modelled are:

- **In-memory store** (`lib/store.ts`).
  - The 500-sample buffer, in `SampleBuffer`.
  - The device registry: enrolment, auto-provisioning, the token check, presence and online status. This is `Registry`.
  - The set of metric listeners, in `PubSub`.
  - `Store` threads all three through one state record and runs sequences of events.
- **Durable log** (`lib/persist.ts`), in `Persist`.
  - File names are made from device ids.
  - A directory listing gives back the device ids.
  - Per-device and all-devices reads use a backward scan with a cutoff and a limit. The scan itself is `TailScan`, which the log download route shares.
- **History bucketing** (`app/api/metrics/history/route.ts`), in `History`.
  - The window is clamped and a bucket width chosen.
  - Each record goes to its floor bucket.
  - Each bucket keeps running means per dimension, a per-target ping aggregate, and last-value temperatures.
  - Points are emitted in ascending order.
- **Request routes**:
  - the heartbeat (`Heartbeat`);
  - the job poll (`JobsNext`);
  - `GET /api/metrics` (`MetricsRoute`);
  - `/api/devices` (`DevicesRoute`);
  - the log download (`LogsRecent`);
  - the two writers of the agent's configuration file (`AgentConfig`, `NetworkConfig`, `ApplyConfig`).
- **Normalisers**:
  - `normalizeMemory` (`Memory`);
  - the browser's UI configuration `normalize` (`UiConfig`), with a round trip through its stored JSON form.

Effects become parameters:
- the clock is an instant `now`;
- `randomUUID` is a pair of fresh strings;
- `JSON.parse` and `new Date(..).getTime()` are functions passed in, or already-parsed line records;
- whether a log append succeeded is a boolean.

The SHA-256 token digest is an injective constructor. A directory is a sequence of named files of parsed lines, and a text file system is a map from path to contents. JSON values are the `Json.Value` datatype, with numbers as `real`. JavaScript's `?.`, `??`, `||`, truthiness and `typeof` tests are written out in module `Json`.

Shared helpers:
- `Text`: JavaScript's `trim`, ASCII `toLowerCase`, `slice` and `parseInt`.
- `Params`: the `parseInt(x || d)` then clamp idiom of the query parameters.
- `Seqs`: `slice(-n)`, and the "collect survivors up to a cap" loop.

## Model

| member | source | states |
|---|---|---|
| SampleBuffer.Push | apps/web/lib/store.ts:92-101 | the buffer after one append is the newest `min(n+1, 500)` samples of the old buffer plus the new one |
| SampleBuffer.PushAllKeepsNewest | apps/web/lib/store.ts:92-101 | after any sequence of appends to a buffer within capacity, the buffer is exactly the last `min(n, 500)` of everything appended, in append order |
| SampleBuffer.FromEmptyKeepsLast | apps/web/lib/store.ts:92-101 | from an empty buffer, `n` appends leave the last `min(n, 500)` appended samples |
| SampleBuffer.GetSamples | apps/web/lib/store.ts:106-111 | a positive limit yields the last `min(limit, n)` of the `n` buffered samples, in order; an absent, zero or negative limit yields the whole buffer |
| PubSub.Unsubscribe | apps/web/lib/store.ts:196 | changes nothing for an unregistered handler. For a registered one it removes exactly its most recent registration and keeps every other registration in order |
| PubSub.UnsubscribeRemovesOnce | apps/web/lib/store.ts:194-197 | a handler registered once is gone after its unsubscribe, and a second unsubscribe changes nothing |
| PubSub.Publish | apps/web/lib/store.ts:103 | one delivery of the sample per registered handler, in registration order |
| Registry.HashToken | apps/web/lib/store.ts:190-192 | no token's digest equals the empty digest stored for a device provisioned without a token |
| Registry.HashInjective | apps/web/lib/store.ts:190-192 | two tokens have equal digests exactly when they are equal |
| Registry.GetDevice | apps/web/lib/store.ts:152-154 | a device is found exactly when some registered device has the id, and the one found has that id |
| Registry.VerifyDeviceToken | apps/web/lib/store.ts:144-150 | true exactly when id and token are non-empty, the id is registered, and the token's digest equals that device's digest |
| Registry.EnrollDevice | apps/web/lib/store.ts:113-127 | a case-insensitive name match re-keys that device in place: same count, fresh id and digest, presence cleared, hostname kept when set and otherwise set to the name, others untouched. Otherwise exactly one device is appended. `updatedExisting` reports which case happened |
| Registry.EnrolledTokenVerifies | apps/web/lib/store.ts:113-127 | the returned token verifies against the returned id, and no other token does, when the fresh id is not already in use |
| Registry.EnsureDevice | apps/web/lib/store.ts:156-180 | afterwards `getDevice(id)` is the returned device. A known id leaves the registry unchanged. Otherwise a hostname match is taken over, its digest changing only for a non-empty token. Failing that, a device named after the hostname or `device-` plus six id characters is appended, with no hostname and no last-seen time |
| Registry.ProvisionedTokenVerifies | apps/web/lib/store.ts:156-180 | a device provisioned with a non-empty token accepts that token and no other |
| Registry.VerifyingTokenIsUnique | apps/web/lib/store.ts:144-150 | two tokens that both verify for one id are equal |
| Registry.TouchDevicePresence | apps/web/lib/store.ts:182-188 | only the device with the id changes: its last-seen instant, and its hostname when one is given. An unknown id changes nothing |
| Registry.GetDevices | apps/web/lib/store.ts:129-142 | one view per device, in registry order |
| Registry.OnlineWithinNinetySeconds | apps/web/lib/store.ts:137-139 | a device is online exactly when it has a non-zero last-seen instant less than 90000 ms ago |
| Store.AddMetricSample | apps/web/lib/store.ts:97-104 | the sample is appended to the buffer, its device is marked present, the listeners are unchanged, and each current listener gets it once |
| Store.StepListeners | apps/web/lib/store.ts:97-104 | per event, what happens to the listener set and who is delivered to |
| Store.UnregisteredReceivesNothing | apps/web/lib/store.ts:103 | a handler that is not registered and does not subscribe receives nothing over any run of events |
| Store.NoDeliveryAfterUnsubscribe | apps/web/lib/store.ts:194-197 | once a handler registered once unsubscribes, it receives no further samples unless it subscribes again |
| Store.DeliveriesComeFromIngests | apps/web/lib/store.ts:97-104 | every delivery during a run carries a sample ingested during that run, so there is no replay |
| Store.RegisteredReceivesOnce | apps/web/lib/store.ts:103 | a listener registered once gets exactly one notification per ingested sample |
| Persist.SafeId | apps/web/lib/persist.ts:11-13 | the result is non-empty, at most 120 characters of `[A-Za-z0-9._-]`, and `unknown` for the empty id. Safe characters stay in place and every other one becomes `_` |
| Persist.SafeIdIdempotent | apps/web/lib/persist.ts:11-13 | sanitising a sanitised id changes nothing |
| Persist.SafeIdMerges | apps/web/lib/persist.ts:11-13 | two different device ids can share one log file |
| Persist.DeviceFile | apps/web/lib/persist.ts:15-17 | the file name is the sanitised id plus `.jsonl` |
| Persist.RecoveredIdFindsSameFile | apps/web/lib/persist.ts:15-17 | an id recovered from a device's file name leads back to the same file |
| Persist.BareSuffixFileIsNotRecovered | apps/web/lib/persist.ts:62-68 | a file named just `.jsonl` gives back the empty id, whose own file is `unknown.jsonl` |
| Persist.ReadRecentDeviceSamples | apps/web/lib/persist.ts:38-60 | a missing directory or file reads as nothing. Every record returned has a time at or after the cutoff, and there are at most `max(limit, 1)` of them |
| Persist.ReadIsNewestEligible | apps/web/lib/persist.ts:46-59 | the read is the newest `min(limit, k)` of the `k` timed records after the last record older than the cutoff |
| Persist.AppendTo | apps/web/lib/persist.ts:19-22 | the named file gains the line at its end, and is created when missing. Every other file is unchanged |
| Persist.ReadAfterAppend | apps/web/lib/persist.ts:19-60 | a read right after an append returns the appended record last, when its time is at or after the cutoff |
| Persist.ListPersistedDeviceIds | apps/web/lib/persist.ts:62-68 | exactly the directory names ending in `.jsonl`, in listing order, with the suffix stripped |
| Persist.SortByTime | apps/web/lib/persist.ts:79-81 | the result is a permutation of the input, sorted by time |
| Persist.ReadRecentSamplesAllDevices | apps/web/lib/persist.ts:70-83 | the result is sorted by time, at most `limit` long for a positive limit, and every record in it is timed at or after the cutoff. A missing directory gives nothing |
| Persist.AllDevicesKeepsNewest | apps/web/lib/persist.ts:70-83 | each device contributes at most `min(limit, 200)` records. The result is a sub-multiset of the merged reads, of length `min(limit, total)`, and every dropped record is no later than any kept one |
| TailScan.ScanIsNewestEligible | apps/web/lib/persist.ts:46-59 | the backward scan returns exactly the newest `min(cap, k)` eligible lines in file order. Eligible lines are the timed lines after the last line older than the cutoff, and untimed lines never stop the scan |
| TailScan.ScanBounds | apps/web/lib/persist.ts:46-56 | every returned line is timed, no older than the cutoff, and after the stop point, and there are at most `max(limit, 1)` of them |
| History.BucketMs | apps/web/app/api/metrics/history/route.ts:21-25 | the bucket width is always positive |
| History.BucketWidths | apps/web/app/api/metrics/history/route.ts:21-25 | 10 s buckets up to 60 minutes, 1 min up to 360, 5 min beyond. A longer window never gets finer buckets, and a clamped window spans at most 2016 buckets |
| History.WindowMinutes | apps/web/app/api/metrics/history/route.ts:32-33 | the window lies in 5 .. 10080 minutes. It is 60 when the parameter is missing or not a number, and otherwise the parsed number clamped |
| History.BucketKeyIsFloor | apps/web/app/api/metrics/history/route.ts:55 | the key equals `floor(ts / b) * b`, negative instants included |
| History.BucketKeyUnique | apps/web/app/api/metrics/history/route.ts:55 | the bucket starting at `q * b` holds exactly the instants of `[q * b, q * b + b)` |
| History.Present | apps/web/app/api/metrics/history/route.ts:67-70 | the readings counted are exactly the values of the present entries, never more than there are entries |
| History.LastPresent | apps/web/app/api/metrics/history/route.ts:82-83 | the kept temperature is the last present reading, so no later entry has one. It is absent exactly when no entry has a reading |
| History.NoReadingNoMean | apps/web/app/api/metrics/history/route.ts:121-130 | a dimension no sample supplied has no mean, rather than a mean of zero |
| Json.PrintableCases | apps/web/app/api/metrics/history/route.ts:100 | `String` returns for strings, numbers, null and arrays of printable items. An object prints exactly when it has no own `toString` key, and an array holding such an object does not print |
| Json.TextOfScalars | apps/web/app/api/metrics/history/route.ts:100 | `String` keeps a string as it is, writes a whole number as a numeral that `parseInt` reads back, and writes `true` as "true" |
| History.PingTarget | apps/web/app/api/metrics/history/route.ts:99-100 | an entry is used exactly when its target is truthy, and it is keyed by the target's `String` text. That text is what `String` returns when the target prints. A truthy target that does not print ends the request as a 500 instead |
| History.PingThrowsCases | apps/web/app/api/metrics/history/route.ts:99-100 | a string target or a plain object target never throws. An object target with its own `toString` key throws, and so does an array target holding one |
| History.PingTargetKeys | apps/web/app/api/metrics/history/route.ts:99-100 | a non-empty string target is its own key, and a non-zero whole-number target is keyed by its numeral, so `8` and `"8"` share an entry |
| History.PingTargets | apps/web/app/api/metrics/history/route.ts:96-112 | the ping map has an entry for exactly the `String` texts of the truthy targets seen. These are the texts `String` returns, because `History.GetHistory` answers 500 whenever a target does not print. Each entry averages `avgMs` and `lossPct` independently, over the pings that carried each |
| History.FoldDimension | apps/web/app/api/metrics/history/route.ts:67-95 | each averaged dimension of a bucket is the sum and count of the readings its samples supplied |
| History.FoldMemTotal | apps/web/app/api/metrics/history/route.ts:71-77 | `memTotalGB` is the largest total among samples with numeric used memory and a positive total |
| History.FoldTemperatures | apps/web/app/api/metrics/history/route.ts:82-83 | the temperatures are the last numeric reading in input order, not an average |
| History.Upsert | apps/web/app/api/metrics/history/route.ts:56-114 | the bucket table stays sorted by key, and its first key is the smaller of the old first key and `k` |
| History.UpsertGet | apps/web/app/api/metrics/history/route.ts:56-114 | after a sample is added under `k`, the bucket for `k` is the old one (or a fresh empty one) with the sample added, and every other bucket is unchanged |
| History.AggregateGet | apps/web/app/api/metrics/history/route.ts:52-115 | the table has a bucket for `k` exactly when some timed record falls in it, and that bucket is the fold of those records in input order |
| History.Points | apps/web/app/api/metrics/history/route.ts:117-118 | one point per bucket, with strictly ascending and hence unique `t` |
| History.PointSummarises | apps/web/app/api/metrics/history/route.ts:119-142 | each mean of a point is sum / count over the samples that supplied the dimension, and absent when none did. `memTotalGB` is the largest usable total, and the temperatures are the last numeric reading |
| History.PingSummary | apps/web/app/api/metrics/history/route.ts:131-141 | `ping` is absent exactly when no entry had a truthy target. Otherwise its keys are the `String` texts of the targets seen, each averaged over its own entries alone. A point exists only when every target printed |
| History.FeedPingAsWritten | apps/web/app/api/metrics/history/route.ts:64-110 | the route's plain-object ping table: away from the names inherited from `Object.prototype` it feeds a ping exactly as the map does, and a ping at `__proto__` adds nothing |
| History.AsWrittenAgreesOffPrototype | apps/web/app/api/metrics/history/route.ts:96-112 | when no target is an inherited name, the plain-object table and the map end up equal |
| History.ProtoTargetIsDropped | apps/web/app/api/metrics/history/route.ts:101-131 | one ping at `__proto__` with `avgMs` 5 leaves the route's point without `ping`, where the map gives a `__proto__` entry with mean 5 |
| History.ConstructorTargetLosesMean | apps/web/app/api/metrics/history/route.ts:101-136 | one ping at `constructor` with `avgMs` 5 gives that key undefined means in the route, where the map gives mean 5 |
| History.PointIsBucket | apps/web/app/api/metrics/history/route.ts:52-142 | every emitted point is the fold of a non-empty group of records that all fall in its bucket |
| History.RecordLandsInItsBucket | apps/web/app/api/metrics/history/route.ts:52-55 | every record with a finite time is counted in the point whose bucket contains that time |
| History.GetHistory | apps/web/app/api/metrics/history/route.ts:27-145 | a missing device id is the 400 answer and nothing else is. The answer is an unhandled 500 exactly when a timed record in the window has a ping whose truthy target does not print. Otherwise the answer reports the clamped window, its bucket width, and points in strictly ascending time |
| History.HistoryRecords | apps/web/app/api/metrics/history/route.ts:34-37 | the records bucketed are at most 5000, each timed no earlier than `minutes` minutes before now |
| Heartbeat.DeviceId | apps/web/app/api/agent/heartbeat/route.ts:10-12 | the body's id, else the header's, and `unknown` when that is empty |
| Heartbeat.Token | apps/web/app/api/agent/heartbeat/route.ts:11 | a header that is present wins even when empty. Otherwise the body's token is used, else the empty string |
| Heartbeat.MetricsSource | apps/web/app/api/agent/heartbeat/route.ts:27-28 | `body.metrics`, or the body itself when that is absent, kept only when it is a truthy object, and `{}` otherwise |
| Heartbeat.Timestamp | apps/web/app/api/agent/heartbeat/route.ts:31 | the first truthy of the metrics' timestamp, the body's timestamp and the current instant's text, unparsed |
| Heartbeat.BuildSample | apps/web/app/api/agent/heartbeat/route.ts:30-57 | the sample carries the resolved id, `unknown` for a missing agent version or hostname, and the normalised metrics |
| Heartbeat.AbsentStaysAbsent | apps/web/app/api/agent/heartbeat/route.ts:35-56 | a metric field the source lacks stays absent. `diskLabel` defaults to null, `tempSource` falls back to `tempProvider` then null, and `tempReason` falls back to `tempStatus` then null |
| Heartbeat.Admit | apps/web/app/api/agent/heartbeat/route.ts:15-24 | a request without a token, or a registered device whose token does not verify, is refused. An unregistered device is provisioned with the body's hostname |
| Heartbeat.HandleHeartbeat | apps/web/app/api/agent/heartbeat/route.ts:7-78 | an unreadable body is 400 and a missing token 401, and both leave store, log and listeners untouched. Once past authentication the answer is 200 exactly when the summary line prints, and 400 otherwise. Either way the device is registered and seen now, the buffer is the old one with the sample pushed (newest 500 kept), the log gains the record exactly when the append succeeds, and each listener gets the sample once |
| Heartbeat.IdIsNeverEmpty | apps/web/app/api/agent/heartbeat/route.ts:10-15 | the resolved id is never empty, so the empty-id check cannot fire, and a request without an id is filed under `unknown` |
| Heartbeat.CredentialPrecedence | apps/web/app/api/agent/heartbeat/route.ts:10-11 | the body's id beats the header's, but the header's token beats the body's |
| Heartbeat.WrongTokenIsRefused | apps/web/app/api/agent/heartbeat/route.ts:19-24 | a registered device with a wrong token gets 401, and the store, log and listeners are unchanged |
| Heartbeat.UnknownDeviceIsProvisioned | apps/web/app/api/agent/heartbeat/route.ts:19-24 | an unregistered device with any token is accepted, answered 200 unless the summary line fails to print and 400 then. From then on it accepts exactly that token |
| Heartbeat.PlainLogLinePrints | apps/web/app/api/agent/heartbeat/route.ts:68-72 | a summary line built from a string hostname, a numeric reading and a null timestamp prints |
| Heartbeat.WrappedReadingThrows | apps/web/app/api/agent/heartbeat/route.ts:68-76 | a reading that is an object with its own `toString` key, wrapped in `metrics`, makes the summary line throw |
| Heartbeat.FlatFieldThrows | apps/web/app/api/agent/heartbeat/route.ts:68-76 | such a reading sent flat, or such a hostname, makes the summary line throw too |
| Heartbeat.TouchKeepsDigest | apps/web/app/api/agent/heartbeat/route.ts:66 | presence updates never change which token a device accepts |
| Heartbeat.WrappedEqualsFlat | apps/web/app/api/agent/heartbeat/route.ts:27-28 | metrics wrapped as `{metrics: {...}}` and the same fields sent flat are stored identically |
| Heartbeat.NonObjectGivesEmptyMetrics | apps/web/app/api/agent/heartbeat/route.ts:27-56 | a non-object candidate yields empty metrics, except the three fields that fall back to null |
| Heartbeat.PersistenceIsBestEffort | apps/web/app/api/agent/heartbeat/route.ts:59-64 | whether the log append succeeds changes neither the status nor the in-memory store nor the deliveries, and a failed append leaves the log as it was |
| JobsNext.NextJob | apps/web/app/api/agent/jobs/next/route.ts:4-21 | the answer is 204 or 401, and a missing header is 401. A 401 changes nothing. A known device gets 204 exactly when its token verifies, and an unknown one is provisioned without a hostname and gets 204 |
| JobsNext.PollSucceedsIffTokenVerifies | apps/web/app/api/agent/jobs/next/route.ts:12-20 | a poll is answered 204 exactly when the device afterwards accepts the token it presented |
| JobsNext.ProvisionedByPollIsNamedAfterId | apps/web/app/api/agent/jobs/next/route.ts:12-14 | a device provisioned by a poll is appended, named `device-` plus the first six characters of its id, with the token's digest |
| MetricsRoute.Limit | apps/web/app/api/metrics/route.ts:10-11 | whatever the parameter holds, the limit lies in 1 .. 2000 |
| MetricsRoute.LimitParses | apps/web/app/api/metrics/route.ts:10-11 | the limit is 300 when the parameter is missing or does not start with a number, and otherwise the parsed number clamped to 1 .. 2000 |
| MetricsRoute.GetMetrics | apps/web/app/api/metrics/route.ts:7-25 | the newest `limit` buffered samples when they answer the request. Otherwise the last hour of the device's log, or of every device's log when no device is named |
| MetricsRoute.MemoryWindowIsUnfiltered | apps/web/app/api/metrics/route.ts:13-23 | when the window holds a sample of the requested device, the window is returned whole, other devices' samples included |
| MetricsRoute.EmptyBufferFallsBackToLogs | apps/web/app/api/metrics/route.ts:16-23 | with no device id and an empty buffer, the answer is the all-devices log read of the last hour, sorted by time and at most `limit` long |
| DevicesRoute.EnrolmentName | apps/web/app/api/devices/route.ts:11 | the trimmed name when it is non-empty, and `New Device` when it is missing or blank |
| DevicesRoute.PostDevice | apps/web/app/api/devices/route.ts:9-14 | the answer is exactly the enrolment's id and token, and the registry is the enrolment's |
| DevicesRoute.PostReenrolsByName | apps/web/app/api/devices/route.ts:11-12 | posting a registered device's name, in any letter case and with surrounding space, re-enrols that device without adding one. Its old token stops verifying and the returned one starts |
| DevicesRoute.MissingNameIsDefaulted | apps/web/app/api/devices/route.ts:11 | a body without a usable name enrols a device called `New Device` |
| Memory.NormalizeMemory | apps/web/lib/metrics.ts:1-14 | a missing figure gives an empty result. `percent` is present exactly when the total is positive, and is used over `max(total, 0.01)` times 100 |
| Memory.ScalesBothOrNeither | apps/web/lib/metrics.ts:9-10 | both figures are divided by 1024 exactly when the total exceeds 1024, and both are unchanged otherwise |
| Memory.PercentIsUnitFree | apps/web/lib/metrics.ts:9-11 | a report in megabytes and the same figures in gigabytes give the same result, when the gigabyte total is at most 1024 |
| Text.TrimSpec | apps/web/app/api/devices/route.ts:11 | the trimmed string is a contiguous piece of the input with no space at either end, and everything cut off is space |
| Text.TrimIdempotent | apps/web/app/api/agent/config/network/route.ts:42 | trimming twice is trimming once |
| Text.ParseIntOfNumeral | apps/web/app/api/metrics/route.ts:10 | `parseInt` reads exactly the value of a plain decimal numeral |
| Text.ParseIntOfNegativeNumeral | apps/web/app/api/metrics/route.ts:10 | a minus sign before a numeral negates what `parseInt` reads |
| Text.ParseIntNoDigits | apps/web/app/api/metrics/route.ts:10-11 | `parseInt` is NaN exactly when no digit follows the leading space and the optional sign |
| Text.NatTextRoundTrip | apps/web/app/api/metrics/history/route.ts:100 | the decimal numeral written for a natural number reads back as that number |
| Params.MissingParamReadsFallback | apps/web/app/api/metrics/route.ts:10-11 | a missing or empty parameter reads the fallback numeral, and when that numeral lies in range it is the value |
| Seqs.CollectIsFirstKept | apps/web/lib/uiConfig.ts:131-137 | the collection loop with its early exit keeps exactly the first `cap` elements that survive cleaning, in order |
| UiConfig.Clamp | apps/web/lib/uiConfig.ts:101-103 | the result lies in `[lo, hi]` when `lo <= hi`, a value already inside is returned unchanged, and values outside go to the nearer bound |
| UiConfig.TextField | apps/web/lib/uiConfig.ts:112-113 | a string property cut to `n` characters, and empty when the property is not a string |
| UiConfig.CleanThemePreset | apps/web/lib/uiConfig.ts:109-119 | a preset is kept exactly when it is an object with two hex accents and a non-empty id and name. The kept one has hex accents, id and name of 1 to 40 characters, and flags copied only when boolean |
| UiConfig.CleanCard | apps/web/lib/uiConfig.ts:149-156 | a card is kept exactly when it is an object with non-empty id and label and a non-empty string source key. `enabled` is the stored boolean, else true |
| UiConfig.Accent | apps/web/lib/uiConfig.ts:126-127 | an accent is replaced only by a valid hex colour, so the result is always one |
| UiConfig.Flag | apps/web/lib/uiConfig.ts:128-129 | a flag takes the stored value only when it is a boolean |
| UiConfig.Bounded | apps/web/lib/uiConfig.ts:166-169 | a numeric setting is always in range. It is the default when no number is stored, and an in-range number is kept |
| UiConfig.CustomThemes | apps/web/lib/uiConfig.ts:131-139 | at most eight presets, each of them clean |
| UiConfig.NormalizeAppearance | apps/web/lib/uiConfig.ts:125-139 | the accents are hex colours, the theme id has at most 60 characters, and there are at most eight clean custom themes |
| UiConfig.HomeRoundTrip | apps/web/lib/uiConfig.ts:141-144 | the seven home flags, saved and read back, are the same flags |
| UiConfig.CardArray | apps/web/lib/uiConfig.ts:147 | a card array is found exactly when `temps` is an object whose `cards` is an array |
| UiConfig.NormalizeCards | apps/web/lib/uiConfig.ts:146-163 | one to eight cards, each with id and label of 1 to 40 characters and a source key |
| UiConfig.NormalizeData | apps/web/lib/uiConfig.ts:165-169 | poll interval in 1000 .. 60000, refresh in 2000 .. 60000, history in 20 .. 2000 and log minutes in 1 .. 720 |
| UiConfig.Normalize | apps/web/lib/uiConfig.ts:121-172 | a non-object gives the defaults. An object gives each section normalised from its own part of the input |
| UiConfig.NormalizeIsValid | apps/web/lib/uiConfig.ts:121-172 | whatever was stored, the normalised configuration satisfies every range, colour, length and cap invariant |
| UiConfig.CustomThemesAreFirstEightClean | apps/web/lib/uiConfig.ts:131-139 | custom themes are the first eight stored presets that survive cleaning, in stored order |
| UiConfig.CardsAreFirstEightClean | apps/web/lib/uiConfig.ts:146-159 | cards are the first eight stored cards that survive cleaning, or the default cards when none does |
| UiConfig.SaveThenLoad | apps/web/lib/uiConfig.ts:121-192 | a valid configuration, saved as JSON and normalised on load, comes back unchanged |
| LogsRecent.Minutes | apps/web/app/api/logs/recent/route.ts:39-40 | the window lies in 1 .. 720 minutes. It is 10 when the parameter is missing or not a number, and otherwise the parsed number clamped |
| LogsRecent.FirstExisting | apps/web/app/api/logs/recent/route.ts:16-19 | the first path in list order that exists, and none exactly when no path exists |
| LogsRecent.ResolveLogPath | apps/web/app/api/logs/recent/route.ts:11-20 | the configured path when it is set and exists, otherwise the first existing default location. Whatever is chosen exists |
| LogsRecent.NotFoundIffNothingExists | apps/web/app/api/logs/recent/route.ts:11-20 | no log is found exactly when neither the configured path nor any default location exists |
| LogsRecent.SplitLines | apps/web/app/api/logs/recent/route.ts:51 | splitting yields at least one piece and no piece holds a line break |
| LogsRecent.NonEmpty | apps/web/app/api/logs/recent/route.ts:51 | exactly the non-empty pieces remain |
| LogsRecent.SplitJoin | apps/web/app/api/logs/recent/route.ts:51-69 | joining plain lines with `\n` and splitting the download again gives the lines back |
| LogsRecent.LineStamp | apps/web/app/api/logs/recent/route.ts:55-58 | a line has a time only when it parses and carries a truthy timestamp, and then it is that timestamp's time |
| LogsRecent.GetRecentLogs | apps/web/app/api/logs/recent/route.ts:36-70 | 404 exactly when no log path resolves. Otherwise the body is the newest eligible lines of the log, joined by `\n` in file order |
| LogsRecent.DownloadedLinesAreRecent | apps/web/app/api/logs/recent/route.ts:53-65 | every downloaded line is a non-empty log line without a break, with a time no older than the cutoff |
| AgentConfig.Load | apps/web/app/api/agent/config/network/route.ts:28-35 | a missing or unreadable file reads as `{}` |
| AgentConfig.Assign | apps/web/app/api/agent/config/network/route.ts:37-51 | an object gains the property, an array is written unchanged, and any other value makes the assignment throw |
| AgentConfig.AssignIf | apps/web/app/api/agent/config/network/route.ts:37-51 | a skipped assignment keeps the configuration, and a thrown one stays thrown |
| AgentConfig.AssignKeepsOthers | apps/web/app/api/agent/config/network/route.ts:37-51 | an assignment leaves every other property as it was |
| NetworkConfig.ClampInterval | apps/web/app/api/agent/config/network/route.ts:37-39 | the interval lies in 2 .. 300 seconds, and an in-range value is kept |
| NetworkConfig.Target | apps/web/app/api/agent/config/network/route.ts:40-45 | a target is the trimmed string when that is non-empty, and nothing otherwise |
| NetworkConfig.Targets | apps/web/app/api/agent/config/network/route.ts:40-45 | at most twelve targets are kept |
| NetworkConfig.UpdateOfObject | apps/web/app/api/agent/config/network/route.ts:37-56 | over an object, each setting the body supplies in the right type is written in its cleaned form, and every other key keeps its value |
| NetworkConfig.WrittenSettingsAreClean | apps/web/app/api/agent/config/network/route.ts:37-51 | every written interval is in range, every target list has at most twelve non-empty entries with no space at either end, and every DNS host has at most 200 characters |
| NetworkConfig.PostNetworkConfig | apps/web/app/api/agent/config/network/route.ts:18-60 | disabled is 403 and a missing or null body 500, and neither writes. 200 happens exactly when something is written, and what is written is the update of the loaded configuration |
| NetworkConfig.PostIsIdempotent | apps/web/app/api/agent/config/network/route.ts:37-56 | posting the same body again over what was written writes the same configuration |
| ApplyConfig.BaseUrl | apps/web/app/api/devices/apply/route.ts:39 | the body's base URL when truthy, else the stored one when truthy, else `http://localhost:3000`. The result is never empty |
| ApplyConfig.PostApply | apps/web/app/api/devices/apply/route.ts:15-48 | disabled is 403, a missing or null body 500, and a missing id or token 400, and none of these writes. 200 happens exactly when something is written |
| ApplyConfig.ApplyWritesCredentials | apps/web/app/api/devices/apply/route.ts:28-44 | over an object, the body's id and token are written verbatim, the base URL fallback applies, and every other property is kept |
| ApplyConfig.FreshFileGetsDefaultBaseUrl | apps/web/app/api/devices/apply/route.ts:28-39 | without a readable file and without a base URL in the body, the file written holds exactly the credentials and the local server's address |
| ApplyConfig.ApplyIsIdempotent | apps/web/app/api/devices/apply/route.ts:28-44 | applying the same body again to what was written writes the same thing |

## Left out

- File system effects are not modelled. That covers `existsSync`, `mkdirSync`, `appendFileSync`, `writeFileSync`, directory listing order and the JSON formatting of written files. A directory is a list of files of parsed lines, and the two configuration writers return the value they would write.
- `readTailBytes`, with its 1 MiB window in `lib/persist.ts` and 16 MiB window in the log download, is not modelled. Nor is UTF-8 decoding. Every file is read whole, so a line cut by the byte window is not modelled.
- `JSON.parse`, `JSON.stringify` and `new Date(..).getTime()` are not implemented. Log lines arrive already parsed as records with an optional time, and the log download and heartbeat take the parser as a parameter.
- The SHA-256 digest is an injective constructor, and `randomUUID` and `Date.now` are parameters. The ISO text of the last-seen time is kept as its epoch instant.
- The server-sent events stream and the `EventEmitter`'s internals are not modelled. Only the listener list and one delivery per listener are modelled.
- NaN, Infinity and floating-point rounding are not modelled. Numbers are `real`, and a non-finite time is an absent one.
- String semantics are simplified. `toLowerCase` folds ASCII letters only, and characters stand for UTF-16 code units.
- The heartbeat and the device post read the body fields `deviceId`, `agentToken`, `hostname`, `agentVersion` and `name` as strings. A value of another JSON type there counts as absent, or makes enrolment fail where `trim` would throw.
- The text of console output is not modelled. For the heartbeat's `console.info` summary line the model keeps one fact: whether the line prints (`Heartbeat.LogLinePrints`). A value that does not print makes the route answer 400 after the sample is already stored, logged and delivered.
- Heartbeat.HandleHeartbeat: does not promise that every answer other than 200 leaves the store, log and listeners untouched. The route's 400 after a summary line that does not print keeps every effect, so that promise covers only the 401 refusals and the unreadable body.
- Log lines are assumed to have the shape `appendMetricSample` writes: a parsed line with a finite time always carries a whole sample with a metrics object. A hand-written line with a time but no `metrics` object is not modelled, nor is the history route's resulting throw (an unhandled 500) when it reads `s.metrics.cpuPercent`.
- Json.NumberText: whole numbers are written as JavaScript writes them below 10^21. Other numbers are written from their exact decimal expansion, cut at 20 fraction digits, and never in exponent form. JavaScript writes the shortest text that reads back as the same double, and uses exponent form from 10^21 up and below 10^-6.
- History.PingTargets and History.PingSummary state the per-target aggregation the route evidently intends. For targets named after `Object.prototype` members the route's plain object differs (see Findings), and the model uses the intended version.
- History.FeedPingAsWritten: the global side effects of an inherited-name target are not modelled. These are the NaN sums left on `Object.prototype` or on the inherited function, and the later requests they can disturb.
- Error message texts and response headers are not modelled. Status codes are plain integers.
- Assigning a property to `null` or a primitive configuration value is modelled as a throw (status 500), as in strict-mode module code.
- `path.resolve` is treated as the identity on the configured and default log paths.
- The log download's catch-all 500 is not modelled, because it only fires for file system errors.
- `loadUiConfig`, `saveUiConfig` and `applyUiConfig` are not modelled, since they use `localStorage` and the DOM. `UiConfig.Encode` stands for the `JSON.stringify` of `saveUiConfig`, so the round trip covers the save and load pair. The version-1 storage key fallback is left out.
- UiConfig.NormalizeCards: the version-1 migration branch is not a separate case, because it writes the default cards the result already holds.
- UiConfig.CleanCard: the card's source key is any non-empty string. The TypeScript cast to `TempSourceKey` checks nothing at run time.
- Persist.ReadRecentDeviceSamples: its own contract gives only the bounds. The exact newest-records characterisation is `Persist.ReadIsNewestEligible`, stated over the file's lines.
- Persist.SortByTime: stability of the sort is not stated, only that the result is a sorted permutation.
- NetworkConfig.Targets: its own contract gives only the cap of twelve. The cleanliness of each target is `NetworkConfig.WrittenSettingsAreClean`.
- The debug samples route, the job log and finish routes, the React pages and components, and the development wrapper script are presentation or pass-through code, so they are not modelled.

## Findings

| source | as written | input that shows it | evidently intended | confidence | as-written member | corrected member |
|---|---|---|---|---|---|---|
| apps/web/app/api/metrics/history/route.ts:64-110 | per-target ping aggregates live in a plain object `{}`, read with `cur.ping[key] ?? fresh` and written with `cur.ping[key] = agg`, so a target named after an `Object.prototype` member reads the inherited value | one ping `{target: "__proto__", avgMs: 5}` gives no `ping` property, and `{target: "constructor", avgMs: 5}` gives `constructor` with undefined means | one aggregate per target text, as a `Map` or `Object.create(null)` would keep | not executed; high, from the JavaScript property lookup rules | History.FeedPingAsWritten (History.ProtoTargetIsDropped, History.ConstructorTargetLosesMean) | History.FeedPing (History.PingTargets, History.PingSummary) |
