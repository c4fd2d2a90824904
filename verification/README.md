# petro-gps_gate core, modelled in Dafny

petro-gps_gate is a gateway between an upstream GPS feed and a dashboard. The
server logs in to the upstream WebSocket, keeps the session alive and
re-authenticates when a login is refused. It hands every position sample to
`checkVehicle`, which does the following:

- drops invalid samples;
- broadcasts valid ones to the dashboard hub;
- decides, station by station, whether the vehicle checks in or checks out of
  the `entries` table;
- starts a camera capture on each check-in or check-out, whose motion-JPEG
  output is cut into frames and broadcast;
- at most every five minutes, runs `entriesCleanup`. This reconciliation pass
  deletes duplicate entries, merges sessions that are close together and
  deletes short stays.

The dashboard keeps the latest position of each vehicle and the sorted entry
list, formats stay durations and exports the list.

The server installs no `uncaughtException` or `unhandledRejection` handler
(`src/server.js` only starts the upstream client and the hub). An exception
thrown in an event listener or a timer callback, and a promise rejection that
nothing handles, therefore end the process. The model keeps these outcomes:
the upstream session has a `crashed` state after which no handler runs, and
`checkVehicle` returns the outcome its unawaited promise settles with.

The project is split into these modules:

| module | what it models |
|---|---|
| `Wrappers` | `Option`, standing for `null`/`undefined` values, and `Outcome`, standing for completed or thrown |
| `Text` | String helpers: `StartsWith`, character replacement and decimal rendering of numbers |
| `EntryStore` | The `entries` table. Rows are kept in ascending id order. It covers `getLastRecentEntries` (the 100 newest rows, newest first) and the `updateEntry` / `deleteEntry` writes |
| `Reconcile` | `entriesCleanup`: grouping by plate, the in-time sort, and the three-rule scan with its in-place splice. The scan is an imperative method proved equal to a recursive specification, and that specification's properties are proved as lemmas |
| `FrameDemux` | The JPEG frame cutter on ffmpeg's stdout: the `Buffer.indexOf` search and the `while` loop over the accumulated buffer |
| `Vehicle` | `vehicle.js`. The class `GeofenceEngine` holds the module state: the entry table and its id counter, the hub's broadcast log, `LAST_CLEANUP_TIME` and `activeRecordings`. Each of its methods is proved equal to a pure step function, and the invariants are proved on those functions |
| `Upstream` | `ws/upstream/index.js`. The class `UpstreamSession` holds the sent-message log, the credentials file, the hand-offs to `checkVehicle`, the keep-alive intervals and whether the process has ended. The handlers are again proved equal to pure step functions |
| `Dashboard` | The data handling of `AppUI/src/App.js`: the position map, the entry list, `getDuration` and the export |

These things become parameters of the model:

- **Time.** Times are integers in milliseconds.
- **ISO timestamp.** `new Date().toISOString()` is an `iso` string parameter.
- **Distance.** The distance between a sample and a station (`getDistanceMeters`, a haversine over `parseFloat` values) is a parameter: a `real` per station, or a function from station code to `real`.
- **HTTP outcomes.** The outcomes of the two login requests in `reAuthenticate` are parameters, and so is whether the credentials file write succeeds.
- **Date formatting.** The dashboard's `toLocaleString` formatter is a function parameter `fmt`.

## Model

| member | source | states |
|---|---|---|
| EntryStore.Recent | src/database/supabase.js:22-24 | The rows fetched are the last `min(100, n)` rows of the table in reverse order, i.e. ordered by id descending with limit 100 |
| EntryStore.RecentNewestFirst | src/database/supabase.js:24 | On an id-ordered table, the fetched rows have strictly decreasing ids, and every row left out is older than every row fetched |
| EntryStore.DeleteRow | src/database/supabase.js:78-80 | `deleteEntry(id)` removes exactly the rows with that id and keeps the table ordered by id |
| EntryStore.UpdateRow | src/database/supabase.js:64-66 | `updateEntry(e)` replaces every row whose id equals `e.id` by `e` and leaves the other rows and the length unchanged |
| EntryStore.UpdateKeepsIds | src/database/supabase.js:64-66 | An update keeps the table ordered by id |
| EntryStore.ApplyInOrder | src/processor/entriesCleanup.js:20-61 | Awaiting the store calls one by one yields the table obtained by applying them in sequence |
| EntryStore.ApplyCallsKeepOrder | src/processor/entriesCleanup.js:20-61 | Any sequence of deletes and updates keeps the table ordered by id |
| Reconcile.PlatesDistinct | src/processor/entriesCleanup.js:9-15 | The keys of `grouped` are distinct plates |
| Reconcile.PlatesCoverRows | src/processor/entriesCleanup.js:9-15 | Every fetched row's plate is a key of `grouped` |
| Reconcile.PlatesFromRows | src/processor/entriesCleanup.js:9-15 | Every key of `grouped` is the plate of some fetched row |
| Reconcile.GroupOf | src/processor/entriesCleanup.js:10-14 | A plate's group holds only fetched rows with that plate |
| Reconcile.GroupOfExact | src/processor/entriesCleanup.js:10-14 | A plate's group holds every fetched row of that plate exactly as often as the fetch does, and nothing else |
| Reconcile.GroupOfAbsent | src/processor/entriesCleanup.js:11-13 | A plate that never appears has an empty group |
| Reconcile.GroupByPlate | src/processor/entriesCleanup.js:9-15 | The grouping loop builds exactly the plates in first-appearance order, and maps each one to its group in fetch order |
| Reconcile.InsertKeepsSorted | src/processor/entriesCleanup.js:18 | Inserting into an in-time-sorted list keeps it sorted |
| Reconcile.InsertPermutes | src/processor/entriesCleanup.js:18 | Inserting adds exactly the one row to the multiset of rows |
| Reconcile.SortIsSorted | src/processor/entriesCleanup.js:18 | The sorted copy is ordered by in-time |
| Reconcile.SortPermutes | src/processor/entriesCleanup.js:18 | The sorted copy is a permutation of the group |
| Reconcile.InsertKeyed | src/processor/entriesCleanup.js:18 | Inserting a row puts it ahead of every row with the same in-time and leaves their order alone |
| Reconcile.SortStable | src/processor/entriesCleanup.js:18 | The sort is stable: for every in-time, the rows with that in-time come out in the order they came in |
| Reconcile.Judge | src/processor/entriesCleanup.js:20-61 | Without a predecessor, only the short-stay rule can fire. A row is kept if and only if no rule fires against the surviving predecessor |
| Reconcile.MergedCopy | src/processor/entriesCleanup.js:35-42 | A merge writes the predecessor's id, plate, station and in-time. It takes the current row's out-time when that row is closed. When the current row is open and not inside, it clears the out-time and sets not-inside. Otherwise the predecessor is unchanged |
| Reconcile.Scan | src/processor/entriesCleanup.js:20-61 | The recursive specification of the scan loop: it keeps at most as many rows as the group has, and only rows of the group. Its exact results are stated by `ScanSurvivors`, `ScanDeletions` and `ScanSpacing` |
| Reconcile.ScanSpacing | src/processor/entriesCleanup.js:20-61 | After the scan no rule fires between adjacent survivors as the scan holds them in memory, and none fires between the starting predecessor and the first survivor |
| Reconcile.SecondPassMayMerge | src/processor/entriesCleanup.js:35-45 | The store's rows need not be spaced after one pass. Sessions at 0-10, 12-20 and 24-40 minutes become 0-20 and 24-40 in the store, and a second pass merges those again |
| Reconcile.SpacedIsAscending | src/processor/entriesCleanup.js:25 | Survivors start at least five minutes apart, pairwise and in order |
| Reconcile.ScanSurvivors | src/processor/entriesCleanup.js:20-61 | The survivors are exactly the rows judged Keep, in order |
| Reconcile.ScanDeletions | src/processor/entriesCleanup.js:24-60 | The ids deleted are exactly the rows not kept, in order. The number of updates equals the number of merges |
| Reconcile.ScanUpdateThenDelete | src/processor/entriesCleanup.js:44-45 | Every update sent is immediately followed by a delete |
| Reconcile.ScanTargets | src/processor/entriesCleanup.js:20-61 | The scan writes only to rows of its group, or to the predecessor it started with |
| Reconcile.ScanGroup | src/processor/entriesCleanup.js:20-61 | The imperative loop with `splice` and `i--` yields the survivors and calls of the recursive scan, and its survivors obey all three rules |
| Reconcile.CleanupTargetsFetched | src/processor/entriesCleanup.js:17-62 | The pass writes only to rows it fetched |
| Reconcile.EntriesCleanup | src/processor/entriesCleanup.js:5-65 | The whole pass sends the per-plate scan calls in key order, and every call targets a fetched row |
| FrameDemux.IndexOf | src/processor/vehicle.js:200-201 | `Buffer.indexOf` of a two-byte marker returns -1 or a position at or after `from` where the marker occurs |
| FrameDemux.IndexOfFirst | src/processor/vehicle.js:200-201 | The position returned is the first match: no earlier position from `from` holds the marker |
| FrameDemux.Demux | src/processor/vehicle.js:197-213 | The data handler's loop returns the frames and the remainder of the whole-buffer cut. Every frame starts with FF D8 and ends with FF D9, and no complete frame is left in the buffer. The buffer is the dropped gaps interleaved with the frames, followed by the remainder, and each frame is the first complete one after its gap |
| FrameDemux.ExtractDecomposes | src/processor/vehicle.js:197-213 | About `Extract`, the loop's specification: the frames and the kept tail are the buffer's own bytes, in order. Each dropped gap holds no start marker before its frame, and each frame holds no end marker between its first and last two bytes |
| FrameDemux.ExtractFramesWellFormed | src/processor/vehicle.js:203-204 | Every emitted frame runs from an SOI marker to an EOI marker |
| FrameDemux.ExtractLeavesNoFrame | src/processor/vehicle.js:203 | The loop stops only when the buffer holds no SOI followed by an EOI |
| FrameDemux.ExtractNeedsFrame | src/processor/vehicle.js:203 | Frames are emitted only when the buffer holds a complete frame |
| FrameDemux.ExtractIdle | src/processor/vehicle.js:203 | A buffer without a complete frame is kept whole and emits nothing |
| FrameDemux.ChunkBoundariesIrrelevant | src/processor/vehicle.js:197-213 | Feeding chunks one `data` event at a time emits the same frames and leaves the same remainder as one cut of their concatenation |
| Text.ReplaceChars | src/processor/vehicle.js:168 | The replacement keeps the length, changes exactly the target characters, and leaves none of them when the substitute is not a target |
| Vehicle.ValidVehicleRule | src/processor/vehicle.js:39-54 | About `IsValidVehicle`: a sample is valid if and only if it has a configured, non-empty device id and two non-empty coordinates that do not start with '0' (the other checks are redundant) |
| Vehicle.CreateVehicleUpdate | src/processor/vehicle.js:56-62 | The update carries the device id, plus the four location fields when the location exists, and none of them when it does not |
| Vehicle.FindVehicleEntry | src/processor/vehicle.js:96-98 | Returns the index of the first row for this plate and station, or none when no row matches |
| Vehicle.Decide | src/processor/vehicle.js:68-94 | Check-in if and only if within 90 m with no open entry. Check-out if and only if beyond 60 m with an open entry |
| Vehicle.InvertedBand | src/processor/vehicle.js:68-94 | Between 60 m and 90 m an open entry is checked out and a closed one checked in, so a stationary vehicle alternates |
| Vehicle.Broadcast | src/ws/downstream/index.js:27-37 | An emit appends the event when the hub is set up and is skipped otherwise. Nothing else changes |
| Vehicle.CaptureFileNameShape | src/processor/vehicle.js:168-171 | The file name is the plate, '_', the tag, '_', the timestamp and ".mp4". After the plate, ':' and '.' appear only in the extension |
| Vehicle.CaptureStep | src/processor/vehicle.js:155-229 | A plate already recording changes nothing. Otherwise the capture throws if and only if the hub is not set up, changing nothing. Otherwise the plate is registered under its file name |
| Vehicle.OnDataFrames | src/processor/vehicle.js:197-213 | A data event broadcasts only whole JPEG frames and leaves no complete frame in the plate's buffer |
| Vehicle.OnData | src/processor/vehicle.js:197-213 | A data event of a plate that is not recording changes nothing. Otherwise only the hub grows and only that plate's buffer changes: the table, the other recordings and the file name stay as they were |
| Vehicle.OnClose | src/processor/vehicle.js:220-226 | Closing emits `video-end` with the recorded file and frees the plate. Every other recording is kept with its file and buffer, and the table is unchanged |
| Vehicle.CheckInStep | src/processor/vehicle.js:100-124 | An open entry among the recent rows means nothing changes. Otherwise an open row with the next id is appended and the fetched rows plus it are broadcast. The capture then throws if and only if the plate is not recording and the hub is not set up; otherwise a plate not yet recording is registered under its `in` file name |
| Vehicle.CheckOutStep | src/processor/vehicle.js:126-150 | No matching row means nothing changes. Otherwise the first matching fetched row, closed now, is written, and the fetched rows with it closed are broadcast. The capture then throws if and only if the plate is not recording and the hub is not set up; otherwise a plate not yet recording is registered under its `out` file name |
| Vehicle.CheckOutClosesOneRow | src/processor/vehicle.js:136-140 | On an id-ordered table the write closes exactly the table row the fetched row came from, and every other row is unchanged |
| Vehicle.CleanupStep | src/processor/vehicle.js:77-81 | When due (never run, or more than five minutes ago), the time is recorded and the cleanup calls apply. Otherwise nothing changes |
| Vehicle.StationStep | src/processor/vehicle.js:64-82 | Processing one station only appends to the hub, never a position update, and it throws only when the hub is not set up. When it completes, the cleanup time is stamped exactly when the five-minute cadence is due; a throw skips the cleanup |
| Vehicle.StationFollowsDecide | src/processor/vehicle.js:71-75 | A station does what `Decide` picks from the first fetched row. With no change, only the cleanup runs. A row is added only on a check-in that finds no open entry. A check-out writes the check-out's row |
| Vehicle.StationsStep | src/processor/vehicle.js:33-35 | The loop over the stations only appends to the hub, never a position update, and it stops on a throw, which needs a hub that is not set up |
| Vehicle.StationsInOrder | src/processor/vehicle.js:33-35 | The stations are processed in their configured order: one more station at the end is one more station step, unless an earlier one threw |
| Vehicle.CheckVehicleStep | src/processor/vehicle.js:24-36 | A sample only appends to the hub. Its promise rejects, ending the process, only when the hub is not set up |
| Vehicle.ValidSampleVisitsStations | src/processor/vehicle.js:28-35 | A valid sample is broadcast, and then every configured station is processed against the rows fetched once |
| Vehicle.CheckInKeepsWellFormed | src/processor/vehicle.js:100-124 | A check-in keeps the table ordered by id and below the next id |
| Vehicle.CheckOutKeepsWellFormed | src/processor/vehicle.js:126-150 | A check-out keeps the table ordered by id and below the next id |
| Vehicle.CleanupKeepsWellFormed | src/processor/vehicle.js:77-81 | The cleanup keeps the table ordered by id and below the next id |
| Vehicle.StationKeepsWellFormed | src/processor/vehicle.js:64-82 | Processing one station keeps the table well formed |
| Vehicle.StationsKeepWellFormed | src/processor/vehicle.js:33-35 | The loop over the stations keeps the table well formed, even when it stops at a throw |
| Vehicle.CheckVehicleKeepsWellFormed | src/processor/vehicle.js:24-36 | Every sample leaves the table well formed |
| Vehicle.InvalidSampleIgnored | src/processor/vehicle.js:25 | An invalid sample changes nothing and completes |
| Vehicle.ValidSampleAnnouncedFirst | src/processor/vehicle.js:28-34 | A valid sample's `newLocation` event comes before any event the stations cause, and it is the only position update the sample sends |
| Vehicle.GeofenceEngine.constructor | src/processor/vehicle.js:21-22 | A fresh server has not cleaned up, records nothing, has broadcast nothing and holds a well-formed table |
| Vehicle.GeofenceEngine.Emit | src/ws/downstream/index.js:27-37 | The new state is `Broadcast` of the old |
| Vehicle.GeofenceEngine.Capture | src/processor/vehicle.js:155-229 | The outcome and new state are `CaptureStep` of the old state, and the table stays well formed |
| Vehicle.GeofenceEngine.OnCaptureData | src/processor/vehicle.js:197-213 | The new state is `OnData` of the old, and the table stays well formed |
| Vehicle.GeofenceEngine.OnCaptureClose | src/processor/vehicle.js:220-226 | The new state is `OnClose` of the old, and the table stays well formed |
| Vehicle.GeofenceEngine.CheckIn | src/processor/vehicle.js:100-124 | The outcome and new state are `CheckInStep` of the old state, and the table stays well formed |
| Vehicle.GeofenceEngine.CheckOut | src/processor/vehicle.js:126-150 | The outcome and new state are `CheckOutStep` of the old state, and the table stays well formed |
| Vehicle.GeofenceEngine.Cleanup | src/processor/vehicle.js:77-81 | The new state is `CleanupStep` of the old, and the table stays well formed |
| Vehicle.GeofenceEngine.ProcessAtStation | src/processor/vehicle.js:64-82 | The outcome and new state are `StationStep` of the old state, and the table stays well formed |
| Vehicle.GeofenceEngine.CheckVehicle | src/processor/vehicle.js:24-36 | The outcome and new state are `CheckVehicleStep` of the old state, and the table stays well formed |
| Upstream.OnlyLoginIsNumeric | src/ws/upstream/index.js:26 | Only the login request carries a numeric action, and no request the session sends is the string '80000' |
| Upstream.Or | src/ws/upstream/index.js:68-69 | The JavaScript or-fallback: the first value when it is a non-empty string, else the second |
| Upstream.LoginMessage | src/ws/upstream/index.js:63-71 | The login carries the file's username. It carries the new token and pid when present and non-empty, else the file's |
| Upstream.KeepAliveMessage | src/ws/upstream/index.js:96-105 | A tick sends a keep-alive if and only if the file was read. It carries the file's username and the captured token, or the file's token when the captured one is empty |
| Upstream.Conclude | src/ws/upstream/index.js:130-144 | A credential results if and only if the reply says `Success` and has data, and the credential is that data. The call rethrows if and only if the request failed or a `Success` reply has no data |
| Upstream.RetryOnlyOn10082 | src/ws/upstream/index.js:123-128 | About `ReAuthenticate`: the second request matters only after status 10082, and then only its reply decides the result |
| Upstream.Saved | src/ws/upstream/index.js:151-156 | The saved record is user `admin`, the new token and pid, and the current ISO time |
| Upstream.LoginStep | src/ws/upstream/index.js:54-72 | The login is appended to the socket when the file reads back. Otherwise the unawaited promise rejects and the process ends |
| Upstream.KeepAliveStep | src/ws/upstream/index.js:92-108 | A fresh interval holding the file and token is armed. When at most one interval existed, it is the only live one. Nothing is sent and the process does not end |
| Upstream.OpenStep | src/ws/upstream/index.js:13-18 | On open the socket sees the subscription first. The process then ends if and only if the startup read or the login's read failed. The login follows when both reads succeeded, and the keep-alive starts only when the startup read succeeded |
| Upstream.FireStep | src/ws/upstream/index.js:96-105 | A tick appends its keep-alive. When its file read failed, the callback throws and the process ends |
| Upstream.MessageStep | src/ws/upstream/index.js:20-46 | The payload is always handed on first. Apart from that and the end of the process, nothing changes unless the message is a failed login reply whose reauthentication yields a credential |
| Upstream.MessageCrashes | src/ws/upstream/index.js:20-46 | A message ends the process if and only if it has no payload, or it is a failed login reply whose reauthentication rethrows, or whose new token meets an unreadable file |
| Upstream.CrashIsFinal | src/ws/upstream/index.js:13-46 | After the process has ended, no handler changes anything |
| Upstream.OpenKeepsOneTimer | src/ws/upstream/index.js:13-18 | Opening leaves at most one live keep-alive interval |
| Upstream.MessageKeepsOneTimer | src/ws/upstream/index.js:30-33 | A message leaves at most one live keep-alive interval |
| Upstream.OnlyFailedLoginReauthenticates | src/ws/upstream/index.js:26-36 | Sends, saves and timer changes happen only for a string '80000' reply with result `fail` that reauthenticates. A numeric action never sends |
| Upstream.ReauthResends | src/ws/upstream/index.js:30-33 | After a refresh with a token, the file is rewritten (when the write succeeds). The socket sees the subscription, then the login with the new token. The only live interval sends the new token. The process ends only when the file cannot be read |
| Upstream.TokenlessSuccessOnlySaves | src/ws/upstream/index.js:130-140 | A `Success` without a token overwrites the file with a tokenless record but sends nothing, keeps the running interval and does not end the process |
| Upstream.StartupKeepAliveUsesFileToken | src/ws/upstream/index.js:17 | At startup the keep-alive sends the file's token, because it is handed a string whose `.token` is undefined |
| Upstream.UpstreamSession.constructor | src/ws/upstream/index.js:9-11 | A new session holds the startup credentials, has sent nothing, has no interval and is running |
| Upstream.UpstreamSession.SendLogin | src/ws/upstream/index.js:54-79 | The new state is `LoginStep` of the old, and at most one interval stays live |
| Upstream.UpstreamSession.SendSubscribe | src/ws/upstream/index.js:81-90 | The subscription is appended to the socket and nothing else changes, so at most one interval stays live |
| Upstream.UpstreamSession.StartKeepAlive | src/ws/upstream/index.js:92-108 | The new state is `KeepAliveStep` of the old, and at most one interval stays live |
| Upstream.UpstreamSession.OnOpen | src/ws/upstream/index.js:13-18 | The new state is `OpenStep` of the old |
| Upstream.UpstreamSession.OnTimer | src/ws/upstream/index.js:96-105 | The new state is `FireStep` of the old, and at most one interval stays live |
| Upstream.UpstreamSession.Reauthenticate | src/ws/upstream/index.js:110-164 | The result is the two-request decision of `ReAuthenticate`. The file is rewritten only on a refresh whose write succeeds |
| Upstream.UpstreamSession.OnMessage | src/ws/upstream/index.js:20-46 | The new state is `MessageStep` of the old, and at most one interval stays live |
| Dashboard.JsRem | AppUI/src/App.js:115-116 | JavaScript's `%` is below the divisor in magnitude and differs from the dividend by a multiple of the divisor. It agrees with the mathematical remainder for non-negative operands and is never positive for negative ones |
| Dashboard.FloorDiv | AppUI/src/App.js:114-116 | `Math.floor(a / b)` is the largest `q` with `q * b <= a` |
| Dashboard.SplitBounds | AppUI/src/App.js:112-116 | About `Split`: for a non-negative span, the hours are non-negative and the minutes and seconds are each below 60. Together they add up to the span to within one second |
| Dashboard.SplitNegative | AppUI/src/App.js:112-116 | For a negative span no part is positive, and -1 ms shows as -1h -1m -1s |
| Dashboard.FormatDuration | AppUI/src/App.js:118 | The text ends in 's' and has at least the eight characters of "0h 0m 0s" |
| Dashboard.FormatDurationInjective | AppUI/src/App.js:118 | Distinct non-negative durations have distinct texts |
| Dashboard.DurationTextReadsBack | AppUI/src/App.js:109-119 | About `getDuration`: two non-negative stays that are shown with the same text differ by less than one second |
| Dashboard.Upsert | AppUI/src/App.js:78-83 | A shown update is stored under its device id, replacing only that key. An update that is not shown changes nothing |
| Dashboard.BroadcastPositionsShown | AppUI/src/App.js:78 | Every position the server broadcasts passes the dashboard's filter and is keyed by its device id |
| Dashboard.UpsertKeepsKeyed | AppUI/src/App.js:79-82 | Every stored position stays shown and keyed by its own device id |
| Dashboard.Row | AppUI/src/App.js:123 | An export row is the plate, the formatted in-time, the formatted out-time or '-', and the duration |
| Dashboard.ExportRows | AppUI/src/App.js:122-125 | The sheet is the header row followed by one row per entry, in order |
| Dashboard.ExportFileName | AppUI/src/App.js:130 | The name is "vehicle_entries_", the first 19 characters of the timestamp with ':' and 'T' replaced by '-', then ".xlsx" |
| Dashboard.ExportFileNameClean | AppUI/src/App.js:130 | The stamp part of the name holds no ':' and no 'T' |
| Dashboard.Dashboard.constructor | AppUI/src/App.js:75-92 | The dashboard starts with no positions and no entries |
| Dashboard.Dashboard.OnNewLocation | AppUI/src/App.js:75-87 | The positions become `Upsert` of the old ones, the entries are unchanged, and every position stays keyed and shown |
| Dashboard.Dashboard.OnVehicleEntries | AppUI/src/App.js:89-92 | The entries become the received list sorted by in-time, and the positions are unchanged |
| Dashboard.Dashboard.Export | AppUI/src/App.js:121-125 | The export of the current entries is the header row, then `Row` of each entry in order |

## Left out

- Store failures: any thrown error of the Supabase calls inside `entriesCleanup`, and errors of `getLastRecentEntries` in `checkVehicle`. The store is a plain table that always answers. A throw from the capture is the only failure path modelled.
- Concurrency. Samples are processed one at a time, and each handler runs to completion. In reality, several `checkVehicle` calls can interleave with each other at their `await`s, and so can a check-in's fetch and its insert. One `now` and one ISO time are used for the whole of one sample.
- Geometry. Floating point, the haversine distance, `parseFloat` and `NaN` coordinates are not modelled: the distance to each station is a parameter.
- Spawning ffmpeg, its command line, the recording length and the `videos` directory creation are not modelled. A capture is its registration, its `data` events and its `close` event.
- The upstream `error` handler is not modelled: it refers to a `clientSocket` that is not defined in that file.
- Vehicle.CheckInStep: the broadcast new entry carries the id the store gave it. In the source it is the object sent to `insertEntry`, which has no id.
- The `isFirstStart` guard of `captureVehicle` is not modelled. The flag is never set to anything but `false`, so the guard never fires.
- JSON values of other types are not modelled (numbers where strings are expected, and so on), and neither is `JSON.parse` throwing on a malformed message. The credentials file that cannot be read or parsed is modelled, as `null`.
- Reconcile.PlateOrder: the plates are taken in first-appearance order. JavaScript enumerates integer-like object keys first, in numeric order, so a plate made only of digits would change the order of the store calls, though not which calls are sent.
- Time is not modelled: the five-minute wait before the retry is not timed, and a keep-alive tick every 60 seconds is a call of `OnTimer`.
- Dashboard.Row: `toLocaleString` depends on the browser's locale and is the parameter `fmt`.
- The React and Leaflet rendering of `App.js` is not modelled. Neither are the `video` and `video-end` handlers, which manage a blob URL for display only.
- Upstream.OpenStep: the handler calls login, subscribe and keep-alive in that order. The socket sees the subscription first, because the login sends only after awaiting the file read. The model follows that send order.
- The end of the process is a terminal state, not a restart: nothing supervises the server, and the exit code and the error printed are not modelled. On an unhandled rejection, the model applies the microtasks already queued in the same handler before the process ends (a keep-alive armed in the same turn is still recorded); with no handlers left to run, this makes no observable difference.
- Vehicle.CheckVehicleStep: a `Fail` outcome ends the process, but the engine has no terminal state of its own. The upstream model hands each payload on without awaiting it, so its `crashed` state does not record this end either. The server sets up the hub before any message can arrive (`src/server.js:17-18`), so the `Fail` outcome cannot occur in the running server.
- The logging (`console.*`) of every file is not modelled.
