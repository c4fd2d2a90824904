/** `vehicle.js`: what the server does with every position sample of a vehicle.
    A valid sample is broadcast as a `newLocation` event, and then, station by
    station, the vehicle is checked in or out of the entry table, the periodic
    reconciliation pass runs when it is due, and each check-in or check-out starts
    a camera capture whose motion-JPEG output is cut into frames and broadcast.

    The store is the entry table (`seq<Entry>`, ids ascending, `nextId` the id the
    store gives the next inserted row), the socket.io hub is the log of broadcast
    events, and `activeRecordings` is a map from plate to the running capture. */
module Vehicle {
  import opened Wrappers
  import opened Text
  import opened EntryStore
  import Reconcile
  import FrameDemux

  /** `CONFIG.STATION_RADIUS_METERS`: a vehicle this close to a station is inside it. */
  const STATION_RADIUS_METERS: real := 90.0
  /** The distance beyond which an open entry is checked out. */
  const EXIT_DISTANCE_METERS: real := 60.0
  /** `CONFIG.CLEANUP_INTERVAL_MS`. */
  const CLEANUP_INTERVAL_MS: int := 5 * 60 * 1000
  /** The error `getDownstreamSocket` throws before the hub is initialised. */
  const NOT_INITIALIZED: string := "Downstream WebSocket server is not initialized"

  // ---------------------------------------------------------------------------
  // Samples

  datatype Location = Location(latitude: Option<string>, longitude: Option<string>, speed: Option<int>, direct: Option<int>)

  /** The `payload` of an upstream message, read as a vehicle. */
  datatype Sample = Sample(deviceID: Option<string>, location: Option<Location>)

  /** A string value that JavaScript treats as true: present and not empty. */
  predicate Truthy(s: Option<string>) {
    s.Some? && s.value != ""
  }

  /** The coordinate checks of `isValidVehicle`, in the order they are written. */
  predicate CoordinateAccepted(c: Option<string>) {
    Truthy(c) && c.value != "" && c.value != "0" && !StartsWith(c.value, "0")
  }

  /** `isValidVehicle`. */
  predicate IsValidVehicle(vehicle: Option<Sample>, vehicles: seq<string>) {
    && vehicle.Some?
    && Truthy(vehicle.value.deviceID)
    && vehicle.value.location.Some?
    && CoordinateAccepted(vehicle.value.location.value.latitude)
    && CoordinateAccepted(vehicle.value.location.value.longitude)
    && vehicle.value.deviceID.value in vehicles
  }

  /** Stripped of its redundant checks, the rule is: a configured device id, and
      two non-empty coordinates neither of which starts with '0'. */
  lemma ValidVehicleRule(vehicle: Option<Sample>, vehicles: seq<string>)
    ensures IsValidVehicle(vehicle, vehicles) <==>
      && vehicle.Some?
      && vehicle.value.deviceID.Some? && vehicle.value.deviceID.value in vehicles
      && vehicle.value.deviceID.value != ""
      && vehicle.value.location.Some?
      && var loc := vehicle.value.location.value;
      && loc.latitude.Some? && |loc.latitude.value| > 0 && loc.latitude.value[0] != '0'
      && loc.longitude.Some? && |loc.longitude.value| > 0 && loc.longitude.value[0] != '0'
  {
    forall c: string | |c| > 0 ensures StartsWith(c, "0") <==> c[0] == '0' {
      assert c[..1] == [c[0]];
    }
  }

  /** The `newLocation` event. */
  datatype VehicleUpdate = VehicleUpdate(
    deviceID: Option<string>,
    latitude: Option<string>,
    longitude: Option<string>,
    speed: Option<int>,
    direct: Option<int>)

  /** `createVehicleUpdate`: the device id and, through `location?.`, the four
      location fields, each missing when the location is. */
  function CreateVehicleUpdate(vehicle: Sample): (u: VehicleUpdate)
    ensures u.deviceID == vehicle.deviceID
    ensures vehicle.location.None? ==> u.latitude.None? && u.longitude.None? && u.speed.None? && u.direct.None?
    ensures vehicle.location.Some? ==>
      var loc := vehicle.location.value;
      u.latitude == loc.latitude && u.longitude == loc.longitude && u.speed == loc.speed && u.direct == loc.direct
  {
    match vehicle.location
    case None => VehicleUpdate(vehicle.deviceID, None, None, None, None)
    case Some(loc) => VehicleUpdate(vehicle.deviceID, loc.latitude, loc.longitude, loc.speed, loc.direct)
  }

  // ---------------------------------------------------------------------------
  // The decision at one station

  predicate Matches(e: Entry, plate: string, station: string) {
    e.plate == plate && e.station == station
  }

  /** `findVehicleEntry` (and the search in `checkOut`): the index of the first row
      of `entries` for this plate and station. */
  function FindVehicleEntry(entries: seq<Entry>, plate: string, station: string): (r: Option<nat>)
    ensures r.Some? ==> r.value < |entries| && Matches(entries[r.value], plate, station)
    ensures r.Some? ==> forall k :: 0 <= k < r.value ==> !Matches(entries[k], plate, station)
    ensures r.None? ==> forall k :: 0 <= k < |entries| ==> !Matches(entries[k], plate, station)
  {
    if entries == [] then None
    else if Matches(entries[0], plate, station) then Some(0)
    else
      match FindVehicleEntry(entries[1..], plate, station)
      case None => None
      case Some(k) => Some(k + 1)
  }

  function EntryAt(entries: seq<Entry>, index: Option<nat>): Option<Entry> {
    if index.Some? && index.value < |entries| then Some(entries[index.value]) else None
  }

  /** The search in `checkIn`: some row for this plate and station is inside. */
  predicate HasOpenEntry(entries: seq<Entry>, plate: string, station: string) {
    exists k :: 0 <= k < |entries| && Matches(entries[k], plate, station) && entries[k].isInside
  }

  datatype Action = CheckIn | CheckOut | NoChange

  /** The branch `processVehicleAtStation` takes, given the distance to the
      station and the first fetched row for the plate and station. */
  function Decide(distance: real, current: Option<Entry>): (a: Action)
    ensures a == CheckIn <==> distance <= STATION_RADIUS_METERS && (current.None? || !current.value.isInside)
    ensures a == CheckOut <==> distance > EXIT_DISTANCE_METERS && current.Some? && current.value.isInside
  {
    var isInside := distance <= STATION_RADIUS_METERS;
    if isInside && (current.None? || !current.value.isInside) then CheckIn
    else if distance > EXIT_DISTANCE_METERS && current.Some? && current.value.isInside then CheckOut
    else NoChange
  }

  /** The band is inverted: between 60 and 90 metres an open entry is checked out
      although the vehicle is inside the radius, and a closed one is checked in
      again, so a vehicle standing there alternates between the two. */
  lemma InvertedBand(distance: real, e: Entry)
    requires EXIT_DISTANCE_METERS < distance <= STATION_RADIUS_METERS
    ensures Decide(distance, Some(e.(isInside := true))) == CheckOut
    ensures Decide(distance, Some(e.(isInside := false))) == CheckIn
    ensures Decide(distance, None) == CheckIn
  {
  }

  // ---------------------------------------------------------------------------
  // Server state

  /** A broadcast on the downstream hub. */
  datatype HubEvent =
    | NewLocation(update: VehicleUpdate)
    | VehicleEntries(entries: seq<Entry>)
    | Video(frame: seq<bv8>)
    | VideoEnd(plate: string, file: string)

  /** A running capture: the file it records and the bytes its demultiplexer keeps. */
  datatype Recording = Recording(file: string, buffer: seq<bv8>)

  /** The configured vehicles and station codes, and whether the downstream hub
      was initialised (without it every emit is skipped and `getDownstreamSocket` throws). */
  datatype Config = Config(vehicles: seq<string>, stations: seq<string>, hubReady: bool)

  /** Everything a sample can change: the entry table and the id counter of the
      store, the hub's event log, `LAST_CLEANUP_TIME` and `activeRecordings`. */
  datatype Engine = Engine(
    table: seq<Entry>,
    nextId: int,
    hub: seq<HubEvent>,
    lastCleanup: Option<int>,
    recordings: map<string, Recording>)

  /** The store's table stays ordered by id, below the next id to give out. */
  predicate WellFormed(s: Engine) {
    IdsAscending(s.table) && forall k :: 0 <= k < |s.table| ==> s.table[k].id < s.nextId
  }

  /** An operation's outcome (completed, or threw) and the state it leaves. */
  datatype Step = Step(outcome: Outcome<string>, after: Engine)

  /** `emitVehicleUpdate` / `emitVehicleEntries`: a broadcast, skipped when the hub is not set up. */
  function Broadcast(s: Engine, config: Config, ev: HubEvent): (r: Engine)
    ensures r.table == s.table && r.nextId == s.nextId && r.lastCleanup == s.lastCleanup && r.recordings == s.recordings
    ensures r.hub == if config.hubReady then s.hub + [ev] else s.hub
  {
    if config.hubReady then s.(hub := s.hub + [ev]) else s
  }

  // ---------------------------------------------------------------------------
  // Capture

  /** `<plate>_<in|out>_<timestamp>.mp4`, the timestamp being the ISO time with
      ':' and '.' replaced by '-'. */
  function CaptureFileName(plate: string, checkIn: bool, iso: string): string {
    plate + "_" + (if checkIn then "in" else "out") + "_" + ReplaceChars(iso, {':', '.'}, '-') + ".mp4"
  }

  /** The file name holds no ':' or '.' after the plate except in its extension. */
  lemma CaptureFileNameShape(plate: string, checkIn: bool, iso: string)
    ensures var tag := if checkIn then "in" else "out";
      var f := CaptureFileName(plate, checkIn, iso);
      && |f| == |plate| + |tag| + |iso| + 6
      && f[..|plate| + 1] == plate + "_"
      && f[|f| - 4..] == ".mp4"
      && forall k :: |plate| + 1 <= k < |f| - 4 ==> f[k] != ':' && f[k] != '.'
  {
    var tag := if checkIn then "in" else "out";
    var ts := ReplaceChars(iso, {':', '.'}, '-');
    var f := CaptureFileName(plate, checkIn, iso);
    assert f == plate + "_" + (tag + "_" + ts + ".mp4");
    forall k | |plate| + 1 <= k < |f| - 4 ensures f[k] != ':' && f[k] != '.' {
      if k >= |plate| + |tag| + 2 {
        assert f[k] == ts[k - |plate| - |tag| - 2];
      }
    }
  }

  /** `captureVehicle`'s guard and bookkeeping: nothing when the plate is already
      recording; otherwise `getDownstreamSocket` throws when the hub is not set up;
      otherwise the plate's recording is registered with an empty buffer. */
  function CaptureStep(s: Engine, config: Config, plate: string, checkIn: bool, iso: string): (r: Step)
    ensures plate in s.recordings ==> r == Step(Pass, s)
    ensures r.outcome.Fail? <==> plate !in s.recordings && !config.hubReady
    ensures r.outcome.Fail? ==> r.after == s
    ensures r.after.table == s.table && r.after.nextId == s.nextId && r.after.hub == s.hub
    ensures r.after.lastCleanup == s.lastCleanup
    ensures plate !in s.recordings && config.hubReady ==>
      r.after.recordings == s.recordings[plate := Recording(CaptureFileName(plate, checkIn, iso), [])]
  {
    if plate in s.recordings then Step(Pass, s)
    else if !config.hubReady then Step(Fail(NOT_INITIALIZED), s)
    else Step(Pass, s.(recordings := s.recordings[plate := Recording(CaptureFileName(plate, checkIn, iso), [])]))
  }

  /** One `data` event of the capture of `plate`: the frames its buffer now holds
      are broadcast as `video` events, in order, and the rest is kept. */
  function OnData(s: Engine, plate: string, chunk: seq<bv8>): (r: Engine)
    ensures plate !in s.recordings ==> r == s
    ensures r.table == s.table && r.nextId == s.nextId && r.lastCleanup == s.lastCleanup && s.hub <= r.hub
    ensures r.recordings.Keys == s.recordings.Keys
    ensures forall p :: p != plate && p in s.recordings ==> r.recordings[p] == s.recordings[p]
    ensures plate in s.recordings ==> r.recordings[plate].file == s.recordings[plate].file
  {
    if plate !in s.recordings then s
    else
      var rec := s.recordings[plate];
      var cut := FrameDemux.Extract(rec.buffer + chunk);
      s.(hub := s.hub + VideoEvents(cut.frames), recordings := s.recordings[plate := rec.(buffer := cut.rest)])
  }

  function VideoEvents(frames: seq<seq<bv8>>): (evs: seq<HubEvent>)
    ensures |evs| == |frames| && forall k :: 0 <= k < |frames| ==> evs[k] == Video(frames[k])
  {
    seq(|frames|, k requires 0 <= k < |frames| => Video(frames[k]))
  }

  /** What a `data` event broadcasts: whole JPEG frames, and it leaves no complete
      frame behind in the buffer. */
  lemma OnDataFrames(s: Engine, plate: string, chunk: seq<bv8>)
    requires plate in s.recordings
    ensures var r := OnData(s, plate, chunk);
      && s.hub <= r.hub
      && (forall k :: |s.hub| <= k < |r.hub| ==> r.hub[k].Video? && FrameDemux.IsFrame(r.hub[k].frame))
      && plate in r.recordings && !FrameDemux.HasCompleteFrame(r.recordings[plate].buffer)
  {
    var buf := s.recordings[plate].buffer + chunk;
    FrameDemux.ExtractFramesWellFormed(buf);
    FrameDemux.ExtractLeavesNoFrame(buf);
    var r := OnData(s, plate, chunk);
    var frames := FrameDemux.Extract(buf).frames;
    forall k | |s.hub| <= k < |r.hub| ensures r.hub[k].Video? && FrameDemux.IsFrame(r.hub[k].frame) {
      assert r.hub[k] == Video(frames[k - |s.hub|]);
      assert frames[k - |s.hub|] in frames;
    }
  }

  /** The `close` event: `video-end` with the recorded file, and the plate is free
      to record again, whatever ffmpeg's exit code. */
  function OnClose(s: Engine, plate: string): (r: Engine)
    ensures plate !in r.recordings
    ensures forall p :: p != plate ==> (p in r.recordings <==> p in s.recordings)
    ensures forall p :: p != plate && p in s.recordings ==> r.recordings[p] == s.recordings[p]
    ensures plate in s.recordings ==> r.hub == s.hub + [VideoEnd(plate, s.recordings[plate].file)]
    ensures plate !in s.recordings ==> r == s
    ensures r.table == s.table && r.nextId == s.nextId && r.lastCleanup == s.lastCleanup
  {
    if plate !in s.recordings then s
    else s.(hub := s.hub + [VideoEnd(plate, s.recordings[plate].file)], recordings := s.recordings - {plate})
  }

  // ---------------------------------------------------------------------------
  // Check-in, check-out, cleanup

  /** `checkIn`: re-fetch the recent rows; unless one of them is an open entry for
      this plate and station, insert an open entry, broadcast the fetched rows with
      it, and start the entry camera. */
  function CheckInStep(s: Engine, config: Config, plate: string, station: string, now: int, iso: string): (r: Step)
    ensures HasOpenEntry(Recent(s.table), plate, station) ==> r == Step(Pass, s)
    ensures !HasOpenEntry(Recent(s.table), plate, station) ==>
      && r.after.table == s.table + [Entry(s.nextId, plate, station, now, None, true)]
      && r.after.nextId == s.nextId + 1
      && r.after.hub == if config.hubReady
        then s.hub + [VehicleEntries(Recent(s.table) + [Entry(s.nextId, plate, station, now, None, true)])]
        else s.hub
    ensures !HasOpenEntry(Recent(s.table), plate, station) ==>
      && (r.outcome.Fail? <==> plate !in s.recordings && !config.hubReady)
      && r.after.recordings == if plate in s.recordings || !config.hubReady then s.recordings
        else s.recordings[plate := Recording(CaptureFileName(plate, true, iso), [])]
    ensures r.after.lastCleanup == s.lastCleanup
  {
    var entries := Recent(s.table);
    if HasOpenEntry(entries, plate, station) then Step(Pass, s)
    else
      var e := Entry(s.nextId, plate, station, now, None, true);
      var inserted := s.(table := s.table + [e], nextId := s.nextId + 1);
      CaptureStep(Broadcast(inserted, config, VehicleEntries(entries + [e])), config, plate, true, iso)
  }

  /** The row `checkOut` writes: the fetched row, closed now. */
  function Closed(e: Entry, now: int): Entry {
    e.(outTime := Some(now), isInside := false)
  }

  /** `checkOut`: re-fetch the recent rows; close the first one for this plate and
      station (open or not), write it, broadcast the fetched rows with it closed,
      and start the exit camera. */
  function CheckOutStep(s: Engine, config: Config, plate: string, station: string, now: int, iso: string): (r: Step)
    ensures FindVehicleEntry(Recent(s.table), plate, station).None? ==> r == Step(Pass, s)
    ensures r.after.nextId == s.nextId && r.after.lastCleanup == s.lastCleanup
    ensures FindVehicleEntry(Recent(s.table), plate, station).Some? ==>
      var entries := Recent(s.table);
      var closed := Closed(entries[FindVehicleEntry(entries, plate, station).value], now);
      && r.after.table == UpdateRow(s.table, closed)
      && r.after.hub == (if config.hubReady
        then s.hub + [VehicleEntries(entries[FindVehicleEntry(entries, plate, station).value := closed])]
        else s.hub)
      && (r.outcome.Fail? <==> plate !in s.recordings && !config.hubReady)
      && r.after.recordings == (if plate in s.recordings || !config.hubReady then s.recordings
        else s.recordings[plate := Recording(CaptureFileName(plate, false, iso), [])])
  {
    var entries := Recent(s.table);
    match FindVehicleEntry(entries, plate, station)
    case None => Step(Pass, s)
    case Some(k) =>
      var closed := Closed(entries[k], now);
      var updated := s.(table := UpdateRow(s.table, closed));
      CaptureStep(Broadcast(updated, config, VehicleEntries(entries[k := closed])), config, plate, false, iso)
  }

  /** What `updateEntry` does to the table on a check-out: with store-assigned
      (distinct, ascending) ids, exactly the table row the `k`-th fetched row came
      from changes, and it becomes that row closed now; `CheckOutStep` applies this
      to the first fetched row for the plate and station. */
  lemma CheckOutClosesOneRow(table: seq<Entry>, k: nat, now: int)
    requires IdsAscending(table) && k < |Recent(table)|
    ensures var j := |table| - 1 - k;
      var t := UpdateRow(table, Closed(Recent(table)[k], now));
      && 0 <= j < |table| && table[j] == Recent(table)[k]
      && |t| == |table| && t[j] == Closed(table[j], now)
      && forall i :: 0 <= i < |table| && i != j ==> t[i] == table[i]
  {
    var j := |table| - 1 - k;
    assert table[j] == Recent(table)[k];
    var t := UpdateRow(table, Closed(table[j], now));
    forall i | 0 <= i < |table| && i != j ensures t[i] == table[i] {
      assert table[i].id != table[j].id;
    }
  }

  /** The cleanup cadence: due when it never ran, or ran more than five minutes ago. */
  predicate CleanupDue(lastCleanup: Option<int>, now: int) {
    lastCleanup.None? || now - lastCleanup.value > CLEANUP_INTERVAL_MS
  }

  /** The end of `processVehicleAtStation`: when due, the time is recorded first and
      then `entriesCleanup` runs over the recent rows. */
  function CleanupStep(s: Engine, now: int): (r: Engine)
    ensures CleanupDue(s.lastCleanup, now) ==>
      r.lastCleanup == Some(now) && r.table == ApplyCalls(s.table, Reconcile.CleanupCalls(Recent(s.table)))
    ensures !CleanupDue(s.lastCleanup, now) ==> r == s
    ensures r.hub == s.hub && r.nextId == s.nextId && r.recordings == s.recordings
  {
    if CleanupDue(s.lastCleanup, now) then
      s.(lastCleanup := Some(now), table := ApplyCalls(s.table, Reconcile.CleanupCalls(Recent(s.table))))
    else s
  }

  predicate IdsBelow(table: seq<Entry>, bound: int) {
    forall k :: 0 <= k < |table| ==> table[k].id < bound
  }

  /** The store's updates and deletes never introduce a new id. */
  lemma {:induction false} IdsStayBelow(table: seq<Entry>, calls: seq<StoreCall>, bound: int)
    ensures IdsBelow(table, bound) ==> IdsBelow(ApplyCalls(table, calls), bound)
    decreases |calls|
  {
    if calls != [] && IdsBelow(table, bound) {
      var next := ApplyCall(table, calls[0]);
      assert IdsBelow(next, bound) by {
        forall k | 0 <= k < |next| ensures next[k].id < bound {
          match calls[0]
          case DeleteEntry(id) =>
            assert next[k] in next;
            var j :| 0 <= j < |table| && table[j] == next[k];
          case UpdateEntry(e) =>
        }
      }
      IdsStayBelow(next, calls[1..], bound);
    }
  }

  /** `processVehicleAtStation`, given the rows fetched once by `checkVehicle`.
      The action is the one `Decide` picks from the first fetched row; the
      cleanup cadence follows it. A check-in or check-out that throws skips the
      cleanup; only a capture without the hub throws. */
  function StationStep(s: Engine, config: Config, entries: seq<Entry>, plate: string, station: string,
                       distance: real, now: int, iso: string): (r: Step)
    ensures s.hub <= r.after.hub
    ensures forall k :: |s.hub| <= k < |r.after.hub| ==> !r.after.hub[k].NewLocation?
    ensures r.outcome.Fail? ==> !config.hubReady
    ensures r.outcome.Fail? ==> r.after.lastCleanup == s.lastCleanup
    ensures r.outcome.Pass? ==>
      r.after.lastCleanup == (if CleanupDue(s.lastCleanup, now) then Some(now) else s.lastCleanup)
  {
    var action := Decide(distance, EntryAt(entries, FindVehicleEntry(entries, plate, station)));
    if action == NoChange then Step(Pass, CleanupStep(s, now))
    else
      var step := if action == CheckIn then CheckInStep(s, config, plate, station, now, iso)
        else CheckOutStep(s, config, plate, station, now, iso);
      if step.outcome.Fail? then step else Step(Pass, CleanupStep(step.after, now))
  }

  /** The `for` loop over the stations, in configured order; an exception ends it. */
  function StationsStep(s: Engine, config: Config, entries: seq<Entry>, plate: string, stations: seq<string>,
                        distance: string -> real, now: int, iso: string): (r: Step)
    ensures s.hub <= r.after.hub
    ensures forall k :: |s.hub| <= k < |r.after.hub| ==> !r.after.hub[k].NewLocation?
    ensures r.outcome.Fail? ==> !config.hubReady
    decreases |stations|
  {
    if stations == [] then Step(Pass, s)
    else
      var first := StationStep(s, config, entries, plate, stations[0], distance(stations[0]), now, iso);
      if first.outcome.Fail? then first
      else StationsStep(first.after, config, entries, plate, stations[1..], distance, now, iso)
  }

  /** `checkVehicle(payload)`: an invalid sample is ignored; a valid one is
      broadcast, the recent rows are fetched once, and every station is processed.
      `distance` gives the sample's distance to each station. The promise is not
      awaited and nothing catches its rejection, so a `Fail` outcome is an
      unhandled rejection, which ends the server process; it can only happen when
      the hub was never initialised. */
  function CheckVehicleStep(s: Engine, config: Config, vehicle: Option<Sample>,
                            distance: string -> real, now: int, iso: string): (r: Step)
    ensures s.hub <= r.after.hub
    ensures r.outcome.Fail? ==> !config.hubReady
  {
    if !IsValidVehicle(vehicle, config.vehicles) then Step(Pass, s)
    else
      var announced := Broadcast(s, config, NewLocation(CreateVehicleUpdate(vehicle.value)));
      var plate := vehicle.value.deviceID.value;
      StationsStep(announced, config, Recent(announced.table), plate, config.stations, distance, now, iso)
  }

  // ---------------------------------------------------------------------------
  // The store's table stays well formed

  /** What one station does is what `Decide` picks from the first fetched row:
      nothing but the cleanup when it picks no change, a new row only on a check-in
      that finds no open entry, and the check-out's write when it picks a check-out. */
  lemma StationFollowsDecide(s: Engine, config: Config, entries: seq<Entry>, plate: string, station: string,
                             distance: real, now: int, iso: string)
    ensures var r := StationStep(s, config, entries, plate, station, distance, now, iso);
      var action := Decide(distance, EntryAt(entries, FindVehicleEntry(entries, plate, station)));
      && (action == NoChange ==> r == Step(Pass, CleanupStep(s, now)))
      && (r.outcome.Fail? ==> action != NoChange)
      && r.after.nextId == (if action == CheckIn && !HasOpenEntry(Recent(s.table), plate, station)
        then s.nextId + 1 else s.nextId)
      && (action == CheckIn && !CleanupDue(s.lastCleanup, now) ==> s.table <= r.after.table)
      && (action == CheckOut && !CleanupDue(s.lastCleanup, now) ==>
            r.after.table == CheckOutStep(s, config, plate, station, now, iso).after.table)
  {
    var action := Decide(distance, EntryAt(entries, FindVehicleEntry(entries, plate, station)));
    if action == CheckIn {
      var step := CheckInStep(s, config, plate, station, now, iso);
      assert s.table <= step.after.table;
    } else if action == CheckOut {
      var step := CheckOutStep(s, config, plate, station, now, iso);
      assert step.after.nextId == s.nextId;
    }
  }

  /** The stations are processed in their configured order: processing one more
      station at the end is one more `StationStep`, unless an earlier one threw. */
  lemma {:induction false} StationsInOrder(s: Engine, config: Config, entries: seq<Entry>, plate: string,
                                           stations: seq<string>, t: string, distance: string -> real,
                                           now: int, iso: string)
    ensures var p := StationsStep(s, config, entries, plate, stations, distance, now, iso);
      StationsStep(s, config, entries, plate, stations + [t], distance, now, iso)
        == if p.outcome.Fail? then p else StationStep(p.after, config, entries, plate, t, distance(t), now, iso)
    decreases |stations|
  {
    if stations == [] {
      assert [] + [t] == [t];
    } else {
      assert (stations + [t])[0] == stations[0];
      assert (stations + [t])[1..] == stations[1..] + [t];
      var first := StationStep(s, config, entries, plate, stations[0], distance(stations[0]), now, iso);
      if first.outcome.Pass? {
        StationsInOrder(first.after, config, entries, plate, stations[1..], t, distance, now, iso);
      }
    }
  }

  /** A valid sample is processed at every configured station, against the rows
      fetched right after its position was broadcast. */
  lemma ValidSampleVisitsStations(s: Engine, config: Config, vehicle: Option<Sample>,
                                  distance: string -> real, now: int, iso: string)
    requires IsValidVehicle(vehicle, config.vehicles)
    ensures var announced := Broadcast(s, config, NewLocation(CreateVehicleUpdate(vehicle.value)));
      CheckVehicleStep(s, config, vehicle, distance, now, iso)
        == StationsStep(announced, config, Recent(s.table), vehicle.value.deviceID.value, config.stations,
                        distance, now, iso)
  {
  }

  lemma CheckInKeepsWellFormed(s: Engine, config: Config, plate: string, station: string, now: int, iso: string)
    requires WellFormed(s)
    ensures WellFormed(CheckInStep(s, config, plate, station, now, iso).after)
  {
  }

  lemma CheckOutKeepsWellFormed(s: Engine, config: Config, plate: string, station: string, now: int, iso: string)
    requires WellFormed(s)
    ensures WellFormed(CheckOutStep(s, config, plate, station, now, iso).after)
  {
    var entries := Recent(s.table);
    var found := FindVehicleEntry(entries, plate, station);
    if found.Some? {
      var closed := Closed(entries[found.value], now);
      var r := CheckOutStep(s, config, plate, station, now, iso).after;
      assert r.table == UpdateRow(s.table, closed) && r.nextId == s.nextId;
      UpdateKeepsWellFormed(s, closed);
    }
  }

  lemma UpdateKeepsWellFormed(s: Engine, e: Entry)
    requires WellFormed(s)
    ensures WellFormed(s.(table := UpdateRow(s.table, e)))
  {
    UpdateKeepsIds(s.table, e);
  }

  lemma CleanupKeepsWellFormed(s: Engine, now: int)
    requires WellFormed(s)
    ensures WellFormed(CleanupStep(s, now))
  {
    if CleanupDue(s.lastCleanup, now) {
      var calls := Reconcile.CleanupCalls(Recent(s.table));
      ApplyCallsKeepOrder(s.table, calls);
      IdsStayBelow(s.table, calls, s.nextId);
    }
  }

  lemma StationKeepsWellFormed(s: Engine, config: Config, entries: seq<Entry>, plate: string, station: string,
                               distance: real, now: int, iso: string)
    requires WellFormed(s)
    ensures WellFormed(StationStep(s, config, entries, plate, station, distance, now, iso).after)
  {
    CheckInKeepsWellFormed(s, config, plate, station, now, iso);
    CheckOutKeepsWellFormed(s, config, plate, station, now, iso);
    var action := Decide(distance, EntryAt(entries, FindVehicleEntry(entries, plate, station)));
    var step :=
      if action == NoChange then Step(Pass, s)
      else if action == CheckIn then CheckInStep(s, config, plate, station, now, iso)
      else CheckOutStep(s, config, plate, station, now, iso);
    CleanupKeepsWellFormed(step.after, now);
  }

  /** Every sample leaves the store's table ordered by id, below the next id. */
  lemma {:induction false} StationsKeepWellFormed(s: Engine, config: Config, entries: seq<Entry>, plate: string,
                                                  stations: seq<string>, distance: string -> real, now: int, iso: string)
    requires WellFormed(s)
    ensures WellFormed(StationsStep(s, config, entries, plate, stations, distance, now, iso).after)
    decreases |stations|
  {
    if stations != [] {
      StationKeepsWellFormed(s, config, entries, plate, stations[0], distance(stations[0]), now, iso);
      var first := StationStep(s, config, entries, plate, stations[0], distance(stations[0]), now, iso);
      if first.outcome.Pass? {
        StationsKeepWellFormed(first.after, config, entries, plate, stations[1..], distance, now, iso);
      }
    }
  }

  lemma CheckVehicleKeepsWellFormed(s: Engine, config: Config, vehicle: Option<Sample>,
                                    distance: string -> real, now: int, iso: string)
    requires WellFormed(s)
    ensures WellFormed(CheckVehicleStep(s, config, vehicle, distance, now, iso).after)
  {
    if IsValidVehicle(vehicle, config.vehicles) {
      var announced := Broadcast(s, config, NewLocation(CreateVehicleUpdate(vehicle.value)));
      StationsKeepWellFormed(announced, config, Recent(announced.table), vehicle.value.deviceID.value,
                             config.stations, distance, now, iso);
    }
  }

  /** An invalid sample changes nothing: no broadcast, no store access. */
  lemma InvalidSampleIgnored(s: Engine, config: Config, vehicle: Option<Sample>,
                             distance: string -> real, now: int, iso: string)
    requires !IsValidVehicle(vehicle, config.vehicles)
    ensures CheckVehicleStep(s, config, vehicle, distance, now, iso) == Step(Pass, s)
  {
  }

  /** A valid sample's first broadcast is its `newLocation` event, ahead of
      anything the stations cause. */
  lemma ValidSampleAnnouncedFirst(s: Engine, config: Config, vehicle: Option<Sample>,
                                  distance: string -> real, now: int, iso: string)
    requires IsValidVehicle(vehicle, config.vehicles) && config.hubReady
    ensures var r := CheckVehicleStep(s, config, vehicle, distance, now, iso).after;
      |r.hub| > |s.hub| && r.hub[..|s.hub|] == s.hub
      && r.hub[|s.hub|] == NewLocation(CreateVehicleUpdate(vehicle.value))
      && forall k :: |s.hub| < k < |r.hub| ==> !r.hub[k].NewLocation?
  {
    var announced := Broadcast(s, config, NewLocation(CreateVehicleUpdate(vehicle.value)));
    var r := CheckVehicleStep(s, config, vehicle, distance, now, iso).after;
    assert announced.hub <= r.hub;
    assert r.hub[|s.hub|] == announced.hub[|s.hub|];
  }

  // ---------------------------------------------------------------------------
  // The server object

  /** The module state of `vehicle.js` together with the store and the hub it
      writes to. Each method is one handler, run to completion. */
  class GeofenceEngine {
    const config: Config
    var table: seq<Entry>
    var nextId: int
    var hub: seq<HubEvent>
    var lastCleanup: Option<int>
    var recordings: map<string, Recording>

    function State(): Engine
      reads this
    {
      Engine(table, nextId, hub, lastCleanup, recordings)
    }

    ghost predicate Valid()
      reads this
    {
      WellFormed(State())
    }

    /** A server that has not cleaned up or recorded yet, over a store table. */
    constructor (config: Config, table: seq<Entry>, nextId: int)
      requires WellFormed(Engine(table, nextId, [], None, map[]))
      ensures Valid()
      ensures this.config == config && State() == Engine(table, nextId, [], None, map[])
    {
      this.config := config;
      this.table := table;
      this.nextId := nextId;
      this.hub := [];
      this.lastCleanup := None;
      this.recordings := map[];
    }

    method Emit(ev: HubEvent)
      modifies this
      ensures State() == Broadcast(old(State()), config, ev)
    {
      if config.hubReady {
        hub := hub + [ev];
      }
    }

    method Capture(plate: string, checkIn: bool, iso: string) returns (outcome: Outcome<string>)
      requires Valid()
      modifies this
      ensures Valid()
      ensures Step(outcome, State()) == CaptureStep(old(State()), config, plate, checkIn, iso)
    {
      if plate in recordings {
        outcome := Pass;
      } else if !config.hubReady {
        outcome := Fail(NOT_INITIALIZED);
      } else {
        recordings := recordings[plate := Recording(CaptureFileName(plate, checkIn, iso), [])];
        outcome := Pass;
      }
    }

    /** ffmpeg's stdout `data` handler of the capture of `plate`. */
    method OnCaptureData(plate: string, chunk: seq<bv8>)
      requires Valid()
      modifies this
      ensures Valid()
      ensures State() == OnData(old(State()), plate, chunk)
    {
      if plate in recordings {
        var rec := recordings[plate];
        var frames, rest := FrameDemux.Demux(rec.buffer, chunk);
        hub := hub + VideoEvents(frames);
        recordings := recordings[plate := rec.(buffer := rest)];
      }
    }

    /** ffmpeg's `close` handler of the capture of `plate`. */
    method OnCaptureClose(plate: string)
      requires Valid()
      modifies this
      ensures Valid()
      ensures State() == OnClose(old(State()), plate)
    {
      if plate in recordings {
        hub := hub + [VideoEnd(plate, recordings[plate].file)];
        recordings := recordings - {plate};
      }
    }

    method CheckIn(plate: string, station: string, now: int, iso: string) returns (outcome: Outcome<string>)
      requires Valid()
      modifies this
      ensures Valid()
      ensures Step(outcome, State()) == CheckInStep(old(State()), config, plate, station, now, iso)
    {
      var entries := Recent(table);
      if HasOpenEntry(entries, plate, station) {
        outcome := Pass;
      } else {
        var e := Entry(nextId, plate, station, now, None, true);
        table := table + [e];
        nextId := nextId + 1;
        Emit(VehicleEntries(entries + [e]));
        outcome := Capture(plate, true, iso);
      }
    }

    method CheckOut(plate: string, station: string, now: int, iso: string) returns (outcome: Outcome<string>)
      requires Valid()
      modifies this
      ensures Valid()
      ensures Step(outcome, State()) == CheckOutStep(old(State()), config, plate, station, now, iso)
    {
      var entries := Recent(table);
      var found := FindVehicleEntry(entries, plate, station);
      if found.None? {
        outcome := Pass;
      } else {
        var k := found.value;
        entries := entries[k := Closed(entries[k], now)];
        UpdateKeepsWellFormed(State(), entries[k]);
        table := UpdateRow(table, entries[k]);
        Emit(VehicleEntries(entries));
        outcome := Capture(plate, false, iso);
      }
    }

    /** The cadence check and `entriesCleanup`, its store calls awaited one by one. */
    method Cleanup(now: int)
      requires Valid()
      modifies this
      ensures Valid()
      ensures State() == CleanupStep(old(State()), now)
    {
      ghost var before := State();
      CleanupKeepsWellFormed(before, now);
      if CleanupDue(lastCleanup, now) {
        var calls := Reconcile.EntriesCleanup(Recent(table));
        var cleaned := ApplyInOrder(table, calls);
        lastCleanup, table := Some(now), cleaned;
      }
      assert State() == CleanupStep(before, now);
    }

    method ProcessAtStation(entries: seq<Entry>, plate: string, station: string, distance: real, now: int, iso: string)
      returns (outcome: Outcome<string>)
      requires Valid()
      modifies this
      ensures Valid()
      ensures Step(outcome, State()) == StationStep(old(State()), config, entries, plate, station, distance, now, iso)
    {
      var current := EntryAt(entries, FindVehicleEntry(entries, plate, station));
      match Decide(distance, current) {
        case CheckIn => outcome := CheckIn(plate, station, now, iso);
        case CheckOut => outcome := CheckOut(plate, station, now, iso);
        case NoChange => outcome := Pass;
      }
      if outcome.Pass? {
        Cleanup(now);
      }
    }

    /** `checkVehicle(payload)`. A `Fail` outcome is the rejection nobody handles:
        the process ends there, with the state as it was when the exception was thrown. */
    method CheckVehicle(vehicle: Option<Sample>, distance: string -> real, now: int, iso: string)
      returns (outcome: Outcome<string>)
      requires Valid()
      modifies this
      ensures Valid()
      ensures Step(outcome, State()) == CheckVehicleStep(old(State()), config, vehicle, distance, now, iso)
    {
      outcome := Pass;
      if !IsValidVehicle(vehicle, config.vehicles) {
        return;
      }
      Emit(NewLocation(CreateVehicleUpdate(vehicle.value)));
      var plate := vehicle.value.deviceID.value;
      var entries := Recent(table);
      ghost var announced := State();
      var stations := config.stations;
      var i := 0;
      while i < |stations| && outcome.Pass?
        invariant 0 <= i <= |stations|
        invariant Valid()
        invariant outcome.Pass? ==>
          StationsStep(announced, config, entries, plate, stations, distance, now, iso)
          == StationsStep(State(), config, entries, plate, stations[i..], distance, now, iso)
        invariant outcome.Fail? ==>
          StationsStep(announced, config, entries, plate, stations, distance, now, iso) == Step(outcome, State())
        decreases |stations| - i
      {
        ghost var before := State();
        outcome := ProcessAtStation(entries, plate, stations[i], distance(stations[i]), now, iso);
        assert stations[i..][1..] == stations[i + 1..];
        i := i + 1;
      }
      assert outcome.Pass? ==> stations[i..] == [];
      CheckVehicleKeepsWellFormed(old(State()), config, vehicle, distance, now, iso);
    }
  }
}
