/** `AppUI/src/App.js`: the dashboard's handling of hub events and its export,
    without the map and table rendering. Vehicle positions are an object keyed by
    device id, the entry list is replaced by each `vehicleEntries` event after an
    ascending sort by in-time, and the export is a header row plus one row per
    entry, saved under a name built from the current ISO timestamp. */
module Dashboard {
  import opened Wrappers
  import opened Text
  import opened EntryStore
  import Reconcile
  import Vehicle

  const MS_PER_HOUR: int := 3600000
  const MS_PER_MINUTE: int := 60000
  const MS_PER_SECOND: int := 1000

  // ---------------------------------------------------------------------------
  // getDuration

  /** JavaScript's `%`: the remainder takes the sign of the dividend. */
  function JsRem(a: int, b: int): (r: int)
    requires b > 0
    ensures -b < r < b
    ensures a >= 0 ==> r == a % b
    ensures a < 0 ==> r <= 0
    ensures (a - r) % b == 0
  {
    RemainderCongruent(if a >= 0 then a else -a, b);
    if a >= 0 then a % b else -((-a) % b)
  }

  /** Taking away the remainder leaves a multiple of `b`, whatever the sign. */
  lemma RemainderCongruent(n: int, b: int)
    requires b > 0
    ensures (n - n % b) % b == 0 && (-n + n % b) % b == 0
  {
    var q := n / b;
    assert n == b * q + n % b;
    assert n - n % b == q * b;
    assert -n + n % b == (-q) * b;
    MultipleMod(q, b);
    MultipleMod(-q, b);
  }

  /** A multiple of `b` leaves no remainder. */
  lemma MultipleMod(q: int, b: int)
    requires b > 0
    ensures (q * b) % b == 0
  {
    var x := q * b;
    var k := q - x / b;
    assert x == b * (x / b) + x % b;
    assert x % b == b * k;
    NonzeroMultiple(b, k);
  }

  /** A non-zero multiple of `b` is at least `b` away from zero. */
  lemma NonzeroMultiple(b: int, k: int)
    requires b > 0
    ensures k >= 1 ==> b * k >= b
    ensures k <= -1 ==> b * k <= -b
  {
  }

  /** `Math.floor(a / b)`; for a positive divisor Dafny's `/` already rounds down. */
  function FloorDiv(a: int, b: int): (q: int)
    requires b > 0
    ensures q * b <= a < q * b + b
  {
    a / b
  }

  datatype Duration = Duration(hours: int, minutes: int, seconds: int)

  /** The three `Math.floor` expressions of `getDuration` over `ms = end - start`. */
  function Split(ms: int): Duration {
    Duration(
      FloorDiv(ms, MS_PER_HOUR),
      FloorDiv(JsRem(ms, MS_PER_HOUR), MS_PER_MINUTE),
      FloorDiv(JsRem(ms, MS_PER_MINUTE), MS_PER_SECOND))
  }

  /** For a non-negative span the parts are whole hours, minutes below 60 and
      seconds below 60, and they add up to the span less its milliseconds. */
  lemma SplitBounds(ms: int)
    requires ms >= 0
    ensures var d := Split(ms);
      && d.hours >= 0 && 0 <= d.minutes < 60 && 0 <= d.seconds < 60
      && d.hours * MS_PER_HOUR + d.minutes * MS_PER_MINUTE + d.seconds * MS_PER_SECOND <= ms
      && ms < d.hours * MS_PER_HOUR + d.minutes * MS_PER_MINUTE + d.seconds * MS_PER_SECOND + MS_PER_SECOND
  {
    var h, r1 := ms / MS_PER_HOUR, ms % MS_PER_HOUR;
    var m, r2 := r1 / MS_PER_MINUTE, r1 % MS_PER_MINUTE;
    MinuteRemainder(ms);
    assert Split(ms) == Duration(h, m, r2 / MS_PER_SECOND);
  }

  /** Whole hours are whole minutes: the remainder modulo a minute is the same
      before and after taking the remainder modulo an hour. */
  lemma MinuteRemainder(ms: int)
    requires ms >= 0
    ensures ms % MS_PER_MINUTE == (ms % MS_PER_HOUR) % MS_PER_MINUTE
  {
    var h, r1 := ms / MS_PER_HOUR, ms % MS_PER_HOUR;
    assert ms == r1 + (60 * h) * MS_PER_MINUTE;
    MinuteShift(r1, 60 * h);
  }

  lemma {:induction false} MinuteShift(x: int, k: nat)
    requires x >= 0
    ensures (x + k * MS_PER_MINUTE) % MS_PER_MINUTE == x % MS_PER_MINUTE
    decreases k
  {
    if k > 0 {
      MinuteShift(x, k - 1);
      var y := x + (k - 1) * MS_PER_MINUTE;
      assert x + k * MS_PER_MINUTE == y + MS_PER_MINUTE;
    }
  }

  /** A negative span (an out-time before the in-time) shows every part negative or
      zero: one millisecond short reads as `-1h -1m -1s`. */
  lemma SplitNegative(ms: int)
    requires ms < 0
    ensures var d := Split(ms);
      d.hours < 0 && -60 <= d.minutes <= 0 && -60 <= d.seconds <= 0
    ensures ms == -1 ==> Split(ms) == Duration(-1, -1, -1)
  {
  }

  /** `${n}` followed by a unit letter and the rest of the text. */
  function Part(n: int, unit: char, rest: string): string {
    IntToDecimal(n) + [unit] + rest
  }

  /** The `${hours}h ${minutes}m ${seconds}s` text. */
  function FormatDuration(d: Duration): (t: string)
    ensures |t| >= 8 && t[|t| - 1] == 's'
  {
    Part(d.hours, 'h', " " + Part(d.minutes, 'm', " " + Part(d.seconds, 's', "")))
  }

  /** `getDuration(inTime, outTime)`: an entry with no out-time is measured up to
      now. */
  function GetDuration(inTime: int, outTime: Option<int>, now: int): string {
    FormatDuration(Split((if outTime.Some? then outTime.value else now) - inTime))
  }

  /** What `getDuration` shows, `FormatDuration(Split(ms))`, identifies a
      non-negative stay to the second: two stays shown alike differ by less than
      a second. */
  lemma DurationTextReadsBack(ms1: int, ms2: int)
    requires ms1 >= 0 && ms2 >= 0
    requires FormatDuration(Split(ms1)) == FormatDuration(Split(ms2))
    ensures -MS_PER_SECOND < ms1 - ms2 < MS_PER_SECOND
  {
    SplitTextInjective(ms1, ms2);
    SplitDeterminesSecond(ms1, ms2);
  }

  lemma SplitTextInjective(ms1: int, ms2: int)
    requires ms1 >= 0 && ms2 >= 0
    requires FormatDuration(Split(ms1)) == FormatDuration(Split(ms2))
    ensures Split(ms1) == Split(ms2)
  {
    SplitSigns(ms1);
    SplitSigns(ms2);
    FormatDurationInjective(Split(ms1), Split(ms2));
  }

  lemma SplitDeterminesSecond(ms1: int, ms2: int)
    requires ms1 >= 0 && ms2 >= 0 && Split(ms1) == Split(ms2)
    ensures -MS_PER_SECOND < ms1 - ms2 < MS_PER_SECOND
  {
    SplitBounds(ms1);
    SplitBounds(ms2);
    WithinSecond(ms1, ms2, Split(ms1), Split(ms2));
  }

  lemma SplitSigns(ms: int)
    requires ms >= 0
    ensures Split(ms).hours >= 0 && Split(ms).minutes >= 0 && Split(ms).seconds >= 0
  {
    SplitBounds(ms);
  }

  /** Two spans that both round down to the same whole seconds differ by less than one. */
  lemma WithinSecond(ms1: int, ms2: int, d1: Duration, d2: Duration)
    requires d1 == d2
    requires var t := d1.hours * MS_PER_HOUR + d1.minutes * MS_PER_MINUTE + d1.seconds * MS_PER_SECOND;
      t <= ms1 < t + MS_PER_SECOND
    requires var t := d2.hours * MS_PER_HOUR + d2.minutes * MS_PER_MINUTE + d2.seconds * MS_PER_SECOND;
      t <= ms2 < t + MS_PER_SECOND
    ensures -MS_PER_SECOND < ms1 - ms2 < MS_PER_SECOND
  {
  }

  /** Digits followed by a separator determine the number: two renderings that agree
      up to their first non-digit agree on the number and on the rest. */
  lemma {:induction false} DigitsThenSeparator(a: nat, b: nat, c: char, x: string, y: string)
    requires !('0' <= c <= '9')
    requires NatToDecimal(a) + [c] + x == NatToDecimal(b) + [c] + y
    ensures a == b && x == y
  {
    var s, t := NatToDecimal(a), NatToDecimal(b);
    var whole := s + [c] + x;
    SeparatorFirst(a, c, x);
    SeparatorFirst(b, c, y);
    assert |s| == |t|;
    assert s == whole[..|s|] == t;
    DecimalRoundTrip(a);
    DecimalRoundTrip(b);
    assert x == whole[|s| + 1..] == y;
  }

  /** In a rendering followed by a separator, the separator's first occurrence is
      right after the digits. */
  lemma SeparatorFirst(n: nat, c: char, x: string)
    requires !('0' <= c <= '9')
    ensures var s := NatToDecimal(n) + [c] + x;
      s[|NatToDecimal(n)|] == c && forall k :: 0 <= k < |NatToDecimal(n)| ==> s[k] != c
  {
  }

  /** Non-negative durations render to distinct texts: the text can be read back. */
  lemma FormatDurationInjective(d: Duration, e: Duration)
    requires d.hours >= 0 && d.minutes >= 0 && d.seconds >= 0
    requires e.hours >= 0 && e.minutes >= 0 && e.seconds >= 0
    requires FormatDuration(d) == FormatDuration(e)
    ensures d == e
  {
    var ds, es := Part(d.seconds, 's', ""), Part(e.seconds, 's', "");
    var dm, em := Part(d.minutes, 'm', " " + ds), Part(e.minutes, 'm', " " + es);
    PartInjective(d.hours, e.hours, 'h', " " + dm, " " + em);
    SpaceInjective(dm, em);
    PartInjective(d.minutes, e.minutes, 'm', " " + ds, " " + es);
    SpaceInjective(ds, es);
    PartInjective(d.seconds, e.seconds, 's', "", "");
  }

  lemma PartInjective(a: nat, b: nat, c: char, x: string, y: string)
    requires !('0' <= c <= '9')
    requires Part(a, c, x) == Part(b, c, y)
    ensures a == b && x == y
  {
    DigitsThenSeparator(a, b, c, x, y);
  }

  lemma SpaceInjective(x: string, y: string)
    requires " " + x == " " + y
    ensures x == y
  {
    assert x == (" " + x)[1..];
  }

  // ---------------------------------------------------------------------------
  // Positions

  /** `[vehicle.deviceID]` as an object key: a missing id becomes "undefined". */
  function KeyOf(deviceID: Option<string>): string {
    if deviceID.Some? then deviceID.value else "undefined"
  }

  /** The `newLocation` guard: both coordinates present (reading `startsWith` of a
      missing one throws and the event is dropped) and neither starting with "0.". */
  predicate Shown(v: Vehicle.VehicleUpdate) {
    && v.latitude.Some? && !StartsWith(v.latitude.value, "0.")
    && v.longitude.Some? && !StartsWith(v.longitude.value, "0.")
  }

  /** `setVehicles(prev => ({ ...prev, [vehicle.deviceID]: vehicle }))` when shown. */
  function Upsert(prev: map<string, Vehicle.VehicleUpdate>, v: Vehicle.VehicleUpdate): (r: map<string, Vehicle.VehicleUpdate>)
    ensures !Shown(v) ==> r == prev
    ensures Shown(v) ==> r.Keys == prev.Keys + {KeyOf(v.deviceID)} && r[KeyOf(v.deviceID)] == v
    ensures forall k :: k in prev && k != KeyOf(v.deviceID) ==> k in r && r[k] == prev[k]
  {
    if Shown(v) then prev[KeyOf(v.deviceID) := v] else prev
  }

  /** Every position the server broadcasts is shown: a valid sample's coordinates
      do not start with '0' at all. */
  lemma BroadcastPositionsShown(sample: Vehicle.Sample, vehicles: seq<string>)
    requires Vehicle.IsValidVehicle(Some(sample), vehicles)
    ensures Shown(Vehicle.CreateVehicleUpdate(sample))
    ensures KeyOf(Vehicle.CreateVehicleUpdate(sample).deviceID) == sample.deviceID.value
  {
    var loc := sample.location.value;
    Vehicle.ValidVehicleRule(Some(sample), vehicles);
    NoLeadingZero(loc.latitude.value);
    NoLeadingZero(loc.longitude.value);
  }

  lemma NoLeadingZero(c: string)
    requires |c| > 0 && c[0] != '0'
    ensures !StartsWith(c, "0.")
  {
    if |c| >= 2 {
      assert c[..2][0] == c[0];
    }
  }

  /** Each stored record was shown and is stored under its own device id. */
  predicate PositionsKeyed(vehicles: map<string, Vehicle.VehicleUpdate>) {
    forall k :: k in vehicles ==> Shown(vehicles[k]) && KeyOf(vehicles[k].deviceID) == k
  }

  lemma UpsertKeepsKeyed(prev: map<string, Vehicle.VehicleUpdate>, v: Vehicle.VehicleUpdate)
    requires PositionsKeyed(prev)
    ensures PositionsKeyed(Upsert(prev, v))
  {
  }

  // ---------------------------------------------------------------------------
  // Export

  const HEADERS: seq<string> := ["Plate", "In Time", "Out Time", "Duration"]

  /** One export row; `fmt` is `toLocaleString` of a time, which depends on the
      browser's locale. */
  function Row(e: Entry, fmt: int -> string, now: int): (row: seq<string>)
    ensures |row| == 4 && row[0] == e.plate && row[1] == fmt(e.inTime)
    ensures row[2] == if e.outTime.Some? then fmt(e.outTime.value) else "-"
    ensures row[3] == GetDuration(e.inTime, e.outTime, now)
  {
    [e.plate, fmt(e.inTime), if e.outTime.Some? then fmt(e.outTime.value) else "-", GetDuration(e.inTime, e.outTime, now)]
  }

  /** `[headers, ...rows]`. */
  function ExportRows(entries: seq<Entry>, fmt: int -> string, now: int): (aoa: seq<seq<string>>)
    ensures |aoa| == |entries| + 1 && aoa[0] == HEADERS
    ensures forall k :: 0 <= k < |entries| ==> aoa[k + 1] == Row(entries[k], fmt, now)
  {
    [HEADERS] + seq(|entries|, k requires 0 <= k < |entries| => Row(entries[k], fmt, now))
  }

  /** The export file name for the ISO timestamp `iso`. */
  function ExportFileName(iso: string): (name: string)
    ensures var n := if |iso| < 19 then |iso| else 19;
      && |name| == 16 + n + 5
      && name[..16] == "vehicle_entries_" && name[16 + n..] == ".xlsx"
      && forall k :: 16 <= k < 16 + n ==> name[k] == (if iso[k - 16] in {':', 'T'} then '-' else iso[k - 16])
  {
    var n := if |iso| < 19 then |iso| else 19;
    "vehicle_entries_" + ReplaceChars(iso[..n], {':', 'T'}, '-') + ".xlsx"
  }

  /** The stamp part keeps no ':' or 'T', so the name is valid on every file system
      and sorts by time. */
  lemma ExportFileNameClean(iso: string)
    ensures var name := ExportFileName(iso);
      forall k :: 16 <= k < |name| - 5 ==> name[k] != ':' && name[k] != 'T'
  {
  }

  // ---------------------------------------------------------------------------
  // The component state

  /** The `vehicles` and `entries` state of `App`. */
  class Dashboard {
    var vehicles: map<string, Vehicle.VehicleUpdate>
    var entries: seq<Entry>

    ghost predicate Valid()
      reads this
    {
      PositionsKeyed(vehicles) && Reconcile.SortedByInTime(entries)
    }

    constructor ()
      ensures Valid() && vehicles == map[] && entries == []
    {
      vehicles := map[];
      entries := [];
    }

    /** The `newLocation` handler. */
    method OnNewLocation(v: Vehicle.VehicleUpdate)
      requires Valid()
      modifies this
      ensures Valid()
      ensures vehicles == Upsert(old(vehicles), v) && entries == old(entries)
    {
      UpsertKeepsKeyed(vehicles, v);
      if Shown(v) {
        vehicles := vehicles[KeyOf(v.deviceID) := v];
      }
    }

    /** The `vehicleEntries` handler: the list, sorted ascending by in-time, becomes
        the table. */
    method OnVehicleEntries(list: seq<Entry>)
      requires Valid()
      modifies this
      ensures Valid()
      ensures entries == Reconcile.SortByInTime(list) && vehicles == old(vehicles)
    {
      Reconcile.SortIsSorted(list);
      entries := Reconcile.SortByInTime(list);
    }

    /** Exporting the table at time `now`. */
    function Export(fmt: int -> string, now: int): (aoa: seq<seq<string>>)
      reads this
      ensures |aoa| == |entries| + 1 && aoa[0] == HEADERS
      ensures forall k :: 0 <= k < |entries| ==> aoa[k + 1] == Row(entries[k], fmt, now)
    {
      ExportRows(entries, fmt, now)
    }
  }
}
