/** `entriesCleanup`: the batch pass that normalises the recent entry history.
    The fetched rows are grouped by plate (first-appearance order of the plates,
    fetch order inside a group), each group is sorted by in-time on a copy, and
    a left-to-right scan deletes duplicates, folds close sessions into their
    predecessor and deletes short stays, splicing the in-memory list as it goes. */
module Reconcile {
  import opened Wrappers
  import opened EntryStore

  /** `MS_FIVE_MINUTES`, the threshold of all three rules. */
  const FIVE_MINUTES_MS: int := 5 * 60 * 1000

  // ---------------------------------------------------------------------------
  // Grouping by plate

  /** The keys of `grouped` in the order the loop creates them: each plate at its
      first appearance in the fetched rows. */
  function PlateOrder(raw: seq<Entry>): (plates: seq<string>)
    decreases |raw|
  {
    if raw == [] then []
    else
      var plates := PlateOrder(raw[..|raw| - 1]);
      var p := raw[|raw| - 1].plate;
      if p in plates then plates else plates + [p]
  }

  /** Each plate appears once among the keys. */
  lemma {:induction false} PlatesDistinct(raw: seq<Entry>)
    ensures forall i, j :: 0 <= i < j < |PlateOrder(raw)| ==> PlateOrder(raw)[i] != PlateOrder(raw)[j]
    decreases |raw|
  {
    if raw != [] {
      PlatesDistinct(raw[..|raw| - 1]);
    }
  }

  /** Every fetched row's plate is a key. */
  lemma {:induction false} PlatesCoverRows(raw: seq<Entry>)
    ensures forall e :: e in raw ==> e.plate in PlateOrder(raw)
    decreases |raw|
  {
    if raw != [] {
      var front := raw[..|raw| - 1];
      PlatesCoverRows(front);
      assert raw == front + [raw[|raw| - 1]];
      forall e | e in raw ensures e in front || e == raw[|raw| - 1] {
      }
    }
  }

  /** Every key is the plate of a fetched row. */
  lemma {:induction false} PlatesFromRows(raw: seq<Entry>)
    ensures forall p :: p in PlateOrder(raw) ==> exists e :: e in raw && e.plate == p
    decreases |raw|
  {
    if raw != [] {
      var front := raw[..|raw| - 1];
      PlatesFromRows(front);
      forall p | p in PlateOrder(raw) ensures exists e :: e in raw && e.plate == p {
        if p in PlateOrder(front) {
          var e :| e in front && e.plate == p;
          assert e in raw;
        } else {
          assert raw[|raw| - 1] in raw;
        }
      }
    }
  }

  /** `grouped[p]`: the fetched rows with plate `p`, in fetch order. */
  function GroupOf(raw: seq<Entry>, p: string): (g: seq<Entry>)
    ensures forall e :: e in g ==> e in raw && e.plate == p
    decreases |raw|
  {
    if raw == [] then []
    else
      var last := raw[|raw| - 1];
      GroupOf(raw[..|raw| - 1], p) + (if last.plate == p then [last] else [])
  }

  /** Every fetched row lands in the group of its own plate, as often as it was
      fetched, and in no other group. */
  lemma {:induction false} GroupOfExact(raw: seq<Entry>, p: string)
    ensures forall e :: multiset(GroupOf(raw, p))[e] == if e.plate == p then multiset(raw)[e] else 0
    decreases |raw|
  {
    if raw != [] {
      var front, last := raw[..|raw| - 1], raw[|raw| - 1];
      GroupOfExact(front, p);
      assert raw == front + [last];
      assert multiset(raw) == multiset(front) + multiset{last};
    }
  }

  lemma GroupOfAbsent(raw: seq<Entry>, p: string)
    requires p !in PlateOrder(raw)
    ensures GroupOf(raw, p) == []
  {
    PlatesCoverRows(raw);
  }

  /** `grouped` and its key order after the loop has seen the first `k` rows. */
  ghost predicate GroupedUpTo(raw: seq<Entry>, k: nat, plates: seq<string>, grouped: map<string, seq<Entry>>)
    requires k <= |raw|
  {
    && plates == PlateOrder(raw[..k])
    && (forall p :: p in grouped <==> p in plates)
    && (forall p :: p in grouped ==> grouped[p] == GroupOf(raw[..k], p))
  }

  /** The grouping loop: `grouped[plate].push(entry)` for every fetched row. */
  method GroupByPlate(raw: seq<Entry>) returns (plates: seq<string>, grouped: map<string, seq<Entry>>)
    ensures plates == PlateOrder(raw)
    ensures forall p :: p in grouped <==> p in plates
    ensures forall p :: p in grouped ==> grouped[p] == GroupOf(raw, p)
  {
    plates, grouped := [], map[];
    for k := 0 to |raw|
      invariant GroupedUpTo(raw, k, plates, grouped)
    {
      plates, grouped := PushRow(raw, k, plates, grouped);
    }
    assert raw[..|raw|] == raw;
  }

  /** One iteration of the grouping loop. */
  method PushRow(raw: seq<Entry>, k: nat, plates: seq<string>, grouped: map<string, seq<Entry>>)
    returns (plates': seq<string>, grouped': map<string, seq<Entry>>)
    requires k < |raw| && GroupedUpTo(raw, k, plates, grouped)
    ensures GroupedUpTo(raw, k + 1, plates', grouped')
  {
    var entry := raw[k];
    PlatesStep(raw, k);
    plates', grouped' := plates, grouped;
    if entry.plate !in grouped' {
      GroupOfAbsent(raw[..k], entry.plate);
      grouped' := grouped'[entry.plate := []];
      plates' := plates' + [entry.plate];
    }
    grouped' := grouped'[entry.plate := grouped'[entry.plate] + [entry]];
    forall p | p in grouped' ensures grouped'[p] == GroupOf(raw[..k + 1], p) {
      GroupStep(raw, k, p);
    }
  }

  /** One more fetched row: its plate is added to the key order if it is new. */
  lemma PlatesStep(raw: seq<Entry>, k: int)
    requires 0 <= k < |raw|
    ensures PlateOrder(raw[..k + 1]) ==
      if raw[k].plate in PlateOrder(raw[..k]) then PlateOrder(raw[..k]) else PlateOrder(raw[..k]) + [raw[k].plate]
  {
    assert raw[..k + 1][..k] == raw[..k];
  }

  /** One more fetched row: it is appended to the group of its plate only. */
  lemma GroupStep(raw: seq<Entry>, k: int, p: string)
    requires 0 <= k < |raw|
    ensures GroupOf(raw[..k + 1], p) == GroupOf(raw[..k], p) + (if raw[k].plate == p then [raw[k]] else [])
  {
    assert raw[..k + 1][..k] == raw[..k];
  }

  // ---------------------------------------------------------------------------
  // Sorting a group by in-time

  predicate SortedByInTime(s: seq<Entry>) {
    forall i, j :: 0 <= i < j < |s| ==> s[i].inTime <= s[j].inTime
  }

  /** Places `e` before the first row that is not earlier than it, so that rows
      with equal in-times keep their relative order. */
  function InsertByInTime(e: Entry, s: seq<Entry>): (r: seq<Entry>)
    ensures |r| == |s| + 1 && (r[0] == e || (|s| > 0 && r[0] == s[0]))
  {
    if s == [] || e.inTime <= s[0].inTime then [e] + s
    else [s[0]] + InsertByInTime(e, s[1..])
  }

  /** Inserting into a sorted group keeps it sorted. */
  lemma {:induction false} InsertKeepsSorted(e: Entry, s: seq<Entry>)
    requires SortedByInTime(s)
    ensures SortedByInTime(InsertByInTime(e, s))
  {
    if s != [] && e.inTime > s[0].inTime {
      InsertKeepsSorted(e, s[1..]);
      var tail := InsertByInTime(e, s[1..]);
      assert s[0].inTime <= tail[0].inTime;
    }
  }

  /** Inserting adds `e` and loses nothing. */
  lemma {:induction false} InsertPermutes(e: Entry, s: seq<Entry>)
    ensures multiset(InsertByInTime(e, s)) == multiset(s) + multiset{e}
  {
    if s != [] && e.inTime > s[0].inTime {
      InsertPermutes(e, s[1..]);
      MultisetOfCons(s);
      MultisetOfCons(InsertByInTime(e, s));
    }
  }

  /** `slice().sort((a, b) => in_time(a) - in_time(b))`: a stable ascending sort
      of a copy of the group, built by insertion from the back. */
  function SortByInTime(s: seq<Entry>): (r: seq<Entry>)
    ensures |r| == |s|
  {
    if s == [] then [] else InsertByInTime(s[0], SortByInTime(s[1..]))
  }

  /** The sorted copy is ascending by in-time. */
  lemma {:induction false} SortIsSorted(s: seq<Entry>)
    ensures SortedByInTime(SortByInTime(s))
  {
    if s != [] {
      SortIsSorted(s[1..]);
      InsertKeepsSorted(s[0], SortByInTime(s[1..]));
    }
  }

  /** The sorted copy holds the same rows, as often, as the group. */
  lemma {:induction false} SortPermutes(s: seq<Entry>)
    ensures multiset(SortByInTime(s)) == multiset(s)
  {
    if s != [] {
      var sorted := SortByInTime(s[1..]);
      SortPermutes(s[1..]);
      InsertPermutes(s[0], sorted);
      MultisetOfCons(s);
    }
  }

  /** The rows of `s` whose in-time is `t`, in their order in `s`. */
  function Keyed(s: seq<Entry>, t: int): seq<Entry> {
    if s == [] then [] else (if s[0].inTime == t then [s[0]] else []) + Keyed(s[1..], t)
  }

  lemma KeyedCons(x: Entry, s: seq<Entry>, t: int)
    ensures Keyed([x] + s, t) == (if x.inTime == t then [x] else []) + Keyed(s, t)
  {
    assert ([x] + s)[1..] == s;
  }

  /** Inserting puts `e` ahead of every row with its in-time. */
  lemma {:induction false} InsertKeyed(e: Entry, s: seq<Entry>, t: int)
    ensures Keyed(InsertByInTime(e, s), t) == (if e.inTime == t then [e] else []) + Keyed(s, t)
  {
    if s == [] || e.inTime <= s[0].inTime {
      KeyedCons(e, s, t);
    } else {
      var head := if s[0].inTime == t then [s[0]] else [];
      var mine := if e.inTime == t then [e] else [];
      var rest := InsertByInTime(e, s[1..]);
      assert InsertByInTime(e, s) == [s[0]] + rest;
      InsertKeyed(e, s[1..], t);
      KeyedCons(s[0], rest, t);
      SwapEmpty(head, mine, Keyed(s[1..], t));
    }
  }

  lemma SwapEmpty<T>(a: seq<T>, b: seq<T>, c: seq<T>)
    requires a == [] || b == []
    ensures a + (b + c) == b + (a + c)
  {
  }

  /** The sort is stable: rows with the same in-time come out in the order they
      came in. */
  lemma {:induction false} SortStable(s: seq<Entry>, t: int)
    ensures Keyed(SortByInTime(s), t) == Keyed(s, t)
  {
    if s != [] {
      SortStable(s[1..], t);
      InsertKeyed(s[0], SortByInTime(s[1..]), t);
    }
  }

  lemma MultisetOfCons<T>(s: seq<T>)
    requires s != []
    ensures multiset(s) == multiset{s[0]} + multiset(s[1..])
  {
    assert s == [s[0]] + s[1..];
  }

  // ---------------------------------------------------------------------------
  // The three rules

  /** Rule 1: the in-times are less than five minutes apart. */
  predicate IsDuplicate(prev: Entry, cur: Entry) {
    cur.inTime - prev.inTime < FIVE_MINUTES_MS
  }

  /** Rule 2: the predecessor is closed and `cur` starts less than five minutes
      after it ended. */
  predicate ContinuesSession(prev: Entry, cur: Entry) {
    prev.outTime.Some? && cur.inTime - prev.outTime.value < FIVE_MINUTES_MS
  }

  /** Rule 3: `cur` is closed and lasted less than five minutes. */
  predicate IsShortStay(cur: Entry) {
    cur.outTime.Some? && cur.outTime.value - cur.inTime < FIVE_MINUTES_MS
  }

  datatype Rule = Keep | DropDuplicate | MergeIntoPrevious | DropShortStay

  /** The rule one iteration applies to `cur`, given the surviving predecessor
      (`entries[i - 1]`, absent at index 0). Every rule ends in `continue`, so the
      first that matches is the only one that fires. */
  function Judge(prev: Option<Entry>, cur: Entry): (rule: Rule)
    ensures prev.None? ==> rule == Keep || rule == DropShortStay
    ensures rule == Keep <==>
      !IsShortStay(cur) && (prev.Some? ==> !IsDuplicate(prev.value, cur) && !ContinuesSession(prev.value, cur))
  {
    if prev.Some? && IsDuplicate(prev.value, cur) then DropDuplicate
    else if prev.Some? && ContinuesSession(prev.value, cur) then MergeIntoPrevious
    else if IsShortStay(cur) then DropShortStay
    else Keep
  }

  /** The record `updateEntry` receives on a merge: a copy of the predecessor that
      carries `cur`'s out-time forward, or is left with no out-time and not inside
      when `cur` is open but marked not inside. */
  function MergedCopy(prev: Entry, cur: Entry): (u: Entry)
    ensures u.id == prev.id && u.plate == prev.plate && u.station == prev.station
    ensures u.inTime == prev.inTime
    ensures cur.outTime.Some? ==> u.outTime == cur.outTime && u.isInside == prev.isInside
    ensures cur.outTime.None? && !cur.isInside ==> u.outTime.None? && !u.isInside
    ensures cur.outTime.None? && cur.isInside ==> u == prev
  {
    if cur.outTime.Some? then prev.(outTime := cur.outTime)
    else if !cur.isInside then prev.(outTime := None, isInside := false)
    else prev
  }

  /** What the scan leaves in memory and what it sends to the store. */
  datatype ScanResult = ScanResult(survivors: seq<Entry>, calls: seq<StoreCall>)

  /** The store calls of one iteration. */
  function CallsFor(prev: Option<Entry>, cur: Entry): seq<StoreCall> {
    match Judge(prev, cur)
    case Keep => []
    case MergeIntoPrevious => [UpdateEntry(MergedCopy(prev.value, cur)), DeleteEntry(cur.id)]
    case _ => [DeleteEntry(cur.id)]
  }

  /** The scan of `rest` when `prev` is the last survivor so far. A deleted entry
      leaves the predecessor in place (the `i--`); a merge changes only the copy
      sent to the store, so later rows are compared with the unmerged predecessor. */
  function Scan(prev: Option<Entry>, rest: seq<Entry>): (r: ScanResult)
    ensures |r.survivors| <= |rest| && forall e :: e in r.survivors ==> e in rest
    decreases |rest|
  {
    if rest == [] then ScanResult([], [])
    else
      var cur := rest[0];
      if Judge(prev, cur) == Keep then
        var tail := Scan(Some(cur), rest[1..]);
        ScanResult([cur] + tail.survivors, tail.calls)
      else
        var tail := Scan(prev, rest[1..]);
        ScanResult(tail.survivors, CallsFor(prev, cur) + tail.calls)
  }

  function LastOf(s: seq<Entry>): Option<Entry> {
    if s == [] then None else Some(s[|s| - 1])
  }

  /** The survivors obey all three rules against each other: no rule would fire
      on a second scan of these rows as the scan holds them in memory. */
  predicate WellSpaced(s: seq<Entry>) {
    && (forall k :: 0 <= k < |s| ==> !IsShortStay(s[k]))
    && (forall k :: 0 < k < |s| ==> !IsDuplicate(s[k - 1], s[k]) && !ContinuesSession(s[k - 1], s[k]))
  }

  /** After the scan: adjacent survivors start at least five minutes apart, a
      survivor starts at least five minutes after a closed predecessor ended, and
      every closed survivor lasted at least five minutes. */
  lemma {:induction false} ScanSpacing(prev: Option<Entry>, rest: seq<Entry>)
    ensures WellSpaced(Scan(prev, rest).survivors)
    ensures prev.Some? && |Scan(prev, rest).survivors| > 0 ==>
      var first := Scan(prev, rest).survivors[0];
      !IsDuplicate(prev.value, first) && !ContinuesSession(prev.value, first)
    decreases |rest|
  {
    if rest != [] {
      var cur := rest[0];
      if Judge(prev, cur) == Keep {
        ScanSpacing(Some(cur), rest[1..]);
        var s := Scan(prev, rest).survivors;
        assert s == [cur] + Scan(Some(cur), rest[1..]).survivors;
      } else {
        ScanSpacing(prev, rest[1..]);
      }
    }
  }

  /** The spacing holds for the rows the scan keeps in memory, not for the rows
      it leaves in the store: a merge lengthens the predecessor's stored copy, so
      a second pass over the store can merge again. Three closed sessions of one
      plate, 0-10, 12-20 and 24-40 minutes: the first pass folds the second into
      the first (now 0-20) and keeps the third, which then starts four minutes
      after its stored predecessor ended. */
  lemma SecondPassMayMerge()
    ensures var a := Entry(1, "P", "S", 0, Some(600000), false);
      var b := Entry(2, "P", "S", 720000, Some(1200000), false);
      var c := Entry(3, "P", "S", 1440000, Some(2400000), false);
      var a' := a.(outTime := Some(1200000));
      && SortedByInTime([a, b, c])
      && Scan(None, [a, b, c]) == ScanResult([a, c], [UpdateEntry(a'), DeleteEntry(2)])
      && ApplyCalls([a, b, c], [UpdateEntry(a'), DeleteEntry(2)]) == [a', c]
      && Scan(None, [a', c]).calls == [UpdateEntry(a'.(outTime := c.outTime)), DeleteEntry(3)]
  {
    var a := Entry(1, "P", "S", 0, Some(600000), false);
    var b := Entry(2, "P", "S", 720000, Some(1200000), false);
    var c := Entry(3, "P", "S", 1440000, Some(2400000), false);
    var a' := a.(outTime := Some(1200000));
    assert Judge(None, a) == Keep && Judge(Some(a), b) == MergeIntoPrevious && Judge(Some(a), c) == Keep;
    assert [a, b, c][1..] == [b, c] && [b, c][1..] == [c] && [a', c][1..] == [c];
    assert Scan(Some(a), [c]) == ScanResult([c], []);
    assert Scan(Some(a), [b, c]) == ScanResult([c], [UpdateEntry(a'), DeleteEntry(2)]);
    assert UpdateRow([a, b, c], a') == [a', b, c];
    assert [a', b, c][1..] == [b, c];
    assert DeleteRow([c], 2) == [c] + DeleteRow([], 2);
    assert DeleteRow([b, c], 2) == [c];
    assert DeleteRow([a', b, c], 2) == [a'] + [c];
    var calls := [UpdateEntry(a'), DeleteEntry(2)];
    assert calls[1..] == [DeleteEntry(2)] && calls[1..][1..] == [];
    assert ApplyCalls([a', b, c], [DeleteEntry(2)]) == ApplyCalls([a', c], []);
    assert Judge(None, a') == Keep && Judge(Some(a'), c) == MergeIntoPrevious;
    assert Scan(Some(a'), [c]) == ScanResult([], CallsFor(Some(a'), c));
  }

  /** Spacing makes the survivors strictly ascending by in-time. */
  lemma SpacedIsAscending(s: seq<Entry>)
    requires WellSpaced(s)
    ensures forall i, j :: 0 <= i < j < |s| ==> s[i].inTime + FIVE_MINUTES_MS <= s[j].inTime
  {
    forall i, j | 0 <= i < j < |s|
      ensures s[i].inTime + FIVE_MINUTES_MS <= s[j].inTime
    {
      var k := i + 1;
      while k < j
        invariant i < k <= j
        invariant s[i].inTime + FIVE_MINUTES_MS <= s[k].inTime
      {
        assert !IsDuplicate(s[k], s[k + 1]);
        k := k + 1;
      }
    }
  }

  // ---------------------------------------------------------------------------
  // Bookkeeping: which rows are kept and which receive store calls

  /** The rule applied to each row of `rest`, in order. */
  function Rules(prev: Option<Entry>, rest: seq<Entry>): (rules: seq<Rule>)
    ensures |rules| == |rest|
    decreases |rest|
  {
    if rest == [] then []
    else
      var rule := Judge(prev, rest[0]);
      [rule] + Rules(if rule == Keep then Some(rest[0]) else prev, rest[1..])
  }

  /** The rows whose rule is (`keep`) or is not (`!keep`) `Keep`, in order. */
  function Select(rest: seq<Entry>, rules: seq<Rule>, keep: bool): seq<Entry>
    requires |rules| == |rest|
  {
    if rest == [] then []
    else (if (rules[0] == Keep) == keep then [rest[0]] else []) + Select(rest[1..], rules[1..], keep)
  }

  function Ids(s: seq<Entry>): seq<int> {
    if s == [] then [] else [s[0].id] + Ids(s[1..])
  }

  /** The ids passed to `deleteEntry`, in call order. */
  function DeletedIds(calls: seq<StoreCall>): seq<int> {
    if calls == [] then []
    else (if calls[0].DeleteEntry? then [calls[0].id] else []) + DeletedIds(calls[1..])
  }

  function CountRule(rules: seq<Rule>, rule: Rule): nat {
    if rules == [] then 0 else (if rules[0] == rule then 1 else 0) + CountRule(rules[1..], rule)
  }

  function CountUpdates(calls: seq<StoreCall>): nat {
    if calls == [] then 0 else (if calls[0].UpdateEntry? then 1 else 0) + CountUpdates(calls[1..])
  }

  lemma DeletedIdsAppend(a: seq<StoreCall>, b: seq<StoreCall>)
    ensures DeletedIds(a + b) == DeletedIds(a) + DeletedIds(b)
    ensures CountUpdates(a + b) == CountUpdates(a) + CountUpdates(b)
  {
    if a != [] {
      assert (a + b)[0] == a[0];
      assert (a + b)[1..] == a[1..] + b;
      DeletedIdsAppend(a[1..], b);
    } else {
      assert a + b == b;
    }
  }

  /** The survivors are exactly the rows judged `Keep`, in order: a subsequence
      of the sorted group. */
  lemma {:induction false} ScanSurvivors(prev: Option<Entry>, rest: seq<Entry>)
    ensures Scan(prev, rest).survivors == Select(rest, Rules(prev, rest), true)
    decreases |rest|
  {
    if rest != [] {
      var cur := rest[0];
      var next := if Judge(prev, cur) == Keep then Some(cur) else prev;
      ScanSurvivors(next, rest[1..]);
      var rules := Rules(prev, rest);
      assert rules[0] == Judge(prev, cur) && rules[1..] == Rules(next, rest[1..]);
    }
  }

  /** Every row not kept is passed to `deleteEntry` exactly once, in scan order,
      and there is one `updateEntry` per merge. */
  lemma {:induction false} ScanDeletions(prev: Option<Entry>, rest: seq<Entry>)
    ensures DeletedIds(Scan(prev, rest).calls) == Ids(Select(rest, Rules(prev, rest), false))
    ensures CountUpdates(Scan(prev, rest).calls) == CountRule(Rules(prev, rest), MergeIntoPrevious)
    decreases |rest|
  {
    if rest != [] {
      var cur := rest[0];
      var rule := Judge(prev, cur);
      var next := if rule == Keep then Some(cur) else prev;
      ScanDeletions(next, rest[1..]);
      var tail := Scan(next, rest[1..]);
      var own := CallsFor(prev, cur);
      assert Scan(prev, rest).calls == own + tail.calls;
      DeletedIdsAppend(own, tail.calls);
      var rules := Rules(prev, rest);
      assert rules[0] == rule && rules[1..] == Rules(next, rest[1..]);
      CallsForCounts(prev, cur);
      var dropped := Select(rest, rules, false);
      if rule == Keep {
        assert dropped == Select(rest[1..], rules[1..], false);
      } else {
        assert dropped == [cur] + Select(rest[1..], rules[1..], false);
        assert Ids(dropped) == [cur.id] + Ids(Select(rest[1..], rules[1..], false));
      }
    }
  }

  /** One iteration deletes `cur` unless it is kept, and updates only on a merge. */
  lemma CallsForCounts(prev: Option<Entry>, cur: Entry)
    ensures DeletedIds(CallsFor(prev, cur)) == if Judge(prev, cur) == Keep then [] else [cur.id]
    ensures CountUpdates(CallsFor(prev, cur)) == if Judge(prev, cur) == MergeIntoPrevious then 1 else 0
  {
    var own := CallsFor(prev, cur);
    if Judge(prev, cur) == MergeIntoPrevious {
      assert own[1..][1..] == [];
      assert own[0].UpdateEntry? && own[1].DeleteEntry?;
      assert CountUpdates(own[1..]) == 0 && DeletedIds(own[1..]) == [cur.id];
    } else if Judge(prev, cur) != Keep {
      assert own[1..] == [];
      assert own[0].DeleteEntry?;
    }
  }

  predicate UpdateThenDelete(calls: seq<StoreCall>) {
    forall k :: 0 <= k < |calls| && calls[k].UpdateEntry? ==> k + 1 < |calls| && calls[k + 1].DeleteEntry?
  }

  /** Each `updateEntry` is immediately followed by the `deleteEntry` of the row
      folded into the predecessor. */
  lemma {:induction false} ScanUpdateThenDelete(prev: Option<Entry>, rest: seq<Entry>)
    ensures UpdateThenDelete(Scan(prev, rest).calls)
    decreases |rest|
  {
    if rest != [] {
      var cur := rest[0];
      var next := if Judge(prev, cur) == Keep then Some(cur) else prev;
      ScanUpdateThenDelete(next, rest[1..]);
      var own := CallsFor(prev, cur);
      assert UpdateThenDelete(own) && (own == [] || own[|own| - 1].DeleteEntry?);
      UpdateThenDeleteAppend(own, Scan(next, rest[1..]).calls);
    }
  }

  lemma UpdateThenDeleteAppend(a: seq<StoreCall>, b: seq<StoreCall>)
    requires UpdateThenDelete(a) && UpdateThenDelete(b)
    requires a == [] || a[|a| - 1].DeleteEntry?
    ensures UpdateThenDelete(a + b)
  {
    var c := a + b;
    forall k | 0 <= k < |c| && c[k].UpdateEntry?
      ensures k + 1 < |c| && c[k + 1].DeleteEntry?
    {
      if k < |a| {
        assert a[k].UpdateEntry?;
      } else {
        assert b[k - |a|].UpdateEntry?;
      }
    }
  }

  /** The ids a store call writes to. */
  function TargetId(c: StoreCall): int {
    match c
    case DeleteEntry(id) => id
    case UpdateEntry(e) => e.id
  }

  function IdSet(s: seq<Entry>): set<int> {
    set e | e in s :: e.id
  }

  function Targets(calls: seq<StoreCall>): set<int> {
    set c | c in calls :: TargetId(c)
  }

  /** A scan writes only to the rows it was given and to its predecessor. */
  lemma {:induction false} ScanTargets(prev: Option<Entry>, rest: seq<Entry>)
    ensures Targets(Scan(prev, rest).calls) <= IdSet(rest) + (if prev.Some? then {prev.value.id} else {})
    decreases |rest|
  {
    if rest != [] {
      var cur := rest[0];
      var next := if Judge(prev, cur) == Keep then Some(cur) else prev;
      ScanTargets(next, rest[1..]);
      var calls := Scan(prev, rest).calls;
      assert calls == CallsFor(prev, cur) + Scan(next, rest[1..]).calls;
      assert IdSet(rest[1..]) <= IdSet(rest) by {
        forall e | e in rest[1..] ensures e in rest { }
      }
      assert cur.id in IdSet(rest);
      forall c | c in calls
        ensures TargetId(c) in IdSet(rest) + (if prev.Some? then {prev.value.id} else {})
      {
        if c in CallsFor(prev, cur) {
          if Judge(prev, cur) == MergeIntoPrevious && c.UpdateEntry? {
            assert TargetId(c) == prev.value.id;
          }
        } else {
          assert c in Scan(next, rest[1..]).calls;
          assert TargetId(c) in Targets(Scan(next, rest[1..]).calls);
        }
      }
    }
  }

  // ---------------------------------------------------------------------------
  // The imperative scan and the whole pass

  /** The inner `for` loop over one sorted group, with `entries.splice(i, 1)` on
      every deletion. `i--` followed by the loop's `i++` leaves the index where it
      was, so a deletion here simply does not advance `i`. */
  method ScanGroup(sorted: seq<Entry>) returns (survivors: seq<Entry>, calls: seq<StoreCall>)
    ensures ScanResult(survivors, calls) == Scan(None, sorted)
    ensures WellSpaced(survivors)
  {
    var entries := sorted;
    calls := [];
    var i := 0;
    while i < |entries|
      invariant 0 <= i <= |entries|
      invariant Scan(None, sorted) == Join(entries[..i], calls, Scan(LastOf(entries[..i]), entries[i..]))
      decreases |entries| - i
    {
      var current := entries[i];
      ghost var done, prev, later := entries[..i], LastOf(entries[..i]), entries[i + 1..];
      assert entries[i..] == [current] + later;
      assert prev == if i > 0 then Some(entries[i - 1]) else None;
      JoinStep(done, calls, prev, current, later);
      SpliceAt(entries, i);
      // Rule 1: duplicate in-time
      if i > 0 && IsDuplicate(entries[i - 1], current) {
        calls := calls + [DeleteEntry(current.id)];
        entries := entries[..i] + entries[i + 1..];
        continue;
      }
      // Rule 2: merge into the closed predecessor
      if i > 0 && ContinuesSession(entries[i - 1], current) {
        var updated := MergedCopy(entries[i - 1], current);
        calls := calls + [UpdateEntry(updated), DeleteEntry(current.id)];
        entries := entries[..i] + entries[i + 1..];
        continue;
      }
      // Rule 3: short stay
      if IsShortStay(current) {
        calls := calls + [DeleteEntry(current.id)];
        entries := entries[..i] + entries[i + 1..];
        continue;
      }
      i := i + 1;
    }
    survivors := entries;
    assert entries[..i] == entries && entries[i..] == [];
    ScanSpacing(None, sorted);
  }

  /** The scan so far (`done` kept, `calls` sent) followed by the scan of the rest. */
  function Join(done: seq<Entry>, calls: seq<StoreCall>, tail: ScanResult): ScanResult {
    ScanResult(done + tail.survivors, calls + tail.calls)
  }

  /** One iteration of the scan, seen from the loop. */
  lemma JoinStep(done: seq<Entry>, calls: seq<StoreCall>, prev: Option<Entry>, cur: Entry, later: seq<Entry>)
    ensures Join(done, calls, Scan(prev, [cur] + later)) ==
      if Judge(prev, cur) == Keep then Join(done + [cur], calls, Scan(Some(cur), later))
      else Join(done, calls + CallsFor(prev, cur), Scan(prev, later))
  {
    assert ([cur] + later)[1..] == later;
  }

  /** `entries.splice(i, 1)` leaves the rows before `i` and shifts the rest down. */
  lemma SpliceAt(entries: seq<Entry>, i: int)
    requires 0 <= i < |entries|
    ensures (entries[..i] + entries[i + 1..])[..i] == entries[..i]
    ensures (entries[..i] + entries[i + 1..])[i..] == entries[i + 1..]
    ensures entries[..i + 1] == entries[..i] + [entries[i]]
    ensures LastOf(entries[..i + 1]) == Some(entries[i])
  {
  }

  /** The store calls of the whole pass, plate by plate in `grouped`'s key order. */
  function CallsForPlates(fetched: seq<Entry>, plates: seq<string>): seq<StoreCall>
    decreases |plates|
  {
    if plates == [] then []
    else
      CallsForPlates(fetched, plates[..|plates| - 1])
      + Scan(None, SortByInTime(GroupOf(fetched, plates[|plates| - 1]))).calls
  }

  function CleanupCalls(fetched: seq<Entry>): seq<StoreCall> {
    CallsForPlates(fetched, PlateOrder(fetched))
  }

  /** The pass writes only to rows it fetched. */
  lemma {:induction false} CleanupTargetsFetched(fetched: seq<Entry>, plates: seq<string>)
    ensures Targets(CallsForPlates(fetched, plates)) <= IdSet(fetched)
    decreases |plates|
  {
    if plates != [] {
      var front := plates[..|plates| - 1];
      var g := GroupOf(fetched, plates[|plates| - 1]);
      var sorted := SortByInTime(g);
      SortPermutes(g);
      CleanupTargetsFetched(fetched, front);
      ScanTargets(None, sorted);
      assert IdSet(sorted) <= IdSet(fetched) by {
        forall e | e in sorted ensures e in fetched {
          assert e in multiset(sorted);
          assert e in multiset(g);
        }
      }
      var a, b := CallsForPlates(fetched, front), Scan(None, sorted).calls;
      assert CallsForPlates(fetched, plates) == a + b;
      forall c | c in a + b ensures TargetId(c) in IdSet(fetched) {
        if c in a { assert TargetId(c) in Targets(a); } else { assert TargetId(c) in Targets(b); }
      }
    }
  }

  /** `entriesCleanup()` on the rows `getLastRecentEntries()` returned: the calls
      it awaits, in order. */
  method EntriesCleanup(fetched: seq<Entry>) returns (calls: seq<StoreCall>)
    ensures calls == CleanupCalls(fetched)
    ensures Targets(calls) <= IdSet(fetched)
  {
    var plates, grouped := GroupByPlate(fetched);
    calls := [];
    for k := 0 to |plates|
      invariant calls == CallsForPlates(fetched, plates[..k])
    {
      assert plates[..k + 1][..k] == plates[..k];
      assert plates[k] in grouped;
      var entries := SortByInTime(grouped[plates[k]]);
      var survivors, groupCalls := ScanGroup(entries);
      calls := calls + groupCalls;
    }
    assert plates[..|plates|] == plates;
    CleanupTargetsFetched(fetched, plates);
  }
}
