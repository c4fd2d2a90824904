/** The `entries` table behind the server, reduced to what the core relies on:
    rows ordered by their store-assigned id, `getLastRecentEntries` (the 100 newest
    rows, newest first), and the `updateEntry` / `deleteEntry` calls. */
module EntryStore {
  import opened Wrappers

  /** One visit of a vehicle to a station. Times are milliseconds since the epoch;
      `outTime` is `null` while the visit is open. */
  datatype Entry = Entry(
    id: int,
    plate: string,
    station: string,
    inTime: int,
    outTime: Option<int>,
    isInside: bool)

  /** A write the reconciliation pass sends to the store. */
  datatype StoreCall = DeleteEntry(id: int) | UpdateEntry(entry: Entry)

  /** `getLastRecentEntries()` is called with its default limit. */
  const RECENT_LIMIT: nat := 100

  /** The table keeps its rows in the order the store assigned their ids. */
  predicate IdsAscending(table: seq<Entry>) {
    forall i, j :: 0 <= i < j < |table| ==> table[i].id < table[j].id
  }

  function Reverse<T>(s: seq<T>): (r: seq<T>)
    ensures |r| == |s|
    ensures forall k :: 0 <= k < |s| ==> r[k] == s[|s| - 1 - k]
  {
    if s == [] then [] else Reverse(s[1..]) + [s[0]]
  }

  /** `select * order by id desc limit 100`. */
  function Recent(table: seq<Entry>): (r: seq<Entry>)
    ensures |r| == if |table| < RECENT_LIMIT then |table| else RECENT_LIMIT
    ensures forall k :: 0 <= k < |r| ==> r[k] == table[|table| - 1 - k]
  {
    var n := if |table| < RECENT_LIMIT then |table| else RECENT_LIMIT;
    Reverse(table[|table| - n..])
  }

  /** The rows come back newest first, and every row left out is older than all of them. */
  lemma RecentNewestFirst(table: seq<Entry>)
    requires IdsAscending(table)
    ensures forall i, j :: 0 <= i < j < |Recent(table)| ==> Recent(table)[i].id > Recent(table)[j].id
    ensures forall i, k :: 0 <= i < |table| - |Recent(table)| && 0 <= k < |Recent(table)| ==>
      table[i].id < Recent(table)[k].id
  {
  }

  /** `deleteEntry(id)`: removes the row with that id. */
  function DeleteRow(table: seq<Entry>, id: int): (r: seq<Entry>)
    ensures forall e :: e in r <==> e in table && e.id != id
    ensures IdsAscending(table) ==> IdsAscending(r)
  {
    if table == [] then []
    else if table[0].id == id then DeleteRow(table[1..], id)
    else [table[0]] + DeleteRow(table[1..], id)
  }

  /** `updateEntry(e)`: the row whose id is `e.id` takes every field of `e`. */
  function UpdateRow(table: seq<Entry>, e: Entry): (r: seq<Entry>)
    ensures |r| == |table|
    ensures forall k :: 0 <= k < |table| ==> r[k] == if table[k].id == e.id then e else table[k]
  {
    seq(|table|, k requires 0 <= k < |table| => if table[k].id == e.id then e else table[k])
  }

  lemma UpdateKeepsIds(table: seq<Entry>, e: Entry)
    requires IdsAscending(table)
    ensures IdsAscending(UpdateRow(table, e))
  {
  }

  function ApplyCall(table: seq<Entry>, c: StoreCall): seq<Entry> {
    match c
    case DeleteEntry(id) => DeleteRow(table, id)
    case UpdateEntry(e) => UpdateRow(table, e)
  }

  /** The calls, awaited one after the other. */
  function ApplyCalls(table: seq<Entry>, calls: seq<StoreCall>): seq<Entry>
    decreases |calls|
  {
    if calls == [] then table
    else ApplyCalls(ApplyCall(table, calls[0]), calls[1..])
  }

  /** The calls, awaited one after the other. */
  method ApplyInOrder(table: seq<Entry>, calls: seq<StoreCall>) returns (r: seq<Entry>)
    ensures r == ApplyCalls(table, calls)
  {
    r := table;
    for k := 0 to |calls|
      invariant ApplyCalls(table, calls) == ApplyCalls(r, calls[k..])
    {
      assert calls[k..][1..] == calls[k + 1..];
      r := ApplyCall(r, calls[k]);
    }
  }

  /** Deletes and updates keep the table ordered by id. */
  lemma {:induction false} ApplyCallsKeepOrder(table: seq<Entry>, calls: seq<StoreCall>)
    requires IdsAscending(table)
    ensures IdsAscending(ApplyCalls(table, calls))
    decreases |calls|
  {
    if calls != [] {
      if calls[0].UpdateEntry? {
        UpdateKeepsIds(table, calls[0].entry);
      }
      ApplyCallsKeepOrder(ApplyCall(table, calls[0]), calls[1..]);
    }
  }
}
