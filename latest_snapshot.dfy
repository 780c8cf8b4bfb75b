/** `getLatestSnapshot` of the earlier table: one row per vessel, the newest
    by capture time, vessels in the order their first row appears. */
module LatestSnapshot {
  import opened PilotageData
  import opened VesselGroups
  import opened RecentSnapshots

  /** The position of the row a left-to-right scan keeps: a later row replaces
      the kept one only when it is strictly newer. */
  function NewestIndex(host: Host, rows: seq<Snapshot>): (i: nat)
    requires rows != []
    ensures i < |rows|
  {
    if |rows| == 1 then 0
    else
      var i := NewestIndex(host, rows[..|rows| - 1]);
      if CaptureTime(host, rows[|rows| - 1]) > CaptureTime(host, rows[i]) then |rows| - 1 else i
  }

  /** The kept row is a newest row, and every row before it is strictly older,
      so it is the earliest of the newest rows. */
  lemma {:induction false} NewestIndexIsEarliestNewest(host: Host, rows: seq<Snapshot>)
    requires rows != []
    ensures forall j :: 0 <= j < |rows| ==> CaptureTime(host, rows[j]) <= CaptureTime(host, rows[NewestIndex(host, rows)])
    ensures forall j :: 0 <= j < NewestIndex(host, rows) ==>
              CaptureTime(host, rows[j]) < CaptureTime(host, rows[NewestIndex(host, rows)])
  {
    if |rows| > 1 {
      var init := rows[..|rows| - 1];
      NewestIndexIsEarliestNewest(host, init);
      var i := NewestIndex(host, init);
      assert forall j :: 0 <= j < |init| ==> rows[j] == init[j];
    }
  }

  /** The newest row of a group; the earliest of equally new rows. */
  function Newest(host: Host, rows: seq<Snapshot>): Snapshot
    requires rows != []
  {
    rows[NewestIndex(host, rows)]
  }

  /** Scanning one more row: it is kept only when strictly newer. */
  lemma NewestSnoc(host: Host, rows: seq<Snapshot>, item: Snapshot)
    requires rows != []
    ensures Newest(host, rows + [item]) ==
            if CaptureTime(host, item) > CaptureTime(host, Newest(host, rows)) then item else Newest(host, rows)
  {
    assert (rows + [item])[..|rows|] == rows;
  }

  /** What `getLatestSnapshot(data)` returns: for each vessel in first-seen
      order, its newest row. */
  function LatestPerVessel(host: Host, data: seq<Snapshot>): seq<Snapshot>
  {
    ImosHaveRows(data);
    var imos := Imos(data);
    seq(|imos|, j requires 0 <= j < |imos| => Newest(host, RowsOf(data, imos[j])))
  }

  /** The map after the rows `seen`: keys in insertion order are the vessels
      seen, and each key holds that vessel's newest row so far. */
  ghost predicate Tracked(host: Host, seen: seq<Snapshot>, imos: seq<string>, vesselMap: map<string, Snapshot>)
  {
    imos == Imos(seen) &&
    (forall k :: k in vesselMap <==> k in imos) &&
    (forall k :: k in vesselMap ==> RowsOf(seen, k) != [] && vesselMap[k] == Newest(host, RowsOf(seen, k)))
  }

  /** The map after one `forEach` step: the row is stored when its vessel has
      no row yet or it is strictly newer than the stored one. */
  function Stored(host: Host, vesselMap: map<string, Snapshot>, item: Snapshot): map<string, Snapshot>
  {
    if item.imo !in vesselMap || CaptureTime(host, item) > CaptureTime(host, vesselMap[item.imo])
    then vesselMap[item.imo := item] else vesselMap
  }

  /** The key order after one `forEach` step: a new key goes last. */
  function Listed(imos: seq<string>, vesselMap: map<string, Snapshot>, item: Snapshot): seq<string>
  {
    if item.imo in vesselMap then imos else imos + [item.imo]
  }

  /** One `forEach` step keeps the map tracking the rows seen. */
  lemma TrackStep(host: Host, data: seq<Snapshot>, i: nat, imos: seq<string>, vesselMap: map<string, Snapshot>)
    requires i < |data| && Tracked(host, data[..i], imos, vesselMap)
    ensures Tracked(host, data[..i + 1], Listed(imos, vesselMap, data[i]), Stored(host, vesselMap, data[i]))
  {
    PrefixSnoc(data, i);
    TrackPush(host, data[..i], data[i], imos, vesselMap);
  }

  /** The step on the rows seen so far. */
  lemma TrackPush(host: Host, seen: seq<Snapshot>, item: Snapshot, imos: seq<string>, vesselMap: map<string, Snapshot>)
    requires Tracked(host, seen, imos, vesselMap)
    ensures Tracked(host, seen + [item], Listed(imos, vesselMap, item), Stored(host, vesselMap, item))
  {
    var imos' := Listed(imos, vesselMap, item);
    var map' := Stored(host, vesselMap, item);
    ImosSnoc(seen, item);
    ImosMembers(seen, item.imo);
    assert imos' == Imos(seen + [item]);
    assert forall k :: k in map' <==> k in imos';
    TrackRowsStep(host, seen, item, vesselMap);
  }

  lemma TrackRowsStep(host: Host, seen: seq<Snapshot>, item: Snapshot, vesselMap: map<string, Snapshot>)
    requires forall k :: k in vesselMap ==> RowsOf(seen, k) != [] && vesselMap[k] == Newest(host, RowsOf(seen, k))
    requires item.imo !in vesselMap ==> RowsOf(seen, item.imo) == []
    ensures forall k :: k in Stored(host, vesselMap, item) ==>
              RowsOf(seen + [item], k) != [] &&
              Stored(host, vesselMap, item)[k] == Newest(host, RowsOf(seen + [item], k))
  {
    forall k | k in Stored(host, vesselMap, item)
      ensures RowsOf(seen + [item], k) != [] &&
              Stored(host, vesselMap, item)[k] == Newest(host, RowsOf(seen + [item], k))
    {
      if k == item.imo {
        TrackRowsOfItem(host, seen, item, vesselMap);
      } else {
        TrackRowsOfOther(host, seen, item, vesselMap, k);
      }
    }
  }

  /** Another vessel's stored row and rows are untouched. */
  lemma TrackRowsOfOther(host: Host, seen: seq<Snapshot>, item: Snapshot, vesselMap: map<string, Snapshot>, k: string)
    requires k != item.imo && k in vesselMap
    requires RowsOf(seen, k) != [] && vesselMap[k] == Newest(host, RowsOf(seen, k))
    ensures k in Stored(host, vesselMap, item)
    ensures RowsOf(seen + [item], k) != [] && Stored(host, vesselMap, item)[k] == Newest(host, RowsOf(seen + [item], k))
  {
    RowsOfPush(seen, item, k);
    assert RowsOf(seen + [item], k) == RowsOf(seen, k);
  }

  /** The stored row of the new row's own vessel is that vessel's newest. */
  lemma TrackRowsOfItem(host: Host, seen: seq<Snapshot>, item: Snapshot, vesselMap: map<string, Snapshot>)
    requires item.imo in vesselMap ==>
               RowsOf(seen, item.imo) != [] && vesselMap[item.imo] == Newest(host, RowsOf(seen, item.imo))
    requires item.imo !in vesselMap ==> RowsOf(seen, item.imo) == []
    ensures RowsOf(seen + [item], item.imo) != []
    ensures Stored(host, vesselMap, item)[item.imo] == Newest(host, RowsOf(seen + [item], item.imo))
  {
    var rows := RowsOf(seen, item.imo);
    RowsOfPush(seen, item, item.imo);
    if item.imo in vesselMap {
      NewestSnoc(host, rows, item);
    } else {
      assert rows + [item] == [item];
    }
  }

  /** The `forEach` pass of `getLatestSnapshot`: per IMO number it keeps the
      row with the strictly greatest capture time seen so far; `imos` records
      the order in which keys were first set. */
  method TrackNewest(host: Host, data: seq<Snapshot>) returns (imos: seq<string>, vesselMap: map<string, Snapshot>)
    ensures imos == Imos(data)
    ensures forall k :: k in vesselMap <==> k in imos
    ensures forall k :: k in vesselMap ==> RowsOf(data, k) != [] && vesselMap[k] == Newest(host, RowsOf(data, k))
  {
    imos := [];
    vesselMap := map[];
    for i := 0 to |data|
      invariant Tracked(host, data[..i], imos, vesselMap)
    {
      TrackStep(host, data, i, imos, vesselMap);
      var item := data[i];
      if item.imo !in vesselMap || CaptureTime(host, item) > CaptureTime(host, vesselMap[item.imo]) {
        if item.imo !in vesselMap {
          imos := imos + [item.imo];
        }
        vesselMap := vesselMap[item.imo := item];
      }
    }
    assert data[..|data|] == data;
  }

  /** `getLatestSnapshot`: the tracked rows, listed in key insertion order
      (`Array.from(map.values())`). */
  method GetLatestSnapshot(host: Host, data: seq<Snapshot>) returns (latest: seq<Snapshot>)
    ensures latest == LatestPerVessel(host, data)
  {
    var imos, vesselMap := TrackNewest(host, data);
    latest := seq(|imos|, m requires 0 <= m < |imos| => vesselMap[imos[m]]);
    ListedValues(host, data, imos, vesselMap, latest);
  }

  /** The map's values listed in key order are the newest row of each vessel. */
  lemma ListedValues(host: Host, data: seq<Snapshot>, imos: seq<string>, vesselMap: map<string, Snapshot>,
                     latest: seq<Snapshot>)
    requires imos == Imos(data)
    requires forall k :: k in vesselMap <==> k in imos
    requires forall k :: k in vesselMap ==> RowsOf(data, k) != [] && vesselMap[k] == Newest(host, RowsOf(data, k))
    requires |latest| == |imos| && forall m :: 0 <= m < |imos| ==> latest[m] == vesselMap[imos[m]]
    ensures latest == LatestPerVessel(host, data)
  {
    var expected := LatestPerVessel(host, data);
    forall m | 0 <= m < |imos|
      ensures latest[m] == expected[m]
    {
      assert imos[m] in vesselMap;
    }
  }

  /** The earlier table's output: one row per vessel, vessels in first-seen
      order, each a feed row of its vessel that no other row of the vessel
      is newer than. */
  lemma LatestPerVesselShape(host: Host, data: seq<Snapshot>, j: nat)
    requires j < |Imos(data)|
    ensures |LatestPerVessel(host, data)| == |Imos(data)|
    ensures LatestPerVessel(host, data)[j] in data
    ensures LatestPerVessel(host, data)[j].imo == Imos(data)[j]
    ensures forall y :: y in RowsOf(data, Imos(data)[j]) ==>
              CaptureTime(host, y) <= CaptureTime(host, LatestPerVessel(host, data)[j])
  {
    ImosHaveRows(data);
    var rows := RowsOf(data, Imos(data)[j]);
    NewestIndexIsEarliestNewest(host, rows);
    forall y | y in rows
      ensures CaptureTime(host, y) <= CaptureTime(host, Newest(host, rows))
    {
      var m :| 0 <= m < |rows| && rows[m] == y;
    }
  }

  /** The first row captured at `t` is the first position with that time. */
  lemma {:induction false} CapturedAtFirst(host: Host, rows: seq<Snapshot>, i: nat, t: int)
    requires i < |rows| && CaptureTime(host, rows[i]) == t
    requires forall j :: 0 <= j < i ==> CaptureTime(host, rows[j]) != t
    ensures CapturedAt(host, rows, t) != [] && CapturedAt(host, rows, t)[0] == rows[i]
  {
    if i > 0 {
      CapturedAtFirst(host, rows[1..], i - 1, t);
    }
  }

  /** The stable newest-first sort puts in front exactly the row the earlier
      table's scan keeps: the earliest of the newest rows. */
  lemma SortHeadIsScanResult(host: Host, rows: seq<Snapshot>)
    requires rows != []
    ensures SortNewestFirst(host, rows) != [] && SortNewestFirst(host, rows)[0] == Newest(host, rows)
  {
    var sorted := SortNewestFirst(host, rows);
    var i := NewestIndex(host, rows);
    var t := CaptureTime(host, rows[i]);
    NewestIndexIsEarliestNewest(host, rows);
    SortedHeadIsNewest(host, rows);
    assert sorted[0] in multiset(rows);
    var m :| 0 <= m < |rows| && rows[m] == sorted[0];
    assert CaptureTime(host, sorted[0]) == t;
    CapturedAtFirst(host, sorted, 0, t);
    SortIsStable(host, rows, t);
    CapturedAtFirst(host, rows, i, t);
  }

  /** Both tables agree on which row is a vessel's latest: the row the current
      table marks as latest (with a positive `count`) is the row the earlier
      table shows for that vessel. */
  lemma TablesAgreeOnLatest(host: Host, data: seq<Snapshot>, count: int, index: nat)
    requires count > 0
    requires index < |Recent(host, data, count)|
    requires RowsOf(Recent(host, data, count), Recent(host, data, count)[index].imo) != []
    requires IsLatestSnapshot(Recent(host, data, count), Recent(host, data, count)[index], index)
    ensures RowsOf(data, Recent(host, data, count)[index].imo) != []
    ensures Recent(host, data, count)[index] == Newest(host, RowsOf(data, Recent(host, data, count)[index].imo))
  {
    var recent := Recent(host, data, count);
    var x := recent[index];
    LatestIsFirstOfVessel(recent, index);
    FirstOfRows(recent, x.imo);
    RecentPerVessel(host, data, count, x.imo);
    KeptBelongs(host, data, x.imo, count);
    assert x in RowsOf(recent, x.imo);
    var rows := RowsOf(data, x.imo);
    assert rows != [];
    SortHeadIsScanResult(host, rows);
  }
}
