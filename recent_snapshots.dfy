/** `getRecentSnapshots` of the current table: rows are grouped by vessel in
    a JavaScript `Map` (vessels in first-seen order), each group is sorted
    newest capture first by the engine's stable `Array.prototype.sort`, and
    the first `count` rows of each group are kept. */
module RecentSnapshots {
  import opened PilotageData
  import opened VesselGroups

  /** No row is newer than a row before it. */
  predicate NewestFirst(host: Host, rows: seq<Snapshot>)
  {
    forall i, j :: 0 <= i < j < |rows| ==> CaptureTime(host, rows[i]) >= CaptureTime(host, rows[j])
  }

  /** Places `x` in front of the first row that is no newer than it. */
  function Insert(host: Host, x: Snapshot, rows: seq<Snapshot>): (r: seq<Snapshot>)
    requires NewestFirst(host, rows)
    ensures NewestFirst(host, r)
    ensures forall y :: y in r ==> y == x || y in rows
    ensures multiset(r) == multiset(rows) + multiset{x}
  {
    if rows == [] || CaptureTime(host, rows[0]) <= CaptureTime(host, x) then [x] + rows
    else
      var tail := Insert(host, x, rows[1..]);
      TailNoNewerThanHead(host, x, rows, tail);
      assert rows == [rows[0]] + rows[1..];
      [rows[0]] + tail
  }

  /** Whatever the insertion leaves behind the first row is no newer than it. */
  lemma TailNoNewerThanHead(host: Host, x: Snapshot, rows: seq<Snapshot>, tail: seq<Snapshot>)
    requires NewestFirst(host, rows) && rows != []
    requires CaptureTime(host, x) < CaptureTime(host, rows[0])
    requires forall y :: y in tail ==> y == x || y in rows[1..]
    ensures forall j :: 0 <= j < |tail| ==> CaptureTime(host, tail[j]) <= CaptureTime(host, rows[0])
  {
    forall j | 0 <= j < |tail|
      ensures CaptureTime(host, tail[j]) <= CaptureTime(host, rows[0])
    {
      if tail[j] != x {
        assert tail[j] in tail;
        var m :| 0 <= m < |rows[1..]| && rows[1..][m] == tail[j];
        assert rows[m + 1] == tail[j];
      }
    }
  }

  /** `snapshots.sort((a, b) => time(b) - time(a))`: the engine's sort is
      stable, which an insertion sort that puts each row before the later rows
      of equal time reproduces. */
  function SortNewestFirst(host: Host, rows: seq<Snapshot>): (r: seq<Snapshot>)
    ensures NewestFirst(host, r)
    ensures multiset(r) == multiset(rows)
  {
    if rows == [] then []
    else
      assert rows == [rows[0]] + rows[1..];
      Insert(host, rows[0], SortNewestFirst(host, rows[1..]))
  }

  /** The rows captured at instant `t`, in their order. */
  function CapturedAt(host: Host, rows: seq<Snapshot>, t: int): seq<Snapshot>
  {
    if rows == [] then []
    else (if CaptureTime(host, rows[0]) == t then [rows[0]] else []) + CapturedAt(host, rows[1..], t)
  }

  lemma {:induction false} InsertKeepsTies(host: Host, x: Snapshot, rows: seq<Snapshot>, t: int)
    requires NewestFirst(host, rows)
    ensures CapturedAt(host, Insert(host, x, rows), t) ==
            (if CaptureTime(host, x) == t then [x] else []) + CapturedAt(host, rows, t)
  {
    var r := Insert(host, x, rows);
    if rows == [] || CaptureTime(host, rows[0]) <= CaptureTime(host, x) {
      assert r == [x] + rows;
      assert r[0] == x && r[1..] == rows;
    } else {
      var tail := Insert(host, x, rows[1..]);
      assert r == [rows[0]] + tail;
      assert r[0] == rows[0] && r[1..] == tail;
      InsertKeepsTies(host, x, rows[1..], t);
    }
  }

  /** Stability: rows captured at the same instant keep their feed order. */
  lemma {:induction false} SortIsStable(host: Host, rows: seq<Snapshot>, t: int)
    ensures CapturedAt(host, SortNewestFirst(host, rows), t) == CapturedAt(host, rows, t)
  {
    if rows != [] {
      SortIsStable(host, rows[1..], t);
      InsertKeepsTies(host, rows[0], SortNewestFirst(host, rows[1..]), t);
    }
  }

  /** `rows.slice(0, count)`: a non-negative count keeps at most `count`
      rows, a negative one drops that many rows from the end. */
  function SliceFromStart(rows: seq<Snapshot>, count: int): (r: seq<Snapshot>)
    ensures |r| <= |rows| && r == rows[..|r|]
    ensures 0 <= count ==> |r| == (if count < |rows| then count else |rows|)
    ensures count < 0 ==> |r| == (if |rows| + count > 0 then |rows| + count else 0)
  {
    if 0 <= count then
      if count < |rows| then rows[..count] else rows
    else
      if |rows| + count > 0 then rows[..|rows| + count] else []
  }

  /** The rows kept for one vessel: its newest `count`. */
  function Kept(host: Host, rows: seq<Snapshot>, count: int): seq<Snapshot>
  {
    SliceFromStart(SortNewestFirst(host, rows), count)
  }

  /** The kept rows of the vessels in `imos`, vessel after vessel. */
  function Blocks(host: Host, data: seq<Snapshot>, imos: seq<string>, count: int): seq<Snapshot>
  {
    if imos == [] then []
    else Blocks(host, data, imos[..|imos| - 1], count) + Kept(host, RowsOf(data, imos[|imos| - 1]), count)
  }

  /** What `getRecentSnapshots(data, count)` returns. */
  function Recent(host: Host, data: seq<Snapshot>, count: int): seq<Snapshot>
  {
    Blocks(host, data, Imos(data), count)
  }

  /** The map after the rows `seen`: its keys in insertion order are the
      vessels of those rows, and each key holds that vessel's rows. */
  ghost predicate Grouped(seen: seq<Snapshot>, imos: seq<string>, vesselMap: map<string, seq<Snapshot>>)
  {
    imos == Imos(seen) &&
    (forall k :: k in vesselMap <==> k in imos) &&
    (forall k :: k in vesselMap ==> vesselMap[k] == RowsOf(seen, k))
  }

  /** One `forEach` step: `get(imo) || []`, `push(item)`, `set(imo, …)`. */
  lemma GroupStep(data: seq<Snapshot>, i: nat, imos: seq<string>, vesselMap: map<string, seq<Snapshot>>)
    requires i < |data| && Grouped(data[..i], imos, vesselMap)
    ensures Grouped(data[..i + 1],
                    if data[i].imo in vesselMap then imos else imos + [data[i].imo],
                    vesselMap[data[i].imo := (if data[i].imo in vesselMap then vesselMap[data[i].imo] else []) + [data[i]]])
  {
    var seen, item := data[..i], data[i];
    PrefixSnoc(data, i);
    ImosSnoc(seen, item);
    ImosMembers(seen, item.imo);
    RowsOfSnoc(seen, item);
  }

  /** The first half of `getRecentSnapshots`: `data.forEach` fills the map
      row by row; `imos` records the order in which keys were first set. */
  method GroupByVessel(data: seq<Snapshot>) returns (imos: seq<string>, vesselMap: map<string, seq<Snapshot>>)
    ensures imos == Imos(data)
    ensures forall k :: k in vesselMap <==> k in imos
    ensures forall k :: k in vesselMap ==> vesselMap[k] == RowsOf(data, k)
  {
    imos := [];
    vesselMap := map[];
    for i := 0 to |data|
      invariant Grouped(data[..i], imos, vesselMap)
    {
      GroupStep(data, i, imos, vesselMap);
      var item := data[i];
      var snapshots := if item.imo in vesselMap then vesselMap[item.imo] else [];
      snapshots := snapshots + [item];
      if item.imo !in vesselMap {
        imos := imos + [item.imo];
      }
      vesselMap := vesselMap[item.imo := snapshots];
    }
    assert data[..|data|] == data;
  }

  /** `getRecentSnapshots`: groups the rows, then walks the map's keys in
      insertion order, sorting and slicing each group onto the result. */
  method GetRecentSnapshots(host: Host, data: seq<Snapshot>, count: int) returns (result: seq<Snapshot>)
    ensures result == Recent(host, data, count)
  {
    var imos, vesselMap := GroupByVessel(data);
    result := [];
    for j := 0 to |imos|
      invariant result == Blocks(host, data, imos[..j], count)
    {
      var sortedSnapshots := SortNewestFirst(host, vesselMap[imos[j]]);
      BlocksSnoc(host, data, imos, j, count);
      result := result + SliceFromStart(sortedSnapshots, count);
    }
    assert imos[..|imos|] == imos;
  }

  /** One more key adds that vessel's block at the end. */
  lemma BlocksSnoc(host: Host, data: seq<Snapshot>, imos: seq<string>, j: nat, count: int)
    requires j < |imos|
    ensures Blocks(host, data, imos[..j + 1], count) ==
            Blocks(host, data, imos[..j], count) + Kept(host, RowsOf(data, imos[j]), count)
  {
    assert imos[..j + 1][..j] == imos[..j];
  }

  /** Every kept row is a feed row of its vessel. */
  lemma KeptBelongs(host: Host, data: seq<Snapshot>, imo: string, count: int)
    ensures forall x :: x in Kept(host, RowsOf(data, imo), count) ==> x in data && x.imo == imo
  {
    var sorted := SortNewestFirst(host, RowsOf(data, imo));
    var kept := Kept(host, RowsOf(data, imo), count);
    forall x | x in kept
      ensures x in data && x.imo == imo
    {
      assert x in sorted;
      assert x in multiset(RowsOf(data, imo));
    }
  }

  /** Filtering the concatenated blocks for one vessel finds that vessel's
      block, or nothing when it is not among `imos`. */
  lemma {:induction false} BlocksOfVessel(host: Host, data: seq<Snapshot>, imos: seq<string>, count: int, k: string)
    requires forall i, j :: 0 <= i < j < |imos| ==> imos[i] != imos[j]
    ensures RowsOf(Blocks(host, data, imos, count), k) ==
            if k in imos then Kept(host, RowsOf(data, k), count) else []
  {
    if imos != [] {
      var init := imos[..|imos| - 1];
      var last := imos[|imos| - 1];
      assert imos == init + [last];
      BlocksOfVessel(host, data, init, count, k);
      var block := Kept(host, RowsOf(data, last), count);
      RowsOfAppend(Blocks(host, data, init, count), block, k);
      KeptBelongs(host, data, last, count);
      RowsOfUniform(block, last, k);
      assert last !in init;
    }
  }

  /** Per vessel, the result holds exactly the vessel's newest rows, newest
      first: a prefix of its rows sorted by capture time, of length
      `min(count, rows)` for a non-negative count. */
  lemma RecentPerVessel(host: Host, data: seq<Snapshot>, count: int, k: string)
    ensures RowsOf(Recent(host, data, count), k) == Kept(host, RowsOf(data, k), count)
    ensures NewestFirst(host, RowsOf(Recent(host, data, count), k))
    ensures 0 <= count ==>
      |RowsOf(Recent(host, data, count), k)| == (if count < |RowsOf(data, k)| then count else |RowsOf(data, k)|)
  {
    ImosDistinct(data);
    ImosMembers(data, k);
    BlocksOfVessel(host, data, Imos(data), count, k);
    var sorted := SortNewestFirst(host, RowsOf(data, k));
    assert |sorted| == |multiset(sorted)| == |RowsOf(data, k)|;
  }

  /** The result invents nothing: every row it shows is a feed row. */
  lemma RecentRowsComeFromData(host: Host, data: seq<Snapshot>, count: int)
    ensures forall x :: x in Recent(host, data, count) ==> x in data
  {
    var recent := Recent(host, data, count);
    forall x | x in recent
      ensures x in data
    {
      var i :| 0 <= i < |recent| && recent[i] == x;
      RowsOfHas(recent, i);
      RecentPerVessel(host, data, count, x.imo);
      KeptBelongs(host, data, x.imo, count);
    }
  }

  /** The first row of a sorted vessel group is its newest row. */
  lemma SortedHeadIsNewest(host: Host, rows: seq<Snapshot>)
    requires rows != []
    ensures SortNewestFirst(host, rows) != []
    ensures forall y :: y in rows ==> CaptureTime(host, y) <= CaptureTime(host, SortNewestFirst(host, rows)[0])
  {
    var sorted := SortNewestFirst(host, rows);
    assert rows[0] in multiset(sorted);
    forall y | y in rows
      ensures CaptureTime(host, y) <= CaptureTime(host, sorted[0])
    {
      assert y in multiset(sorted);
      var j :| 0 <= j < |sorted| && sorted[j] == y;
      if j > 0 {
        assert CaptureTime(host, sorted[0]) >= CaptureTime(host, sorted[j]);
      }
    }
  }

  /** The row `isLatestSnapshot` marks in the result is, for its vessel, the
      newest of all its feed rows. */
  lemma LatestIsNewest(host: Host, data: seq<Snapshot>, count: int, index: nat)
    requires index < |Recent(host, data, count)|
    ensures RowsOf(Recent(host, data, count), Recent(host, data, count)[index].imo) != []
    ensures IsLatestSnapshot(Recent(host, data, count), Recent(host, data, count)[index], index) ==>
      forall y :: y in RowsOf(data, Recent(host, data, count)[index].imo) ==>
        CaptureTime(host, y) <= CaptureTime(host, Recent(host, data, count)[index])
  {
    var recent := Recent(host, data, count);
    var x := recent[index];
    LatestIsFirstOfVessel(recent, index);
    if IsLatestSnapshot(recent, x, index) {
      FirstOfRows(recent, x.imo);
      RecentPerVessel(host, data, count, x.imo);
      KeptBelongs(host, data, x.imo, count);
      var rows := RowsOf(data, x.imo);
      assert x in RowsOf(recent, x.imo);
      assert rows != [];
      SortedHeadIsNewest(host, rows);
      assert x == SortNewestFirst(host, rows)[0];
    }
  }

  /** With a positive count every vessel keeps at least one row. */
  lemma KeptNotEmpty(host: Host, rows: seq<Snapshot>, count: int)
    requires rows != [] && count > 0
    ensures Kept(host, rows, count) != []
  {
    var sorted := SortNewestFirst(host, rows);
    assert |sorted| == |multiset(sorted)| == |rows|;
  }

  /** The blocks list the vessels of `imos` in that order. */
  lemma {:induction false} BlocksListVessels(host: Host, data: seq<Snapshot>, imos: seq<string>, count: int)
    requires count > 0
    requires forall i, j :: 0 <= i < j < |imos| ==> imos[i] != imos[j]
    requires forall k :: k in imos ==> RowsOf(data, k) != []
    ensures Imos(Blocks(host, data, imos, count)) == imos
  {
    if imos != [] {
      var init, last := imos[..|imos| - 1], imos[|imos| - 1];
      assert forall k :: k in init ==> k in imos;
      assert last in imos && last !in init;
      BlocksListVessels(host, data, init, count);
      BlockAddsVessel(host, data, Blocks(host, data, init, count), last, count);
      assert init + [last] == imos;
    }
  }

  /** Appending a vessel's block adds that vessel to the listed vessels. */
  lemma BlockAddsVessel(host: Host, data: seq<Snapshot>, front: seq<Snapshot>, k: string, count: int)
    requires count > 0 && RowsOf(data, k) != [] && k !in Imos(front)
    ensures Imos(front + Kept(host, RowsOf(data, k), count)) == Imos(front) + [k]
  {
    KeptNotEmpty(host, RowsOf(data, k), count);
    KeptBelongs(host, data, k, count);
    ImosAppendUniform(front, Kept(host, RowsOf(data, k), count), k);
  }

  /** With a positive count the result shows the vessels in the order their
      first row appears in the feed, each once. */
  lemma RecentKeepsVesselOrder(host: Host, data: seq<Snapshot>, count: int)
    requires count > 0
    ensures Imos(Recent(host, data, count)) == Imos(data)
  {
    ImosDistinct(data);
    ImosHaveRows(data);
    BlocksListVessels(host, data, Imos(data), count);
  }

  /** The table asks for the eight newest rows of each vessel. */
  const TableCount: int := 8

  /** So the table shows each vessel at most eight times, and every row of a
      vessel with eight rows or fewer. */
  lemma TableShowsEightPerVessel(host: Host, data: seq<Snapshot>, k: string)
    ensures |RowsOf(Recent(host, data, TableCount), k)| <= 8
    ensures |RowsOf(data, k)| <= 8 ==> |RowsOf(Recent(host, data, TableCount), k)| == |RowsOf(data, k)|
  {
    RecentPerVessel(host, data, TableCount, k);
  }
}
