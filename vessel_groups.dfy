/** Grouping rows by vessel: the rows of one IMO number, the IMO numbers in
    the order they are first seen, and the first position of a vessel. */
module VesselGroups {
  import opened PilotageData

  /** `rows.filter(d => d.pilotage_imo === imo)`, in row order. */
  function RowsOf(rows: seq<Snapshot>, imo: string): (r: seq<Snapshot>)
    ensures |r| <= |rows|
    ensures forall x :: x in r ==> x in rows && x.imo == imo
  {
    if rows == [] then []
    else (if rows[0].imo == imo then [rows[0]] else []) + RowsOf(rows[1..], imo)
  }

  /** Every row is in its own vessel's filter. */
  lemma {:induction false} RowsOfHas(rows: seq<Snapshot>, i: nat)
    requires i < |rows|
    ensures rows[i] in RowsOf(rows, rows[i].imo)
  {
    if i > 0 {
      RowsOfHas(rows[1..], i - 1);
      assert rows[1..][i - 1] == rows[i];
    }
  }

  /** Filtering distributes over concatenation. */
  lemma {:induction false} RowsOfAppend(a: seq<Snapshot>, b: seq<Snapshot>, imo: string)
    ensures RowsOf(a + b, imo) == RowsOf(a, imo) + RowsOf(b, imo)
  {
    if a == [] {
      assert a + b == b;
    } else {
      assert (a + b)[1..] == a[1..] + b;
      RowsOfAppend(a[1..], b, imo);
    }
  }

  /** The first `i + 1` rows are the first `i` rows and row `i`. */
  lemma PrefixSnoc(rows: seq<Snapshot>, i: nat)
    requires i < |rows|
    ensures rows[..i + 1] == rows[..i] + [rows[i]]
  {
  }

  /** Appending one row adds it to the filter of its own vessel ... */
  lemma RowsOfPush(rows: seq<Snapshot>, last: Snapshot, imo: string)
    ensures RowsOf(rows + [last], imo) == RowsOf(rows, imo) + (if last.imo == imo then [last] else [])
  {
    RowsOfAppend(rows, [last], imo);
    assert [last][1..] == [];
  }

  /** ... and of no other vessel. */
  lemma RowsOfSnoc(rows: seq<Snapshot>, last: Snapshot)
    ensures forall imo :: RowsOf(rows + [last], imo) ==
                          RowsOf(rows, imo) + (if last.imo == imo then [last] else [])
  {
    forall imo
      ensures RowsOf(rows + [last], imo) == RowsOf(rows, imo) + (if last.imo == imo then [last] else [])
    {
      RowsOfPush(rows, last, imo);
    }
  }

  /** A sequence all of whose rows belong to `imo` is its own filter, and
      filtering it for another vessel leaves nothing. */
  lemma {:induction false} RowsOfUniform(rows: seq<Snapshot>, imo: string, other: string)
    requires forall x :: x in rows ==> x.imo == imo
    ensures RowsOf(rows, imo) == rows
    ensures other != imo ==> RowsOf(rows, other) == []
  {
    if rows != [] {
      assert rows[0] in rows;
      assert forall x :: x in rows[1..] ==> x in rows;
      RowsOfUniform(rows[1..], imo, other);
      assert [rows[0]] + rows[1..] == rows;
    }
  }

  /** The keys of a JavaScript `Map` filled row by row with `map.set(imo, …)`:
      every vessel once, in the order its first row appears. */
  function Imos(rows: seq<Snapshot>): seq<string>
  {
    if rows == [] then []
    else
      var init := rows[..|rows| - 1];
      var last := rows[|rows| - 1];
      var r := Imos(init);
      if last.imo in r then r else r + [last.imo]
  }

  /** Appending a row adds its vessel to the keys when it is new. */
  lemma ImosSnoc(rows: seq<Snapshot>, last: Snapshot)
    ensures Imos(rows + [last]) == if last.imo in Imos(rows) then Imos(rows) else Imos(rows) + [last.imo]
  {
    assert (rows + [last])[..|rows|] == rows;
  }

  /** The keys are exactly the vessels that have a row. */
  lemma {:induction false} ImosMembers(rows: seq<Snapshot>, k: string)
    ensures k in Imos(rows) <==> RowsOf(rows, k) != []
  {
    if rows != [] {
      var init := rows[..|rows| - 1];
      var last := rows[|rows| - 1];
      assert rows == init + [last];
      ImosMembers(init, k);
      RowsOfAppend(init, [last], k);
      assert [last][1..] == [];
    }
  }

  /** Every vessel listed in the keys has rows. */
  lemma ImosHaveRows(data: seq<Snapshot>)
    ensures forall k :: k in Imos(data) ==> RowsOf(data, k) != []
  {
    forall k | k in Imos(data)
      ensures RowsOf(data, k) != []
    {
      ImosMembers(data, k);
    }
  }

  /** No vessel is listed twice. */
  lemma {:induction false} ImosDistinct(rows: seq<Snapshot>)
    ensures forall i, j :: 0 <= i < j < |Imos(rows)| ==> Imos(rows)[i] != Imos(rows)[j]
  {
    if rows != [] {
      ImosDistinct(rows[..|rows| - 1]);
    }
  }

  /** Appending rows of one vessel not yet listed adds that vessel once. */
  lemma {:induction false} ImosAppendUniform(a: seq<Snapshot>, b: seq<Snapshot>, k: string)
    requires b != [] && forall x :: x in b ==> x.imo == k
    requires k !in Imos(a)
    ensures Imos(a + b) == Imos(a) + [k]
    decreases |b|
  {
    var init, last := b[..|b| - 1], b[|b| - 1];
    assert last in b;
    assert a + b == (a + init) + [last];
    if init == [] {
      assert a + init == a;
      ImosSnoc(a, last);
    } else {
      assert forall x :: x in init ==> x in b;
      ImosAppendUniform(a, init, k);
      ImosSnoc(a + init, last);
    }
  }

  /** The position of the first row of `imo`, or `|rows|` when there is none. */
  function FirstIndex(rows: seq<Snapshot>, imo: string): (i: nat)
    ensures i <= |rows|
    ensures i < |rows| ==> rows[i].imo == imo
    ensures forall j :: 0 <= j < i ==> rows[j].imo != imo
  {
    if rows == [] then 0
    else if rows[0].imo == imo then 0
    else 1 + FirstIndex(rows[1..], imo)
  }

  /** The first element of a vessel's filter is its first row. */
  lemma {:induction false} FirstOfRows(rows: seq<Snapshot>, imo: string)
    requires FirstIndex(rows, imo) < |rows|
    ensures RowsOf(rows, imo) != [] && RowsOf(rows, imo)[0] == rows[FirstIndex(rows, imo)]
  {
    if rows[0].imo != imo {
      FirstOfRows(rows[1..], imo);
    }
  }

  /** `rows.indexOf(x)`: the first position holding `x`, or -1. */
  function IndexOf(rows: seq<Snapshot>, x: Snapshot): (i: int)
    ensures -1 <= i < |rows|
    ensures i == -1 <==> x !in rows
    ensures 0 <= i ==> rows[i] == x && forall j :: 0 <= j < i ==> rows[j] != x
  {
    if rows == [] then -1
    else if rows[0] == x then 0
    else
      var i := IndexOf(rows[1..], x);
      if i == -1 then -1 else i + 1
  }

  /** `isLatestSnapshot(item, index)` of the current table: the vessel's first
      row in `shown` is looked up with `filter(…)[0]`, and `item` is marked when
      it has that row's capture string and `index` is where that row stands. */
  function IsLatestSnapshot(shown: seq<Snapshot>, item: Snapshot, index: int): (b: bool)
    requires RowsOf(shown, item.imo) != []
    ensures b ==> 0 <= index < |shown| && shown[index].imo == item.imo
  {
    var latest := RowsOf(shown, item.imo)[0];
    item.snapshotTime == latest.snapshotTime && index == IndexOf(shown, latest)
  }

  /** Each row the table renders is marked exactly when it is the first row of
      its vessel (no earlier row has its IMO number), so every vessel shown has
      exactly one marked row. */
  lemma {:induction false} LatestIsFirstOfVessel(shown: seq<Snapshot>, index: nat)
    requires index < |shown|
    ensures RowsOf(shown, shown[index].imo) != []
    ensures IsLatestSnapshot(shown, shown[index], index) <==> index == FirstIndex(shown, shown[index].imo)
    ensures IsLatestSnapshot(shown, shown[index], index) <==>
              forall j :: 0 <= j < index ==> shown[j].imo != shown[index].imo
  {
    var imo := shown[index].imo;
    var f := FirstIndex(shown, imo);
    assert f <= index;
    FirstOfRows(shown, imo);
    var latest := RowsOf(shown, imo)[0];
    var at := IndexOf(shown, latest);
    assert at <= f;
    assert shown[at].imo == imo;
  }
}
