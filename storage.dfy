/** The two tables the index services read and write, reduced to what the
    services observe (storage/portfolio_snapshot_storage.py and
    storage/portfolio_index_storage.py). Sessions, commits and rollbacks
    are not modelled. */
module Storage {
  import opened Results
  import opened Models

  /** Index of the first snapshot with a positive total value, |s| if none. */
  function FirstPositiveIndex(s: seq<PortfolioSnapshot>): (i: nat)
    ensures i <= |s|
    ensures forall j :: 0 <= j < i ==> s[j].totalValue <= 0.0
    ensures i < |s| ==> s[i].totalValue > 0.0
  {
    if s == [] then 0
    else if s[0].totalValue > 0.0 then 0
    else 1 + FirstPositiveIndex(s[1..])
  }

  /** The first snapshot, in list order, whose total value is positive. */
  function FirstPositive(s: seq<PortfolioSnapshot>): Option<PortfolioSnapshot>
  {
    var i := FirstPositiveIndex(s);
    if i < |s| then Some(s[i]) else None
  }

  /** Snapshot datetimes strictly increase along the list. */
  ghost predicate Ascending(s: seq<PortfolioSnapshot>)
  {
    forall i, j :: 0 <= i < j < |s| ==> s[i].datetime < s[j].datetime
  }

  /** The snapshot table. Its key is the datetime, and rows are kept in
      ascending datetime order, the order of `get_all_ordered`. */
  datatype SnapshotStore = SnapshotStore(rows: seq<PortfolioSnapshot>)
  {
    ghost predicate Valid()
    {
      Ascending(rows)
    }

    /** All snapshots, by ascending datetime. */
    function GetAllOrdered(): seq<PortfolioSnapshot>
    {
      rows
    }

    /** The earliest snapshot whose total value is positive. */
    function GetFirst(): Option<PortfolioSnapshot>
    {
      FirstPositive(rows)
    }
  }

  /** A snapshot table as the database returns it: ordered by its datetime
      key, so datetimes strictly increase. */
  type OrderedStore = s: SnapshotStore | s.Valid() witness SnapshotStore([])

  /** get_first answers None exactly when no snapshot has a positive total,
      and otherwise the earliest snapshot with a positive total. */
  lemma GetFirstIsEarliestPositive(store: SnapshotStore)
    requires store.Valid()
    ensures store.GetFirst().None? <==> forall s :: s in store.rows ==> s.totalValue <= 0.0
    ensures store.GetFirst().Some? ==>
      && store.GetFirst().value in store.rows
      && store.GetFirst().value.totalValue > 0.0
      && forall s :: s in store.rows && s.totalValue > 0.0 ==> store.GetFirst().value.datetime <= s.datetime
  {
    var rows := store.rows;
    var i := FirstPositiveIndex(rows);
    if i == |rows| {
      forall s | s in rows ensures s.totalValue <= 0.0 {
        var j :| 0 <= j < |rows| && rows[j] == s;
      }
    } else {
      forall s | s in rows && s.totalValue > 0.0 ensures rows[i].datetime <= s.datetime {
        var j :| 0 <= j < |rows| && rows[j] == s;
        assert i <= j;
      }
    }
  }

  /** Some stored point has datetime d. */
  predicate HasDatetime(rows: seq<PortfolioIndex>, d: int)
  {
    exists i | 0 <= i < |rows| :: rows[i].datetime == d
  }

  /** The table after saving the points in order: a point whose datetime is
      already stored is rejected and the table is left as it was. */
  function Stored(rows: seq<PortfolioIndex>, points: seq<PortfolioIndex>): seq<PortfolioIndex>
    decreases |points|
  {
    if points == [] then rows
    else
      var before := Stored(rows, points[..|points| - 1]);
      var p := points[|points| - 1];
      if HasDatetime(before, p.datetime) then before else before + [p]
  }

  /** Points with new and pairwise distinct datetimes are all stored, in order. */
  lemma {:induction false} StoredFresh(rows: seq<PortfolioIndex>, points: seq<PortfolioIndex>)
    requires forall i, j :: 0 <= i < j < |points| ==> points[i].datetime != points[j].datetime
    requires forall i :: 0 <= i < |points| ==> !HasDatetime(rows, points[i].datetime)
    ensures Stored(rows, points) == rows + points
    decreases |points|
  {
    if points != [] {
      var n := |points| - 1;
      var init, p := points[..n], points[n];
      StoredFresh(rows, init);
      assert points == init + [p];
      forall i | 0 <= i < |rows + init| ensures (rows + init)[i].datetime != p.datetime {
        if i < |rows| {
          assert (rows + init)[i] == rows[i];
        } else {
          assert (rows + init)[i] == points[i - |rows|];
        }
      }
    }
  }

  /** The portfolio index table. `submitted` records every point handed to
      `save`, accepted or not. */
  class IndexStore {
    var rows: seq<PortfolioIndex>
    ghost var submitted: seq<PortfolioIndex>

    constructor()
      ensures rows == [] && submitted == []
    {
      rows := [];
      submitted := [];
    }

    /** Inserts the point unless its datetime is already stored (the key
        violation the source catches); says whether it was inserted. */
    method Save(index: PortfolioIndex) returns (ok: bool)
      modifies this
      ensures ok == !HasDatetime(old(rows), index.datetime)
      ensures rows == if ok then old(rows) + [index] else old(rows)
      ensures submitted == old(submitted) + [index]
    {
      ok := !HasDatetime(rows, index.datetime);
      if ok {
        rows := rows + [index];
      }
      submitted := submitted + [index];
    }
  }
}
