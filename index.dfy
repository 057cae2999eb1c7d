/** services/index.py: the portfolio index as a plain ratio to a fixed base
    snapshot, scaled so that the base snapshot maps to `base`. */
module Index {
  import opened Results
  import opened Models
  import opened Storage

  const DefaultBase: real := 1000.0

  /** total / baseTotal * base: the index of a snapshot whose total value is
      `total` against a base snapshot whose total value is `baseTotal`. */
  function IndexValue(total: real, baseTotal: real, base: real): real
    requires baseTotal != 0.0
  {
    (total / baseTotal) * base
  }

  /** The base snapshot itself is worth exactly `base`. */
  lemma IndexOfBase(baseTotal: real, base: real)
    requires baseTotal != 0.0
    ensures IndexValue(baseTotal, baseTotal, base) == base
  {
  }

  /** Index values are proportional to total values: the ratio of two index
      values is the ratio of the two totals. */
  lemma IndexProportional(total1: real, total2: real, baseTotal: real, base: real)
    requires baseTotal != 0.0
    ensures IndexValue(total1, baseTotal, base) * total2 == IndexValue(total2, baseTotal, base) * total1
  {
  }

  /** With a positive base and base total, a higher total gives a higher index. */
  lemma IndexMonotone(total1: real, total2: real, baseTotal: real, base: real)
    requires baseTotal > 0.0 && base > 0.0 && total1 < total2
    ensures IndexValue(total1, baseTotal, base) < IndexValue(total2, baseTotal, base)
  {
  }

  /** The point calculate_and_save saves for `snapshot`, or None when there
      is no base snapshot or its total value is zero. */
  function Calculation(baseSnapshot: Option<PortfolioSnapshot>, snapshot: PortfolioSnapshot, base: real)
    : Option<PortfolioIndex>
  {
    match baseSnapshot
    case None => None
    case Some(b) =>
      if b.totalValue == 0.0 then None
      else Some(PortfolioIndex(snapshot.datetime, IndexValue(snapshot.totalValue, b.totalValue, base)))
  }

  /** The points backfill saves: one per snapshot, in order, each against
      the first snapshot of the list. */
  function Series(snapshots: seq<PortfolioSnapshot>, base: real): (points: seq<PortfolioIndex>)
    requires snapshots != [] && snapshots[0].totalValue != 0.0
    ensures |points| == |snapshots|
    ensures forall i :: 0 <= i < |points| ==> points[i].datetime == snapshots[i].datetime
    ensures points[0].indexValue == base
  {
    IndexOfBase(snapshots[0].totalValue, base);
    seq(|snapshots|, i requires 0 <= i < |snapshots| =>
      PortfolioIndex(snapshots[i].datetime, IndexValue(snapshots[i].totalValue, snapshots[0].totalValue, base)))
  }

  /** Any two backfilled points stand in the ratio of their snapshots' totals. */
  lemma SeriesProportional(snapshots: seq<PortfolioSnapshot>, base: real, i: int, j: int)
    requires snapshots != [] && snapshots[0].totalValue != 0.0
    requires 0 <= i < |snapshots| && 0 <= j < |snapshots|
    ensures Series(snapshots, base)[i].indexValue * snapshots[j].totalValue
         == Series(snapshots, base)[j].indexValue * snapshots[i].totalValue
  {
  }

  /** On a table that holds none of the snapshots' datetimes, backfilling an
      ascending snapshot list stores exactly one point per snapshot, in order. */
  lemma SeriesAllStored(rows: seq<PortfolioIndex>, snapshots: seq<PortfolioSnapshot>, base: real)
    requires snapshots != [] && snapshots[0].totalValue != 0.0
    requires Ascending(snapshots)
    requires forall s :: s in snapshots ==> !HasDatetime(rows, s.datetime)
    ensures Stored(rows, Series(snapshots, base)) == rows + Series(snapshots, base)
  {
    var points := Series(snapshots, base);
    forall i | 0 <= i < |points| ensures !HasDatetime(rows, points[i].datetime) {
      assert snapshots[i] in snapshots;
    }
    StoredFresh(rows, points);
  }

  /** Why backfill stops before saving anything. */
  datatype BackfillError =
    | IndexError         // no snapshots: snapshots[0] fails
    | ZeroDivisionError  // the first snapshot's total value is zero

  /** services/index.py: IndexService over the snapshot and index tables. */
  class IndexService {
    const snapshotStorage: OrderedStore
    const indexStorage: IndexStore
    const base: real

    constructor(snapshotStorage: OrderedStore, indexStorage: IndexStore, base: real := DefaultBase)
      ensures this.snapshotStorage == snapshotStorage
      ensures this.indexStorage == indexStorage
      ensures this.base == base
    {
      this.snapshotStorage := snapshotStorage;
      this.indexStorage := indexStorage;
      this.base := base;
    }

    /** The base snapshot, the snapshot table's get_first: None when no
        stored snapshot has a positive total, otherwise the earliest stored
        snapshot with a positive total. */
    function BaseSnapshot(): (r: Option<PortfolioSnapshot>)
      ensures r.None? <==> forall s :: s in snapshotStorage.rows ==> s.totalValue <= 0.0
      ensures r.Some? ==>
        && r.value in snapshotStorage.rows
        && r.value.totalValue > 0.0
        && forall s :: s in snapshotStorage.rows && s.totalValue > 0.0 ==> r.value.datetime <= s.datetime
    {
      GetFirstIsEarliestPositive(snapshotStorage);
      snapshotStorage.GetFirst()
    }

    /** Saves the index point of `snapshot` against the base snapshot and
        returns save's answer; returns false and saves nothing when there is
        no base snapshot or its total value is zero. */
    method CalculateAndSave(snapshot: PortfolioSnapshot) returns (ok: bool)
      modifies indexStorage
      ensures Calculation(BaseSnapshot(), snapshot, base).None? ==>
        !ok && indexStorage.rows == old(indexStorage.rows) && indexStorage.submitted == old(indexStorage.submitted)
      ensures Calculation(BaseSnapshot(), snapshot, base).Some? ==>
        var point := Calculation(BaseSnapshot(), snapshot, base).value;
        && ok == !HasDatetime(old(indexStorage.rows), point.datetime)
        && indexStorage.rows == (if ok then old(indexStorage.rows) + [point] else old(indexStorage.rows))
        && indexStorage.submitted == old(indexStorage.submitted) + [point]
    {
      var baseSnapshot := BaseSnapshot();
      if baseSnapshot.None? {
        return false;
      }
      if baseSnapshot.value.totalValue == 0.0 {
        return false;
      }
      var indexValue := (snapshot.totalValue / baseSnapshot.value.totalValue) * base;
      var index := PortfolioIndex(snapshot.datetime, indexValue);
      assert indexValue == IndexValue(snapshot.totalValue, baseSnapshot.value.totalValue, base);
      ok := indexStorage.Save(index);
    }

    /** Saves one point per stored snapshot, in datetime order, against the
        first snapshot; a rejected save does not stop the loop. */
    method Backfill() returns (outcome: Outcome<BackfillError>)
      modifies indexStorage
      ensures var snapshots := snapshotStorage.GetAllOrdered();
        if snapshots == [] then
          outcome == Fail(IndexError)
          && indexStorage.rows == old(indexStorage.rows) && indexStorage.submitted == old(indexStorage.submitted)
        else if snapshots[0].totalValue == 0.0 then
          outcome == Fail(ZeroDivisionError)
          && indexStorage.rows == old(indexStorage.rows) && indexStorage.submitted == old(indexStorage.submitted)
        else
          outcome == Pass
          && indexStorage.submitted == old(indexStorage.submitted) + Series(snapshots, base)
          && indexStorage.rows == Stored(old(indexStorage.rows), Series(snapshots, base))
      ensures var snapshots := snapshotStorage.GetAllOrdered();
        && snapshots != [] && snapshots[0].totalValue != 0.0
        && (forall s :: s in snapshots ==> !HasDatetime(old(indexStorage.rows), s.datetime))
        ==> indexStorage.rows == old(indexStorage.rows) + Series(snapshots, base)
    {
      var snapshots := snapshotStorage.GetAllOrdered();
      if snapshots == [] {
        return Fail(IndexError);
      }
      var baseSnapshot := snapshots[0];
      if baseSnapshot.totalValue == 0.0 {
        return Fail(ZeroDivisionError);
      }
      ghost var points := Series(snapshots, base);
      var i := 0;
      while i < |snapshots|
        invariant 0 <= i <= |snapshots|
        invariant indexStorage.submitted == old(indexStorage.submitted) + points[..i]
        invariant indexStorage.rows == Stored(old(indexStorage.rows), points[..i])
      {
        var snapshot := snapshots[i];
        var indexValue := (snapshot.totalValue / baseSnapshot.totalValue) * base;
        var index := PortfolioIndex(snapshot.datetime, indexValue);
        assert index == points[i];
        var _ := indexStorage.Save(index);
        assert points[..i + 1] == points[..i] + [index];
        assert points[..i + 1][..i] == points[..i];
        i := i + 1;
      }
      assert points[..i] == points;
      if forall s :: s in snapshots ==> !HasDatetime(old(indexStorage.rows), s.datetime) {
        SeriesAllStored(old(indexStorage.rows), snapshots, base);
      }
      outcome := Pass;
    }
  }
}
