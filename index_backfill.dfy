/** services/index_backfil.py: rebuilds the index from the stored snapshots,
    against the first snapshot whose total value is positive.

    The service it drives offers `base`, `calculate` and `save`. The index
    service of services/index.py defines none of the latter two, so the
    collaborator is modelled here with `calculate` left as an arbitrary
    function and `save` recorded in a call log. */
module IndexBackfill {
  import opened Results
  import opened Models
  import opened Storage

  /** One call the backfill makes on the index service. */
  datatype Call =
    | CalculateCall(snapshot: PortfolioSnapshot, reference: PortfolioSnapshot)
    | SaveCall(snapshot: PortfolioSnapshot, value: real)

  /** The index service as the backfill sees it. */
  class IndexWriter {
    const base: real
    const calculate: (PortfolioSnapshot, PortfolioSnapshot) -> real
    /** Every call made on this service, oldest first. */
    var log: seq<Call>

    constructor(base: real, calculate: (PortfolioSnapshot, PortfolioSnapshot) -> real)
      ensures this.base == base && this.calculate == calculate
      ensures log == []
    {
      this.base := base;
      this.calculate := calculate;
      log := [];
    }

    /** The index value of `snapshot` measured against `reference`. */
    method Calculate(snapshot: PortfolioSnapshot, reference: PortfolioSnapshot) returns (value: real)
      modifies this
      ensures value == calculate(snapshot, reference)
      ensures log == old(log) + [CalculateCall(snapshot, reference)]
    {
      value := calculate(snapshot, reference);
      log := log + [CalculateCall(snapshot, reference)];
    }

    /** Stores `value` as the index point of `snapshot`. */
    method Save(snapshot: PortfolioSnapshot, value: real)
      modifies this
      ensures log == old(log) + [SaveCall(snapshot, value)]
    {
      log := log + [SaveCall(snapshot, value)];
    }
  }

  /** The snapshots strictly after datetime d, in list order. */
  function After(s: seq<PortfolioSnapshot>, d: int): (r: seq<PortfolioSnapshot>)
    ensures |r| <= |s|
    ensures forall x :: x in r <==> x in s && x.datetime > d
  {
    if s == [] then []
    else if s[0].datetime > d then [s[0]] + After(s[1..], d)
    else After(s[1..], d)
  }

  /** On a list in ascending datetime order whose first k snapshots are not
      after d and whose remaining ones are, the snapshots after d are the
      last |s| - k. */
  lemma {:induction false} AfterSuffix(s: seq<PortfolioSnapshot>, d: int, k: nat)
    requires k <= |s|
    requires forall j :: 0 <= j < k ==> s[j].datetime <= d
    requires forall j :: k <= j < |s| ==> s[j].datetime > d
    ensures After(s, d) == s[k..]
    decreases |s|
  {
    if s != [] {
      if k == 0 {
        AfterSuffix(s[1..], d, 0);
        assert s == [s[0]] + s[1..];
      } else {
        AfterSuffix(s[1..], d, k - 1);
        assert s[1..][k - 1..] == s[k..];
      }
    }
  }

  /** The calls the loop makes for the snapshots `ps`: for each, one
      calculation against `reference` and one save of its result. */
  function Steps(ps: seq<PortfolioSnapshot>, reference: PortfolioSnapshot,
                 calculate: (PortfolioSnapshot, PortfolioSnapshot) -> real): (calls: seq<Call>)
    ensures |calls| == 2 * |ps|
    decreases |ps|
  {
    if ps == [] then []
    else
      var last := ps[|ps| - 1];
      Steps(ps[..|ps| - 1], reference, calculate)
        + [CalculateCall(last, reference), SaveCall(last, calculate(last, reference))]
  }

  /** The snapshots handed to save, in call order. */
  function Saved(calls: seq<Call>): seq<PortfolioSnapshot>
    decreases |calls|
  {
    if calls == [] then []
    else
      var last := calls[|calls| - 1];
      Saved(calls[..|calls| - 1]) + (if last.SaveCall? then [last.snapshot] else [])
  }

  lemma {:induction false} SavedConcat(a: seq<Call>, b: seq<Call>)
    ensures Saved(a + b) == Saved(a) + Saved(b)
    decreases |b|
  {
    if b != [] {
      var n := |b| - 1;
      var tail := if b[n].SaveCall? then [b[n].snapshot] else [];
      assert (a + b)[..|a + b| - 1] == a + b[..n];
      assert (a + b)[|a + b| - 1] == b[n];
      SavedConcat(a, b[..n]);
      assert Saved(a + b) == Saved(a + b[..n]) + tail;
    } else {
      assert a + b == a;
    }
  }

  /** The loop saves each processed snapshot exactly once, in order. */
  lemma {:induction false} StepsSaved(ps: seq<PortfolioSnapshot>, reference: PortfolioSnapshot,
                                       calculate: (PortfolioSnapshot, PortfolioSnapshot) -> real)
    ensures Saved(Steps(ps, reference, calculate)) == ps
    decreases |ps|
  {
    if ps != [] {
      var n := |ps| - 1;
      var last := ps[n];
      StepsSaved(ps[..n], reference, calculate);
      SavedConcat(Steps(ps[..n], reference, calculate),
                  [CalculateCall(last, reference), SaveCall(last, calculate(last, reference))]);
      var pair := [CalculateCall(last, reference), SaveCall(last, calculate(last, reference))];
      assert pair[..1] == [CalculateCall(last, reference)];
      assert Saved(pair[..1]) == Saved([]) + [];
      assert ps == ps[..n] + [last];
    }
  }

  /** Every calculation in the loop is made against the reference snapshot,
      and every saved value is that calculation's result. */
  lemma {:induction false} StepsAgainstReference(ps: seq<PortfolioSnapshot>, reference: PortfolioSnapshot,
                                                  calculate: (PortfolioSnapshot, PortfolioSnapshot) -> real)
    ensures forall c :: c in Steps(ps, reference, calculate) && c.CalculateCall? ==> c.reference == reference
    ensures forall c :: c in Steps(ps, reference, calculate) && c.SaveCall? ==>
      c.value == calculate(c.snapshot, reference)
    decreases |ps|
  {
    if ps != [] {
      StepsAgainstReference(ps[..|ps| - 1], reference, calculate);
    }
  }

  /** The calls backfill makes on a snapshot list, or None when no snapshot
      has a positive total value (the source raises before any call). */
  function Emitted(snapshots: seq<PortfolioSnapshot>, base: real,
                   calculate: (PortfolioSnapshot, PortfolioSnapshot) -> real): Option<seq<Call>>
  {
    match FirstPositive(snapshots)
    case None => None
    case Some(b) => Some([SaveCall(b, base)] + Steps(After(snapshots, b.datetime), b, calculate))
  }

  /** Backfill fails exactly when no snapshot has a positive total value. */
  lemma EmittedFails(snapshots: seq<PortfolioSnapshot>, base: real,
                     calculate: (PortfolioSnapshot, PortfolioSnapshot) -> real)
    ensures Emitted(snapshots, base, calculate).None? <==> forall s :: s in snapshots ==> s.totalValue <= 0.0
  {
    var i := FirstPositiveIndex(snapshots);
    if i == |snapshots| {
      forall s | s in snapshots ensures s.totalValue <= 0.0 {
        var j :| 0 <= j < |snapshots| && snapshots[j] == s;
      }
    }
  }

  /** When backfill succeeds, its first call saves the base snapshot at the
      service's base value, it then saves exactly the snapshots after the
      base, in list order (1 + that many saves in all), each valued against
      the base snapshot. */
  lemma EmittedSaves(snapshots: seq<PortfolioSnapshot>, base: real,
                     calculate: (PortfolioSnapshot, PortfolioSnapshot) -> real)
    requires Emitted(snapshots, base, calculate).Some?
    ensures var b := FirstPositive(snapshots).value;
      var calls := Emitted(snapshots, base, calculate).value;
      && b.totalValue > 0.0
      && calls[0] == SaveCall(b, base)
      && Saved(calls) == [b] + After(snapshots, b.datetime)
      && |Saved(calls)| == 1 + |After(snapshots, b.datetime)|
      && (forall c :: c in calls && c.CalculateCall? ==> c.reference == b)
      && (forall c :: c in calls[1..] && c.SaveCall? ==> c.value == calculate(c.snapshot, b))
  {
    var b := FirstPositive(snapshots).value;
    var steps := Steps(After(snapshots, b.datetime), b, calculate);
    var calls := [SaveCall(b, base)] + steps;
    SavedConcat([SaveCall(b, base)], steps);
    assert Saved([SaveCall(b, base)]) == Saved([]) + [b];
    StepsSaved(After(snapshots, b.datetime), b, calculate);
    StepsAgainstReference(After(snapshots, b.datetime), b, calculate);
    assert calls[1..] == steps;
  }

  /** On a list in ascending datetime order (the order get_all_ordered
      returns), backfill saves exactly the snapshots from the base on; the
      ones before it, whose totals are not positive, are never saved. */
  lemma EmittedFromBase(snapshots: seq<PortfolioSnapshot>, base: real,
                        calculate: (PortfolioSnapshot, PortfolioSnapshot) -> real)
    requires Ascending(snapshots)
    requires Emitted(snapshots, base, calculate).Some?
    ensures var i := FirstPositiveIndex(snapshots);
      var saved := Saved(Emitted(snapshots, base, calculate).value);
      && saved == snapshots[i..]
      && forall j :: 0 <= j < i ==> snapshots[j].totalValue <= 0.0 && snapshots[j] !in saved
  {
    var i := FirstPositiveIndex(snapshots);
    var b := snapshots[i];
    EmittedSaves(snapshots, base, calculate);
    AfterSuffix(snapshots, b.datetime, i + 1);
    assert snapshots[i..] == [b] + snapshots[i + 1..];
    forall j, m | 0 <= j < i <= m < |snapshots| ensures snapshots[m] != snapshots[j] {
      assert snapshots[j].datetime < snapshots[m].datetime;
    }
  }

  datatype BackfillError = NoValidBase  // the source raises RuntimeError

  /** services/index_backfil.py: IndexBackfillService. */
  class IndexBackfillService {
    const snapshotStorage: OrderedStore
    const indexService: IndexWriter

    constructor(snapshotStorage: OrderedStore, indexService: IndexWriter)
      ensures this.snapshotStorage == snapshotStorage && this.indexService == indexService
    {
      this.snapshotStorage := snapshotStorage;
      this.indexService := indexService;
    }

    /** Saves the base snapshot at the base value, then the index of every
        later snapshot against the base; fails, calling nothing, when no
        snapshot has a positive total value. */
    method Backfill() returns (outcome: Outcome<BackfillError>)
      modifies indexService
      ensures var emitted := Emitted(snapshotStorage.GetAllOrdered(), indexService.base, indexService.calculate);
        match emitted
        case None => outcome == Fail(NoValidBase) && indexService.log == old(indexService.log)
        case Some(calls) => outcome == Pass && indexService.log == old(indexService.log) + calls
      ensures var rows := snapshotStorage.GetAllOrdered();
        outcome.Pass? ==> Saved(indexService.log[|old(indexService.log)|..]) == rows[FirstPositiveIndex(rows)..]
    {
      var snapshots := snapshotStorage.GetAllOrdered();
      var baseSnapshot := FirstPositive(snapshots);
      if baseSnapshot.None? {
        return Fail(NoValidBase);
      }
      var b := baseSnapshot.value;
      indexService.Save(b, indexService.base);
      var toProcess := After(snapshots, b.datetime);
      var i := 0;
      while i < |toProcess|
        invariant 0 <= i <= |toProcess|
        invariant indexService.log
          == old(indexService.log) + [SaveCall(b, indexService.base)] + Steps(toProcess[..i], b, indexService.calculate)
      {
        var snapshot := toProcess[i];
        var indexValue := indexService.Calculate(snapshot, b);
        indexService.Save(snapshot, indexValue);
        assert toProcess[..i + 1][..i] == toProcess[..i];
        i := i + 1;
      }
      assert toProcess[..i] == toProcess;
      EmittedFromBase(snapshots, indexService.base, indexService.calculate);
      assert indexService.log[|old(indexService.log)|..]
          == Emitted(snapshots, indexService.base, indexService.calculate).value;
      outcome := Pass;
    }
  }
}
