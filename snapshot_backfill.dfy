/** services/portfolio_snapshot_backfill.py: takes one portfolio snapshot
    per step from `start`, with the trades fetched once.

    Datetimes and durations are whole microseconds. The source divides two
    durations as floats and truncates the quotient with int(); the model
    divides exactly and truncates toward zero. */
module SnapshotBackfill {
  import opened Results
  import opened Schemas

  /** One call the backfill makes on the snapshot service. */
  datatype Event =
    | Fetched                                   // fetch_trades
    | Snapshotted(at: int, trades: seq<Trade>)  // take_snapshot(at, trades)

  /** The snapshot service as the backfill sees it: its trade sheet, and
      whether take_snapshot stores the snapshot it takes (it does not when
      the datetime is already stored). The backfill reads the trades through
      the service's `sheets` client; that client's fetch_trades is merged
      into this class so that one log orders the fetch before the snapshots. */
  class SnapshotService {
    const trades: seq<Trade>
    const accepts: (int, seq<Trade>) -> bool
    /** Every call made on this service, oldest first. */
    var log: seq<Event>

    constructor(trades: seq<Trade>, accepts: (int, seq<Trade>) -> bool)
      ensures this.trades == trades && this.accepts == accepts
      ensures log == []
    {
      this.trades := trades;
      this.accepts := accepts;
      log := [];
    }

    /** Reads the trade sheet: `sheets.fetch_trades()` of the service. */
    method FetchTrades() returns (ts: seq<Trade>)
      modifies this
      ensures ts == trades
      ensures log == old(log) + [Fetched]
    {
      ts := trades;
      log := log + [Fetched];
    }

    /** Takes the snapshot at `at` over `ts`; says whether it was stored. */
    method TakeSnapshot(at: int, ts: seq<Trade>) returns (ok: bool)
      modifies this
      ensures ok == accepts(at, ts)
      ensures log == old(log) + [Snapshotted(at, ts)]
    {
      ok := accepts(at, ts);
      log := log + [Snapshotted(at, ts)];
    }
  }

  function Abs(x: int): nat
  {
    if x < 0 then -x else x
  }

  /** a / b rounded toward zero, as int() rounds a quotient. */
  function TruncDiv(a: int, b: int): (q: int)
    requires b != 0
    ensures Abs(q) * Abs(b) <= Abs(a) < (Abs(q) + 1) * Abs(b)
    ensures q > 0 ==> (a > 0 <==> b > 0)
    ensures q < 0 ==> (a > 0 <==> b < 0)
  {
    var m := Abs(a) / Abs(b);
    DivBounds(Abs(a), Abs(b), m);
    var q := if (a < 0) == (b < 0) then m else -m;
    TruncBounds(a, b, m, q);
    q
  }

  /** The Euclidean quotient m = x / y of a natural by a positive number
      satisfies m * y <= x < m * y + y, and it is positive only when x is. */
  lemma DivBounds(x: int, y: int, m: int)
    requires x >= 0 && y > 0 && m == x / y
    ensures m >= 0 && m * y <= x < m * y + y
    ensures m > 0 ==> x > 0
  {
    assert x == m * y + x % y;
  }

  /** Giving the quotient m of the magnitudes the sign of a / b meets
      TruncDiv's contract. */
  lemma TruncBounds(a: int, b: int, m: int, q: int)
    requires b != 0 && m >= 0 && m * Abs(b) <= Abs(a) < m * Abs(b) + Abs(b)
    requires (a < 0) == (b < 0) ==> q == m
    requires (a < 0) != (b < 0) ==> q == -m
    ensures Abs(q) * Abs(b) <= Abs(a) < (Abs(q) + 1) * Abs(b)
    ensures q > 0 ==> (a > 0 <==> b > 0)
    ensures q < 0 ==> (a > 0 <==> b < 0)
  {
    var r := Abs(q);
    assert r == m;
    assert (r + 1) * Abs(b) == r * Abs(b) + Abs(b);
  }

  /** The number of loop rounds, range(int((end - start) / step) + 1); a
      non-positive count runs no round. */
  function StepCount(start: int, end: int, step: int): nat
    requires step != 0
  {
    var n := TruncDiv(end - start, step) + 1;
    if n > 0 then n else 0
  }

  /** The take_snapshot calls of n rounds: the k-th at start + k * step,
      each over the same trades. */
  function Schedule(start: int, step: int, n: nat, trades: seq<Trade>): (events: seq<Event>)
    ensures |events| == n
    ensures forall k :: 0 <= k < n ==> events[k] == Snapshotted(start + k * step, trades)
  {
    if n == 0 then []
    else Schedule(start, step, n - 1, trades) + [Snapshotted(start + (n - 1) * step, trades)]
  }

  /** With end == start exactly one snapshot is taken, at start. */
  lemma SingleWhenEmptyRange(start: int, step: int, trades: seq<Trade>)
    requires step != 0
    ensures StepCount(start, start, step) == 1
    ensures Schedule(start, step, StepCount(start, start, step), trades) == [Snapshotted(start, trades)]
  {
  }

  /** Going forward over a non-empty range, the rounds are
      (end - start) / step + 1, every snapshot is at or before end, and the
      last one is less than a step before end. */
  lemma ForwardWithinRange(start: int, end: int, step: int, trades: seq<Trade>)
    requires step > 0 && start <= end
    ensures var n := StepCount(start, end, step);
      && n == (end - start) / step + 1
      && (forall k :: 0 <= k < n ==> Schedule(start, step, n, trades)[k].at <= end)
      && Schedule(start, step, n, trades)[n - 1].at > end - step
  {
    var n := StepCount(start, end, step);
    var q := TruncDiv(end - start, step);
    assert q == (end - start) / step by {
      LowerUpper(end - start, step, q);
    }
    forall k | 0 <= k < n ensures start + k * step <= end {
      MulMonotone(k, q, step);
    }
  }

  /** Going backward, one snapshot is taken, at start, when end lies less
      than a step before start, and none when it lies further back. */
  lemma BackwardRange(start: int, end: int, step: int)
    requires step > 0 && end < start
    ensures StepCount(start, end, step) == if start - end < step then 1 else 0
  {
  }

  /** With a positive step the snapshot datetimes strictly increase. */
  lemma ScheduleIncreasing(start: int, step: int, n: nat, trades: seq<Trade>, i: int, j: int)
    requires step > 0 && 0 <= i < j < n
    ensures Schedule(start, step, n, trades)[i].at < Schedule(start, step, n, trades)[j].at
  {
  }

  /** A non-negative quotient pinned between q*b and (q+1)*b is the
      Euclidean quotient. */
  lemma LowerUpper(a: int, b: int, q: int)
    requires b > 0 && 0 <= q * b <= a < (q + 1) * b
    ensures q == a / b
  {
    var r := a / b;
    assert r * b <= a < (r + 1) * b;
    if q < r {
      MulMonotone(q + 1, r, b);
    } else if r < q {
      MulMonotone(r + 1, q, b);
    }
  }

  lemma MulMonotone(x: int, y: int, m: int)
    requires x <= y && m >= 0
    ensures x * m <= y * m
  {
  }

  datatype BackfillError = ZeroDivisionError  // a zero step

  /** services/portfolio_snapshot_backfill.py: PortfolioSnapshotBackfillService. */
  class SnapshotBackfillService {
    const snapshotService: SnapshotService

    constructor(snapshotService: SnapshotService)
      ensures this.snapshotService == snapshotService
    {
      this.snapshotService := snapshotService;
    }

    /** Fetches the trades once, then takes StepCount snapshots at start,
        start + step, ..., whatever each take_snapshot answers. A zero step
        fails after the fetch, before any snapshot. */
    method Backfill(start: int, end: int, step: int) returns (outcome: Outcome<BackfillError>)
      modifies snapshotService
      ensures step == 0 ==>
        outcome == Fail(ZeroDivisionError) && snapshotService.log == old(snapshotService.log) + [Fetched]
      ensures step != 0 ==>
        && outcome == Pass
        && snapshotService.log == old(snapshotService.log) + [Fetched]
             + Schedule(start, step, StepCount(start, end, step), snapshotService.trades)
    {
      var trades := snapshotService.FetchTrades();
      if step == 0 {
        return Fail(ZeroDivisionError);
      }
      var totalSteps := TruncDiv(end - start, step) + 1;
      var t := start;
      var k := 0;
      while k < totalSteps
        invariant 0 <= k <= StepCount(start, end, step)
        invariant t == start + k * step
        invariant snapshotService.log == old(snapshotService.log) + [Fetched] + Schedule(start, step, k, trades)
      {
        var _ := snapshotService.TakeSnapshot(t, trades);
        t := t + step;
        k := k + 1;
      }
      outcome := Pass;
    }
  }
}
