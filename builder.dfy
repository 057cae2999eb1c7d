/** portfolio/builder.py: replays trades into a Portfolio as of a cutoff
    instant and values the result against a candle lookup. */
module Builder {
  import opened Results
  import opened Sums
  import opened Schemas
  import opened Models
  import opened Ledger

  /** The close of the candle stored for (ticker, datetime), if any. The
      candle store matches the datetime exactly. */
  type CandleLookup = (string, int) -> Option<real>

  // ---------------------------------------------------------------------
  // sorted(trades, key=lambda t: t.date): a stable sort on the trade date

  ghost predicate SortedByDate(s: seq<Trade>)
  {
    forall i, j :: 0 <= i < j < |s| ==> s[i].date <= s[j].date
  }

  /** Inserts t before the first element not dated earlier than t. */
  function InsertByDate(t: Trade, s: seq<Trade>): seq<Trade>
  {
    if s == [] || t.date <= s[0].date then [t] + s else [s[0]] + InsertByDate(t, s[1..])
  }

  lemma {:induction false} InsertByDatePermutes(t: Trade, s: seq<Trade>)
    ensures multiset(InsertByDate(t, s)) == multiset(s) + multiset{t}
    decreases |s|
  {
    if s != [] && t.date > s[0].date {
      assert s == [s[0]] + s[1..];
      InsertByDatePermutes(t, s[1..]);
    }
  }

  lemma SortedTail(s: seq<Trade>)
    requires s != [] && SortedByDate(s)
    ensures SortedByDate(s[1..])
    ensures forall x :: x in s[1..] ==> s[0].date <= x.date
  {
    forall i, j | 0 <= i < j < |s[1..]| ensures s[1..][i].date <= s[1..][j].date {
      assert s[1..][i] == s[i + 1] && s[1..][j] == s[j + 1];
    }
    forall x | x in s[1..] ensures s[0].date <= x.date {
      var j :| 0 <= j < |s[1..]| && s[1..][j] == x;
      assert s[j + 1] == x;
    }
  }

  /** A list is sorted when its head is no later than anything in its
      sorted tail. */
  lemma SortedCons(x: Trade, s: seq<Trade>)
    requires SortedByDate(s)
    requires forall y :: y in s ==> x.date <= y.date
    ensures SortedByDate([x] + s)
  {
    var r := [x] + s;
    forall i, j | 0 <= i < j < |r| ensures r[i].date <= r[j].date {
      assert r[j] == s[j - 1];
      if i > 0 {
        assert r[i] == s[i - 1];
      }
    }
  }

  lemma {:induction false} InsertByDateSorted(t: Trade, s: seq<Trade>)
    requires SortedByDate(s)
    ensures SortedByDate(InsertByDate(t, s))
    decreases |s|
  {
    if s == [] || t.date <= s[0].date {
      if s != [] {
        SortedTail(s);
      }
      SortedCons(t, s);
    } else {
      var rest := InsertByDate(t, s[1..]);
      SortedTail(s);
      InsertByDateSorted(t, s[1..]);
      InsertByDatePermutes(t, s[1..]);
      forall x | x in rest ensures s[0].date <= x.date {
        assert x in multiset(rest);
        assert x == t || x in multiset(s[1..]);
      }
      SortedCons(s[0], rest);
    }
  }

  /** The trades ordered by date; trades of one date keep their order. */
  function SortByDate(ts: seq<Trade>): (r: seq<Trade>)
    ensures SortedByDate(r)
    ensures multiset(r) == multiset(ts)
  {
    if ts == [] then [] else
      var rest := SortByDate(ts[1..]);
      InsertByDatePermutes(ts[0], rest);
      InsertByDateSorted(ts[0], rest);
      assert ts == [ts[0]] + ts[1..];
      InsertByDate(ts[0], rest)
  }

  /** The trades of one date, in order. */
  function OnDate(s: seq<Trade>, d: int): seq<Trade>
  {
    if s == [] then [] else (if s[0].date == d then [s[0]] else []) + OnDate(s[1..], d)
  }

  lemma {:induction false} InsertStable(t: Trade, s: seq<Trade>, d: int)
    requires SortedByDate(s)
    ensures OnDate(InsertByDate(t, s), d) == if t.date == d then [t] + OnDate(s, d) else OnDate(s, d)
    decreases |s|
  {
    if s == [] || t.date <= s[0].date {
      assert ([t] + s)[1..] == s;
    } else {
      var rest := InsertByDate(t, s[1..]);
      assert ([s[0]] + rest)[1..] == rest;
      InsertStable(t, s[1..], d);
    }
  }

  /** Sorting is stable: for every date, the trades of that date come out
      in the order they went in. */
  lemma {:induction false} SortStable(ts: seq<Trade>, d: int)
    ensures OnDate(SortByDate(ts), d) == OnDate(ts, d)
    decreases |ts|
  {
    if ts != [] {
      SortStable(ts[1..], d);
      InsertStable(ts[0], SortByDate(ts[1..]), d);
    }
  }

  // ---------------------------------------------------------------------
  // the cutoff

  /** The trades dated on or before day c, in order. */
  function OnOrBefore(s: seq<Trade>, c: int): seq<Trade>
  {
    if s == [] then [] else (if s[0].date <= c then [s[0]] else []) + OnOrBefore(s[1..], c)
  }

  lemma {:induction false} OnOrBeforeConcat(a: seq<Trade>, b: seq<Trade>, c: int)
    ensures OnOrBefore(a + b, c) == OnOrBefore(a, c) + OnOrBefore(b, c)
    decreases |a|
  {
    if a == [] {
      assert a + b == b;
    } else {
      assert (a + b)[1..] == a[1..] + b;
      OnOrBeforeConcat(a[1..], b, c);
    }
  }

  lemma {:induction false} OnOrBeforeCount(s: seq<Trade>, c: int, x: Trade)
    ensures multiset(OnOrBefore(s, c))[x] == if x.date <= c then multiset(s)[x] else 0
    decreases |s|
  {
    if s != [] {
      assert s == [s[0]] + s[1..];
      OnOrBeforeCount(s[1..], c, x);
    }
  }

  /** Which trades pass the cutoff depends only on which trades there are. */
  lemma OnOrBeforePermutation(s1: seq<Trade>, s2: seq<Trade>, c: int)
    requires multiset(s1) == multiset(s2)
    ensures multiset(OnOrBefore(s1, c)) == multiset(OnOrBefore(s2, c))
  {
    forall x | true ensures multiset(OnOrBefore(s1, c))[x] == multiset(OnOrBefore(s2, c))[x] {
      OnOrBeforeCount(s1, c, x);
      OnOrBeforeCount(s2, c, x);
    }
  }

  lemma {:induction false} AllAfterCutoff(s: seq<Trade>, c: int)
    requires forall i :: 0 <= i < |s| ==> s[i].date > c
    ensures OnOrBefore(s, c) == []
    decreases |s|
  {
    if s != [] {
      AllAfterCutoff(s[1..], c);
    }
  }

  /** One more trade of the sorted list, dated on or before the cutoff, is
      one more step of the replay. */
  lemma ExtendPrefix(sorted: seq<Trade>, i: int, c: int)
    requires 0 <= i < |sorted| && sorted[i].date <= c
    requires OnOrBefore(sorted[..i], c) == sorted[..i]
    ensures Replay(EmptyBook, sorted[..i + 1]) == Apply(Replay(EmptyBook, sorted[..i]), sorted[i])
    ensures OnOrBefore(sorted[..i + 1], c) == sorted[..i + 1]
  {
    assert sorted[..i + 1][..i] == sorted[..i];
    assert sorted[..i + 1] == sorted[..i] + [sorted[i]];
    OnOrBeforeConcat(sorted[..i], [sorted[i]], c);
  }

  /** In a date-sorted list, stopping at the first trade after the cutoff
      keeps exactly the trades on or before it: the break is a filter. */
  lemma BreakIsCutoff(sorted: seq<Trade>, i: int, c: int)
    requires SortedByDate(sorted) && 0 <= i <= |sorted|
    requires OnOrBefore(sorted[..i], c) == sorted[..i]
    requires i < |sorted| ==> sorted[i].date > c
    ensures OnOrBefore(sorted, c) == sorted[..i]
  {
    if i < |sorted| {
      AllAfterCutoff(sorted[i..], c);
    } else {
      AllAfterCutoff([], c);
    }
    OnOrBeforeConcat(sorted[..i], sorted[i..], c);
    assert sorted[..i] + sorted[i..] == sorted;
  }

  /** The ledger build(trades, at) produces: the date-sorted trades dated on
      or before at's calendar date, applied in order to an empty ledger. */
  function Built(trades: seq<Trade>, at: int): Book
  {
    Replay(EmptyBook, OnOrBefore(SortByDate(trades), DateOf(at)))
  }

  // ---------------------------------------------------------------------
  // valuation

  /** What one position adds to the total: nothing when it is flat or has no
      candle, otherwise quantity times close (negative for a short). */
  function PositionValue(pos: Position, close: Option<real>): real
  {
    if pos.quantity == 0 then 0.0
    else match close
      case None => 0.0
      case Some(c) => pos.quantity as real * c
  }

  /** Value contributed by each ticker of a position map at instant at. */
  function WorthOf(positions: map<string, Position>, candles: CandleLookup, at: int): string -> real
  {
    (k: string) => if k in positions then PositionValue(positions[k], candles(k, at)) else 0.0
  }

  /** The sum valuate computes, over the positions in iteration order. */
  function MarketValue(b: Book, candles: CandleLookup, at: int): real
  {
    SumReal(b.tickers, WorthOf(b.positions, candles, at))
  }

  /** The total_value of snapshot(trades, at). */
  function SnapshotValue(candles: CandleLookup, trades: seq<Trade>, at: int): real
  {
    MarketValue(Built(trades, at), candles, at)
  }

  // ---------------------------------------------------------------------
  // properties

  /** Sorting before the cutoff does not change which trades are replayed. */
  lemma CutoffOfSorted(trades: seq<Trade>, c: int)
    ensures multiset(OnOrBefore(SortByDate(trades), c)) == multiset(OnOrBefore(trades, c))
  {
    OnOrBeforePermutation(SortByDate(trades), trades, c);
  }

  /** What build holds for each ticker: a position exactly when some trade of
      that ticker is dated on or before at's date, with quantity equal to
      those trades' BUY quantities less their SELL quantities and cash flow
      equal to the cash they moved, whatever order the trades were listed in. */
  lemma BuiltHoldings(trades: seq<Trade>, at: int, k: string)
    ensures WellFormed(Built(trades, at))
    ensures var eligible := OnOrBefore(trades, DateOf(at));
      && (k in Built(trades, at).positions <==> k in TickersOf(eligible))
      && Held(Built(trades, at), k) == Bought(eligible, k) - Sold(eligible, k)
      && Invested(Built(trades, at), k) == NetCashFlow(eligible, k)
  {
    var c := DateOf(at);
    var replayed, eligible := OnOrBefore(SortByDate(trades), c), OnOrBefore(trades, c);
    CutoffOfSorted(trades, c);
    ReplayKeys(EmptyBook, replayed);
    SameTickers(replayed, eligible);
    ReplayTotals(EmptyBook, replayed, k);
    SumIntPermutation(replayed, eligible, BoughtOf(k));
    SumIntPermutation(replayed, eligible, SoldOf(k));
    SumRealPermutation(replayed, eligible, CashOf(k));
  }

  /** The built positions depend only on which trades pass the cutoff. */
  lemma BuiltDependsOnEligible(trades1: seq<Trade>, trades2: seq<Trade>, at: int)
    requires multiset(OnOrBefore(trades1, DateOf(at))) == multiset(OnOrBefore(trades2, DateOf(at)))
    ensures Built(trades1, at).positions == Built(trades2, at).positions
  {
    CutoffOfSorted(trades1, DateOf(at));
    CutoffOfSorted(trades2, DateOf(at));
    ReplayOrderIndependent(OnOrBefore(SortByDate(trades1), DateOf(at)), OnOrBefore(SortByDate(trades2), DateOf(at)));
  }

  /** A trade dated after at's calendar date has no effect on build. */
  lemma BuildExcludesLater(trades: seq<Trade>, t: Trade, at: int)
    requires t.date > DateOf(at)
    ensures Built(trades + [t], at).positions == Built(trades, at).positions
  {
    OnOrBeforeConcat(trades, [t], DateOf(at));
    assert OnOrBefore([t], DateOf(at)) == [];
    assert OnOrBefore(trades + [t], DateOf(at)) == OnOrBefore(trades, DateOf(at));
    BuiltDependsOnEligible(trades + [t], trades, at);
  }

  /** A trade dated on or before at's calendar date (the same day included)
      is applied by build. */
  lemma BuildIncludesOnOrBefore(trades: seq<Trade>, t: Trade, at: int)
    requires t.date <= DateOf(at)
    ensures Built(trades + [t], at).positions == Apply(Built(trades, at), t).positions
  {
    var c := DateOf(at);
    var s := OnOrBefore(SortByDate(trades), c);
    assert (s + [t])[..|s + [t]| - 1] == s;
    assert Replay(EmptyBook, s + [t]) == Apply(Built(trades, at), t);
    OnOrBeforeConcat(trades, [t], c);
    assert OnOrBefore([t], c) == [t];
    CutoffOfSorted(trades, c);
    CutoffOfSorted(trades + [t], c);
    ReplayOrderIndependent(s + [t], OnOrBefore(SortByDate(trades + [t]), c));
  }

  /** A position that is flat or has no candle adds nothing to the value:
      removing it from the ledger leaves the value unchanged. */
  lemma ValueSkipsUnpriced(b: Book, candles: CandleLookup, at: int, k: string)
    requires WellFormed(b) && k in b.positions
    requires b.positions[k].quantity == 0 || candles(k, at).None?
    ensures MarketValue(b, candles, at)
         == MarketValue(Book(b.positions - {k}, Without(b.tickers, k)), candles, at)
  {
    var f, g := WorthOf(b.positions, candles, at), WorthOf(b.positions - {k}, candles, at);
    assert f(k) == PositionValue(b.positions[k], candles(k, at)) == 0.0;
    forall y | y in b.tickers && y != k ensures f(y) == g(y) {
      assert y in b.positions;
    }
    SumRealSkip(b.tickers, f, g, k);
  }

  /** The value does not depend on the order the positions are visited in. */
  lemma ValueOrderFree(b1: Book, b2: Book, candles: CandleLookup, at: int)
    requires WellFormed(b1) && WellFormed(b2)
    requires b1.positions == b2.positions
    ensures MarketValue(b1, candles, at) == MarketValue(b2, candles, at)
  {
    DistinctPermutation(b1.tickers, b2.tickers);
    SumRealPermutation(b1.tickers, b2.tickers, WorthOf(b1.positions, candles, at));
  }

  /** The snapshot value is the same for any order of the same trades. */
  lemma SnapshotOrderFree(candles: CandleLookup, trades1: seq<Trade>, trades2: seq<Trade>, at: int)
    requires multiset(trades1) == multiset(trades2)
    ensures SnapshotValue(candles, trades1, at) == SnapshotValue(candles, trades2, at)
  {
    OnOrBeforePermutation(trades1, trades2, DateOf(at));
    BuiltDependsOnEligible(trades1, trades2, at);
    ReplayKeys(EmptyBook, OnOrBefore(SortByDate(trades1), DateOf(at)));
    ReplayKeys(EmptyBook, OnOrBefore(SortByDate(trades2), DateOf(at)));
    ValueOrderFree(Built(trades1, at), Built(trades2, at), candles, at);
  }

  /** portfolio/builder.py: PortfolioBuilder over a candle lookup. */
  class PortfolioBuilder {
    const candles: CandleLookup

    constructor(candles: CandleLookup)
      ensures this.candles == candles
    {
      this.candles := candles;
    }

    /** Replays the date-sorted trades into a fresh portfolio, stopping at the
        first trade dated after at's calendar date. */
    method Build(trades: seq<Trade>, at: int) returns (portfolio: Portfolio)
      ensures fresh(portfolio) && portfolio.Valid()
      ensures portfolio.Ledger() == Built(trades, at)
      ensures portfolio.cash == 0.0
    {
      portfolio := new Portfolio();
      var sorted := SortByDate(trades);
      var cutoff := DateOf(at);
      var i := 0;
      while i < |sorted|
        invariant 0 <= i <= |sorted|
        invariant fresh(portfolio) && portfolio.Valid() && portfolio.cash == 0.0
        invariant portfolio.Ledger() == Replay(EmptyBook, sorted[..i])
        invariant OnOrBefore(sorted[..i], cutoff) == sorted[..i]
      {
        var trade := sorted[i];
        if trade.date > cutoff {
          break;
        }
        portfolio.ApplyTrade(trade);
        ExtendPrefix(sorted, i, cutoff);
        i := i + 1;
      }
      BreakIsCutoff(sorted, i, cutoff);
    }

    /** Sums quantity times close over the positions, skipping flat ones and
        those without a candle at `at`. */
    method Valuate(portfolio: Portfolio, at: int) returns (total: real)
      requires portfolio.Valid()
      ensures total == MarketValue(portfolio.Ledger(), candles, at)
    {
      var worth := WorthOf(portfolio.positions, candles, at);
      total := 0.0;
      var i := 0;
      while i < |portfolio.tickers|
        invariant 0 <= i <= |portfolio.tickers|
        invariant total == SumReal(portfolio.tickers[..i], worth)
      {
        var k := portfolio.tickers[i];
        var pos := portfolio.positions[k];
        assert pos.ticker == k;
        assert worth(k) == PositionValue(pos, candles(k, at));
        SumRealConcat(portfolio.tickers[..i], [k], worth);
        assert portfolio.tickers[..i + 1] == portfolio.tickers[..i] + [k];
        i := i + 1;
        if pos.quantity == 0 {
          continue;
        }
        var candle := candles(pos.ticker, at);
        if candle.None? {
          continue;
        }
        total := total + pos.quantity as real * candle.value;
      }
      assert portfolio.tickers[..i] == portfolio.tickers;
    }

    /** Builds the portfolio as of `at` and values it at `at`. */
    method Snapshot(trades: seq<Trade>, at: int) returns (snapshot: PortfolioSnapshot)
      ensures snapshot.datetime == at
      ensures snapshot.totalValue == SnapshotValue(candles, trades, at)
    {
      var portfolio := Build(trades, at);
      var value := Valuate(portfolio, at);
      snapshot := PortfolioSnapshot(at, value);
    }
  }
}
