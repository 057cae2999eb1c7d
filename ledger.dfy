/** portfolio/position.py and portfolio/portfolio.py: the position ledger.

    The ledger maps a ticker to its Position. Python dictionaries keep
    insertion order, and the valuation loop iterates in that order, so the
    ledger also records the tickers in the order they were first traded. */
module Ledger {
  import opened Schemas
  import opened Sums

  /** The holding of one ticker: signed quantity (negative is a short) and
      the net cash invested, fees included (buys negative, sells positive). */
  datatype Position = Position(ticker: string, quantity: int, cashFlow: real)

  /** The abstract value of a Portfolio's positions: the map and its key order. */
  datatype Book = Book(positions: map<string, Position>, tickers: seq<string>)

  const EmptyBook: Book := Book(map[], [])

  /** Every key is listed once in `tickers`, and each Position carries its key. */
  ghost predicate WellFormed(b: Book)
  {
    && Distinct(b.tickers)
    && (forall k :: k in b.positions <==> k in b.tickers)
    && (forall k :: k in b.positions ==> b.positions[k].ticker == k)
  }

  /** Quantity held of ticker k, 0 when the ledger has no position for it. */
  function Held(b: Book, k: string): int
  {
    if k in b.positions then b.positions[k].quantity else 0
  }

  /** Net cash invested in ticker k, 0.0 when the ledger has no position for it. */
  function Invested(b: Book, k: string): real
  {
    if k in b.positions then b.positions[k].cashFlow else 0.0
  }

  /** The cash a trade moves: a buy pays price * quantity plus the fee, a sell
      receives price * quantity less the fee. */
  function CashFlowDelta(t: Trade): real
  {
    match t.operation
    case Buy => -(t.price * t.quantity as real + t.fee)
    case Sell => t.price * t.quantity as real - t.fee
  }

  /** Portfolio.apply_trade on the abstract value: find or open the ticker's
      position, then add (BUY) or subtract (SELL) the trade quantity and move
      the cash. Holdings are not checked, so a sell may go short. */
  function Apply(b: Book, t: Trade): (r: Book)
    ensures WellFormed(b) ==> WellFormed(r)
    ensures r.positions.Keys == b.positions.Keys + {t.ticker}
    ensures r.tickers == if t.ticker in b.positions then b.tickers else b.tickers + [t.ticker]
    ensures forall k :: k in b.positions && k != t.ticker ==> r.positions[k] == b.positions[k]
    ensures t.operation == Buy ==> Held(r, t.ticker) == Held(b, t.ticker) + t.quantity
    ensures t.operation == Sell ==> Held(r, t.ticker) == Held(b, t.ticker) - t.quantity
    ensures Invested(r, t.ticker) == Invested(b, t.ticker) + CashFlowDelta(t)
  {
    var found := t.ticker in b.positions;
    var pos := if found then b.positions[t.ticker] else Position(t.ticker, 0, 0.0);
    var tickers := if found then b.tickers else b.tickers + [t.ticker];
    var updated :=
      match t.operation
      case Buy =>
        pos.(quantity := pos.quantity + t.quantity,
             cashFlow := pos.cashFlow - (t.price * t.quantity as real + t.fee))
      case Sell =>
        pos.(quantity := pos.quantity - t.quantity,
             cashFlow := pos.cashFlow + (t.price * t.quantity as real - t.fee));
    Book(b.positions[t.ticker := updated], tickers)
  }

  /** Applies the trades to the ledger one after another, first to last. */
  function Replay(b: Book, ts: seq<Trade>): Book
    decreases |ts|
  {
    if ts == [] then b else Apply(Replay(b, ts[..|ts| - 1]), ts[|ts| - 1])
  }

  /** The tickers that appear in a trade list. */
  function TickersOf(ts: seq<Trade>): set<string>
  {
    set t | t in ts :: t.ticker
  }

  /** Contribution of one trade to the bought quantity of ticker k. */
  function BoughtOf(k: string): Trade -> int
  {
    (t: Trade) => if t.ticker == k && t.operation == Buy then t.quantity else 0
  }

  /** Contribution of one trade to the sold quantity of ticker k. */
  function SoldOf(k: string): Trade -> int
  {
    (t: Trade) => if t.ticker == k && t.operation == Sell then t.quantity else 0
  }

  /** Contribution of one trade to the cash invested in ticker k. */
  function CashOf(k: string): Trade -> real
  {
    (t: Trade) => if t.ticker == k then CashFlowDelta(t) else 0.0
  }

  /** Total BUY quantity of ticker k in a trade list. */
  function Bought(ts: seq<Trade>, k: string): int
  {
    SumInt(ts, BoughtOf(k))
  }

  /** Total SELL quantity of ticker k in a trade list. */
  function Sold(ts: seq<Trade>, k: string): int
  {
    SumInt(ts, SoldOf(k))
  }

  /** Total cash moved by the trades of ticker k in a trade list. */
  function NetCashFlow(ts: seq<Trade>, k: string): real
  {
    SumReal(ts, CashOf(k))
  }

  lemma SplitLast(ts: seq<Trade>)
    requires ts != []
    ensures ts == ts[..|ts| - 1] + [ts[|ts| - 1]]
  {
  }

  /** Replaying keeps the ledger well formed, and it holds exactly the
      tickers it held before plus those traded. */
  lemma {:induction false} ReplayKeys(b: Book, ts: seq<Trade>)
    requires WellFormed(b)
    ensures WellFormed(Replay(b, ts))
    ensures Replay(b, ts).positions.Keys == b.positions.Keys + TickersOf(ts)
    decreases |ts|
  {
    if ts != [] {
      var init := ts[..|ts| - 1];
      SplitLast(ts);
      ReplayKeys(b, init);
      assert TickersOf(ts) == TickersOf(init) + {ts[|ts| - 1].ticker};
    }
  }

  /** After replaying a trade list, each ticker's quantity has grown by its
      BUY quantities less its SELL quantities, and its cash flow by the cash
      its trades moved. */
  lemma {:induction false} ReplayTotals(b: Book, ts: seq<Trade>, k: string)
    ensures Held(Replay(b, ts), k) == Held(b, k) + Bought(ts, k) - Sold(ts, k)
    ensures Invested(Replay(b, ts), k) == Invested(b, k) + NetCashFlow(ts, k)
    decreases |ts|
  {
    if ts != [] {
      var init, last := ts[..|ts| - 1], ts[|ts| - 1];
      SplitLast(ts);
      ReplayTotals(b, init, k);
      SumIntConcat(init, [last], BoughtOf(k));
      SumIntConcat(init, [last], SoldOf(k));
      SumRealConcat(init, [last], CashOf(k));
      assert SumInt([last], BoughtOf(k)) == BoughtOf(k)(last);
      assert SumInt([last], SoldOf(k)) == SoldOf(k)(last);
      assert SumReal([last], CashOf(k)) == CashOf(k)(last);
    }
  }

  /** Two trade lists with the same trades name the same tickers. */
  lemma SameTickers(ts1: seq<Trade>, ts2: seq<Trade>)
    requires multiset(ts1) == multiset(ts2)
    ensures TickersOf(ts1) == TickersOf(ts2)
  {
    forall t | t in ts1 ensures t in ts2 {
      assert t in multiset(ts1);
    }
    forall t | t in ts2 ensures t in ts1 {
      assert t in multiset(ts2);
    }
  }

  /** The positions a replay from an empty ledger produces depend only on
      which trades were replayed, not on their order. */
  lemma ReplayOrderIndependent(ts1: seq<Trade>, ts2: seq<Trade>)
    requires multiset(ts1) == multiset(ts2)
    ensures Replay(EmptyBook, ts1).positions == Replay(EmptyBook, ts2).positions
  {
    var b1, b2 := Replay(EmptyBook, ts1), Replay(EmptyBook, ts2);
    ReplayKeys(EmptyBook, ts1);
    ReplayKeys(EmptyBook, ts2);
    SameTickers(ts1, ts2);
    forall k | true
      ensures Held(b1, k) == Held(b2, k) && Invested(b1, k) == Invested(b2, k)
    {
      SamePosition(ts1, ts2, k);
    }
    SameEntries(b1, b2);
  }

  /** Two well-formed ledgers with the same tickers, quantities and cash flows
      hold the same positions. */
  lemma SameEntries(b1: Book, b2: Book)
    requires WellFormed(b1) && WellFormed(b2)
    requires b1.positions.Keys == b2.positions.Keys
    requires forall k :: Held(b1, k) == Held(b2, k) && Invested(b1, k) == Invested(b2, k)
    ensures b1.positions == b2.positions
  {
    forall k | k in b1.positions
      ensures b1.positions[k] == b2.positions[k]
    {
      assert Held(b1, k) == Held(b2, k) && Invested(b1, k) == Invested(b2, k);
    }
  }

  lemma SamePosition(ts1: seq<Trade>, ts2: seq<Trade>, k: string)
    requires multiset(ts1) == multiset(ts2)
    ensures Held(Replay(EmptyBook, ts1), k) == Held(Replay(EmptyBook, ts2), k)
    ensures Invested(Replay(EmptyBook, ts1), k) == Invested(Replay(EmptyBook, ts2), k)
  {
    ReplayTotals(EmptyBook, ts1, k);
    ReplayTotals(EmptyBook, ts2, k);
    SumIntPermutation(ts1, ts2, BoughtOf(k));
    SumIntPermutation(ts1, ts2, SoldOf(k));
    SumRealPermutation(ts1, ts2, CashOf(k));
  }

  /** portfolio/portfolio.py: the ledger object that trade replay mutates. */
  class Portfolio {
    var positions: map<string, Position>
    /** The keys of `positions` in insertion order (the dictionary's order). */
    var tickers: seq<string>
    var cash: real

    ghost predicate Valid()
      reads this
    {
      WellFormed(Book(positions, tickers))
    }

    function Ledger(): Book
      reads this
    {
      Book(positions, tickers)
    }

    /** A fresh portfolio holds no positions and no cash. */
    constructor()
      ensures Valid()
      ensures Ledger() == EmptyBook && cash == 0.0
    {
      positions := map[];
      tickers := [];
      cash := 0.0;
    }

    /** Applies one trade in place; only the traded ticker's position changes. */
    method ApplyTrade(trade: Trade)
      requires Valid()
      modifies this
      ensures Valid()
      ensures Ledger() == Apply(old(Ledger()), trade)
      ensures cash == old(cash)
    {
      var pos: Position;
      if trade.ticker in positions {
        pos := positions[trade.ticker];
      } else {
        pos := Position(trade.ticker, 0, 0.0);
        positions := positions[trade.ticker := pos];
        tickers := tickers + [trade.ticker];
      }

      if trade.operation == Buy {
        pos := pos.(quantity := pos.quantity + trade.quantity);
        pos := pos.(cashFlow := pos.cashFlow - (trade.price * trade.quantity as real + trade.fee));
      }

      if trade.operation == Sell {
        pos := pos.(quantity := pos.quantity - trade.quantity);
        pos := pos.(cashFlow := pos.cashFlow + (trade.price * trade.quantity as real - trade.fee));
      }

      positions := positions[trade.ticker := pos];
      assert pos == Apply(old(Ledger()), trade).positions[trade.ticker];
      assert Ledger().positions == Apply(old(Ledger()), trade).positions;
      assert Ledger().tickers == Apply(old(Ledger()), trade).tickers;
    }
  }
}
