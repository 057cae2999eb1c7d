# portdex core in Dafny

A model of the part of portdex that turns a trade list into portfolio
values and those values into an index:

- **Position ledger.** `Portfolio.apply_trade` keeps a ticker → Position
  dictionary. A BUY adds to the quantity and pays price × quantity + fee. A
  SELL subtracts from the quantity and receives price × quantity − fee.
  Holdings are never checked, so a position may go short. The class
  `Ledger.Portfolio` keeps the dictionary as a `map` and its insertion order
  as a `seq`. `Ledger.Apply` is the same update on values. `Ledger.Replay`
  folds `Apply` over a trade list.
- **Portfolio builder.** `PortfolioBuilder.build` sorts the trades by date,
  using Python's stable sort. It then replays them into a fresh portfolio
  and stops at the first trade dated after the cutoff day. `valuate` sums
  quantity × close over the positions, in dictionary order. It skips flat
  positions and positions without a candle. `snapshot` combines the two.
  The candle store is a lookup function `(ticker, datetime) → Option<close>`.
- **Fixed-base index.** `IndexService` values each snapshot as
  total / base total × base, with base defaulting to 1000.
  - `calculate_and_save` measures against the snapshot table's `get_first`.
  - `backfill` measures every snapshot against the first one in the list.
  - The index table rejects a second point with an already stored datetime,
    its primary key.
- **Index backfill orchestration.** `IndexBackfillService.backfill` picks the
  first snapshot with a positive total as base. It saves the base at the
  base value. It then calculates and saves every later snapshot against
  that base.
- **Snapshot backfill.** `PortfolioSnapshotBackfillService.backfill` fetches
  the trades once. It then takes int((end − start) / step) + 1 snapshots,
  at start, start + step, and so on.

Time is a count of microseconds since the epoch, and a date is a count of
days. `at.date()` is `Schemas.DateOf`. Money is `real` and quantities are
`int`.

Modules:

| module | file | models |
|---|---|---|
| `Results` | schemas.dfy | Option and success/failure outcomes |
| `Schemas` | schemas.dfy | schemas/trade.py, and the time representation |
| `Models` | schemas.dfy | the two records of db/models.py the core produces |
| `Sums` | sums.dfy | order-independent sums, used for per-ticker totals and for valuation |
| `Ledger` | ledger.dfy | portfolio/position.py and portfolio/portfolio.py |
| `Builder` | builder.dfy | portfolio/builder.py |
| `Storage` | storage.dfy | what the services observe of the snapshot and index tables |
| `Index` | index.dfy | services/index.py |
| `IndexBackfill` | index_backfill.dfy | services/index_backfil.py |
| `SnapshotBackfill` | snapshot_backfill.dfy | services/portfolio_snapshot_backfill.py |

Where the source mutates state, the model does too:

- `Ledger.Portfolio.ApplyTrade` and `Builder.PortfolioBuilder.Build` update a
  `Portfolio` object.
- `Builder.PortfolioBuilder.Valuate` accumulates in a loop.
- The services' loops call methods of collaborator objects whose logs record
  every call.

Each method is proved against a function:

- `Build` against `Builder.Built`
- `Valuate` against `Builder.MarketValue`
- the index backfill against `Index.Series` and `IndexBackfill.Emitted`
- the snapshot backfill against `SnapshotBackfill.Schedule`

The lemmas state the source's promises about those functions.

## Model

| member | source | states |
|---|---|---|
| Schemas.DateOf | portfolio/builder.py:24 | the cutoff day is the day whose span of microseconds contains `at` |
| Ledger.Portfolio.constructor | portfolio/portfolio.py:7-9 | a new portfolio has no positions and cash 0.0 |
| Ledger.Apply | portfolio/portfolio.py:11-28 | well-formedness is kept; the keys become the old keys plus the traded ticker, even for quantity 0; an unseen ticker is appended to the iteration order; every other position is unchanged; a BUY adds its quantity and a SELL subtracts it, with no holdings check; the cash flow moves by −(price·qty + fee) for a BUY and by price·qty − fee for a SELL |
| Ledger.Portfolio.ApplyTrade | portfolio/portfolio.py:11-28 | the in-place update leaves exactly the ledger `Apply` describes, keeps the portfolio well formed and leaves `cash` unchanged |
| Ledger.ReplayKeys | portfolio/portfolio.py:16-20 | after any trade list the ledger holds exactly the earlier tickers plus every traded ticker, each once |
| Ledger.ReplayTotals | portfolio/portfolio.py:22-28 | after any trade list each ticker's quantity has grown by its BUY quantities minus its SELL quantities, and its cash flow by the cash its trades moved |
| Ledger.ReplayOrderIndependent | portfolio/portfolio.py:22-28 | replaying the same trades in any order from an empty ledger gives the same positions |
| Builder.SortByDate | portfolio/builder.py:23 | the result is sorted by date and is a permutation of the input |
| Builder.SortStable | portfolio/builder.py:23 | trades of the same date keep their input order, as Python's `sorted` does |
| Builder.CutoffOfSorted | portfolio/builder.py:23-27 | sorting does not change which trades pass the cutoff |
| Builder.BreakIsCutoff | portfolio/builder.py:23-27 | on a date-sorted list, stopping at the first trade after the cutoff keeps exactly the trades dated on or before it |
| Builder.PortfolioBuilder.constructor | portfolio/builder.py:14-15 | the builder keeps the candle lookup it is given |
| Builder.PortfolioBuilder.Build | portfolio/builder.py:17-29 | returns a fresh, well-formed portfolio with cash 0.0 whose ledger is the date-sorted trades dated on or before `at`'s day, replayed in order into an empty ledger; with no trades this is the empty ledger |
| Builder.BuiltHoldings | portfolio/builder.py:17-29 | the built ledger holds a ticker iff some trade of it is dated on or before the cutoff; its quantity is those trades' BUY quantities minus their SELL quantities and its cash flow is their net cash, whatever the input order |
| Builder.BuiltDependsOnEligible | portfolio/builder.py:17-29 | the built positions depend only on which trades pass the cutoff |
| Builder.BuildExcludesLater | portfolio/builder.py:24-25 | a trade dated after `at`'s day does not change the built positions |
| Builder.BuildIncludesOnOrBefore | portfolio/builder.py:24-27 | a trade dated on or before `at`'s day, the same day included, is applied by build |
| Builder.PortfolioBuilder.Valuate | portfolio/builder.py:31-46 | the loop, with its two `continue`s, returns the sum over the positions in dictionary order of quantity × close; a flat or unpriced position adds 0 and a short adds a negative amount |
| Builder.ValueSkipsUnpriced | portfolio/builder.py:38-43 | removing a flat position or one without a candle leaves the value unchanged, so a missing candle is never an error |
| Builder.ValueOrderFree | portfolio/builder.py:37-43 | the value does not depend on the order in which the positions are visited |
| Builder.PortfolioBuilder.Snapshot | portfolio/builder.py:48-55 | the snapshot's datetime is `at` and its total is the value of the portfolio built as of `at` |
| Builder.SnapshotOrderFree | portfolio/builder.py:48-55 | the snapshot total is the same for any order of the same trades |
| Storage.FirstPositiveIndex | services/index_backfil.py:14 | finds the position of the first snapshot with a positive total; every snapshot before it has a non-positive total; the result is the list length when no snapshot has a positive total |
| Storage.GetFirstIsEarliestPositive | storage/portfolio_snapshot_storage.py:27-38 | `get_first` is None iff no snapshot has a positive total; otherwise it is a stored snapshot with a positive total and no snapshot with a positive total is earlier |
| Storage.IndexStore.Save | storage/portfolio_index_storage.py:15-25 | the point is inserted and true is returned iff its datetime is not stored yet; otherwise the table is unchanged and false is returned |
| Storage.StoredFresh | storage/portfolio_index_storage.py:15-25 | saving points with new, pairwise distinct datetimes stores all of them, in order |
| Index.IndexService.constructor | services/index.py:9-17 | the storages and the base are kept as given (the base defaults to 1000.0) |
| Index.IndexService.BaseSnapshot | services/index.py:19-22 | the base is None iff no stored snapshot has a positive total, and otherwise the earliest stored snapshot with a positive total |
| Index.IndexOfBase | services/index.py:34 | a snapshot measured against itself has index `base` |
| Index.IndexProportional | services/index.py:34 | index values stand in the ratio of the totals they were computed from |
| Index.IndexMonotone | services/index.py:34 | with a positive base and base total, a larger total gives a larger index |
| Index.IndexService.CalculateAndSave | services/index.py:24-38 | returns false and saves nothing when there is no base snapshot or its total is 0; otherwise it saves one point at the snapshot's datetime with value total / base total × base and returns save's answer |
| Index.Series | services/index.py:43-52 | one point per snapshot, at that snapshot's datetime and in list order; the first point equals `base` |
| Index.SeriesProportional | services/index.py:48 | any two backfilled points stand in the ratio of their snapshots' totals |
| Index.SeriesAllStored | services/index.py:47-52 | on a table holding none of the snapshots' datetimes, an ascending backfill stores exactly one point per snapshot, in order |
| Index.IndexService.Backfill | services/index.py:40-52 | an empty list fails (IndexError) and a zero first total fails (ZeroDivisionError), both before any save; otherwise every point of `Series` is handed to save in order, whatever save answers, and the table ends as those saves leave it; on a table holding none of the snapshots' datetimes that is the old rows followed by exactly the series |
| IndexBackfill.IndexWriter.Calculate | services/index_backfil.py:30 | the value is `calculate` of the snapshot and the reference, and the call is logged |
| IndexBackfill.IndexWriter.Save | services/index_backfil.py:18 | the save is logged with its snapshot and value |
| IndexBackfill.After | services/index_backfil.py:20-22 | keeps exactly the snapshots with a datetime strictly after the given one |
| IndexBackfill.AfterSuffix | services/index_backfil.py:20-22 | on an ascending list the snapshots after a datetime are a suffix of the list, in list order |
| IndexBackfill.StepsSaved | services/index_backfil.py:24-31 | the loop saves each processed snapshot exactly once, in order |
| IndexBackfill.StepsAgainstReference | services/index_backfil.py:30-31 | every calculation in the loop takes the base snapshot as reference, never a previous point, and every saved value is that calculation's result |
| IndexBackfill.EmittedFails | services/index_backfil.py:14-16 | backfill fails iff no snapshot has a positive total |
| IndexBackfill.EmittedSaves | services/index_backfil.py:14-31 | the base has a positive total; the first call saves it at the base value; the saved snapshots are the base followed by the snapshots after it, 1 + that many in all |
| IndexBackfill.EmittedFromBase | services/index_backfil.py:14-22 | on an ascending list the saved snapshots are exactly those from the base on; none before the base, all with non-positive totals, is saved |
| IndexBackfill.IndexBackfillService.constructor | services/index_backfil.py:7-9 | the service keeps the ordered snapshot table and the index service it is given |
| IndexBackfill.IndexBackfillService.Backfill | services/index_backfil.py:11-31 | fails with nothing called when no snapshot has a positive total; otherwise it makes exactly the calls `Emitted` lists, in order, and the snapshots it saves are exactly the stored ones from the base on |
| SnapshotBackfill.SnapshotService.FetchTrades | services/portfolio_snapshot_backfill.py:13 | returns the sheet's trades and logs the fetch |
| SnapshotBackfill.SnapshotService.TakeSnapshot | services/portfolio_snapshot_backfill.py:20 | logs the snapshot call with its datetime and trades and returns whether it was stored |
| SnapshotBackfill.TruncDiv | services/portfolio_snapshot_backfill.py:15 | the quotient rounded toward zero: its magnitude times the divisor's is at most the dividend's, and one more would exceed it; its sign is the product of the signs |
| SnapshotBackfill.Schedule | services/portfolio_snapshot_backfill.py:16-21 | n snapshot calls, the k-th at start + k·step, every one with the same trades |
| SnapshotBackfill.SingleWhenEmptyRange | services/portfolio_snapshot_backfill.py:15-20 | with end == start exactly one snapshot is taken, at start |
| SnapshotBackfill.ForwardWithinRange | services/portfolio_snapshot_backfill.py:15-21 | with step > 0 and start ≤ end there are (end − start) / step + 1 rounds, every snapshot is at or before end, and the last is less than a step before end |
| SnapshotBackfill.BackwardRange | services/portfolio_snapshot_backfill.py:15-17 | with step > 0 and end < start, one snapshot is taken, at start and after end, when end is less than a step before start, and none otherwise |
| SnapshotBackfill.ScheduleIncreasing | services/portfolio_snapshot_backfill.py:16-21 | with a positive step the snapshot datetimes strictly increase |
| SnapshotBackfill.SnapshotBackfillService.constructor | services/portfolio_snapshot_backfill.py:9-10 | the service keeps the snapshot service it is given |
| SnapshotBackfill.SnapshotBackfillService.Backfill | services/portfolio_snapshot_backfill.py:12-21 | the trades are fetched exactly once, before any snapshot; a zero step then fails (ZeroDivisionError); otherwise the calls are exactly `Schedule` for StepCount rounds with the fetched trades, whatever each take_snapshot answers |

## Left out

- Persistence is reduced to what the services observe. This covers storage/*.py, db/models.py and the SQLAlchemy session: commit, rollback and insert-ignore. The snapshot table is a list of rows in strictly ascending datetime order, as `get_all_ordered` returns it from a table keyed by datetime (the subset type `Storage.OrderedStore`), and the index table is a list with a datetime key. Whether the snapshot table also rejects duplicate datetimes is not modelled.
- The candle store is an abstract lookup `(ticker, datetime) → Option<close>`. Its exact-datetime match lives in storage/candle_storage.py, which is not part of this model.
- Floating point: prices, fees, values and index values are `real`, so rounding and IEEE special values are not modelled.
- SnapshotBackfill.TruncDiv: divides the two durations exactly. The source divides them as floats and truncates with int(), and a float quotient can round up to an integer that exact division stays just below.
- Python's pydantic validation of `Trade`, the `Position` dataclass's field types and the string-enum comparison are not modelled. Trades are taken as given.
- Ledger.Portfolio.ApplyTrade: the source mutates the `Position` object the dictionary holds. The model replaces the map entry with an updated value. No other reference to a `Position` is reachable in the core, so no aliasing is modelled.
- The `Portfolio.cash` field is kept but never changes, as in the source.
- Index.Calculation and SnapshotBackfill.StepCount carry no contract of their own. They are the guarded formula and the `range` count, and their properties are stated by the members that use them.
- Index.IndexService.Backfill: an empty snapshot list and a zero first total raise IndexError and ZeroDivisionError in the source. The model returns them as failures, not as preconditions.
- services/index.py:31-32: a zero base total cannot occur behind `get_first`, which only returns positive totals, so `CalculateAndSave`'s second guard never fires on a consistent table. The model keeps the guard.
- Every collaborator call is assumed to return normally. As the repository stands, `take_snapshot` calls `get_last_before` on the snapshot table (services/portfolio_snapshot.py:37), which the table class does not define. `IndexService` defines no `calculate` or `save` for the index backfill to call either. So both backfills as wired would stop with an AttributeError at their first such call. The model instead gives the collaborators the behaviour their callers expect.
- Python datetimes are bounded (years 1 to 9999). `t += step` raises OverflowError when it leaves that range, even after the last snapshot. The model's datetimes are unbounded integers, so it drops that error.
- The `calculate` and `save` methods of the index service used by the index backfill are not defined in services/index.py. `calculate` is an arbitrary function and `save` a logged call.
- `take_snapshot` (services/portfolio_snapshot.py) is not part of this model. Whether it stores a snapshot is an arbitrary function of the datetime and the trades.
- The divisor-adjusted, cash-flow-aware index chain is not implemented by the source and is not modelled.
- Network and spreadsheet I/O (MOEX, Google Sheets), the scheduler, the command-line entry points, tqdm progress bars and logging are not modelled.
- Time zones are not modelled: datetimes are naive microsecond counts, and `at.date()` is the floor of the count by a day.
