/** Option and error outcomes used by the services. */
module Results {

  datatype Option<+T> = None | Some(value: T)

  /** The result of a service call that either completes or raises. */
  datatype Outcome<+E> = Pass | Fail(error: E)
}

/** schemas/trade.py, and the time representation shared by the whole model.

    A datetime is a count of microseconds since the epoch (naive, as the
    source's datetimes are); a calendar date is a count of days since the
    epoch. */
module Schemas {

  const MicrosPerDay: int := 86_400_000_000

  /** The calendar date of a datetime, `at.date()` in the source. */
  function DateOf(at: int): (d: int)
    ensures d * MicrosPerDay <= at < (d + 1) * MicrosPerDay
  {
    at / MicrosPerDay
  }

  datatype Operation = Buy | Sell

  /** One executed trade. The quantity is a magnitude; `operation` gives the
      direction. The source does not validate the fields. */
  datatype Trade = Trade(
    ticker: string,
    date: int,
    price: real,
    quantity: int,
    fee: real,
    operation: Operation)
}

/** The two persisted records of db/models.py that the core produces. */
module Models {

  /** A portfolio valuation at one instant; `datetime` is the table's key. */
  datatype PortfolioSnapshot = PortfolioSnapshot(datetime: int, totalValue: real)

  /** One point of the portfolio index; `datetime` is the table's key. */
  datatype PortfolioIndex = PortfolioIndex(datetime: int, indexValue: real)
}
