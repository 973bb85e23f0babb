/** The persisted shape of listings and transactions, as far as the pricing
    setter, the dashboard statistics and the ledger table read them.
    Calendar dates are day numbers; a creation timestamp is kept only to the
    (year, month) the dashboard groups by. */
module Records {

  datatype Option<T> = None | Some(value: T)

  /** The calendar month of a `created_at` timestamp. */
  datatype YearMonth = YearMonth(year: int, month: int)

  /** The nine fillable attributes of a transaction row. */
  datatype Attributes = Attributes(
    userId: int,
    listingId: int,
    startDate: int,
    endDate: int,
    pricePerDay: real,
    totalDays: int,
    fee: real,
    totalPrice: real,
    status: string)

  /** A transaction row as stored: its attributes and the month it was created. */
  datatype StoredTransaction = StoredTransaction(attributes: Attributes, createdAt: YearMonth)

  /** A listing row as stored, as far as the dashboard reads it: the month it
      was created. */
  datatype StoredListing = StoredListing(createdAt: YearMonth)
}
