/** The transaction model: assigning a listing to a transaction derives the
    rental duration, the daily rate, the service fee and the total price and
    writes them into the record's attributes. */
module Booking {
  import opened Records

  /** The service fee is this fraction of the rental's base amount. */
  const FeeRate: real := 0.1

  /** The attribute names a transaction accepts by mass assignment (`$fillable`). */
  const Fillable: set<string> := {"user_id", "listing_id", "start_date", "end_date",
    "price_per_day", "total_days", "fee", "total_price", "status"}

  /** The attributes the listing setter writes. */
  const WrittenBySetter: set<string> := {"listing_id", "total_days", "price_per_day",
    "total_price", "fee"}

  /** Whole days from `startDate` to `endDate`, for a range that is not reversed. */
  function DiffInDays(startDate: int, endDate: int): (d: nat)
    requires startDate <= endDate
    ensures startDate + d == endDate
  {
    endDate - startDate
  }

  /** The attributes after `setListingIdAttribute(value)` with `rates` as the
      listing catalogue: the listing's rate is looked up and the five derived
      attributes are written; every other attribute is kept. */
  function AfterSetListingId(a: Attributes, value: int, rates: map<int, real>): (r: Attributes)
    requires value in rates
    requires a.startDate <= a.endDate
    // the duration counts both the first and the last day
    ensures r.totalDays == a.endDate - a.startDate + 1 && r.totalDays >= 1
    // the rate is copied from the listing found at call time
    ensures r.listingId == value && r.pricePerDay == rates[value]
    ensures r.fee == r.pricePerDay * r.totalDays as real * FeeRate
    ensures r.totalPrice == r.pricePerDay * r.totalDays as real + r.fee
    ensures r.totalPrice == r.pricePerDay * r.totalDays as real * 1.1
    // nothing else changes
    ensures r.userId == a.userId && r.startDate == a.startDate
    ensures r.endDate == a.endDate && r.status == a.status
  {
    var rate := rates[value];
    var totalDays := DiffInDays(a.startDate, a.endDate) + 1;
    var base := rate * totalDays as real;
    var fee := base * FeeRate;
    a.(listingId := value, totalDays := totalDays, pricePerDay := rate,
       totalPrice := base + fee, fee := fee)
  }

  /** The names of the attributes whose values differ between `a` and `b`. */
  function ChangedAttributes(a: Attributes, b: Attributes): set<string>
  {
    (if a.userId != b.userId then {"user_id"} else {}) +
    (if a.listingId != b.listingId then {"listing_id"} else {}) +
    (if a.startDate != b.startDate then {"start_date"} else {}) +
    (if a.endDate != b.endDate then {"end_date"} else {}) +
    (if a.pricePerDay != b.pricePerDay then {"price_per_day"} else {}) +
    (if a.totalDays != b.totalDays then {"total_days"} else {}) +
    (if a.fee != b.fee then {"fee"} else {}) +
    (if a.totalPrice != b.totalPrice then {"total_price"} else {}) +
    (if a.status != b.status then {"status"} else {})
  }

  /** The setter changes only the five attributes it writes, all of them fillable;
      `user_id`, `start_date`, `end_date` and `status` are never among them. */
  lemma SetterWritesOnlyDerivedAttributes(a: Attributes, value: int, rates: map<int, real>)
    requires value in rates
    requires a.startDate <= a.endDate
    ensures ChangedAttributes(a, AfterSetListingId(a, value, rates)) <= WrittenBySetter
    ensures WrittenBySetter <= Fillable
    ensures Fillable - WrittenBySetter == {"user_id", "start_date", "end_date", "status"}
  {
  }

  /** With a non-negative daily rate (the listing form's `minValue(0)`), the fee is
      non-negative, at most the total, and the total is at least the base amount. */
  lemma PriceBounds(a: Attributes, value: int, rates: map<int, real>)
    requires value in rates && rates[value] >= 0.0
    requires a.startDate <= a.endDate
    ensures var r := AfterSetListingId(a, value, rates);
      0.0 <= r.fee <= r.totalPrice && r.totalPrice >= r.pricePerDay * r.totalDays as real
  {
    var r := AfterSetListingId(a, value, rates);
    var base := r.pricePerDay * r.totalDays as real;
    assert base >= 0.0 by {
      assert r.pricePerDay >= 0.0 && r.totalDays as real >= 1.0;
    }
  }

  /** Assigning the same listing twice against an unchanged catalogue leaves the
      same attributes as assigning it once. */
  lemma SetListingIdIdempotent(a: Attributes, value: int, rates: map<int, real>)
    requires value in rates
    requires a.startDate <= a.endDate
    ensures AfterSetListingId(AfterSetListingId(a, value, rates), value, rates)
         == AfterSetListingId(a, value, rates)
  {
  }

  /** The derived attributes depend on the catalogue only through the assigned
      listing's rate at call time: the stored rate is a copy, and a catalogue that
      differs in any other entry gives the same record. */
  lemma SetListingIdReadsOnlyItsRate(a: Attributes, value: int, rates1: map<int, real>, rates2: map<int, real>)
    requires value in rates1 && value in rates2 && rates1[value] == rates2[value]
    requires a.startDate <= a.endDate
    ensures AfterSetListingId(a, value, rates1) == AfterSetListingId(a, value, rates2)
  {
  }

  /** A same-day rental lasts one day and costs the daily rate plus its fee. */
  lemma SameDayRental(a: Attributes, value: int, rates: map<int, real>)
    requires value in rates
    requires a.startDate == a.endDate
    ensures var r := AfterSetListingId(a, value, rates);
      r.totalDays == 1 && r.fee == rates[value] * FeeRate && r.totalPrice == rates[value] * 1.1
  {
  }

  /** A rate of 100 from day 1 to day 3: three days, a fee of 30, a total of 330. */
  lemma ThreeDayExample(a: Attributes, rates: map<int, real>)
    requires 7 in rates && rates[7] == 100.0
    requires a.startDate == 1 && a.endDate == 3
    ensures var r := AfterSetListingId(a, 7, rates);
      r.totalDays == 3 && r.pricePerDay == 100.0 && r.fee == 30.0 && r.totalPrice == 330.0
  {
  }

  /** A transaction record whose attribute store is updated in place. */
  class Transaction {
    var userId: int
    var listingId: int
    var startDate: int
    var endDate: int
    var pricePerDay: real
    var totalDays: int
    var fee: real
    var totalPrice: real
    var status: string

    /** The record's current attributes as a value. */
    function Attrs(): Attributes
      reads this
    {
      Attributes(userId, listingId, startDate, endDate, pricePerDay, totalDays, fee,
                 totalPrice, status)
    }

    /** A record holding the given attributes. */
    constructor (a: Attributes)
      ensures Attrs() == a
    {
      userId, listingId, startDate, endDate := a.userId, a.listingId, a.startDate, a.endDate;
      pricePerDay, totalDays, fee, totalPrice := a.pricePerDay, a.totalDays, a.fee, a.totalPrice;
      status := a.status;
    }

    /** `setListingIdAttribute`: looks the listing's rate up in `rates` and writes
        the listing id, the duration, the rate, the total price and the fee. The
        start and end dates must already be set and not reversed. */
    method SetListingIdAttribute(value: int, rates: map<int, real>)
      requires value in rates
      requires startDate <= endDate
      modifies this
      ensures Attrs() == AfterSetListingId(old(Attrs()), value, rates)
      ensures listingId == value && pricePerDay == rates[value]
      ensures totalDays == old(endDate) - old(startDate) + 1
      ensures fee == pricePerDay * totalDays as real * FeeRate
      ensures totalPrice == pricePerDay * totalDays as real + fee
      ensures userId == old(userId) && startDate == old(startDate)
      ensures endDate == old(endDate) && status == old(status)
    {
      var rate := rates[value];
      var days := DiffInDays(startDate, endDate) + 1;
      var base := rate * days as real;
      var serviceFee := base * FeeRate;

      listingId := value;
      totalDays := days;
      pricePerDay := rate;
      totalPrice := base + serviceFee;
      fee := serviceFee;
    }
  }

  /** Calling the setter twice with the same listing leaves what one call leaves. */
  method SetListingIdTwice(t: Transaction, value: int, rates: map<int, real>)
    requires value in rates
    requires t.startDate <= t.endDate
    modifies t
    ensures t.Attrs() == AfterSetListingId(old(t.Attrs()), value, rates)
  {
    t.SetListingIdAttribute(value, rates);
    t.SetListingIdAttribute(value, rates);
    SetListingIdIdempotent(old(t.Attrs()), value, rates);
  }
}
