/** The dashboard's three month-over-month statistics: new listings, approved
    transactions and their revenue, each with a percentage change against the
    previous month and an up/down description. The current and previous months
    are parameters. */
module StatsOverview {
  import opened Records
  import opened Sequences
  import opened DecimalText
  import TransactionResource

  /** `x` is a whole number of tenths. */
  predicate IsTenths(x: real)
  {
    (x * 10.0).Floor as real == x * 10.0
  }

  /** `10 * x` rounded to the nearest integer, halves away from zero. */
  function RoundToTenths(x: real): (k: int)
    ensures -0.5 <= k as real - x * 10.0 <= 0.5
    ensures x >= 0.0 ==> k >= 0
    ensures x <= 0.0 ==> k <= 0
  {
    if x >= 0.0 then (x * 10.0 + 0.5).Floor else -((-x * 10.0 + 0.5).Floor)
  }

  /** `n` tenths is a whole number of tenths. */
  lemma TenthsAreTenths(n: int)
    ensures IsTenths(n as real / 10.0)
  {
    assert (n as real / 10.0) * 10.0 == n as real;
  }

  /** `round(x, 1)`: the nearest multiple of 0.1, halves rounded away from zero. */
  function Round1(x: real): (r: real)
    ensures IsTenths(r)
    ensures -0.05 <= r - x <= 0.05
    ensures x >= 0.0 ==> r >= 0.0
    ensures x <= 0.0 ==> r <= 0.0
  {
    var k := RoundToTenths(x);
    TenthsAreTenths(k);
    k as real / 10.0
  }

  /** No multiple of 0.1 is nearer to `x` than `round(x, 1)`. */
  lemma Round1IsNearest(x: real, k: int)
    ensures var r := Round1(x); var c := k as real / 10.0;
      (if r >= x then r - x else x - r) <= (if c >= x then c - x else x - c)
  {
    var r := Round1(x);
    var m := (r * 10.0).Floor;
    assert r == m as real / 10.0;
    if k != m {
      assert k <= m - 1 || k >= m + 1;
    }
  }

  /** Rounding is symmetric about zero, and every half is rounded away from zero:
      n.5 tenths becomes n + 1 tenths, and -n.5 tenths becomes -(n + 1) tenths
      (0.25 becomes 0.3 and -0.25 becomes -0.3). */
  lemma Round1HalfAwayFromZero(x: real, n: nat)
    ensures Round1(-x) == -Round1(x)
    ensures Round1((n as real + 0.5) / 10.0) == (n + 1) as real / 10.0
    ensures Round1(-((n as real + 0.5) / 10.0)) == -((n + 1) as real / 10.0)
  {
  }

  /** `getPercentage(prev, current)`: 0 for a zero baseline, else the relative
      change in percent rounded to one decimal. */
  function Percentage(prev: real, current: real): (r: real)
    ensures IsTenths(r)
    ensures prev == 0.0 ==> r == 0.0
    ensures prev != 0.0 ==> -0.05 <= r - (current - prev) / prev * 100.0 <= 0.05
  {
    if prev == 0.0 then 0.0 else Round1((current - prev) / prev * 100.0)
  }

  /** An unchanged value gives 0, with a zero or a non-zero baseline. */
  lemma PercentageUnchanged(v: real)
    ensures Percentage(v, v) == 0.0
  {
  }

  /** With a positive baseline the sign of the change is kept weakly: growth never
      reads as negative and decline never reads as positive (a tiny change may
      round to 0). */
  lemma PercentageKeepsSign(prev: real, current: real)
    requires prev > 0.0
    ensures current >= prev ==> Percentage(prev, current) >= 0.0
    ensures current <= prev ==> Percentage(prev, current) <= 0.0
  {
    var q := (current - prev) / prev;
    assert q * prev == current - prev;
    if current >= prev {
      assert q >= 0.0;
    } else {
      assert q <= 0.0;
    }
  }

  /** With a positive baseline and a non-negative current value, the change is at
      least -100%. */
  lemma PercentageAtLeastMinusHundred(prev: real, current: real)
    requires prev > 0.0 && current >= 0.0
    ensures Percentage(prev, current) >= -100.0
  {
    var x := (current - prev) / prev * 100.0;
    assert (current - prev) / prev >= -1.0 by {
      var q := (current - prev) / prev;
      assert q * prev == current - prev;
      assert q * prev >= -prev;
    }
    var r := Round1(x);
    var m := (r * 10.0).Floor;
    assert r == m as real / 10.0;
    assert m as real >= -1000.5;
  }

  /** The worked examples: 100 to 150 is +50, 200 to 150 is -25, 50 to 50 is 0,
      and 10000 to 10004 (+0.04%) rounds to 0. */
  lemma PercentageExamples()
    ensures Percentage(100.0, 150.0) == 50.0
    ensures Percentage(200.0, 150.0) == -25.0
    ensures Percentage(50.0, 50.0) == 0.0
    ensures Percentage(10000.0, 10004.0) == 0.0
  {
    assert (150.0 - 100.0) / 100.0 * 100.0 == 50.0;
    assert (150.0 - 200.0) / 200.0 * 100.0 == -25.0;
    assert (10004.0 - 10000.0) / 10000.0 * 100.0 == 0.04;
  }

  /** The description line under a statistic, with its icon and colour. */
  datatype Trend = Trend(description: string, icon: string, color: string)

  const TrendingUp := "heroicon-m-arrow-trending-up"
  const TrendingDown := "heroicon-m-arrow-trending-down"

  /** A whole number `t` of tenths ends in the digit 0 exactly when it stands for
      a whole number. */
  lemma WholeTenths(a: real, t: int)
    requires a >= 0.0 && t as real == a * 10.0
    ensures t % 10 == 0 <==> a.Floor as real == a
  {
    var q, m := t / 10, t % 10;
    assert t == 10 * q + m && 0 <= m < 10;
    assert a == q as real + m as real / 10.0;
    assert q as real <= a < (q + 1) as real;
    assert a.Floor == q;
  }

  /** PHP's text of a non-negative multiple of 0.1: a decimal point only when
      the number is not whole, and no leading zero before a whole part of one or
      more. */
  function AmountText(a: real): (text: string)
    requires a >= 0.0
    ensures |text| >= 1
    ensures IsTenths(a) ==> ('.' in text <==> a.Floor as real != a)
    ensures text[0] == '0' ==> a < 1.0
  {
    var t := (a * 10.0).Floor;
    assert t >= 0;
    if IsTenths(a) then
      WholeTenths(a, t);
      TenthsToString(t)
    else
      TenthsToString(t)
  }

  /** A strictly positive change reads "Up by p%" in green with the rising icon;
      anything else, zero included, reads "Down by |p|%" in red with the falling icon. */
  function Describe(p: real): (trend: Trend)
    ensures trend.icon == TrendingUp <==> p > 0.0
    ensures trend.icon == TrendingDown <==> p <= 0.0
    ensures trend.color == "success" <==> p > 0.0
    ensures trend.color == "danger" <==> p <= 0.0
  {
    if p > 0.0 then Trend("Up by " + AmountText(p) + "%", TrendingUp, "success")
    else Trend("Down by " + AmountText(-p) + "%", TrendingDown, "danger")
  }

  /** The negation of a whole number of tenths is one too. */
  lemma NegatedTenths(p: real)
    requires IsTenths(p)
    ensures IsTenths(-p)
  {
    var m := (p * 10.0).Floor;
    assert -p * 10.0 == (-m) as real;
  }

  /** The printed amount of a non-negative whole number of tenths reads back as it. */
  lemma AmountTextReadsBack(a: real)
    requires a >= 0.0 && IsTenths(a)
    ensures IsTenthsText(AmountText(a)) && ParseTenths(AmountText(a)) as real / 10.0 == a
  {
    var t := (a * 10.0).Floor;
    TenthsRoundTrip(t);
  }

  /** For a change in whole tenths, the amount printed after "Up by " or "Down by "
      reads back as the magnitude of the change. */
  lemma DescribeReadsBack(p: real)
    requires IsTenths(p)
    ensures var a := if p > 0.0 then p else -p;
      Describe(p).description == (if p > 0.0 then "Up by " else "Down by ") + AmountText(a) + "%" &&
      IsTenthsText(AmountText(a)) && ParseTenths(AmountText(a)) as real / 10.0 == a
  {
    if p > 0.0 {
      AmountTextReadsBack(p);
    } else {
      NegatedTenths(p);
      AmountTextReadsBack(-p);
    }
  }

  /** 12.5 prints as "12.5" and 50.0 as "50". */
  lemma AmountTextExamples()
    ensures AmountText(12.5) == "12.5"
    ensures AmountText(50.0) == "50"
  {
    assert NatToDecimal(12) == "12";
    assert NatToDecimal(5) == "5" && NatToDecimal(50 / 10) == "5";
  }

  /** No change at all reads "Down by 0%". */
  lemma NoChangeReadsDown()
    ensures Describe(0.0) == Trend("Down by 0%", TrendingDown, "danger")
  {
    assert NatToDecimal(0) == "0";
  }

  /** `whereStatus('approved')->whereMonth(...)->whereYear(...)`. */
  /** Each approved transaction created in `month` occurs as often as in the
      ledger, and no other transaction occurs, so its length is their count. */
  function ApprovedIn(transactions: seq<StoredTransaction>, month: YearMonth): (r: seq<StoredTransaction>)
    ensures forall t :: multiset(r)[t] ==
                        (if t.attributes.status == "approved" && t.createdAt == month
                         then multiset(transactions)[t] else 0)
  {
    Filter(transactions, (t: StoredTransaction) =>
      t.attributes.status == "approved" && t.createdAt == month)
  }

  /** `->sum('total_price')`; never negative when no total price is. */
  function Revenue(transactions: seq<StoredTransaction>): (r: real)
    ensures (forall i :: 0 <= i < |transactions| ==> transactions[i].attributes.totalPrice >= 0.0) ==> r >= 0.0
  {
    Sum(transactions, (t: StoredTransaction) => t.attributes.totalPrice)
  }

  /** `Listing::whereMonth(...)->whereYear(...)`. */
  /** Each listing created in `month` occurs as often as in the catalogue, and
      no other listing occurs. */
  function ListingsIn(listings: seq<StoredListing>, month: YearMonth): (r: seq<StoredListing>)
    ensures forall l :: multiset(r)[l] == (if l.createdAt == month then multiset(listings)[l] else 0)
  {
    Filter(listings, (l: StoredListing) => l.createdAt == month)
  }

  /** A transaction is counted for a month exactly when it is approved and was
      created in that month. */
  lemma ApprovedInMembership(transactions: seq<StoredTransaction>, month: YearMonth, t: StoredTransaction)
    ensures t in ApprovedIn(transactions, month)
        <==> t in transactions && t.attributes.status == "approved" && t.createdAt == month
  {
    FilterMembership(transactions, (t: StoredTransaction) =>
      t.attributes.status == "approved" && t.createdAt == month, t);
  }

  /** A listing is counted for a month exactly when it was created in that month. */
  lemma ListingsInMembership(listings: seq<StoredListing>, month: YearMonth, l: StoredListing)
    ensures l in ListingsIn(listings, month) <==> l in listings && l.createdAt == month
  {
    FilterMembership(listings, (l: StoredListing) => l.createdAt == month, l);
  }

  /** The total price of a transaction when it is approved and created in `month`,
      and zero otherwise. */
  function MonthlyPrice(month: YearMonth, t: StoredTransaction): real
  {
    if t.attributes.status == "approved" && t.createdAt == month then t.attributes.totalPrice else 0.0
  }

  /** A month's revenue is the whole ledger's total price with every transaction
      that is not approved or not from that month counted as zero; with no negative
      prices it lies between zero and the whole ledger's revenue. */
  lemma RevenueOfCountedSet(transactions: seq<StoredTransaction>, month: YearMonth)
    ensures Revenue(ApprovedIn(transactions, month))
         == Sum(transactions, (t: StoredTransaction) => MonthlyPrice(month, t))
    ensures (forall i :: 0 <= i < |transactions| ==> transactions[i].attributes.totalPrice >= 0.0) ==>
      0.0 <= Revenue(ApprovedIn(transactions, month)) <= Revenue(transactions)
  {
    var price := (t: StoredTransaction) => t.attributes.totalPrice;
    var masked := (t: StoredTransaction) => MonthlyPrice(month, t);
    SumFilter(transactions, (t: StoredTransaction) =>
      t.attributes.status == "approved" && t.createdAt == month, price, masked);
    if forall i :: 0 <= i < |transactions| ==> transactions[i].attributes.totalPrice >= 0.0 {
      SumMonotone(transactions, masked, price);
    }
  }

  /** The value shown on a statistic card. */
  datatype StatValue = Count(n: nat) | Money(amount: real)

  /** One statistic card. */
  datatype Stat = Stat(title: string, value: StatValue, trend: Trend, icon: string, color: string)

  /** `getStats`: the three cards for `current` against `previous`. The
      transaction card and the revenue card read the same set, the approved
      transactions created this month, so a zero count means zero revenue; each
      card's trend compares this month's figure with the previous month's. */
  function GetStats(listings: seq<StoredListing>, transactions: seq<StoredTransaction>,
                    current: YearMonth, previous: YearMonth): (stats: seq<Stat>)
    ensures |stats| == 3
    ensures stats[0].value == Count(|ListingsIn(listings, current)|)
    ensures stats[0].value.n <= |listings|
    ensures stats[0].trend ==
      Describe(Percentage(|ListingsIn(listings, previous)| as real, |ListingsIn(listings, current)| as real))
    ensures stats[1].value == Count(|ApprovedIn(transactions, current)|)
    ensures stats[1].trend ==
      Describe(Percentage(|ApprovedIn(transactions, previous)| as real, |ApprovedIn(transactions, current)| as real))
    ensures stats[2].value == Money(Revenue(ApprovedIn(transactions, current)))
    ensures stats[2].trend ==
      Describe(Percentage(Revenue(ApprovedIn(transactions, previous)), Revenue(ApprovedIn(transactions, current))))
    ensures stats[1].value.n == 0 ==> stats[2].value == Money(0.0)
  {
    var newListings := |ListingsIn(listings, current)|;
    var prevListings := |ListingsIn(listings, previous)|;
    var cur := ApprovedIn(transactions, current);
    var prev := ApprovedIn(transactions, previous);
    [ Stat("New Listings This Month", Count(newListings),
           Describe(Percentage(prevListings as real, newListings as real)),
           "heroicon-o-home", "primary"),
      Stat("Transactions This Month", Count(|cur|),
           Describe(Percentage(|prev| as real, |cur| as real)),
           "heroicon-o-shopping-cart", "warning"),
      Stat("Revenue This Month", Money(Revenue(cur)),
           Describe(Percentage(Revenue(prev), Revenue(cur))),
           "heroicon-o-banknotes", "success") ]
  }

  /** Comparing a month with itself shows no change on every card: each reads
      "Down by 0%" in red with the falling icon. */
  lemma SameMonthShowsNoChange(listings: seq<StoredListing>, transactions: seq<StoredTransaction>,
                               month: YearMonth)
    ensures var stats := GetStats(listings, transactions, month, month);
      forall i :: 0 <= i < |stats| ==> stats[i].trend == Trend("Down by 0%", TrendingDown, "danger")
  {
    NoChangeReadsDown();
    PercentageUnchanged(|ListingsIn(listings, month)| as real);
    PercentageUnchanged(|ApprovedIn(transactions, month)| as real);
    PercentageUnchanged(Revenue(ApprovedIn(transactions, month)));
  }

  /** The statuses the ledger offers never include 'approved', so on a ledger
      holding only offered statuses the transaction and revenue cards show nothing
      and read "Down by 0%". */
  lemma OfferedStatusesAreNeverCounted(listings: seq<StoredListing>, transactions: seq<StoredTransaction>,
                                       current: YearMonth, previous: YearMonth)
    requires forall i :: 0 <= i < |transactions| ==>
      transactions[i].attributes.status in TransactionResource.FormStatusOptions()
    ensures var stats := GetStats(listings, transactions, current, previous);
      stats[1].value == Count(0) && stats[2].value == Money(0.0) &&
      stats[1].trend.description == "Down by 0%" && stats[2].trend.description == "Down by 0%"
  {
    TransactionResource.StatusOptionsAgree();
    forall month: YearMonth ensures ApprovedIn(transactions, month) == [] {
      var s := ApprovedIn(transactions, month);
      if s != [] {
        ApprovedInMembership(transactions, month, s[0]);
        assert false;
      }
    }
    NoChangeReadsDown();
  }
}
