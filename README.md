# Rental back-office core, modelled in Dafny

This is a model of the logic in a property-rental admin panel. The rest of the panel is declarative screen configuration and is not modelled. The model has three parts:

- **Booking** (`booking.dfy`). Assigning a listing to a transaction (`setListingIdAttribute`) looks up the listing's daily rate. It then writes five attributes in place: the listing id, the inclusive rental duration, the copied rate, a 10% service fee and the total price. The record is a `class` with the nine fillable attributes as fields. The setter is a method with `modifies this`, and its `ensures` ties the new state to the value function `AfterSetListingId`. The lemmas are stated about that function.
- **Dashboard statistics** (`stats_overview.dfy`, `decimal_text.dfy`). This covers four things:
  - `getPercentage`, which is 0 for a zero baseline and otherwise the relative change rounded half away from zero to one decimal;
  - the "Up by / Down by" text, icon and colour of each card;
  - the monthly aggregates: new listings, approved transactions, and their revenue.
  
  The cards' amounts are printed as PHP prints a multiple of 0.1, so `50.0` prints as "50" and `12.5` as "12.5". This formatting comes with a round-trip proof.
- **Ledger screen** (`transaction_resource.dfy`). This covers the `date_range` filter (two optional bounds applied as chained `when` clauses), the status badge's colour and icon, the status option lists and `canCreate`.

`records.dfy` holds the stored rows: dates are day numbers, a creation timestamp is kept as its (year, month), and money is `real`. `sequences.dfy` holds the order-preserving filter and the sum that stand for the database queries.

Inputs from outside the code are parameters:
- the listing catalogue is a `map<int, real>` from listing id to daily rate;
- the current month and the previous month are `YearMonth` values;
- the stored listings and transactions are sequences.

Modelling choices:
- The setter checks neither that the listing exists nor that the date range is in order. An unknown listing makes it abort before it writes anything, and a reversed range is accepted. The model makes a known listing id and `start_date <= end_date` preconditions (see "## Left out").
- The revenue and transaction cards filter on the literal status `'approved'`, which the ledger never offers. `StatsOverview.OfferedStatusesAreNeverCounted` proves the consequence: those cards show 0 and "Down by 0%".
- The direction of a change is chosen by `p > 0` alone, so a zero change reads "Down by 0%".

## Model

| member | source | states |
|---|---|---|
| `Booking.Transaction.SetListingIdAttribute` | app/Models/Transaction.php:25-37 | the new attribute store equals `AfterSetListingId` of the old one. The listing id is the argument and the rate is the catalogue's rate at call time. Days = end − start + 1. The fee is 10% of rate × days and the total is base + fee. User, dates and status are unchanged. |
| `Booking.AfterSetListingId` | app/Models/Transaction.php:25-37 | inclusive duration ≥ 1; the rate is copied from the looked-up listing; fee = rate × days × 0.1; total = base + fee = 1.1 × base; user_id, start_date, end_date and status are kept |
| `Booking.DiffInDays` | app/Models/Transaction.php:28 | the day count added to the start date gives the end date |
| `Booking.SetterWritesOnlyDerivedAttributes` | app/Models/Transaction.php:13-23 | the only attributes whose values change are among the five the setter writes. All five are in `$fillable`, and the fillable attributes not written are exactly user_id, start_date, end_date and status. |
| `Booking.PriceBounds` | app/Models/Transaction.php:29-35 | with a non-negative rate (the listing form's `minValue(0)`): 0 ≤ fee ≤ total and total ≥ rate × days |
| `Booking.SetListingIdIdempotent` | app/Models/Transaction.php:25-37 | assigning the same listing twice against an unchanged catalogue gives the same attributes as assigning it once |
| `Booking.SetListingIdTwice` | app/Models/Transaction.php:25-37 | two in-place calls with the same id leave the state one call leaves |
| `Booking.SetListingIdReadsOnlyItsRate` | app/Models/Transaction.php:27-34 | the result depends on the catalogue only through the assigned listing's rate (the rate is copied, not referenced) |
| `Booking.SameDayRental` | app/Models/Transaction.php:28-30 | a rental that starts and ends on the same day lasts 1 day, with fee = rate × 0.1 and total = rate × 1.1 |
| `Booking.ThreeDayExample` | app/Models/Transaction.php:28-35 | rate 100 over days 1..3 gives 3 days, rate 100, fee 30 and total 330 |
| `StatsOverview.RoundToTenths` | app/Filament/Widgets/StatsOverview.php:21 | the integer is within 0.5 of 10x and has the sign of x |
| `StatsOverview.Round1` | app/Filament/Widgets/StatsOverview.php:21 | the result is a whole number of tenths, within 0.05 of x, and has the sign of x (weakly) |
| `StatsOverview.Round1IsNearest` | app/Filament/Widgets/StatsOverview.php:21 | no multiple of 0.1 is closer to x than `round(x, 1)` |
| `StatsOverview.Round1HalfAwayFromZero` | app/Filament/Widgets/StatsOverview.php:21 | rounding is odd-symmetric, and every tie goes away from zero: (n + 0.5)/10 → (n + 1)/10 and −(n + 0.5)/10 → −(n + 1)/10 for every n ≥ 0 |
| `StatsOverview.Percentage` | app/Filament/Widgets/StatsOverview.php:16-22 | a zero baseline gives 0. Otherwise the result is within 0.05 of (c − p)/p × 100. The result is always a multiple of 0.1. |
| `StatsOverview.PercentageUnchanged` | app/Filament/Widgets/StatsOverview.php:16-22 | current == prev gives 0, whether prev is zero or not |
| `StatsOverview.PercentageKeepsSign` | app/Filament/Widgets/StatsOverview.php:21 | with prev > 0: current ≥ prev gives ≥ 0 and current ≤ prev gives ≤ 0 |
| `StatsOverview.PercentageAtLeastMinusHundred` | app/Filament/Widgets/StatsOverview.php:21 | with prev > 0 and current ≥ 0 the result is ≥ −100 |
| `StatsOverview.PercentageExamples` | app/Filament/Widgets/StatsOverview.php:16-22 | (100,150) → 50, (200,150) → −25 and (50,50) → 0. (10000,10004) rounds to 0. |
| `StatsOverview.DescribeReadsBack` | app/Filament/Widgets/StatsOverview.php:54 | for a change in tenths the text is "Up by " or "Down by ", then the amount, then "%". The amount reads back as \|p\|. |
| `StatsOverview.AmountTextReadsBack` | app/Filament/Widgets/StatsOverview.php:54 | the printed amount of a non-negative whole number of tenths has the form `digits` or `digits.digit` and reads back as that number |
| `StatsOverview.Describe` | app/Filament/Widgets/StatsOverview.php:54-56 | the trending-up icon ⇔ the success colour ⇔ p > 0; the trending-down icon ⇔ the danger colour ⇔ p ≤ 0 |
| `StatsOverview.AmountText` | app/Filament/Widgets/StatsOverview.php:54 | for a non-negative multiple of 0.1: the text has a decimal point exactly when the number is not whole, and it starts with '0' only when the number is below 1 |
| `StatsOverview.AmountTextExamples` | app/Filament/Widgets/StatsOverview.php:54 | 12.5 prints as "12.5" and 50.0 prints as "50" |
| `StatsOverview.NoChangeReadsDown` | app/Filament/Widgets/StatsOverview.php:54-56 | a zero change reads "Down by 0%" with the falling icon in red |
| `StatsOverview.ApprovedIn` | app/Filament/Widgets/StatsOverview.php:36-44 | each transaction with status 'approved' created in the month occurs as often as in the ledger, and no other transaction occurs, so its length is the `->count()` |
| `StatsOverview.ListingsIn` | app/Filament/Widgets/StatsOverview.php:26-32 | each listing created in the month occurs as often as in the catalogue, and no other listing occurs |
| `StatsOverview.Revenue` | app/Filament/Widgets/StatsOverview.php:46-47 | the sum of total prices is ≥ 0 when no total price is negative |
| `StatsOverview.ApprovedInMembership` | app/Filament/Widgets/StatsOverview.php:36-44 | a transaction counts for a month exactly when its status is 'approved' and it was created in that month |
| `StatsOverview.ListingsInMembership` | app/Filament/Widgets/StatsOverview.php:26-32 | a listing counts for a month exactly when it was created in that month |
| `StatsOverview.RevenueOfCountedSet` | app/Filament/Widgets/StatsOverview.php:36-47 | a month's revenue equals the whole ledger's sum with each transaction that is not approved or not from that month counted as 0; with no negative prices it lies between 0 and the whole ledger's revenue |
| `StatsOverview.GetStats` | app/Filament/Widgets/StatsOverview.php:24-73 | three cards. The listing count is at most the number of listings. The transaction count and the revenue come from the same approved-this-month set, so a zero count means zero revenue. Each trend describes the percentage change from the previous month's figure to this month's. |
| `StatsOverview.SameMonthShowsNoChange` | app/Filament/Widgets/StatsOverview.php:24-73 | comparing a month with itself makes every card read "Down by 0%" |
| `StatsOverview.OfferedStatusesAreNeverCounted` | app/Filament/Widgets/StatsOverview.php:36-44 | on a ledger holding only the offered statuses, the transaction card shows 0 and the revenue card 0.0, and both read "Down by 0%" |
| `DecimalText.NatToDecimal` | app/Filament/Widgets/StatsOverview.php:54 | at least one digit, all digits, no leading zero |
| `DecimalText.DecimalRoundTrip` | app/Filament/Widgets/StatsOverview.php:54 | the digits read back as the number |
| `DecimalText.TenthsToString` | app/Filament/Widgets/StatsOverview.php:54 | non-empty and starting with a digit; a decimal point exactly when the tenths digit is not 0; a leading '0' only for a value below one |
| `DecimalText.TenthsRoundTrip` | app/Filament/Widgets/StatsOverview.php:54 | the printed amount has the form `digits` or `digits.digit` and reads back as the number of tenths |
| `TransactionResource.CanCreate` | app/Filament/Resources/TransactionResource.php:32-35 | creation from the ledger is never allowed |
| `TransactionResource.FormStatusOptions` | app/Filament/Resources/TransactionResource.php:91-95 | the form offers exactly pending, completed and cancelled, labelled Pending, Completed and Cancelled |
| `TransactionResource.FilterStatusOptions` | app/Filament/Resources/TransactionResource.php:149-153 | the status filter offers exactly pending, completed and cancelled, labelled Pending, Completed and Cancelled |
| `TransactionResource.StatusOptionsAgree` | app/Filament/Resources/TransactionResource.php:91-153 | the form and the filter offer the same map {pending, completed, cancelled}, and 'approved' is not in it |
| `TransactionResource.BadgeColor` | app/Filament/Resources/TransactionResource.php:129-134 | warning ⇔ pending, success ⇔ completed, danger ⇔ cancelled; any other string is grey |
| `TransactionResource.BadgeIcon` | app/Filament/Resources/TransactionResource.php:135-140 | clock ⇔ pending, check-circle ⇔ completed, x-circle ⇔ cancelled; any other string gets the question mark |
| `TransactionResource.BadgeKnownExactlyForOfferedStatuses` | app/Filament/Resources/TransactionResource.php:91-153 | a non-grey colour ⇔ a status the form offers; a non-question-mark icon ⇔ a status the filter offers; 'approved' gets grey and the question mark |
| `TransactionResource.BadgeDistinguishesOfferedStatuses` | app/Filament/Resources/TransactionResource.php:129-140 | distinct offered statuses have distinct colours and distinct icons |
| `TransactionResource.WhenFrom` | app/Filament/Resources/TransactionResource.php:163-166 | with no From date every row is kept; with one, exactly the rows starting on or after it are kept, each as often as it occurs |
| `TransactionResource.WhenTo` | app/Filament/Resources/TransactionResource.php:167-170 | with no To date every row is kept; with one, exactly the rows ending on or before it are kept, each as often as it occurs |
| `TransactionResource.DateRangeQuery` | app/Filament/Resources/TransactionResource.php:161-171 | every row within the set bounds is kept as often as it occurs in the ledger, and no other row is kept |
| `TransactionResource.DateRangeQueryIsConjunction` | app/Filament/Resources/TransactionResource.php:161-171 | the two chained `when` clauses equal a single filter by "meets every bound that is set" |
| `TransactionResource.DateRangeMembership` | app/Filament/Resources/TransactionResource.php:161-171 | a row is kept ⇔ it is in the input and meets every set bound; the output is never longer than the input |
| `TransactionResource.NoBoundsKeepsEverything` | app/Filament/Resources/TransactionResource.php:161-171 | with neither date picked, the rows are unchanged |
| `TransactionResource.FromOnly` | app/Filament/Resources/TransactionResource.php:163-166 | with only From set: kept ⇔ start_date ≥ from |
| `TransactionResource.ToOnly` | app/Filament/Resources/TransactionResource.php:167-170 | with only To set: kept ⇔ end_date ≤ to |
| `TransactionResource.FromAndTo` | app/Filament/Resources/TransactionResource.php:161-171 | with both set: kept ⇔ start_date ≥ from and end_date ≤ to |
| `Sequences.Filter` | app/Filament/Resources/TransactionResource.php:161-171 | the result is no longer than the input; each element satisfying the condition occurs as often as in the input, and no other element occurs |
| `Sequences.FilterMembership` | app/Filament/Resources/TransactionResource.php:161-171 | the query filter keeps x ⇔ x is in the input and satisfies the condition |
| `Sequences.FilterFuse` | app/Filament/Resources/TransactionResource.php:162-170 | two chained filters are the filter by their conjunction |
| `Sequences.Sum` | app/Filament/Widgets/StatsOverview.php:46-47 | a sum of non-negative terms is non-negative |
| `Sequences.SumFilter` | app/Filament/Widgets/StatsOverview.php:36-47 | summing over the kept elements equals summing over all elements with the dropped ones counted as 0 |
| `Sequences.SumMonotone` | app/Filament/Widgets/StatsOverview.php:46-47 | a termwise smaller sum is smaller |

## Left out

- Reversed date ranges: nothing in the code rejects end < start, and the sign of Carbon's `diffInDays` differs between library versions. `start_date <= end_date` is a precondition of the setter.
- Missing listing: `Listing::find` returns null for an unknown id. Reading `->price_per_day` on null at app/Models/Transaction.php:29 raises a PHP warning, which Laravel's error handler throws as an `ErrorException`. That happens before any of the writes at lines 32-36, so the setter aborts and the record is left unchanged. The precondition `value in rates` of `Booking.Transaction.SetListingIdAttribute` and `Booking.AfterSetListingId` excludes that path, so the aborting call is not modelled.
- Assignment order: the setter reads `start_date` and `end_date` as already set. This is a precondition on the object's state. The order of Eloquent's mass assignment is not modelled.
- Floating point: money and percentages are exact `real`, and `round` is exact rounding half away from zero at one decimal. IEEE drift and PHP's pre-rounding are not modelled.
- `StatsOverview.DescribeReadsBack`: PHP's float-to-string conversion is modelled only for multiples of 0.1 printed in plain decimal. Very large values, which PHP writes in exponent notation, are not modelled.
- Clock: `now()`, `subMonth()` and the 30-second polling are not modelled. The current and previous months are parameters, and the model makes no claim that they relate as Carbon's `subMonth()` does.
- Revenue card text: the `'Rp ' . number_format(...)` value text is library formatting. The card holds the revenue as a number.
- The missing sign guard in `getPercentage`: a negative baseline is accepted as written, and no property is claimed for it. Counts and sums of non-negative prices are never negative.
- app/Filament/Resources/ListingResource.php: it is declarative configuration, and its slug generation is a library call. Only the `price_per_day` `minValue(0)` bound is used, as the precondition of `Booking.PriceBounds`.
- database/seeders/DatabaseSeeder.php: it only makes factory and database calls.
- Framework plumbing: query execution, the `user()` and `listing()` relationships, table columns, navigation, pages, export and bulk actions, and the view/edit/delete actions.
