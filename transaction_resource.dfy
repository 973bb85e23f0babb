/** The read-only transaction ledger screen: the status options, the status
    badge's colour and icon, the date-range filter and the creation switch. */
module TransactionResource {
  import opened Records
  import opened Sequences

  /** Transactions are never created from the ledger screen. */
  function CanCreate(): (allowed: bool)
    ensures !allowed
  {
    false
  }

  /** The status choices of the detail form: value to label. */
  function FormStatusOptions(): (options: map<string, string>)
    ensures options.Keys == {"pending", "completed", "cancelled"}
    ensures options["pending"] == "Pending" && options["completed"] == "Completed"
    ensures options["cancelled"] == "Cancelled"
  {
    map["pending" := "Pending", "completed" := "Completed", "cancelled" := "Cancelled"]
  }

  /** The status choices of the table's status filter: value to label. */
  function FilterStatusOptions(): (options: map<string, string>)
    ensures options.Keys == {"pending", "completed", "cancelled"}
    ensures options["pending"] == "Pending" && options["completed"] == "Completed"
    ensures options["cancelled"] == "Cancelled"
  {
    map["pending" := "Pending", "completed" := "Completed", "cancelled" := "Cancelled"]
  }

  /** The form and the filter offer the same three statuses with the same labels. */
  lemma StatusOptionsAgree()
    ensures FormStatusOptions() == FilterStatusOptions()
    ensures FormStatusOptions().Keys == {"pending", "completed", "cancelled"}
    ensures "approved" !in FormStatusOptions()
  {
  }

  /** The colour of a status badge; any status not offered is grey. */
  function BadgeColor(status: string): (color: string)
    ensures color != "gray" <==> status in {"pending", "completed", "cancelled"}
    ensures color == "warning" <==> status == "pending"
    ensures color == "success" <==> status == "completed"
    ensures color == "danger" <==> status == "cancelled"
  {
    match status
    case "pending" => "warning"
    case "completed" => "success"
    case "cancelled" => "danger"
    case _ => "gray"
  }

  /** The icon of a status badge; any status not offered gets the question mark. */
  function BadgeIcon(status: string): (icon: string)
    ensures icon != "heroicon-o-question-mark-circle" <==> status in {"pending", "completed", "cancelled"}
    ensures icon == "heroicon-o-clock" <==> status == "pending"
    ensures icon == "heroicon-o-check-circle" <==> status == "completed"
    ensures icon == "heroicon-o-x-circle" <==> status == "cancelled"
  {
    match status
    case "pending" => "heroicon-o-clock"
    case "completed" => "heroicon-o-check-circle"
    case "cancelled" => "heroicon-o-x-circle"
    case _ => "heroicon-o-question-mark-circle"
  }

  /** A badge shows a specific colour, and a specific icon, exactly for the
      statuses the form and the filter offer; every other string, 'approved'
      included, falls to the default pair. */
  lemma BadgeKnownExactlyForOfferedStatuses(status: string)
    ensures BadgeColor(status) != "gray" <==> status in FormStatusOptions()
    ensures BadgeIcon(status) != "heroicon-o-question-mark-circle" <==> status in FilterStatusOptions()
    ensures BadgeColor("approved") == "gray"
    ensures BadgeIcon("approved") == "heroicon-o-question-mark-circle"
  {
  }

  /** Distinct offered statuses get distinct colours and distinct icons. */
  lemma BadgeDistinguishesOfferedStatuses(s1: string, s2: string)
    requires s1 in FormStatusOptions() && s2 in FormStatusOptions() && s1 != s2
    ensures BadgeColor(s1) != BadgeColor(s2)
    ensures BadgeIcon(s1) != BadgeIcon(s2)
  {
  }

  /** The two date pickers of the `date_range` filter; an empty picker is `None`. */
  datatype DateRangeForm = DateRangeForm(from: Option<int>, to: Option<int>)

  /** The first `when` clause: with a From date, keep rentals starting on or after it. */
  function WhenFrom(rows: seq<StoredTransaction>, from: Option<int>): (r: seq<StoredTransaction>)
    ensures forall t :: multiset(r)[t] ==
                        (if from.None? || t.attributes.startDate >= from.value then multiset(rows)[t] else 0)
  {
    match from
    case None => rows
    case Some(d) => Filter(rows, (t: StoredTransaction) => t.attributes.startDate >= d)
  }

  /** The second `when` clause: with a To date, keep rentals ending on or before it. */
  function WhenTo(rows: seq<StoredTransaction>, to: Option<int>): (r: seq<StoredTransaction>)
    ensures forall t :: multiset(r)[t] ==
                        (if to.None? || t.attributes.endDate <= to.value then multiset(rows)[t] else 0)
  {
    match to
    case None => rows
    case Some(d) => Filter(rows, (t: StoredTransaction) => t.attributes.endDate <= d)
  }

  /** A row passes the form when it meets every bound that is set. */
  predicate InDateRange(form: DateRangeForm, t: StoredTransaction)
  {
    (form.from.Some? ==> t.attributes.startDate >= form.from.value) &&
    (form.to.Some? ==> t.attributes.endDate <= form.to.value)
  }

  /** The filter's query: the two `when` clauses applied in turn. Every row within
      the set bounds is kept as often as it occurs, and no other row is. */
  function DateRangeQuery(rows: seq<StoredTransaction>, form: DateRangeForm): (r: seq<StoredTransaction>)
    ensures forall t :: multiset(r)[t] == if InDateRange(form, t) then multiset(rows)[t] else 0
  {
    WhenTo(WhenFrom(rows, form.from), form.to)
  }

  /** The chained query is one filter by the conjunction of the set bounds. */
  lemma DateRangeQueryIsConjunction(rows: seq<StoredTransaction>, form: DateRangeForm)
    ensures DateRangeQuery(rows, form) == Filter(rows, (t: StoredTransaction) => InDateRange(form, t))
  {
    var inRange := (t: StoredTransaction) => InDateRange(form, t);
    var afterFrom := (t: StoredTransaction) => form.from.Some? ==> t.attributes.startDate >= form.from.value;
    var beforeTo := (t: StoredTransaction) => form.to.Some? ==> t.attributes.endDate <= form.to.value;
    // each `when` clause is a filter, trivial when its bound is empty
    assert WhenFrom(rows, form.from) == Filter(rows, afterFrom) by {
      if form.from.None? {
        FilterKeepsAll(rows, afterFrom);
      } else {
        FilterExtensional(rows, afterFrom,
          (t: StoredTransaction) => t.attributes.startDate >= form.from.value);
      }
    }
    var mid := Filter(rows, afterFrom);
    assert WhenTo(mid, form.to) == Filter(mid, beforeTo) by {
      if form.to.None? {
        FilterKeepsAll(mid, beforeTo);
      } else {
        FilterExtensional(mid, beforeTo,
          (t: StoredTransaction) => t.attributes.endDate <= form.to.value);
      }
    }
    FilterFuse(rows, afterFrom, beforeTo, inRange);
  }

  /** A row is in the filtered ledger exactly when it is in the ledger and meets
      every bound that is set; so the output is always part of the input. */
  lemma DateRangeMembership(rows: seq<StoredTransaction>, form: DateRangeForm, t: StoredTransaction)
    ensures t in DateRangeQuery(rows, form) <==> t in rows && InDateRange(form, t)
    ensures |DateRangeQuery(rows, form)| <= |rows|
  {
    DateRangeQueryIsConjunction(rows, form);
    FilterMembership(rows, (t: StoredTransaction) => InDateRange(form, t), t);
  }

  /** With neither date picked, every row is kept, in order. */
  lemma NoBoundsKeepsEverything(rows: seq<StoredTransaction>)
    ensures DateRangeQuery(rows, DateRangeForm(None, None)) == rows
  {
  }

  /** With only From picked, exactly the rows starting on or after it are kept. */
  lemma FromOnly(rows: seq<StoredTransaction>, from: int, t: StoredTransaction)
    ensures t in DateRangeQuery(rows, DateRangeForm(Some(from), None))
        <==> t in rows && t.attributes.startDate >= from
  {
    DateRangeMembership(rows, DateRangeForm(Some(from), None), t);
  }

  /** With only To picked, exactly the rows ending on or before it are kept. */
  lemma ToOnly(rows: seq<StoredTransaction>, to: int, t: StoredTransaction)
    ensures t in DateRangeQuery(rows, DateRangeForm(None, Some(to)))
        <==> t in rows && t.attributes.endDate <= to
  {
    DateRangeMembership(rows, DateRangeForm(None, Some(to)), t);
  }

  /** With both picked, exactly the rows inside both bounds are kept. */
  lemma FromAndTo(rows: seq<StoredTransaction>, from: int, to: int, t: StoredTransaction)
    ensures t in DateRangeQuery(rows, DateRangeForm(Some(from), Some(to)))
        <==> t in rows && t.attributes.startDate >= from && t.attributes.endDate <= to
  {
    DateRangeMembership(rows, DateRangeForm(Some(from), Some(to)), t);
  }
}
