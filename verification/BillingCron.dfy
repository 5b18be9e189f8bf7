/**
  The daily billing job of job/billing_cron.go: on the day a subscription's next invoice
  date comes up it is invoiced and the date moves to the next month.
 */
module BillingCron {
  import opened Calendar
  import opened Invoices
  import opened Outbox
  import opened Subscriptions
  import opened Wrappers

  // ---------------------------------------------------------------- one subscription

  /** The billing day is clamped so that every month has it. */
  function ClampDay(day: int): int {
    if day < 1 then 1 else if day > 28 then 28 else day
  }

  function BillingDay(row: Subscription, default_: int): int {
    ClampDay(if row.billingDay.Some? then row.billingDay.value else default_)
  }

  function NextDate(due: Date, billingDay: int): Date {
    AddMonth(due).(day := billingDay)
  }

  /** resolveProfileInfo: the monthly price, if the row's profile exists. */
  function Price(env: Env, row: Subscription): Option<int> {
    match row.service
    case PPPoE =>
      if row.pppProfile.Some? && row.pppProfile.value in env.ppp then Some(env.ppp[row.pppProfile.value].price)
      else None
    case Hotspot =>
      if row.hotspotProfile.Some? && row.hotspotProfile.value in env.hotspot then
        Some(env.hotspot[row.hotspotProfile.value].price)
      else None
    case OtherService(_) => None
  }

  /** What the row's plan costs: the price of the profile its own service names. */
  ghost predicate IsPlanPrice(env: Env, row: Subscription, price: int) {
    || (row.service.PPPoE? && exists p :: row.pppProfile == Some(p) && p in env.ppp && env.ppp[p].price == price)
    || (row.service.Hotspot? && exists p :: row.hotspotProfile == Some(p) && p in env.hotspot
                                           && env.hotspot[p].price == price)
  }

  lemma PriceIsPlanPrice(env: Env, row: Subscription, price: int)
    ensures Price(env, row) == Some(price) <==> IsPlanPrice(env, row, price)
  {
  }

  /** The day the row asks for, or else the default, moved into 1..28. */
  predicate IsBillingDay(day: int, own: Option<int>, default_: int) {
    var wanted := if own.Some? then own.value else default_;
    (1 <= wanted <= 28 ==> day == wanted) && (wanted < 1 ==> day == 1) && (wanted > 28 ==> day == 28)
  }

  /** What a run finds for a subscription: the profile tables and the setting billing.default_billing_day. */
  datatype Settings = Settings(env: Env, defaultBillingDay: int)

  /** One subscription with the period starts already invoiced for it, and the amounts in the same order. */
  datatype Account = Account(row: Subscription, periods: seq<Date>, amounts: seq<int>)

  predicate Due(row: Subscription, today: Date) {
    row.status.Active? && row.nextInvoice == Some(today)
  }

  /**
    What one run does to one subscription: a second invoice for the same period is refused,
    and then the date stays.
   */
  function Bill(found: Settings, a: Account, today: Date): Account {
    if Due(a.row, today) && Price(found.env, a.row).Some? && today !in a.periods then
      var next := NextDate(today, BillingDay(a.row, found.defaultBillingDay));
      Account(a.row.(nextInvoice := Some(next)), a.periods + [today], a.amounts + [Price(found.env, a.row).value])
    else a
  }

  // ---------------------------------------------------------------- the job

  function PeriodsOf(table: Table, id: nat): (periods: seq<Date>)
    ensures forall d :: d in periods <==> exists inv :: inv in table && inv.subscription == id && inv.periodStart == d
  {
    if table == [] then []
    else
      var last := table[|table| - 1];
      PeriodsOf(table[..|table| - 1], id) + if last.subscription == id then [last.periodStart] else []
  }

  function AmountsOf(table: Table, id: nat): (amounts: seq<int>)
    ensures |amounts| == |PeriodsOf(table, id)|
  {
    if table == [] then []
    else
      var last := table[|table| - 1];
      AmountsOf(table[..|table| - 1], id) + if last.subscription == id then [last.amount] else []
  }

  function AccountOf(rows: Rows, table: Table, id: nat): Account
    requires id in rows
  {
    Account(rows[id], PeriodsOf(table, id), AmountsOf(table, id))
  }

  /** What the turn of each row finds in one run. */
  type View = nat -> Settings

  /** From one table to another the rows of `done` have been billed and all others left alone. */
  ghost predicate BilledOnly(view: View, today: Date, rows: Rows, table: Table, rowsNow: Rows, tableNow: Table,
                             done: seq<nat>) {
    rowsNow.Keys == rows.Keys &&
    forall id :: id in rows ==>
      AccountOf(rowsNow, tableNow, id) ==
      if id in done then Bill(view(id), AccountOf(rows, table, id), today) else AccountOf(rows, table, id)
  }

  lemma OneMoreBilled(view: View, today: Date, rows: Rows, table: Table, rowsBefore: Rows, tableBefore: Table,
                      rowsNow: Rows, tableNow: Table, done: seq<nat>, id: nat)
    requires BilledOnly(view, today, rows, table, rowsBefore, tableBefore, done)
    requires id in rows && id !in done && rowsNow.Keys == rowsBefore.Keys
    requires AccountOf(rowsNow, tableNow, id) == Bill(view(id), AccountOf(rowsBefore, tableBefore, id), today)
    requires forall other :: other in rowsBefore && other != id ==>
               AccountOf(rowsNow, tableNow, other) == AccountOf(rowsBefore, tableBefore, other)
    ensures BilledOnly(view, today, rows, table, rowsNow, tableNow, done + [id])
  {
  }

  /** A freshly generated invoice: issued, priced by the profile its turn found, due dueDays later. */
  ghost predicate IsBilled(inv: Invoice, view: View, rows: Rows, today: Date, dueDays: int)
    requires IsDate(today)
  {
    && inv.subscription in rows && Due(rows[inv.subscription], today)
    && inv.periodStart == today && inv.status.Issued?
    && IsPlanPrice(view(inv.subscription).env, rows[inv.subscription], inv.amount)
    && inv.due == (DayNumber(today) + dueDays) * DAY
  }

  class BillingCronJob {
    const subs: SubscriptionStore
    const invoices: InvoiceStore

    constructor (subs: SubscriptionStore, invoices: InvoiceStore)
      ensures this.subs == subs && this.invoices == invoices
    {
      this.subs, this.invoices := subs, invoices;
    }

    method Run(today: Date, dueDays: int, view: View)
      requires invoices.Valid() && IsDate(today)
      modifies subs, invoices
      ensures invoices.Valid()
      ensures subs.rows.Keys == old(subs.rows).Keys
      ensures forall id :: id in old(subs.rows) ==>
                AccountOf(subs.rows, invoices.table, id)
                == Bill(view(id), AccountOf(old(subs.rows), old(invoices.table), id), today)
      ensures old(invoices.table) <= invoices.table
      ensures forall k :: |old(invoices.table)| <= k < |invoices.table| ==>
                IsBilled(invoices.table[k], view, old(subs.rows), today, dueDays)
    {
      var ids := subs.ListActive();
      ghost var rows, table := subs.rows, invoices.table;
      for i := 0 to |ids|
        invariant invoices.Valid() && subs.rows.Keys == rows.Keys
        invariant BilledOnly(view, today, rows, table, subs.rows, invoices.table, ids[..i])
        invariant table <= invoices.table
        invariant forall k :: |table| <= k < |invoices.table| ==>
                IsBilled(invoices.table[k], view, rows, today, dueDays)
      {
        assert ids[i] in ids && ids[i] !in ids[..i];
        assert ids[..i + 1] == ids[..i] + [ids[i]];
        ghost var rowsBefore, tableBefore := subs.rows, invoices.table;
        assert AccountOf(rowsBefore, tableBefore, ids[i]) == AccountOf(rows, table, ids[i]);
        BillOne(ids[i], today, dueDays, view(ids[i]));
        OneMoreBilled(view, today, rows, table, rowsBefore, tableBefore, subs.rows, invoices.table, ids[..i], ids[i]);
      }
      assert ids[..|ids|] == ids;
    }

    /** One turn of the loop of Run. */
    method BillOne(id: nat, today: Date, dueDays: int, found: Settings)
      requires invoices.Valid() && IsDate(today)
      requires id in subs.rows && subs.rows[id].status.Active?
      modifies subs, invoices
      ensures invoices.Valid() && subs.rows.Keys == old(subs.rows).Keys
      ensures AccountOf(subs.rows, invoices.table, id)
              == Bill(found, AccountOf(old(subs.rows), old(invoices.table), id), today)
      ensures forall other :: other in old(subs.rows) && other != id ==>
                AccountOf(subs.rows, invoices.table, other) == AccountOf(old(subs.rows), old(invoices.table), other)
      ensures old(invoices.table) <= invoices.table
      ensures forall k :: |old(invoices.table)| <= k < |invoices.table| ==>
                && invoices.table[k].subscription == id
                && forall view: View :: view(id) == found ==>
                    IsBilled(invoices.table[k], view, old(subs.rows), today, dueDays)
    {
      var row := subs.rows[id];
      if row.nextInvoice.None? || row.nextInvoice.value != today {
        return;
      }
      var price := Price(found.env, row);
      if price.None? {
        return;
      }
      PriceIsPlanPrice(found.env, row, price.value);
      var created := invoices.Create(id, price.value, today, (DayNumber(today) + dueDays) * DAY);
      if !created {
        return;
      }
      var billingDay := if row.billingDay.Some? then row.billingDay.value else found.defaultBillingDay;
      if billingDay < 1 {
        billingDay := 1;
      } else if billingDay > 28 {
        billingDay := 28;
      }
      var next := AddMonth(row.nextInvoice.value).(day := billingDay);
      var _ := subs.UpdateNextInvoiceDate(id, next);
      assert invoices.table[..|invoices.table| - 1] == old(invoices.table);
    }
  }

  // ---------------------------------------------------------------- runs

  /** The fields of a row that billing reads and that an operator may edit. */
  datatype Edit = Edit(service: Service, pppProfile: Option<nat>, hotspotProfile: Option<nat>, billingDay: Option<int>)

  function Edited(row: Subscription, e: Edit): Subscription {
    row.(service := e.service, pppProfile := e.pppProfile, hotspotProfile := e.hotspotProfile,
        billingDay := e.billingDay)
  }

  /** One run of the job as one subscription sees it: the day, what it finds, and how the row reads by then. */
  datatype JobRun = JobRun(day: Date, found: Settings, edit: Edit)

  predicate Priced(r: JobRun, row: Subscription) {
    Price(r.found.env, Edited(row, r.edit)).Some?
  }

  function BillOnRun(a: Account, r: JobRun): Account {
    Bill(r.found, a.(row := Edited(a.row, r.edit)), r.day)
  }

  /** The runs of the job; profiles, settings and the row's own profile and billing day may change in between. */
  function BillRuns(a: Account, runs: seq<JobRun>): Account {
    if runs == [] then a else BillOnRun(BillRuns(a, runs[..|runs| - 1]), runs[|runs| - 1])
  }

  ghost predicate InOrder(runs: seq<JobRun>) {
    && (forall i :: 0 <= i < |runs| ==> IsDate(runs[i].day))
    && forall i, j :: 0 <= i < j < |runs| ==> runs[i].day == runs[j].day || Before(runs[i].day, runs[j].day)
  }

  /** Some run falls on this date and can price the row. */
  ghost predicate Hits(runs: seq<JobRun>, row: Subscription, d: Date) {
    exists r :: r in runs && r.day == d && Priced(r, row)
  }

  /** Every date the job writes is a real date on the clamped billing day, in a later month. */
  lemma NextDateLater(due: Date, billingDay: int)
    requires IsDate(due) && 1 <= billingDay <= 28
    ensures IsDate(NextDate(due, billingDay)) && NextDate(due, billingDay).day == billingDay
    ensures Before(due, NextDate(due, billingDay))
    ensures MonthIndex(NextDate(due, billingDay)) == MonthIndex(due) + if due.day <= NextMonthLength(due) then 1 else 2
  {
    AddMonthLands(due);
  }

  /**
    What a run that bills does: the day is invoiced at the price of the row's plan, and the
    next date falls on the row's billing day, one or two months on.
   */
  lemma BillGives(found: Settings, a: Account, today: Date) returns (price: int, next: Date)
    requires IsDate(today) && Bill(found, a, today) != a
    ensures Bill(found, a, today)
         == Account(a.row.(nextInvoice := Some(next)), a.periods + [today], a.amounts + [price])
    ensures IsPlanPrice(found.env, a.row, price)
    ensures IsDate(next) && IsBillingDay(next.day, a.row.billingDay, found.defaultBillingDay)
    ensures MonthIndex(next) == MonthIndex(today) + if today.day <= NextMonthLength(today) then 1 else 2
  {
    price := Price(found.env, a.row).value;
    next := Bill(found, a, today).row.nextInvoice.value;
    PriceIsPlanPrice(found.env, a.row, price);
    NextDateLater(today, BillingDay(a.row, found.defaultBillingDay));
  }

  /**
    The next invoice date of a row moves to the following month exactly when that month has
    the due day; else a month goes unbilled.
   */
  lemma MonthSkippedIffDayMissing(found: Settings, a: Account, today: Date)
    requires IsDate(today) && Bill(found, a, today) != a
    ensures var next := Bill(found, a, today).row.nextInvoice;
      next.Some? && (MonthIndex(next.value) == MonthIndex(today) + 1 <==> today.day <= NextMonthLength(today))
  {
    NextDateLater(today, BillingDay(a.row, found.defaultBillingDay));
  }

  /**
    Months from the first due date to the k-th: one each, save a skipped one after a first
    day the next month lacks.
   */
  function MonthsLater(first: Date, k: nat): int {
    if k > 0 && first.day > NextMonthLength(first) then k + 1 else k
  }

  /** Due dates that follow one another: each the next date of the one before, on a billing day in force then. */
  ghost predicate DueDates(dates: seq<Date>) {
    && dates != [] && IsDate(dates[0])
    && forall k :: 0 < k < |dates| ==> IsNextDate(dates[k - 1], dates[k])
  }

  ghost predicate IsNextDate(due: Date, next: Date) {
    exists billingDay :: 1 <= billingDay <= 28 && next == NextDate(due, billingDay)
  }

  lemma {:induction false} DueDatesMonthly(dates: seq<Date>, k: nat)
    requires DueDates(dates) && k < |dates|
    ensures IsDate(dates[k])
    ensures k > 0 ==> 1 <= dates[k].day <= 28
    ensures MonthIndex(dates[k]) == MonthIndex(dates[0]) + MonthsLater(dates[0], k)
    ensures forall j :: 0 <= j < k ==> Before(dates[j], dates[k])
  {
    if k > 0 {
      DueDatesMonthly(dates, k - 1);
      assert IsNextDate(dates[k - 1], dates[k]);
      var billingDay :| 1 <= billingDay <= 28 && dates[k] == NextDate(dates[k - 1], billingDay);
      NextDateLater(dates[k - 1], billingDay);
    }
  }

  /** A subscription the job can bill: active, dated, and without an invoice from the next date on. */
  ghost predicate Billable(a: Account) {
    && a.row.status.Active?
    && a.row.nextInvoice.Some? && IsDate(a.row.nextInvoice.value)
    && forall d :: d in a.periods ==> Before(d, a.row.nextInvoice.value)
  }

  /** The due dates but the last are billed with these amounts, the last one is written. */
  ghost predicate IsBilledUpTo(a: Account, dates: seq<Date>, amounts: seq<int>, after: Account) {
    && |dates| == |amounts| + 1 && after.row.status.Active?
    && after.row.nextInvoice == Some(dates[|amounts|])
    && after.periods == a.periods + dates[..|amounts|]
    && after.amounts == a.amounts + amounts
  }

  /**
    A run on this date found the row's plan at this price and its billing day, its own or the
    default, so that this is the date it wrote.
   */
  ghost predicate IsBilledBy(r: JobRun, row: Subscription, d: Date, amount: int, next: Date) {
    && r.day == d
    && IsPlanPrice(r.found.env, Edited(row, r.edit), amount)
    && IsBillingDay(next.day, r.edit.billingDay, r.found.defaultBillingDay)
  }

  ghost predicate SomeRunBilled(runs: seq<JobRun>, row: Subscription, d: Date, amount: int, next: Date) {
    exists r :: r in runs && IsBilledBy(r, row, d, amount, next)
  }

  lemma BilledIsHit(runs: seq<JobRun>, row: Subscription, d: Date, amount: int, next: Date)
    requires SomeRunBilled(runs, row, d, amount, next)
    ensures Hits(runs, row, d)
  {
    var r :| r in runs && IsBilledBy(r, row, d, amount, next);
    PriceIsPlanPrice(r.found.env, Edited(row, r.edit), amount);
  }

  lemma BilledLater(before: seq<JobRun>, last: JobRun, row: Subscription, d: Date, amount: int, next: Date)
    requires SomeRunBilled(before, row, d, amount, next) || IsBilledBy(last, row, d, amount, next)
    ensures SomeRunBilled(before + [last], row, d, amount, next)
  {
    var runs := before + [last];
    assert last in runs && forall r :: r in runs <==> r in before || r == last;
  }

  /** One more run: it bills the date written if it hits it, and otherwise leaves date and invoices alone. */
  lemma BilledNext(a: Account, dates: seq<Date>, amounts: seq<int>, now: Account, r: JobRun)
      returns (next: Date, amount: int)
    requires Billable(a) && DueDates(dates) && a.row.nextInvoice == Some(dates[0])
    requires IsBilledUpTo(a, dates, amounts, now)
    ensures var due := dates[|dates| - 1];
      && IsNextDate(due, next)
      && if r.day == due && Priced(r, a.row)
         then IsBilledUpTo(a, dates + [next], amounts + [amount], BillOnRun(now, r))
              && IsBilledBy(r, a.row, due, amount, next)
         else IsBilledUpTo(a, dates, amounts, BillOnRun(now, r))
  {
    var n := |dates| - 1;
    var billingDay := BillingDay(Edited(now.row, r.edit), r.found.defaultBillingDay);
    next := NextDate(dates[n], billingDay);
    var price := Price(r.found.env, Edited(now.row, r.edit));
    amount := if price.Some? then price.value else 0;
    PriceIsPlanPrice(r.found.env, Edited(a.row, r.edit), amount);
    assert 1 <= billingDay <= 28;
    assert dates[n] !in now.periods by {
      DueDatesMonthly(dates, n);
    }
    assert Priced(r, now.row) <==> Priced(r, a.row);
    assert (dates + [next])[..n + 1] == dates[..n] + [dates[n]];
    assert a.periods + dates[..n] + [dates[n]] == a.periods + (dates[..n] + [dates[n]]);
    assert a.amounts + amounts + [amount] == a.amounts + (amounts + [amount]);
  }

  lemma DueDatesGrow(dates: seq<Date>, next: Date)
    requires DueDates(dates) && IsNextDate(dates[|dates| - 1], next)
    ensures DueDates(dates + [next])
    ensures IsDate(next) && Before(dates[|dates| - 1], next)
  {
    var more := dates + [next];
    forall k | 0 < k < |more| ensures IsNextDate(more[k - 1], more[k]) {
      assert k < |dates| ==> more[k] == dates[k];
    }
    DueDatesMonthly(more, |dates|);
  }

  /**
    Whatever days the job runs on, in order, and whatever it finds: it bills due dates one
    after another and stops for good at the first one that no run hits.
   */
  lemma {:induction false} BillsWhatItHits(a: Account, runs: seq<JobRun>) returns (dates: seq<Date>, amounts: seq<int>)
    requires Billable(a) && InOrder(runs)
    ensures DueDates(dates) && dates[0] == a.row.nextInvoice.value
    ensures IsBilledUpTo(a, dates, amounts, BillRuns(a, runs))
    ensures forall k :: 0 <= k < |amounts| ==> SomeRunBilled(runs, a.row, dates[k], amounts[k], dates[k + 1])
    ensures !Hits(runs, a.row, dates[|amounts|])
  {
    if runs == [] {
      dates, amounts := [a.row.nextInvoice.value], [];
      assert a.periods + [] == a.periods && a.amounts + [] == a.amounts;
    } else {
      var before, last := runs[..|runs| - 1], runs[|runs| - 1];
      assert runs == before + [last];
      dates, amounts := BillsWhatItHits(a, before);
      var n, due := |amounts|, dates[|amounts|];
      var next, amount := BilledNext(a, dates, amounts, BillRuns(a, before), last);
      forall k | 0 <= k < n ensures SomeRunBilled(runs, a.row, dates[k], amounts[k], dates[k + 1]) {
        BilledLater(before, last, a.row, dates[k], amounts[k], dates[k + 1]);
      }
      if last.day == due && Priced(last, a.row) {
        BilledLater(before, last, a.row, due, amount, next);
        DueDatesGrow(dates, next);
        NothingHitsLater(runs, a.row, next);
        dates, amounts := dates + [next], amounts + [amount];
      } else {
        HitsLater(before, last, a.row, due);
      }
    }
  }

  lemma HitsLater(before: seq<JobRun>, last: JobRun, row: Subscription, d: Date)
    ensures Hits(before + [last], row, d)
       <==> Hits(before, row, d) || (last.day == d && Priced(last, row))
  {
    var runs := before + [last];
    assert last in runs && forall r :: r in runs <==> r in before || r == last;
  }

  /** No run reaches a date after the last run. */
  lemma NothingHitsLater(runs: seq<JobRun>, row: Subscription, d: Date)
    requires InOrder(runs) && runs != [] && Before(runs[|runs| - 1].day, d)
    ensures !Hits(runs, row, d)
  {
    forall r | r in runs ensures r.day != d {
      var i :| 0 <= i < |runs| && runs[i] == r;
    }
  }

  /** Consecutive runs are on the same day or on consecutive days. */
  ghost predicate Daily(runs: seq<JobRun>) {
    && (forall i :: 0 <= i < |runs| ==> IsDate(runs[i].day))
    && forall i :: 0 < i < |runs| ==> runs[i].day == runs[i - 1].day || runs[i].day == NextDay(runs[i - 1].day)
  }

  lemma {:induction false} DailyCovers(runs: seq<JobRun>, d: Date)
    requires Daily(runs) && runs != [] && IsDate(d)
    requires d == runs[0].day || Before(runs[0].day, d)
    requires d == runs[|runs| - 1].day || Before(d, runs[|runs| - 1].day)
    ensures exists r :: r in runs && r.day == d
  {
    var m := |runs| - 1;
    if d == runs[m].day {
      assert runs[m] in runs;
    } else {
      assert m > 0;
      if runs[m].day == NextDay(runs[m - 1].day) && Before(runs[m - 1].day, d) {
        NothingBetweenDays(runs[m - 1].day, d);
      }
      DailyCovers(runs[..m], d);
      var r :| r in runs[..m] && r.day == d;
      assert r in runs;
    }
  }

  lemma {:induction false} DailyInOrder(runs: seq<JobRun>)
    requires Daily(runs)
    ensures InOrder(runs)
  {
    if runs != [] {
      var m := |runs| - 1;
      DailyInOrder(runs[..m]);
      forall i | 0 <= i < m ensures runs[i].day == runs[m].day || Before(runs[i].day, runs[m].day) {
        assert runs[i] == runs[..m][i] && runs[m - 1] == runs[..m][m - 1];
        NextDayIsDate(runs[m - 1].day);
      }
      assert forall i, j :: 0 <= i < j < m ==> runs[..m][i] == runs[i] && runs[..m][j] == runs[j];
    }
  }

  /** The k-th date that is new in `after`: one of those billed since, or the one written last. */
  function NewDate(a: Account, after: Account, k: nat): Date
    requires after.row.nextInvoice.Some?
  {
    if |a.periods| + k < |after.periods| then after.periods[|a.periods| + k] else after.row.nextInvoice.value
  }

  /**
    The k-th new date is billed by a run on it, at the price and with the next date that run
    gives it, in the month that is its turn, and no later than the last run.
   */
  ghost predicate IsBilledInTurn(a: Account, runs: seq<JobRun>, after: Account, k: nat)
    requires a.row.nextInvoice.Some? && after.row.nextInvoice.Some? && runs != []
    requires |a.amounts| + k < |after.amounts|
  {
    var d, last := NewDate(a, after, k), runs[|runs| - 1].day;
    && (d == last || Before(d, last))
    && MonthIndex(d) == MonthIndex(a.row.nextInvoice.value) + MonthsLater(a.row.nextInvoice.value, k)
    && SomeRunBilled(runs, a.row, d, after.amounts[|a.amounts| + k], NewDate(a, after, k + 1))
  }

  /**
    Run every day, once or more, from the next invoice date or earlier, with profiles, billing
    days and settings changing as they may so long as there is a price: exactly the due
    dates up to the last run are billed, each at the price its run found, and each next date
    is on the billing day its run found.  They fall in consecutive calendar months, one
    each, across year ends -- save that the first month is followed by a skipped one
    exactly when it starts on a day the next month does not have.
   */
  lemma {:induction false} OneInvoicePerMonth(a: Account, runs: seq<JobRun>) returns (n: nat)
    requires Billable(a) && Daily(runs) && runs != []
    requires forall r :: r in runs ==> Priced(r, a.row)
    requires runs[0].day == a.row.nextInvoice.value || Before(runs[0].day, a.row.nextInvoice.value)
    ensures var first, last, after := a.row.nextInvoice.value, runs[|runs| - 1].day, BillRuns(a, runs);
      && |after.periods| == |a.periods| + n && after.periods[..|a.periods|] == a.periods
      && |after.amounts| == |a.amounts| + n && after.amounts[..|a.amounts|] == a.amounts
      && after.row.nextInvoice.Some? && NewDate(a, after, 0) == first
      && (forall k :: 0 <= k < n ==> IsBilledInTurn(a, runs, after, k))
      && Before(last, NewDate(a, after, n))
      && MonthIndex(NewDate(a, after, n)) == MonthIndex(first) + MonthsLater(first, n)
  {
    DailyInOrder(runs);
    var dates, amounts := BillsWhatItHits(a, runs);
    n := |amounts|;
    DueDatesMonthly(dates, n);
    NotHitIsLater(a.row, runs, dates[n]);
    var after := BillRuns(a, runs);
    forall k | 0 <= k <= n ensures NewDate(a, after, k) == dates[k] {
    }
    forall k | 0 <= k < n ensures IsBilledInTurn(a, runs, after, k) {
      assert NewDate(a, after, k) == dates[k] && NewDate(a, after, k + 1) == dates[k + 1];
      assert after.amounts[|a.amounts| + k] == amounts[k];
      assert SomeRunBilled(runs, a.row, dates[k], amounts[k], dates[k + 1]);
      BilledIsHit(runs, a.row, dates[k], amounts[k], dates[k + 1]);
      BilledInTime(runs, a.row, dates, k);
    }
  }

  ghost predicate IsBilledInTime(dates: seq<Date>, k: nat, last: Date)
    requires k < |dates|
  {
    && (dates[k] == last || Before(dates[k], last))
    && MonthIndex(dates[k]) == MonthIndex(dates[0]) + MonthsLater(dates[0], k)
  }

  lemma BilledInTime(runs: seq<JobRun>, row: Subscription, dates: seq<Date>, k: nat)
    requires InOrder(runs) && DueDates(dates) && k < |dates| && runs != [] && Hits(runs, row, dates[k])
    ensures IsBilledInTime(dates, k, runs[|runs| - 1].day)
  {
    DueDatesMonthly(dates, k);
    var r :| r in runs && r.day == dates[k];
    var i :| 0 <= i < |runs| && runs[i] == r;
  }

  /** With daily runs that can price the row, only a date after the last run is not hit. */
  lemma NotHitIsLater(row: Subscription, runs: seq<JobRun>, d: Date)
    requires Daily(runs) && runs != [] && IsDate(d) && !Hits(runs, row, d)
    requires forall r :: r in runs ==> Priced(r, row)
    requires d == runs[0].day || Before(runs[0].day, d)
    ensures Before(runs[|runs| - 1].day, d)
  {
    if !Before(runs[|runs| - 1].day, d) {
      DailyCovers(runs, d);
      assert false;
    }
  }

  /** Neither the next date nor the invoices nor the status moved. */
  predicate StandsStill(a: Account, after: Account) {
    after.row.nextInvoice == a.row.nextInvoice && after.periods == a.periods && after.row.status == a.row.status
  }

  /** A missed day is never made up for: once the runs are past the next date, nothing is ever billed again. */
  lemma {:induction false} MissedDayStopsBilling(a: Account, runs: seq<JobRun>)
    requires a.row.nextInvoice.Some?
    requires forall r :: r in runs ==> Before(a.row.nextInvoice.value, r.day)
    ensures StandsStill(a, BillRuns(a, runs))
  {
    BillsIffNew(a, runs);
  }

  /** The row is active, some run on its next date finds a price, and that period has no invoice yet. */
  ghost predicate MovesOn(a: Account, runs: seq<JobRun>) {
    && a.row.status.Active? && a.row.nextInvoice.Some?
    && a.row.nextInvoice.value !in a.periods && Hits(runs, a.row, a.row.nextInvoice.value)
  }

  /**
    Over any runs, in any order, with anything changing between them, and for any row:
    billing gets past the next date if and only if the row is active, a run on that date
    finds its price, and the period has no invoice.  Otherwise neither the date nor the
    invoices ever change.
   */
  lemma {:induction false} BillsIffNew(a: Account, runs: seq<JobRun>)
    ensures MovesOn(a, runs) ==> a.periods + [a.row.nextInvoice.value] <= BillRuns(a, runs).periods
    ensures !MovesOn(a, runs) ==> StandsStill(a, BillRuns(a, runs))
  {
    if runs != [] {
      var before, last := runs[..|runs| - 1], runs[|runs| - 1];
      assert runs == before + [last];
      BillsIffNew(a, before);
      if a.row.nextInvoice.Some? {
        HitsLater(before, last, a.row, a.row.nextInvoice.value);
      }
    }
  }

  /** The case of an invoice that exists already: whatever days the job runs on, nothing is ever billed. */
  lemma {:induction false} ExistingInvoiceStopsBilling(a: Account, runs: seq<JobRun>)
    requires a.row.nextInvoice.Some? && a.row.nextInvoice.value in a.periods
    ensures StandsStill(a, BillRuns(a, runs))
  {
    BillsIffNew(a, runs);
  }

  /** The case of a price that cannot be found on the due day alone: later runs that find it bill nothing either. */
  lemma {:induction false} FailedLookupStopsBilling(a: Account, runs: seq<JobRun>)
    requires a.row.nextInvoice.Some?
    requires forall r :: r in runs && r.day == a.row.nextInvoice.value ==> !Priced(r, a.row)
    ensures StandsStill(a, BillRuns(a, runs))
  {
    BillsIffNew(a, runs);
  }
}
