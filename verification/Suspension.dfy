/**
  The daily suspension check of job/suspension_check.go: overdue invoices are marked,
  and their subscriptions are throttled ("isolir") or suspended in the database.
  Notifications, audit rows and failing store writes are not modelled.
 */
module Suspension {
  import opened Calendar
  import opened Invoices
  import opened Subscriptions
  import opened Wrappers

  /** billing.isolir_after_days and billing.hard_suspend_after_days. */
  datatype Limits = Limits(isolirAfter: int, hardSuspendAfter: int)

  /** Whole days since the due date; only asked about invoices that are past due. */
  function DaysPastDue(inv: Invoice, now: int): int {
    (now - inv.due) / DAY
  }

  // ---------------------------------------------------------------- specification

  /** The most days any unpaid past-due invoice of the subscription is late. */
  function Worst(table: Table, now: int, subscription: nat): Option<int> {
    if table == [] then None
    else
      var rest, inv := Worst(table[1..], now, subscription), table[0];
      if inv.subscription != subscription || !IsPastDue(inv, now) then rest
      else if rest.Some? && rest.value >= DaysPastDue(inv, now) then rest
      else Some(DaysPastDue(inv, now))
  }

  function Enforce(row: Subscription, worst: Option<int>, limits: Limits): Subscription {
    if worst.None? then row
    else if worst.value >= limits.hardSuspendAfter then
      if row.status.Active? || row.status.Isolir? then row.(status := Status.Suspended, sync := PendingDisable) else row
    else if worst.value >= limits.isolirAfter && row.status.Active? then
      row.(status := Isolir, sync := PendingProfileChange)
    else row
  }

  function EnforceAll(rows: Rows, table: Table, now: int, limits: Limits): Rows {
    map id | id in rows :: Enforce(rows[id], Worst(table, now, id), limits)
  }

  function Marked(inv: Invoice, now: int): Invoice {
    if IsPastDue(inv, now) then inv.(status := InvoiceStatus.Overdue) else inv
  }

  function MarkAll(table: Table, now: int): (marked: Table)
    ensures |marked| == |table|
    ensures forall k :: 0 <= k < |table| ==> marked[k] == Marked(table[k], now)
  {
    if table == [] then [] else [Marked(table[0], now)] + MarkAll(table[1..], now)
  }

  // ---------------------------------------------------------------- the job

  /** The candidate sets the first loop builds: some late invoice of the subscription reaches the limit. */
  ghost predicate ReachesLimit(overdue: Table, now: int, subscription: nat, from: int) {
    exists k :: 0 <= k < |overdue| && overdue[k].subscription == subscription && DaysPastDue(overdue[k], now) >= from
  }

  class SuspensionCheckJob {
    const subs: SubscriptionStore
    const invoices: InvoiceStore

    constructor (subs: SubscriptionStore, invoices: InvoiceStore)
      ensures this.subs == subs && this.invoices == invoices
    {
      this.subs, this.invoices := subs, invoices;
    }

    method Run(now: int, today: Date, limits: Limits)
      requires invoices.Valid()
      modifies subs, invoices
      ensures invoices.Valid()
      ensures subs.rows == EnforceAll(old(subs.rows), old(invoices.table), now, limits)
      ensures invoices.table == MarkAll(old(invoices.table), now)
      ensures forall k :: 0 <= k < |old(invoices.table)| ==>
                invoices.table[k] == if old(invoices.table)[k].status.Issued? && old(invoices.table)[k].due < now
                                     then old(invoices.table)[k].(status := InvoiceStatus.Overdue)
                                     else old(invoices.table)[k]
    {
      ghost var table, rows := invoices.table, subs.rows;
      var overdue, at := invoices.ListOverdue(now);
      OverdueListed(table, now, overdue, at);
      var isolir, suspend := MarkOverdue(overdue, now, limits);
      IsolateCandidates(isolir, suspend, today);
      SuspendCandidates(suspend, today);
      forall id | id in rows
        ensures subs.rows[id] == Enforce(rows[id], Worst(table, now, id), limits) {
        WorstReaches(table, overdue, now, id, limits.hardSuspendAfter);
        WorstReaches(table, overdue, now, id, limits.isolirAfter);
      }
    }

    /** The loop over the overdue invoices: mark each one and file its subscription. */
    method MarkOverdue(overdue: seq<Invoice>, now: int, limits: Limits) returns (isolir: set<nat>, suspend: set<nat>)
      requires invoices.Valid()
      requires forall inv :: inv in overdue <==> inv in invoices.table && IsPastDue(inv, now)
      modifies invoices
      ensures invoices.Valid()
      ensures invoices.table == MarkAll(old(invoices.table), now)
      ensures forall id :: id in suspend <==> ReachesLimit(overdue, now, id, limits.hardSuspendAfter)
      ensures forall id :: id !in suspend ==> (id in isolir <==> ReachesLimit(overdue, now, id, limits.isolirAfter))
    {
      ghost var table := invoices.table;
      isolir, suspend := {}, {};
      for i := 0 to |overdue|
        invariant invoices.Valid() && |invoices.table| == |table|
        invariant forall k :: 0 <= k < |table| ==>
                    invoices.table[k] == if table[k] in overdue[..i] then Marked(table[k], now) else table[k]
        invariant forall id :: id in suspend <==> ReachesLimit(overdue[..i], now, id, limits.hardSuspendAfter)
        invariant forall id :: id !in suspend ==>
                (id in isolir <==> ReachesLimit(overdue[..i], now, id, limits.isolirAfter))
      {
        assert overdue[i] in overdue;
        if overdue[i].status.Issued? {
          var _ := invoices.UpdateStatus(overdue[i].id, InvoiceStatus.Overdue);
        }
        assert overdue[..i + 1] == overdue[..i] + [overdue[i]];
        var days := DaysPastDue(overdue[i], now);
        if days >= limits.hardSuspendAfter {
          suspend := suspend + {overdue[i].subscription};
        } else if days >= limits.isolirAfter {
          isolir := isolir + {overdue[i].subscription};
        }
        forall id ensures id in suspend <==> ReachesLimit(overdue[..i + 1], now, id, limits.hardSuspendAfter)
                  ensures id !in suspend ==>
                          (id in isolir <==> ReachesLimit(overdue[..i + 1], now, id, limits.isolirAfter)) {
          ReachesNext(overdue, now, id, limits.hardSuspendAfter, i);
          ReachesNext(overdue, now, id, limits.isolirAfter, i);
        }
      }
      assert overdue[..|overdue|] == overdue;
    }

    method IsolateCandidates(isolir: set<nat>, suspend: set<nat>, today: Date)
      modifies subs
      ensures subs.rows.Keys == old(subs.rows).Keys
      ensures forall id :: id in old(subs.rows) ==>
                subs.rows[id] == if id in isolir && id !in suspend && old(subs.rows)[id].status.Active?
                                 then old(subs.rows)[id].(status := Isolir, sync := PendingProfileChange)
                                 else old(subs.rows)[id]
    {
      var left := isolir;
      while left != {}
        invariant left <= isolir
        invariant subs.rows.Keys == old(subs.rows).Keys
        invariant forall id :: id in old(subs.rows) ==>
                    subs.rows[id] == if id in isolir - left && id !in suspend && old(subs.rows)[id].status.Active?
                                     then old(subs.rows)[id].(status := Isolir, sync := PendingProfileChange)
                                     else old(subs.rows)[id]
      {
        var id :| id in left;
        left := left - {id};
        if id in suspend || id !in subs.rows || !subs.rows[id].status.Active? {
          continue;
        }
        var _ := subs.UpdateStatus(id, Isolir, today);
        var _ := subs.UpdateSyncStatus(id, PendingProfileChange);
      }
    }

    method SuspendCandidates(suspend: set<nat>, today: Date)
      modifies subs
      ensures subs.rows.Keys == old(subs.rows).Keys
      ensures forall id :: id in old(subs.rows) ==>
                subs.rows[id] == if id in suspend
                                    && (old(subs.rows)[id].status.Active? || old(subs.rows)[id].status.Isolir?)
                                 then old(subs.rows)[id].(status := Status.Suspended, sync := PendingDisable)
                                 else old(subs.rows)[id]
    {
      var left := suspend;
      while left != {}
        invariant left <= suspend
        invariant subs.rows.Keys == old(subs.rows).Keys
        invariant forall id :: id in old(subs.rows) ==>
                    subs.rows[id] == if id in suspend - left
                                        && (old(subs.rows)[id].status.Active? || old(subs.rows)[id].status.Isolir?)
                                     then old(subs.rows)[id].(status := Status.Suspended, sync := PendingDisable)
                                     else old(subs.rows)[id]
      {
        var id :| id in left;
        left := left - {id};
        if id !in subs.rows || (!subs.rows[id].status.Active? && !subs.rows[id].status.Isolir?) {
          continue;
        }
        var _ := subs.UpdateStatus(id, Status.Suspended, today);
        var _ := subs.UpdateSyncStatus(id, PendingDisable);
      }
    }
  }

  lemma ReachesNext(overdue: Table, now: int, id: nat, from: int, i: nat)
    requires i < |overdue|
    ensures ReachesLimit(overdue[..i + 1], now, id, from) <==>
            ReachesLimit(overdue[..i], now, id, from)
                || (overdue[i].subscription == id && DaysPastDue(overdue[i], now) >= from)
  {
    if ReachesLimit(overdue[..i], now, id, from) {
      var k :| 0 <= k < i && overdue[..i][k].subscription == id && DaysPastDue(overdue[..i][k], now) >= from;
      assert overdue[..i + 1][k] == overdue[..i][k];
    }
    if overdue[i].subscription == id && DaysPastDue(overdue[i], now) >= from {
      assert overdue[..i + 1][i] == overdue[i];
    }
    if ReachesLimit(overdue[..i + 1], now, id, from) {
      var k :| 0 <= k < i + 1 && overdue[..i + 1][k].subscription == id
               && DaysPastDue(overdue[..i + 1][k], now) >= from;
      if k < i {
        assert overdue[..i][k] == overdue[..i + 1][k];
      }
    }
  }

  /** The candidate test of the loop is a test of the maximum. */
  lemma WorstReaches(table: Table, overdue: Table, now: int, id: nat, from: int)
    requires forall inv :: inv in overdue <==> inv in table && IsPastDue(inv, now)
    ensures ReachesLimit(overdue, now, id, from) <==> Worst(table, now, id).Some? && Worst(table, now, id).value >= from
  {
    WorstIsMaximum(table, now, id);
    var worst := Worst(table, now, id);
    if ReachesLimit(overdue, now, id, from) {
      var k :| 0 <= k < |overdue| && overdue[k].subscription == id && DaysPastDue(overdue[k], now) >= from;
      assert overdue[k] in overdue;
    }
    if worst.Some? && worst.value >= from {
      var inv :| inv in table && inv.subscription == id && IsPastDue(inv, now) && DaysPastDue(inv, now) == worst.value;
      assert inv in overdue;
      var k :| 0 <= k < |overdue| && overdue[k] == inv;
    }
  }

  lemma {:induction false} WorstIsMaximum(table: Table, now: int, id: nat)
    ensures var worst := Worst(table, now, id);
      && (forall inv :: inv in table && inv.subscription == id && IsPastDue(inv, now) ==>
            worst.Some? && worst.value >= DaysPastDue(inv, now))
      && (worst.Some? ==> exists inv :: inv in table && inv.subscription == id && IsPastDue(inv, now)
                                        && DaysPastDue(inv, now) == worst.value)
  {
    if table != [] {
      WorstIsMaximum(table[1..], now, id);
      assert table[0] in table;
      assert forall inv :: inv in table <==> inv == table[0] || inv in table[1..];
    }
  }

  /** Days past due are the full days that have gone by. */
  lemma DaysAreElapsed(inv: Invoice, now: int, days: int)
    ensures DaysPastDue(inv, now) >= days <==> now - inv.due >= days * 86_400_000_000_000
  {
  }

  /** Some unpaid invoice of the subscription is past due, for at least this many full days. */
  ghost predicate IsLate(table: Table, now: int, id: nat, days: int) {
    exists inv :: inv in table && inv.subscription == id && IsLateBy(inv, now, days)
  }

  predicate IsLateBy(inv: Invoice, now: int, days: int) {
    (inv.status.Issued? || inv.status.Overdue?) && inv.due < now && now - inv.due >= days * 86_400_000_000_000
  }

  lemma WorstIsLate(table: Table, now: int, id: nat, days: int)
    ensures Worst(table, now, id).Some? && Worst(table, now, id).value >= days <==> IsLate(table, now, id, days)
  {
    WorstIsMaximum(table, now, id);
    var worst := Worst(table, now, id);
    if worst.Some? && worst.value >= days {
      var inv :| inv in table && inv.subscription == id && IsPastDue(inv, now) && DaysPastDue(inv, now) == worst.value;
      DaysAreElapsed(inv, now, days);
    }
    if IsLate(table, now, id, days) {
      var inv :| inv in table && inv.subscription == id && IsLateBy(inv, now, days);
      DaysAreElapsed(inv, now, days);
    }
  }

  /**
    The check in terms of time gone by: an active or throttled row is suspended exactly when
    some unpaid invoice is late by the hard limit, an active one is throttled exactly when
    one is late by the lower limit only, each is queued for its router, and every other row
    stays as it is.
   */
  lemma EnforcedByAge(row: Subscription, table: Table, now: int, id: nat, limits: Limits)
    ensures var after := Enforce(row, Worst(table, now, id), limits);
      var suspend := (row.status.Active? || row.status.Isolir?) && IsLate(table, now, id, limits.hardSuspendAfter);
      var isolir := row.status.Active? && IsLate(table, now, id, limits.isolirAfter) && !suspend;
      && (suspend ==> after.status.Suspended? && after.sync.PendingDisable?)
      && (isolir ==> after.status.Isolir? && after.sync.PendingProfileChange?)
      && (!suspend && !isolir ==> after == row)
      && after.(status := row.status, sync := row.sync) == row
  {
    WorstIsLate(table, now, id, limits.hardSuspendAfter);
    WorstIsLate(table, now, id, limits.isolirAfter);
  }

  // ---------------------------------------------------------------- composition of runs

  lemma {:induction false} MarkTwice(table: Table, t1: int, t2: int)
    requires t1 <= t2
    ensures MarkAll(MarkAll(table, t1), t2) == MarkAll(table, t2)
  {
  }

  lemma {:induction false} WorstAfterMarking(table: Table, t1: int, t2: int, id: nat)
    ensures Worst(MarkAll(table, t1), t2, id) == Worst(table, t2, id)
  {
    if table != [] {
      WorstAfterMarking(table[1..], t1, t2, id);
      assert MarkAll(table, t1)[1..] == MarkAll(table[1..], t1);
    }
  }

  lemma {:induction false} WorstGrows(table: Table, t1: int, t2: int, id: nat)
    requires t1 <= t2
    ensures Worst(table, t1, id).Some? ==>
              Worst(table, t2, id).Some? && Worst(table, t2, id).value >= Worst(table, t1, id).value
  {
    if table != [] {
      WorstGrows(table[1..], t1, t2, id);
      DaysGrow(table[0], t1, t2);
    }
  }

  lemma DaysGrow(inv: Invoice, t1: int, t2: int)
    requires t1 <= t2
    ensures DaysPastDue(inv, t1) <= DaysPastDue(inv, t2)
  {
  }

  /** Limits that reach at least as far as others. */
  predicate NotLarger(later: Limits, earlier: Limits) {
    later.isolirAfter <= earlier.isolirAfter && later.hardSuspendAfter <= earlier.hardSuspendAfter
  }

  /**
    A run at t1 followed by one at t2 >= t1, under limits that were not raised in between,
    leaves exactly what a run at t2 alone leaves.
   */
  lemma RunsCompose(rows: Rows, table: Table, t1: int, t2: int, first: Limits, second: Limits)
    requires t1 <= t2 && NotLarger(second, first)
    ensures MarkAll(MarkAll(table, t1), t2) == MarkAll(table, t2)
    ensures EnforceAll(EnforceAll(rows, table, t1, first), MarkAll(table, t1), t2, second)
            == EnforceAll(rows, table, t2, second)
  {
    MarkTwice(table, t1, t2);
    forall id | id in rows
      ensures Enforce(Enforce(rows[id], Worst(table, t1, id), first), Worst(MarkAll(table, t1), t2, id), second)
              == Enforce(rows[id], Worst(table, t2, id), second) {
      WorstAfterMarking(table, t1, t2, id);
      WorstGrows(table, t1, t2, id);
    }
  }

  /** Running the check again the same instant changes nothing. */
  lemma RunIsIdempotent(rows: Rows, table: Table, now: int, limits: Limits)
    ensures MarkAll(MarkAll(table, now), now) == MarkAll(table, now)
    ensures EnforceAll(EnforceAll(rows, table, now, limits), MarkAll(table, now), now, limits)
            == EnforceAll(rows, table, now, limits)
  {
    RunsCompose(rows, table, now, now, limits, limits);
  }
}
