/**
  Settling a payment (applySettlement of service/payment/service.go): the invoice is paid,
  and a throttled or suspended subscription becomes active again, with the change its
  router account needs put in the outbox.  Which payments are confirmed is not modelled.
 */
module Payments {
  import opened Calendar
  import opened Invoices
  import opened Subscriptions
  import opened Suspension
  import opened Wrappers

  /** What a settled payment does to the subscription it is for. */
  function Restored(row: Subscription, today: Date): Subscription {
    match row.status
    case Isolir => WithSync(WithStatus(row, Active, today), PendingProfileChange)
    case Suspended => WithSync(WithStatus(row, Active, today), PendingEnable)
    case _ => row
  }

  function RestoredRows(rows: Rows, subscription: nat, today: Date): Rows {
    if subscription in rows then rows[subscription := Restored(rows[subscription], today)] else rows
  }

  class PaymentService {
    const subs: SubscriptionStore
    const invoices: InvoiceStore

    constructor (subs: SubscriptionStore, invoices: InvoiceStore)
      ensures this.subs == subs && this.invoices == invoices
    {
      this.subs, this.invoices := subs, invoices;
    }

    /** A payment of an unknown invoice changes nothing. */
    method ApplySettlement(invoice: nat, today: Date)
      requires invoices.Valid()
      modifies subs, invoices
      ensures invoices.Valid()
      ensures invoices.table == WithInvoiceStatus(old(invoices.table), invoice, Paid)
      ensures forall inv :: inv in old(invoices.table) && inv.id == invoice ==>
                subs.rows == RestoredRows(old(subs.rows), inv.subscription, today)
      ensures (forall inv :: inv in old(invoices.table) ==> inv.id != invoice) ==> subs.rows == old(subs.rows)
    {
      var _ := invoices.UpdateStatus(invoice, Paid);
      var inv := invoices.GetByID(invoice);
      if inv.None? {
        return;
      }
      var id := inv.value.subscription;
      if id !in subs.rows {
        return;
      }
      if subs.rows[id].status.Isolir? {
        var _ := subs.UpdateStatus(id, Active, today);
        var _ := subs.UpdateSyncStatus(id, PendingProfileChange);
      } else if subs.rows[id].status.Suspended? {
        var _ := subs.UpdateStatus(id, Active, today);
        var _ := subs.UpdateSyncStatus(id, PendingEnable);
      }
    }
  }

  /**
    A restored row is active, dated, and queued for what undoes its state: the profile of a
    throttled one, the lock of a suspended one.  Everything else about it stays.
   */
  lemma RestoredIs(row: Subscription, today: Date)
    requires row.status.Isolir? || row.status.Suspended?
    ensures var r := Restored(row, today);
      && r.status.Active? && IsPending(r)
      && (row.status.Isolir? <==> r.sync.PendingProfileChange?) && (row.status.Suspended? <==> r.sync.PendingEnable?)
      && r.nextInvoice == Some(if row.nextInvoice.Some? then row.nextInvoice.value else today)
      && r.(status := row.status, sync := row.sync, nextInvoice := row.nextInvoice) == row
  {
  }

  /** An invoice of the subscription, other than the paid one, that is unpaid and at least so many days late. */
  ghost predicate StillLate(table: Table, paid: nat, now: int, id: nat, days: int) {
    exists inv :: inv in table && inv.id != paid && inv.subscription == id && IsLateBy(inv, now, days)
  }

  lemma PaidIsNotLate(table: Table, paid: nat, now: int, id: nat, days: int)
    ensures IsLate(WithInvoiceStatus(table, paid, Paid), now, id, days) <==> StillLate(table, paid, now, id, days)
  {
    var after := WithInvoiceStatus(table, paid, Paid);
    if IsLate(after, now, id, days) {
      var inv :| inv in after && inv.subscription == id && IsLateBy(inv, now, days);
      var k :| 0 <= k < |after| && after[k] == inv;
      assert table[k] in table && table[k] == inv;
    }
    if StillLate(table, paid, now, id, days) {
      var inv :| inv in table && inv.id != paid && inv.subscription == id && IsLateBy(inv, now, days);
      var k :| 0 <= k < |table| && table[k] == inv;
      assert after[k] == inv;
    }
  }

  /**
    Paying restores whatever else is owed.  The next check takes it back exactly when another
    invoice is late enough: the restored customer stays active if and only if none of the
    other unpaid invoices has reached a limit.
   */
  lemma CheckAfterPayment(row: Subscription, table: Table, paid: nat, now: int, limits: Limits, today: Date, id: nat)
    requires row.status.Isolir? || row.status.Suspended?
    ensures var after := Enforce(Restored(row, today), Worst(WithInvoiceStatus(table, paid, Paid), now, id), limits);
      && (after.status.Suspended? <==> StillLate(table, paid, now, id, limits.hardSuspendAfter))
      && (after.status.Isolir? <==>
            (StillLate(table, paid, now, id, limits.isolirAfter)
             && !StillLate(table, paid, now, id, limits.hardSuspendAfter)))
      && (after == Restored(row, today) <==>
            (!StillLate(table, paid, now, id, limits.isolirAfter)
             && !StillLate(table, paid, now, id, limits.hardSuspendAfter)))
  {
    RestoredIs(row, today);
    EnforcedByAge(Restored(row, today), WithInvoiceStatus(table, paid, Paid), now, id, limits);
    PaidIsNotLate(table, paid, now, id, limits.hardSuspendAfter);
    PaidIsNotLate(table, paid, now, id, limits.isolirAfter);
  }
}
