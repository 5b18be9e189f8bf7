/** The subscription table of store/subscription_store.go: rows and their targeted updates. */
module Subscriptions {
  import opened Calendar
  import opened Wrappers

  datatype Status = PendingInstall | Active | Isolir | Suspended | Terminated

  /** `Other` stands for a string no job knows. */
  datatype SyncStatus =
    | Synced | Error
    | PendingCreate | PendingProfileChange | PendingDisable | PendingEnable | PendingDelete
    | Other(text: string)

  datatype Service = PPPoE | Hotspot | OtherService(text: string)

  datatype Subscription = Subscription(
    device: nat, service: Service, username: string, password: string,
    pppProfile: Option<nat>, hotspotProfile: Option<nat>,
    status: Status, sync: SyncStatus, retries: nat,
    billingDay: Option<int>, nextInvoice: Option<Date>)

  type Rows = map<nat, Subscription>

  predicate IsPending(row: Subscription) {
    !row.sync.Synced? && !row.sync.Error?
  }

  function Pending(rows: Rows): set<nat> {
    set id | id in rows && IsPending(rows[id])
  }

  /** What ListPendingSync may return: as many pending rows as fit under the limit, in any order. */
  ghost predicate IsPendingBatch(rows: Rows, limit: nat, batch: seq<nat>) {
    && (forall i :: 0 <= i < |batch| ==> batch[i] in Pending(rows))
    && (forall i, j :: 0 <= i < j < |batch| ==> batch[i] != batch[j])
    && |batch| == if |Pending(rows)| < limit then |Pending(rows)| else limit
  }

  function WithStatus(row: Subscription, status: Status, today: Date): Subscription {
    row.(status := status,
         nextInvoice := if status.Active? && row.nextInvoice.None? then Some(today) else row.nextInvoice)
  }

  function WithSync(row: Subscription, sync: SyncStatus): Subscription {
    row.(sync := sync, retries := if sync.Synced? then 0 else row.retries)
  }

  /** gormSubscriptionStore. An update of an id without a row reports false and changes nothing. */
  class SubscriptionStore {
    var rows: Rows

    constructor (rows: Rows)
      ensures this.rows == rows
    {
      this.rows := rows;
    }

    method UpdateStatus(id: nat, status: Status, today: Date) returns (found: bool)
      modifies this
      ensures found == (id in old(rows))
      ensures rows == if found then old(rows)[id := WithStatus(old(rows)[id], status, today)] else old(rows)
      ensures found && (!status.Active? || old(rows)[id].nextInvoice.Some?) ==>
                rows[id] == old(rows)[id].(status := status)
      ensures found && status.Active? && old(rows)[id].nextInvoice.None? ==>
                rows[id] == old(rows)[id].(status := Active, nextInvoice := Some(today))
    {
      found := id in rows;
      if found {
        var row := rows[id].(status := status);
        if status.Active? && row.nextInvoice.None? {
          row := row.(nextInvoice := Some(today));
        }
        rows := rows[id := row];
      }
    }

    method UpdateSyncStatus(id: nat, sync: SyncStatus) returns (found: bool)
      modifies this
      ensures found == (id in old(rows))
      ensures rows == if found then old(rows)[id := WithSync(old(rows)[id], sync)] else old(rows)
      ensures found && sync.Synced? ==> rows[id] == old(rows)[id].(sync := Synced, retries := 0)
      ensures found && !sync.Synced? ==> rows[id] == old(rows)[id].(sync := sync)
    {
      found := id in rows;
      if found {
        var row := rows[id].(sync := sync);
        if sync.Synced? {
          row := row.(retries := 0);
        }
        rows := rows[id := row];
      }
    }

    method IncrSyncRetry(id: nat) returns (retries: nat, found: bool)
      modifies this
      ensures found == (id in old(rows))
      ensures retries == if found then old(rows)[id].retries + 1 else 0
      ensures rows == if found then old(rows)[id := old(rows)[id].(retries := retries)] else old(rows)
    {
      retries, found := 0, id in rows;
      if found {
        rows := rows[id := rows[id].(retries := rows[id].retries + 1)];
        retries := rows[id].retries;
      }
    }

    method UpdateNextInvoiceDate(id: nat, next: Date) returns (found: bool)
      modifies this
      ensures found == (id in old(rows))
      ensures rows == if found then old(rows)[id := old(rows)[id].(nextInvoice := Some(next))] else old(rows)
    {
      found := id in rows;
      if found {
        rows := rows[id := rows[id].(nextInvoice := Some(next))];
      }
    }

    method ListPendingSync(limit: nat) returns (batch: seq<nat>)
      ensures IsPendingBatch(rows, limit, batch)
    {
      batch := [];
      var left := Pending(rows);
      while left != {} && |batch| < limit
        invariant left <= Pending(rows)
        invariant |batch| + |left| == |Pending(rows)| && |batch| <= limit
        invariant forall i :: 0 <= i < |batch| ==> batch[i] in Pending(rows) - left
        invariant forall i, j :: 0 <= i < j < |batch| ==> batch[i] != batch[j]
        decreases left
      {
        var id :| id in left;
        batch := batch + [id];
        left := left - {id};
      }
    }

    /** List with Status "active": every active row once. */
    method ListActive() returns (ids: seq<nat>)
      ensures forall id :: id in ids <==> id in rows && rows[id].status.Active?
      ensures forall i, j :: 0 <= i < j < |ids| ==> ids[i] != ids[j]
    {
      ids := [];
      var left := rows.Keys;
      while left != {}
        invariant left <= rows.Keys
        invariant forall id :: id in ids <==> id in rows && id !in left && rows[id].status.Active?
        invariant forall i, j :: 0 <= i < j < |ids| ==> ids[i] != ids[j]
      {
        var id :| id in left;
        left := left - {id};
        if rows[id].status.Active? {
          ids := ids + [id];
        }
      }
    }
  }
}
