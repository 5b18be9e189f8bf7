/**
  The outbox of job/outbox.go: a tick takes at most twenty rows that wait for their
  router, sends each row's commands, and books the result.
 */
module Outbox {
  import opened Routers
  import opened Subscriptions

  const BATCH_SIZE := 20
  const ESCALATION_THRESHOLD := 5
  const DEFAULT_ISOLIR_PROFILE := "isolir"

  datatype Profile = Profile(name: string, price: int)

  /** Connected devices, the two profile tables and the setting billing.isolir_profile_name. */
  datatype Env = Env(connected: set<nat>, ppp: map<nat, Profile>, hotspot: map<nat, Profile>, isolirSetting: string)

  /** Outcome of the k-th router command of one attempt. */
  type Attempt = nat -> Outcome

  /** Outcomes of one tick, by row. */
  type Faults = nat -> Attempt

  /** What each row's attempt finds in one tick: devices come and go between ticks and within one. */
  type Envs = nat -> Env

  // ---------------------------------------------------------------- one row

  /** "" when the row has no profile, or its profile is gone. */
  function NormalProfile(env: Env, row: Subscription): string {
    match row.service
    case PPPoE =>
      if row.pppProfile.Some? && row.pppProfile.value in env.ppp then env.ppp[row.pppProfile.value].name
      else ""
    case Hotspot =>
      if row.hotspotProfile.Some? && row.hotspotProfile.value in env.hotspot then
        env.hotspot[row.hotspotProfile.value].name
      else ""
    case OtherService(_) => ""
  }

  function IsolirProfile(env: Env): string {
    if env.isolirSetting != "" then env.isolirSetting else DEFAULT_ISOLIR_PROFILE
  }

  function TargetProfile(env: Env, row: Subscription): string {
    if row.status.Isolir? then IsolirProfile(env) else NormalProfile(env, row)
  }

  /** Look the account up, then change it; an absent account counts as done. */
  function OnAccount(accounts: Accounts, key: Key, changed: Accounts, lookup: Outcome, command: Outcome):
      (Accounts, bool) {
    match ByName(accounts, key, lookup)
    case NotFound => (accounts, true)
    case Failed => (accounts, false)
    case Ok => var (after, reply) := Obey(accounts, changed, command); (after, reply.Ok?)
  }

  function ChangeProfile(env: Env, row: Subscription, accounts: Accounts, attempt: Attempt): (Accounts, bool) {
    var key := KeyOf(row);
    if row.service.OtherService? then (accounts, true)
    else if key !in accounts then OnAccount(accounts, key, accounts, attempt(0), attempt(1))
    else
      var changed := accounts[key := WithProfile(accounts[key], TargetProfile(env, row))];
      OnAccount(accounts, key, changed, attempt(0), attempt(1))
  }

  function Disable(row: Subscription, disabled: bool, accounts: Accounts, attempt: Attempt, first: nat):
      (Accounts, bool) {
    var key := KeyOf(row);
    if row.service.OtherService? then (accounts, true)
    else if key !in accounts then OnAccount(accounts, key, accounts, attempt(first), attempt(first + 1))
    else
      var changed := accounts[key := accounts[key].(disabled := disabled)];
      OnAccount(accounts, key, changed, attempt(first), attempt(first + 1))
  }

  function Enable(env: Env, row: Subscription, accounts: Accounts, attempt: Attempt): (Accounts, bool) {
    var (profiled, ok) := ChangeProfile(env, row, accounts, attempt);
    if ok then Disable(row, false, profiled, attempt, 2) else (profiled, false)
  }

  function Create(env: Env, row: Subscription, accounts: Accounts, attempt: Attempt): (Accounts, bool) {
    var key := KeyOf(row);
    if row.service.OtherService? then (accounts, true)
    else if row.username == "" || key in accounts then (accounts, false)
    else
      var added := accounts[key := NewAccount(row.password, NormalProfile(env, row))];
      var (after, reply) := Obey(accounts, added, attempt(0));
      (after, reply.Ok?)
  }

  function Delete(row: Subscription, accounts: Accounts, attempt: Attempt): (Accounts, bool) {
    var key := KeyOf(row);
    if row.service.OtherService? then (accounts, true)
    else OnAccount(accounts, key, accounts - {key}, attempt(0), attempt(1))
  }

  /** applySync: an offline device and an unknown status both count as done. */
  function ApplySync(env: Env, row: Subscription, accounts: Accounts, attempt: Attempt): (Accounts, bool) {
    if row.device !in env.connected then (accounts, true)
    else match row.sync
      case PendingCreate => Create(env, row, accounts, attempt)
      case PendingProfileChange => ChangeProfile(env, row, accounts, attempt)
      case PendingDisable => Disable(row, true, accounts, attempt, 0)
      case PendingEnable => Enable(env, row, accounts, attempt)
      case PendingDelete => Delete(row, accounts, attempt)
      case _ => (accounts, true)
  }

  /** The booking after an attempt. */
  function Book(row: Subscription, ok: bool): Subscription {
    if ok then row.(sync := Synced, retries := 0)
    else if row.retries + 1 >= ESCALATION_THRESHOLD then row.(retries := row.retries + 1, sync := Error)
    else row.(retries := row.retries + 1)
  }

  /** A queued row after n failed attempts in a row. */
  function Failures(row: Subscription, n: nat): Subscription {
    if n == 0 then row else Book(Failures(row, n - 1), false)
  }

  /** A row that never succeeds stays queued through four failures, and the fifth one gives it up. */
  lemma {:induction false} GivenUpAtFifth(row: Subscription, n: nat)
    requires IsPending(row) && row.retries == 0 && n <= 5
    ensures Failures(row, n) == row.(retries := n, sync := if n == 5 then Error else row.sync)
  {
    if n > 0 {
      GivenUpAtFifth(row, n - 1);
    }
  }

  // ---------------------------------------------------------------- ticks

  datatype World = World(rows: Rows, accounts: Accounts)

  function Process(env: Env, w: World, id: nat, faults: Faults): World
    requires id in w.rows
  {
    var (accounts, ok) := ApplySync(env, w.rows[id], w.accounts, faults(id));
    World(w.rows[id := Book(w.rows[id], ok)], accounts)
  }

  function Tick(envs: Envs, w: World, batch: seq<nat>, faults: Faults): (after: World)
    requires forall i :: 0 <= i < |batch| ==> batch[i] in w.rows
    ensures after.rows.Keys == w.rows.Keys
  {
    if batch == [] then w
    else
      var before := Tick(envs, w, batch[..|batch| - 1], faults);
      Process(envs(batch[|batch| - 1]), before, batch[|batch| - 1], faults)
  }

  ghost predicate IsTick(envs: Envs, w: World, batch: seq<nat>, faults: Faults, after: World) {
    IsPendingBatch(w.rows, BATCH_SIZE, batch) && after == Tick(envs, w, batch, faults)
  }

  /** A history of ticks: worlds[0] is the start, and each tick may find, pick and lose what it likes. */
  ghost predicate IsRun(envs: seq<Envs>, worlds: seq<World>, batches: seq<seq<nat>>, faults: seq<Faults>) {
    && |worlds| == |batches| + 1 && |faults| == |batches| && |envs| == |batches|
    && forall k :: 0 <= k < |batches| ==> IsTick(envs[k], worlds[k], batches[k], faults[k], worlds[k + 1])
  }

  class OutboxJob {
    const store: SubscriptionStore
    const router: Router

    constructor (store: SubscriptionStore, router: Router)
      ensures this.store == store && this.router == router
    {
      this.store, this.router := store, router;
    }

    method Run(envs: Envs, faults: Faults) returns (ghost batch: seq<nat>)
      modifies store, router
      ensures IsTick(envs, World(old(store.rows), old(router.accounts)), batch, faults,
              World(store.rows, router.accounts))
    {
      var subs := store.ListPendingSync(BATCH_SIZE);
      ghost var start := World(store.rows, router.accounts);
      for i := 0 to |subs|
        invariant World(store.rows, router.accounts) == Tick(envs, start, subs[..i], faults)
      {
        assert subs[..i + 1][..i] == subs[..i];
        SyncRow(envs(subs[i]), subs[i], faults);
      }
      assert subs[..|subs|] == subs;
      batch := subs;
    }

    /** One turn of the loop of Run. */
    method SyncRow(env: Env, id: nat, faults: Faults)
      requires id in store.rows
      modifies store, router
      ensures World(store.rows, router.accounts)
              == Process(env, World(old(store.rows), old(router.accounts)), id, faults)
    {
      var ok := ApplySyncTo(env, store.rows[id], faults(id));
      if ok {
        var _ := store.UpdateSyncStatus(id, Synced);
      } else {
        var retries, _ := store.IncrSyncRetry(id);
        if retries >= ESCALATION_THRESHOLD {
          var _ := store.UpdateSyncStatus(id, Error);
        }
      }
    }

    method ApplySyncTo(env: Env, row: Subscription, attempt: Attempt) returns (ok: bool)
      modifies router
      ensures (router.accounts, ok) == ApplySync(env, row, old(router.accounts), attempt)
    {
      if row.device !in env.connected {
        return true;
      }
      match row.sync
      case PendingCreate => ok := DoCreate(env, row, attempt);
      case PendingProfileChange => ok := DoProfileChange(env, row, attempt);
      case PendingDisable => ok := DoDisable(row, true, attempt, 0);
      case PendingEnable => ok := DoEnable(env, row, attempt);
      case PendingDelete => ok := DoRemove(row, attempt);
      case _ => ok := true;
    }

    method DoCreate(env: Env, row: Subscription, attempt: Attempt) returns (ok: bool)
      modifies router
      ensures (router.accounts, ok) == Create(env, row, old(router.accounts), attempt)
    {
      if row.service.OtherService? {
        return true;
      }
      var reply := router.Add(KeyOf(row), NewAccount(row.password, NormalProfile(env, row)), attempt(0));
      ok := reply.Ok?;
    }

    method DoProfileChange(env: Env, row: Subscription, attempt: Attempt) returns (ok: bool)
      modifies router
      ensures (router.accounts, ok) == ChangeProfile(env, row, old(router.accounts), attempt)
    {
      var target := if row.status.Isolir? then IsolirProfile(env) else NormalProfile(env, row);
      if row.service.OtherService? {
        return true;
      }
      var found := ByName(router.accounts, KeyOf(row), attempt(0));
      if !found.Ok? {
        return found.NotFound?;
      }
      var reply := router.SetProfile(KeyOf(row), target, attempt(1));
      ok := reply.Ok?;
    }

    method DoDisable(row: Subscription, disabled: bool, attempt: Attempt, first: nat) returns (ok: bool)
      modifies router
      ensures (router.accounts, ok) == Disable(row, disabled, old(router.accounts), attempt, first)
    {
      if row.service.OtherService? {
        return true;
      }
      var found := ByName(router.accounts, KeyOf(row), attempt(first));
      if !found.Ok? {
        return found.NotFound?;
      }
      var reply := router.SetDisabled(KeyOf(row), disabled, attempt(first + 1));
      ok := reply.Ok?;
    }

    method DoEnable(env: Env, row: Subscription, attempt: Attempt) returns (ok: bool)
      modifies router
      ensures (router.accounts, ok) == Enable(env, row, old(router.accounts), attempt)
    {
      ok := DoProfileChange(env, row, attempt);
      if !ok {
        return;
      }
      ok := DoDisable(row, false, attempt, 2);
    }

    method DoRemove(row: Subscription, attempt: Attempt) returns (ok: bool)
      modifies router
      ensures (router.accounts, ok) == Delete(row, old(router.accounts), attempt)
    {
      if row.service.OtherService? {
        return true;
      }
      var found := ByName(router.accounts, KeyOf(row), attempt(0));
      if !found.Ok? {
        return found.NotFound?;
      }
      var reply := router.Remove(KeyOf(row), attempt(1));
      ok := reply.Ok?;
    }
  }

  // ---------------------------------------------------------------- the queue drains

  function Max(a: int, b: int): int {
    if a > b then a else b
  }

  /** How many more failures a row can survive in the queue. */
  function Weight(row: Subscription): nat {
    if IsPending(row) then Max(1, ESCALATION_THRESHOLD - row.retries) else 0
  }

  /** Rows that can still fail at least v times. */
  function Level(rows: Rows, v: nat): set<nat> {
    set id | id in rows && Weight(rows[id]) >= v
  }

  /** The sum of max(1, 5 - retries) over the queued rows. */
  ghost function WorkLeft(rows: Rows): nat
    decreases |rows|
  {
    if rows == map[] then 0
    else
      var id :| id in rows;
      Weight(rows[id]) + WorkLeft(rows - {id})
  }

  /** The same sum, counted level by level. */
  function Total(rows: Rows): nat {
    |Level(rows, 1)| + |Level(rows, 2)| + |Level(rows, 3)| + |Level(rows, 4)| + |Level(rows, 5)|
  }

  lemma LevelWithout(rows: Rows, id: nat, v: nat)
    requires id in rows
    ensures |Level(rows, v)| == |Level(rows - {id}, v)| + if Weight(rows[id]) >= v then 1 else 0
  {
    assert Level(rows - {id}, v) == Level(rows, v) - {id};
  }

  lemma {:induction false} TotalIsWorkLeft(rows: Rows)
    ensures Total(rows) == WorkLeft(rows)
    decreases |rows|
  {
    if rows == map[] {
      assert forall v :: Level(rows, v) == {};
    } else {
      var id :| id in rows && WorkLeft(rows) == Weight(rows[id]) + WorkLeft(rows - {id});
      TotalIsWorkLeft(rows - {id});
      LevelWithout(rows, id, 1);
      LevelWithout(rows, id, 2);
      LevelWithout(rows, id, 3);
      LevelWithout(rows, id, 4);
      LevelWithout(rows, id, 5);
    }
  }

  lemma BookLightens(row: Subscription, ok: bool)
    requires IsPending(row)
    ensures 1 <= Weight(row) <= 5 && Weight(Book(row, ok)) < Weight(row)
  {
  }

  lemma LevelChange(rows: Rows, id: nat, row: Subscription, v: nat)
    requires id in rows && Weight(row) < Weight(rows[id])
    ensures |Level(rows[id := row], v)| == |Level(rows, v)| - if Weight(row) < v <= Weight(rows[id]) then 1 else 0
  {
    var less, more := Level(rows[id := row], v), Level(rows, v);
    if Weight(row) < v <= Weight(rows[id]) {
      assert less == more - {id} && id in more;
    } else {
      assert less == more;
    }
  }

  lemma TotalDrops(rows: Rows, id: nat, row: Subscription)
    requires id in rows && Weight(row) < Weight(rows[id]) <= 5
    ensures Total(rows[id := row]) < Total(rows)
  {
    LevelChange(rows, id, row, 1);
    LevelChange(rows, id, row, 2);
    LevelChange(rows, id, row, 3);
    LevelChange(rows, id, row, 4);
    LevelChange(rows, id, row, 5);
  }

  /** Within a tick, rows of the batch are booked once and all others are untouched. */
  lemma {:induction false} TickRows(envs: Envs, w: World, batch: seq<nat>, faults: Faults, id: nat)
    requires forall i :: 0 <= i < |batch| ==> batch[i] in w.rows
    requires forall i, j :: 0 <= i < j < |batch| ==> batch[i] != batch[j]
    requires id in w.rows
    ensures var after := Tick(envs, w, batch, faults).rows[id];
      if id in batch then exists ok :: after == Book(w.rows[id], ok) else after == w.rows[id]
  {
    if batch != [] {
      var before, last := batch[..|batch| - 1], batch[|batch| - 1];
      assert batch == before + [last];
      TickRows(envs, w, before, faults, id);
      if id == last {
        assert id !in before;
        var mid := Tick(envs, w, before, faults);
        var ok := ApplySync(envs(id), mid.rows[id], mid.accounts, faults(id)).1;
        assert Tick(envs, w, batch, faults).rows[id] == Book(w.rows[id], ok);
      }
    }
  }

  lemma {:induction false} TickLightens(envs: Envs, w: World, batch: seq<nat>, faults: Faults)
    requires forall i :: 0 <= i < |batch| ==> batch[i] in w.rows && batch[i] in Pending(w.rows)
    requires forall i, j :: 0 <= i < j < |batch| ==> batch[i] != batch[j]
    ensures Total(Tick(envs, w, batch, faults).rows) + |batch| <= Total(w.rows)
  {
    if batch != [] {
      var before, last := batch[..|batch| - 1], batch[|batch| - 1];
      TickLightens(envs, w, before, faults);
      TickRows(envs, w, before, faults, last);
      var mid := Tick(envs, w, before, faults);
      var ok := ApplySync(envs(last), mid.rows[last], mid.accounts, faults(last)).1;
      BookLightens(mid.rows[last], ok);
      TotalDrops(mid.rows, last, Book(mid.rows[last], ok));
    }
  }

  lemma BatchIsEverything(rows: Rows, batch: seq<nat>)
    requires IsPendingBatch(rows, BATCH_SIZE, batch) && |Pending(rows)| <= BATCH_SIZE
    ensures forall id :: id in Pending(rows) ==> id in batch
  {
    SeqCovers(batch, Pending(rows));
  }

  lemma {:induction false} SeqCovers(s: seq<nat>, all: set<nat>)
    requires forall i :: 0 <= i < |s| ==> s[i] in all
    requires forall i, j :: 0 <= i < j < |s| ==> s[i] != s[j]
    requires |s| == |all|
    ensures forall x :: x in all ==> x in s
  {
    if s == [] {
      assert all == {};
    } else {
      var last := s[|s| - 1];
      SeqCovers(s[..|s| - 1], all - {last});
      forall x | x in all ensures x in s {
        if x != last {
          assert x in s[..|s| - 1];
        }
      }
    }
  }

  lemma TotalBound(rows: Rows)
    ensures Total(rows) <= 5 * |Pending(rows)|
    ensures |Pending(rows)| <= Total(rows)
  {
    assert Level(rows, 1) == Pending(rows);
    forall v | 1 <= v <= 5 ensures |Level(rows, v)| <= |Pending(rows)| {
      SubsetSize(Level(rows, v), Pending(rows));
    }
  }

  lemma SubsetSize(a: set<nat>, b: set<nat>)
    requires a <= b
    ensures |a| <= |b|
  {
    assert b == a + (b - a);
  }

  /** A tick never queues anything: rows only leave the queue. */
  lemma TickShrinksQueue(envs: Envs, w: World, batch: seq<nat>, faults: Faults)
    requires IsPendingBatch(w.rows, BATCH_SIZE, batch)
    ensures Pending(Tick(envs, w, batch, faults).rows) <= Pending(w.rows)
  {
    forall id | id in Pending(Tick(envs, w, batch, faults).rows) ensures id in Pending(w.rows) {
      TickRows(envs, w, batch, faults, id);
    }
  }

  /** With fewer rows than the batch size, every queued row is tried in the same tick. */
  lemma SmallTick(envs: Envs, w: World, batch: seq<nat>, faults: Faults, m: nat)
    requires IsPendingBatch(w.rows, BATCH_SIZE, batch) && |Pending(w.rows)| < BATCH_SIZE
    requires forall id :: id in w.rows ==> Weight(w.rows[id]) <= m
    ensures m == 0 ==> Pending(w.rows) == {}
    ensures m > 0 ==> forall id :: id in w.rows ==> Weight(Tick(envs, w, batch, faults).rows[id]) <= m - 1
  {
    if m > 0 {
      BatchIsEverything(w.rows, batch);
      forall id | id in w.rows ensures Weight(Tick(envs, w, batch, faults).rows[id]) <= m - 1 {
        TickRows(envs, w, batch, faults, id);
        if id in Pending(w.rows) {
          var ok :| Tick(envs, w, batch, faults).rows[id] == Book(w.rows[id], ok);
          BookLightens(w.rows[id], ok);
        }
      }
    } else {
      assert forall id :: id in w.rows ==> Weight(w.rows[id]) == 0;
    }
  }

  lemma {:induction false} SmallQueueDrains(envs: seq<Envs>, worlds: seq<World>, batches: seq<seq<nat>>,
                                            faults: seq<Faults>, m: nat)
    requires IsRun(envs, worlds, batches, faults) && |batches| >= m
    requires |Pending(worlds[0].rows)| < BATCH_SIZE
    requires forall id :: id in worlds[0].rows ==> Weight(worlds[0].rows[id]) <= m
    ensures Pending(worlds[|worlds| - 1].rows) == {}
    decreases |batches|
  {
    if batches == [] {
      assert forall id :: id in worlds[0].rows ==> Weight(worlds[0].rows[id]) == 0;
    } else {
      assert IsTick(envs[0], worlds[0], batches[0], faults[0], worlds[1]);
      SmallTick(envs[0], worlds[0], batches[0], faults[0], m);
      TickShrinksQueue(envs[0], worlds[0], batches[0], faults[0]);
      SubsetSize(Pending(worlds[1].rows), Pending(worlds[0].rows));
      TailIsRun(envs, worlds, batches, faults);
      SmallQueueDrains(envs[1..], worlds[1..], batches[1..], faults[1..], if m == 0 then 0 else m - 1);
    }
  }

  lemma TailIsRun(envs: seq<Envs>, worlds: seq<World>, batches: seq<seq<nat>>, faults: seq<Faults>)
    requires IsRun(envs, worlds, batches, faults) && batches != []
    ensures IsRun(envs[1..], worlds[1..], batches[1..], faults[1..])
  {
    forall k | 0 <= k < |batches| - 1
      ensures IsTick(envs[1..][k], worlds[1..][k], batches[1..][k], faults[1..][k], worlds[1..][k + 1]) {
      assert IsTick(envs[k + 1], worlds[k + 1], batches[k + 1], faults[k + 1], worlds[k + 2]);
    }
  }

  lemma FullTick(envs: Envs, w: World, batch: seq<nat>, faults: Faults, after: World)
    requires IsTick(envs, w, batch, faults, after) && |Pending(w.rows)| >= BATCH_SIZE
    ensures 0 <= Total(after.rows) / BATCH_SIZE <= Total(w.rows) / BATCH_SIZE - 1
  {
    TickLightens(envs, w, batch, faults);
  }

  lemma {:induction false} QueueDrainsBy(envs: seq<Envs>, worlds: seq<World>, batches: seq<seq<nat>>,
                                         faults: seq<Faults>)
    requires IsRun(envs, worlds, batches, faults)
    requires |batches| >= Total(worlds[0].rows) / BATCH_SIZE + ESCALATION_THRESHOLD
    ensures Pending(worlds[|worlds| - 1].rows) == {}
    decreases |batches|
  {
    if |Pending(worlds[0].rows)| < BATCH_SIZE {
      SmallQueueDrains(envs, worlds, batches, faults, 5);
    } else {
      FullTick(envs[0], worlds[0], batches[0], faults[0], worlds[1]);
      TailIsRun(envs, worlds, batches, faults);
      QueueDrainsBy(envs[1..], worlds[1..], batches[1..], faults[1..]);
    }
  }

  /**
    The outbox drains: whichever rows each tick picks and whichever commands fail, n
    queued rows are all synced or given up after n/4 + 5 ticks.
   */
  lemma OutboxDrains(envs: seq<Envs>, worlds: seq<World>, batches: seq<seq<nat>>, faults: seq<Faults>)
    requires IsRun(envs, worlds, batches, faults)
    requires |batches| >= |Pending(worlds[0].rows)| / 4 + ESCALATION_THRESHOLD
    ensures var rows := worlds[|worlds| - 1].rows;
      forall id :: id in rows ==> rows[id].sync.Synced? || rows[id].sync.Error?
  {
    TotalBound(worlds[0].rows);
    assert 5 * |Pending(worlds[0].rows)| / BATCH_SIZE == |Pending(worlds[0].rows)| / 4;
    QueueDrainsBy(envs, worlds, batches, faults);
    var rows := worlds[|worlds| - 1].rows;
    forall id | id in rows ensures rows[id].sync.Synced? || rows[id].sync.Error? {
      assert id !in Pending(rows);
    }
  }

  /** Every tick on a non-empty queue makes progress: the sum drops by at least one per row it picks. */
  lemma EveryTickProgresses(envs: Envs, w: World, batch: seq<nat>, faults: Faults, after: World)
    requires IsTick(envs, w, batch, faults, after) && Pending(w.rows) != {}
    ensures batch != [] && WorkLeft(after.rows) + |batch| <= WorkLeft(w.rows)
    ensures |batch| == if |Pending(w.rows)| < 20 then |Pending(w.rows)| else 20
  {
    TickLightens(envs, w, batch, faults);
    TotalIsWorkLeft(w.rows);
    TotalIsWorkLeft(after.rows);
  }
}
