/**
  Suspension check and outbox together: what a late invoice does to a router account,
  what stays untouched, and when a row marked "synced" can be trusted.
 */
module Enforcement {
  import opened Calendar
  import opened Invoices
  import opened Outbox
  import opened Payments
  import opened Routers
  import opened Subscriptions
  import opened Suspension
  import opened Wrappers

  /** The account behind one key, if the router has it. */
  function Cell(accounts: Accounts, key: Key): Option<Account> {
    if key in accounts then Some(accounts[key]) else None
  }

  /** The unique index on (device, service, username). */
  ghost predicate UniqueKeys(rows: Rows) {
    forall i, j :: i in rows && j in rows && i != j ==> KeyOf(rows[i]) != KeyOf(rows[j])
  }

  /** What a row's pending change makes of its account when nothing goes wrong. */
  function Settled(env: Env, row: Subscription, cell: Option<Account>): Option<Account> {
    match row.sync
    case PendingCreate => if cell.None? then Some(NewAccount(row.password, NormalProfile(env, row))) else cell
    case PendingProfileChange => if cell.None? then None else Some(WithProfile(cell.value, TargetProfile(env, row)))
    case PendingDisable => if cell.None? then None else Some(cell.value.(disabled := true))
    case PendingEnable =>
      if cell.None? then None else Some(WithProfile(cell.value, TargetProfile(env, row)).(disabled := false))
    case PendingDelete => None
    case _ => cell
  }

  /** The device is connected, the account can be addressed, and nothing to be created exists already. */
  ghost predicate Feasible(env: Env, row: Subscription, cell: Option<Account>) {
    && row.device in env.connected
    && !row.service.OtherService? && row.username != ""
    && (row.sync.PendingCreate? ==> cell.None?)
  }

  ghost predicate AllDone(attempt: Attempt) {
    forall k :: attempt(k) == Done
  }

  // ---------------------------------------------------------------- one attempt

  /** An attempt touches no account but its own, whatever fails. */
  lemma ApplySyncIsLocal(env: Env, row: Subscription, accounts: Accounts, attempt: Attempt, key: Key)
    requires key != KeyOf(row)
    ensures Cell(ApplySync(env, row, accounts, attempt).0, key) == Cell(accounts, key)
  {
  }

  lemma ApplySyncSettles(env: Env, row: Subscription, accounts: Accounts, attempt: Attempt)
    requires IsPending(row) && AllDone(attempt) && Feasible(env, row, Cell(accounts, KeyOf(row)))
    ensures ApplySync(env, row, accounts, attempt).1
    ensures Cell(ApplySync(env, row, accounts, attempt).0, KeyOf(row)) == Settled(env, row, Cell(accounts, KeyOf(row)))
  {
  }

  /** The account is as the enforcement wants it. */
  ghost predicate Enforced(env: Env, row: Subscription, cell: Option<Account>) {
    && (row.sync.PendingDisable? ==> cell.Some? && cell.value.disabled)
    && (row.sync.PendingProfileChange? ==> cell.Some? && cell.value.profile == IsolirProfile(env))
  }

  /**
    The documentation promises consistency while a router is offline, and the code
    comments say such a row is retried.  In fact an attempt that books "synced" enforced
    anything exactly when the device was connected and the account was there.
   */
  lemma SyncedMeansEnforced(env: Env, row: Subscription, accounts: Accounts, attempt: Attempt)
    requires row.sync.PendingDisable? || (row.sync.PendingProfileChange? && row.status.Isolir?)
    requires !Enforced(env, row, Cell(accounts, KeyOf(row)))
    requires Book(row, ApplySync(env, row, accounts, attempt).1).sync.Synced?
    ensures Enforced(env, row, Cell(ApplySync(env, row, accounts, attempt).0, KeyOf(row)))
            <==> row.device in env.connected && !row.service.OtherService? && KeyOf(row) in accounts
  {
  }

  /**
    The same for every queued operation, the restoring ones after a payment included: where
    there is something to change, an attempt that books "synced" has changed it exactly when
    the device was connected and the service known.
   */
  lemma SyncedMeansSettled(env: Env, row: Subscription, accounts: Accounts, attempt: Attempt)
    requires IsPending(row) && !row.sync.Other?
    requires Settled(env, row, Cell(accounts, KeyOf(row))) != Cell(accounts, KeyOf(row))
    requires Book(row, ApplySync(env, row, accounts, attempt).1).sync.Synced?
    ensures Cell(ApplySync(env, row, accounts, attempt).0, KeyOf(row)) == Settled(env, row, Cell(accounts, KeyOf(row)))
            <==> row.device in env.connected && !row.service.OtherService?
  {
  }

  /** Any change behind an offline router: booked as synced, no account touched, and out of the queue. */
  lemma OfflineChangeIsLost(env: Env, w: World, id: nat, faults: Faults)
    requires id in w.rows && IsPending(w.rows[id]) && w.rows[id].device !in env.connected
    ensures var after := Process(env, w, id, faults);
      && after.accounts == w.accounts && after.rows == w.rows[id := Book(w.rows[id], true)]
      && id !in Pending(after.rows)
  {
  }

  /** An attempt on a connected device never makes the change harder, whatever fails; and "synced" means it is done. */
  lemma AttemptKeepsGoal(env: Env, row: Subscription, accounts: Accounts, attempt: Attempt)
    requires IsPending(row) && !row.sync.Other? && row.device in env.connected && !row.service.OtherService?
    ensures var (after, ok) := ApplySync(env, row, accounts, attempt);
      var goal := Settled(env, row, Cell(accounts, KeyOf(row)));
      && Settled(env, row, Cell(after, KeyOf(row))) == goal
      && (ok ==> Cell(after, KeyOf(row)) == goal)
  {
  }

  /** The profile a row's own service gives it, by name; none when there is no profile or it is gone or nameless. */
  ghost predicate HasPlan(env: Env, row: Subscription, name: string) {
    && name != ""
    && (|| (row.service.PPPoE? && exists p :: row.pppProfile == Some(p) && p in env.ppp && env.ppp[p].name == name)
        || (row.service.Hotspot? && exists p :: row.hotspotProfile == Some(p) && p in env.hotspot
                                               && env.hotspot[p].name == name))
  }

  /** The profile of the row's plan, or what was there otherwise. */
  ghost predicate IsPlanned(env: Env, row: Subscription, profile: string, otherwise: string) {
    HasPlan(env, row, profile) || (profile == otherwise && forall name :: !HasPlan(env, row, name))
  }

  lemma PlanIsNormalProfile(env: Env, row: Subscription)
    ensures if NormalProfile(env, row) == "" then forall name :: !HasPlan(env, row, name)
            else forall name :: HasPlan(env, row, name) <==> name == NormalProfile(env, row)
  {
  }

  /** The isolir profile of the settings, "isolir" without one. */
  predicate IsThrottled(env: Env, profile: string) {
    if env.isolirSetting == "" then profile == "isolir" else profile == env.isolirSetting
  }

  /**
    What a successful attempt on a connected device makes of the account, told by the row and
    the settings alone.  A new account has the row's password and plan and is open.  A
    throttled row gets the isolir profile, any other the profile of its plan; only enabling
    and disabling move the lock; an absent account stays absent.
   */
  lemma AttemptGives(env: Env, row: Subscription, accounts: Accounts, attempt: Attempt)
    requires row.device in env.connected && !row.service.OtherService?
    requires ApplySync(env, row, accounts, attempt).1
    ensures var key := Key(row.device, row.service, row.username);
      var before, after := Cell(accounts, key), Cell(ApplySync(env, row, accounts, attempt).0, key);
      && (row.sync.PendingCreate? ==>
            && before.None? && after.Some? && after.value.password == row.password && !after.value.disabled
            && IsPlanned(env, row, after.value.profile, "default"))
      && (row.sync.PendingProfileChange? || row.sync.PendingEnable? ==>
            && (before.Some? <==> after.Some?)
            && (before.Some? ==>
                  && after.value.password == before.value.password
                  && after.value.disabled == (before.value.disabled && !row.sync.PendingEnable?)
                  && if row.status.Isolir? then IsThrottled(env, after.value.profile)
                     else IsPlanned(env, row, after.value.profile, before.value.profile)))
      && (row.sync.PendingDisable? ==>
            after == if before.Some? then Some(Account(before.value.password, before.value.profile, true)) else None)
      && (row.sync.PendingDelete? ==> after.None?)
  {
    PlanIsNormalProfile(env, row);
  }

  /** A service nobody knows, and a queued operation nobody knows, count as done without a command. */
  lemma UnknownCountsAsDone(env: Env, row: Subscription, accounts: Accounts, attempt: Attempt)
    requires row.service.OtherService? || row.sync.Other?
    ensures ApplySync(env, row, accounts, attempt) == (accounts, true)
  {
  }

  /** Which commands an attempt needs: it succeeds exactly when each of them is done, an absent account needing none. */
  lemma AttemptSucceedsIff(env: Env, row: Subscription, accounts: Accounts, attempt: Attempt)
    requires row.device in env.connected && !row.service.OtherService?
    ensures var ok := ApplySync(env, row, accounts, attempt).1;
      var present := Key(row.device, row.service, row.username) in accounts;
      match row.sync
      case PendingCreate => ok <==> row.username != "" && !present && attempt(0) == Done
      case PendingEnable =>
        ok <==> row.username != "" && attempt(0) == attempt(2) == Done && (present ==> attempt(1) == attempt(3) == Done)
      case PendingProfileChange | PendingDisable | PendingDelete =>
        ok <==> row.username != "" && attempt(0) == Done && (present ==> attempt(1) == Done)
      case _ => ok
  {
  }

  // ---------------------------------------------------------------- one tick

  lemma ProcessOther(env: Env, w: World, id: nat, faults: Faults, other: nat)
    requires UniqueKeys(w.rows) && id in w.rows && other in w.rows && other != id
    ensures var after := Process(env, w, id, faults);
      && after.rows[other] == w.rows[other]
      && Cell(after.accounts, KeyOf(w.rows[other])) == Cell(w.accounts, KeyOf(w.rows[other]))
      && UniqueKeys(after.rows)
  {
    ApplySyncIsLocal(env, w.rows[id], w.accounts, faults(id), KeyOf(w.rows[other]));
  }

  lemma {:induction false} TickKeepsKeys(envs: Envs, w: World, batch: seq<nat>, faults: Faults)
    requires forall i :: 0 <= i < |batch| ==> batch[i] in w.rows
    ensures forall id :: id in w.rows ==> KeyOf(Tick(envs, w, batch, faults).rows[id]) == KeyOf(w.rows[id])
    ensures UniqueKeys(w.rows) ==> UniqueKeys(Tick(envs, w, batch, faults).rows)
  {
    if batch != [] {
      TickKeepsKeys(envs, w, batch[..|batch| - 1], faults);
    }
  }

  /** A row outside the batch keeps its booking and its account. */
  lemma {:induction false} TickSkips(envs: Envs, w: World, batch: seq<nat>, faults: Faults, id: nat)
    requires UniqueKeys(w.rows) && id in w.rows && id !in batch
    requires forall i :: 0 <= i < |batch| ==> batch[i] in w.rows
    ensures var after := Tick(envs, w, batch, faults);
      after.rows[id] == w.rows[id] && Cell(after.accounts, KeyOf(w.rows[id])) == Cell(w.accounts, KeyOf(w.rows[id]))
  {
    if batch != [] {
      var before, last := batch[..|batch| - 1], batch[|batch| - 1];
      assert batch == before + [last];
      TickSkips(envs, w, before, faults, id);
      TickKeepsKeys(envs, w, before, faults);
      ProcessOther(envs(last), Tick(envs, w, before, faults), last, faults, id);
    }
  }

  /** An account that belongs to no row of the batch is untouched, whatever fails. */
  lemma {:induction false} TickFrame(envs: Envs, w: World, batch: seq<nat>, faults: Faults, key: Key)
    requires forall i :: 0 <= i < |batch| ==> batch[i] in w.rows && KeyOf(w.rows[batch[i]]) != key
    ensures Cell(Tick(envs, w, batch, faults).accounts, key) == Cell(w.accounts, key)
  {
    if batch != [] {
      var before, last := batch[..|batch| - 1], batch[|batch| - 1];
      TickFrame(envs, w, before, faults, key);
      TickKeepsKeys(envs, w, before, faults);
      var mid := Tick(envs, w, before, faults);
      ApplySyncIsLocal(envs(last), mid.rows[last], mid.accounts, faults(last), key);
    }
  }

  /** What one tick does to a row of its batch, whatever fails: exactly one attempt, on its own account. */
  lemma {:induction false} TickAttempts(envs: Envs, w: World, batch: seq<nat>, faults: Faults, id: nat)
      returns (accounts: Accounts)
    requires UniqueKeys(w.rows) && id in w.rows && id in batch
    requires forall i :: 0 <= i < |batch| ==> batch[i] in w.rows
    requires forall i, j :: 0 <= i < j < |batch| ==> batch[i] != batch[j]
    ensures Cell(accounts, KeyOf(w.rows[id])) == Cell(w.accounts, KeyOf(w.rows[id]))
    ensures var (changed, ok) := ApplySync(envs(id), w.rows[id], accounts, faults(id));
      var after := Tick(envs, w, batch, faults);
      && after.rows[id] == Book(w.rows[id], ok)
      && Cell(after.accounts, KeyOf(w.rows[id])) == Cell(changed, KeyOf(w.rows[id]))
  {
    var before, last := batch[..|batch| - 1], batch[|batch| - 1];
    assert batch == before + [last];
    var mid := Tick(envs, w, before, faults);
    TickKeepsKeys(envs, w, before, faults);
    if last == id {
      assert id !in before;
      TickSkips(envs, w, before, faults, id);
      accounts := mid.accounts;
    } else {
      accounts := TickAttempts(envs, w, before, faults, id);
      ProcessOther(envs(last), mid, last, faults, id);
    }
  }

  /** A row of the batch whose commands succeed is settled and booked. */
  lemma TickSettles(envs: Envs, w: World, batch: seq<nat>, faults: Faults, id: nat)
    requires UniqueKeys(w.rows) && id in w.rows && id in batch
    requires forall i :: 0 <= i < |batch| ==> batch[i] in w.rows
    requires forall i, j :: 0 <= i < j < |batch| ==> batch[i] != batch[j]
    requires IsPending(w.rows[id]) && AllDone(faults(id))
            && Feasible(envs(id), w.rows[id], Cell(w.accounts, KeyOf(w.rows[id])))
    ensures var after := Tick(envs, w, batch, faults);
      && after.rows[id] == Book(w.rows[id], true)
      && Cell(after.accounts, KeyOf(w.rows[id])) == Settled(envs(id), w.rows[id], Cell(w.accounts, KeyOf(w.rows[id])))
  {
    var accounts := TickAttempts(envs, w, batch, faults, id);
    ApplySyncSettles(envs(id), w.rows[id], accounts, faults(id));
  }

  // ---------------------------------------------------------------- runs

  /** Accounts of unqueued rows, and accounts of no row at all, survive any run unchanged. */
  lemma {:induction false} RunFrame(envs: seq<Envs>, worlds: seq<World>, batches: seq<seq<nat>>, faults: seq<Faults>,
                                    key: Key)
    requires IsRun(envs, worlds, batches, faults)
    requires forall id :: id in Pending(worlds[0].rows) ==> KeyOf(worlds[0].rows[id]) != key
    ensures Cell(worlds[|worlds| - 1].accounts, key) == Cell(worlds[0].accounts, key)
    decreases |batches|
  {
    if batches != [] {
      assert IsTick(envs[0], worlds[0], batches[0], faults[0], worlds[1]);
      TickFrame(envs[0], worlds[0], batches[0], faults[0], key);
      TickKeepsKeys(envs[0], worlds[0], batches[0], faults[0]);
      TickShrinksQueue(envs[0], worlds[0], batches[0], faults[0]);
      TailIsRun(envs, worlds, batches, faults);
      RunFrame(envs[1..], worlds[1..], batches[1..], faults[1..], key);
    }
  }

  /** A row that is not queued keeps its booking and its account. */
  lemma {:induction false} RunSkips(envs: seq<Envs>, worlds: seq<World>, batches: seq<seq<nat>>, faults: seq<Faults>,
                                    id: nat)
    requires IsRun(envs, worlds, batches, faults) && UniqueKeys(worlds[0].rows)
    requires id in worlds[0].rows && id !in Pending(worlds[0].rows)
    ensures var last := worlds[|worlds| - 1];
      && id in last.rows && last.rows[id] == worlds[0].rows[id]
      && Cell(last.accounts, KeyOf(worlds[0].rows[id])) == Cell(worlds[0].accounts, KeyOf(worlds[0].rows[id]))
    decreases |batches|
  {
    if batches != [] {
      assert IsTick(envs[0], worlds[0], batches[0], faults[0], worlds[1]);
      assert id !in batches[0];
      TickSkips(envs[0], worlds[0], batches[0], faults[0], id);
      TickKeepsKeys(envs[0], worlds[0], batches[0], faults[0]);
      TailIsRun(envs, worlds, batches, faults);
      RunSkips(envs[1..], worlds[1..], batches[1..], faults[1..], id);
    }
  }

  /** A change first tried while its device is offline stays lost, however the devices come back later. */
  lemma OfflineChangeStaysLost(envs: seq<Envs>, worlds: seq<World>, batches: seq<seq<nat>>, faults: seq<Faults>,
                               id: nat)
    requires IsRun(envs, worlds, batches, faults) && UniqueKeys(worlds[0].rows)
    requires batches != [] && id in batches[0] && id in worlds[0].rows
    requires worlds[0].rows[id].device !in envs[0](id).connected
    ensures var row, last := worlds[0].rows[id], worlds[|worlds| - 1];
      && id in last.rows && last.rows[id] == Book(row, true)
      && Cell(last.accounts, KeyOf(row)) == Cell(worlds[0].accounts, KeyOf(row))
  {
    assert IsTick(envs[0], worlds[0], batches[0], faults[0], worlds[1]);
    assert id in Pending(worlds[0].rows);
    TickKeepsKeys(envs[0], worlds[0], batches[0], faults[0]);
    var accounts := TickAttempts(envs[0], worlds[0], batches[0], faults[0], id);
    TailIsRun(envs, worlds, batches, faults);
    RunSkips(envs[1..], worlds[1..], batches[1..], faults[1..], id);
  }

  /** The device is connected and what the queued change needs to know reads as it does in `env`. */
  ghost predicate Serves(later: Env, env: Env, row: Subscription) {
    && row.device in later.connected
    && (row.sync.PendingCreate? ==> NormalProfile(later, row) == NormalProfile(env, row))
    && (row.sync.PendingProfileChange? || row.sync.PendingEnable? ==>
        TargetProfile(later, row) == TargetProfile(env, row))
  }

  /** Every tick finds the row's device connected and its profile data as in `env`; all else may come and go. */
  ghost predicate ServedThroughout(envs: seq<Envs>, env: Env, row: Subscription, id: nat) {
    forall k :: 0 <= k < |envs| ==> Serves(envs[k](id), env, row)
  }

  lemma ServedLater(envs: seq<Envs>, env: Env, row: Subscription, next: Subscription, id: nat)
    requires envs != [] && ServedThroughout(envs, env, row, id)
    requires next.device == row.device && next.service == row.service && next.status == row.status
    requires next.sync == row.sync
    requires next.pppProfile == row.pppProfile && next.hotspotProfile == row.hotspotProfile
    ensures Serves(envs[0](id), env, row) && ServedThroughout(envs[1..], env, next, id)
  {
    forall k | 0 <= k < |envs| - 1 ensures Serves(envs[1..][k](id), env, next) {
      assert Serves(envs[k + 1](id), env, row);
    }
  }

  lemma SameGoal(later: Env, env: Env, row: Subscription, cell: Option<Account>)
    requires Serves(later, env, row)
    ensures Settled(later, row, cell) == Settled(env, row, cell)
  {
  }

  /** How a row may end: given up, or booked as synced with its account as the change wants it. */
  ghost predicate Concluded(row: Subscription, goal: Option<Account>, last: World, id: nat) {
    && id in last.rows
    && (|| last.rows[id] == row.(sync := Error, retries := last.rows[id].retries)
        || (last.rows[id] == row.(sync := Synced, retries := 0) && Cell(last.accounts, KeyOf(row)) == goal))
  }

  /**
    One row through any run that drains the queue, with any commands refused or their replies
    lost, other devices coming and going: it is given up after its retries, or it is synced
    and its account is as the queued change wants it.  Even when given up, what was done to
    the account only leads towards that goal.
   */
  lemma {:induction false} RunConcludes(envs: seq<Envs>, env: Env, worlds: seq<World>, batches: seq<seq<nat>>,
                                        faults: seq<Faults>, id: nat)
    requires IsRun(envs, worlds, batches, faults) && UniqueKeys(worlds[0].rows)
    requires Pending(worlds[|worlds| - 1].rows) == {}
    requires id in worlds[0].rows && IsPending(worlds[0].rows[id])
    requires !worlds[0].rows[id].sync.Other? && !worlds[0].rows[id].service.OtherService?
    requires ServedThroughout(envs, env, worlds[0].rows[id], id)
    ensures var row, last := worlds[0].rows[id], worlds[|worlds| - 1];
      var goal := Settled(env, row, Cell(worlds[0].accounts, KeyOf(row)));
      && Concluded(row, goal, last, id)
      && Settled(env, row, Cell(last.accounts, KeyOf(row))) == goal
    decreases |batches|
  {
    assert id in Pending(worlds[0].rows);
    if batches == [] {
      assert false;
    } else {
      FirstTick(envs, env, worlds, batches, faults, id);
      TailIsRun(envs, worlds, batches, faults);
      if IsPending(worlds[1].rows[id]) {
        ServedLater(envs, env, worlds[0].rows[id], worlds[1].rows[id], id);
        RunConcludes(envs[1..], env, worlds[1..], batches[1..], faults[1..], id);
        StillTheGoal(env, worlds[0], worlds[1], worlds[|worlds| - 1], id);
      } else {
        RunSkips(envs[1..], worlds[1..], batches[1..], faults[1..], id);
      }
    }
  }

  lemma StillTheGoal(env: Env, w: World, next: World, last: World, id: nat)
    requires id in w.rows && id in next.rows
    requires next.rows[id] == w.rows[id] || next.rows[id] == w.rows[id].(retries := w.rows[id].retries + 1)
    requires Settled(env, w.rows[id], Cell(next.accounts, KeyOf(w.rows[id])))
            == Settled(env, w.rows[id], Cell(w.accounts, KeyOf(w.rows[id])))
    requires var goal := Settled(env, next.rows[id], Cell(next.accounts, KeyOf(next.rows[id])));
             && Concluded(next.rows[id], goal, last, id)
             && Settled(env, next.rows[id], Cell(last.accounts, KeyOf(next.rows[id]))) == goal
    ensures var goal := Settled(env, w.rows[id], Cell(w.accounts, KeyOf(w.rows[id])));
            && Concluded(w.rows[id], goal, last, id)
            && Settled(env, w.rows[id], Cell(last.accounts, KeyOf(w.rows[id]))) == goal
  {
  }

  /** After the first tick of a run the row is as it was, or has one more retry, or has concluded. */
  lemma FirstTick(envs: seq<Envs>, env: Env, worlds: seq<World>, batches: seq<seq<nat>>, faults: seq<Faults>, id: nat)
    requires IsRun(envs, worlds, batches, faults) && UniqueKeys(worlds[0].rows) && batches != []
    requires id in worlds[0].rows && IsPending(worlds[0].rows[id])
    requires !worlds[0].rows[id].sync.Other? && !worlds[0].rows[id].service.OtherService?
    requires ServedThroughout(envs, env, worlds[0].rows[id], id)
    ensures var row, next := worlds[0].rows[id], worlds[1];
      var goal := Settled(env, row, Cell(worlds[0].accounts, KeyOf(row)));
      && UniqueKeys(next.rows) && id in next.rows
      && Settled(env, row, Cell(next.accounts, KeyOf(row))) == goal
      && (next.rows[id] == row || next.rows[id] == row.(retries := row.retries + 1) || Concluded(row, goal, next, id))
  {
    assert IsTick(envs[0], worlds[0], batches[0], faults[0], worlds[1]);
    TickKeepsKeys(envs[0], worlds[0], batches[0], faults[0]);
    if id in batches[0] {
      assert Serves(envs[0](id), env, worlds[0].rows[id]);
      TickTowardsGoal(envs[0], env, worlds[0], batches[0], faults[0], id);
    } else {
      TickSkips(envs[0], worlds[0], batches[0], faults[0], id);
    }
  }

  /** One tick of that: the row waits on with one more retry, or concludes; the goal stays what it was. */
  lemma TickTowardsGoal(envs: Envs, env: Env, w: World, batch: seq<nat>, faults: Faults, id: nat)
    requires UniqueKeys(w.rows) && id in w.rows && id in batch
    requires forall i :: 0 <= i < |batch| ==> batch[i] in w.rows
    requires forall i, j :: 0 <= i < j < |batch| ==> batch[i] != batch[j]
    requires IsPending(w.rows[id]) && !w.rows[id].sync.Other? && !w.rows[id].service.OtherService?
    requires Serves(envs(id), env, w.rows[id])
    ensures var row, after := w.rows[id], Tick(envs, w, batch, faults);
      var goal := Settled(env, row, Cell(w.accounts, KeyOf(row)));
      && Settled(env, row, Cell(after.accounts, KeyOf(row))) == goal
      && (after.rows[id] == row.(retries := row.retries + 1) || Concluded(row, goal, after, id))
  {
    var row := w.rows[id];
    var accounts := TickAttempts(envs, w, batch, faults, id);
    AttemptKeepsGoal(envs(id), row, accounts, faults(id));
    SameGoal(envs(id), env, row, Cell(accounts, KeyOf(row)));
    SameGoal(envs(id), env, row, Cell(Tick(envs, w, batch, faults).accounts, KeyOf(row)));
  }

  /**
    A queued create whose account exists already is refused at every attempt, so the row ends
    in error, with the account as it was.
   */
  lemma {:induction false} CreateOfExistingEndsInError(envs: seq<Envs>, worlds: seq<World>, batches: seq<seq<nat>>,
                                                       faults: seq<Faults>, id: nat)
    requires IsRun(envs, worlds, batches, faults) && UniqueKeys(worlds[0].rows)
    requires Pending(worlds[|worlds| - 1].rows) == {}
    requires id in worlds[0].rows && worlds[0].rows[id].sync.PendingCreate? && !worlds[0].rows[id].service.OtherService?
    requires KeyOf(worlds[0].rows[id]) in worlds[0].accounts
    requires forall k :: 0 <= k < |envs| ==> worlds[0].rows[id].device in envs[k](id).connected
    ensures var row, last := worlds[0].rows[id], worlds[|worlds| - 1];
      && id in last.rows && last.rows[id] == row.(sync := Error, retries := last.rows[id].retries)
      && Cell(last.accounts, KeyOf(row)) == Cell(worlds[0].accounts, KeyOf(row))
    decreases |batches|
  {
    assert id in Pending(worlds[0].rows);
    if batches == [] {
      assert false;
    } else {
      CreateRefused(envs, worlds, batches, faults, id);
      TailIsRun(envs, worlds, batches, faults);
      if IsPending(worlds[1].rows[id]) {
        CreateOfExistingEndsInError(envs[1..], worlds[1..], batches[1..], faults[1..], id);
      } else {
        RunSkips(envs[1..], worlds[1..], batches[1..], faults[1..], id);
      }
    }
  }

  lemma CreateRefused(envs: seq<Envs>, worlds: seq<World>, batches: seq<seq<nat>>, faults: seq<Faults>, id: nat)
    requires IsRun(envs, worlds, batches, faults) && UniqueKeys(worlds[0].rows) && batches != []
    requires id in worlds[0].rows && worlds[0].rows[id].sync.PendingCreate? && !worlds[0].rows[id].service.OtherService?
    requires KeyOf(worlds[0].rows[id]) in worlds[0].accounts && worlds[0].rows[id].device in envs[0](id).connected
    ensures var row, next := worlds[0].rows[id], worlds[1];
      && UniqueKeys(next.rows) && id in next.rows
      && Cell(next.accounts, KeyOf(row)) == Cell(worlds[0].accounts, KeyOf(row))
      && (next.rows[id] == row || next.rows[id] == Book(row, false))
  {
    assert IsTick(envs[0], worlds[0], batches[0], faults[0], worlds[1]);
    TickKeepsKeys(envs[0], worlds[0], batches[0], faults[0]);
    if id in batches[0] {
      var accounts := TickAttempts(envs[0], worlds[0], batches[0], faults[0], id);
    } else {
      TickSkips(envs[0], worlds[0], batches[0], faults[0], id);
    }
  }

  /**
    So a create is not safe to run again: when the router obeys the first attempt and its
    reply is lost, the row ends in error although its account is there as wanted.
   */
  lemma LostCreateReplyEndsInError(envs: seq<Envs>, worlds: seq<World>, batches: seq<seq<nat>>, faults: seq<Faults>,
                                   id: nat)
    requires IsRun(envs, worlds, batches, faults) && UniqueKeys(worlds[0].rows)
    requires Pending(worlds[|worlds| - 1].rows) == {}
    requires batches != [] && id in batches[0] && faults[0](id)(0).Lost?
    requires id in worlds[0].rows && worlds[0].rows[id].sync.PendingCreate? && !worlds[0].rows[id].service.OtherService?
    requires worlds[0].rows[id].username != "" && KeyOf(worlds[0].rows[id]) !in worlds[0].accounts
    requires forall k :: 0 <= k < |envs| ==> worlds[0].rows[id].device in envs[k](id).connected
    ensures var row, last := worlds[0].rows[id], worlds[|worlds| - 1];
      && id in last.rows && last.rows[id].sync.Error?
      && Cell(last.accounts, KeyOf(row)) == Some(NewAccount(row.password, NormalProfile(envs[0](id), row)))
  {
    assert IsTick(envs[0], worlds[0], batches[0], faults[0], worlds[1]);
    CreateObeyed(envs[0], worlds[0], batches[0], faults[0], id);
    TailIsRun(envs, worlds, batches, faults);
    if IsPending(worlds[1].rows[id]) {
      CreateOfExistingEndsInError(envs[1..], worlds[1..], batches[1..], faults[1..], id);
    } else {
      RunSkips(envs[1..], worlds[1..], batches[1..], faults[1..], id);
    }
  }

  /** A tick in which a create is obeyed and its reply lost. */
  lemma CreateObeyed(envs: Envs, w: World, batch: seq<nat>, faults: Faults, id: nat)
    requires UniqueKeys(w.rows) && id in w.rows && id in batch && faults(id)(0).Lost?
    requires forall i :: 0 <= i < |batch| ==> batch[i] in w.rows
    requires forall i, j :: 0 <= i < j < |batch| ==> batch[i] != batch[j]
    requires w.rows[id].sync.PendingCreate? && !w.rows[id].service.OtherService? && w.rows[id].username != ""
    requires KeyOf(w.rows[id]) !in w.accounts && w.rows[id].device in envs(id).connected
    ensures var row, after := w.rows[id], Tick(envs, w, batch, faults);
      && UniqueKeys(after.rows) && after.rows[id] == Book(row, false)
      && Cell(after.accounts, KeyOf(row)) == Some(NewAccount(row.password, NormalProfile(envs(id), row)))
  {
    TickKeepsKeys(envs, w, batch, faults);
    var accounts := TickAttempts(envs, w, batch, faults, id);
    assert KeyOf(w.rows[id]) !in accounts;
    ObeyedCreate(envs(id), w.rows[id], accounts, faults(id));
  }

  lemma ObeyedCreate(env: Env, row: Subscription, accounts: Accounts, attempt: Attempt)
    requires row.sync.PendingCreate? && !row.service.OtherService? && row.username != ""
    requires KeyOf(row) !in accounts && row.device in env.connected && attempt(0).Lost?
    ensures var (after, ok) := ApplySync(env, row, accounts, attempt);
      !ok && Cell(after, KeyOf(row)) == Some(NewAccount(row.password, NormalProfile(env, row)))
  {
  }

  /** A row whose commands succeed, when it can be carried out at every tick, is settled and booked, exactly once. */
  lemma {:induction false} RunSettles(envs: seq<Envs>, env: Env, worlds: seq<World>, batches: seq<seq<nat>>,
                                      faults: seq<Faults>, id: nat)
    requires IsRun(envs, worlds, batches, faults) && UniqueKeys(worlds[0].rows)
    requires Pending(worlds[|worlds| - 1].rows) == {}
    requires id in worlds[0].rows && IsPending(worlds[0].rows[id])
    requires ServedThroughout(envs, env, worlds[0].rows[id], id)
    requires forall k :: 0 <= k < |envs| ==>
            Feasible(envs[k](id), worlds[0].rows[id], Cell(worlds[0].accounts, KeyOf(worlds[0].rows[id])))
    requires forall k :: 0 <= k < |faults| ==> AllDone(faults[k](id))
    ensures var row, last := worlds[0].rows[id], worlds[|worlds| - 1];
      && id in last.rows && last.rows[id] == Book(row, true)
      && Cell(last.accounts, KeyOf(row)) == Settled(env, row, Cell(worlds[0].accounts, KeyOf(row)))
    decreases |batches|
  {
    var row := worlds[0].rows[id];
    assert id in Pending(worlds[0].rows);
    if batches == [] {
      assert false;
    } else {
      assert IsTick(envs[0], worlds[0], batches[0], faults[0], worlds[1]);
      TickKeepsKeys(envs[0], worlds[0], batches[0], faults[0]);
      TailIsRun(envs, worlds, batches, faults);
      if id in batches[0] {
        TickSettles(envs[0], worlds[0], batches[0], faults[0], id);
        SameGoal(envs[0](id), env, row, Cell(worlds[0].accounts, KeyOf(row)));
        RunSkips(envs[1..], worlds[1..], batches[1..], faults[1..], id);
      } else {
        TickSkips(envs[0], worlds[0], batches[0], faults[0], id);
        ServedLater(envs, env, row, row, id);
        RunSettles(envs[1..], env, worlds[1..], batches[1..], faults[1..], id);
      }
    }
  }

  lemma EnforceKeepsKeys(rows: Rows, table: Table, now: int, limits: Limits)
    requires UniqueKeys(rows)
    ensures UniqueKeys(EnforceAll(rows, table, now, limits))
    ensures forall id :: id in rows ==> KeyOf(EnforceAll(rows, table, now, limits)[id]) == KeyOf(rows[id])
  {
    var after := EnforceAll(rows, table, now, limits);
    assert forall id :: id in rows ==> KeyOf(after[id]) == KeyOf(rows[id]);
  }

  /** The account is there and the device, wherever the row finds it, is connected with the same isolir profile. */
  ghost predicate Reachable(envs: seq<Envs>, env: Env, row: Subscription, id: nat) {
    && !row.service.OtherService?
    && forall k :: 0 <= k < |envs| ==>
        row.device in envs[k](id).connected && IsolirProfile(envs[k](id)) == IsolirProfile(env)
  }

  /**
    From a late invoice to the router: after a suspension check and n/4 + 5 outbox ticks, with
    any commands refused or their replies lost, a subscription the check throttled is given up
    with error or is synced with the isolir profile, one it suspended is given up or is synced
    and disabled, and nothing else about the account changed.  A row that was not queued keeps
    everything.
   */
  lemma LateInvoiceReachesRouter(envs: seq<Envs>, env: Env, rows: Rows, table: Table, now: int, limits: Limits,
                                 worlds: seq<World>, batches: seq<seq<nat>>, faults: seq<Faults>, id: nat)
    requires UniqueKeys(rows) && id in rows
    requires IsRun(envs, worlds, batches, faults)
    requires worlds[0].rows == EnforceAll(rows, table, now, limits)
    requires |batches| >= |Pending(worlds[0].rows)| / 4 + ESCALATION_THRESHOLD
    requires Reachable(envs, env, rows[id], id) && KeyOf(rows[id]) in worlds[0].accounts
    ensures var row, worst, last := rows[id], Worst(table, now, id), worlds[|worlds| - 1];
      var account := worlds[0].accounts[KeyOf(row)];
      && id in last.rows
      && (row.status.Active? && worst.Some? && limits.isolirAfter <= worst.value < limits.hardSuspendAfter ==>
            Concluded(row.(status := Isolir), Some(account.(profile := IsolirProfile(env))), last, id))
      && ((row.status.Active? || row.status.Isolir?) && worst.Some? && worst.value >= limits.hardSuspendAfter ==>
            Concluded(row.(status := Status.Suspended), Some(account.(disabled := true)), last, id))
      && (!IsPending(row) && Enforce(row, worst, limits) == row ==>
            last.rows[id] == row && Cell(last.accounts, KeyOf(row)) == Some(account))
  {
    EnforceKeepsKeys(rows, table, now, limits);
    OutboxDrains(envs, worlds, batches, faults);
    RunKeepsIds(envs, worlds, batches, faults);
    assert Pending(worlds[|worlds| - 1].rows) == {};
    var queued := worlds[0].rows[id];
    if queued != rows[id] {
      forall k | 0 <= k < |envs| ensures Serves(envs[k](id), env, queued) {
      }
      RunConcludes(envs, env, worlds, batches, faults, id);
    } else if !IsPending(queued) {
      RunSkips(envs, worlds, batches, faults, id);
    }
  }

  /** When, besides, no command for the row fails, it is not given up. */
  lemma LateInvoiceIsNotGivenUp(envs: seq<Envs>, env: Env, rows: Rows, table: Table, now: int, limits: Limits,
                                worlds: seq<World>, batches: seq<seq<nat>>, faults: seq<Faults>, id: nat)
    requires UniqueKeys(rows) && id in rows
    requires IsRun(envs, worlds, batches, faults)
    requires worlds[0].rows == EnforceAll(rows, table, now, limits) && worlds[0].rows[id] != rows[id]
    requires |batches| >= |Pending(worlds[0].rows)| / 4 + ESCALATION_THRESHOLD
    requires Reachable(envs, env, rows[id], id) && rows[id].username != ""
    requires forall k :: 0 <= k < |faults| ==> AllDone(faults[k](id))
    ensures var last := worlds[|worlds| - 1];
      id in last.rows && last.rows[id].sync.Synced? && last.rows[id].retries == 0
  {
    EnforceKeepsKeys(rows, table, now, limits);
    OutboxDrains(envs, worlds, batches, faults);
    assert Pending(worlds[|worlds| - 1].rows) == {};
    var queued := worlds[0].rows[id];
    forall k | 0 <= k < |envs| ensures Serves(envs[k](id), env, queued) {
    }
    RunSettles(envs, env, worlds, batches, faults, id);
  }

  // ---------------------------------------------------------------- from a payment to the router

  lemma RestoreKeepsKeys(rows: Rows, id: nat, today: Date)
    requires UniqueKeys(rows)
    ensures UniqueKeys(RestoredRows(rows, id, today))
    ensures forall other :: other in rows ==> KeyOf(RestoredRows(rows, id, today)[other]) == KeyOf(rows[other])
  {
    var after := RestoredRows(rows, id, today);
    assert forall other :: other in rows ==> KeyOf(after[other]) == KeyOf(rows[other]);
  }

  /** The row's device is connected and its plan gives this profile, wherever the row finds them. */
  ghost predicate Planned(envs: seq<Envs>, row: Subscription, name: string, id: nat) {
    forall k :: 0 <= k < |envs| ==> row.device in envs[k](id).connected && HasPlan(envs[k](id), row, name)
  }

  lemma PlannedIsServed(envs: seq<Envs>, row: Subscription, paid: Subscription, name: string, id: nat)
    requires Planned(envs, row, name, id) && envs != []
    requires paid.device == row.device && paid.service == row.service && paid.status.Active?
    requires paid.sync.PendingProfileChange? || paid.sync.PendingEnable?
    requires paid.pppProfile == row.pppProfile && paid.hotspotProfile == row.hotspotProfile
    ensures ServedThroughout(envs, envs[0](id), paid, id) && TargetProfile(envs[0](id), paid) == name != ""
  {
    forall k | 0 <= k < |envs| ensures TargetProfile(envs[k](id), paid) == name {
      assert HasPlan(envs[k](id), row, name);
    }
    forall k | 0 <= k < |envs| ensures Serves(envs[k](id), envs[0](id), paid) {
      assert row.device in envs[k](id).connected;
    }
  }

  /** A settled payment in the router: the profile of the plan; the lock is lifted only where the row was suspended. */
  function PaidAccount(row: Subscription, account: Account, name: string): Account {
    account.(profile := name, disabled := row.status.Isolir? && account.disabled)
  }

  /**
    From a payment to the router: after settling it and n/4 + 5 outbox ticks, with any
    commands refused or their replies lost, a throttled or suspended customer's row is given
    up with error, or is active and synced with the account on the profile of the plan and,
    if it was suspended, enabled.  It is not given up when none of its commands fails.
   */
  lemma PaymentReachesRouter(envs: seq<Envs>, name: string, rows: Rows, today: Date,
                             worlds: seq<World>, batches: seq<seq<nat>>, faults: seq<Faults>, id: nat)
    requires UniqueKeys(rows) && id in rows && (rows[id].status.Isolir? || rows[id].status.Suspended?)
    requires IsRun(envs, worlds, batches, faults)
    requires worlds[0].rows == RestoredRows(rows, id, today)
    requires |batches| >= |Pending(worlds[0].rows)| / 4 + ESCALATION_THRESHOLD
    requires Planned(envs, rows[id], name, id) && KeyOf(rows[id]) in worlds[0].accounts
    ensures var row, last := rows[id], worlds[|worlds| - 1];
      && Concluded(Restored(row, today), Some(PaidAccount(row, worlds[0].accounts[KeyOf(row)], name)), last, id)
      && last.rows[id].status.Active?
      && (row.username != "" && (forall k :: 0 <= k < |faults| ==> AllDone(faults[k](id))) ==>
            last.rows[id].sync.Synced?)
  {
    var row, paid := rows[id], worlds[0].rows[id];
    RestoreKeepsKeys(rows, id, today);
    RestoredIs(row, today);
    OutboxDrains(envs, worlds, batches, faults);
    assert Pending(worlds[|worlds| - 1].rows) == {};
    PlannedIsServed(envs, row, paid, name, id);
    assert HasPlan(envs[0](id), row, name);
    RunConcludes(envs, envs[0](id), worlds, batches, faults, id);
    if row.username != "" && forall k :: 0 <= k < |faults| ==> AllDone(faults[k](id)) {
      forall k | 0 <= k < |envs|
        ensures Feasible(envs[k](id), paid, Cell(worlds[0].accounts, KeyOf(paid))) {
        assert HasPlan(envs[k](id), row, name) && row.device in envs[k](id).connected;
      }
      RunSettles(envs, envs[0](id), worlds, batches, faults, id);
    }
  }

  /**
    One column holds what is queued, so a later change overwrites an earlier one.  A suspended
    customer pays, and before the next tick the check throttles the row for another invoice;
    after the next payment the row is active and synced, and the account is still locked.
   */
  lemma OverwrittenEnableStaysLocked(env: Env, w: World, id: nat, days: int, limits: Limits, today: Date,
                                     faults: Faults)
    requires id in w.rows && w.rows[id].status.Suspended? && KeyOf(w.rows[id]) in w.accounts
    requires w.accounts[KeyOf(w.rows[id])].disabled
    requires w.rows[id].device in env.connected && !w.rows[id].service.OtherService? && w.rows[id].username != ""
    requires limits.isolirAfter <= days < limits.hardSuspendAfter && AllDone(faults(id))
    ensures var late := Enforce(Restored(w.rows[id], today), Some(days), limits);
      var throttled := Process(env, World(w.rows[id := late], w.accounts), id, faults);
      var paid := RestoredRows(throttled.rows, id, today);
      var last := Process(env, World(paid, throttled.accounts), id, faults);
      && throttled.rows[id].status.Isolir? && paid[id].sync.PendingProfileChange?
      && last.rows[id].status.Active? && last.rows[id].sync.Synced?
      && KeyOf(w.rows[id]) in last.accounts && last.accounts[KeyOf(w.rows[id])].disabled
  {
  }

  lemma {:induction false} RunKeepsIds(envs: seq<Envs>, worlds: seq<World>, batches: seq<seq<nat>>, faults: seq<Faults>)
    requires IsRun(envs, worlds, batches, faults)
    ensures worlds[|worlds| - 1].rows.Keys == worlds[0].rows.Keys
    decreases |batches|
  {
    if batches != [] {
      assert IsTick(envs[0], worlds[0], batches[0], faults[0], worlds[1]);
      TailIsRun(envs, worlds, batches, faults);
      RunKeepsIds(envs[1..], worlds[1..], batches[1..], faults[1..]);
    }
  }
}
