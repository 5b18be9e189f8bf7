/**
  The mutable state machine behind PPPInactiveStream and HotspotInactiveStream
  (workflows/inactive_stream.go), proved to follow the functions of InactiveView.
 */
module InactiveStream {
  import opened InactiveView

  /**
    pppInactiveState and hotspotInactiveState.  `show` says what an event displays of a
    row and the last known address of its name; `listening` is false for a nil handler;
    `delivered` is everything the handler has been given.  The ghost fields record the
    rows handled so far and the batch each of them produced.
   */
  class InactiveState<D(==, !new), P(!new)> {
    const show: (Account<D>, string) -> P
    const listening: bool

    var configured: map<string, Account<D>>
    var configuredIds: map<string, string>
    var activeIds: map<string, string>
    var activeCounts: map<string, nat>
    var lastAddress: map<string, string>
    var inactive: map<string, Account<D>>
    var delivered: seq<Event<P>>

    ghost var inputs: seq<Input<D>>
    ghost var batches: seq<seq<Event<Account<D>>>>

    ghost predicate Valid()
      reads this
    {
      Keyed(configured) && Keyed(inactive) && Explained(Abs(), delivered, inputs, batches, show, listening)
    }

    ghost function Abs(): State<D>
      reads this
    {
      State(configured, configuredIds, activeIds, activeCounts, lastAddress, inactive)
    }

    constructor (show: (Account<D>, string) -> P, listening: bool)
      ensures Valid() && inputs == []
      ensures this.show == show && this.listening == listening
    {
      this.show, this.listening := show, listening;
      configured, configuredIds := map[], map[];
      activeIds, activeCounts, lastAddress := map[], map[], map[];
      inactive, delivered := map[], [];
      inputs, batches := [], [];
    }

    /** The common end of a handler: reconcile and hand the events over. */
    method Finish(ghost input: Input<D>)
      requires Keyed(configured) && Keyed(inactive)
      requires Abs().(inactive := Offline(configured, activeCounts)) == Step(Run(inputs), input)
      requires Explained(Run(inputs), delivered, inputs, batches, show, listening)
      requires inactive == Run(inputs).inactive
      modifies `inactive, `delivered, `inputs, `batches
      ensures Valid() && inputs == old(inputs) + [input]
      ensures old(delivered) <= delivered && old(batches) <= batches
    {
      ghost var batch;
      var events;
      batch, events := Reconcile();
      Emit(events);
      Record(input, batch, old(delivered));
    }

    /** Writes down what a step did, once the events are out. */
    ghost method Record(input: Input<D>, batch: seq<Event<Account<D>>>, before: seq<Event<P>>)
      requires Abs() == Step(Run(inputs), input) && Keyed(configured) && Keyed(inactive)
      requires Explained(Run(inputs), before, inputs, batches, show, listening)
      requires IsBatch(Run(inputs).inactive, inactive, batch)
      requires delivered == before + if listening then DisplayAll(batch, lastAddress, show) else []
      modifies `inputs, `batches
      ensures Valid() && inputs == old(inputs) + [input] && batches == old(batches) + [batch]
    {
      ExplainedStep(before, inputs, batches, show, listening, input, batch);
      inputs, batches := inputs + [input], batches + [batch];
    }

    /** onSecret and onUser: one row of the account stream. */
    method OnAccount(dead: bool, row: Account<D>)
      requires Valid()
      modifies this
      ensures Valid() && inputs == old(inputs) + [AccountRow(dead, row)]
      ensures old(delivered) <= delivered && old(batches) <= batches
    {
      TakeAccountLocked(dead, row);
      Finish(AccountRow(dead, row));
    }

    method TakeAccountLocked(dead: bool, row: Account<D>)
      requires Keyed(configured)
      modifies `configured, `configuredIds
      ensures Abs() == AccountStep(old(Abs()), dead, row) && Keyed(configured)
    {
      if dead {
        var name := row.name;
        if name == "" {
          name := Lookup(configuredIds, row.id);
        }
        if name != "" {
          configured := configured - {name};
        }
        if row.id != "" {
          configuredIds := configuredIds - {row.id};
        }
      } else if row.name != "" {
        if row.id != "" {
          var previous := Lookup(configuredIds, row.id);
          if previous != "" && previous != row.name {
            configured := configured - {previous};
          }
          configuredIds := configuredIds[row.id := row.name];
        }
        if row.disabled {
          configured := configured - {row.name};
        } else {
          configured := configured[row.name := row];
        }
      }
    }

    /** onActive: one row of the session stream. The hotspot stream reads no address. */
    method OnActive(dead: bool, id: string, rowName: string, address: string)
      requires Valid()
      modifies this
      ensures Valid() && inputs == old(inputs) + [SessionRow(dead, id, rowName, address)]
      ensures old(delivered) <= delivered && old(batches) <= batches
    {
      TakeSessionLocked(dead, id, rowName, address);
      Finish(SessionRow(dead, id, rowName, address));
    }

    method TakeSessionLocked(dead: bool, id: string, rowName: string, address: string)
      modifies `activeIds, `activeCounts, `lastAddress
      ensures Abs() == SessionStep(old(Abs()), dead, id, rowName, address)
    {
      var name := rowName;
      if dead {
        if name == "" {
          name := Lookup(activeIds, id);
        }
        RemoveActiveLocked(id, name);
      } else if name != "" {
        SetActiveLocked(id, name);
        if address != "" {
          lastAddress := lastAddress[name := address];
        }
      }
    }

    method SetActiveLocked(id: string, name: string)
      modifies `activeIds, `activeCounts
      ensures Abs() == SetActive(old(Abs()), id, name)
    {
      if id == "" {
        if CountOf(activeCounts, name) == 0 {
          activeCounts := activeCounts[name := 1];
        }
        return;
      }
      var previous := Lookup(activeIds, id);
      if previous == name {
        return;
      }
      if previous != "" {
        DecrementActiveLocked(previous);
      }
      activeIds := activeIds[id := name];
      activeCounts := activeCounts[name := CountOf(activeCounts, name) + 1];
    }

    method RemoveActiveLocked(id: string, name: string)
      modifies `activeIds, `activeCounts
      ensures Abs() == RemoveActive(old(Abs()), id, name)
    {
      if id != "" {
        activeIds := activeIds - {id};
      }
      if name != "" {
        DecrementActiveLocked(name);
      }
    }

    method DecrementActiveLocked(name: string)
      modifies `activeCounts
      ensures activeCounts == Decrement(old(activeCounts), name)
    {
      if CountOf(activeCounts, name) <= 1 {
        activeCounts := activeCounts - {name};
        return;
      }
      activeCounts := activeCounts[name := activeCounts[name] - 1];
    }

    method Reconcile() returns (ghost batch: seq<Event<Account<D>>>, events: seq<Event<P>>)
      requires Keyed(configured) && Keyed(inactive)
      modifies `inactive
      ensures Keyed(inactive)
      ensures inactive == Offline(configured, activeCounts)
      ensures IsBatch(old(inactive), inactive, batch)
      ensures events == DisplayAll(batch, lastAddress, show)
    {
      var next := OfflineAccounts(configured, activeCounts);
      var rows := Diff(inactive, next);
      events := [];
      for i := 0 to |rows|
        invariant events == DisplayAll(rows[..i], lastAddress, show)
      {
        assert rows[..i + 1][..i] == rows[..i];
        events := events + [Display(rows[i], lastAddress, show)];
      }
      assert rows[..|rows|] == rows;
      inactive := next;
      batch := rows;
    }

    method Emit(events: seq<Event<P>>)
      modifies `delivered
      ensures delivered == old(delivered) + if listening then events else []
    {
      if |events| == 0 || !listening {
        return;
      }
      for i := 0 to |events|
        invariant delivered == old(delivered) + events[..i]
      {
        delivered := delivered + [events[i]];
      }
    }
  }

  /** The enabled accounts nobody is using. */
  method OfflineAccounts<D>(configured: map<string, Account<D>>, counts: map<string, nat>)
      returns (next: map<string, Account<D>>)
    requires Keyed(configured)
    ensures next == Offline(configured, counts) && Keyed(next)
  {
    next := map[];
    var todo := configured.Keys;
    while todo != {}
      invariant todo <= configured.Keys
      invariant forall n :: n in next <==> n in configured && n !in todo && CountOf(counts, n) == 0
      invariant forall n :: n in next ==> next[n] == configured[n]
    {
      var name :| name in todo;
      if CountOf(counts, name) == 0 {
        next := next[name := configured[name]];
      }
      todo := todo - {name};
    }
  }

  /** The removed and changed names of the old view, in any order. */
  method DiffOld<D(==, !new)>(prev: map<string, Account<D>>, next: map<string, Account<D>>)
      returns (batch: seq<Event<Account<D>>>)
    requires Keyed(prev) && Keyed(next)
    ensures forall i :: 0 <= i < |batch| ==> Explains(prev, next, batch[i]) && !batch[i].action.Added?
    ensures forall i, j :: 0 <= i < j < |batch| ==> batch[i].name != batch[j].name
    ensures forall n :: n in prev && Differs(prev, next, n) ==> Mentions(batch, n)
  {
    batch := [];
    var todo := prev.Keys;
    while todo != {}
      invariant todo <= prev.Keys
      invariant forall i :: 0 <= i < |batch| ==>
              Explains(prev, next, batch[i]) && !batch[i].action.Added? && batch[i].name !in todo
      invariant forall i, j :: 0 <= i < j < |batch| ==> batch[i].name != batch[j].name
      invariant forall n :: n in prev && n !in todo && Differs(prev, next, n) ==> Mentions(batch, n)
    {
      var name :| name in todo;
      ghost var before := batch;
      if name !in next {
        batch := batch + [Event(prev[name].name, prev[name], Removed)];
      } else if next[name] != prev[name] {
        batch := batch + [Event(next[name].name, next[name], Changed)];
      }
      todo := todo - {name};
      forall n | n in prev && n !in todo && Differs(prev, next, n) ensures Mentions(batch, n) {
        MentionsGrows(before, batch, n);
        if n == name {
          assert batch[|batch| - 1].name == n;
        }
      }
    }
  }

  /** The added names of the new view, in any order. */
  method DiffNew<D(==, !new)>(prev: map<string, Account<D>>, next: map<string, Account<D>>)
      returns (batch: seq<Event<Account<D>>>)
    requires Keyed(next)
    ensures forall i :: 0 <= i < |batch| ==> Explains(prev, next, batch[i]) && batch[i].action.Added?
    ensures forall i, j :: 0 <= i < j < |batch| ==> batch[i].name != batch[j].name
    ensures forall n :: n in next && n !in prev ==> Mentions(batch, n)
  {
    batch := [];
    var todo := next.Keys;
    while todo != {}
      invariant todo <= next.Keys
      invariant forall i :: 0 <= i < |batch| ==>
              Explains(prev, next, batch[i]) && batch[i].action.Added? && batch[i].name !in todo
      invariant forall i, j :: 0 <= i < j < |batch| ==> batch[i].name != batch[j].name
      invariant forall n :: n in next && n !in todo && n !in prev ==> Mentions(batch, n)
    {
      var name :| name in todo;
      ghost var before := batch;
      if name !in prev {
        batch := batch + [Event(next[name].name, next[name], Added)];
      }
      todo := todo - {name};
      forall n | n in next && n !in todo && n !in prev ensures Mentions(batch, n) {
        MentionsGrows(before, batch, n);
        if n == name {
          assert batch[|batch| - 1].name == n;
        }
      }
    }
  }

  /** The events of one step: first what left or changed, then what is new. */
  method Diff<D(==, !new)>(prev: map<string, Account<D>>, next: map<string, Account<D>>)
      returns (batch: seq<Event<Account<D>>>)
    requires Keyed(prev) && Keyed(next)
    ensures IsBatch(prev, next, batch)
  {
    var gone := DiffOld(prev, next);
    var come := DiffNew(prev, next);
    batch := gone + come;
    forall n | Differs(prev, next, n) ensures Mentions(batch, n) {
      MentionsGrows(gone, batch, n);
      if n !in prev {
        var k :| 0 <= k < |come| && come[k].name == n;
        assert batch[|gone| + k].name == n;
      }
    }
  }

  lemma MentionsGrows<P(!new)>(before: seq<Event<P>>, after: seq<Event<P>>, n: string)
    requires before <= after
    ensures Mentions(before, n) ==> Mentions(after, n)
  {
    if Mentions(before, n) {
      var k :| 0 <= k < |before| && before[k].name == n;
      assert after[k].name == n;
    }
  }

  // ---------------------------------------------------------------- the two services

  /** domain.PPPSecret without .id, name and disabled. */
  datatype PPPDetail = PPPDetail(
    password: string, service: string, profile: string, localAddr: string, remoteAddr: string,
    callerId: string, routes: string, ipv6Routes: string, remoteIpv6Prefix: string,
    limitBytesIn: int, limitBytesOut: int, lastLoggedOut: string, lastCallerId: string,
    lastDisconnectReason: string, comment: string)

  /** PPPInactiveEvent without the name and the action. */
  datatype PPPShown = PPPShown(
    profile: string, callerId: string, lastCallerId: string, lastLoggedOut: string,
    lastDisconnectReason: string, address: string)

  function ShowSecret(secret: Account<PPPDetail>, lastAddress: string): PPPShown {
    var d := secret.detail;
    PPPShown(d.profile, d.callerId, d.lastCallerId, d.lastLoggedOut, d.lastDisconnectReason, lastAddress)
  }

  /** domain.HotspotUser without .id, name and disabled. */
  datatype HotspotDetail = HotspotDetail(
    password: string, profile: string, server: string, comment: string, macAddress: string,
    address: string, email: string, routes: string, limitUptime: string,
    limitBytesTotal: int, limitBytesIn: int, limitBytesOut: int, bytesIn: int, bytesOut: int, uptime: string)

  /** HotspotInactiveEvent carries the whole user and no session address. */
  function ShowUser(user: Account<HotspotDetail>, lastAddress: string): Account<HotspotDetail> {
    user
  }

  /** An event shows this secret with this address. */
  predicate Tells(known: PPPShown, secret: Account<PPPDetail>, address: string) {
    && known.profile == secret.detail.profile
    && known.callerId == secret.detail.callerId && known.lastCallerId == secret.detail.lastCallerId
    && known.lastLoggedOut == secret.detail.lastLoggedOut
    && known.lastDisconnectReason == secret.detail.lastDisconnectReason
    && known.address == address
  }

  /**
    What a PPP listener knows by replaying its events: exactly the enabled, offline
    secrets of the router, each as the router has it and with the address of its latest
    session that had one.
   */
  lemma PPPListenerKnowsTheRouter(inputs: seq<Input<PPPDetail>>, batches: seq<seq<Event<Account<PPPDetail>>>>)
    requires WellFormedFeed(inputs) && IsEmission(inputs, batches)
    ensures UniqueNames(RouterAfter(inputs).accounts)
    ensures var known, truth := Replay(map[], Emitted(inputs, batches, ShowSecret)), Recompute(RouterAfter(inputs));
      && known.Keys == truth.Keys
      && forall n :: n in known ==>
           Tells(known[n], truth[n], known[n].address) && IsLastAddress(inputs, n, known[n].address)
  {
    ReplayShowsCurrentAddresses(inputs, batches, ShowSecret);
    var known, truth := Replay(map[], Emitted(inputs, batches, ShowSecret)), Recompute(RouterAfter(inputs));
    forall n | n in known
      ensures Tells(known[n], truth[n], known[n].address) && IsLastAddress(inputs, n, known[n].address) {
      var address :| IsLastAddress(inputs, n, address) && known[n] == ShowSecret(truth[n], address);
    }
  }

  /** A hotspot listener rebuilds the offline users row by row. */
  lemma HotspotListenerKnowsTheRouter(inputs: seq<Input<HotspotDetail>>,
                                      batches: seq<seq<Event<Account<HotspotDetail>>>>)
    requires WellFormedFeed(inputs) && IsEmission(inputs, batches)
    ensures UniqueNames(RouterAfter(inputs).accounts)
    ensures Replay(map[], Emitted(inputs, batches, ShowUser)) == Recompute(RouterAfter(inputs))
  {
    ReplayShowsCurrentAddresses(inputs, batches, ShowUser);
    ShownWhole(Replay(map[], Emitted(inputs, batches, ShowUser)), Recompute(RouterAfter(inputs)), inputs);
  }

  lemma ShownWhole(known: map<string, Account<HotspotDetail>>, truth: map<string, Account<HotspotDetail>>,
                   inputs: seq<Input<HotspotDetail>>)
    requires ShowsTruth(known, truth, inputs, ShowUser)
    ensures known == truth
  {
    forall n | n in truth ensures known[n] == truth[n] {
      var address :| IsLastAddress(inputs, n, address) && known[n] == ShowUser(truth[n], address);
    }
  }
}
